/** The periodic bursts of src/pulse.c.

main computes a period from a frequency and, before each burst, sleeps up to the next
multiple of the period. Time is the number of microseconds the clock shows, sleeps are
exact, and each burst takes the time given for it. Division is that of C.
*/
module Pulse {
  import opened Arith
  import opened CInts

  const USEC_PER_SEC: int := 1_000_000
  const NSEC_PER_SEC: int := 1_000_000_000

  /** The period of main: 0 for a frequency beyond a million, and negative for a negative one. */
  function Period(freq: int): int
    requires freq != 0
  {
    Quot(USEC_PER_SEC, freq)
  }

  /** The sync of main: microseconds to sleep when the clock shows now. */
  function Sync(now: nat, period: int): int
    requires period != 0
  {
    period - Rem(now % USEC_PER_SEC, period)
  }

  /** Whether nanosleep accepts the tv_nsec main sets. */
  predicate SleepAccepted(sync: int) {
    0 <= sync * 1000 < NSEC_PER_SEC
  }

  lemma SyncBounds(now: nat, period: int)
    requires period != 0
    ensures period >= 1 ==>
      Sync(now, period) == period - now % USEC_PER_SEC % period && 1 <= Sync(now, period) <= period
    ensures period <= -1 ==> Sync(now, period) < 0
  {
    var u := now % USEC_PER_SEC;
    assert u == period * (u / period) + u % period;
  }

  lemma PeriodBounds(freq: int)
    requires freq != 0
    ensures 1 <= freq <= USEC_PER_SEC ==> 1 <= Period(freq) <= USEC_PER_SEC
    ensures -USEC_PER_SEC <= freq <= -1 ==> Period(freq) <= -1
    ensures Period(freq) == 0 <==> freq > USEC_PER_SEC || freq < -USEC_PER_SEC
    ensures Period(freq) == USEC_PER_SEC <==> freq == 1
  {
    var p, r := Period(freq), USEC_PER_SEC % freq;
    assert USEC_PER_SEC == freq * p + r;
    if p != 0 {
      if freq > 0 { MulBounds(freq, p); MulBounds(freq, p - 1); } else { MulBounds(-freq, p); }
    }
    if p == USEC_PER_SEC { ProductOfSecond(freq, r); }
  }

  /** The period is a second divided by the frequency, rounded towards zero. */
  lemma PeriodIsSecondOverFrequency(freq: int)
    requires freq != 0
    ensures freq >= 1 ==> Period(freq) * freq <= 1_000_000 < (Period(freq) + 1) * freq && Period(freq) >= 0
    ensures freq <= -1 ==> Period(freq) == -Period(-freq)
  {
    var p, r := Period(freq), USEC_PER_SEC % freq;
    assert USEC_PER_SEC == freq * p + r;
    assert (p + 1) * freq == freq * p + freq;
    if freq < 0 {
      var q, u := Period(-freq), USEC_PER_SEC % -freq;
      assert USEC_PER_SEC == (-freq) * q + u;
      assert (-freq) * (-p) == freq * p;
      DivModUnique(USEC_PER_SEC, -freq, -p, r);
    } else {
      if p < 0 { MulBounds(freq, p); }
    }
  }

  /** Where the frequency divides a second the period is the other factor. */
  lemma PeriodOfDivisor(freq: int, p: int)
    requires freq >= 1 && p * freq == 1_000_000
    ensures Period(freq) == p && Alignable(freq)
  {
    assert USEC_PER_SEC == freq * p + 0;
    DivModUnique(USEC_PER_SEC, freq, p, 0);
    MulBounds(freq, p);
    assert USEC_PER_SEC == p * freq + 0;
    DivModUnique(USEC_PER_SEC, p, freq, 0);
  }

  lemma ProductOfSecond(freq: int, r: int)
    requires USEC_PER_SEC == freq * USEC_PER_SEC + r && freq != 0
    requires 0 <= r < if freq > 0 then freq else -freq
    ensures freq == 1
  {
  }

  /** The sleep is refused exactly for a negative frequency, and for a frequency of 1 with the clock on a
      whole second. */
  lemma SleepRefusedIff(now: nat, freq: int)
    requires freq != 0 && -USEC_PER_SEC <= freq <= USEC_PER_SEC
    ensures Period(freq) != 0
    ensures !SleepAccepted(Sync(now, Period(freq))) <==> freq < 0 || (freq == 1 && now % USEC_PER_SEC == 0)
  {
    PeriodBounds(freq);
    SyncBounds(now, Period(freq));
    if freq == 1 {
      DivModUnique(now % USEC_PER_SEC, USEC_PER_SEC, 0, now % USEC_PER_SEC);
    }
  }

  /** The wake-up is on a multiple of the period whatever the clock shows, exactly when the period divides
      a second; it does when the frequency does. */
  lemma WakesOnPeriodIff(freq: int)
    requires 1 <= freq <= USEC_PER_SEC
    ensures Period(freq) >= 1
    ensures (forall now: nat :: (now + Sync(now, Period(freq))) % Period(freq) == 0)
      <==> USEC_PER_SEC % Period(freq) == 0
    ensures USEC_PER_SEC % freq == 0 ==> USEC_PER_SEC % Period(freq) == 0
  {
    PeriodBounds(freq);
    var p := Period(freq);
    if USEC_PER_SEC % freq == 0 {
      assert USEC_PER_SEC == p * freq + 0;
      DivModUnique(USEC_PER_SEC, p, freq, 0);
    }
    if USEC_PER_SEC % p == 0 {
      forall now: nat ensures (now + Sync(now, p)) % p == 0 { WakeIsMultiple(now, p); }
    } else {
      WakeAfterSecond(p);
    }
  }

  lemma WakeIsMultiple(now: nat, p: int)
    requires p >= 1 && USEC_PER_SEC % p == 0
    ensures (now + Sync(now, p)) % p == 0
    ensures now + Sync(now, p) == (now / p + 1) * p
  {
    SyncBounds(now, p);
    var s, u := now / USEC_PER_SEC, now % USEC_PER_SEC;
    var k := USEC_PER_SEC / p;
    assert USEC_PER_SEC == p * k;
    assert u == p * (u / p) + u % p;
    var q := s * k + u / p;
    assert p * q == (p * k) * s + p * (u / p) by { assert p * (s * k) == (p * k) * s; }
    assert now == USEC_PER_SEC * s + u;
    assert now == p * q + u % p;
    DivModUnique(now, p, q, u % p);
    assert now + Sync(now, p) == p * (q + 1) + 0 by { assert p * (q + 1) == p * q + p; }
    DivModUnique(now + Sync(now, p), p, q + 1, 0);
  }

  /** At the start of the second second the sleep is a whole period, from a time that is not on one. */
  lemma WakeAfterSecond(p: int)
    requires p >= 1 && USEC_PER_SEC % p != 0
    ensures (USEC_PER_SEC + Sync(USEC_PER_SEC, p)) % p != 0
  {
    SyncBounds(USEC_PER_SEC, p);
    DivModUnique(0, p, 0, 0);
    var q, r := USEC_PER_SEC / p, USEC_PER_SEC % p;
    assert USEC_PER_SEC == p * q + r;
    assert USEC_PER_SEC + p == p * (q + 1) + r by { assert p * (q + 1) == p * q + p; }
    DivModUnique(USEC_PER_SEC + p, p, q + 1, r);
  }

  // ----- The loop of main -----

  /** The time of the burst that follows when the clock shows now: a refused sleep returns at once. */
  function Wake(now: nat, period: int): nat
    requires period != 0
  {
    if SleepAccepted(Sync(now, period)) then now + Sync(now, period) else now
  }

  /** The bursts of the given lengths, from a clock that shows now. */
  function Bursts(now: nat, period: int, spins: seq<nat>): (times: seq<nat>)
    requires period != 0
    ensures |times| == |spins|
    decreases |spins|
  {
    if spins == [] then []
    else [Wake(now, period)] + Bursts(Wake(now, period) + spins[0], period, spins[1..])
  }

  /** Burst lengths after which the next burst is not late. */
  predicate Fits(spin: nat, freq: int)
    requires freq >= 1
  {
    if freq == 1 then 1 <= spin <= USEC_PER_SEC else spin < Period(freq)
  }

  /** A frequency whose bursts can be aligned: its period divides a second. */
  predicate Alignable(freq: int) {
    1 <= freq <= USEC_PER_SEC && Period(freq) >= 1 && USEC_PER_SEC % Period(freq) == 0
  }

  /** The first multiple of p after at + spin, for a multiple at. */
  lemma NextMultiple(at: nat, spin: nat, p: int)
    requires p >= 1 && at % p == 0
    ensures (at + spin) % p == spin % p
    ensures ((at + spin) / p + 1) * p == at + (spin / p + 1) * p
  {
    var q, e, r := at / p, spin / p, spin % p;
    assert at == p * q && spin == p * e + r;
    assert p * (q + e) == p * q + p * e;
    DivModUnique(at + spin, p, q + e, r);
    assert (q + e + 1) * p == p * q + (e + 1) * p;
  }

  lemma OnePeriodIff(spin: nat, p: int)
    requires p >= 1
    ensures (spin / p + 1) * p == p <==> spin < p
  {
    var e := spin / p;
    assert spin == p * e + spin % p;
    assert (e + 1) * p == p * e + p;
    if spin < p { DivModUnique(spin, p, 0, spin); } else { MulBounds(p, e); }
  }

  /** From a burst on a boundary the next one is on a boundary too, and on the next one exactly if the
      burst between them fits. */
  lemma NextBurst(at: nat, spin: nat, freq: int)
    requires Alignable(freq) && at % Period(freq) == 0
    ensures var next := Wake(at + spin, Period(freq));
      next % Period(freq) == 0 && (next == at + Period(freq) <==> Fits(spin, freq))
  {
    PeriodBounds(freq);
    SleepRefusedIff(at + spin, freq);
    var p := Period(freq);
    WakeIsMultiple(at + spin, p);
    NextMultiple(at, spin, p);
    OnePeriodIff(spin, p);
    if freq == 1 && spin < p { DivModUnique(spin, p, 0, spin); }
  }

  lemma FirstBurst(now: nat, freq: int)
    requires Alignable(freq)
    ensures Wake(now, Period(freq)) % Period(freq) == 0
  {
    PeriodBounds(freq);
    SleepRefusedIff(now, freq);
    WakeIsMultiple(now, Period(freq));
  }

  predicate OnPeriod(times: seq<nat>, p: int)
    requires p >= 1
  {
    forall i | 0 <= i < |times| :: times[i] % p == 0
  }

  /** Gaps of one period exactly after the bursts that fit. */
  predicate ApartWhereFitting(times: seq<nat>, spins: seq<nat>, freq: int)
    requires freq >= 1 && |times| == |spins|
  {
    forall i | 0 <= i < |spins| - 1 :: times[i + 1] == times[i] + Period(freq) <==> Fits(spins[i], freq)
  }

  lemma OnPeriodCons(first: nat, later: seq<nat>, p: int)
    requires p >= 1 && first % p == 0 && OnPeriod(later, p)
    ensures OnPeriod([first] + later, p)
  {
  }

  lemma ApartCons(first: nat, later: seq<nat>, spins: seq<nat>, freq: int)
    requires freq >= 1 && |later| + 1 == |spins| && ApartWhereFitting(later, spins[1..], freq)
    requires |later| >= 1 ==> (later[0] == first + Period(freq) <==> Fits(spins[0], freq))
    ensures ApartWhereFitting([first] + later, spins, freq)
  {
    var times := [first] + later;
    forall i | 0 <= i < |spins| - 1
      ensures times[i + 1] == times[i] + Period(freq) <==> Fits(spins[i], freq)
    {
      if i > 0 { assert later[i - 1 + 1] == times[i + 1] && later[i - 1] == times[i] && spins[1..][i - 1] == spins[i]; }
    }
  }

  /** With a period that divides a second every burst starts on a multiple of the period. They are all
      one period apart, with no boundary skipped, exactly when every burst but the last one fits. */
  lemma {:induction false} BurstsAlign(now: nat, freq: int, spins: seq<nat>)
    requires Alignable(freq)
    ensures OnPeriod(Bursts(now, Period(freq), spins), Period(freq))
    ensures ApartWhereFitting(Bursts(now, Period(freq), spins), spins, freq)
    decreases |spins|
  {
    FirstBurst(now, freq);
    var p := Period(freq);
    if spins != [] {
      var first := Wake(now, p);
      BurstsAlign(first + spins[0], freq, spins[1..]);
      NextBurst(first, spins[0], freq);
      var later := Bursts(first + spins[0], p, spins[1..]);
      OnPeriodCons(first, later, p);
      ApartCons(first, later, spins, freq);
    }
  }

  /** All bursts of all runs start on multiples of the period exactly when the period divides a second. */
  lemma BurstsAlignIff(freq: int)
    requires 1 <= freq <= USEC_PER_SEC
    ensures Period(freq) >= 1
    ensures (forall now: nat, spins: seq<nat> :: OnPeriod(Bursts(now, Period(freq), spins), Period(freq)))
      <==> USEC_PER_SEC % Period(freq) == 0
  {
    PeriodBounds(freq);
    var p := Period(freq);
    if USEC_PER_SEC % p == 0 {
      forall now: nat, spins: seq<nat> ensures OnPeriod(Bursts(now, p, spins), p) { BurstsAlign(now, freq, spins); }
    } else {
      SleepRefusedIff(USEC_PER_SEC, freq);
      WakeAfterSecond(p);
      DivModUnique(USEC_PER_SEC, USEC_PER_SEC, 1, 0);
      assert Bursts(USEC_PER_SEC, p, [0])[0] % p != 0;
    }
  }

  /** With a frequency of which p times make a second, every burst starts on a multiple of p microseconds, and
      the next one exactly p later if and only if the burst ends before that (for a frequency of 1: if and
      only if it takes some time and at most a second). */
  lemma BurstsEverySoMuch(now: nat, freq: int, p: int, spins: seq<nat>)
    requires freq >= 1 && p * freq == 1_000_000
    ensures Period(freq) == p >= 1
    ensures var times := Bursts(now, p, spins);
      && (forall i | 0 <= i < |spins| :: times[i] % p == 0)
      && (forall i | 0 <= i < |spins| - 1 ::
            times[i + 1] == times[i] + p <==> if freq == 1 then 1 <= spins[i] <= 1_000_000 else spins[i] < p)
  {
    PeriodOfDivisor(freq, p);
    BurstsAlign(now, freq, spins);
  }

  /** What the clock shows after the sync block that begins at now: the sleep of main, spelt out. */
  function AfterSync(now: nat, p: int): nat
    requires p >= 1
  {
    var sync := p - now % 1_000_000 % p;
    if sync < 1_000_000 then now + sync else now
  }

  lemma WakeIs(now: nat, p: int)
    requires p >= 1
    ensures Wake(now, p) == AfterSync(now, p)
  {
    SyncBounds(now, p);
  }

  /** Each burst starts after the sync block that follows the burst before it. */
  predicate Follow(times: seq<nat>, spins: seq<nat>, p: int)
    requires p >= 1 && |times| == |spins|
  {
    forall i | 0 <= i < |spins| - 1 :: times[i + 1] == AfterSync(times[i] + spins[i], p)
  }

  lemma FollowCons(first: nat, later: seq<nat>, spins: seq<nat>, p: int)
    requires p >= 1 && |later| + 1 == |spins| && Follow(later, spins[1..], p)
    requires |later| >= 1 ==> later[0] == AfterSync(first + spins[0], p)
    ensures Follow([first] + later, spins, p)
  {
    var times := [first] + later;
    forall i | 0 <= i < |spins| - 1
      ensures times[i + 1] == AfterSync(times[i] + spins[i], p)
    {
      if i > 0 { assert later[i - 1 + 1] == times[i + 1] && later[i - 1] == times[i] && spins[1..][i - 1] == spins[i]; }
    }
  }

  /** For every positive period, whether or not it divides a second, the first burst starts after a sync
      block and every other one after the sync block that follows the burst before it. */
  lemma {:induction false} BurstsFollow(now: nat, p: int, spins: seq<nat>)
    requires p >= 1
    ensures spins != [] ==> Bursts(now, p, spins)[0] == AfterSync(now, p)
    ensures Follow(Bursts(now, p, spins), spins, p)
    decreases |spins|
  {
    WakeIs(now, p);
    if spins != [] {
      var first := Wake(now, p);
      BurstsFollow(first + spins[0], p, spins[1..]);
      FollowCons(first, Bursts(first + spins[0], p, spins[1..]), spins, p);
    }
  }

  /** No gap between one burst and the next. */
  predicate BackToBack(times: seq<nat>, spins: seq<nat>)
    requires |times| == |spins|
  {
    forall i | 0 <= i < |spins| - 1 :: times[i + 1] == times[i] + spins[i]
  }

  lemma BackToBackCons(first: nat, later: seq<nat>, spins: seq<nat>)
    requires |later| + 1 == |spins| && BackToBack(later, spins[1..])
    requires |later| >= 1 ==> later[0] == first + spins[0]
    ensures BackToBack([first] + later, spins)
  {
    var times := [first] + later;
    forall i | 0 <= i < |spins| - 1
      ensures times[i + 1] == times[i] + spins[i]
    {
      if i > 0 { assert later[i - 1 + 1] == times[i + 1] && later[i - 1] == times[i] && spins[1..][i - 1] == spins[i]; }
    }
  }

  /** With a negative frequency no sleep is accepted: the bursts start at once and follow one another
      without a gap. */
  lemma {:induction false} NegativeNeverSleeps(now: nat, freq: int, spins: seq<nat>)
    requires -USEC_PER_SEC <= freq <= -1
    ensures Period(freq) != 0
    ensures spins != [] ==> Bursts(now, Period(freq), spins)[0] == now
    ensures BackToBack(Bursts(now, Period(freq), spins), spins)
    decreases |spins|
  {
    SleepRefusedIff(now, freq);
    if spins != [] {
      NegativeNeverSleeps(now + spins[0], freq, spins[1..]);
      BackToBackCons(now, Bursts(now + spins[0], Period(freq), spins[1..]), spins);
    }
  }

  /** nr_iter: the number of bursts main sets out to make, as an int. */
  function Iterations(duration: int, freq: int): int {
    ToInt(Quot(duration, USEC_PER_SEC) * freq)
  }

  /** A duration of s whole seconds and less than one more makes s times freq bursts, as far as an int holds
      that; a negative one counts its whole seconds too. */
  lemma IterationsOfSeconds(s: nat, rest: nat, freq: int)
    requires rest < 1_000_000
    ensures INT_MIN <= s * freq <= INT_MAX ==> Iterations(1_000_000 * s + rest, freq) == s * freq
    ensures INT_MIN <= -(s * freq) <= INT_MAX ==> Iterations(-(1_000_000 * s + rest), freq) == -(s * freq)
  {
    DivModUnique(1_000_000 * s + rest, USEC_PER_SEC, s, rest);
  }

  /** The sync block of main's loop: the time at which nanosleep returns. */
  method SleepToBoundary(now: nat, freq: int) returns (wake: nat)
    requires freq != 0 && -USEC_PER_SEC <= freq <= USEC_PER_SEC
    ensures Period(freq) != 0 && wake == Wake(now, Period(freq))
    ensures var sync := 1_000_000 / freq - now % 1_000_000 % (1_000_000 / freq);
      wake == if freq > 0 && sync < 1_000_000 then now + sync else now
  {
    PeriodBounds(freq);
    SyncBounds(now, Period(freq));
    SleepRefusedIff(now, freq);
    var period := Quot(USEC_PER_SEC, freq);
    var sync := period - Rem(now % USEC_PER_SEC, period);
    var nsec := sync * 1000;
    wake := if 0 <= nsec < NSEC_PER_SEC then now + sync else now;
  }

  /** The loop of main, where spin_run for burst i takes spins[i] microseconds. It divides by a period
      of 0, for which ok is false, exactly if there is a burst to make with a frequency beyond a million in size. */
  method PulseLoop(start: nat, duration: int, freq: int, spins: seq<nat>) returns (ok: bool, times: seq<nat>)
    requires |spins| == if Iterations(duration, freq) < 0 then 0 else Iterations(duration, freq)
    ensures Iterations(duration, freq) > 0 ==> freq != 0
    ensures !ok <==> Iterations(duration, freq) > 0 && (freq > USEC_PER_SEC || freq < -USEC_PER_SEC)
    ensures times == if Iterations(duration, freq) <= 0 || !ok then [] else Bursts(start, Period(freq), spins)
  {
    ok, times := true, [];
    var iter := Iterations(duration, freq);
    if iter > 0 {
      PeriodBounds(freq);
    }
    var now := start;
    var i := 0;
    while i < iter
      invariant 0 <= i <= |spins| && 0 <= now && ok
      invariant iter > 0 ==> freq != 0
      invariant i > 0 ==> -USEC_PER_SEC <= freq <= USEC_PER_SEC
      invariant iter <= 0 ==> times == []
      invariant iter > 0 && Period(freq) != 0 ==>
        Bursts(start, Period(freq), spins) == times + Bursts(now, Period(freq), spins[i..])
      invariant i == 0 ==> times == []
    {
      if freq > USEC_PER_SEC || freq < -USEC_PER_SEC {
        ok := false;
        return;
      }
      assert spins[i..][1..] == spins[i + 1..];
      now := SleepToBoundary(now, freq);
      times := times + [now];
      now := now + spins[i];
      i := i + 1;
    }
  }

  // ----- Pinning -----

  /** pulse_pincpu's index into a cpuset of nrcpus entries. */
  function PinSlot(id: nat, nrcpus: nat): nat
    requires nrcpus >= 1
  {
    id % nrcpus
  }

  /** The loop of spin_init seen from the cpuset: how many of n threads each slot gets. */
  method PinThreads(n: nat, nrcpus: nat) returns (load: array<nat>)
    requires nrcpus >= 1
    ensures fresh(load) && load.Length == nrcpus
    ensures forall c | 0 <= c < nrcpus :: load[c] == |Turns(n, nrcpus, c)|
    ensures forall c, d | 0 <= c < nrcpus && 0 <= d < nrcpus :: load[c] <= load[d] + 1
  {
    load := new nat[nrcpus](_ => 0);
    for id := 0 to n
      invariant forall c | 0 <= c < nrcpus :: load[c] == CountTurns(id, nrcpus, c)
    {
      var slot := PinSlot(id, nrcpus);
      load[slot] := load[slot] + 1;
    }
    forall c | 0 <= c < nrcpus
      ensures load[c] == Share(n, nrcpus, c) == |Turns(n, nrcpus, c)|
    {
      ShareCounts(n, nrcpus, c);
      CountTurnsIs(n, nrcpus, c);
    }
  }
}
