/** The rotating imbalance of src/imbalance.c.

T threads run C cycles with a barrier after each. In its cycle i, thread t works
((t + i) mod T) + 1 units, so the slowest thread changes from cycle to cycle. The barrier
counts arrivals; the last one opens it for all and starts a new generation.
*/
module Imbalance {
  import opened Runs
  import opened Arith
  import opened Sums

  datatype Pc = Hog | Arrive | Blocked(gen: nat) | Move

  /** work is history: what do_hog has been asked for so far. */
  datatype Thread = Thread(pc: Pc, i: nat, pos: nat, work: int)

  datatype Config = Config(T: nat, C: nat, max: int, arrived: nat, gen: nat, threads: seq<Thread>)

  type State = s: Config | |s.threads| == s.T >= 1
    witness Config(1, 0, 0, 0, 0, [Thread(Hog, 0, 0, 0)])

  function Start(T: nat, C: nat, max: int): State
    requires T >= 1
  {
    Config(T, C, max, 0, 0, seq(T, t requires 0 <= t < T => Thread(Hog, 0, t, 0)))
  }

  predicate Enabled(s: State, t: nat) {
    && t < s.T
    && match s.threads[t].pc
       case Hog => s.threads[t].i < s.C
       case Blocked(gen) => s.gen > gen
       case _ => true
  }

  function Step(s: State, t: nat): State {
    if !Enabled(s, t) then s
    else
      var th := s.threads[t];
      match th.pc
      case Hog => s.(threads := s.threads[t := th.(pc := Arrive, work := th.work + (th.pos + 1) * s.max)])
      case Arrive =>
        var u := s.(threads := s.threads[t := th.(pc := Blocked(s.gen))]);
        if s.arrived + 1 == s.T then u.(arrived := 0, gen := s.gen + 1) else u.(arrived := s.arrived + 1)
      case Blocked(_) => s.(threads := s.threads[t := th.(pc := Move)])
      case Move => s.(threads := s.threads[t := th.(pc := Hog, i := th.i + 1, pos := (th.pos + 1) % s.T)])
  }

  predicate Finished(s: State) {
    forall t | 0 <= t < s.T :: s.threads[t].i == s.C
  }

  // ----- Work -----

  /** What a thread that stands at position x mod T is asked to do. */
  function Load(x: nat, T: nat, max: int): int
    requires T >= 1
  {
    (x % T + 1) * max
  }

  /** The work of n cycles that begin at position t. */
  function Work(t: nat, n: nat, T: nat, max: int): int
    requires T >= 1
  {
    if n == 0 then 0 else Work(t, n - 1, T, max) + Load(t + n - 1, T, max)
  }

  // ----- Invariant -----

  predicate Waiting(th: Thread, gen: nat) {
    th.pc == Blocked(gen)
  }

  function WaitFlags(threads: seq<Thread>, gen: nat): seq<nat> {
    seq(|threads|, t requires 0 <= t < |threads| => if Waiting(threads[t], gen) then 1 else 0)
  }

  /** The barriers thread th has passed. */
  function Passed(th: Thread): nat {
    th.i + if th.pc.Move? then 1 else 0
  }

  ghost predicate ThreadInv(s: State, t: nat)
    requires t < s.T
  {
    var th := s.threads[t];
    && th.i <= s.C && (th.i == s.C ==> th.pc.Hog?)
    && th.pos == (t + th.i) % s.T
    && th.work == Work(t, th.i + if th.pc.Hog? then 0 else 1, s.T, s.max)
    && match th.pc
       case Hog => th.i == s.gen
       case Arrive => th.i == s.gen
       case Blocked(g) => g == th.i && th.i <= s.gen <= th.i + 1
       case Move => s.gen == th.i + 1
  }

  ghost predicate Inv(s: State) {
    && s.arrived == Sum(WaitFlags(s.threads, s.gen)) < s.T
    && s.gen <= s.C
    && forall t | 0 <= t < s.T :: ThreadInv(s, t)
  }

  lemma FlagUpdate(threads: seq<Thread>, gen: nat, t: nat, th: Thread)
    requires t < |threads|
    ensures Sum(WaitFlags(threads[t := th], gen)) + (if Waiting(threads[t], gen) then 1 else 0)
         == Sum(WaitFlags(threads, gen)) + (if Waiting(th, gen) then 1 else 0)
  {
    var v := if Waiting(th, gen) then 1 else 0;
    assert WaitFlags(threads[t := th], gen) == WaitFlags(threads, gen)[t := v];
    SumUpdate(WaitFlags(threads, gen), t, v);
  }

  /** The last arrival finds every other thread waiting. */
  lemma AllWait(threads: seq<Thread>, gen: nat)
    requires Sum(WaitFlags(threads, gen)) == |threads|
    ensures forall t | 0 <= t < |threads| :: threads[t].pc == Blocked(gen)
  {
    SumOfFlags(WaitFlags(threads, gen));
    forall t | 0 <= t < |threads| ensures threads[t].pc == Blocked(gen) {
      assert WaitFlags(threads, gen)[t] == 1;
    }
  }

  lemma ArriveKeepsInv(s: State, t: nat)
    requires Inv(s) && t < s.T && s.threads[t].pc == Arrive
    ensures Inv(Step(s, t))
  {
    var u := Step(s, t);
    assert ThreadInv(s, t);
    FlagUpdate(s.threads, s.gen, t, u.threads[t]);
    if s.arrived + 1 == s.T {
      AllWait(u.threads, s.gen);
      SumOfFlags(WaitFlags(u.threads, u.gen));
    }
    forall m | 0 <= m < s.T ensures ThreadInv(u, m) { assert ThreadInv(s, m); }
  }

  /** A step of thread t that leaves the barrier alone, from what it does to t itself. */
  lemma InvBut(s: State, t: nat, th: Thread)
    requires Inv(s) && t < s.T && !Waiting(s.threads[t], s.gen) && !Waiting(th, s.gen)
    requires ThreadInv(s.(threads := s.threads[t := th]), t)
    ensures Inv(s.(threads := s.threads[t := th]))
  {
    var u: State := s.(threads := s.threads[t := th]);
    FlagUpdate(s.threads, s.gen, t, th);
    forall m | 0 <= m < s.T ensures ThreadInv(u, m) { assert ThreadInv(s, m); }
  }

  lemma HogKeepsInv(s: State, t: nat)
    requires Inv(s) && Enabled(s, t) && s.threads[t].pc == Hog
    ensures Inv(Step(s, t))
  {
    assert ThreadInv(s, t);
    InvBut(s, t, Step(s, t).threads[t]);
  }

  lemma LeaveKeepsInv(s: State, t: nat)
    requires Inv(s) && Enabled(s, t) && s.threads[t].pc.Blocked?
    ensures Inv(Step(s, t))
  {
    assert ThreadInv(s, t);
    InvBut(s, t, Step(s, t).threads[t]);
  }

  lemma MoveKeepsInv(s: State, t: nat)
    requires Inv(s) && Enabled(s, t) && s.threads[t].pc == Move
    ensures Inv(Step(s, t))
  {
    assert ThreadInv(s, t);
    DivModSucc(t + s.threads[t].i, s.T);
    InvBut(s, t, Step(s, t).threads[t]);
  }

  lemma StepKeepsInv(s: State, t: nat)
    requires Inv(s)
    ensures Inv(Step(s, t))
  {
    if Enabled(s, t) {
      match s.threads[t].pc
      case Hog => HogKeepsInv(s, t);
      case Arrive => ArriveKeepsInv(s, t);
      case Blocked(_) => LeaveKeepsInv(s, t);
      case Move => MoveKeepsInv(s, t);
    }
  }

  lemma StartIsInv(T: nat, C: nat, max: int)
    requires T >= 1
    ensures Inv(Start(T, C, max))
  {
    var s := Start(T, C, max);
    SumOfFlags(WaitFlags(s.threads, 0));
    forall t | 0 <= t < T ensures ThreadInv(s, t) { DivModUnique(t, T, 0, t); }
  }

  lemma RunKeepsInv(T: nat, C: nat, max: int, sched: seq<nat>)
    requires T >= 1
    ensures var s := Run(Step, Start(T, C, max), sched); Inv(s) && s.T == T && s.C == C && s.max == max
  {
    StartIsInv(T, C, max);
    forall x: State, t: nat | Inv(x) ensures Inv(Step(x, t)) { StepKeepsInv(x, t); }
    RunKeeps(Step, (x: State) => Inv(x) && x.T == T && x.C == C && x.max == max, Start(T, C, max), sched);
  }

  // ----- Main results -----

  /** Under every interleaving no thread is more than one barrier ahead of another, threads in the same
      cycle stand at different positions, and a thread's position and work depend on its number and its
      cycle alone. */
  lemma ThreadsStayTogether(T: nat, C: nat, max: int, sched: seq<nat>, t: nat, u: nat)
    requires T >= 1 && t < T && u < T
    ensures var s := Run(Step, Start(T, C, max), sched);
      && s.T == T
      && var a, b := s.threads[t], s.threads[u];
         && Passed(a) <= Passed(b) + 1
         && a.pos == (t + a.i) % T
         && a.work == Work(t, a.i + if a.pc.Hog? then 0 else 1, T, max)
         && (t != u && a.i == b.i ==> a.pos != b.pos)
  {
    RunKeepsInv(T, C, max, sched);
    Together(Run(Step, Start(T, C, max), sched), t, u);
  }

  lemma Together(s: State, t: nat, u: nat)
    requires Inv(s) && t < s.T && u < s.T
    ensures Passed(s.threads[t]) <= Passed(s.threads[u]) + 1
    ensures t != u && s.threads[t].i == s.threads[u].i ==> s.threads[t].pos != s.threads[u].pos
    ensures s.threads[t].pos == (t + s.threads[t].i) % s.T
    ensures s.threads[t].work == Work(t, s.threads[t].i + if s.threads[t].pc.Hog? then 0 else 1, s.T, s.max)
  {
    PlaceOf(s, t);
    PlaceOf(s, u);
    if t != u { PositionsDiffer(t, u, s.threads[t].i, s.T); }
  }

  lemma PlaceOf(s: State, t: nat)
    requires Inv(s) && t < s.T
    ensures Passed(s.threads[t]) <= s.gen <= Passed(s.threads[t]) + 1
    ensures s.threads[t].pos == (t + s.threads[t].i) % s.T
    ensures s.threads[t].work == Work(t, s.threads[t].i + if s.threads[t].pc.Hog? then 0 else 1, s.T, s.max)
  {
    assert ThreadInv(s, t);
  }

  lemma PositionsDiffer(t: nat, u: nat, i: nat, T: nat)
    requires t < T && u < T && t != u
    ensures (t + i) % T != (u + i) % T
  {
    if t < u { ModApart(t + i, u + i, T); } else { ModApart(u + i, t + i, T); }
  }

  /** A thread that begins its cycle i is asked for ((t + i) mod T) + 1 units of work, and then goes to the
      barrier; this is what the work of its cycle i adds. */
  lemma CycleLoad(T: nat, C: nat, max: int, sched: seq<nat>, t: nat)
    requires T >= 1 && t < T
    ensures var s := Run(Step, Start(T, C, max), sched);
      && s.T == T
      && var th := s.threads[t];
         th.pc.Hog? && th.i < C ==>
           && Step(s, t).threads[t] == th.(pc := Arrive, work := th.work + ((t + th.i) % T + 1) * max)
           && Work(t, th.i + 1, T, max) == Work(t, th.i, T, max) + ((t + th.i) % T + 1) * max
  {
    RunKeepsInv(T, C, max, sched);
    var s: State := Run(Step, Start(T, C, max), sched);
    PlaceOf(s, t);
    WorkStep(t, s.threads[t].i, T, max);
    if s.threads[t].pc.Hog? && s.threads[t].i < C { HogStep(s, t, (t + s.threads[t].i) % T); }
  }

  lemma WorkStep(t: nat, i: nat, T: nat, max: int)
    requires T >= 1
    ensures Work(t, i + 1, T, max) == Work(t, i, T, max) + ((t + i) % T + 1) * max
  {
  }

  lemma HogStep(s: State, t: nat, pos: nat)
    requires t < s.T && s.threads[t].pc.Hog? && s.threads[t].i < s.C && s.threads[t].pos == pos
    ensures var th := s.threads[t];
      Step(s, t).threads[t] == th.(pc := Arrive, work := th.work + (pos + 1) * s.max)
  {
  }

  /** The slowest thread of cycle i, the only one with T units of work in that cycle when nobody has more,
      is thread (T - 1 - i) mod T. */
  lemma SlowestRotates(T: nat, i: nat, t: nat, max: int)
    requires T >= 1 && t < T
    ensures (t + i) % T == T - 1 <==> t == (T - 1 - i) % T
    ensures max >= 0 ==> Work(t, i + 1, T, max) - Work(t, i, T, max) <= T * max
    ensures max >= 1 ==> (Work(t, i + 1, T, max) - Work(t, i, T, max) == T * max <==> t == (T - 1 - i) % T)
  {
    SlowestPosition(T, i, t);
    var load := (t + i) % T + 1;
    WorkStep(t, i, T, max);
    assert (T - load) * max == T * max - load * max;
    if max >= 1 { MulBounds(max, T - load); }
  }

  lemma SlowestPosition(T: nat, i: nat, t: nat)
    requires T >= 1 && t < T
    ensures (t + i) % T == T - 1 <==> t == (T - 1 - i) % T
  {
    var q, r := (T - 1 - i) / T, (T - 1 - i) % T;
    assert T - 1 - i == T * q + r;
    assert r + i == T * (-q) + (T - 1) by { assert T * (-q) == -(T * q); }
    DivModUnique(r + i, T, -q, T - 1);
    if t < r { ModApart(t + i, r + i, T); }
    if r < t { ModApart(r + i, t + i, T); }
  }

  function MovesOf(th: Thread, C: nat): nat {
    var rest := if th.i <= C then 4 * (C - th.i) else 0;
    var done := match th.pc case Hog => 0 case Arrive => 1 case Blocked(_) => 2 case Move => 3;
    if done <= rest then rest - done else 0
  }

  function AllMoves(s: State): seq<nat> {
    seq(s.T, t requires 0 <= t < s.T => MovesOf(s.threads[t], s.C))
  }

  function MovesLeft(s: State): nat {
    Sum(AllMoves(s))
  }

  lemma EveryMoveCounts(s: State, t: nat)
    requires Inv(s)
    ensures MovesLeft(Step(s, t)) + (if Enabled(s, t) then 1 else 0) == MovesLeft(s)
  {
    if Enabled(s, t) {
      var u := Step(s, t);
      assert ThreadInv(s, t);
      assert AllMoves(u) == AllMoves(s)[t := MovesOf(u.threads[t], s.C)];
      SumUpdate(AllMoves(s), t, MovesOf(u.threads[t], s.C));
    }
  }

  lemma {:induction false} SumOfConstant(xs: seq<nat>, v: nat)
    requires forall k | 0 <= k < |xs| :: xs[k] == v
    ensures Sum(xs) == |xs| * v
  {
    if xs == [] {
    } else {
      SumOfConstant(xs[..|xs| - 1], v);
      assert |xs| * v == (|xs| - 1) * v + v;
    }
  }

  lemma SomeThreadMoves(s: State) returns (t: nat)
    requires Inv(s) && !Finished(s)
    ensures Enabled(s, t)
  {
    var late :| 0 <= late < s.T && s.threads[late].i != s.C;
    assert ThreadInv(s, late);
    var flags := WaitFlags(s.threads, s.gen);
    SumOfFlags(flags);
    var m :| 0 <= m < |flags| && flags[m] != 1;
    assert ThreadInv(s, m);
    t := if Enabled(s, late) then late else m;
  }

  /** No interleaving deadlocks at the barrier; all threads have returned exactly when 4 * C * T moves have
      been made, and then thread t has done the work of C cycles from position t. */
  lemma CyclesComplete(T: nat, C: nat, max: int, sched: seq<nat>)
    requires T >= 1
    ensures var s := Run(Step, Start(T, C, max), sched);
      var moves := Moves(Step, Enabled, Start(T, C, max), sched);
      && moves <= T * (4 * C) && s.T == T
      && (!Finished(s) ==> exists t :: Enabled(s, t))
      && (Finished(s) <==> moves == T * (4 * C))
      && (Finished(s) ==> forall t | 0 <= t < T :: s.threads[t].work == Work(t, C, T, max))
  {
    StartIsInv(T, C, max);
    forall x: State, t: nat | Inv(x)
      ensures Inv(Step(x, t)) && MovesLeft(Step(x, t)) + (if Enabled(x, t) then 1 else 0) == MovesLeft(x)
    {
      StepKeepsInv(x, t);
      EveryMoveCounts(x, t);
    }
    MovesExact(Step, Enabled, Inv, MovesLeft, Start(T, C, max), sched);
    SumOfConstant(AllMoves(Start(T, C, max)), 4 * C);
    RunKeepsInv(T, C, max, sched);
    NoMovesLeftIff(Run(Step, Start(T, C, max), sched));
  }

  lemma NoMovesLeftIff(s: State)
    requires Inv(s)
    ensures MovesLeft(s) == 0 <==> Finished(s)
    ensures !Finished(s) ==> exists t :: Enabled(s, t)
    ensures Finished(s) ==> forall t | 0 <= t < s.T :: s.threads[t].work == Work(t, s.C, s.T, s.max)
  {
    if Finished(s) {
      forall t | 0 <= t < s.T ensures AllMoves(s)[t] == 0 && s.threads[t].work == Work(t, s.C, s.T, s.max) {
        assert ThreadInv(s, t);
      }
      SumOfConstant(AllMoves(s), 0);
    } else {
      var t := SomeThreadMoves(s);
      EveryMoveCounts(s, t);
    }
  }

  // ----- Balance -----

  /** Starting one position later drops the first load and adds the next one. */
  lemma {:induction false} ShiftWork(t: nat, n: nat, T: nat, max: int)
    requires T >= 1
    ensures Work(t + 1, n, T, max) == Work(t, n, T, max) + Load(t + n, T, max) - Load(t, T, max)
  {
    if n > 0 { ShiftWork(t, n - 1, T, max); }
  }

  lemma LoadRepeats(x: nat, n: nat, T: nat, max: int)
    requires T >= 1 && n % T == 0
    ensures Load(x + n, T, max) == Load(x, T, max)
  {
    assert x == T * (x / T) + x % T;
    assert n == T * (n / T);
    assert T * (x / T + n / T) == T * (x / T) + T * (n / T);
    DivModUnique(x + n, T, x / T + n / T, x % T);
  }

  lemma {:induction false} WholeTurnsBalance(t: nat, n: nat, T: nat, max: int)
    requires T >= 1 && n % T == 0
    ensures Work(t, n, T, max) == Work(0, n, T, max)
  {
    if t > 0 {
      WholeTurnsBalance(t - 1, n, T, max);
      ShiftWork(t - 1, n, T, max);
      LoadRepeats(t - 1, n, T, max);
    }
  }

  /** All threads do the same total work exactly when the number of threads divides the number of cycles
      (or a unit of work is nothing). */
  lemma BalancedIff(T: nat, C: nat, max: int)
    requires T >= 1
    ensures (forall t, u | 0 <= t < T && 0 <= u < T :: Work(t, C, T, max) == Work(u, C, T, max))
      <==> C % T == 0 || max == 0
  {
    if C % T == 0 {
      forall t, u | 0 <= t < T && 0 <= u < T ensures Work(t, C, T, max) == Work(u, C, T, max) {
        WholeTurnsBalance(t, C, T, max);
        WholeTurnsBalance(u, C, T, max);
      }
    } else {
      ShiftWork(0, C, T, max);
      DivModUnique(0, T, 0, 0);
      assert Load(C, T, max) - Load(0, T, max) == (C % T) * max;
      MulBounds(C % T, max);
      if max == 0 {
        forall t, u | 0 <= t < T && 0 <= u < T ensures Work(t, C, T, max) == Work(u, C, T, max) {
          NoWork(t, C, T);
          NoWork(u, C, T);
        }
      } else {
        DivModUnique(C, 1, C, 0);
        assert T >= 2;
        assert Work(1, C, T, max) != Work(0, C, T, max);
      }
    }
  }

  lemma {:induction false} NoWork(t: nat, n: nat, T: nat)
    requires T >= 1
    ensures Work(t, n, T, 0) == 0
  {
    if n > 0 { NoWork(t, n - 1, T); }
  }

  lemma {:induction false} FirstTurn(n: nat, T: nat, max: int)
    requires T >= 1 && n <= T
    ensures 2 * Work(0, n, T, max) == n * (n + 1) * max
  {
    if n > 0 {
      FirstTurn(n - 1, T, max);
      DivModUnique(n - 1, T, 0, n - 1);
      assert n * (n + 1) * max == (n - 1) * n * max + 2 * (n * max);
    }
  }

  lemma {:induction false} WorkAppend(t: nat, m: nat, n: nat, T: nat, max: int)
    requires T >= 1
    ensures Work(t, m + n, T, max) == Work(t, m, T, max) + Work(t + m, n, T, max)
  {
    if n > 0 { WorkAppend(t, m, n - 1, T, max); }
  }

  lemma OneTurnMore(q: nat, T: nat, max: int)
    requires T >= 1 && q >= 1
    ensures Work(0, q * T, T, max) == Work(0, (q - 1) * T, T, max) + Work(0, T, T, max)
  {
    assert q * T == (q - 1) * T + T;
    WorkAppend(0, (q - 1) * T, T, T, max);
    DivModUnique(T, T, 1, 0);
    WholeTurnsBalance((q - 1) * T, T, T, max);
  }

  lemma {:induction false} TurnsTotal(q: nat, T: nat, max: int, turn: int)
    requires T >= 1 && 2 * Work(0, T, T, max) == turn
    ensures 2 * Work(0, q * T, T, max) == q * turn
  {
    if q > 0 {
      TurnsTotal(q - 1, T, max, turn);
      OneTurnMore(q, T, max);
      assert q * turn == (q - 1) * turn + turn;
    }
  }

  /** The common total: C / T whole turns of T * (T + 1) / 2 units each. */
  lemma BalancedTotal(t: nat, q: nat, T: nat, max: int)
    requires T >= 1
    ensures 2 * Work(t, q * T, T, max) == q * (T * (T + 1) * max)
  {
    DivModUnique(q * T, T, q, 0);
    WholeTurnsBalance(t, q * T, T, max);
    FirstTurn(T, T, max);
    TurnsTotal(q, T, max, T * (T + 1) * max);
  }

  // ----- The program itself -----

  class Cycles {
    const C: nat
    const max: int
    var arrived: nat
    var gen: nat
    const threads: array<Thread>

    ghost function View(): State
      requires threads.Length >= 1
      reads this, threads
    {
      Config(threads.Length, C, max, arrived, gen, threads[..])
    }

    constructor (T: nat, C: nat, max: int)
      requires T >= 1
      ensures threads.Length == T && View() == Start(T, C, max) && fresh(threads)
    {
      this.C, this.max := C, max;
      arrived, gen := 0, 0;
      threads := new Thread[T](t requires t >= 0 => Thread(Hog, 0, t, 0));
      new;
      assert threads[..] == Start(T, C, max).threads;
    }

    /** The next step of worker t. */
    method Worker(t: nat)
      requires t < threads.Length
      modifies this`arrived, this`gen, threads
      ensures View() == Step(old(View()), t)
    {
      var th := threads[t];
      match th.pc
      case Hog =>
        if th.i < C {
          threads[t] := th.(pc := Arrive, work := th.work + (th.pos + 1) * max);
        }
      case Arrive =>
        threads[t] := th.(pc := Blocked(gen));
        arrived := arrived + 1;
        if arrived == threads.Length {
          arrived, gen := 0, gen + 1;
        }
      case Blocked(g) =>
        if gen > g {
          threads[t] := th.(pc := Move);
        }
      case Move => threads[t] := th.(pc := Hog, i := th.i + 1, pos := (th.pos + 1) % threads.Length);
    }

    method Execute(sched: seq<nat>)
      requires threads.Length >= 1 && forall t | t in sched :: t < threads.Length
      modifies this`arrived, this`gen, threads
      ensures View() == Run(Step, old(View()), sched)
    {
      for k := 0 to |sched|
        invariant View() == Run(Step, old(View()), sched[..k])
      {
        RunAppend(Step, old(View()), sched[..k], sched[k]);
        assert sched[..k] + [sched[k]] == sched[..k + 1];
        assert sched[k] in sched;
        Worker(sched[k]);
      }
      assert sched[..|sched|] == sched;
    }
  }
}
