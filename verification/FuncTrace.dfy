/** The doubling loop of ust/functrace/functrace.c and the entry and exit trace it leaves when its
functions are instrumented. */
module FuncTrace {
  import opened CInts

  datatype Fn = Foo | Bar | Baz

  datatype Event = Enter(fn: Fn, arg: int) | Exit(fn: Fn)

  datatype Option<T> = None | Some(value: T)

  function Pow2(k: nat): nat {
    if k == 0 then 1 else 2 * Pow2(k - 1)
  }

  // ----- Well-nested traces -----

  /** The call stack after a trace, if every exit belongs to the call on top. */
  function Replay(trace: seq<Event>, stack: seq<Fn>): Option<seq<Fn>>
    decreases |trace|
  {
    if trace == [] then Some(stack)
    else match trace[0]
      case Enter(fn, _) => Replay(trace[1..], [fn] + stack)
      case Exit(fn) => if stack != [] && stack[0] == fn then Replay(trace[1..], stack[1..]) else None
  }

  /** Every call in the trace returns, in order, and leaves the stack it found. */
  ghost predicate WellNested(trace: seq<Event>) {
    forall stack :: Replay(trace, stack) == Some(stack)
  }

  lemma {:induction false} ReplayConcat(a: seq<Event>, b: seq<Event>, stack: seq<Fn>)
    ensures Replay(a + b, stack) ==
      match Replay(a, stack) case Some(s) => Replay(b, s) case None => None
    decreases |a|
  {
    if a == [] {
      assert a + b == b;
    } else {
      assert (a + b)[1..] == a[1..] + b;
      match a[0]
      case Enter(fn, _) => ReplayConcat(a[1..], b, [fn] + stack);
      case Exit(fn) => if stack != [] && stack[0] == fn { ReplayConcat(a[1..], b, stack[1..]); }
    }
  }

  lemma NestedConcat(a: seq<Event>, b: seq<Event>)
    requires WellNested(a) && WellNested(b)
    ensures WellNested(a + b)
  {
    forall stack ensures Replay(a + b, stack) == Some(stack) { ReplayConcat(a, b, stack); }
  }

  lemma NestedCall(fn: Fn, arg: int, body: seq<Event>)
    requires WellNested(body)
    ensures WellNested([Enter(fn, arg)] + body + [Exit(fn)])
  {
    var all := [Enter(fn, arg)] + body + [Exit(fn)];
    forall stack ensures Replay(all, stack) == Some(stack) {
      assert all[1..] == body + [Exit(fn)];
      ReplayConcat(body, [Exit(fn)], [fn] + stack);
      assert ([fn] + stack)[1..] == stack;
    }
  }

  // ----- Specification -----

  /** The calls of baz from the first k rounds of bar's loop: the argument of round j is 2^(j+1) - 2. */
  function BazCalls(k: nat): seq<Event> {
    if k == 0 then [] else BazCalls(k - 1) + [Enter(Baz, Pow2(k) - 2), Exit(Baz)]
  }

  function BarTrace(n: int, k: nat): seq<Event> {
    [Enter(Bar, n)] + BazCalls(k) + [Exit(Bar)]
  }

  /** The number of rounds of bar(n): the least k with 2^k - 1 >= n. */
  ghost predicate IsRounds(n: int, k: nat) {
    Pow2(k) - 1 >= n && forall j | 0 <= j < k :: Pow2(j) - 1 < n
  }

  lemma {:induction false} Pow2Grows(j: nat, k: nat)
    requires j <= k
    ensures Pow2(j) <= Pow2(k) && (j < k ==> 2 * Pow2(j) <= Pow2(k))
  {
    if j < k { Pow2Grows(j, k - 1); }
  }

  lemma {:induction false} BazCallsNested(k: nat)
    ensures WellNested(BazCalls(k)) && |BazCalls(k)| == 2 * k
  {
    if k > 0 {
      BazCallsNested(k - 1);
      var call := [Enter(Baz, Pow2(k) - 2), Exit(Baz)];
      NestedCall(Baz, Pow2(k) - 2, []);
      assert [Enter(Baz, Pow2(k) - 2)] + [] + [Exit(Baz)] == call;
      NestedConcat(BazCalls(k - 1), call);
    }
  }

  /** Round j of bar's loop calls baz with 2^(j+1) - 2, and nothing happens inside. */
  lemma {:induction false} BazCallsAre(k: nat, j: nat)
    requires j < k
    ensures |BazCalls(k)| == 2 * k
    ensures BazCalls(k)[2 * j] == Enter(Baz, 2 * Pow2(j) - 2) && BazCalls(k)[2 * j + 1] == Exit(Baz)
  {
    if k == 1 {
      assert BazCalls(0) == [];
    } else if j < k - 1 {
      BazCallsAre(k - 1, j);
    } else {
      BazCallsAre(k - 1, 0);
    }
  }

  /** The calls of bar made by foo, in order: bar(i) takes rounds[i] rounds of its loop. */
  function BarCalls(rounds: seq<nat>): seq<Event> {
    if rounds == [] then []
    else BarCalls(rounds[..|rounds| - 1]) + BarTrace(|rounds| - 1, rounds[|rounds| - 1])
  }

  /** The arguments of the calls of fn in a trace, in order. */
  function Arguments(trace: seq<Event>, fn: Fn): seq<int> {
    if trace == [] then []
    else
      var last := trace[|trace| - 1];
      Arguments(trace[..|trace| - 1], fn) + if last.Enter? && last.fn == fn then [last.arg] else []
  }

  lemma {:induction false} ArgumentsConcat(a: seq<Event>, b: seq<Event>, fn: Fn)
    ensures Arguments(a + b, fn) == Arguments(a, fn) + Arguments(b, fn)
    decreases |b|
  {
    if b == [] {
      assert a + b == a;
    } else {
      var init := b[..|b| - 1];
      ArgumentsConcat(a, init, fn);
      assert (a + b)[..|a + b| - 1] == a + init && (a + b)[|a + b| - 1] == b[|b| - 1];
    }
  }

  lemma {:induction false} BazCallsNoBar(k: nat)
    ensures Arguments(BazCalls(k), Bar) == []
  {
    if k > 0 {
      BazCallsNoBar(k - 1);
      var enter, exit := [Enter(Baz, Pow2(k) - 2)], [Exit(Baz)];
      assert enter[..0] == [] && exit[..0] == [];
      ArgumentsConcat(enter, exit, Bar);
      ArgumentsConcat(BazCalls(k - 1), enter + exit, Bar);
      assert enter + exit == [Enter(Baz, Pow2(k) - 2), Exit(Baz)];
    }
  }

  lemma BarTraceArguments(n: int, k: nat)
    ensures Arguments(BarTrace(n, k), Bar) == [n]
  {
    BazCallsNoBar(k);
    var enter, exit := [Enter(Bar, n)], [Exit(Bar)];
    assert enter[..0] == [] && exit[..0] == [];
    ArgumentsConcat(enter, BazCalls(k), Bar);
    ArgumentsConcat(enter + BazCalls(k), exit, Bar);
  }

  /** foo calls bar with 0, 1, 2 and so on, once each and in this order. */
  lemma {:induction false} BarArguments(rounds: seq<nat>)
    ensures Arguments(BarCalls(rounds), Bar) == seq(|rounds|, i => i)
  {
    if rounds != [] {
      var n := |rounds| - 1;
      BarArguments(rounds[..n]);
      BarTraceArguments(n, rounds[n]);
      ArgumentsConcat(BarCalls(rounds[..n]), BarTrace(n, rounds[n]), Bar);
    }
  }

  lemma BarCallsAppend(before: seq<Event>, rounds: seq<nat>, k: nat)
    ensures before + BarCalls(rounds) + BarTrace(|rounds|, k) == before + BarCalls(rounds + [k])
  {
    assert (rounds + [k])[..|rounds|] == rounds;
  }

  /** The trace of foo is well nested, and holds the calls of bar in order. */
  lemma FooTrace(n: int, rounds: seq<nat>)
    ensures Arguments(BarCalls(rounds), Bar) == seq(|rounds|, i => i)
    ensures WellNested([Enter(Foo, n)] + BarCalls(rounds) + [Exit(Foo)])
  {
    BarArguments(rounds);
    BarCallsNested(rounds);
    NestedCall(Foo, n, BarCalls(rounds));
  }

  lemma {:induction false} BarCallsNested(rounds: seq<nat>)
    ensures WellNested(BarCalls(rounds))
  {
    if rounds != [] {
      var n := |rounds| - 1;
      BarCallsNested(rounds[..n]);
      BazCallsNested(rounds[n]);
      NestedCall(Bar, n, BazCalls(rounds[n]));
      NestedConcat(BarCalls(rounds[..n]), BarTrace(n, rounds[n]));
    }
  }

  lemma Pow2At30()
    ensures Pow2(29) == 0x2000_0000 && Pow2(30) == 0x4000_0000 && Pow2(31) == 0x8000_0000
  {
    assert Pow2(5) == 32;
    assert Pow2(10) == 1024;
    assert Pow2(15) == 0x8000;
    assert Pow2(20) == 0x10_0000;
    assert Pow2(25) == 0x200_0000;
  }

  // ----- The program itself -----

  /** The instrumented program. overflow is set once baz has multiplied beyond the range of int. */
  class Program {
    var trace: seq<Event>
    var overflow: bool

    /** baz; its result is not used. */
    method CallBaz(n: int)
      requires 0 <= n <= INT_MAX
      modifies this
      ensures trace == old(trace) + [Enter(Baz, n), Exit(Baz)]
      ensures overflow == (old(overflow) || 3 * n > INT_MAX)
    {
      trace := trace + [Enter(Baz, n)];
      if n * 3 > INT_MAX {
        overflow := true;
      }
      trace := trace + [Exit(Baz)];
    }

    /** bar: the least 2^k - 1 that is n or more, after exactly k calls of baz. Its own arithmetic stays in
        the range of int for every n; that of the calls does so exactly up to 2^29 - 1. */
    method CallBar(n: int) returns (i: int, ghost k: nat)
      requires INT_MIN <= n <= INT_MAX
      modifies this
      ensures IsRounds(n, k) && i == Pow2(k) - 1 && 0 <= i <= INT_MAX
      ensures trace == old(trace) + BarTrace(n, k)
      ensures overflow == (old(overflow) || n > 0x1fff_ffff)
    {
      trace := trace + [Enter(Bar, n)];
      i, k := 0, 0;
      while i < n
        invariant i == Pow2(k) - 1 && (forall j | 0 <= j < k :: Pow2(j) - 1 < n)
        invariant i <= INT_MAX
        invariant trace == old(trace) + [Enter(Bar, n)] + BazCalls(k)
        invariant overflow == (old(overflow) || i > 0x1fff_ffff)
        decreases n - i
      {
        BoundedRound(k, n);
        var doubled := i * 2;
        assert doubled <= INT_MAX;
        CallBaz(doubled);
        i := doubled + 1;
        k := k + 1;
      }
      trace := trace + [Exit(Bar)];
      Pow2Around(k, n);
    }

    /** foo calls bar(0), bar(1) up to bar(n - 1), each for as many rounds as it needs, and nothing else. A
        call of baz overflows exactly for n > 2^29. x is uninitialised when the loop does not run. */
    method CallFoo(n: int) returns (x: Option<int>, ghost rounds: seq<nat>)
      requires INT_MIN <= n <= INT_MAX
      modifies this
      ensures |rounds| == if n < 0 then 0 else n
      ensures forall i | 0 <= i < |rounds| :: IsRounds(i, rounds[i])
      ensures trace == old(trace) + [Enter(Foo, n)] + BarCalls(rounds) + [Exit(Foo)]
      ensures Arguments(BarCalls(rounds), Bar) == seq(|rounds|, i => i)
      ensures WellNested([Enter(Foo, n)] + BarCalls(rounds) + [Exit(Foo)])
      ensures x == if n <= 0 then None else Some(Pow2(rounds[n - 1]) - 1)
      ensures overflow == (old(overflow) || n > 0x2000_0000)
    {
      trace := trace + [Enter(Foo, n)];
      x, rounds := None, [];
      var i := 0;
      while i < n
        invariant 0 <= i && (n > 0 ==> i <= n) && (n <= 0 ==> i == 0)
        invariant |rounds| == i && forall j | 0 <= j < i :: IsRounds(j, rounds[j])
        invariant trace == old(trace) + [Enter(Foo, n)] + BarCalls(rounds)
        invariant x == if i == 0 then None else Some(Pow2(rounds[i - 1]) - 1)
        invariant overflow == (old(overflow) || i > 0x2000_0000)
      {
        var r, k := CallBar(i);
        BarCallsAppend(old(trace) + [Enter(Foo, n)], rounds, k);
        x, rounds := Some(r), rounds + [k];
        i := i + 1;
      }
      trace := trace + [Exit(Foo)];
      FooTrace(n, rounds);
    }
  }

  /** A round is only begun below INT_MAX, so its doubling fits; its call overflows from 2^30 - 2 on. */
  lemma BoundedRound(k: nat, n: int)
    requires Pow2(k) - 1 < n <= INT_MAX
    ensures 2 * Pow2(k) - 1 <= INT_MAX && Pow2(k) >= 1
    ensures 3 * (2 * Pow2(k) - 2) > INT_MAX <==> 2 * Pow2(k) - 1 > 0x1fff_ffff
  {
    Pow2At30();
    if k >= 31 { Pow2Grows(31, k); } else { Pow2Grows(k, 30); }
    if k >= 29 { Pow2Grows(29, k); } else { Pow2Grows(k, 28); }
  }

  /** The last value of the loop is above 2^29 - 1 exactly when n is. */
  lemma Pow2Around(k: nat, n: int)
    requires IsRounds(n, k)
    ensures Pow2(k) - 1 > 0x1fff_ffff <==> n > 0x1fff_ffff
  {
    Pow2At30();
    if k >= 30 {
      Pow2Grows(30, k);
      assert Pow2(29) - 1 < n;
    } else {
      Pow2Grows(k, 29);
    }
  }
}
