/** The semaphore token ring of src/schedfreq.c (library "sems").

n threads pass one token around R times: thread r waits on its own semaphore and posts
the next one, in a loop of R rounds. The protocol refines a plain counter: whatever the
interleaving, pass number t is made by thread t mod n.
*/
module TokenRing {
  import opened Runs
  import opened Arith
  import opened Sums

  /** i is the loop counter of the thread, holding says it is between its wait and its post. */
  datatype Local = Local(i: nat, holding: bool)

  /** passes is history: the threads that have posted, in order. */
  datatype Config = Config(R: nat, sems: seq<nat>, threads: seq<Local>, passes: seq<nat>)

  type State = s: Config | |s.sems| == |s.threads| >= 1
    witness Config(0, [1], [Local(0, false)], [])

  function Start(n: nat, R: nat): State
    requires n >= 1
  {
    Config(R, seq(n, k => if k == 0 then 1 else 0), seq(n, _ => Local(0, false)), [])
  }

  function N(s: State): nat { |s.sems| }

  predicate Enabled(s: State, r: nat) {
    r < N(s) && s.threads[r].i < s.R && (!s.threads[r].holding ==> s.sems[r] > 0)
  }

  function Step(s: State, r: nat): State {
    if !Enabled(s, r) then s
    else
      var me := s.threads[r];
      if !me.holding then
        s.(sems := s.sems[r := s.sems[r] - 1], threads := s.threads[r := me.(holding := true)])
      else
        var next := (r + 1) % N(s);
        s.(sems := s.sems[next := s.sems[next] + 1], threads := s.threads[r := Local(me.i + 1, false)],
           passes := s.passes + [r])
  }

  predicate Finished(s: State) {
    forall r | 0 <= r < N(s) :: s.threads[r].i == s.R
  }

  // ----- The round-robin counter it refines -----

  /** The whole state is a function of the number of passes and of whether the token is in hand. */
  ghost predicate RoundRobin(s: State, t: nat, held: bool) {
    var n := N(s);
    && |s.passes| == t
    && (forall u | 0 <= u < t :: s.passes[u] == u % n)
    && (forall r | 0 <= r < n :: s.threads[r] == Local(Share(t, n, r), held && r == t % n))
    && (forall r | 0 <= r < n :: s.sems[r] == if !held && r == t % n then 1 else 0)
    && t / n <= s.R && (t / n == s.R ==> t % n == 0 && !held)
  }

  ghost predicate Inv(s: State) {
    RoundRobin(s, |s.passes|, Holding(s))
  }

  /** Whether the thread whose turn it is has taken the token. */
  predicate Holding(s: State) {
    s.threads[|s.passes| % N(s)].holding
  }

  lemma OnlyTurnCanMove(s: State, r: nat)
    requires Inv(s) && Enabled(s, r)
    ensures r == |s.passes| % N(s) && |s.passes| / N(s) < s.R
  {
  }

  lemma TakeKeepsInv(s: State, r: nat)
    requires Inv(s) && Enabled(s, r) && !s.threads[r].holding
    ensures Inv(Step(s, r)) && Holding(Step(s, r)) && |Step(s, r).passes| == |s.passes|
  {
    OnlyTurnCanMove(s, r);
  }

  lemma PassKeepsInv(s: State, r: nat)
    requires Inv(s) && Enabled(s, r) && s.threads[r].holding
    ensures Inv(Step(s, r)) && !Holding(Step(s, r)) && |Step(s, r).passes| == |s.passes| + 1
  {
    OnlyTurnCanMove(s, r);
    DivModSucc(|s.passes|, N(s));
  }

  lemma StepKeepsInv(s: State, r: nat)
    requires Inv(s)
    ensures Inv(Step(s, r))
  {
    if Enabled(s, r) {
      if s.threads[r].holding { PassKeepsInv(s, r); } else { TakeKeepsInv(s, r); }
    }
  }

  lemma StartIsInv(n: nat, R: nat)
    requires n >= 1
    ensures Inv(Start(n, R))
  {
    DivModUnique(0, n, 0, 0);
  }

  lemma RunKeepsInv(n: nat, R: nat, sched: seq<nat>)
    requires n >= 1
    ensures var s := Run(Step, Start(n, R), sched); Inv(s) && N(s) == n && s.R == R
  {
    StartIsInv(n, R);
    forall x: State, r: nat | Inv(x) ensures Inv(Step(x, r)) { StepKeepsInv(x, r); }
    RunKeeps(Step, (x: State) => Inv(x) && N(x) == n && x.R == R, Start(n, R), sched);
  }

  // ----- Main results -----

  function InHand(s: State): seq<nat> {
    seq(N(s), k requires 0 <= k < N(s) => if s.threads[k].holding then 1 else 0)
  }

  /** There is always exactly one token, on a semaphore or in the hands of one thread. */
  lemma OneToken(n: nat, R: nat, sched: seq<nat>)
    requires n >= 1
    ensures var s := Run(Step, Start(n, R), sched); Sum(s.sems) + Sum(InHand(s)) == 1
  {
    RunKeepsInv(n, R, sched);
    var s: State := Run(Step, Start(n, R), sched);
    SumOfOneHot(s.sems, |s.passes| % n, if Holding(s) then 0 else 1);
    SumOfOneHot(InHand(s), |s.passes| % n, if Holding(s) then 1 else 0);
  }

  /** Pass t is made by thread t mod n; after t passes each thread has made exactly the passes that are
      its turn among the first t, so any two have made the same number or differ by one. */
  lemma TurnsAlternate(n: nat, R: nat, sched: seq<nat>)
    requires n >= 1
    ensures var s := Run(Step, Start(n, R), sched);
      && N(s) == n
      && (forall t | 0 <= t < |s.passes| :: s.passes[t] == t % n)
      && (forall r | 0 <= r < n :: s.threads[r].i == |Turns(|s.passes|, n, r)|)
      && (forall r, q | 0 <= r < n && 0 <= q < n :: s.threads[r].i <= s.threads[q].i + 1)
  {
    RunKeepsInv(n, R, sched);
    var s: State := Run(Step, Start(n, R), sched);
    forall r | 0 <= r < n
      ensures s.threads[r].i == |Turns(|s.passes|, n, r)|
    {
      ShareCounts(|s.passes|, n, r);
      CountTurnsIs(|s.passes|, n, r);
    }
  }

  /** The passes still to come, in moves: each is a wait and a post. */
  function MovesLeft(s: State): nat {
    var done := 2 * |s.passes| + if Holding(s) then 1 else 0;
    var all := 2 * (N(s) * s.R);
    if done <= all then all - done else 0
  }

  /** Quotient below R means a number below n * R. */
  lemma BelowProduct(t: nat, n: nat, R: nat)
    requires n >= 1 && t / n <= R && (t / n == R ==> t % n == 0)
    ensures t <= n * R && (t == n * R <==> t / n == R)
    ensures t / n < R ==> t + 1 <= n * R
  {
    assert t == n * (t / n) + t % n;
    MulBounds(n, R - t / n);
    assert n * (R - t / n) == n * R - n * (t / n);
  }

  lemma MovesBelow(s: State)
    requires Inv(s)
    ensures |s.passes| <= N(s) * s.R
    ensures |s.passes| / N(s) < s.R ==> |s.passes| + 1 <= N(s) * s.R
  {
    BelowProduct(|s.passes|, N(s), s.R);
  }

  lemma TakeCounts(s: State, r: nat)
    requires Inv(s) && Enabled(s, r) && !s.threads[r].holding
    ensures MovesLeft(Step(s, r)) + 1 == MovesLeft(s)
  {
    OnlyTurnCanMove(s, r);
    MovesBelow(s);
    TakeKeepsInv(s, r);
  }

  lemma PassCounts(s: State, r: nat)
    requires Inv(s) && Enabled(s, r) && s.threads[r].holding
    ensures MovesLeft(Step(s, r)) + 1 == MovesLeft(s)
  {
    OnlyTurnCanMove(s, r);
    MovesBelow(s);
    PassKeepsInv(s, r);
  }

  lemma EveryMoveCounts(s: State, r: nat)
    requires Inv(s)
    ensures MovesLeft(Step(s, r)) + (if Enabled(s, r) then 1 else 0) == MovesLeft(s)
  {
    if Enabled(s, r) {
      if s.threads[r].holding { PassCounts(s, r); } else { TakeCounts(s, r); }
    }
  }

  /** No interleaving gets stuck although threads leave at different times: until n * R passes are made
      the thread whose turn it is can move, no run makes more, and then every thread has left its loop
      with the token back on the first semaphore. */
  lemma RingCompletes(n: nat, R: nat, sched: seq<nat>)
    requires n >= 1
    ensures var s := Run(Step, Start(n, R), sched);
      var moves := Moves(Step, Enabled, Start(n, R), sched);
      && |s.passes| <= n * R && moves <= 2 * (n * R)
      && (|s.passes| < n * R ==> Enabled(s, |s.passes| % n))
      && (Finished(s) <==> |s.passes| == n * R)
      && (|s.passes| == n * R <==> moves == 2 * (n * R))
      && (|s.passes| == n * R ==> s.sems == Start(n, R).sems)
  {
    RunKeepsInv(n, R, sched);
    forall x: State, r: nat | Inv(x)
      ensures Inv(Step(x, r)) && MovesLeft(Step(x, r)) + (if Enabled(x, r) then 1 else 0) == MovesLeft(x)
    {
      StepKeepsInv(x, r);
      EveryMoveCounts(x, r);
    }
    StartIsInv(n, R);
    MovesExact(Step, Enabled, Inv, MovesLeft, Start(n, R), sched);
    var s: State := Run(Step, Start(n, R), sched);
    BelowProduct(|s.passes|, n, R);
    assert Finished(s) ==> s.threads[n - 1].i == R;
  }

  // ----- The program itself -----

  class Experiment {
    const repeat: nat
    const sems: array<nat>
    const threads: array<Local>
    ghost var passes: seq<nat>

    ghost predicate Valid()
      reads this
    {
      sems.Length == threads.Length >= 1
    }

    ghost function View(): State
      requires Valid()
      reads this, sems, threads
    {
      Config(repeat, sems[..], threads[..], passes)
    }

    /** sems_init and the spawning loop of main. With n = 0 sems_init would write outside its array. */
    constructor (n: nat, repeat: nat)
      requires n >= 1
      ensures Valid() && View() == Start(n, repeat)
      ensures fresh(sems) && fresh(threads)
    {
      this.repeat := repeat;
      sems := new nat[n];
      threads := new Local[n](_ => Local(0, false));
      passes := [];
      new;
      sems[0] := 1;
      for k := 1 to n
        invariant sems[0] == 1 && forall j | 1 <= j < k :: sems[j] == 0
        invariant forall j | 0 <= j < n :: threads[j] == Local(0, false)
        modifies sems
      {
        sems[k] := 0;
      }
      assert sems[..] == Start(n, repeat).sems;
      assert threads[..] == Start(n, repeat).threads;
    }

    /** The next step of sems_wrk in the thread of this rank. */
    method Worker(rank: nat)
      requires Valid() && rank < threads.Length
      modifies this`passes, sems, threads
      ensures View() == Step(old(View()), rank)
    {
      var me := threads[rank];
      if me.i < repeat {
        if !me.holding {
          if sems[rank] > 0 {
            sems[rank] := sems[rank] - 1;
            threads[rank] := me.(holding := true);
          }
        } else {
          var next := (rank + 1) % sems.Length;
          sems[next] := sems[next] + 1;
          threads[rank] := Local(me.i + 1, false);
          passes := passes + [rank];
        }
      }
    }

    /** The threads under a scheduler that picks the next one from sched. */
    method Execute(sched: seq<nat>)
      requires Valid() && forall r | r in sched :: r < threads.Length
      modifies this`passes, sems, threads
      ensures View() == Run(Step, old(View()), sched)
    {
      for k := 0 to |sched|
        invariant View() == Run(Step, old(View()), sched[..k])
      {
        RunAppend(Step, old(View()), sched[..k], sched[k]);
        assert sched[..k] + [sched[k]] == sched[..k + 1];
        assert sched[k] in sched;
        Worker(sched[k]);
      }
      assert sched[..|sched|] == sched;
    }
  }
}
