/** The start/done worker pool of src/spin.c.

spin_init, spin_run and spin_exit are called from one thread, any number of times and in
any order. Worker i waits on its start semaphore, spins while the global `run` is set, and
posts its done semaphore; a one-shot timer ends the spin from a signal handler. Memory is
sequentially consistent and each shared access is a step. A worker that spins in
`while (run)` does not change the state, so it counts as blocked until run is 0.
*/
module Spin {
  import opened Runs
  import opened Sums

  datatype Pc = NotCreated | Init | WaitStart | CheckCont | Loop | PostDone | Fini | Exited

  /** A worker with its two semaphores; did is history: the rounds it has done. */
  datatype Worker = Worker(pc: Pc, start: nat, done: nat, did: nat)

  /** The interval timer: not running, running for usec, or expired with the signal not yet handled. */
  datatype Timer = Off | Armed(usec: int) | Pending

  /** Where the controlling thread is: between calls, in the loops of spin_init, spin_run and
      spin_exit at index k, or gone because setitimer refused its argument. */
  datatype Main = Idle | Creating(k: nat) | SetTimer(usec: int) | Posting(k: nat) | Waiting(k: nat)
                | ExitPosting(k: nat) | Joining(k: nat) | Freeing | Failed

  /** live says the arrays are allocated; rounds is history: the spin_run calls that have returned
      since spin_init. */
  datatype State = State(
    cont: bool, run: bool, timer: Timer, ws: seq<Worker>, main: Main, live: bool, rounds: nat)

  datatype Action = CallInit(n: nat) | CallRun(usec: int) | CallExit
                  | MainStep | WorkerStep(i: nat) | Expire | Deliver

  const LOADED := State(false, false, Off, [], Idle, false, 0)

  predicate IsCall(a: Action) {
    a.CallInit? || a.CallRun? || a.CallExit?
  }

  predicate MainEnabled(s: State) {
    match s.main
    case Idle => false
    case Failed => false
    case Waiting(k) => k < |s.ws| ==> s.ws[k].done > 0
    case Joining(k) => k < |s.ws| ==> s.ws[k].pc == Exited
    case _ => true
  }

  predicate WorkerEnabled(s: State, i: nat) {
    && i < |s.ws|
    && match s.ws[i].pc
       case NotCreated => false
       case Exited => false
       case WaitStart => s.ws[i].start > 0
       case Loop => !s.run
       case _ => true
  }

  predicate Enabled(s: State, a: Action) {
    && s.main != Failed
    && match a
       case MainStep => MainEnabled(s)
       case WorkerStep(i) => WorkerEnabled(s, i)
       case Expire => s.timer.Armed?
       case Deliver => s.timer == Pending
       case _ => s.main == Idle
  }

  function MainMove(s: State): State
    requires MainEnabled(s)
  {
    match s.main
    case Creating(k) =>
      if k < |s.ws| then s.(ws := s.ws[k := s.ws[k].(pc := Init)], main := Creating(k + 1))
      else s.(main := Idle)
    case SetTimer(usec) =>
      if usec < 0 || usec >= 1_000_000 then s.(main := Failed)
      else s.(timer := if usec == 0 then Off else Armed(usec), main := Posting(0))
    case Posting(k) =>
      if k < |s.ws| then s.(ws := s.ws[k := s.ws[k].(start := s.ws[k].start + 1)], main := Posting(k + 1))
      else s.(main := Waiting(0))
    case Waiting(k) =>
      if k < |s.ws| then s.(ws := s.ws[k := s.ws[k].(done := s.ws[k].done - 1)], main := Waiting(k + 1))
      else s.(main := Idle, rounds := s.rounds + 1)
    case ExitPosting(k) =>
      if k < |s.ws| then s.(ws := s.ws[k := s.ws[k].(start := s.ws[k].start + 1)], main := ExitPosting(k + 1))
      else s.(main := Joining(0))
    case Joining(k) =>
      if k < |s.ws| then s.(main := Joining(k + 1)) else s.(main := Freeing)
    case Freeing => s.(live := false, main := Idle)
  }

  function WorkerMove(s: State, w: Worker): Worker
    requires w.pc == WaitStart ==> w.start > 0
  {
    match w.pc
    case Init => w.(pc := WaitStart)
    case WaitStart => w.(start := w.start - 1, pc := CheckCont)
    case CheckCont => w.(pc := if s.cont then Loop else Fini)
    case Loop => if s.run then w else w.(pc := PostDone)
    case PostDone => w.(done := w.done + 1, did := w.did + 1, pc := WaitStart)
    case Fini => w.(pc := Exited)
    case _ => w
  }

  function Step(s: State, a: Action): State {
    if !Enabled(s, a) then s
    else match a
      case CallInit(n) =>
        if s.cont then s
        else
          s.(cont := true, ws := seq(n, _ => Worker(NotCreated, 0, 0, 0)), live := true, rounds := 0,
             main := Creating(0))
      case CallRun(usec) =>
        if !s.cont then s else s.(run := true, main := SetTimer(usec))
      case CallExit =>
        if !s.cont then s else s.(cont := false, main := ExitPosting(0))
      case MainStep => MainMove(s)
      case WorkerStep(i) => s.(ws := s.ws[i := WorkerMove(s, s.ws[i])])
      case Expire => s.(timer := Pending)
      case Deliver => s.(timer := Off, run := false)
  }

  // ----- Invariant -----

  /** Between rounds. */
  predicate Quiet(w: Worker) {
    (w.pc == Init || w.pc == WaitStart) && w.start == 0 && w.done == 0
  }

  /** In a round: told to start, running, or reported done. */
  predicate Told(w: Worker) {
    (w.pc == Init || w.pc == WaitStart) && w.start == 1 && w.done == 0
  }

  predicate Running(w: Worker) {
    (w.pc == CheckCont || w.pc == Loop || w.pc == PostDone) && w.start == 0 && w.done == 0
  }

  predicate Reported(w: Worker) {
    w.pc == WaitStart && w.start == 0 && w.done == 1
  }

  predicate Gone(w: Worker) {
    w.pc == Exited && w.start == 0 && w.done == 0
  }

  /** Told to leave, or on its way out. */
  predicate Leaving(w: Worker) {
    Told(w) || Gone(w) || ((w.pc == CheckCont || w.pc == Fini) && w.start == 0 && w.done == 0)
  }

  /** A worker of the current round: it can be past its loop only once run is 0. */
  predicate InRound(w: Worker, s: State) {
    if Reported(w) then w.did == s.rounds + 1 && !s.run
    else (Told(w) || Running(w)) && w.did == s.rounds && (w.pc == PostDone ==> !s.run)
  }

  /** What the controlling thread knows of worker j. */
  predicate WorkerInv(s: State, j: nat)
    requires j < |s.ws|
  {
    var w := s.ws[j];
    match s.main
    case Idle => if s.cont then Quiet(w) && w.did == s.rounds else Gone(w)
    case Creating(k) => if j < k then Quiet(w) && w.did == 0 else w == Worker(NotCreated, 0, 0, 0)
    case SetTimer(_) => Quiet(w) && w.did == s.rounds
    case Posting(k) => if j < k then InRound(w, s) else Quiet(w) && w.did == s.rounds
    case Waiting(k) => if j < k then Quiet(w) && w.did == s.rounds + 1 else InRound(w, s)
    case ExitPosting(k) => if j < k then Leaving(w) else Quiet(w)
    case Joining(k) => if j < k then Gone(w) else Leaving(w)
    case Freeing => Gone(w)
    case Failed => true
  }

  predicate MainInv(s: State) {
    match s.main
    case Idle => s.timer == Off && !s.run && s.live == s.cont && (s.cont ==> |s.ws| >= 1)
    case Creating(k) => s.timer == Off && !s.run && s.live && s.cont && |s.ws| >= 1 && k <= |s.ws| && s.rounds == 0
    case SetTimer(u) => s.timer == Off && s.run && s.live && s.cont && |s.ws| >= 1 && 0 < u < 1_000_000
    case Posting(k) => (s.timer != Off <==> s.run) && s.live && s.cont && |s.ws| >= 1 && k <= |s.ws|
    case Waiting(k) =>
      (s.timer != Off <==> s.run) && (k > 0 ==> !s.run) && s.live && s.cont && |s.ws| >= 1 && k <= |s.ws|
    case ExitPosting(k) => s.timer == Off && !s.run && s.live && !s.cont && k <= |s.ws|
    case Joining(k) => s.timer == Off && !s.run && s.live && !s.cont && k <= |s.ws|
    case Freeing => s.timer == Off && !s.run && s.live && !s.cont
    case Failed => false
  }

  ghost predicate Inv(s: State) {
    MainInv(s) && forall j | 0 <= j < |s.ws| :: WorkerInv(s, j)
  }

  /** Calls with at least one thread and a delay the timer accepts and fires on. */
  predicate Proper(a: Action) {
    (a.CallInit? ==> a.n >= 1) && (a.CallRun? ==> 0 < a.usec < 1_000_000)
  }

  // ----- Every step keeps the invariant -----

  lemma CallKeepsInv(s: State, a: Action)
    requires Inv(s) && Enabled(s, a) && IsCall(a) && Proper(a)
    ensures Inv(Step(s, a))
  {
    var t := Step(s, a);
    forall j | 0 <= j < |t.ws| ensures WorkerInv(t, j) {
      if j < |s.ws| { assert WorkerInv(s, j); }
    }
  }

  lemma MainKeepsInv(s: State)
    requires Inv(s) && MainEnabled(s)
    ensures Inv(MainMove(s))
  {
    var t := MainMove(s);
    assert s.main.Waiting? && s.main.k < |s.ws| ==> WorkerInv(s, s.main.k);
    forall j | 0 <= j < |t.ws| ensures WorkerInv(t, j) {
      assert WorkerInv(s, j);
    }
  }

  lemma WorkerKeepsInv(s: State, i: nat)
    requires Inv(s) && WorkerEnabled(s, i)
    ensures Inv(Step(s, WorkerStep(i)))
  {
    var t := Step(s, WorkerStep(i));
    forall j | 0 <= j < |t.ws| ensures WorkerInv(t, j) {
      assert WorkerInv(s, j);
    }
  }

  lemma TimerKeepsInv(s: State, a: Action)
    requires Inv(s) && Enabled(s, a) && (a == Expire || a == Deliver)
    ensures Inv(Step(s, a))
  {
    var t := Step(s, a);
    forall j | 0 <= j < |t.ws| ensures WorkerInv(t, j) {
      assert WorkerInv(s, j);
    }
  }

  lemma StepKeepsInv(s: State, a: Action)
    requires Inv(s) && Proper(a)
    ensures Inv(Step(s, a))
  {
    if Enabled(s, a) {
      match a
      case MainStep => MainKeepsInv(s);
      case WorkerStep(i) => WorkerKeepsInv(s, i);
      case Expire => TimerKeepsInv(s, a);
      case Deliver => TimerKeepsInv(s, a);
      case _ => CallKeepsInv(s, a);
    }
  }

  // ----- Main results: every history -----

  ghost predicate ProperHistory(sched: seq<Action>) {
    forall a | a in sched :: Proper(a)
  }

  lemma HistoryKeepsInv(s: State, sched: seq<Action>)
    requires Inv(s) && ProperHistory(sched)
    ensures Inv(Run(Step, s, sched))
  {
    forall x: State, a | a in sched && Inv(x) ensures Inv(Step(x, a)) { StepKeepsInv(x, a); }
    RunKeeps(Step, Inv, s, sched);
  }

  /** Between calls nothing of a round is left over: the timer has fired, run is 0, every semaphore is 0,
      no worker is past its start semaphore, and each has done one round per spin_run that returned. */
  ghost predicate Settled(s: State) {
    && s.timer == Off && !s.run
    && forall j | 0 <= j < |s.ws| :: Quiet(s.ws[j]) && s.ws[j].did == s.rounds
  }

  /** Over any history of init, run and exit calls, under every interleaving with the workers and the
      signal handler, rounds never leak into the next call; and once the arrays are freed every worker
      has left, so none can touch them. */
  lemma RoundsAreIsolated(sched: seq<Action>)
    requires ProperHistory(sched)
    ensures var s := Run(Step, LOADED, sched);
      && (s.main.Idle? && s.cont ==> Settled(s))
      && (s.main.SetTimer? ==> s.timer == Off && forall j | 0 <= j < |s.ws| :: Quiet(s.ws[j]))
      && (!s.live ==> forall j | 0 <= j < |s.ws| :: s.ws[j].pc == Exited)
      && !s.main.Failed?
  {
    HistoryKeepsInv(LOADED, sched);
    var s := Run(Step, LOADED, sched);
    forall j | 0 <= j < |s.ws|
      ensures s.main.Idle? && s.cont ==> Quiet(s.ws[j]) && s.ws[j].did == s.rounds
      ensures s.main.SetTimer? ==> Quiet(s.ws[j])
      ensures !s.live ==> s.ws[j].pc == Exited
    {
      assert WorkerInv(s, j);
    }
  }

  // ----- Main results: one call -----

  ghost predicate Internal(sched: seq<Action>) {
    forall a | a in sched :: !IsCall(a)
  }

  /** Inside a spin_run(usec) call that found r rounds done by these n workers, or just returned from it. */
  ghost predicate InRun(s: State, r: nat, n: nat, usec: int) {
    && Inv(s) && s.cont && |s.ws| == n && (s.timer.Armed? ==> s.timer.usec == usec)
    && match s.main
       case SetTimer(u) => s.rounds == r && u == usec
       case Posting(_) => s.rounds == r
       case Waiting(_) => s.rounds == r
       case Idle => s.rounds == r + 1
       case _ => false
  }

  /** Inside a spin_exit call, or just returned from it; did is what each worker had done before. */
  ghost predicate InExit(s: State, did: seq<nat>) {
    && Inv(s) && !s.cont && |s.ws| == |did|
    && (s.main.ExitPosting? || s.main.Joining? || s.main.Freeing? || s.main.Idle?)
    && forall j | 0 <= j < |s.ws| :: s.ws[j].did == did[j]
  }

  lemma StepInRun(s: State, a: Action, r: nat, n: nat, usec: int)
    requires InRun(s, r, n, usec) && !IsCall(a)
    ensures InRun(Step(s, a), r, n, usec)
  {
    StepKeepsInv(s, a);
  }

  lemma StepInExit(s: State, a: Action, did: seq<nat>)
    requires InExit(s, did) && !IsCall(a)
    ensures InExit(Step(s, a), did)
  {
    StepKeepsInv(s, a);
    if a.WorkerStep? && a.i < |s.ws| { assert WorkerInv(s, a.i); }
  }

  /** spin_run(usec) raises run, starts a timer of usec microseconds and makes every worker do exactly one
      round, under every interleaving; until it returns something can always move, and it takes at most
      14 moves a worker and 6. */
  lemma SpinRunDoesOneRound(s: State, usec: int, sched: seq<Action>)
    requires Inv(s) && s.main == Idle && s.cont && 0 < usec < 1_000_000 && Internal(sched)
    ensures var called := Step(s, CallRun(usec));
      var t := Run(Step, called, sched);
      && called.run && called.main == SetTimer(usec) && Step(called, MainStep).timer == Armed(usec)
      && (t.timer.Armed? ==> t.timer.usec == usec)
      && (t.main.Idle? ==> Settled(t) && t.cont && |t.ws| == |s.ws|)
      && (t.main.Idle? ==> forall j | 0 <= j < |s.ws| :: t.ws[j].did == s.ws[j].did + 1)
      && (!t.main.Idle? ==> exists a :: !IsCall(a) && Enabled(t, a))
      && Moves(Step, Enabled, called, sched) <= 14 * |s.ws| + 6
  {
    var called := Step(s, CallRun(usec));
    StepKeepsInv(s, CallRun(usec));
    forall x: State, a | a in sched && InRun(x, s.rounds, |s.ws|, usec)
      ensures InRun(Step(x, a), s.rounds, |s.ws|, usec)
    {
      StepInRun(x, a, s.rounds, |s.ws|, usec);
    }
    RunKeeps(Step, (x: State) => InRun(x, s.rounds, |s.ws|, usec), called, sched);
    CallIsBounded(called, sched);
    QuietPotentials(s);
    var t := Run(Step, called, sched);
    if t.main.Idle? {
      forall j | 0 <= j < |s.ws|
        ensures Quiet(t.ws[j]) && t.ws[j].did == t.rounds && t.ws[j].did == s.ws[j].did + 1
      {
        assert WorkerInv(s, j) && WorkerInv(t, j);
      }
    } else {
      var a := SomethingMoves(t);
    }
  }

  /** spin_exit makes every worker leave without another round, and frees the arrays after the last one
      has left, in at most 14 moves a worker and 4. */
  lemma SpinExitStopsAll(s: State, sched: seq<Action>)
    requires Inv(s) && s.main == Idle && s.cont && Internal(sched)
    ensures var called := Step(s, CallExit);
      var t := Run(Step, called, sched);
      && |t.ws| == |s.ws| && (forall j | 0 <= j < |s.ws| :: t.ws[j].did == s.ws[j].did)
      && (t.main.Idle? ==> !t.cont && !t.live && forall j | 0 <= j < |t.ws| :: Gone(t.ws[j]))
      && (!t.live ==> t.main.Idle?)
      && (!t.main.Idle? ==> exists a :: !IsCall(a) && Enabled(t, a))
      && Moves(Step, Enabled, called, sched) <= 14 * |s.ws| + 4
  {
    var called := Step(s, CallExit);
    StepKeepsInv(s, CallExit);
    var did := seq(|s.ws|, j requires 0 <= j < |s.ws| => s.ws[j].did);
    forall x: State, a | a in sched && InExit(x, did) ensures InExit(Step(x, a), did) { StepInExit(x, a, did); }
    RunKeeps(Step, (x: State) => InExit(x, did), called, sched);
    CallIsBounded(called, sched);
    QuietPotentials(s);
    var t := Run(Step, called, sched);
    if t.main.Idle? {
      forall j | 0 <= j < |t.ws| ensures Gone(t.ws[j]) { assert WorkerInv(t, j); }
    } else {
      var a := SomethingMoves(t);
    }
  }

  // ----- Main results: the pool spin_init makes -----

  /** Inside a spin_init call for n threads, or just returned from it. */
  ghost predicate InInit(s: State, n: nat) {
    && s.cont && s.live && !s.run && s.timer == Off && s.rounds == 0 && |s.ws| == n
    && match s.main
       case Creating(k) => k <= n && forall j | 0 <= j < n :: FreshOrCreated(s.ws[j], j < k)
       case Idle => forall j | 0 <= j < n :: FreshOrCreated(s.ws[j], true)
       case _ => false
  }

  predicate FreshOrCreated(w: Worker, created: bool) {
    if created then Quiet(w) && w.did == 0 else w == Worker(NotCreated, 0, 0, 0)
  }

  lemma StepInInit(s: State, a: Action, n: nat)
    requires InInit(s, n) && !IsCall(a)
    ensures InInit(Step(s, a), n)
    ensures InitLeft(Step(s, a), n) + (if Enabled(s, a) then 1 else 0) <= InitLeft(s, n)
  {
    if a.WorkerStep? && Enabled(s, a) {
      BeforesUpdate(s.ws, a.i, WorkerMove(s, s.ws[a.i]));
    } else if s.main.Creating? && s.main.k < n && a.MainStep? {
      BeforesUpdate(s.ws, s.main.k, s.ws[s.main.k].(pc := Init));
    }
  }

  /** How many more moves a worker has before it waits for its first round. */
  function Before(w: Worker): nat {
    match w.pc case NotCreated => 1 case Init => 1 case _ => 0
  }

  function Befores(ws: seq<Worker>): seq<nat> {
    seq(|ws|, j requires 0 <= j < |ws| => Before(ws[j]))
  }

  /** The moves spin_init and its workers still have. */
  function InitLeft(s: State, n: nat): nat {
    Sum(Befores(s.ws)) + match s.main case Creating(k) => (if k <= n then n - k + 1 else 0) case _ => 0
  }

  lemma BeforesUpdate(ws: seq<Worker>, i: nat, w: Worker)
    requires i < |ws|
    ensures Sum(Befores(ws[i := w])) + Before(ws[i]) == Sum(Befores(ws)) + Before(w)
  {
    assert Befores(ws[i := w]) == Befores(ws)[i := Before(w)];
    SumUpdate(Befores(ws), i, Before(w));
  }

  /** spin_init for n threads makes n workers, for every n: under every interleaving there are n of them at
      any time of the call and when it returns all n have been created, are between rounds and have done
      none; until then the call can move, and it takes at most two moves a worker and 1. */
  lemma SpinInitMakesThreads(s: State, n: nat, sched: seq<Action>)
    requires Inv(s) && s.main == Idle && !s.cont && Internal(sched)
    ensures var called := Step(s, CallInit(n));
      var t := Run(Step, called, sched);
      && |t.ws| == n && t.cont && t.live && !t.run && t.timer == Off && t.rounds == 0
      && (t.main.Idle? ==> forall j | 0 <= j < n :: Quiet(t.ws[j]) && t.ws[j].did == 0)
      && (!t.main.Idle? ==> Enabled(t, MainStep))
      && Moves(Step, Enabled, called, sched) <= 2 * n + 1
  {
    var called := Step(s, CallInit(n));
    SumOfFlags(Befores(called.ws));
    forall x: State, a | a in sched && InInit(x, n)
      ensures InInit(Step(x, a), n)
      ensures InitLeft(Step(x, a), n) + (if Enabled(x, a) then 1 else 0) <= InitLeft(x, n)
    {
      StepInInit(x, a, n);
    }
    MovesBounded(Step, Enabled, (x: State) => InInit(x, n), (x: State) => InitLeft(x, n), called, sched);
  }

  /** In a history whose pools all have n threads, a live pool has n workers. */
  lemma PoolHasItsThreads(n: nat, sched: seq<Action>)
    requires forall a | a in sched :: a.CallInit? ==> a.n == n
    ensures var s := Run(Step, LOADED, sched); s.cont ==> |s.ws| == n
  {
    RunKeeps(Step, (x: State) => x.cont ==> |x.ws| == n, LOADED, sched);
  }

  /** spin_init does nothing on a live pool, spin_run and spin_exit do nothing without one. */
  lemma CallsWithoutEffect(s: State, a: Action)
    requires IsCall(a)
    ensures Step(s, a) == s <==> s.main != Idle || (if a.CallInit? then s.cont else !s.cont)
  {
  }

  // ----- Progress -----

  function Potential(w: Worker): nat {
    10 * w.start + match w.pc
                   case NotCreated => 0 case Init => 1 case WaitStart => 0 case CheckCont => 5
                   case Loop => 4 case PostDone => 3 case Fini => 2 case Exited => 0
  }

  function Potentials(ws: seq<Worker>): seq<nat> {
    seq(|ws|, j requires 0 <= j < |ws| => Potential(ws[j]))
  }

  function MainRank(m: Main, n: nat): nat {
    match m
    case Idle => 0
    case Creating(k) => if k <= n then 2 * (n - k) + 1 else 0
    case SetTimer(_) => 13 * n + 6
    case Posting(k) => if k <= n then 12 * (n - k) + n + 3 else 0
    case Waiting(k) => if k <= n then n - k + 1 else 0
    case ExitPosting(k) => if k <= n then 12 * (n - k) + n + 4 else 0
    case Joining(k) => if k <= n then n - k + 2 else 0
    case Freeing => 1
    case Failed => 0
  }

  /** Bounds the moves a call can still take. */
  function Measure(s: State): nat {
    Sum(Potentials(s.ws)) + MainRank(s.main, |s.ws|)
    + match s.timer case Off => 0 case Armed(_) => 2 case Pending => 1
  }

  lemma PotentialUpdate(ws: seq<Worker>, i: nat, w: Worker)
    requires i < |ws|
    ensures Sum(Potentials(ws[i := w])) + Potential(ws[i]) == Sum(Potentials(ws)) + Potential(w)
  {
    assert Potentials(ws[i := w]) == Potentials(ws)[i := Potential(w)];
    SumUpdate(Potentials(ws), i, Potential(w));
  }

  lemma WorkerLowersMeasure(s: State, i: nat)
    requires Inv(s) && WorkerEnabled(s, i)
    ensures Measure(Step(s, WorkerStep(i))) < Measure(s)
  {
    assert WorkerInv(s, i);
    PotentialUpdate(s.ws, i, WorkerMove(s, s.ws[i]));
  }

  lemma MainLowersMeasure(s: State)
    requires Inv(s) && MainEnabled(s)
    ensures Measure(MainMove(s)) < Measure(s)
  {
    if (s.main.Creating? || s.main.Posting? || s.main.Waiting? || s.main.ExitPosting?) && s.main.k < |s.ws| {
      assert WorkerInv(s, s.main.k);
      PotentialUpdate(s.ws, s.main.k, MainMove(s).ws[s.main.k]);
    }
  }

  lemma MovesLowerMeasure(s: State, a: Action)
    requires Inv(s) && !IsCall(a)
    ensures Measure(Step(s, a)) + (if Enabled(s, a) then 1 else 0) <= Measure(s)
  {
    if Enabled(s, a) {
      match a
      case WorkerStep(i) => WorkerLowersMeasure(s, i);
      case MainStep => MainLowersMeasure(s);
      case _ =>
    }
  }

  lemma {:induction false} SmallPotentials(ws: seq<Worker>)
    requires forall j | 0 <= j < |ws| :: Potential(ws[j]) <= 1
    ensures Sum(Potentials(ws)) <= |ws|
  {
    SumOfFlags(Potentials(ws));
  }

  lemma QuietPotentials(s: State)
    requires Inv(s) && s.main == Idle && s.cont
    ensures Sum(Potentials(s.ws)) <= |s.ws|
  {
    forall j | 0 <= j < |s.ws| ensures Potential(s.ws[j]) <= 1 { assert WorkerInv(s, j); }
    SmallPotentials(s.ws);
  }

  lemma CallIsBounded(s: State, sched: seq<Action>)
    requires Inv(s) && Internal(sched)
    ensures Inv(Run(Step, s, sched))
    ensures Measure(Run(Step, s, sched)) + Moves(Step, Enabled, s, sched) <= Measure(s)
  {
    forall x: State, a | a in sched && Inv(x)
      ensures Inv(Step(x, a)) && Measure(Step(x, a)) + (if Enabled(x, a) then 1 else 0) <= Measure(x)
    {
      StepKeepsInv(x, a);
      MovesLowerMeasure(x, a);
    }
    MovesBounded(Step, Enabled, Inv, Measure, s, sched);
  }

  /** Inside a call the controlling thread, the worker it waits for or the timer can move. */
  lemma SomethingMoves(s: State) returns (a: Action)
    requires Inv(s) && s.main != Idle
    ensures !IsCall(a) && Enabled(s, a)
  {
    if MainEnabled(s) {
      a := MainStep;
    } else {
      assert WorkerInv(s, s.main.k);
      a := if WorkerEnabled(s, s.main.k) then WorkerStep(s.main.k) else if s.timer.Armed? then Expire else Deliver;
    }
  }

  /** From inside any call there is a run that returns from it. */
  lemma CallCanReturn(s: State) returns (sched: seq<Action>)
    requires Inv(s)
    ensures Internal(sched) && Run(Step, s, sched).main == Idle
    decreases Measure(s)
  {
    if s.main == Idle {
      sched := [];
    } else {
      var a := SomethingMoves(s);
      StepKeepsInv(s, a);
      MovesLowerMeasure(s, a);
      var rest := CallCanReturn(Step(s, a));
      sched := [a] + rest;
      RunHead(Step, s, sched);
    }
  }

  // ----- Where the guarantee ends -----

  /** With a zero delay setitimer disarms the timer: run stays 1 and the first worker never reports. */
  ghost predicate Spinning(s: State) {
    && s.run && s.timer == Off && s.cont && |s.ws| >= 1
    && (s.main == SetTimer(0) || (s.main.Posting? && s.main.k <= |s.ws|) || s.main == Waiting(0))
    && forall j | 0 <= j < |s.ws| :: s.ws[j].done == 0 && s.ws[j].pc != PostDone
  }

  lemma SpinningStays(s: State, a: Action)
    requires Spinning(s) && !IsCall(a)
    ensures Spinning(Step(s, a))
  {
  }

  /** With a delay outside the range of tv_usec the program ends inside the call. */
  ghost predicate Refused(s: State, usec: int) {
    s.main == SetTimer(usec) || s.main == Failed
  }

  /** spin_run can return exactly when its delay is one that the timer accepts and fires on. */
  lemma SpinRunReturnsIff(s: State, usec: int)
    requires Inv(s) && s.main == Idle && s.cont
    ensures (exists sched :: Internal(sched) && Run(Step, Step(s, CallRun(usec)), sched).main == Idle)
      <==> 0 < usec < 1_000_000
  {
    var called := Step(s, CallRun(usec));
    if 0 < usec < 1_000_000 {
      StepKeepsInv(s, CallRun(usec));
      var sched := CallCanReturn(called);
    } else {
      forall sched | Internal(sched)
        ensures Run(Step, called, sched).main != Idle
      {
        if usec == 0 {
          forall j | 0 <= j < |s.ws| ensures Quiet(s.ws[j]) { assert WorkerInv(s, j); }
          forall x: State, a | a in sched && Spinning(x) ensures Spinning(Step(x, a)) { SpinningStays(x, a); }
          RunKeeps(Step, Spinning, called, sched);
        } else {
          RunKeeps(Step, (x: State) => Refused(x, usec), called, sched);
        }
      }
    }
  }

  /** spin_init(n) and a spin_run with nothing to wait for: the call returns with run still 1 and the
      timer still running, so the next round can be ended by an alarm that is not its own. */
  function FirstRunAlone(n: nat): seq<Action> {
    [CallInit(n), MainStep, CallRun(1000), MainStep, MainStep, MainStep]
  }

  lemma ZeroThreadsLeakTheRound()
    ensures var s := Run(Step, LOADED, FirstRunAlone(0));
      s.main == Idle && s.cont && s.rounds == 1 && s.run && s.timer == Armed(1000)
  {
    var sched := FirstRunAlone(0);
    var s1 := State(true, false, Off, [], Creating(0), true, 0);
    var s2 := s1.(main := Idle);
    var s3 := s2.(run := true, main := SetTimer(1000));
    var s4 := s3.(timer := Armed(1000), main := Posting(0));
    var s5 := s4.(main := Waiting(0));
    var s6 := s4.(main := Idle, rounds := 1);
    assert Step(LOADED, CallInit(0)) == s1;
    assert Step(s1, MainStep) == s2;
    assert Step(s2, CallRun(1000)) == s3;
    assert Step(s3, MainStep) == s4;
    assert Step(s4, MainStep) == s5;
    assert Step(s5, MainStep) == s6;
    RunThrough(Step, [LOADED, s1, s2, s3, s4, s5, s6], sched);
  }

  /** A history whose pools all have n threads and whose delays the timer fires on. */
  ghost predicate PoolsOf(n: nat, sched: seq<Action>) {
    forall a | a in sched :: (a.CallInit? ==> a.n == n) && (a.CallRun? ==> 0 < a.usec < 1_000_000)
  }

  /** Rounds are isolated in every history with pools of n threads exactly when n is not zero. */
  lemma IsolationNeedsThreads(n: nat)
    ensures (forall sched | PoolsOf(n, sched) ::
               var s := Run(Step, LOADED, sched); s.main.Idle? && s.cont ==> Settled(s))
      <==> n >= 1
  {
    if n >= 1 {
      forall sched | PoolsOf(n, sched)
        ensures var s := Run(Step, LOADED, sched); s.main.Idle? && s.cont ==> Settled(s)
      {
        RoundsAreIsolated(sched);
      }
    } else {
      ZeroThreadsLeakTheRound();
      assert PoolsOf(0, FirstRunAlone(0));
    }
  }

  // ----- The program itself -----

  /** The static variables of spin.c. ws stands for the arrays threads, sem_start and sem_done, cell by
      cell; every spin_init allocates it anew. */
  class Pool {
    var cont: bool
    var run: bool
    var timer: Timer
    var ws: array<Worker>
    var main: Main
    ghost var live: bool
    ghost var rounds: nat

    ghost function View(): State
      reads this, ws
    {
      State(cont, run, timer, ws[..], main, live, rounds)
    }

    constructor ()
      ensures View() == LOADED && fresh(ws)
    {
      cont, run, timer, main := false, false, Off, Idle;
      ws := new Worker[0];
      live, rounds := false, 0;
    }

    /** spin_init up to its thread-creating loop. */
    method SpinInit(n: nat)
      modifies this
      ensures View() == Step(old(View()), CallInit(n))
      ensures if old(main) == Idle && !old(cont) then fresh(ws) && ws.Length == n && cont else View() == old(View())
      ensures ws == old(ws) || fresh(ws)
    {
      if main == Idle && !cont {
        ws := new Worker[n](_ => Worker(NotCreated, 0, 0, 0));
        cont, live, rounds, main := true, true, 0, Creating(0);
        assert ws[..] == seq(n, _ => Worker(NotCreated, 0, 0, 0));
      }
    }

    /** spin_run up to its call of setitimer. */
    method SpinRun(usec: int)
      modifies this`run, this`main
      ensures View() == Step(old(View()), CallRun(usec))
      ensures if old(main) == Idle && cont then run && main == SetTimer(usec) else View() == old(View())
    {
      if main == Idle && cont {
        run, main := true, SetTimer(usec);
      }
    }

    /** spin_exit up to its posting loop. */
    method SpinExit()
      modifies this`cont, this`main
      ensures View() == Step(old(View()), CallExit)
      ensures if old(main) == Idle && old(cont) then !cont && main == ExitPosting(0) else View() == old(View())
    {
      if main == Idle && cont {
        cont, main := false, ExitPosting(0);
      }
    }

    /** The thread-creating loop of spin_init. */
    method InitLoop(k: nat)
      requires main == Creating(k)
      modifies this`main, ws
      ensures View() == Step(old(View()), MainStep)
    {
      if k < ws.Length {
        ws[k] := ws[k].(pc := Init);
        main := Creating(k + 1);
      } else {
        main := Idle;
      }
    }

    /** The call of setitimer in spin_run. */
    method StartTimer(usec: int)
      requires main == SetTimer(usec)
      modifies this`timer, this`main
      ensures View() == Step(old(View()), MainStep)
    {
      if usec < 0 || usec >= 1_000_000 {
        main := Failed;
      } else {
        timer, main := if usec == 0 then Off else Armed(usec), Posting(0);
      }
    }

    /** The loop of spin_run that starts the workers. */
    method PostStarts(k: nat)
      requires main == Posting(k)
      modifies this`main, ws
      ensures View() == Step(old(View()), MainStep)
    {
      if k < ws.Length {
        ws[k] := ws[k].(start := ws[k].start + 1);
        main := Posting(k + 1);
      } else {
        main := Waiting(0);
      }
    }

    /** The loop of spin_run that waits for the workers. */
    method WaitDones(k: nat)
      requires main == Waiting(k)
      modifies this`main, this`rounds, ws
      ensures View() == Step(old(View()), MainStep)
    {
      if k >= ws.Length {
        main, rounds := Idle, rounds + 1;
      } else if ws[k].done > 0 {
        ws[k] := ws[k].(done := ws[k].done - 1);
        main := Waiting(k + 1);
      }
    }

    /** spin_exit from its posting loop on. */
    method ExitLoops()
      requires main.ExitPosting? || main.Joining? || main.Freeing?
      modifies this`main, this`live, ws
      ensures View() == Step(old(View()), MainStep)
    {
      match main
      case ExitPosting(k) =>
        if k < ws.Length {
          ws[k] := ws[k].(start := ws[k].start + 1);
          main := ExitPosting(k + 1);
        } else {
          main := Joining(0);
        }
      case Joining(k) =>
        if k >= ws.Length {
          main := Freeing;
        } else if ws[k].pc == Exited {
          main := Joining(k + 1);
        }
      case Freeing => live, main := false, Idle;
    }

    /** The next step of the controlling thread inside a call. */
    method Control()
      modifies this`timer, this`main, this`live, this`rounds, ws
      ensures View() == Step(old(View()), MainStep)
    {
      match main
      case Creating(k) => InitLoop(k);
      case SetTimer(usec) => StartTimer(usec);
      case Posting(k) => PostStarts(k);
      case Waiting(k) => WaitDones(k);
      case ExitPosting(_) => ExitLoops();
      case Joining(_) => ExitLoops();
      case Freeing => ExitLoops();
      case Idle =>
      case Failed =>
    }

    /** The next step of worker i. */
    method WorkerThread(i: nat)
      requires i < ws.Length
      modifies ws
      ensures View() == Step(old(View()), WorkerStep(i))
    {
      var w := ws[i];
      if main != Failed {
        match w.pc
        case Init => ws[i] := w.(pc := WaitStart);
        case WaitStart =>
          if w.start > 0 {
            ws[i] := w.(start := w.start - 1, pc := CheckCont);
          }
        case CheckCont => ws[i] := w.(pc := if cont then Loop else Fini);
        case Loop =>
          if !run {
            ws[i] := w.(pc := PostDone);
          }
        case PostDone => ws[i] := w.(done := w.done + 1, did := w.did + 1, pc := WaitStart);
        case Fini => ws[i] := w.(pc := Exited);
        case NotCreated =>
        case Exited =>
      }
    }

    /** The timer runs out. */
    method Alarm()
      modifies this`timer
      ensures View() == Step(old(View()), Expire)
    {
      if timer.Armed? && main != Failed {
        timer := Pending;
      }
    }

    /** signalhandler, when the pending signal is delivered. */
    method SignalHandler()
      modifies this`timer, this`run
      ensures View() == Step(old(View()), Deliver)
    {
      if timer == Pending && main != Failed {
        timer, run := Off, false;
      }
    }

    /** The program under a scheduler that picks the next action from sched. */
    method Execute(sched: seq<Action>)
      modifies this, ws
      ensures View() == Run(Step, old(View()), sched)
    {
      for k := 0 to |sched|
        invariant View() == Run(Step, old(View()), sched[..k])
        invariant ws == old(ws) || fresh(ws)
      {
        RunAppend(Step, old(View()), sched[..k], sched[k]);
        assert sched[..k] + [sched[k]] == sched[..k + 1];
        match sched[k]
        case CallInit(n) => SpinInit(n);
        case CallRun(usec) => SpinRun(usec);
        case CallExit => SpinExit();
        case MainStep => Control();
        case WorkerStep(i) =>
          if i < ws.Length {
            WorkerThread(i);
          }
        case Expire => Alarm();
        case Deliver => SignalHandler();
      }
      assert sched[..|sched|] == sched;
    }
  }
}
