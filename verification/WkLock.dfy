/** The kernel lock device of rt_kernel_lock/src/lockmodule/wk_lock.c.

Opening the device takes the rt_mutex and then, under a spin lock, sets `locked`;
releasing it clears `locked` and unlocks the mutex under the spin lock. Any number of
tasks open and release; a task may open a second time while its file is open, and a file
may be released by another task than its opener, as happens to a descriptor that is
inherited over a fork. An unlock frees the mutex whoever holds it. The module can be
unloaded while no file is open and no task is inside a call, and cannot be opened then.
*/
module WkLock {
  import opened Runs

  /** What a task is about to do; opener is the task that opened the file it releases. */
  datatype Task = Idle | TakeMutex | TakeSpin | SetLocked | DropSpin
                | ReleaseSpin(opener: nat) | ClearLocked(opener: nat) | UnlockMutex(opener: nat) | ReleaseDone

  datatype Unload = Loaded | ExitSpin | ExitTest | ExitDone | Unloaded

  /** own: every task has a descriptor of its own, so it opens when its last file is released, and releases
      what it opened. mutex and spin hold the number of their owner; -1 is nobody and |tasks| the unloading
      task. files holds the openers of the open files. */
  datatype State = State(
    own: bool, mutex: int, spin: int, locked: bool, files: seq<nat>, tasks: seq<Task>, unload: Unload)

  datatype Action = BeginOpen(t: nat) | BeginRelease(t: nat, f: nat) | Continue(t: nat) | UnloadStep

  function Start(own: bool, n: nat): State {
    State(own, -1, -1, false, [], seq(n, _ => Idle), Loaded)
  }

  predicate Enabled(s: State, a: Action) {
    match a
    case BeginOpen(t) => t < |s.tasks| && s.tasks[t] == Idle && s.unload == Loaded && !(s.own && t in s.files)
    case BeginRelease(t, f) => t < |s.tasks| && s.tasks[t] == Idle && f < |s.files| && !(s.own && s.files[f] != t)
    case Continue(t) => t < |s.tasks| && CanContinue(s, s.tasks[t])
    case UnloadStep =>
      match s.unload
      case Loaded => s.files == [] && forall t | 0 <= t < |s.tasks| :: s.tasks[t] == Idle
      case ExitSpin => s.spin == -1
      case Unloaded => false
      case _ => true
  }

  predicate CanContinue(s: State, p: Task) {
    match p
    case Idle => false
    case TakeMutex => s.mutex == -1
    case TakeSpin => s.spin == -1
    case ReleaseSpin(_) => s.spin == -1
    case _ => true
  }

  function TaskMove(s: State, t: nat): State
    requires t < |s.tasks|
  {
    match s.tasks[t]
    case Idle => s
    case TakeMutex => s.(tasks := s.tasks[t := TakeSpin], mutex := t)
    case TakeSpin => s.(tasks := s.tasks[t := SetLocked], spin := t)
    case SetLocked => s.(tasks := s.tasks[t := DropSpin], locked := true)
    case DropSpin => s.(tasks := s.tasks[t := Idle], spin := -1, files := s.files + [t])
    case ReleaseSpin(o) => s.(tasks := s.tasks[t := ClearLocked(o)], spin := t)
    case ClearLocked(o) => s.(tasks := s.tasks[t := UnlockMutex(o)], locked := false)
    case UnlockMutex(_) => s.(tasks := s.tasks[t := ReleaseDone], mutex := -1)
    case ReleaseDone => s.(tasks := s.tasks[t := Idle], spin := -1)
  }

  function ExitMove(s: State): State {
    match s.unload
    case Loaded => s.(unload := ExitSpin)
    case ExitSpin => s.(unload := ExitTest, spin := |s.tasks|)
    case ExitTest => s.(unload := ExitDone, mutex := if s.locked then -1 else s.mutex)
    case ExitDone => s.(unload := Unloaded, spin := -1)
    case Unloaded => s
  }

  function Step(s: State, a: Action): State {
    if !Enabled(s, a) then s
    else match a
      case BeginOpen(t) => s.(tasks := s.tasks[t := TakeMutex])
      case BeginRelease(t, f) =>
        s.(tasks := s.tasks[t := ReleaseSpin(s.files[f])], files := s.files[..f] + s.files[f + 1..])
      case Continue(t) => TaskMove(s, t)
      case UnloadStep => ExitMove(s)
  }

  // ----- Invariant -----

  predicate Opening(p: Task) {
    p.TakeSpin? || p.SetLocked? || p.DropSpin?
  }

  predicate Releasing(p: Task) {
    p.ReleaseSpin? || p.ClearLocked? || p.UnlockMutex?
  }

  predicate HoldsSpin(p: Task) {
    p.SetLocked? || p.DropSpin? || p.ClearLocked? || p.UnlockMutex? || p.ReleaseDone?
  }

  /** Who uses the mutex: nobody, a task that opens, an open file, or a task that releases. */
  datatype User = Nobody | Opener(t: nat) | File | Releaser(t: nat)

  ghost predicate UsedBy(s: State, u: User) {
    && (forall t: nat | t < |s.tasks| :: Opening(s.tasks[t]) <==> u == Opener(t))
    && (forall t: nat | t < |s.tasks| :: Releasing(s.tasks[t]) <==> u == Releaser(t))
    && |s.files| == (if u == File then 1 else 0)
    && (match u
        case Nobody => s.mutex == -1 && !s.locked
        case Opener(t) => t < |s.tasks| && s.mutex == t && (s.locked <==> s.tasks[t].DropSpin?)
        case File => s.mutex == s.files[0] < |s.tasks| && s.locked && (s.own ==> s.tasks[s.mutex] == Idle)
        case Releaser(t) => t < |s.tasks| && s.mutex == s.tasks[t].opener < |s.tasks| && (s.own ==> s.mutex == t)
                            && (s.locked <==> !s.tasks[t].UnlockMutex?))
  }

  ghost predicate SpinInv(s: State) {
    && (forall t | 0 <= t < |s.tasks| :: HoldsSpin(s.tasks[t]) == (s.spin == t))
    && -1 <= s.spin <= |s.tasks|
    && (s.spin == |s.tasks| <==> s.unload.ExitTest? || s.unload.ExitDone?)
  }

  /** Nothing goes on once the module is being unloaded. */
  ghost predicate UnloadInv(s: State) {
    !s.unload.Loaded? ==> s.files == [] && forall t | 0 <= t < |s.tasks| :: s.tasks[t] == Idle
  }

  ghost predicate Inv(s: State) {
    (exists u :: UsedBy(s, u)) && SpinInv(s) && UnloadInv(s)
  }

  /** The user of the mutex after a step. */
  function NextUser(s: State, a: Action, u: User): User {
    if !Enabled(s, a) then u
    else match a
      case BeginRelease(t, _) => Releaser(t)
      case Continue(t) => (
        match s.tasks[t]
        case TakeMutex => Opener(t)
        case DropSpin => File
        case UnlockMutex(_) => Nobody
        case _ => u
      )
      case _ => u
  }

  lemma CallKeepsUse(s: State, a: Action, u: User)
    requires UsedBy(s, u) && (a.BeginOpen? || a.BeginRelease?)
    ensures UsedBy(Step(s, a), NextUser(s, a, u))
  {
  }

  lemma OpenKeepsUse(s: State, t: nat, u: User)
    requires UsedBy(s, u) && t < |s.tasks| && (Opening(s.tasks[t]) || s.tasks[t].TakeMutex?)
    ensures UsedBy(Step(s, Continue(t)), NextUser(s, Continue(t), u))
  {
  }

  lemma ReleaseKeepsUse(s: State, t: nat, u: User)
    requires UsedBy(s, u) && t < |s.tasks| && !Opening(s.tasks[t]) && !s.tasks[t].TakeMutex?
    ensures UsedBy(Step(s, Continue(t)), NextUser(s, Continue(t), u))
  {
  }

  lemma NoneInside(s: State)
    requires UnloadInv(s) && !s.unload.Loaded?
    ensures forall t: nat | t < |s.tasks| :: !Opening(s.tasks[t]) && !Releasing(s.tasks[t])
  {
  }

  lemma ExitKeepsUse(s: State, u: User)
    requires UsedBy(s, u) && UnloadInv(s)
    ensures UsedBy(Step(s, UnloadStep), u)
  {
    if s.unload.ExitTest? { NoneInside(s); }
  }

  lemma StepKeepsUse(s: State, a: Action, u: User)
    requires UsedBy(s, u) && UnloadInv(s)
    ensures UsedBy(Step(s, a), NextUser(s, a, u))
  {
    match a
    case Continue(t) =>
      if t < |s.tasks| {
        if Opening(s.tasks[t]) || s.tasks[t].TakeMutex? { OpenKeepsUse(s, t, u); } else { ReleaseKeepsUse(s, t, u); }
      }
    case UnloadStep => ExitKeepsUse(s, u);
    case _ => CallKeepsUse(s, a, u);
  }

  lemma StepKeepsSpin(s: State, a: Action)
    requires SpinInv(s)
    ensures SpinInv(Step(s, a))
  {
  }

  lemma StepKeepsInv(s: State, a: Action)
    requires Inv(s)
    ensures Inv(Step(s, a))
  {
    var u :| UsedBy(s, u);
    StepKeepsUse(s, a, u);
    StepKeepsSpin(s, a);
  }

  ghost predicate InvOf(own: bool, n: nat, s: State) {
    Inv(s) && |s.tasks| == n && s.own == own
  }

  lemma StepKeepsInvOf(own: bool, n: nat, s: State, a: Action)
    requires InvOf(own, n, s)
    ensures InvOf(own, n, Step(s, a))
  {
    StepKeepsInv(s, a);
  }

  lemma RunKeepsInv(own: bool, n: nat, sched: seq<Action>)
    ensures InvOf(own, n, Run(Step, Start(own, n), sched))
  {
    assert UsedBy(Start(own, n), Nobody);
    forall x: State, a | InvOf(own, n, x) ensures InvOf(own, n, Step(x, a)) { StepKeepsInvOf(own, n, x, a); }
    RunKeeps(Step, (x: State) => InvOf(own, n, x), Start(own, n), sched);
  }

  // ----- Main results -----

  /** No task is inside open or release, beyond waiting for the mutex. */
  predicate Settled(s: State) {
    forall t | 0 <= t < |s.tasks| :: s.tasks[t].Idle? || s.tasks[t].TakeMutex?
  }

  /** For any number of tasks under any interleaving, whoever releases the files: at most one is open, and
      none while a task is between lock and unlock; `locked` is only set while the mutex is held; and while
      no task is inside open or release the two agree, and say whether a file is open. */
  lemma OneOwner(own: bool, n: nat, sched: seq<Action>)
    ensures var s := Run(Step, Start(own, n), sched);
      && |s.files| <= 1
      && (forall t, u | 0 <= t < |s.tasks| && 0 <= u < |s.tasks| ::
            (Opening(s.tasks[t]) || Releasing(s.tasks[t])) && (Opening(s.tasks[u]) || Releasing(s.tasks[u])) ==>
              t == u && s.files == [])
      && (s.locked ==> s.mutex != -1)
      && (Settled(s) ==> (s.locked <==> s.mutex != -1) && (s.locked <==> |s.files| == 1))
  {
    RunKeepsInv(own, n, sched);
  }

  /** wk_exit never finds `locked` set, so it leaves the mutex alone, and once it has run nobody holds
      either lock. */
  lemma ExitFindsUnlocked(own: bool, n: nat, sched: seq<Action>)
    ensures var s := Run(Step, Start(own, n), sched);
      && (s.unload.ExitTest? ==> !s.locked)
      && (s.unload.Unloaded? ==> s.mutex == -1 && s.spin == -1 && !s.locked)
  {
    RunKeepsInv(own, n, sched);
    var s := Run(Step, Start(own, n), sched);
    var u :| UsedBy(s, u);
    assert 0 <= s.spin < |s.tasks| ==> HoldsSpin(s.tasks[s.spin]);
    if !s.unload.Loaded? { NoneInside(s); }
  }

  ghost predicate Reachable(own: bool, n: nat, s: State) {
    exists sched: seq<Action> :: Run(Step, Start(own, n), sched) == s
  }

  lemma ReachStep(own: bool, n: nat, s: State, a: Action)
    requires Reachable(own, n, s)
    ensures Reachable(own, n, Step(s, a))
  {
    var sched: seq<Action> :| Run(Step, Start(own, n), sched) == s;
    RunAppend(Step, Start(own, n), sched, a);
  }

  /** The file of task 0 is open. */
  lemma FirstOpens(own: bool, n: nat) returns (s: State)
    requires n >= 1
    ensures Reachable(own, n, s) && s == Start(own, n).(mutex := 0, locked := true, files := [0])
  {
    OpenAlone(Start(own, n), 0);
    s := Run(Step, Start(own, n), [BeginOpen(0), Continue(0), Continue(0), Continue(0), Continue(0)]);
  }

  /** A task about to unlock the mutex is its holder. */
  predicate HolderUnlocks(s: State) {
    forall t | 0 <= t < |s.tasks| :: s.tasks[t].UnlockMutex? ==> s.mutex == t
  }

  /** The task that unlocks the mutex is its holder exactly if it releases the file it opened. */
  lemma UnlockerIsHolderIff(own: bool, n: nat, sched: seq<Action>, t: nat)
    ensures var s := Run(Step, Start(own, n), sched);
      t < |s.tasks| && s.tasks[t].UnlockMutex? ==>
        s.spin == t && s.mutex != -1 && (s.mutex == t <==> s.tasks[t].opener == t)
  {
    RunKeepsInv(own, n, sched);
    var s := Run(Step, Start(own, n), sched);
    var u :| UsedBy(s, u);
  }

  /** Only holders unlock the mutex, in any interleaving, exactly if every task has a descriptor of its own,
      or there is one task at most. */
  lemma OnlyHoldersUnlockIff(own: bool, n: nat)
    ensures (forall sched :: HolderUnlocks(Run(Step, Start(own, n), sched))) <==> own || n <= 1
  {
    if !own && n >= 2 {
      var s := FirstOpens(own, n);
      ReachStep(own, n, s, BeginRelease(1, 0));
      s := Step(s, BeginRelease(1, 0));
      assert s.tasks[1] == ReleaseSpin(0);
      ReachStep(own, n, s, Continue(1));
      s := Step(s, Continue(1));
      assert s.tasks[1] == ClearLocked(0);
      ReachStep(own, n, s, Continue(1));
      s := Step(s, Continue(1));
      assert s.tasks[1] == UnlockMutex(0) && s.mutex == 0;
      var sched: seq<Action> :| Run(Step, Start(own, n), sched) == s;
      assert !HolderUnlocks(Run(Step, Start(own, n), sched));
    } else {
      forall sched ensures HolderUnlocks(Run(Step, Start(own, n), sched)) {
        RunKeepsInv(own, n, sched);
        var s := Run(Step, Start(own, n), sched);
        var u :| UsedBy(s, u);
      }
    }
  }

  // ----- Main results: what the calls can do -----

  predicate NobodyInside(s: State) {
    forall t | 0 <= t < |s.tasks| :: s.tasks[t] == Idle
  }

  lemma IdleLocks(s: State)
    requires Inv(s) && NobodyInside(s) && s.unload.Loaded?
    ensures s.spin == -1
    ensures if s.files == [] then s.mutex == -1 && !s.locked else s.files == [s.mutex] && s.locked
  {
    var u :| UsedBy(s, u);
    assert 0 <= s.spin < |s.tasks| ==> HoldsSpin(s.tasks[s.spin]);
  }

  /** While the module is loaded any idle task without a file of its own can call open; and if nobody is
      inside a call and no file is open, the call succeeds. */
  lemma OpenSucceeds(own: bool, n: nat, sched: seq<Action>, t: nat)
    ensures var s := Run(Step, Start(own, n), sched);
      t < n && s.unload.Loaded? && |s.tasks| == n ==>
        && (s.tasks[t] == Idle && t !in s.files ==> Enabled(s, BeginOpen(t)))
        && (NobodyInside(s) && s.files == [] ==>
              Run(Step, s, [BeginOpen(t), Continue(t), Continue(t), Continue(t), Continue(t)])
              == s.(mutex := t, locked := true, files := [t]))
  {
    RunKeepsInv(own, n, sched);
    var s := Run(Step, Start(own, n), sched);
    if t < n && s.unload.Loaded? && NobodyInside(s) && s.files == [] {
      IdleLocks(s);
      OpenAlone(s, t);
    }
  }

  lemma OpenAlone(s: State, t: nat)
    requires t < |s.tasks| && s.unload.Loaded? && s.tasks[t] == Idle && s.files == [] && s.mutex == -1 == s.spin
    ensures Run(Step, s, [BeginOpen(t), Continue(t), Continue(t), Continue(t), Continue(t)])
      == s.(mutex := t, locked := true, files := [t])
  {
    var s1 := s.(tasks := s.tasks[t := TakeMutex]);
    var s2 := s.(tasks := s.tasks[t := TakeSpin], mutex := t);
    var s3 := s.(tasks := s.tasks[t := SetLocked], mutex := t, spin := t);
    var s4 := s.(tasks := s.tasks[t := DropSpin], mutex := t, spin := t, locked := true);
    var s5 := s.(mutex := t, locked := true, files := [t]);
    assert Step(s, BeginOpen(t)) == s1;
    assert Step(s1, Continue(t)) == s2;
    assert Step(s2, Continue(t)) == s3;
    assert Step(s3, Continue(t)) == s4;
    assert Step(s4, Continue(t)) == s5 by { assert s4.tasks[t := Idle] == s.tasks; }
    RunThrough(Step, [s, s1, s2, s3, s4, s5], [BeginOpen(t), Continue(t), Continue(t), Continue(t), Continue(t)]);
  }

  /** If nobody is inside a call and a file is open, any task that may release it can, and leaves the device
      as it was before the open. */
  lemma ReleaseSucceeds(own: bool, n: nat, sched: seq<Action>, t: nat)
    ensures var s := Run(Step, Start(own, n), sched);
      t < n && |s.tasks| == n && s.unload.Loaded? && NobodyInside(s) && s.files != [] && (own ==> s.files[0] == t) ==>
        Run(Step, s, [BeginRelease(t, 0), Continue(t), Continue(t), Continue(t), Continue(t)])
        == s.(mutex := -1, locked := false, files := [])
  {
    RunKeepsInv(own, n, sched);
    var s := Run(Step, Start(own, n), sched);
    if t < n && s.unload.Loaded? && NobodyInside(s) && s.files != [] && (own ==> s.files[0] == t) {
      IdleLocks(s);
      ReleaseAlone(s, t);
    }
  }

  lemma ReleaseAlone(s: State, t: nat)
    requires t < |s.tasks| && s.tasks[t] == Idle && |s.files| == 1 && s.spin == -1 && (s.own ==> s.files[0] == t)
    ensures Run(Step, s, [BeginRelease(t, 0), Continue(t), Continue(t), Continue(t), Continue(t)])
      == s.(mutex := -1, locked := false, files := [])
  {
    var o := s.files[0];
    var s1 := s.(tasks := s.tasks[t := ReleaseSpin(o)], files := []);
    var s2 := s.(tasks := s.tasks[t := ClearLocked(o)], files := [], spin := t);
    var s3 := s.(tasks := s.tasks[t := UnlockMutex(o)], files := [], spin := t, locked := false);
    var s4 := s.(tasks := s.tasks[t := ReleaseDone], files := [], spin := t, locked := false, mutex := -1);
    var s5 := s.(mutex := -1, locked := false, files := []);
    assert Step(s, BeginRelease(t, 0)) == s1;
    assert Step(s1, Continue(t)) == s2;
    assert Step(s2, Continue(t)) == s3;
    assert Step(s3, Continue(t)) == s4;
    assert Step(s4, Continue(t)) == s5 by { assert s4.tasks[t := Idle] == s.tasks; }
    RunThrough(Step, [s, s1, s2, s3, s4, s5], [BeginRelease(t, 0), Continue(t), Continue(t), Continue(t), Continue(t)]);
  }

  /** If nobody is inside a call and no file is open, the module can be unloaded; it cannot begin otherwise. */
  lemma UnloadSucceeds(own: bool, n: nat, sched: seq<Action>)
    ensures var s := Run(Step, Start(own, n), sched);
      s.unload.Loaded? ==>
        && (Enabled(s, UnloadStep) <==> NobodyInside(s) && s.files == [])
        && (NobodyInside(s) && s.files == [] ==>
              Run(Step, s, [UnloadStep, UnloadStep, UnloadStep, UnloadStep]) == s.(unload := Unloaded))
  {
    RunKeepsInv(own, n, sched);
    var s := Run(Step, Start(own, n), sched);
    if s.unload.Loaded? && NobodyInside(s) && s.files == [] {
      IdleLocks(s);
      UnloadAlone(s);
    }
  }

  lemma UnloadAlone(s: State)
    requires s.unload.Loaded? && NobodyInside(s) && s.files == [] && s.spin == -1 && !s.locked
    ensures Run(Step, s, [UnloadStep, UnloadStep, UnloadStep, UnloadStep]) == s.(unload := Unloaded)
  {
    var s1 := s.(unload := ExitSpin);
    var s2 := s.(unload := ExitTest, spin := |s.tasks|);
    var s3 := s.(unload := ExitDone, spin := |s.tasks|);
    var s4 := s.(unload := Unloaded);
    assert Step(s, UnloadStep) == s1;
    assert Step(s1, UnloadStep) == s2;
    assert Step(s2, UnloadStep) == s3;
    assert Step(s3, UnloadStep) == s4;
    RunThrough(Step, [s, s1, s2, s3, s4], [UnloadStep, UnloadStep, UnloadStep, UnloadStep]);
  }

  /** A step that takes a call further or releases a file. */
  predicate Advances(s: State, a: Action) {
    Enabled(s, a) && (a.Continue? || a.BeginRelease?)
  }

  /** A task is inside a call, and no task can take its call further or release a file. */
  ghost predicate Stuck(s: State) {
    && (exists t :: 0 <= t < |s.tasks| && !s.tasks[t].Idle?)
    && forall a :: !Advances(s, a)
  }

  /** The calls are stuck exactly when a file is open and every task waits for the mutex. */
  lemma StuckIff(own: bool, n: nat, sched: seq<Action>)
    ensures var s := Run(Step, Start(own, n), sched);
      Stuck(s) <==> s.files != [] && !own && forall t | 0 <= t < |s.tasks| :: s.tasks[t] == TakeMutex
  {
    RunKeepsInv(own, n, sched);
    var s := Run(Step, Start(own, n), sched);
    var u :| UsedBy(s, u);
    if t: nat :| t < |s.tasks| && !s.tasks[t].Idle? {
      if !(s.files != [] && !own && forall t | 0 <= t < |s.tasks| :: s.tasks[t] == TakeMutex) {
        var a := SomethingAdvances(s, t, u);
      }
    } else if |s.tasks| > 0 {
      assert s.tasks[0].Idle?;
    }
  }

  lemma SomethingAdvances(s: State, t: nat, u: User) returns (a: Action)
    requires Inv(s) && UsedBy(s, u) && t < |s.tasks| && !s.tasks[t].Idle?
    requires s.own || s.files == [] || exists w :: 0 <= w < |s.tasks| && s.tasks[w] != TakeMutex
    ensures Advances(s, a)
  {
    if s.spin >= 0 {
      a := Continue(s.spin);
    } else {
      match u
      case Nobody => a := Continue(t);
      case Opener(w) => a := Continue(w);
      case Releaser(w) => a := Continue(w);
      case File =>
        if s.own {
          a := BeginRelease(s.mutex, 0);
        } else {
          var w: nat :| w < |s.tasks| && s.tasks[w] != TakeMutex;
          a := BeginRelease(w, 0);
        }
    }
  }

  /** Tasks that open while a file is open all wait for the mutex. */
  lemma {:induction false} OthersWait(n: nat, k: nat) returns (s: State)
    requires n >= 1 && k <= n
    ensures Reachable(false, n, s) && !s.own && s.files == [0] && s.unload == Loaded && |s.tasks| == n
    ensures forall t | 0 <= t < n :: s.tasks[t] == if t < k then TakeMutex else Idle
  {
    if k == 0 {
      s := FirstOpens(false, n);
    } else {
      var before := OthersWait(n, k - 1);
      ReachStep(false, n, before, BeginOpen(k - 1));
      s := Step(before, BeginOpen(k - 1));
    }
  }

  /** No interleaving gets stuck exactly if every task has a descriptor of its own, or there is no task. */
  lemma NoDeadlockIff(own: bool, n: nat)
    ensures (forall sched :: !Stuck(Run(Step, Start(own, n), sched))) <==> own || n == 0
  {
    if !own && n >= 1 {
      var s := OthersWait(n, n);
      var sched: seq<Action> :| Run(Step, Start(own, n), sched) == s;
      StuckIff(own, n, sched);
    } else {
      forall sched ensures !Stuck(Run(Step, Start(own, n), sched)) {
        StuckIff(own, n, sched);
        RunKeepsInv(own, n, sched);
      }
    }
  }

  // ----- The module itself -----

  class Device {
    const own: bool
    var mutex: int
    var spin: int
    var locked: bool
    var files: seq<nat>
    const tasks: array<Task>
    var unload: Unload

    ghost function View(): State
      reads this, tasks
    {
      State(own, mutex, spin, locked, files, tasks[..], unload)
    }

    /** wk_init, with n tasks that may use the device. */
    constructor (own: bool, n: nat)
      ensures View() == Start(own, n) && fresh(tasks)
    {
      this.own := own;
      mutex, spin, locked, files, unload := -1, -1, false, [], Loaded;
      tasks := new Task[n](_ => Idle);
      new;
      assert tasks[..] == Start(own, n).tasks;
    }

    /** A task calls open: wk_open begins. */
    method CallOpen(t: nat)
      modifies tasks
      ensures View() == Step(old(View()), BeginOpen(t))
    {
      if t < tasks.Length && tasks[t] == Idle && unload == Loaded && !(own && t in files) {
        tasks[t] := TakeMutex;
      }
    }

    /** A task closes the last descriptor of a file: wk_release begins. */
    method CallRelease(t: nat, f: nat)
      modifies this`files, tasks
      ensures View() == Step(old(View()), BeginRelease(t, f))
    {
      if t < tasks.Length && tasks[t] == Idle && f < |files| && !(own && files[f] != t) {
        tasks[t] := ReleaseSpin(files[f]);
        files := files[..f] + files[f + 1..];
      }
    }

    /** The next step of wk_open or wk_release in task t. */
    method TaskStep(t: nat)
      modifies this`mutex, this`spin, this`locked, this`files, tasks
      ensures View() == Step(old(View()), Continue(t))
    {
      if t < tasks.Length {
        match tasks[t]
        case Idle =>
        case TakeMutex =>
          if mutex == -1 {
            mutex := t;
            tasks[t] := TakeSpin;
          }
        case TakeSpin =>
          if spin == -1 {
            spin := t;
            tasks[t] := SetLocked;
          }
        case SetLocked =>
          locked := true;
          tasks[t] := DropSpin;
        case DropSpin =>
          spin := -1;
          files := files + [t];
          tasks[t] := Idle;
        case ReleaseSpin(o) =>
          if spin == -1 {
            spin := t;
            tasks[t] := ClearLocked(o);
          }
        case ClearLocked(o) =>
          locked := false;
          tasks[t] := UnlockMutex(o);
        case UnlockMutex(_) =>
          mutex := -1;
          tasks[t] := ReleaseDone;
        case ReleaseDone =>
          spin := -1;
          tasks[t] := Idle;
      }
    }

    /** The next step of wk_exit. */
    method UnloadMove()
      modifies this`mutex, this`spin, this`unload
      ensures View() == Step(old(View()), UnloadStep)
    {
      match unload
      case Loaded =>
        if files == [] && forall t | 0 <= t < tasks.Length :: tasks[t] == Idle {
          unload := ExitSpin;
        }
      case ExitSpin =>
        if spin == -1 {
          spin, unload := tasks.Length, ExitTest;
        }
      case ExitTest =>
        if locked {
          mutex := -1;
        }
        unload := ExitDone;
      case ExitDone => spin, unload := -1, Unloaded;
      case Unloaded =>
    }

    /** The tasks and the kernel under a scheduler that picks what happens next from sched. */
    method Execute(sched: seq<Action>)
      modifies this, tasks
      ensures View() == Run(Step, old(View()), sched)
    {
      for k := 0 to |sched|
        invariant View() == Run(Step, old(View()), sched[..k])
      {
        RunAppend(Step, old(View()), sched[..k], sched[k]);
        assert sched[..k] + [sched[k]] == sched[..k + 1];
        match sched[k]
        case BeginOpen(t) => CallOpen(t);
        case BeginRelease(t, f) => CallRelease(t, f);
        case Continue(t) => TaskStep(t);
        case UnloadStep => UnloadMove();
      }
      assert sched[..|sched|] == sched;
    }
  }
}
