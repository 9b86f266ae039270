/** The staged thread tree of ust/threadtree/threadtree.c.

Stage j has T - j threads. Each draws an exit index under the stage's mutex, writes its
handle into the stage's ready array at that index and posts sem_ready; the one that drew
the last index spawns the next stage. The main thread spawns the first stage and then
joins, stage by stage, the handle it finds in slot i after its wait number i + 1.

The program writes the slot after it has released the mutex. The model carries a switch
for the variant that keeps the mutex until slot and post are done.
*/
module ThreadTree {
  import opened Runs
  import opened Sums

  datatype Pc = NotCreated | Begin | Lock | Draw | Unlock | Write | Post | Branch | Spawn(k: nat) | Leave | Exited

  /** index is meaningful once drawn. */
  datatype Worker = Worker(pc: Pc, index: nat)

  datatype Slot = Unwritten | Thread(i: nat)

  datatype Agent = MainThread | WorkerThread(j: nat, i: nat)

  /** History of a stage: who holds the mutex (-1: nobody), the workers in the order of their indices,
      and who forked each of its threads. */
  datatype History = History(holder: int, order: seq<nat>, forkedBy: seq<Agent>)

  datatype Stage = Stage(
    nb: int, count: nat, mutex: nat, posts: nat, ready: seq<Slot>, ws: seq<Worker>, past: History)

  /** The main thread spawns stage 0, then waits, reads a slot and joins; Crashed is a join on a slot
      that was never written. */
  datatype Main = Spawning(k: nat) | Waiting(j: nat, i: nat) | Reading(j: nat, i: nat)
                | Joining(j: nat, i: nat, w: nat) | Freeing | Done | Crashed(j: nat, i: nat)

  /** safe: slot and post inside the mutex. T is the number of threads of the first stage; a negative one
      makes no threads. */
  datatype State = State(safe: bool, T: int, stages: seq<Stage>, main: Main)

  datatype Action = MainStep | WorkerStep(j: nat, i: nat)

  function Size(nb: int): nat {
    if nb < 0 then 0 else nb
  }

  /** Stage j as make_task builds it. */
  function FreshStage(T: int, j: nat): Stage {
    Stage(T - j, 0, 1, 0, seq(Size(T), _ => Unwritten), seq(Size(T - j), _ => Worker(NotCreated, 0)),
          History(-1, [], []))
  }

  function Start(safe: bool, S: nat, T: int): State {
    State(safe, T, seq(S, j requires 0 <= j < S => FreshStage(T, j)), Spawning(0))
  }

  // ----- Steps -----

  predicate MainEnabled(s: State) {
    match s.main
    case Waiting(j, i) => j < |s.stages| && i < Size(s.stages[j].nb) ==> s.stages[j].posts > 0
    case Joining(j, _, w) => j < |s.stages| && w < |s.stages[j].ws| ==> s.stages[j].ws[w].pc == Exited
    case Done => false
    case Crashed(_, _) => false
    case _ => true
  }

  predicate WorkerEnabled(s: State, j: nat, i: nat) {
    && j < |s.stages| && i < |s.stages[j].ws|
    && match s.stages[j].ws[i].pc
       case NotCreated => false
       case Exited => false
       case Lock => s.stages[j].mutex > 0
       case _ => true
  }

  predicate Enabled(s: State, a: Action) {
    match a
    case MainStep => MainEnabled(s)
    case WorkerStep(j, i) => WorkerEnabled(s, j, i)
  }

  /** pthread_create of thread k of a stage. */
  function Create(st: Stage, k: nat, parent: Agent): Stage {
    if k < |st.ws| then
      st.(ws := st.ws[k := st.ws[k].(pc := Begin)], past := st.past.(forkedBy := st.past.forkedBy + [parent]))
    else st
  }

  function MainMove(s: State): State
    requires MainEnabled(s)
  {
    match s.main
    case Spawning(k) =>
      if |s.stages| > 0 && k < Size(s.stages[0].nb) then
        s.(stages := s.stages[0 := Create(s.stages[0], k, MainThread)], main := Spawning(k + 1))
      else s.(main := Waiting(0, 0))
    case Waiting(j, i) =>
      if j >= |s.stages| then s.(main := Freeing)
      else if i >= Size(s.stages[j].nb) then s.(main := Waiting(j + 1, 0))
      else s.(stages := s.stages[j := s.stages[j].(posts := s.stages[j].posts - 1)], main := Reading(j, i))
    case Reading(j, i) =>
      if j < |s.stages| && i < |s.stages[j].ready| && s.stages[j].ready[i].Thread? then
        s.(main := Joining(j, i, s.stages[j].ready[i].i))
      else s.(main := Crashed(j, i))
    case Joining(j, i, _) => s.(main := Waiting(j, i + 1))
    case Freeing => s.(main := Done)
  }

  function AfterDraw(safe: bool): Pc { if safe then Write else Unlock }
  function AfterUnlock(safe: bool): Pc { if safe then Branch else Write }
  function AfterPost(safe: bool): Pc { if safe then Unlock else Branch }

  function SetPc(st: Stage, i: nat, pc: Pc): Stage
    requires i < |st.ws|
  {
    st.(ws := st.ws[i := st.ws[i].(pc := pc)])
  }

  /** A step of worker i that touches its own stage only. */
  function StageMove(safe: bool, st: Stage, i: nat): Stage
    requires i < |st.ws| && (st.ws[i].pc == Lock ==> st.mutex > 0)
  {
    match st.ws[i].pc
    case Begin => SetPc(st, i, Lock)
    case Lock => SetPc(st, i, Draw).(mutex := st.mutex - 1, past := st.past.(holder := i))
    case Draw =>
      st.(ws := st.ws[i := Worker(AfterDraw(safe), st.count)], count := st.count + 1,
          past := st.past.(order := st.past.order + [i]))
    case Unlock => SetPc(st, i, AfterUnlock(safe)).(mutex := st.mutex + 1, past := st.past.(holder := -1))
    case Write =>
      var x := st.ws[i].index;
      SetPc(st, i, Post).(ready := if x < |st.ready| then st.ready[x := Thread(i)] else st.ready)
    case Post => SetPc(st, i, AfterPost(safe)).(posts := st.posts + 1)
    case Branch => SetPc(st, i, if st.ws[i].index == st.nb - 1 then Spawn(0) else Leave)
    case Leave => SetPc(st, i, Exited)
    case _ => st
  }

  function WorkerMove(s: State, j: nat, i: nat): State
    requires WorkerEnabled(s, j, i)
  {
    var st := s.stages[j];
    if st.ws[i].pc.Spawn? then
      var k := st.ws[i].pc.k;
      if j + 1 < |s.stages| && k < Size(s.stages[j + 1].nb) then
        s.(stages := s.stages[j := SetPc(st, i, Spawn(k + 1))]
                             [j + 1 := Create(s.stages[j + 1], k, WorkerThread(j, i))])
      else s.(stages := s.stages[j := SetPc(st, i, Leave)])
    else s.(stages := s.stages[j := StageMove(s.safe, st, i)])
  }

  function Step(s: State, a: Action): State {
    if !Enabled(s, a) then s
    else match a
      case MainStep => MainMove(s)
      case WorkerStep(j, i) => WorkerMove(s, j, i)
  }

  // ----- Invariant of one stage -----

  predicate Critical(safe: bool, pc: Pc) {
    pc.Draw? || pc.Unlock? || (safe && (pc.Write? || pc.Post?))
  }

  predicate Drawn(pc: Pc) {
    !pc.NotCreated? && !pc.Begin? && !pc.Lock? && !pc.Draw?
  }

  predicate Wrote(safe: bool, pc: Pc) {
    pc.Post? || Posted(safe, pc)
  }

  predicate Posted(safe: bool, pc: Pc) {
    pc.Branch? || pc.Spawn? || pc.Leave? || pc.Exited? || (safe && pc.Unlock?)
  }

  function DrawnFlags(ws: seq<Worker>): seq<nat> {
    seq(|ws|, i requires 0 <= i < |ws| => if Drawn(ws[i].pc) then 1 else 0)
  }

  function PostedFlags(safe: bool, ws: seq<Worker>): seq<nat> {
    seq(|ws|, i requires 0 <= i < |ws| => if Posted(safe, ws[i].pc) then 1 else 0)
  }

  /** The mutex is free or held by the one worker inside its section. */
  ghost predicate MutexInv(safe: bool, st: Stage) {
    && st.mutex == (if st.past.holder == -1 then 1 else 0)
    && (forall i | 0 <= i < |st.ws| :: Critical(safe, st.ws[i].pc) == (st.past.holder == i))
    && -1 <= st.past.holder < |st.ws|
  }

  /** The drawn indices are 0 .. count-1, each by one worker. */
  ghost predicate DrawInv(st: Stage) {
    && |st.past.order| == st.count
    && (forall x | 0 <= x < st.count ::
          st.past.order[x] < |st.ws| && Drawn(st.ws[st.past.order[x]].pc) && st.ws[st.past.order[x]].index == x)
    && (forall i | 0 <= i < |st.ws| && Drawn(st.ws[i].pc) ::
          st.ws[i].index < st.count && st.past.order[st.ws[i].index] == i)
  }

  ghost predicate CountInv(st: Stage) {
    st.count == Sum(DrawnFlags(st.ws)) <= |st.ws|
  }

  /** A slot holds the worker of its index once that worker has written it, and nothing before. */
  ghost predicate ReadyInv(safe: bool, st: Stage) {
    forall x | 0 <= x < |st.ready| ::
      st.ready[x] == if x < |st.past.order| && st.past.order[x] < |st.ws| && Wrote(safe, st.ws[st.past.order[x]].pc)
                     then Thread(st.past.order[x]) else Unwritten
  }

  /** Threads are created in order, and only the one with the last index spawns. */
  ghost predicate ForkInv(st: Stage) {
    && |st.past.forkedBy| <= |st.ws|
    && (forall i | 0 <= i < |st.ws| :: st.ws[i].pc.NotCreated? <==> i >= |st.past.forkedBy|)
    && (forall i | 0 <= i < |st.ws| :: st.ws[i].pc.Spawn? ==> st.ws[i].index == st.nb - 1)
  }

  /** How many of the drawn workers have not posted yet, when slot and post are inside the mutex. */
  ghost predicate SafeInv(safe: bool, st: Stage) {
    safe ==>
      var h := st.past.holder;
      && st.count == Sum(PostedFlags(safe, st.ws))
                     + (if 0 <= h < |st.ws| && (st.ws[h].pc.Write? || st.ws[h].pc.Post?) then 1 else 0)
      && (0 <= h < |st.ws| && (st.ws[h].pc.Write? || st.ws[h].pc.Post?) ==> st.ws[h].index == st.count - 1)
  }

  ghost predicate Shaped(T: int, j: nat, st: Stage) {
    st.nb == T - j && |st.ws| == Size(st.nb) && |st.ready| == Size(T)
  }

  ghost predicate StageInv(safe: bool, T: int, j: nat, st: Stage) {
    && Shaped(T, j, st) && MutexInv(safe, st) && DrawInv(st) && CountInv(st)
    && ReadyInv(safe, st) && ForkInv(st) && SafeInv(safe, st)
  }

  // ----- Steps inside a stage keep its invariant -----

  lemma FlagsUpdate(safe: bool, ws: seq<Worker>, i: nat, w: Worker)
    requires i < |ws|
    ensures Sum(DrawnFlags(ws[i := w])) + (if Drawn(ws[i].pc) then 1 else 0)
         == Sum(DrawnFlags(ws)) + (if Drawn(w.pc) then 1 else 0)
    ensures Sum(PostedFlags(safe, ws[i := w])) + (if Posted(safe, ws[i].pc) then 1 else 0)
         == Sum(PostedFlags(safe, ws)) + (if Posted(safe, w.pc) then 1 else 0)
  {
    var d := if Drawn(w.pc) then 1 else 0;
    var p := if Posted(safe, w.pc) then 1 else 0;
    assert DrawnFlags(ws[i := w]) == DrawnFlags(ws)[i := d];
    assert PostedFlags(safe, ws[i := w]) == PostedFlags(safe, ws)[i := p];
    SumUpdate(DrawnFlags(ws), i, d);
    SumUpdate(PostedFlags(safe, ws), i, p);
  }

  lemma MutexKept(safe: bool, st: Stage, i: nat)
    requires MutexInv(safe, st) && i < |st.ws| && (st.ws[i].pc.Lock? ==> st.mutex > 0)
    ensures MutexInv(safe, StageMove(safe, st, i))
  {
  }

  lemma IndexDrawn(safe: bool, st: Stage, i: nat)
    requires DrawInv(st) && i < |st.ws| && st.ws[i].pc.Draw?
    ensures DrawInv(StageMove(safe, st, i))
  {
  }

  lemma DrawFramed(safe: bool, st: Stage, i: nat)
    requires DrawInv(st) && i < |st.ws| && (st.ws[i].pc.Lock? ==> st.mutex > 0) && !st.ws[i].pc.Draw?
    ensures DrawInv(StageMove(safe, st, i))
  {
    var t := StageMove(safe, st, i);
    assert t.past.order == st.past.order && t.count == st.count && t.ws == st.ws[i := t.ws[i]];
    assert t.ws[i].index == st.ws[i].index && Drawn(t.ws[i].pc) == Drawn(st.ws[i].pc);
  }

  lemma DrawKept(safe: bool, st: Stage, i: nat)
    requires DrawInv(st) && i < |st.ws| && (st.ws[i].pc.Lock? ==> st.mutex > 0)
    ensures DrawInv(StageMove(safe, st, i))
  {
    if st.ws[i].pc.Draw? { IndexDrawn(safe, st, i); } else { DrawFramed(safe, st, i); }
  }

  lemma CountKept(safe: bool, st: Stage, i: nat)
    requires CountInv(st) && i < |st.ws| && (st.ws[i].pc.Lock? ==> st.mutex > 0) && !st.ws[i].pc.NotCreated?
    ensures CountInv(StageMove(safe, st, i))
  {
    var t := StageMove(safe, st, i);
    FlagsUpdate(safe, st.ws, i, t.ws[i]);
    assert t.ws == st.ws[i := t.ws[i]];
    DrawnFitsBelow(t.ws);
  }

  lemma DrawnFitsBelow(ws: seq<Worker>)
    ensures Sum(DrawnFlags(ws)) <= |ws|
    ensures Sum(DrawnFlags(ws)) == |ws| <==> forall i | 0 <= i < |ws| :: Drawn(ws[i].pc)
  {
    SumOfFlags(DrawnFlags(ws));
    assert (forall k | 0 <= k < |ws| :: DrawnFlags(ws)[k] == 1) ==> (forall i | 0 <= i < |ws| :: Drawn(ws[i].pc)) by {
      assert forall i | 0 <= i < |ws| :: DrawnFlags(ws)[i] == if Drawn(ws[i].pc) then 1 else 0;
    }
  }

  lemma ReadyDrawn(safe: bool, st: Stage, i: nat)
    requires ReadyInv(safe, st) && DrawInv(st) && i < |st.ws| && st.ws[i].pc.Draw?
    ensures ReadyInv(safe, StageMove(safe, st, i))
  {
  }

  lemma ReadyWritten(safe: bool, st: Stage, i: nat)
    requires ReadyInv(safe, st) && DrawInv(st) && i < |st.ws| && st.ws[i].pc.Write?
    ensures ReadyInv(safe, StageMove(safe, st, i))
  {
    var t := StageMove(safe, st, i);
    forall x | 0 <= x < |t.ready|
      ensures t.ready[x] == if x < |t.past.order| && t.past.order[x] < |t.ws| && Wrote(safe, t.ws[t.past.order[x]].pc)
                            then Thread(t.past.order[x]) else Unwritten
    {
      assert x < |st.past.order| && st.past.order[x] == i ==> st.ws[i].index == x;
    }
  }

  lemma ReadyFramed(safe: bool, st: Stage, i: nat)
    requires ReadyInv(safe, st) && i < |st.ws| && (st.ws[i].pc.Lock? ==> st.mutex > 0)
    requires !st.ws[i].pc.Draw? && !st.ws[i].pc.Write?
    ensures ReadyInv(safe, StageMove(safe, st, i))
  {
    var t := StageMove(safe, st, i);
    assert t.ready == st.ready && t.past.order == st.past.order && t.ws == st.ws[i := t.ws[i]];
    assert Wrote(safe, t.ws[i].pc) == Wrote(safe, st.ws[i].pc);
  }

  lemma ReadyKept(safe: bool, st: Stage, i: nat)
    requires ReadyInv(safe, st) && DrawInv(st)
    requires i < |st.ws| && (st.ws[i].pc.Lock? ==> st.mutex > 0)
    ensures ReadyInv(safe, StageMove(safe, st, i))
  {
    match st.ws[i].pc
    case Draw => ReadyDrawn(safe, st, i);
    case Write => ReadyWritten(safe, st, i);
    case _ => ReadyFramed(safe, st, i);
  }

  lemma ForkKept(safe: bool, st: Stage, i: nat)
    requires ForkInv(st)
    requires i < |st.ws| && !st.ws[i].pc.NotCreated? && (st.ws[i].pc.Lock? ==> st.mutex > 0)
    ensures ForkInv(StageMove(safe, st, i))
  {
  }

  lemma SafeKeptInside(safe: bool, st: Stage, i: nat)
    requires SafeInv(safe, st) && MutexInv(safe, st)
    requires i < |st.ws| && Critical(safe, st.ws[i].pc)
    ensures SafeInv(safe, StageMove(safe, st, i))
  {
    var t := StageMove(safe, st, i);
    FlagsUpdate(safe, st.ws, i, t.ws[i]);
    assert t.ws == st.ws[i := t.ws[i]];
  }

  lemma SafeKeptOutside(safe: bool, st: Stage, i: nat)
    requires SafeInv(safe, st) && MutexInv(safe, st)
    requires i < |st.ws| && !st.ws[i].pc.NotCreated? && (st.ws[i].pc.Lock? ==> st.mutex > 0)
    requires !Critical(safe, st.ws[i].pc)
    ensures SafeInv(safe, StageMove(safe, st, i))
  {
    var t := StageMove(safe, st, i);
    FlagsUpdate(safe, st.ws, i, t.ws[i]);
    assert t.ws == st.ws[i := t.ws[i]];
  }

  lemma SafeKept(safe: bool, st: Stage, i: nat)
    requires SafeInv(safe, st) && MutexInv(safe, st)
    requires i < |st.ws| && !st.ws[i].pc.NotCreated? && (st.ws[i].pc.Lock? ==> st.mutex > 0)
    ensures SafeInv(safe, StageMove(safe, st, i))
  {
    if Critical(safe, st.ws[i].pc) { SafeKeptInside(safe, st, i); } else { SafeKeptOutside(safe, st, i); }
  }

  lemma StageMoveKeeps(safe: bool, T: int, j: nat, st: Stage, i: nat)
    requires StageInv(safe, T, j, st)
    requires i < |st.ws| && !st.ws[i].pc.NotCreated? && (st.ws[i].pc.Lock? ==> st.mutex > 0)
    ensures StageInv(safe, T, j, StageMove(safe, st, i))
  {
    MutexKept(safe, st, i);
    DrawKept(safe, st, i);
    ReadyKept(safe, st, i);
    CountKept(safe, st, i);
    ForkKept(safe, st, i);
    SafeKept(safe, st, i);
  }

  /** Program counters between which a worker moves without drawing, writing, posting or touching the mutex. */
  predicate SameClass(safe: bool, a: Pc, b: Pc) {
    && Drawn(a) == Drawn(b) && Critical(safe, a) == Critical(safe, b)
    && Wrote(safe, a) == Wrote(safe, b) && Posted(safe, a) == Posted(safe, b)
  }

  lemma SameClassKeepsIndices(safe: bool, st: Stage, i: nat, pc: Pc)
    requires MutexInv(safe, st) && DrawInv(st) && ReadyInv(safe, st)
    requires i < |st.ws| && SameClass(safe, st.ws[i].pc, pc)
    ensures MutexInv(safe, SetPc(st, i, pc)) && DrawInv(SetPc(st, i, pc)) && ReadyInv(safe, SetPc(st, i, pc))
  {
  }

  lemma SameClassKeepsCounts(safe: bool, st: Stage, i: nat, pc: Pc)
    requires MutexInv(safe, st) && CountInv(st) && SafeInv(safe, st)
    requires i < |st.ws| && SameClass(safe, st.ws[i].pc, pc)
    ensures CountInv(SetPc(st, i, pc)) && SafeInv(safe, SetPc(st, i, pc))
    ensures Sum(PostedFlags(safe, SetPc(st, i, pc).ws)) == Sum(PostedFlags(safe, st.ws))
  {
    FlagsUpdate(safe, st.ws, i, st.ws[i].(pc := pc));
  }

  /** Moving on inside the spawning loop, and out of it. */
  lemma SpawnPcKeeps(safe: bool, T: int, j: nat, st: Stage, i: nat, pc: Pc)
    requires StageInv(safe, T, j, st) && i < |st.ws| && st.ws[i].pc.Spawn? && (pc.Spawn? || pc.Leave?)
    ensures StageInv(safe, T, j, SetPc(st, i, pc))
    ensures Sum(PostedFlags(safe, SetPc(st, i, pc).ws)) == Sum(PostedFlags(safe, st.ws))
  {
    SameClassKeepsIndices(safe, st, i, pc);
    SameClassKeepsCounts(safe, st, i, pc);
  }

  /** Who forked the threads matters to the order of creation only. */
  lemma ForkedByIsSeparate(safe: bool, st: Stage, forkedBy: seq<Agent>)
    ensures var u := st.(past := st.past.(forkedBy := forkedBy));
      && (MutexInv(safe, st) ==> MutexInv(safe, u)) && (DrawInv(st) ==> DrawInv(u))
      && (CountInv(st) ==> CountInv(u)) && (ReadyInv(safe, st) ==> ReadyInv(safe, u))
      && (SafeInv(safe, st) ==> SafeInv(safe, u))
  {
  }

  lemma CreateKeepsFork(st: Stage, parent: Agent)
    requires ForkInv(st) && |st.past.forkedBy| < |st.ws|
    ensures ForkInv(Create(st, |st.past.forkedBy|, parent))
  {
  }

  lemma CreateKeeps(safe: bool, T: int, j: nat, st: Stage, parent: Agent)
    requires StageInv(safe, T, j, st) && |st.past.forkedBy| < |st.ws|
    ensures StageInv(safe, T, j, Create(st, |st.past.forkedBy|, parent))
  {
    var k := |st.past.forkedBy|;
    SameClassKeepsIndices(safe, st, k, Begin);
    SameClassKeepsCounts(safe, st, k, Begin);
    ForkedByIsSeparate(safe, SetPc(st, k, Begin), st.past.forkedBy + [parent]);
    CreateKeepsFork(st, parent);
  }

  // ----- Invariant of the tree -----

  /** How many waits on the semaphore of stage j, with size threads, the main thread has behind it. */
  function Waited(m: Main, j: nat, size: nat): nat {
    match m
    case Spawning(_) => 0
    case Waiting(at, i) => if j < at then size else if j == at then i else 0
    case Reading(at, i) => if j < at then size else if j == at then i + 1 else 0
    case Joining(at, i, _) => if j < at then size else if j == at then i + 1 else 0
    case Crashed(at, i) => if j < at then size else if j == at then i + 1 else 0
    case Freeing => size
    case Done => size
  }

  /** Every worker has drawn its index; the last one to draw will spawn the next stage. */
  predicate AllDrew(st: Stage) {
    |st.ws| >= 1 && |st.past.order| == |st.ws| && st.past.order[|st.ws| - 1] < |st.ws|
  }

  function Last(st: Stage): nat
    requires AllDrew(st)
  {
    st.past.order[|st.ws| - 1]
  }

  /** How many threads of a stage with size threads the stage before it has created. */
  function Spawned(prev: Stage, size: nat): nat {
    if !AllDrew(prev) then 0
    else match prev.ws[Last(prev)].pc
      case Spawn(k) => k
      case Leave => size
      case Exited => size
      case _ => 0
  }

  ghost predicate PostsInv(s: State, j: nat)
    requires j < |s.stages|
  {
    var st := s.stages[j];
    st.posts + Waited(s.main, j, |st.ws|) == Sum(PostedFlags(s.safe, st.ws))
  }

  /** Each stage is forked by one thread: stage 0 by main, stage j + 1 by the last of stage j to draw. */
  ghost predicate TreeInv(s: State, j: nat)
    requires j < |s.stages|
  {
    var forked := s.stages[j].past.forkedBy;
    if j == 0 then
      && |forked| == (if s.main.Spawning? then s.main.k else |s.stages[0].ws|)
      && forall x | 0 <= x < |forked| :: forked[x] == MainThread
    else
      var prev := s.stages[j - 1];
      && |forked| == Spawned(prev, |s.stages[j].ws|)
      && forall x | 0 <= x < |forked| :: AllDrew(prev) && forked[x] == WorkerThread(j - 1, Last(prev))
  }

  /** The workers with the first i indices have been joined. */
  ghost predicate Joined(st: Stage, i: nat) {
    && i <= |st.past.order|
    && forall x | 0 <= x < i :: st.past.order[x] < |st.ws| && st.ws[st.past.order[x]].pc == Exited
  }

  function Joins(m: Main, j: nat, size: nat): nat {
    match m
    case Reading(at, i) => if j < at then size else if j == at then i else 0
    case Joining(at, i, _) => if j < at then size else if j == at then i else 0
    case Crashed(at, i) => if j < at then size else if j == at then i else 0
    case _ => Waited(m, j, size)
  }

  ghost predicate StageOk(s: State, j: nat)
    requires j < |s.stages|
  {
    StageInv(s.safe, s.T, j, s.stages[j])
  }

  ghost predicate JoinsOk(s: State, j: nat)
    requires j < |s.stages|
  {
    Joined(s.stages[j], Joins(s.main, j, |s.stages[j].ws|))
  }

  ghost predicate MainInv(s: State) {
    && (match s.main
        case Spawning(k) => k <= if |s.stages| > 0 then |s.stages[0].ws| else 0
        case Waiting(j, i) => j <= |s.stages| && i <= if j < |s.stages| then |s.stages[j].ws| else 0
        case Reading(j, i) => j < |s.stages| && i < |s.stages[j].ws|
        case Joining(j, i, w) => j < |s.stages| && i < |s.stages[j].ws| && w < |s.stages[j].ws|
                                 && i < |s.stages[j].past.order| && s.stages[j].past.order[i] == w
        case Crashed(j, i) => j < |s.stages| && i < |s.stages[j].ws| && !s.safe && |s.stages[j].ws| >= 2
        case _ => true)
    && forall j | 0 <= j < |s.stages| :: JoinsOk(s, j)
  }

  ghost predicate StagesInv(s: State) {
    forall j | 0 <= j < |s.stages| :: StageOk(s, j)
  }

  ghost predicate AllPostsInv(s: State) {
    forall j | 0 <= j < |s.stages| :: PostsInv(s, j)
  }

  ghost predicate ForestInv(s: State) {
    forall j | 0 <= j < |s.stages| :: TreeInv(s, j)
  }

  ghost predicate Inv(s: State) {
    StagesInv(s) && AllPostsInv(s) && ForestInv(s) && MainInv(s)
  }

  // ----- Every step keeps the invariant -----

  /** What a step inside a stage leaves alone, seen from the other stages and from the main thread. */
  lemma StageMoveFrame(safe: bool, st: Stage, i: nat)
    requires i < |st.ws| && (st.ws[i].pc.Lock? ==> st.mutex > 0)
    ensures var t := StageMove(safe, st, i);
      && |t.ws| == |st.ws| && t.past.forkedBy == st.past.forkedBy && t.nb == st.nb
      && t.posts + Sum(PostedFlags(safe, st.ws)) == st.posts + Sum(PostedFlags(safe, t.ws))
  {
    FlagsUpdate(safe, st.ws, i, StageMove(safe, st, i).ws[i]);
  }

  /** Once all have drawn, nobody is left to draw. */
  lemma NobodyDraws(st: Stage, i: nat)
    requires DrawInv(st) && CountInv(st) && i < |st.ws| && |st.past.order| == |st.ws|
    ensures Drawn(st.ws[i].pc)
  {
    DrawnFitsBelow(st.ws);
  }

  lemma StageMoveSpawned(safe: bool, st: Stage, i: nat, size: nat)
    requires DrawInv(st) && CountInv(st)
    requires i < |st.ws| && !st.ws[i].pc.NotCreated? && !st.ws[i].pc.Exited? && !st.ws[i].pc.Spawn?
    requires st.ws[i].pc.Lock? ==> st.mutex > 0
    requires st.ws[i].pc.Branch? ==> st.nb == |st.ws|
    ensures AllDrew(st) ==> AllDrew(StageMove(safe, st, i)) && Last(StageMove(safe, st, i)) == Last(st)
    ensures Spawned(StageMove(safe, st, i), size) == Spawned(st, size)
  {
    if |st.past.order| == |st.ws| { NobodyDraws(st, i); }
  }

  lemma StageMoveJoined(safe: bool, st: Stage, i: nat, n: nat)
    requires Joined(st, n)
    requires i < |st.ws| && !st.ws[i].pc.NotCreated? && !st.ws[i].pc.Exited?
    requires st.ws[i].pc.Lock? ==> st.mutex > 0
    ensures Joined(StageMove(safe, st, i), n)
  {
    var t := StageMove(safe, st, i);
    forall x | 0 <= x < n
      ensures t.past.order[x] < |t.ws| && t.ws[t.past.order[x]].pc == Exited
    {
      assert t.past.order[x] == st.past.order[x] != i;
    }
  }

  lemma ShapeAt(s: State, m: nat)
    requires StagesInv(s) && m < |s.stages|
    ensures Shaped(s.T, m, s.stages[m]) && |s.stages[m].past.forkedBy| <= |s.stages[m].ws|
  {
    assert StageOk(s, m);
  }

  lemma InsideKeepsStages(s: State, j: nat, i: nat)
    requires StagesInv(s) && WorkerEnabled(s, j, i) && !s.stages[j].ws[i].pc.Spawn?
    ensures StagesInv(WorkerMove(s, j, i))
  {
    var t := WorkerMove(s, j, i);
    forall m | 0 <= m < |t.stages| ensures StageOk(t, m) {
      assert StageOk(s, m);
      if m == j { StageMoveKeeps(s.safe, s.T, j, s.stages[j], i); }
    }
  }

  lemma InsideKeepsPosts(s: State, j: nat, i: nat)
    requires AllPostsInv(s) && WorkerEnabled(s, j, i) && !s.stages[j].ws[i].pc.Spawn?
    ensures AllPostsInv(WorkerMove(s, j, i))
  {
    var t := WorkerMove(s, j, i);
    StageMoveFrame(s.safe, s.stages[j], i);
    forall m | 0 <= m < |t.stages| ensures PostsInv(t, m) { assert PostsInv(s, m); }
  }

  lemma InsideKeepsForest(s: State, j: nat, i: nat)
    requires StagesInv(s) && ForestInv(s) && WorkerEnabled(s, j, i) && !s.stages[j].ws[i].pc.Spawn?
    ensures ForestInv(WorkerMove(s, j, i))
  {
    var st, t := s.stages[j], WorkerMove(s, j, i);
    StageMoveFrame(s.safe, st, i);
    forall m | 0 <= m < |t.stages| ensures TreeInv(t, m) {
      assert TreeInv(s, m);
      if m == j + 1 {
        assert StageOk(s, j);
        StageMoveSpawned(s.safe, st, i, |s.stages[m].ws|);
      }
    }
  }

  lemma InsideKeepsMain(s: State, j: nat, i: nat)
    requires MainInv(s) && WorkerEnabled(s, j, i) && !s.stages[j].ws[i].pc.Spawn?
    ensures MainInv(WorkerMove(s, j, i))
  {
    var st, t := s.stages[j], WorkerMove(s, j, i);
    StageMoveFrame(s.safe, st, i);
    assert JoinsOk(s, j);
    StageMoveJoined(s.safe, st, i, Joins(s.main, j, |st.ws|));
    forall m | 0 <= m < |t.stages| ensures JoinsOk(t, m) { assert JoinsOk(s, m); }
    assert st.past.order <= t.stages[j].past.order;
  }

  lemma InsideKeepsInv(s: State, j: nat, i: nat)
    requires Inv(s) && WorkerEnabled(s, j, i) && !s.stages[j].ws[i].pc.Spawn?
    ensures Inv(WorkerMove(s, j, i))
  {
    InsideKeepsStages(s, j, i);
    InsideKeepsPosts(s, j, i);
    InsideKeepsForest(s, j, i);
    InsideKeepsMain(s, j, i);
  }

  /** The spawning loop: its worker is the last of the stage to have drawn. */
  lemma SpawnerIsLast(s: State, j: nat, i: nat)
    requires StagesInv(s) && ForestInv(s)
    requires j < |s.stages| && i < |s.stages[j].ws| && s.stages[j].ws[i].pc.Spawn?
    ensures AllDrew(s.stages[j]) && Last(s.stages[j]) == i
    ensures j + 1 < |s.stages| ==> |s.stages[j + 1].past.forkedBy| == s.stages[j].ws[i].pc.k
  {
    assert StageOk(s, j);
    if j + 1 < |s.stages| { assert TreeInv(s, j + 1); }
  }

  lemma SpawnKeepsStages(s: State, j: nat, i: nat)
    requires StagesInv(s) && ForestInv(s) && WorkerEnabled(s, j, i) && s.stages[j].ws[i].pc.Spawn?
    ensures StagesInv(WorkerMove(s, j, i))
  {
    var t := WorkerMove(s, j, i);
    forall m | 0 <= m < |t.stages| ensures StageOk(t, m) {
      assert StageOk(s, m);
      if m == j {
        SpawnPcKeeps(s.safe, s.T, j, s.stages[j], i, t.stages[j].ws[i].pc);
      } else if m == j + 1 {
        SpawnerIsLast(s, j, i);
        if |s.stages[m].past.forkedBy| < |s.stages[m].ws| {
          CreateKeeps(s.safe, s.T, m, s.stages[m], WorkerThread(j, i));
        }
      }
    }
  }

  lemma SpawnKeepsPosts(s: State, j: nat, i: nat)
    requires StagesInv(s) && AllPostsInv(s) && ForestInv(s)
    requires WorkerEnabled(s, j, i) && s.stages[j].ws[i].pc.Spawn?
    ensures AllPostsInv(WorkerMove(s, j, i))
  {
    var t := WorkerMove(s, j, i);
    forall m | 0 <= m < |t.stages| ensures PostsInv(t, m) {
      assert PostsInv(s, m);
      if m == j {
        FlagsUpdate(s.safe, s.stages[j].ws, i, t.stages[j].ws[i]);
      } else if m == j + 1 {
        SpawnerIsLast(s, j, i);
        NextIsNotCreated(s, m);
        var k := |s.stages[m].past.forkedBy|;
        if k < |s.stages[m].ws| { FlagsUpdate(s.safe, s.stages[m].ws, k, t.stages[m].ws[k]); }
      }
    }
  }

  lemma NextIsNotCreated(s: State, m: nat)
    requires StagesInv(s) && m < |s.stages|
    ensures var k := |s.stages[m].past.forkedBy|;
      k < |s.stages[m].ws| ==> s.stages[m].ws[k].pc.NotCreated?
  {
    assert StageOk(s, m);
  }

  /** Whether a worker in the spawning loop has a thread left to create. */
  predicate Creates(s: State, j: nat, k: nat) {
    j + 1 < |s.stages| && k < |s.stages[j + 1].ws|
  }

  /** A round of the spawning loop creates one thread of the next stage, or is the last one. */
  lemma SpawnMoveIs(s: State, j: nat, i: nat)
    requires StagesInv(s) && ForestInv(s) && WorkerEnabled(s, j, i) && s.stages[j].ws[i].pc.Spawn?
    ensures var k := s.stages[j].ws[i].pc.k; var t := WorkerMove(s, j, i);
      if Creates(s, j, k) then
        && s.stages[j + 1].ws[k].pc.NotCreated?
        && t == s.(stages := s.stages[j := SetPc(s.stages[j], i, Spawn(k + 1))]
                                     [j + 1 := Create(s.stages[j + 1], k, WorkerThread(j, i))])
      else t == s.(stages := s.stages[j := SetPc(s.stages[j], i, Leave)])
  {
    SpawnerIsLast(s, j, i);
    if j + 1 < |s.stages| {
      ShapeAt(s, j + 1);
      NextIsNotCreated(s, j + 1);
    }
  }

  lemma SpawnKeepsForest(s: State, j: nat, i: nat)
    requires StagesInv(s) && ForestInv(s) && WorkerEnabled(s, j, i) && s.stages[j].ws[i].pc.Spawn?
    ensures ForestInv(WorkerMove(s, j, i))
  {
    var t := WorkerMove(s, j, i);
    SpawnerIsLast(s, j, i);
    SpawnMoveIs(s, j, i);
    forall m | 0 <= m < |t.stages| ensures TreeInv(t, m) {
      assert TreeInv(s, m);
      if m == j + 1 { ShapeAt(s, m); }
      if m == j + 2 { SpawnedByOther(s, j + 1); }
    }
  }

  /** Creating a thread of stage m does not touch what that stage's last worker has spawned. */
  lemma SpawnedByOther(s: State, m: nat)
    requires StagesInv(s) && m < |s.stages|
    ensures var st := s.stages[m]; var k := |st.past.forkedBy|;
      k < |st.ws| ==> !AllDrew(st)
  {
    assert StageOk(s, m);
    var st := s.stages[m];
    var k := |st.past.forkedBy|;
    if k < |st.ws| && |st.past.order| == |st.ws| { NobodyDraws(st, k); }
  }

  lemma SpawnKeepsMain(s: State, j: nat, i: nat)
    requires StagesInv(s) && ForestInv(s) && MainInv(s) && WorkerEnabled(s, j, i) && s.stages[j].ws[i].pc.Spawn?
    ensures MainInv(WorkerMove(s, j, i))
  {
    var t := WorkerMove(s, j, i);
    SpawnerIsLast(s, j, i);
    forall m | 0 <= m < |t.stages| ensures JoinsOk(t, m) {
      assert JoinsOk(s, m);
      if m == j {
        JoinedSurvives(s.stages[j], i, t.stages[j].ws[i], Joins(s.main, j, |s.stages[j].ws|));
      } else if m == j + 1 {
        NextIsNotCreated(s, m);
        var k := s.stages[j].ws[i].pc.k;
        if k < |s.stages[m].ws| {
          JoinedSurvives(s.stages[m], k, t.stages[m].ws[k], Joins(s.main, m, |s.stages[m].ws|));
        }
      }
    }
  }

  lemma JoinedSurvives(st: Stage, k: nat, w: Worker, n: nat)
    requires Joined(st, n) && k < |st.ws| && st.ws[k].pc != Exited
    ensures Joined(st.(ws := st.ws[k := w]), n)
  {
    forall x | 0 <= x < n
      ensures st.past.order[x] < |st.ws| && st.ws[k := w][st.past.order[x]].pc == Exited
    {
      assert st.ws[st.past.order[x]].pc == Exited;
    }
  }

  lemma SpawnKeepsInv(s: State, j: nat, i: nat)
    requires Inv(s) && WorkerEnabled(s, j, i) && s.stages[j].ws[i].pc.Spawn?
    ensures Inv(WorkerMove(s, j, i))
  {
    SpawnKeepsStages(s, j, i);
    SpawnKeepsPosts(s, j, i);
    SpawnKeepsForest(s, j, i);
    SpawnKeepsMain(s, j, i);
  }

  predicate MainForks(s: State) {
    s.main.Spawning? && |s.stages| > 0 && s.main.k < |s.stages[0].ws|
  }

  lemma ForkingKeepsStages(s: State)
    requires StagesInv(s) && ForestInv(s) && MainForks(s)
    ensures StagesInv(MainMove(s))
  {
    var t := MainMove(s);
    forall m | 0 <= m < |t.stages| ensures StageOk(t, m) {
      assert StageOk(s, m);
      assert TreeInv(s, m);
      if m == 0 { CreateKeeps(s.safe, s.T, 0, s.stages[0], MainThread); }
    }
  }

  lemma ForkingKeepsRest(s: State)
    requires Inv(s) && MainForks(s)
    ensures AllPostsInv(MainMove(s)) && ForestInv(MainMove(s)) && MainInv(MainMove(s))
  {
    var t := MainMove(s);
    ShapeAt(s, 0);
    assert TreeInv(s, 0);
    NextIsNotCreated(s, 0);
    SpawnedByOther(s, 0);
    FlagsUpdate(s.safe, s.stages[0].ws, s.main.k, t.stages[0].ws[s.main.k]);
    forall m | 0 <= m < |t.stages| ensures PostsInv(t, m) { assert PostsInv(s, m); }
    forall m | 0 <= m < |t.stages| ensures TreeInv(t, m) { assert TreeInv(s, m); }
    forall m | 0 <= m < |t.stages| ensures JoinsOk(t, m) { assert JoinsOk(s, m); }
  }

  /** After it has spawned the first stage the main thread writes nothing but sem_ready. */
  lemma MainMoveFrame(s: State)
    requires StagesInv(s) && MainEnabled(s) && !MainForks(s)
    ensures var t := MainMove(s);
      && |t.stages| == |s.stages| && t.T == s.T && t.safe == s.safe
      && forall m | 0 <= m < |s.stages| :: t.stages[m] == s.stages[m].(posts := t.stages[m].posts)
  {
    if |s.stages| > 0 { ShapeAt(s, 0); }
  }

  lemma JoiningKeepsStages(s: State)
    requires StagesInv(s) && MainEnabled(s) && !MainForks(s)
    ensures StagesInv(MainMove(s))
  {
    var t := MainMove(s);
    MainMoveFrame(s);
    forall m | 0 <= m < |t.stages| ensures StageOk(t, m) { assert StageOk(s, m); }
  }

  lemma JoiningKeepsPosts(s: State)
    requires StagesInv(s) && AllPostsInv(s) && MainInv(s) && MainEnabled(s) && !MainForks(s)
    ensures AllPostsInv(MainMove(s))
  {
    var t := MainMove(s);
    MainMoveFrame(s);
    if s.main.Waiting? && s.main.j < |s.stages| { ShapeAt(s, s.main.j); }
    forall m | 0 <= m < |t.stages| ensures PostsInv(t, m) { assert PostsInv(s, m); }
  }

  lemma JoiningKeepsForest(s: State)
    requires StagesInv(s) && ForestInv(s) && MainInv(s) && MainEnabled(s) && !MainForks(s)
    ensures ForestInv(MainMove(s))
  {
    var t := MainMove(s);
    MainMoveFrame(s);
    if |s.stages| > 0 { ShapeAt(s, 0); }
    forall m | 0 <= m < |t.stages| ensures TreeInv(t, m) { assert TreeInv(s, m); }
  }

  /** The slot the main thread reads has been written, in the safe variant or with one thread in the stage. */
  lemma SlotIsWritten(s: State, j: nat, i: nat)
    requires Inv(s) && s.main == Reading(j, i) && (s.safe || |s.stages[j].ws| <= 1)
    ensures i < |s.stages[j].ready| && s.stages[j].ready[i].Thread?
  {
    var st := s.stages[j];
    assert StageOk(s, j) && PostsInv(s, j);
    if !s.safe {
      SumOfFlags(PostedFlags(s.safe, st.ws));
      assert PostedFlags(s.safe, st.ws)[0] == 1;
    }
  }

  /** A written slot holds the worker that drew its index. */
  lemma SlotHoldsItsWorker(s: State, j: nat, i: nat)
    requires StagesInv(s) && j < |s.stages| && i < |s.stages[j].ready| && s.stages[j].ready[i].Thread?
    ensures i < |s.stages[j].past.order| && s.stages[j].ready[i].i == s.stages[j].past.order[i] < |s.stages[j].ws|
  {
    assert StageOk(s, j);
  }

  lemma JoiningKeepsPlace(s: State)
    requires Inv(s) && MainEnabled(s) && !MainForks(s)
    ensures var t := MainMove(s);
      match t.main
      case Spawning(k) => false
      case Waiting(j, i) => j <= |s.stages| && i <= if j < |s.stages| then |s.stages[j].ws| else 0
      case Reading(j, i) => j < |s.stages| && i < |s.stages[j].ws|
      case Joining(j, i, w) => j < |s.stages| && i < |s.stages[j].ws| && w < |s.stages[j].ws|
                               && i < |s.stages[j].past.order| && s.stages[j].past.order[i] == w
      case Crashed(j, i) => j < |s.stages| && i < |s.stages[j].ws| && !s.safe && |s.stages[j].ws| >= 2
      case _ => true
  {
    if |s.stages| > 0 { ShapeAt(s, 0); }
    if (s.main.Waiting? || s.main.Reading?) && s.main.j < |s.stages| { ShapeAt(s, s.main.j); }
    if s.main.Reading? {
      if s.safe || |s.stages[s.main.j].ws| <= 1 { SlotIsWritten(s, s.main.j, s.main.i); }
      if MainMove(s).main.Joining? { SlotHoldsItsWorker(s, s.main.j, s.main.i); }
    }
  }

  lemma JoiningKeepsJoins(s: State, m: nat)
    requires StagesInv(s) && MainInv(s) && MainEnabled(s) && !MainForks(s) && m < |s.stages|
    ensures var t := MainMove(s);
      |t.stages| == |s.stages| && JoinsOk(t, m)
  {
    MainMoveFrame(s);
    if s.main.Waiting? && s.main.j < |s.stages| { ShapeAt(s, s.main.j); }
    assert JoinsOk(s, m);
  }

  lemma JoiningKeepsMain(s: State)
    requires Inv(s) && MainEnabled(s) && !MainForks(s)
    ensures MainInv(MainMove(s))
  {
    var t := MainMove(s);
    MainMoveFrame(s);
    JoiningKeepsPlace(s);
    forall m | 0 <= m < |t.stages| ensures JoinsOk(t, m) { JoiningKeepsJoins(s, m); }
  }

  lemma StepKeepsInv(s: State, a: Action)
    requires Inv(s)
    ensures Inv(Step(s, a))
  {
    if Enabled(s, a) {
      match a
      case WorkerStep(j, i) =>
        if s.stages[j].ws[i].pc.Spawn? { SpawnKeepsInv(s, j, i); } else { InsideKeepsInv(s, j, i); }
      case MainStep =>
        if MainForks(s) {
          ForkingKeepsStages(s);
          ForkingKeepsRest(s);
        } else {
          JoiningKeepsStages(s);
          JoiningKeepsPosts(s);
          JoiningKeepsForest(s);
          JoiningKeepsMain(s);
        }
    }
  }

  lemma StartIsInv(safe: bool, S: nat, T: int)
    ensures Inv(Start(safe, S, T))
  {
    var s := Start(safe, S, T);
    forall j | 0 <= j < S ensures StageOk(s, j) && PostsInv(s, j) && TreeInv(s, j) {
      SumOfFlags(DrawnFlags(s.stages[j].ws));
      SumOfFlags(PostedFlags(safe, s.stages[j].ws));
      if j > 0 { assert !AllDrew(s.stages[j - 1]); }
    }
    forall j | 0 <= j < S ensures JoinsOk(s, j) {}
  }

  lemma RunKeepsInv(safe: bool, S: nat, T: int, sched: seq<Action>)
    ensures var s := Run(Step, Start(safe, S, T), sched);
      Inv(s) && s.safe == safe && s.T == T && |s.stages| == S
  {
    StartIsInv(safe, S, T);
    forall x: State, a | Inv(x) ensures Inv(Step(x, a)) { StepKeepsInv(x, a); }
    RunKeeps(Step, (x: State) => Inv(x) && x.safe == safe && x.T == T && |x.stages| == S, Start(safe, S, T), sched);
  }

  // ----- Main results: both variants -----

  predicate AllDrawn(st: Stage) {
    forall i | 0 <= i < |st.ws| :: Drawn(st.ws[i].pc)
  }

  /** Every thread of stage 0 is forked by the main thread, every thread of stage j + 1 by one thread of
      stage j, the one that drew the last index; it is forked only after all of stage j have drawn, so
      after all of them have done their work. A thread exists exactly if it has been forked, and no
      stage forks more threads than it has. */
  lemma ForksFormATree(safe: bool, S: nat, T: int, sched: seq<Action>, j: nat)
    requires j < S
    ensures var s := Run(Step, Start(safe, S, T), sched);
      && |s.stages| == S
      && var st := s.stages[j]; var forked := st.past.forkedBy;
         && |forked| <= |st.ws| == Size(T - j)
         && (forall i | 0 <= i < |st.ws| :: st.ws[i].pc.NotCreated? <==> i >= |forked|)
         && (forall x | 0 <= x < |forked| :: forked[x] == forked[0])
         && (|forked| > 0 ==>
               if j == 0 then forked[0] == MainThread
               else
                 && forked[0].WorkerThread? && forked[0].j == j - 1 && forked[0].i < |s.stages[j - 1].ws|
                 && s.stages[j - 1].ws[forked[0].i].index == s.stages[j - 1].nb - 1
                 && AllDrawn(s.stages[j - 1]))
  {
    RunKeepsInv(safe, S, T, sched);
    var s := Run(Step, Start(safe, S, T), sched);
    assert StageOk(s, j) && TreeInv(s, j);
    if j > 0 && |s.stages[j].past.forkedBy| > 0 {
      assert StageOk(s, j - 1);
      DrawnFitsBelow(s.stages[j - 1].ws);
    }
  }

  /** Between its wait on the mutex of a stage and its post, a worker is alone, up to whichever of its steps
      are inside in either variant. */
  lemma OneInside(safe: bool, S: nat, T: int, sched: seq<Action>, j: nat, i: nat, m: nat)
    requires j < S
    ensures var s := Run(Step, Start(safe, S, T), sched);
      && |s.stages| == S
      && var ws := s.stages[j].ws;
         i < |ws| && m < |ws| && i != m && (ws[i].pc.Draw? || ws[i].pc.Unlock?) ==>
           !ws[m].pc.Draw? && !ws[m].pc.Unlock? && (safe ==> !ws[m].pc.Write? && !ws[m].pc.Post?)
  {
    RunKeepsInv(safe, S, T, sched);
    assert StageOk(Run(Step, Start(safe, S, T), sched), j);
  }

  /** A worker about to write its slot has an index of its own inside the allocated array, and the slot is
      still unwritten. */
  lemma WritesStayInside(safe: bool, S: nat, T: int, sched: seq<Action>, j: nat, i: nat)
    requires j < S
    ensures var s := Run(Step, Start(safe, S, T), sched);
      && |s.stages| == S
      && var st := s.stages[j];
         i < |st.ws| && st.ws[i].pc == Write ==>
           && st.ws[i].index < st.nb && st.ws[i].index < |st.ready| == Size(T) && st.ready[st.ws[i].index] == Unwritten
           && forall m | 0 <= m < |st.ws| && m != i && Drawn(st.ws[m].pc) :: st.ws[m].index != st.ws[i].index
  {
    RunKeepsInv(safe, S, T, sched);
    var s := Run(Step, Start(safe, S, T), sched);
    assert StageOk(s, j);
    if i < |s.stages[j].ws| { DrawnFitsBelow(s.stages[j].ws); }
  }

  ghost predicate IsReady(st: Stage, i: nat)
    requires |st.ready| >= |st.ws|
  {
    exists x :: 0 <= x < |st.ws| && st.ready[x] == Thread(i)
  }

  /** The first |ws| slots hold every thread of the stage, each once. */
  ghost predicate ReadyPermutes(st: Stage) {
    && |st.ready| >= |st.ws|
    && (forall x | 0 <= x < |st.ws| :: st.ready[x].Thread? && st.ready[x].i < |st.ws|)
    && (forall i: nat | i < |st.ws| :: IsReady(st, i))
    && (forall x, y | 0 <= x < y < |st.ws| :: st.ready[x] != st.ready[y])
  }

  /** Once a stage has made all its posts, its ready array is a permutation of its threads. */
  lemma ReadyIsPermutation(safe: bool, S: nat, T: int, sched: seq<Action>, j: nat)
    requires j < S
    ensures var s := Run(Step, Start(safe, S, T), sched);
      && |s.stages| == S
      && var st := s.stages[j];
         st.posts + Waited(s.main, j, |st.ws|) == |st.ws| ==> ReadyPermutes(st)
  {
    RunKeepsInv(safe, S, T, sched);
    var s := Run(Step, Start(safe, S, T), sched);
    assert StageOk(s, j) && PostsInv(s, j);
    var st := s.stages[j];
    if st.posts + Waited(s.main, j, |st.ws|) == |st.ws| {
      AllPostedMeansWritten(safe, T, j, st);
      WrittenPermutes(st);
    }
  }

  lemma AllPostedMeansWritten(safe: bool, T: int, j: nat, st: Stage)
    requires StageInv(safe, T, j, st) && Sum(PostedFlags(safe, st.ws)) == |st.ws|
    ensures |st.ready| >= |st.ws| == |st.past.order|
    ensures forall x | 0 <= x < |st.ws| :: st.ready[x] == Thread(st.past.order[x])
    ensures forall i | 0 <= i < |st.ws| :: Drawn(st.ws[i].pc)
  {
    SumOfFlags(PostedFlags(safe, st.ws));
    forall i | 0 <= i < |st.ws| ensures Posted(safe, st.ws[i].pc) {
      assert PostedFlags(safe, st.ws)[i] == 1;
    }
    DrawnFitsBelow(st.ws);
  }

  lemma WrittenPermutes(st: Stage)
    requires DrawInv(st) && |st.ready| >= |st.ws| == |st.past.order|
    requires forall x | 0 <= x < |st.ws| :: st.ready[x] == Thread(st.past.order[x])
    requires forall i | 0 <= i < |st.ws| :: Drawn(st.ws[i].pc)
    ensures ReadyPermutes(st)
  {
    forall i: nat | i < |st.ws| ensures IsReady(st, i) {
      assert st.ready[st.ws[i].index] == Thread(i);
    }
    forall x, y | 0 <= x < y < |st.ws| ensures st.ready[x] != st.ready[y] {
      assert st.ws[st.past.order[x]].index == x && st.ws[st.past.order[y]].index == y;
    }
  }

  // ----- Progress of the workers -----

  predicate WorkersIdle(s: State) {
    forall j, i | 0 <= j < |s.stages| && 0 <= i < |s.stages[j].ws| :: !WorkerEnabled(s, j, i)
  }

  lemma IdleMeansExited(s: State, j: nat, i: nat)
    requires Inv(s) && WorkersIdle(s) && j < |s.stages| && i < |s.stages[j].ws|
    ensures s.stages[j].ws[i].pc.NotCreated? || s.stages[j].ws[i].pc.Exited?
  {
    assert StageOk(s, j);
    var st := s.stages[j];
    assert !WorkerEnabled(s, j, i);
    var h := st.past.holder;
    assert 0 <= h < |st.ws| ==> !WorkerEnabled(s, j, h);
  }

  /** When no worker can move after the first stage was spawned, every thread of every stage has been
      created and has exited, in both variants. */
  lemma {:induction false} IdleMeansComplete(s: State, j: nat)
    requires Inv(s) && WorkersIdle(s) && !s.main.Spawning? && j < |s.stages|
    ensures |s.stages[j].past.forkedBy| == |s.stages[j].ws| == |s.stages[j].past.order|
    ensures forall i | 0 <= i < |s.stages[j].ws| :: s.stages[j].ws[i].pc == Exited
    ensures Sum(PostedFlags(s.safe, s.stages[j].ws)) == |s.stages[j].ws|
  {
    ShapeAt(s, j);
    assert TreeInv(s, j);
    if j > 0 {
      IdleMeansComplete(s, j - 1);
      ShapeAt(s, j - 1);
      if |s.stages[j].ws| > 0 { FullOrderDraws(s, j - 1); }
    }
    ForkedMeansExited(s, j);
  }

  lemma FullOrderDraws(s: State, j: nat)
    requires StagesInv(s) && j < |s.stages| && |s.stages[j].ws| >= 1
    requires |s.stages[j].past.order| == |s.stages[j].ws|
    ensures AllDrew(s.stages[j])
  {
    assert StageOk(s, j);
  }

  lemma ForkedMeansExited(s: State, j: nat)
    requires Inv(s) && WorkersIdle(s) && j < |s.stages| && |s.stages[j].past.forkedBy| == |s.stages[j].ws|
    ensures |s.stages[j].past.order| == |s.stages[j].ws|
    ensures forall i | 0 <= i < |s.stages[j].ws| :: s.stages[j].ws[i].pc == Exited
    ensures Sum(PostedFlags(s.safe, s.stages[j].ws)) == |s.stages[j].ws|
  {
    var st := s.stages[j];
    assert StageOk(s, j);
    forall i | 0 <= i < |st.ws| ensures st.ws[i].pc == Exited { IdleMeansExited(s, j, i); }
    DrawnFitsBelow(st.ws);
    SumOfFlags(PostedFlags(s.safe, st.ws));
  }

  /** The main thread is then not blocked either. */
  lemma SomethingMoves(s: State) returns (a: Action)
    requires Inv(s) && !s.main.Done? && !s.main.Crashed?
    ensures Enabled(s, a)
  {
    if !WorkersIdle(s) {
      var j, i :| 0 <= j < |s.stages| && 0 <= i < |s.stages[j].ws| && WorkerEnabled(s, j, i);
      a := WorkerStep(j, i);
    } else {
      a := MainStep;
      if (s.main.Waiting? || s.main.Joining?) && s.main.j < |s.stages| {
        IdleMeansComplete(s, s.main.j);
        ShapeAt(s, s.main.j);
        assert PostsInv(s, s.main.j);
      }
    }
  }

  // ----- Termination -----

  function WorkerRank(safe: bool, pc: Pc): nat {
    match pc
    case NotCreated => 12 case Begin => 11 case Lock => 10 case Draw => 9
    case Unlock => if safe then 6 else 8
    case Write => if safe then 8 else 7
    case Post => if safe then 7 else 6
    case Branch => 5 case Spawn(_) => 4 case Leave => 2 case Exited => 0
  }

  function WorkerRanks(safe: bool, ws: seq<Worker>): seq<nat> {
    seq(|ws|, i requires 0 <= i < |ws| => WorkerRank(safe, ws[i].pc))
  }

  function StageRanks(s: State): seq<nat> {
    seq(|s.stages|, j requires 0 <= j < |s.stages| => Sum(WorkerRanks(s.safe, s.stages[j].ws)))
  }

  /** The steps of the main thread from stage j on: a wait, a read and a join for each thread. */
  function JoinLoad(S: nat, T: int, j: nat): nat
    decreases S - j
  {
    if j >= S then 0 else 3 * Size(T - j) + 1 + JoinLoad(S, T, j + 1)
  }

  function Monus(a: int, b: int): nat {
    if a < b then 0 else a - b
  }

  function MainRank(m: Main, S: nat, T: int): nat {
    match m
    case Spawning(_) => JoinLoad(S, T, 0) + 4
    case Waiting(j, i) => Monus(JoinLoad(S, T, j) + 3, 3 * i)
    case Reading(j, i) => Monus(JoinLoad(S, T, j) + 2, 3 * i)
    case Joining(j, i, _) => Monus(JoinLoad(S, T, j) + 1, 3 * i)
    case Freeing => 2
    case Done => 0
    case Crashed(_, _) => 0
  }

  /** Bounds the moves still to come. */
  function Measure(s: State): nat {
    Sum(StageRanks(s)) + MainRank(s.main, |s.stages|, s.T)
  }

  lemma RankUpdate(s: State, t: State, j: nat, i: nat, w: Worker)
    requires j < |s.stages| == |t.stages| && i < |s.stages[j].ws| && t.safe == s.safe
    requires t.stages[j].ws == s.stages[j].ws[i := w]
    requires forall m | 0 <= m < |s.stages| && m != j :: t.stages[m].ws == s.stages[m].ws
    ensures Sum(StageRanks(t)) + WorkerRank(s.safe, s.stages[j].ws[i].pc)
         == Sum(StageRanks(s)) + WorkerRank(s.safe, w.pc)
  {
    var ws := s.stages[j].ws;
    assert WorkerRanks(s.safe, ws[i := w]) == WorkerRanks(s.safe, ws)[i := WorkerRank(s.safe, w.pc)];
    SumUpdate(WorkerRanks(s.safe, ws), i, WorkerRank(s.safe, w.pc));
    var r := Sum(WorkerRanks(s.safe, ws[i := w]));
    assert StageRanks(t) == StageRanks(s)[j := r];
    SumUpdate(StageRanks(s), j, r);
  }

  lemma InsideLowers(s: State, j: nat, i: nat)
    requires WorkerEnabled(s, j, i) && !s.stages[j].ws[i].pc.Spawn?
    ensures Measure(WorkerMove(s, j, i)) < Measure(s)
  {
    RankUpdate(s, WorkerMove(s, j, i), j, i, WorkerMove(s, j, i).stages[j].ws[i]);
  }

  lemma SpawnLowers(s: State, j: nat, i: nat)
    requires Inv(s) && WorkerEnabled(s, j, i) && s.stages[j].ws[i].pc.Spawn?
    ensures Measure(WorkerMove(s, j, i)) < Measure(s)
  {
    var t := WorkerMove(s, j, i);
    var k := s.stages[j].ws[i].pc.k;
    SpawnMoveIs(s, j, i);
    var mid := s.(stages := s.stages[j := t.stages[j]]);
    RankUpdate(s, mid, j, i, t.stages[j].ws[i]);
    if Creates(s, j, k) { RankUpdate(mid, t, j + 1, k, t.stages[j + 1].ws[k]); }
  }

  lemma ForkLowers(s: State)
    requires Inv(s) && MainForks(s)
    ensures Measure(MainMove(s)) < Measure(s)
  {
    var t := MainMove(s);
    ShapeAt(s, 0);
    assert TreeInv(s, 0);
    NextIsNotCreated(s, 0);
    RankUpdate(s, t, 0, s.main.k, t.stages[0].ws[s.main.k]);
  }

  /** The load that is left from a place in a stage on. */
  lemma LoadAt(S: nat, T: int, j: nat)
    requires j < S
    ensures JoinLoad(S, T, j) == 3 * Size(T - j) + 1 + JoinLoad(S, T, j + 1)
  {
  }

  lemma WaitLowersRank(s: State)
    requires StagesInv(s) && MainInv(s) && MainEnabled(s) && s.main.Waiting?
    ensures MainRank(MainMove(s).main, |s.stages|, s.T) < MainRank(s.main, |s.stages|, s.T)
  {
    if s.main.j < |s.stages| {
      ShapeAt(s, s.main.j);
      LoadAt(|s.stages|, s.T, s.main.j);
    }
  }

  lemma JoinLowersRank(s: State)
    requires StagesInv(s) && MainInv(s) && MainEnabled(s) && !MainForks(s) && !s.main.Waiting?
    ensures MainRank(MainMove(s).main, |s.stages|, s.T) < MainRank(s.main, |s.stages|, s.T)
  {
    if s.main.Spawning? && |s.stages| > 0 { ShapeAt(s, 0); }
    if s.main.Reading? || s.main.Joining? {
      ShapeAt(s, s.main.j);
      LoadAt(|s.stages|, s.T, s.main.j);
    }
  }

  lemma MainLowers(s: State)
    requires Inv(s) && MainEnabled(s)
    ensures Measure(MainMove(s)) < Measure(s)
  {
    if MainForks(s) {
      ForkLowers(s);
    } else {
      MainMoveFrame(s);
      assert StageRanks(MainMove(s)) == StageRanks(s);
      if s.main.Waiting? { WaitLowersRank(s); } else { JoinLowersRank(s); }
    }
  }

  lemma MoveLowers(s: State, a: Action)
    requires Inv(s)
    ensures Measure(Step(s, a)) + (if Enabled(s, a) then 1 else 0) <= Measure(s)
  {
    if Enabled(s, a) {
      match a
      case MainStep => MainLowers(s);
      case WorkerStep(j, i) =>
        if s.stages[j].ws[i].pc.Spawn? { SpawnLowers(s, j, i); } else { InsideLowers(s, j, i); }
    }
  }

  /** The sum of the positive stage sizes T, T - 1, ... of the stages from j on. */
  function ThreadsFrom(S: nat, T: int, j: nat): nat
    decreases S - j
  {
    if j >= S then 0 else Size(T - j) + ThreadsFrom(S, T, j + 1)
  }

  /** The sum of T, T - 1, ... over n stages, all of which have threads. */
  lemma {:induction false} ThreadsInAll(n: nat, T: int, j: nat, S: nat)
    requires n <= T - j && j + n <= S && (j + n == S || T - j == n)
    ensures 2 * ThreadsFrom(S, T, j) == n * (2 * (T - j) - n + 1)
    decreases n
  {
    if n == 0 {
      NoThreadsFrom(S, T, j);
    } else {
      ThreadsInAll(n - 1, T, j + 1, S);
      assert n * (2 * (T - j) - n + 1) == (n - 1) * (2 * (T - j - 1) - (n - 1) + 1) + 2 * (T - j);
    }
  }

  lemma {:induction false} NoThreadsFrom(S: nat, T: int, j: nat)
    requires j >= S || T <= j
    ensures ThreadsFrom(S, T, j) == 0
    decreases S - j
  {
    if j < S { NoThreadsFrom(S, T, j + 1); }
  }

  /** In numbers: with n the smaller of S and T, the stages have n * (2 * T - n + 1) / 2 threads. */
  lemma ThreadsInNumbers(S: nat, T: int)
    ensures T <= 0 ==> ThreadsFrom(S, T, 0) == 0
    ensures T > 0 ==> var n := if S < T then S else T; 2 * ThreadsFrom(S, T, 0) == n * (2 * T - n + 1)
  {
    if T <= 0 { NoThreadsFrom(S, T, 0); } else { ThreadsInAll(if S < T then S else T, T, 0, S); }
  }

  function Created(s: State, j: nat): nat
    decreases |s.stages| - j
  {
    if j >= |s.stages| then 0 else |s.stages[j].past.forkedBy| + Created(s, j + 1)
  }

  ghost predicate Complete(s: State) {
    forall j | 0 <= j < |s.stages| :: StageComplete(s, j)
  }

  ghost predicate StageComplete(s: State, j: nat)
    requires j < |s.stages|
  {
    && |s.stages[j].past.forkedBy| == |s.stages[j].ws|
    && forall i | 0 <= i < |s.stages[j].ws| :: s.stages[j].ws[i].pc == Exited
  }

  lemma {:induction false} CompleteCreatesAll(s: State, j: nat)
    requires StagesInv(s) && Complete(s)
    ensures Created(s, j) == ThreadsFrom(|s.stages|, s.T, j)
    decreases |s.stages| - j
  {
    if j < |s.stages| {
      ShapeAt(s, j);
      assert StageComplete(s, j);
      CompleteCreatesAll(s, j + 1);
    }
  }

  /** Joining the handles in the slots joins every thread of the stage. */
  lemma JoinedStageIsComplete(s: State, j: nat)
    requires Inv(s) && (s.main.Freeing? || s.main.Done?) && j < |s.stages|
    ensures StageComplete(s, j)
  {
    assert StageOk(s, j) && JoinsOk(s, j);
    var st := s.stages[j];
    DrawnFitsBelow(st.ws);
    forall i | 0 <= i < |st.ws| ensures st.ws[i].pc == Exited {
      assert Drawn(st.ws[i].pc);
      assert st.past.order[st.ws[i].index] == i;
    }
  }

  /** What the main thread relies on: the slot it reads is that of a stage, and once it frees the stages
      every thread of every stage has exited. */
  ghost predicate Orderly(s: State) {
    && (s.main.Reading? ==> s.main.j < |s.stages|)
    && (s.main.Freeing? || s.main.Done? ==> Complete(s))
  }

  lemma InvIsOrderly(s: State)
    requires Inv(s)
    ensures Orderly(s)
  {
    if s.main.Freeing? || s.main.Done? {
      forall j | 0 <= j < |s.stages| ensures StageComplete(s, j) { JoinedStageIsComplete(s, j); }
    }
  }

  lemma {:induction false} ThreadsBelow(S: nat, T: int, j: nat)
    requires j <= S
    ensures ThreadsFrom(S + 1, T, j) == ThreadsFrom(S, T, j) + Size(T - S)
    decreases S - j
  {
    if j < S { ThreadsBelow(S, T, j + 1); }
  }

  lemma {:induction false} JoinLoadIs(S: nat, T: int, j: nat)
    requires j <= S
    ensures JoinLoad(S, T, j) == 3 * ThreadsFrom(S, T, j) + (S - j)
    decreases S - j
  {
    if j < S { JoinLoadIs(S, T, j + 1); }
  }

  lemma {:induction false} SumOfConstant(n: nat, v: nat)
    ensures Sum(seq(n, _ => v)) == v * n
  {
    if n > 0 {
      SumOfConstant(n - 1, v);
      assert seq(n, _ => v)[..n - 1] == seq(n - 1, _ => v);
    }
  }

  lemma {:induction false} StartRanks(safe: bool, S: nat, T: int)
    ensures Sum(StageRanks(Start(safe, S, T))) == 12 * ThreadsFrom(S, T, 0)
  {
    if S > 0 {
      StartRanks(safe, S - 1, T);
      ThreadsBelow(S - 1, T, 0);
      var ranks := StageRanks(Start(safe, S, T));
      assert ranks[..S - 1] == StageRanks(Start(safe, S - 1, T));
      SumOfConstant(Size(T - (S - 1)), 12);
      assert WorkerRanks(safe, FreshStage(T, S - 1).ws) == seq(Size(T - (S - 1)), _ => 12);
    }
  }

  lemma StartMeasure(safe: bool, S: nat, T: int)
    ensures Measure(Start(safe, S, T)) == 15 * ThreadsFrom(S, T, 0) + S + 4
  {
    StartRanks(safe, S, T);
    JoinLoadIs(S, T, 0);
  }

  lemma MovesAreBounded(safe: bool, S: nat, T: int, sched: seq<Action>)
    ensures Moves(Step, Enabled, Start(safe, S, T), sched) <= 15 * ThreadsFrom(S, T, 0) + S + 4
  {
    StartIsInv(safe, S, T);
    forall x: State, a | Inv(x)
      ensures Inv(Step(x, a)) && Measure(Step(x, a)) + (if Enabled(x, a) then 1 else 0) <= Measure(x)
    {
      StepKeepsInv(x, a);
      MoveLowers(x, a);
    }
    MovesBounded(Step, Enabled, Inv, Measure, Start(safe, S, T), sched);
    StartMeasure(safe, S, T);
  }

  /** Wherever the slot is written and whatever the numbers of stages and threads: no interleaving gets stuck
      before the main thread is done or has joined an unwritten slot, and none runs for ever. When the main
      thread frees the stages, every thread of every stage has exited, and the threads created are the sum
      of the positive stage sizes. With slot and post inside the mutex, or one thread at most in a stage,
      no unwritten slot is joined. */
  lemma TreeFinishes(safe: bool, S: nat, T: int, sched: seq<Action>)
    ensures Moves(Step, Enabled, Start(safe, S, T), sched) <= 15 * ThreadsFrom(S, T, 0) + S + 4
    ensures var s := Run(Step, Start(safe, S, T), sched);
      && (!s.main.Done? && !s.main.Crashed? ==> exists a :: Enabled(s, a))
      && (s.main.Freeing? || s.main.Done? ==> Complete(s) && Created(s, 0) == ThreadsFrom(S, T, 0))
      && (safe || S == 0 || T <= 1 ==> !s.main.Crashed?)
  {
    MovesAreBounded(safe, S, T, sched);
    RunKeepsInv(safe, S, T, sched);
    var s := Run(Step, Start(safe, S, T), sched);
    if s.main.Crashed? { ShapeAt(s, s.main.j); }
    if !s.main.Done? && !s.main.Crashed? { var a := SomethingMoves(s); }
    if s.main.Freeing? || s.main.Done? {
      forall j | 0 <= j < S ensures StageComplete(s, j) { JoinedStageIsComplete(s, j); }
      CompleteCreatesAll(s, 0);
    }
  }

  /** The workers finish in both variants, whatever becomes of the main thread once it has spawned. */
  lemma WorkersFinish(safe: bool, S: nat, T: int, sched: seq<Action>)
    ensures Moves(Step, Enabled, Start(safe, S, T), sched) <= 15 * ThreadsFrom(S, T, 0) + S + 4
    ensures var s := Run(Step, Start(safe, S, T), sched);
      WorkersIdle(s) && !s.main.Spawning? ==> Complete(s) && Created(s, 0) == ThreadsFrom(S, T, 0)
  {
    MovesAreBounded(safe, S, T, sched);
    RunKeepsInv(safe, S, T, sched);
    var s := Run(Step, Start(safe, S, T), sched);
    if WorkersIdle(s) && !s.main.Spawning? {
      forall j | 0 <= j < S ensures StageComplete(s, j) { IdleMeansComplete(s, j); }
      CompleteCreatesAll(s, 0);
    }
  }

  // ----- The program as it stands -----

  ghost predicate Reachable(S: nat, T: int, s: State) {
    exists sched: seq<Action> :: Run(Step, Start(false, S, T), sched) == s
  }

  lemma ReachStep(S: nat, T: int, s: State, a: Action)
    requires Reachable(S, T, s)
    ensures Reachable(S, T, Step(s, a))
  {
    var sched: seq<Action> :| Run(Step, Start(false, S, T), sched) == s;
    RunAppend(Step, Start(false, S, T), sched, a);
  }

  lemma {:induction false} ReachSpawned(S: nat, T: int, k: nat) returns (s: State)
    requires S >= 1 && k <= T
    ensures Reachable(S, T, s) && !s.safe && s.main == Spawning(k) && |s.stages| == S
    ensures var st := s.stages[0];
      && |st.ws| == T == |st.ready| && st.nb == T && st.count == 0 && st.mutex == 1 && st.posts == 0
      && (forall x | 0 <= x < T :: st.ready[x] == Unwritten)
      && forall i | 0 <= i < k :: st.ws[i].pc == Begin
  {
    if k == 0 {
      s := Start(false, S, T);
      assert Run(Step, Start(false, S, T), []) == s;
    } else {
      var before := ReachSpawned(S, T, k - 1);
      ReachStep(S, T, before, MainStep);
      s := Step(before, MainStep);
    }
  }

  /** Worker 0 of the first stage takes steps up to its write. */
  lemma FirstDraws(S: nat, T: int, s: State) returns (t: State)
    requires Reachable(S, T, s) && !s.safe && |s.stages| >= 1
    requires var st := s.stages[0]; |st.ws| >= 2 && st.ws[0].pc == Begin && st.count == 0 && st.mutex == 1
    ensures Reachable(S, T, t) && t.main == s.main && !t.safe && |t.stages| == |s.stages|
    ensures var st := s.stages[0];
      t.stages[0].(past := st.past) == st.(ws := st.ws[0 := Worker(Write, 0)], count := 1)
  {
    var a := WorkerStep(0, 0);
    t := s;
    ReachStep(S, T, t, a);
    t := Step(t, a);
    assert t.stages[0].ws[0].pc == Lock;
    ReachStep(S, T, t, a);
    t := Step(t, a);
    assert t.stages[0].ws[0].pc == Draw;
    ReachStep(S, T, t, a);
    t := Step(t, a);
    assert t.stages[0].ws[0] == Worker(Unlock, 0);
    ReachStep(S, T, t, a);
    t := Step(t, a);
    assert t.stages[0].ws[0] == Worker(Write, 0);
    assert t.stages[0].ws == s.stages[0].ws[0 := Worker(Write, 0)];
  }

  /** Worker 1 draws index 1, writes its own slot and posts. */
  lemma SecondPosts(S: nat, T: int, s: State) returns (t: State)
    requires Reachable(S, T, s) && !s.safe && |s.stages| >= 1
    requires var st := s.stages[0];
      |st.ws| >= 2 && |st.ready| >= 2 && st.ws[1].pc == Begin && st.count == 1 && st.mutex == 1 && st.posts == 0
    ensures Reachable(S, T, t) && t.main == s.main && |t.stages| == |s.stages|
    ensures t.stages[0].posts == 1 && t.stages[0].ready == s.stages[0].ready[1 := Thread(1)]
    ensures t.stages[0].nb == s.stages[0].nb
  {
    var a := WorkerStep(0, 1);
    t := s;
    ReachStep(S, T, t, a);
    t := Step(t, a);
    assert t.stages[0].ws[1].pc == Lock;
    ReachStep(S, T, t, a);
    t := Step(t, a);
    assert t.stages[0].ws[1].pc == Draw;
    ReachStep(S, T, t, a);
    t := Step(t, a);
    assert t.stages[0].ws[1] == Worker(Unlock, 1);
    ReachStep(S, T, t, a);
    t := Step(t, a);
    assert t.stages[0].ws[1] == Worker(Write, 1);
    ReachStep(S, T, t, a);
    t := Step(t, a);
    assert t.stages[0].ws[1] == Worker(Post, 1);
    ReachStep(S, T, t, a);
    t := Step(t, a);
  }

  /** With two threads or more in the first stage, the main thread can read slot 0 before it is written. */
  lemma MainCanReadUnwritten(S: nat, T: int)
    requires S >= 1 && T >= 2
    ensures exists sched :: Run(Step, Start(false, S, T), sched).main.Crashed?
  {
    var s0 := ReachSpawned(S, T, T);
    var s1 := FirstDraws(S, T, s0);
    var s := SecondPosts(S, T, s1);
    ReachStep(S, T, s, MainStep);
    s := Step(s, MainStep);
    assert s.main == Waiting(0, 0);
    ReachStep(S, T, s, MainStep);
    s := Step(s, MainStep);
    assert s.main == Reading(0, 0);
    ReachStep(S, T, s, MainStep);
    s := Step(s, MainStep);
    var sched: seq<Action> :| Run(Step, Start(false, S, T), sched) == s;
  }

  /** The main thread never joins an unwritten slot, in any interleaving, exactly when the slot is written
      inside the mutex, or no stage has two threads. */
  lemma JoinsOnlyWrittenSlotsIff(safe: bool, S: nat, T: int)
    ensures (forall sched :: !Run(Step, Start(safe, S, T), sched).main.Crashed?) <==> safe || S == 0 || T <= 1
  {
    if !safe && S >= 1 && T >= 2 {
      MainCanReadUnwritten(S, T);
    } else {
      forall sched ensures !Run(Step, Start(safe, S, T), sched).main.Crashed? {
        RunKeepsInv(safe, S, T, sched);
        var s := Run(Step, Start(safe, S, T), sched);
        if s.main.Crashed? { ShapeAt(s, s.main.j); }
      }
    }
  }
}
