/** The heap side of ust/threadtree/threadtree.c: the linked list of stages, the threads that work on
it, and its release. */
module TaskList {
  import opened Runs
  import opened ThreadTree

  /** stage_t. ws stands for the threads of the stage, cell by cell. live is false once the stage is freed:
      every method that touches its memory requires it. */
  class StageNode {
    const nb: int
    var count: nat
    var mutex: nat
    var posts: nat
    const ready: array<Slot>
    var ws: seq<Worker>
    var next: StageNode?
    var live: bool
    ghost var past: History

    constructor (nb: int, cells: nat)
      ensures this.nb == nb && next == null && live
      ensures fresh(ready)
      ensures View() == Stage(nb, 0, 1, 0, seq(cells, _ => Unwritten), seq(Size(nb), _ => Worker(NotCreated, 0)),
                              History(-1, [], []))
    {
      this.nb := nb;
      count, mutex, posts := 0, 1, 0;
      ready := new Slot[cells](_ => Unwritten);
      ws := seq(Size(nb), _ => Worker(NotCreated, 0));
      next, live := null, true;
      past := History(-1, [], []);
      new;
      assert ready[..] == seq(cells, _ => Unwritten);
    }

    ghost function View(): Stage
      reads this`count, this`mutex, this`posts, this`ws, this`past, ready
    {
      Stage(nb, count, mutex, posts, ready[..], ws, past)
    }

    /** A step of thread_worker in thread i outside its spawning loop. */
    method Work(safe: bool, i: nat)
      requires live && i < |ws| && (ws[i].pc == Lock ==> mutex > 0)
      modifies this`count, this`mutex, this`posts, this`ws, this`past, ready
      ensures View() == StageMove(safe, old(View()), i)
    {
      var w := ws[i];
      match w.pc
      case Begin => ws := ws[i := w.(pc := Lock)];
      case Lock =>
        mutex := mutex - 1;
        ws := ws[i := w.(pc := Draw)];
        past := past.(holder := i);
      case Draw =>
        ws := ws[i := Worker(AfterDraw(safe), count)];
        count := count + 1;
        past := past.(order := past.order + [i]);
      case Unlock =>
        mutex := mutex + 1;
        ws := ws[i := w.(pc := AfterUnlock(safe))];
        past := past.(holder := -1);
      case Write =>
        if w.index < ready.Length {
          ready[w.index] := Thread(i);
        }
        ws := ws[i := w.(pc := Post)];
      case Post =>
        posts := posts + 1;
        ws := ws[i := w.(pc := AfterPost(safe))];
      case Branch => ws := ws[i := w.(pc := if w.index == nb - 1 then Spawn(0) else Leave)];
      case Leave => ws := ws[i := w.(pc := Exited)];
      case NotCreated =>
      case Spawn(_) =>
      case Exited =>
    }

    /** The body of the loop of spawn_stage. */
    method CreateThread(k: nat, ghost parent: Agent)
      requires live && k < nb
      modifies this`ws, this`past
      ensures View() == Create(old(View()), k, parent)
    {
      if k < |ws| {
        ws := ws[k := ws[k].(pc := Begin)];
        past := past.(forkedBy := past.forkedBy + [parent]);
      }
    }

    /** Thread i of the stage moves on to pc. */
    method MoveTo(i: nat, pc: Pc)
      requires i < |ws|
      modifies this`ws
      ensures View() == SetPc(old(View()), i, pc)
    {
      ws := ws[i := ws[i].(pc := pc)];
    }

    method Threads() returns (n: int)
      requires live
      ensures n == nb
    {
      n := nb;
    }

    method Next() returns (stage: StageNode?)
      requires live
      ensures stage == next
    {
      stage := next;
    }

    method SlotAt(i: nat) returns (slot: Slot)
      requires live
      ensures slot == if i < ready.Length then ready[i] else Unwritten
    {
      slot := if i < ready.Length then ready[i] else Unwritten;
    }

    method MutexIsFree() returns (free: bool)
      requires live
      ensures free == (mutex > 0)
    {
      free := mutex > 0;
    }

    /** sem_wait on sem_ready, if it does not block. */
    method TakePost() returns (taken: bool)
      requires live
      modifies this`posts
      ensures taken == (old(posts) > 0)
      ensures View() == if taken then old(View()).(posts := old(posts) - 1) else old(View())
    {
      taken := posts > 0;
      if taken {
        posts := posts - 1;
      }
    }

    /** The three calls of free for a stage. */
    method Release()
      requires live
      modifies this`live
      ensures !live
    {
      live := false;
    }
  }

  /** nodes is the null-terminated list that starts at head. */
  ghost predicate Linked(head: StageNode?, nodes: seq<StageNode>)
    reads nodes`next
  {
    && (if |nodes| == 0 then head == null else head == nodes[0] && nodes[|nodes| - 1].next == null)
    && (forall k | 0 <= k < |nodes| - 1 :: nodes[k].next == nodes[k + 1])
    && Acyclic(nodes)
  }

  /** Two stages share no memory. */
  ghost predicate Apart(a: StageNode, b: StageNode) {
    a != b && a.ready != b.ready
  }

  ghost predicate Acyclic(nodes: seq<StageNode>) {
    forall k, m | 0 <= k < |nodes| && 0 <= m < |nodes| && k != m :: Apart(nodes[k], nodes[m])
  }

  /** The stages as make_task leaves them. */
  ghost predicate AllFresh(nodes: seq<StageNode>, T: int)
    reads nodes`live, nodes`count, nodes`mutex, nodes`posts, nodes`ws, nodes`past
    reads set k | 0 <= k < |nodes| :: nodes[k].ready
  {
    forall k | 0 <= k < |nodes| :: nodes[k].live && nodes[k].View() == FreshStage(T, k)
  }

  lemma AllFreshAppend(nodes: seq<StageNode>, stage: StageNode, T: int)
    requires AllFresh(nodes, T) && stage.live && stage.View() == FreshStage(T, |nodes|)
    ensures AllFresh(nodes + [stage], T)
  {
  }

  /** One round of make_task's loop: a new stage at the end of the list. */
  method AppendStage(head: StageNode?, last: StageNode?, ghost nodes: seq<StageNode>, nb: int, cells: nat)
    returns (first: StageNode, stage: StageNode)
    requires Linked(head, nodes) && last == if |nodes| == 0 then null else nodes[|nodes| - 1]
    modifies nodes`next
    ensures fresh(stage) && fresh(stage.ready) && stage.live
    ensures stage.View() == Stage(nb, 0, 1, 0, seq(cells, _ => Unwritten), seq(Size(nb), _ => Worker(NotCreated, 0)),
                                  History(-1, [], []))
    ensures Linked(first, nodes + [stage])
  {
    stage := new StageNode(nb, cells);
    if last == null {
      first := stage;
    } else {
      first := head;
      last.next := stage;
    }
    assert forall k | 0 <= k < |nodes| :: Apart(nodes[k], stage) && Apart(stage, nodes[k]);
  }

  /** make_task: an acyclic list of nbStages stages with T, T - 1, ... threads and T cells each, in the
      state the tree protocol starts from. For a negative T calloc yields no cells. nodes is
      what the threads of each stage get as their argument. */
  method MakeTask(nbStages: int, nbThreads: int) returns (head: StageNode?, nodes: seq<StageNode>)
    ensures |nodes| == Size(nbStages) && Linked(head, nodes)
    ensures fresh(nodes) && forall k | 0 <= k < |nodes| :: fresh(nodes[k].ready)
    ensures forall k | 0 <= k < |nodes| :: nodes[k].live && nodes[k].View() == FreshStage(nbThreads, k)
  {
    head, nodes := null, [];
    var last: StageNode? := null;
    var curr: int := nbThreads;
    var i := 0;
    while i < nbStages
      invariant 0 <= i && i <= Size(nbStages) && |nodes| == i && curr == nbThreads - i
      invariant Linked(head, nodes) && AllFresh(nodes, nbThreads)
      invariant fresh(nodes) && forall k | 0 <= k < |nodes| :: fresh(nodes[k].ready)
      invariant last == if i == 0 then null else nodes[i - 1]
    {
      head, last := AppendStage(head, last, nodes, curr, Size(nbThreads));
      AllFreshAppend(nodes, last, nbThreads);
      nodes := nodes + [last];
      curr := curr - 1;
      i := i + 1;
    }
  }

  /** free_task: every stage of the list is released once, in list order, and each is unreleased when its
      next field is read and when it is released. */
  method FreeTask(head: StageNode?, ghost nodes: seq<StageNode>) returns (ghost freed: seq<StageNode>)
    requires Linked(head, nodes) && forall k | 0 <= k < |nodes| :: nodes[k].live
    modifies nodes`live
    ensures freed == nodes && forall k | 0 <= k < |nodes| :: !nodes[k].live
  {
    freed := [];
    var curr := head;
    while curr != null
      invariant |freed| <= |nodes| && freed == nodes[..|freed|]
      invariant curr == if |freed| < |nodes| then nodes[|freed|] else null
      invariant forall k | 0 <= k < |nodes| :: nodes[k].live == (k >= |freed|)
      decreases |nodes| - |freed|
    {
      var next := curr.Next();
      curr.Release();
      freed := freed + [curr];
      curr := next;
    }
  }

  /** A round of the spawning loop, spelt out. */
  lemma SpawnRoundIs(s: State, j: nat, i: nat, k: nat)
    requires WorkerEnabled(s, j, i) && s.stages[j].ws[i].pc == Spawn(k)
    ensures WorkerMove(s, j, i).stages ==
      if j + 1 < |s.stages| && k < s.stages[j + 1].nb
      then s.stages[j := SetPc(s.stages[j], i, Spawn(k + 1))][j + 1 := Create(s.stages[j + 1], k, WorkerThread(j, i))]
      else s.stages[j := SetPc(s.stages[j], i, Leave)]
    ensures WorkerMove(s, j, i) == s.(stages := WorkerMove(s, j, i).stages)
  {
  }

  /** A round of the same loop in the main thread. */
  lemma FirstRoundIs(s: State, k: nat)
    requires s.main == Spawning(k)
    ensures Step(s, MainStep) ==
      if |s.stages| > 0 && k < s.stages[0].nb
      then s.(stages := s.stages[0 := Create(s.stages[0], k, MainThread)], main := Spawning(k + 1))
      else s.(main := Waiting(0, 0))
  {
  }

  /** A round of the loops of wait_task up to its sem_wait. */
  lemma WaitRoundIs(s: State, j: nat, i: nat)
    requires s.main == Waiting(j, i)
    ensures Step(s, MainStep) ==
      if j >= |s.stages| then s.(main := Freeing)
      else if i >= s.stages[j].nb then s.(main := Waiting(j + 1, 0))
      else if s.stages[j].posts == 0 then s
      else s.(stages := s.stages[j := s.stages[j].(posts := s.stages[j].posts - 1)], main := Reading(j, i))
  {
  }

  /** The threads of a task: main and, for every stage, its workers. stage is the local of wait_task, stages
      what the nodes hold. */
  class Tree {
    const safe: bool
    const T: int
    const head: StageNode?
    const nodes: seq<StageNode>
    var main: Main
    var stage: StageNode?
    ghost var stages: seq<Stage>

    ghost predicate Stored()
      reads this`stages, nodes`next, nodes`count, nodes`mutex, nodes`posts, nodes`ws, nodes`past, Arrays()
    {
      && Linked(head, nodes) && |stages| == |nodes|
      && forall k | 0 <= k < |nodes| :: stages[k] == nodes[k].View()
    }

    /** The stages are in memory until main has freed them. */
    ghost predicate Valid()
      reads this, nodes, Arrays()
    {
      && Stored()
      && (forall k | 0 <= k < |nodes| :: nodes[k].live == !main.Done?)
      && (main.Waiting? || main.Reading? || main.Joining? ==> stage == StageAt(main.j))
    }

    ghost function StageAt(j: nat): StageNode? {
      if j < |nodes| then nodes[j] else null
    }

    ghost function Arrays(): set<object> {
      set k | 0 <= k < |nodes| :: nodes[k].ready
    }

    ghost function View(): State
      reads this`main, this`stages
    {
      State(safe, T, stages, main)
    }

    constructor (safe: bool, T: int, head: StageNode?, nodes: seq<StageNode>)
      requires Linked(head, nodes)
      requires forall k | 0 <= k < |nodes| :: nodes[k].live && nodes[k].View() == FreshStage(T, k)
      ensures Valid() && View() == Start(safe, |nodes|, T) && this.nodes == nodes
    {
      this.safe, this.T, this.head, this.nodes := safe, T, head, nodes;
      main, stage, stages := Spawning(0), null, Start(safe, |nodes|, T).stages;
    }

    /** One step of thread_worker outside its spawning loop. */
    method WorkInStage(at: StageNode, ghost j: nat, i: nat)
      requires Stored() && j < |nodes| && at == nodes[j] && at.live
      requires i < |stages[j].ws| && (stages[j].ws[i].pc == Lock ==> stages[j].mutex > 0)
      modifies this`stages, at`count, at`mutex, at`posts, at`ws, at`past, at.ready
      ensures Stored() && stages == old(stages)[j := StageMove(safe, old(stages)[j], i)]
    {
      assert forall k | 0 <= k < |nodes| && k != j :: Apart(nodes[k], at);
      at.Work(safe, i);
      stages := stages[j := at.View()];
    }

    /** One thread created in the loop of spawn_stage, by main or by a worker. */
    method Fork(at: StageNode, ghost j: nat, k: nat, ghost parent: Agent)
      requires Valid() && !main.Done? && j < |nodes| && at == nodes[j] && k < stages[j].nb
      modifies this`stages, nodes`ws, nodes`past
      ensures Valid() && stages == old(stages)[j := Create(old(stages)[j], k, parent)]
    {
      assert forall k | 0 <= k < |nodes| && k != j :: Apart(nodes[k], nodes[j]);
      at.CreateThread(k, parent);
      stages := stages[j := at.View()];
    }

    method MoveTo(j: nat, i: nat, pc: Pc)
      requires Valid() && j < |nodes| && i < |stages[j].ws|
      modifies this`stages, nodes`ws
      ensures Valid() && stages == old(stages)[j := SetPc(old(stages)[j], i, pc)]
    {
      assert forall k | 0 <= k < |nodes| && k != j :: Apart(nodes[k], nodes[j]);
      nodes[j].MoveTo(i, pc);
      stages := stages[j := nodes[j].View()];
    }

    /** sem_wait on sem_ready of the stage main is at, if it does not block. */
    method TakePost(ghost j: nat) returns (taken: bool)
      requires Valid() && main.Waiting? && main.j == j < |nodes|
      modifies this`stages, nodes`posts
      ensures Valid() && taken == (old(stages)[j].posts > 0)
      ensures stages == if !taken then old(stages)
                        else old(stages)[j := old(stages)[j].(posts := old(stages)[j].posts - 1)]
    {
      assert forall k | 0 <= k < |nodes| && k != j :: Apart(nodes[k], nodes[j]);
      taken := stage.TakePost();
      stages := stages[j := nodes[j].View()];
    }

    /** nb_thread of stage j, or 0 past the end of the list. */
    method ThreadsOf(at: StageNode?, ghost j: nat) returns (n: int)
      requires Valid() && !main.Done? && at == StageAt(j)
      ensures n == if j < |stages| then stages[j].nb else 0
    {
      n := 0;
      if at != null {
        n := at.Threads();
      }
    }

    method NextOf(at: StageNode, ghost j: nat) returns (next: StageNode?)
      requires Valid() && !main.Done? && j < |nodes| && at == nodes[j]
      ensures next == StageAt(j + 1)
    {
      next := at.Next();
    }

    /** Whether worker i of stage j exists and is not blocked or gone. */
    method CanMove(j: nat, i: nat) returns (can: bool, spawning: bool)
      requires Valid() && Orderly(View())
      ensures can == WorkerEnabled(View(), j, i)
      ensures can ==> !main.Done? && spawning == stages[j].ws[i].pc.Spawn?
    {
      can, spawning := false, false;
      if j < |nodes| && i < |nodes[j].ws| {
        var pc := nodes[j].ws[i].pc;
        if !pc.NotCreated? && !pc.Exited? {
          assert main.Done? ==> StageComplete(View(), j);
          can, spawning := true, pc.Spawn?;
          if pc.Lock? {
            can := nodes[j].MutexIsFree();
          }
        }
      }
    }

    method SpawnOne(next: StageNode, j: nat, i: nat, k: nat)
      requires Valid() && !main.Done? && j + 1 < |nodes| && i < |stages[j].ws|
      requires next == nodes[j + 1] && k < stages[j + 1].nb
      modifies this`stages, nodes`ws, nodes`past
      ensures Valid()
      ensures var was := old(stages);
        stages == was[j := SetPc(was[j], i, Spawn(k + 1))][j + 1 := Create(was[j + 1], k, WorkerThread(j, i))]
    {
      MoveTo(j, i, Spawn(k + 1));
      Fork(next, j + 1, k, WorkerThread(j, i));
    }

    /** One round of the spawning loop of the last worker of a stage, or its end. */
    method SpawnStep(j: nat, i: nat)
      requires Valid() && !main.Done? && WorkerEnabled(View(), j, i) && stages[j].ws[i].pc.Spawn?
      modifies this`stages, nodes`ws, nodes`past
      ensures Valid() && View() == WorkerMove(old(View()), j, i)
    {
      var k := nodes[j].ws[i].pc.k;
      SpawnRoundIs(View(), j, i, k);
      var next := NextOf(nodes[j], j);
      var n := ThreadsOf(next, j + 1);
      if k < n {
        SpawnOne(next, j, i, k);
      } else {
        MoveTo(j, i, Leave);
      }
    }

    /** A step of worker i of stage j: thread_worker, and spawn_stage for the last worker of a stage. */
    method WorkerThreadStep(j: nat, i: nat)
      requires Valid() && Orderly(View())
      modifies this, nodes, Arrays()
      ensures Valid() && View() == Step(old(View()), WorkerStep(j, i))
    {
      var can, spawning := CanMove(j, i);
      if can && spawning {
        SpawnStep(j, i);
      } else if can {
        WorkInStage(nodes[j], j, i);
      }
    }

    /** spawn_stage for the first stage. */
    method SpawnFirst(k: nat)
      requires Valid() && main == Spawning(k)
      modifies this`main, this`stage, this`stages, nodes`ws, nodes`past
      ensures var was := old(stages);
        && Valid()
        && if |was| > 0 && k < was[0].nb
           then stages == was[0 := Create(was[0], k, MainThread)] && main == Spawning(k + 1)
           else stages == was && main == Waiting(0, 0)
    {
      var n := ThreadsOf(head, 0);
      if k < n {
        Fork(head, 0, k, MainThread);
        main := Spawning(k + 1);
      } else {
        main, stage := Waiting(0, 0), head;
      }
    }

    /** The end of the inner loop of wait_task. */
    method LeaveStage(ghost j: nat)
      requires Valid() && main.Waiting? && main.j == j < |nodes|
      modifies this`main, this`stage
      ensures Valid() && main == Waiting(j + 1, 0)
    {
      stage := NextOf(stage, j);
      main := Waiting(main.j + 1, 0);
      assert Stored();
    }

    /** The sem_wait of wait_task. */
    method WaitOne(ghost j: nat, i: nat)
      requires Valid() && main == Waiting(j, i) && j < |nodes|
      modifies this`main, this`stages, nodes`posts
      ensures var was := old(stages);
        && Valid()
        && if was[j].posts == 0 then stages == was && main == old(main)
           else stages == was[j := was[j].(posts := was[j].posts - 1)] && main == Reading(j, i)
    {
      var taken := TakePost(j);
      if taken {
        main := Reading(main.j, i);
        assert Stored();
      }
    }

    /** The loops of wait_task up to the sem_wait. */
    method WaitNext(ghost j: nat, i: nat)
      requires Valid() && main == Waiting(j, i)
      modifies this`main, this`stage, this`stages, nodes`posts
      ensures var was := old(stages);
        && Valid()
        && if j >= |was| then stages == was && main == Freeing
           else if i >= was[j].nb then stages == was && main == Waiting(j + 1, 0)
           else if was[j].posts == 0 then stages == was && main == old(main)
           else stages == was[j := was[j].(posts := was[j].posts - 1)] && main == Reading(j, i)
    {
      if stage == null {
        main := Freeing;
        assert Stored();
      } else {
        var n := ThreadsOf(stage, j);
        if i >= n {
          LeaveStage(j);
        } else {
          WaitOne(j, i);
        }
      }
    }

    /** The reading of a slot in wait_task. */
    method ReadNext(i: nat)
      requires Valid() && Orderly(View()) && main.Reading? && main.i == i
      modifies this`main
      ensures Valid() && View() == Step(old(View()), MainStep)
    {
      var slot := stage.SlotAt(i);
      main := match slot
              case Thread(w) => Joining(main.j, i, w)
              case Unwritten => Crashed(main.j, i);
    }

    /** The join of wait_task; the exit of a thread can be seen without its stage. */
    method JoinNext(j: nat, i: nat, w: nat)
      requires Valid() && main == Joining(j, i, w)
      modifies this`main
      ensures Valid() && View() == Step(old(View()), MainStep)
    {
      if j < |nodes| && w < |nodes[j].ws| ==> nodes[j].ws[w].pc == Exited {
        main := Waiting(j, i + 1);
      }
    }

    /** free_task, once all threads have exited. */
    method FreeStages()
      requires Valid() && Orderly(View()) && main == Freeing
      modifies this`main, nodes`live
      ensures Valid() && View() == Step(old(View()), MainStep)
    {
      ghost var freed := FreeTask(head, nodes);
      main := Done;
      assert Stored();
    }

    /** A step of the main thread: spawn_stage for the first stage, wait_task, free_task. */
    method Control()
      requires Valid() && Orderly(View())
      modifies this, nodes, Arrays()
      ensures Valid() && View() == Step(old(View()), MainStep)
    {
      match main
      case Spawning(k) =>
        FirstRoundIs(View(), k);
        SpawnFirst(k);
      case Waiting(j, i) =>
        WaitRoundIs(View(), j, i);
        WaitNext(j, i);
      case Reading(_, i) => ReadNext(i);
      case Joining(j, i, w) => JoinNext(j, i, w);
      case Freeing => FreeStages();
      case Done =>
      case Crashed(_, _) =>
    }

    /** The threads under a scheduler that picks the next thread from sched. */
    method Execute(sched: seq<Action>)
      requires Valid() && forall k | 0 <= k <= |sched| :: Orderly(Run(Step, View(), sched[..k]))
      modifies this, nodes, Arrays()
      ensures Valid() && View() == Run(Step, old(View()), sched)
    {
      for k := 0 to |sched|
        invariant Valid() && View() == Run(Step, old(View()), sched[..k])
      {
        RunAppend(Step, old(View()), sched[..k], sched[k]);
        assert sched[..k] + [sched[k]] == sched[..k + 1];
        assert Orderly(Run(Step, old(View()), sched[..k]));
        match sched[k]
        case MainStep => Control();
        case WorkerStep(j, i) => WorkerThreadStep(j, i);
      }
      assert sched[..|sched|] == sched;
    }
  }

  /** main from make_task on. A stage is in memory exactly until the main thread has freed it, and then no
      thread of any stage is left: each was created and has exited. */
  method RunProgram(safe: bool, nbStages: int, nbThreads: int, sched: seq<Action>) returns (tree: Tree)
    ensures tree.Valid() && |tree.nodes| == Size(nbStages)
    ensures tree.View() == Run(Step, Start(safe, Size(nbStages), nbThreads), sched)
    ensures forall k | 0 <= k < |tree.nodes| :: !tree.nodes[k].live ==> Complete(tree.View())
    ensures tree.main.Done? ==>
      Complete(tree.View()) && Created(tree.View(), 0) == ThreadsFrom(Size(nbStages), nbThreads, 0)
  {
    var head, nodes := MakeTask(nbStages, nbThreads);
    forall k | 0 <= k <= |sched| ensures Orderly(Run(Step, Start(safe, Size(nbStages), nbThreads), sched[..k])) {
      RunKeepsInv(safe, Size(nbStages), nbThreads, sched[..k]);
      InvIsOrderly(Run(Step, Start(safe, Size(nbStages), nbThreads), sched[..k]));
    }
    tree := new Tree(safe, nbThreads, head, nodes);
    tree.Execute(sched);
    TreeFinishes(safe, Size(nbStages), nbThreads, sched);
  }
}
