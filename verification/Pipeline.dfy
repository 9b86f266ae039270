/** The three-stage bounded pipeline of src/pipeline.c.

Two ring buffers of length L join three workers. Worker 1 puts N items and then the
sentinel -1 into the first queue, worker 2 moves them to the second queue while it
holds a slot in both, worker 3 takes them out. Every semaphore operation and every
access to shared memory is a step of its own. Each cell carries, next to the char the
program stores, the number of the item it belongs to; the program never reads it.
*/
module Pipeline {
  import opened Runs
  import opened Arith
  import opened CInts

  datatype Cell = Cell(c: int, id: int)

  datatype Queue = Queue(data: seq<Cell>, free: nat, busy: nat, ip: nat, ic: nat)

  datatype Pc1 = Wait1 | Fill1 | Advance1 | Post1 | PostStop1 | Done1
  datatype Pc2 = WaitBusy2 | WaitFree2 | Read2 | Write2 | AdvanceC2 | AdvanceP2 | PostFree2 | PostBusy2
               | WriteStop2 | PostStop2 | Done2
  datatype Pc3 = Wait3 | Read3 | Advance3 | Post3 | Done3

  datatype Worker = W1 | W2 | W3

  /** The locals of the workers. Worker 1's n is the source's `processed`; the n of the other two
      (rounds completed) and out (cells processed by worker 3) are history. */
  datatype Local1 = Local1(pc: Pc1, n: nat)
  datatype Local2 = Local2(pc: Pc2, n: nat, c: Cell)
  datatype Local3 = Local3(pc: Pc3, n: nat, out: seq<Cell>)

  datatype Config = Config(N: nat, L: nat, q0: Queue, q1: Queue, w1: Local1, w2: Local2, w3: Local3)

  predicate Shaped(q: Queue, L: nat) {
    |q.data| == L && q.ip < L && q.ic < L
  }

  const EMPTY := Queue([Cell(0, -1)], 1, 0, 0, 0)

  type State = s: Config | s.L >= 1 && Shaped(s.q0, s.L) && Shaped(s.q1, s.L)
    witness Config(0, 1, EMPTY, EMPTY, Local1(Wait1, 0), Local2(WaitBusy2, 0, Cell(0, -1)), Local3(Wait3, 0, []))

  /** do_action. */
  function DoAction(x: Cell): Cell {
    x.(c := ToChar(x.c + 1))
  }

  function EmptyQueue(L: nat): Queue {
    Queue(seq(L, _ => Cell(0, -1)), L, 0, 0, 0)
  }

  /** The state main has set up when it creates the workers. */
  function Start(N: nat, L: nat): State
    requires L >= 1
  {
    Config(N, L, EmptyQueue(L), EmptyQueue(L),
           Local1(Wait1, 0), Local2(WaitBusy2, 0, Cell(0, -1)), Local3(Wait3, 0, []))
  }

  /** Whether a worker can move: it has not returned and is not blocked in sem_wait. */
  predicate Enabled(s: State, w: Worker) {
    match w
    case W1 => s.w1.pc != Done1 && (s.w1.pc == Wait1 ==> s.q0.free > 0)
    case W2 => s.w2.pc != Done2 && (s.w2.pc == WaitBusy2 ==> s.q0.busy > 0) && (s.w2.pc == WaitFree2 ==> s.q1.free > 0)
    case W3 => s.w3.pc != Done3 && (s.w3.pc == Wait3 ==> s.q1.busy > 0)
  }

  function Put(q: Queue, x: Cell): Queue
    requires q.ip < |q.data|
  {
    q.(data := q.data[q.ip := x])
  }

  /** The ring position after i, which is (i + 1) % L. */
  function Next(i: nat, L: nat): (j: nat)
    requires i < L
    ensures j < L
  {
    if i + 1 == L then 0 else i + 1
  }

  function Step1(s: State): State
    requires Enabled(s, W1)
  {
    match s.w1.pc
    case Wait1 => s.(q0 := s.q0.(free := s.q0.free - 1), w1 := s.w1.(pc := Fill1))
    case Fill1 =>
      if s.w1.n >= s.N then s.(q0 := Put(s.q0, Cell(-1, -1)), w1 := s.w1.(pc := PostStop1))
      else s.(q0 := Put(s.q0, DoAction(Cell(0, s.w1.n))), w1 := s.w1.(pc := Advance1))
    case Advance1 => s.(q0 := s.q0.(ip := Next(s.q0.ip, s.L)), w1 := s.w1.(pc := Post1))
    case Post1 => s.(q0 := s.q0.(busy := s.q0.busy + 1), w1 := s.w1.(n := s.w1.n + 1, pc := Wait1))
    case PostStop1 => s.(q0 := s.q0.(busy := s.q0.busy + 1), w1 := s.w1.(pc := Done1))
  }

  function Step2(s: State): State
    requires Enabled(s, W2)
  {
    match s.w2.pc
    case WaitBusy2 => s.(q0 := s.q0.(busy := s.q0.busy - 1), w2 := s.w2.(pc := WaitFree2))
    case WaitFree2 => s.(q1 := s.q1.(free := s.q1.free - 1), w2 := s.w2.(pc := Read2))
    case Read2 =>
      var c := s.q0.data[s.q0.ic];
      if c.c < 0 then s.(w2 := s.w2.(c := c, pc := WriteStop2)) else s.(w2 := s.w2.(c := DoAction(c), pc := Write2))
    case Write2 => s.(q1 := Put(s.q1, s.w2.c), w2 := s.w2.(pc := AdvanceC2))
    case AdvanceC2 => s.(q0 := s.q0.(ic := Next(s.q0.ic, s.L)), w2 := s.w2.(pc := AdvanceP2))
    case AdvanceP2 => s.(q1 := s.q1.(ip := Next(s.q1.ip, s.L)), w2 := s.w2.(pc := PostFree2))
    case PostFree2 => s.(q0 := s.q0.(free := s.q0.free + 1), w2 := s.w2.(pc := PostBusy2))
    case PostBusy2 => s.(q1 := s.q1.(busy := s.q1.busy + 1), w2 := s.w2.(n := s.w2.n + 1, pc := WaitBusy2))
    case WriteStop2 => s.(q1 := Put(s.q1, s.w2.c), w2 := s.w2.(pc := PostStop2))
    case PostStop2 => s.(q1 := s.q1.(busy := s.q1.busy + 1), w2 := s.w2.(pc := Done2))
  }

  function Step3(s: State): State
    requires Enabled(s, W3)
  {
    match s.w3.pc
    case Wait3 => s.(q1 := s.q1.(busy := s.q1.busy - 1), w3 := s.w3.(pc := Read3))
    case Read3 =>
      var c := s.q1.data[s.q1.ic];
      if c.c < 0 then s.(w3 := s.w3.(pc := Done3))
      else s.(w3 := s.w3.(out := s.w3.out + [DoAction(c)], pc := Advance3))
    case Advance3 => s.(q1 := s.q1.(ic := Next(s.q1.ic, s.L)), w3 := s.w3.(pc := Post3))
    case Post3 => s.(q1 := s.q1.(free := s.q1.free + 1), w3 := s.w3.(n := s.w3.n + 1, pc := Wait3))
  }

  function Step(s: State, w: Worker): State {
    if !Enabled(s, w) then s
    else match w
      case W1 => Step1(s)
      case W2 => Step2(s)
      case W3 => Step3(s)
  }

  predicate Finished(s: State) {
    s.w1.pc == Done1 && s.w2.pc == Done2 && s.w3.pc == Done3
  }

  // ----- Progress counters -----

  // How often each semaphore has been waited on and posted, and how many cells have been
  // written and freed, read off the program counters.

  function Waits1(n: nat, pc: Pc1): nat { n + if pc.Wait1? then 0 else 1 }
  function Written1(n: nat, pc: Pc1): nat { n + if pc.Advance1? || pc.Post1? then 1 else 0 }
  function Advanced1(n: nat, pc: Pc1): nat { n + if pc.Post1? then 1 else 0 }
  function Posts1(n: nat, pc: Pc1): nat { n + if pc.Done1? then 1 else 0 }

  predicate Moved2(pc: Pc2) { pc.AdvanceC2? || pc.AdvanceP2? || pc.PostFree2? || pc.PostBusy2? }
  predicate Carries2(pc: Pc2) { pc.Write2? || Moved2(pc) }
  predicate Stopping2(pc: Pc2) { pc.WriteStop2? || pc.PostStop2? || pc.Done2? }
  function BusyWaits2(n: nat, pc: Pc2): nat { n + if pc.WaitBusy2? then 0 else 1 }
  function FreeWaits2(n: nat, pc: Pc2): nat { n + if pc.WaitBusy2? || pc.WaitFree2? then 0 else 1 }
  function Written2(n: nat, pc: Pc2): nat { n + if Moved2(pc) then 1 else 0 }
  function AdvancedC2(n: nat, pc: Pc2): nat { n + if pc.AdvanceP2? || pc.PostFree2? || pc.PostBusy2? then 1 else 0 }
  function AdvancedP2(n: nat, pc: Pc2): nat { n + if pc.PostFree2? || pc.PostBusy2? then 1 else 0 }
  function Freed2(n: nat, pc: Pc2): nat { n + if pc.PostBusy2? then 1 else 0 }
  function Posts2(n: nat, pc: Pc2): nat { n + if pc.Done2? then 1 else 0 }

  function Waits3(n: nat, pc: Pc3): nat { n + if pc.Wait3? then 0 else 1 }
  function Processed3(n: nat, pc: Pc3): nat { n + if pc.Advance3? || pc.Post3? then 1 else 0 }
  function Advanced3(n: nat, pc: Pc3): nat { n + if pc.Post3? then 1 else 0 }

  // ----- Invariant -----

  /** The ring position of item number k, which is k modulo L. */
  function Slot(k: nat, L: nat): (i: nat)
    requires L >= 1
    ensures i < L
  {
    if k == 0 then 0 else Next(Slot(k - 1, L), L)
  }

  /** Items lo up to hi sit in their slots of q with the char v. */
  ghost predicate Holds(q: Queue, lo: nat, hi: nat, v: int)
    requires |q.data| >= 1
  {
    forall k: nat | lo <= k < hi :: q.data[Slot(k, |q.data|)] == Cell(v, k)
  }

  /** Semaphore counts: what is free or busy or in the hands of a worker adds up. */
  ghost predicate Counts(s: State) {
    && s.q0.free + Waits1(s.w1.n, s.w1.pc) == s.L + Freed2(s.w2.n, s.w2.pc)
    && s.q0.busy + BusyWaits2(s.w2.n, s.w2.pc) == Posts1(s.w1.n, s.w1.pc)
    && s.q1.free + FreeWaits2(s.w2.n, s.w2.pc) == s.L + s.w3.n
    && s.q1.busy + Waits3(s.w3.n, s.w3.pc) == Posts2(s.w2.n, s.w2.pc)
  }

  /** Progress: who can be where. */
  ghost predicate Order(s: State) {
    && s.w3.n <= s.w2.n <= s.w1.n <= s.N
    && (s.w1.pc.Advance1? || s.w1.pc.Post1? ==> s.w1.n < s.N)
    && (s.w1.pc.PostStop1? || s.w1.pc.Done1? ==> s.w1.n == s.N)
    && (Carries2(s.w2.pc) ==> s.w2.n < s.w1.n)
    && (Stopping2(s.w2.pc) ==> s.w1.pc.Done1? && s.w2.n == s.N)
    && (s.w3.pc.Advance3? || s.w3.pc.Post3? ==> s.w3.n < s.w2.n)
    && (s.w3.pc.Done3? ==> s.w2.pc.Done2? && s.w3.n == s.N)
  }

  /** The ring positions are the produced and consumed counts modulo L. */
  ghost predicate Rings(s: State) {
    && s.q0.ip == Slot(Advanced1(s.w1.n, s.w1.pc), s.L)
    && s.q0.ic == Slot(AdvancedC2(s.w2.n, s.w2.pc), s.L)
    && s.q1.ip == Slot(AdvancedP2(s.w2.n, s.w2.pc), s.L)
    && s.q1.ic == Slot(Advanced3(s.w3.n, s.w3.pc), s.L)
  }

  /** What lies in the queues, in the workers' locals and in the output. */
  ghost predicate Contents0(s: State) {
    && Holds(s.q0, Freed2(s.w2.n, s.w2.pc), Written1(s.w1.n, s.w1.pc), 1)
    && (s.w1.pc.PostStop1? || s.w1.pc.Done1? ==> s.q0.data[Slot(s.w1.n, s.L)].c == -1)
    && (Carries2(s.w2.pc) ==> s.w2.c == Cell(2, s.w2.n))
    && (Stopping2(s.w2.pc) ==> s.w2.c.c == -1)
  }

  ghost predicate Contents1(s: State) {
    && Holds(s.q1, s.w3.n, Written2(s.w2.n, s.w2.pc), 2)
    && (s.w2.pc.PostStop2? || s.w2.pc.Done2? ==> s.q1.data[Slot(s.w2.n, s.L)].c == -1)
    && s.w3.out == Delivered(Processed3(s.w3.n, s.w3.pc))
  }

  ghost predicate Inv(s: State) {
    Counts(s) && Order(s) && Rings(s) && Contents0(s) && Contents1(s)
  }

  function Delivered(k: nat): seq<Cell> {
    seq(k, i => Cell(3, i))
  }

  // ----- Every step keeps the invariant -----

  lemma NextIsMod(i: nat, L: nat)
    requires i < L
    ensures Next(i, L) == (i + 1) % L
  {
    if i + 1 == L {
      DivModUnique(L, L, 1, 0);
    } else {
      DivModUnique(i + 1, L, 0, i + 1);
    }
  }

  lemma {:induction false} SlotIsMod(k: nat, L: nat)
    requires L >= 1
    ensures Slot(k, L) == k % L
  {
    if k == 0 {
      DivModUnique(0, L, 0, 0);
    } else {
      SlotIsMod(k - 1, L);
      NextIsMod(Slot(k - 1, L), L);
      DivModSucc(k - 1, L);
    }
  }

  /** Writing the slot of the next item leaves the items still held alone. */
  lemma PutKeeps(q: Queue, lo: nat, hi: nat, v: int, x: Cell)
    requires |q.data| >= 1 && hi < lo + |q.data| && q.ip == Slot(hi, |q.data|)
    requires Holds(q, lo, hi, v)
    ensures Holds(Put(q, x), lo, hi, v) && Put(q, x).data[Slot(hi, |q.data|)] == x
  {
    forall k: nat | lo <= k < hi
      ensures Slot(k, |q.data|) != q.ip
    {
      SlotIsMod(k, |q.data|);
      SlotIsMod(hi, |q.data|);
      ModApart(k, hi, |q.data|);
    }
  }

  /** What the consumer side of a queue finds: the next item, or the sentinel once all are through. */
  lemma Finds2(s: State)
    requires Inv(s) && s.w2.pc.Read2?
    ensures var c := s.q0.data[s.q0.ic];
      if s.w2.n < s.w1.n then c == Cell(1, s.w2.n) else c.c == -1 && s.w1.pc.Done1? && s.w2.n == s.N
  {
  }

  lemma Finds3(s: State)
    requires Inv(s) && s.w3.pc.Read3?
    ensures var c := s.q1.data[s.q1.ic];
      if s.w3.n < s.w2.n then c == Cell(2, s.w3.n) else c.c == -1 && s.w2.pc.Done2? && s.w3.n == s.N
  {
  }

  lemma Keeps1(s: State)
    requires Counts(s) && Order(s) && Enabled(s, W1)
    ensures Counts(Step1(s)) && Order(Step1(s))
  {
  }

  lemma CountsKept2(s: State)
    requires Counts(s) && Enabled(s, W2)
    ensures Counts(Step2(s))
  {
  }

  lemma Keeps2(s: State)
    requires Counts(s) && Order(s) && Enabled(s, W2)
    requires s.w2.pc.Read2? ==> var c := s.q0.data[s.q0.ic];
      if s.w2.n < s.w1.n then c == Cell(1, s.w2.n) else c.c == -1 && s.w1.pc.Done1? && s.w2.n == s.N
    ensures Order(Step2(s))
  {
  }

  lemma Keeps3(s: State)
    requires Counts(s) && Order(s) && Enabled(s, W3)
    requires s.w3.pc.Read3? ==> var c := s.q1.data[s.q1.ic];
      if s.w3.n < s.w2.n then c == Cell(2, s.w3.n) else c.c == -1 && s.w2.pc.Done2? && s.w3.n == s.N
    ensures Counts(Step3(s)) && Order(Step3(s))
  {
  }

  lemma RingsKept1(s: State)
    requires Rings(s) && Enabled(s, W1)
    ensures Rings(Step1(s))
  {
    if s.w1.pc.Advance1? { assert Slot(s.w1.n + 1, s.L) == Next(Slot(s.w1.n, s.L), s.L); }
  }

  lemma RingsKept2(s: State)
    requires Rings(s) && Enabled(s, W2) && (s.w2.pc.AdvanceC2? || s.w2.pc.AdvanceP2?)
    ensures Rings(Step2(s))
  {
    assert Slot(s.w2.n + 1, s.L) == Next(Slot(s.w2.n, s.L), s.L);
  }

  lemma RingsFramed2(s: State)
    requires Rings(s) && Enabled(s, W2) && !s.w2.pc.AdvanceC2? && !s.w2.pc.AdvanceP2?
    ensures Rings(Step2(s))
  {
  }

  lemma RingsKept3(s: State)
    requires Rings(s) && Enabled(s, W3)
    ensures Rings(Step3(s))
  {
    if s.w3.pc.Advance3? { assert Slot(s.w3.n + 1, s.L) == Next(Slot(s.w3.n, s.L), s.L); }
  }

  lemma ContentsKept1(s: State)
    requires Inv(s) && Enabled(s, W1)
    ensures Contents0(Step1(s)) && Contents1(Step1(s))
  {
    if s.w1.pc == Fill1 {
      var x := if s.w1.n >= s.N then Cell(-1, -1) else DoAction(Cell(0, s.w1.n));
      PutKeeps(s.q0, Freed2(s.w2.n, s.w2.pc), s.w1.n, 1, x);
    }
  }

  lemma Contents0Kept2(s: State)
    requires Contents0(s) && Enabled(s, W2)
    requires s.w2.pc.Read2? ==> var c := s.q0.data[s.q0.ic]; c == Cell(1, s.w2.n) || c.c == -1
    ensures Contents0(Step2(s))
  {
  }

  predicate Writes1(pc: Pc2) {
    pc.Write2? || pc.WriteStop2?
  }

  lemma Contents1Written2(s: State)
    requires Counts(s) && Order(s) && Rings(s) && Contents0(s) && Contents1(s)
    requires Enabled(s, W2) && Writes1(s.w2.pc)
    ensures Contents1(Step2(s))
  {
    PutKeeps(s.q1, s.w3.n, s.w2.n, 2, s.w2.c);
  }

  lemma Contents1Framed2(s: State)
    requires Contents1(s) && Enabled(s, W2) && !Writes1(s.w2.pc)
    ensures Contents1(Step2(s))
  {
    assert Step2(s).q1.data == s.q1.data && Step2(s).w3 == s.w3;
  }

  lemma ContentsKept3(s: State)
    requires Contents0(s) && Contents1(s) && Enabled(s, W3)
    requires s.w3.pc.Read3? ==> var c := s.q1.data[s.q1.ic]; c == Cell(2, s.w3.n) || c.c == -1
    ensures Contents0(Step3(s)) && Contents1(Step3(s))
  {
  }

  lemma StepKeepsInv(s: State, w: Worker)
    requires Inv(s)
    ensures Inv(Step(s, w))
  {
    if Enabled(s, w) {
      match w
      case W1 =>
        Keeps1(s);
        RingsKept1(s);
        ContentsKept1(s);
      case W2 =>
        if s.w2.pc.Read2? { Finds2(s); }
        CountsKept2(s);
        Keeps2(s);
        if s.w2.pc.AdvanceC2? || s.w2.pc.AdvanceP2? { RingsKept2(s); } else { RingsFramed2(s); }
        Contents0Kept2(s);
        if Writes1(s.w2.pc) { Contents1Written2(s); } else { Contents1Framed2(s); }
      case W3 =>
        if s.w3.pc.Read3? { Finds3(s); }
        Keeps3(s);
        RingsKept3(s);
        ContentsKept3(s);
    }
  }

  // ----- Main results -----

  lemma RunKeepsInv(N: nat, L: nat, sched: seq<Worker>)
    requires L >= 1
    ensures Inv(Run(Step, Start(N, L), sched))
  {
    forall x: State, w | Inv(x) ensures Inv(Step(x, w)) { StepKeepsInv(x, w); }
    RunKeeps(Step, Inv, Start(N, L), sched);
  }

  /** The raw items of worker 1, in order. */
  function Source(N: nat): seq<Cell> {
    seq(N, i => Cell(0, i))
  }

  /** do_action applied by all three stages to every item. */
  function ThroughAllStages(items: seq<Cell>): seq<Cell> {
    seq(|items|, i requires 0 <= i < |items| => DoAction(DoAction(DoAction(items[i]))))
  }

  /** Under every interleaving worker 3 has processed a prefix of the items in order, each one once and
      through all three stages, which turn the char 0 into 3; when all workers have returned it has
      processed all N. */
  lemma PipelineDelivers(N: nat, L: nat, sched: seq<Worker>)
    requires L >= 1
    ensures var s := Run(Step, Start(N, L), sched);
      && s.w3.out <= ThroughAllStages(Source(N))
      && (Finished(s) ==> s.w3.out == ThroughAllStages(Source(N)))
      && |s.w3.out| <= N && (Finished(s) ==> |s.w3.out| == N)
      && (forall i | 0 <= i < |s.w3.out| :: s.w3.out[i] == Cell(3, i))
  {
    RunKeepsInv(N, L, sched);
    StepKeepsShape(N, L, sched);
    var s: State := Run(Step, Start(N, L), sched);
    DeliveredIsPrefix(Processed3(s.w3.n, s.w3.pc), N);
  }

  lemma DeliveredIsPrefix(k: nat, N: nat)
    ensures k <= N ==> Delivered(k) <= ThroughAllStages(Source(N))
    ensures Delivered(N) == ThroughAllStages(Source(N))
  {
  }

  /** Slots of the first queue in the hands of worker 1 and worker 2, and of the second in those of
      worker 2 and worker 3, between the wait that claims a slot and the post that passes it on. */
  function Held0(s: State): nat {
    (if s.w1.pc.Wait1? || s.w1.pc.Done1? then 0 else 1) + (if s.w2.pc.WaitBusy2? || s.w2.pc.PostBusy2? then 0 else 1)
  }

  function Held1(s: State): nat {
    (if s.w2.pc.WaitBusy2? || s.w2.pc.WaitFree2? || s.w2.pc.Done2? then 0 else 1) + (if s.w3.pc.Wait3? then 0 else 1)
  }

  /** Every slot of both queues is free, busy or held by one worker; ip and ic are the produced and
      consumed counts modulo L; at most 2L items are under way. */
  lemma SlotsAccountedFor(N: nat, L: nat, sched: seq<Worker>)
    requires L >= 1
    ensures var s := Run(Step, Start(N, L), sched);
      && s.q0.free + s.q0.busy + Held0(s) == L
      && s.q1.free + s.q1.busy + Held1(s) == L
      && s.q0.ip == Advanced1(s.w1.n, s.w1.pc) % L && s.q0.ic == AdvancedC2(s.w2.n, s.w2.pc) % L
      && s.q1.ip == AdvancedP2(s.w2.n, s.w2.pc) % L && s.q1.ic == Advanced3(s.w3.n, s.w3.pc) % L
      && Waits1(s.w1.n, s.w1.pc) - s.w3.n <= 2 * L
  {
    RunKeepsInv(N, L, sched);
    var s := Run(Step, Start(N, L), sched);
    StepKeepsShape(N, L, sched);
    SlotIsMod(Advanced1(s.w1.n, s.w1.pc), L);
    SlotIsMod(AdvancedC2(s.w2.n, s.w2.pc), L);
    SlotIsMod(AdvancedP2(s.w2.n, s.w2.pc), L);
    SlotIsMod(Advanced3(s.w3.n, s.w3.pc), L);
  }

  /** N and L are never written. */
  lemma StepKeepsShape(N: nat, L: nat, sched: seq<Worker>)
    requires L >= 1
    ensures var s := Run(Step, Start(N, L), sched); s.N == N && s.L == L
  {
    RunKeeps(Step, (x: State) => x.N == N && x.L == L, Start(N, L), sched);
  }

  /** Among L items in a row no two share a slot. */
  lemma SlotsApart(lo: nat, hi: nat, L: nat)
    requires L >= 1 && hi < lo + L
    ensures forall k: nat | lo <= k < hi :: Slot(k, L) != Slot(hi, L)
  {
    forall k: nat | lo <= k < hi
      ensures Slot(k, L) != Slot(hi, L)
    {
      SlotIsMod(k, L);
      SlotIsMod(hi, L);
      ModApart(k, hi, L);
    }
  }

  /** A worker about to write a cell never aims at a slot its consumer may still read. */
  ghost predicate WritesClear(s: State) {
    && (s.w1.pc.Fill1? ==> forall k: nat | Freed2(s.w2.n, s.w2.pc) <= k < s.w1.n :: Slot(k, s.L) != s.q0.ip)
    && (s.w1.pc.Fill1? && s.w2.pc.Read2? ==> s.q0.ip != s.q0.ic)
    && (s.w2.pc.Write2? || s.w2.pc.WriteStop2? ==>
          forall k: nat | s.w3.n <= k < s.w2.n :: Slot(k, s.L) != s.q1.ip)
    && ((s.w2.pc.Write2? || s.w2.pc.WriteStop2?) && s.w3.pc.Read3? ==> s.q1.ip != s.q1.ic)
  }

  lemma NoSlotOverwritten(N: nat, L: nat, sched: seq<Worker>)
    requires L >= 1
    ensures WritesClear(Run(Step, Start(N, L), sched))
  {
    RunKeepsInv(N, L, sched);
    WritesAreClear(Run(Step, Start(N, L), sched));
  }

  lemma WritesAreClear(s: State)
    requires Counts(s) && Order(s) && Rings(s)
    ensures WritesClear(s)
  {
    if s.w1.pc.Fill1? { SlotsApart(Freed2(s.w2.n, s.w2.pc), s.w1.n, s.L); }
    if s.w2.pc.Write2? || s.w2.pc.WriteStop2? { SlotsApart(s.w3.n, s.w2.n, s.L); }
  }

  function Monus(a: nat, b: nat): nat {
    if a < b then 0 else a - b
  }

  function Left1(N: nat, w: Local1): nat {
    match w.pc
    case Wait1 => 4 * Monus(N, w.n) + 3
    case Fill1 => 4 * Monus(N, w.n) + 2
    case Advance1 => 4 * Monus(N, w.n + 1) + 5
    case Post1 => 4 * Monus(N, w.n + 1) + 4
    case PostStop1 => 1
    case Done1 => 0
  }

  function Left2(N: nat, w: Local2): nat {
    match w.pc
    case WaitBusy2 => 8 * Monus(N, w.n) + 5
    case WaitFree2 => 8 * Monus(N, w.n) + 4
    case Read2 => 8 * Monus(N, w.n) + 3
    case Write2 => 8 * Monus(N, w.n + 1) + 10
    case AdvanceC2 => 8 * Monus(N, w.n + 1) + 9
    case AdvanceP2 => 8 * Monus(N, w.n + 1) + 8
    case PostFree2 => 8 * Monus(N, w.n + 1) + 7
    case PostBusy2 => 8 * Monus(N, w.n + 1) + 6
    case WriteStop2 => 2
    case PostStop2 => 1
    case Done2 => 0
  }

  function Left3(N: nat, w: Local3): nat {
    match w.pc
    case Wait3 => 4 * Monus(N, w.n) + 2
    case Read3 => 4 * Monus(N, w.n) + 1
    case Advance3 => 4 * Monus(N, w.n + 1) + 4
    case Post3 => 4 * Monus(N, w.n + 1) + 3
    case Done3 => 0
  }

  /** The moves still to come. */
  function MovesLeft(s: State): nat {
    Left1(s.N, s.w1) + Left2(s.N, s.w2) + Left3(s.N, s.w3)
  }

  lemma Counts1(s: State)
    requires Order(s) && Enabled(s, W1)
    ensures Step1(s).N == s.N && Left1(s.N, Step1(s).w1) + 1 == Left1(s.N, s.w1)
    ensures Step1(s).w2 == s.w2 && Step1(s).w3 == s.w3
  {
  }

  lemma Counts2(s: State)
    requires Order(s) && Enabled(s, W2)
    requires s.w2.pc.Read2? ==> if s.w2.n < s.w1.n then s.q0.data[s.q0.ic].c == 1
      else s.q0.data[s.q0.ic].c == -1 && s.w2.n == s.N
    ensures Step2(s).N == s.N && Left2(s.N, Step2(s).w2) + 1 == Left2(s.N, s.w2)
    ensures Step2(s).w1 == s.w1 && Step2(s).w3 == s.w3
  {
  }

  lemma Counts3(s: State)
    requires Order(s) && Enabled(s, W3)
    requires s.w3.pc.Read3? ==> if s.w3.n < s.w2.n then s.q1.data[s.q1.ic].c == 2
      else s.q1.data[s.q1.ic].c == -1 && s.w3.n == s.N
    ensures Step3(s).N == s.N && Left3(s.N, Step3(s).w3) + 1 == Left3(s.N, s.w3)
    ensures Step3(s).w1 == s.w1 && Step3(s).w2 == s.w2
  {
  }

  lemma EveryMoveCounts(s: State, w: Worker)
    requires Inv(s)
    ensures MovesLeft(Step(s, w)) + (if Enabled(s, w) then 1 else 0) == MovesLeft(s)
  {
    if Enabled(s, w) {
      match w
      case W1 => Counts1(s);
      case W2 =>
        if s.w2.pc.Read2? { Finds2(s); }
        Counts2(s);
      case W3 =>
        if s.w3.pc.Read3? { Finds3(s); }
        Counts3(s);
    }
  }

  lemma NoMovesLeftAtEnd(s: State)
    requires Order(s)
    ensures Finished(s) <==> MovesLeft(s) == 0
  {
  }

  lemma SomeWorkerCanMove(s: State)
    requires Inv(s) && !Finished(s)
    ensures Enabled(s, W1) || Enabled(s, W2) || Enabled(s, W3)
  {
  }

  lemma MovesCounted(N: nat, L: nat, sched: seq<Worker>)
    requires L >= 1
    ensures var s := Run(Step, Start(N, L), sched);
      Inv(s) && MovesLeft(s) + Moves(Step, Enabled, Start(N, L), sched) == 16 * N + 10
  {
    forall x: State, w | Inv(x)
      ensures Inv(Step(x, w)) && MovesLeft(Step(x, w)) + (if Enabled(x, w) then 1 else 0) == MovesLeft(x)
    {
      StepKeepsInv(x, w);
      EveryMoveCounts(x, w);
    }
    MovesExact(Step, Enabled, Inv, MovesLeft, Start(N, L), sched);
  }

  /** No interleaving deadlocks, and the workers have all returned exactly when 16N + 10 moves have been
      made: no schedule makes more, and one that has made fewer still has a worker that can move. */
  lemma PipelineEnds(N: nat, L: nat, sched: seq<Worker>)
    requires L >= 1
    ensures var s := Run(Step, Start(N, L), sched);
      var moves := Moves(Step, Enabled, Start(N, L), sched);
      && moves <= 16 * N + 10
      && (Finished(s) <==> moves == 16 * N + 10)
      && (!Finished(s) ==> exists w :: Enabled(s, w))
  {
    MovesCounted(N, L, sched);
    var s := Run(Step, Start(N, L), sched);
    NoMovesLeftAtEnd(s);
    if !Finished(s) { SomeWorkerCanMove(s); }
  }

  // ----- The program itself -----

  /** queue_t. */
  class RingQueue {
    const data: array<Cell>
    var free: nat
    var busy: nat
    var ip: nat
    var ic: nat

    constructor (L: nat)
      ensures fresh(data) && View() == EmptyQueue(L)
    {
      data := new Cell[L](_ => Cell(0, -1));
      free, busy, ip, ic := L, 0, 0, 0;
    }

    ghost function View(): Queue
      reads this, data
    {
      Queue(data[..], free, busy, ip, ic)
    }
  }

  /** The shared queues and the three threads. */
  class Threads {
    const N: nat
    const L: nat
    const q0: RingQueue
    const q1: RingQueue
    var w1: Local1
    var w2: Local2
    var w3: Local3

    ghost predicate Valid()
      reads this, q0, q1, q0.data, q1.data
    {
      && L >= 1 && q0 != q1 && q0.data != q1.data
      && Shaped(q0.View(), L) && Shaped(q1.View(), L)
    }

    ghost function View(): State
      requires Valid()
      reads this, q0, q1, q0.data, q1.data
    {
      Config(N, L, q0.View(), q1.View(), w1, w2, w3)
    }

    constructor (N: nat, L: nat)
      requires L >= 1
      ensures Valid() && View() == Start(N, L)
      ensures fresh(q0) && fresh(q0.data) && fresh(q1) && fresh(q1.data)
    {
      this.N, this.L := N, L;
      q0 := new RingQueue(L);
      q1 := new RingQueue(L);
      w1 := Local1(Wait1, 0);
      w2 := Local2(WaitBusy2, 0, Cell(0, -1));
      w3 := Local3(Wait3, 0, []);
    }

    /** The next step of worker_1. */
    method Worker1()
      requires Valid()
      modifies this`w1, q0, q0.data
      ensures Valid() && View() == Step(old(View()), W1)
    {
      match w1.pc
      case Wait1 =>
        if q0.free > 0 {
          q0.free, w1 := q0.free - 1, w1.(pc := Fill1);
        }
      case Fill1 =>
        if w1.n >= N {
          q0.data[q0.ip] := Cell(-1, -1);
          w1 := w1.(pc := PostStop1);
        } else {
          q0.data[q0.ip] := DoAction(Cell(0, w1.n));
          w1 := w1.(pc := Advance1);
        }
      case Advance1 =>
        NextIsMod(q0.ip, L);
        q0.ip, w1 := (q0.ip + 1) % L, w1.(pc := Post1);
      case Post1 => q0.busy, w1 := q0.busy + 1, w1.(n := w1.n + 1, pc := Wait1);
      case PostStop1 => q0.busy, w1 := q0.busy + 1, w1.(pc := Done1);
      case Done1 =>
    }

    /** The next step of worker_2. */
    method Worker2()
      requires Valid()
      modifies this`w2, q0, q1, q1.data
      ensures Valid() && View() == Step(old(View()), W2)
    {
      match w2.pc
      case WaitBusy2 =>
        if q0.busy > 0 {
          q0.busy, w2 := q0.busy - 1, w2.(pc := WaitFree2);
        }
      case WaitFree2 =>
        if q1.free > 0 {
          q1.free, w2 := q1.free - 1, w2.(pc := Read2);
        }
      case Read2 =>
        var c := q0.data[q0.ic];
        w2 := if c.c < 0 then w2.(c := c, pc := WriteStop2) else w2.(c := DoAction(c), pc := Write2);
      case Write2 =>
        q1.data[q1.ip] := w2.c;
        w2 := w2.(pc := AdvanceC2);
      case AdvanceC2 =>
        NextIsMod(q0.ic, L);
        q0.ic, w2 := (q0.ic + 1) % L, w2.(pc := AdvanceP2);
      case AdvanceP2 =>
        NextIsMod(q1.ip, L);
        q1.ip, w2 := (q1.ip + 1) % L, w2.(pc := PostFree2);
      case PostFree2 => q0.free, w2 := q0.free + 1, w2.(pc := PostBusy2);
      case PostBusy2 => q1.busy, w2 := q1.busy + 1, w2.(n := w2.n + 1, pc := WaitBusy2);
      case WriteStop2 =>
        q1.data[q1.ip] := w2.c;
        w2 := w2.(pc := PostStop2);
      case PostStop2 => q1.busy, w2 := q1.busy + 1, w2.(pc := Done2);
      case Done2 =>
    }

    /** The next step of worker_3. */
    method Worker3()
      requires Valid()
      modifies this`w3, q1
      ensures Valid() && View() == Step(old(View()), W3)
    {
      match w3.pc
      case Wait3 =>
        if q1.busy > 0 {
          q1.busy, w3 := q1.busy - 1, w3.(pc := Read3);
        }
      case Read3 =>
        var c := q1.data[q1.ic];
        w3 := if c.c < 0 then w3.(pc := Done3) else w3.(out := w3.out + [DoAction(c)], pc := Advance3);
      case Advance3 =>
        NextIsMod(q1.ic, L);
        q1.ic, w3 := (q1.ic + 1) % L, w3.(pc := Post3);
      case Post3 => q1.free, w3 := q1.free + 1, w3.(n := w3.n + 1, pc := Wait3);
      case Done3 =>
    }

    /** The threads under a scheduler that picks the next worker from sched. */
    method Execute(sched: seq<Worker>)
      requires Valid()
      modifies this`w1, this`w2, this`w3, q0, q0.data, q1, q1.data
      ensures Valid() && View() == Run(Step, old(View()), sched)
    {
      for k := 0 to |sched|
        invariant Valid() && View() == Run(Step, old(View()), sched[..k])
      {
        RunAppend(Step, old(View()), sched[..k], sched[k]);
        assert sched[..k] + [sched[k]] == sched[..k + 1];
        match sched[k]
        case W1 => Worker1();
        case W2 => Worker2();
        case W3 => Worker3();
      }
      assert sched[..|sched|] == sched;
    }
  }

  /** main: set up the queues, run the workers under sched; all joins return once all workers have. */
  method RunProgram(N: nat, L: nat, sched: seq<Worker>) returns (out: seq<Cell>, joined: bool)
    requires L >= 1
    ensures out <= ThroughAllStages(Source(N))
    ensures joined <==> Moves(Step, Enabled, Start(N, L), sched) == 16 * N + 10
    ensures joined ==> out == ThroughAllStages(Source(N))
  {
    var threads := new Threads(N, L);
    threads.Execute(sched);
    PipelineDelivers(N, L, sched);
    PipelineEnds(N, L, sched);
    out := threads.w3.out;
    joined := threads.w1.pc.Done1? && threads.w2.pc.Done2? && threads.w3.pc.Done3?;
  }
}
