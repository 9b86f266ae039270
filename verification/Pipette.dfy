/** The chunked block transfer over a bounded pipe of src/pipette.c.

The producer writes count blocks of size bytes, block i filled with the byte i; the
consumer reads them back. Both go through do_transfer, which asks for at most PAGE_SIZE
bytes at a time and accepts any part of that. A write is blocked while the pipe is full,
a read while it is empty; otherwise it moves any number of bytes from one up to what was
asked for and fits.
*/
module Pipette {
  import opened Runs
  import opened Arith
  import opened CInts

  const PAGE_SIZE: nat := 4096

  /** The loop counter of producer or consumer and the len of its do_transfer. */
  datatype Cursor = Cursor(i: nat, len: nat)

  /** blocks is history: what the consumer's buffer held after each of its transfers. */
  datatype Config = Config(
    size: nat, count: nat, cap: nat, prod: Cursor, pipe: seq<int>, cons: Cursor, buf: seq<int>, blocks: seq<seq<int>>)

  type State = s: Config | s.size >= 1 && s.prod.len < s.size && s.cons.len < s.size && |s.buf| == s.size
    witness Config(1, 0, 1, Cursor(0, 0), [], Cursor(0, 0), [0], [])

  datatype Action = Write(k: nat) | Read(k: nat)

  function Start(size: nat, count: nat, cap: nat): State
    requires size >= 1
  {
    Config(size, count, cap, Cursor(0, 0), [], Cursor(0, 0), seq(size, _ => 0), [])
  }

  /** What do_transfer asks for with len of size bytes done. */
  function Chunk(len: nat, size: nat): (c: nat)
    requires len < size
    ensures 1 <= c <= 4096 && len + c <= size && (c == 4096 || len + c == size)
  {
    if size - len < PAGE_SIZE then size - len else PAGE_SIZE
  }

  predicate Enabled(s: State, a: Action) {
    match a
    case Write(k) => s.prod.i < s.count && 1 <= k <= Chunk(s.prod.len, s.size) && |s.pipe| + k <= s.cap
    case Read(k) => s.cons.i < s.count && 1 <= k <= Chunk(s.cons.len, s.size) && k <= |s.pipe|
  }

  function Advance(c: Cursor, k: nat, size: nat): Cursor {
    if c.len + k == size then Cursor(c.i + 1, 0) else c.(len := c.len + k)
  }

  function Step(s: State, a: Action): State {
    if !Enabled(s, a) then s
    else match a
      case Write(k) =>
        s.(pipe := s.pipe + seq(k, _ => ToChar(s.prod.i)), prod := Advance(s.prod, k, s.size))
      case Read(k) =>
        var buf := s.buf[..s.cons.len] + s.pipe[..k] + s.buf[s.cons.len + k..];
        s.(pipe := s.pipe[k..], cons := Advance(s.cons, k, s.size), buf := buf,
           blocks := if s.cons.len + k == s.size then s.blocks + [buf] else s.blocks)
  }

  predicate Finished(s: State) {
    s.prod.i == s.count && s.cons.i == s.count
  }

  // ----- Invariant -----

  function Position(c: Cursor, size: nat): nat {
    c.i * size + c.len
  }

  /** The byte at a position of the whole stream. */
  function ByteAt(x: nat, size: nat): int
    requires size >= 1
  {
    ToChar(x / size)
  }

  function Block(i: nat, size: nat): seq<int> {
    seq(size, _ => ToChar(i))
  }

  ghost predicate Inv(s: State) {
    && s.prod.i <= s.count && (s.prod.i == s.count ==> s.prod.len == 0)
    && s.cons.i <= s.count && (s.cons.i == s.count ==> s.cons.len == 0)
    && Position(s.cons, s.size) + |s.pipe| == Position(s.prod, s.size)
    && |s.pipe| <= s.cap
    && (forall x | 0 <= x < |s.pipe| :: s.pipe[x] == ByteAt(Position(s.cons, s.size) + x, s.size))
    && (forall x | 0 <= x < s.cons.len :: s.buf[x] == ToChar(s.cons.i))
    && |s.blocks| == s.cons.i
    && (forall b | 0 <= b < s.cons.i :: s.blocks[b] == Block(b, s.size))
  }

  lemma BytesOfBlock(i: nat, len: nat, size: nat)
    requires len < size
    ensures ByteAt(i * size + len, size) == ToChar(i)
  {
    DivModUnique(i * size + len, size, i, len);
  }

  lemma AdvanceMoves(c: Cursor, k: nat, size: nat)
    requires c.len + k <= size
    ensures Position(Advance(c, k, size), size) == Position(c, size) + k
  {
    assert (c.i + 1) * size == c.i * size + size;
  }

  lemma WriteKeepsInv(s: State, k: nat)
    requires Inv(s) && Enabled(s, Write(k))
    ensures Inv(Step(s, Write(k)))
  {
    var t := Step(s, Write(k));
    AdvanceMoves(s.prod, k, s.size);
    forall x | 0 <= x < |t.pipe|
      ensures t.pipe[x] == ByteAt(Position(t.cons, t.size) + x, t.size)
    {
      if x >= |s.pipe| { BytesOfBlock(s.prod.i, s.prod.len + (x - |s.pipe|), s.size); }
    }
  }

  lemma ReadKeepsInv(s: State, k: nat)
    requires Inv(s) && Enabled(s, Read(k))
    ensures Inv(Step(s, Read(k)))
  {
    var t := Step(s, Read(k));
    AdvanceMoves(s.cons, k, s.size);
    forall x | 0 <= x < s.cons.len + k
      ensures t.buf[x] == ToChar(s.cons.i)
    {
      if x >= s.cons.len {
        assert t.buf[x] == s.pipe[x - s.cons.len];
        BytesOfBlock(s.cons.i, x, s.size);
      }
    }
    forall x | 0 <= x < |t.pipe|
      ensures t.pipe[x] == ByteAt(Position(t.cons, t.size) + x, t.size)
    {
      assert t.pipe[x] == s.pipe[k + x];
    }
    if s.cons.len + k == s.size { assert t.buf == Block(s.cons.i, s.size); }
  }

  lemma StepKeepsInv(s: State, a: Action)
    requires Inv(s)
    ensures Inv(Step(s, a))
  {
    if Enabled(s, a) {
      match a
      case Write(k) => WriteKeepsInv(s, k);
      case Read(k) => ReadKeepsInv(s, k);
    }
  }

  // ----- Main results -----

  lemma RunKeepsInv(size: nat, count: nat, cap: nat, sched: seq<Action>)
    requires size >= 1
    ensures var s := Run(Step, Start(size, count, cap), sched);
      Inv(s) && s.size == size && s.count == count && s.cap == cap
  {
    forall x: State, a | Inv(x) ensures Inv(Step(x, a)) { StepKeepsInv(x, a); }
    RunKeeps(Step, (x: State) => Inv(x) && x.size == size && x.count == count && x.cap == cap,
             Start(size, count, cap), sched);
  }

  /** However the transfers are cut up and interleaved, block b arrives as block b was sent. */
  lemma BlocksArriveIntact(size: nat, count: nat, cap: nat, sched: seq<Action>)
    requires size >= 1
    ensures var s := Run(Step, Start(size, count, cap), sched);
      && |s.blocks| == s.cons.i <= count
      && (forall b | 0 <= b < |s.blocks| :: s.blocks[b] == seq(size, _ => ToChar(b)))
      && (Finished(s) ==> |s.blocks| == count && s.pipe == [])
  {
    RunKeepsInv(size, count, cap, sched);
  }

  /** Moves still possible: each moves one byte at least. */
  function BytesLeft(s: State): nat {
    var all := 2 * (s.count * s.size);
    var done := Position(s.prod, s.size) + Position(s.cons, s.size);
    if done <= all then all - done else 0
  }

  lemma BeforeEnd(c: Cursor, size: nat, count: nat)
    requires c.len < size && c.i <= count && (c.i == count ==> c.len == 0)
    ensures Position(c, size) <= count * size
    ensures c.i < count ==> Position(c, size) + (size - c.len) <= count * size
  {
    if c.i < count {
      assert (c.i + 1) * size <= count * size by { MulBounds(size, count - (c.i + 1)); }
      assert (c.i + 1) * size == c.i * size + size;
    }
  }

  lemma MovesLowerBytes(s: State, a: Action)
    requires Inv(s)
    ensures BytesLeft(Step(s, a)) + (if Enabled(s, a) then 1 else 0) <= BytesLeft(s)
  {
    if Enabled(s, a) {
      BeforeEnd(s.prod, s.size, s.count);
      BeforeEnd(s.cons, s.size, s.count);
      match a
      case Write(k) => AdvanceMoves(s.prod, k, s.size);
      case Read(k) => AdvanceMoves(s.cons, k, s.size);
    }
  }

  lemma SomeSideMoves(s: State)
    requires Inv(s) && s.cap >= 1
    ensures !Finished(s) ==> Enabled(s, Write(1)) || Enabled(s, Read(1))
    ensures s.cons.i < s.count && s.pipe == [] ==> s.prod.i < s.count
  {
    BeforeEnd(s.cons, s.size, s.count);
    BeforeEnd(s.prod, s.size, s.count);
    var p, c, all := Position(s.prod, s.size), Position(s.cons, s.size), s.count * s.size;
    assert (s.prod.i == s.count ==> p == all) && (s.cons.i == s.count ==> c == all);
    BlockedMeansFinished(s, p, c, all);
  }

  lemma BlockedMeansFinished(s: State, p: nat, c: nat, all: nat)
    requires c + |s.pipe| == p <= all && |s.pipe| <= s.cap && s.cap >= 1
    requires s.prod.i <= s.count && s.cons.i <= s.count
    requires (s.prod.i == s.count ==> p == all) && (if s.cons.i == s.count then c == all else c < all)
    ensures !Finished(s) ==> Enabled(s, Write(1)) || Enabled(s, Read(1))
    ensures s.cons.i < s.count && s.pipe == [] ==> s.prod.i < s.count
  {
  }

  /** Over a pipe of any capacity the two sides never block together, the consumer never has bytes to ask
      for when the producer is through and the pipe is empty, and a run has at most as many moves as
      bytes go in and out. */
  lemma TransferCompletes(size: nat, count: nat, cap: nat, sched: seq<Action>)
    requires size >= 1 && cap >= 1
    ensures var s := Run(Step, Start(size, count, cap), sched);
      && (!Finished(s) ==> Enabled(s, Write(1)) || Enabled(s, Read(1)))
      && (s.cons.i < count && s.pipe == [] ==> s.prod.i < count)
      && Moves(Step, Enabled, Start(size, count, cap), sched) <= 2 * (count * size)
  {
    forall x: State, a | Inv(x)
      ensures Inv(Step(x, a)) && BytesLeft(Step(x, a)) + (if Enabled(x, a) then 1 else 0) <= BytesLeft(x)
    {
      StepKeepsInv(x, a);
      MovesLowerBytes(x, a);
    }
    MovesBounded(Step, Enabled, Inv, BytesLeft, Start(size, count, cap), sched);
    RunKeepsInv(size, count, cap, sched);
    SomeSideMoves(Run(Step, Start(size, count, cap), sched));
  }

  // ----- Full requests -----

  /** The requests that size bytes take at least: size / 4096, rounded up. */
  function Pages(size: nat): nat {
    (size + 4095) / 4096
  }

  /** Both sides are at the same place, with the pipe empty and room for a request. */
  ghost predicate InStep(s: State) {
    && s.prod == s.cons && s.pipe == [] && s.prod.len % 4096 == 0
    && s.prod.i <= s.count && (s.prod.i == s.count ==> s.prod.len == 0)
    && (s.cap >= 4096 || s.cap >= s.size)
  }

  /** A request of the producer that is met in full, and the same of the consumer. */
  lemma OneRequest(s: State) returns (c: nat)
    requires InStep(s) && s.prod.i < s.count
    ensures c == if s.size - s.prod.len < 4096 then s.size - s.prod.len else 4096
    ensures var t := Step(Step(s, Write(c)), Read(c));
      && InStep(t) && t.prod == Advance(s.prod, c, s.size)
      && t.size == s.size && t.count == s.count && t.cap == s.cap
  {
    c := Chunk(s.prod.len, s.size);
  }

  lemma TwoMoves(s: State, a: Action, b: Action, rest: seq<Action>)
    ensures Run(Step, s, [a, b] + rest) == Run(Step, Step(Step(s, a), b), rest)
  {
    var sched := [a, b] + rest;
    RunHead(Step, s, sched);
    RunHead(Step, Step(s, a), sched[1..]);
    assert sched[1..][1..] == rest;
  }

  function PagesLeft(c: Cursor, size: nat, count: nat): int {
    (count - c.i) * Pages(size) - c.len / 4096
  }

  lemma OnePageLess(c: Cursor, k: nat, size: nat, count: nat)
    requires c.len < size && c.len % 4096 == 0
    requires k == if size - c.len < 4096 then size - c.len else 4096
    ensures PagesLeft(Advance(c, k, size), size, count) + 1 == PagesLeft(c, size, count)
  {
    if c.len + k == size {
      assert Pages(size) == c.len / 4096 + 1;
      assert (count - c.i) * Pages(size) == (count - (c.i + 1)) * Pages(size) + Pages(size);
    } else {
      assert (c.len + 4096) / 4096 == c.len / 4096 + 1;
    }
  }

  /** From there all blocks can go through in as few requests as there are pages. */
  lemma RestInPages(s: State) returns (sched: seq<Action>)
    requires InStep(s)
    ensures Finished(Run(Step, s, sched))
    ensures |sched| == 2 * PagesLeft(s.prod, s.size, s.count)
    decreases s.count - s.prod.i, s.size - s.prod.len
  {
    if s.prod.i == s.count {
      sched := [];
    } else {
      var c := OneRequest(s);
      OnePageLess(s.prod, c, s.size, s.count);
      var rest := RestInPages(Step(Step(s, Write(c)), Read(c)));
      sched := [Write(c), Read(c)] + rest;
      TwoMoves(s, Write(c), Read(c), rest);
    }
  }

  /** Over a pipe that holds a request, all blocks can go through with one write and one read a page. */
  lemma PagesSuffice(size: nat, count: nat, cap: nat)
    requires size >= 1 && (cap >= 4096 || cap >= size)
    ensures exists sched: seq<Action> ::
      Finished(Run(Step, Start(size, count, cap), sched)) && |sched| == 2 * (count * ((size + 4095) / 4096))
  {
    var sched := RestInPages(Start(size, count, cap));
  }

  // ----- The code itself -----

  /** A call of read or write: offset in the buffer, bytes asked for, return value. */
  datatype Call = Call(off: nat, chunk: nat, got: int)

  /** The calls are made one after the other at the offset reached so far, each for at most PAGE_SIZE
      bytes and for no more than is missing; the offset after them is at. */
  ghost predicate Contiguous(calls: seq<Call>, size: nat, at: nat)
    decreases |calls|
  {
    if calls == [] then at == 0
    else
      var last := calls[|calls| - 1];
      && last.got >= 0 && at == last.off + last.got && last.off < size && last.chunk == Chunk(last.off, size)
      && last.got <= last.chunk && Contiguous(calls[..|calls| - 1], size, last.off)
  }

  /** do_transfer, with f(n, c) for what call number n returns when asked for c bytes. A call may return 0,
      but not all calls from some point on: patience bounds how often it does so in a row. */
  method DoTransfer(f: (nat, nat) -> int, size: int, ghost patience: nat -> nat) returns (ret: int, calls: seq<Call>)
    requires forall n: nat, c: nat | 1 <= c <= PAGE_SIZE ::
      f(n, c) <= c && (f(n, c) == 0 ==> patience(n + 1) < patience(n))
    ensures ret == -1 || ret == if size < 0 then 0 else size
    ensures ret != -1 ==> Contiguous(calls, if size < 0 then 0 else size, ret)
    ensures ret == -1 ==>
      && |calls| >= 1 && size >= 1
      && var last := calls[|calls| - 1];
         && last.got < 0 && last.off < size && last.chunk == Chunk(last.off, size)
         && Contiguous(calls[..|calls| - 1], size, last.off)
    ensures forall n | 0 <= n < |calls| :: calls[n].got == f(n, calls[n].chunk)
    ensures forall n | 0 <= n < |calls| :: RequestFits(calls[n], size)
  {
    calls := [];
    var len := 0;
    while len < size
      invariant 0 <= len && len <= (if size < 0 then 0 else size)
      invariant Contiguous(calls, if size < 0 then 0 else size, len)
      invariant forall n | 0 <= n < |calls| :: calls[n].got == f(n, calls[n].chunk)
      decreases size - len, patience(|calls|)
    {
      var chunk := PAGE_SIZE;
      if size - len < PAGE_SIZE {
        chunk := size - len;
      }
      ret := f(|calls|, chunk);
      ghost var before := calls;
      calls := calls + [Call(len, chunk, ret)];
      assert calls[..|calls| - 1] == before;
      if ret < 0 {
        RequestsFit(before, size, len);
        return -1, calls;
      }
      len := len + ret;
    }
    ret := len;
    RequestsFit(calls, if size < 0 then 0 else size, ret);
  }

  /** A request is for a page, or for all that is missing. */
  predicate RequestFits(call: Call, size: int) {
    && 1 <= call.chunk <= 4096 && call.off + call.chunk <= size
    && (call.chunk == 4096 || call.off + call.chunk == size)
  }

  lemma {:induction false} RequestsFit(calls: seq<Call>, size: nat, at: nat)
    requires Contiguous(calls, size, at)
    ensures forall n | 0 <= n < |calls| :: RequestFits(calls[n], size)
    decreases |calls|
  {
    if calls != [] { RequestsFit(calls[..|calls| - 1], size, calls[|calls| - 1].off); }
  }

  ghost predicate AllMet(calls: seq<Call>) {
    forall n | 0 <= n < |calls| :: calls[n].got == calls[n].chunk
  }

  lemma {:induction false} OffsetAfter(calls: seq<Call>, size: nat, at: nat)
    requires Contiguous(calls, size, at)
    ensures at <= 4096 * |calls|
    ensures AllMet(calls) ==>
      at <= size && (at < size ==> at == 4096 * |calls|) && (calls != [] ==> at > 4096 * (|calls| - 1))
    decreases |calls|
  {
    if calls != [] { OffsetAfter(calls[..|calls| - 1], size, calls[|calls| - 1].off); }
  }

  /** A complete transfer makes a call a page at least, and exactly that many if each is met in full. */
  lemma CallsOfTransfer(calls: seq<Call>, size: nat)
    requires Contiguous(calls, size, size)
    ensures |calls| >= (size + 4095) / 4096
    ensures AllMet(calls) ==> |calls| == (size + 4095) / 4096
  {
    OffsetAfter(calls, size, size);
  }

  function Total(block: seq<int>): int {
    if block == [] then 0 else Total(block[..|block| - 1]) + block[|block| - 1]
  }

  /** The summing loop of the consumer. */
  method SumBlock(buf: array<int>) returns (sum: int)
    ensures sum == Total(buf[..])
  {
    sum := 0;
    for j := 0 to buf.Length
      invariant sum == Total(buf[..j])
    {
      assert buf[..j + 1][..j] == buf[..j];
      sum := sum + buf[j];
    }
    assert buf[..buf.Length] == buf[..];
  }

  lemma {:induction false} TotalOfBlock(i: nat, size: nat)
    ensures Total(Block(i, size)) == size * ToChar(i)
  {
    if size > 0 {
      TotalOfBlock(i, size - 1);
      assert Block(i, size)[..size - 1] == Block(i, size - 1);
    }
  }

  /** However the transfers are cut up and interleaved, the bytes of block b add up to its size times the
      char b, which is the sum the consumer expects exactly for the first 128 blocks. */
  lemma SumsArriveIntact(size: nat, count: nat, cap: nat, sched: seq<Action>, b: nat)
    requires size >= 1
    ensures var s := Run(Step, Start(size, count, cap), sched);
      b < |s.blocks| ==> Total(s.blocks[b]) == size * ToChar(b) && (Total(s.blocks[b]) == b * size <==> b < 128)
  {
    BlocksArriveIntact(size, count, cap, sched);
    TotalOfBlock(b, size);
    ExpectedSumIff(b, size);
  }

  /** The sum the consumer prints for block i is the one it expects exactly for the first 128 blocks. */
  lemma ExpectedSumIff(i: nat, size: nat)
    requires size >= 1
    ensures size * ToChar(i) == i * size <==> i < 128
  {
    var gap := i - ToChar(i);
    assert i * size - size * ToChar(i) == size * gap;
    MulBounds(size, gap);
  }

  /** Both processes and the pipe between them. */
  class Processes {
    const size: nat
    const count: nat
    const cap: nat
    const out: array<int>
    const buf: array<int>
    var pipe: seq<int>
    var prod: Cursor
    var cons: Cursor
    var sums: seq<int>
    ghost var blocks: seq<seq<int>>

    /** The consumer has summed every block it got. */
    ghost predicate Valid()
      reads this, out
    {
      && size >= 1 && out.Length == size && buf.Length == size && out != buf
      && prod.len < size && cons.len < size
      && (prod.i < count ==> forall x | 0 <= x < size :: out[x] == ToChar(prod.i))
      && |sums| == |blocks| && forall b | 0 <= b < |sums| :: sums[b] == Total(blocks[b])
    }

    ghost function View(): State
      requires Valid()
      reads this, out, buf
    {
      Config(size, count, cap, prod, pipe, cons, buf[..], blocks)
    }

    constructor (size: nat, count: nat, cap: nat)
      requires size >= 1
      ensures Valid() && View() == Start(size, count, cap) && fresh(out) && fresh(buf)
    {
      this.size, this.count, this.cap := size, count, cap;
      out := new int[size](_ => 0);
      buf := new int[size](_ => 0);
      pipe, sums, blocks := [], [], [];
      prod, cons := Cursor(0, 0), Cursor(0, 0);
    }

    /** memset of the producer's buffer. */
    method Fill(v: int)
      requires out.Length == size
      modifies out
      ensures forall x | 0 <= x < size :: out[x] == ToChar(v)
    {
      for x := 0 to size
        invariant forall y | 0 <= y < x :: out[y] == ToChar(v)
      {
        out[x] := ToChar(v);
      }
    }

    /** A write that moves k bytes, if it can. */
    method Produce(k: nat)
      requires Valid()
      modifies this`pipe, this`prod, out
      ensures Valid() && View() == Step(old(View()), Write(k))
    {
      if prod.i < count && 1 <= k <= Chunk(prod.len, size) && |pipe| + k <= cap {
        var v := ToChar(prod.i);
        assert out[prod.len..prod.len + k] == seq(k, _ => v);
        pipe := pipe + out[prod.len..prod.len + k];
        prod := Advance(prod, k, size);
        if prod.len == 0 && prod.i < count {
          Fill(prod.i);
        }
      }
    }

    /** Bytes put into the consumer's buffer at an offset. */
    method Copy(off: nat, bytes: seq<int>)
      requires off + |bytes| <= buf.Length
      modifies buf
      ensures buf[..] == old(buf[..off]) + bytes + old(buf[off + |bytes|..])
    {
      for x := 0 to |bytes|
        invariant forall y | 0 <= y < x :: buf[off + y] == bytes[y]
        invariant forall y | 0 <= y < buf.Length && !(off <= y < off + x) :: buf[y] == old(buf[y])
      {
        buf[off + x] := bytes[x];
      }
    }

    /** A read that moves k bytes, if it can. */
    method Consume(k: nat)
      requires Valid()
      modifies this`pipe, this`cons, this`sums, this`blocks, buf
      ensures Valid() && View() == Step(old(View()), Read(k))
    {
      if cons.i < count && 1 <= k <= Chunk(cons.len, size) && k <= |pipe| {
        Copy(cons.len, pipe[..k]);
        if cons.len + k == size {
          var sum := SumBlock(buf);
          sums := sums + [sum];
          blocks := blocks + [buf[..]];
        }
        pipe := pipe[k..];
        cons := Advance(cons, k, size);
      }
    }

    /** Both processes under a scheduler that says who moves next and how many bytes go through. */
    method Execute(sched: seq<Action>)
      requires Valid()
      modifies this, out, buf
      ensures Valid() && View() == Run(Step, old(View()), sched)
    {
      for k := 0 to |sched|
        invariant Valid() && View() == Run(Step, old(View()), sched[..k])
      {
        RunAppend(Step, old(View()), sched[..k], sched[k]);
        assert sched[..k] + [sched[k]] == sched[..k + 1];
        match sched[k]
        case Write(n) => Produce(n);
        case Read(n) => Consume(n);
      }
      assert sched[..|sched|] == sched;
    }
  }

  /** The two processes from their start on: the sum computed for block b is its size times the char b, under
      every schedule, and all blocks have been summed when both are through. */
  method RunProgram(size: nat, count: nat, cap: nat, sched: seq<Action>) returns (sums: seq<int>, done: bool)
    requires size >= 1
    ensures |sums| <= count && forall b | 0 <= b < |sums| :: sums[b] == size * ToChar(b)
    ensures done == Finished(Run(Step, Start(size, count, cap), sched))
    ensures done ==> |sums| == count
  {
    var p := new Processes(size, count, cap);
    p.Execute(sched);
    BlocksArriveIntact(size, count, cap, sched);
    sums, done := p.sums, p.prod.i == count && p.cons.i == count;
    forall b | 0 <= b < |sums| ensures sums[b] == size * ToChar(b) {
      SumsArriveIntact(size, count, cap, sched, b);
    }
  }
}
