/**
  CpuMemoryPoolImpl: a growing list of memory blocks, tried in order.
  The address range of a new block comes from the raw allocator: it is fresh, that is,
  disjoint from every block of the pool.
*/
module MemoryPools {
  import opened MemoryBlocks
  import opened MemoryConservation
  import opened WrittenAllocator
  import opened Wrappers

  datatype Pool = Pool(initial: nat, blocks: seq<Block>)

  // The first block from i on that can serve the request.
  function FirstFit(form: Form, p: Pool, i: nat, size: nat, elem: nat): (r: nat)
    requires i <= |p.blocks|
    ensures i <= r <= |p.blocks|
    ensures r < |p.blocks| ==> Choose(form, p.blocks[r], size, elem).Some?
    ensures forall j :: i <= j < r ==> Choose(form, p.blocks[j], size, elem).None?
    decreases |p.blocks| - i
  {
    if i == |p.blocks| || Choose(form, p.blocks[i], size, elem).Some? then i
    else FirstFit(form, p, i + 1, size, elem)
  }

  function GrowthSize(p: Pool, size: nat): nat { if p.initial / 2 > size then p.initial / 2 else size }

  function NewBlock(p: Pool, size: nat, address: nat): Block { Block(address, address + GrowthSize(p, size), []) }

  // The pool extended by a block for this request, if no block can serve it.
  function Grown(form: Form, p: Pool, size: nat, elem: nat, address: nat): Pool {
    if FirstFit(form, p, 0, size, elem) == |p.blocks| then p.(blocks := p.blocks + [NewBlock(p, size, address)]) else p
  }

  function PoolAllocated(form: Form, p: Pool, size: nat, elem: nat, address: nat): Pool {
    var i := FirstFit(form, p, 0, size, elem);
    var g := Grown(form, p, size, elem, address);
    g.(blocks := g.blocks[i := Allocated(form, g.blocks[i], size, elem)])
  }

  function PoolChoice(form: Form, p: Pool, size: nat, elem: nat, address: nat): Option<nat> {
    var i := FirstFit(form, p, 0, size, elem);
    match Choose(form, Grown(form, p, size, elem, address).blocks[i], size, elem)
    case Some(c) => Some(c.start)
    case None => None
  }

  // The first block from i on whose half-open address range holds ptr.
  function Owner(p: Pool, i: nat, ptr: nat): (r: nat)
    requires i <= |p.blocks|
    ensures i <= r <= |p.blocks|
    ensures r < |p.blocks| ==> p.blocks[r].begin <= ptr < p.blocks[r].end
    ensures forall j :: i <= j < r ==> !(p.blocks[j].begin <= ptr < p.blocks[j].end)
    decreases |p.blocks| - i
  {
    if i == |p.blocks| || p.blocks[i].begin <= ptr < p.blocks[i].end then i else Owner(p, i + 1, ptr)
  }

  function PoolFreed(p: Pool, ptr: nat): Pool {
    var i := Owner(p, 0, ptr);
    if i == |p.blocks| then p else p.(blocks := p.blocks[i := Freed(p.blocks[i], ptr)])
  }

  class CpuMemoryPool {
    const form: Form
    const initial: nat
    var blocks: seq<MemoryBlock>

    ghost predicate Valid()
      reads this, blocks
    {
      && (forall i :: 0 <= i < |blocks| ==> blocks[i].form == form)
      && (forall i, j :: 0 <= i < j < |blocks| ==> blocks[i] != blocks[j])
    }

    function Value(): Pool
      reads this, blocks
    {
      Pool(initial, seq(|blocks|, i requires 0 <= i < |blocks| reads this, blocks => blocks[i].Value()))
    }

    constructor (form: Form, initial: nat, address: nat)
      ensures Valid() && fresh(blocks)
      ensures Value() == Pool(initial, [Block(address, address + initial, [])])
    {
      this.form, this.initial := form, initial;
      var first := new MemoryBlock(form, address, initial);
      blocks := [first];
    }

    // The source's first loop: every block in turn until one serves the request.
    method TryBlocks(total: nat, elemSize: nat) returns (ptr: Option<nat>)
      requires Valid()
      modifies blocks
      ensures Valid()
      ensures var p, i := old(Value()), FirstFit(form, old(Value()), 0, total, elemSize);
        if i == |p.blocks| then ptr.None? && Value() == p
        else
          && Choose(form, p.blocks[i], total, elemSize).Some?
          && ptr == Some(Choose(form, p.blocks[i], total, elemSize).value.start)
          && Value() == p.(blocks := p.blocks[i := Allocated(form, p.blocks[i], total, elemSize)])
      ensures ptr.None? <==> forall b :: b in old(Value()).blocks ==> Choose(form, b, total, elemSize).None?
    {
      ghost var p := Value();
      for i := 0 to |blocks|
        invariant Valid() && Value() == p
        invariant FirstFit(form, p, 0, total, elemSize) == FirstFit(form, p, i, total, elemSize)
      {
        assert p.blocks[i] == blocks[i].Value();
        ptr := blocks[i].Allocate(total, elemSize);
        assert Value().blocks == p.blocks[i := Allocated(form, p.blocks[i], total, elemSize)];
        if ptr.Some? { return; }
        assert Value().blocks == p.blocks;
      }
      ptr := None;
    }

    // The second half: one more block, which is tried at once.
    method Grow(total: nat, elemSize: nat, address: nat) returns (ptr: Option<nat>)
      requires Valid()
      modifies this
      ensures Valid() && |blocks| == |old(blocks)| + 1 && old(blocks) <= blocks && fresh(blocks[|old(blocks)|..])
      ensures var p, b := old(Value()), NewBlock(old(Value()), total, address);
        && Value() == p.(blocks := p.blocks + [Allocated(form, b, total, elemSize)])
        && ptr == match Choose(form, b, total, elemSize) case Some(c) => Some(c.start) case None => None
    {
      ghost var p := Value();
      var size := if initial / 2 > total then initial / 2 else total;
      var block := new MemoryBlock(form, address, size);
      blocks := blocks + [block];
      ptr := block.Allocate(total, elemSize);
      assert Value().blocks == p.blocks + [Allocated(form, NewBlock(p, total, address), total, elemSize)];
    }

    // address: where the raw allocator puts a new block, if one is needed.
    method Allocate(total: nat, elemSize: nat, address: nat) returns (ptr: Option<nat>)
      requires Valid()
      modifies this, blocks
      ensures Valid() && old(blocks) <= blocks && fresh(blocks[|old(blocks)|..])
      ensures Value() == PoolAllocated(form, old(Value()), total, elemSize, address)
      ensures ptr == PoolChoice(form, old(Value()), total, elemSize, address)
      ensures |blocks| > |old(blocks)| <==> forall b :: b in old(Value()).blocks ==> Choose(form, b, total, elemSize).None?
    {
      ghost var p := Value();
      ptr := TryBlocks(total, elemSize);
      if ptr.Some? { return; }
      ptr := Grow(total, elemSize, address);
    }

    method Deallocate(ptr: nat, total: nat) returns (ok: bool)
      requires Valid()
      modifies blocks
      ensures Valid()
      ensures Value() == PoolFreed(old(Value()), ptr)
      ensures ok <==> Owner(old(Value()), 0, ptr) < |old(Value()).blocks|
    {
      ghost var p := Value();
      for i := 0 to |blocks|
        invariant Valid() && Value() == p
        invariant Owner(p, 0, ptr) == Owner(p, i, ptr)
      {
        assert p.blocks[i] == blocks[i].Value();
        if blocks[i].begin <= ptr && ptr < blocks[i].end {
          ok := blocks[i].DeAllocate(ptr);
          assert Value().blocks == p.blocks[i := Freed(p.blocks[i], ptr)];
          if ok { return; }
        }
      }
      ok := false;
    }
  }

  // ------------------------------------------------------------------ safety over runs

  ghost predicate Apart(b: Block, c: Block) { b.end <= c.begin || c.end <= b.begin }

  ghost predicate Safe(p: Pool) {
    && (forall b :: b in p.blocks ==> b.Valid() && b.Aligned())
    && (forall i, j :: 0 <= i < j < |p.blocks| ==> Apart(p.blocks[i], p.blocks[j]))
  }

  datatype PoolOp = Take(size: nat, elem: nat, address: nat) | Give(ptr: nat)

  function PoolStep(form: Form, p: Pool, op: PoolOp): Pool {
    match op
    case Take(size, elem, address) => PoolAllocated(form, p, size, elem, address)
    case Give(ptr) => PoolFreed(p, ptr)
  }

  function PoolRun(form: Form, p: Pool, ops: seq<PoolOp>): Pool
    decreases |ops|
  {
    if ops == [] then p else PoolRun(form, PoolStep(form, p, ops[0]), ops[1..])
  }

  // A request is for at least one byte, and a new block is apart from every block of the pool.
  ghost predicate OpOk(p: Pool, op: PoolOp) {
    op.Take? ==> op.size > 0 && forall b :: b in p.blocks ==> Apart(b, NewBlock(p, op.size, op.address))
  }

  ghost predicate RunOk(form: Form, p: Pool, ops: seq<PoolOp>)
    decreases |ops|
  {
    ops != [] ==> OpOk(p, ops[0]) && RunOk(form, PoolStep(form, p, ops[0]), ops[1..])
  }

  lemma {:induction false} PoolStepKeepsSafe(p: Pool, op: PoolOp)
    requires Safe(p) && OpOk(p, op)
    ensures Safe(PoolStep(Intended, p, op))
  {
    match op
    case Take(size, elem, address) =>
      var i := FirstFit(Intended, p, 0, size, elem);
      var g := Grown(Intended, p, size, elem, address);
      assert Safe(g);
      IntendedStepKeeps(g.blocks[i], Alloc(size, elem));
    case Give(ptr) =>
      var i := Owner(p, 0, ptr);
      if i < |p.blocks| {
        IntendedStepKeeps(p.blocks[i], Release(ptr));
      }
  }

  // Over every run: blocks stay apart, and inside each the live ranges are disjoint and aligned.
  lemma {:induction false} PoolRunsAreSafe(p: Pool, ops: seq<PoolOp>)
    requires Safe(p) && RunOk(Intended, p, ops)
    ensures Safe(PoolRun(Intended, p, ops))
    decreases |ops|
  {
    if ops != [] {
      PoolStepKeepsSafe(p, ops[0]);
      PoolRunsAreSafe(PoolStep(Intended, p, ops[0]), ops[1..]);
    }
  }

  ghost predicate GrainedPool(p: Pool, g: Granule) {
    forall b :: b in p.blocks ==> Grained(b, g)
  }

  predicate GrainedPoolOp(op: PoolOp, g: Granule) {
    op.Take? ==> GrainedOp(Alloc(op.size, op.elem), g) && op.address % g == 0
  }

  lemma {:induction false} FirstFitsAgree(p: Pool, i: nat, size: nat, elem: nat, g: Granule)
    requires i <= |p.blocks| && Safe(p) && GrainedPool(p, g) && elem > 0 && g % elem == 0
    ensures FirstFit(AsWritten, p, i, size, elem) == FirstFit(Intended, p, i, size, elem)
    decreases |p.blocks| - i
  {
    if i < |p.blocks| {
      GranuleUnpadded(p.blocks[i], g, elem);
      UnpaddedFormsAgree(p.blocks[i], size, elem);
      FirstFitsAgree(p, i + 1, size, elem, g);
    }
  }

  lemma {:induction false} GrainedPoolStep(p: Pool, op: PoolOp, g: Granule)
    requires Safe(p) && OpOk(p, op) && GrainedPool(p, g) && GrainedPoolOp(op, g)
    ensures PoolStep(AsWritten, p, op) == PoolStep(Intended, p, op)
    ensures GrainedPool(PoolStep(AsWritten, p, op), g)
  {
    match op
    case Take(size, elem, address) =>
      FirstFitsAgree(p, 0, size, elem, g);
      var i := FirstFit(Intended, p, 0, size, elem);
      var grown := Grown(Intended, p, size, elem, address);
      assert grown.blocks[i] in grown.blocks;
      GrainedStep(grown.blocks[i], Alloc(size, elem), g);
    case Give(ptr) =>
      var i := Owner(p, 0, ptr);
      if i < |p.blocks| {
        GrainedStep(p.blocks[i], Release(ptr), g);
      }
  }

  // The pool as written is safe when addresses and sizes are multiples of a granule that
  // every element size divides.
  lemma {:induction false} GrainedPoolRunsAreSafe(p: Pool, ops: seq<PoolOp>, g: Granule)
    requires Safe(p) && GrainedPool(p, g) && RunOk(AsWritten, p, ops)
    requires forall i :: 0 <= i < |ops| ==> GrainedPoolOp(ops[i], g)
    ensures Safe(PoolRun(AsWritten, p, ops))
    decreases |ops|
  {
    if ops != [] {
      GrainedPoolStep(p, ops[0], g);
      PoolStepKeepsSafe(p, ops[0]);
      GrainedPoolRunsAreSafe(PoolStep(AsWritten, p, ops[0]), ops[1..], g);
    }
  }

  predicate WholePoolOp(op: PoolOp) { op.Take? ==> Whole(op.size, op.elem) }

  // The gap that gets the request, in the block that gets it, has room.
  ghost predicate PoolHasRoom(p: Pool, op: PoolOp) {
    op.Take? ==>
      var i := FirstFit(AsWritten, p, 0, op.size, op.elem);
      HasRoom(Grown(AsWritten, p, op.size, op.elem, op.address).blocks[i], Alloc(op.size, op.elem))
  }

  ghost predicate PoolSafeAlong(p: Pool, ops: seq<PoolOp>)
    decreases |ops|
  {
    Safe(p) && (ops != [] ==> PoolSafeAlong(PoolStep(AsWritten, p, ops[0]), ops[1..]))
  }

  ghost predicate PoolRoomAlong(p: Pool, ops: seq<PoolOp>)
    decreases |ops|
  {
    ops != [] ==> PoolHasRoom(p, ops[0]) && PoolRoomAlong(PoolStep(AsWritten, p, ops[0]), ops[1..])
  }

  lemma {:induction false} ReplaceSafeIff(p: Pool, i: nat, b: Block)
    requires Safe(p) && i < |p.blocks| && b.begin == p.blocks[i].begin && b.end == p.blocks[i].end
    ensures Safe(p.(blocks := p.blocks[i := b])) <==> b.Valid() && b.Aligned()
  {
    assert p.blocks[i := b][i] == b;
  }

  lemma {:induction false} PoolStepSafeIff(p: Pool, op: PoolOp)
    requires Safe(p) && OpOk(p, op) && WholePoolOp(op)
    ensures Safe(PoolStep(AsWritten, p, op)) <==> PoolHasRoom(p, op)
  {
    match op
    case Take(size, elem, address) =>
      var i := FirstFit(AsWritten, p, 0, size, elem);
      var g := Grown(AsWritten, p, size, elem, address);
      assert g.blocks[i] in g.blocks;
      StepValidIff(g.blocks[i], Alloc(size, elem));
      ReplaceSafeIff(g, i, Allocated(AsWritten, g.blocks[i], size, elem));
    case Give(ptr) =>
      var i := Owner(p, 0, ptr);
      if i < |p.blocks| {
        IntendedStepKeeps(p.blocks[i], Release(ptr));
      }
  }

  // The pool as written, over runs of requests of at least one element: every state is safe
  // exactly when, in each state, the gap that gets the request has room for it.
  lemma {:induction false} PoolRunIsSafeIff(p: Pool, ops: seq<PoolOp>)
    requires Safe(p) && RunOk(AsWritten, p, ops) && forall i :: 0 <= i < |ops| ==> WholePoolOp(ops[i])
    ensures PoolSafeAlong(p, ops) <==> PoolRoomAlong(p, ops)
    decreases |ops|
  {
    if ops != [] {
      PoolStepSafeIff(p, ops[0]);
      if PoolHasRoom(p, ops[0]) { PoolRunIsSafeIff(PoolStep(AsWritten, p, ops[0]), ops[1..]); }
    }
  }

  // ------------------------------------------------------------------ routing and growth

  // A live address is freed in the block that handed it out, and nowhere else.
  lemma {:induction false} FreeReachesOwner(p: Pool, i: nat, r: Range)
    requires Safe(p) && i < |p.blocks| && r in p.blocks[i].live
    ensures PoolFreed(p, r.begin) == p.(blocks := p.blocks[i := Freed(p.blocks[i], r.begin)])
    ensures forall s :: s in Freed(p.blocks[i], r.begin).live ==> s.begin != r.begin
  {
    var k :| 0 <= k < |p.blocks[i].live| && p.blocks[i].live[k] == r;
    LiveInside(p.blocks[i], k);
    OwnerIs(p, 0, i, r.begin);
    forall s | s in Freed(p.blocks[i], r.begin).live ensures s.begin != r.begin {
      FreedIsGone(p.blocks[i], r.begin, s);
    }
  }

  lemma {:induction false} OwnerIs(p: Pool, j: nat, i: nat, ptr: nat)
    requires Safe(p) && j <= i < |p.blocks| && p.blocks[i].begin <= ptr < p.blocks[i].end
    ensures Owner(p, j, ptr) == i
    decreases i - j
  {
    if j < i {
      assert Apart(p.blocks[j], p.blocks[i]);
      OwnerIs(p, j + 1, i, ptr);
    }
  }

  lemma {:induction false} OnlyGap(form: Form, b: Block, size: nat, elem: nat)
    requires b.live == [] && b.begin + size <= b.end
    ensures
      var offset := Offset(b.begin, elem);
      Choose(form, b, size, elem) ==
        if Usable(form, b.end - b.begin, offset) > size
        then Some(Candidate(Usable(form, b.end - b.begin, offset), b.begin + offset, 0))
        else None
  {
    var tests := Tests(form, b, size, elem);
    assert |tests| == 1 && tests[0] == CandidateAt(form, b, 0, size, elem);
    assert tests[..0] == [] && b.Gap(0) == b.end - b.begin;
    assert Best(tests) == tests[0];
  }

  // Growth always adds a block.  As written it then serves the request exactly when that is
  // smaller than half the initial block, or the new block's address is not aligned; with gap
  // minus offset, exactly when the block has room to spare behind the offset.
  lemma {:induction false} GrowthServesIff(form: Form, p: Pool, size: nat, elem: nat, address: nat)
    requires FirstFit(form, p, 0, size, elem) == |p.blocks|
    ensures |PoolAllocated(form, p, size, elem, address).blocks| == |p.blocks| + 1
    ensures PoolChoice(form, p, size, elem, address).Some? <==>
      match form
      case AsWritten => size < p.initial / 2 || Offset(address, elem) > 0
      case Intended => Offset(address, elem) + size < GrowthSize(p, size)
  {
    OnlyGap(form, NewBlock(p, size, address), size, elem);
  }

  // What growth serves lies in the new block exactly when the block has room behind the offset.
  lemma {:induction false} GrowthStaysInsideIff(p: Pool, size: nat, elem: nat, address: nat)
    requires FirstFit(AsWritten, p, 0, size, elem) == |p.blocks|
    requires PoolChoice(AsWritten, p, size, elem, address).Some?
    ensures
      var start := PoolChoice(AsWritten, p, size, elem, address).value;
      start + size <= address + GrowthSize(p, size) <==> Offset(address, elem) + size <= GrowthSize(p, size)
  {
    OnlyGap(AsWritten, NewBlock(p, size, address), size, elem);
  }

  lemma {:induction false} TakeFirst(p: Pool, b: Block, size: nat, elem: nat, address: nat, r: Range)
    requires p.blocks == [b] && b.live == [] && b.begin + size < b.end && r == Range(b.begin, b.begin + size, elem)
    requires Offset(b.begin, elem) == 0
    ensures PoolAllocated(AsWritten, p, size, elem, address) == p.(blocks := [b.(live := [r])])
  {
    OnlyGap(AsWritten, b, size, elem);
    IntoEmpty(b, Alloc(size, elem), r);
    assert FirstFit(AsWritten, p, 0, size, elem) == 0;
    assert [b][0 := b.(live := [r])] == [b.(live := [r])];
  }

  // A block whose gaps are all shorter than the request does not serve it.
  lemma {:induction false} TooFull(p: Pool, b: Block, a: Range, size: nat, elem: nat)
    requires p.blocks == [b] && b.live == [a] && b.begin == a.begin < a.end <= b.end && b.end - a.end < size
    ensures FirstFit(AsWritten, p, 0, size, elem) == |p.blocks|
  {
    assert b.Gap(0) == 0 && b.Gap(1) == b.end - a.end;
    assert b.Valid() && !Passes(b, size, 0) && !Passes(b, size, 1);
    RefusedIff(b, size, elem);
  }

  lemma {:induction false} OverrunAt(p: Pool, b: Block, size: nat, elem: nat, address: nat)
    requires p.initial == 100 && p.blocks == [b] && size == 60 && elem == 3 && address == 1000
    requires FirstFit(AsWritten, p, 0, size, elem) == |p.blocks|
    ensures PoolChoice(AsWritten, p, size, elem, address) == Some(1002)
    ensures NewBlock(p, size, address).end == 1060 < 1002 + size
    ensures !Safe(PoolAllocated(AsWritten, p, size, elem, address))
  {
    var c := NewBlock(p, size, address);
    OnlyGap(AsWritten, c, size, elem);
    OverrunsBlock(c, size, elem);
    assert PoolAllocated(AsWritten, p, size, elem, address).blocks[1] == Allocated(AsWritten, c, size, elem);
  }

  lemma {:induction false} OverrunsBlock(c: Block, size: nat, elem: nat)
    requires c.live == [] && Choose(AsWritten, c, size, elem).Some?
    requires Choose(AsWritten, c, size, elem).value.start + size > c.end
    ensures !Allocated(AsWritten, c, size, elem).Valid()
  {
    var c' := Allocated(AsWritten, c, size, elem);
    assert c'.GapStart(1) > c'.GapStop(1);
  }

  lemma {:induction false} FarAway(p: Pool, b: Block, op: PoolOp)
    requires p.blocks == [b] && op.Take? && op.size > 0 && b.end <= op.address
    ensures OpOk(p, op)
  {
  }

  lemma {:induction false} OverrunNext(p: Pool, b: Block, a: Range, size: nat, elem: nat, address: nat)
    requires p.initial == 100 && p.blocks == [b] && b.live == [a] && b.begin == a.begin < a.end <= b.end < a.end + size
    requires size == 60 && elem == 3 && address == 1000
    ensures PoolChoice(AsWritten, p, size, elem, address) == Some(1002) && NewBlock(p, size, address).end == 1060
    ensures !Safe(PoolAllocated(AsWritten, p, size, elem, address))
  {
    TooFull(p, b, a, size, elem);
    OverrunAt(p, b, size, elem, address);
  }

  lemma {:induction false} EmptyIsSafe(p: Pool, b: Block)
    requires p.blocks == [b] && b.live == [] && b.begin <= b.end
    ensures Safe(p)
  {
  }

  lemma {:induction false} FiftyTaken(p: Pool, b: Block, first: PoolOp, r: Range)
    requires p.blocks == [b] && b == Block(0, 100, []) && first == Take(50, 1, 1000) && r == Range(0, 50, 1)
    ensures PoolStep(AsWritten, p, first) == p.(blocks := [b.(live := [r])])
  {
    OffsetAligns(0, 1);
    TakeFirst(p, b, 50, 1, 1000, r);
  }

  // A new pool of initial size 100 serves fifty bytes in its block; sixty bytes of three-byte
  // elements then make it grow by a block of sixty at address 1000, and are served from 1002,
  // two bytes past the end of that block.
  lemma {:induction false} GrowthOverruns(p: Pool, b: Block, first: PoolOp, next: PoolOp, p': Pool)
    requires p == Pool(100, [b]) && b == Block(0, 100, [])
    requires first == Take(50, 1, 1000) && next == Take(60, 3, 1000) && p' == PoolStep(AsWritten, p, first)
    ensures Safe(p) && OpOk(p, first) && OpOk(p', next)
    ensures PoolChoice(AsWritten, p', 60, 3, 1000) == Some(1002) && NewBlock(p', 60, 1000).end == 1060
    ensures !Safe(PoolStep(AsWritten, p', next))
  {
    var r := Range(0, 50, 1);
    EmptyIsSafe(p, b);
    FarAway(p, b, first);
    FiftyTaken(p, b, first, r);
    FarAway(p', b.(live := [r]), next);
    OverrunNext(p', b.(live := [r]), r, 60, 3, 1000);
  }
}
