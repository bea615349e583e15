/**
  MemoryBlock::allocate as written: which requests it places safely.  The conditions are on
  the block and the request alone, in gap lengths and alignment offsets.
*/
module WrittenAllocator {
  import opened MachineWords
  import opened MemoryBlocks
  import opened Wrappers

  function Pad(b: Block, elem: nat, i: nat): nat
    requires i <= |b.live|
  {
    Offset(b.GapStart(i), elem)
  }

  predicate Passes(b: Block, size: nat, i: nat)
    requires i <= |b.live|
  {
    if i < |b.live| then b.Gap(i) > size else b.Gap(i) >= size
  }

  // Gap i gets the request: of the gaps that pass, the first with the least length plus offset.
  ghost predicate Selected(b: Block, size: nat, elem: nat, i: nat) {
    && i <= |b.live| && Passes(b, size, i) && b.Gap(i) + Pad(b, elem, i) > size
    && forall j :: 0 <= j <= |b.live| && Passes(b, size, j) ==>
         var mine, other := b.Gap(i) + Pad(b, elem, i), b.Gap(j) + Pad(b, elem, j);
         mine <= other && (j < i ==> mine < other)
  }

  lemma {:induction false} GapIsNatural(b: Block, i: nat)
    requires b.Valid() && i <= |b.live|
    ensures 0 <= b.Gap(i) <= b.end - b.begin
  {
    assert b.GapStart(i) <= b.GapStop(i);
    assert b.GapStart(|b.live|) <= b.GapStop(|b.live|);
    if i > 0 { LiveInside(b, i - 1); }
    if i < |b.live| { LiveInside(b, i); }
  }

  lemma {:induction false} CandidateIffPasses(b: Block, size: nat, elem: nat, i: nat)
    requires b.Valid() && i <= |b.live|
    ensures CandidateAt(AsWritten, b, i, size, elem) ==
      if Passes(b, size, i) then Some(Candidate(b.Gap(i) + Pad(b, elem, i), b.GapStart(i) + Pad(b, elem, i), i))
      else None
  {
    GapIsNatural(b, i);
  }

  lemma {:induction false} ChosenIsSelected(b: Block, size: nat, elem: nat)
    requires b.Valid() && Choose(AsWritten, b, size, elem).Some?
    ensures
      var c := Choose(AsWritten, b, size, elem).value;
      Selected(b, size, elem, c.gap) && c.start == b.GapStart(c.gap) + Pad(b, elem, c.gap)
  {
    ChooseIsCandidate(AsWritten, b, size, elem);
    var c := Choose(AsWritten, b, size, elem).value;
    CandidateIffPasses(b, size, elem, c.gap);
    forall j | 0 <= j <= |b.live| && Passes(b, size, j)
      ensures c.usable <= b.Gap(j) + Pad(b, elem, j)
      ensures j < c.gap ==> c.usable < b.Gap(j) + Pad(b, elem, j)
    {
      CandidateIffPasses(b, size, elem, j);
      ChooseIsLeast(AsWritten, b, size, elem, j);
    }
  }

  lemma {:induction false} SelectedIsChosen(b: Block, size: nat, elem: nat, i: nat)
    requires b.Valid() && Selected(b, size, elem, i)
    ensures
      var c := Choose(AsWritten, b, size, elem);
      c.Some? && c.value.gap == i && c.value.start == b.GapStart(i) + Pad(b, elem, i)
  {
    CandidateIffPasses(b, size, elem, i);
    GapIsNatural(b, i);
    ChooseIsLeast(AsWritten, b, size, elem, i);
    if Choose(AsWritten, b, size, elem).None? {
      var k :| 0 <= k <= |b.live| && Refused(AsWritten, b, k, size, elem);
      CandidateIffPasses(b, size, elem, k);
    } else {
      ChosenIsSelected(b, size, elem);
    }
  }

  // Null is returned exactly when no gap passes, or when the last gap is exactly as long as
  // the request and needs no offset: it is then the least candidate and is refused.
  lemma {:induction false} RefusedIff(b: Block, size: nat, elem: nat)
    requires b.Valid()
    ensures
      var n := |b.live|;
      Choose(AsWritten, b, size, elem).None? <==>
        (forall i :: 0 <= i <= n ==> !Passes(b, size, i)) || (b.Gap(n) == size && Pad(b, elem, n) == 0)
  {
    var n := |b.live|;
    if Choose(AsWritten, b, size, elem).Some? {
      ChosenIsSelected(b, size, elem);
      assert b.Gap(n) == size ==> Passes(b, size, n);
    } else if i :| 0 <= i <= n && Passes(b, size, i) {
      CandidateIffPasses(b, size, elem, i);
      GapIsNatural(b, i);
      ChooseIsLeast(AsWritten, b, size, elem, i);
      var k :| 0 <= k <= n && Refused(AsWritten, b, k, size, elem);
      CandidateIffPasses(b, size, elem, k);
    }
  }

  // The gap holds the request behind its alignment offset.
  predicate Room(b: Block, size: nat, elem: nat, i: nat)
    requires i <= |b.live|
  {
    Pad(b, elem, i) + size <= b.Gap(i)
  }

  // A request of at least one element.
  predicate Whole(size: nat, elem: nat) { size > 0 && elem <= size }

  lemma {:induction false} PadIsSmall(b: Block, size: nat, elem: nat, i: nat)
    requires i <= |b.live| && Whole(size, elem)
    ensures Pad(b, elem, i) < size
  {
    if elem > 0 { OffsetAligns(b.GapStart(i), elem); }
  }

  // The place of the request lies in one gap, its own or a later one.
  ghost predicate InGap(b: Block, size: nat, elem: nat, i: nat)
    requires i <= |b.live|
  {
    InGapFrom(b, i, b.GapStart(i) + Pad(b, elem, i), size)
  }

  ghost predicate InGapFrom(b: Block, i: nat, start: nat, size: nat) {
    exists j :: i <= j <= |b.live| && Within(b, j, start, size)
  }

  predicate Within(b: Block, j: nat, start: nat, size: nat)
    requires j <= |b.live|
  {
    b.GapStart(j) <= start && start + size <= b.GapStop(j)
  }

  lemma {:induction false} WithinIsFree(b: Block, j: nat, start: nat, size: nat)
    requires b.Valid() && j <= |b.live| && Within(b, j, start, size)
    ensures b.Free(start, start + size)
  {
    GapInside(b, j);
    forall k | 0 <= k < |b.live|
      ensures start + size <= b.live[k].begin || b.live[k].end <= start
    {
      if k < j - 1 { LiveOrdered(b, k, j - 1); LiveInside(b, j - 1); }
      if j < k { LiveOrdered(b, j, k); LiveInside(b, j); }
    }
  }

  lemma {:induction false} GapInside(b: Block, j: nat)
    requires b.Valid() && j <= |b.live|
    ensures b.begin <= b.GapStart(j) <= b.GapStop(j) <= b.end
  {
    assert b.GapStart(j) <= b.GapStop(j);
    if j > 0 { LiveInside(b, j - 1); }
    if j < |b.live| { LiveInside(b, j); }
  }

  // What is free and begins behind gap i lies in one of the gaps from i on.
  lemma {:induction false} FreeIsWithin(b: Block, i: nat, start: nat, size: nat)
    requires b.Valid() && i <= |b.live| && b.GapStart(i) <= start && b.Free(start, start + size)
    ensures InGapFrom(b, i, start, size)
    decreases |b.live| - i
  {
    if i < |b.live| && b.live[i].end <= start {
      FreeIsWithin(b, i + 1, start, size);
    } else {
      assert Within(b, i, start, size);
    }
  }

  lemma {:induction false} FreeIffInGap(b: Block, size: nat, elem: nat, i: nat)
    requires b.Valid() && i <= |b.live|
    ensures
      var start := b.GapStart(i) + Pad(b, elem, i);
      b.Free(start, start + size) <==> InGap(b, size, elem, i)
  {
    var start := b.GapStart(i) + Pad(b, elem, i);
    if b.Free(start, start + size) {
      FreeIsWithin(b, i, start, size);
    }
    if j :| i <= j <= |b.live| && Within(b, j, start, size) {
      WithinIsFree(b, j, start, size);
    }
  }

  // A request of at least one element cannot be moved past its gap.
  lemma {:induction false} InGapIffRoom(b: Block, size: nat, elem: nat, i: nat)
    requires b.Valid() && Whole(size, elem) && i <= |b.live| && Passes(b, size, i)
    ensures InGap(b, size, elem, i) <==> Room(b, size, elem, i)
  {
    var start := b.GapStart(i) + Pad(b, elem, i);
    PadIsSmall(b, size, elem, i);
    if Room(b, size, elem, i) { assert Within(b, i, start, size); }
    if InGap(b, size, elem, i) {
      var j :| i <= j <= |b.live| && Within(b, j, start, size);
      if i < j { LiveInside(b, i); }
      if i < j - 1 { LiveOrdered(b, i, j - 1); LiveInside(b, j - 1); }
    }
  }

  ghost predicate PlacedFree(b: Block, size: nat, elem: nat) {
    var c := Choose(AsWritten, b, size, elem);
    c.Some? ==> b.Free(c.value.start, c.value.start + size)
  }

  lemma {:induction false} SelectedIsOne(b: Block, size: nat, elem: nat, i: nat)
    requires b.Valid() && Selected(b, size, elem, i)
    ensures Choose(AsWritten, b, size, elem).Some?
    ensures PlacedFree(b, size, elem) <==> InGap(b, size, elem, i)
  {
    SelectedIsChosen(b, size, elem, i);
    FreeIffInGap(b, size, elem, i);
  }

  // Any request is placed free, or refused, exactly when the place it gets lies in one gap.
  lemma {:induction false} PlacedFreeIff(b: Block, size: nat, elem: nat)
    requires b.Valid()
    ensures PlacedFree(b, size, elem) <==> forall i :: Selected(b, size, elem, i) ==> InGap(b, size, elem, i)
  {
    if Choose(AsWritten, b, size, elem).Some? {
      ChosenIsSelected(b, size, elem);
      SelectedIsOne(b, size, elem, Choose(AsWritten, b, size, elem).value.gap);
    }
    forall i | Selected(b, size, elem, i)
      ensures PlacedFree(b, size, elem) ==> InGap(b, size, elem, i)
    {
      SelectedIsOne(b, size, elem, i);
    }
  }

  // If it is for at least one element: exactly when the gap that gets it has room.
  lemma {:induction false} WholeIsFreeIff(b: Block, size: nat, elem: nat)
    requires b.Valid() && Whole(size, elem)
    ensures PlacedFree(b, size, elem) <==> forall i :: Selected(b, size, elem, i) ==> Room(b, size, elem, i)
  {
    PlacedFreeIff(b, size, elem);
    forall i | Selected(b, size, elem, i)
      ensures InGap(b, size, elem, i) <==> Room(b, size, elem, i)
    {
      InGapIffRoom(b, size, elem, i);
    }
  }

  // The largest request that passes gap i: one less than its length, but the whole last gap.
  function Largest(b: Block, i: nat): int
    requires i <= |b.live|
  {
    if i < |b.live| then b.Gap(i) - 1 else b.Gap(i)
  }

  // Gap i gets the largest request it passes, and the place of that lies in no gap.
  ghost predicate Exposed(b: Block, elem: nat, i: nat) {
    && i <= |b.live| && Largest(b, i) >= 0
    && Selected(b, Largest(b, i), elem, i) && !InGap(b, Largest(b, i), elem, i)
  }

  lemma {:induction false} LargestIsSelected(b: Block, size: nat, elem: nat, i: nat)
    requires b.Valid() && Selected(b, size, elem, i) && !InGap(b, size, elem, i)
    ensures size <= Largest(b, i) && Selected(b, Largest(b, i), elem, i)
  {
    var largest := Largest(b, i);
    if Pad(b, elem, i) == 0 { assert Within(b, i, b.GapStart(i), size); }
    assert Passes(b, largest, i);
    forall j | 0 <= j <= |b.live| && Passes(b, largest, j)
      ensures Passes(b, size, j)
    {
    }
  }

  lemma {:induction false} SmallerInGap(b: Block, size: nat, larger: nat, elem: nat, i: nat)
    requires i <= |b.live| && size <= larger && InGap(b, larger, elem, i)
    ensures InGap(b, size, elem, i)
  {
    var start := b.GapStart(i) + Pad(b, elem, i);
    var j :| i <= j <= |b.live| && Within(b, j, start, larger);
    assert Within(b, j, start, size);
  }

  // For an element size: requests of every size are placed free exactly when no gap is exposed.
  lemma {:induction false} EveryRequestIsFreeIff(b: Block, elem: nat)
    requires b.Valid()
    ensures (forall size: nat :: PlacedFree(b, size, elem)) <==> forall i :: 0 <= i <= |b.live| ==> !Exposed(b, elem, i)
  {
    if i :| 0 <= i <= |b.live| && Exposed(b, elem, i) {
      SelectedIsOne(b, Largest(b, i), elem, i);
      assert !PlacedFree(b, Largest(b, i), elem);
    } else {
      forall size: nat
        ensures PlacedFree(b, size, elem)
      {
        NotExposedIsFree(b, size, elem);
      }
    }
  }

  lemma {:induction false} NotExposedIsFree(b: Block, size: nat, elem: nat)
    requires b.Valid() && forall i :: 0 <= i <= |b.live| ==> !Exposed(b, elem, i)
    ensures PlacedFree(b, size, elem)
  {
    PlacedFreeIff(b, size, elem);
    forall i | Selected(b, size, elem, i)
      ensures InGap(b, size, elem, i)
    {
      if !InGap(b, size, elem, i) {
        LargestIsSelected(b, size, elem, i);
        assert !Exposed(b, elem, i);
        SmallerInGap(b, size, Largest(b, i), elem, i);
      }
    }
  }

  // ------------------------------------------------------------------ runs

  predicate WholeOp(op: Op) { op.Alloc? ==> Whole(op.size, op.elem) }

  ghost predicate HasRoom(b: Block, op: Op) {
    op.Alloc? ==> forall i :: Selected(b, op.size, op.elem, i) ==> Room(b, op.size, op.elem, i)
  }

  // In every state of the run live ranges are ordered, disjoint, inside the block and aligned.
  ghost predicate SafeAlong(b: Block, ops: seq<Op>)
    decreases |ops|
  {
    b.Valid() && b.Aligned() && (ops != [] ==> SafeAlong(Step(AsWritten, b, ops[0]), ops[1..]))
  }

  ghost predicate RoomAlong(b: Block, ops: seq<Op>)
    decreases |ops|
  {
    ops != [] ==> HasRoom(b, ops[0]) && RoomAlong(Step(AsWritten, b, ops[0]), ops[1..])
  }

  // A range that ends beyond its gap breaks the block.
  lemma {:induction false} OverlapIsInvalid(b: Block, size: nat, elem: nat, i: nat)
    requires b.Valid() && Whole(size, elem) && i <= |b.live| && Passes(b, size, i) && !Room(b, size, elem, i)
    ensures
      var start := b.GapStart(i) + Pad(b, elem, i);
      !b.(live := Insert(b.live, Range(start, start + size, elem))).Valid()
  {
    PadIsSmall(b, size, elem, i);
    var start := b.GapStart(i) + Pad(b, elem, i);
    var r := Range(start, start + size, elem);
    forall j | 0 <= j < i
      ensures b.live[j].begin < start
    {
      LiveInside(b, j);
      if j < i - 1 { LiveOrdered(b, j, i - 1); LiveInside(b, i - 1); }
    }
    InsertPosition(b.live, r, i);
    var b' := b.(live := b.live[..i] + [r] + b.live[i..]);
    assert b'.GapStart(i + 1) == start + size && b'.GapStop(i + 1) == b.GapStop(i);
  }

  lemma {:induction false} StepValidIff(b: Block, op: Op)
    requires b.Valid() && WholeOp(op)
    ensures Step(AsWritten, b, op).Valid() <==> HasRoom(b, op)
    ensures HasRoom(b, op) && b.Aligned() ==> Step(AsWritten, b, op).Aligned()
  {
    match op
    case Release(ptr) => FreedKeeps(b, ptr);
    case Alloc(size, elem) =>
      WholeIsFreeIff(b, size, elem);
      if Choose(AsWritten, b, size, elem).Some? {
        ChosenIsSelected(b, size, elem);
        var i := Choose(AsWritten, b, size, elem).value.gap;
        SelectedIsOne(b, size, elem, i);
        InGapIffRoom(b, size, elem, i);
        if Room(b, size, elem, i) {
          RoomKeeps(b, size, elem, i);
        } else {
          OverlapIsInvalid(b, size, elem, i);
        }
      }
  }

  lemma {:induction false} RoomKeeps(b: Block, size: nat, elem: nat, i: nat)
    requires b.Valid() && size > 0 && i <= |b.live| && Room(b, size, elem, i)
    ensures
      var start := b.GapStart(i) + Pad(b, elem, i);
      var b' := b.(live := Insert(b.live, Range(start, start + size, elem)));
      b'.Valid() && (b.Aligned() ==> b'.Aligned())
  {
    var start := b.GapStart(i) + Pad(b, elem, i);
    var r := Range(start, start + size, elem);
    if elem > 0 { OffsetAligns(b.GapStart(i), elem); }
    FittingRange(b, i, r);
    if b.Aligned() { SpliceAligned(b, i, r); }
  }

  lemma SpliceAligned(b: Block, i: nat, r: Range)
    requires b.Aligned() && i <= |b.live| && (r.elem > 0 ==> r.begin % r.elem == 0)
    ensures b.(live := b.live[..i] + [r] + b.live[i..]).Aligned()
  {}

  // A run of requests of at least one element keeps every state valid and aligned exactly when,
  // in each state, the gap that gets the request has room for it.
  lemma {:induction false} RunIsSafeIff(b: Block, ops: seq<Op>)
    requires b.Valid() && b.Aligned() && forall i :: 0 <= i < |ops| ==> WholeOp(ops[i])
    ensures SafeAlong(b, ops) <==> RoomAlong(b, ops)
    decreases |ops|
  {
    if ops != [] {
      StepValidIff(b, ops[0]);
      if HasRoom(b, ops[0]) { RunIsSafeIff(Step(AsWritten, b, ops[0]), ops[1..]); }
    }
  }

  // ------------------------------------------------------------------ a run that overlaps

  lemma {:induction false} StepTo(b: Block, op: Op, i: nat, r: Range)
    requires b.Valid() && op.Alloc? && Selected(b, op.size, op.elem, i)
    requires r.begin == b.GapStart(i) + Pad(b, op.elem, i) && r.end == r.begin + op.size && r.elem == op.elem
    ensures Step(AsWritten, b, op) == b.(live := Insert(b.live, r))
  {
    SelectedIsChosen(b, op.size, op.elem, i);
  }

  lemma {:induction false} IntoEmpty(b: Block, op: Op, r: Range)
    requires b.live == [] && op.Alloc? && op.size <= b.end - b.begin && b.begin <= b.end
    requires r.begin == b.begin + Offset(b.begin, op.elem) && r.end == r.begin + op.size && r.elem == op.elem
    requires b.end - b.begin + Offset(b.begin, op.elem) > op.size
    ensures Step(AsWritten, b, op) == b.(live := [r])
  {
    StepTo(b, op, 0, r);
  }

  lemma {:induction false} IntoLast(b: Block, a: Range, op: Op, r: Range)
    requires b.live == [a] && b.begin == a.begin < a.end <= b.end
    requires op.Alloc? && 0 < op.size <= b.end - a.end
    requires r.begin == a.end + Offset(a.end, op.elem) && r.end == r.begin + op.size && r.elem == op.elem
    requires b.end - a.end + Offset(a.end, op.elem) > op.size
    ensures Step(AsWritten, b, op) == b.(live := [a, r])
  {
    assert b.Gap(0) == 0;
    StepTo(b, op, 1, r);
    assert b.live[1..] == [];
  }

  lemma {:induction false} IntoMiddle(b: Block, a: Range, z: Range, op: Op, r: Range)
    requires b.live == [a, z] && b.begin == a.begin < a.end <= z.begin < z.end == b.end
    requires op.Alloc? && 0 < op.size < z.begin - a.end
    requires r.begin == a.end + Offset(a.end, op.elem) && r.end == r.begin + op.size && r.elem == op.elem
    requires r.begin < z.begin < r.end
    ensures b.Valid() && Step(AsWritten, b, op) == b.(live := [a, r, z])
    ensures !b.(live := [a, r, z]).Valid()
  {
    assert b.Gap(0) == 0 && b.Gap(1) == z.begin - a.end && b.Gap(2) == 0;
    StepTo(b, op, 1, r);
    assert b.live[1..] == [z] && Insert([z], r) == [r, z];
    var b' := b.(live := [a, r, z]);
    assert b'.GapStart(2) == r.end && b'.GapStop(2) == z.begin;
  }

  lemma {:induction false} RunThree(b: Block, ops: seq<Op>, b1: Block, b2: Block, b3: Block)
    requires |ops| == 3 && b1 == Step(AsWritten, b, ops[0])
    requires b2 == Step(AsWritten, b1, ops[1]) && b3 == Step(AsWritten, b2, ops[2])
    ensures Run(AsWritten, b, ops) == b3 && (SafeAlong(b, ops) ==> b3.Valid())
  {
    var rest := ops[1..];
    var last := rest[1..];
    assert rest[0] == ops[1] && last[0] == ops[2] && last[1..] == [];
    assert Run(AsWritten, b, ops) == Run(AsWritten, b1, rest);
    assert Run(AsWritten, b1, rest) == Run(AsWritten, b2, last);
    assert Run(AsWritten, b2, last) == Run(AsWritten, b3, []);
    if SafeAlong(b, ops) {
      assert SafeAlong(b1, rest);
      assert SafeAlong(b2, last);
      assert SafeAlong(b3, last[1..]);
    }
  }

  lemma OffsetIs(ptr: nat, elem: nat, o: nat)
    requires o == Offset(ptr, elem) && elem > 0
    ensures o < elem && (ptr + o) % elem == 0
  {
    OffsetAligns(ptr, elem);
  }

  lemma Offsets(ptr: nat, elem: nat)
    ensures ptr == 0 && elem == 1 ==> Offset(ptr, elem) == 0
    ensures ptr == 3 && elem == 15 ==> Offset(ptr, elem) == 12
    ensures ptr == 3 && elem == 8 ==> Offset(ptr, elem) == 5
  {
    if ptr == 0 && elem == 1 {
      OffsetIs(0, 1, Offset(ptr, elem));
    } else if ptr == 3 && elem == 15 {
      OffsetIs(3, 15, Offset(ptr, elem));
    } else if ptr == 3 && elem == 8 {
      OffsetIs(3, 8, Offset(ptr, elem));
    }
  }

  // The run ends with these live ranges, and some state on the way is not valid.
  ghost predicate BreaksInto(b: Block, ops: seq<Op>, live: seq<Range>) {
    Run(AsWritten, b, ops) == b.(live := live) && !SafeAlong(b, ops)
  }

  // A first range, a second one behind an aligned gap up to the block's end, then a request
  // that the gap passes and whose place ends inside the second range.
  ghost predicate Overlapping(b: Block, ops: seq<Op>, a: Range, r: Range, z: Range) {
    && b.live == [] && |ops| == 3 && ops[0].Alloc? && ops[1].Alloc? && ops[2].Alloc?
    && a == Range(b.begin, b.begin + ops[0].size, ops[0].elem) && Offset(b.begin, ops[0].elem) == 0
    && z == Range(a.end + Offset(a.end, ops[1].elem), b.end, ops[1].elem) && z.end == z.begin + ops[1].size
    && r == Range(a.end + Offset(a.end, ops[2].elem), r.begin + ops[2].size, ops[2].elem)
    && b.begin < a.end < z.begin < z.end && 0 < ops[2].size < z.begin - a.end
    && r.begin < z.begin < r.end
  }

  lemma {:induction false} OverlapRun(b: Block, ops: seq<Op>, a: Range, r: Range, z: Range)
    requires Overlapping(b, ops, a, r, z)
    ensures BreaksInto(b, ops, [a, r, z])
  {
    var b1, b2, b3 := b.(live := [a]), b.(live := [a, z]), b.(live := [a, r, z]);
    IntoEmpty(b, ops[0], a);
    IntoLast(b1, a, ops[1], z);
    IntoMiddle(b2, a, z, ops[2], r);
    RunThree(b, ops, b1, b2, b3);
  }

  // Three bytes, then two elements of fifteen bytes, then one of eight: the last request gets
  // the twelve-byte gap at 3, is moved to 8 and runs over the range at 15.
  lemma {:induction false} WrittenFormOverlaps(b: Block, ops: seq<Op>, a: Range, r: Range, z: Range)
    requires b == Block(0, 45, []) && ops == [Alloc(3, 1), Alloc(30, 15), Alloc(8, 8)]
    requires a == Range(0, 3, 1) && r == Range(8, 16, 8) && z == Range(15, 45, 15)
    ensures BreaksInto(b, ops, [a, r, z])
  {
    OverlapRun(b, ops, a, r, z);
  }

  // ------------------------------------------------------------------ a run that is refused

  lemma {:induction false} RefusedTail(b: Block, z: Range, size: nat)
    requires b.live == [z] && b.begin <= z.begin < z.end && z.end + size == b.end
    ensures b.Valid() && Choose(AsWritten, b, size, 1).None?
  {
    RefusalIff(AsWritten, b, size, 1);
  }

  // Twenty bytes and five are served and the twenty released: twenty free bytes at 0, and the
  // next five-byte request is refused because the last gap has five bytes.
  lemma {:induction false} ExactTailRefusesEverything(b: Block, ops: seq<Op>, a: Range, z: Range)
    requires b == Block(0, 30, []) && ops == [Alloc(20, 1), Alloc(5, 1), Release(0)]
    requires a == Range(0, 20, 1) && z == Range(20, 25, 1)
    ensures
      var b' := Run(AsWritten, b, ops);
      b' == b.(live := [z]) && b'.Gap(0) == 20 && Choose(AsWritten, b', 5, 1).None?
  {
    var b1, b2, b3 := b.(live := [a]), b.(live := [a, z]), b.(live := [z]);
    OffsetAligns(b.begin, 1);
    OffsetAligns(a.end, 1);
    IntoEmpty(b, ops[0], a);
    IntoLast(b1, a, ops[1], z);
    RunThree(b, ops, b1, b2, b3);
    RefusedTail(b3, z, 5);
  }


  // ------------------------------------------------------------------ after an overlap

  // Between overlapping ranges the difference wraps: such a gap passes both tests for every
  // request that is not nearly as large as the address space.
  lemma {:induction false} OverlapPasses(b: Block, i: nat, size: nat, elem: nat)
    requires i < |b.live| && b.Gap(i) < 0 && size < WORD + b.Gap(i) && Pad(b, elem, i) as int < -b.Gap(i)
    ensures CandidateAt(AsWritten, b, i, size, elem) ==
              Some(Candidate(WORD + b.Gap(i) + Pad(b, elem, i), b.GapStart(i) + Pad(b, elem, i), i))
  {
  }

  lemma {:induction false} OnlyOverlap(b: Block, a: Range, r: Range, z: Range, size: nat)
    requires b == Block(0, 45, [a, r, z]) && a == Range(0, 3, 1) && r == Range(8, 16, 8) && z == Range(15, 45, 15)
    requires size == 10
    ensures Choose(AsWritten, b, size, 1).Some? && Choose(AsWritten, b, size, 1).value.start == 16
  {
    OffsetAligns(16, 1);
    assert b.Gap(0) == 0 && b.Gap(1) == 5 && b.Gap(2) == -1 && b.Gap(3) == 0;
    OverlapPasses(b, 2, size, 1);
    ChooseIsLeast(AsWritten, b, size, 1, 2);
    forall k | 0 <= k <= 3
      ensures !Refused(AsWritten, b, k, size, 1)
    {
    }
    ChooseIsCandidate(AsWritten, b, size, 1);
  }

  // The run that overlaps leaves a negative gap, and no other gap of ten bytes: the next ten
  // bytes are served at 16, in the middle of the live range at 15.
  lemma {:induction false} OverlapIsServed(b: Block, ops: seq<Op>, a: Range, r: Range, z: Range)
    requires b == Block(0, 45, []) && ops == [Alloc(3, 1), Alloc(30, 15), Alloc(8, 8)]
    requires a == Range(0, 3, 1) && r == Range(8, 16, 8) && z == Range(15, 45, 15)
    ensures
      var b' := Run(AsWritten, b, ops);
      && Choose(AsWritten, b', 10, 1).Some? && Choose(AsWritten, b', 10, 1).value.start == 16
      && z in b'.live && z.begin < 16 && 26 < z.end
  {
    WrittenFormOverlaps(b, ops, a, r, z);
    OnlyOverlap(b.(live := [a, r, z]), a, r, z, 10);
  }
}
