/**
  What a MemoryBlock conserves: bytes over whole runs, the live map across an allocation and
  its release, and the one full gap that is left when everything is freed.
*/
module MemoryConservation {
  import opened MemoryBlocks
  import opened WrittenAllocator
  import opened Wrappers

  // ------------------------------------------------------------------ bytes

  function LiveBytes(live: seq<Range>): int {
    if live == [] then 0 else live[0].end - live[0].begin + LiveBytes(live[1..])
  }

  // Gaps 0 .. n-1.
  function GapBytes(b: Block, n: nat): int
    requires n <= |b.live| + 1
  {
    if n == 0 then 0 else GapBytes(b, n - 1) + b.Gap(n - 1)
  }

  lemma {:induction false} LiveBytesSnoc(live: seq<Range>, r: Range)
    ensures LiveBytes(live + [r]) == LiveBytes(live) + r.end - r.begin
  {
    if live != [] {
      assert (live + [r])[1..] == live[1..] + [r];
      LiveBytesSnoc(live[1..], r);
    } else {
      assert (live + [r])[1..] == [];
    }
  }

  lemma {:induction false} PrefixBytes(b: Block, n: nat)
    requires n <= |b.live|
    ensures LiveBytes(b.live[..n]) + GapBytes(b, n) == b.GapStart(n) - b.begin
  {
    if n > 0 {
      PrefixBytes(b, n - 1);
      LiveBytesSnoc(b.live[..n - 1], b.live[n - 1]);
      assert b.live[..n] == b.live[..n - 1] + [b.live[n - 1]];
    }
  }

  // Length of the live range that begins at ptr, or nothing.
  function LengthAt(live: seq<Range>, ptr: nat): int {
    if live == [] then 0
    else if live[0].begin == ptr then live[0].end - live[0].begin
    else LengthAt(live[1..], ptr)
  }

  predicate LiveAt(live: seq<Range>, ptr: nat) { exists r :: r in live && r.begin == ptr }

  lemma {:induction false} WithoutBytes(live: seq<Range>, ptr: nat)
    ensures LiveBytes(Without(live, ptr)) == LiveBytes(live) - LengthAt(live, ptr)
    ensures !LiveAt(live, ptr) ==> Without(live, ptr) == live && LengthAt(live, ptr) == 0
  {
    if live != [] && live[0].begin != ptr {
      WithoutBytes(live[1..], ptr);
      assert forall r :: r in live[1..] ==> r in live;
    } else if live != [] {
      assert live[0] in live;
    }
  }

  lemma {:induction false} InsertBytes(live: seq<Range>, r: Range)
    requires !LiveAt(live, r.begin)
    ensures LiveBytes(Insert(live, r)) == LiveBytes(live) + r.end - r.begin
  {
    if live == [] || r.begin < live[0].begin {
      assert ([r] + live)[1..] == live;
    } else {
      assert live[0] in live;
      assert forall s :: s in live[1..] ==> s in live;
      InsertBytes(live[1..], r);
    }
  }

  // What a step adds to and takes from the live bytes.
  function Served(form: Form, b: Block, op: Op): int {
    if op.Alloc? && Choose(form, b, op.size, op.elem).Some? then op.size else 0
  }

  function Returned(b: Block, op: Op): int {
    if op.Release? && b.begin <= op.ptr <= b.end then LengthAt(b.live, op.ptr) else 0
  }

  function ServedBytes(form: Form, b: Block, ops: seq<Op>): int
    decreases |ops|
  {
    if ops == [] then 0 else Served(form, b, ops[0]) + ServedBytes(form, Step(form, b, ops[0]), ops[1..])
  }

  function ReturnedBytes(form: Form, b: Block, ops: seq<Op>): int
    decreases |ops|
  {
    if ops == [] then 0 else Returned(b, ops[0]) + ReturnedBytes(form, Step(form, b, ops[0]), ops[1..])
  }

  // A served request lies in its gap.
  ghost predicate Fits(form: Form, b: Block, op: Op) {
    op.Alloc? && Choose(form, b, op.size, op.elem).Some? ==>
      var c := Choose(form, b, op.size, op.elem).value;
      op.size > 0 && c.gap <= |b.live| && b.GapStart(c.gap) <= c.start && c.start + op.size <= b.GapStop(c.gap)
  }

  ghost predicate FitsAlong(form: Form, b: Block, ops: seq<Op>)
    decreases |ops|
  {
    ops != [] ==> Fits(form, b, ops[0]) && FitsAlong(form, Step(form, b, ops[0]), ops[1..])
  }

  lemma {:induction false} PlaceIsNew(b: Block, i: nat, r: Range)
    requires b.Valid() && i <= |b.live| && b.GapStart(i) <= r.begin < r.end <= b.GapStop(i)
    ensures !LiveAt(b.live, r.begin)
  {
    FittingRange(b, i, r);
    forall j | 0 <= j < |b.live|
      ensures b.live[j].begin != r.begin
    {
      LiveInside(b, j);
    }
  }

  lemma {:induction false} AllocBytes(form: Form, b: Block, size: nat, elem: nat)
    requires b.Valid() && Fits(form, b, Alloc(size, elem)) && Choose(form, b, size, elem).Some?
    ensures
      var live := Allocated(form, b, size, elem).live;
      b.(live := live).Valid() && LiveBytes(live) == LiveBytes(b.live) + size
  {
    var c := Choose(form, b, size, elem).value;
    var r := Range(c.start, c.start + size, elem);
    FittingRange(b, c.gap, r);
    PlaceIsNew(b, c.gap, r);
    InsertBytes(b.live, r);
  }

  // A served request adds exactly its size, releasing the begin of a live range takes exactly
  // that range's length, and any other step changes nothing.
  lemma {:induction false} StepBytes(form: Form, b: Block, op: Op)
    requires b.Valid() && Fits(form, b, op)
    ensures
      var b' := Step(form, b, op);
      && b'.Valid() && LiveBytes(b'.live) == LiveBytes(b.live) + Served(form, b, op) - Returned(b, op)
      && ((op.Alloc? && Choose(form, b, op.size, op.elem).None?) || (op.Release? && !LiveAt(b.live, op.ptr)) ==> b' == b)
  {
    if op.Release? {
      FreedKeeps(b, op.ptr);
      WithoutBytes(b.live, op.ptr);
    } else if Choose(form, b, op.size, op.elem).Some? {
      AllocBytes(form, b, op.size, op.elem);
    }
  }

  // Over every run whose requests fit: the live bytes are those of the start, plus all bytes
  // served, less all bytes returned; no gap is negative, and gaps and live ranges add up to
  // the block.
  lemma {:induction false} BytesAreConserved(form: Form, b: Block, ops: seq<Op>)
    requires b.Valid() && FitsAlong(form, b, ops)
    ensures
      var b' := Run(form, b, ops);
      && LiveBytes(b'.live) == LiveBytes(b.live) + ServedBytes(form, b, ops) - ReturnedBytes(form, b, ops)
      && b'.begin == b.begin && b'.end == b.end
      && (forall i :: 0 <= i <= |b'.live| ==> b'.Gap(i) >= 0)
      && GapBytes(b', |b'.live| + 1) == b.end - b.begin - LiveBytes(b'.live)
    decreases |ops|
  {
    if ops == [] {
      PrefixBytes(b, |b.live|);
      assert b.live[..|b.live|] == b.live;
      forall i | 0 <= i <= |b.live| ensures b.Gap(i) >= 0 { GapIsNatural(b, i); }
    } else {
      StepBytes(form, b, ops[0]);
      BytesAreConserved(form, Step(form, b, ops[0]), ops[1..]);
    }
  }

  // With gap minus offset every request fits, so bytes are conserved over every run.
  lemma {:induction false} IntendedFitsAlong(b: Block, ops: seq<Op>)
    requires b.Valid() && b.Aligned() && Sized(ops)
    ensures FitsAlong(Intended, b, ops)
    decreases |ops|
  {
    if ops != [] {
      if ops[0].Alloc? && Choose(Intended, b, ops[0].size, ops[0].elem).Some? {
        ChooseIsCandidate(Intended, b, ops[0].size, ops[0].elem);
        GapIsNatural(b, Choose(Intended, b, ops[0].size, ops[0].elem).value.gap);
      }
      IntendedStepKeeps(b, ops[0]);
      IntendedFitsAlong(Step(Intended, b, ops[0]), ops[1..]);
    }
  }

  lemma {:induction false} IntendedBytesAreConserved(b: Block, ops: seq<Op>)
    requires b.Valid() && b.Aligned() && Sized(ops)
    ensures
      var b' := Run(Intended, b, ops);
      && LiveBytes(b'.live) == LiveBytes(b.live) + ServedBytes(Intended, b, ops) - ReturnedBytes(Intended, b, ops)
      && GapBytes(b', |b'.live| + 1) == b.end - b.begin - LiveBytes(b'.live)
  {
    IntendedFitsAlong(b, ops);
    BytesAreConserved(Intended, b, ops);
  }

  // As written requests fit on runs in which they have room.
  lemma {:induction false} RoomFitsAlong(b: Block, ops: seq<Op>)
    requires b.Valid() && RoomAlong(b, ops) && forall i :: 0 <= i < |ops| ==> WholeOp(ops[i])
    ensures FitsAlong(AsWritten, b, ops)
    decreases |ops|
  {
    if ops != [] {
      if ops[0].Alloc? && Choose(AsWritten, b, ops[0].size, ops[0].elem).Some? {
        ChosenIsSelected(b, ops[0].size, ops[0].elem);
      }
      StepValidIff(b, ops[0]);
      RoomFitsAlong(Step(AsWritten, b, ops[0]), ops[1..]);
    }
  }

  // ------------------------------------------------------------------ undo

  predicate KeysSorted(live: seq<Range>) {
    forall i, j :: 0 <= i < j < |live| ==> live[i].begin < live[j].begin
  }

  lemma {:induction false} ValidKeys(b: Block)
    requires b.Valid()
    ensures KeysSorted(b.live)
  {
    forall i, j | 0 <= i < j < |b.live|
      ensures b.live[i].begin < b.live[j].begin
    {
      LiveOrdered(b, i, j);
    }
  }

  lemma {:induction false} EraseInserted(live: seq<Range>, r: Range)
    requires KeysSorted(live)
    ensures Without(Insert(live, r), r.begin) == live <==> !LiveAt(live, r.begin)
    ensures Insert(live, r) != live || LiveAt(live, r.begin)
  {
    if live == [] || r.begin < live[0].begin {
      assert ([r] + live)[1..] == live;
    } else if r.begin == live[0].begin {
      assert live[0] in live;
      assert ([r] + live[1..])[1..] == live[1..];
    } else {
      EraseInserted(live[1..], r);
      assert LiveAt(live, r.begin) <==> LiveAt(live[1..], r.begin) by {
        assert forall s :: s in live <==> s == live[0] || s in live[1..];
      }
      assert live == [live[0]] + live[1..];
      assert ([live[0]] + Insert(live[1..], r))[1..] == Insert(live[1..], r);
    }
  }

  lemma {:induction false} UndoIff(b: Block, b': Block, r: Range)
    requires b.Valid() && b.begin <= r.begin && b' == b.(live := Insert(b.live, r))
    ensures Freed(b', r.begin) == b <==> r.begin <= b.end && !LiveAt(b.live, r.begin)
  {
    ValidKeys(b);
    EraseInserted(b.live, r);
    if k :| 0 <= k < |b.live| && b.live[k].begin == r.begin { LiveInside(b, k); }
  }

  predicate Undone(form: Form, b: Block, size: nat, elem: nat) {
    match Choose(form, b, size, elem)
    case Some(c) => Freed(Allocated(form, b, size, elem), c.start) == b
    case None => Allocated(form, b, size, elem) == b
  }

  lemma {:induction false} ChosenBegin(form: Form, b: Block, size: nat, elem: nat)
    requires b.Valid() && Choose(form, b, size, elem).Some?
    ensures
      var c := Choose(form, b, size, elem).value;
      c.gap <= |b.live| && b.begin <= b.GapStart(c.gap) <= c.start
  {
    ChooseIsCandidate(form, b, size, elem);
    GapInside(b, Choose(form, b, size, elem).value.gap);
  }

  // The place a request gets is in the block and no live range begins there.
  predicate NewPlace(b: Block, ptr: nat) { ptr <= b.end && !LiveAt(b.live, ptr) }

  lemma {:induction false} UndoneIffNew(form: Form, b: Block, size: nat, elem: nat)
    requires b.Valid() && Choose(form, b, size, elem).Some?
    ensures Undone(form, b, size, elem) <==> NewPlace(b, Choose(form, b, size, elem).value.start)
  {
    ChosenBegin(form, b, size, elem);
    var c := Choose(form, b, size, elem).value;
    UndoIff(b, Allocated(form, b, size, elem), Range(c.start, c.start + size, elem));
  }

  // For every request: freeing what was just allocated restores the exact live map exactly when
  // the gap that gets it, moved by its offset, begins in the block and at no live range.
  lemma {:induction false} FreeUndoesIff(b: Block, size: nat, elem: nat)
    requires b.Valid()
    ensures Undone(AsWritten, b, size, elem) <==>
      forall i :: Selected(b, size, elem, i) ==> NewPlace(b, b.GapStart(i) + Pad(b, elem, i))
  {
    if Choose(AsWritten, b, size, elem).Some? {
      ChosenIsSelected(b, size, elem);
      UndoneIffNew(AsWritten, b, size, elem);
    }
    forall i | Selected(b, size, elem, i)
      ensures Undone(AsWritten, b, size, elem) ==> NewPlace(b, b.GapStart(i) + Pad(b, elem, i))
    {
      SelectedIsChosen(b, size, elem, i);
      UndoneIffNew(AsWritten, b, size, elem);
    }
  }

  // A place inside its own gap is new, whatever fits behind it.
  lemma {:induction false} InsideGapUndone(form: Form, b: Block, size: nat, elem: nat)
    requires b.Valid() && Choose(form, b, size, elem).Some?
    requires var c := Choose(form, b, size, elem).value; c.gap <= |b.live| && c.start < b.GapStop(c.gap)
    ensures Undone(form, b, size, elem)
  {
    var c := Choose(form, b, size, elem).value;
    ChosenBegin(form, b, size, elem);
    GapInside(b, c.gap);
    PlaceIsNew(b, c.gap, Range(c.start, b.GapStop(c.gap), elem));
    UndoneIffNew(form, b, size, elem);
  }

  // As written it always does for a request of at least one element, even one that overlaps:
  // its offset is smaller than the gap.
  lemma {:induction false} FreeUndoesWhole(b: Block, size: nat, elem: nat)
    requires b.Valid() && Whole(size, elem)
    ensures Undone(AsWritten, b, size, elem)
  {
    if Choose(AsWritten, b, size, elem).Some? {
      ChosenIsSelected(b, size, elem);
      PadIsSmall(b, size, elem, Choose(AsWritten, b, size, elem).value.gap);
      InsideGapUndone(AsWritten, b, size, elem);
    }
  }

  // With gap minus offset it always does.
  lemma {:induction false} FreeUndoesIntended(b: Block, size: nat, elem: nat)
    requires b.Valid()
    ensures Undone(Intended, b, size, elem)
  {
    if Choose(Intended, b, size, elem).Some? {
      ChooseIsCandidate(Intended, b, size, elem);
      GapIsNatural(b, Choose(Intended, b, size, elem).value.gap);
      InsideGapUndone(Intended, b, size, elem);
    }
  }

  // So does the code as written when no gap needs padding.
  lemma {:induction false} FreeUndoesUnpadded(b: Block, size: nat, elem: nat)
    requires b.Valid() && Unpadded(b, elem)
    ensures Undone(AsWritten, b, size, elem)
  {
    UnpaddedFormsAgree(b, size, elem);
    FreeUndoesIntended(b, size, elem);
  }

  // Three bytes and one eight-byte element are served; then four bytes of eight-byte elements get
  // the gap at 3 and are moved onto the live range at 8, whose entry they overwrite: freeing
  // them loses that range.
  lemma {:induction false} WrittenFormOverwrites(b: Block, ops: seq<Op>, a: Range, z: Range)
    requires b == Block(0, 40, []) && ops == [Alloc(3, 1), Alloc(8, 8)]
    requires a == Range(0, 3, 1) && z == Range(8, 16, 8)
    ensures
      var b' := Run(AsWritten, b, ops);
      && b' == b.(live := [a, z]) && Choose(AsWritten, b', 4, 8) == Some(Candidate(10, 8, 1))
      && Freed(Allocated(AsWritten, b', 4, 8), 8) == b.(live := [a])
  {
    var b1, b2 := b.(live := [a]), b.(live := [a, z]);
    Offsets(b.begin, 1);
    Offsets(a.end, 8);
    IntoEmpty(b, ops[0], a);
    IntoLast(b1, a, ops[1], z);
    RunTwo(b, ops, b1, b2);
    OverwritesAt(b2, a, z);
  }

  lemma {:induction false} RunTwo(b: Block, ops: seq<Op>, b1: Block, b2: Block)
    requires |ops| == 2 && b1 == Step(AsWritten, b, ops[0]) && b2 == Step(AsWritten, b1, ops[1])
    ensures Run(AsWritten, b, ops) == b2
  {
    var rest := ops[1..];
    assert rest[0] == ops[1] && rest[1..] == [];
    assert Run(AsWritten, b1, rest) == Run(AsWritten, b2, []);
  }

  lemma {:induction false} OverwritesAt(b: Block, a: Range, z: Range)
    requires b == Block(0, 40, [a, z]) && a == Range(0, 3, 1) && z == Range(8, 16, 8)
    ensures Choose(AsWritten, b, 4, 8) == Some(Candidate(10, 8, 1))
    ensures Freed(Allocated(AsWritten, b, 4, 8), 8) == b.(live := [a])
  {
    Offsets(a.end, z.elem);
    OffsetAligns(z.end, z.elem);
    assert b.Gap(0) == 0 && b.Gap(1) == 5 && b.Gap(2) == 24;
    assert Selected(b, 4, 8, 1);
    SelectedIsChosen(b, 4, 8, 1);
    ChooseIsCandidate(AsWritten, b, 4, 8);
    OverwrittenKey(b.live, a, z, Range(8, 12, 8));
  }

  lemma OverwrittenKey(live: seq<Range>, a: Range, z: Range, r: Range)
    requires live == [a, z] && a.begin < z.begin == r.begin
    ensures Without(Insert(live, r), r.begin) == [a]
  {
    assert live[1..] == [z] && [z][1..] == [];
    assert Insert([z], r) == [r];
    assert Insert(live, r) == [a, r] && [a, r][1..] == [r] && [r][1..] == [];
  }

  // ------------------------------------------------------------------ coalescing

  function FreedAll(b: Block, ptrs: seq<nat>): Block
    decreases |ptrs|
  {
    if ptrs == [] then b else FreedAll(Freed(b, ptrs[0]), ptrs[1..])
  }

  lemma SomeMember(live: seq<Range>)
    ensures live != [] ==> exists r :: r in live
  {
    if live != [] { assert live[0] in live; }
  }

  // Freeing every range, in any order, leaves one gap as large as the block.
  lemma {:induction false} FreeingAllCoalesces(b: Block, ptrs: seq<nat>)
    requires b.Valid() && forall r :: r in b.live ==> r.begin in ptrs
    ensures FreedAll(b, ptrs).live == [] && FreedAll(b, ptrs).Gap(0) == b.end - b.begin
    decreases |ptrs|
  {
    SomeMember(b.live);
    if ptrs != [] {
      var b' := Freed(b, ptrs[0]);
      FreedKeeps(b, ptrs[0]);
      forall r | r in b'.live ensures r.begin in ptrs[1..] { FreedIsGone(b, ptrs[0], r); }
      FreeingAllCoalesces(b', ptrs[1..]);
    }
  }

  lemma {:induction false} FreedIsGone(b: Block, ptr: nat, r: Range)
    requires b.Valid() && r in Freed(b, ptr).live
    ensures r in b.live && r.begin != ptr
  {
    FreedKeeps(b, ptr);
    var j :| 0 <= j < |b.live| && b.live[j] == r;
    LiveInside(b, j);
    if r.begin == ptr { KeyErased(b, b.live, 0, ptr); }
  }

  // Keys are strictly increasing, so erasing a key leaves no range that begins there.
  lemma {:induction false} KeyErased(b: Block, live: seq<Range>, n: nat, ptr: nat)
    requires b.Valid() && n <= |b.live| && live == b.live[n..]
    ensures forall r :: r in Without(live, ptr) ==> r.begin != ptr
    decreases |live|
  {
    if live != [] {
      if live[0].begin == ptr {
        forall r | r in live[1..] ensures r.begin != ptr {
          var k :| 0 <= k < |live[1..]| && live[1..][k] == r;
          LiveInside(b, n);
          LiveOrdered(b, n, n + 1 + k);
        }
      } else {
        KeyErased(b, live[1..], n + 1, ptr);
      }
    }
  }
}
