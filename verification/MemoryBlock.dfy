/**
  MemoryBlock: a best-fit allocator over one range of addresses.

  Free space is implicit: the gaps between the live ranges of an ordered map.  The usable
  length of a gap is computed as gap plus alignment offset; gap minus offset is what the
  placement needs.  Both forms are modelled: AsWritten and Intended.
*/
module MemoryBlocks {
  import opened MachineWords
  import opened Wrappers

  // An entry of allocatedBlocks, begin -> end.  The program does not store `elem`, the
  // element size of the request; it is kept here to say what alignment the range was promised.
  datatype Range = Range(begin: nat, end: nat, elem: nat)

  datatype Form = AsWritten | Intended

  // ------------------------------------------------------------------ alignment

  lemma ModUnique(x: nat, d: nat, q: nat, r: nat)
    requires 0 < d && r < d && x == d * q + r
    ensures x % d == r
  {
    var e := q - x / d;
    assert d * e == x % d - r by { assert x == d * (x / d) + x % d; }
  }

  // The source's search from offset i on.
  function Search(ptr: nat, elem: nat, i: nat): nat
    decreases elem - i
  {
    if i >= elem || (ptr + i) % elem == 0 then i else Search(ptr, elem, i + 1)
  }

  // Distance from ptr to the next multiple of elem.
  function Offset(ptr: nat, elem: nat): nat { Search(ptr, elem, 0) }

  lemma {:induction false} SearchFinds(ptr: nat, elem: nat, i: nat, w: nat)
    requires i <= w < elem && (ptr + w) % elem == 0
    ensures Search(ptr, elem, i) <= w && (ptr + Search(ptr, elem, i)) % elem == 0
    decreases w - i
  {
    if (ptr + i) % elem != 0 { SearchFinds(ptr, elem, i + 1, w); }
  }

  lemma {:induction false} OffsetAligns(ptr: nat, elem: nat)
    requires elem > 0
    ensures Offset(ptr, elem) < elem && (ptr + Offset(ptr, elem)) % elem == 0
    ensures Offset(ptr, elem) == 0 <==> ptr % elem == 0
  {
    var q, m := ptr / elem, ptr % elem;
    var w := if m == 0 then 0 else elem - m;
    assert ptr == elem * q + m;
    if m > 0 {
      assert ptr + w == elem * (q + 1) + 0;
      ModUnique(ptr + w, elem, q + 1, 0);
    }
    SearchFinds(ptr, elem, 0, w);
  }

  method AlignmentOffset(ptr: nat, elemSize: nat) returns (i: nat)
    ensures i == Offset(ptr, elemSize)
  {
    i := 0;
    while i < elemSize
      invariant Search(ptr, elemSize, 0) == Search(ptr, elemSize, i)
    {
      if (ptr + i) % elemSize == 0 { break; }
      i := i + 1;
    }
  }

  // ------------------------------------------------------------------ gaps

  datatype Block = Block(begin: nat, end: nat, live: seq<Range>) {
    // Gap i lies before live[i]; the last one reaches to the end of the block.
    function GapStart(i: nat): nat
      requires i <= |live|
    {
      if i == 0 then begin else live[i - 1].end
    }

    function GapStop(i: nat): int
      requires i <= |live|
    {
      if i < |live| then live[i].begin else end
    }

    function Gap(i: nat): int
      requires i <= |live|
    {
      GapStop(i) - GapStart(i)
    }

    // Live ranges are nonempty, ordered, disjoint and inside the block.
    ghost predicate Valid() {
      && (forall i :: 0 <= i <= |live| ==> GapStart(i) <= GapStop(i))
      && (forall i :: 0 <= i < |live| ==> live[i].begin < live[i].end)
    }

    // begin -> end is inside the block and meets no live range.
    ghost predicate Free(lo: int, hi: int) {
      && begin <= lo && hi <= end
      && forall i :: 0 <= i < |live| ==> hi <= live[i].begin || live[i].end <= lo
    }

    ghost predicate Aligned() {
      forall r :: r in live && r.elem > 0 ==> r.begin % r.elem == 0
    }
  }

  lemma {:induction false} LiveOrdered(b: Block, i: nat, j: nat)
    requires b.Valid() && i < j < |b.live|
    ensures b.live[i].end <= b.live[j].begin
    decreases j
  {
    assert b.GapStart(j) <= b.GapStop(j);
    if i < j - 1 { LiveOrdered(b, i, j - 1); }
  }

  lemma {:induction false} LiveInside(b: Block, i: nat)
    requires b.Valid() && i < |b.live|
    ensures b.begin <= b.live[i].begin < b.live[i].end <= b.end
  {
    assert b.GapStart(0) <= b.GapStop(0);
    assert b.GapStart(|b.live|) <= b.GapStop(|b.live|);
    if 0 < i { LiveOrdered(b, 0, i); }
    if i < |b.live| - 1 { LiveOrdered(b, i, |b.live| - 1); }
  }

  // ------------------------------------------------------------------ allocate

  // A pointer difference as size_t: a negative one, between overlapping ranges, wraps.
  function AsSize(x: int): int { if x < 0 then x % WORD else x }

  datatype Candidate = Candidate(usable: int, start: nat, gap: nat)

  function Usable(form: Form, gap: int, offset: nat): int {
    match form
    case AsWritten => AsSize(gap + offset)
    case Intended => gap - offset
  }

  // The two tests a gap has to pass; the first is strict except for the last gap.
  function CandidateAt(form: Form, b: Block, i: nat, size: nat, elem: nat): Option<Candidate>
    requires i <= |b.live|
  {
    var offset := Offset(b.GapStart(i), elem);
    var gap := AsSize(b.Gap(i));
    if (if i < |b.live| then gap > size else gap >= size) && Usable(form, b.Gap(i), offset) >= size
    then Some(Candidate(Usable(form, b.Gap(i), offset), b.GapStart(i) + offset, i))
    else None
  }

  function Tests(form: Form, b: Block, size: nat, elem: nat): seq<Option<Candidate>> {
    seq(|b.live| + 1, i requires 0 <= i <= |b.live| => CandidateAt(form, b, i, size, elem))
  }

  function Passing(tests: seq<Option<Candidate>>): seq<Candidate> {
    if tests == [] then []
    else
      var last := |tests| - 1;
      Passing(tests[..last]) + match tests[last] case Some(c) => [c] case None => []
  }

  // std::min_element: the first of the smallest.
  function MinElement(cs: seq<Candidate>): nat
    requires cs != []
    ensures MinElement(cs) < |cs|
  {
    var last := |cs| - 1;
    if last == 0 then 0
    else
      var m := MinElement(cs[..last]);
      if cs[last].usable < cs[m].usable then last else m
  }

  // The first of the smallest gaps that pass, found without a list of candidates.
  function Best(tests: seq<Option<Candidate>>): Option<Candidate> {
    if tests == [] then None
    else
      var last := |tests| - 1;
      match (Best(tests[..last]), tests[last])
      case (Some(m), Some(c)) => if c.usable < m.usable then Some(c) else Some(m)
      case (Some(m), None) => Some(m)
      case (None, c) => c
  }

  lemma {:induction false} MinElementIsBest(tests: seq<Option<Candidate>>)
    ensures var cs := Passing(tests);
      Best(tests) == if cs == [] then None else Some(cs[MinElement(cs)])
  {
    if tests != [] {
      var last := |tests| - 1;
      MinElementIsBest(tests[..last]);
      var cs := Passing(tests[..last]);
      assert cs + [] == cs;
      if tests[last].Some? {
        assert Passing(tests)[..|cs|] == cs;
      }
    }
  }

  // The place allocate settles on; the last test is strict again.
  function Choose(form: Form, b: Block, size: nat, elem: nat): Option<Candidate> {
    if size > b.end - b.begin then None
    else
      match Best(Tests(form, b, size, elem))
      case Some(c) => if c.usable > size then Some(c) else None
      case None => None
  }

  // Choose in the source's terms: the minimal element of the candidate list.
  lemma {:induction false} ChooseIsMinElement(form: Form, b: Block, size: nat, elem: nat)
    requires size <= b.end - b.begin
    ensures var cs := Passing(Tests(form, b, size, elem));
      Choose(form, b, size, elem) ==
        if cs != [] && cs[MinElement(cs)].usable > size then Some(cs[MinElement(cs)]) else None
  {
    MinElementIsBest(Tests(form, b, size, elem));
  }

  // The candidates among the first i gaps.
  ghost function PassingBefore(form: Form, b: Block, size: nat, elem: nat, i: nat): seq<Candidate>
    requires i <= |b.live| + 1
  {
    Passing(Tests(form, b, size, elem)[..i])
  }

  lemma {:induction false} PassingNext(form: Form, b: Block, size: nat, elem: nat, i: nat)
    requires i <= |b.live|
    ensures PassingBefore(form, b, size, elem, i + 1) == PassingBefore(form, b, size, elem, i) +
              match CandidateAt(form, b, i, size, elem) case Some(c) => [c] case None => []
  {
    var tests := Tests(form, b, size, elem);
    assert tests[..i + 1][..i] == tests[..i];
  }

  lemma {:induction false} PassingEnds(form: Form, b: Block, size: nat, elem: nat)
    ensures PassingBefore(form, b, size, elem, 0) == []
    ensures PassingBefore(form, b, size, elem, |b.live| + 1) == Passing(Tests(form, b, size, elem))
  {
    var tests := Tests(form, b, size, elem);
    assert tests[..|b.live| + 1] == tests;
  }

  // allocatedBlocks[r.begin] = r.end
  function Insert(live: seq<Range>, r: Range): seq<Range> {
    if live == [] || r.begin < live[0].begin then [r] + live
    else if r.begin == live[0].begin then [r] + live[1..]
    else [live[0]] + Insert(live[1..], r)
  }

  // allocatedBlocks.erase(find(ptr))
  function Without(live: seq<Range>, ptr: nat): seq<Range> {
    if live == [] then []
    else if live[0].begin == ptr then live[1..]
    else [live[0]] + Without(live[1..], ptr)
  }

  function Allocated(form: Form, b: Block, size: nat, elem: nat): Block {
    match Choose(form, b, size, elem)
    case Some(c) => b.(live := Insert(b.live, Range(c.start, c.start + size, elem)))
    case None => b
  }

  function Freed(b: Block, ptr: nat): Block {
    if b.begin <= ptr <= b.end then b.(live := Without(b.live, ptr)) else b
  }

  class MemoryBlock {
    const form: Form
    const begin: nat
    const end: nat
    var live: seq<Range>

    function Value(): Block reads this { Block(begin, end, live) }

    // begin: the address the raw allocator returned.
    constructor (form: Form, begin: nat, size: nat)
      ensures this.form == form && Value() == Block(begin, begin + size, [])
    {
      this.form, this.begin, this.end, this.live := form, begin, begin + size, [];
    }

    // The first half of the source's allocate: one pass over the map in key order, whether
    // or not the ranges overlap.
    method Candidates(size: nat, elemSize: nat) returns (candidates: seq<Candidate>)
      ensures candidates == Passing(Tests(form, Value(), size, elemSize))
    {
      ghost var b := Value();
      PassingEnds(form, b, size, elemSize);
      candidates := [];
      var prevEnd := begin;
      for i := 0 to |live|
        invariant prevEnd == b.GapStart(i)
        invariant candidates == PassingBefore(form, b, size, elemSize, i)
      {
        PassingNext(form, b, size, elemSize, i);
        if AsSize(live[i].begin - prevEnd) > size {
          var alignment := AlignmentOffset(prevEnd, elemSize);
          var usable := Usable(form, live[i].begin - prevEnd, alignment);
          if usable >= size {
            candidates := candidates + [Candidate(usable, prevEnd + alignment, i)];
          }
        }
        prevEnd := live[i].end;
      }
      PassingNext(form, b, size, elemSize, |live|);
      if AsSize(end - prevEnd) >= size {
        var alignment := AlignmentOffset(prevEnd, elemSize);
        var usable := Usable(form, end - prevEnd, alignment);
        if usable >= size {
          candidates := candidates + [Candidate(usable, prevEnd + alignment, |live|)];
        }
      }
    }

    method Allocate(size: nat, elemSize: nat) returns (ptr: Option<nat>)
      modifies this
      ensures Value() == Allocated(form, old(Value()), size, elemSize)
      ensures ptr == match Choose(form, old(Value()), size, elemSize) case Some(c) => Some(c.start) case None => None
    {
      if size > end - begin { return None; }
      var candidates := Candidates(size, elemSize);
      ChooseIsMinElement(form, Value(), size, elemSize);
      if candidates != [] {
        var min := candidates[MinElement(candidates)];
        if min.usable > size {
          live := Insert(live, Range(min.start, min.start + size, elemSize));
          return Some(min.start);
        }
      }
      return None;
    }

    // The upper bound test is inclusive; an unknown address inside the block is accepted.
    method DeAllocate(ptr: nat) returns (ok: bool)
      modifies this
      ensures Value() == Freed(old(Value()), ptr)
      ensures ok <==> begin <= ptr <= end
    {
      if ptr < begin || ptr > end { return false; }
      live := Without(live, ptr);
      return true;
    }
  }

  // ------------------------------------------------------------------ what Choose picks

  lemma {:induction false} BestIsTest(tests: seq<Option<Candidate>>)
    requires forall k :: 0 <= k < |tests| ==> tests[k].Some? ==> tests[k].value.gap == k
    requires Best(tests).Some?
    ensures var c := Best(tests).value; c.gap < |tests| && tests[c.gap] == Some(c)
  {
    var init := tests[..|tests| - 1];
    if Best(init).Some? { BestIsTest(init); }
  }

  lemma {:induction false} BestIsLeast(tests: seq<Option<Candidate>>, i: nat)
    requires forall k :: 0 <= k < |tests| ==> tests[k].Some? ==> tests[k].value.gap == k
    requires i < |tests| && tests[i].Some?
    ensures Best(tests).Some? && Best(tests).value.usable <= tests[i].value.usable
    ensures i < Best(tests).value.gap ==> Best(tests).value.usable < tests[i].value.usable
  {
    var init := tests[..|tests| - 1];
    if i < |init| {
      assert init[i] == tests[i];
      BestIsLeast(init, i);
    } else if Best(init).Some? {
      BestIsTest(init);
    }
  }

  lemma {:induction false} ChooseIsLeast(form: Form, b: Block, size: nat, elem: nat, i: nat)
    requires i <= |b.live| && CandidateAt(form, b, i, size, elem).Some? && size <= b.end - b.begin
    ensures var d := CandidateAt(form, b, i, size, elem).value;
      match Choose(form, b, size, elem)
      case Some(c) => c.usable <= d.usable && (i < c.gap ==> c.usable < d.usable)
      case None => exists k :: 0 <= k <= |b.live| && Refused(form, b, k, size, elem)
  {
    var tests := Tests(form, b, size, elem);
    BestIsLeast(tests, i);
    BestIsTest(tests);
    assert Choose(form, b, size, elem).None? ==> Refused(form, b, Best(tests).value.gap, size, elem);
  }

  // The gap passes both tests but is no larger than the request.
  ghost predicate Refused(form: Form, b: Block, k: nat, size: nat, elem: nat)
    requires k <= |b.live|
  {
    var d := CandidateAt(form, b, k, size, elem);
    d.Some? && d.value.usable <= size
  }

  lemma {:induction false} ChooseIsCandidate(form: Form, b: Block, size: nat, elem: nat)
    requires Choose(form, b, size, elem).Some?
    ensures var c := Choose(form, b, size, elem).value;
      && c.gap <= |b.live| && c.usable > size
      && CandidateAt(form, b, c.gap, size, elem) == Some(c)
  {
    BestIsTest(Tests(form, b, size, elem));
  }

  // ------------------------------------------------------------------ placement

  lemma {:induction false} InsertPosition(live: seq<Range>, r: Range, i: nat)
    requires i <= |live|
    requires forall j :: 0 <= j < i ==> live[j].begin < r.begin
    requires i < |live| ==> r.begin < live[i].begin
    ensures Insert(live, r) == live[..i] + [r] + live[i..]
  {
    if i > 0 {
      InsertPosition(live[1..], r, i - 1);
      assert live[1..][..i - 1] == live[1..i];
      assert live[..i] == [live[0]] + live[1..i];
    }
  }

  // A range that ends inside its gap keeps the map valid and disturbs nothing.
  lemma {:induction false} FittingRange(b: Block, i: nat, r: Range)
    requires b.Valid() && i <= |b.live|
    requires b.GapStart(i) <= r.begin < r.end <= b.GapStop(i)
    ensures Insert(b.live, r) == b.live[..i] + [r] + b.live[i..]
    ensures b.(live := Insert(b.live, r)).Valid()
    ensures b.Free(r.begin, r.end)
  {
    forall j | 0 <= j < i ensures b.live[j].end <= r.begin && b.live[j].begin < r.begin {
      if j < i - 1 { LiveOrdered(b, j, i - 1); LiveInside(b, i - 1); }
    }
    forall j | i <= j < |b.live| ensures r.end <= b.live[j].begin {
      if i < j { LiveOrdered(b, i, j); }
    }
    if i > 0 { LiveInside(b, i - 1); }
    if i < |b.live| { LiveInside(b, i); }
    InsertPosition(b.live, r, i);
    SpliceValid(b, i, r);
  }

  lemma {:induction false} SpliceValid(b: Block, i: nat, r: Range)
    requires b.Valid() && i <= |b.live|
    requires b.GapStart(i) <= r.begin < r.end <= b.GapStop(i)
    ensures b.(live := b.live[..i] + [r] + b.live[i..]).Valid()
  {
    var b' := b.(live := b.live[..i] + [r] + b.live[i..]);
    forall k | 0 <= k <= |b'.live| ensures b'.GapStart(k) <= b'.GapStop(k) {
      if k < i { assert b.GapStart(k) <= b.GapStop(k); }
      if k > i + 1 { assert b.GapStart(k - 1) <= b.GapStop(k - 1); }
    }
    forall k | 0 <= k < |b'.live| ensures b'.live[k].begin < b'.live[k].end {
      if k < i { assert b'.live[k] == b.live[k]; }
      if k > i { assert b'.live[k] == b.live[k - 1]; }
    }
  }

  // With gap minus offset the range always fits its gap, so it is free, aligned and in order.
  lemma {:induction false} IntendedFits(b: Block, size: nat, elem: nat)
    requires b.Valid() && 0 < size
    requires Choose(Intended, b, size, elem).Some?
    ensures var c := Choose(Intended, b, size, elem).value;
      && b.Free(c.start, c.start + size)
      && (elem > 0 ==> c.start % elem == 0)
      && c.gap <= |b.live|
      && Insert(b.live, Range(c.start, c.start + size, elem)) ==
           b.live[..c.gap] + [Range(c.start, c.start + size, elem)] + b.live[c.gap..]
      && Allocated(Intended, b, size, elem).Valid()
  {
    ChooseIsCandidate(Intended, b, size, elem);
    var c := Choose(Intended, b, size, elem).value;
    if elem > 0 { OffsetAligns(b.GapStart(c.gap), elem); }
    FittingRange(b, c.gap, Range(c.start, c.start + size, elem));
  }

  // ------------------------------------------------------------------ best fit

  // No gap needs padding for this element size.
  ghost predicate Unpadded(b: Block, elem: nat)
    requires b.Valid()
  {
    forall i :: 0 <= i <= |b.live| ==> Offset(b.GapStart(i), elem) == 0
  }

  // The leftmost of the smallest gaps strictly larger than the request.
  lemma {:induction false} BestFit(form: Form, b: Block, size: nat, elem: nat)
    requires b.Valid() && Unpadded(b, elem) && Choose(form, b, size, elem).Some?
    ensures var c := Choose(form, b, size, elem).value;
      && c.gap <= |b.live| && c.start == b.GapStart(c.gap) && b.Gap(c.gap) > size
      && forall i :: 0 <= i <= |b.live| && b.Gap(i) > size ==>
           b.Gap(c.gap) <= b.Gap(i) && (i < c.gap ==> b.Gap(c.gap) < b.Gap(i))
  {
    ChooseIsCandidate(form, b, size, elem);
    var c := Choose(form, b, size, elem).value;
    forall i | 0 <= i <= |b.live| && b.Gap(i) > size
      ensures b.Gap(c.gap) <= b.Gap(i) && (i < c.gap ==> b.Gap(c.gap) < b.Gap(i))
    {
      ChooseIsLeast(form, b, size, elem, i);
    }
  }

  // Null is returned exactly when no gap is larger than the request, or when the last gap
  // equals it: that gap then passes its test, is the smallest candidate, and is refused.
  lemma {:induction false} RefusalIff(form: Form, b: Block, size: nat, elem: nat)
    requires b.Valid() && Unpadded(b, elem)
    ensures Choose(form, b, size, elem).None? <==>
      (forall i :: 0 <= i <= |b.live| ==> b.Gap(i) <= size) || b.Gap(|b.live|) == size
  {
    var n := |b.live|;
    forall i | 0 <= i <= n ensures b.Gap(i) <= b.end - b.begin {
      if 0 < i { LiveInside(b, i - 1); }
      if i < n { LiveInside(b, i); }
    }
    assert b.GapStart(n) <= b.GapStop(n);
    if Choose(form, b, size, elem).Some? {
      BestFit(form, b, size, elem);
      var c := Choose(form, b, size, elem).value;
      if b.Gap(n) == size { ChooseIsLeast(form, b, size, elem, n); ChooseIsCandidate(form, b, size, elem); }
    } else if i :| 0 <= i <= n && b.Gap(i) > size {
      ChooseIsLeast(form, b, size, elem, i);
      var k :| 0 <= k <= n && Refused(form, b, k, size, elem);
    }
  }

  // ------------------------------------------------------------------ runs

  datatype Op = Alloc(size: nat, elem: nat) | Release(ptr: nat)

  function Step(form: Form, b: Block, op: Op): Block {
    match op
    case Alloc(size, elem) => Allocated(form, b, size, elem)
    case Release(ptr) => Freed(b, ptr)
  }

  function Run(form: Form, b: Block, ops: seq<Op>): Block
    decreases |ops|
  {
    if ops == [] then b else Run(form, Step(form, b, ops[0]), ops[1..])
  }

  // Erasing a key removes exactly its range.
  lemma {:induction false} WithoutSplits(live: seq<Range>, ptr: nat) returns (i: nat)
    ensures i <= |live|
    ensures if i == |live| then Without(live, ptr) == live
            else live[i].begin == ptr && Without(live, ptr) == live[..i] + live[i + 1..]
  {
    if live == [] || live[0].begin == ptr {
      i := 0;
    } else {
      var rest := live[1..];
      var j := WithoutSplits(rest, ptr);
      i := j + 1;
      assert live == [live[0]] + rest;
      if j < |rest| { assert live[..i] == [live[0]] + rest[..j] && live[i + 1..] == rest[j + 1..]; }
    }
  }

  lemma {:induction false} CutValid(b: Block, i: nat)
    requires b.Valid() && i < |b.live|
    ensures b.(live := b.live[..i] + b.live[i + 1..]).Valid()
  {
    var b' := b.(live := b.live[..i] + b.live[i + 1..]);
    assert b.GapStart(i) <= b.GapStop(i) && b.GapStart(i + 1) <= b.GapStop(i + 1);
    forall k | 0 <= k <= |b'.live| ensures b'.GapStart(k) <= b'.GapStop(k) {
      if k < i { assert b.GapStart(k) <= b.GapStop(k); }
      if k >= i { assert b.GapStart(k + 1) <= b.GapStop(k + 1); }
      if k == i { assert b'.GapStart(k) == b.GapStart(i) && b'.GapStop(k) == b.GapStop(i + 1); }
      if k > i { assert b'.GapStart(k) == b.GapStart(k + 1) && b'.GapStop(k) == b.GapStop(k + 1); }
    }
    forall k | 0 <= k < |b'.live| ensures b'.live[k].begin < b'.live[k].end {
      assert b'.live[k] == if k < i then b.live[k] else b.live[k + 1];
    }
  }

  lemma {:induction false} FreedKeeps(b: Block, ptr: nat)
    requires b.Valid()
    ensures Freed(b, ptr).Valid()
    ensures forall r :: r in Freed(b, ptr).live ==> r in b.live
  {
    var i := WithoutSplits(b.live, ptr);
    if i < |b.live| { CutValid(b, i); }
  }

  // Every request is for at least one byte.
  predicate Sized(ops: seq<Op>) { forall i :: 0 <= i < |ops| ==> ops[i].Alloc? ==> ops[i].size > 0 }

  lemma {:induction false} IntendedStepKeeps(b: Block, op: Op)
    requires b.Valid() && b.Aligned() && (op.Alloc? ==> op.size > 0)
    ensures var b' := Step(Intended, b, op); b'.Valid() && b'.Aligned()
  {
    match op
    case Alloc(size, elem) =>
      if Choose(Intended, b, size, elem).Some? { IntendedFits(b, size, elem); }
    case Release(ptr) => FreedKeeps(b, ptr);
  }

  // With gap minus offset: over every run the live ranges are nonempty, ordered, disjoint,
  // inside the block and aligned to their element size.
  lemma {:induction false} IntendedRunsAreSafe(b: Block, ops: seq<Op>)
    requires b.Valid() && b.Aligned() && Sized(ops)
    ensures var b' := Run(Intended, b, ops); b'.Valid() && b'.Aligned()
    decreases |ops|
  {
    if ops != [] {
      IntendedStepKeeps(b, ops[0]);
      IntendedRunsAreSafe(Step(Intended, b, ops[0]), ops[1..]);
    }
  }

  type Granule = g: nat | g > 0 witness 1

  // Every address the block hands out is a multiple of the granule.
  ghost predicate Grained(b: Block, g: Granule) {
    b.begin % g == 0 && forall r :: r in b.live ==> r.end % g == 0
  }

  predicate GrainedOp(op: Op, g: Granule) {
    op.Alloc? ==> op.size > 0 && op.size % g == 0 && op.elem > 0 && g % op.elem == 0
  }

  lemma DividesTwice(x: nat, g: Granule, e: nat)
    requires e > 0 && x % g == 0 && g % e == 0
    ensures x % e == 0
  {
    var a, c := x / g, g / e;
    assert x == g * a && g == e * c;
    assert x == e * (c * a) + 0;
    ModUnique(x, e, c * a, 0);
  }

  lemma SumOfMultiples(x: nat, y: nat, g: Granule)
    requires x % g == 0 && y % g == 0
    ensures (x + y) % g == 0
  {
    var a, c := x / g, y / g;
    assert x == g * a && y == g * c;
    assert x + y == g * (a + c) + 0;
    ModUnique(x + y, g, a + c, 0);
  }

  // On a granule no gap needs padding, and then the two forms choose alike.
  lemma {:induction false} GranuleUnpadded(b: Block, g: Granule, elem: nat)
    requires b.Valid() && elem > 0 && Grained(b, g) && g % elem == 0
    ensures Unpadded(b, elem)
  {
    forall i | 0 <= i <= |b.live| ensures Offset(b.GapStart(i), elem) == 0 {
      assert i > 0 ==> b.live[i - 1] in b.live;
      DividesTwice(b.GapStart(i), g, elem);
      OffsetAligns(b.GapStart(i), elem);
    }
  }

  lemma {:induction false} UnpaddedFormsAgree(b: Block, size: nat, elem: nat)
    requires b.Valid() && Unpadded(b, elem)
    ensures Choose(AsWritten, b, size, elem) == Choose(Intended, b, size, elem)
  {
    assert Tests(AsWritten, b, size, elem) == Tests(Intended, b, size, elem);
  }

  lemma {:induction false} GrainedStep(b: Block, op: Op, g: Granule)
    requires b.Valid() && b.Aligned() && Grained(b, g) && GrainedOp(op, g)
    ensures Step(AsWritten, b, op) == Step(Intended, b, op)
    ensures Grained(Step(AsWritten, b, op), g)
  {
    match op
    case Release(ptr) => FreedKeeps(b, ptr);
    case Alloc(size, elem) =>
      GranuleUnpadded(b, g, elem);
      UnpaddedFormsAgree(b, size, elem);
      if Choose(Intended, b, size, elem).Some? { GrainedPlacement(b, size, elem, g); }
  }

  lemma {:induction false} GrainedPlacement(b: Block, size: nat, elem: nat, g: Granule)
    requires b.Valid() && Grained(b, g) && Unpadded(b, elem)
    requires 0 < size && size % g == 0 && Choose(Intended, b, size, elem).Some?
    ensures Grained(Allocated(Intended, b, size, elem), g)
  {
    IntendedFits(b, size, elem);
    ChooseIsCandidate(Intended, b, size, elem);
    var c := Choose(Intended, b, size, elem).value;
    assert c.gap > 0 ==> b.live[c.gap - 1] in b.live;
    SumOfMultiples(b.GapStart(c.gap), size, g);
  }

  // As written: safe over every run whose block begin and request sizes are multiples of a
  // granule that every element size divides; it then does exactly what the intended form does.
  lemma {:induction false} GrainedRunsAreSafe(b: Block, ops: seq<Op>, g: Granule)
    requires b.Valid() && b.Aligned() && Grained(b, g)
    requires forall i :: 0 <= i < |ops| ==> GrainedOp(ops[i], g)
    ensures var b' := Run(AsWritten, b, ops); b'.Valid() && b'.Aligned()
    ensures Run(AsWritten, b, ops) == Run(Intended, b, ops)
    decreases |ops|
  {
    if ops != [] {
      GrainedStep(b, ops[0], g);
      IntendedStepKeeps(b, ops[0]);
      GrainedRunsAreSafe(Step(AsWritten, b, ops[0]), ops[1..], g);
    }
  }
}
