/**
  The CPU CombinedPolicy: a matrix is allocated by the small or the large sub-allocator,
  by its total size.  The total is computed by a loop over the dimensions that also fills
  in the caller's strides, and the sub-allocator runs the same loop again.
*/
module CombinedPolicies {
  import opened MachineWords

  const AUTOSTEP: int := 0x7fff_ffff

  // ok is false when the assertion total <= step[i] failed; steps are those written so far.
  datatype Layout = Layout(ok: bool, total: int, steps: seq<int>)

  // Dimensions i-1 down to 0.  An empty `steps` stands for a null step pointer.
  function LayoutFrom(sizes: seq<int>, data: bool, steps: seq<int>, i: nat, total: int): Layout
    requires i <= |sizes| && (steps == [] || |steps| == |sizes|)
    decreases i
  {
    if i == 0 then Layout(true, total, steps)
    else
      var k := i - 1;
      if steps == [] then LayoutFrom(sizes, data, steps, k, total * sizes[k] % WORD)
      else if data && steps[k] != AUTOSTEP then
        if total <= steps[k] then LayoutFrom(sizes, data, steps, k, steps[k] * sizes[k] % WORD)
        else Layout(false, total, steps)
      else LayoutFrom(sizes, data, steps[k := total], k, total * sizes[k] % WORD)
  }

  // The source's loop; size_t arithmetic wraps.
  method StrideLoop(sizes: seq<int>, elemSize: nat, data: bool, step: array?<int>) returns (ok: bool, total: int)
    requires step != null ==> step.Length == |sizes| > 0
    modifies step
    ensures var was: seq<int> := if step == null then [] else old(step[..]);
      var l := LayoutFrom(sizes, data, was, |sizes|, elemSize);
      ok == l.ok && total == l.total && (step != null ==> step[..] == l.steps)
  {
    total := elemSize;
    var i := |sizes|;
    ghost var was: seq<int> := if step == null then [] else step[..];
    while i > 0
      invariant 0 <= i <= |sizes|
      invariant LayoutFrom(sizes, data, was, |sizes|, elemSize) ==
                LayoutFrom(sizes, data, if step == null then [] else step[..], i, total)
    {
      i := i - 1;
      if step != null {
        if data && step[i] != AUTOSTEP {
          if total > step[i] { return false, total; }
          total := step[i];
        } else {
          ghost var before := step[..];
          step[i] := total;
          assert step[..] == before[i := total];
        }
      }
      total := total * sizes[i] % WORD;
    }
    ok := true;
  }

  // Running the loop again on the steps it wrote gives the same steps and the same total.
  lemma {:induction false} LayoutIsIdempotent(sizes: seq<int>, data: bool, steps: seq<int>, i: nat, total: int)
    requires i <= |sizes| && (steps == [] || |steps| == |sizes|)
    requires LayoutFrom(sizes, data, steps, i, total).ok
    ensures var l := LayoutFrom(sizes, data, steps, i, total);
      && |l.steps| == |steps| && (forall j :: i <= j < |steps| ==> l.steps[j] == steps[j])
      && LayoutFrom(sizes, data, l.steps, i, total) == l
    decreases i
  {
    if i > 0 && steps != [] {
      var k := i - 1;
      var given := data && steps[k] != AUTOSTEP;
      var next := if given then steps else steps[k := total];
      LayoutIsIdempotent(sizes, data, next, k, next[k] * sizes[k] % WORD);
      var l := LayoutFrom(sizes, data, steps, i, total);
      assert l.steps[k := next[k]] == l.steps;
    } else if i > 0 {
      LayoutIsIdempotent(sizes, data, steps, i - 1, total * sizes[i - 1] % WORD);
    }
  }

  // ------------------------------------------------------------------ what the loop computes

  function Product(sizes: seq<int>): int {
    if sizes == [] then 1 else sizes[0] * Product(sizes[1..])
  }

  predicate Given(data: bool, steps: seq<int>, k: nat)
    requires k < |steps|
  {
    data && steps[k] != AUTOSTEP
  }

  // The stride of dimension k, and the bytes behind it: one element, or the next dimension whole.
  function Stride(sizes: seq<int>, data: bool, steps: seq<int>, elem: nat, k: nat): int
    requires k < |sizes| == |steps|
    decreases |sizes| - k, 1
  {
    if Given(data, steps, k) then steps[k] else Behind(sizes, data, steps, elem, k)
  }

  function Behind(sizes: seq<int>, data: bool, steps: seq<int>, elem: nat, k: nat): int
    requires k < |sizes| == |steps|
    decreases |sizes| - k, 0
  {
    if k == |sizes| - 1 then elem else Stride(sizes, data, steps, elem, k + 1) * sizes[k + 1] % WORD
  }

  // Dimensions i.. are done: their strides are written, and total is the bytes behind i - 1.
  predicate DoneFrom(sizes: seq<int>, data: bool, was: seq<int>, elem: nat, steps: seq<int>, i: nat, total: int) {
    && |sizes| == |was| == |steps| && i <= |sizes|
    && (forall k :: 0 <= k < i ==> steps[k] == was[k])
    && (forall k :: i <= k < |sizes| ==> steps[k] == Stride(sizes, data, was, elem, k))
    && (forall k :: i <= k < |sizes| && Given(data, was, k) ==> Behind(sizes, data, was, elem, k) <= was[k])
    && total == if i == |sizes| then elem else Stride(sizes, data, was, elem, i) * sizes[i] % WORD
  }

  lemma {:induction false} LayoutFromDone(sizes: seq<int>, data: bool, was: seq<int>, elem: nat, steps: seq<int>, i: nat, total: int)
    requires sizes != [] && DoneFrom(sizes, data, was, elem, steps, i, total)
    ensures
      var l := LayoutFrom(sizes, data, steps, i, total);
      && (l.ok <==> forall k :: 0 <= k < |sizes| && Given(data, was, k) ==> Behind(sizes, data, was, elem, k) <= was[k])
      && (l.ok ==> DoneFrom(sizes, data, was, elem, l.steps, 0, l.total))
    decreases i
  {
    if i > 0 {
      var k := i - 1;
      assert total == Behind(sizes, data, was, elem, k);
      if !Given(data, was, k) {
        LayoutFromDone(sizes, data, was, elem, steps[k := total], k, total * sizes[k] % WORD);
      } else if total <= steps[k] {
        LayoutFromDone(sizes, data, was, elem, steps, k, steps[k] * sizes[k] % WORD);
      }
    }
  }

  predicate IsStride(sizes: seq<int>, data: bool, steps: seq<int>, elem: nat, written: seq<int>, k: nat)
    requires k < |sizes| == |steps| == |written|
  {
    written[k] ==
      if Given(data, steps, k) then steps[k]
      else if k == |sizes| - 1 then elem else written[k + 1] * sizes[k + 1] % WORD
  }

  // With a step array: the loop succeeds exactly when every given stride is at least the bytes
  // behind it; then given strides stay, every other one is the bytes behind it, that is, one
  // element or the next stride times the next size, and the total is the first stride times
  // the first size.
  lemma {:induction false} LayoutIsStrides(sizes: seq<int>, data: bool, steps: seq<int>, elem: nat)
    requires sizes != [] && |steps| == |sizes|
    ensures
      var n, l := |sizes|, LayoutFrom(sizes, data, steps, |sizes|, elem);
      && (l.ok <==> forall k :: 0 <= k < n && Given(data, steps, k) ==> Behind(sizes, data, steps, elem, k) <= steps[k])
      && (l.ok ==>
        && |l.steps| == n && l.total == l.steps[0] * sizes[0] % WORD
        && (forall k :: 0 <= k < n ==> IsStride(sizes, data, steps, elem, l.steps, k)))
  {
    var l := LayoutFrom(sizes, data, steps, |sizes|, elem);
    LayoutFromDone(sizes, data, steps, elem, steps, |sizes|, elem);
    if l.ok {
      forall k | 0 <= k < |sizes|
        ensures IsStride(sizes, data, steps, elem, l.steps, k)
      {
        if k < |sizes| - 1 { assert l.steps[k + 1] == Stride(sizes, data, steps, elem, k + 1); }
      }
    }
  }

  lemma ModProduct(x: int, y: int)
    ensures x % WORD * y % WORD == x * y % WORD
  {
    var q := x / WORD;
    assert x == q * WORD + x % WORD;
    assert x * y == q * y * WORD + x % WORD * y;
    ModShift(x % WORD * y, q * y);
  }

  lemma ModShift(x: int, q: int)
    ensures (q * WORD + x) % WORD == x % WORD
  {
    var a, b := x / WORD, (q * WORD + x) / WORD;
    assert (b - q - a) * WORD == x % WORD - (q * WORD + x) % WORD;
  }

  lemma {:induction false} StrideIsProduct(sizes: seq<int>, data: bool, steps: seq<int>, elem: nat, k: nat)
    requires k < |sizes| == |steps| && elem < WORD && forall j :: 0 <= j < |steps| ==> !Given(data, steps, j)
    ensures Stride(sizes, data, steps, elem, k) == elem * Product(sizes[k + 1..]) % WORD
    decreases |sizes| - k
  {
    if k < |sizes| - 1 {
      StrideIsProduct(sizes, data, steps, elem, k + 1);
      LaterProduct(sizes, elem, k + 1);
    }
  }

  lemma LaterProduct(sizes: seq<int>, elem: nat, k: nat)
    requires k < |sizes|
    ensures elem * Product(sizes[k + 1..]) % WORD * sizes[k] % WORD == elem * Product(sizes[k..]) % WORD
  {
    var later := Product(sizes[k + 1..]);
    assert sizes[k..][1..] == sizes[k + 1..];
    ModProduct(elem * later, sizes[k]);
    assert elem * later * sizes[k] == elem * (sizes[k] * later);
  }

  lemma {:induction false} TotalIsProduct(sizes: seq<int>, data: bool, elem: nat, i: nat)
    requires i <= |sizes| && elem < WORD
    ensures
      var l := LayoutFrom(sizes, data, [], i, elem * Product(sizes[i..]) % WORD);
      l.ok && l.steps == [] && l.total == elem * Product(sizes) % WORD
    decreases i
  {
    if i == 0 {
      assert sizes[0..] == sizes;
    } else {
      LaterProduct(sizes, elem, i - 1);
      TotalIsProduct(sizes, data, elem, i - 1);
    }
  }

  // Without given strides, or without a step array: stride k is an element times all later
  // sizes and the total an element times all sizes, as size_t.
  lemma {:induction false} LayoutIsProduct(sizes: seq<int>, data: bool, steps: seq<int>, elem: nat)
    requires elem < WORD && (steps == [] || |steps| == |sizes|)
    requires forall j :: 0 <= j < |steps| ==> !Given(data, steps, j)
    ensures
      var l := LayoutFrom(sizes, data, steps, |sizes|, elem);
      && l.ok && l.total == elem * Product(sizes) % WORD && |l.steps| == |steps|
      && forall k :: 0 <= k < |steps| ==> l.steps[k] == elem * Product(sizes[k + 1..]) % WORD
  {
    if steps == [] {
      assert sizes[|sizes|..] == [];
      TotalIsProduct(sizes, data, elem, |sizes|);
    } else {
      LayoutFromDone(sizes, data, steps, elem, steps, |sizes|, elem);
      forall k | 0 <= k < |sizes|
        ensures Stride(sizes, data, steps, elem, k) == elem * Product(sizes[k + 1..]) % WORD
      {
        StrideIsProduct(sizes, data, steps, elem, k);
      }
      LaterProduct(sizes, elem, 0);
      assert sizes[0..] == sizes;
    }
  }

  datatype Which = Small | Large

  // cv::UMatData: the size recorded by the sub-allocator that made it.
  datatype UMatData = UMatData(maker: Which, size: int, userAllocated: bool)

  function Route(size: int, threshold: int): Which { if size < threshold then Small else Large }

  // A sub-allocator's allocate: the stride loop, then a buffer of the total it found.
  method SubAllocate(which: Which, sizes: seq<int>, elemSize: nat, data: bool, step: array?<int>)
    returns (ok: bool, u: UMatData)
    requires step != null ==> step.Length == |sizes| > 0
    modifies step
    ensures var l := LayoutFrom(sizes, data, if step == null then [] else old(step[..]), |sizes|, elemSize);
      && ok == l.ok && (step != null ==> step[..] == l.steps)
      && u == UMatData(which, l.total, data)
  {
    var total;
    ok, total := StrideLoop(sizes, elemSize, data, step);
    u := UMatData(which, total, data);
  }

  // The second loop cannot fail, records the size the route was chosen by, and so
  // deallocate, which routes by the recorded size, reaches the allocator that made the buffer.
  method CombinedAllocate(sizes: seq<int>, elemSize: nat, data: bool, step: array?<int>, threshold: int)
    returns (ok: bool, u: UMatData)
    requires step != null ==> step.Length == |sizes| > 0
    modifies step
    ensures var l := LayoutFrom(sizes, data, if step == null then [] else old(step[..]), |sizes|, elemSize);
      ok == l.ok && (step != null ==> step[..] == l.steps) && u.size == l.total
    ensures ok ==> (u.maker == Small <==> u.size < threshold)
  {
    var total;
    ghost var was: seq<int> := if step == null then [] else step[..];
    ok, total := StrideLoop(sizes, elemSize, data, step);
    if !ok { return false, UMatData(Small, total, data); }
    LayoutIsIdempotent(sizes, data, was, |sizes|, elemSize);
    ok, u := SubAllocate(Route(total, threshold), sizes, elemSize, data, step);
  }

  // Frees through the allocator the recorded size belongs to.
  method CombinedDeallocate(u: UMatData, threshold: int) returns (which: Which)
    ensures which == Small <==> u.size < threshold
  {
    which := Route(u.size, threshold);
  }
}
