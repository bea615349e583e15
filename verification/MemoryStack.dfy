/**
  CpuMemoryStackImpl: an exact-size free list.  Returned blocks are cached with their free
  time and handed back to the host allocator when stale.
*/
module MemoryStacks {
  import opened MachineWords
  import opened Wrappers

  const CLOCK_LIMIT: int := 0x8000_0000_0000_0000

  datatype Cached = Cached(ptr: nat, freed: int, size: nat)

  // (time - freed) > delay, with the signed difference converted to size_t.
  predicate Stale(c: Cached, time: int, delay: nat) { (time - c.freed) % WORD > delay }

  // First entry of exactly this size, or the length of the list.
  function FindSize(cache: seq<Cached>, total: nat): (i: nat)
    ensures i <= |cache|
    ensures i < |cache| ==> cache[i].size == total
    ensures forall j :: 0 <= j < i ==> cache[j].size != total
  {
    if cache == [] || cache[0].size == total then 0 else 1 + FindSize(cache[1..], total)
  }

  // What a cleanup at `time` leaves in the cache.
  function Kept(cache: seq<Cached>, time: int, delay: nat): seq<Cached> {
    if cache == [] then []
    else (if Stale(cache[0], time, delay) then [] else [cache[0]]) + Kept(cache[1..], time, delay)
  }

  class CpuMemoryStack {
    const delay: nat
    var cache: seq<Cached>

    constructor (delay: nat)
      ensures this.delay == delay && cache == []
    {
      this.delay, cache := delay, [];
    }

    // raw: what the host allocator returns, if it is asked.
    method Allocate(total: nat, raw: nat) returns (ptr: nat)
      modifies this
      ensures var i := FindSize(old(cache), total);
        if i < |old(cache)| then ptr == old(cache)[i].ptr && cache == old(cache)[..i] + old(cache)[i + 1..]
        else ptr == raw && cache == old(cache)
    {
      var i := 0;
      while i < |cache|
        invariant i <= |cache| && cache == old(cache)
        invariant FindSize(cache, total) == i + FindSize(cache[i..], total)
      {
        if cache[i].size == total {
          ptr := cache[i].ptr;
          cache := cache[..i] + cache[i + 1..];
          return;
        }
        i := i + 1;
      }
      ptr := raw;
    }

    // Two clock readings: one for the entry, one for the cleanup.  Returns the pointers
    // given back to the host.
    method Deallocate(ptr: nat, total: nat, freed: int, now: int) returns (released: seq<nat>)
      modifies this
      ensures cache == Kept(old(cache) + [Cached(ptr, freed, total)], now, delay)
      ensures released == ReleasedBy(old(cache) + [Cached(ptr, freed, total)], now, delay)
    {
      cache := cache + [Cached(ptr, freed, total)];
      released := Cleanup(false, now);
    }

    method Cleanup(force: bool, now: int) returns (released: seq<nat>)
      modifies this
      ensures cache == Kept(old(cache), if force then 0 else now, delay)
      ensures released == ReleasedBy(old(cache), if force then 0 else now, delay)
    {
      var time := if force then 0 else now;
      released := [];
      var i := 0;
      while i < |cache|
        invariant i <= |cache|
        invariant Kept(old(cache), time, delay) == cache[..i] + Kept(cache[i..], time, delay)
        invariant ReleasedBy(old(cache), time, delay) == released + ReleasedBy(cache[i..], time, delay)
        decreases |cache| - i
      {
        ghost var rest := cache[i + 1..];
        assert cache[i..] == [cache[i]] + rest && cache[i..][1..] == rest;
        if Stale(cache[i], time, delay) {
          released := released + [cache[i].ptr];
          cache := cache[..i] + cache[i + 1..];
          assert cache[i..] == rest;
        } else {
          i := i + 1;
        }
      }
    }
  }

  // The pointers a cleanup gives back, in list order.
  function ReleasedBy(cache: seq<Cached>, time: int, delay: nat): seq<nat> {
    if cache == [] then []
    else (if Stale(cache[0], time, delay) then [cache[0].ptr] else []) + ReleasedBy(cache[1..], time, delay)
  }

  // ------------------------------------------------------------------ what cleanup removes

  // Free times lie between 0 and now and never decrease along the list.
  ghost predicate ByFreeTime(cache: seq<Cached>, now: int) {
    && (forall i :: 0 <= i < |cache| ==> 0 <= cache[i].freed <= now)
    && (forall i, j :: 0 <= i < j < |cache| ==> cache[i].freed <= cache[j].freed)
  }

  lemma StaleIffOld(c: Cached, now: int, delay: nat)
    requires 0 <= c.freed <= now < CLOCK_LIMIT
    ensures Stale(c, now, delay) <==> now - c.freed > delay
  {
  }

  function PtrSeq(cache: seq<Cached>): seq<nat> {
    if cache == [] then [] else [cache[0].ptr] + PtrSeq(cache[1..])
  }

  // With monotone clock readings the stale entries are a prefix: a cleanup cuts the list in
  // two, gives back the front and keeps the back.
  lemma {:induction false} StaleEntriesArePrefix(cache: seq<Cached>, now: int, delay: nat) returns (n: nat)
    requires ByFreeTime(cache, now) && now < CLOCK_LIMIT
    ensures n <= |cache| && Kept(cache, now, delay) == cache[n..]
    ensures ReleasedBy(cache, now, delay) == PtrSeq(cache[..n])
  {
    n := 0;
    if cache != [] {
      StaleIffOld(cache[0], now, delay);
      if now - cache[0].freed > delay {
        var m := StaleEntriesArePrefix(cache[1..], now, delay);
        n := m + 1;
        assert cache[..n][1..] == cache[1..][..m];
      } else {
        NothingStale(cache, now, delay, cache[0].freed);
      }
    }
  }

  lemma {:induction false} NothingStale(cache: seq<Cached>, now: int, delay: nat, oldest: int)
    requires forall i :: 0 <= i < |cache| ==> 0 <= oldest <= cache[i].freed <= now
    requires now < CLOCK_LIMIT && now - oldest <= delay
    ensures Kept(cache, now, delay) == cache && ReleasedBy(cache, now, delay) == []
  {
    if cache != [] {
      StaleIffOld(cache[0], now, delay);
      NothingStale(cache[1..], now, delay, oldest);
    }
  }

  // Forced cleanup reads the clock as 0: by wraparound everything goes, except what was
  // freed at clock reading 0, which always stays.
  lemma {:induction false} ForcedCleanupKeepsTimeZero(cache: seq<Cached>, now: int, delay: nat)
    requires ByFreeTime(cache, now) && now < CLOCK_LIMIT && delay < CLOCK_LIMIT
    ensures forall c :: c in Kept(cache, 0, delay) <==> c in cache && c.freed == 0
    ensures Kept(cache, 0, delay) == [] <==> forall c :: c in cache ==> c.freed > 0
  {
    forall c ensures c in Kept(cache, 0, delay) <==> c in cache && !Stale(c, 0, delay) {
      KeptMember(cache, 0, delay, c);
    }
    forall c | c in cache ensures Stale(c, 0, delay) <==> c.freed > 0 {
      assert c.freed > 0 ==> (0 - c.freed) % WORD == WORD - c.freed;
    }
    var kept := Kept(cache, 0, delay);
    assert kept != [] ==> kept[0] in kept;
  }

  lemma {:induction false} KeptMember(cache: seq<Cached>, time: int, delay: nat, c: Cached)
    ensures c in Kept(cache, time, delay) <==> c in cache && !Stale(c, time, delay)
  {
    if cache != [] {
      KeptMember(cache[1..], time, delay, c);
      assert c in cache <==> c == cache[0] || c in cache[1..];
    }
  }

  // ------------------------------------------------------------------ ownership over runs

  function Ptrs(cache: seq<Cached>): set<nat> {
    if cache == [] then {} else {cache[0].ptr} + Ptrs(cache[1..])
  }

  predicate Distinct(cache: seq<Cached>) {
    cache != [] ==> cache[0].ptr !in Ptrs(cache[1..]) && Distinct(cache[1..])
  }

  lemma {:induction false} PtrsConcat(a: seq<Cached>, b: seq<Cached>)
    ensures Ptrs(a + b) == Ptrs(a) + Ptrs(b)
    ensures Distinct(a + b) <==> Distinct(a) && Distinct(b) && Ptrs(a) !! Ptrs(b)
  {
    if a == [] {
      assert a + b == b;
    } else {
      assert (a + b)[1..] == a[1..] + b;
      PtrsConcat(a[1..], b);
    }
  }

  lemma {:induction false} PtrSeqIsPtrs(cache: seq<Cached>)
    ensures (set p | p in PtrSeq(cache)) == Ptrs(cache)
  {
    if cache != [] { PtrSeqIsPtrs(cache[1..]); }
  }

  lemma {:induction false} PtrMember(cache: seq<Cached>, i: nat)
    requires i < |cache|
    ensures cache[i].ptr in Ptrs(cache)
  {
    if i > 0 { PtrMember(cache[1..], i - 1); }
  }

  // The clients' and the host's side of the free list: sizes as requested by the holder,
  // sizes as allocated by the host, and every pointer the host ever handed out.
  datatype World = World(
    cache: seq<Cached>, held: map<nat, nat>, sizes: map<nat, nat>, released: set<nat>, clock: int)

  datatype Op = Get(total: nat, raw: nat) | Put(ptr: nat, freed: int, now: int)

  // The host returns no block in use; a client returns what it holds; the clock is monotone.
  predicate OpOk(w: World, op: Op) {
    match op
    case Get(total, raw) => raw !in w.held && raw !in Ptrs(w.cache)
    case Put(ptr, freed, now) => ptr in w.held && w.clock <= freed <= now < CLOCK_LIMIT
  }

  function Step(w: World, op: Op, delay: nat): World
    requires OpOk(w, op)
  {
    match op
    case Get(total, raw) =>
      var i := FindSize(w.cache, total);
      if i < |w.cache| then
        w.(cache := w.cache[..i] + w.cache[i + 1..], held := w.held[w.cache[i].ptr := total])
      else
        w.(held := w.held[raw := total], sizes := w.sizes[raw := total], released := w.released - {raw})
    case Put(ptr, freed, now) =>
      var cache := w.cache + [Cached(ptr, freed, w.held[ptr])];
      w.(cache := Kept(cache, now, delay), held := w.held - {ptr}, clock := now,
         released := w.released + set p | p in ReleasedBy(cache, now, delay))
  }

  // Every pointer the host handed out is with a client, in the cache or given back; never in two.
  ghost predicate Partitioned(w: World) {
    && w.sizes.Keys == w.held.Keys + Ptrs(w.cache) + w.released
    && w.held.Keys !! Ptrs(w.cache) && w.held.Keys !! w.released && Ptrs(w.cache) !! w.released
    && Distinct(w.cache)
  }

  // A held or cached block has exactly the size the host allocated.
  ghost predicate ExactSizes(w: World) {
    && (forall p :: p in w.held && p in w.sizes ==> w.held[p] == w.sizes[p])
    && (forall c :: c in w.cache && c.ptr in w.sizes ==> c.size == w.sizes[c.ptr])
  }

  ghost predicate Owned(w: World) {
    && Partitioned(w) && ExactSizes(w)
    && 0 <= w.clock && ByFreeTime(w.cache, w.clock)
  }

  ghost predicate RunOk(w: World, ops: seq<Op>, delay: nat)
    decreases |ops|
  {
    ops != [] ==> OpOk(w, ops[0]) && RunOk(Step(w, ops[0], delay), ops[1..], delay)
  }

  function Run(w: World, ops: seq<Op>, delay: nat): World
    requires RunOk(w, ops, delay)
    decreases |ops|
  {
    if ops == [] then w else Run(Step(w, ops[0], delay), ops[1..], delay)
  }

  // Moving one cache entry to a client.
  lemma {:induction false} ReuseKeepsPartition(w: World, w': World, a: seq<Cached>, c: Cached, b: seq<Cached>)
    requires Partitioned(w) && w.cache == a + ([c] + b)
    requires w'.cache == a + b && w'.held.Keys == w.held.Keys + {c.ptr}
    requires w'.released == w.released && w'.sizes == w.sizes
    ensures Partitioned(w')
  {
    PtrsConcat(a, [c] + b);
    PtrsConcat([c], b);
    PtrsConcat(a, b);
    assert Ptrs([c]) == {c.ptr} by { assert [c][1..] == []; }
    assert Ptrs(w.cache) == Ptrs(a) + {c.ptr} + Ptrs(b);
  }

  lemma {:induction false} ReuseKeepsOwned(w: World, i: nat)
    requires Owned(w) && i < |w.cache|
    ensures Owned(w.(cache := w.cache[..i] + w.cache[i + 1..], held := w.held[w.cache[i].ptr := w.cache[i].size]))
  {
    var a, c, b := w.cache[..i], w.cache[i], w.cache[i + 1..];
    var w' := w.(cache := a + b, held := w.held[c.ptr := c.size]);
    assert w.cache == a + ([c] + b);
    ReuseKeepsPartition(w, w', a, c, b);
    RemainingByFreeTime(w.cache, w.clock, i);
    ReuseKeepsSizes(w, w', a, c, b);
  }

  lemma ReuseKeepsSizes(w: World, w': World, a: seq<Cached>, c: Cached, b: seq<Cached>)
    requires ExactSizes(w) && c in w.cache && w'.cache == a + b && (forall d :: d in a || d in b ==> d in w.cache)
    requires w'.held == w.held[c.ptr := c.size] && w'.sizes == w.sizes
    ensures ExactSizes(w')
  {}

  lemma {:induction false} FreshKeepsOwned(w: World, raw: nat, total: nat)
    requires Owned(w) && raw !in w.held && raw !in Ptrs(w.cache)
    ensures Owned(w.(held := w.held[raw := total], sizes := w.sizes[raw := total], released := w.released - {raw}))
  {
    forall d | d in w.cache ensures d.ptr != raw {
      var k :| 0 <= k < |w.cache| && w.cache[k] == d;
      PtrMember(w.cache, k);
    }
  }

  lemma {:induction false} GetKeepsOwned(w: World, op: Op, delay: nat)
    requires Owned(w) && op.Get? && OpOk(w, op)
    ensures Owned(Step(w, op, delay))
  {
    var i := FindSize(w.cache, op.total);
    if i < |w.cache| { ReuseKeepsOwned(w, i); } else { FreshKeepsOwned(w, op.raw, op.total); }
  }

  lemma {:induction false} RemainingByFreeTime(cache: seq<Cached>, now: int, i: nat)
    requires ByFreeTime(cache, now) && i < |cache|
    ensures ByFreeTime(cache[..i] + cache[i + 1..], now)
  {
    var rest := cache[..i] + cache[i + 1..];
    assert forall k :: 0 <= k < |rest| ==> rest[k] == if k < i then cache[k] else cache[k + 1];
  }

  // Moving a held block through the cache, whose stale front goes back to the host.
  lemma {:induction false} PutKeepsPartition(w: World, w': World, c: Cached, stale: seq<Cached>, kept: seq<Cached>)
    requires Partitioned(w) && c.ptr in w.held && w.cache + [c] == stale + kept
    requires w'.cache == kept && w'.held == w.held - {c.ptr}
    requires w'.released == w.released + Ptrs(stale) && w'.sizes == w.sizes
    ensures Partitioned(w')
  {
    PtrsConcat(w.cache, [c]);
    PtrsConcat(stale, kept);
    assert Ptrs([c]) == {c.ptr} && Distinct([c]) by { assert [c][1..] == []; }
    assert Ptrs(w.cache) + {c.ptr} == Ptrs(stale) + Ptrs(kept);
  }

  lemma {:induction false} PutKeepsOwned(w: World, op: Op, delay: nat)
    requires Owned(w) && op.Put? && OpOk(w, op)
    ensures Owned(Step(w, op, delay))
  {
    var c := Cached(op.ptr, op.freed, w.held[op.ptr]);
    var cache := w.cache + [c];
    ByFreeTimeSnoc(w.cache, w.clock, c, op.now);
    var n := StaleEntriesArePrefix(cache, op.now, delay);
    PtrSeqIsPtrs(cache[..n]);
    PutPrefix(w, Step(w, op, delay), c, cache, n);
  }

  lemma ByFreeTimeSnoc(cache: seq<Cached>, clock: int, c: Cached, now: int)
    requires ByFreeTime(cache, clock) && 0 <= clock <= c.freed <= now
    ensures ByFreeTime(cache + [c], now)
  {
  }

  lemma {:induction false} PutPrefix(w: World, w': World, c: Cached, cache: seq<Cached>, n: nat)
    requires Owned(w) && c.ptr in w.held && c.size == w.held[c.ptr] && w.clock <= c.freed <= w'.clock
    requires cache == w.cache + [c] && n <= |cache|
    requires w'.cache == cache[n..] && w'.held == w.held - {c.ptr} && w'.sizes == w.sizes
    requires w'.released == w.released + Ptrs(cache[..n])
    ensures Owned(w')
  {
    assert cache == cache[..n] + cache[n..];
    PutKeepsPartition(w, w', c, cache[..n], cache[n..]);
    SuffixKeepsRest(w, w', c, cache, n);
  }

  lemma {:induction false} SuffixKeepsRest(w: World, w': World, c: Cached, cache: seq<Cached>, n: nat)
    requires Owned(w) && c.ptr in w.held && c.size == w.held[c.ptr] && w.clock <= c.freed <= w'.clock
    requires cache == w.cache + [c] && n <= |cache|
    requires w'.cache == cache[n..] && w'.held == w.held - {c.ptr} && w'.sizes == w.sizes
    ensures ExactSizes(w') && ByFreeTime(w'.cache, w'.clock)
  {
    forall d | d in cache[n..] ensures d in w.cache || d == c { assert d in cache; }
    assert ByFreeTime(cache, w'.clock);
  }

  lemma EmptyIsOwned(w: World)
    requires w == World([], map[], map[], {}, w.clock) && w.clock >= 0
    ensures Owned(w)
  {}

  // In every run each block is with exactly one owner and the cache stays ordered by free
  // time; a run may start with nothing handed out yet (EmptyIsOwned).
  lemma {:induction false} RunsKeepOwnership(w: World, ops: seq<Op>, delay: nat)
    requires Owned(w) && RunOk(w, ops, delay)
    ensures Owned(Run(w, ops, delay))
    decreases |ops|
  {
    if ops != [] {
      if ops[0].Get? { GetKeepsOwned(w, ops[0], delay); } else { PutKeepsOwned(w, ops[0], delay); }
      RunsKeepOwnership(Step(w, ops[0], delay), ops[1..], delay);
    }
  }

  // Whatever a request is served with, new or reused, has exactly the requested size.
  lemma {:induction false} ServedExactly(w: World, ops: seq<Op>, total: nat, raw: nat, delay: nat)
    requires Owned(w) && RunOk(w, ops, delay) && OpOk(Run(w, ops, delay), Get(total, raw))
    ensures var s := Run(w, ops, delay);
      var i := FindSize(s.cache, total);
      var ptr := if i < |s.cache| then s.cache[i].ptr else raw;
      var s' := Step(s, Get(total, raw), delay);
      ptr !in s.held && ptr in s'.held && ptr in s'.sizes && s'.sizes[ptr] == total
  {
    RunsKeepOwnership(w, ops, delay);
    var s := Run(w, ops, delay);
    var i := FindSize(s.cache, total);
    if i < |s.cache| {
      PtrMember(s.cache, i);
    }
  }
}
