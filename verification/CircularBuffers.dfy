/**
  The bounded history buffer, and when it agrees with the reference Map.
*/
module CircularBuffers {
  import opened OrderedKeys
  import opened TimeBuffers
  import opened Wrappers

  type Entries<T> = seq<(int, T)>

  // The newest `capacity` entries of a history.
  function Window<T>(history: Entries<T>, capacity: nat): Entries<T> {
    if |history| <= capacity then history else history[|history| - capacity..]
  }

  // The first entry with this timestamp.
  function FirstMatch<T>(entries: Entries<T>, ts: int): Option<T> {
    if entries == [] then None
    else if entries[0].0 == ts then Some(entries[0].1)
    else FirstMatch(entries[1..], ts)
  }

  function Read<T>(entries: Entries<T>, ts: int): Option<T> {
    if ts == -1 && entries != [] then Some(entries[|entries| - 1].1) else FirstMatch(entries, ts)
  }

  lemma {:induction false} FirstMatchAt<T>(entries: Entries<T>, ts: int, i: nat)
    requires i < |entries| && entries[i].0 == ts
    requires forall k :: 0 <= k < i ==> entries[k].0 != ts
    ensures FirstMatch(entries, ts) == Some(entries[i].1)
  {
    if i > 0 {
      FirstMatchAt(entries[1..], ts, i - 1);
    }
  }

  lemma {:induction false} NoMatch<T>(entries: Entries<T>, ts: int)
    requires forall k :: 0 <= k < |entries| ==> entries[k].0 != ts
    ensures FirstMatch(entries, ts) == None
  {
    if entries != [] {
      NoMatch(entries[1..], ts);
    }
  }

  class CircularBuffer<T> {
    var entries: Entries<T>
    var capacity: nat

    constructor (init: T, ts: int)
      ensures capacity == 10 && entries == [(ts, init)]
    {
      capacity, entries := 10, [(ts, init)];
    }

    // push_back: a full buffer loses its oldest entry, one without capacity stays empty.
    method UpdateData(value: T, ts: int)
      requires |entries| <= capacity
      modifies this
      ensures entries == Window(old(entries) + [(ts, value)], capacity)
      ensures |entries| <= capacity == old(capacity)
    {
      if |entries| < capacity {
        entries := entries + [(ts, value)];
      } else if capacity > 0 {
        entries := entries[1..] + [(ts, value)];
      }
    }

    method GetData(ts: int) returns (r: Option<T>)
      ensures r == Read(entries, ts)
    {
      if ts == -1 && |entries| > 0 {
        return Some(entries[|entries| - 1].1);
      }
      for i := 0 to |entries|
        invariant forall k :: 0 <= k < i ==> entries[k].0 != ts
      {
        if entries[i].0 == ts {
          FirstMatchAt(entries, ts, i);
          return Some(entries[i].1);
        }
      }
      NoMatch(entries, ts);
      r := None;
    }

    // set_capacity: what no longer fits is dropped at the new end.
    method SetSize(size: nat)
      requires |entries| <= capacity
      modifies this
      ensures capacity == size && |entries| <= capacity
      ensures entries == if |old(entries)| <= size then old(entries) else old(entries)[..size]
    {
      capacity := size;
      if |entries| > size {
        entries := entries[..size];
      }
    }
  }

  // ------------------------------------------------------------------ whole histories

  // Buffering one entry more: the window of the longer history.
  lemma WindowGrows<T>(history: Entries<T>, e: (int, T), capacity: nat)
    ensures Window(Window(history, capacity) + [e], capacity) == Window(history + [e], capacity)
  {}

  // The contents after any number of updates, each through UpdateData.
  function Updated<T>(entries: Entries<T>, updates: Entries<T>, capacity: nat): Entries<T>
    decreases |updates|
  {
    if updates == [] then entries
    else Updated(Window(entries + [updates[0]], capacity), updates[1..], capacity)
  }

  lemma {:induction false} UpdatesKeepWindow<T>(history: Entries<T>, updates: Entries<T>, capacity: nat)
    ensures Updated(Window(history, capacity), updates, capacity) == Window(history + updates, capacity)
    decreases |updates|
  {
    if updates == [] {
      assert history + updates == history;
    } else {
      WindowGrows(history, updates[0], capacity);
      UpdatesKeepWindow(history + [updates[0]], updates[1..], capacity);
      assert history + [updates[0]] + updates[1..] == history + updates;
    }
  }

  // The reference: a map that is written at every update.
  function MapOf<T>(history: Entries<T>): map<int, T> {
    if history == [] then map[]
    else
      var n := |history| - 1;
      MapOf(history[..n])[history[n].0 := history[n].1]
  }

  ghost predicate LastAt<T>(history: Entries<T>, ts: int, i: nat) {
    i < |history| && history[i].0 == ts && forall k :: i < k < |history| ==> history[k].0 != ts
  }

  lemma {:induction false} MapHoldsLast<T>(history: Entries<T>, ts: int, i: nat)
    requires LastAt(history, ts, i)
    ensures ts in MapOf(history) && MapOf(history)[ts] == history[i].1
  {
    if i < |history| - 1 {
      MapHoldsLast(history[..|history| - 1], ts, i);
    }
  }

  lemma {:induction false} MapHoldsOnly<T>(history: Entries<T>, ts: int)
    requires ts in MapOf(history)
    ensures exists i: nat :: LastAt(history, ts, i)
  {
    var n := |history| - 1;
    if history[n].0 == ts {
      assert LastAt(history, ts, n);
    } else {
      MapHoldsOnly(history[..n], ts);
      var i: nat :| LastAt(history[..n], ts, i);
      assert LastAt(history, ts, i);
    }
  }

  // Updates with growing timestamps.
  ghost predicate Growing<T>(history: Entries<T>) {
    forall i, j :: 0 <= i < j < |history| ==> history[i].0 < history[j].0
  }

  lemma GreatestIsLast<T>(history: Entries<T>)
    requires Growing(history) && history != []
    ensures MapOf(history) != map[] && LastKey(MapOf(history)) == history[|history| - 1].0
  {
    var n := |history| - 1;
    MapHoldsLast(history, history[n].0, n);
    var k := LastKey(MapOf(history));
    MapHoldsOnly(history, k);
  }

  lemma LatestAgrees<T>(history: Entries<T>, capacity: nat)
    requires Growing(history) && history != [] && capacity > 0
    ensures Read(Window(history, capacity), -1) == Lookup(MapOf(history), -1)
  {
    var n := |history| - 1;
    MapHoldsLast(history, history[n].0, n);
    GreatestIsLast(history);
  }

  lemma BufferedAgrees<T>(history: Entries<T>, capacity: nat, ts: int, k: nat)
    requires Growing(history) && ts != -1
    requires k < |Window(history, capacity)| && Window(history, capacity)[k].0 == ts
    ensures Read(Window(history, capacity), ts) == Lookup(MapOf(history), ts)
  {
    var w := Window(history, capacity);
    forall j | 0 <= j < k
      ensures w[j].0 != ts
    {
    }
    FirstMatchAt(w, ts, k);
    MapHoldsLast(history, ts, |history| - |w| + k);
  }

  lemma UnbufferedIsOlder<T>(history: Entries<T>, capacity: nat, ts: int)
    requires Growing(history) && history != [] && capacity > 0 && ts in MapOf(history)
    requires forall k :: 0 <= k < |Window(history, capacity)| ==> Window(history, capacity)[k].0 != ts
    ensures ts < Window(history, capacity)[0].0
  {
    var w := Window(history, capacity);
    var cut := |history| - |w|;
    MapHoldsOnly(history, ts);
    var i: nat :| LastAt(history, ts, i);
    if i >= cut {
    }
  }

  // With growing timestamps the buffer is the Map cut down to its window: the same answer
  // for -1 and for every timestamp from the oldest buffered one on, and none before it.
  lemma AgreesWithMap<T>(history: Entries<T>, capacity: nat, ts: int)
    requires Growing(history) && history != [] && capacity > 0
    ensures
      var w := Window(history, capacity);
      Read(w, ts) == if ts == -1 || w[0].0 <= ts then Lookup(MapOf(history), ts) else None
  {
    var w := Window(history, capacity);
    if ts == -1 {
      LatestAgrees(history, capacity);
    } else if k :| 0 <= k < |w| && w[k].0 == ts {
      BufferedAgrees(history, capacity, ts, k);
    } else {
      NoMatch(w, ts);
      if ts in MapOf(history) {
        UnbufferedIsOlder(history, capacity, ts);
      }
    }
  }

  // ------------------------------------------------------------------ when reads agree, by timestamps

  function Zip<T>(stamps: seq<int>, values: seq<T>): Entries<T>
    requires |stamps| == |values|
  {
    seq(|stamps|, i requires 0 <= i < |stamps| => (stamps[i], values[i]))
  }

  // Index of the oldest buffered entry.
  function Cut(n: nat, capacity: nat): nat { if n <= capacity then 0 else n - capacity }

  ghost predicate OnceFrom(stamps: seq<int>, cut: nat, ts: int) {
    exists i :: cut <= i < |stamps| && stamps[i] == ts
      && forall j :: cut <= j < |stamps| && j != i ==> stamps[j] != ts
  }

  // What a caller can check: for a timestamp, that it was written exactly once since the oldest
  // buffered entry, or never at all; for -1, that the newest timestamp is the greatest.
  ghost predicate Unambiguous(stamps: seq<int>, capacity: nat, ts: int) {
    if ts == -1 then
      stamps == [] || (capacity > 0 && forall i :: 0 <= i < |stamps| ==> stamps[i] <= stamps[|stamps| - 1])
    else OnceFrom(stamps, Cut(|stamps|, capacity), ts) || ts !in stamps
  }

  ghost predicate Agrees<T>(history: Entries<T>, capacity: nat, ts: int) {
    Read(Window(history, capacity), ts) == Lookup(MapOf(history), ts)
  }

  lemma WindowIsCut<T>(history: Entries<T>, capacity: nat)
    ensures Window(history, capacity) == history[Cut(|history|, capacity)..]
  {}

  lemma {:induction false} LastOf<T>(history: Entries<T>, ts: int, k: nat) returns (i: nat)
    requires k < |history| && history[k].0 == ts
    ensures k <= i && LastAt(history, ts, i)
    decreases |history| - k
  {
    if j :| k < j < |history| && history[j].0 == ts {
      i := LastOf(history, ts, j);
    } else {
      i := k;
    }
  }

  lemma {:induction false} FirstOf<T>(entries: Entries<T>, ts: int, k: nat) returns (i: nat)
    requires k < |entries| && entries[k].0 == ts
    ensures i <= k && entries[i].0 == ts && forall j :: 0 <= j < i ==> entries[j].0 != ts
  {
    if j :| 0 <= j < k && entries[j].0 == ts {
      i := FirstOf(entries, ts, j);
    } else {
      i := k;
    }
  }

  // Which two entries a read and the Map answer with.
  lemma {:induction false} AnswersAt<T>(history: Entries<T>, capacity: nat, ts: int, k: nat) returns (first: nat, last: nat)
    requires ts != -1 && Cut(|history|, capacity) <= k < |history| && history[k].0 == ts
    ensures Cut(|history|, capacity) <= first <= k <= last && LastAt(history, ts, last)
    ensures history[first].0 == ts
    ensures Read(Window(history, capacity), ts) == Some(history[first].1)
    ensures Lookup(MapOf(history), ts) == Some(history[last].1)
  {
    WindowIsCut(history, capacity);
    var cut, w := Cut(|history|, capacity), Window(history, capacity);
    var i := FirstOf(w, ts, k - cut);
    FirstMatchAt(w, ts, i);
    first := cut + i;
    last := LastOf(history, ts, k);
    MapHoldsLast(history, ts, last);
  }

  lemma {:induction false} OnceAgrees<T>(history: Entries<T>, stamps: seq<int>, capacity: nat, ts: int)
    requires |stamps| == |history| && forall i :: 0 <= i < |stamps| ==> history[i].0 == stamps[i]
    requires ts != -1 && Unambiguous(stamps, capacity, ts)
    ensures Agrees(history, capacity, ts)
  {
    var cut := Cut(|history|, capacity);
    if ts in stamps {
      var k :| cut <= k < |stamps| && stamps[k] == ts
        && forall j :: cut <= j < |stamps| && j != k ==> stamps[j] != ts;
      var first, last := AnswersAt(history, capacity, ts, k);
    } else {
      WindowIsCut(history, capacity);
      NoMatch(Window(history, capacity), ts);
      NeverWritten(history, ts);
    }
  }

  lemma {:induction false} NeverWritten<T>(history: Entries<T>, ts: int)
    requires forall k :: 0 <= k < |history| ==> history[k].0 != ts
    ensures ts !in MapOf(history)
  {
    if history != [] {
      NeverWritten(history[..|history| - 1], ts);
    }
  }

  // Values that tell one entry from all others.
  function Marked<T>(n: nat, i: nat, a: T, b: T): seq<T> { seq(n, j => if j == i then a else b) }

  lemma {:induction false} TwiceDisagrees<T>(stamps: seq<int>, capacity: nat, ts: int, i: nat, j: nat, a: T, b: T)
    requires a != b && ts != -1 && Cut(|stamps|, capacity) <= i < j < |stamps|
    requires stamps[i] == ts && stamps[j] == ts
    ensures exists m :: 0 <= m < |stamps| && !Agrees(Zip(stamps, Marked(|stamps|, m, a, b)), capacity, ts)
  {
    var m0 := |stamps|;
    var base := Zip(stamps, Marked(|stamps|, m0, a, b));
    var last := LastOf(base, ts, j);
    var history := Zip(stamps, Marked(|stamps|, last, a, b));
    forall k | last < k < |history|
      ensures history[k].0 != ts
    {
      assert base[k].0 != ts;
    }
    assert LastAt(history, ts, last);
    var first, l := AnswersAt(history, capacity, ts, i);
    assert first < last;
  }

  lemma {:induction false} UnbufferedDisagrees<T>(history: Entries<T>, capacity: nat, ts: int, i: nat)
    requires ts != -1 && i < |history| && history[i].0 == ts
    requires forall k :: Cut(|history|, capacity) <= k < |history| ==> history[k].0 != ts
    ensures !Agrees(history, capacity, ts)
  {
    WindowIsCut(history, capacity);
    NoMatch(Window(history, capacity), ts);
    var last := LastOf(history, ts, i);
    MapHoldsLast(history, ts, last);
  }

  // The key of the Map's latest entry is the greatest timestamp written.
  lemma {:induction false} LatestKey<T>(history: Entries<T>, i: nat)
    requires i < |history| && forall k :: 0 <= k < |history| ==> history[k].0 <= history[i].0
    ensures MapOf(history) != map[] && LastKey(MapOf(history)) == history[i].0
  {
    var last := LastOf(history, history[i].0, i);
    MapHoldsLast(history, history[i].0, last);
    MapHoldsOnly(history, LastKey(MapOf(history)));
  }

  lemma {:induction false} GreatestIndex(stamps: seq<int>) returns (i: nat)
    requires stamps != []
    ensures i < |stamps| && forall k :: 0 <= k < |stamps| ==> stamps[k] <= stamps[i]
  {
    var n := |stamps| - 1;
    if n == 0 {
      i := 0;
    } else {
      i := GreatestIndex(stamps[..n]);
      if stamps[i] < stamps[n] {
        i := n;
      }
    }
  }

  lemma {:induction false} NewestAgrees<T>(history: Entries<T>, stamps: seq<int>, capacity: nat)
    requires |stamps| == |history| && forall i :: 0 <= i < |stamps| ==> history[i].0 == stamps[i]
    requires Unambiguous(stamps, capacity, -1)
    ensures Agrees(history, capacity, -1)
  {
    WindowIsCut(history, capacity);
    if stamps != [] {
      var n := |stamps| - 1;
      LatestKey(history, n);
      MapHoldsLast(history, history[n].0, n);
    }
  }

  lemma {:induction false} NewestDisagrees<T>(stamps: seq<int>, capacity: nat, a: T, b: T)
    requires a != b && !Unambiguous(stamps, capacity, -1)
    ensures exists m :: 0 <= m < |stamps| && !Agrees(Zip(stamps, Marked(|stamps|, m, a, b)), capacity, -1)
  {
    var n := |stamps| - 1;
    var history := Zip(stamps, Marked(|stamps|, n, a, b));
    var g := GreatestIndex(stamps);
    WindowIsCut(history, capacity);
    LatestKey(history, g);
    var last := LastOf(history, stamps[g], g);
    MapHoldsLast(history, stamps[g], last);
    assert !Agrees(history, capacity, -1);
  }

  // For given timestamps and capacity, reads agree with the Map whatever values were written,
  // exactly when the timestamp read is unambiguous.
  lemma {:induction false} ReadsAgreeIff<T(!new)>(stamps: seq<int>, capacity: nat, ts: int, a: T, b: T)
    requires a != b
    ensures Unambiguous(stamps, capacity, ts) <==>
      forall values: seq<T> :: |values| == |stamps| ==> Agrees(Zip(stamps, values), capacity, ts)
  {
    if Unambiguous(stamps, capacity, ts) {
      forall values: seq<T> | |values| == |stamps|
        ensures Agrees(Zip(stamps, values), capacity, ts)
      {
        if ts == -1 {
          NewestAgrees(Zip(stamps, values), stamps, capacity);
        } else {
          OnceAgrees(Zip(stamps, values), stamps, capacity, ts);
        }
      }
    } else if ts == -1 {
      NewestDisagrees(stamps, capacity, a, b);
    } else {
      var i :| 0 <= i < |stamps| && stamps[i] == ts;
      var cut := Cut(|stamps|, capacity);
      if k :| cut <= k < |stamps| && stamps[k] == ts {
        var j :| cut <= j < |stamps| && j != k && stamps[j] == ts;
        TwiceDisagrees(stamps, capacity, ts, if j < k then j else k, if j < k then k else j, a, b);
      } else {
        UnbufferedDisagrees(Zip(stamps, Marked(|stamps|, 0, a, b)), capacity, ts, i);
      }
    }
  }

  // ------------------------------------------------------------------ resizing

  function Resized<T>(entries: Entries<T>, size: nat): Entries<T> {
    if |entries| <= size then entries else entries[..size]
  }

  // What a resize and any updates after it leave: when entries were cut and the updates do
  // not fill the buffer, the oldest entries stay and the newest before the resize are missing.
  lemma ResizedContents<T>(entries: Entries<T>, size: nat, updates: Entries<T>)
    ensures Updated(Resized(entries, size), updates, size) ==
      if |entries| > size > |updates| then entries[|updates|..size] + updates
      else Window(entries + updates, size)
  {
    var kept := Resized(entries, size);
    assert Window(kept, size) == kept;
    UpdatesKeepWindow(kept, updates, size);
    if |updates| >= size {
      WindowOfUpdates(kept, updates, size);
      WindowOfUpdates(entries, updates, size);
    } else if |entries| > size {
      assert (kept + updates)[|updates|..] == entries[|updates|..size] + updates;
    }
  }

  lemma WindowOfUpdates<T>(entries: Entries<T>, updates: Entries<T>, size: nat)
    requires |updates| >= size
    ensures Window(entries + updates, size) == updates[|updates| - size..]
  {}

  // The buffer is the newest part of the history, however long.
  predicate IsWindow<T(==)>(entries: Entries<T>, history: Entries<T>) { entries == Window(history, |entries|) }

  ghost predicate Distinct<T>(history: Entries<T>) {
    forall i, j :: 0 <= i < j < |history| ==> history[i] != history[j]
  }

  // Resizing a buffer with distinct entries leaves the newest part of the history after any
  // updates exactly when nothing was cut, or the updates have filled the buffer since.
  lemma {:induction false} ResizeKeepsWindowIff<T>(history: Entries<T>, capacity: nat, size: nat, updates: Entries<T>)
    requires Distinct(history)
    ensures
      var entries := Window(history, capacity);
      IsWindow(Updated(Resized(entries, size), updates, size), history + updates) <==>
        |entries| <= size || |updates| >= size
  {
    var entries := Window(history, capacity);
    ResizedContents(entries, size, updates);
    if |entries| <= size || |updates| >= size {
      SuffixWindow(history, entries, updates, size);
    } else {
      CutIsNoWindow(history, entries, size, updates);
    }
  }

  lemma {:induction false} CutIsNoWindow<T>(history: Entries<T>, entries: Entries<T>, size: nat, updates: Entries<T>)
    requires Distinct(history) && IsWindow(entries, history) && |entries| > size > |updates|
    ensures !IsWindow(entries[|updates|..size] + updates, history + updates)
  {
    var left, all, i := entries[|updates|..size] + updates, history + updates, size - |updates| - 1;
    assert |left| == size && |all| >= size;
    assert left[i] == entries[size - 1] == history[|history| - |entries| + size - 1];
    assert Window(all, size)[i] == all[|all| - size + i] == history[|history| - 1];
  }

  lemma SuffixWindow<T>(history: Entries<T>, entries: Entries<T>, updates: Entries<T>, size: nat)
    requires IsWindow(entries, history)
    ensures IsWindow(Window(entries + updates, size), history + updates)
  {
    var w := Window(entries + updates, size);
    var all := history + updates;
    assert entries + updates == all[|history| - |entries|..];
    assert w == all[|all| - |w|..];
  }

  // In that case the newest entry before the resize is gone, though older ones are kept.
  lemma {:induction false} ShrinkingLosesNewest<T>(history: Entries<T>, capacity: nat, size: nat, updates: Entries<T>)
    requires Distinct(history + updates)
    requires |Window(history, capacity)| > size > |updates|
    ensures
      var left := Updated(Resized(Window(history, capacity), size), updates, size);
      history[|history| - 1] !in left && Window(history, capacity)[size - 1] in left
  {
    var entries, all, n := Window(history, capacity), history + updates, |history| - 1;
    ResizedContents(entries, size, updates);
    var left := entries[|updates|..size] + updates;
    assert left[size - |updates| - 1] == entries[size - 1];
    forall i | 0 <= i < |left|
      ensures left[i] != history[n]
    {
      var k := if i < size - |updates| then |history| - |entries| + |updates| + i else |history| + i - (size - |updates|);
      assert left[i] == all[k] && k != n && all[n] == history[n];
    }
  }
}
