/**
  The time-indexed buffers Map and StreamBuffer.

  A buffer is a map from timestamps to values.  The timestamp -1 in a read means "the
  latest entry"; -1 as a StreamBuffer's current timestamp means "never prune".
*/
module TimeBuffers {
  import opened OrderedKeys
  import opened Wrappers

  // ------------------------------------------------------------------ Map and StreamBuffer

  // The entry a read at ts reaches, by its key: the pointer GetDataPtr returns.
  function Target<T>(m: map<int, T>, ts: int): Option<int> {
    if ts == -1 && m != map[] then Some(LastKey(m))
    else if ts in m then Some(ts)
    else None
  }

  function Lookup<T>(m: map<int, T>, ts: int): Option<T> {
    match Target(m, ts)
    case Some(k) => if k in m then Some(m[k]) else None
    case None => None
  }

  // What the prune loop leaves: everything, or the entries from current - padding on.
  function Pruned<T>(m: map<int, T>, current: int, padding: int): map<int, T> {
    if current == -1 then m else map k | k in m && k >= current - padding :: m[k]
  }

  // The reference: every write is kept.
  class MapBuffer<T> {
    var buffer: map<int, T>

    constructor ()
      ensures buffer == map[]
    {
      buffer := map[];
    }

    method UpdateData(value: T, ts: int)
      modifies this
      ensures buffer == old(buffer)[ts := value]
    {
      buffer := buffer[ts := value];
    }

    method GetData(ts: int) returns (r: Option<T>)
      ensures r == Lookup(buffer, ts)
    {
      if ts == -1 && buffer != map[] {
        r := Some(buffer[LastKey(buffer)]);
      } else if ts in buffer {
        r := Some(buffer[ts]);
      } else {
        r := None;
      }
    }
  }

  class StreamBuffer<T> {
    var buffer: map<int, T>
    var current: int
    var padding: int

    constructor ()
      ensures buffer == map[] && current == -1 && padding == 5
    {
      buffer, current, padding := map[], -1, 5;
    }

    method SetSize(size: int)
      modifies this
      ensures padding == size && buffer == old(buffer) && current == old(current)
    {
      padding := size;
    }

    method UpdateData(value: T, ts: int)
      modifies this
      ensures buffer == old(buffer)[ts := value]
      ensures current == old(current) && padding == old(padding)
    {
      buffer := buffer[ts := value];
    }

    method PruneStale()
      modifies this
      ensures buffer == Pruned(old(buffer), old(current), old(padding))
      ensures current == old(current) && padding == old(padding)
    {
      if current != -1 {
        while buffer != map[]
          invariant current == old(current) && padding == old(padding)
          invariant forall k :: k in buffer ==> k in old(buffer) && buffer[k] == old(buffer)[k]
          invariant forall k :: k in old(buffer) && k >= current - padding ==> k in buffer
          decreases |buffer|
        {
          var first := FirstKey(buffer);
          if first < current - padding {
            buffer := buffer - {first};
          } else {
            break;
          }
        }
      }
    }

    // The pointer form; -1 neither moves the current timestamp nor prunes.
    method GetDataPtr(ts: int) returns (r: Option<int>)
      modifies this
      ensures r == Target(old(buffer), ts)
      ensures padding == old(padding)
      ensures current == (if r.Some? && ts != -1 then ts else old(current))
      ensures buffer == if r.Some? && ts != -1 then Pruned(old(buffer), ts, padding) else old(buffer)
      // The entry pointed to survives the read's own prune, unless the padding is negative.
      ensures r.Some? ==> (r.value in buffer <==> ts == -1 || padding >= 0)
    {
      r := Target(buffer, ts);
      if r.Some? && ts != -1 {
        current := ts;
        PruneStale();
      }
    }

    // The value forms; a successful read at -1 switches pruning off again.
    method GetData(ts: int) returns (r: Option<T>)
      modifies this
      ensures r == Lookup(old(buffer), ts)
      ensures padding == old(padding)
      ensures current == (if r.Some? then ts else old(current))
      ensures buffer == if r.Some? then Pruned(old(buffer), ts, padding) else old(buffer)
    {
      r := Lookup(buffer, ts);
      if r.Some? {
        current := ts;
        PruneStale();
      }
    }
  }

  // ------------------------------------------------------------------ interleaved runs

  // Any number of readers and writers.  A read is a lookup, then the unlocked note of the
  // timestamp, then the prune under the lock; other threads may act in between.
  datatype Event<T> =
    | Write(ts: int, value: T)
    | Find(reader: nat, ts: int, pointer: bool)
    | Note(reader: nat)
    | Prune(reader: nat)

  datatype Stage = Outside | Looked(ts: int) | Noted

  // `written` is the reference Map: the same writes, nothing pruned.
  datatype Stream<T> = Stream(
    buffer: map<int, T>, written: map<int, T>, current: int, padding: int, stages: map<nat, Stage>)
  {
    function StageOf(reader: nat): Stage { if reader in stages then stages[reader] else Outside }

    predicate Enabled(e: Event<T>) {
      match e
      case Write(_, _) => true
      case Find(reader, _, _) => StageOf(reader).Outside?
      case Note(reader) => StageOf(reader).Looked?
      case Prune(reader) => StageOf(reader).Noted?
    }

    function Next(e: Event<T>): Stream<T>
      requires Enabled(e)
    {
      match e
      case Write(ts, value) => this.(buffer := buffer[ts := value], written := written[ts := value])
      case Find(reader, ts, pointer) =>
        if Target(buffer, ts).None? || (pointer && ts == -1) then this
        else this.(stages := stages[reader := Looked(ts)])
      case Note(reader) => this.(current := StageOf(reader).ts, stages := stages[reader := Noted])
      case Prune(reader) => this.(buffer := Pruned(buffer, current, padding), stages := stages[reader := Outside])
    }

    // Does the step erase entry k if it is there?
    predicate Erases(e: Event<T>, k: int) {
      e.Prune? && current != -1 && k < current - padding
    }
  }

  function Fresh<T>(padding: int): Stream<T> { Stream(map[], map[], -1, padding, map[]) }

  ghost predicate IsRun<T>(run: seq<Stream<T>>, events: seq<Event<T>>, padding: int) {
    && |run| == |events| + 1
    && run[0] == Fresh(padding)
    && forall i :: 0 <= i < |events| ==> run[i].Enabled(events[i]) && run[i + 1] == run[i].Next(events[i])
  }

  // k was written at step i and no later prune reached it.
  ghost predicate WrittenAt<T>(run: seq<Stream<T>>, events: seq<Event<T>>, k: int, i: nat)
    requires |run| == |events| + 1
  {
    && i < |events| && events[i].Write? && events[i].ts == k
    && forall j :: i < j < |events| ==> !run[j].Erases(events[j], k)
  }

  // In terms of the current timestamp at each prune; StreamReads says what that timestamp is.
  lemma {:induction false} VisibleIffNotErased<T>(run: seq<Stream<T>>, events: seq<Event<T>>, padding: int, k: int)
    requires IsRun(run, events, padding)
    ensures k in run[|events|].buffer <==> exists i: nat :: WrittenAt(run, events, k, i)
    decreases |events|
  {
    if events != [] {
      var n := |events| - 1;
      var run', events' := run[..n + 1], events[..n];
      VisibleIffNotErased(run', events', padding, k);
      assert run[n + 1] == run[n].Next(events[n]) && run'[n] == run[n];
      if WrittenAt(run, events, k, n) {
        assert k in run[n + 1].buffer;
      } else {
        assert !(events[n].Write? && events[n].ts == k);
        forall i: nat ensures WrittenAt(run, events, k, i) <==> WrittenAt(run', events', k, i) && !run[n].Erases(events[n], k) {
          if i < n {
            assert forall j :: i < j < n ==> run'[j] == run[j] && events'[j] == events[j];
          }
        }
      }
    }
  }

  // Visible entries hold the Map's value, and with padding >= 0 the latest entry is never
  // pruned: reads at -1 agree with the Map in every interleaving.
  lemma {:induction false} StreamRefinesMap<T>(run: seq<Stream<T>>, events: seq<Event<T>>, padding: int)
    requires IsRun(run, events, padding)
    ensures var s := run[|events|];
      && (forall k :: k in s.buffer ==> k in s.written && s.buffer[k] == s.written[k])
      && (forall k :: k in s.buffer && k != -1 ==> Lookup(s.buffer, k) == Lookup(s.written, k))
      && (padding >= 0 ==> Lookup(s.buffer, -1) == Lookup(s.written, -1))
  {
    RunKeepsLatest(run, events, padding);
    var s := run[|events|];
    if padding >= 0 && s.written != map[] {
      assert LastKey(s.written) in s.buffer;
      assert LastKey(s.buffer) == LastKey(s.written);
    }
  }

  ghost predicate Latest<T>(s: Stream<T>) {
    && (forall k :: k in s.buffer ==> k in s.written && s.buffer[k] == s.written[k])
    && (s.padding >= 0 && s.written != map[] ==> LastKey(s.written) in s.buffer)
    && (s.padding >= 0 ==> NotAhead(s, s.current))
    && (s.padding >= 0 ==> forall r :: r in s.stages && s.stages[r].Looked? ==> NotAhead(s, s.stages[r].ts))
  }

  // A timestamp some read has found is at most the latest one written.
  ghost predicate NotAhead<T>(s: Stream<T>, ts: int) {
    ts != -1 ==> s.written != map[] && ts <= LastKey(s.written)
  }

  lemma {:induction false} RunKeepsLatest<T>(run: seq<Stream<T>>, events: seq<Event<T>>, padding: int)
    requires IsRun(run, events, padding)
    ensures run[|events|].padding == padding && Latest(run[|events|])
    decreases |events|
  {
    if events != [] {
      var n := |events| - 1;
      RunKeepsLatest(run[..n + 1], events[..n], padding);
      assert run[n + 1] == run[n].Next(events[n]);
      StepKeepsLatest(run[n], events[n]);
    }
  }

  lemma {:induction false} StepKeepsLatest<T>(s: Stream<T>, e: Event<T>)
    requires s.Enabled(e) && Latest(s)
    ensures Latest(s.Next(e)) && s.Next(e).padding == s.padding
  {
    var s' := s.Next(e);
    if e.Write? && s.written != map[] {
      assert e.ts in s'.written && LastKey(s.written) in s'.written;
      assert LastKey(s'.written) == if e.ts > LastKey(s.written) then e.ts else LastKey(s.written);
    }
  }

  // Step i is the last write of k.
  ghost predicate LastWriteAt<T>(events: seq<Event<T>>, k: int, i: nat) {
    && i < |events| && events[i].Write? && events[i].ts == k
    && forall j :: i < j < |events| ==> !(events[j].Write? && events[j].ts == k)
  }

  // In every run the reference holds, for each timestamp, the value of its last write, and every
  // visible entry holds that value too.
  lemma {:induction false} EntriesHoldLastWrites<T>(run: seq<Stream<T>>, events: seq<Event<T>>, padding: int, k: int)
    requires IsRun(run, events, padding)
    ensures k in run[|events|].written <==> exists i: nat :: LastWriteAt(events, k, i)
    ensures forall i: nat :: LastWriteAt(events, k, i) ==>
              && run[|events|].written[k] == events[i].value
              && (k in run[|events|].buffer ==> run[|events|].buffer[k] == events[i].value)
    ensures k in run[|events|].buffer ==> k in run[|events|].written
    decreases |events|
  {
    if events != [] {
      var n := |events| - 1;
      var run', events' := run[..n + 1], events[..n];
      EntriesHoldLastWrites(run', events', padding, k);
      assert run[n + 1] == run[n].Next(events[n]) && run'[n] == run[n];
      if events[n].Write? && events[n].ts == k {
        assert LastWriteAt(events, k, n);
      } else {
        forall i: nat
          ensures LastWriteAt(events, k, i) <==> LastWriteAt(events', k, i)
        {
          SameLastWrite(events, events', n, k, i);
        }
      }
    }
  }

  lemma SameLastWrite<T>(events: seq<Event<T>>, events': seq<Event<T>>, n: nat, k: int, i: nat)
    requires |events| == n + 1 && events' == events[..n] && !(events[n].Write? && events[n].ts == k)
    ensures LastWriteAt(events, k, i) <==> LastWriteAt(events', k, i)
  {
    if i < n { assert forall j :: i < j < n ==> events'[j] == events[j]; }
  }

  // Two readers: the second read's timestamp lets the first read's own prune erase the
  // entry the first read points to.
  lemma OtherReaderPrunesMyEntry(v: int)
    ensures var events := [Write(1, v), Write(9, v), Find(0, 1, true), Note(0), Find(1, 9, true), Note(1), Prune(0)];
      exists run: seq<Stream<int>> :: IsRun(run, events, 5) && 1 in run[6].buffer && 1 !in run[7].buffer
  {
    var events := [Write(1, v), Write(9, v), Find(0, 1, true), Note(0), Find(1, 9, true), Note(1), Prune(0)];
    var s0 := Fresh<int>(5);
    var s1 := s0.Next(events[0]);
    var s2 := s1.Next(events[1]);
    var s3 := s2.Next(events[2]);
    var s4 := s3.Next(events[3]);
    var s5 := s4.Next(events[4]);
    var s6 := s5.Next(events[5]);
    var s7 := s6.Next(events[6]);
    var run := [s0, s1, s2, s3, s4, s5, s6, s7];
    assert IsRun(run, events, 5);
  }
}
