/**
  What interleaved reads do to a StreamBuffer, in terms of the reads themselves: which
  timestamp a prune uses, what it leaves visible, and whose pointers it invalidates.
*/
module StreamReads {
  import opened TimeBuffers
  import opened Wrappers

  // The reader's last lookup before step n.
  function FindBefore<T>(events: seq<Event<T>>, n: nat, reader: nat): (f: Option<nat>)
    requires n <= |events|
    ensures f.Some? ==> f.value < n && events[f.value].Find? && events[f.value].reader == reader
  {
    if n == 0 then None
    else if events[n - 1].Find? && events[n - 1].reader == reader then Some(n - 1)
    else FindBefore(events, n - 1, reader)
  }

  // The last note of a timestamp before step n, by whichever reader.
  function NoteBefore<T>(events: seq<Event<T>>, n: nat): (m: Option<nat>)
    requires n <= |events|
    ensures m.Some? ==> m.value < n && events[m.value].Note?
  {
    if n == 0 then None else if events[n - 1].Note? then Some(n - 1) else NoteBefore(events, n - 1)
  }

  // The lookup whose timestamp was noted last before step n.
  function LastRead<T>(events: seq<Event<T>>, n: nat): (f: Option<nat>)
    requires n <= |events|
    ensures f.Some? ==> f.value < n && events[f.value].Find?
  {
    match NoteBefore(events, n)
    case None => None
    case Some(m) => FindBefore(events, m, events[m].reader)
  }

  // Would a prune at step n erase entry k?
  predicate Reached<T>(events: seq<Event<T>>, n: nat, padding: int, k: int)
    requires n <= |events|
  {
    var f := LastRead(events, n);
    f.Some? && events[f.value].ts != -1 && k < events[f.value].ts - padding
  }

  // The lookup at step f found an entry and was not a pointer read of the latest one.
  ghost predicate Found<T>(run: seq<Stream<T>>, events: seq<Event<T>>, f: nat)
    requires |run| == |events| + 1
  {
    && f < |events| && events[f].Find? && Target(run[f].buffer, events[f].ts).Some?
    && !(events[f].pointer && events[f].ts == -1)
  }

  // A read in progress was begun by the reader's last lookup, and has not pruned yet.
  ghost predicate BegunBy<T>(run: seq<Stream<T>>, events: seq<Event<T>>, n: nat, reader: nat)
    requires |run| == |events| + 1 && n <= |events|
  {
    var f := FindBefore(events, n, reader);
    && f.Some? && Found(run, events, f.value)
    && (forall j :: f.value < j < n ==> events[j] != Prune(reader))
    && (run[n].StageOf(reader).Looked? ==> run[n].StageOf(reader).ts == events[f.value].ts)
    && (run[n].StageOf(reader).Noted? ==> exists m :: f.value < m < n && events[m] == Note(reader))
  }

  lemma {:induction false} ReadInProgress<T>(run: seq<Stream<T>>, events: seq<Event<T>>, padding: int, n: nat, reader: nat)
    requires IsRun(run, events, padding) && n <= |events| && !run[n].StageOf(reader).Outside?
    ensures BegunBy(run, events, n, reader)
  {
    if n > 0 {
      var e := events[n - 1];
      assert run[n] == run[n - 1].Next(e);
      if !run[n - 1].StageOf(reader).Outside? {
        ReadInProgress(run, events, padding, n - 1, reader);
        if e == Note(reader) {
          assert events[n - 1] == Note(reader);
        }
      }
    }
  }

  // The buffer's current timestamp is that of the last read noted, and that read found an entry.
  lemma {:induction false} CurrentIsLastRead<T>(run: seq<Stream<T>>, events: seq<Event<T>>, padding: int, n: nat)
    requires IsRun(run, events, padding) && n <= |events|
    ensures run[n].padding == padding
    ensures
      var f := LastRead(events, n);
      if f.Some? then Found(run, events, f.value) && run[n].current == events[f.value].ts
      else NoteBefore(events, n).None? && run[n].current == -1
  {
    if n > 0 {
      CurrentIsLastRead(run, events, padding, n - 1);
      assert run[n] == run[n - 1].Next(events[n - 1]);
      if events[n - 1].Note? {
        ReadInProgress(run, events, padding, n - 1, events[n - 1].reader);
      }
    }
  }

  lemma {:induction false} ErasesIffReached<T>(run: seq<Stream<T>>, events: seq<Event<T>>, padding: int, n: nat, k: int)
    requires IsRun(run, events, padding) && n < |events|
    ensures run[n].Erases(events[n], k) <==> events[n].Prune? && Reached(events, n, padding, k)
  {
    CurrentIsLastRead(run, events, padding, n);
  }

  // k was written at step i and no later prune followed a read that leaves k behind.
  ghost predicate WrittenAndKept<T>(events: seq<Event<T>>, padding: int, k: int, i: nat) {
    && i < |events| && events[i].Write? && events[i].ts == k
    && forall j :: i < j < |events| && events[j].Prune? ==> !Reached(events, j, padding, k)
  }

  // In every interleaving an entry is visible exactly when it was written and, at every later
  // prune, the read noted last was of -1 or of a timestamp within the padding; and every such
  // read did find an entry.
  lemma {:induction false} VisibleIffNotPruned<T>(run: seq<Stream<T>>, events: seq<Event<T>>, padding: int, k: int)
    requires IsRun(run, events, padding)
    ensures k in run[|events|].buffer <==> exists i: nat :: WrittenAndKept(events, padding, k, i)
    ensures forall j :: 0 <= j < |events| && events[j].Prune? ==>
              LastRead(events, j).Some? && Found(run, events, LastRead(events, j).value)
  {
    VisibleIffNotErased(run, events, padding, k);
    forall j | 0 <= j < |events|
      ensures run[j].Erases(events[j], k) <==> events[j].Prune? && Reached(events, j, padding, k)
    {
      ErasesIffReached(run, events, padding, j, k);
    }
    forall i: nat
      ensures WrittenAt(run, events, k, i) <==> WrittenAndKept(events, padding, k, i)
    {
    }
    forall j | 0 <= j < |events| && events[j].Prune?
      ensures LastRead(events, j).Some? && Found(run, events, LastRead(events, j).value)
    {
      PruneFollowsNote(run, events, padding, j);
    }
  }

  lemma {:induction false} NoteIsBefore<T>(events: seq<Event<T>>, n: nat, m: nat)
    requires m < n <= |events| && events[m].Note?
    ensures NoteBefore(events, n).Some? && NoteBefore(events, n).value >= m
  {
    if n - 1 > m {
      NoteIsBefore(events, n - 1, m);
    }
  }

  lemma {:induction false} PruneFollowsNote<T>(run: seq<Stream<T>>, events: seq<Event<T>>, padding: int, j: nat)
    requires IsRun(run, events, padding) && j < |events| && events[j].Prune?
    ensures LastRead(events, j).Some? && Found(run, events, LastRead(events, j).value)
  {
    ReadInProgress(run, events, padding, j, events[j].reader);
    var m :| 0 <= m < j && events[m] == Note(events[j].reader);
    NoteIsBefore(events, j, m);
    CurrentIsLastRead(run, events, padding, j);
  }

  // ------------------------------------------------------------------ pointers

  // From the lookup at f on, the entry its pointer refers to is not erased before step n.
  ghost predicate PointerValid<T>(run: seq<Stream<T>>, f: nat, n: nat, k: int)
    requires n < |run|
  {
    forall j :: f < j <= n ==> k in run[j].buffer
  }

  // The lookup at step f reached entry k: the one at its timestamp, or the latest for -1.
  ghost predicate PointsTo<T>(run: seq<Stream<T>>, events: seq<Event<T>>, f: nat, k: int)
    requires |run| == |events| + 1
  {
    f < |events| && events[f].Find? && Target(run[f].buffer, events[f].ts) == Some(k)
  }

  lemma {:induction false} StepKeepsEntryIff<T>(run: seq<Stream<T>>, events: seq<Event<T>>, padding: int, n: nat, k: int)
    requires IsRun(run, events, padding) && n < |events| && k in run[n].buffer
    ensures k in run[n + 1].buffer <==> !(events[n].Prune? && Reached(events, n, padding, k))
  {
    ErasesIffReached(run, events, padding, n, k);
    assert run[n + 1] == run[n].Next(events[n]);
  }

  // A pointer read at f, of any timestamp or of -1, stays valid exactly as long as every prune
  // follows a read, the last one noted before it, that was of -1 or does not leave the entry's
  // key behind.
  lemma {:induction false} PointerValidIff<T>(run: seq<Stream<T>>, events: seq<Event<T>>, padding: int, f: nat, n: nat, k: int)
    requires IsRun(run, events, padding) && f < n <= |events| && PointsTo(run, events, f, k)
    ensures PointerValid(run, f, n, k) <==>
      forall j :: f < j < n && events[j].Prune? ==> !Reached(events, j, padding, k)
    decreases n
  {
    if n == f + 1 {
    } else {
      PointerValidIff(run, events, padding, f, n - 1, k);
      if PointerValid(run, f, n - 1, k) {
        assert k in run[n - 1].buffer;
        StepKeepsEntryIff(run, events, padding, n - 1, k);
      }
    }
  }

  // The read's own prune erases its own entry, if still there, exactly when another timestamp
  // was noted since and lies more than the padding ahead, or the padding is negative.
  lemma {:induction false} OwnPruneErasesIff<T>(run: seq<Stream<T>>, events: seq<Event<T>>, padding: int, p: nat, k: int)
    requires IsRun(run, events, padding) && p < |events| && events[p].Prune? && k in run[p].buffer
    requires
      var f := FindBefore(events, p, events[p].reader);
      f.Some? && PointsTo(run, events, f.value, k)
    ensures k !in run[p + 1].buffer <==> Reached(events, p, padding, k)
  {
    StepKeepsEntryIff(run, events, padding, p, k);
  }

  ghost predicate OneReader<T>(events: seq<Event<T>>, reader: nat) {
    forall j :: 0 <= j < |events| && !events[j].Write? ==> events[j].reader == reader
  }

  lemma {:induction false} NoFindBetween<T>(events: seq<Event<T>>, n: nat, m: nat, reader: nat)
    requires m <= n <= |events|
    requires forall j :: m <= j < n ==> !(events[j].Find? && events[j].reader == reader)
    ensures FindBefore(events, n, reader) == FindBefore(events, m, reader)
  {
    if m < n {
      NoFindBetween(events, n - 1, m, reader);
    }
  }

  lemma {:induction false} FindIsLast<T>(events: seq<Event<T>>, n: nat, j: nat, reader: nat)
    requires j < n <= |events| && events[j].Find? && events[j].reader == reader
    ensures FindBefore(events, n, reader).Some? && FindBefore(events, n, reader).value >= j
  {
    if j < n - 1 {
      FindIsLast(events, n - 1, j, reader);
    }
  }

  // With a single reader every prune uses the timestamp of the read it ends.
  lemma {:induction false} OneReaderPrunesOwn<T>(run: seq<Stream<T>>, events: seq<Event<T>>, padding: int, p: nat)
    requires IsRun(run, events, padding) && p < |events| && events[p].Prune?
    requires OneReader(events, events[p].reader)
    ensures LastRead(events, p) == FindBefore(events, p, events[p].reader)
    ensures LastRead(events, p).Some? && Found(run, events, LastRead(events, p).value)
    ensures forall j :: LastRead(events, p).value < j < p ==> !events[j].Prune?
  {
    var reader := events[p].reader;
    ReadInProgress(run, events, padding, p, reader);
    var f := FindBefore(events, p, reader).value;
    var m :| f < m < p && events[m] == Note(reader);
    NoteIsBefore(events, p, m);
    var last := NoteBefore(events, p).value;
    forall j | last <= j < p
      ensures !(events[j].Find? && events[j].reader == reader)
    {
      if events[j].Find? {
        FindIsLast(events, p, j, reader);
      }
    }
    NoFindBetween(events, p, last, reader);
  }

  // One reader, any writers: the pointer a read returns survives the read's own prune exactly
  // when the padding is not negative or the read was of -1.
  lemma {:induction false} OneReaderKeepsPointer<T>(run: seq<Stream<T>>, events: seq<Event<T>>, padding: int, p: nat)
    requires IsRun(run, events, padding) && p < |events| && events[p].Prune?
    requires OneReader(events, events[p].reader)
    ensures
      var f := FindBefore(events, p, events[p].reader);
      && f.Some? && Target(run[f.value].buffer, events[f.value].ts).Some?
      && var k := Target(run[f.value].buffer, events[f.value].ts).value;
      PointerValid(run, f.value, p + 1, k) <==> padding >= 0 || events[f.value].ts == -1
  {
    OneReaderPrunesOwn(run, events, padding, p);
    var f := FindBefore(events, p, events[p].reader).value;
    var k := Target(run[f].buffer, events[f].ts).value;
    PointerValidIff(run, events, padding, f, p + 1, k);
    assert Reached(events, p, padding, k) <==> events[f].ts != -1 && padding < 0;
  }
}
