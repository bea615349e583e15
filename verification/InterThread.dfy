/**
  The inter-thread queue as the object it is: a map from thread ids to closure queues,
  changed in place.  SignalProtocol says what interleaved calls of these methods keep.
*/
module InterThread {
  import opened SignalProtocol
  import opened Wrappers

  lemma {:induction false} WithoutSlotSnoc(items: seq<Item>, it: Item, x: SlotId)
    ensures WithoutSlot(items + [it], x) == WithoutSlot(items, x) + (if it.slot == x then [] else [it])
  {
    if items != [] {
      assert (items + [it])[1..] == items[1..] + [it];
      WithoutSlotSnoc(items[1..], it, x);
    } else {
      assert (items + [it])[1..] == [];
    }
  }

  lemma EraseStep(before: seq<Item>, seen: nat, items: seq<Item>, obj: SlotId)
    requires seen < |before| && items == WithoutSlot(before[..seen], obj) + before[seen..]
    ensures
      var kept := WithoutSlot(before[..seen], obj);
      var next := WithoutSlot(before[..seen + 1], obj);
      && items[|kept|] == before[seen]
      && (before[seen].slot == obj ==> next == kept && items[..|kept|] + items[|kept| + 1..] == next + before[seen + 1..])
      && (before[seen].slot != obj ==> |next| == |kept| + 1 && items == next + before[seen + 1..])
  {
    WithoutSlotSnoc(before[..seen], before[seen], obj);
    assert before[..seen + 1] == before[..seen] + [before[seen]];
  }

  // The erase loop over one queue.
  method EraseTagged(before: seq<Item>, obj: SlotId) returns (items: seq<Item>)
    ensures items == WithoutSlot(before, obj)
  {
    items := before;
    ghost var seen := 0;
    var itr := 0;
    while itr != |items|
      invariant 0 <= seen <= |before| && itr == |WithoutSlot(before[..seen], obj)|
      invariant items == WithoutSlot(before[..seen], obj) + before[seen..]
      decreases |before| - seen
    {
      EraseStep(before, seen, items, obj);
      if items[itr].slot == obj {
        items := items[..itr] + items[itr + 1..];
      } else {
        itr := itr + 1;
      }
      seen := seen + 1;
    }
    assert before[..seen] == before;
  }

  // The calls that running these closures in this order makes.
  function CallsOf(id: ThreadId, items: seq<Item>): seq<(ThreadId, Item)> {
    if items == [] then [] else [(id, items[0])] + CallsOf(id, items[1..])
  }

  // One call for each closure, in order.
  lemma {:induction false} CallsAreClosures(id: ThreadId, items: seq<Item>)
    ensures |CallsOf(id, items)| == |items|
    ensures forall k :: 0 <= k < |items| ==> CallsOf(id, items)[k] == (id, items[k])
  {
    if items != [] { CallsAreClosures(id, items[1..]); }
  }

  lemma {:induction false} CallsOfSnoc(id: ThreadId, items: seq<Item>, it: Item)
    ensures CallsOf(id, items + [it]) == CallsOf(id, items) + [(id, it)]
  {
    if items != [] {
      assert (items + [it])[1..] == items[1..] + [it];
      CallsOfSnoc(id, items[1..], it);
    } else {
      assert (items + [it])[1..] == [];
    }
  }

  // A sequence of calls less those of one slot's closures.
  function WithoutCalls(calls: seq<(ThreadId, Item)>, x: SlotId): seq<(ThreadId, Item)> {
    if calls == [] then []
    else (if calls[0].1.slot == x then [] else [calls[0]]) + WithoutCalls(calls[1..], x)
  }

  // Draining a purged queue makes the calls that draining it unpurged would have made, in the
  // same order and number, less the purged slot's.
  lemma {:induction false} PurgedClosuresAreNotRun(id: ThreadId, items: seq<Item>, x: SlotId)
    ensures CallsOf(id, WithoutSlot(items, x)) == WithoutCalls(CallsOf(id, items), x)
  {
    if items != [] {
      PurgedClosuresAreNotRun(id, items[1..], x);
      var kept := WithoutSlot(items[1..], x);
      assert CallsOf(id, items)[1..] == CallsOf(id, items[1..]);
      if items[0].slot != x {
        assert ([items[0]] + kept)[1..] == kept;
      } else {
        assert [] + kept == kept;
      }
    }
  }

  class ThreadQueues {
    var queues: map<ThreadId, seq<Item>>
    // Every closure invoked so far, with the thread whose queue or push invoked it.
    var calls: seq<(ThreadId, Item)>

    constructor ()
      ensures queues == map[] && calls == []
    {
      queues, calls := map[], [];
    }

    function Queue(id: ThreadId): seq<Item>
      reads this
    {
      if id in queues then queues[id] else []
    }

    // thread_queues[id]
    method Touch(id: ThreadId)
      modifies this`queues
      ensures queues == old(queues)[id := old(Queue(id))]
    {
      if id !in queues {
        queues := queues[id := []];
      }
    }

    method Push(self: ThreadId, f: Item, id: ThreadId)
      modifies this
      ensures self == id ==> queues == old(queues) && calls == old(calls) + [(id, f)]
      ensures self != id ==> queues == old(queues)[id := old(Queue(id)) + [f]] && calls == old(calls)
    {
      if self == id {
        calls := calls + [(id, f)];
        return;
      }
      Touch(id);
      queues := queues[id := queues[id] + [f]];
    }

    method TryPop(id: ThreadId) returns (f: Option<Item>)
      requires id in queues
      modifies this`queues
      ensures f.None? <==> old(queues[id]) == []
      ensures f.None? ==> queues == old(queues)
      ensures f.Some? ==> id in queues && [f.value] + queues[id] == old(queues[id])
      ensures id in queues && queues == old(queues)[id := queues[id]]
    {
      if queues[id] == [] {
        return None;
      }
      f := Some(queues[id][0]);
      queues := queues[id := queues[id][1..]];
    }

    // One call for each closure that was queued on entry, in push order; then the queue is empty.
    method Run(id: ThreadId)
      modifies this
      ensures queues == old(queues)[id := []]
      ensures calls == old(calls) + CallsOf(id, old(Queue(id)))
    {
      Touch(id);
      ghost var batch := queues[id];
      ghost var ran := 0;
      while true
        invariant id in queues && queues == old(queues)[id := queues[id]]
        invariant 0 <= ran <= |batch| && queues[id] == batch[ran..]
        invariant calls == old(calls) + CallsOf(id, batch[..ran])
        decreases |queues[id]|
      {
        var f := TryPop(id);
        if f.None? {
          break;
        }
        CallsOfSnoc(id, batch[..ran], batch[ran]);
        assert batch[..ran + 1] == batch[..ran] + [batch[ran]];
        calls := calls + [(id, f.value)];
        ran := ran + 1;
      }
      assert batch[..ran] == batch;
    }

    method RunOnce(id: ThreadId)
      modifies this
      ensures old(Queue(id)) == [] ==> queues == old(queues)[id := []] && calls == old(calls)
      ensures old(Queue(id)) != [] ==>
        && queues == old(queues)[id := old(Queue(id))[1..]]
        && calls == old(calls) + [(id, old(Queue(id))[0])]
    {
      Touch(id);
      var f := TryPop(id);
      if f.Some? {
        calls := calls + [(id, f.value)];
      }
    }

    // Every closure tagged with obj disappears from every queue; all others keep their order.
    method RemoveFromQueue(obj: SlotId)
      modifies this`queues
      ensures queues == map q | q in old(queues) :: WithoutSlot(old(queues)[q], obj)
    {
      var todo := queues.Keys;
      while todo != {}
        invariant todo <= queues.Keys == old(queues).Keys
        invariant forall q :: q in queues ==>
          queues[q] == if q in todo then old(queues)[q] else WithoutSlot(old(queues)[q], obj)
        decreases |todo|
      {
        var q :| q in todo;
        var items := EraseTagged(queues[q], obj);
        queues := queues[q := items];
        todo := todo - {q};
      }
    }

    method Size(id: ThreadId) returns (n: nat)
      modifies this`queues
      ensures n == |old(Queue(id))| && queues == old(queues)[id := old(Queue(id))]
    {
      Touch(id);
      n := |queues[id]|;
    }
  }
}
