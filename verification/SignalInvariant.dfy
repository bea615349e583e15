/**
  The inductive invariant of the signal protocol: it spans relay locks, queue locks, the
  slots' own lists and the calls in flight, and every step of every thread keeps it.
*/
module SignalInvariant {
  import opened Sequences
  import opened SignalProtocol
  import opened Wrappers

  // ------------------------------------------------------------------ invariant

  // A slot in a relay is alive, and its own list will lead its destructor to that relay.
  ghost predicate HeldOk(s: State, r: RelayId, x: SlotId) {
    x in s.Held(r) ==>
      match s.Phase(x)
      case Unhooking(i) => i <= |s.Listed(x)| && r in s.Listed(x)[i..]
      case Listing(r') => r' == r || r in s.Listed(x)
      case Unlinking(r') => r' != r && r in s.Listed(x)
      case PurgeWait => false
      case Purging(_) => false
      case Dead => false
      case _ => r in s.Listed(x)
  }

  // x may still be run from queue q: it is alive, and its purge has not passed q.
  ghost predicate Runnable(s: State, x: SlotId, q: ThreadId) {
    && !s.Phase(x).Dead?
    && (s.Phase(x).Purging? ==> q in s.Phase(x).todo)
  }

  ghost predicate QueueOk(s: State, q: ThreadId) {
    forall k :: 0 <= k < |s.Queue(q)| ==> Runnable(s, s.Queue(q)[k].slot, q)
  }

  ghost predicate FrameOk(s: State, t: ThreadId, i: nat)
    requires i < s.Depth(t)
  {
    match s.Stack(t)[i]
    case Emitting(r, _, todo) => r in s.relayLock && s.relayLock[r] == (t, i) && todo <= s.Held(r)
    case Pushing(x, _) => UnderEmission(s, t, i, x)
    case Enqueuing(x, q) => UnderEmission(s, t, i, x) && q in s.queues
    case Awaiting(q, _) => q in s.queues
    case Draining(q, _, batch, start) =>
      && q in s.queues && q in s.queueLock && s.queueLock[q] == (t, i)
      && start <= |s.Ran(q)| && s.Ran(q)[start..] + s.Queue(q) == batch
      && (s.Stack(t)[i].once ==> |s.Ran(q)| <= start + 1)
    case Calling(x) =>
      || UnderEmission(s, t, i, x)
      || (i > 0 && s.Stack(t)[i - 1].Draining? && Runnable(s, x, s.Stack(t)[i - 1].queue))
  }

  ghost predicate UnderEmission(s: State, t: ThreadId, i: nat, x: SlotId)
    requires i < s.Depth(t)
  {
    i > 0 && s.Stack(t)[i - 1].Emitting? && x in s.Held(s.Stack(t)[i - 1].relay)
  }

  ghost predicate PhaseOk(s: State, x: SlotId) {
    && (s.Phase(x).Purging? ==> s.globalLock == Some(x))
    && (s.Phase(x).Hooking? ==> s.Phase(x).relay in s.Listed(x))
  }

  // Everything pushed, less what was purged, is what has run followed by what is waiting.
  function Surviving(items: seq<Item>, gone: set<nat>): seq<Item> {
    if items == [] then []
    else
      var last := |items| - 1;
      Surviving(items[..last], gone) + (if items[last].id in gone then [] else [items[last]])
  }

  lemma {:induction false} SurvivingMember(items: seq<Item>, gone: set<nat>, it: Item)
    ensures it in Surviving(items, gone) <==> it in items && it.id !in gone
  {
    if items != [] {
      var last := |items| - 1;
      SurvivingMember(items[..last], gone, it);
      assert it in items <==> it in items[..last] || it == items[last];
    }
  }

  ghost predicate LogOk(s: State, q: ThreadId) {
    && (forall k :: 0 <= k < |s.Pushed(q)| ==> s.Pushed(q)[k].id == k)
    && Surviving(s.Pushed(q), s.Purged(q)) == s.Ran(q) + s.Queue(q)
    && (forall k :: k in s.Purged(q) ==> k < |s.Pushed(q)|)
    && (forall k :: k in s.Purged(q) ==>
          var p := s.Phase(s.Pushed(q)[k].slot); p.Purging? || p.Dead?)
  }

  ghost predicate Inv(s: State) {
    && (forall r, x {:trigger HeldOk(s, r, x)} :: HeldOk(s, r, x))
    && (forall t, i {:trigger FrameOk(s, t, i)} :: 0 <= i < s.Depth(t) ==> FrameOk(s, t, i))
    && (forall q {:trigger QueueOk(s, q)} :: QueueOk(s, q))
    && (forall x {:trigger PhaseOk(s, x)} :: PhaseOk(s, x))
    && (forall q {:trigger LogOk(s, q)} :: LogOk(s, q))
  }

  // ------------------------------------------------------------------ preservation

  // A thread's step touches only its own stack and leaves every slot and relay alone.
  lemma {:induction false} ActFrame(s: State, t: ThreadId, act: Act)
    requires CanAct(s, t, act)
    ensures var s' := DoAct(s, t, act);
      && s'.kinds == s.kinds && s'.ctxs == s.ctxs && s'.held == s.held && s'.listed == s.listed
      && s'.phases == s.phases && s'.globalLock == s.globalLock && s'.purged == s.purged
      && (forall u :: u != t ==> s'.Stack(u) == s.Stack(u))
  {
  }

  // A step on a slot moves no thread and no relay or queue lock.
  lemma {:induction false} OpFrame(s: State, x: SlotId, op: Op)
    requires CanOp(s, x, op)
    ensures var s' := DoOp(s, x, op);
      && s'.kinds == s.kinds && s'.ctxs == s.ctxs && s'.stacks == s.stacks && s'.relayLock == s.relayLock
      && s'.queueLock == s.queueLock && s'.pushed == s.pushed && s'.ran == s.ran
      && (forall y :: y != x ==> s'.Listed(y) == s.Listed(y) && s'.Phase(y) == s.Phase(y))
      && (forall q :: q in s.queues ==> q in s'.queues)
  {
  }

  lemma {:induction false} OpKeepsHeld(s: State, y: SlotId, op: Op, r: RelayId, x: SlotId)
    requires Inv(s) && CanOp(s, y, op)
    ensures HeldOk(DoOp(s, y, op), r, x)
  {
    assert HeldOk(s, r, x);
    OpFrame(s, y, op);
    if x == y {
      OpKeepsOwnHeld(s, y, op, r);
    }
  }

  lemma {:induction false} OpKeepsOwnHeld(s: State, y: SlotId, op: Op, r: RelayId)
    requires HeldOk(s, r, y) && PhaseOk(s, y) && CanOp(s, y, op)
    ensures HeldOk(DoOp(s, y, op), r, y)
  {
    match op {
      case HookFirst(r') =>
      case ThenList(r') => assert DoOp(s, y, op).Listed(y)[|s.Listed(y)|] == r';
      case ListFirst(r') =>
      case ThenHook(r') =>
      case Disconnect(r') =>
      case ThenUnlist(r') =>
      case Destroy =>
      case UnhookNext(i) => assert s.Listed(y)[i..] == [s.Listed(y)[i]] + s.Listed(y)[i + 1..];
      case UnhookDone(i) =>
      case PurgeBegin =>
      case PurgeNext(todo, q) =>
      case PurgeEnd =>
    }
  }

  lemma {:induction false} ConnectKeepsPhase(s: State, y: SlotId, op: Op)
    requires op.HookFirst? || op.ThenList? || op.ListFirst? || op.ThenHook? || op.Disconnect? || op.ThenUnlist?
    requires PhaseOk(s, y) && CanOp(s, y, op)
    ensures PhaseOk(DoOp(s, y, op), y) && DoOp(s, y, op).globalLock == s.globalLock
  {
    match op {
      case ListFirst(r) => assert DoOp(s, y, op).Listed(y)[|s.Listed(y)|] == r;
      case _ =>
    }
  }

  lemma {:induction false} DestroyKeepsPhase(s: State, y: SlotId, op: Op)
    requires op.Destroy? || op.UnhookNext? || op.UnhookDone? || op.PurgeBegin? || op.PurgeNext? || op.PurgeEnd?
    requires PhaseOk(s, y) && CanOp(s, y, op)
    ensures PhaseOk(DoOp(s, y, op), y)
    ensures var lock := DoOp(s, y, op).globalLock;
      lock == s.globalLock || (s.globalLock == None && lock == Some(y)) || (s.globalLock == Some(y) && lock == None)
  {
  }

  lemma {:induction false} OpKeepsPhase(s: State, y: SlotId, op: Op, x: SlotId)
    requires Inv(s) && CanOp(s, y, op)
    ensures PhaseOk(DoOp(s, y, op), x)
  {
    assert PhaseOk(s, x) && PhaseOk(s, y);
    OpFrame(s, y, op);
    if op.HookFirst? || op.ThenList? || op.ListFirst? || op.ThenHook? || op.Disconnect? || op.ThenUnlist? {
      ConnectKeepsPhase(s, y, op);
    } else {
      DestroyKeepsPhase(s, y, op);
    }
  }

  lemma {:induction false} OpKeepsQueue(s: State, y: SlotId, op: Op, q: ThreadId)
    requires Inv(s) && CanOp(s, y, op)
    ensures QueueOk(DoOp(s, y, op), q)
  {
    assert QueueOk(s, q);
    var s' := DoOp(s, y, op);
    forall k | 0 <= k < |s'.Queue(q)| ensures Runnable(s', s'.Queue(q)[k].slot, q) {
      var item := s'.Queue(q)[k];
      if op.PurgeNext? && op.q == q {
        WithoutSlotMember(s.Queue(q), y, item);
      }
      assert item in s.Queue(q);
      assert Runnable(s, item.slot, q);
    }
  }

  lemma {:induction false} ActKeepsQueue(s: State, t: ThreadId, act: Act, q: ThreadId)
    requires Inv(s) && CanAct(s, t, act)
    ensures QueueOk(DoAct(s, t, act), q)
  {
    assert QueueOk(s, q);
    var s' := DoAct(s, t, act);
    ActFrame(s, t, act);
    if act.Enqueue? {
      var i := s.Depth(t) - 1;
      assert FrameOk(s, t, i);
      assert HeldOk(s, s.Stack(t)[i - 1].relay, act.x);
    }
    forall k | 0 <= k < |s'.Queue(q)| ensures Runnable(s', s'.Queue(q)[k].slot, q) {
      var item := s'.Queue(q)[k];
      if !act.Enqueue? || q != act.q || k < |s.Queue(q)| {
        assert item in s.Queue(q);
        assert Runnable(s, item.slot, q);
      }
    }
  }

  // Between s and s' nothing happened to the lowest i + 1 frames of t, nor to what their locks protect.
  ghost predicate Undisturbed(s: State, s': State, t: ThreadId, i: nat) {
    && i < s.Depth(t) && i < s'.Depth(t)
    && (forall j :: 0 <= j <= i ==> s'.Stack(t)[j] == s.Stack(t)[j])
    && (forall q :: q in s.queues ==> q in s'.queues)
    && (forall r, j :: r in s.relayLock && s.relayLock[r] == (t, j) && j <= i ==>
          r in s'.relayLock && s'.relayLock[r] == (t, j) && s'.Held(r) == s.Held(r))
    && (forall q, j :: q in s.queueLock && s.queueLock[q] == (t, j) && j <= i ==>
          && q in s'.queueLock && s'.queueLock[q] == (t, j)
          && s'.Queue(q) == s.Queue(q) && s'.Ran(q) == s.Ran(q))
    && StillRunnable(s, s')
  }

  ghost predicate StillRunnable(s: State, s': State) {
    forall x, q :: q in s.queueLock && q in s.queues && Runnable(s, x, q) ==> Runnable(s', x, q)
  }

  lemma {:induction false} FrameStable(s: State, s': State, t: ThreadId, i: nat)
    requires Undisturbed(s, s', t, i)
    requires FrameOk(s, t, i) && (i > 0 ==> FrameOk(s, t, i - 1))
    ensures FrameOk(s', t, i)
  {
    var f := s.Stack(t)[i];
    assert s'.Stack(t)[i] == f;
    if i > 0 {
      assert s'.Stack(t)[i - 1] == s.Stack(t)[i - 1];
    }
  }

  lemma {:induction false} OpStillRunnable(s: State, y: SlotId, op: Op)
    requires CanOp(s, y, op)
    ensures StillRunnable(s, DoOp(s, y, op))
  {
  }

  // A held lock keeps every step on a slot away from what it protects.
  lemma {:induction false} OpRespectsLocks(s: State, y: SlotId, op: Op)
    requires CanOp(s, y, op)
    ensures var s' := DoOp(s, y, op);
      && (forall r :: r in s.relayLock ==> s'.Held(r) == s.Held(r))
      && (forall q :: q in s.queueLock ==> s'.Queue(q) == s.Queue(q))
  {
  }

  lemma {:induction false} OpUndisturbed(s: State, y: SlotId, op: Op, t: ThreadId, i: nat)
    requires CanOp(s, y, op) && i < s.Depth(t)
    ensures Undisturbed(s, DoOp(s, y, op), t, i)
  {
    OpFrame(s, y, op);
    OpRespectsLocks(s, y, op);
    OpStillRunnable(s, y, op);
  }

  // A thread's step can only give up, or work under, the lock of its own top frame.
  lemma {:induction false} ActRespectsRelayLocks(s: State, t: ThreadId, act: Act)
    requires CanAct(s, t, act)
    requires s.Depth(t) > 0 ==> FrameOk(s, t, s.Depth(t) - 1)
    ensures var s' := DoAct(s, t, act);
      forall r :: r in s.relayLock && s.relayLock[r] != (t, s.Depth(t) - 1) ==>
        r in s'.relayLock && s'.relayLock[r] == s.relayLock[r]
  {
  }

  lemma {:induction false} ActKeepsQueueLocks(s: State, t: ThreadId, act: Act)
    requires CanAct(s, t, act)
    ensures var s' := DoAct(s, t, act);
      forall q :: q in s.queueLock && !(act.EndRun? && act.q == q) ==>
        q in s'.queueLock && s'.queueLock[q] == s.queueLock[q]
  {
  }

  lemma {:induction false} ActRespectsQueueLocks(s: State, t: ThreadId, act: Act)
    requires CanAct(s, t, act)
    requires s.Depth(t) > 0 ==> FrameOk(s, t, s.Depth(t) - 1)
    ensures var s' := DoAct(s, t, act);
      forall q :: q in s.queueLock && s.queueLock[q] != (t, s.Depth(t) - 1) ==>
        && q in s'.queueLock && s'.queueLock[q] == s.queueLock[q]
        && s'.Queue(q) == s.Queue(q) && s'.Ran(q) == s.Ran(q)
  {
    ActKeepsQueueLocks(s, t, act);
    forall q | q in s.queueLock && s.queueLock[q] != (t, s.Depth(t) - 1)
      ensures !(act.Enqueue? && act.q == q) && !(act.PopNext? && act.q == q) && !(act.EndRun? && act.q == q)
      ensures DoAct(s, t, act).Queue(q) == s.Queue(q) && DoAct(s, t, act).Ran(q) == s.Ran(q)
    {
      ActLogs(s, t, act, q);
    }
  }

  lemma {:induction false} ActStack(s: State, t: ThreadId, act: Act)
    requires CanAct(s, t, act)
    ensures var s' := DoAct(s, t, act);
      && s'.Depth(t) >= s.Depth(t) - 1
      && (forall j :: 0 <= j < s.Depth(t) - 1 ==> s'.Stack(t)[j] == s.Stack(t)[j])
      && (forall q :: q in s.queues ==> q in s'.queues)
  {
  }

  lemma {:induction false} ActStillRunnable(s: State, t: ThreadId, act: Act)
    requires CanAct(s, t, act)
    ensures StillRunnable(s, DoAct(s, t, act))
  {
    ActFrame(s, t, act);
    ActStack(s, t, act);
  }

  lemma {:induction false} OtherPartsUnmoved(s: State, s': State, t: ThreadId, u: ThreadId, i: nat)
    requires i < s.Depth(u) && (u != t || i < s.Depth(t) - 1)
    requires s'.held == s.held && (forall v :: v != t ==> s'.Stack(v) == s.Stack(v))
    requires s'.Depth(t) >= s.Depth(t) - 1 && (forall j :: 0 <= j < s.Depth(t) - 1 ==> s'.Stack(t)[j] == s.Stack(t)[j])
    requires forall q :: q in s.queues ==> q in s'.queues
    requires forall r :: r in s.relayLock && s.relayLock[r] != (t, s.Depth(t) - 1) ==>
               r in s'.relayLock && s'.relayLock[r] == s.relayLock[r]
    requires forall q :: q in s.queueLock && s.queueLock[q] != (t, s.Depth(t) - 1) ==>
               && q in s'.queueLock && s'.queueLock[q] == s.queueLock[q]
               && s'.Queue(q) == s.Queue(q) && s'.Ran(q) == s.Ran(q)
    requires StillRunnable(s, s')
    ensures Undisturbed(s, s', u, i)
  {
  }

  lemma {:induction false} ActUndisturbed(s: State, t: ThreadId, act: Act, u: ThreadId, i: nat)
    requires CanAct(s, t, act) && i < s.Depth(u)
    requires s.Depth(t) > 0 ==> FrameOk(s, t, s.Depth(t) - 1)
    requires u != t || i < s.Depth(t) - 1
    ensures Undisturbed(s, DoAct(s, t, act), u, i)
  {
    ActFrame(s, t, act);
    ActRespectsRelayLocks(s, t, act);
    ActRespectsQueueLocks(s, t, act);
    ActStack(s, t, act);
    ActStillRunnable(s, t, act);
    OtherPartsUnmoved(s, DoAct(s, t, act), t, u, i);
  }

  // The frames a step pushes or replaces.
  lemma {:induction false} EmissionKeepsTop(s: State, t: ThreadId, act: Act, i: nat)
    requires act.BeginEmit? || act.EmitNext? || act.PushInline? || act.PushLookup?
    requires CanAct(s, t, act) && s.Depth(t) - 1 <= i < DoAct(s, t, act).Depth(t)
    requires s.Depth(t) > 0 ==> FrameOk(s, t, s.Depth(t) - 1)
    ensures FrameOk(DoAct(s, t, act), t, i)
  {
  }

  lemma {:induction false} RunKeepsTop(s: State, t: ThreadId, act: Act, i: nat)
    requires act.BeginRun? || act.LockQueue?
    requires CanAct(s, t, act) && s.Depth(t) - 1 <= i < DoAct(s, t, act).Depth(t)
    requires s.Depth(t) > 0 ==> FrameOk(s, t, s.Depth(t) - 1)
    requires s.Depth(t) > 1 ==> FrameOk(s, t, s.Depth(t) - 2)
    ensures FrameOk(DoAct(s, t, act), t, i)
  {
  }

  // What one pop changes.
  ghost predicate Popped(s: State, s': State, t: ThreadId, q: ThreadId) {
    && s.Queue(q) != []
    && s'.Stack(t) == s.Stack(t) + [Calling(s.Queue(q)[0].slot)]
    && s'.Ran(q) == s.Ran(q) + [s.Queue(q)[0]] && s'.Queue(q) == s.Queue(q)[1..]
    && q in s'.queues && s'.queueLock == s.queueLock && s'.phases == s.phases
  }

  lemma {:induction false} PopResult(s: State, t: ThreadId, act: Act)
    requires act.PopNext? && CanAct(s, t, act)
    ensures Popped(s, DoAct(s, t, act), t, act.q)
  {
  }

  lemma {:induction false} PoppedCallOk(s: State, s': State, t: ThreadId, q: ThreadId)
    requires Popped(s, s', t, q) && QueueOk(s, q)
    requires s.Depth(t) > 0 && s.Stack(t)[s.Depth(t) - 1].Draining? && s.Stack(t)[s.Depth(t) - 1].queue == q
    ensures FrameOk(s', t, s.Depth(t))
  {
    assert Runnable(s, s.Queue(q)[0].slot, q);
    assert s'.Stack(t)[s.Depth(t) - 1] == s.Stack(t)[s.Depth(t) - 1];
  }

  lemma {:induction false} PoppedDrainOk(s: State, s': State, t: ThreadId, q: ThreadId, start: nat)
    requires Popped(s, s', t, q)
    requires s.Depth(t) > 0 && FrameOk(s, t, s.Depth(t) - 1)
    requires
      var f := s.Stack(t)[s.Depth(t) - 1];
      f.Draining? && f.queue == q && f.start == start && (f.once ==> |s.Ran(q)| == start)
    ensures FrameOk(s', t, s.Depth(t) - 1)
  {
    var head, rest := s.Queue(q)[0], s.Queue(q)[1..];
    assert s'.Stack(t)[s.Depth(t) - 1] == s.Stack(t)[s.Depth(t) - 1];
    assert (s.Ran(q) + [head])[start..] + rest == s.Ran(q)[start..] + ([head] + rest);
    assert [head] + rest == s.Queue(q);
  }

  lemma {:induction false} PopKeepsTop(s: State, t: ThreadId, act: Act, i: nat)
    requires act.PopNext?
    requires CanAct(s, t, act) && s.Depth(t) - 1 <= i < DoAct(s, t, act).Depth(t)
    requires FrameOk(s, t, s.Depth(t) - 1) && QueueOk(s, act.q)
    ensures FrameOk(DoAct(s, t, act), t, i)
  {
    PopResult(s, t, act);
    PoppedCallOk(s, DoAct(s, t, act), t, act.q);
    PoppedDrainOk(s, DoAct(s, t, act), t, act.q, act.start);
  }

  // Only an enqueue on q and a pop from q touch q's queue and logs.
  lemma {:induction false} ActHistory(s: State, t: ThreadId, act: Act, q: ThreadId)
    requires CanAct(s, t, act)
    requires !(act.Enqueue? && act.q == q) && !(act.PopNext? && act.q == q)
    ensures DoAct(s, t, act).Pushed(q) == s.Pushed(q) && DoAct(s, t, act).Ran(q) == s.Ran(q)
  {
  }

  lemma {:induction false} ActQueue(s: State, t: ThreadId, act: Act, q: ThreadId)
    requires CanAct(s, t, act)
    requires !(act.Enqueue? && act.q == q) && !(act.PopNext? && act.q == q)
    ensures DoAct(s, t, act).Queue(q) == s.Queue(q)
  {
    if act.PushLookup? || act.BeginRun? {
      assert DoAct(s, t, act).queues == s.queues[act.q := s.Queue(act.q)];
    }
  }

  lemma {:induction false} ActLogs(s: State, t: ThreadId, act: Act, q: ThreadId)
    requires CanAct(s, t, act)
    requires !(act.Enqueue? && act.q == q) && !(act.PopNext? && act.q == q)
    ensures var s' := DoAct(s, t, act);
      s'.Pushed(q) == s.Pushed(q) && s'.Ran(q) == s.Ran(q) && s'.Queue(q) == s.Queue(q)
  {
    ActHistory(s, t, act, q);
    ActQueue(s, t, act, q);
  }

  lemma {:induction false} ActKeepsLog(s: State, t: ThreadId, act: Act, q: ThreadId)
    requires LogOk(s, q) && CanAct(s, t, act)
    ensures LogOk(DoAct(s, t, act), q)
  {
    ActFrame(s, t, act);
    var s' := DoAct(s, t, act);
    if act.Enqueue? && act.q == q {
      EnqueueKeepsLog(s, t, act);
    } else if act.PopNext? && act.q == q {
      assert s'.Pushed(q) == s.Pushed(q);
      assert s'.Ran(q) + s'.Queue(q) == s.Ran(q) + s.Queue(q);
    } else {
      ActLogs(s, t, act, q);
    }
  }

  ghost predicate Enqueued(s: State, s': State, q: ThreadId, item: Item) {
    && item.id == |s.Pushed(q)|
    && s'.Pushed(q) == s.Pushed(q) + [item] && s'.Queue(q) == s.Queue(q) + [item]
    && s'.Ran(q) == s.Ran(q) && s'.Purged(q) == s.Purged(q) && s'.phases == s.phases
  }

  lemma {:induction false} EnqueueResult(s: State, t: ThreadId, act: Act)
    requires act.Enqueue? && CanAct(s, t, act)
    ensures Enqueued(s, DoAct(s, t, act), act.q, Item(|s.Pushed(act.q)|, act.x))
  {
  }

  lemma {:induction false} EnqueueKeepsLog(s: State, t: ThreadId, act: Act)
    requires act.Enqueue? && LogOk(s, act.q) && CanAct(s, t, act)
    ensures LogOk(DoAct(s, t, act), act.q)
  {
    EnqueueResult(s, t, act);
  }

  ghost predicate Increasing(items: seq<Item>) {
    forall i, j :: 0 <= i < j < |items| ==> items[i].id < items[j].id
  }

  lemma {:induction false} SurvivingIncreasing(items: seq<Item>, gone: set<nat>)
    requires forall k :: 0 <= k < |items| ==> items[k].id == k
    ensures Increasing(Surviving(items, gone))
  {
    if items != [] {
      var init := items[..|items| - 1];
      SurvivingIncreasing(init, gone);
      forall it | it in Surviving(init, gone) ensures it.id < |items| - 1 {
        SurvivingMember(init, gone, it);
      }
    }
  }

  lemma {:induction false} SurvivingTwice(items: seq<Item>, gone: set<nat>, more: set<nat>)
    ensures Surviving(items, gone + more) == Surviving(Surviving(items, gone), more)
  {
    if items != [] {
      var last := |items| - 1;
      SurvivingTwice(items[..last], gone, more);
      var kept := Surviving(items[..last], gone);
      assert kept + [] == kept && [items[last]][..0] == [];
      SurvivingConcat(kept, [items[last]], more);
    }
  }

  lemma {:induction false} SurvivingConcat(a: seq<Item>, b: seq<Item>, gone: set<nat>)
    ensures Surviving(a + b, gone) == Surviving(a, gone) + Surviving(b, gone)
  {
    if b == [] {
      assert a + b == a;
    } else {
      var last := |b| - 1;
      assert (a + b)[..|a| + last] == a + b[..last];
      SurvivingConcat(a, b[..last], gone);
    }
  }

  lemma {:induction false} SurvivingAll(items: seq<Item>, gone: set<nat>)
    requires forall it :: it in items ==> it.id !in gone
    ensures Surviving(items, gone) == items
  {
    if items != [] {
      SurvivingAll(items[..|items| - 1], gone);
    }
  }

  // On a queue with distinct ids, removing the ids of x's entries is removing x's entries.
  lemma {:induction false} PurgeIsSurviving(items: seq<Item>, x: SlotId, gone: set<nat>)
    requires forall k :: 0 <= k < |items| ==> (items[k].id in gone <==> items[k].slot == x)
    ensures WithoutSlot(items, x) == Surviving(items, gone)
  {
    if items != [] {
      PurgeIsSurviving(items[1..], x, gone);
      assert items == [items[0]] + items[1..];
      SurvivingConcat([items[0]], items[1..], gone);
      SurvivingOne(items[0], gone);
    }
  }

  lemma SurvivingOne(it: Item, gone: set<nat>)
    ensures Surviving([it], gone) == if it.id in gone then [] else [it]
  {
    assert [it][..0] == [];
  }

  // In ran + queue the ids of x's waiting entries belong to nothing else.
  lemma {:induction false} PurgeIds(ran: seq<Item>, queue: seq<Item>, x: SlotId)
    requires Increasing(ran + queue)
    ensures forall it :: it in ran ==> it.id !in IdsOf(queue, x)
    ensures forall k :: 0 <= k < |queue| ==> (queue[k].id in IdsOf(queue, x) <==> queue[k].slot == x)
  {
    var all := ran + queue;
    assert forall k :: 0 <= k < |queue| ==> all[|ran| + k] == queue[k];
    forall it | it in ran ensures it.id !in IdsOf(queue, x) {
      var j :| 0 <= j < |ran| && ran[j] == it;
      forall m | 0 <= m < |queue| ensures queue[m].id != it.id {
        assert all[j].id < all[|ran| + m].id;
      }
    }
    forall k | 0 <= k < |queue| && queue[k].id in IdsOf(queue, x) ensures queue[k].slot == x {
      var m :| 0 <= m < |queue| && queue[m].slot == x && queue[m].id == queue[k].id;
      assert all[|ran| + m].id == all[|ran| + k].id;
    }
  }

  // The logs of one queue across the purge of x's entries.
  lemma {:induction false} PurgeLog(pushed: seq<Item>, gone: set<nat>, ran: seq<Item>, queue: seq<Item>, x: SlotId)
    requires forall k :: 0 <= k < |pushed| ==> pushed[k].id == k
    requires Surviving(pushed, gone) == ran + queue
    ensures Surviving(pushed, gone + IdsOf(queue, x)) == ran + WithoutSlot(queue, x)
    ensures forall k :: k in IdsOf(queue, x) ==> k < |pushed| && pushed[k].slot == x
  {
    SurvivingIncreasing(pushed, gone);
    var ids := IdsOf(queue, x);
    PurgeIds(ran, queue, x);
    SurvivingTwice(pushed, gone, ids);
    SurvivingConcat(ran, queue, ids);
    SurvivingAll(ran, ids);
    PurgeIsSurviving(queue, x, ids);
    forall k | k in ids ensures k < |pushed| && pushed[k].slot == x {
      var m :| 0 <= m < |queue| && queue[m].slot == x && queue[m].id == k;
      assert queue[m] in ran + queue;
      SurvivingMember(pushed, gone, queue[m]);
    }
  }

  lemma {:induction false} PurgeKeepsLog(s: State, x: SlotId, op: Op)
    requires op.PurgeNext? && LogOk(s, op.q) && CanOp(s, x, op)
    ensures LogOk(DoOp(s, x, op), op.q)
  {
    PurgeLog(s.Pushed(op.q), s.Purged(op.q), s.Ran(op.q), s.Queue(op.q), x);
  }

  predicate Dying(s: State, x: SlotId) { s.Phase(x).Purging? || s.Phase(x).Dead? }

  lemma {:induction false} OpLogs(s: State, x: SlotId, op: Op, q: ThreadId)
    requires CanOp(s, x, op) && !(op.PurgeNext? && op.q == q)
    ensures DoOp(s, x, op).Queue(q) == s.Queue(q) && DoOp(s, x, op).Purged(q) == s.Purged(q)
  {
  }

  lemma {:induction false} LogStable(s: State, s': State, q: ThreadId)
    requires LogOk(s, q)
    requires s'.Pushed(q) == s.Pushed(q) && s'.Ran(q) == s.Ran(q)
    requires s'.Queue(q) == s.Queue(q) && s'.Purged(q) == s.Purged(q)
    requires forall y :: Dying(s, y) ==> Dying(s', y)
    ensures LogOk(s', q)
  {
    forall k | k in s'.Purged(q)
      ensures Dying(s', s'.Pushed(q)[k].slot)
    {
      assert Dying(s, s.Pushed(q)[k].slot);
    }
  }

  lemma {:induction false} OpKeepsLog(s: State, x: SlotId, op: Op, q: ThreadId)
    requires LogOk(s, q) && CanOp(s, x, op)
    ensures LogOk(DoOp(s, x, op), q)
  {
    if op.PurgeNext? && op.q == q {
      PurgeKeepsLog(s, x, op);
    } else {
      OpFrame(s, x, op);
      OpLogs(s, x, op, q);
      forall y | Dying(s, y)
        ensures Dying(DoOp(s, x, op), y)
      {
      }
      LogStable(s, DoOp(s, x, op), q);
    }
  }

  lemma {:induction false} ActKeepsInv(s: State, t: ThreadId, act: Act)
    requires Inv(s) && CanAct(s, t, act)
    ensures Inv(DoAct(s, t, act))
  {
    var s' := DoAct(s, t, act);
    ActFrame(s, t, act);
    forall r, x ensures HeldOk(s', r, x) { assert HeldOk(s, r, x); }
    forall x ensures PhaseOk(s', x) { assert PhaseOk(s, x); }
    forall q ensures QueueOk(s', q) { ActKeepsQueue(s, t, act, q); }
    forall q ensures LogOk(s', q) { assert LogOk(s, q); ActKeepsLog(s, t, act, q); }
    forall u, i | 0 <= i < s'.Depth(u) ensures FrameOk(s', u, i) { ActKeepsFrame(s, t, act, u, i); }
  }

  lemma {:induction false} ActKeepsFrame(s: State, t: ThreadId, act: Act, u: ThreadId, i: nat)
    requires Inv(s) && CanAct(s, t, act) && i < DoAct(s, t, act).Depth(u)
    ensures FrameOk(DoAct(s, t, act), u, i)
  {
    ActFrame(s, t, act);
    if s.Depth(t) > 0 { assert FrameOk(s, t, s.Depth(t) - 1); }
    if s.Depth(t) > 1 { assert FrameOk(s, t, s.Depth(t) - 2); }
    if u != t || i < s.Depth(t) - 1 {
      assert FrameOk(s, u, i);
      if i > 0 { assert FrameOk(s, u, i - 1); }
      ActUndisturbed(s, t, act, u, i);
      FrameStable(s, DoAct(s, t, act), u, i);
    } else {
      match act
      case PopNext(q, _, _, _) => assert QueueOk(s, q); PopKeepsTop(s, t, act, i);
      case BeginRun(_, _) => RunKeepsTop(s, t, act, i);
      case LockQueue(_, _) => RunKeepsTop(s, t, act, i);
      case BeginEmit(_, _) => EmissionKeepsTop(s, t, act, i);
      case EmitNext(_, _, _, _) => EmissionKeepsTop(s, t, act, i);
      case PushInline(_) => EmissionKeepsTop(s, t, act, i);
      case PushLookup(_, _) => EmissionKeepsTop(s, t, act, i);
      case _ =>
    }
  }

  lemma {:induction false} OpKeepsInv(s: State, y: SlotId, op: Op)
    requires Inv(s) && CanOp(s, y, op)
    ensures Inv(DoOp(s, y, op))
  {
    var s' := DoOp(s, y, op);
    forall r, x ensures HeldOk(s', r, x) { OpKeepsHeld(s, y, op, r, x); }
    forall x ensures PhaseOk(s', x) { OpKeepsPhase(s, y, op, x); }
    forall q ensures QueueOk(s', q) { OpKeepsQueue(s, y, op, q); }
    forall q ensures LogOk(s', q) { assert LogOk(s, q); OpKeepsLog(s, y, op, q); }
    forall t, i | 0 <= i < s'.Depth(t) ensures FrameOk(s', t, i) { OpKeepsFrame(s, y, op, t, i); }
  }

  lemma {:induction false} OpKeepsFrame(s: State, y: SlotId, op: Op, t: ThreadId, i: nat)
    requires Inv(s) && CanOp(s, y, op) && i < DoOp(s, y, op).Depth(t)
    ensures FrameOk(DoOp(s, y, op), t, i)
  {
    OpFrame(s, y, op);
    assert FrameOk(s, t, i);
    if i > 0 { assert FrameOk(s, t, i - 1); }
    OpUndisturbed(s, y, op, t, i);
    FrameStable(s, DoOp(s, y, op), t, i);
  }

  lemma {:induction false} StepKeepsInv(s: State, step: Step)
    requires Inv(s) && Enabled(s, step)
    ensures Inv(Apply(s, step))
  {
    match step {
      case ByThread(t, act) => ActKeepsInv(s, t, act);
      case OnSlot(x, op) => OpKeepsInv(s, x, op);
    }
  }

  // The invariant holds after every run, whatever the interleaving.
  lemma {:induction false} RunKeepsInv(s: State, steps: seq<Step>, s': State)
    requires Inv(s) && Reaches(s, steps, s')
    ensures Inv(s')
    decreases |steps|
  {
    if steps != [] {
      StepKeepsInv(s, steps[0]);
      RunKeepsInv(Apply(s, steps[0]), steps[1..], s');
    }
  }

  lemma {:induction false} InitInv(s: State)
    requires Init(s)
    ensures Inv(s)
  {
  }
}
