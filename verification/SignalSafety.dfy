/**
  What every run of the signal protocol guarantees.
*/
module SignalSafety {
  import opened EmissionDelivery
  import opened SignalInvariant
  import opened SignalProtocol
  import opened Wrappers

  // ------------------------------------------------------------------ main results

  // Nothing in s refers to x any more, and no thread's next step can call it.
  ghost predicate Unreachable(s: State, x: SlotId) {
    && (forall r :: x !in s.Held(r))
    && (forall q, k :: 0 <= k < |s.Queue(q)| ==> s.Queue(q)[k].slot != x)
    && (forall t, i :: 0 <= i < s.Depth(t) ==> x !in Mentioned(s.Stack(t)[i]))
    && (forall t, act :: CanAct(s, t, act) ==> Called(s, t, act) != Some(x))
  }

  lemma {:induction false} DeadIsUnreachable(s: State, x: SlotId)
    requires Inv(s) && s.Phase(x).Dead?
    ensures Unreachable(s, x)
  {
    forall r ensures x !in s.Held(r) { assert HeldOk(s, r, x); }
    forall q, k | 0 <= k < |s.Queue(q)| ensures s.Queue(q)[k].slot != x {
      assert QueueOk(s, q);
    }
    forall t, i | 0 <= i < s.Depth(t) ensures x !in Mentioned(s.Stack(t)[i]) {
      assert FrameOk(s, t, i);
    }
    forall t, act | CanAct(s, t, act) ensures Called(s, t, act) != Some(x) {
      if act.EmitNext? || act.PushInline? {
        assert x !in Mentioned(s.Stack(t)[s.Depth(t) - 1]);
      }
    }
  }

  lemma {:induction false} DeadForever(s: State, steps: seq<Step>, s': State, x: SlotId)
    requires s.Phase(x).Dead? && Reaches(s, steps, s')
    ensures s'.Phase(x).Dead?
    decreases |steps|
  {
    if steps != [] {
      match steps[0] {
        case ByThread(t, act) => ActFrame(s, t, act);
        case OnSlot(y, op) => OpFrame(s, y, op);
      }
      DeadForever(Apply(s, steps[0]), steps[1..], s', x);
    }
  }

  // Once ~TypedSlot and ~ISlot have finished, in any interleaving, and ever after: the slot
  // is held by no relay, waits in no queue, is on no thread's stack, and no step calls it.
  lemma {:induction false} DestroyedSlotIsNeverCalled(init: State, steps: seq<Step>, s: State, x: SlotId)
    requires Init(init) && Reaches(init, steps, s) && s.Phase(x).Dead?
    ensures forall more, s' :: Reaches(s, more, s') ==> Unreachable(s', x)
  {
    InitInv(init);
    RunKeepsInv(init, steps, s);
    forall more, s' | Reaches(s, more, s')
      ensures Unreachable(s', x)
    {
      RunKeepsInv(s, more, s');
      DeadForever(s, more, s', x);
      DeadIsUnreachable(s', x);
    }
  }

  // Between the two destructors only entries that were queued before can still call the slot.
  lemma {:induction false} UnhookedSlotIsNotEmitted(init: State, steps: seq<Step>, s: State, x: SlotId)
    requires Init(init) && Reaches(init, steps, s)
    requires s.Phase(x).PurgeWait? || s.Phase(x).Purging?
    ensures forall r :: x !in s.Held(r)
    ensures forall t, act :: CanAct(s, t, act) && Called(s, t, act) == Some(x) ==> act.PopNext?
    ensures forall t, act :: CanAct(s, t, act) && act.Enqueue? ==> act.x != x
  {
    InitInv(init);
    RunKeepsInv(init, steps, s);
    forall r ensures x !in s.Held(r) { assert HeldOk(s, r, x); }
    forall t, act | CanAct(s, t, act) && (act.EmitNext? || act.PushInline? || act.Enqueue?) ensures act.x != x {
      assert FrameOk(s, t, s.Depth(t) - 1);
    }
  }

  // FIFO, at most once, omitting exactly the purged entries, which all belong to destroyed slots.
  lemma {:induction false} QueueRunsInPushOrder(init: State, steps: seq<Step>, s: State, q: ThreadId)
    requires Init(init) && Reaches(init, steps, s)
    ensures Increasing(s.Ran(q) + s.Queue(q))
    ensures forall it :: it in s.Ran(q) + s.Queue(q) <==> it in s.Pushed(q) && it.id !in s.Purged(q)
    ensures forall k :: 0 <= k < |s.Pushed(q)| ==> s.Pushed(q)[k].id == k
    ensures forall k :: k in s.Purged(q) ==>
              && k < |s.Pushed(q)|
              && (s.Phase(s.Pushed(q)[k].slot).Purging? || s.Phase(s.Pushed(q)[k].slot).Dead?)
  {
    InitInv(init);
    RunKeepsInv(init, steps, s);
    assert LogOk(s, q);
    SurvivingIncreasing(s.Pushed(q), s.Purged(q));
    forall it ensures it in s.Ran(q) + s.Queue(q) <==> it in s.Pushed(q) && it.id !in s.Purged(q) {
      SurvivingMember(s.Pushed(q), s.Purged(q), it);
    }
  }

  // run stops after exactly the entries that were queued when it took the lock;
  // run_once after the first of them.
  lemma {:induction false} DrainRunsItsBatch(init: State, steps: seq<Step>, s: State, t: ThreadId, act: Act)
    requires Init(init) && Reaches(init, steps, s)
    requires act.EndRun? && CanAct(s, t, act)
    ensures act.start <= |s.Ran(act.q)|
    ensures !act.once ==> s.Ran(act.q)[act.start..] == act.batch
    ensures act.once ==> s.Ran(act.q)[act.start..] == if act.batch == [] then [] else act.batch[..1]
  {
    InitInv(init);
    RunKeepsInv(init, steps, s);
    assert FrameOk(s, t, s.Depth(t) - 1);
    var done := s.Ran(act.q)[act.start..];
    assert done + s.Queue(act.q) == act.batch;
    if act.once && act.batch != [] {
      assert |done| == 1 && done[0] == act.batch[0];
    }
  }

  predicate PopsFrom(step: Step, q: ThreadId) { step.ByThread? && step.act.PopNext? && step.act.q == q }

  lemma {:induction false} LockedStep(s: State, q: ThreadId, step: Step)
    requires Inv(s) && q in s.queueLock && Enabled(s, step)
    ensures var s' := Apply(s, step);
      if PopsFrom(step, q)
      then s.queueLock[q] == (step.t, s.Depth(step.t) - 1) && |s'.Queue(q)| == |s.Queue(q)| - 1
      else s'.Queue(q) == s.Queue(q)
  {
    match step
    case ByThread(t, act) =>
      if act.PopNext? && act.q == q {
        assert FrameOk(s, t, s.Depth(t) - 1);
      } else {
        ActLogs(s, t, act, q);
      }
    case OnSlot(x, op) => OpRespectsLocks(s, x, op);
  }

  // The batch is what was queued at the lock; the measure of the drain is the queue's length:
  // while the lock is held no step of anyone lengthens the queue, and only the drain shortens it.
  lemma {:induction false} LockedQueueOnlyDrains(init: State, steps: seq<Step>, s: State, q: ThreadId, step: Step)
    requires Init(init) && Reaches(init, steps, s)
    requires q in s.queueLock && Enabled(s, step)
    ensures var s' := Apply(s, step);
      if PopsFrom(step, q)
      then s.queueLock[q] == (step.t, s.Depth(step.t) - 1) && |s'.Queue(q)| == |s.Queue(q)| - 1
      else s'.Queue(q) == s.Queue(q)
  {
    InitInv(init);
    RunKeepsInv(init, steps, s);
    LockedStep(s, q, step);
  }

  function Pops(steps: seq<Step>, q: ThreadId): nat {
    if steps == [] then 0 else (if PopsFrom(steps[0], q) then 1 else 0) + Pops(steps[1..], q)
  }

  ghost predicate FrameIs(s: State, t: ThreadId, d: nat, f: Frame) { d < s.Depth(t) && s.Stack(t)[d] == f }

  lemma {:induction false} DrainTopStep(s: State, t: ThreadId, act: Act, f: Frame)
    requires CanAct(s, t, act) && f.Draining? && s.Top(t, f) && DoAct(s, t, act).Depth(t) >= s.Depth(t)
    ensures FrameIs(DoAct(s, t, act), t, s.Depth(t) - 1, f)
  {
  }

  // A drain's frame stays as it is until the drain ends.
  lemma {:induction false} DrainStep(s: State, step: Step, t: ThreadId, d: nat, f: Frame)
    requires Enabled(s, step) && f.Draining? && FrameIs(s, t, d, f) && Apply(s, step).Depth(t) > d
    ensures FrameIs(Apply(s, step), t, d, f)
  {
    match step
    case OnSlot(x, op) => OpFrame(s, x, op);
    case ByThread(u, act) =>
      ActFrame(s, u, act);
      if u == t && s.Depth(t) > d + 1 {
        ActStack(s, t, act);
      } else if u == t {
        DrainTopStep(s, t, act, f);
      }
  }

  lemma {:induction false} DrainRun(s: State, steps: seq<Step>, s': State, t: ThreadId, d: nat, f: Frame)
    requires Inv(s) && Reaches(s, steps, s') && Within(s, steps, t, d) && f.Draining? && FrameIs(s, t, d, f)
    ensures |s'.Queue(f.queue)| + Pops(steps, f.queue) == |s.Queue(f.queue)|
    decreases |steps|
  {
    if steps != [] {
      assert FrameOk(s, t, d);
      LockedStep(s, f.queue, steps[0]);
      DrainStep(s, steps[0], t, d, f);
      StepKeepsInv(s, steps[0]);
      DrainRun(Apply(s, steps[0]), steps[1..], s', t, d, f);
    }
  }

  lemma {:induction false} LockedDrain(s: State, t: ThreadId, d: nat, lock: Act, locked: State) returns (f: Frame)
    requires Inv(s) && lock.LockQueue? && CanAct(s, t, lock) && locked == DoAct(s, t, lock) && s.Depth(t) == d + 1
    ensures f.Draining? && f.queue == lock.q && FrameIs(locked, t, d, f)
    ensures Inv(locked) && locked.Queue(lock.q) == s.Queue(lock.q)
  {
    f := Draining(lock.q, lock.once, s.Queue(lock.q), |s.Ran(lock.q)|);
    StepKeepsInv(s, ByThread(t, lock));
  }

  // For as long as a drain goes on, whatever other threads and the closures themselves do: pops
  // of the queue and what is left of it add up to what was queued when the drain took the lock,
  // so a drain makes at most that many calls.
  lemma {:induction false} DrainIsBounded(init: State, before: seq<Step>, s: State, t: ThreadId, d: nat, lock: Act,
                                          locked: State, steps: seq<Step>, s': State)
    requires Init(init) && Reaches(init, before, s)
    requires lock.LockQueue? && CanAct(s, t, lock) && locked == DoAct(s, t, lock) && s.Depth(t) == d + 1
    requires Reaches(locked, steps, s') && Within(locked, steps, t, d)
    ensures |s'.Queue(lock.q)| + Pops(steps, lock.q) == |s.Queue(lock.q)|
  {
    InitInv(init);
    RunKeepsInv(init, before, s);
    var f := LockedDrain(s, t, d, lock, locked);
    DrainRun(locked, steps, s', t, d, f);
  }

  lemma {:induction false} LookupIsBlocked(s: State, t: ThreadId, act: Act)
    requires s.globalLock.Some? && (act.BeginRun? || act.PushLookup?)
    ensures !CanAct(s, t, act)
  {
  }

  lemma {:induction false} KnownQueues(s: State, t: ThreadId, act: Act)
    requires CanAct(s, t, act) && !act.BeginRun? && !act.PushLookup?
    requires s.Depth(t) > 0 ==> FrameOk(s, t, s.Depth(t) - 1)
    ensures DoAct(s, t, act).queues.Keys == s.queues.Keys
  {
  }

  // While a destructor purges, no thread brings a queue into being, so the queues it found are
  // all there are.
  lemma {:induction false} PurgeSeesEveryQueue(init: State, steps: seq<Step>, s: State, t: ThreadId, act: Act)
    requires Init(init) && Reaches(init, steps, s) && s.globalLock.Some? && CanAct(s, t, act)
    ensures DoAct(s, t, act).queues.Keys == s.queues.Keys
  {
    InitInv(init);
    RunKeepsInv(init, steps, s);
    if act.BeginRun? || act.PushLookup? {
      LookupIsBlocked(s, t, act);
    } else {
      assert s.Depth(t) > 0 ==> FrameOk(s, t, s.Depth(t) - 1);
      KnownQueues(s, t, act);
    }
  }
}
