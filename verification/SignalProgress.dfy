/**
  What can always be finished once the locks it needs are free: an emission, a drain, a connect,
  a disconnect and a slot's destructor.
*/
module SignalProgress {
  import opened ConnectedSlots
  import opened EmissionDelivery
  import opened Sequences
  import opened SignalInvariant
  import opened SignalProtocol
  import opened Wrappers

  // No queue is locked, nor the table of queues.
  predicate Free(s: State) { s.globalLock.None? && s.queueLock == map[] }

  // s' has the locks of s, and on thread t these frames.
  predicate Left(s: State, s': State, t: ThreadId, frames: seq<Frame>) {
    s'.Stack(t) == frames && s'.relayLock == s.relayLock && s'.queueLock == s.queueLock && s'.globalLock == s.globalLock
  }

  lemma {:induction false} PrependWithin(s: State, step: Step, rest: seq<Step>, s': State, t: ThreadId, d: nat)
    requires Enabled(s, step) && s.Depth(t) > d
    requires Reaches(Apply(s, step), rest, s') && Within(Apply(s, step), rest, t, d)
    ensures Reaches(s, [step] + rest, s') && Within(s, [step] + rest, t, d)
  {
    assert ([step] + rest)[1..] == rest;
  }

  lemma {:induction false} JoinedWithin(s: State, before: seq<Step>, s1: State, after: seq<Step>, s2: State, t: ThreadId, d: nat)
    returns (all: seq<Step>)
    requires Reaches(s, before, s1) && Within(s, before, t, d) && Reaches(s1, after, s2) && Within(s1, after, t, d)
    ensures Reaches(s, all, s2) && Within(s, all, t, d)
    decreases |before|
  {
    if before == [] {
      all := after;
    } else {
      var more := JoinedWithin(Apply(s, before[0]), before[1..], s1, after, s2, t, d);
      PrependWithin(s, before[0], more, s2, t, d);
      all := [before[0]] + more;
    }
  }

  // ------------------------------------------------------------------ one step of a thread

  lemma {:induction false} Returned(s: State, t: ThreadId, act: Act)
    requires act.Return? && s.Top(t, Calling(act.x))
    ensures CanAct(s, t, act) && Left(s, DoAct(s, t, act), t, s.Stack(t)[..s.Depth(t) - 1])
    ensures DoAct(s, t, act).queues == s.queues && DoAct(s, t, act).ran == s.ran
  {
  }

  lemma {:induction false} Inlined(s: State, t: ThreadId, act: Act)
    requires act.PushInline? && s.Top(t, Pushing(act.x, t))
    ensures CanAct(s, t, act) && Left(s, DoAct(s, t, act), t, s.Stack(t)[s.Depth(t) - 1 := Calling(act.x)])
  {
  }

  lemma {:induction false} LookedUp(s: State, t: ThreadId, act: Act)
    requires act.PushLookup? && s.Top(t, Pushing(act.x, act.q)) && act.q != t && Free(s)
    ensures CanAct(s, t, act) && Left(s, DoAct(s, t, act), t, s.Stack(t)[s.Depth(t) - 1 := Enqueuing(act.x, act.q)])
  {
  }

  lemma {:induction false} Enqueued(s: State, t: ThreadId, act: Act)
    requires act.Enqueue? && s.Top(t, Enqueuing(act.x, act.q)) && Free(s)
    ensures CanAct(s, t, act) && Left(s, DoAct(s, t, act), t, s.Stack(t)[..s.Depth(t) - 1])
  {
  }

  // What an emission does with a slot: its function here, or a push towards the slot's thread.
  function Handed(s: State, act: Act): Frame
    requires act.EmitNext?
  {
    if s.Routed(act.r, act.ctx, act.x) then Pushing(act.x, s.ctxs[act.x].thread) else Calling(act.x)
  }

  lemma {:induction false} EmittedIs(s: State, t: ThreadId, act: Act, left: Frame)
    requires act.EmitNext? && CanAct(s, t, act) && left == Emitting(act.r, act.ctx, act.todo - {act.x})
    ensures DoAct(s, t, act) == s.SetTop(t, left).PushFrame(t, Handed(s, act))
  {
  }

  lemma {:induction false} Emitted(s: State, t: ThreadId, act: Act, left: Frame)
    requires act.EmitNext? && CanAct(s, t, act) && left == Emitting(act.r, act.ctx, act.todo - {act.x})
    ensures Left(s, DoAct(s, t, act), t, s.Stack(t)[s.Depth(t) - 1 := left] + [Handed(s, act)])
  {
    EmittedIs(s, t, act, left);
  }

  // ------------------------------------------------------------------ emissions

  // The call on top of frame d + 1 is made or queued, and over.
  lemma {:induction false} CallReturns(s: State, t: ThreadId, d: nat, frames: seq<Frame>, f: Frame)
    returns (steps: seq<Step>, s': State)
    requires s.Stack(t) == frames + [f] && |frames| == d + 1 && (f.Calling? || f.Pushing?) && Free(s)
    ensures Reaches(s, steps, s') && Within(s, steps, t, d) && Left(s, s', t, frames)
    decreases f.Pushing?
  {
    assert (frames + [f])[..d + 1] == frames;
    if f.Calling? {
      var back := Return(f.slot);
      Returned(s, t, back);
      s' := DoAct(s, t, back);
      PrependWithin(s, ByThread(t, back), [], s', t, d);
      steps := [ByThread(t, back)] + [];
    } else if f.target == t {
      var inline := PushInline(f.slot);
      Inlined(s, t, inline);
      var s1 := DoAct(s, t, inline);
      assert (frames + [f])[d + 1 := Calling(f.slot)] == frames + [Calling(f.slot)];
      var more;
      more, s' := CallReturns(s1, t, d, frames, Calling(f.slot));
      PrependWithin(s, ByThread(t, inline), more, s', t, d);
      steps := [ByThread(t, inline)] + more;
    } else {
      steps, s' := PushReturns(s, t, d, frames, f);
    }
  }

  lemma {:induction false} PushReturns(s: State, t: ThreadId, d: nat, frames: seq<Frame>, f: Frame)
    returns (steps: seq<Step>, s': State)
    requires s.Stack(t) == frames + [f] && |frames| == d + 1 && f.Pushing? && f.target != t && Free(s)
    ensures Reaches(s, steps, s') && Within(s, steps, t, d) && Left(s, s', t, frames)
  {
    var find, put := PushLookup(f.slot, f.target), Enqueue(f.slot, f.target);
    LookedUp(s, t, find);
    var s1 := DoAct(s, t, find);
    assert (frames + [f])[d + 1 := Enqueuing(f.slot, f.target)] == frames + [Enqueuing(f.slot, f.target)];
    Enqueued(s1, t, put);
    s' := DoAct(s1, t, put);
    assert (frames + [Enqueuing(f.slot, f.target)])[..d + 1] == frames;
    PrependWithin(s1, ByThread(t, put), [], s', t, d);
    PrependWithin(s, ByThread(t, find), [ByThread(t, put)] + [], s', t, d);
    steps := [ByThread(t, find)] + ([ByThread(t, put)] + []);
  }

  lemma {:induction false} EmissionTurn(s: State, t: ThreadId, below: seq<Frame>, next: Act, left: Frame)
    returns (steps: seq<Step>, s': State)
    requires next.EmitNext? && CanAct(s, t, next) && left == Emitting(next.r, next.ctx, next.todo - {next.x})
    requires s.Stack(t) == below + [Emitting(next.r, next.ctx, next.todo)] && Free(s)
    ensures Reaches(s, steps, s') && Within(s, steps, t, |below|) && Left(s, s', t, below + [left])
  {
    var s1 := DoAct(s, t, next);
    Emitted(s, t, next, left);
    assert s.Stack(t)[|below| := left] == below + [left];
    var calls;
    calls, s' := CallReturns(s1, t, |below|, below + [left], Handed(s, next));
    PrependWithin(s, ByThread(t, next), calls, s', t, |below|);
    steps := [ByThread(t, next)] + calls;
  }

  lemma {:induction false} EmissionGoesOn(s: State, t: ThreadId, below: seq<Frame>,
                                          r: RelayId, ctx: Option<Context>, todo: set<SlotId>)
    returns (steps: seq<Step>, s': State)
    requires s.Stack(t) == below + [Emitting(r, ctx, todo)] && Free(s)
    ensures Reaches(s, steps, s') && Within(s, steps, t, |below|) && Left(s, s', t, below + [Emitting(r, ctx, {})])
    decreases |todo|
  {
    if todo == {} {
      steps, s' := [], s;
    } else {
      var x :| x in todo;
      var turn, s1 := EmissionTurn(s, t, below, EmitNext(r, ctx, todo, x), Emitting(r, ctx, todo - {x}));
      var more;
      more, s' := EmissionGoesOn(s1, t, below, r, ctx, todo - {x});
      steps := JoinedWithin(s, turn, s1, more, s', t, |below|);
    }
  }

  lemma {:induction false} Ended(s: State, t: ThreadId, below: seq<Frame>, end: Act)
    requires end.EndEmit? && s.Stack(t) == below + [Emitting(end.r, end.ctx, {})]
    ensures CanAct(s, t, end)
    ensures DoAct(s, t, end).Stack(t) == below && DoAct(s, t, end).relayLock == s.relayLock - {end.r}
  {
  }

  lemma {:induction false} Begun(s: State, t: ThreadId, begin: Act)
    requires begin.BeginEmit? && CanAct(s, t, begin)
    ensures
      var s1 := DoAct(s, t, begin);
      && s1.Stack(t) == s.Stack(t) + [Emitting(begin.r, begin.ctx, s.Held(begin.r))]
      && (s1.relayLock - {begin.r}).Keys == s.relayLock.Keys && (Free(s) ==> Free(s1))
  {
  }

  lemma {:induction false} EmissionEnds(locked: State, t: ThreadId, below: seq<Frame>, end: Act, todo: set<SlotId>)
    returns (steps: seq<Step>, s': State)
    requires end.EndEmit? && locked.Stack(t) == below + [Emitting(end.r, end.ctx, todo)] && Free(locked)
    ensures Reaches(locked, steps, s') && Within(locked, steps, t, |below|) && s'.Depth(t) == |below| + 1
    ensures CanAct(s', t, end)
    ensures DoAct(s', t, end).Stack(t) == below && DoAct(s', t, end).relayLock == locked.relayLock - {end.r}
  {
    steps, s' := EmissionGoesOn(locked, t, below, end.r, end.ctx, todo);
    Ended(s', t, below, end);
  }

  // An emission that finds its relay, and the queues, unlocked can go on to its end; the thread
  // is then where it was and the relay's lock is given up.
  lemma {:induction false} EmissionCanEnd(s: State, t: ThreadId, begin: Act, locked: State, end: Act)
    returns (steps: seq<Step>, s': State)
    requires begin.BeginEmit? && CanAct(s, t, begin) && Free(s) && locked == DoAct(s, t, begin)
    requires end.EndEmit? && end.r == begin.r && end.ctx == begin.ctx
    ensures Reaches(locked, steps, s') && Within(locked, steps, t, s.Depth(t)) && s'.Depth(t) == s.Depth(t) + 1
    ensures CanAct(s', t, end) && DoAct(s', t, end).Stack(t) == s.Stack(t)
    ensures DoAct(s', t, end).relayLock.Keys == s.relayLock.Keys
  {
    Begun(s, t, begin);
    steps, s' := EmissionEnds(locked, t, s.Stack(t), end, s.Held(begin.r));
  }

  // ------------------------------------------------------------------ drains

  lemma {:induction false} Popped(s: State, t: ThreadId, pop: Act)
    requires pop.PopNext? && CanAct(s, t, pop)
    ensures
      var s1, it := DoAct(s, t, pop), s.Queue(pop.q)[0];
      && Left(s, s1, t, s.Stack(t) + [Calling(it.slot)])
      && s1.Queue(pop.q) == s.Queue(pop.q)[1..] && s1.Ran(pop.q) == s.Ran(pop.q) + [it]
  {
  }

  // A drain can always go on to its end.
  lemma {:induction false} DrainCanEnd(s: State, t: ThreadId, d: nat, below: seq<Frame>, f: Frame)
    returns (steps: seq<Step>, s': State)
    requires s.Stack(t) == below + [f] && |below| == d && f.Draining?
    ensures Reaches(s, steps, s') && Within(s, steps, t, d) && s'.Stack(t) == below + [f]
    ensures CanAct(s', t, EndRun(f.queue, f.once, f.batch, f.start))
    decreases |s.Queue(f.queue)|
  {
    var pop := PopNext(f.queue, f.once, f.batch, f.start);
    if CanAct(s, t, pop) {
      var back := Return(s.Queue(f.queue)[0].slot);
      Popped(s, t, pop);
      var s1 := DoAct(s, t, pop);
      Returned(s1, t, back);
      var s2 := DoAct(s1, t, back);
      assert (below + [f] + [Calling(back.x)])[..d + 1] == below + [f];
      var more;
      more, s' := DrainCanEnd(s2, t, d, below, f);
      PrependWithin(s1, ByThread(t, back), more, s', t, d);
      PrependWithin(s, ByThread(t, pop), [ByThread(t, back)] + more, s', t, d);
      steps := [ByThread(t, pop)] + ([ByThread(t, back)] + more);
    } else {
      steps, s' := [], s;
    }
  }

  // ------------------------------------------------------------------ slots

  // Connecting in either order leaves the slot idle, hooked into the relay and listing it.
  lemma {:induction false} ConnectCompletes(s: State, x: SlotId, first: Op, second: Op)
    requires (first.HookFirst? && second == ThenList(first.r)) || (first.ListFirst? && second == ThenHook(first.r))
    requires s.Phase(x).Idle? && first.r !in s.relayLock
    ensures CanOp(s, x, first) && CanOp(DoOp(s, x, first), x, second)
    ensures
      var s' := DoOp(DoOp(s, x, first), x, second);
      && s'.Phase(x).Idle? && x in s'.Held(first.r) && s'.Listed(x) == s.Listed(x) + [first.r]
  {
  }

  lemma {:induction false} DisconnectCompletes(s: State, x: SlotId, first: Op, second: Op)
    requires first.Disconnect? && second == ThenUnlist(first.r) && CanOp(s, x, first)
    ensures CanOp(DoOp(s, x, first), x, second)
    ensures
      var s' := DoOp(DoOp(s, x, first), x, second);
      && s'.Phase(x).Idle? && x !in s'.Held(first.r) && s'.Listed(x) == RemoveFirst(s.Listed(x), first.r)
  {
  }

  lemma {:induction false} Unhooked(s: State, x: SlotId, op: Op)
    requires op.UnhookNext? && s.Phase(x) == Unhooking(op.i) && op.i < |s.Listed(x)| && s.relayLock == map[]
    ensures CanOp(s, x, op)
    ensures
      var s' := DoOp(s, x, op);
      && s'.Phase(x) == Unhooking(op.i + 1) && s'.listed == s.listed && s'.relayLock == s.relayLock
      && s'.queueLock == s.queueLock && s'.globalLock == s.globalLock
  {
  }

  lemma {:induction false} Purged(s: State, x: SlotId, op: Op)
    requires op.PurgeNext? && s.Phase(x) == Purging(op.todo) && op.q in op.todo && s.queueLock == map[]
    ensures CanOp(s, x, op)
    ensures DoOp(s, x, op).Phase(x) == Purging(op.todo - {op.q}) && DoOp(s, x, op).queueLock == s.queueLock
  {
  }

  lemma {:induction false} PurgeGoesOn(s: State, x: SlotId, todo: set<ThreadId>) returns (steps: seq<Step>, s': State)
    requires s.Phase(x) == Purging(todo) && s.queueLock == map[]
    ensures Reaches(s, steps, s') && s'.Phase(x).Dead?
    decreases |todo|
  {
    if todo == {} {
      s' := DoOp(s, x, PurgeEnd);
      Prepend(s, OnSlot(x, PurgeEnd), [], s');
      steps := [OnSlot(x, PurgeEnd)] + [];
    } else {
      var q :| q in todo;
      var op := PurgeNext(todo, q);
      Purged(s, x, op);
      var more;
      more, s' := PurgeGoesOn(DoOp(s, x, op), x, todo - {q});
      Prepend(s, OnSlot(x, op), more, s');
      steps := [OnSlot(x, op)] + more;
    }
  }

  lemma {:induction false} PurgeStarts(s: State, x: SlotId, i: nat) returns (steps: seq<Step>, s': State)
    requires s.Phase(x) == Unhooking(i) && i >= |s.Listed(x)| && Free(s)
    ensures Reaches(s, steps, s') && s'.Phase(x).Dead?
  {
    var s1 := DoOp(s, x, UnhookDone(i));
    var s2 := DoOp(s1, x, PurgeBegin);
    var more;
    more, s' := PurgeGoesOn(s2, x, s.queues.Keys);
    Prepend(s1, OnSlot(x, PurgeBegin), more, s');
    Prepend(s, OnSlot(x, UnhookDone(i)), [OnSlot(x, PurgeBegin)] + more, s');
    steps := [OnSlot(x, UnhookDone(i))] + ([OnSlot(x, PurgeBegin)] + more);
  }

  lemma {:induction false} UnhookGoesOn(s: State, x: SlotId, i: nat) returns (steps: seq<Step>, s': State)
    requires s.Phase(x) == Unhooking(i) && s.relayLock == map[] && Free(s)
    ensures Reaches(s, steps, s') && s'.Phase(x).Dead?
    decreases |s.Listed(x)| - i
  {
    if i >= |s.Listed(x)| {
      steps, s' := PurgeStarts(s, x, i);
    } else {
      var op := UnhookNext(i);
      Unhooked(s, x, op);
      var more;
      more, s' := UnhookGoesOn(DoOp(s, x, op), x, i + 1);
      Prepend(s, OnSlot(x, op), more, s');
      steps := [OnSlot(x, op)] + more;
    }
  }

  // The destructors of an idle slot can go on to their end.
  lemma {:induction false} DestroyCanEnd(s: State, x: SlotId) returns (steps: seq<Step>, s': State)
    requires s.Phase(x).Idle? && s.relayLock == map[] && Free(s)
    ensures Reaches(s, steps, s') && s'.Phase(x).Dead?
  {
    var s1 := DoOp(s, x, Destroy);
    var more;
    more, s' := UnhookGoesOn(s1, x, 0);
    Prepend(s, OnSlot(x, Destroy), more, s');
    steps := [OnSlot(x, Destroy)] + more;
  }
}
