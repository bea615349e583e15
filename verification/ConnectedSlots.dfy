/**
  Who an emission reaches, told by connects and disconnects: between them other steps neither
  hook a slot into a relay nor let it go.
*/
module ConnectedSlots {
  import opened EmissionDelivery
  import opened Sequences
  import opened SignalInvariant
  import opened SignalProtocol
  import opened Wrappers

  // The step that hooks x into relay r, in either order of connecting.
  predicate Hooks(step: Step, x: SlotId, r: RelayId) {
    step.OnSlot? && step.x == x && (step.op.HookFirst? || step.op.ThenHook?) && step.op.r == r
  }

  // The steps by which x leaves relay r: its disconnect, or its destructor.
  predicate LetsGo(step: Step, x: SlotId, r: RelayId) {
    step.OnSlot? && step.x == x && ((step.op.Disconnect? && step.op.r == r) || step.op.UnhookNext?)
  }

  ghost predicate Kept(steps: seq<Step>, x: SlotId, r: RelayId) {
    forall i :: 0 <= i < |steps| ==> !LetsGo(steps[i], x, r)
  }

  ghost predicate LeftOut(steps: seq<Step>, x: SlotId, r: RelayId) {
    forall i :: 0 <= i < |steps| ==> !Hooks(steps[i], x, r)
  }

  // A connect to a void relay adds the slot to those it holds, one to a return-value relay
  // replaces its slot; no other relay changes.
  lemma {:induction false} HookAdds(s: State, y: SlotId, op: Op)
    requires (op.HookFirst? || op.ThenHook?) && CanOp(s, y, op)
    ensures
      var s' := DoOp(s, y, op);
      && s'.kinds == s.kinds && s'.Held(op.r) == (if s.Kind(op.r) == Many then s.Held(op.r) + {y} else {y})
      && forall q :: q != op.r ==> s'.Held(q) == s.Held(q)
  {
  }

  // What a disconnect, or a step of the destructor, takes from a relay is the slot alone.
  lemma {:induction false} LetGoRemoves(s: State, y: SlotId, op: Op, r: RelayId)
    requires (op.Disconnect? || op.UnhookNext?) && CanOp(s, y, op)
    ensures
      var s' := DoOp(s, y, op);
      && s'.kinds == s.kinds && s.Held(r) - {y} <= s'.Held(r) <= s.Held(r)
      && (op.Disconnect? ==> s'.Held(op.r) == s.Held(op.r) - {y} && (r != op.r ==> s'.Held(r) == s.Held(r)))
  {
  }

  lemma {:induction false} OtherOpsHold(s: State, y: SlotId, op: Op)
    requires !op.HookFirst? && !op.ThenHook? && !op.Disconnect? && !op.UnhookNext? && CanOp(s, y, op)
    ensures DoOp(s, y, op).kinds == s.kinds && DoOp(s, y, op).held == s.held
  {
  }

  lemma {:induction false} OpHolds(s: State, y: SlotId, op: Op, x: SlotId, r: RelayId)
    requires CanOp(s, y, op)
    ensures
      var s' := DoOp(s, y, op);
      && s'.kinds == s.kinds
      && (s.Kind(r) == Many && x in s.Held(r) && !LetsGo(OnSlot(y, op), x, r) ==> x in s'.Held(r))
      && (x !in s.Held(r) && !Hooks(OnSlot(y, op), x, r) ==> x !in s'.Held(r))
  {
    if op.HookFirst? || op.ThenHook? {
      HookAdds(s, y, op);
    } else if op.Disconnect? || op.UnhookNext? {
      LetGoRemoves(s, y, op, r);
    } else {
      OtherOpsHold(s, y, op);
    }
  }

  lemma {:induction false} StepHolds(s: State, step: Step, x: SlotId, r: RelayId)
    requires Enabled(s, step)
    ensures
      var s' := Apply(s, step);
      && s'.kinds == s.kinds
      && (s.Kind(r) == Many && x in s.Held(r) && !LetsGo(step, x, r) ==> x in s'.Held(r))
      && (x !in s.Held(r) && !Hooks(step, x, r) ==> x !in s'.Held(r))
  {
    match step
    case ByThread(t, act) => ActFrame(s, t, act);
    case OnSlot(y, op) => OpHolds(s, y, op, x, r);
  }

  lemma {:induction false} ConnectedStays(s: State, steps: seq<Step>, s': State, x: SlotId, r: RelayId)
    requires Reaches(s, steps, s') && s.Kind(r) == Many && x in s.Held(r) && Kept(steps, x, r)
    ensures x in s'.Held(r)
    decreases |steps|
  {
    if steps != [] {
      StepHolds(s, steps[0], x, r);
      ConnectedStays(Apply(s, steps[0]), steps[1..], s', x, r);
    }
  }

  lemma {:induction false} DisconnectedStays(s: State, steps: seq<Step>, s': State, x: SlotId, r: RelayId)
    requires Reaches(s, steps, s') && x !in s.Held(r) && LeftOut(steps, x, r)
    ensures x !in s'.Held(r)
    decreases |steps|
  {
    if steps != [] {
      StepHolds(s, steps[0], x, r);
      DisconnectedStays(Apply(s, steps[0]), steps[1..], s', x, r);
    }
  }

  lemma {:induction false} Prepend(s: State, step: Step, rest: seq<Step>, s': State)
    requires Enabled(s, step) && Reaches(Apply(s, step), rest, s')
    ensures Reaches(s, [step] + rest, s')
  {
    assert ([step] + rest)[1..] == rest;
  }

  lemma {:induction false} Joined(s: State, before: seq<Step>, s1: State, after: seq<Step>, s2: State) returns (all: seq<Step>)
    requires Reaches(s, before, s1) && Reaches(s1, after, s2)
    ensures Reaches(s, all, s2)
    decreases |before|
  {
    if before == [] {
      all := after;
    } else {
      var more := Joined(Apply(s, before[0]), before[1..], s1, after, s2);
      Prepend(s, before[0], more, s2);
      all := [before[0]] + more;
    }
  }

  lemma {:induction false} ReachesThrough(s: State, before: seq<Step>, s0: State, step: Step, after: seq<Step>, s1: State)
    returns (all: seq<Step>)
    requires Reaches(s, before, s0) && Enabled(s0, step) && Reaches(Apply(s0, step), after, s1)
    ensures Reaches(s, all, s1)
  {
    Prepend(s0, step, after, s1);
    all := Joined(s, before, s0, [step] + after, s1);
  }

  // In every interleaving: once a slot is connected to a void relay, and until it is disconnected
  // or destroyed, every emission through the relay that ends has called or queued it exactly once.
  lemma {:induction false} ConnectedSlotIsServed(init: State, before: seq<Step>, s0: State, hook: Step,
                                                 between: seq<Step>, s: State, t: ThreadId, begin: Act,
                                                 locked: State, steps: seq<Step>, s': State, end: Act, x: SlotId)
    requires Init(init) && Reaches(init, before, s0) && Enabled(s0, hook) && Reaches(Apply(s0, hook), between, s)
    requires begin.BeginEmit? && CanAct(s, t, begin) && locked == DoAct(s, t, begin)
    requires Hooks(hook, x, begin.r) && s0.Kind(begin.r) == Many && Kept(between, x, begin.r)
    requires Reaches(locked, steps, s') && Within(locked, steps, t, s.Depth(t))
    requires end.EndEmit? && CanAct(s', t, end) && s'.Depth(t) == s.Depth(t) + 1
    ensures multiset(Served(locked, steps, t, s.Depth(t)))[x] == 1
  {
    HookAdds(s0, x, hook.op);
    ConnectedStays(Apply(s0, hook), between, s, x, begin.r);
    var all := ReachesThrough(init, before, s0, hook, between, s);
    EmissionDeliversExactly(init, all, s, t, begin, locked, steps, s', end);
  }

  // And once it is disconnected, until it is connected again, no emission serves it.
  lemma {:induction false} DisconnectedSlotIsNotServed(init: State, before: seq<Step>, s0: State,
                                                       between: seq<Step>, s: State, t: ThreadId, begin: Act,
                                                       locked: State, steps: seq<Step>, s': State, x: SlotId)
    requires Init(init) && Reaches(init, before, s0)
    requires begin.BeginEmit? && CanAct(s, t, begin) && locked == DoAct(s, t, begin)
    requires Enabled(s0, OnSlot(x, Disconnect(begin.r)))
    requires Reaches(Apply(s0, OnSlot(x, Disconnect(begin.r))), between, s) && LeftOut(between, x, begin.r)
    requires Reaches(locked, steps, s') && Within(locked, steps, t, s.Depth(t))
    ensures x !in Served(locked, steps, t, s.Depth(t))
  {
    var off := OnSlot(x, Disconnect(begin.r));
    LetGoRemoves(s0, x, off.op, begin.r);
    DisconnectedStays(Apply(s0, off), between, s, x, begin.r);
    var all := ReachesThrough(init, before, s0, off, between, s);
    var rest := EmissionServesEachSlotOnce(init, all, s, t, begin, locked, steps, s');
  }
}
