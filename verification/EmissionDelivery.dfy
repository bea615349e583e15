/**
  What one emission delivers, whatever other threads and the called slots do meanwhile.
*/
module EmissionDelivery {
  import opened Sequences
  import opened SignalInvariant
  import opened SignalProtocol
  import opened Wrappers

  // A run during which frame d of thread t stays on the stack.
  ghost predicate Within(s: State, steps: seq<Step>, t: ThreadId, d: nat)
    decreases |steps|
  {
    && s.Depth(t) > d
    && (steps != [] ==> Enabled(s, steps[0]) && Within(Apply(s, steps[0]), steps[1..], t, d))
  }

  // Does the step hand a slot its call, inline or queued, from frame d of thread t?
  predicate Serves(s: State, step: Step, t: ThreadId, d: nat) {
    step.ByThread? && step.t == t && step.act.EmitNext? && s.Depth(t) == d + 1
  }

  // The slots served by frame d of thread t during the run, in order.
  ghost function Served(s: State, steps: seq<Step>, t: ThreadId, d: nat): seq<SlotId>
    requires Within(s, steps, t, d)
    decreases |steps|
  {
    if steps == [] then []
    else
      (if Serves(s, steps[0], t, d) then [steps[0].act.x] else [])
      + Served(Apply(s, steps[0]), steps[1..], t, d)
  }

  ghost predicate EmittingAt(s: State, t: ThreadId, d: nat, r: RelayId, ctx: Option<Context>, todo: set<SlotId>) {
    d < s.Depth(t) && s.Stack(t)[d] == Emitting(r, ctx, todo)
  }

  // One step either serves a slot of the frame's remaining ones, or leaves the frame alone.
  lemma {:induction false} EmissionStep(s: State, step: Step, t: ThreadId, d: nat,
                                        r: RelayId, ctx: Option<Context>, todo: set<SlotId>)
    requires Enabled(s, step) && EmittingAt(s, t, d, r, ctx, todo)
    requires Apply(s, step).Depth(t) > d
    ensures Serves(s, step, t, d) ==> step.act.x in todo
    ensures EmittingAt(Apply(s, step), t, d, r, ctx, if Serves(s, step, t, d) then todo - {step.act.x} else todo)
  {
    match step
    case OnSlot(x, op) => OpFrame(s, x, op);
    case ByThread(u, act) =>
      ActFrame(s, u, act);
      if u == t && s.Depth(t) > d + 1 {
        ActStack(s, t, act);
      } else if u == t {
        EmissionTopStep(s, t, act, r, ctx, todo);
      }
  }

  lemma {:induction false} EmissionTopStep(s: State, t: ThreadId, act: Act,
                                           r: RelayId, ctx: Option<Context>, todo: set<SlotId>)
    requires CanAct(s, t, act) && s.Top(t, Emitting(r, ctx, todo))
    requires DoAct(s, t, act).Depth(t) >= s.Depth(t)
    ensures act.EmitNext? && act.x in todo
    ensures EmittingAt(DoAct(s, t, act), t, s.Depth(t) - 1, r, ctx, todo - {act.x})
  {
  }

  // The relay's slots cannot change under the emission's lock.
  lemma {:induction false} EmissionKeepsRelay(s: State, step: Step, t: ThreadId, d: nat,
                                              r: RelayId, ctx: Option<Context>, todo: set<SlotId>)
    requires Inv(s) && Enabled(s, step) && EmittingAt(s, t, d, r, ctx, todo)
    ensures Apply(s, step).Held(r) == s.Held(r)
  {
    assert FrameOk(s, t, d);
    match step
    case OnSlot(x, op) => OpRespectsLocks(s, x, op);
    case ByThread(u, act) => ActFrame(s, u, act);
  }

  lemma {:induction false} EmissionRun(s: State, steps: seq<Step>, s': State, t: ThreadId, d: nat,
                                       r: RelayId, ctx: Option<Context>, todo: set<SlotId>) returns (rest: set<SlotId>)
    requires Inv(s) && Reaches(s, steps, s') && Within(s, steps, t, d)
    requires EmittingAt(s, t, d, r, ctx, todo)
    ensures EmittingAt(s', t, d, r, ctx, rest) && s'.Held(r) == s.Held(r)
    ensures rest <= todo && Once(Served(s, steps, t, d))
    ensures forall x :: x in Served(s, steps, t, d) <==> x in todo - rest
    decreases |steps|
  {
    if steps == [] {
      rest := todo;
    } else {
      var next := Apply(s, steps[0]);
      EmissionStep(s, steps[0], t, d, r, ctx, todo);
      EmissionKeepsRelay(s, steps[0], t, d, r, ctx, todo);
      StepKeepsInv(s, steps[0]);
      var served := Serves(s, steps[0], t, d);
      rest := EmissionRun(next, steps[1..], s', t, d, r, ctx, if served then todo - {steps[0].act.x} else todo);
      if served {
        ServedFirst(steps[0].act.x, Served(next, steps[1..], t, d), todo, rest);
      }
    }
  }

  lemma ServedFirst(x: SlotId, more: seq<SlotId>, todo: set<SlotId>, rest: set<SlotId>)
    requires x in todo && rest <= todo - {x} && Once(more)
    requires forall y :: y in more <==> y in todo - {x} - rest
    ensures Once([x] + more) && forall y :: y in [x] + more <==> y in todo - rest
  {
    assert x !in more;
    forall y
      ensures y in [x] + more <==> y == x || y in more
    {
    }
  }

  lemma {:induction false} LockedEmission(s: State, t: ThreadId, begin: Act)
    requires begin.BeginEmit? && CanAct(s, t, begin)
    ensures EmittingAt(DoAct(s, t, begin), t, s.Depth(t), begin.r, begin.ctx, s.Held(begin.r))
    ensures DoAct(s, t, begin).Held(begin.r) == s.Held(begin.r)
  {
  }

  // From the moment an emission has locked its relay, the relay's slots are fixed and none is
  // served twice; those not yet served are the emission's remaining ones, so an emission that
  // has none left has called or queued every slot of the relay exactly once.
  lemma {:induction false} EmissionServesEachSlotOnce(init: State, before: seq<Step>, s: State,
                                                      t: ThreadId, begin: Act, locked: State,
                                                      steps: seq<Step>, s': State)
    returns (rest: set<SlotId>)
    requires Init(init) && Reaches(init, before, s)
    requires begin.BeginEmit? && CanAct(s, t, begin) && locked == DoAct(s, t, begin)
    requires Reaches(locked, steps, s') && Within(locked, steps, t, s.Depth(t))
    ensures Once(Served(locked, steps, t, s.Depth(t)))
    ensures s'.Held(begin.r) == s.Held(begin.r)
    ensures EmittingAt(s', t, s.Depth(t), begin.r, begin.ctx, rest)
    ensures forall x :: x in Served(locked, steps, t, s.Depth(t)) <==> x in s.Held(begin.r) - rest
  {
    InitInv(init);
    RunKeepsInv(init, before, s);
    StepKeepsInv(s, ByThread(t, begin));
    LockedEmission(s, t, begin);
    rest := EmissionRun(locked, steps, s', t, s.Depth(t), begin.r, begin.ctx, s.Held(begin.r));
  }

  lemma {:induction false} OnceIsSet(xs: seq<SlotId>, all: set<SlotId>)
    requires Once(xs) && forall x :: x in xs <==> x in all
    ensures multiset(xs) == multiset(all)
    decreases |xs|
  {
    if xs == [] {
      assert all == {};
    } else {
      var rest := xs[1..];
      assert xs == [xs[0]] + rest;
      forall x
        ensures x in rest <==> x in all - {xs[0]}
      {
      }
      OnceIsSet(rest, all - {xs[0]});
      assert multiset(all) == multiset(all - {xs[0]}) + multiset{xs[0]};
    }
  }

  lemma {:induction false} NothingLeft(s: State, t: ThreadId, end: Act, r: RelayId, ctx: Option<Context>, rest: set<SlotId>)
    requires end.EndEmit? && CanAct(s, t, end) && EmittingAt(s, t, s.Depth(t) - 1, r, ctx, rest)
    ensures rest == {}
  {
  }

  // An emission that can end has called or queued each slot its relay held when it began, and
  // no other, exactly once.
  lemma {:induction false} EmissionDeliversExactly(init: State, before: seq<Step>, s: State,
                                                   t: ThreadId, begin: Act, locked: State,
                                                   steps: seq<Step>, s': State, end: Act)
    requires Init(init) && Reaches(init, before, s)
    requires begin.BeginEmit? && CanAct(s, t, begin) && locked == DoAct(s, t, begin)
    requires Reaches(locked, steps, s') && Within(locked, steps, t, s.Depth(t))
    requires end.EndEmit? && CanAct(s', t, end) && s'.Depth(t) == s.Depth(t) + 1
    ensures multiset(Served(locked, steps, t, s.Depth(t))) == multiset(s.Held(begin.r))
  {
    var rest := EmissionServesEachSlotOnce(init, before, s, t, begin, locked, steps, s');
    NothingLeft(s', t, end, begin.r, begin.ctx, rest);
    OnceIsSet(Served(locked, steps, t, s.Depth(t)), s.Held(begin.r));
  }

  // Only such a last step gives the relay's lock up.
  lemma {:induction false} OnlyEndUnlocks(s: State, t: ThreadId, act: Act, r: RelayId)
    requires Inv(s) && CanAct(s, t, act) && r in s.relayLock && r !in DoAct(s, t, act).relayLock
    ensures act.EndEmit? && act.r == r && s.relayLock[r] == (t, s.Depth(t) - 1)
  {
    if act.EndEmit? { assert FrameOk(s, t, s.Depth(t) - 1); }
  }
}
