/**
  Thread affinity: where a slot with a context executes.
*/
module ThreadAffinity {
  import opened EmissionDelivery
  import opened SignalInvariant
  import opened SignalProtocol
  import opened Wrappers

  // The emission is made by x's own thread, or through a void relay in a context of x's process
  // that names another thread than x's.
  predicate WellAimed(s: State, t: ThreadId, r: RelayId, ctx: Option<Context>, x: SlotId)
    requires x in s.ctxs
  {
    var own := s.ctxs[x];
    || t == own.thread
    || (s.Kind(r) == Many && ctx.Some? && ctx.value.process == own.process && ctx.value.thread != own.thread)
  }

  // An emission through a relay that holds x must be well aimed.
  predicate AimsWell(s: State, step: Step, x: SlotId)
    requires x in s.ctxs
  {
    step.ByThread? && step.act.BeginEmit? && x in s.Held(step.act.r) ==>
      WellAimed(s, step.t, step.act.r, step.act.ctx, x)
  }

  // No other thread than x's is about to run a closure of x.
  ghost predicate PopsAtHome(s: State, x: SlotId)
    requires x in s.ctxs
  {
    forall t, act :: CanAct(s, t, act) && act.PopNext? && s.Queue(act.q)[0].slot == x ==> t == s.ctxs[x].thread
  }

  // No thread but x's can make the next call to x.
  ghost predicate CallsAtHome(s: State, x: SlotId)
    requires x in s.ctxs
  {
    forall t, act :: CanAct(s, t, act) && Called(s, t, act) == Some(x) ==> t == s.ctxs[x].thread
  }

  ghost predicate DisciplinedRun(s: State, steps: seq<Step>, x: SlotId)
    decreases |steps|
  {
    && x in s.ctxs && PopsAtHome(s, x)
    && (steps != [] ==>
      AimsWell(s, steps[0], x) && (Enabled(s, steps[0]) ==> DisciplinedRun(Apply(s, steps[0]), steps[1..], x)))
  }

  ghost predicate CallsAtHomeAlong(s: State, steps: seq<Step>, x: SlotId)
    decreases |steps|
  {
    && x in s.ctxs && CallsAtHome(s, x)
    && (steps != [] && Enabled(s, steps[0]) ==> CallsAtHomeAlong(Apply(s, steps[0]), steps[1..], x))
  }

  // A frame of thread t that may lead to x leads to x's own thread.
  ghost predicate FrameAt(s: State, t: ThreadId, f: Frame, x: SlotId)
    requires x in s.ctxs
  {
    var home := s.ctxs[x].thread;
    match f
    case Emitting(r, ctx, todo) => x in todo ==> WellAimed(s, t, r, ctx, x)
    case Pushing(y, q) => y == x ==> q == home
    case Enqueuing(y, q) => y == x ==> q == home
    case Awaiting(q, _) => true
    case Draining(q, _, _, _) => true
    case Calling(y) => y == x ==> t == home
  }

  ghost predicate QueuedAt(s: State, q: ThreadId, it: Item, x: SlotId)
    requires x in s.ctxs
  {
    it.slot == x ==> q == s.ctxs[x].thread
  }

  ghost predicate Affine(s: State, x: SlotId) {
    && x in s.ctxs
    && (forall t, f {:trigger FrameAt(s, t, f, x)} :: f in s.Stack(t) ==> FrameAt(s, t, f, x))
    && (forall q, it {:trigger QueuedAt(s, q, it, x)} :: it in s.Queue(q) ==> QueuedAt(s, q, it, x))
  }

  lemma {:induction false} ActKeepsFramesAffine(s: State, t: ThreadId, act: Act, x: SlotId, u: ThreadId, f: Frame)
    requires Affine(s, x) && PopsAtHome(s, x) && CanAct(s, t, act) && AimsWell(s, ByThread(t, act), x)
    requires f in DoAct(s, t, act).Stack(u)
    ensures DoAct(s, t, act).ctxs == s.ctxs && FrameAt(DoAct(s, t, act), u, f, x)
  {
    ActFrame(s, t, act);
    if f in s.Stack(u) {
      assert FrameAt(s, u, f, x);
    } else {
      if s.Depth(t) > 0 { assert FrameAt(s, t, s.Stack(t)[s.Depth(t) - 1], x); }
    }
  }

  lemma {:induction false} ActKeepsQueueAffine(s: State, t: ThreadId, act: Act, x: SlotId, q: ThreadId, it: Item)
    requires Affine(s, x) && CanAct(s, t, act)
    requires it in DoAct(s, t, act).Queue(q)
    ensures DoAct(s, t, act).ctxs == s.ctxs && QueuedAt(DoAct(s, t, act), q, it, x)
  {
    ActFrame(s, t, act);
    if it in s.Queue(q) {
      assert QueuedAt(s, q, it, x);
    } else {
      assert FrameAt(s, t, s.Stack(t)[s.Depth(t) - 1], x);
    }
  }

  lemma {:induction false} ActKeepsAffine(s: State, t: ThreadId, act: Act, x: SlotId)
    requires Affine(s, x) && PopsAtHome(s, x) && CanAct(s, t, act) && AimsWell(s, ByThread(t, act), x)
    ensures Affine(DoAct(s, t, act), x)
  {
    var s' := DoAct(s, t, act);
    ActFrame(s, t, act);
    forall u, f | f in s'.Stack(u) ensures FrameAt(s', u, f, x) { ActKeepsFramesAffine(s, t, act, x, u, f); }
    forall q, it | it in s'.Queue(q) ensures QueuedAt(s', q, it, x) { ActKeepsQueueAffine(s, t, act, x, q, it); }
  }

  lemma {:induction false} OpKeepsAffine(s: State, y: SlotId, op: Op, x: SlotId)
    requires Affine(s, x) && CanOp(s, y, op)
    ensures Affine(DoOp(s, y, op), x)
  {
    var s' := DoOp(s, y, op);
    OpFrame(s, y, op);
    forall u, f | f in s'.Stack(u) ensures FrameAt(s', u, f, x) {
      assert s'.Stack(u) == s.Stack(u);
      assert FrameAt(s, u, f, x);
    }
    forall q, it | it in s'.Queue(q) ensures QueuedAt(s', q, it, x) {
      OpQueueMember(s, y, op, q, it);
      assert QueuedAt(s, q, it, x);
    }
  }

  lemma {:induction false} OpQueueMember(s: State, y: SlotId, op: Op, q: ThreadId, it: Item)
    requires CanOp(s, y, op) && it in DoOp(s, y, op).Queue(q)
    ensures it in s.Queue(q)
  {
    if op.PurgeNext? && q == op.q { WithoutSlotMember(s.Queue(q), y, it); }
  }

  lemma {:induction false} StepKeepsAffine(s: State, step: Step, x: SlotId)
    requires Affine(s, x) && PopsAtHome(s, x) && Enabled(s, step) && AimsWell(s, step, x)
    ensures Affine(Apply(s, step), x) && Apply(s, step).ctxs == s.ctxs
  {
    match step {
      case ByThread(t, act) => ActKeepsAffine(s, t, act, x); ActFrame(s, t, act);
      case OnSlot(y, op) => OpKeepsAffine(s, y, op, x); OpFrame(s, y, op);
    }
  }

  lemma {:induction false} StepKeepsContexts(s: State, step: Step)
    requires Enabled(s, step)
    ensures Apply(s, step).kinds == s.kinds && Apply(s, step).ctxs == s.ctxs
  {
    match step {
      case ByThread(t, act) => ActFrame(s, t, act);
      case OnSlot(y, op) => OpFrame(s, y, op);
    }
  }

  lemma {:induction false} AffineCallsAtHome(s: State, x: SlotId)
    requires Affine(s, x) && PopsAtHome(s, x)
    ensures CallsAtHome(s, x)
  {
    forall t, act | CanAct(s, t, act) && Called(s, t, act) == Some(x)
      ensures t == s.ctxs[x].thread
    {
      if !act.PopNext? { assert FrameAt(s, t, s.Stack(t)[s.Depth(t) - 1], x); }
    }
  }

  lemma {:induction false} DisciplinedCallsAtHome(s: State, steps: seq<Step>, s': State, x: SlotId)
    requires Affine(s, x) && Reaches(s, steps, s') && DisciplinedRun(s, steps, x)
    ensures CallsAtHomeAlong(s, steps, x) && Affine(s', x) && s'.ctxs == s.ctxs
    decreases |steps|
  {
    AffineCallsAtHome(s, x);
    if steps != [] {
      StepKeepsAffine(s, steps[0], x);
      DisciplinedCallsAtHome(Apply(s, steps[0]), steps[1..], s', x);
    }
  }

  // An emission that is not well aimed enables at once a call to x on another thread.
  lemma {:induction false} AimMissesHome(s: State, t: ThreadId, begin: Act, x: SlotId)
    requires begin.BeginEmit? && CanAct(s, t, begin) && x in s.ctxs && x in s.Held(begin.r)
    requires !WellAimed(s, t, begin.r, begin.ctx, x)
    ensures DoAct(s, t, begin).ctxs == s.ctxs && !CallsAtHome(DoAct(s, t, begin), x)
  {
    ActFrame(s, t, begin);
    var s', next := DoAct(s, t, begin), EmitNext(begin.r, begin.ctx, s.Held(begin.r), x);
    assert s'.Top(t, Emitting(begin.r, begin.ctx, s.Held(begin.r)));
    assert CanAct(s', t, next) && Called(s', t, next) == Some(x);
  }

  // Frame d of thread t can, while it goes on, come to make a call to x on its own thread.
  ghost predicate MayCall(s: State, t: ThreadId, d: nat, x: SlotId) {
    exists steps, s', act ::
      Reaches(s, steps, s') && Within(s, steps, t, d) && CallsFrom(s', t, d, act, x)
  }

  predicate CallsFrom(s: State, t: ThreadId, d: nat, act: Act, x: SlotId) {
    CanAct(s, t, act) && Serves(s, ByThread(t, act), t, d) && Called(s, t, act) == Some(x)
  }

  // For one emission through a relay that holds x: while it goes on it can come to call x itself
  // exactly when the relay is a return-value one, a context is missing, or the contexts name
  // different processes or the same thread.  So being well aimed is exactly what keeps its calls
  // at home.
  lemma {:induction false} EmissionStaysHomeIff(s: State, t: ThreadId, begin: Act, locked: State, x: SlotId)
    requires Inv(s) && begin.BeginEmit? && CanAct(s, t, begin) && locked == DoAct(s, t, begin)
    requires x in s.Held(begin.r)
    ensures MayCall(locked, t, s.Depth(t), x) <==>
              || s.Kind(begin.r) == One || begin.ctx.None? || x !in s.ctxs
              || begin.ctx.value.process != s.ctxs[x].process || begin.ctx.value.thread == s.ctxs[x].thread
    ensures x in s.ctxs ==>
              (WellAimed(s, t, begin.r, begin.ctx, x) <==>
               (MayCall(locked, t, s.Depth(t), x) ==> t == s.ctxs[x].thread))
  {
    if s.Routed(begin.r, begin.ctx, x) {
      forall steps, s', act | Reaches(locked, steps, s') && Within(locked, steps, t, s.Depth(t))
        ensures !CallsFrom(s', t, s.Depth(t), act, x)
      {
        RoutedIsNotCalled(s, t, begin, locked, steps, s', act, x);
      }
    } else {
      UnroutedIsCalled(s, t, begin, locked, x);
    }
  }

  lemma {:induction false} RoutedIsNotCalled(s: State, t: ThreadId, begin: Act, locked: State,
                                             steps: seq<Step>, s': State, act: Act, x: SlotId)
    requires Inv(s) && begin.BeginEmit? && CanAct(s, t, begin) && locked == DoAct(s, t, begin)
    requires s.Routed(begin.r, begin.ctx, x)
    requires Reaches(locked, steps, s') && Within(locked, steps, t, s.Depth(t))
    ensures !CallsFrom(s', t, s.Depth(t), act, x)
  {
    StepKeepsInv(s, ByThread(t, begin));
    var rest := EmissionRun(locked, steps, s', t, s.Depth(t), begin.r, begin.ctx, s.Held(begin.r));
    ActFrame(s, t, begin);
    RunKeepsRouting(locked, steps, s');
    SameRouting(s, s', begin.r, begin.ctx, x);
    if CallsFrom(s', t, s.Depth(t), act, x) { CalledIsUnrouted(s', t, s.Depth(t), act, begin.r, begin.ctx, rest, x); }
  }

  lemma SameRouting(s: State, s': State, r: RelayId, ctx: Option<Context>, x: SlotId)
    requires s'.kinds == s.kinds && s'.ctxs == s.ctxs
    ensures s'.Routed(r, ctx, x) == s.Routed(r, ctx, x)
  {}

  lemma {:induction false} CalledIsUnrouted(s: State, t: ThreadId, d: nat, act: Act,
                                            r: RelayId, ctx: Option<Context>, todo: set<SlotId>, x: SlotId)
    requires CallsFrom(s, t, d, act, x) && EmittingAt(s, t, d, r, ctx, todo)
    ensures !s.Routed(r, ctx, x)
  {
  }

  lemma {:induction false} UnroutedIsCalled(s: State, t: ThreadId, begin: Act, locked: State, x: SlotId)
    requires begin.BeginEmit? && CanAct(s, t, begin) && locked == DoAct(s, t, begin)
    requires x in s.Held(begin.r) && !s.Routed(begin.r, begin.ctx, x)
    ensures MayCall(locked, t, s.Depth(t), x)
  {
    var next := EmitNext(begin.r, begin.ctx, s.Held(begin.r), x);
    assert locked.Top(t, Emitting(begin.r, begin.ctx, s.Held(begin.r)));
    assert Reaches(locked, [], locked) && Within(locked, [], t, s.Depth(t));
    assert CallsFrom(locked, t, s.Depth(t), next, x);
  }

  lemma {:induction false} RunKeepsRouting(s: State, steps: seq<Step>, s': State)
    requires Reaches(s, steps, s')
    ensures s'.kinds == s.kinds && s'.ctxs == s.ctxs
    decreases |steps|
  {
    if steps != [] {
      StepKeepsContexts(s, steps[0]);
      RunKeepsRouting(Apply(s, steps[0]), steps[1..], s');
    }
  }

  lemma {:induction false} HomeCallsAreDisciplined(s: State, steps: seq<Step>, s': State, x: SlotId)
    requires Reaches(s, steps, s') && CallsAtHomeAlong(s, steps, x)
    ensures DisciplinedRun(s, steps, x)
    decreases |steps|
  {
    if steps != [] {
      var step := steps[0];
      if !AimsWell(s, step, x) {
        AimMissesHome(s, step.t, step.act, x);
      }
      StepKeepsContexts(s, step);
      HomeCallsAreDisciplined(Apply(s, step), steps[1..], s', x);
    }
  }

  // Along a run no thread but x's own can ever make a call to x, exactly when every emission
  // through a relay that holds x is well aimed and every closure of x is left to x's thread.
  lemma {:induction false} SlotsRunOnTheirThreadIff(init: State, steps: seq<Step>, s: State, x: SlotId)
    requires Init(init) && Reaches(init, steps, s) && x in init.ctxs
    ensures CallsAtHomeAlong(init, steps, x) <==> DisciplinedRun(init, steps, x)
  {
    if DisciplinedRun(init, steps, x) {
      DisciplinedCallsAtHome(init, steps, s, x);
    }
    if CallsAtHomeAlong(init, steps, x) {
      HomeCallsAreDisciplined(init, steps, s, x);
    }
  }

  // A thread other than x's does not start to drain the queue of x's thread.
  predicate DrainsWell(s: State, step: Step, x: SlotId)
    requires x in s.ctxs
  {
    step.ByThread? && step.act.BeginRun? && step.act.q == s.ctxs[x].thread ==> step.t == s.ctxs[x].thread
  }

  // Rules about the steps taken alone.
  ghost predicate FollowsRules(s: State, steps: seq<Step>, x: SlotId)
    decreases |steps|
  {
    && x in s.ctxs
    && (steps != [] ==>
      && AimsWell(s, steps[0], x) && DrainsWell(s, steps[0], x)
      && (Enabled(s, steps[0]) ==> FollowsRules(Apply(s, steps[0]), steps[1..], x)))
  }

  predicate DrainAt(t: ThreadId, f: Frame, home: ThreadId) {
    (f.Awaiting? || f.Draining?) && f.queue == home ==> t == home
  }

  ghost predicate DrainsAtHome(s: State, home: ThreadId) {
    forall t, f {:trigger DrainAt(t, f, home)} :: f in s.Stack(t) ==> DrainAt(t, f, home)
  }

  lemma {:induction false} ActKeepsDrainAt(s: State, t: ThreadId, act: Act, u: ThreadId, f: Frame, home: ThreadId)
    requires DrainsAtHome(s, home) && CanAct(s, t, act) && (act.BeginRun? && act.q == home ==> t == home)
    requires f in DoAct(s, t, act).Stack(u)
    ensures DrainAt(u, f, home)
  {
    ActFrame(s, t, act);
    if f in s.Stack(u) {
      assert DrainAt(u, f, home);
    } else {
      if s.Depth(t) > 0 { assert DrainAt(t, s.Stack(t)[s.Depth(t) - 1], home); }
    }
  }

  lemma {:induction false} StepKeepsDrains(s: State, step: Step, x: SlotId)
    requires x in s.ctxs && DrainsAtHome(s, s.ctxs[x].thread) && Enabled(s, step) && DrainsWell(s, step, x)
    ensures DrainsAtHome(Apply(s, step), s.ctxs[x].thread)
  {
    var s', home := Apply(s, step), s.ctxs[x].thread;
    forall u, f | f in s'.Stack(u)
      ensures DrainAt(u, f, home)
    {
      match step {
        case ByThread(t, act) => ActKeepsDrainAt(s, t, act, u, f, home);
        case OnSlot(y, op) => OpFrame(s, y, op);
      }
    }
  }

  lemma {:induction false} AffinePopsAtHome(s: State, x: SlotId)
    requires Affine(s, x) && DrainsAtHome(s, s.ctxs[x].thread)
    ensures PopsAtHome(s, x)
  {
    var home := s.ctxs[x].thread;
    forall t, act | CanAct(s, t, act) && act.PopNext? && s.Queue(act.q)[0].slot == x
      ensures t == home
    {
      assert QueuedAt(s, act.q, s.Queue(act.q)[0], x);
      assert DrainAt(t, s.Stack(t)[s.Depth(t) - 1], home);
    }
  }

  lemma {:induction false} RulesDiscipline(s: State, steps: seq<Step>, s': State, x: SlotId)
    requires Affine(s, x) && DrainsAtHome(s, s.ctxs[x].thread) && Reaches(s, steps, s') && FollowsRules(s, steps, x)
    ensures DisciplinedRun(s, steps, x)
    decreases |steps|
  {
    AffinePopsAtHome(s, x);
    if steps != [] {
      StepKeepsAffine(s, steps[0], x);
      StepKeepsDrains(s, steps[0], x);
      RulesDiscipline(Apply(s, steps[0]), steps[1..], s', x);
    }
  }

  // It is enough that every emission taken is well aimed and that no other thread starts to drain
  // the queue of x's thread; then x executes on no other thread.
  lemma {:induction false} SlotsRunOnTheirThread(init: State, steps: seq<Step>, s: State, t: ThreadId, x: SlotId)
    requires Init(init) && Reaches(init, steps, s)
    requires x in init.ctxs && FollowsRules(init, steps, x)
    ensures CallsAtHomeAlong(init, steps, x)
    ensures Calling(x) in s.Stack(t) ==> t == init.ctxs[x].thread
  {
    RulesDiscipline(init, steps, s, x);
    DisciplinedCallsAtHome(init, steps, s, x);
    if Calling(x) in s.Stack(t) { assert FrameAt(s, t, Calling(x), x); }
  }

  // A push that is on its way runs the slot at once exactly when it goes to its own thread.
  lemma {:induction false} PushCallsIff(s: State, t: ThreadId, x: SlotId, q: ThreadId)
    requires s.Top(t, Pushing(x, q))
    ensures (exists act :: CanAct(s, t, act) && Called(s, t, act) == Some(x)) <==> q == t
  {
    if q == t { assert CanAct(s, t, PushInline(x)) && Called(s, t, PushInline(x)) == Some(x); }
  }

  // The rules a program can follow: every emission through a relay that holds x goes through a
  // void relay, with the emitting thread's own context of x's process.
  predicate OwnContext(s: State, step: Step, x: SlotId)
    requires x in s.ctxs
  {
    step.ByThread? && step.act.BeginEmit? && x in s.Held(step.act.r) ==>
      s.Kind(step.act.r) == Many && step.act.ctx == Some(Context(s.ctxs[x].process, step.t))
  }

  ghost predicate OwnContexts(s: State, steps: seq<Step>, x: SlotId)
    decreases |steps|
  {
    && x in s.ctxs
    && (steps != [] ==>
      && OwnContext(s, steps[0], x) && DrainsWell(s, steps[0], x)
      && (Enabled(s, steps[0]) ==> OwnContexts(Apply(s, steps[0]), steps[1..], x)))
  }

  lemma {:induction false} OwnContextsFollowRules(s: State, steps: seq<Step>, x: SlotId)
    requires OwnContexts(s, steps, x)
    ensures FollowsRules(s, steps, x)
    decreases |steps|
  {
    if steps != [] && Enabled(s, steps[0]) { OwnContextsFollowRules(Apply(s, steps[0]), steps[1..], x); }
  }

  // Emissions in the emitting thread's own context, whichever thread that is, and a queue drained
  // by its thread: the slot executes on its own thread only.
  lemma {:induction false} OwnContextsRunAtHome(init: State, steps: seq<Step>, s: State, t: ThreadId, x: SlotId)
    requires Init(init) && Reaches(init, steps, s) && OwnContexts(init, steps, x)
    ensures Calling(x) in s.Stack(t) ==> t == init.ctxs[x].thread
    ensures forall act :: CanAct(s, t, act) && Called(s, t, act) == Some(x) ==> t == init.ctxs[x].thread
  {
    OwnContextsFollowRules(init, steps, x);
    SlotsRunOnTheirThread(init, steps, s, t, x);
    RulesDiscipline(init, steps, s, x);
    DisciplinedCallsAtHome(init, steps, s, x);
    LastAtHome(init, steps, s, x);
  }

  lemma {:induction false} LastAtHome(s: State, steps: seq<Step>, s': State, x: SlotId)
    requires Reaches(s, steps, s') && CallsAtHomeAlong(s, steps, x)
    ensures x in s'.ctxs && CallsAtHome(s', x)
    decreases |steps|
  {
    if steps != [] { LastAtHome(Apply(s, steps[0]), steps[1..], s', x); }
  }

  lemma {:induction false} CalledInline(s: State, t: ThreadId, x: SlotId, r: RelayId, ctx: Option<Context>, todo: set<SlotId>, c: Step)
    requires s.Kind(r) == One && s.Stack(t) == [Emitting(r, ctx, todo)] && x in todo
    requires c == ByThread(t, EmitNext(r, ctx, todo, x))
    ensures Enabled(s, c) && Apply(s, c).Stack(t) == [Emitting(r, ctx, todo - {x}), Calling(x)]
  {
  }

  // A return-value relay does not look at contexts: an emission on thread t executes the slot
  // there, whatever the slot's own thread.
  lemma {:induction false} ReturnValueRunsAnywhere(init: State, t: ThreadId, x: SlotId, r: RelayId, ctx: Option<Context>)
    returns (steps: seq<Step>, s: State)
    requires Init(init) && init.Kind(r) == One
    ensures Reaches(init, steps, s) && Calling(x) in s.Stack(t)
  {
    var a, b := OnSlot(x, HookFirst(r)), ByThread(t, BeginEmit(r, ctx));
    var s0 := Apply(init, a);
    var s1 := Apply(s0, b);
    var c := ByThread(t, EmitNext(r, ctx, s0.Held(r), x));
    CalledInline(s1, t, x, r, ctx, s0.Held(r), c);
    s := Apply(s1, c);
    steps := ThreeSteps(init, a, s0, b, s1, c, s);
  }

  lemma {:induction false} ThreeSteps(s: State, a: Step, s0: State, b: Step, s1: State, c: Step, s2: State)
    returns (steps: seq<Step>)
    requires Enabled(s, a) && s0 == Apply(s, a) && Enabled(s0, b) && s1 == Apply(s0, b)
    requires Enabled(s1, c) && s2 == Apply(s1, c)
    ensures Reaches(s, steps, s2)
  {
    steps := [a, b, c];
    assert steps[1..] == [b, c] && [b, c][1..] == [c] && [c][1..] == [];
    assert Reaches(s2, [], s2);
    assert Reaches(s1, [c], s2);
    assert Reaches(s0, [b, c], s2);
  }
}
