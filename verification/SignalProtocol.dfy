/**
  Emission, queue draining and slot destruction as a transition system.

  Any number of threads emit through relays and drain inter-thread queues, each with
  its own call stack, while slots are connected, disconnected and destroyed.  Every
  lock acquisition is a guard: a step that needs a held lock is not enabled.  A lock
  is owned by a stack position (thread, depth), because std::mutex is not recursive.
*/
module SignalProtocol {
  import opened Sequences
  import opened Wrappers

  type SlotId = nat
  type RelayId = nat
  type ThreadId = nat

  datatype Context = Context(process: nat, thread: ThreadId)

  // Many: TypedSignalRelay<void(T...)>.  One: the return-value form with a single slot.
  datatype Kind = Many | One

  // A queued closure; `id` is its position in the log of everything pushed on the queue.
  datatype Item = Item(id: nat, slot: SlotId)

  datatype Frame =
    | Emitting(relay: RelayId, ctx: Option<Context>, todo: set<SlotId>)
    | Pushing(slot: SlotId, target: ThreadId)           // inside push, before the queue lookup
    | Enqueuing(slot: SlotId, target: ThreadId)         // queue looked up, queue lock still wanted
    | Awaiting(queue: ThreadId, once: bool)             // inside run/run_once, queue lock still wanted
    | Draining(queue: ThreadId, once: bool, batch: seq<Item>, start: nat)
    | Calling(slot: SlotId)                             // the slot's function is executing

  datatype Phase =
    | Idle
    | Listing(relay: RelayId)        // hooked into the relay, not yet in _relays
    | Hooking(relay: RelayId)        // already in _relays, not yet hooked into the relay
    | Unlinking(relay: RelayId)      // unhooked from the relay, still in _relays
    | Unhooking(next: nat)           // ~TypedSlot loop
    | PurgeWait                      // ~ISlot, global mutex wanted
    | Purging(todo: set<ThreadId>)   // ~ISlot, global mutex held
    | Dead

  type Place = (ThreadId, nat)

  datatype State = State(
    kinds: map<RelayId, Kind>,
    ctxs: map<SlotId, Context>,
    held: map<RelayId, set<SlotId>>,
    listed: map<SlotId, seq<RelayId>>,
    phases: map<SlotId, Phase>,
    relayLock: map<RelayId, Place>,
    queues: map<ThreadId, seq<Item>>,
    queueLock: map<ThreadId, Place>,
    globalLock: Option<SlotId>,
    stacks: map<ThreadId, seq<Frame>>,
    // History: everything ever pushed, run and purged, per queue.
    pushed: map<ThreadId, seq<Item>>,
    ran: map<ThreadId, seq<Item>>,
    purged: map<ThreadId, set<nat>>)
  {
    function Kind(r: RelayId): Kind { if r in kinds then kinds[r] else Many }
    function Held(r: RelayId): set<SlotId> { if r in held then held[r] else {} }
    function Listed(x: SlotId): seq<RelayId> { if x in listed then listed[x] else [] }
    function Phase(x: SlotId): Phase { if x in phases then phases[x] else Idle }
    function Queue(q: ThreadId): seq<Item> { if q in queues then queues[q] else [] }
    function Stack(t: ThreadId): seq<Frame> { if t in stacks then stacks[t] else [] }
    function Pushed(q: ThreadId): seq<Item> { if q in pushed then pushed[q] else [] }
    function Ran(q: ThreadId): seq<Item> { if q in ran then ran[q] else [] }
    function Purged(q: ThreadId): set<nat> { if q in purged then purged[q] else {} }

    function Depth(t: ThreadId): nat { |Stack(t)| }

    // A thread can start something new at top level or from inside a slot's function.
    predicate CanStart(t: ThreadId) { Depth(t) == 0 || Stack(t)[Depth(t) - 1].Calling? }

    predicate Top(t: ThreadId, f: Frame) { Depth(t) > 0 && Stack(t)[Depth(t) - 1] == f }

    function PushFrame(t: ThreadId, f: Frame): State { this.(stacks := stacks[t := Stack(t) + [f]]) }

    function PopFrame(t: ThreadId): State
      requires Depth(t) > 0
    {
      this.(stacks := stacks[t := Stack(t)[..Depth(t) - 1]])
    }

    function SetTop(t: ThreadId, f: Frame): State
      requires Depth(t) > 0
    {
      this.(stacks := stacks[t := Stack(t)[Depth(t) - 1 := f]])
    }

    // thread_queues[id]: the lookup creates an empty queue when there is none.
    function Lookup(q: ThreadId): State { this.(queues := queues[q := Queue(q)]) }

    function SetPhase(x: SlotId, p: Phase): State { this.(phases := phases[x := p]) }

    // Relay Connect: a set insert, or the replacement of the single slot.
    function Hook(r: RelayId, x: SlotId): State {
      this.(held := held[r := if Kind(r) == One then {x} else Held(r) + {x}])
    }

    function Unhook(r: RelayId, x: SlotId): State { this.(held := held[r := Held(r) - {x}]) }

    // The test of the relay's emission loop: queue the call, or make it here.
    predicate Routed(r: RelayId, ctx: Option<Context>, x: SlotId) {
      && Kind(r) == Many
      && ctx.Some?
      && x in ctxs
      && ctxs[x].process == ctx.value.process
      && ctxs[x].thread != ctx.value.thread
    }
  }

  // What one thread does next inside the library.
  datatype Act =
    | BeginEmit(r: RelayId, ctx: Option<Context>)
    | EmitNext(r: RelayId, ctx: Option<Context>, todo: set<SlotId>, x: SlotId)
    | EndEmit(r: RelayId, ctx: Option<Context>)
    | PushInline(x: SlotId)
    | PushLookup(x: SlotId, q: ThreadId)
    | Enqueue(x: SlotId, q: ThreadId)
    | BeginRun(q: ThreadId, once: bool)
    | LockQueue(q: ThreadId, once: bool)
    | PopNext(q: ThreadId, once: bool, batch: seq<Item>, start: nat)
    | EndRun(q: ThreadId, once: bool, batch: seq<Item>, start: nat)
    | Return(x: SlotId)

  // What happens next to one slot's connections, or to the slot itself.
  datatype Op =
    | HookFirst(r: RelayId)
    | ThenList(r: RelayId)
    | ListFirst(r: RelayId)
    | ThenHook(r: RelayId)
    | Disconnect(r: RelayId)
    | ThenUnlist(r: RelayId)
    | Destroy
    | UnhookNext(i: nat)
    | UnhookDone(i: nat)
    | PurgeBegin
    | PurgeNext(todo: set<ThreadId>, q: ThreadId)
    | PurgeEnd

  datatype Step = ByThread(t: ThreadId, act: Act) | OnSlot(x: SlotId, op: Op)

  // remove_from_queue on one queue: drop the entries tagged with x, keep the order.
  function WithoutSlot(items: seq<Item>, x: SlotId): seq<Item> {
    if items == [] then []
    else (if items[0].slot == x then [] else [items[0]]) + WithoutSlot(items[1..], x)
  }

  lemma {:induction false} WithoutSlotMember(items: seq<Item>, x: SlotId, it: Item)
    ensures it in WithoutSlot(items, x) <==> it in items && it.slot != x
  {
    if items != [] {
      WithoutSlotMember(items[1..], x, it);
      assert it in items <==> it == items[0] || it in items[1..];
    }
  }

  function IdsOf(items: seq<Item>, x: SlotId): set<nat> {
    set k | 0 <= k < |items| && items[k].slot == x :: items[k].id
  }

  // ------------------------------------------------------------------ steps

  // Is the step enabled: the thread is at that program point and every lock it takes is free.
  predicate CanAct(s: State, t: ThreadId, act: Act) {
    match act
    case BeginEmit(r, ctx) => s.CanStart(t) && r !in s.relayLock
    case EmitNext(r, ctx, todo, x) => s.Top(t, Emitting(r, ctx, todo)) && x in todo
    case EndEmit(r, ctx) => s.Top(t, Emitting(r, ctx, {}))
    case PushInline(x) => s.Top(t, Pushing(x, t))
    case PushLookup(x, q) => s.Top(t, Pushing(x, q)) && q != t && s.globalLock.None?
    case Enqueue(x, q) => s.Top(t, Enqueuing(x, q)) && q !in s.queueLock
    case BeginRun(q, once) => s.CanStart(t) && s.globalLock.None?
    case LockQueue(q, once) => s.Top(t, Awaiting(q, once)) && q !in s.queueLock
    case PopNext(q, once, batch, start) =>
      s.Top(t, Draining(q, once, batch, start)) && s.Queue(q) != [] && (once ==> |s.Ran(q)| == start)
    case EndRun(q, once, batch, start) =>
      s.Top(t, Draining(q, once, batch, start)) && (s.Queue(q) == [] || (once && |s.Ran(q)| != start))
    case Return(x) => s.Top(t, Calling(x))
  }

  predicate CanOp(s: State, x: SlotId, op: Op) {
    match op
    case HookFirst(r) => s.Phase(x).Idle? && r !in s.relayLock
    case ThenList(r) => s.Phase(x) == Listing(r)
    case ListFirst(r) => s.Phase(x).Idle?
    case ThenHook(r) => s.Phase(x) == Hooking(r) && r !in s.relayLock
    case Disconnect(r) => s.Phase(x).Idle? && r in s.Listed(x) && r !in s.relayLock
    case ThenUnlist(r) => s.Phase(x) == Unlinking(r)
    case Destroy => s.Phase(x).Idle?
    case UnhookNext(i) => s.Phase(x) == Unhooking(i) && i < |s.Listed(x)| && s.Listed(x)[i] !in s.relayLock
    case UnhookDone(i) => s.Phase(x) == Unhooking(i) && i >= |s.Listed(x)|
    case PurgeBegin => s.Phase(x).PurgeWait? && s.globalLock.None?
    case PurgeNext(todo, q) => s.Phase(x) == Purging(todo) && q in todo && q !in s.queueLock
    case PurgeEnd => s.Phase(x) == Purging({})
  }

  predicate Enabled(s: State, step: Step) {
    match step
    case ByThread(t, act) => CanAct(s, t, act)
    case OnSlot(x, op) => CanOp(s, x, op)
  }

  function DoAct(s: State, t: ThreadId, act: Act): State
    requires CanAct(s, t, act)
  {
    match act
    case BeginEmit(r, ctx) =>
      s.PushFrame(t, Emitting(r, ctx, s.Held(r))).(relayLock := s.relayLock[r := (t, s.Depth(t))])
    case EmitNext(r, ctx, todo, x) =>
      s.SetTop(t, Emitting(r, ctx, todo - {x}))
       .PushFrame(t, if s.Routed(r, ctx, x) then Pushing(x, s.ctxs[x].thread) else Calling(x))
    case EndEmit(r, ctx) => s.PopFrame(t).(relayLock := s.relayLock - {r})
    case PushInline(x) => s.SetTop(t, Calling(x))
    case PushLookup(x, q) => s.Lookup(q).SetTop(t, Enqueuing(x, q))
    case Enqueue(x, q) =>
      var item := Item(|s.Pushed(q)|, x);
      s.PopFrame(t).(queues := s.queues[q := s.Queue(q) + [item]],
                     pushed := s.pushed[q := s.Pushed(q) + [item]])
    case BeginRun(q, once) => s.Lookup(q).PushFrame(t, Awaiting(q, once))
    case LockQueue(q, once) =>
      s.SetTop(t, Draining(q, once, s.Queue(q), |s.Ran(q)|)).(queueLock := s.queueLock[q := (t, s.Depth(t) - 1)])
    case PopNext(q, once, batch, start) =>
      s.PushFrame(t, Calling(s.Queue(q)[0].slot)).(queues := s.queues[q := s.Queue(q)[1..]],
                                                   ran := s.ran[q := s.Ran(q) + [s.Queue(q)[0]]])
    case EndRun(q, once, batch, start) => s.PopFrame(t).(queueLock := s.queueLock - {q})
    case Return(x) => s.PopFrame(t)
  }

  function DoOp(s: State, x: SlotId, op: Op): State
    requires CanOp(s, x, op)
  {
    match op
    case HookFirst(r) => s.Hook(r, x).SetPhase(x, Listing(r))
    case ThenList(r) => s.(listed := s.listed[x := s.Listed(x) + [r]]).SetPhase(x, Idle)
    case ListFirst(r) => s.(listed := s.listed[x := s.Listed(x) + [r]]).SetPhase(x, Hooking(r))
    case ThenHook(r) => s.Hook(r, x).SetPhase(x, Idle)
    case Disconnect(r) => s.Unhook(r, x).SetPhase(x, Unlinking(r))
    case ThenUnlist(r) => s.(listed := s.listed[x := RemoveFirst(s.Listed(x), r)]).SetPhase(x, Idle)
    case Destroy => s.SetPhase(x, Unhooking(0))
    case UnhookNext(i) => s.Unhook(s.Listed(x)[i], x).SetPhase(x, Unhooking(i + 1))
    case UnhookDone(i) => s.SetPhase(x, PurgeWait)
    case PurgeBegin => s.SetPhase(x, Purging(s.queues.Keys)).(globalLock := Some(x))
    case PurgeNext(todo, q) =>
      s.SetPhase(x, Purging(todo - {q}))
       .(queues := s.queues[q := WithoutSlot(s.Queue(q), x)],
         purged := s.purged[q := s.Purged(q) + IdsOf(s.Queue(q), x)])
    case PurgeEnd => s.SetPhase(x, Dead).(globalLock := None)
  }

  function Apply(s: State, step: Step): State
    requires Enabled(s, step)
  {
    match step
    case ByThread(t, act) => DoAct(s, t, act)
    case OnSlot(x, op) => DoOp(s, x, op)
  }

  // Nothing connected, nothing queued, no thread inside the library.
  predicate Init(s: State) {
    && (forall r :: r in s.held ==> s.held[r] == {})
    && (forall x :: x in s.phases ==> s.phases[x] == Idle)
    && (forall t :: t in s.stacks ==> s.stacks[t] == [])
    && (forall q :: q in s.queues ==> s.queues[q] == [])
    && s.relayLock == map[] && s.queueLock == map[] && s.globalLock == None
    && s.pushed == map[] && s.ran == map[] && s.purged == map[]
  }

  // The state after a sequence of steps, when every one of them is enabled in turn.
  ghost predicate Reaches(s: State, steps: seq<Step>, s': State)
    decreases |steps|
  {
    if steps == [] then s' == s
    else Enabled(s, steps[0]) && Reaches(Apply(s, steps[0]), steps[1..], s')
  }

  // The slot whose function an act starts executing, if any.
  function Called(s: State, t: ThreadId, act: Act): Option<SlotId>
    requires CanAct(s, t, act)
  {
    match act
    case EmitNext(r, ctx, todo, x) => if s.Routed(r, ctx, x) then None else Some(x)
    case PushInline(x) => Some(x)
    case PopNext(q, once, batch, start) => Some(s.Queue(q)[0].slot)
    case _ => None
  }

  function Mentioned(f: Frame): set<SlotId> {
    match f
    case Emitting(_, _, todo) => todo
    case Pushing(x, _) => {x}
    case Enqueuing(x, _) => {x}
    case Awaiting(_, _) => {}
    case Draining(_, _, _, _) => {}
    case Calling(x) => {x}
  }
}
