/**
  Programs that connect and disconnect the objects of SignalGraph: every method call is one
  step of the wiring that the objects form, so whole programs obey DeliveryCounts.
*/
module SignalPrograms {
  import opened DeliveryCounts
  import opened Sequences
  import opened SignalGraph
  import opened Wirings

  type Graph = Wiring<Slot, Signal, Relay, Key>

  type GraphOp = Op<Slot, Signal, Relay, Key>

  datatype Command =
    | Direct(slot: Slot, signal: Signal)
    | SlotTo(slot: Slot, name: string)
    | SignalTo(signal: Signal, name: string)
    | SignalOff(signal: Signal, name: string)
    | Cut(i: nat)

  const VOID: SignalGraph.Kind := SignalProtocol.Many

  // The step a command is, up to the relay it makes.
  ghost predicate Does(op: GraphOp, c: Command) {
    match c
    case Direct(x, g) => op.Connect? && op.slot == x && op.signal == g
    case SlotTo(x, n) => op.JoinSlot? && op.slot == x && op.key == (VOID, n)
    case SignalTo(g, n) => op.JoinSignal? && op.signal == g && op.key == (VOID, n)
    case SignalOff(g, n) => op == LeaveSignal(g, (VOID, n))
    case Cut(i) => op == Op.Disconnect(i)
  }

  ghost predicate DoesAll(ops: seq<GraphOp>, script: seq<Command>) {
    |ops| == |script| && forall i :: 0 <= i < |ops| ==> Does(ops[i], script[i])
  }

  lemma DoesSnoc(ops: seq<GraphOp>, script: seq<Command>, op: GraphOp, c: Command)
    requires DoesAll(ops, script) && Does(op, c)
    ensures DoesAll(ops + [op], script + [c])
  {}

  // Only known slots are held or connected.
  ghost predicate Bounded(w: Graph, slots: set<Slot>) {
    && (forall r :: r in w.held ==> w.held[r] <= slots)
    && (forall i :: 0 <= i < |w.conns| ==> w.conns[i].slot in slots)
  }

  lemma NextStaysBounded(w: Graph, op: GraphOp, w': Graph, slots: set<Slot>)
    requires Bounded(w, slots) && w' == Next(w, op)
    requires op.Connect? || op.JoinSlot? ==> op.slot in slots
    ensures Bounded(w', slots)
  {}

  class Program {
    const slots: set<Slot>
    const signals: set<Signal>
    const manager: RelayManager
    var connections: seq<SlotConnection>
    ghost var relays: set<Relay>
    ghost var direct: map<Relay, (Slot, Signal)>

    // All slots, signals, relays and keys have the same void signature.
    ghost predicate Typed()
      reads this, manager
    {
      && (forall x :: x in slots ==> x.kind == VOID)
      && (forall g :: g in signals ==> g.kind == VOID)
      && (forall r :: r in relays ==> r.kind == VOID)
      && manager.Valid()
    }

    // And the wiring the objects form is one that connects and disconnects can produce.
    ghost predicate Valid()
      reads this, slots, signals, manager, relays
    {
      Typed() && Inv(View()) && Bounded(View(), slots)
    }

    ghost function View(): Graph
      reads this, slots, signals, manager, relays
    {
      Wiring(
        map r | r in relays :: r.slots,
        map x | x in slots :: x.relays,
        map g | g in signals :: g.relays,
        manager.relays,
        seq(|connections|, i requires 0 <= i < |connections| reads this => Conn(connections[i].slot, connections[i].relay)),
        direct)
    }

    lemma ValidLinks()
      requires Valid()
      ensures Linked(relays)
      ensures forall k :: k in manager.relays ==> manager.relays[k] in relays
    {
      var w := View();
      forall r, x | r in relays && x in r.slots
        ensures r in x.relays
      {
        assert RelayOk(w, r);
        assert x in w.Held(r) && w.Listed(x) == x.relays;
      }
    }

    lemma ConnectionIsKnown(i: nat)
      requires Valid() && i < |connections|
      ensures connections[i].slot in slots && connections[i].relay in relays
    {
      assert ConnOk(View(), i);
      assert View().conns[i] == Conn(connections[i].slot, connections[i].relay);
    }

    // The objects form wiring w, field by field.
    ghost predicate Forms(w: Graph)
      reads this, slots, signals, manager, relays
    {
      && w.held.Keys == relays && (forall r :: r in relays ==> w.held[r] == r.slots)
      && w.listed.Keys == slots && (forall x :: x in slots ==> w.listed[x] == x.relays)
      && w.emits.Keys == signals && (forall g :: g in signals ==> w.emits[g] == g.relays)
      && w.shared == manager.relays && w.direct == direct
      && ConnsAre(w.conns)
    }

    lemma ViewForms()
      ensures Forms(View())
    {}

    // Apart from these slots and signals nothing has moved since wiring w; new relays aside.
    ghost predicate Kept(w: Graph, moved: set<Relay>, x: set<Slot>, g: set<Signal>)
      reads this, slots, signals, relays
    {
      && w.held.Keys <= relays && (forall r :: r in w.held && r !in moved ==> r.slots == w.held[r])
      && w.listed.Keys == slots && (forall y :: y in slots && y !in x ==> y.relays == w.listed[y])
      && w.emits.Keys == signals && (forall h :: h in signals && h !in g ==> h.relays == w.emits[h])
    }

    ghost predicate ConnsAre(conns: seq<Conn<Slot, Relay>>)
      reads this
    {
      && |conns| == |connections|
      && forall i :: 0 <= i < |connections| ==> conns[i] == Conn(connections[i].slot, connections[i].relay)
    }

    lemma ConnectForms(w: Graph, op: GraphOp)
      requires op.Connect? && Kept(w, {}, {op.slot}, {op.signal}) && op.slot in slots && op.signal in signals
      requires relays == w.held.Keys + {op.relay} && op.relay !in w.held && op.relay.slots == {op.slot}
      requires op.slot.relays == w.listed[op.slot] + [op.relay] && op.signal.relays == w.emits[op.signal] + [op.relay]
      requires manager.relays == w.shared && direct == w.direct[op.relay := (op.slot, op.signal)]
      requires ConnsAre(w.conns + [Conn(op.slot, op.relay)])
      ensures Forms(Next(w, op))
    {}

    lemma JoinSlotForms(w: Graph, op: GraphOp, r: Relay)
      requires op.JoinSlot? && r == w.Shared(op.key, op.relay)
      requires Kept(w, {r}, {op.slot}, {}) && op.slot in slots
      requires relays == w.held.Keys + {r} && r.slots == w.Held(r) + {op.slot}
      requires op.slot.relays == w.listed[op.slot] + [r]
      requires manager.relays == w.shared[op.key := r] && direct == w.direct
      requires ConnsAre(w.conns + [Conn(op.slot, r)])
      ensures Forms(Next(w, op))
    {}

    lemma JoinSignalForms(w: Graph, op: GraphOp, r: Relay)
      requires op.JoinSignal? && r == w.Shared(op.key, op.relay)
      requires Kept(w, {r}, {}, {op.signal}) && op.signal in signals
      requires relays == w.held.Keys + {r} && r.slots == w.Held(r)
      requires op.signal.relays == if r in w.emits[op.signal] then w.emits[op.signal] else w.emits[op.signal] + [r]
      requires manager.relays == w.shared[op.key := r] && direct == w.direct && ConnsAre(w.conns)
      ensures Forms(Next(w, op))
    {}

    lemma CutForms(w: Graph, op: GraphOp, x: Slot, r: Relay)
      requires op.Disconnect? && op.i < |w.conns| && w.conns[op.i] == Conn(x, r)
      requires Kept(w, {r}, {x}, {}) && relays == w.held.Keys && r in relays && x in slots
      requires
        if r in w.listed[x] then r.slots == w.held[r] - {x} && x.relays == RemoveFirst(w.listed[x], r)
        else r.slots == w.held[r] && x.relays == w.listed[x]
      requires manager.relays == w.shared && direct == w.direct && ConnsAre(w.conns)
      ensures Forms(Next(w, op))
    {}

    // After the objects have taken one step of the wiring they are valid again.
    lemma StepTaken(before: Graph, op: GraphOp)
      requires Inv(before) && Bounded(before, slots) && Ok(before, op) && Forms(Next(before, op))
      requires op.Connect? || op.JoinSlot? ==> op.slot in slots
      requires Typed()
      ensures Valid() && View() == Next(before, op)
    {
      var w := Next(before, op);
      assert View().held == w.held && View().listed == w.listed && View().emits == w.emits;
      assert View().conns == w.conns;
      NextKeepsInv(before, op, w);
      NextStaysBounded(before, op, w, slots);
    }

    constructor (slots: set<Slot>, signals: set<Signal>)
      requires forall x :: x in slots ==> x.kind == VOID && x.relays == []
      requires forall g :: g in signals ==> g.kind == VOID && g.relays == []
      ensures this.slots == slots && this.signals == signals && fresh(manager)
      ensures Valid() && IsEmpty(View())
    {
      this.slots, this.signals := slots, signals;
      this.manager := new RelayManager();
      this.connections, this.relays, this.direct := [], {}, map[];
    }

    // One more connection, and its relay if it is new.
    method Remember(c: SlotConnection, ghost w: Graph, ghost moved: set<Relay>, ghost x: set<Slot>, ghost g: set<Signal>)
      requires Kept(w, moved, x, g) && relays == w.held.Keys && ConnsAre(w.conns)
      modifies this`connections, this`relays
      ensures relays == old(relays) + {c.relay}
      ensures Kept(w, moved, x, g) && ConnsAre(w.conns + [Conn(c.slot, c.relay)])
    {
      relays := relays + {c.relay};
      connections := connections + [c];
    }

    method ConnectObjects(slot: Slot, signal: Signal, ghost w: Graph) returns (ghost op: GraphOp)
      requires Typed() && Forms(w) && Linked(relays) && slot in slots && signal in signals
      modifies this, slot, signal
      ensures Typed() && fresh(relays - old(relays)) && old(relays) <= relays
      ensures Does(op, Direct(slot, signal)) && Ok(w, op) && Forms(Next(w, op))
    {
      var c := ConnectDirect(signal, slot, relays);
      direct := direct[c.relay := (slot, signal)];
      Remember(c, w, {}, {slot}, {signal});
      op := Op.Connect(slot, signal, c.relay);
      ConnectForms(w, op);
    }

    method Connect(slot: Slot, signal: Signal) returns (ghost op: GraphOp)
      requires Valid() && slot in slots && signal in signals
      modifies this, slot, signal
      ensures Valid() && fresh(relays - old(relays)) && old(relays) <= relays
      ensures Does(op, Direct(slot, signal)) && Ok(old(View()), op) && View() == Next(old(View()), op)
    {
      ghost var before := View();
      ViewForms();
      ValidLinks();
      op := ConnectObjects(slot, signal, before);
      StepTaken(before, op);
    }

    method JoinThroughManager(slot: Slot, key: Key, ghost w: Graph) returns (c: SlotConnection, ghost r: Relay)
      requires Typed() && Forms(w) && Linked(relays) && slot in slots && key.0 == VOID
      requires forall k :: k in manager.relays ==> manager.relays[k] in relays
      modifies slot, manager, relays
      ensures manager.Valid() && manager.relays == w.shared[key := r] && r.kind == VOID
      ensures if key in w.shared then r == w.shared[key] else fresh(r)
      ensures Kept(w, {r}, {slot}, {}) && r.slots == w.Held(r) + {slot}
      ensures slot.relays == w.listed[slot] + [r]
      ensures c.slot == slot && c.relay == r
    {
      c := manager.ConnectSlot(slot, key.1, relays);
      r := manager.relays[key];
    }

    method JoinSlotObjects(slot: Slot, name: string, ghost w: Graph) returns (ghost op: GraphOp)
      requires Typed() && Forms(w) && Linked(relays) && slot in slots
      requires forall k :: k in manager.relays ==> manager.relays[k] in relays
      modifies this, slot, manager, relays
      ensures Typed() && fresh(relays - old(relays)) && old(relays) <= relays
      ensures Does(op, SlotTo(slot, name)) && Ok(w, op) && Forms(Next(w, op))
    {
      var key := (VOID, name);
      ghost var r;
      var c;
      c, r := JoinThroughManager(slot, key, w);
      Remember(c, w, {r}, {slot}, {});
      op := Op.JoinSlot(slot, key, r);
      JoinSlotForms(w, op, r);
    }

    method JoinSlot(slot: Slot, name: string) returns (ghost op: GraphOp)
      requires Valid() && slot in slots
      modifies this, slot, manager, relays
      ensures Valid() && fresh(relays - old(relays)) && old(relays) <= relays
      ensures Does(op, SlotTo(slot, name)) && Ok(old(View()), op) && View() == Next(old(View()), op)
    {
      ghost var before := View();
      ViewForms();
      ValidLinks();
      op := JoinSlotObjects(slot, name, before);
      StepTaken(before, op);
    }

    method JoinSignalObjects(signal: Signal, name: string, ghost w: Graph) returns (ghost op: GraphOp)
      requires Typed() && Forms(w) && signal in signals
      requires forall k :: k in manager.relays ==> manager.relays[k] in relays
      modifies this, signal, manager
      ensures Typed() && fresh(relays - old(relays)) && old(relays) <= relays
      ensures Does(op, SignalTo(signal, name)) && Ok(w, op) && Forms(Next(w, op))
    {
      var key := (VOID, name);
      var _ := manager.ConnectSignal(signal, name);
      ghost var r := manager.relays[key];
      relays := relays + {r};
      op := Op.JoinSignal(signal, key, r);
      JoinSignalForms(w, op, r);
    }

    method JoinSignal(signal: Signal, name: string) returns (ghost op: GraphOp)
      requires Valid() && signal in signals
      modifies this, signal, manager
      ensures Valid() && fresh(relays - old(relays)) && old(relays) <= relays
      ensures Does(op, SignalTo(signal, name)) && Ok(old(View()), op) && View() == Next(old(View()), op)
    {
      ghost var before := View();
      ViewForms();
      ValidLinks();
      op := JoinSignalObjects(signal, name, before);
      StepTaken(before, op);
    }

    method LeaveSignalObjects(signal: Signal, name: string, ghost w: Graph) returns (ghost op: GraphOp)
      requires Typed() && Forms(w) && signal in signals
      modifies signal
      ensures Typed()
      ensures Does(op, SignalOff(signal, name)) && Ok(w, op) && Forms(Next(w, op))
    {
      // The connection that joining the name hands out holds the signal and the name's relay.
      var key := (VOID, name);
      if key in manager.relays {
        var c := new SignalConnection(signal, manager.relays[key]);
        var _ := c.Disconnect();
      }
      op := Op.LeaveSignal(signal, key);
    }

    method LeaveSignal(signal: Signal, name: string) returns (ghost op: GraphOp)
      requires Valid() && signal in signals
      modifies signal
      ensures Valid()
      ensures Does(op, SignalOff(signal, name)) && Ok(old(View()), op) && View() == Next(old(View()), op)
    {
      ghost var before := View();
      ViewForms();
      op := LeaveSignalObjects(signal, name, before);
      StepTaken(before, op);
    }

    method CutObjects(i: nat, ghost w: Graph) returns (ok: bool, ghost op: GraphOp)
      requires Typed() && Forms(w) && Linked(relays) && i < |connections|
      requires connections[i].slot in slots && connections[i].relay in relays
      modifies slots, relays
      ensures Typed() && ok == Succeeds(w, i)
      ensures Does(op, Cut(i)) && Ok(w, op) && Forms(Next(w, op))
    {
      ok := connections[i].Disconnect(relays);
      op := Op.Disconnect(i);
      CutForms(w, op, connections[i].slot, connections[i].relay);
    }

    method Disconnect(i: nat) returns (ok: bool, ghost op: GraphOp)
      requires Valid() && i < |connections|
      modifies slots, relays
      ensures Valid() && ok == Succeeds(old(View()), i)
      ensures Does(op, Cut(i)) && Ok(old(View()), op) && View() == Next(old(View()), op)
    {
      ghost var before := View();
      ViewForms();
      ValidLinks();
      ConnectionIsKnown(i);
      ok, op := CutObjects(i, before);
      StepTaken(before, op);
    }

    // One command; cutting a connection that was never handed out does nothing.
    method Do(c: Command) returns (ghost op: GraphOp)
      requires Valid() && Known(c)
      modifies this, slots, signals, manager, relays
      ensures Valid() && fresh(relays - old(relays)) && old(relays) <= relays
      ensures Does(op, c) && Ok(old(View()), op) && View() == Next(old(View()), op)
    {
      match c
      case Direct(x, g) => op := Connect(x, g);
      case SlotTo(x, n) => op := JoinSlot(x, n);
      case SignalTo(g, n) => op := JoinSignal(g, n);
      case SignalOff(g, n) => op := LeaveSignal(g, n);
      case Cut(i) =>
        op := Op.Disconnect(i);
        if i < |connections| {
          var ok;
          ok, op := Disconnect(i);
        }
    }

    predicate Known(c: Command) {
      match c
      case Direct(x, g) => x in slots && g in signals
      case SlotTo(x, _) => x in slots
      case SignalTo(g, _) => g in signals
      case SignalOff(g, _) => g in signals
      case Cut(_) => true
    }

    method Execute(script: seq<Command>) returns (ghost ops: seq<GraphOp>)
      requires Valid() && forall c :: c in script ==> Known(c)
      modifies this, slots, signals, manager, relays
      ensures Valid() && RunOk(old(View()), ops) && View() == Run(old(View()), ops)
      ensures DoesAll(ops, script)
    {
      ghost var w := View();
      ops := [];
      for i := 0 to |script|
        invariant Valid() && RunOk(w, ops) && View() == Run(w, ops)
        invariant fresh(relays - old(relays)) && old(relays) <= relays
        invariant DoesAll(ops, script[..i])
      {
        ghost var op := Do(script[i]);
        RunSnoc(w, ops, op);
        DoesSnoc(ops, script[..i], op, script[i]);
        assert script[..i] + [script[i]] == script[..i + 1];
        ops := ops + [op];
      }
      assert script[..|script|] == script;
    }

    lemma EmissionIsCalls(signal: Signal, slot: Slot)
      requires Valid() && signal in signals
      ensures Delivered(signal.relays)[slot] == Calls(View(), View().Emits(signal), slot)
    {
      var w := View();
      assert SignalOk(w, signal);
      DeliveriesAreHolders(signal.relays, slot);
      CallsAreHolding(w, signal.relays, slot);
      assert Holders(signal.relays, slot) == Holding(w, signal.relays, slot);
    }

    lemma EmissionCounted(start: Graph, ops: seq<GraphOp>, signal: Signal, slot: Slot)
      requires Valid() && IsEmpty(start) && RunOk(start, ops) && View() == Run(start, ops)
      requires signal in signals && slot in slots
      ensures Delivered(signal.relays)[slot] ==
                Made(ops, slot, signal) - Broken(start, ops, slot, signal) + |Common(start, ops, slot, signal)|
    {
      EmissionIsCalls(signal, slot);
      EmissionCountsConnections(start, ops, slot, signal);
    }

    // Any connects and disconnects from nothing, then one emission: each slot is called once for
    // each of its direct connects to the signal, less once for each successful disconnect of
    // one, and once for each name that it and the signal have both joined and not left.
    method ExecuteThenEmit(script: seq<Command>, signal: Signal)
      returns (calls: seq<Slot>, ghost start: Graph, ghost ops: seq<GraphOp>)
      requires Valid() && IsEmpty(View()) && signal in signals && forall c :: c in script ==> Known(c)
      modifies this, slots, signals, manager, relays
      ensures IsEmpty(start) && RunOk(start, ops) && DoesAll(ops, script)
      ensures forall x :: x in slots ==>
        multiset(calls)[x] == Made(ops, x, signal) - Broken(start, ops, x, signal) + |Common(start, ops, x, signal)|
    {
      start := View();
      ops := Execute(script);
      calls := signal.Emit();
      forall x | x in slots
        ensures multiset(calls)[x] == Made(ops, x, signal) - Broken(start, ops, x, signal) + |Common(start, ops, x, signal)|
      {
        EmissionCounted(start, ops, signal, x);
      }
    }
  }
}
