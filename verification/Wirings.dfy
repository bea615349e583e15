/**
  Who is connected to what, over whole runs of connects and disconnects.

  A wiring is the state of all relays, slots and signals of one signature: S, G, R and K are
  the slots, signals, relays and relay-manager keys.  SignalGraph has the objects themselves
  and shows that each of their methods takes one of the steps below.
*/
module Wirings {
  import opened Sequences

  datatype Conn<S, R> = Conn(slot: S, relay: R)

  // `direct` is history: the slot and signal a relay was made for by a direct connect.
  datatype Wiring<S(==), G(==), R(==), K(==)> = Wiring(
    held: map<R, set<S>>, listed: map<S, seq<R>>, emits: map<G, seq<R>>, shared: map<K, R>,
    conns: seq<Conn<S, R>>, direct: map<R, (S, G)>)
  {
    function Held(r: R): set<S> { if r in held then held[r] else {} }
    function Listed(x: S): seq<R> { if x in listed then listed[x] else [] }
    function Emits(g: G): seq<R> { if g in emits then emits[g] else [] }
    function Shared(k: K, spare: R): R { if k in shared then shared[k] else spare }
  }

  // `relay` is the new relay a connect makes; a join makes one only for a key without a relay.
  // Disconnect(i) is SlotConnection::Disconnect on the i-th connection handed out.
  datatype Op<S, G, R, K> =
    | Connect(slot: S, signal: G, relay: R)
    | JoinSlot(slot: S, key: K, relay: R)
    | JoinSignal(signal: G, key: K, relay: R)
    | LeaveSignal(signal: G, key: K)
    | Disconnect(i: nat)

  predicate Ok<S, G, R, K>(w: Wiring<S, G, R, K>, op: Op<S, G, R, K>) {
    match op
    case Connect(_, _, r) => r !in w.held
    case JoinSlot(_, k, r) => k in w.shared || r !in w.held
    case JoinSignal(_, k, r) => k in w.shared || r !in w.held
    case LeaveSignal(_, _) => true
    case Disconnect(_) => true
  }

  // Does the disconnect succeed: does the slot still list the connection's relay?
  predicate Succeeds<S, G, R, K>(w: Wiring<S, G, R, K>, i: nat) {
    i < |w.conns| && w.conns[i].relay in w.Listed(w.conns[i].slot)
  }

  function Next<S, G, R, K>(w: Wiring<S, G, R, K>, op: Op<S, G, R, K>): Wiring<S, G, R, K> {
    match op
    case Connect(x, g, r) =>
      w.(held := w.held[r := {x}], listed := w.listed[x := w.Listed(x) + [r]],
         emits := w.emits[g := w.Emits(g) + [r]],
         conns := w.conns + [Conn(x, r)], direct := w.direct[r := (x, g)])
    case JoinSlot(x, k, spare) =>
      var r := w.Shared(k, spare);
      w.(held := w.held[r := w.Held(r) + {x}], listed := w.listed[x := w.Listed(x) + [r]],
         shared := w.shared[k := r], conns := w.conns + [Conn(x, r)])
    case JoinSignal(g, k, spare) =>
      var r := w.Shared(k, spare);
      w.(held := w.held[r := w.Held(r)], shared := w.shared[k := r],
         emits := w.emits[g := if r in w.Emits(g) then w.Emits(g) else w.Emits(g) + [r]])
    case LeaveSignal(g, k) =>
      if k in w.shared then w.(emits := w.emits[g := RemoveFirst(w.Emits(g), w.shared[k])]) else w
    case Disconnect(i) =>
      if Succeeds(w, i) then
        var c := w.conns[i];
        w.(held := w.held[c.relay := w.Held(c.relay) - {c.slot}],
           listed := w.listed[c.slot := RemoveFirst(w.Listed(c.slot), c.relay)])
      else w
  }

  // How often one emission of signal g calls slot x.
  function Calls<S, G, R, K>(w: Wiring<S, G, R, K>, rs: seq<R>, x: S): nat {
    if rs == [] then 0 else (if x in w.Held(rs[0]) then 1 else 0) + Calls(w, rs[1..], x)
  }

  // ------------------------------------------------------------------ invariant

  ghost predicate IsShared<S, G, R, K>(w: Wiring<S, G, R, K>, r: R) {
    exists k :: k in w.shared && w.shared[k] == r
  }

  // Whoever is held lists the relay; a relay is either a key's or a direct connection's.
  ghost predicate RelayOk<S, G, R, K>(w: Wiring<S, G, R, K>, r: R) {
    && (forall x :: x in w.Held(r) ==> r in w.Listed(x))
    && (r in w.held ==> (r in w.direct <==> !IsShared(w, r)))
  }

  // A direct relay holds at most its slot, which lists it exactly while held; only its signal
  // emits through it.
  ghost predicate DirectOk<S, G, R, K>(w: Wiring<S, G, R, K>, r: R) {
    r in w.direct ==>
      var (x, g) := w.direct[r];
      && r in w.held && w.held[r] <= {x} && r in w.Emits(g)
      && multiset(w.Listed(x))[r] == (if x in w.held[r] then 1 else 0)
      && (forall h :: h in w.emits && r in w.emits[h] ==> h == g)
  }

  ghost predicate SignalOk<S, G, R, K>(w: Wiring<S, G, R, K>, g: G) {
    Once(w.Emits(g)) && forall r :: r in w.Emits(g) ==> r in w.held
  }

  ghost predicate SlotOk<S, G, R, K>(w: Wiring<S, G, R, K>, x: S) {
    forall r :: r in w.Listed(x) ==> r in w.held && (r in w.direct ==> w.direct[r].0 == x)
  }

  ghost predicate ConnOk<S, G, R, K>(w: Wiring<S, G, R, K>, i: int) {
    0 <= i < |w.conns| ==>
      var c := w.conns[i];
      c.relay in w.held && (c.relay in w.direct ==> w.direct[c.relay].0 == c.slot)
  }

  ghost predicate KeysOk<S, G, R, K>(w: Wiring<S, G, R, K>) {
    && (forall k :: k in w.shared ==> w.shared[k] in w.held)
    && (forall j, k :: j in w.shared && k in w.shared && w.shared[j] == w.shared[k] ==> j == k)
  }

  ghost predicate Inv<S, G, R, K>(w: Wiring<S, G, R, K>) {
    && (forall r {:trigger RelayOk(w, r)} :: r in w.held ==> RelayOk(w, r))
    && (forall r {:trigger DirectOk(w, r)} :: r in w.direct ==> DirectOk(w, r))
    && (forall g {:trigger SignalOk(w, g)} :: g in w.emits ==> SignalOk(w, g))
    && (forall x {:trigger SlotOk(w, x)} :: x in w.listed ==> SlotOk(w, x))
    && (forall i {:trigger ConnOk(w, i)} :: 0 <= i < |w.conns| ==> ConnOk(w, i))
    && KeysOk(w)
  }

  // A new relay is in no list.
  lemma NewRelay<S, G, R, K>(w: Wiring<S, G, R, K>, r: R)
    requires Inv(w) && r !in w.held
    ensures r !in w.direct && !IsShared(w, r)
    ensures forall g :: g in w.emits ==> r !in w.emits[g]
    ensures forall x :: x in w.listed ==> r !in w.listed[x]
  {
    assert forall q :: q in w.direct ==> DirectOk(w, q);
    assert forall g :: g in w.emits ==> SignalOk(w, g);
    assert forall x :: x in w.listed ==> SlotOk(w, x);
  }

  lemma SharedIsNotDirect<S, G, R, K>(w: Wiring<S, G, R, K>, k: K)
    requires Inv(w) && k in w.shared
    ensures w.shared[k] in w.held && w.shared[k] !in w.direct
  {
    assert RelayOk(w, w.shared[k]);
    assert IsShared(w, w.shared[k]);
  }

  lemma {:induction false} ConnectKeeps<S, G, R, K>(w: Wiring<S, G, R, K>, op: Op<S, G, R, K>, w': Wiring<S, G, R, K>, q: R)
    requires Inv(w) && op.Connect? && Ok(w, op) && w' == Next(w, op) && q in w'.held
    ensures RelayOk(w', q) && (q in w'.direct ==> DirectOk(w', q))
  {
    NewRelay(w, op.relay);
    assert w'.shared == w.shared;
    assert IsShared(w', q) <==> IsShared(w, q);
    if q != op.relay {
      assert RelayOk(w, q);
      if q in w.direct { assert DirectOk(w, q); }
    }
  }

  lemma {:induction false} JoinKeepsShared<S, G, R, K>(w: Wiring<S, G, R, K>, k: K, r: R, w': Wiring<S, G, R, K>, q: R)
    requires Inv(w) && (if k in w.shared then w.shared[k] == r else r !in w.held)
    requires w'.shared == w.shared[k := r] && w'.direct == w.direct
    requires q in w.held || q == r
    ensures q in w'.direct <==> !IsShared(w', q)
  {
    if q == r {
      assert k in w'.shared && w'.shared[k] == q;
      if k in w.shared { SharedIsNotDirect(w, k); } else { NewRelay(w, r); }
    } else {
      assert RelayOk(w, q);
      if IsShared(w, q) {
        var j :| j in w.shared && w.shared[j] == q;
        assert j in w'.shared && w'.shared[j] == q;
      }
    }
  }

  lemma {:induction false} JoinSlotKeeps<S, G, R, K>(w: Wiring<S, G, R, K>, op: Op<S, G, R, K>, w': Wiring<S, G, R, K>, q: R)
    requires Inv(w) && op.JoinSlot? && Ok(w, op) && w' == Next(w, op) && q in w'.held
    ensures RelayOk(w', q) && (q in w'.direct ==> DirectOk(w', q))
  {
    var r := w.Shared(op.key, op.relay);
    JoinKeepsShared(w, op.key, r, w', q);
    if r !in w.held { NewRelay(w, r); } else { SharedIsNotDirect(w, op.key); }
    if q in w.held {
      assert RelayOk(w, q);
      if q in w.direct { assert DirectOk(w, q); }
    }
  }

  lemma HeldStays<S, G, R, K>(w: Wiring<S, G, R, K>, w': Wiring<S, G, R, K>, q: R)
    requires RelayOk(w, q) && w'.Held(q) == w.Held(q) && w'.listed == w.listed
    ensures forall x :: x in w'.Held(q) ==> q in w'.Listed(x)
  {
    forall x | x in w'.Held(q)
      ensures q in w'.Listed(x)
    {
      assert x in w.Held(q) && q in w.Listed(x);
    }
  }

  lemma {:induction false} JoinSignalKeeps<S, G, R, K>(w: Wiring<S, G, R, K>, op: Op<S, G, R, K>, w': Wiring<S, G, R, K>, q: R)
    requires Inv(w) && op.JoinSignal? && Ok(w, op) && w' == Next(w, op) && q in w'.held
    ensures RelayOk(w', q) && (q in w'.direct ==> DirectOk(w', q))
  {
    var r := w.Shared(op.key, op.relay);
    JoinKeepsShared(w, op.key, r, w', q);
    if r !in w.held { NewRelay(w, r); } else { SharedIsNotDirect(w, op.key); }
    if q in w.held {
      assert RelayOk(w, q);
      HeldStays(w, w', q);
      if q in w.direct { assert DirectOk(w, q); }
    }
  }

  lemma {:induction false} LeaveKeeps<S, G, R, K>(w: Wiring<S, G, R, K>, op: Op<S, G, R, K>, w': Wiring<S, G, R, K>, q: R)
    requires Inv(w) && op.LeaveSignal? && w' == Next(w, op) && q in w'.held
    ensures RelayOk(w', q) && (q in w'.direct ==> DirectOk(w', q))
  {
    assert RelayOk(w, q);
    HeldStays(w, w', q);
    assert IsShared(w', q) <==> IsShared(w, q);
    if q in w.direct { assert DirectOk(w, q); }
    if op.key in w.shared { SharedIsNotDirect(w, op.key); }
  }

  lemma {:induction false} DisconnectKeeps<S, G, R, K>(w: Wiring<S, G, R, K>, op: Op<S, G, R, K>, w': Wiring<S, G, R, K>, q: R)
    requires Inv(w) && op.Disconnect? && Ok(w, op) && w' == Next(w, op) && q in w'.held
    ensures RelayOk(w', q) && (q in w'.direct ==> DirectOk(w', q))
  {
    assert RelayOk(w, q);
    assert IsShared(w', q) <==> IsShared(w, q);
    assert ConnOk(w, op.i);
    if q in w.direct { assert DirectOk(w, q); }
    if Succeeds(w, op.i) { RemoveFirstKeeps(w.Listed(w.conns[op.i].slot), w.conns[op.i].relay); }
  }

  lemma {:induction false} NextKeepsRelays<S, G, R, K>(w: Wiring<S, G, R, K>, op: Op<S, G, R, K>, q: R)
    requires Inv(w) && Ok(w, op) && q in Next(w, op).held
    ensures RelayOk(Next(w, op), q) && (q in Next(w, op).direct ==> DirectOk(Next(w, op), q))
  {
    match op
    case Connect(_, _, _) => ConnectKeeps(w, op, Next(w, op), q);
    case JoinSlot(_, _, _) => JoinSlotKeeps(w, op, Next(w, op), q);
    case JoinSignal(_, _, _) => JoinSignalKeeps(w, op, Next(w, op), q);
    case LeaveSignal(_, _) => LeaveKeeps(w, op, Next(w, op), q);
    case Disconnect(_) => DisconnectKeeps(w, op, Next(w, op), q);
  }

  lemma {:induction false} NextKeepsSignals<S, G, R, K>(w: Wiring<S, G, R, K>, op: Op<S, G, R, K>, g: G)
    requires Inv(w) && Ok(w, op)
    ensures SignalOk(Next(w, op), g)
  {
    if g in w.emits { assert SignalOk(w, g); }
    match op
    case Connect(_, _, r) => NewRelay(w, r);
    case JoinSlot(_, _, _) =>
    case JoinSignal(_, _, _) =>
    case LeaveSignal(_, k) => if k in w.shared { RemoveFirstOnce(w.Emits(g), w.shared[k]); }
    case Disconnect(_) =>
  }

  lemma {:induction false} NextKeepsSlots<S, G, R, K>(w: Wiring<S, G, R, K>, op: Op<S, G, R, K>, x: S)
    requires Inv(w) && Ok(w, op)
    ensures SlotOk(Next(w, op), x)
  {
    if x in w.listed { assert SlotOk(w, x); }
    match op
    case Connect(_, _, r) => NewRelay(w, r);
    case JoinSlot(_, k, r) => if k in w.shared { SharedIsNotDirect(w, k); } else { NewRelay(w, r); }
    case JoinSignal(_, _, _) =>
    case LeaveSignal(_, _) =>
    case Disconnect(_) =>
  }

  lemma {:induction false} NextKeepsConns<S, G, R, K>(w: Wiring<S, G, R, K>, op: Op<S, G, R, K>, i: nat)
    requires Inv(w) && Ok(w, op) && i < |Next(w, op).conns|
    ensures ConnOk(Next(w, op), i)
  {
    if i < |w.conns| { assert ConnOk(w, i); }
    match op
    case Connect(_, _, r) => NewRelay(w, r);
    case JoinSlot(_, k, r) => if k in w.shared { SharedIsNotDirect(w, k); } else { NewRelay(w, r); }
    case JoinSignal(_, _, _) =>
    case LeaveSignal(_, _) =>
    case Disconnect(_) =>
  }

  lemma {:induction false} NextKeepsKeys<S, G, R, K>(w: Wiring<S, G, R, K>, op: Op<S, G, R, K>)
    requires Inv(w) && Ok(w, op)
    ensures KeysOk(Next(w, op))
  {
  }

  lemma {:induction false} NextKeepsInv<S, G, R, K>(w: Wiring<S, G, R, K>, op: Op<S, G, R, K>, w': Wiring<S, G, R, K>)
    requires Inv(w) && Ok(w, op) && w' == Next(w, op)
    ensures Inv(w')
  {
    forall q | q in w'.held
      ensures RelayOk(w', q) && (q in w'.direct ==> DirectOk(w', q))
    {
      NextKeepsRelays(w, op, q);
    }
    forall q | q in w'.direct ensures DirectOk(w', q) { DirectIsHeld(w, op, w', q); }
    forall g | g in w'.emits ensures SignalOk(w', g) { NextKeepsSignals(w, op, g); }
    forall x | x in w'.listed ensures SlotOk(w', x) { NextKeepsSlots(w, op, x); }
    forall i | 0 <= i < |w'.conns| ensures ConnOk(w', i) { NextKeepsConns(w, op, i); }
    NextKeepsKeys(w, op);
  }

  lemma {:induction false} DirectIsHeld<S, G, R, K>(w: Wiring<S, G, R, K>, op: Op<S, G, R, K>, w': Wiring<S, G, R, K>, q: R)
    requires Inv(w) && Ok(w, op) && w' == Next(w, op) && q in w'.direct
    ensures DirectOk(w', q)
  {
    if q in w.direct { assert DirectOk(w, q); }
    assert q in w'.held;
    NextKeepsRelays(w, op, q);
  }
}
