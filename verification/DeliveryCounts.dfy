/**
  How often an emission calls a slot, counted over whole runs of connects and disconnects of
  any slots, signals and keys, in any order.
*/
module DeliveryCounts {
  import opened Sequences
  import opened Wirings

  function Run<S, G, R, K>(w: Wiring<S, G, R, K>, ops: seq<Op<S, G, R, K>>): Wiring<S, G, R, K>
    decreases |ops|
  {
    if ops == [] then w else Run(Next(w, ops[0]), ops[1..])
  }

  ghost predicate RunOk<S, G, R, K>(w: Wiring<S, G, R, K>, ops: seq<Op<S, G, R, K>>)
    decreases |ops|
  {
    ops != [] ==> Ok(w, ops[0]) && RunOk(Next(w, ops[0]), ops[1..])
  }

  lemma {:induction false} RunSnoc<S, G, R, K>(w: Wiring<S, G, R, K>, ops: seq<Op<S, G, R, K>>, op: Op<S, G, R, K>)
    requires RunOk(w, ops) && Ok(Run(w, ops), op)
    ensures RunOk(w, ops + [op]) && Run(w, ops + [op]) == Next(Run(w, ops), op)
    decreases |ops|
  {
    if ops == [] {
      assert ops + [op] == [op] && [op][1..] == [];
    } else {
      assert (ops + [op])[1..] == ops[1..] + [op];
      RunSnoc(Next(w, ops[0]), ops[1..], op);
    }
  }

  ghost predicate IsEmpty<S, G, R, K>(w: Wiring<S, G, R, K>) {
    && w.held == map[] && w.shared == map[] && w.conns == [] && w.direct == map[]
    && (forall x :: x in w.listed ==> w.listed[x] == [])
    && (forall g :: g in w.emits ==> w.emits[g] == [])
  }

  // Direct connects of x to g.
  function Made<S(==), G(==), R, K>(ops: seq<Op<S, G, R, K>>, x: S, g: G): nat {
    if ops == [] then 0
    else (if ops[0].Connect? && ops[0].slot == x && ops[0].signal == g then 1 else 0) + Made(ops[1..], x, g)
  }

  // A successful disconnect of a direct connection of x to g.
  predicate Breaks<S, G, R, K>(w: Wiring<S, G, R, K>, op: Op<S, G, R, K>, x: S, g: G) {
    && op.Disconnect? && Succeeds(w, op.i)
    && w.conns[op.i].relay in w.direct && w.direct[w.conns[op.i].relay] == (x, g)
  }

  function Broken<S, G, R, K>(w: Wiring<S, G, R, K>, ops: seq<Op<S, G, R, K>>, x: S, g: G): nat
    decreases |ops|
  {
    if ops == [] then 0
    else (if Breaks(w, ops[0], x, g) then 1 else 0) + Broken(Next(w, ops[0]), ops[1..], x, g)
  }

  // Is g at key k: was its last join or leave there a join?
  function SignalIn<S, G(==), R, K(==)>(ops: seq<Op<S, G, R, K>>, k: K, g: G, was: bool): bool {
    if ops == [] then was
    else
      SignalIn(ops[1..], k, g, match ops[0]
                               case JoinSignal(h, j, _) => (h == g && j == k) || was
                               case LeaveSignal(h, j) => !(h == g && j == k) && was
                               case _ => was)
  }

  // Is x in the relay of key k: was its last join there, or disconnect of such a join, a join?
  function SlotIn<S, G, R, K>(w: Wiring<S, G, R, K>, ops: seq<Op<S, G, R, K>>, k: K, x: S, was: bool): bool
    decreases |ops|
  {
    if ops == [] then was
    else
      SlotIn(Next(w, ops[0]), ops[1..], k, x, match ops[0]
                                              case JoinSlot(y, j, _) => (y == x && j == k) || was
                                              case Disconnect(i) => !LetsGo(w, i, k, x) && was
                                              case _ => was)
  }

  predicate LetsGo<S, G, R, K>(w: Wiring<S, G, R, K>, i: nat, k: K, x: S) {
    i < |w.conns| && w.conns[i].slot == x && k in w.shared && w.conns[i].relay == w.shared[k]
  }

  // ------------------------------------------------------------------ one state

  ghost function Holding<S, G, R, K>(w: Wiring<S, G, R, K>, rs: seq<R>, x: S): set<R> {
    set r | r in rs && x in w.Held(r)
  }

  lemma {:induction false} CallsAreHolding<S, G, R, K>(w: Wiring<S, G, R, K>, rs: seq<R>, x: S)
    requires Once(rs)
    ensures Calls(w, rs, x) == |Holding(w, rs, x)|
  {
    if rs == [] {
      assert Holding(w, rs, x) == {};
    } else {
      assert rs == [rs[0]] + rs[1..];
      OnceCons(rs[0], rs[1..]);
      CallsAreHolding(w, rs[1..], x);
      assert Holding(w, rs, x) == Holding(w, rs[1..], x) + if x in w.Held(rs[0]) then {rs[0]} else {};
    }
  }

  // Direct connections of x to g that are in place.
  ghost function Live<S, G, R, K>(w: Wiring<S, G, R, K>, x: S, g: G): set<R> {
    set r | r in w.direct && w.direct[r] == (x, g) && x in w.Held(r)
  }

  predicate SignalAt<S, G, R, K>(w: Wiring<S, G, R, K>, k: K, g: G) { k in w.shared && w.shared[k] in w.Emits(g) }

  predicate SlotAt<S, G, R, K>(w: Wiring<S, G, R, K>, k: K, x: S) { k in w.shared && x in w.Held(w.shared[k]) }

  // Keys at which g reaches x.
  ghost function Met<S, G, R, K>(w: Wiring<S, G, R, K>, x: S, g: G): set<K> {
    set k | k in w.shared && SignalAt(w, k, g) && SlotAt(w, k, x)
  }

  ghost function RelaysOf<S, G, R, K>(w: Wiring<S, G, R, K>, ks: set<K>): set<R> {
    set k | k in ks && k in w.shared :: w.shared[k]
  }

  lemma {:induction false} AsManyRelays<S, G, R, K>(w: Wiring<S, G, R, K>, ks: set<K>)
    requires KeysOk(w) && forall k :: k in ks ==> k in w.shared
    ensures |RelaysOf(w, ks)| == |ks|
    decreases |ks|
  {
    if k :| k in ks {
      AsManyRelays(w, ks - {k});
      assert RelaysOf(w, ks) == RelaysOf(w, ks - {k}) + {w.shared[k]};
      assert w.shared[k] !in RelaysOf(w, ks - {k});
    } else {
      assert ks == {};
      assert RelaysOf(w, ks) == {};
    }
  }

  lemma {:induction false} HoldingSplits<S, G, R, K>(w: Wiring<S, G, R, K>, x: S, g: G)
    requires Inv(w)
    ensures Holding(w, w.Emits(g), x) == Live(w, x, g) + RelaysOf(w, Met(w, x, g))
    ensures Live(w, x, g) !! RelaysOf(w, Met(w, x, g))
  {
    forall r | r in Holding(w, w.Emits(g), x)
      ensures r in Live(w, x, g) + RelaysOf(w, Met(w, x, g))
    {
      assert SignalOk(w, g);
      assert RelayOk(w, r);
      if r in w.direct {
        assert DirectOk(w, r);
      } else {
        var k :| k in w.shared && w.shared[k] == r;
        assert k in Met(w, x, g);
      }
    }
    forall r | r in Live(w, x, g)
      ensures r in Holding(w, w.Emits(g), x) && r !in RelaysOf(w, Met(w, x, g))
    {
      assert DirectOk(w, r);
      assert RelayOk(w, r);
    }
  }

  // One emission calls x once for each direct connection in place and each key that joins them.
  lemma {:induction false} CallsSplit<S, G, R, K>(w: Wiring<S, G, R, K>, x: S, g: G)
    requires Inv(w)
    ensures Calls(w, w.Emits(g), x) == |Live(w, x, g)| + |Met(w, x, g)|
  {
    if g in w.emits { assert SignalOk(w, g); }
    CallsAreHolding(w, w.Emits(g), x);
    HoldingSplits(w, x, g);
    AsManyRelays(w, Met(w, x, g));
  }

  // ------------------------------------------------------------------ one step

  lemma {:induction false} ConnectLive<S, G, R, K>(w: Wiring<S, G, R, K>, op: Op<S, G, R, K>, w': Wiring<S, G, R, K>, x: S, g: G)
    requires Inv(w) && op.Connect? && Ok(w, op) && w' == Next(w, op)
    ensures |Live(w', x, g)| == |Live(w, x, g)| + (if op.slot == x && op.signal == g then 1 else 0)
  {
    NewRelay(w, op.relay);
    OneMoreDirect(w, w', op.relay, op.slot, op.signal, x, g);
  }

  lemma {:induction false} OneMoreDirect<S, G, R, K>(
      w: Wiring<S, G, R, K>, w': Wiring<S, G, R, K>, r: R, y: S, h: G, x: S, g: G)
    requires r !in w.direct && w'.direct == w.direct[r := (y, h)] && w'.held == w.held[r := {y}]
    ensures |Live(w', x, g)| == |Live(w, x, g)| + (if y == x && h == g then 1 else 0)
  {
    forall q | q in w.direct
      ensures q in w'.direct && w'.direct[q] == w.direct[q] && w'.Held(q) == w.Held(q)
    {
    }
    var more: set<R> := if y == x && h == g then {r} else {};
    assert Live(w', x, g) == Live(w, x, g) + more && r !in Live(w, x, g);
  }

  lemma {:induction false} SharedLive<S, G, R, K>(w: Wiring<S, G, R, K>, op: Op<S, G, R, K>, w': Wiring<S, G, R, K>, x: S, g: G)
    requires Inv(w) && (op.JoinSlot? || op.JoinSignal? || op.LeaveSignal?) && Ok(w, op) && w' == Next(w, op)
    ensures |Live(w', x, g)| == |Live(w, x, g)|
  {
    if !op.LeaveSignal? {
      if op.key in w.shared { SharedIsNotDirect(w, op.key); } else { NewRelay(w, op.relay); }
    }
    forall r | r in w.direct
      ensures r in w'.direct && w'.Held(r) == w.Held(r)
    {
    }
    assert Live(w', x, g) == Live(w, x, g);
  }

  lemma {:induction false} DisconnectLive<S, G, R, K>(w: Wiring<S, G, R, K>, op: Op<S, G, R, K>, w': Wiring<S, G, R, K>, x: S, g: G)
    requires Inv(w) && op.Disconnect? && Ok(w, op) && w' == Next(w, op)
    ensures |Live(w', x, g)| + (if Breaks(w, op, x, g) then 1 else 0) == |Live(w, x, g)|
  {
    if Succeeds(w, op.i) {
      assert ConnOk(w, op.i);
      var c := w.conns[op.i];
      if c.relay in w.direct { assert DirectOk(w, c.relay); }
      if Breaks(w, op, x, g) {
        assert Live(w', x, g) == Live(w, x, g) - {c.relay} && c.relay in Live(w, x, g);
      } else {
        assert Live(w', x, g) == Live(w, x, g);
      }
    }
  }

  lemma {:induction false} StepLive<S, G, R, K>(w: Wiring<S, G, R, K>, op: Op<S, G, R, K>, w': Wiring<S, G, R, K>, x: S, g: G)
    requires Inv(w) && Ok(w, op) && w' == Next(w, op)
    ensures |Live(w', x, g)| + (if Breaks(w, op, x, g) then 1 else 0)
         == |Live(w, x, g)| + (if op.Connect? && op.slot == x && op.signal == g then 1 else 0)
  {
    if op.Connect? {
      ConnectLive(w, op, w', x, g);
    } else if op.Disconnect? {
      DisconnectLive(w, op, w', x, g);
    } else {
      SharedLive(w, op, w', x, g);
    }
  }

  lemma {:induction false} StepSignal<S, G, R, K>(w: Wiring<S, G, R, K>, op: Op<S, G, R, K>, w': Wiring<S, G, R, K>, k: K, g: G)
    requires Inv(w) && Ok(w, op) && w' == Next(w, op)
    ensures SignalAt(w', k, g) ==
      match op
      case JoinSignal(h, j, _) => (h == g && j == k) || SignalAt(w, k, g)
      case LeaveSignal(h, j) => !(h == g && j == k) && SignalAt(w, k, g)
      case _ => SignalAt(w, k, g)
  {
    if g in w.emits { assert SignalOk(w, g); }
    match op
    case Connect(_, _, r) => NewRelay(w, r);
    case JoinSlot(_, j, f) => if j !in w.shared { NewRelay(w, f); }
    case JoinSignal(_, j, f) => if j !in w.shared { NewRelay(w, f); }
    case LeaveSignal(_, j) => if j in w.shared { RemoveFirstOnce(w.Emits(g), w.shared[j]); }
    case Disconnect(_) =>
  }

  lemma {:induction false} StepSlot<S, G, R, K>(w: Wiring<S, G, R, K>, op: Op<S, G, R, K>, w': Wiring<S, G, R, K>, k: K, x: S)
    requires Inv(w) && Ok(w, op) && w' == Next(w, op)
    ensures SlotAt(w', k, x) ==
      match op
      case JoinSlot(y, j, _) => (y == x && j == k) || SlotAt(w, k, x)
      case Disconnect(i) => !LetsGo(w, i, k, x) && SlotAt(w, k, x)
      case _ => SlotAt(w, k, x)
  {
    if k in w.shared { assert RelayOk(w, w.shared[k]); }
    match op
    case Connect(_, _, r) => NewRelay(w, r);
    case JoinSlot(_, j, f) => if j !in w.shared { NewRelay(w, f); }
    case JoinSignal(_, j, f) => if j !in w.shared { NewRelay(w, f); }
    case LeaveSignal(_, _) =>
    case Disconnect(_) =>
  }

  // ------------------------------------------------------------------ runs

  lemma {:induction false} RunCounts<S, G, R, K>(w: Wiring<S, G, R, K>, ops: seq<Op<S, G, R, K>>, x: S, g: G)
    requires Inv(w) && RunOk(w, ops)
    ensures Inv(Run(w, ops))
    ensures |Live(Run(w, ops), x, g)| + Broken(w, ops, x, g) == |Live(w, x, g)| + Made(ops, x, g)
    decreases |ops|
  {
    if ops != [] {
      var w' := Next(w, ops[0]);
      NextKeepsInv(w, ops[0], w');
      StepLive(w, ops[0], w', x, g);
      RunCounts(w', ops[1..], x, g);
    }
  }

  lemma {:induction false} RunKeys<S, G, R, K>(w: Wiring<S, G, R, K>, ops: seq<Op<S, G, R, K>>, k: K, x: S, g: G)
    requires Inv(w) && RunOk(w, ops)
    ensures SignalAt(Run(w, ops), k, g) == SignalIn(ops, k, g, SignalAt(w, k, g))
    ensures SlotAt(Run(w, ops), k, x) == SlotIn(w, ops, k, x, SlotAt(w, k, x))
    decreases |ops|
  {
    if ops != [] {
      var w' := Next(w, ops[0]);
      NextKeepsInv(w, ops[0], w');
      StepSignal(w, ops[0], w', k, g);
      StepSlot(w, ops[0], w', k, x);
      RunKeys(w', ops[1..], k, x, g);
    }
  }

  // The keys that g and x have both joined and not left.
  ghost function Common<S, G, R, K>(w: Wiring<S, G, R, K>, ops: seq<Op<S, G, R, K>>, x: S, g: G): set<K> {
    set k | k in Run(w, ops).shared && SignalIn(ops, k, g, false) && SlotIn(w, ops, k, x, false)
  }

  lemma {:induction false} MetIsCommon<S, G, R, K>(w: Wiring<S, G, R, K>, ops: seq<Op<S, G, R, K>>, x: S, g: G)
    requires IsEmpty(w) && RunOk(w, ops)
    ensures Met(Run(w, ops), x, g) == Common(w, ops, x, g)
  {
    var end := Run(w, ops);
    forall k | k in end.shared
      ensures k in Met(end, x, g) <==> k in Common(w, ops, x, g)
    {
      RunKeys(w, ops, k, x, g);
    }
  }

  // After any run from nothing, one emission of g calls x once for each direct connect of x to
  // g, less once for each successful disconnect of one, and once for each key that g and x have
  // both joined and not left.
  lemma {:induction false} EmissionCountsConnections<S, G, R, K>(w: Wiring<S, G, R, K>, ops: seq<Op<S, G, R, K>>, x: S, g: G)
    requires IsEmpty(w) && RunOk(w, ops)
    ensures
      var end := Run(w, ops);
      Calls(end, end.Emits(g), x) == Made(ops, x, g) - Broken(w, ops, x, g) + |Common(w, ops, x, g)|
  {
    RunCounts(w, ops, x, g);
    assert Live(w, x, g) == {};
    CallsSplit(Run(w, ops), x, g);
    MetIsCommon(w, ops, x, g);
  }

  // Without direct connects: exactly one call through a key both have joined, however often and
  // in whatever order they joined, and none otherwise.
  lemma {:induction false} KeyCallsOnce<S, G, R, K>(w: Wiring<S, G, R, K>, ops: seq<Op<S, G, R, K>>, k: K, x: S, g: G)
    requires IsEmpty(w) && RunOk(w, ops) && Made(ops, x, g) == 0
    requires forall j :: j in Common(w, ops, x, g) ==> j == k
    ensures
      var end := Run(w, ops);
      Calls(end, end.Emits(g), x) == if SignalIn(ops, k, g, false) && SlotIn(w, ops, k, x, false) then 1 else 0
  {
    EmissionCountsConnections(w, ops, x, g);
    RunKeys(w, ops, k, x, g);
    RunCounts(w, ops, x, g);
    assert Live(w, x, g) == {};
    var both := SignalIn(ops, k, g, false) && SlotIn(w, ops, k, x, false);
    assert both <==> k in Common(w, ops, x, g);
    assert Common(w, ops, x, g) == if both then {k} else {};
  }

  // A direct connection is disconnected successfully at most once: afterwards it never lists again.
  lemma {:induction false} DisconnectedForGood<S, G, R, K>(w: Wiring<S, G, R, K>, ops: seq<Op<S, G, R, K>>, i: nat)
    requires Inv(w) && RunOk(w, ops) && i < |w.conns| && w.conns[i].relay in w.direct && !Succeeds(w, i)
    ensures i < |Run(w, ops).conns| && Run(w, ops).conns[i] == w.conns[i] && !Succeeds(Run(w, ops), i)
    decreases |ops|
  {
    if ops != [] {
      var op, w' := ops[0], Next(w, ops[0]);
      NextKeepsInv(w, op, w');
      assert ConnOk(w, i);
      match op {
        case Connect(_, _, r) =>
        case JoinSlot(_, k, f) => if k in w.shared { SharedIsNotDirect(w, k); }
        case _ =>
      }
      DisconnectedForGood(w', ops[1..], i);
    }
  }

  lemma {:induction false} DisconnectSucceedsOnce<S, G, R, K>(w: Wiring<S, G, R, K>, i: nat)
    requires Inv(w) && Succeeds(w, i) && w.conns[i].relay in w.direct
    ensures !Succeeds(Next(w, Disconnect(i)), i)
  {
    assert ConnOk(w, i);
    assert DirectOk(w, w.conns[i].relay);
    RemoveFirstKeeps(w.Listed(w.conns[i].slot), w.conns[i].relay);
  }
}
