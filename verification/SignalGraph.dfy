/**
  Slots, relays and signals as the objects they are: who holds whom, and what one emission
  calls.  A relay holds the slots it calls, a slot lists the relays it joined, a signal
  lists the relays it emits through.
*/
module SignalGraph {
  import opened Sequences
  import opened Wrappers
  import SignalProtocol

  type Kind = SignalProtocol.Kind

  // The signature of a relay, slot or signal is reduced to its kind.  Many: void
  // signatures, a relay calls a set of slots.  One: a relay calls at most one slot.
  class Relay {
    const kind: Kind
    var slots: set<Slot>

    constructor (kind: Kind)
      ensures this.kind == kind && slots == {}
    {
      this.kind, slots := kind, {};
    }

    method ConnectSlot(slot: Slot) returns (ok: bool)
      modifies this
      ensures slots == if kind.Many? then old(slots) + {slot} else {slot}
      ensures ok == (kind.Many? || old(slots) != {slot})
    {
      if kind.Many? {
        slots := slots + {slot};
        return true;
      }
      if slots == {slot} { return false; }
      slots := {slot};
      return true;
    }

    method DisconnectSlot(slot: Slot) returns (ok: bool)
      modifies this
      ensures slots == old(slots) - {slot}
      ensures ok == (slot in old(slots))
    {
      ok := slot in slots;
      slots := slots - {slot};
    }

    // The calls of one emission through this relay: each of its slots once.
    method Emit() returns (calls: seq<Slot>)
      ensures multiset(calls) == multiset(slots)
    {
      calls := [];
      var todo := slots;
      while todo != {}
        invariant todo <= slots
        invariant multiset(calls) == multiset(slots - todo)
        decreases |todo|
      {
        var slot :| slot in todo;
        assert slots - (todo - {slot}) == (slots - todo) + {slot};
        calls := calls + [slot];
        todo := todo - {slot};
      }
      assert slots - todo == slots;
    }
  }

  // If a relay holds a slot then that slot lists the relay, for all the given relays.
  ghost predicate Linked(relays: set<Relay>)
    reads relays, set r, s | r in relays && s in r.slots :: s
  {
    forall r, s :: r in relays && s in r.slots ==> r in s.relays
  }

  class Slot {
    const kind: Kind
    var relays: seq<Relay>

    constructor (kind: Kind)
      ensures this.kind == kind && relays == []
    {
      this.kind, relays := kind, [];
    }

    // Through a relay of its own; null when the signatures differ.
    method ConnectSignal(signal: Signal, ghost world: set<Relay>) returns (connection: Relay?)
      requires Linked(world)
      modifies this, signal
      ensures connection != null <==> kind == signal.kind
      ensures connection == null ==> relays == old(relays) && signal.relays == old(signal.relays) && Linked(world)
      ensures connection != null ==>
        && fresh(connection) && connection.kind == kind && connection.slots == {this}
        && relays == old(relays) + [connection]
        && signal.relays == (if kind.Many? then old(signal.relays) else []) + [connection]
        && Linked(world + {connection})
    {
      if kind != signal.kind { return null; }
      var relay := new Relay(kind);
      var _ := relay.ConnectSlot(this);
      var _ := signal.ConnectRelay(relay);
      relays := relays + [relay];
      return relay;
    }

    // Through a shared relay: hook first, list second, always a connection.
    method ConnectRelay(relay: Relay, ghost world: set<Relay>)
      requires relay.kind == kind
      requires Linked(world) && relay in world
      modifies this, relay
      ensures relays == old(relays) + [relay]
      ensures relay.slots == if kind.Many? then old(relay.slots) + {this} else {this}
      ensures Linked(world)
    {
      var _ := relay.ConnectSlot(this);
      relays := relays + [relay];
    }

    // Through a relay pointer that is created when null: list first, hook second; the
    // relay of a different signature is left alone.
    method ConnectPointer(relay: Relay?, ghost world: set<Relay>) returns (filled: Relay, connected: bool)
      requires Linked(world) && (relay != null ==> relay in world)
      modifies this, relay
      ensures if relay == null then fresh(filled) && filled.kind == kind else filled == relay
      ensures filled.kind == kind ==>
        var before := if relay == null then {} else old(relay.slots);
        && relays == old(relays) + [filled]
        && filled.slots == (if kind.Many? then before + {this} else {this})
        && connected == (kind.Many? || before != {this})
      ensures filled.kind != kind ==> !connected && relays == old(relays) && filled.slots == old(filled.slots)
      ensures Linked(world + {filled})
    {
      if relay == null {
        filled := new Relay(kind);
      } else {
        filled := relay;
      }
      connected := false;
      if filled.kind == kind {
        relays := relays + [filled];
        connected := filled.ConnectSlot(this);
      }
    }

    // SlotConnection::Disconnect: the first entry for the relay goes, and the relay lets go.
    method Disconnect(relay: Relay, ghost world: set<Relay>) returns (ok: bool)
      requires Linked(world) && relay in world
      modifies this, relay
      ensures ok == (relay in old(relays))
      ensures relays == RemoveFirst(old(relays), relay) && (!ok ==> relays == old(relays))
      ensures relay.slots == if ok then old(relay.slots) - {this} else old(relay.slots)
      ensures Linked(world)
    {
      for i := 0 to |relays|
        invariant relays == old(relays) && relay.slots == old(relay.slots)
        invariant relay !in relays[..i]
      {
        if relays[i] == relay {
          var _ := relay.DisconnectSlot(this);
          RemoveFirstAt(relays, i);
          relays := relays[..i] + relays[i + 1..];
          RemoveFirstKeeps(old(relays), relay);
          return true;
        }
      }
      RemoveFirstAbsent(relays, relay);
      return false;
    }

    // ~TypedSlot: afterwards no relay holds the slot.
    method Destroy(ghost world: set<Relay>)
      requires Linked(world) && forall r :: r in relays ==> r in world
      modifies relays
      ensures forall r :: r in world ==> this !in r.slots
      ensures forall r :: r in world ==> r.slots == old(r.slots) - {this}
      ensures Linked(world)
    {
      for i := 0 to |relays|
        invariant forall r :: r in world && r in relays[..i] ==> r.slots == old(r.slots) - {this}
        invariant forall r :: r in world && r !in relays[..i] ==> r.slots == old(r.slots)
      {
        var _ := relays[i].DisconnectSlot(this);
        assert relays[..i + 1] == relays[..i] + [relays[i]];
      }
      assert relays[..|relays|] == relays;
    }
  }

  class Signal {
    const kind: Kind
    var relays: seq<Relay>

    constructor (kind: Kind)
      ensures this.kind == kind && relays == []
    {
      this.kind, relays := kind, [];
    }

    // The void form appends a relay it does not have; the return-value form replaces its only one.
    method ConnectRelay(relay: Relay) returns (connected: bool)
      modifies this
      ensures kind.Many? ==> connected == (relay !in old(relays))
      ensures kind.One? ==> connected == (old(relays) != [relay])
      ensures relays == if !connected then old(relays) else if kind.Many? then old(relays) + [relay] else [relay]
    {
      if kind.Many? {
        for i := 0 to |relays|
          invariant relays == old(relays) && relay !in relays[..i]
        {
          if relays[i] == relay { return false; }
        }
        relays := relays + [relay];
        return true;
      }
      if relays == [relay] { return false; }
      relays := [relay];
      return true;
    }

    method DisconnectRelay(relay: Relay) returns (ok: bool)
      modifies this
      ensures ok == (relay in old(relays))
      ensures relays == RemoveFirst(old(relays), relay)
    {
      for i := 0 to |relays|
        invariant relays == old(relays) && relay !in relays[..i]
      {
        if relays[i] == relay {
          RemoveFirstAt(relays, i);
          relays := relays[..i] + relays[i + 1..];
          return true;
        }
      }
      RemoveFirstAbsent(relays, relay);
      return false;
    }

    // The calls of one emission, relay by relay.
    method Emit() returns (calls: seq<Slot>)
      ensures multiset(calls) == Delivered(relays)
    {
      calls := [];
      for i := 0 to |relays|
        invariant multiset(calls) == Delivered(relays[..i])
      {
        var more := relays[i].Emit();
        calls := calls + more;
        assert relays[..i + 1][..i] == relays[..i];
      }
      assert relays[..|relays|] == relays;
    }
  }

  // What an emission through these relays calls, with multiplicity.
  ghost function Delivered(relays: seq<Relay>): multiset<Slot>
    reads relays
  {
    if relays == [] then multiset{}
    else Delivered(relays[..|relays| - 1]) + multiset(relays[|relays| - 1].slots)
  }

  // ------------------------------------------------------------------ delivery counting

  ghost function Holders(relays: seq<Relay>, slot: Slot): set<Relay>
    reads relays
  {
    set r | r in relays && slot in r.slots
  }

  lemma {:induction false} HoldersNext(relays: seq<Relay>, slot: Slot)
    requires relays != []
    ensures var last := relays[|relays| - 1];
      Holders(relays, slot) == Holders(relays[..|relays| - 1], slot) + (if slot in last.slots then {last} else {})
  {
    var last := relays[|relays| - 1];
    forall r ensures r in relays <==> r in relays[..|relays| - 1] || r == last {
      assert relays == relays[..|relays| - 1] + [last];
    }
  }

  // A slot is called once for each relay of the signal that holds it.
  lemma {:induction false} DeliveriesAreHolders(relays: seq<Relay>, slot: Slot)
    requires Once(relays)
    ensures Delivered(relays)[slot] == |Holders(relays, slot)|
  {
    if relays == [] {
      assert Holders(relays, slot) == {};
    } else {
      var init := relays[..|relays| - 1];
      DeliveriesAreHolders(init, slot);
      HoldersNext(relays, slot);
      assert relays[|relays| - 1] !in init;
    }
  }

  // TypedSignal::Connect(ISlot*)
  method ConnectDirect(signal: Signal, slot: Slot, ghost world: set<Relay>) returns (connection: SlotConnection?)
    requires Linked(world)
    modifies slot, signal
    ensures connection != null <==> slot.kind == signal.kind
    ensures connection == null ==> slot.relays == old(slot.relays) && signal.relays == old(signal.relays) && Linked(world)
    ensures connection != null ==>
      && fresh(connection) && fresh(connection.relay) && connection.slot == slot
      && connection.relay.kind == slot.kind && connection.relay.slots == {slot}
      && slot.relays == old(slot.relays) + [connection.relay]
      && signal.relays == (if signal.kind.Many? then old(signal.relays) else []) + [connection.relay]
      && Linked(world + {connection.relay})
  {
    var relay := slot.ConnectSignal(signal, world);
    if relay == null { return null; }
    connection := new SlotConnection(slot, relay);
  }

  class SlotConnection {
    const slot: Slot
    const relay: Relay

    constructor (slot: Slot, relay: Relay)
      ensures this.slot == slot && this.relay == relay
    {
      this.slot, this.relay := slot, relay;
    }

    // Succeeds exactly while the slot lists the relay; otherwise nothing changes.
    method Disconnect(ghost world: set<Relay>) returns (ok: bool)
      requires Linked(world) && relay in world
      modifies slot, relay
      ensures ok == (relay in old(slot.relays))
      ensures slot.relays == RemoveFirst(old(slot.relays), relay) && (!ok ==> slot.relays == old(slot.relays))
      ensures relay.slots == if ok then old(relay.slots) - {slot} else old(relay.slots)
      ensures Linked(world)
    {
      ok := slot.Disconnect(relay, world);
    }
  }

  class SignalConnection {
    const signal: Signal
    const relay: Relay

    constructor (signal: Signal, relay: Relay)
      ensures this.signal == signal && this.relay == relay
    {
      this.signal, this.relay := signal, relay;
    }

    // Succeeds exactly while the signal has the relay.
    method Disconnect() returns (ok: bool)
      modifies signal
      ensures ok == (relay in old(signal.relays))
      ensures signal.relays == RemoveFirst(old(signal.relays), relay) && (!ok ==> signal.relays == old(signal.relays))
    {
      if relay !in signal.relays { RemoveFirstAbsent(signal.relays, relay); }
      ok := signal.DisconnectRelay(relay);
    }
  }

  // ------------------------------------------------------------------ relay manager

  type Key = (Kind, string)

  // One shared relay per signature and name.
  class RelayManager {
    var relays: map<Key, Relay>

    ghost predicate Valid() reads this { forall k :: k in relays ==> relays[k].kind == k.0 }

    constructor ()
      ensures Valid() && relays == map[]
    {
      relays := map[];
    }

    // The slot joins the key's relay, which is created on first use and then never replaced.
    method ConnectSlot(slot: Slot, name: string, ghost world: set<Relay>) returns (connection: SlotConnection?)
      requires Valid() && Linked(world) && forall k :: k in relays ==> relays[k] in world
      modifies this, slot, if (slot.kind, name) in relays then {relays[(slot.kind, name)]} else {}
      ensures Valid()
      ensures
        var key := (slot.kind, name);
        var before := if key in old(relays) then old(relays[key].slots) else {};
        && key in relays && relays == old(relays)[key := relays[key]]
        && (if key in old(relays) then relays[key] == old(relays)[key] else fresh(relays[key]))
        && relays[key].slots == (if slot.kind.Many? then before + {slot} else {slot})
        && slot.relays == old(slot.relays) + [relays[key]]
        && (connection != null <==> slot.kind.Many? || before != {slot})
        && (connection != null ==> fresh(connection) && connection.slot == slot && connection.relay == relays[key])
        && Linked(world + {relays[key]})
    {
      var key := (slot.kind, name);
      var pointer: Relay? := if key in relays then relays[key] else null;
      var filled, connected := slot.ConnectPointer(pointer, world);
      relays := relays[key := filled];
      connection := null;
      if connected { connection := new SlotConnection(slot, filled); }
    }

    // The signal joins the key's relay, once however often it is connected.
    method ConnectSignal(signal: Signal, name: string) returns (connection: SignalConnection?)
      requires Valid()
      modifies this, signal
      ensures Valid()
      ensures
        var key := (signal.kind, name);
        key in relays &&
        var joins := if signal.kind.Many? then relays[key] !in old(signal.relays) else old(signal.relays) != [relays[key]];
        && relays == old(relays)[key := relays[key]]
        && (if key in old(relays) then relays[key] == old(relays)[key] else fresh(relays[key]) && relays[key].slots == {})
        && (connection != null <==> joins)
        && (connection != null ==> fresh(connection) && connection.signal == signal && connection.relay == relays[key])
        && signal.relays == if !joins then old(signal.relays)
                            else if signal.kind.Many? then old(signal.relays) + [relays[key]] else [relays[key]]
    {
      var key := (signal.kind, name);
      if key !in relays {
        var relay := new Relay(signal.kind);
        relays := relays[key := relay];
      }
      var connected := signal.ConnectRelay(relays[key]);
      connection := null;
      if connected { connection := new SignalConnection(signal, relays[key]); }
    }
  }
}
