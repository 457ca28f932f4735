/**
 The shared registry object that every connection handler updates in place,
 and the handler's subscribe / forward / unregister skeleton. Each operation
 runs as one atomic step (the source holds the registry's lock across it).
 */
module Server {
  import opened Wrappers
  import opened State
  import opened Relay

  class Connections {
    var conns: map<DeviceId, ConnectionPair>
    var channels: seq<Channel>

    /** The registry value this object currently holds. */
    function Value(): Registry
      reads this
    {
      Registry(conns, channels)
    }

    ghost predicate Valid()
      reads this
    {
      Inv(Value())
    }

    /** The registry a server starts with: no ids at all. */
    constructor ()
      ensures Valid() && Value() == Empty
    {
      conns := map[];
      channels := [];
    }

    /**
     Attaches one connection of `role` under `id` and returns its receiver,
     which listens on the slot's channel from its current end.
     */
    method Subscribe(id: DeviceId, role: Role) returns (rx: Receiver)
      requires Valid()
      modifies this
      ensures Valid()
      ensures Value() == Subscribed(old(Value()), id, role)
      ensures rx == NewReceiver(old(Value()), id, role)
      ensures AttachedTo(Value(), rx, id, role) && Pending(channels, rx) == []
    {
      SubscribePreservesInv(Value(), id, role);
      if id !in conns {
        conns := conns[id := ConnectionPair(None, None)];
      }
      var pair := conns[id];
      match pair.Get(role) {
        case Some(s) =>
          conns := conns[id := pair.With(role, Some(s.(subscribers := s.subscribers + 1)))];
          rx := Receiver(s.tx, |channels[s.tx].log|);
        case None =>
          var tx := |channels|;
          channels := channels + [Channel(ChannelCapacity, [])];
          conns := conns[id := pair.With(role, Some(Slot(tx, 1)))];
          rx := Receiver(tx, 0);
      }
      assert Value() == Subscribed(old(Value()), id, role);
    }

    /**
     Sends `msg` from a connection of role `from` under `id` to the opposite
     role's channel, if that slot exists; the id map is only read.
     */
    method Forward(id: DeviceId, from: Role, msg: string)
      requires Valid()
      modifies this`channels
      ensures Valid()
      ensures Value() == Forwarded(old(Value()), id, from, msg)
    {
      ForwardPreservesInv(Value(), id, from, msg);
      if id in conns {
        match conns[id].Get(from.Opposite()) {
          case Some(s) =>
            channels := channels[s.tx := channels[s.tx].(log := channels[s.tx].log + [msg])];
          case None =>
        }
      }
    }

    /**
     Detaches one connection of `role` from `id`: saturating decrement, the
     slot cleared at zero, the entry dropped when both slots are empty.
     */
    method Unregister(id: DeviceId, role: Role)
      requires Valid()
      modifies this`conns
      ensures Valid()
      ensures Value() == Unregistered(old(Value()), id, role)
    {
      UnregisterPreservesInv(Value(), id, role);
      if id in conns {
        var pair := conns[id];
        match pair.Get(role) {
          case Some(s) =>
            var n := SaturatingDec(s.subscribers);
            pair := pair.With(role, Some(s.(subscribers := n)));
            if n == 0 {
              pair := pair.With(role, None);
            }
            conns := conns[id := pair];
          case None =>
        }
        if pair.IsEmpty() {
          conns := conns - {id};
        }
      }
      assert Value() == Unregistered(old(Value()), id, role);
    }

    /**
     One connection's life: attach, forward each inbound text frame in order,
     detach. Afterwards the id map is exactly as before, the opposite role's
     channel has received every frame verbatim and in order, no other existing
     channel has changed, and the connection's own receiver got none of its
     own frames.
     */
    method HandleConnection(id: DeviceId, role: Role, inbound: seq<string>) returns (rx: Receiver)
      requires Valid()
      modifies this
      ensures Valid()
      ensures conns == old(conns)
      ensures |channels| >= |old(channels)|
      ensures forall c | 0 <= c < |old(channels)| ::
                channels[c] == old(channels)[c].(log := old(channels)[c].log +
                                 (if Target(old(conns), id, role) == Some(c) then inbound else []))
      ensures rx == NewReceiver(old(Value()), id, role)
      ensures Readable(channels, rx) && Pending(channels, rx) == []
    {
      ghost var start := Value();
      rx := Subscribe(id, role);
      ghost var mid := Value();
      assert Target(mid.conns, id, role) == Target(start.conns, id, role);
      assert SlotAt(mid.conns, id, role).value.tx == rx.tx;
      var i := 0;
      while i < |inbound|
        invariant 0 <= i <= |inbound|
        invariant Valid()
        invariant conns == mid.conns
        invariant |channels| == |mid.channels|
        invariant forall c | 0 <= c < |mid.channels| ::
                    channels[c] == mid.channels[c].(log := mid.channels[c].log +
                                     (if Target(mid.conns, id, role) == Some(c) then inbound[..i] else []))
      {
        Forward(id, role, inbound[i]);
        assert inbound[..i + 1] == inbound[..i] + [inbound[i]];
        i := i + 1;
      }
      assert inbound[..i] == inbound;
      assert Target(mid.conns, id, role) != Some(rx.tx);
      ghost var last := Value();
      Unregister(id, role);
      SubscribeUnregisterRoundTrip(start, id, role);
      assert Unregistered(Subscribed(start, id, role), id, role).conns == Unregistered(last, id, role).conns;
    }
  }

  /**
   A device and three mobiles attach under "d1"; the device sends
   "hello mobiles", then one mobile sends "hello device". Each mobile has
   received exactly "hello mobiles" and the device exactly "hello device".
   */
  method BroadcastScenario() returns (mobiles: seq<seq<string>>, device: seq<string>)
    ensures mobiles == [["hello mobiles"], ["hello mobiles"], ["hello mobiles"]]
    ensures device == ["hello device"]
  {
    var reg := new Connections();
    var d := reg.Subscribe("d1", Slave);
    var m1 := reg.Subscribe("d1", Master);
    SubscribeKeepsReceivers(reg.Value(), "d1", Master, d, "d1", Slave);
    var before := reg.Value();
    var m2 := reg.Subscribe("d1", Master);
    SubscribeKeepsReceivers(before, "d1", Master, d, "d1", Slave);
    SubscribeKeepsReceivers(before, "d1", Master, m1, "d1", Master);
    before := reg.Value();
    var m3 := reg.Subscribe("d1", Master);
    SubscribeKeepsReceivers(before, "d1", Master, d, "d1", Slave);
    SubscribeKeepsReceivers(before, "d1", Master, m1, "d1", Master);
    SubscribeKeepsReceivers(before, "d1", Master, m2, "d1", Master);
    before := reg.Value();
    reg.Forward("d1", Slave, "hello mobiles");
    ForwardDelivery(before, "d1", Slave, "hello mobiles", d, "d1", Slave);
    ForwardDelivery(before, "d1", Slave, "hello mobiles", m1, "d1", Master);
    ForwardDelivery(before, "d1", Slave, "hello mobiles", m2, "d1", Master);
    ForwardDelivery(before, "d1", Slave, "hello mobiles", m3, "d1", Master);
    before := reg.Value();
    reg.Forward("d1", Master, "hello device");
    ForwardDelivery(before, "d1", Master, "hello device", d, "d1", Slave);
    ForwardDelivery(before, "d1", Master, "hello device", m1, "d1", Master);
    ForwardDelivery(before, "d1", Master, "hello device", m2, "d1", Master);
    ForwardDelivery(before, "d1", Master, "hello device", m3, "d1", Master);
    mobiles := [Pending(reg.channels, m1), Pending(reg.channels, m2), Pending(reg.channels, m3)];
    device := Pending(reg.channels, d);
  }

  /**
   A device and two mobiles attach under "d2"; the first mobile sends
   "from mobile1". The device receives exactly that text, the second mobile
   receives nothing, and the registry's id map is unchanged by the send.
   */
  method NoCrossTalkScenario() returns (device: seq<string>, other: seq<string>, kept: bool)
    ensures device == ["from mobile1"]
    ensures other == []
    ensures kept
  {
    var reg := new Connections();
    var d := reg.Subscribe("d2", Slave);
    var before := reg.Value();
    var a := reg.Subscribe("d2", Master);
    SubscribeKeepsReceivers(before, "d2", Master, d, "d2", Slave);
    before := reg.Value();
    var b := reg.Subscribe("d2", Master);
    SubscribeKeepsReceivers(before, "d2", Master, d, "d2", Slave);
    before := reg.Value();
    reg.Forward("d2", Master, "from mobile1");
    ForwardDelivery(before, "d2", Master, "from mobile1", d, "d2", Slave);
    ForwardDelivery(before, "d2", Master, "from mobile1", b, "d2", Master);
    device := Pending(reg.channels, d);
    other := Pending(reg.channels, b);
    kept := reg.conns == before.conns;
  }

  /** A device attaches under "d3" and detaches again with no mobile: "d3" has no entry left. */
  method DeviceLeavesScenario() returns (present: bool)
    ensures !present
  {
    var reg := new Connections();
    var rx := reg.HandleConnection("d3", Slave, []);
    present := "d3" in reg.conns;
  }
}
