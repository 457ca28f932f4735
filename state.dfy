/**
 The registry's data and the attach operation.

 A registry maps a device id to a pair of optional role slots (master side,
 slave side). A slot holds the broadcast channel that every connection of that
 role for that id listens on, and the number of such connections. Broadcast
 channels are abstract: the registry keeps every channel it ever created as an
 append-only message log, and a slot names its channel by index. A receiver is
 a channel index plus the position in the log at which it subscribed; it sees
 exactly the messages published after that position.
 */
module State {
  import opened Wrappers

  type DeviceId = string
  type ChannelId = nat

  /** Backlog bound of every broadcast channel the registry creates. */
  const ChannelCapacity: nat := 100

  /** The two kinds of peer: a mobile attaches under `/pair` as Master, a device under `/register` as Slave. */
  datatype Role = Master | Slave {
    /** The role that messages from this role are routed to. */
    function Opposite(): (r: Role)
      ensures r != this
    {
      match this
      case Master => Slave
      case Slave => Master
    }
  }

  /** One role slot: the broadcast sender `tx` and the count of live subscribers. */
  datatype Slot = Slot(tx: ChannelId, subscribers: nat)

  /** The registry entry for one id: the master slot and the slave slot. */
  datatype ConnectionPair = ConnectionPair(master: Option<Slot>, slave: Option<Slot>) {
    function Get(role: Role): Option<Slot> {
      match role
      case Master => master
      case Slave => slave
    }

    /** This pair with the slot of `role` replaced by `s` and the other slot kept. */
    function With(role: Role, s: Option<Slot>): (p: ConnectionPair)
      ensures p.Get(role) == s
      ensures p.Get(role.Opposite()) == Get(role.Opposite())
    {
      match role
      case Master => this.(master := s)
      case Slave => this.(slave := s)
    }

    predicate IsEmpty() {
      master.None? && slave.None?
    }
  }

  /** A broadcast channel: its backlog bound and every message ever published on it. */
  datatype Channel = Channel(capacity: nat, log: seq<string>)

  /** A receiving handle: the channel it listens on and the log position it starts from. */
  datatype Receiver = Receiver(tx: ChannelId, cursor: nat)

  /** The whole registry: the id map, and the channels created so far. */
  datatype Registry = Registry(conns: map<DeviceId, ConnectionPair>, channels: seq<Channel>)

  /** The registry the server starts with. */
  const Empty := Registry(map[], [])

  /** The slot of `role` for `id`, absent when the id has no entry. */
  function SlotAt(conns: map<DeviceId, ConnectionPair>, id: DeviceId, role: Role): Option<Slot> {
    if id in conns then conns[id].Get(role) else None
  }

  /** The subscriber count of (`id`, `role`), zero when there is no slot. */
  function Count(conns: map<DeviceId, ConnectionPair>, id: DeviceId, role: Role): nat {
    match SlotAt(conns, id, role)
    case Some(s) => s.subscribers
    case None => 0
  }

  /** A present slot has at least one subscriber and names an existing channel. */
  predicate SlotOk(s: Option<Slot>, nchannels: nat) {
    s.Some? ==> 0 < s.value.subscribers && s.value.tx < nchannels
  }

  /** No two present slots share a channel. */
  ghost predicate DistinctChannels(conns: map<DeviceId, ConnectionPair>) {
    forall id, id', role, role' |
      && SlotAt(conns, id, role).Some?
      && SlotAt(conns, id', role').Some?
      && SlotAt(conns, id, role).value.tx == SlotAt(conns, id', role').value.tx
      :: id == id' && role == role'
  }

  /**
   The registry invariant: no entry is an empty pair, every present slot has a
   positive count and a channel, the slots' channels are pairwise distinct, and
   every channel was created with the fixed capacity.
   */
  ghost predicate Inv(reg: Registry) {
    && (forall id | id in reg.conns ::
          && !reg.conns[id].IsEmpty()
          && SlotOk(reg.conns[id].master, |reg.channels|)
          && SlotOk(reg.conns[id].slave, |reg.channels|))
    && (forall c | 0 <= c < |reg.channels| :: reg.channels[c].capacity == ChannelCapacity)
    && DistinctChannels(reg.conns)
  }

  predicate Readable(channels: seq<Channel>, rx: Receiver) {
    rx.tx < |channels| && rx.cursor <= |channels[rx.tx].log|
  }

  /** The messages `rx` has been sent since it subscribed. */
  function Pending(channels: seq<Channel>, rx: Receiver): seq<string>
    requires Readable(channels, rx)
  {
    channels[rx.tx].log[rx.cursor..]
  }

  /** `rx` listens on the channel currently stored in the slot (`id`, `role`). */
  ghost predicate AttachedTo(reg: Registry, rx: Receiver, id: DeviceId, role: Role) {
    && SlotAt(reg.conns, id, role).Some?
    && SlotAt(reg.conns, id, role).value.tx == rx.tx
    && Readable(reg.channels, rx)
  }

  /**
   The registry after one attach of `role` under `id`: the entry is created
   empty when missing; an existing slot keeps its channel and gains one
   subscriber; a missing slot gets a fresh channel and one subscriber.
   */
  function Subscribed(reg: Registry, id: DeviceId, role: Role): (r: Registry)
    ensures id in r.conns
    ensures Count(r.conns, id, role) == Count(reg.conns, id, role) + 1
    ensures SlotAt(r.conns, id, role.Opposite()) == SlotAt(reg.conns, id, role.Opposite())
    ensures r.conns - {id} == reg.conns - {id}
    ensures SlotAt(reg.conns, id, role).Some? ==>
              && r.channels == reg.channels
              && SlotAt(r.conns, id, role).value.tx == SlotAt(reg.conns, id, role).value.tx
    ensures SlotAt(reg.conns, id, role).None? ==>
              && r.channels == reg.channels + [Channel(ChannelCapacity, [])]
              && SlotAt(r.conns, id, role) == Some(Slot(|reg.channels|, 1))
  {
    var pair := if id in reg.conns then reg.conns[id] else ConnectionPair(None, None);
    match pair.Get(role)
    case Some(s) =>
      reg.(conns := reg.conns[id := pair.With(role, Some(s.(subscribers := s.subscribers + 1)))])
    case None =>
      Registry(reg.conns[id := pair.With(role, Some(Slot(|reg.channels|, 1)))],
               reg.channels + [Channel(ChannelCapacity, [])])
  }

  /** The receiver an attach hands back: on the slot's channel, positioned at its current end. */
  function NewReceiver(reg: Registry, id: DeviceId, role: Role): (rx: Receiver)
    requires SlotOk(SlotAt(reg.conns, id, role), |reg.channels|)
    ensures AttachedTo(Subscribed(reg, id, role), rx, id, role)
    ensures Pending(Subscribed(reg, id, role).channels, rx) == []
  {
    match SlotAt(reg.conns, id, role)
    case Some(s) => Receiver(s.tx, |reg.channels[s.tx].log|)
    case None => Receiver(|reg.channels|, 0)
  }

  /** Attaching keeps the registry invariant. */
  lemma SubscribePreservesInv(reg: Registry, id: DeviceId, role: Role)
    requires Inv(reg)
    ensures Inv(Subscribed(reg, id, role))
  {
    var r := Subscribed(reg, id, role);
    forall k, k', q, q' |
      && SlotAt(r.conns, k, q).Some?
      && SlotAt(r.conns, k', q').Some?
      && SlotAt(r.conns, k, q).value.tx == SlotAt(r.conns, k', q').value.tx
      ensures k == k' && q == q'
    {
      SubscribeSlotAt(reg, id, role, k, q);
      SubscribeSlotAt(reg, id, role, k', q');
    }
  }

  /** How one slot of the registry looks after an attach of (`id`, `role`). */
  lemma SubscribeSlotAt(reg: Registry, id: DeviceId, role: Role, k: DeviceId, q: Role)
    ensures (k, q) != (id, role) ==> SlotAt(Subscribed(reg, id, role).conns, k, q) == SlotAt(reg.conns, k, q)
  {
    var r := Subscribed(reg, id, role);
    if k != id {
      assert k in r.conns <==> k in r.conns - {id};
      assert k in reg.conns <==> k in reg.conns - {id};
      if k in r.conns {
        assert r.conns[k] == (r.conns - {id})[k];
      }
    } else if q != role {
      assert q == role.Opposite();
    }
  }

  /**
   Attaching does not disturb existing receivers: each stays attached to its
   slot and has nothing new pending.
   */
  lemma SubscribeKeepsReceivers(reg: Registry, id: DeviceId, role: Role, rx: Receiver, k: DeviceId, q: Role)
    requires AttachedTo(reg, rx, k, q)
    ensures AttachedTo(Subscribed(reg, id, role), rx, k, q)
    ensures Pending(Subscribed(reg, id, role).channels, rx) == Pending(reg.channels, rx)
  {
    SubscribeSlotAt(reg, id, role, k, q);
    var r := Subscribed(reg, id, role);
    assert r.channels[rx.tx] == reg.channels[rx.tx];
  }
}
