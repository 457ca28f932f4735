/**
 Routing a message to the opposite role, and detaching a connection.
 */
module Relay {
  import opened Wrappers
  import opened State

  /** The channel a message from `from` under `id` is published on: the opposite role's slot, if any. */
  function Target(conns: map<DeviceId, ConnectionPair>, id: DeviceId, from: Role): Option<ChannelId> {
    match SlotAt(conns, id, from.Opposite())
    case Some(s) => Some(s.tx)
    case None => None
  }

  /** The channels after publishing `msg` on channel `t` (nothing when `t` is absent). */
  function Publish(channels: seq<Channel>, t: Option<ChannelId>, msg: string): (r: seq<Channel>)
    ensures |r| == |channels|
    ensures forall c | 0 <= c < |channels| ::
              && r[c].capacity == channels[c].capacity
              && r[c].log == channels[c].log + (if t == Some(c) then [msg] else [])
  {
    match t
    case Some(c) =>
      if c < |channels| then channels[c := channels[c].(log := channels[c].log + [msg])] else channels
    case None => channels
  }

  /**
   The registry after a connection of role `from` sends `msg` under `id`: the
   id map is untouched, the text is appended verbatim to the opposite slot's
   channel and to no other, and nothing happens when that slot is missing.
   */
  function Forwarded(reg: Registry, id: DeviceId, from: Role, msg: string): (r: Registry)
    ensures r.conns == reg.conns
    ensures |r.channels| == |reg.channels|
    ensures forall c | 0 <= c < |reg.channels| ::
              && r.channels[c].capacity == reg.channels[c].capacity
              && r.channels[c].log == reg.channels[c].log + (if Target(reg.conns, id, from) == Some(c) then [msg] else [])
    ensures SlotAt(reg.conns, id, from.Opposite()).None? ==> r == reg
  {
    reg.(channels := Publish(reg.channels, Target(reg.conns, id, from), msg))
  }

  /** `n - 1`, but never below zero (Rust's `usize::saturating_sub(1)`). */
  function SaturatingDec(n: nat): (r: nat)
    ensures n == 0 ==> r == 0
    ensures n > 0 ==> r + 1 == n
  {
    if n == 0 then 0 else n - 1
  }

  /**
   The registry after one connection of `role` detaches from `id`: the slot's
   count drops by one (not below zero), the slot is cleared when the count
   reaches zero, and the entry is removed once both of its slots are absent.
   */
  function Unregistered(reg: Registry, id: DeviceId, role: Role): (r: Registry)
    ensures r.channels == reg.channels
    ensures r.conns - {id} == reg.conns - {id}
    ensures Count(r.conns, id, role) == SaturatingDec(Count(reg.conns, id, role))
    ensures SlotAt(r.conns, id, role).None? <==>
              SlotAt(reg.conns, id, role).None? || SlotAt(reg.conns, id, role).value.subscribers <= 1
    ensures SlotAt(r.conns, id, role).Some? ==>
              SlotAt(r.conns, id, role).value.tx == SlotAt(reg.conns, id, role).value.tx
    ensures SlotAt(r.conns, id, role.Opposite()) == SlotAt(reg.conns, id, role.Opposite())
    ensures id in r.conns <==>
              id in reg.conns && !(SlotAt(r.conns, id, Master).None? && SlotAt(r.conns, id, Slave).None?)
  {
    if id !in reg.conns then reg
    else
      var pair := reg.conns[id];
      var pair' :=
        match pair.Get(role)
        case Some(s) =>
          var n := SaturatingDec(s.subscribers);
          if n == 0 then pair.With(role, None) else pair.With(role, Some(s.(subscribers := n)))
        case None => pair;
      if pair'.IsEmpty() then reg.(conns := reg.conns - {id})
      else reg.(conns := reg.conns[id := pair'])
  }

  /** How one slot of the registry looks after a detach of (`id`, `role`). */
  lemma UnregisterSlotAt(reg: Registry, id: DeviceId, role: Role, k: DeviceId, q: Role)
    ensures (k, q) != (id, role) ==> SlotAt(Unregistered(reg, id, role).conns, k, q) == SlotAt(reg.conns, k, q)
    ensures (k, q) == (id, role) && SlotAt(Unregistered(reg, id, role).conns, k, q).Some? ==>
              SlotAt(Unregistered(reg, id, role).conns, k, q).value.tx == SlotAt(reg.conns, k, q).value.tx
  {
    var r := Unregistered(reg, id, role);
    if k != id {
      assert k in r.conns <==> k in r.conns - {id};
      assert k in reg.conns <==> k in reg.conns - {id};
      if k in r.conns {
        assert r.conns[k] == (r.conns - {id})[k];
      }
    } else if q != role {
      assert q == role.Opposite();
    }
  }

  /** Forwarding keeps the registry invariant. */
  lemma ForwardPreservesInv(reg: Registry, id: DeviceId, from: Role, msg: string)
    requires Inv(reg)
    ensures Inv(Forwarded(reg, id, from, msg))
  {
  }

  /** Detaching keeps the registry invariant. */
  lemma UnregisterPreservesInv(reg: Registry, id: DeviceId, role: Role)
    requires Inv(reg)
    ensures Inv(Unregistered(reg, id, role))
  {
    var r := Unregistered(reg, id, role);
    forall k | k in r.conns
      ensures !r.conns[k].IsEmpty()
      ensures SlotOk(r.conns[k].master, |r.channels|) && SlotOk(r.conns[k].slave, |r.channels|)
    {
      UnregisterSlotAt(reg, id, role, k, Master);
      UnregisterSlotAt(reg, id, role, k, Slave);
      assert r.conns[k].master == SlotAt(r.conns, k, Master);
      assert r.conns[k].slave == SlotAt(r.conns, k, Slave);
    }
    forall k, k', q, q' |
      && SlotAt(r.conns, k, q).Some?
      && SlotAt(r.conns, k', q').Some?
      && SlotAt(r.conns, k, q).value.tx == SlotAt(r.conns, k', q').value.tx
      ensures k == k' && q == q'
    {
      UnregisterSlotAt(reg, id, role, k, q);
      UnregisterSlotAt(reg, id, role, k', q');
    }
  }

  /**
   Routing: after a send from `from` under `id`, a receiver attached to any slot
   has gained `msg` exactly when that slot is the opposite role's slot of `id`.
   Same-role peers and receivers of other ids see nothing.
   */
  lemma ForwardDelivery(reg: Registry, id: DeviceId, from: Role, msg: string, rx: Receiver, k: DeviceId, q: Role)
    requires Inv(reg)
    requires AttachedTo(reg, rx, k, q)
    ensures AttachedTo(Forwarded(reg, id, from, msg), rx, k, q)
    ensures Pending(Forwarded(reg, id, from, msg).channels, rx) ==
              Pending(reg.channels, rx) + (if k == id && q == from.Opposite() then [msg] else [])
  {
    var r := Forwarded(reg, id, from, msg);
    var log := reg.channels[rx.tx].log;
    if k == id && q == from.Opposite() {
      assert Target(reg.conns, id, from) == Some(rx.tx);
      assert r.channels[rx.tx].log[rx.cursor..] == log[rx.cursor..] + [msg];
    } else {
      assert r.channels[rx.tx].log == log;
    }
  }

  /**
   Detaching one connection of (`id`, `role`) leaves every other slot's
   receivers attached, and the slot's own receivers too while other
   subscribers remain.
   */
  lemma UnregisterKeepsReceivers(reg: Registry, id: DeviceId, role: Role, rx: Receiver, k: DeviceId, q: Role)
    requires AttachedTo(reg, rx, k, q)
    requires (k, q) == (id, role) ==> Count(reg.conns, id, role) > 1
    ensures AttachedTo(Unregistered(reg, id, role), rx, k, q)
    ensures Pending(Unregistered(reg, id, role).channels, rx) == Pending(reg.channels, rx)
  {
    UnregisterSlotAt(reg, id, role, k, q);
  }

  /**
   No leak: an attach followed by a detach of the same (`id`, `role`) gives
   back the id map as it was; in particular an id absent before is absent after.
   */
  lemma SubscribeUnregisterRoundTrip(reg: Registry, id: DeviceId, role: Role)
    requires Inv(reg)
    ensures Unregistered(Subscribed(reg, id, role), id, role).conns == reg.conns
  {
    var mid := Subscribed(reg, id, role);
    var r := Unregistered(mid, id, role);
    forall k ensures (k in r.conns <==> k in reg.conns) && (k in r.conns ==> r.conns[k] == reg.conns[k]) {
      if k != id {
        assert k in r.conns <==> k in r.conns - {id};
        assert k in reg.conns <==> k in reg.conns - {id};
        if k in r.conns {
          assert r.conns[k] == (r.conns - {id})[k];
          assert reg.conns[k] == (reg.conns - {id})[k];
        }
      } else {
        var other := role.Opposite();
        assert SlotAt(r.conns, id, other) == SlotAt(reg.conns, id, other);
        if SlotAt(reg.conns, id, role).Some? {
          assert SlotAt(r.conns, id, role) == SlotAt(reg.conns, id, role);
        } else {
          assert SlotAt(r.conns, id, role).None?;
        }
        if id in reg.conns {
          assert !reg.conns[id].IsEmpty();
          assert reg.conns[id].Get(role) == SlotAt(reg.conns, id, role);
          assert reg.conns[id].Get(other) == SlotAt(reg.conns, id, other);
          assert id in r.conns;
          assert r.conns[id].Get(role) == SlotAt(r.conns, id, role);
          assert r.conns[id].Get(other) == SlotAt(r.conns, id, other);
          PairExt(r.conns[id], reg.conns[id], role);
        }
      }
    }
  }

  /** Two pairs with equal slots for both roles are equal. */
  lemma PairExt(p: ConnectionPair, p': ConnectionPair, role: Role)
    requires p.Get(role) == p'.Get(role) && p.Get(role.Opposite()) == p'.Get(role.Opposite())
    ensures p == p'
  {
  }
}
