/**
 Sequential runs of the registry from its empty start. Each connection
 attaches once before its loop and detaches once after it, so in any run every
 detach of (id, role) is preceded by more attaches than detaches of (id, role).
 */
module Trace {
  import opened State
  import opened Relay

  /** One registry operation, as a connection handler issues it. */
  datatype Event =
    | Attach(id: DeviceId, role: Role)
    | Detach(id: DeviceId, role: Role)
    | Send(id: DeviceId, role: Role, msg: string)

  function Apply(reg: Registry, e: Event): Registry {
    match e
    case Attach(id, role) => Subscribed(reg, id, role)
    case Detach(id, role) => Unregistered(reg, id, role)
    case Send(id, from, msg) => Forwarded(reg, id, from, msg)
  }

  /** The registry after running `t` from the empty registry. */
  function Run(t: seq<Event>): Registry
    decreases |t|
  {
    if t == [] then Empty else Apply(Run(t[..|t| - 1]), t[|t| - 1])
  }

  /** +1 for an attach of (`id`, `role`), -1 for a detach of it, 0 otherwise. */
  function Delta(e: Event, id: DeviceId, role: Role): int {
    match e
    case Attach(i, r) => if i == id && r == role then 1 else 0
    case Detach(i, r) => if i == id && r == role then -1 else 0
    case Send(_, _, _) => 0
  }

  /** The number of connections of (`id`, `role`) still attached after `t`. */
  function Live(t: seq<Event>, id: DeviceId, role: Role): int
    decreases |t|
  {
    if t == [] then 0 else Live(t[..|t| - 1], id, role) + Delta(t[|t| - 1], id, role)
  }

  /** Every detach in `t` belongs to a connection that is still attached. */
  predicate Balanced(t: seq<Event>)
    decreases |t|
  {
    t == [] ||
    (&& Balanced(t[..|t| - 1])
     && (t[|t| - 1].Detach? ==> Live(t[..|t| - 1], t[|t| - 1].id, t[|t| - 1].role) > 0))
  }

  /** Under the invariant an id has an entry exactly when one of its roles has subscribers. */
  lemma PresentIffCounted(reg: Registry, id: DeviceId)
    requires Inv(reg)
    ensures id in reg.conns <==> Count(reg.conns, id, Master) > 0 || Count(reg.conns, id, Slave) > 0
  {
    if id in reg.conns {
      assert reg.conns[id].master == SlotAt(reg.conns, id, Master);
      assert reg.conns[id].slave == SlotAt(reg.conns, id, Slave);
    }
  }

  /**
   In a balanced run, every slot's count is the number of connections of that
   (id, role) still attached, the registry invariant holds, and an id has an
   entry exactly when some connection for it is still attached.
   */
  lemma {:induction false} CountIsLive(t: seq<Event>)
    requires Balanced(t)
    ensures Inv(Run(t))
    ensures forall id, role :: Count(Run(t).conns, id, role) == Live(t, id, role)
    ensures forall id :: id in Run(t).conns <==> Live(t, id, Master) > 0 || Live(t, id, Slave) > 0
    decreases |t|
  {
    if t != [] {
      var p, e := t[..|t| - 1], t[|t| - 1];
      CountIsLive(p);
      var before := Run(p);
      assert Run(t) == Apply(before, e);
      match e {
        case Attach(i, r) =>
          SubscribePreservesInv(before, i, r);
          forall id, role ensures Count(Run(t).conns, id, role) == Live(t, id, role) {
            SubscribeSlotAt(before, i, r, id, role);
          }
        case Detach(i, r) =>
          UnregisterPreservesInv(before, i, r);
          forall id, role ensures Count(Run(t).conns, id, role) == Live(t, id, role) {
            UnregisterSlotAt(before, i, r, id, role);
          }
        case Send(i, r, msg) =>
          ForwardPreservesInv(before, i, r, msg);
      }
      forall id ensures id in Run(t).conns <==> Live(t, id, Master) > 0 || Live(t, id, Slave) > 0 {
        PresentIffCounted(Run(t), id);
      }
    }
  }
}
