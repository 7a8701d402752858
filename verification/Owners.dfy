/**
 Whom a signal is credited to. On the bus a service speaks under the unique name of its
 connection; the registry keeps a table from unique names to service names, fed by ownership
 changes and by replies to GetNameOwner. The table has one service for each unique name, so a
 connection that owns two services is credited with only the one it acquired last.
 */
module Owners {
  import opened Wrappers
  import opened Text
  import opened ShortNames
  import opened Registry
  import opened DelayedChanges

  /** The unique name is known to be the service's, and no other is. */
  ghost predicate Owns(r: Reg, owner: string, service: string) {
    OwnedBy(r.idToName, owner, service) && forall x | OwnedBy(r.idToName, x, service) :: x == owner
  }

  ghost predicate Unowned(r: Reg, service: string) {
    forall x :: !OwnedBy(r.idToName, x, service)
  }

  /** An ownership change of a Victron service. */
  predicate OwnerSignal(e: Event) {
    e.Signal? && e.sig.NameOwnerChanged? && StartsWith(e.sig.name, VICTRON_PREFIX)
  }

  predicate Acquires(e: Event, owner: string, service: string) {
    OwnerSignal(e) && e.sig.newOwner == owner && owner != "" && e.sig.name == service
  }

  /** The service disappears from the bus. */
  predicate Removes(e: Event, service: string) {
    OwnerSignal(e) && e.sig.newOwner == "" && e.sig.oldOwner != "" && e.sig.name == service
  }

  /** A reply says which unique name has the service. */
  predicate TellsOwner(r: Reg, e: Event, owner: string, service: string) {
    e.Reply? && e.serial in r.handlers && r.handlers[e.serial] == GetNameOwner(service) && e.body == Owner(owner)
  }

  /** The event says that the service is the connection's. */
  predicate Appears(r: Reg, e: Event, owner: string, service: string) {
    Acquires(e, owner, service) || TellsOwner(r, e, owner, service)
  }

  /** The event gives the unique name to another service, or takes it out of the table. */
  ghost predicate Renames(r: Reg, e: Event, owner: string, service: string) {
    || (exists other :: other != service && Appears(r, e, owner, other))
    || (OwnerSignal(e) && e.sig.newOwner == "" && e.sig.oldOwner == owner && owner != "")
    || (Removes(e, service) && e.sig.leftover == Some(owner))
  }

  // ---------- the table, step by step ----------

  lemma {:induction false} ScanAllKeepsOwners(r: Reg, names: seq<string>, calls: nat)
    ensures ScanAll(r, names, calls).reg.idToName == r.idToName
    decreases |names|
  {
    if names != [] {
      if !StartsWith(names[0], "com.victronenergy") {
        ScanAllKeepsOwners(r, names[1..], calls);
      } else if calls > 0 {
        ScanAllKeepsOwners(Call(r, GetNameOwner(names[0]), true).reg, names[1..], calls - 1);
      }
    }
  }

  lemma {:induction false} PublishStoredKeepsOwners(r: Reg, order: seq<(string, string)>, n: nat)
    requires n <= |order|
    ensures PublishStored(r, order, n).reg.idToName == r.idToName
    decreases n
  {
    if n > 0 {
      PublishStoredKeepsOwners(r, order, n - 1);
    }
  }

  lemma AddMappingKeepsOwners(r: Reg, service: string, ups: seq<Update>, known: bool, force: bool, clk: Clock, off: nat)
    ensures AddMapping(r, service, ups, known, force, clk, off).reg.idToName == r.idToName
  {}

  /** The table after an event: only ownership changes and GetNameOwner replies touch it. */
  function OwnersAfter(r: Reg, e: Event): map<string, string> {
    if OwnerSignal(e) then
      if e.sig.newOwner != "" then r.idToName[e.sig.newOwner := e.sig.name]
      else if e.sig.oldOwner != "" then
        var t := r.idToName - {e.sig.oldOwner};
        if e.sig.leftover.Some? && OwnedBy(t, e.sig.leftover.value, e.sig.name) then t - {e.sig.leftover.value} else t
      else r.idToName
    else if e.Reply? && e.serial in r.handlers && r.handlers[e.serial].GetNameOwner? && e.body.Owner? then
      r.idToName[e.body.owner := r.handlers[e.serial].service]
    else r.idToName
  }

  lemma SignalOwners(r: Reg, sig: SignalBody, clk: Clock)
    requires Settled(r)
    ensures OnSignal(r, sig, clk).reg.idToName == OwnersAfter(r, Signal(sig, clk))
  {
    SettledPassOnlyExpires(r.items, r.alive, r.queue, clk, 0, |r.queue|);
    DispatchOwners(ProcessDelayed(r, clk, 0).reg, sig, clk, |r.queue|);
  }

  lemma DispatchOwners(r: Reg, sig: SignalBody, clk: Clock, off: nat)
    ensures Dispatch(r, sig, clk, off).reg.idToName == OwnersAfter(r, Signal(sig, clk))
  {
    if sig.Changed? {
      AddMappingKeepsOwners(r, NamedOwner(r, sig.sender), sig.ups, true, false, clk, off);
    }
  }

  lemma ReplyOwners(r: Reg, h: Handler, body: ReplyBody, calls: nat, clk: Clock)
    ensures OnReply(r, h, body, calls, clk).reg.idToName
         == if h.GetNameOwner? && body.Owner? then r.idToName[body.owner := h.service] else r.idToName
  {
    match (h, body)
    case (ListNames, Names(names)) => ScanAllKeepsOwners(r, names, calls);
    case (GetItems(t), ItemsBody(ups)) => AddMappingKeepsOwners(r, t, ups, false, false, clk, 0);
    case (GetValue(t, prefix, force), Tree(vals)) => AddMappingKeepsOwners(r, t, TreeUpdates(prefix, vals), false, force, clk, 0);
    case _ =>
  }

  lemma NextOwners(r: Reg, e: Event)
    requires Settled(r)
    ensures Next(r, e).reg.idToName == OwnersAfter(r, e)
  {
    match e
    case Signal(sig, clk) => SignalOwners(r, sig, clk);
    case Reply(serial, body, calls, clk) =>
      if serial in r.handlers {
        ReplyOwners(r.(handlers := r.handlers - {serial}), r.handlers[serial], body, calls, clk);
      }
    case PublishAll(order) => PublishStoredKeepsOwners(r, order, |order|);
    case _ =>
  }

  /** A unique name stays the service's exactly as long as no event renames it. */
  lemma StaysOwnedIff(r: Reg, e: Event, owner: string, service: string)
    requires Settled(r) && OwnedBy(r.idToName, owner, service)
    ensures OwnedBy(Next(r, e).reg.idToName, owner, service) <==> !Renames(r, e, owner, service)
  {
    NextOwners(r, e);
    var other := if OwnerSignal(e) then e.sig.name else if e.Reply? && e.serial in r.handlers && r.handlers[e.serial].GetNameOwner? then r.handlers[e.serial].service else "";
    assert Appears(r, e, owner, other) && other != service ==> Renames(r, e, owner, service);
  }

  // ---------- whose the signals are, over runs ----------

  /** The event gives the service to no other connection, does not remove it, and does not rename its own. */
  ghost predicate KeepsNames(r: Reg, e: Event, owner: string, service: string) {
    && !Renames(r, e, owner, service) && !Removes(e, service)
    && forall x | Appears(r, e, x, service) :: x == owner
  }

  lemma NextOwns(r: Reg, e: Event, owner: string, service: string)
    requires Settled(r) && KeepsNames(r, e, owner, service)
    requires Owns(r, owner, service) || (Unowned(r, service) && Appears(r, e, owner, service))
    ensures Owns(Next(r, e).reg, owner, service)
  {
    NextOwners(r, e);
    var a := Next(r, e).reg;
    forall x | OwnedBy(a.idToName, x, service) ensures x == owner {
      assert OwnedBy(r.idToName, x, service) || Appears(r, e, x, service);
    }
    if Owns(r, owner, service) {
      StaysOwnedIff(r, e, owner, service);
    }
  }

  /** The bus gives every message the unique name of its sender. */
  predicate SentOnBus(e: Event) {
    e.Signal? && e.sig.Changed? ==> !StartsWith(e.sig.sender, "com.victronenergy")
  }

  /** Then a signal is credited to the service exactly when its own connection sent it. */
  lemma CreditedIffSpoken(r: Reg, sender: string, owner: string, service: string)
    requires Owns(r, owner, service) && StartsWith(service, VICTRON_PREFIX) && !StartsWith(sender, "com.victronenergy")
    ensures NamedOwner(r, sender) == service <==> sender == owner
  {
    assert OwnedBy(r.idToName, sender, service) <==> sender == owner;
    PrefixOfPrefix(service);
  }

  lemma PrefixOfPrefix(service: string)
    requires StartsWith(service, VICTRON_PREFIX)
    ensures StartsWith(service, "com.victronenergy")
  {
    assert VICTRON_PREFIX[..17] == "com.victronenergy";
    assert service[..17] == service[..|VICTRON_PREFIX|][..17];
  }
}
