/**
 Three runs from the empty registry in which the mirror of a service does not agree: a change
 crosses the age limit while it is replayed, the reply of another service leaves out a queued
 path, and one connection owns two services.
 */
module MirrorFailures {
  import opened Durations
  import opened Wrappers
  import opened Text
  import opened ShortNames
  import opened Variants
  import opened Items
  import opened Registry
  import opened RegistryInvariant
  import opened DelayedChanges
  import opened Renderings
  import opened Owners
  import opened Mirror
  import opened MirrorRuns
  import opened MirrorLimits

  const A := "com.victronenergy.a"
  const B := "com.victronenergy.b"
  const OWNER := ":1.5"
  const OTHER := ":1.6"
  const LIMIT: nat := 31 * SECOND

  function IntValue(n: int): ValueMinMax {
    ValueMinMax(Int32(n), Unknown, Unknown)
  }

  function AtZero(): Clock {
    i => 0
  }

  /** The first reading is just before entries stamped 0 expire, all later ones are after. */
  function Crossing(): Clock {
    i => if i == 0 then LIMIT - 1 else LIMIT
  }

  function Appearance(service: string, owner: string): Event {
    Signal(NameOwnerChanged(service, "", owner, true, [], None), AtZero())
  }

  function Says(owner: string, path: string, n: int): Event {
    Signal(Changed(owner, [Update(path, IntValue(n))]), AtZero())
  }

  function OwnerReply(serial: nat, owner: string): Event {
    Reply(serial, Owner(owner), 1, AtZero())
  }

  function ItemsReply(serial: nat, path: string, n: int, clk: Clock): Event {
    Reply(serial, ItemsBody([Update(path, IntValue(n))]), 1, clk)
  }

  /** After the events: the registry, the values of OWNER's service, and no time passed. */
  ghost predicate At(r: Reg, truth: Values, es: seq<Event>, b: Reg, now: Values) {
    Run(r, es) == b && TruthOver(es, OWNER, truth) == now && LastOver(r, es, 0) == 0
  }

  ghost predicate Timeless(e: Event) {
    (e.Signal? || e.Reply?) && e.clk == AtZero()
  }

  lemma AtNext(r: Reg, truth: Values, es: seq<Event>, b: Reg, now: Values, e: Event)
    requires At(r, truth, es, b, now) && Timeless(e)
    ensures At(r, truth, es + [e], Next(b, e).reg, TruthAfter(e, OWNER, now))
  {
    assert (es + [e])[..|es|] == es;
  }

  lemma AtFirst(r: Reg, truth: Values, e: Event)
    requires Timeless(e) && (e.Signal? ==> !e.sig.Changed?)
    ensures At(r, truth, [e], Next(r, e).reg, truth)
  {
    assert [] + [e] == [e];
    AtNext(r, truth, [], r, truth, e);
  }

  lemma GoodOne(r: Reg, es: seq<Event>, e: Event, s: string, owner: string, truth: Values, last: nat)
    requires GoodRun(r, es, s, owner, truth, last)
    requires GoodStep(Run(r, es), e, s, owner, TruthOver(es, owner, truth), LastOver(r, es, last))
    ensures GoodRun(r, es + [e], s, owner, truth, last)
  {
    assert (es + [e])[..|es|] == es;
  }

  // ---------- single steps on a registry of which little is known ----------

  /** A registry in which nothing is known and nothing is published. */
  function Fresh(vrmId: string, textOf: Variant -> string, owners: map<string, string>, q: seq<Queued>, handlers: map<nat, Handler>, serial: nat): Reg {
    Initial(vrmId, textOf).(idToName := owners, queue := q, handlers := handlers, nextSerial := serial)
  }

  lemma NothingExpired(r: Reg)
    requires r.items == map[] && forall i | 0 <= i < |r.queue| :: r.queue[i].createdAt == 0
    ensures ProcessDelayed(r, AtZero(), 0) == Step(r, Ok)
  {
    KeepsAll(r.items, r.alive, r.queue, |r.queue|);
    assert r.out + [] == r.out;
    assert r.queue[..|r.queue|] == r.queue;
  }

  lemma {:induction false} KeepsAll(items: Store, alive: bool, q: seq<Queued>, n: nat)
    requires n <= |q| && items == map[] && forall i | 0 <= i < |q| :: q[i].createdAt == 0
    ensures PassTo(items, alive, q, AtZero(), 0, n) == Pass(items, q[..n], [], Ok)
    decreases n
  {
    if n > 0 {
      KeepsAll(items, alive, q, n - 1);
      assert q[..n] == q[..n - 1] + [q[n - 1]];
    }
  }

  lemma AppearanceStep(r: Reg, service: string, owner: string)
    requires r.items == map[] && (forall i | 0 <= i < |r.queue| :: r.queue[i].createdAt == 0)
    requires StartsWith(service, VICTRON_PREFIX) && owner != ""
    ensures Next(r, Appearance(service, owner)).reg
         == r.(idToName := r.idToName[owner := service], handlers := r.handlers[r.nextSerial := GetNameOwner(service)], nextSerial := r.nextSerial + 1)
  {
    NothingExpired(r);
  }

  lemma OwnerReplyStep(r: Reg, serial: nat, service: string, owner: string)
    requires serial in r.handlers && r.handlers[serial] == GetNameOwner(service)
    ensures Next(r, OwnerReply(serial, owner)).reg
         == r.(idToName := r.idToName[owner := service],
               handlers := (r.handlers - {serial})[r.nextSerial := GetItems(service)], nextSerial := r.nextSerial + 1)
  {}

  /** A signal of an unknown service is queued. */
  lemma SaysStep(r: Reg, service: string, owner: string, path: string, n: int)
    requires r.items == map[] && (forall i | 0 <= i < |r.queue| :: r.queue[i].createdAt == 0)
    requires OwnedBy(r.idToName, owner, service) && StartsWith(service, VICTRON_PREFIX) && !StartsWith(owner, "com.victronenergy")
    requires StartsWith(path, "/")
    ensures Next(r, Says(owner, path, n)).reg == r.(queue := r.queue + [Queued(service, path, IntValue(n), 0)])
  {
    NothingExpired(r);
    var ups := [Update(path, IntValue(n))];
    assert Stamped(service, ups, AtZero(), |r.queue|, 0) == [];
    assert Stamped(service, ups, AtZero(), |r.queue|, 1) == [] + [Queued(service, PrefixSlash(path), IntValue(n), 0)];
  }

  // ---------- good steps ----------

  lemma GoodAppearance(r: Reg, service: string, owner: string, s: string, truth: Values)
    requires owner != "" && (service == s <==> owner == OWNER)
    ensures GoodStep(r, Appearance(service, owner), s, OWNER, truth, 0)
  {
    var e := Appearance(service, owner);
    assert forall other :: Appears(r, e, OWNER, other) ==> other == s;
    assert forall x :: Appears(r, e, x, s) ==> x == OWNER;
  }

  lemma GoodOwnerReply(r: Reg, serial: nat, service: string, owner: string, s: string, truth: Values)
    requires serial in r.handlers && r.handlers[serial] == GetNameOwner(service)
    requires owner != "" && (service == s <==> owner == OWNER)
    ensures GoodStep(r, OwnerReply(serial, owner), s, OWNER, truth, 0)
  {
    var e := OwnerReply(serial, owner);
    assert forall other :: Appears(r, e, OWNER, other) ==> other == s;
    assert forall x :: Appears(r, e, x, s) ==> x == OWNER;
  }

  lemma GoodSays(r: Reg, owner: string, path: string, n: int, s: string, truth: Values)
    requires !StartsWith(owner, "com.victronenergy")
    ensures GoodStep(r, Says(owner, path, n), s, OWNER, truth, 0)
  {
    var e := Says(owner, path, n);
    assert forall x, other :: !Appears(r, e, x, other);
  }

  /** A reply with all the values the service has; only whether it tells every queued path is left open. */
  lemma GoodItemsReply(r: Reg, serial: nat, path: string, n: int, clk: Clock, s: string)
    requires serial in r.handlers && r.handlers[serial] == GetItems(s) && s !in r.items && StartsWith(path, "/")
    requires Monotone(clk) && TellsQueued(r, ItemsReply(serial, path, n, clk))
    ensures GoodStep(r, ItemsReply(serial, path, n, clk), s, OWNER, map[path := IntValue(n)], 0)
    ensures FirstMapping(r, ItemsReply(serial, path, n, clk), s)
  {
    var e := ItemsReply(serial, path, n, clk);
    assert forall x, other :: !Appears(r, e, x, other);
    assert Told(map[], e.body.ups, 0) == map[];
    assert Told(map[], e.body.ups, 1) == map[path := IntValue(n)];
  }

  lemma StartIsReady(vrmId: string, textOf: Variant -> string, s: string)
    requires StartsWith(s, VICTRON_PREFIX)
    ensures Ready(Initial(vrmId, textOf), 0) && NewTo(Initial(vrmId, textOf), s)
  {}

  // ---------- a change crosses the age limit while it is replayed ----------

  function CrossingStart(): seq<Event> {
    Begin() + [Says(OWNER, "/P", 1)] + [Says(OWNER, "/P", 2)]
  }

  function CrossingRun(): seq<Event> {
    CrossingStart() + [ItemsReply(2, "/P", 2, Crossing())]
  }

  const Q1 := Queued(A, "/P", IntValue(1), 0)
  const Q2 := Queued(A, "/P", IntValue(2), 0)

  /** The registry when A has appeared and its owner is known, and only its GetItems reply is awaited. */
  function Awaiting(vrmId: string, textOf: Variant -> string, q: seq<Queued>): Reg {
    Fresh(vrmId, textOf, map[OWNER := A], q, map[2 := GetItems(A)], 3)
  }

  function Begin(): seq<Event> {
    [Appearance(A, OWNER)] + [OwnerReply(1, OWNER)]
  }

  lemma BeginStates(vrmId: string, textOf: Variant -> string, truth: Values)
    ensures At(Initial(vrmId, textOf), truth, Begin(), Awaiting(vrmId, textOf, []), truth)
  {
    var r, e1 := Initial(vrmId, textOf), Appearance(A, OWNER);
    var r1 := Fresh(vrmId, textOf, map[OWNER := A], [], map[1 := GetNameOwner(A)], 2);
    AtFirst(r, truth, e1);
    AppearanceStep(r, A, OWNER);
    assert Next(r, e1).reg == r1;
    AtNext(r, truth, [e1], r1, truth, OwnerReply(1, OWNER));
    OwnerReplyStep(r1, 1, A, OWNER);
  }

  lemma BeginIsGood(vrmId: string, textOf: Variant -> string, truth: Values)
    ensures GoodRun(Initial(vrmId, textOf), Begin(), A, OWNER, truth, 0)
  {
    var r, e1 := Initial(vrmId, textOf), Appearance(A, OWNER);
    var r1 := Fresh(vrmId, textOf, map[OWNER := A], [], map[1 := GetNameOwner(A)], 2);
    AtFirst(r, truth, e1);
    AppearanceStep(r, A, OWNER);
    assert Next(r, e1).reg == r1;
    assert [] + [e1] == [e1];
    GoodAppearance(r, A, OWNER, A, truth);
    GoodOne(r, [], e1, A, OWNER, truth, 0);
    GoodOwnerReply(r1, 1, A, OWNER, A, truth);
    GoodOne(r, [e1], OwnerReply(1, OWNER), A, OWNER, truth, 0);
  }

  /** The service's values when it has said n about /P and nothing else. */
  function PIs(n: int): Values {
    map["/P" := IntValue(n)]
  }

  /** A says something while it is unknown. */
  lemma ASays(r: Reg, truth: Values, es: seq<Event>, b: Reg, now: Values, q: seq<Queued>, n: int)
    requires At(r, truth, es, b, now) && b.items == map[] && b.queue == q && OwnedBy(b.idToName, OWNER, A)
    requires forall i | 0 <= i < |q| :: q[i].createdAt == 0
    requires now == map[] || exists k :: now == PIs(k)
    ensures At(r, truth, es + [Says(OWNER, "/P", n)], b.(queue := q + [Queued(A, "/P", IntValue(n), 0)]), PIs(n))
  {
    AtNext(r, truth, es, b, now, Says(OWNER, "/P", n));
    SaysStep(b, A, OWNER, "/P", n);
    ToldOne(now, "/P", n);
  }

  lemma CrossingStates(vrmId: string, textOf: Variant -> string)
    ensures At(Initial(vrmId, textOf), map[], CrossingStart(), Awaiting(vrmId, textOf, [Q1, Q2]), PIs(2))
  {
    var r, e3 := Initial(vrmId, textOf), Says(OWNER, "/P", 1);
    BeginStates(vrmId, textOf, map[]);
    ASays(r, map[], Begin(), Awaiting(vrmId, textOf, []), map[], [], 1);
    assert [] + [Q1] == [Q1] && [Q1] + [Q2] == [Q1, Q2];
    assert At(r, map[], Begin() + [e3], Awaiting(vrmId, textOf, [Q1]), PIs(1));
    ASays(r, map[], Begin() + [e3], Awaiting(vrmId, textOf, [Q1]), PIs(1), [Q1], 2);
  }

  lemma CrossingIsGood(vrmId: string, textOf: Variant -> string)
    ensures GoodRun(Initial(vrmId, textOf), CrossingStart(), A, OWNER, map[], 0)
  {
    var r, e3 := Initial(vrmId, textOf), Says(OWNER, "/P", 1);
    BeginStates(vrmId, textOf, map[]);
    BeginIsGood(vrmId, textOf, map[]);
    GoodSays(Awaiting(vrmId, textOf, []), OWNER, "/P", 1, A, map[]);
    GoodOne(r, Begin(), e3, A, OWNER, map[], 0);
    ASays(r, map[], Begin(), Awaiting(vrmId, textOf, []), map[], [], 1);
    GoodSays(Run(r, Begin() + [e3]), OWNER, "/P", 2, A, PIs(1));
    GoodOne(r, Begin() + [e3], Says(OWNER, "/P", 2), A, OWNER, map[], 0);
  }

  lemma ToldOne(truth: Values, path: string, n: int)
    requires StartsWith(path, "/") && truth.Keys <= {path}
    requires path in truth ==> !Defined(truth[path].min) && !Defined(truth[path].max)
    ensures Told(truth, [Update(path, IntValue(n))], 1) == map[path := IntValue(n)]
  {
    assert Told(truth, [Update(path, IntValue(n))], 0) == truth;
  }

  lemma OnlyOlderReplayed()
    ensures !ReplaysTruth([Q1, Q2], Crossing(), 0, A, map["/P" := IntValue(2)])
  {
    var q, clk := [Q1, Q2], Crossing();
    assert !Expired(Q1, clk(0)) && Expired(Q2, clk(1));
    assert Replay(q, clk, 0, 0, A, "/P") == UNDEFINED;
    assert Replay(q, clk, 0, 1, A, "/P") == IntValue(1);
    assert Replay(q, clk, 0, 2, A, "/P") == IntValue(1);
    assert "/P" in map["/P" := IntValue(2)];
  }

  lemma CrossingReplyIsGood(b: Reg)
    requires b.queue == [Q1, Q2] && b.handlers == map[2 := GetItems(A)] && b.items == map[]
    ensures var e := ItemsReply(2, "/P", 2, Crossing());
      GoodStep(b, e, A, OWNER, map["/P" := IntValue(2)], 0) && FirstMapping(b, e, A)
  {
    var e := ItemsReply(2, "/P", 2, Crossing());
    assert e.body.ups[0].path == "/P" && PrefixSlash("/P") == "/P";
    assert Tells(e.body.ups, 1, "/P");
    GoodItemsReply(b, 2, "/P", 2, Crossing(), A);
  }

  lemma CrossingRunIsGood(vrmId: string, textOf: Variant -> string)
    ensures GoodRun(Initial(vrmId, textOf), CrossingRun(), A, OWNER, map[], 0)
  {
    var r, es := Initial(vrmId, textOf), CrossingStart();
    CrossingStates(vrmId, textOf);
    CrossingIsGood(vrmId, textOf);
    CrossingReplyIsGood(Awaiting(vrmId, textOf, [Q1, Q2]));
    GoodOne(r, es, ItemsReply(2, "/P", 2, Crossing()), A, OWNER, map[], 0);
  }

  lemma CrossingReplyMaps(vrmId: string, textOf: Variant -> string)
    ensures var r, es := Initial(vrmId, textOf), CrossingRun();
      && |es| == 5 && es[4] == ItemsReply(2, "/P", 2, Crossing())
      && FirstMapping(Run(r, es[..4]), es[4], A) && Run(r, es[..4]).queue == [Q1, Q2]
      && TruthOver(es[..4], OWNER, map[]) == PIs(2)
  {
    CrossingStates(vrmId, textOf);
    CrossingReplyIsGood(Awaiting(vrmId, textOf, [Q1, Q2]));
    assert CrossingRun()[..4] == CrossingStart();
  }

  lemma CrossingIsALife(vrmId: string, textOf: Variant -> string)
    ensures Life(Initial(vrmId, textOf), CrossingRun(), A, OWNER, map[], 0)
  {
    CrossingRunIsGood(vrmId, textOf);
    StartIsReady(vrmId, textOf, A);
    assert CrossingRun()[0] == Appearance(A, OWNER);
  }

  /**
   The age of each entry is judged with a clock reading of its own. In this run the older of two
   changes is judged just before it turns 31 s old and the newer just after: only the older is
   replayed, and the mirror falls back to it. All other conditions hold.
   */
  lemma OlderReplayedNewerDropped(vrmId: string, textOf: Variant -> string)
    ensures var r, es := Initial(vrmId, textOf), CrossingRun();
      && Life(r, es, A, OWNER, map[], 0)
      && A in Run(r, es).items && ValuesOf(Run(r, es).items[A]) != TruthOver(es, OWNER, map[])
  {
    var r, es := Initial(vrmId, textOf), CrossingRun();
    CrossingIsALife(vrmId, textOf);
    CrossingReplyMaps(vrmId, textOf);
    assert es[..4 + 1] == es;
    MirrorAgreesIff(r, es, 4, A, OWNER, map[], 0);
    OnlyOlderReplayed();
  }

  // ---------- another service leaves a path out ----------

  function LossStart(): seq<Event> {
    BothAppear() + [Says(OWNER, "/P", 1)] + [Says(OTHER, "/X", 9)] + [Says(OWNER, "/P", 2)]
  }

  const X9 := Queued(B, "/X", IntValue(9), 0)

  /** The registry when A and B have appeared, and B's GetItems reply is awaited. */
  function AwaitingB(vrmId: string, textOf: Variant -> string, q: seq<Queued>): Reg {
    Fresh(vrmId, textOf, map[OWNER := A, OTHER := B], q, map[1 := GetNameOwner(A), 3 := GetItems(B)], 4)
  }

  function BothAppear(): seq<Event> {
    [Appearance(A, OWNER)] + [Appearance(B, OTHER)] + [OwnerReply(2, OTHER)]
  }

  lemma BothStates(vrmId: string, textOf: Variant -> string)
    ensures At(Initial(vrmId, textOf), map[], BothAppear(), AwaitingB(vrmId, textOf, []), map[])
  {
    var r, e1, e2, e3 := Initial(vrmId, textOf), Appearance(A, OWNER), Appearance(B, OTHER), OwnerReply(2, OTHER);
    var r1 := Fresh(vrmId, textOf, map[OWNER := A], [], map[1 := GetNameOwner(A)], 2);
    var r2 := Fresh(vrmId, textOf, map[OWNER := A, OTHER := B], [], map[1 := GetNameOwner(A), 2 := GetNameOwner(B)], 3);
    AtFirst(r, map[], e1);
    AppearanceStep(r, A, OWNER);
    assert Next(r, e1).reg == r1;
    AtNext(r, map[], [e1], r1, map[], e2);
    AppearanceStep(r1, B, OTHER);
    assert Next(r1, e2).reg == r2;
    AtNext(r, map[], [e1] + [e2], r2, map[], e3);
    OwnerReplyStep(r2, 2, B, OTHER);
    assert Next(r2, e3).reg == AwaitingB(vrmId, textOf, []);
  }

  lemma BSays(r: Reg, truth: Values, es: seq<Event>, b: Reg, now: Values)
    requires At(r, truth, es, b, now) && b.items == map[] && b.queue == [Q1] && OwnedBy(b.idToName, OTHER, B)
    ensures At(r, truth, es + [Says(OTHER, "/X", 9)], b.(queue := [Q1] + [X9]), now)
  {
    AtNext(r, truth, es, b, now, Says(OTHER, "/X", 9));
    SaysStep(b, B, OTHER, "/X", 9);
  }

  lemma LossStates(vrmId: string, textOf: Variant -> string)
    ensures At(Initial(vrmId, textOf), map[], LossStart(), AwaitingB(vrmId, textOf, [Q1, X9, Q2]), PIs(2))
  {
    BothStates(vrmId, textOf);
    ThreeSay(Initial(vrmId, textOf), BothAppear(), AwaitingB(vrmId, textOf, []));
  }

  lemma TwoSay(r: Reg, es: seq<Event>, b: Reg)
    requires At(r, map[], es, b, map[]) && b.items == map[] && b.queue == []
    requires OwnedBy(b.idToName, OWNER, A) && OwnedBy(b.idToName, OTHER, B)
    ensures At(r, map[], es + [Says(OWNER, "/P", 1)] + [Says(OTHER, "/X", 9)], b.(queue := [Q1] + [X9]), PIs(1))
  {
    ASays(r, map[], es, b, map[], [], 1);
    assert [] + [Q1] == [Q1];
    BSays(r, map[], es + [Says(OWNER, "/P", 1)], b.(queue := [Q1]), PIs(1));
  }

  lemma ThreeSay(r: Reg, es: seq<Event>, b: Reg)
    requires At(r, map[], es, b, map[]) && b.items == map[] && b.queue == []
    requires OwnedBy(b.idToName, OWNER, A) && OwnedBy(b.idToName, OTHER, B)
    ensures At(r, map[], es + [Says(OWNER, "/P", 1)] + [Says(OTHER, "/X", 9)] + [Says(OWNER, "/P", 2)], b.(queue := [Q1, X9, Q2]), PIs(2))
  {
    TwoSay(r, es, b);
    assert [Q1] + [X9] == [Q1, X9] && [Q1, X9] + [Q2] == [Q1, X9, Q2];
    ASays(r, map[], es + [Says(OWNER, "/P", 1)] + [Says(OTHER, "/X", 9)], b.(queue := [Q1, X9]), PIs(1), [Q1, X9], 2);
  }

  function LossRun(): seq<Event> {
    LossStart() + [ItemsReply(3, "/Y", 0, AtZero())] + [OwnerReply(1, OWNER)] + [ItemsReply(4, "/P", 2, AtZero())]
  }

  lemma LossReplyIs(b: Reg)
    requires Inv(b) && Settled(b) && RegRenders(b) && 3 in b.handlers && b.handlers[3] == GetItems(B)
    ensures var e, ups := ItemsReply(3, "/Y", 0, AtZero()), [Update("/Y", IntValue(0))];
      var i := InstanceFor(Taken(b, e), B, ups);
      && NameOf(B, i).Some? && Inv(Indexed(Taken(b, e), B, i))
      && MapTo(Indexed(Taken(b, e), B, i), B, i, ups, false, 1).outcome == Ok
      && Next(b, e) == ProcessDelayed(Mapped(Indexed(Taken(b, e), B, i), B, i, ups, false), AtZero(), 0)
  {
    var e, ups := ItemsReply(3, "/Y", 0, AtZero()), [Update("/Y", IntValue(0))];
    var r1, i := Taken(b, e), InstanceFor(Taken(b, e), B, ups);
    MappingReplyIs(b, e);
    assert Inv(r1);
    PrefixedHasName(B);
    AddMappingIs(r1, B, ups, false, false, AtZero(), 0);
    MapServiceThrowsIff(Indexed(r1, B, i), B, i, ups, false, AtZero(), 0);
  }

  /** The reply for B throws at the second entry; the third, of A, is lost. */
  lemma LossStep(b: Reg)
    requires b.items == map[] && b.queue == [Q1, X9, Q2] && 3 in b.handlers && b.handlers[3] == GetItems(B)
    requires b.instances == map[] && b.index == map[] && b.out == []
    ensures var a := Next(b, ItemsReply(3, "/Y", 0, AtZero()));
      && a.outcome == Threw(QueuedPathMissing) && a.reg.queue == [Q1] && A !in a.reg.items
      && a.reg.handlers == b.handlers - {3} && a.reg.nextSerial == b.nextSerial && a.reg.idToName == b.idToName
  {
    var r1, ups := Taken(b, ItemsReply(3, "/Y", 0, AtZero())), [Update("/Y", IntValue(0))];
    var i := InstanceFor(r1, B, ups);
    LossReplyIs(b);
    MappedLoses(Indexed(r1, B, i), i, ups);
    LossPass(Mapped(Indexed(r1, B, i), B, i, ups, false).items, r1.alive);
  }

  lemma MappedLoses(r: Reg, instance: string, ups: seq<Update>)
    requires Inv(r) && r.items == map[] && ups == [Update("/Y", IntValue(0))]
    requires B in r.instances && r.instances[B] == instance && NameOf(B, instance).Some?
    requires MapTo(r, B, instance, ups, false, 1).outcome == Ok
    ensures var items := Mapped(r, B, instance, ups, false).items;
      B in items && A !in items && "/X" !in items[B]
  {
    MapToValues(r, B, instance, ups, false, 1, A);
    var items := Mapped(r, B, instance, ups, false).items;
    ToldKnows(map[], ups, 1, "/X");
    assert PrefixSlash(ups[0].path) == "/Y" != "/X";
    assert "/X" in items[B] <==> "/X" in ValuesAt(items, B);
  }

  lemma LossPass(items: Store, alive: bool)
    requires B in items && A !in items && "/X" !in items[B]
    ensures var p := PassTo(items, alive, [Q1, X9, Q2], AtZero(), 0, 3);
      p.outcome == Threw(QueuedPathMissing) && p.kept == [Q1] && p.items == items
  {
    var q := [Q1, X9, Q2];
    assert PassTo(items, alive, q, AtZero(), 0, 0) == Pass(items, [], [], Ok);
    assert [] + [Q1] == [Q1];
    assert PassTo(items, alive, q, AtZero(), 0, 1) == Pass(items, [Q1], [], Ok);
    assert PassTo(items, alive, q, AtZero(), 0, 2) == Pass(items, [Q1], [], Threw(QueuedPathMissing));
  }

  lemma OlderAloneMisleads()
    ensures !ReplaysTruth([Q1], AtZero(), 0, A, map["/P" := IntValue(2)])
  {
    var q := [Q1];
    assert Replay(q, AtZero(), 0, 0, A, "/P") == UNDEFINED;
    assert Replay(q, AtZero(), 0, 1, A, "/P") == IntValue(1);
    assert "/P" in map["/P" := IntValue(2)];
  }

  /** A's reply comes when only the older of its two changes is still queued. */
  lemma LossEnd(b: Reg)
    requires Ready(b, 0) && A !in b.items && b.queue == [Q1] && 1 in b.handlers && b.handlers[1] == GetNameOwner(A) && b.nextSerial == 4
    ensures var a := Next(Next(b, OwnerReply(1, OWNER)).reg, ItemsReply(4, "/P", 2, AtZero())).reg;
      A in a.items && ValuesOf(a.items[A]) != map["/P" := IntValue(2)]
  {
    var c, e := Next(b, OwnerReply(1, OWNER)).reg, ItemsReply(4, "/P", 2, AtZero());
    OwnerReplyStep(b, 1, A, OWNER);
    NextKeepsReady(b, OwnerReply(1, OWNER), 0);
    assert e.body.ups[0].path == "/P" && PrefixSlash("/P") == "/P";
    assert Tells(e.body.ups, 1, "/P");
    GoodItemsReply(c, 4, "/P", 2, AtZero(), A);
    FirstMappingIff(c, e, A, OWNER, map["/P" := IntValue(2)], 0);
    OlderAloneMisleads();
  }

  lemma LossMiddle(b: Reg)
    requires Poised(b)
    ensures var a := Next(b, ItemsReply(3, "/Y", 0, AtZero()));
      && a.outcome == Threw(QueuedPathMissing) && Ready(a.reg, 0) && a.reg.queue == [Q1] && A !in a.reg.items
      && a.reg.handlers == map[1 := GetNameOwner(A)] && a.reg.nextSerial == 4
  {
    LossStep(b);
    NextKeepsReady(b, ItemsReply(3, "/Y", 0, AtZero()), 0);
  }

  lemma Untold(b: Reg)
    requires b.items == map[] && b.queue == [Q1, X9, Q2] && 3 in b.handlers && b.handlers[3] == GetItems(B)
    ensures !TellsQueued(b, ItemsReply(3, "/Y", 0, AtZero()))
  {
    var e := ItemsReply(3, "/Y", 0, AtZero());
    PrefixedHasName(B);
    assert PrefixSlash(e.body.ups[0].path) == "/Y" != "/X";
    assert LeftOut(b.queue[1], e.clk(0 + 1), B, e.body.ups);
  }

  /**
   The reply of B leaves out a path B sent a change for. The pass throws there and loses the
   newer change of A, which is still unknown; the older one is replayed on top of A's reply.
   */
  lemma OtherServiceLosesChanges(vrmId: string, textOf: Variant -> string)
    ensures var r, es := Initial(vrmId, textOf), LossRun();
      TruthOver(es, OWNER, map[]) == PIs(2) && A in Run(r, es).items && ValuesOf(Run(r, es).items[A]) != PIs(2)
  {
    LossStates(vrmId, textOf);
    IsPoised(vrmId, textOf);
    LossFrom(Initial(vrmId, textOf), LossStart(), AwaitingB(vrmId, textOf, [Q1, X9, Q2]), LossRun());
  }

  /** B's reply is awaited, with a change of A queued before and after the one that reply leaves out. */
  predicate Poised(b: Reg) {
    && Ready(b, 0) && b.items == map[] && b.queue == [Q1, X9, Q2]
    && b.handlers == map[1 := GetNameOwner(A), 3 := GetItems(B)] && b.nextSerial == 4
    && b.instances == map[] && b.index == map[] && b.out == []
  }

  lemma IsPoised(vrmId: string, textOf: Variant -> string)
    ensures Poised(AwaitingB(vrmId, textOf, [Q1, X9, Q2]))
  {}

  /** The reply for B that leaves out /X. */
  lemma LossIsUntold(vrmId: string, textOf: Variant -> string)
    ensures !TellsQueued(Run(Initial(vrmId, textOf), LossStart()), ItemsReply(3, "/Y", 0, AtZero()))
  {
    LossStates(vrmId, textOf);
    Untold(AwaitingB(vrmId, textOf, [Q1, X9, Q2]));
  }

  lemma LossFrom(r: Reg, es: seq<Event>, b: Reg, all: seq<Event>)
    requires At(r, map[], es, b, PIs(2)) && Poised(b)
    requires all == es + [ItemsReply(3, "/Y", 0, AtZero())] + [OwnerReply(1, OWNER)] + [ItemsReply(4, "/P", 2, AtZero())]
    ensures TruthOver(all, OWNER, map[]) == PIs(2) && A in Run(r, all).items && ValuesOf(Run(r, all).items[A]) != PIs(2)
  {
    var e7, e8, e9 := ItemsReply(3, "/Y", 0, AtZero()), OwnerReply(1, OWNER), ItemsReply(4, "/P", 2, AtZero());
    LossMiddle(b);
    LossEnd(Next(b, e7).reg);
    ThreeReplies(r, es, b, PIs(2), e7, e8, e9);
  }

  lemma ThreeReplies(r: Reg, es: seq<Event>, b: Reg, now: Values, e7: Event, e8: Event, e9: Event)
    requires At(r, map[], es, b, now) && Timeless(e7) && Timeless(e8) && Timeless(e9) && e7.Reply? && e8.Reply? && e9.Reply?
    ensures At(r, map[], es + [e7] + [e8] + [e9], Next(Next(Next(b, e7).reg, e8).reg, e9).reg, now)
  {
    AtNext(r, map[], es, b, now, e7);
    AtNext(r, map[], es + [e7], Next(b, e7).reg, now, e8);
    AtNext(r, map[], es + [e7] + [e8], Next(Next(b, e7).reg, e8).reg, now, e9);
  }

  // ---------- one connection owns two services ----------

  function TheftStart(): seq<Event> {
    Begin() + [ItemsReply(2, "/P", 1, AtZero())]
  }

  /** After A is known, its connection acquires B, speaks, releases B, and speaks again. */
  function TheftRun(): seq<Event> {
    TheftStart() + [OwnerChange("", OWNER)] + [Says(OWNER, "/P", 2)] + [OwnerChange(OWNER, "")] + [Says(OWNER, "/P", 3)]
  }

  /** A keeps the value it had, and B is not known. */
  predicate Stale(r: Reg) {
    Settled(r) && A in r.items && B !in r.items && ValuesOf(r.items[A]) == map["/P" := IntValue(1)]
  }

  lemma ReplyMapsOnly(r: Reg, e: Event)
    requires MappingReply(r, e).Some?
    ensures Next(r, e).reg.items.Keys <= r.items.Keys + {MappingReply(r, e).value.0}
  {
    var r1 := Taken(r, e);
    var (t, ups) := MappingReply(r, e).value;
    MappingReplyIs(r, e);
    if MakeShort(t).Some? {
      MapServiceMapsOnly(Indexed(r1, t, InstanceFor(r1, t, ups)), t, InstanceFor(r1, t, ups), ups, Forces(r, e), e.clk, 0);
    }
  }

  lemma MapServiceMapsOnly(r: Reg, service: string, instance: string, ups: seq<Update>, force: bool, clk: Clock, off: nat)
    ensures MapService(r, service, instance, ups, force, clk, off).reg.items.Keys <= r.items.Keys + {service}
  {
    MapToKnows(r, service, instance, ups, force, |ups|);
    ProcessSettles(Mapped(r, service, instance, ups, force), clk, off);
  }

  lemma TheftStates(vrmId: string, textOf: Variant -> string) returns (b: Reg)
    ensures At(Initial(vrmId, textOf), PIs(1), TheftStart(), b, PIs(1)) && Stale(b)
  {
    BeginStates(vrmId, textOf, PIs(1));
    AtNext(Initial(vrmId, textOf), PIs(1), Begin(), Awaiting(vrmId, textOf, []), PIs(1), ItemsReply(2, "/P", 1, AtZero()));
    b := Next(Awaiting(vrmId, textOf, []), ItemsReply(2, "/P", 1, AtZero())).reg;
    TheftReply(Awaiting(vrmId, textOf, []));
  }

  lemma TheftReply(b: Reg)
    requires Ready(b, 0) && b.items == map[] && b.queue == [] && b.handlers == map[2 := GetItems(A)]
    ensures Stale(Next(b, ItemsReply(2, "/P", 1, AtZero())).reg)
  {
    var e := ItemsReply(2, "/P", 1, AtZero());
    GoodItemsReply(b, 2, "/P", 1, AtZero(), A);
    NextKeepsReady(b, e, 0);
    FirstMappingIff(b, e, A, OWNER, map["/P" := IntValue(1)], 0);
    QuietReplaysTruth(b.queue, AtZero(), 0, A, map["/P" := IntValue(1)]);
    ReplyMapsOnly(b, e);
  }

  /** A signal credited to B, or to nobody, leaves A as it is. */
  lemma SaidElsewhere(r: Reg, n: int)
    requires Stale(r) && NamedOwner(r, OWNER) in {B, OWNER}
    ensures Stale(Next(r, Says(OWNER, "/P", n)).reg) && Next(r, Says(OWNER, "/P", n)).reg.idToName == r.idToName
  {
    var e := Says(OWNER, "/P", n);
    SettledPassOnlyExpires(r.items, r.alive, r.queue, AtZero(), 0, |r.queue|);
    ProcessSettles(r, AtZero(), 0);
    NextOwners(r, e);
    StampedService(B, e.sig.ups, AtZero(), |r.queue|, 1);
  }

  /** Neither acquiring nor releasing B touches A's items. */
  function OwnerChange(oldOwner: string, newOwner: string): Event {
    Signal(NameOwnerChanged(B, oldOwner, newOwner, true, [], None), AtZero())
  }

  lemma OwnerChangesElsewhere(r: Reg, oldOwner: string, newOwner: string)
    requires Stale(r)
    ensures Stale(Next(r, OwnerChange(oldOwner, newOwner)).reg)
  {
    SettledPassOnlyExpires(r.items, r.alive, r.queue, AtZero(), 0, |r.queue|);
    ProcessSettles(r, AtZero(), 0);
    DispatchElsewhere(ProcessDelayed(r, AtZero(), 0).reg, oldOwner, newOwner, |r.queue|);
  }

  lemma DispatchElsewhere(r: Reg, oldOwner: string, newOwner: string, off: nat)
    requires Stale(r)
    ensures Stale(Dispatch(r, NameOwnerChanged(B, oldOwner, newOwner, true, [], None), AtZero(), off).reg)
  {}

  /** A's connection acquires B: its next signal is credited to B. */
  lemma Acquired(b: Reg, n: int)
    requires Stale(b)
    ensures Stale(Next(Next(b, OwnerChange("", OWNER)).reg, Says(OWNER, "/P", n)).reg)
  {
    var c := Next(b, OwnerChange("", OWNER)).reg;
    OwnerChangesElsewhere(b, "", OWNER);
    NextOwners(b, OwnerChange("", OWNER));
    SaidElsewhere(c, n);
  }

  /** It releases B: its next signal is credited to nobody. */
  lemma Released(b: Reg, n: int)
    requires Stale(b)
    ensures Stale(Next(Next(b, OwnerChange(OWNER, "")).reg, Says(OWNER, "/P", n)).reg)
  {
    var c := Next(b, OwnerChange(OWNER, "")).reg;
    OwnerChangesElsewhere(b, OWNER, "");
    NextOwners(b, OwnerChange(OWNER, ""));
    SaidElsewhere(c, n);
  }

  lemma ChangeAndSay(r: Reg, truth: Values, es: seq<Event>, b: Reg, now: Values, e: Event, n: int)
    requires At(r, truth, es, b, now) && Timeless(e) && e.Signal? && !e.sig.Changed? && (now == map[] || exists k :: now == PIs(k))
    ensures At(r, truth, es + [e] + [Says(OWNER, "/P", n)], Next(Next(b, e).reg, Says(OWNER, "/P", n)).reg, PIs(n))
  {
    AtNext(r, truth, es, b, now, e);
    AtNext(r, truth, es + [e], Next(b, e).reg, now, Says(OWNER, "/P", n));
    ToldOne(now, "/P", n);
  }

  /**
   The table has one service for each connection. When A's connection acquires B, A's signals
   are credited to B; when it releases B, they are credited to nobody. A's stored value stays
   what it was, whatever A says.
   */
  lemma SecondNameTakesSignals(vrmId: string, textOf: Variant -> string)
    ensures var r, es := Initial(vrmId, textOf), TheftRun();
      && TruthOver(es, OWNER, PIs(1)) == PIs(3)
      && A in Run(r, es).items && ValuesOf(Run(r, es).items[A]) == PIs(1)
  {
    var r, es := Initial(vrmId, textOf), TheftStart();
    var b := TheftStates(vrmId, textOf);
    Acquired(b, 2);
    ChangeAndSay(r, PIs(1), es, b, PIs(1), OwnerChange("", OWNER), 2);
    var c := Next(Next(b, OwnerChange("", OWNER)).reg, Says(OWNER, "/P", 2)).reg;
    var mid := es + [OwnerChange("", OWNER)] + [Says(OWNER, "/P", 2)];
    Released(c, 3);
    ChangeAndSay(r, PIs(1), mid, c, PIs(2), OwnerChange(OWNER, ""), 3);
  }
}
