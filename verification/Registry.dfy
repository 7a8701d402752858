/**
 The service registry and its delayed changes (State in src/state.cpp), driven by D-Bus
 signals and replies (src/dbus_functions.cpp).

 Everything here is a function from one registry to the next: it says what each operation
 does. RegistryState.dfy has the object whose methods do it in place.

 Inputs that the code takes from outside are arguments: successive readings of the steady
 clock (in nanoseconds), the order in which a hash map is iterated, whether the bus accepts a
 method call, and the text of doubles, arrays and dictionaries.
 */
module Registry {
  import opened Durations
  import opened Wrappers
  import opened Text
  import opened ShortNames
  import opened Variants
  import opened Items

  /** The i-th reading of the steady clock during one step. */
  type Clock = nat -> nat

  type Store = map<string, map<string, Item>>

  /** One parsed entry of a signal or reply. */
  datatype Update = Update(path: string, value: ValueMinMax)

  /** A change that arrived before its service was known. */
  datatype Queued = Queued(service: string, path: string, value: ValueMinMax, createdAt: nat)

  datatype Handler =
    | ListNames
    | GetNameOwner(service: string)
    | GetItems(service: string)
    | GetValue(service: string, prefix: string, force: bool)
    | ReadItem(service: string, path: string)

  datatype Error =
    | ProgrammingError | ReadOnly | BadName | BadDictKey | QueuedPathMissing
    | ItemGone | NotFound | CallRefused | BadMessage

  datatype Outcome = Ok | Threw(error: Error)

  datatype Reg = Reg(
    vrmId: string,
    textOf: Variant -> string,
    alive: bool,
    idToName: map<string, string>,
    index: map<string, string>,
    instances: map<string, string>,
    items: Store,
    queue: seq<Queued>,
    handlers: map<nat, Handler>,
    nextSerial: nat,
    out: seq<Publication>)

  datatype Step = Step(reg: Reg, outcome: Outcome)

  function Initial(vrmId: string, textOf: Variant -> string): Reg {
    Reg(vrmId, textOf, false, map[], map[], map[], map[], [], map[], 1, [])
  }

  // ---------- the delayed changes ----------

  const AGE_LIMIT: nat := 30

  /** Age in whole seconds. */
  function Age(e: Queued, now: nat): nat {
    if now < e.createdAt then 0 else (now - e.createdAt) / SECOND
  }

  predicate Expired(e: Queued, now: nat) {
    Age(e, now) > AGE_LIMIT
  }

  datatype Verdict = Expire | Retain | Apply | Missing

  function VerdictOf(items: Store, e: Queued, now: nat): Verdict {
    if Expired(e, now) then Expire
    else if e.service !in items then Retain
    else if e.path !in items[e.service] then Missing
    else Apply
  }

  datatype Pass = Pass(items: Store, kept: seq<Queued>, out: seq<Publication>, outcome: Outcome)

  function Put(items: Store, service: string, path: string, i: Item): Store {
    items[service := (if service in items then items[service] else map[])[path := i]]
  }

  function Thrown(threw: bool): Outcome {
    if threw then Threw(BadDictKey) else Ok
  }

  function PassStep(p: Pass, alive: bool, e: Queued, now: nat): Pass {
    match VerdictOf(p.items, e, now)
    case Expire => p
    case Retain => p.(kept := p.kept + [e])
    case Missing => p.(outcome := Threw(QueuedPathMissing))
    case Apply =>
      var i := SetValue(p.items[e.service][e.path], e.value);
      if alive then
        var r := Publish(i, false);
        Pass(Put(p.items, e.service, e.path, r.item), p.kept, p.out + r.out, Thrown(r.threw))
      else
        p.(items := Put(p.items, e.service, e.path, i))
  }

  /** The first n queued changes of one processing pass; reading off + k of the clock judges entry k. */
  function PassTo(items: Store, alive: bool, q: seq<Queued>, clk: Clock, off: nat, n: nat): Pass
    requires n <= |q|
    decreases n
  {
    if n == 0 then Pass(items, [], [], Ok)
    else PassOne(PassTo(items, alive, q, clk, off, n - 1), alive, q[n - 1], clk(off + n - 1))
  }

  /** An exception ends the pass. */
  function PassOne(p: Pass, alive: bool, e: Queued, now: nat): Pass {
    if p.outcome != Ok then p else PassStep(p, alive, e, now)
  }

  function ProcessDelayed(r: Reg, clk: Clock, off: nat): Step {
    var p := PassTo(r.items, r.alive, r.queue, clk, off, |r.queue|);
    Step(r.(items := p.items, queue := p.kept, out := r.out + p.out), p.outcome)
  }

  // ---------- mapping items ----------

  function Stamped(service: string, ups: seq<Update>, clk: Clock, off: nat, n: nat): seq<Queued>
    requires n <= |ups|
    decreases n
  {
    if n == 0 then []
    else Stamped(service, ups, clk, off, n - 1)
         + [Queued(service, PrefixSlash(ups[n - 1].path), ups[n - 1].value, clk(off + n - 1))]
  }

  function FindUpdate(ups: seq<Update>, path: string): Option<Variant> {
    if ups == [] then None
    else if PrefixSlash(ups[0].path) == path then Some(ups[0].value.value)
    else FindUpdate(ups[1..], path)
  }

  /** The text of a value; `textOf` gives that of doubles, arrays and dictionaries. A byte is written as a character. */
  function TextOf(v: Variant, textOf: Variant -> string): string {
    match v
    case Unknown => "unknown type"
    case Str(s) => s
    case Byte(n) => if 0 <= n < 256 then [n as char] else textOf(v)
    case Boolean(bits) => IntText(bits)
    case Double(_) => textOf(v)
    case NullArray(_) => textOf(v)
    case Array(_, _) => textOf(v)
    case Dict(_, _) => textOf(v)
    case _ => IntText(v.n)
  }

  /** The device instance if there is one, else the identifier, else 0. */
  function InstanceOf(ups: seq<Update>, textOf: Variant -> string): string {
    match FindUpdate(ups, "/DeviceInstance")
    case Some(v) => IntText(AsInt32(v))
    case None =>
      match FindUpdate(ups, "/Identifier")
      case Some(v) => TextOf(v, textOf)
      case None => "0"
  }

  datatype Mapping = Mapping(items: Store, out: seq<Publication>, outcome: Outcome)

  function ErrorOf(e: ItemError): Error {
    match e
    case BadServiceName => BadName
    case ReadOnlyString => ReadOnly
    case Unrenderable => BadDictKey
  }

  function StoredOrEmpty(items: Store, service: string, path: string): Item {
    if service in items && path in items[service] then items[service][path] else EMPTY_ITEM
  }

  function MapStep(m: Mapping, r: Reg, service: string, instance: string, u: Update, force: bool): Mapping {
    match SetMappingDetails(NewItem(u.path, u.value), r.vrmId, service, instance)
    case Failure(e) => m.(outcome := Threw(ErrorOf(e)))
    case Success(mapped) =>
      match Assign(StoredOrEmpty(m.items, service, mapped.path), mapped)
      case Failure(e) => m.(outcome := Threw(ErrorOf(e)))
      case Success(i) =>
        if r.alive || Retained(i) || force then
          var p := Publish(i, false);
          Mapping(Put(m.items, service, mapped.path, p.item), m.out + p.out, Thrown(p.threw))
        else
          m.(items := Put(m.items, service, mapped.path, i))
  }

  function MapTo(r: Reg, service: string, instance: string, ups: seq<Update>, force: bool, n: nat): Mapping
    requires n <= |ups|
    decreases n
  {
    if n == 0 then Mapping(r.items, [], Ok)
    else MapOne(MapTo(r, service, instance, ups, force, n - 1), r, service, instance, ups[n - 1], force)
  }

  /** An exception ends the mapping. */
  function MapOne(m: Mapping, r: Reg, service: string, instance: string, u: Update, force: bool): Mapping {
    if m.outcome != Ok then m else MapStep(m, r, service, instance, u, force)
  }

  /** `known` is set for signals, which do not carry the device instance. */
  function AddMapping(r: Reg, service: string, ups: seq<Update>, known: bool, force: bool, clk: Clock, off: nat): Step {
    if known && service !in r.items then
      Step(r.(queue := r.queue + Stamped(service, ups, clk, off, |ups|)), Ok)
    else if known && service !in r.instances then
      Step(r, Threw(ProgrammingError))
    else
      var instance := if service in r.instances then r.instances[service] else InstanceOf(ups, r.textOf);
      var r1 := r.(instances := r.instances[service := instance]);
      match NameOf(service, instance)
      case None => Step(r1, Threw(BadName))
      case Some(name) => MapService(r1.(index := r1.index[name.total := service]), service, instance, ups, force, clk, off)
  }

  function MapService(r: Reg, service: string, instance: string, ups: seq<Update>, force: bool, clk: Clock, off: nat): Step {
    var m := MapTo(r, service, instance, ups, force, |ups|);
    var r1 := r.(items := m.items, out := r.out + m.out);
    if m.outcome != Ok then Step(r1, m.outcome) else ProcessDelayed(r1, clk, off)
  }

  // ---------- removal ----------

  function NullPublications(items: map<string, Item>, order: seq<string>): seq<Publication> {
    if order == [] then []
    else NullPublications(items, order[..|order| - 1])
         + (if order[|order| - 1] in items then Publish(items[order[|order| - 1]], true).out else [])
  }

  /** The index without any entry for the service. */
  function Purged(index: map<string, string>, service: string): map<string, string> {
    map k | k in index && index[k] != service :: index[k]
  }

  /** The table has the service under this unique name. */
  predicate OwnedBy(idToName: map<string, string>, owner: string, service: string) {
    owner in idToName && idToName[owner] == service
  }

  /** `leftover` is the one owner entry that removal still finds for the service, if any. */
  function RemoveService(r: Reg, service: string, order: seq<string>, leftover: Option<string>): Reg {
    r.(items := r.items - {service},
       instances := r.instances - {service},
       index := Purged(r.index, service),
       idToName := if leftover.Some? && OwnedBy(r.idToName, leftover.value, service) then r.idToName - {leftover.value} else r.idToName,
       out := r.out + (if service in r.items then NullPublications(r.items[service], order) else []))
  }

  // ---------- lookup by topic ----------

  datatype FindError = TooFewParts | OtherPortal | NotShort | NoService | NoItems | NoItem(service: string, path: string)

  function FindByTopic(r: Reg, topic: string): Result<Item, FindError> {
    var parts := Split(topic, '/', 4, true);
    if |parts| < 2 then Failure(TooFewParts)
    else if parts[1] != r.vrmId then Failure(OtherPortal)
    else if |parts| < 5 then Failure(TooFewParts)
    else
      var path := "/" + parts[4];
      match NameOf(parts[2], parts[3])
      case None => Failure(NotShort)
      case Some(name) =>
        if name.total !in r.index then Failure(NoService)
        else
          var service := r.index[name.total];
          if service !in r.items then Failure(NoItems)
          else if path !in r.items[service] then Failure(NoItem(service, path))
          else Success(r.items[service][path])
  }

  // ---------- the driver ----------

  const UNKNOWN_METHOD := "org.freedesktop.DBus.Error.UnknownMethod"

  datatype SignalBody =
    | NameOwnerChanged(name: string, oldOwner: string, newOwner: string, accepted: bool, order: seq<string>, leftover: Option<string>)
    | Changed(sender: string, ups: seq<Update>)
    | Unreadable
    | Other

  datatype ReplyBody =
    | ErrorReply(name: string)
    | Names(names: seq<string>)
    | Owner(owner: string)
    | ItemsBody(ups: seq<Update>)
    | Tree(vals: seq<(string, Variant)>)
    | Value(v: Variant)

  datatype Event =
    | Signal(sig: SignalBody, clk: Clock)
    | Reply(serial: nat, body: ReplyBody, calls: nat, clk: Clock)
    | Scan(call: bool)
    | ReadRequest(topic: string, call: bool)
    | AliveChanged(alive: bool)
    | PublishAll(order: seq<(string, string)>)

  function Call(r: Reg, h: Handler, accepted: bool): Step {
    if accepted then Step(r.(handlers := r.handlers[r.nextSerial := h], nextSerial := r.nextSerial + 1), Ok)
    else Step(r, Threw(CallRefused))
  }

  /** A sender's unique name replaced by the service name it is known to own. */
  function NamedOwner(r: Reg, sender: string): string {
    if !StartsWith(sender, "com.victronenergy") && sender in r.idToName then r.idToName[sender] else sender
  }

  function Dispatch(r: Reg, sig: SignalBody, clk: Clock, off: nat): Step {
    match sig
    case NameOwnerChanged(name, oldOwner, newOwner, accepted, order, leftover) =>
      if !StartsWith(name, VICTRON_PREFIX) then Step(r, Ok)
      else if newOwner != "" then Call(r.(idToName := r.idToName[newOwner := name]), GetNameOwner(name), accepted)
      else if oldOwner != "" then Step(RemoveService(r.(idToName := r.idToName - {oldOwner}), name, order, leftover), Ok)
      else Step(r, Ok)
    case Changed(sender, ups) =>
      var service := NamedOwner(r, sender);
      if StartsWith(service, VICTRON_PREFIX) then AddMapping(r, service, ups, true, false, clk, off) else Step(r, Ok)
    case Unreadable => Step(r, Threw(BadMessage))
    case Other => Step(r, Ok)
  }

  /** Every signal first works off the delayed changes; an exception there drops the signal. */
  function OnSignal(r: Reg, sig: SignalBody, clk: Clock): Step {
    var s := ProcessDelayed(r, clk, 0);
    if s.outcome != Ok then s else Dispatch(s.reg, sig, clk, |r.queue|)
  }

  function ScanAll(r: Reg, names: seq<string>, calls: nat): Step
    decreases |names|
  {
    if names == [] then Step(r, Ok)
    else if !StartsWith(names[0], "com.victronenergy") then ScanAll(r, names[1..], calls)
    else
      var s := Call(r, GetNameOwner(names[0]), calls > 0);
      if s.outcome != Ok then s else ScanAll(s.reg, names[1..], calls - 1)
  }

  /** The entries of a GetValue reply below a prefix. */
  function TreeUpdates(prefix: string, vals: seq<(string, Variant)>): seq<Update> {
    seq(|vals|, i requires 0 <= i < |vals| =>
      Update(Collapse(prefix + "/" + vals[i].0), ValueMinMax(vals[i].1, Unknown, Unknown)))
  }

  function OnFreshValue(r: Reg, service: string, path: string, v: Variant): Step {
    if service !in r.items || path !in r.items[service] then Step(r, Threw(ItemGone))
    else
      var p := Publish(SetValue(r.items[service][path], ValueMinMax(v, Unknown, Unknown)), false);
      Step(r.(items := Put(r.items, service, path, p.item), out := r.out + p.out), Thrown(p.threw))
  }

  function OnReply(r: Reg, h: Handler, body: ReplyBody, calls: nat, clk: Clock): Step {
    match (h, body)
    case (ListNames, Names(names)) => ScanAll(r, names, calls)
    case (ListNames, _) => Step(r, Threw(BadMessage))
    case (GetItems(service), ErrorReply(name)) =>
      if name == UNKNOWN_METHOD then Call(r, GetValue(service, "/", false), calls > 0) else Step(r, Ok)
    case (_, ErrorReply(_)) => Step(r, Ok)
    case (GetNameOwner(service), Owner(owner)) =>
      Call(r.(idToName := r.idToName[owner := service]), GetItems(service), calls > 0)
    case (GetItems(service), ItemsBody(ups)) => AddMapping(r, service, ups, false, false, clk, 0)
    case (GetValue(service, prefix, force), Tree(vals)) =>
      AddMapping(r, service, TreeUpdates(prefix, vals), false, force, clk, 0)
    case (ReadItem(service, path), Value(v)) => OnFreshValue(r, service, path, v)
    case _ => Step(r, Threw(BadMessage))
  }

  const GUI_CUSTOMIZATIONS := "GuiCustomizations"

  /**
   The call a read request makes. Without one it throws, or it is for the customizations, which
   another part of the plugin publishes and the registry does not see.
   */
  function ReadCall(r: Reg, topic: string): Result<Handler, Outcome> {
    var subtopics := Split(topic, '/', |topic|, true);
    if |subtopics| < 3 then Failure(Threw(NotFound))
    else if subtopics[2] == GUI_CUSTOMIZATIONS then Failure(Ok)
    else
      match FindByTopic(r, topic)
      case Success(i) => Success(ReadItem(i.serviceName, i.path))
      case Failure(NoItem(service, path)) => Success(GetValue(service, path, true))
      case Failure(_) => Failure(Threw(NotFound))
  }

  function OnReadRequest(r: Reg, topic: string, accepted: bool): Step {
    match ReadCall(r, topic)
    case Success(h) => Call(r, h, accepted)
    case Failure(o) => Step(r, o)
  }

  /** Publishes a stored item, unless an earlier one threw. */
  function PublishOne(s: Step, service: string, path: string): Step {
    if s.outcome != Ok || service !in s.reg.items || path !in s.reg.items[service] then s
    else
      var p := Publish(s.reg.items[service][path], false);
      Step(s.reg.(items := Put(s.reg.items, service, path, p.item), out := s.reg.out + p.out), Thrown(p.threw))
  }

  function PublishStored(r: Reg, order: seq<(string, string)>, n: nat): Step
    requires n <= |order|
    decreases n
  {
    if n == 0 then Step(r, Ok) else PublishOne(PublishStored(r, order, n - 1), order[n - 1].0, order[n - 1].1)
  }

  function Next(r: Reg, e: Event): Step {
    match e
    case Signal(sig, clk) => OnSignal(r, sig, clk)
    case Reply(serial, body, calls, clk) =>
      if serial in r.handlers then OnReply(r.(handlers := r.handlers - {serial}), r.handlers[serial], body, calls, clk)
      else Step(r, Ok)
    case Scan(call) => Call(r, ListNames, call)
    case ReadRequest(topic, call) => OnReadRequest(r, topic, call)
    case AliveChanged(alive) => Step(r.(alive := alive), Ok)
    case PublishAll(order) => PublishStored(r, order, |order|)
  }

  /** The registry after a run of events. */
  function Run(r: Reg, es: seq<Event>): Reg {
    if es == [] then r else Next(Run(r, es[..|es| - 1]), es[|es| - 1]).reg
  }
}
