# A verified model of dbus-flashmq

dbus-flashmq is a FlashMQ plugin that mirrors the D-Bus services of a Venus device into a
registry of items and publishes them over MQTT. This project models the parts of it that hold
state or do arithmetic, and proves what they keep over whole runs.

| file | models |
|---|---|
| `Registry.dfy` | the registry as a step machine: signals, replies, reads, removal, republishing; the delayed changes |
| `RegistryInvariant.dfy` | index consistency, write-once identity, genuine publications in every reachable state |
| `DelayedChanges.dfy` | one pass over the queue of delayed changes: what is dropped, kept, applied, lost |
| `Calls.dfy`, `Announcements.dfy` | the calls the registry makes and the replies it waits for; which messages a read, a removal or a reply sends |
| `Instances.dfy` | which instance a service gets, and that its topics carry it |
| `Renderings.dfy` | which values have a JSON form, and that nothing throws while all have |
| `Owners.dfy` | whom a signal is credited to: the table from connections to services |
| `Mirror.dfy`, `MirrorRuns.dfy`, `MirrorLimits.dfy` | agreement of the mirror with what a service says on its own connection: one pass, whole runs, exactly when |
| `MirrorFailures.dfy` | three runs from the empty registry in which the mirror does not agree |
| `TopicRoundTrip.dfy` | resolving the topic of a stored item finds that item |
| `Published.dfy` | what MQTT subscribers were last told agrees with the stored items, and with the service, while the system is alive |
| `RegistryState.dfy` | the `State` object whose methods do all that in place |
| `Items.dfy`, `Documents.dfy` | an item: write-once strings, partial updates, the cached rendering; the object that holds it; what is in a payload |
| `Variants.dfy`, `Signatures.dfy` | values from JSON and back, their D-Bus signatures, marshalling, and reading back what was marshalled |
| `Tasks.dfy`, `QueueRuns.dfy` | the queue of delayed tasks, with callbacks that use the queue while it runs them; whole runs of it |
| `Timers.dfy`, `TimerBatches.dfy`, `TimerSlots.dfy`, `TimerFrames.dfy` | the machines that run on that queue, and their common invariant |
| `KeepAlive.dfy`, `Liveness.dfy`, `Quiescence.dfy` | keep-alive and heartbeat: how long they last at most and at least, and how they come to rest |
| `RateLimit.dfy`, `Logins.dfy` | token counters; exactly what a login costs |
| `Bridges.dfy`, `BridgeReports.dfy` | registration and debounced bridge states; what is written about the bridges |
| `TimerState.dfy` | the object whose methods are those machines, over the task queue object |
| `Networks.dfy` | network prefixes: which network a text is, mask construction and match |
| `Chunks.dfy` | customization files cut into chunks and read back |
| `Text.dfy`, `ShortNames.dfy`, `Wrappers.dfy`, `Durations.dfy` | splitting, joining, path canonicalisation; short service names; Option and Result; units of time |

Where the source updates an object in place the model has two layers: a function from one state
to the next, about which the theorems are proved, and a class whose methods are proved to
compute that function (`RegistryState.State`, `TimerState.Machines`, `Tasks.QueuedTasks`,
`Items.LiveItem`, `Networks.Network`).

Everything from outside is an argument: readings of the steady clock, the order in which a hash
map is iterated, whether the bus accepts a call, the content of messages, whether a password is
right, what the library makes of an address, what is on the disk. Serials of D-Bus calls are
handed out in order and are unique. Publishing appends to a trace.

## Where the code and its promises part

Each of these is a lemma with the input that shows it, next to the theorem that says when the
promise does hold.

- The documentation says full republishes happen at most three times per second. The code allows three between two ticks. `RateLimit.BetweenTicks` counts them exactly, `RateLimit.AroundATick` says when there are more than three around a tick, `RateLimit.SixAroundATick` is a run from plugin start with six at one reading of the clock, and `RateLimit.LimitedByTheClock` bounds them by 3 (w + 2) in w whole seconds.
- Each queued change is judged with a clock reading of its own. When the age limit falls between two readings of the pass that replays a service's changes, an older one can be replayed and a newer one dropped (`MirrorFailures.OlderReplayedNewerDropped`). `MirrorLimits.MirrorAgreesIff` says exactly when the mirror agrees after that pass; no other pass matters.
- A reply that makes a service known and leaves out a path for which a change is queued makes the pass throw, and the changes it had not yet looked at are lost, also those of other services (`DelayedChanges.ThrowingPassLosesTheRest`, `MirrorFailures.OtherServiceLosesChanges`). `MirrorLimits.DisruptsIff` says exactly which events throw so.
- The table of owners has one service for each connection. When a connection that owns one service acquires another, the signals of the first are credited to the second, and when it releases that, to nobody (`MirrorFailures.SecondNameTakesSignals`). `Owners.StaysOwnedIff` says exactly which events end the attribution.
- An empty GetItems reply leaves the service unknown (`MirrorLimits.EmptyReplyMapsNothing`).
- A refused registration call leaves the pending id set for good (`Bridges.RefusedRegistrationIsStuck`); the id is exact if and only if no such call was refused (`Bridges.RegistrationIsSingleFlight`).
- A refused write leaves the bridge states unwritten with no write pending; over whole runs that is so if and only if a needed write was refused since the last request (`Bridges.UnwrittenIffRefused`). A changed portal mode alone is not written (`Bridges.ModeAloneIsNotWritten`).
- An array whose inner arrays differ in type is accepted and announced with a wrong signature (`Signatures.MixedInnerArraysAreAnnouncedWrongly`); it is announced rightly if and only if it is uniform (`Signatures.MarshalledAsAnnouncedIffUniform`).
- A JSON integer of 2^63 or more is accepted and comes back negative (`Variants.OversizedIntegerWraps`, `Variants.NormalOnlyEmptiesIffFits`).
- With anything after a second `/`, the mask of an IPv6 network is not an error but is ignored, and the network is one address (`Networks.SecondSlashIgnoresMask`, exactly when: `Networks.MaskIgnoredIff` and `Networks.ThreePartsIff`).
- Task ids wrap at 2^32; an add keeps the queue's order of insertion exactly while they do not (`Tasks.AddKeepsValid`).

## Model

| member | source | states |
|---|---|---|
| MirrorRuns.MirrorAgrees | src/state.cpp:79-147 | Mirror agreement over whole runs, for what a service says on its own connection, whoever the plugin credits it to: a service new to the registry appears under a connection, with any values; its replies report what it then has, names and clock readings are as on the bus, every value has a JSON form, replies that make a service known tell every unexpired queued path, and no change of the service crosses the age limit while it is replayed. Then after every event of every run the connection is known as its own, and if the service is known its stored values are exactly its own. |
| MirrorLimits.MirrorAgreesFromReplyOn | src/state.cpp:834-861 | After the GetItems reply and after every later event of such a run the service is known and every stored value equals the service's value at that point of its stream. |
| MirrorLimits.MirrorAgreesIff | src/state.cpp:218-251 | Without the condition on the age limit: the reply that makes the service known mirrors its values if and only if what has not expired of its queued changes, each judged when the pass comes to it, agrees with them; if so, the mirror agrees after every later event too. |
| MirrorLimits.DisappearanceMakesNew | src/state.cpp:887-934 | A known service that disappears is new to the registry again, so that another life of it can begin. |
| MirrorRuns.NextMirrors | src/dbus_functions.cpp:203-311 | One event of any kind, of this or another service, keeps the mirror in agreement, the connection attributed and the registry ready. |
| MirrorRuns.MapServiceThrowsIff | src/state.cpp:112-118 | Mapping a service throws the missing-path exception if and only if it leaves out an unexpired queued path, and no other exception while values have a JSON form. |
| Mirror.PassAgreesIff | src/state.cpp:218-251 | One pass keeps a known service's values if and only if, for every path, what its unexpired changes say agrees with them in each defined component; entries of other services do not matter. |
| Mirror.UncrossedReplaysTruth | src/state.cpp:228-233 | When none of the service's changes crosses the age limit during the pass, replaying what expiry left of them changes nothing. |
| Mirror.PassKeepsUnknown | src/state.cpp:235-240 | Whatever a pass drops of a still unknown service has expired for every later pass too, so it needs no condition on expiry. |
| Mirror.SpeakingEchoes | src/state.cpp:91-103 | After queueing what a service has just said, what its unexpired changes say at any later time is still what it last said. |
| MirrorLimits.DisruptsIff | src/state.cpp:201-216 | While values have a JSON form, an event throws the missing-path exception if and only if it is a reply that makes a service known and leaves out an unexpired queued path of it; whether the system is alive makes no difference. |
| Renderings.NextRenders | src/types.cpp:301-307 | While everything said has a JSON form, so has everything stored and queued, and no event throws on a rendering. |
| Owners.StaysOwnedIff | src/state.cpp:505-534 | A connection stays known as the service's after an event if and only if the event does not give it to another service, disown it, or remove the service and find it left over. |
| Owners.NextOwns | src/dbus_functions.cpp:251-262 | From the ownership change or the GetNameOwner reply on, until an event that names the connection or the service otherwise, the connection and no other is known as the service's. |
| Owners.CreditedIffSpoken | src/state.cpp:516-524 | Then a signal is credited to the service if and only if its own connection sent it. |
| MirrorLimits.KnownStaysKnown | src/dbus_functions.cpp:257-262 | Only the disappearance of a service makes it unknown again. |
| MirrorFailures.OlderReplayedNewerDropped | src/state.cpp:995-1001 | A run from the empty registry, good in all else, in which only the older of two changes is replayed, because the age is read anew for every entry. |
| MirrorFailures.OtherServiceLosesChanges | src/state.cpp:223-245 | A run from the empty registry in which another service's reply leaves a queued path out, the newer change of a service is lost, and its mirror falls back to the older one. |
| MirrorFailures.SecondNameTakesSignals | src/state.cpp:505-509 | A run from the empty registry in which a connection owns two services, and what the first says never reaches its mirror. |
| MirrorLimits.EmptyReplyMapsNothing | src/state.cpp:112-118 | An empty reply leaves the service unknown. |
| Published.SubscribersSeeTheService | src/state.cpp:79-147 | End to end: everything was published, then a service appears and the system stays alive in a run as for mirror agreement; for every item of the service that is ever sent, the last message sent is on its topic and its payload is the document of the values the service itself has: a value, and a minimum and a maximum exactly when it has them, masked and retained by the names. |
| Published.EveryRunKeepsSecrets | src/types.cpp:296-311 | In every run from the empty registry nothing comes from an item that is never sent, only the serial number is retained, every payload is the document of its source's values, and the text of the pin code and of the access point password is masked. |
| Published.SubscribersAreCurrent | src/state.cpp:470-480 | From a complete publication on, in every run of a living system, the last message for every stored item that is not blocked is its present rendering, on its topic. |
| Published.StaysShown | src/state.cpp:145-146 | As long as the system is alive, every run keeps what has been shown current, through mapping, replay, reads, removal and republishing. |
| Published.PublishAllShows | src/state.cpp:470-480 | Publishing everything throws if and only if an unblocked item has no rendering; else it shows every item, whatever was hidden before. |
| Published.NextShows | src/dbus_functions.cpp:159-311 | Every single event of a living system shows what it changes. |
| Published.AsleepStaysCurrentIff | src/state.cpp:245-249 | While asleep, a replayed change leaves the last message current if and only if it does not change the rendering. |
| RegistryInvariant.EveryRunIsSafe | src/state.cpp:356-372 | In every run from the empty registry each index entry maps the short name of a service with a stored instance to it, every service with items has an instance, every item carries its own service, path and topic and a coherent cache, everything published is genuine, and neither the "programming error" nor the read-only string exception is ever thrown. |
| RegistryInvariant.NextKeeps | src/dbus_functions.cpp:159-311 | Every event keeps that invariant from any state that has it. |
| RegistryInvariant.MappedItemOk | src/state.cpp:127-131 | Mapping an entry of a known instance never throws, gives an item identified by its place, and merges its values. |
| RegistryInvariant.RemovalLeavesNoTrace | src/state.cpp:903-918 | Removal leaves no trace of a service in the three maps and changes nothing else there; a service has at most one index entry, so stopping at the first loses nothing. |
| RegistryInvariant.RemovalUnpublishes | src/state.cpp:889-901 | Every item of a removed service that is neither blocked nor retained gets an empty payload on its topic. |
| Calls.AppearedServiceIsMapped | src/state.cpp:832-885 | A service that appears gets known: its owner is asked for; whatever happens until that reply comes, its items are asked for then; whatever happens until those come, each of them is stored then, unless the reply throws. |
| Calls.ReadStoresAndSends | src/state.cpp:543-585 | From a read request on the topic of a stored item to the reply, whatever happens between: the reply throws if and only if the item is gone or has no JSON form; the value read replaces the old one if defined, minimum, maximum and all other items stay, and exactly one message shows the item, alive or asleep, unless it is never sent. |
| Calls.ReadAsksTheService | src/state.cpp:543-585 | A read request on a topic of a stored service asks that service, for the item, or with forced publishing for the path it does not have yet. |
| Calls.ReadAsks | src/state.cpp:153-194 | What any read request for a place makes of it, by the index: a call, nothing for the customizations, or an exception. |
| Calls.StillAwaited | src/dbus_functions.cpp:181-200 | A reply that has not come is still awaited after any run, with the same handler. |
| Calls.ScanAsksAll | src/state.cpp:792-809 | The list of names makes the registry ask for the owner of every Victron service in it, in order, and of no other, until the bus refuses a call. |
| Calls.UnknownMethodAsks | src/state.cpp:840-853 | A service that does not know GetItems is asked for its tree of values; any other error is the end of it. |
| Calls.TreeUpdateIs | src/types.cpp:213-239 | An entry of a GetValue reply gets the path that the item has in a GetItems reply, and its value. |
| Calls.OtherRepliesEnd | src/state.cpp:811-885 | A reply of the wrong kind throws and changes nothing, an error ends the call. |
| Calls.ForeignSignalIsIgnored | src/dbus_functions.cpp:264-289 | A signal that is not from a Victron service changes nothing but that delayed changes expire. |
| Calls.DisappearanceSends | src/state.cpp:887-901 | The disappearance of a service removes it and sends one empty payload for each of its items that is neither blocked nor retained, in order, and nothing else. |
| Calls.AsleepReplyEventSends | src/state.cpp:145-146 | While the system is asleep a reply with items sends exactly one message for each retained one, or for each if a read of an unknown path forces it, blocked ones apart; each shows the values mapped. |
| Calls.EveryRunHasSerials | src/state.cpp:442-446 | In every run serials are handed out in order, the portal id stays, and the system is alive if and only if it was last said to be. |
| Announcements.FreshValueIsStoredAndSent | src/state.cpp:556-576 | The reply to a read, from any state with the invariant. |
| Announcements.PublishIsSeen | src/types.cpp:331-354 | Publishing a stored item throws if and only if it is sent at all and has no JSON form, and otherwise sends one message that shows its values. |
| Announcements.LivingPassSends | src/state.cpp:245-249 | While the system lives, a pass that does not throw sends exactly one message for each change it applies, in order, blocked items apart. |
| Announcements.PublishAllSends | src/state.cpp:470-480 | Publishing everything, unless it throws, sends exactly one message for each stored item in turn, blocked ones apart. |
| Instances.TopicsNameTheDevice | src/utils.cpp:82-107 | After the first reply for a service, whose first /DeviceInstance says the integer n, in every run that does not remove the service every item of it is published under N, the portal id, its type, n in decimal, and its path. |
| Instances.TopicsCarryTheInstance | src/state.cpp:356-372 | So it is for whatever instance the first reply gives. |
| Instances.DeviceInstanceIs | src/utils.cpp:86-94 | The first /DeviceInstance gives the decimal text of its value as a signed 32-bit integer, negative ones included; a double loses its fraction, any other value gives 0. |
| Instances.IdentifierIs | src/utils.cpp:96-104 | Without one the first /Identifier gives its text. |
| Instances.NoInstanceIsZero | src/utils.cpp:106 | With neither the instance is 0. |
| Instances.BadNamesAreRefused | src/shortservicename.cpp:9-28 | A reply for a name that is neither a Victron name nor short throws and stores and sends nothing. |
| TopicRoundTrip.EveryTopicResolves | src/state.cpp:153-194 | After every run in which live services keep distinct short names, resolving the topic of any stored item whose names hold no slash, with any first part in place of N, gives exactly that item. |
| TopicRoundTrip.ResolvesIffIndexed | src/state.cpp:170-175 | In any reachable state an item is found under its topic if and only if the index maps its short name to its service. |
| TopicRoundTrip.FoundIsNamed | src/state.cpp:153-194 | What is found under a topic is stored, under the portal id, the index key and the path that the topic names. |
| TopicRoundTrip.TopicParts | src/types.cpp:326-328 | Splitting a request topic with four cuts gives back action, portal id, type, instance and path. |
| TopicRoundTrip.RunsAreListed | src/state.cpp:107-110 | While short names stay distinct, every service with items is listed in the index. |
| DelayedChanges.PassConserves | src/state.cpp:218-251 | A pass that does not throw puts every entry in exactly one of dropped, retained as it was and in order, or applied in order; it drops none that is at most 30 whole seconds old, and afterwards no queued entry belongs to a known service. |
| DelayedChanges.PassThrowsExactly | src/state.cpp:201-216 | While nothing is published, a pass throws if and only if an unexpired entry belongs to a known service that lacks its path; and it never adds or removes a path. |
| DelayedChanges.ThrowingPassLosesTheRest | src/state.cpp:223-245 | A throwing pass keeps only what it had retained before the entry that threw. |
| DelayedChanges.ProcessSettles | src/state.cpp:218-251 | Thrown or not, a pass leaves only entries of unknown services. |
| DelayedChanges.SignalSettles | src/dbus_functions.cpp:220-289 | After every signal no queued entry belongs to a known service. |
| DelayedChanges.NextSettles | src/state.cpp:118 | Any event keeps that, unless it throws on a dictionary without a JSON form. |
| DelayedChanges.SettledPassOnlyExpires | src/state.cpp:218-251 | From a settled queue a pass cannot throw, changes no item and publishes nothing. |
| DelayedChanges.UnknownChangesAreQueued | src/state.cpp:91-103 | What a still unknown service says is queued behind what has not expired, in order, each entry with the time at which it was said; nothing else changes. |
| DelayedChanges.ExpiresAfter31Seconds | src/state.cpp:228-233 | An entry has expired if and only if 31 s have passed, the age being cut to whole seconds. |
| RegistryState.State.ProcessDelayed | src/state.cpp:218-251 | The loop that moves the queue out and refills it computes the pass, also when it throws in the middle. |
| RegistryState.State.ProcessOne | src/state.cpp:226-250 | One queued change is dropped, kept, thrown on, or set and published. |
| RegistryState.State.StoreAndGetInstance | src/state.cpp:356-372 | The stored instance wins; an unknown one is taken from the items, or is an error for a signal. |
| RegistryState.State.MapItem | src/state.cpp:127-147 | One entry is mapped, stored over what is there, and published if alive, retained or forced. |
| RegistryState.State.AddMapping | src/state.cpp:79-119 | Queue while unknown, else index, map every entry and work off the delayed changes. |
| RegistryState.State.EraseIndexEntry | src/state.cpp:906-918 | Under the invariant the loop that stops at the first hit erases every entry of the service. |
| RegistryState.State.EraseOwnerEntry | src/state.cpp:920-933 | At most one owner entry goes, and one goes if there is any. |
| RegistryState.State.RemoveService | src/state.cpp:887-934 | Removal in place. |
| RegistryState.State.HandleMessage | src/dbus_functions.cpp:203-311 | A signal in place: delayed changes first, then the signal; keeps the invariant and throws neither impossible exception. |
| RegistryState.State.ScanServices | src/state.cpp:794-804 | Asks for the owner of every Victron service, until a call is refused. |
| RegistryState.State.ScanAllServices | src/state.cpp:792-809 | Asks the bus for its names. |
| RegistryState.State.PendingCallNotify | src/dbus_functions.cpp:186-200 | A reply takes its handler out before running it. |
| RegistryState.State.RunHandler | src/state.cpp:811-885 | What each reply handler does. |
| RegistryState.State.StoreFreshValue | src/state.cpp:556-576 | The reply to a read stores and publishes the value, or throws when the item is gone. |
| RegistryState.State.HandleRead | src/state.cpp:543-585 | A read request asks the service for a stored item, or for the unknown path of a known one. |
| Items.MergeKeepsLastDefined | src/types.cpp:12-30 | After any sequence of partial updates each of value, min and max is the last defined one, or the original if none is. |
| Items.AssignThrowsExactlyOnChange | src/boomstring.cpp:18-25 | Once set, identity strings make an assignment fail if and only if it would change one of them. |
| Items.AssignKeepsIdentity | src/boomstring.cpp:18-25 | Assigning a mapped item to its own place succeeds, keeps its identity, merges its values and leaves a coherent cache. |
| Items.MappingNewItemSucceeds | src/types.cpp:318-329 | Mapping a fresh item succeeds and identifies it. |
| Items.PublishSendsRendering | src/types.cpp:331-354 | A coherent item sends exactly one message, its rendering, retained exactly if the item is, or throws if it has none; without a payload it sends an empty one unless it is retained; it stays coherent. |
| Documents.RenderingDescribes | src/types.cpp:296-311 | The rendering of an item is the one object with the JSON form of its value under "value", masked if it is, and with "min" and "max" exactly when they are defined, each that of its own; it exists if and only if all dictionary keys are text. |
| Documents.AsJsonDenotes | src/vevariant.cpp:361-416 | The JSON form of a value of any type is the one document that denotes it: numbers as numbers, arrays element by element, dictionaries by their text keys. |
| Documents.HasJsonIff | src/vevariant.cpp:406-409 | A value has a JSON form if and only if every key of every dictionary in it is text. |
| Documents.ByName | src/types.cpp:394-407 | Which items are masked, never sent, or retained, by the names of service and path. |
| Documents.ShortIffOfType | src/shortservicename.cpp:9-28 | A service has a type if and only if its name is that type, or com.victronenergy. and the type, alone or up to the next dot. |
| Items.MaskedTextNeverSent | src/types.cpp:301-302 | The text of a pin code or access point password never leaves as the value. |
| Items.LiveItem.Update | src/types.cpp:365-369 | Setting a value clears the cache, so it stays coherent. |
| Items.LiveItem.MergeValue | src/types.cpp:12-30 | Only defined parts overwrite. |
| Items.LiveItem.MapTo | src/types.cpp:318-329 | Mapping in place; value, path and cache stay. |
| Items.LiveItem.AssignFrom | src/boomstring.cpp:18-25 | Assignment in place stops at the first string that would change. |
| Items.LiveItem.Json | src/types.cpp:296-311 | With a coherent cache the answer is the fresh rendering, and the cache then holds it. |
| Items.LiveItem.Send | src/types.cpp:331-354 | Publishing in place. |
| Variants.AcceptsExactly | src/vevariant.cpp:175-249 | The constructor accepts a document if and only if it has no object at any depth and every array's elements share one D-Bus type. |
| Variants.RoundTrip | src/vevariant.cpp:361-416 | An accepted document comes back as its normal form. |
| Variants.NormalOnlyEmptiesIffFits | src/vevariant.cpp:177-191 | The normal form is the document with every empty array replaced by null, if and only if all its integers are from -2^63 to 2^63 - 1. |
| Variants.NormalIsFixed | src/vevariant.cpp:406-407 | The normal form is a fixed point. |
| Variants.OversizedIntegerWraps | src/vevariant.cpp:179 | 2^63 is accepted and comes back negative. |
| Variants.WrapsModulo | src/vevariant.cpp:177-191 | Conversions to 64 and 32 bits keep the integer modulo 2^64 and 2^32. |
| Variants.ConstructFromJson | src/vevariant.cpp:207-232 | The loop with its type anchor builds the variant or fails at the first element of another type. |
| Signatures.SignatureIsCompleteType | src/vevariant.cpp:508-533 | For every scalar and every array of one element type code the recursive signature is a single complete type, and that of a non-empty array is "a" and that of its first element. |
| Signatures.MarshalledAsAnnouncedIffUniform | src/vevariant.cpp:539-624 | Marshalling a scalar or an array of one element type code never throws; a reader that goes by the announced signature and rebuilds the value from the type codes of the D-Bus Specification reads back that very variant if nested arrays are uniform, and fails if they are not. |
| Signatures.PutsTheLeaves | src/vevariant.cpp:539-624 | Uniform or not, the values put on the stream are the scalars of the variant in order, each under its own type. |
| Signatures.WriteArrives | src/vevariant.cpp:539-624 | An accepted, uniform document arrives at the reader as the document it is rendered back as. |
| Signatures.MarshalsIff | src/vevariant.cpp:594-624 | Marshalling succeeds if and only if there is no undefined value or dictionary in it and every array's elements share one type code. |
| Signatures.FlatArraysAreUniform | src/vevariant.cpp:222-223 | For arrays of scalars the constructor's own check is enough. |
| Signatures.MixedInnerArraysAreAnnouncedWrongly | src/vevariant.cpp:602-610 | A mixed document passes the constructor and breaks its announcement. |
| Signatures.BuiltFromJson | src/vevariant.cpp:207-232 | What the constructor builds: integers of the width they need, booleans of 0 and 1, arrays of one type code and the recorded element type; null is announced as "ai", an empty array as "au". |
| Signatures.AppendArgs | src/vevariant.cpp:539-624 | Appending opens each container with the contained type and fails at the first element of another type. |
| Tasks.RunsExactlyTheDue | src/queuedtasks.cpp:53-84 | performAll runs exactly the tasks live at entry and due, each once and with its own callback, by due time and then by insertion. |
| Tasks.LeavesLaterAndNew | src/queuedtasks.cpp:86-96 | Whatever the callbacks do to the queue, afterwards it is valid, holds every entry that was not due, and otherwise only tasks the callbacks added. |
| Tasks.CollectLeavesTheRest | src/queuedtasks.cpp:61-84 | Before any callback runs, exactly the live tasks not yet due remain registered. |
| Tasks.NextIsMinimum | src/queuedtasks.cpp:32 | The cached next time is the minimum over all queued entries, also erased ones, and is the maximum time when there are none. |
| Tasks.AddKeepsValid | src/queuedtasks.cpp:19-35 | An add keeps ids unique and ordered if and only if the counter does not wrap. |
| Tasks.IdsWrapAround | src/queuedtasks.cpp:23 | Ids are handed out in order and wrap after 2^32. |
| Tasks.WaitFits32Bits | src/queuedtasks.cpp:42-51 | Without a live task the wait is the longest of 32 bits; else it is the time left modulo 2^32. |
| Tasks.OperationsKeepTheRest | src/queuedtasks.cpp:19-40 | Any adds and erases keep validity and every queued entry, and add only new ids. |
| QueueRuns.WaitIsRightInEveryRun | src/queuedtasks.cpp:42-51 | After every run of adds, erases and performAll calls from the empty queue, with a steady clock and delays of 32 bits, the wait is not cut by the cast to 32 bits and never exceeds the time left to any live task. |
| QueueRuns.RunsKeepHorizon | src/queuedtasks.cpp:19-97 | In all those runs every queued task is due within the range of the cast, and the queue is valid. |
| Tasks.QueuedTasks.Add | src/queuedtasks.cpp:19-35 | addTask in place, and what it keeps. |
| Tasks.QueuedTasks.Erase | src/queuedtasks.cpp:37-40 | eraseTask drops the callback only. |
| Tasks.QueuedTasks.GetTimeTillNext | src/queuedtasks.cpp:42-51 | The wait in place; with live tasks it does not outlast the next queued time. |
| Tasks.QueuedTasks.TakeDue | src/queuedtasks.cpp:55-84 | The erasing loop collects the due callbacks and resets the next time. |
| Tasks.QueuedTasks.PerformAll | src/queuedtasks.cpp:53-97 | performAll with callbacks that add to and erase from the queue they were taken from. |
| TimerBatches.PerformIsFiring | src/queuedtasks.cpp:53-97 | For the callbacks of State, copying all due callbacks first is the same as firing the live due tasks one by one. |
| TimerSlots.NextKeepsSlots | src/state.cpp:433-468 | Every event keeps each remembered task id in agreement with the live tasks of its kind. |
| KeepAlive.EveryRunKeepsAliveExact | src/state.cpp:433-468 | After every event of every run alive holds exactly when one live reset task exists and the remembered id names it; at most one heartbeat task is live, its id is nonzero exactly then, and alive implies one; the tick never stops. |
| KeepAlive.HeartbeatsAreBounded | src/state.cpp:448-468 | Without another keep-alive no run publishes more heartbeats than the budget it starts with. |
| KeepAlive.AtMost21AfterTheLast | src/state.cpp:433-468 | From a keep-alive that gets through, every run without another publishes at most 21 heartbeats. |
| Liveness.LivesSixtySeconds | src/state.cpp:433-446 | After a keep-alive that gets through at t, the system is alive in every run whose tasks are performed before t + 60 s. |
| Liveness.BeatsIffDue | src/state.cpp:448-468 | While the system lives, performing tasks publishes exactly one heartbeat if it is due, and none if not. |
| Quiescence.ComesToRest | src/state.cpp:433-468 | In every run from plugin start: after the last keep-alive that gets through, at t, once tasks are performed at t + 60 s or later and again 3 s or more after that, no reset and no heartbeat is live, in any further run. |
| Quiescence.EveryRunBeatsSoon | src/state.cpp:466-467 | In every run the next heartbeat is due at most 3 s after the last reading of the clock. |
| KeepAlive.ResetEndsLife | src/state.cpp:442-446 | Performing tasks once the reset is due ends being alive. |
| KeepAlive.LastBeatEndsHeartbeat | src/state.cpp:450-454 | Then performing tasks once the heartbeat is due leaves no heartbeat and no reset task. |
| RateLimit.SegmentIsLimited | src/flashmq-dbus-plugin.cpp:295-320 | In every run segment long-term tokens plus password history are 150, short-term tokens stay in 0..20, at most 20 + k unseen wrong passwords are evaluated and at most 3 (k + 1) full republishes happen, k being the ticks in it. |
| RateLimit.EveryRunConservesTokens | src/flashmq-dbus-plugin.cpp:295-320 | From plugin start, in every run, long-term tokens plus history are 150 and short-term tokens are in 0..20. |
| Logins.LoginCostsExactly | src/flashmq-dbus-plugin.cpp:297-322 | With tokens left, a wrong password not seen before lowers both counters by one, counts one evaluation and enters the history; every other login changes none of these; a login is let in if and only if tokens are left and the password is right, else a denial is scheduled after the delay. |
| Logins.SegmentCountsGuesses | src/flashmq-dbus-plugin.cpp:314-320 | Over a run segment without a tick as many evaluations happen, and as many tokens of each kind are spent, as distinct wrong passwords not seen before were tried, while tokens last. |
| Logins.RightIsLetInIff | src/flashmq-dbus-plugin.cpp:297-312 | After such a segment even the right password is let in if and only if fewer of those were tried than there were tokens. |
| Logins.TwentyGuessesLockOut | src/flashmq-dbus-plugin.cpp:297-312 | From plugin start until the first tick: if and only if fewer than 20. |
| Logins.QuietSegmentRefills | src/state.cpp:631-636 | Over a run segment without a wrong password, k ticks give back k short-term tokens, up to 20. |
| Logins.TickGivesBack | src/state.cpp:631-656 | One tick: the next one a second later, three republish tokens, one short-term token up to 20, and more than a day after the last time all 150 long-term tokens and an empty history. |
| RateLimit.TicksAreSpaced | src/state.cpp:631-656 | Ticks in a run are bounded by the clock. |
| RateLimit.LimitedByTheClock | src/state.cpp:631-647 | In w whole seconds at most 21 + w evaluations and 3 (w + 2) republishes happen. |
| RateLimit.BetweenTicks | src/state.cpp:402 | Over any run segment without a tick, full republishes grow by exactly the lesser of the keep-alives that ask for one and the tokens at its start, and the tokens fall by exactly those keep-alives. |
| RateLimit.AroundATick | src/state.cpp:631-636 | Around a tick exactly as many are published as were granted before and after it; more than three if and only if these together are. |
| RateLimit.SixAroundATick | src/state.cpp:402 | A run from plugin start, with the due tick performed in it, publishes everything six times at one reading of the clock. |
| Bridges.RegistrationIsSingleFlight | src/state.cpp:592-629 | In every run there is never both a registration task and a reply outstanding and at most one of either; the pending id is nonzero exactly while one is, if and only if no registration call was refused. |
| Bridges.RefusedRegistrationIsStuck | src/state.cpp:618-625 | After a refusal the id stays taken in every run and nothing registers again. |
| Bridges.UnwrittenIffRefused | src/state.cpp:726-781 | In every run with a request, no write is pending and the states are not the last written ones if and only if a write of states that differed was refused since the last request. |
| Bridges.WritesCatchUp | src/state.cpp:726-781 | After the first request, whenever no write is pending the last-written states are the present ones, as long as no needed write was refused since. |
| Bridges.DebounceSettles | src/state.cpp:726-781 | A request leaves a write pending exactly when the states differ from the last written, due 2 s from now. |
| Bridges.ModeAloneIsNotWritten | src/state.cpp:734-735 | A portal mode that changes what would be reported is not written by itself. |
| BridgeReports.WritesWhatWasTold | src/state.cpp:737-778 | In every run from plugin start, performing tasks when a write is due and accepted writes, for GXdbus and then for GXrpc, what was last told about it, or that it is deactivated: if it has disappeared from the configuration, or the portal mode is below read-only, or full for GXrpc. |
| BridgeReports.EveryRunIsAsTold | src/flashmq-dbus-plugin.cpp:421-455 | In every run the state of each bridge and the portal mode are as last told. |
| BridgeReports.LostConnectionRegisters | src/flashmq-dbus-plugin.cpp:423-446 | A bridge that was connected and is told not to be registers again after the delay, unless a registration is pending or there is none to be done; any other notification only remembers that a bridge is connected. |
| BridgeReports.StartRegisters | src/flashmq-dbus-plugin.cpp:66 | At plugin start a registration is due at once, if there is one to be done. |
| TimerState.Machines.HandleKeepAlive | src/state.cpp:396-440 | The keep-alive in place, also when publishing everything throws. |
| TimerState.Machines.Heartbeat | src/state.cpp:448-468 | The heartbeat in place. |
| TimerState.Machines.PerSecondAction | src/state.cpp:631-647 | The tick in place. |
| TimerState.Machines.LoginCheck | src/flashmq-dbus-plugin.cpp:295-322 | The rate-limited login in place; it lets in exactly a right password while tokens last. |
| TimerState.Machines.InitiateRegistration | src/state.cpp:592-629 | Starting a registration in place. |
| TimerState.Machines.HandleConnected | src/flashmq-dbus-plugin.cpp:421-455 | The bridge notification in place: a lost connection registers again unless that is under way. |
| TimerState.Machines.WriteAllBridgeStatesDebounced | src/state.cpp:726-781 | The debounce in place. |
| TimerState.Machines.PerformAll | src/queuedtasks.cpp:53-97 | All due callbacks in place, over the same task queue object they add to. |
| Networks.WordsAgreeIffSamePrefix | src/network.cpp:150-167 | For every address pair and every prefix length up to 128, the masked words agree if and only if the addresses agree after integer division by 2^(128 - n) (section 2.3 of RFC 4291). |
| Networks.SamePrefixIffSameBits | src/network.cpp:140-149 | The same integer prefix means the same leading bits, for any width (section 3.1 of RFC 4632). |
| Networks.PrefixIsABlock | src/network.cpp:134-171 | What a network matches is one aligned block of 2^(width - n) addresses. |
| Networks.LongerRefinesShorter | src/network.cpp:134-171 | A longer prefix refines a shorter one. |
| Networks.ShiftedRightMask | src/network.cpp:110-116 | The 64-bit shift and truncation give n leading ones, for every n up to 32. |
| Networks.ShiftedLeftMask | src/network.cpp:68-69 | So does the IPv4 expression. |
| Networks.Network.BuildMask | src/network.cpp:108-118 | The loop stays in bounds and gives word i the min(32, max(0, n - 32 i)) leading ones. |
| Networks.Network.Load6 | src/network.cpp:108-125 | The mask and the relevant bits of the network's address. |
| Networks.Network.Match | src/network.cpp:134-171 | An address matches if and only if it is of the family and has the same prefix. |
| Networks.MaskIsRead | src/network.cpp:80-93 | An address with a mask of up to three digits is read as such, one without as 128 bits. |
| Networks.SecondSlashIgnoresMask | src/network.cpp:80-85 | With anything after a second slash the mask is ignored. |
| Networks.MaskIgnoredIff | src/network.cpp:80-93 | A mask that does not say 128 is ignored, and 128 taken, if and only if three parts are kept. |
| Networks.ThreePartsIff | src/network.cpp:80 | Three parts are kept if and only if the text has an address, a mask and something after a further slash. |
| Networks.KeptPartsAreNotEmpty | src/network.cpp:80-93 | The mask is never converted from an empty string. |
| Networks.Construct | src/network.cpp:53-132 | Which texts throw and which network each other text gives. |
| Networks.TextIsNetwork | src/network.cpp:53-132 | Which network every text is: with a dot what the library makes of it as an IPv4 network; else with a colon that of the address and the mask it spells, 128 bits without one, an error for a mask that is no number of up to three digits or is above 128; else none. |
| Networks.SomeSpelling | src/network.cpp:80-93 | Every text with a colon spells an address, with or without a mask. |
| Text.SplitToVector | src/utils.cpp:52-71 | The loop over start and end computes the split. |
| Text.JoinOfSplit | src/utils.cpp:52-71 | Joining the parts gives the input back. |
| Text.SplitShape | src/utils.cpp:61-68 | At most max + 1 parts, and only the last can hold a separator, when all cuts are used up. |
| Text.SplitOfJoin | src/utils.cpp:52-71 | Every list of that shape is what splitting its join gives. |
| Text.SplitDropsEmpty | src/utils.cpp:63-68 | Without empty parts the split is the non-empty parts in order. |
| Text.JoinPathsWithSlash | src/types.cpp:33-44 | The remove-if loop computes the slash-collapsed form of the joined path. |
| Text.CollapseHasNoDoubleSlash | src/types.cpp:37-42 | That form has no double slash. |
| Text.CollapseFixesExactlyCanonical | src/types.cpp:37-42 | It leaves a path as it is if and only if the path has none. |
| Text.CollapseKeepsSegments | src/types.cpp:37-42 | It never changes which segments a path names. |
| Text.CollapseKeepsEnds | src/types.cpp:37-42 | It starts and ends with a slash exactly if the path does. |
| Text.RejoinedPathIsTheKey | src/types.cpp:213-239 | A value read below a prefix gets the key a GetItems reply uses, wherever the canonical key is cut at a slash. |
| Text.PrefixSlash | src/types.cpp:52-59 | Every stored path starts with a slash. |
| Text.IntTextIsDecimal | src/utils.cpp:82-107 | The text of an integer is the one text that writes it in decimal, with a minus sign if it is negative and no leading zeros. |
| ShortNames.TypeIsShort | src/shortservicename.cpp:9-28 | A service type has no dot, and without a slash is its own short name. |
| ShortNames.NoShortIff | src/shortservicename.cpp:9-28 | A name is refused if and only if it is no Victron name and holds a dot or a slash. |
| ShortNames.TotalIsInjective | src/shortservicename.cpp:9-28 | Slash-free types and instances can be read back from the index key. |
| Chunks.CalculateChunks | src/guicustomizations.cpp:26-55 | For every file size the loop ends with ceil(size / 4096) contiguous chunks from 0, each of 1 to 4096 bytes; no regular file is an error. |
| Chunks.ChunksAreTheFile | src/guicustomizations.cpp:233-259 | The byte ranges read back in order are the file. |
| Chunks.ReadsBackExactly | src/guicustomizations.cpp:233-254 | Reading n chunks succeeds if and only if the size is unchanged and the bytes are there. |
| Chunks.ChunkingIsUnique | src/guicustomizations.cpp:40-52 | Path and size determine the chunks. |
| Chunks.ByteIsInOneChunk | src/guicustomizations.cpp:40-52 | Every byte is in exactly one chunk, number j / 4096. |

## Left out

- MirrorRuns.MirrorAgrees: is about one life of a service under one connection; a direct change of owner ends it. It takes from the bus that messages carry the unique name of their sender, and from the service that its replies and signals come in one stream.
- RegistryState.State.MapItem: does not refresh the portal mode and the local MQTT mode when their settings items are mapped (src/state.cpp:133-143); replays and reads do not either, so their agreement with the items is no invariant. The portal mode is an event of its own.
- RegistryState.State.HandleRead: a request for the customizations does nothing here; what they publish is not modelled.
- TopicRoundTrip.EveryTopicResolves: asks for slash-free portal id, type and instance and for distinct short names; two live services with one short name overwrite each other in the index, and then only the last is found (`TopicRoundTrip.ResolvesIffIndexed`).
- Bridges.UnwrittenIffRefused: a write is accepted or refused as a whole; one of which some calls are accepted and a later one is refused is not modelled.
- Items.LiveItem.Json: works on JSON documents; the JSON text format, UTF-8 checks and dumping are not modelled, and the empty cache text is an absent cache.
- Timers and KeepAlive: one callback reads the clock once; task ids are assumed not to wrap within a run.
- Doubles are reals and are passed through unchanged; rounding and their text are not modelled.
- The text of doubles, arrays and dictionaries, used for an instance from /Identifier, is an argument.
- Item values read from D-Bus: nested arrays there store a full inner signature, so the marshalling theorems are about arrays that store the type code of their elements, as those built from JSON do.
- Writing items to D-Bus, the access decision tree, paired integrations, and the login steps before the rate limit.
- GUI customizations other than chunking: directory scanning, the cache key by file times, publishing, base64; and the message that says a full publication is complete.
- libdbus, epoll, watches and guards; FlashMQ sessions and clients; password hashing and token files; logging.
- A pass over a map while it is iterated uses the order given as an argument; the hash function of variants is not modelled.
- Which owner entry the removal loop meets first is an argument, and clean-up after a direct change of owner is not claimed to be complete.
