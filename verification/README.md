# NapCat runtime: verified models

NapCat is a chat-bot runtime in Rust: a service runtime, a plugin registry, a namespaced store, a QQ client with its
protocol backend, and an HTTP API in front of them. This project models the stateful core of these crates in Dafny and
proves what holds over all their runs and inputs. `dafny verify dfyconfig.toml` checks everything.

Code that several callers run at once is a transition system. One step is what the code does under one lock, or
between two awaits, and a run is any interleaving of such steps. Code that one caller runs to completion is a class
whose methods are proved against specification functions; where a component has both forms, a lemma says that the
uninterrupted call is a run of the steps. Codecs are printers and readers on strings.

| modules | what they model |
|---|---|
| `RuntimeSteps`, `RuntimeLaws`, `RuntimeLeftover`, `RuntimeObject` | `Runtime`: start, registration and shutdown of services (`napcat-rs/crates/core/src/lib.rs:93-232`) |
| `PluginSteps`, `PluginLaws`, `PluginRaces`, `PluginObject` | `PluginManager`: load, unload, dispatch, list (`napcat-rs/crates/plugin/src/lib.rs:659-722`) |
| `Storage`, `StorageSql`, `StorageLaws`, `Sorting` | `MemoryStore` and `SqliteStore` (`napcat-rs/crates/storage/src/lib.rs:118-459`) |
| `JsonText`, `JsonTokens`, `JsonGrammar`, `JsonLaws`, `JsonShortest`, `JsonSuffix`, `Messages`, `MessageReading`, `Utf8`, `Wire`, `WireCuts`, `Strings`, `Sequences` | JSON text (RFC 8259), the serde shapes of messages, UTF-8 (RFC 3629), wire lines as bytes, their framing and unfinished lines |
| `ClientTypes`, `MockClient`, `TcpClient`, `TcpLaws` | the two QQ clients (`napcat-rs/crates/qq-client/src/lib.rs:131-627`) |
| `Session`, `SessionObject`, `Listener`, `ListenerLaws` | `QQClientBackend` and its listener task (`napcat-rs/crates/protocol/src/lib.rs:160-244,763-944`) |
| `SendRoutes`, `SendPipeline`, `ListenRoute` | the send routes, the event queue and the polling route (`napcat-rs/crates/api/src/lib.rs`) |

## What the models take as given

- A listener's code between two awaits is one step. On a multi-threaded executor the store at
  `napcat-rs/crates/protocol/src/lib.rs:928` could run after an abort that hit the task in that very stretch; such a
  late store is outside the model. Public calls of the backend come one after the other, and listener steps fall
  between a call's first half (flags) and its second half.
- Each method of the mock client is one step, although it takes several locks one after the other.
- Locks, queues and broadcast channels are ideal. What the network, a plugin, a joined task, the clock and the
  iteration order of a map do is a parameter of the step or method that meets it.
- `to_lowercase` is a function parameter. Everything else about strings follows Rust: sequences of Unicode scalar
  values, `trim` by the White_Space property, byte order of keys (which is scalar-value order, `LessIsByteOrder`).
- The JSON reader has the nesting limit of `serde_json` (127 levels below the top). Members of a `serde_json::Value`
  are kept in ascending order of their keys.

## What turned out false, and the exact condition

- A stopped runtime can hold tasks. Without overlapping shutdowns it is empty exactly when no registration crossed the
  last shutdown (`EmptyIffNothingCrossed`); with overlapping ones it can hold tasks although none crossed
  (`OverlapLeavesTask`).
- Two loads of one plugin name can both succeed (`RacingLoads`); the overwritten instance is never asked to unload. No
  instance is ever overwritten exactly when no insertion finds its name taken (`OverwrittenIffInsertedOver`), which
  callers ensure by not starting a load of a name while another one is under way (`ApartNeverOverwrites`).
- `keys`, `count_namespace` and `clear_namespace` agree exactly when the namespace has no NUL, and only then can the
  pair be recovered from the flat key (`QueriesAgreeIffNulFree`, `SplitInvertsIffNulFree`, `NulCollides`). With a NUL a
  record can be deleted by removing another pair (`NulDeletes`).
- The two stores answer alike, where every put is followed by a look at its record, exactly when every put is storable
  where it stands: text the reader takes back, a time below 2^63 and, for a new record, one clock reading for both
  (`AgreeIffStorable`).
- A message survives the two layers of JSON exactly when its JSON payloads nest at most 124 deep (`NestedRoundTrip`,
  `DeepPayloadIsLost`).
- The receiver opens a new buffer per line, so a stream arrives whole exactly when no read reaches past a line feed
  (`ReceiveExact`, `OneReadLosesSecond`).
- The built line is not the shortest text of its packet: the reader also takes an array of the two strings
  (`ArrayLineIsShorter`). Among the texts that end in a brace it is (`WireShortest`).
- A heartbeat shorter than one millisecond is accepted and sets the timeout to zero; from then on every send times out
  although the client still says it is logged in (`ShortHeartbeatWedges`). The timeout stays positive exactly when no
  accepted call sets it so (`TimeoutStaysPositive`).
- A TCP write that fails part-way leaves the session logged in with an unfinished line on the wire, and the next packet
  is lost to the peer although it is accepted. The peer reads exactly what was accepted if and only if no failed write
  let its whole line out or left a part of it before an accepted one; a peer that also takes a last line without line
  feed, if and only if no failed write let anything out (`PeerReads`, `CutWriteSpoilsNext`).
- The backend can be connected and logged in and still refuse to send: sending works exactly when it is logged in and
  the configured connect timeout is not zero (`SendNeedsLogin`, `ZeroTimeoutCannotSend`).
- A connect that fails replaces the stored endpoint all the same (`FailedConnectSticks`).
- The general send route accepts messages that the plain-text renderer then refuses, namely blank texts that are not
  all empty (`GuardTripsOnBlankTexts`, `GeneralRouteCanTrip`).
- A caller can be told that its request failed although the message was sent: the queue is full and the wait for a place
  ends first (`FullQueueFailsAfterSend`). With a backend, this never happens exactly when no handler gives up waiting
  (`FailuresUnsentIffNobodyGivesUp`), which is certain as long as queued and waiting events never exceed 64
  (`UncrowdedFailuresAreUnsent`).
- The branch of the TCP heartbeat for intervals of 2^64 ms or more cannot be reached: building the payload panics
  before it (`napcat-rs/crates/qq-client/src/lib.rs:599`).

## Model

| member | source | states |
|---|---|---|
| `RuntimeLaws.RunConserves` | napcat-rs/crates/core/src/lib.rs:126-232 | the conservation invariant holds after every legal run of registrations, shutdowns, joins and restarts |
| `RuntimeLaws.ExactlyOnePlace` | napcat-rs/crates/core/src/lib.rs:126-232 | in every interleaving each spawned task's handle is in exactly one place: its call, the map, detached by a taken name, or the drained set of one shutdown |
| `RuntimeLaws.CountsBounded` | napcat-rs/crates/core/src/lib.rs:186-231 | a returned count is the number of tasks that shutdown drained, no task is drained by two shutdowns, and the counts returned by any set of shutdowns add up to no more than the successful registrations |
| `RuntimeLaws.NothingBeforeStart` | napcat-rs/crates/core/src/lib.rs:126-197 | before the first start every registration is rejected and every shutdown refused, in every interleaving |
| `RuntimeLeftover.LeftoversCrossed` | napcat-rs/crates/core/src/lib.rs:186-231 | without overlapping shutdowns, a stopped runtime still holds a registered task exactly when its Running check came before the last Stopping and its insertion after the drain |
| `RuntimeLeftover.StoppedIsEmpty` | napcat-rs/crates/core/src/lib.rs:186-231 | without overlap and without registrations crossing a shutdown, Stopped implies an empty task map |
| `RuntimeLeftover.DrainedWereSignalled` | napcat-rs/crates/core/src/lib.rs:144-204 | under the same hypotheses every drained task subscribed before the broadcast and was among its receivers, unless it had dropped its receiver before the broadcast was decided |
| `RuntimeLeftover.LeftoversAreLate` | napcat-rs/crates/core/src/lib.rs:206-209 | in every run a registered task is in the map exactly when it was inserted after the last drain; a drained task missed by its shutdown's broadcast had left before it or subscribed after it |
| `RuntimeLeftover.EmptyIffNothingCrossed` | napcat-rs/crates/core/src/lib.rs:186-231 | without overlap, a stopped runtime is empty exactly when no registration crossed the last shutdown |
| `RuntimeLeftover.CrossingLeavesTask` | napcat-rs/crates/core/src/lib.rs:126-156 | a concrete run with one shutdown and one crossing registration that stops with a task left |
| `RuntimeLeftover.OverlapLeavesTask` | napcat-rs/crates/core/src/lib.rs:186-231 | a concrete run with two overlapping shutdowns and a restart that stops with a task left though no registration crosses |
| `RuntimeObject.Runtime.constructor` | napcat-rs/crates/core/src/lib.rs:94-102 | a new runtime is initialized and holds no task, receiver or signal |
| `RuntimeObject.Runtime.Start` | napcat-rs/crates/core/src/lib.rs:111-123 | start succeeds exactly from Initialized or Stopped, then the state is Running; nothing else changes |
| `RuntimeObject.Runtime.Register` | napcat-rs/crates/core/src/lib.rs:126-182 | registration succeeds exactly in state Running under a free name; the task has subscribed and runs in any case, and without a handle when the name is taken |
| `RuntimeObject.Runtime.Broadcast` | napcat-rs/crates/core/src/lib.rs:200-204 | who is sent the signal, for all receivers dropped before the look and between look and send |
| `RuntimeObject.Runtime.JoinAll` | napcat-rs/crates/core/src/lib.rs:206-227 | the map is emptied; the result counts the joins unless one of them fails |
| `RuntimeObject.Runtime.Shutdown` | napcat-rs/crates/core/src/lib.rs:185-232 | the new state, tasks, receivers, signalled tasks and result of a shutdown for every state, every loss of receivers and every sequence of join outcomes |
| `RuntimeObject.ShutdownIsARun` | napcat-rs/crates/core/src/lib.rs:185-232 | a shutdown that nothing but dropped receivers interrupts is a run of the steps with the same state, tasks, receivers, signalled tasks and result |
| `RuntimeObject.RegisterIsARun` | napcat-rs/crates/core/src/lib.rs:126-182 | an uninterrupted registration is a run of the steps with the same effect and result; a taken name leaves the task detached |
| `PluginLaws.EveryRunKeepsProtocol` | napcat-rs/crates/plugin/src/lib.rs:659-715 | in every interleaving, racing loads included, the calls each backend instance sees keep the load, dispatch, unload protocol |
| `PluginLaws.ProtocolOrders` | napcat-rs/crates/plugin/src/lib.rs:687-715 | an instance is entered by a dispatch only after its own load succeeded, and every dispatch has left it before it begins to unload |
| `PluginLaws.UnloadsOnce` | napcat-rs/crates/plugin/src/lib.rs:687-701 | an instance begins to unload at most once |
| `PluginLaws.ReachedOnce` | napcat-rs/crates/plugin/src/lib.rs:704-715 | one dispatch reaches an instance at most once |
| `PluginLaws.LoadedIsSomewhere` | napcat-rs/crates/plugin/src/lib.rs:659-701 | an instance's load succeeded exactly if it awaits insertion, is registered, was removed or was overwritten, and it is in one of these places only |
| `PluginLaws.OverwrittenNeverUnloads` | napcat-rs/crates/plugin/src/lib.rs:682-684 | an instance overwritten by a racing load is never asked to unload |
| `PluginRaces.OverwrittenIffInsertedOver` | napcat-rs/crates/plugin/src/lib.rs:659-685 | in every interleaving all instances that left the registry were removed by an unload, none overwritten, exactly when no insertion ever found its name taken |
| `PluginRaces.ApartNeverOverwrites` | napcat-rs/crates/plugin/src/lib.rs:659-685 | if no load of a name starts while another load of it is under way, nothing is ever overwritten |
| `PluginRaces.RacingLoads` | napcat-rs/crates/plugin/src/lib.rs:671-684 | it happens: two loads of one name both pass the check, and the second insertion overwrites the first instance |
| `PluginObject.PluginManager.constructor` | napcat-rs/crates/plugin/src/lib.rs:652-656 | a new manager has no plugin |
| `PluginObject.PluginManager.Load` | napcat-rs/crates/plugin/src/lib.rs:659-685 | exactly when each of the five failures or the success is returned, and that only success changes the registry |
| `PluginObject.PluginManager.Unload` | napcat-rs/crates/plugin/src/lib.rs:687-701 | the plugin is gone from the registry even when its own unloading fails, and all others stay; exactly the unknown names are reported as unknown |
| `PluginObject.PluginManager.Dispatch` | napcat-rs/crates/plugin/src/lib.rs:704-715 | the loop returns the collected actions in iteration order, or fails at the first error |
| `PluginObject.CollectedFacts` | napcat-rs/crates/plugin/src/lib.rs:704-715 | a dispatch fails exactly when some plugin errs, otherwise it returns exactly the emitted actions |
| `PluginObject.CollectedInOrder` | napcat-rs/crates/plugin/src/lib.rs:708-712 | cut the iteration anywhere: the actions are those of the first part followed by those of the second |
| `PluginObject.PluginManager.List` | napcat-rs/crates/plugin/src/lib.rs:718-722 | the listed names are strictly ascending in the order of their bytes and are exactly the registered ones |
| `PluginObject.LoadIsARun` | napcat-rs/crates/plugin/src/lib.rs:659-685 | an uninterrupted load is a run of the steps with the same registry and outcome |
| `PluginObject.UnloadIsARun` | napcat-rs/crates/plugin/src/lib.rs:687-701 | an uninterrupted unload is a run of the steps with the same registry and outcome, and calls the removed instance's backend |
| `PluginObject.DispatchIsARun` | napcat-rs/crates/plugin/src/lib.rs:704-715 | an uninterrupted dispatch is a run of the steps that fails or succeeds alike, with the same actions, reaching the plugins of the iteration up to the first error |
| `PluginObject.AnyOrderIsAllowed` | napcat-rs/crates/plugin/src/lib.rs:708 | a dispatch may walk the registry in exactly the duplicate-free listings of its names |
| `Storage.MemoryStore.constructor` | napcat-rs/crates/storage/src/lib.rs:107-110 | a new memory store is empty |
| `Storage.MemoryStore.Put` | napcat-rs/crates/storage/src/lib.rs:207-220 | new map and reply of put: blank names are refused, an existing record keeps its creation time |
| `Storage.MemoryStore.Get` | napcat-rs/crates/storage/src/lib.rs:222-226 | get looks up the flat key and changes nothing |
| `Storage.MemoryStore.Remove` | napcat-rs/crates/storage/src/lib.rs:228-233 | remove deletes the flat key and says whether it was there |
| `Storage.MemoryStore.Keys` | napcat-rs/crates/storage/src/lib.rs:235-248 | the collected and sorted keys are the listing of the namespace's keys in ascending byte order, whatever the map order |
| `Storage.MemoryStore.ClearNamespace` | napcat-rs/crates/storage/src/lib.rs:250-262 | clear keeps exactly the other namespaces' entries and counts the rest |
| `Storage.MemoryStore.CountNamespace` | napcat-rs/crates/storage/src/lib.rs:264-271 | count is the number of flat keys that start with the namespace and NUL |
| `Storage.SplitQualified` | napcat-rs/crates/storage/src/lib.rs:119-121 | splitting a flat key gives back namespace and key, also for keys with NUL, when the namespace has none |
| `Storage.PrefixIsNamespace` | napcat-rs/crates/storage/src/lib.rs:250-271 | for a NUL-free namespace the prefix test of count and the split of keys and clear select the same flat keys |
| `Storage.NamespaceSlice` | napcat-rs/crates/storage/src/lib.rs:235-271 | for a NUL-free namespace count equals the number of keys, and clearing removes just as many |
| `Storage.StepRefines` | napcat-rs/crates/storage/src/lib.rs:207-271 | every operation on a NUL-free namespace answers as a map from (namespace, key) and keeps representing it |
| `StorageLaws.RunRefines` | napcat-rs/crates/storage/src/lib.rs:207-271 | over every sequence of operations with NUL-free namespaces the memory store refines that map |
| `StorageLaws.GetReadsHistory` | napcat-rs/crates/storage/src/lib.rs:207-262 | over every NUL-free sequence a get returns the value last put under this namespace and key since the last removal or clearing, with the times of that put and of the first put since then |
| `StorageLaws.BlankIsInvalid` | napcat-rs/crates/storage/src/lib.rs:207-427 | both stores refuse, without effect, exactly a blank namespace and a blank key where a key is named |
| `StorageLaws.TimesStayFit` | napcat-rs/crates/storage/src/lib.rs:299-350 | over every sequence of operations both times of every row are signed 64-bit integers |
| `StorageLaws.BrokenRows` | napcat-rs/crates/storage/src/lib.rs:299-369 | the SQL store fails, without effect, exactly on a get of a row whose text does not parse or whose times are negative and on a put over a row with a negative time of creation; the in-memory store never fails |
| `StorageSql.SqliteStore.constructor` | napcat-rs/crates/storage/src/lib.rs:276-297 | a new table has no row |
| `StorageSql.SqliteStore.Put` | napcat-rs/crates/storage/src/lib.rs:299-350 | select then upsert: value as text, times cast to signed 64 bit, creation time kept on conflict |
| `StorageSql.SqliteStore.Get` | napcat-rs/crates/storage/src/lib.rs:352-369 | get reads a row back, or fails when its text or times cannot be read |
| `StorageSql.SqliteStore.Remove` | napcat-rs/crates/storage/src/lib.rs:371-382 | remove deletes one row and says whether there was one |
| `StorageSql.SqliteStore.Keys` | napcat-rs/crates/storage/src/lib.rs:384-401 | keys are the listing of the namespace's row keys in ascending byte order |
| `StorageSql.SqliteStore.ClearNamespace` | napcat-rs/crates/storage/src/lib.rs:403-411 | clear deletes one namespace and returns the number of rows |
| `StorageSql.SqliteStore.CountNamespace` | napcat-rs/crates/storage/src/lib.rs:413-426 | count is the number of the namespace's rows |
| `StorageLaws.SqlStepRefines` | napcat-rs/crates/storage/src/lib.rs:275-427 | every operation, a put if it is storable where it stands, answers on the table as on the map from (namespace, key) |
| `StorageLaws.BackendsAgree` | napcat-rs/crates/storage/src/lib.rs:202-427 | on every sequence with NUL-free namespaces whose puts are storable where they stand both stores give equal replies |
| `StorageLaws.AgreeIffStorable` | napcat-rs/crates/storage/src/lib.rs:202-427 | on every sequence that looks at what it puts, both stores give equal replies if and only if every put is storable where it stands |
| `StorageLaws.Isolation` | napcat-rs/crates/storage/src/lib.rs:207-271 | no operation on one namespace changes what any operation on another returns |
| `StorageLaws.NulCollides` | napcat-rs/crates/storage/src/lib.rs:119-121 | with a NUL in a namespace two different pairs share a flat key: what one puts the other reads |
| `StorageLaws.SplitInvertsIffNulFree` | napcat-rs/crates/storage/src/lib.rs:235-262 | the pair is recoverable from the flat key for all keys exactly when the namespace has no NUL |
| `StorageLaws.QueriesAgreeIffNulFree` | napcat-rs/crates/storage/src/lib.rs:235-271 | keys, count and clear agree on every store exactly when the namespace has no NUL |
| `StorageLaws.NamespaceReport` | napcat-rs/crates/storage/src/lib.rs:235-271 | keys is strictly sorted by bytes and exactly the live keys, its length is what count and then clear return, and after clear it is empty |
| `StorageLaws.TimesStayOrdered` | napcat-rs/crates/storage/src/lib.rs:123-148 | under a monotone clock and serialised puts no record of the memory store is updated before it was created |
| `StorageLaws.CreatedIsFixed` | napcat-rs/crates/storage/src/lib.rs:123-148 | with NUL-free namespaces a record of the memory store keeps its creation time from insertion until its deletion |
| `StorageLaws.NulDeletes` | napcat-rs/crates/storage/src/lib.rs:228-233 | with a NUL it does not: removing one pair deletes the record of another |
| `StorageLaws.StaleClock` | napcat-rs/crates/storage/src/lib.rs:207-220 | a put to the memory store breaks that order exactly when its clock reading predates the record's creation |
| `Utf8.LessIsByteOrder` | napcat-rs/crates/storage/src/lib.rs:246 | comparing keys by scalar values is comparing their UTF-8 bytes |
| `Strings.LessMeans` | napcat-rs/crates/storage/src/lib.rs:246 | one key is before another iff they agree up to a place where the first ends or has the smaller character |
| `Strings.TrimIsMiddle` | napcat-rs/crates/qq-client/src/lib.rs:322 | the trimmed text is the one text with clean ends that nothing but white space surrounds |
| `JsonGrammar.ReaderIsGrammar` | napcat-rs/crates/message/src/lib.rs:171-179 | the reader accepts a text as a value if and only if the text writes that value by the grammar of RFC 8259, sections 2 to 7, nested at most 127 deep: any gaps, any escapes, any number |
| `JsonLaws.StringRoundTrip` | napcat-rs/crates/message/src/lib.rs:171-179 | escaping per section 7 of RFC 8259 is undone by reading, whatever follows the string |
| `JsonLaws.NumberRoundTrip` | napcat-rs/crates/message/src/lib.rs:171-179 | integers in range are read back as printed |
| `JsonLaws.ValueRoundTrip` | napcat-rs/crates/message/src/lib.rs:171-179 | a printed float-free value followed by anything is read back exactly when the depth budget allows |
| `JsonLaws.DocumentRoundTrip` | napcat-rs/crates/message/src/lib.rs:171-179 | reading a printed document gives it back exactly when it nests at most 127 deep |
| `JsonLaws.PrintNoControl` | napcat-rs/crates/qq-client/src/lib.rs:344-350 | printed text contains no control character |
| `Messages.ValueIsFixed` | napcat-rs/crates/message/src/lib.rs:59-60 | reading a document as a value changes nothing if its objects are sorted maps |
| `Messages.ToMapExact` | napcat-rs/crates/qq-client/src/lib.rs:457-468 | reading an object as a value keeps of every name the last member and nothing else, whatever the order and the repeats |
| `Messages.ElementRoundTrip` | napcat-rs/crates/message/src/lib.rs:36-61 | every element comes back from its internally tagged form, null options included |
| `Messages.RecipientRoundTrip` | napcat-rs/crates/message/src/lib.rs:17-24 | a recipient comes back from its externally tagged form |
| `Messages.MessageRoundTrip` | napcat-rs/crates/message/src/lib.rs:17-72 | a message comes back from its document |
| `Messages.ArrayFormIsRead` | napcat-rs/crates/message/src/lib.rs:62-72 | a message written as an array of its four fields is read as well |
| `MessageReading.AnyElementIsRead` | napcat-rs/crates/message/src/lib.rs:36-61 | a document is read as an element exactly when its members, in any order and among others, or its items, in order, describe that element; absent and null options are empty, a repeated member is an error |
| `MessageReading.RecipientIsRead` | napcat-rs/crates/message/src/lib.rs:17-24 | exactly which documents are read as which recipient |
| `MessageReading.MessageIsRead` | napcat-rs/crates/message/src/lib.rs:62-72 | exactly which texts are decoded to which message |
| `Messages.TextRoundTrip` | napcat-rs/crates/message/src/lib.rs:171-179 | decoding encoded text gives the message back exactly when its payloads nest at most 124 deep, and fails otherwise |
| `Messages.DeepPayloadIsLost` | napcat-rs/crates/message/src/lib.rs:171-179 | it happens: a payload of 124 levels comes back, one of 125 makes the decoding fail |
| `Wire.WireRoundTrip` | napcat-rs/crates/qq-client/src/lib.rs:344-355 | parsing a built wire line gives route and payload back |
| `MessageReading.PacketIsRead` | napcat-rs/crates/qq-client/src/lib.rs:352-355 | exactly which texts are parsed to which packet |
| `Wire.LineShape` | napcat-rs/crates/qq-client/src/lib.rs:344-350 | a built line has no control character, hence no line feed, and trimming its end with or without the line feed gives it back |
| `Wire.LineIsRead` | napcat-rs/crates/qq-client/src/lib.rs:344-355 | the UTF-8 bytes of a built line hold no line-feed byte and are read back as the packet, with a line feed behind them or without |
| `Wire.NestedRoundTrip` | napcat-rs/crates/protocol/src/lib.rs:195-204 | a message survives encoding as payload of a wire line and back exactly when its payloads fit the reader |
| `Wire.Framing` | napcat-rs/crates/qq-client/src/lib.rs:344-355 | cutting a byte stream at its line feeds and parsing the pieces gives exactly the packets, in order |
| `Wire.ReadOneLine` | napcat-rs/crates/qq-client/src/lib.rs:425-433 | one call reads one whole line of bytes, however the reads fall; the rest of the stream is intact exactly when they stayed aligned |
| `Wire.WireShortest` | napcat-rs/crates/qq-client/src/lib.rs:352-355 | no text that ends in a brace and takes fewer UTF-8 bytes than the built line parses to the same packet |
| `Wire.ArrayLineIsShorter` | napcat-rs/crates/qq-client/src/lib.rs:352-355 | without that brace it fails: an array of the two strings parses to the packet and takes 18 bytes less |
| `Wire.ReceiveExact` | napcat-rs/crates/qq-client/src/lib.rs:398-445 | the receiver returns exactly the packets sent if and only if no read reaches past a line feed; reads may end anywhere, also inside a character |
| `Wire.OneReadLosesSecond` | napcat-rs/crates/qq-client/src/lib.rs:425-445 | it happens: two packets that arrive in one read yield the first and then the end of the stream |
| `ClientTypes.NormalizedIsAuthority` | napcat-rs/crates/qq-client/src/lib.rs:321-342 | a normalised endpoint is a non-blank host:port without path and query, and normalising it again only trims it |
| `ClientTypes.AuthorityIsRecovered` | napcat-rs/crates/qq-client/src/lib.rs:321-342 | a scheme in which no :// begins, path, query and surrounding white space are dropped and the authority comes back unchanged |
| `ClientTypes.BareAuthorityIsRecovered` | napcat-rs/crates/qq-client/src/lib.rs:321-342 | the same without a scheme, if no :// follows later |
| `MockClient.MockQQClient.constructor` | napcat-rs/crates/qq-client/src/lib.rs:142-154 | a new client is disconnected with empty queues and a timeout of 2000 ms |
| `MockClient.MockQQClient.Connect` | napcat-rs/crates/qq-client/src/lib.rs:159-177 | new value and reply of connect: blank endpoint and logged-in client are refused |
| `MockClient.MockQQClient.LogIn` | napcat-rs/crates/qq-client/src/lib.rs:179-203 | new value and reply of login: needs a connected client and two non-blank credentials |
| `MockClient.MockQQClient.IsLoggedIn` | napcat-rs/crates/qq-client/src/lib.rs:275-287 | a zero timeout is an error, otherwise whether the state is LoggedIn |
| `MockClient.MockQQClient.Send` | napcat-rs/crates/qq-client/src/lib.rs:205-215 | new value and reply of send |
| `MockClient.MockQQClient.Receive` | napcat-rs/crates/qq-client/src/lib.rs:217-220 | receive hands out the head of the queue |
| `MockClient.MockQQClient.Heartbeat` | napcat-rs/crates/qq-client/src/lib.rs:222-241 | new value and reply of heartbeat: the timeout becomes the interval in whole milliseconds |
| `MockClient.MockQQClient.Disconnect` | napcat-rs/crates/qq-client/src/lib.rs:243-254 | disconnect clears everything but the timeout |
| `MockClient.MockQQClient.Inject` | napcat-rs/crates/qq-client/src/lib.rs:259-262 | an injected packet is appended to the inbound queue |
| `MockClient.Refusals` | napcat-rs/crates/qq-client/src/lib.rs:159-287 | exactly which error stops which call, in terms of state and arguments, and what every accepted call changes |
| `MockClient.EveryRunIsCoherent` | napcat-rs/crates/qq-client/src/lib.rs:159-254 | on every sequence of calls: token iff LoggedIn, endpoint (never blank) iff not Disconnected, sent packets or heartbeat imply LoggedIn |
| `MockClient.TimeoutStaysPositive` | napcat-rs/crates/qq-client/src/lib.rs:222-241 | the timeout stays positive exactly when no accepted connect asks for 0 ms and no accepted heartbeat is shorter than 1 ms |
| `MockClient.ShortHeartbeatWedges` | napcat-rs/crates/qq-client/src/lib.rs:222-241 | after an accepted heartbeat below 1 ms every send and heartbeat times out until a disconnect, though the state stays LoggedIn |
| `MockClient.QueuesAreExact` | napcat-rs/crates/qq-client/src/lib.rs:205-220 | between two disconnects received plus queued packets are the injected ones in order, and sent packets are exactly those of accepted sends |
| `TcpClient.LoginAcknowledged` | napcat-rs/crates/qq-client/src/lib.rs:447-479 | the loop succeeds iff a well-formed auth.ok is the first arrival, among four, that is not skipped; result and number of packets taken are those of the deciding arrival |
| `TcpClient.AckIgnoresTheRest` | napcat-rs/crates/qq-client/src/lib.rs:447-479 | what arrives behind the deciding packet has no influence |
| `TcpClient.TokenIsLastMember` | napcat-rs/crates/qq-client/src/lib.rs:462-467 | the token is the last member token if that is a string, whatever other members stand around it, and the word session otherwise |
| `TcpClient.TokenRoundTrip` | napcat-rs/crates/qq-client/src/lib.rs:457-468 | an acknowledgement printed with any members, the last token among them a string, yields exactly that string |
| `TcpClient.LoginOverTheWire` | napcat-rs/crates/qq-client/src/lib.rs:398-479 | from the bytes: up to three other packets, an acknowledgement with any members and anything after it, in aligned reads, give the server's token and take nothing behind it |
| `TcpClient.TcpQQClient.constructor` | napcat-rs/crates/qq-client/src/lib.rs:361-372 | a new client is disconnected, without socket, with a timeout of 2000 ms |
| `TcpClient.TcpQQClient.Connect` | napcat-rs/crates/qq-client/src/lib.rs:484-509 | new value and reply of connect for every dial outcome |
| `TcpClient.TcpQQClient.WaitForLoginAck` | napcat-rs/crates/qq-client/src/lib.rs:447-479 | result and count of the specified acknowledgement; the token is stored on success only, the socket lost only by the deciding arrival |
| `TcpClient.TcpQQClient.LogIn` | napcat-rs/crates/qq-client/src/lib.rs:511-550 | new value and reply of login for every write outcome and every sequence of arrivals |
| `TcpClient.TcpQQClient.Send` | napcat-rs/crates/qq-client/src/lib.rs:552-578 | new value and reply of send for every write outcome |
| `TcpClient.TcpQQClient.Receive` | napcat-rs/crates/qq-client/src/lib.rs:580-585 | new value and reply of receive for every arrival |
| `TcpClient.TcpQQClient.Heartbeat` | napcat-rs/crates/qq-client/src/lib.rs:587-607 | new value and reply of heartbeat, the panic on overlong intervals included |
| `TcpClient.TcpQQClient.Disconnect` | napcat-rs/crates/qq-client/src/lib.rs:609-626 | disconnect ends in Disconnected with everything but the timeout cleared |
| `TcpClient.EveryRunIsCoherent` | napcat-rs/crates/qq-client/src/lib.rs:484-627 | at every call boundary LoggedIn iff a token is stored, endpoint iff not Disconnected, a socket only while open, never Closing |
| `TcpClient.LoginOutcome` | napcat-rs/crates/qq-client/src/lib.rs:511-550 | a login succeeds exactly when nothing refuses it and a good acknowledgement decides; its ticket is the stored token, and a failed login changes neither token nor state |
| `TcpLaws.TicketIsServersToken` | napcat-rs/crates/qq-client/src/lib.rs:511-550 | the returned ticket and the stored token are what the deciding acknowledgement names, or the word session |
| `TcpLaws.LoginFailures` | napcat-rs/crates/qq-client/src/lib.rs:447-479 | once the request is out, exactly which deciding arrival gives which error, and that the socket is lost exactly by the one that loses it; when four other packets come first or too few come at all, the login times out |
| `TcpLaws.Refusals` | napcat-rs/crates/qq-client/src/lib.rs:484-607 | exactly which state, argument, dial or write outcome stops which call with which error, a failed dial included, and what an accepted connect, send or heartbeat changes |
| `TcpLaws.CallsWriteWhatTheyCarry` | napcat-rs/crates/qq-client/src/lib.rs:523-607 | a login, send or heartbeat puts one line on the wire that reads as a packet carrying account and password, the packet, or the interval; a write that fails puts the beginning of it there |
| `TcpLaws.ReceivesAreExact` | napcat-rs/crates/qq-client/src/lib.rs:398-445 | over every run without a disconnect the packets handed out by receives are exactly those that arrive at them while there is a socket, in order, and every receive reports what it met: end of stream, failed read with its error, lost socket |
| `TcpLaws.ReceivesOverTheWire` | napcat-rs/crates/qq-client/src/lib.rs:398-445 | receiving as often as there are packets in the byte stream hands out exactly these packets if and only if no read reaches past a line feed |
| `TcpLaws.FirstReceive` | napcat-rs/crates/qq-client/src/lib.rs:425-445 | the reply to one receive from the bytes: packet, protocol error for a line that is no packet, transport error for one that is no UTF-8, also for an unended last line; nothing at the end, time-out without a read |
| `WireCuts.Garbled` | napcat-rs/crates/qq-client/src/lib.rs:344-355 | lines cut after any byte, one after the other without line feed, parse to nothing, unless there is just one and only its line feed is missing |
| `WireCuts.PeerSees` | napcat-rs/crates/qq-client/src/lib.rs:552-578 | for every sequence of writes, cut after any byte or not, the peer reads the packets of the whole lines in order, those behind an unfinished line unreadable |
| `WireCuts.ReadsAcceptedIffFaithful` | napcat-rs/crates/qq-client/src/lib.rs:552-578 | the peer reads exactly the accepted packets if and only if no failed write let its whole line out or left a part of it before an accepted one |
| `WireCuts.PeerSeesToEnd` | napcat-rs/crates/qq-client/src/lib.rs:425-445 | a peer that, as this client does, also takes what stands behind the last line feed reads one more packet exactly if just a line feed is missing |
| `WireCuts.ReadsToEndIffClean` | napcat-rs/crates/qq-client/src/lib.rs:552-578 | such a peer reads exactly the accepted packets if and only if no failed write let anything out |
| `TcpClient.PeerReads` | napcat-rs/crates/qq-client/src/lib.rs:511-607 | on one connection, for all calls, write outcomes and losses of the socket, what the peer reads, and exactly when it is the login requests, sends and heartbeats whose write succeeded, for a peer that takes an unended last line and for one that does not |
| `TcpClient.CutWriteSpoilsNext` | napcat-rs/crates/qq-client/src/lib.rs:564-576 | it happens: after a write that failed behind its first byte the next packet is reported as sent and lost to the peer |
| `SessionObject.QQClientBackend.constructor` | napcat-rs/crates/protocol/src/lib.rs:177-188 | a new backend is unconnected, with no task |
| `SessionObject.QQClientBackend.AbortTask` | napcat-rs/crates/protocol/src/lib.rs:784-787 | the stored task, if any, is aborted and forgotten |
| `SessionObject.QQClientBackend.Connect` | napcat-rs/crates/protocol/src/lib.rs:779-831 | new value and outcome of connect, failed attempts included |
| `SessionObject.QQClientBackend.Disconnect` | napcat-rs/crates/protocol/src/lib.rs:833-846 | new value after disconnect |
| `SessionObject.QQClientBackend.IsLoggedIn` | napcat-rs/crates/protocol/src/lib.rs:848-853 | connected and logged in |
| `SessionObject.QQClientBackend.SendMessage` | napcat-rs/crates/protocol/src/lib.rs:855-869 | new value and outcome of send |
| `SessionObject.QQClientBackend.Listen` | napcat-rs/crates/protocol/src/lib.rs:871-932 | refused when unconnected or listening, otherwise a new task is stored |
| `SessionObject.QQClientBackend.Deliver` | napcat-rs/crates/protocol/src/lib.rs:896-913 | what one packet makes the listener send, and whether that ends it |
| `SessionObject.QQClientBackend.ListenerLoop` | napcat-rs/crates/protocol/src/lib.rs:891-929 | the loop up to its next sleep or its end sends exactly the specified events and leaves the specified queue and flags |
| `Session.CallsKeepCoherent` | napcat-rs/crates/protocol/src/lib.rs:779-932 | every call keeps flags, configuration and client in agreement, whatever it returns |
| `Session.DialledSettles` | napcat-rs/crates/protocol/src/lib.rs:789-831 | a connect succeeds exactly when the caller-visible condition holds; flags, client and stored endpoint in both cases |
| `Session.SendNeedsLogin` | napcat-rs/crates/protocol/src/lib.rs:855-869 | a send succeeds exactly when the backend is logged in and the connect timeout is not zero, and then appends exactly that packet |
| `Session.SentPacketCarriesMessage` | napcat-rs/crates/protocol/src/lib.rs:195-204 | an accepted message adds one packet whose route is message.private or message.group exactly by the kind of its recipient and whose payload decodes to the message exactly when its payloads fit; nothing else changes |
| `Session.ListenNeedsConnection` | napcat-rs/crates/protocol/src/lib.rs:871-932 | a listener is started exactly on a connected session without one |
| `Session.ZeroTimeoutCannotSend` | napcat-rs/crates/protocol/src/lib.rs:824-831 | it happens: with a connect timeout of zero a connect and login succeed and every message is refused |
| `Session.ReconnectIsReset` | napcat-rs/crates/protocol/src/lib.rs:779-831 | from any two states with the same credentials and timeout a connect to the same endpoint has the same outcome, and on success equal flags, endpoint and client |
| `Session.FailedConnectSticks` | napcat-rs/crates/protocol/src/lib.rs:801-814 | every connect, failed ones included, stores the endpoint it tried |
| `ListenerLaws.SessionStaysCoherent` | napcat-rs/crates/protocol/src/lib.rs:779-932 | between any two calls, in every interleaving with listeners: connected implies not stopping and a matching client, logged in and listening imply connected, listening iff the stored task is in its loop |
| `ListenerLaws.OneListenerAtMost` | napcat-rs/crates/protocol/src/lib.rs:779-932 | at most one listener that is not aborted is in its loop, during calls as well, and it is the stored one |
| `ListenerLaws.ClosingNoticeIsLast` | napcat-rs/crates/protocol/src/lib.rs:927-928 | a listener has left its loop exactly when it sent Disconnected; that is its last event and sent once |
| `ListenerLaws.AbortIsFinal` | napcat-rs/crates/protocol/src/lib.rs:784-787 | an aborted listener sends nothing any more |
| `ListenerLaws.EventsAreExact` | napcat-rs/crates/protocol/src/lib.rs:891-929 | while the receiver lives, events received since the queue was cleared plus the decoding of the queue equal the decoding of all packets injected since then, in order, once each |
| `ListenerLaws.MissedEventEndsListener` | napcat-rs/crates/protocol/src/lib.rs:898-901 | an event nobody received is followed at once by the listener's Disconnected, and that listener then stays silent |
| `ListenerLaws.StoppedListenerEnds` | napcat-rs/crates/protocol/src/lib.rs:892-928 | once the session is closed or told to stop, a listener ends within two of its stretches |
| `ListenerLaws.OpenListenerStays` | napcat-rs/crates/protocol/src/lib.rs:892-901 | in an open session exactly an event that nobody hears ends a listener |
| `ListenerLaws.EmptyQueueWaits` | napcat-rs/crates/protocol/src/lib.rs:911-915 | with nothing to receive a listener sleeps exactly if it has a poll interval |
| `ListenerLaws.NewListenerLooksFirst` | napcat-rs/crates/protocol/src/lib.rs:891-893 | a new listener that finds the session stopped says goodbye and takes no packet |
| `ListenerLaws.ReportsAreDelivered` | napcat-rs/crates/protocol/src/lib.rs:207-223 | whatever mixture of messages, unreadable messages, connection and session notices, errors and other packets a peer sends: what is heard is a beginning of the corresponding messages, notices with their endpoint and warnings with their text, in order, and all of it once the queue is empty |
| `ListenerLaws.TalkIsARun` | napcat-rs/crates/protocol/src/lib.rs:891-929 | the uninterrupted loop is a run of stretches with the same events, queue and end |
| `ListenerLaws.ListenerDrains` | napcat-rs/crates/protocol/src/lib.rs:891-925 | with a lasting receiver an uninterrupted listener empties the queue, sends every packet's events in order and stays |
| `ListenerLaws.CallsAreHalves` | napcat-rs/crates/protocol/src/lib.rs:779-932 | the object's calls are the two halves of the system's calls |
| `SendRoutes.EveryRouteNormalizes` | napcat-rs/crates/api/src/lib.rs:719-789 | every message pushed by any of the four routes passes both validators, has a trimmed non-empty recipient and trimmed id and sender, and is a fixed point of the general route |
| `SendRoutes.WhoGetsThrough` | napcat-rs/crates/api/src/lib.rs:1175-1240 | exactly which requests get through, in terms of the fields the caller wrote; the elements are untouched, and all others are invalid requests |
| `SendRoutes.AppendElement` | napcat-rs/crates/protocol/src/lib.rs:420-451 | one element's rendering is appended |
| `SendRoutes.MessageToPlainText` | napcat-rs/crates/protocol/src/lib.rs:417-461 | the appending loop yields the concatenated renderings, or sender and id when they are empty |
| `SendRoutes.RenderingIsReadBack` | napcat-rs/crates/protocol/src/lib.rs:417-451 | the plain text still tells kind and content of every element, in order, if no text has an opening bracket and no other content a closing one |
| `SendRoutes.AddressIsFallback` | napcat-rs/crates/protocol/src/lib.rs:454-458 | sender and id are rendered exactly for messages of nothing but empty texts |
| `SendRoutes.GuardTripsOnBlankTexts` | napcat-rs/crates/protocol/src/lib.rs:607-612 | the renderer's blank guard trips exactly on messages of blank texts only that are not all empty |
| `SendRoutes.TextRoutesRender` | napcat-rs/crates/api/src/lib.rs:740-789 | messages of the three text routes never trip the guard, render as the text the caller wrote and go to the recipient the caller named |
| `SendRoutes.GeneralRouteCanTrip` | napcat-rs/crates/api/src/lib.rs:719-738 | the general route accepts a message of one space, which the renderer refuses |
| `SendPipeline.EventQueue.constructor` | napcat-rs/crates/api/src/lib.rs:379 | the event queue starts empty |
| `SendPipeline.EventQueue.Emit` | napcat-rs/crates/api/src/lib.rs:476-492 | an event waits for a place and is refused exactly when 64 wait and the dispatcher takes none until the time-out |
| `SendPipeline.EventQueue.DispatchAll` | napcat-rs/crates/api/src/lib.rs:382-386 | the dispatcher takes what is queued, in order, and leaves the queue empty |
| `SendPipeline.QueueConserves` | napcat-rs/crates/api/src/lib.rs:379-386 | in every run accepted events equal those taken followed by those queued, in order, with at most 64 queued |
| `SendPipeline.AcceptedExactlyOnce` | napcat-rs/crates/api/src/lib.rs:1148-1173 | a handler's event is queued or taken exactly when its caller is told it was accepted, and never twice |
| `SendPipeline.SendComesFirst` | napcat-rs/crates/api/src/lib.rs:1148-1173 | with a backend an accepted event was sent successfully before, a failed send emits nothing, and a dispatch failure comes after a successful send |
| `SendPipeline.FailuresUnsentIffNobodyGivesUp` | napcat-rs/crates/api/src/lib.rs:1148-1173 | with a backend, no caller is told of a failure whose message was sent exactly when no handler gives up waiting for a place |
| `SendPipeline.UncrowdedFailuresAreUnsent` | napcat-rs/crates/api/src/lib.rs:379-386 | as long as queued and waiting events never exceed 64, no caller is told of a failure whose message was sent |
| `SendPipeline.FullQueueFailsAfterSend` | napcat-rs/crates/api/src/lib.rs:476-492 | it happens: 64 accepted requests fill the queue, and the next one is sent, times out and is reported as failed |
| `SendPipeline.EmitIsARun` | napcat-rs/crates/api/src/lib.rs:476-492 | emitting alone with the dispatcher is a run of the steps with the same queue, taken events and answer |
| `SendPipeline.DispatchAllIsARun` | napcat-rs/crates/api/src/lib.rs:382-386 | the dispatcher alone is a run of the steps that empties the queue in order |
| `SendPipeline.OnlyNormalMessages` | napcat-rs/crates/api/src/lib.rs:719-789 | every message that reaches backend or bus was normalised by its route |
| `SendPipeline.DroppedIsFinal` | napcat-rs/crates/api/src/lib.rs:1148-1173 | a handler dropped while it sends or waits never answers, and its event never enters the queue |
| `ListenRoute.PiecesJoin` | napcat-rs/crates/api/src/lib.rs:1132-1137 | splitting at commas loses nothing and leaves no comma in a piece |
| `ListenRoute.JoinPieces` | napcat-rs/crates/api/src/lib.rs:1132-1137 | comma-free pieces come back from their joined text |
| `ListenRoute.NamesAreRead` | napcat-rs/crates/api/src/lib.rs:1132-1137 | a comma-separated list of names surrounded by white space asks for exactly these names in lower case |
| `ListenRoute.FilterPrecedence` | napcat-rs/crates/api/src/lib.rs:1107-1130 | type, then types, then post_type: the first that names anything decides, and with none every event passes |
| `ListenRoute.MaxEvents` | napcat-rs/crates/api/src/lib.rs:986 | the limit is the number from 1 to 32 nearest to max_events, or else to limit, or else 8 |
| `ListenRoute.WindowIsLongest` | napcat-rs/crates/api/src/lib.rs:992-1009 | the window is the longest uninterrupted beginning of the received events with at most N of them |
| `ListenRoute.ListenMessages` | napcat-rs/crates/api/src/lib.rs:978-1017 | the loop returns the wanted, serialisable events of that window, in order |
| `ListenRoute.FilterPicks` | napcat-rs/crates/api/src/lib.rs:995-1003 | a filter lets messages through exactly if it has the name message and all other events exactly if it has the name meta_event |
| `ListenRoute.FiltersShareTheWindow` | napcat-rs/crates/api/src/lib.rs:992-1009 | filtered-out events use up places: complementary filters together keep what no filter keeps, at most N |

## Left out

- Sockets, processes, `wasmtime`, HTTP requests, URL parsing, file checks: foreign calls; their outcomes are parameters.
- The SQLite engine, path resolution and connection pooling; its six statements are operations on an abstract table.
- `OneBotHttpBackend` except its text renderer: its listening and status calls are network polling.
- Messages.TextRoundTrip: excludes payloads with a fraction or an exponent, because `serde_json` without its `float_roundtrip` feature does not promise to read back the floating-point number it printed; such numbers are kept as their literal.
- Wire.NestedRoundTrip: excludes the same payloads for the same reason.
- JsonLaws.ValueRoundTrip: excludes the same numbers for the same reason.
- JsonLaws.DocumentRoundTrip: excludes the same numbers for the same reason.
- JsonGrammar.ReaderIsGrammar: takes a number with a fraction or an exponent of any size, where `serde_json` refuses one beyond the range of a double.
- Session.SentPacketCarriesMessage: excludes payloads with a fraction or an exponent, for the reason given for Messages.TextRoundTrip.
- TcpClient.TokenRoundTrip: excludes acknowledgements with such numbers for the same reason; TcpClient.TokenIsLastMember does not.
- MessageReading.MessageIsRead: holds a member that is skipped to the same depth limit and string syntax as one that is used, where `serde_json` is more lenient.
- WireCuts.PeerSees: takes the peer to cut at line feeds, to require UTF-8 and to parse a line as this client does.
- Wire.WireShortest: holds a member that the packet's reader skips to the same depth limit and string syntax as one it uses, where `serde_json` is more lenient.
- ListenerLaws.EventsAreExact: calls a payload unreadable also if only a member that the message's reader skips breaks the depth limit or the string syntax, where `serde_json` is more lenient.
- ListenerLaws.ReportsAreDelivered: excludes payloads with a fraction or an exponent, for the reason given for Messages.TextRoundTrip.
- TcpClient.LoginAcknowledged: treats every arrival as one given outcome; when a read times out is not modelled.
- StorageLaws.BackendsAgree: excludes floating-point values, whose text the SQL store may read back as a neighbouring number, as the reader of `serde_json` may.
- StorageLaws.AgreeIffStorable: excludes floating-point values for the same reason.
- StorageLaws.SqlStepRefines: excludes floating-point values for the same reason.
- RuntimeObject.Runtime.Shutdown: takes the join outcomes in the order the joins complete.
- ListenRoute.ListenMessages: takes the text of each event as given; the layout of the OneBot document is not modelled.
- Session.SendNeedsLogin: is about the mock client behind the backend; over TCP a send can fail for the network's reasons.
- The texts of errors and of decoding warnings, log output, timestamps of heartbeats, real durations.
- Cancellation of a caller's future inside `load`, `unload`, `register_service` and `shutdown`; a dropped send handler is modelled.
- Broadcast lag: a lagging receiver ends a polling loop, ring buffers are not modelled.
- The relay of protocol events to plugins, WebSocket delivery, group, user and friend caches, HTTP routing.
- `napcat-config`, `napcat-cli`, `napcat-desktop`, `napcat-event`, `kinds` and `metadata` of the plugin manager, `validate_timeout`: no property beyond one branch.
