# Runtime bookkeeping of the 3x-ui panel, modelled and proved in Dafny

3x-ui drives an Xray core and a fleet of MTProto sidecars, and serves subscriptions to client
applications. This project models the parts of it that keep state by hand or transform text, and
proves what they are for:

- **Hot reconfiguration** (`JsonModel`, `HotDiff`, `Listeners`, `HotApply`, `HotTheorem`,
  `HotAcceptance`, `HotWitness`): the planner that turns two configurations into API operations, the
  core those operations run on, and the proof of exactly when an accepted plan takes the core from the
  one to the other.
- **Concurrent protocols** (`EventBus`, `SubscriptionCache`): step machines at every lock section and
  channel operation, with invariants over every interleaving.
- **Processes and traffic** (`MtprotoConfig`, `MtprotoManager`, `MtprotoTraffic`, `XrayTraffic`):
  fingerprints, reconciling, and cumulative counters turned into deltas across restarts.
- **Text with round trips** (`Text`, `Collections`, `Sorting`, `Decimal`, `Base64`, `SubscriptionBody`, `ShareLink`,
  `RemarkTemplate`, `RemarkText`, `UiTranslation`, `Jalali`, `ProcessLog`).
- **Smaller machines** (`UniqueNames`, `RateLimit`, `OnlineUsers`, `HealthMonitor`).

Code that updates state appears as classes and loops whose methods are proved against specification
functions; the lemmas are about those functions and about runs of them. The outside world (gRPC,
HTTP, processes, clocks, the operating system) answers through parameters: outcomes of calls, the
current time, the values of counters. Strings are Go's: sequences of bytes, with white space
recognized in its UTF-8 form. JSON is a datatype with unordered names (section 4 of RFC 8259);
base64 follows section 4 of RFC 4648 and percent-encoding section 2.1 of RFC 3986.

`dafny verify dfyconfig.toml` checks the whole project.

## What turned out conditional

- Running an accepted plan on a core with the old configuration gives the core the new one would
  start exactly when three things hold of the two configurations (`HotTheorem.AcceptedDiffLands`).
  Each has inputs at which the planner accepts and it fails:
  - `ClientsConveyed`: every client new or changed in an inbound edited in place sets nothing but what
    the API call carries - email and id, for VLESS a flow, for Trojan the password instead of the id
    (`HotWitness.ConveyedIs`). Another field that the core reads, such as a VMess encryption or a
    level, is lost (`HotWitness.UnsentIsLost`, `HotWitness.EncryptionIsLost`); without the id or
    password the call fails (`HotWitness.NoAccountNoRun`).
  - `PortsFree`: no added inbound would listen where another of the new configuration does, by the
    panel's own rule of conflicting ports (`HotWitness.TakenPortStops`, with
    `HotWitness.EverywhereConflicts` for an example).
  - `RoutingAppliable`: the routing section did not change, or the old one is an object and the new
    one is a single value with nothing after it (`HotWitness.NullRoutingStops`,
    `HotWitness.TrailingRoutingStops`). `ComputeHotDiff` can be handed such sections, but the panel's
    own generator (`internal/web/service/xray.go:148-157`) makes none: it decodes or re-marshals the
    routing, and between sections of that kind this always holds (`HotWitness.GeneratedIsAppliable`).
- A published body reads back as its lines exactly when every line is a share link without line
  breaks and without white space at its ends (`SubscriptionBody.RoundTrip`).
- A share link can be taken apart again exactly when its base holds neither "?" nor "#"
  (`ShareLink.LinkReadsBack`); a base with a query of its own keeps it
  (`ShareLink.QueriedLinkReadsBack`).
- 33 Jalali years are 12053 days exactly from year -2 on, since Go's remainder is negative for
  negative years (`Jalali.CycleExactlyFromYearMinusTwo`).
- Inbounds and outbounds of one tag share a record of the traffic report, with the side of whichever
  came first, so every amount is reported on its own side exactly when no tag is used on both sides
  (`XrayTraffic.EveryLinkIsReported`, `XrayTraffic.SeparateTagsSuffice`). Otherwise amounts are lost
  (`XrayTraffic.SharedTagLosesTraffic`) or credited to the other side
  (`XrayTraffic.SharedTagCreditsTheOther`).
- A counter that goes away and comes back unchanged is reported in full again exactly when the table
  was pruned meanwhile (`XrayTraffic.ReturnIsReported`, `XrayTraffic.ReturnIsBilledAgain`); otherwise
  it is never reported more than was moved (`XrayTraffic.NeverMoreDespiteGaps`).
- A scrape whose process was restarted before the write-back becomes the baseline of the new process.
  In every run a client is billed at most what was counted (`MtprotoTraffic.NeverOverReports`) and at
  least what it grew by over its unbroken stretches of scrapes (`MtprotoTraffic.NeverUnderReports`):
  what passes while a scrape leaves the client out is not billed by that scrape or the next, and for
  a client in every scrape it is the last value minus the first
  (`MtprotoTraffic.FoundAlwaysIsOneStretch`). The bill is exactly that growth when the inbound was not
  restarted between a snapshot of it and the write-back (`MtprotoTraffic.ExactWithoutRestart`, a
  condition on the steps of the run); with such a restart the bill can be higher
  (`MtprotoTraffic.RestartMakesInexact`).
- A rate-limited call is decided right whenever calls come in the order of their clocks
  (`RateLimit.EveryCallIsDecidedRight`). The clock is read before the lock is taken, so they may come
  otherwise, and pruned entries can matter then, contrary to the comment at
  `internal/eventbus/filter.go:38-41`. Every denial is right even so (`RateLimit.DenialsAreRight`), and
  a call is allowed wrongly exactly when one with a later clock got in before it and swept the table
  (`RateLimit.WrongGrantIs`, `RateLimit.ClockRaceGrants`).
- The fingerprints of a sidecar tell any two configurations apart whose strings do not hold the marks
  the fingerprints are joined with (`MtprotoConfig.StructureIsFingerprinted`,
  `MtprotoConfig.SecretsAreFingerprinted`). With such a mark two changes at once can cancel out
  (`MtprotoConfig.MarksConfuseStructures`, `MtprotoConfig.MarksConfuseSecrets`), and even one client
  renamed beside another go unseen (`MtprotoConfig.RenamedUnseen`), contrary to the comments at
  `internal/mtproto/manager.go:81-108`; a change of one structural value alone is always seen
  (`MtprotoConfig.OneChangeIsSeen`), as is one of the only secret (`MtprotoConfig.OneFieldIsSeen`).
- Proxy names are pairwise different for any list of proxies; they are also the first free ones for
  the names the pass began with, unless a proxy is listed twice
  (`UniqueNames.EnsureUniqueProxyNames`).

## Model

| member | source | states |
|---|---|---|
| HotDiff.InboundsByTag | internal/xray/hot_diff.go:450-463 | indexes the inbounds, or fails on an empty or repeated tag |
| HotDiff.SplitSettingsClients | internal/xray/hot_diff.go:213-252 | indexes the clients by email and keeps the rest of the settings, or fails on a client without a unique email |
| HotDiff.ParseOutbounds | internal/xray/hot_diff.go:474-505 | reads the outbounds in order, or fails on a missing or repeated tag |
| HotDiff.ListUserOps | internal/xray/hot_diff.go:188-202 | whatever the order of the map, removals are exactly the clients gone or changed and additions those new or changed, each once |
| HotDiff.DiffInboundUsers | internal/xray/hot_diff.go:165-204 | the user edits of one inbound pair are added to the diff and nothing else changes |
| HotDiff.DiffInbound | internal/xray/hot_diff.go:117-144 | the fate of one old inbound: kept, edited, swapped, removed or refused |
| HotDiff.DiffInbounds | internal/xray/hot_diff.go:103-159 | accepts exactly the inbound changes the API can make, and then lists exactly their operations |
| HotDiff.DiffOutbounds | internal/xray/hot_diff.go:296-340 | accepts exactly when the default outbound stays and tags are readable, and then lists the operations in order |
| HotDiff.DiffRouting | internal/xray/hot_diff.go:346-391 | accepts exactly when the routing sections differ in their reloadable parts only |
| HotDiff.ComputeHotDiff | internal/xray/hot_diff.go:48-98 | succeeds exactly for hot-reloadable pairs, with the planned operations |
| HotTheorem.StaticsAreCompared | internal/xray/hot_diff.go:57-77 | the planner finds no difference exactly when everything the core loads besides inbounds, outbounds and routing is the same |
| HotTheorem.StaticChangeIsRefused | internal/xray/hot_diff.go:71-76 | a change of any of the thirteen sections without a reload API is refused |
| HotAcceptance.AcceptedExactly | internal/xray/hot_diff.go:48-98 | said of the two configurations alone: when exactly the planner accepts |
| HotAcceptance.InboundsAcceptedExactly | internal/xray/hot_diff.go:103-159 | when exactly old inbounds may stay, go or change and new ones come: tags, protected ones, REALITY, reverse tags, editable clients, readable sections |
| HotAcceptance.OutboundsAcceptedExactly | internal/xray/hot_diff.go:296-340 | both lists readable, with a tag of its own on every element, and begun alike |
| HotAcceptance.RoutingAcceptedExactly | internal/xray/hot_diff.go:346-391 | no change, or sections that differ in rules and balancers only |
| HotAcceptance.ClientsAreEditedInPlace | internal/xray/hot_diff.go:117-204 | a VLESS, VMess or Trojan inbound that differs in its clients only is never removed and added again |
| HotAcceptance.UserOpsAreOfEditables | internal/xray/hot_diff.go:161-170 | users are only edited on VLESS, VMess and Trojan inbounds |
| HotApply.RemoveUsersEffect | internal/web/service/xray.go:1168-1173 | removing users that are there succeeds in any order and takes out exactly those |
| HotApply.AddUsersEffect | internal/xray/api.go:668-703 | user additions on free emails whose accounts can be built succeed in any order and file exactly what the calls carry |
| HotApply.AddedAreSent | internal/xray/api.go:668-680 | the additions only run when the account of every client can be built |
| HotApply.AccountsExactly | internal/xray/api.go:533-580 | which strings a client must have for its account of each protocol, and that they are taken over |
| HotApply.CallsAreStrict | internal/xray/api.go:399-428 | removing what is not there or the default outbound, and adding what is there, is refused |
| HotApply.DelInboundsEffect | internal/web/service/xray.go:1174-1179 | removing existing inbounds removes exactly those |
| HotApply.AddInboundsFit | internal/web/service/port_conflict.go:90-100 | inbounds on free tags are added exactly when none would listen where a running or another added one does |
| HotApply.ConflictIs | internal/web/service/port_conflict.go:90-186 | two handlers conflict exactly when they share a port, an address and a transport |
| Listeners.TransportsByProtocol | internal/web/service/port_conflict.go:21-88 | the transports of an inbound by protocol and network |
| Listeners.TransportsByList | internal/web/service/port_conflict.go:56-74 | and by the list some protocols carry in their settings |
| Listeners.SomeTransport | internal/web/service/port_conflict.go:84-87 | whatever the settings say, a listener needs some transport |
| Listeners.ListenIs | internal/web/service/port_conflict.go:90-99 | the address of a listener is its listen string, and none is the empty one, which stands for all |
| Listeners.NamesAre | internal/web/service/port_conflict.go:66-73 | a list names exactly the trimmed parts between its commas |
| Listeners.TrimmedIs | internal/web/service/port_conflict.go:66-73 | trimming takes white space off both ends and nothing else |
| HotApply.AddInboundsEffect | internal/web/service/xray.go:1192-1197 | and then exactly those handlers are new |
| HotApply.DelOutboundsEffect | internal/web/service/xray.go:1180-1185 | removing existing outbounds removes exactly those |
| HotApply.AddOutboundsEffect | internal/web/service/xray.go:1186-1191 | adding outbounds on free tags adds exactly those and keeps the default one |
| HotTheorem.EditLands | internal/xray/hot_diff.go:165-204 | an edited inbound ends up as the new configuration loads it exactly when the calls convey every new or changed client in full |
| HotTheorem.RemovalsLand | internal/xray/hot_diff.go:117-144 | every removal of an accepted diff is legal when it runs |
| HotTheorem.AdditionsFit | internal/web/service/xray.go:1166-1167 | after the removals the inbound additions run exactly when nothing in the new configuration is in their way |
| HotTheorem.AdditionsLand | internal/xray/hot_diff.go:145-158 | and then every tag of the new configuration has its handler |
| HotTheorem.UsersLand | internal/xray/hot_diff.go:188-202 | user additions run exactly when every account can be built, and give the new handlers exactly when every client is conveyed in full |
| HotTheorem.InboundsLand | internal/xray/hot_diff.go:103-159 | the removals of inbounds and users always run; the additions run, and land on the new handlers, exactly under those conditions |
| HotTheorem.OutboundsLand | internal/xray/hot_diff.go:296-340 | the outbound operations take the running outbounds to the new ones, same default |
| HotTheorem.RoutingLands | internal/xray/hot_diff.go:346-368 | the routing operation loads the new rules and keeps the strategy the core cannot reload |
| HotTheorem.AcceptedDiffLands | internal/xray/hot_diff.go:48-98 | an accepted plan runs to its end exactly when ports are free, accounts can be built and the routing can be applied; it gives the core the new configuration starts exactly when moreover every client is conveyed in full |
| HotTheorem.AcceptedDiffSparesProtected | internal/xray/hot_diff.go:117-159 | no operation touches the api inbound or the default outbound, and users are edited only on inbounds neither removed nor added |
| HotTheorem.AcceptedDiffNeverSwapsReality | internal/xray/hot_diff.go:123-136 | an inbound with REALITY or a reverse-tagged client in both configurations is never removed and added again |
| HotTheorem.ProtectedTagIsTheRunningOne | internal/xray/hot_diff.go:508-517 | the protected tag is the one the api section names, or "api" when bytes follow the section, and when both configurations give the same tag |
| HotTheorem.AdditionsFindTheirPortsFree | internal/web/service/xray.go:1166-1167 | when no two inbounds of the new configuration conflict no addition finds its port taken, so inbounds can trade ports |
| HotWitness.ConveyedIs | internal/xray/api.go:533-580 | a client is conveyed in full exactly when its account can be built and it sets only fields the account has |
| HotWitness.OneMoreLands | internal/xray/api.go:668-703 | adding one client to a running inbound equals a restart exactly when the call conveys it, and runs exactly when its account can be built |
| HotWitness.UnsentIsLost | internal/xray/api.go:533-580 | a client with any other field set is accepted by the planner and lands on another core, given that the core reads the field |
| HotWitness.EncryptionIsLost | internal/web/service/xray.go:220-226 | the encryption the panel writes for a VMess client is such a field |
| HotWitness.NoAccountNoRun | internal/xray/api.go:60-72 | a client without its id or password is accepted by the planner and stops the plan |
| HotWitness.NullRoutingStops | internal/xray/hot_diff.go:346-391 | a null routing section in two layouts, if the planner is handed one, is accepted and cannot be applied |
| HotWitness.TrailingRoutingStops | internal/xray/api.go:234-247 | so is a routing section with bytes after its value |
| HotWitness.GeneratedIsAppliable | internal/web/service/xray.go:148-157 | between routing sections as the panel generates them, every accepted change can be applied |
| HotWitness.TakenPortStops | internal/web/service/port_conflict.go:90-100 | any inbound that conflicts with a running one is accepted as an addition and cannot be created |
| HotWitness.EverywhereConflicts | internal/web/service/port_conflict.go:90-100 | an inbound on every address conflicts with one on a single address of its port |
| EventBus.Bus.Subscribe | internal/eventbus/bus.go:58-78 | registers at the end, replaces a subscriber of the same id, does nothing once stopped |
| EventBus.Bus.Unsubscribe | internal/eventbus/bus.go:83-93 | takes the subscriber of that id off the list and closes its quit channel |
| EventBus.Bus.Publish | internal/eventbus/bus.go:97-105 | appends the stamped event to the channel, or drops it when that is full |
| EventBus.Bus.FanOut | internal/eventbus/bus.go:115-136 | offers the event to every registered subscriber in turn |
| EventBus.Bus.WorkOne | internal/eventbus/bus.go:140-152 | one queued event is taken and handled |
| EventBus.StepKeepsInv | internal/eventbus/bus.go:31-175 | every step of every goroutine keeps the registry, channel and delivery invariants |
| EventBus.EveryRunDelivers | internal/eventbus/bus.go:97-152 | in every interleaving what a subscriber handled, then holds, then has queued is an in-order duplicate-free run of accepted events, and a registered subscriber misses an event only when its own queue was full |
| EventBus.RunKeepsHistory | internal/eventbus/bus.go:140-152 | what was handled stays handled, in the same order |
| EventBus.NoAddAfterStop | internal/eventbus/bus.go:58-78 | once Stop has marked the bus no goroutine is added to the wait group |
| EventBus.WaitGroupCountsGoroutines | internal/eventbus/bus.go:169-175 | the wait-group count is the number of live goroutines |
| EventBus.RegistryIsSound | internal/eventbus/bus.go:58-93 | registered ids are pairwise different and a quit channel is closed exactly when its subscriber is off the list |
| EventBus.QuitClosesOnce | internal/eventbus/bus.go:58-93 | only an open quit channel is closed, as its subscriber leaves, and it never opens again |
| EventBus.StopFinishes | internal/eventbus/bus.go:169-175 | after Stop marked the bus, with no more callers, every schedule of the goroutines is bounded by the work left, and when none can move the wait group is at zero |
| EventBus.StopCanFinish | internal/eventbus/bus.go:169-175 | and from every state with the done channel closed there is such a schedule to the end |
| EventBus.PublishLosesOnlyWhenFull | internal/eventbus/bus.go:100-104 | an event is dropped at publication only when the channel is full |
| EventBus.FreshBusHolds | internal/eventbus/bus.go:43-105 | a fresh bus accepts as many events in a row as it was made for, 256 by default, in order, and no more |
| EventBus.RegistrationIsById | internal/eventbus/bus.go:58-78 | a later subscription of the same id replaces the earlier one |
| SubscriptionCache.Cache.Lookup | internal/sub/external_subscription.go:55-68 | a fresh entry is a hit, otherwise the call waits for a fetch in flight or leads a new one |
| SubscriptionCache.Cache.Trim | internal/sub/external_subscription.go:92-110 | leaves at most 256 entries, keeps the one just stored, and evicts nothing newer than what it keeps |
| SubscriptionCache.Cache.Keep | internal/sub/external_subscription.go:84-87 | stores the fetched list and trims |
| SubscriptionCache.StepKeepsInv | internal/sub/external_subscription.go:49-90 | every lock section of every call keeps the cache, in-flight and caller invariants |
| SubscriptionCache.OneFetcher | internal/sub/external_subscription.go:61-69 | two calls never fetch the same URL at once |
| SubscriptionCache.EveryRun | internal/sub/external_subscription.go:49-110 | in every interleaving: one fetcher a URL, every waiter answered exactly as its leader, no answer but none or a list fetched for that URL, at most 256 entries |
| SubscriptionCache.ClosedOnce | internal/sub/external_subscription.go:70-75 | a done channel is found open when it is closed |
| SubscriptionCache.StepKeepsAnswers | internal/sub/external_subscription.go:49-90 | an answer given never changes |
| SubscriptionCache.StepKeepsFinishedFetches | internal/sub/external_subscription.go:61-75 | a finished fetch never changes, so what waiters read is final |
| SubscriptionCache.HitIsFresh | internal/sub/external_subscription.go:56-60 | a call is answered without a request exactly when its URL is blank or has an entry less than five minutes old, and then with the last list fetched for it |
| SubscriptionCache.MissWaitsOrLeads | internal/sub/external_subscription.go:61-82 | any other call joins the fetch in flight for its URL or opens one, keeping the cached list for a failure |
| SubscriptionCache.FetchIsAnswered | internal/sub/external_subscription.go:55-90 | in every interleaving that call is answered the list cached when it came, or nothing, if its fetch fails, and the fetched list if it succeeds |
| SubscriptionCache.FailureFallsBack | internal/sub/external_subscription.go:77-83 | a failed fetch publishes what its leader kept, which is the last list fetched for the URL |
| SubscriptionCache.StoredSurvives | internal/sub/external_subscription.go:84-89 | the list just stored survives its own eviction and is what the waiters get |
| SubscriptionCache.StoreEvictsTheOldest | internal/sub/external_subscription.go:92-110 | storing evicts nothing as long as 256 entries suffice, and otherwise leaves 256, the oldest going first |
| SubscriptionCache.WaiterIsServed | internal/sub/external_subscription.go:61-75 | no waiter is stranded: its fetch is done or its leader can always go on towards closing it |
| SubscriptionCache.StepsRunOut | internal/sub/external_subscription.go:49-90 | every lock section or wake-up leaves the calls at hand less to do |
| SubscriptionCache.CallsAreAnswered | internal/sub/external_subscription.go:49-90 | however the calls at hand are scheduled, they run out of steps, and once none can take another each has its answer |
| MtprotoConfig.ComputeWanted | internal/mtproto/manager.go:86-116 | both fingerprints of an instance |
| MtprotoConfig.OrderIsNoChange | internal/mtproto/manager.go:104-116 | reordering the secrets changes neither fingerprint |
| MtprotoConfig.OneChangeIsSeen | internal/mtproto/manager.go:81-101 | a change of one structural value alone changes the fingerprint, whatever the others hold |
| MtprotoConfig.NoAddressIsAny | internal/mtproto/manager.go:73-79 | no listen address counts as 0.0.0.0 |
| MtprotoConfig.StructureIsFingerprinted | internal/mtproto/manager.go:81-101 | for addresses without a vertical bar the fingerprints of two instances are equal exactly when all structural values are |
| MtprotoConfig.SecretsAreFingerprinted | internal/mtproto/manager.go:103-116 | for secrets without the marks they are written with, exactly when the secrets are the same in some order |
| MtprotoConfig.OneFieldIsSeen | internal/mtproto/manager.go:109-113 | what one secret is written as changes with any one of its fields |
| MtprotoConfig.MarksConfuseStructures | internal/mtproto/manager.go:81-101 | two instances with such an address that differ and have one fingerprint |
| MtprotoConfig.RenamedUnseen | internal/mtproto/manager.go:103-116 | a client renamed beside another one, both names with such marks, and no change of the fingerprint |
| MtprotoConfig.MarksConfuseSecrets | internal/mtproto/manager.go:103-116 | two secrets with such a mark that differ and have one fingerprint |
| MtprotoManager.Manager.EnsureLocked | internal/mtproto/manager.go:297-349 | one instance is left alone, reloaded, restarted or started, with the outcome of each attempt accounted for |
| MtprotoManager.Manager.Remove | internal/mtproto/manager.go:352-361 | the process of that id is forgotten, the others stay |
| MtprotoManager.Manager.Reconcile | internal/mtproto/manager.go:366-386 | unwanted processes go, then every desired instance is ensured in turn |
| MtprotoManager.Manager.StopAll | internal/mtproto/manager.go:389-397 | the loop leaves no process and serves no configuration afterwards |
| MtprotoManager.StoppedStartsAfresh | internal/mtproto/manager.go:389-397 | the next call for an inbound then gets a process never seen before, with an empty baseline, exactly when one can be started |
| MtprotoManager.EveryRunIsFaithful | internal/mtproto/manager.go:297-397 | after any run of calls with any outcomes, recorded fingerprints are those of what each process last accepted |
| MtprotoManager.NoSharedProcess | internal/mtproto/manager.go:297-349 | two ids never share a process |
| MtprotoManager.EnsureServes | internal/mtproto/manager.go:297-349 | a call succeeds exactly when the wanted configuration is then served, and touches no other entry |
| MtprotoManager.ReloadKeepsProcess | internal/mtproto/manager.go:305-314 | a live reload keeps process, port, token and traffic baseline |
| MtprotoManager.ReplacesExactlyWhenNeeded | internal/mtproto/manager.go:287-349 | a process is replaced exactly when dead, changed in structure, or unwilling to reload: by a fresh one with an empty baseline, or by none if none starts; any other keeps port, token and baseline |
| MtprotoManager.ReconcileReaches | internal/mtproto/manager.go:366-386 | with starts succeeding the managed ids are exactly the desired ids |
| MtprotoManager.ReconcileServes | internal/mtproto/manager.go:366-386 | with distinct ids every desired configuration is then served |
| MtprotoManager.ReconcileReplacesExactly | internal/mtproto/manager.go:363-386 | reconciling recovers from crashes: every desired process that must be replaced is, by a fresh one, exactly if one starts, and no other is |
| MtprotoManager.SecondReconcileIsIdle | internal/mtproto/manager.go:366-386 | a second pass with the secrets of each inbound in another order does nothing while the processes live |
| MtprotoTraffic.Deltas | internal/mtproto/manager.go:431-453 | one report line for every client that moved bytes since the last scrape and none other, bytes in as up and bytes out as down, the clients online, and the new baseline |
| MtprotoTraffic.ScrapeIsTheBill | internal/mtproto/manager.go:425-459 | the scrape of the step machine credits every client with exactly what that report charges |
| MtprotoTraffic.ScrapeIsSound | internal/mtproto/manager.go:425-459 | reporting against a good baseline stays within the counters and leaves a good baseline |
| MtprotoTraffic.StepKeepsInv | internal/mtproto/manager.go:402-461 | every snapshot, scrape, write-back, launch and removal keeps the accounting invariant |
| MtprotoTraffic.NeverOverReports | internal/mtproto/manager.go:402-461 | in every interleaving a client is never billed more than its processes counted |
| MtprotoTraffic.NeverUnderReports | internal/mtproto/manager.go:431-453 | in every interleaving a client is billed at least what it grew by over its unbroken stretches of scrapes of a process |
| MtprotoTraffic.ExactWithoutRestart | internal/mtproto/manager.go:431-453 | and exactly that growth in every run in which the inbound is not restarted between a snapshot of it and its write-back |
| MtprotoTraffic.FoundAlwaysIsOneStretch | internal/mtproto/manager.go:431-453 | for a client that every scrape of the process finds, once it is seen, that growth is its last value minus its first |
| MtprotoTraffic.OnlyRestartsStray | internal/mtproto/manager.go:455-459 | over any run a write-back hits another process of the inbound exactly when it was launched between the snapshot and the write-back and not dropped since |
| MtprotoTraffic.QuietIsUndisturbed | internal/mtproto/manager.go:455-459 | never launching the inbound between its snapshot and its write-back is enough |
| MtprotoTraffic.RestartMakesInexact | internal/mtproto/manager.go:455-459 | a run with such a restart in which a client that did not grow between scrapes is billed five |
| XrayTraffic.XrayAPI.GetTraffic | internal/xray/api.go:736-789 | one poll: new baselines, the report, pruning, and no change at all when the query fails |
| XrayTraffic.XrayAPI.Note | internal/xray/api.go:759-768 | the amount of one counter, from zero when unseen or smaller |
| XrayTraffic.XrayAPI.Prune | internal/xray/api.go:776-786 | the rebuilt table keeps the baseline of every live counter, changes none, and holds at most twice as many as there are live counters |
| XrayTraffic.AmountIsReported | internal/xray/api.go:756-768 | the amount a poll accounts for is the one in its report, and only the first pass reports nothing |
| XrayTraffic.TableIsBounded | internal/xray/api.go:776-786 | at most twice as many baselines as live counters are left |
| XrayTraffic.GrowthIsReported | internal/xray/api.go:754-773 | a counter in every poll that never decreases is reported exactly its growth since the baseline pass |
| XrayTraffic.NewcomerIsReported | internal/xray/api.go:764-766 | a counter that appears later is reported in full |
| XrayTraffic.NeverMoreThanMoved | internal/xray/api.go:764-767 | across any restarts of the core no counter is reported more than was moved |
| XrayTraffic.PruningIsInvisible | internal/xray/api.go:776-786 | pruning changes no amount of a counter in consecutive polls |
| XrayTraffic.NeverMoreDespiteGaps | internal/xray/api.go:764-786 | nor is a counter that comes and goes, as long as no poll prunes the table while it is away with something shown |
| XrayTraffic.ReturnIsReported | internal/xray/api.go:764-786 | a counter back after an absence is reported its growth exactly when no poll pruned meanwhile, it had shown nothing, or it restarted; otherwise in full |
| XrayTraffic.ReturnIsBilledAgain | internal/xray/api.go:776-786 | for any three counters, polls that leave one out and prune report it in full a second time though it moved nothing |
| XrayTraffic.EveryLinkIsReported | internal/xray/api.go:848-872 | every inbound and outbound amount is reported in a record of its own side exactly when no tag but "api" is used on both sides and repeated counters agree |
| XrayTraffic.SeparateTagsSuffice | internal/xray/api.go:848-872 | for a poll of distinct counters that is decided by their names alone |
| XrayTraffic.EveryUserIsReported | internal/xray/api.go:875-890 | every user amount is reported |
| XrayTraffic.NoOtherLinks | internal/xray/api.go:848-872 | no amount is reported for a tag and direction that no counter of them showed, and none for the tag "api" |
| XrayTraffic.NoOtherUsers | internal/xray/api.go:875-890 | nor for a user |
| XrayTraffic.SharedTagLosesTraffic | internal/xray/api.go:848-872 | a tag used on both sides loses what the inbound sent |
| XrayTraffic.SharedTagCreditsTheOther | internal/xray/api.go:855-871 | or credits the inbound with what the outbound received |
| Base64.DecodeEncode | internal/sub/external_subscription.go:179-181 | decoding undoes encoding |
| Base64.EncodeShape | internal/sub/controller.go:423 | encoded text is whole quanta of the alphabet and padding |
| Base64.AlphabetIs | internal/sub/controller.go:423 | the sextets are written in the order of the standard alphabet |
| Base64.OnlyDigitsHaveValues | internal/sub/external_subscription.go:178-183 | and nothing but those characters, or those of the URL variant, is decoded |
| Base64.DecodeRawUrlEncode | internal/sub/external_subscription.go:181-183 | decoding undoes encoding in the URL alphabet without padding |
| Base64.ColonNeverDecodes | internal/sub/external_subscription.go:179-184 | a text with a colon decodes in neither alphabet |
| SubscriptionBody.WriteBody | internal/sub/controller.go:404-427 | the body is every line with a newline, encoded or plain |
| SubscriptionBody.BodyIs | internal/sub/controller.go:404-427 | routing rules follow the links on a line of their own, and encoding is put around the whole |
| SubscriptionBody.PadBase64Sub | internal/sub/external_config.go:170-175 | pads to whole quanta |
| SubscriptionBody.DecodeSubscriptionBody | internal/sub/external_subscription.go:148-168 | the links read from a body |
| Text.SpacesAre | internal/sub/external_subscription.go:148-166 | what is trimmed are exactly the code points Go counts as white space, in their UTF-8 form |
| SubscriptionBody.KeepLinks | internal/sub/external_subscription.go:157-166 | keeps exactly the trimmed lines that look like links, in order |
| SubscriptionBody.CommentIsNoLink | internal/sub/external_subscription.go:159-166 | a trimmed line with a scheme is a link unless it begins with "#" |
| SubscriptionBody.BodyReadsBackLineByLine | internal/sub/external_subscription.go:148-185 | an encoded body, and a plain one with a colon, reads back as the links of each published line |
| SubscriptionBody.ReadLinksArePublishable | internal/sub/external_subscription.go:155-166 | every link read could have been published |
| SubscriptionBody.EveryFormReadsAlike | internal/sub/external_subscription.go:170-185 | a list of links reads the same as it is and encoded in either alphabet, broken over lines anywhere, with or without padding |
| SubscriptionBody.CleanDrops | internal/sub/external_subscription.go:171-177 | blanks, tabs and line breaks are dropped before decoding and nothing else is |
| SubscriptionBody.RoundTrip | internal/sub/controller.go:404-427 | reading a published body gives the published lines exactly when each is a trimmed share link on one line |
| SubscriptionBody.FetchedRoundTrip | internal/sub/external_subscription.go:112-140 | fetched over HTTP the same holds up to the size limit, beyond which the fetch fails |
| SubscriptionBody.FetchFails | internal/sub/external_subscription.go:112-140 | a fetch fails exactly without an answer, outside 200 to 299, or over two mebibytes |
| ShareLink.EscapeReadsBack | internal/sub/service.go:1814-1826 | an escaped query value reads back and uses no reserved character |
| ShareLink.UserinfoReadsBack | internal/sub/service.go:896-898 | an encoded userinfo or fragment reads back whether or not "+" is taken for a space |
| ShareLink.ByteIsEscaped | internal/sub/service.go:1825 | letters, digits and four marks stay, a space becomes "+", any other byte "%" and two digits |
| ShareLink.EitherCase | internal/sub/service.go:1825 | the reader takes hexadecimal digits in either case |
| ShareLink.AppendQueryAndFragment | internal/sub/service.go:1807-1840 | base, sorted query of the effective parameters and fragment, one after the other |
| ShareLink.EffectiveParams | internal/sub/service.go:1813-1822 | the override replaces an existing security value and the TLS hints are left out on demand |
| ShareLink.EffectiveIs | internal/sub/service.go:1803-1824 | exactly the four TLS hints go on demand, and only a given `security` is replaced |
| ShareLink.LinkReadsBack | internal/sub/service.go:1795-1840 | base, parameters and fragment are recovered exactly when the base has neither "?" nor "#" |
| ShareLink.QueriedLinkReadsBack | internal/sub/service.go:1825-1830 | a base with its own query keeps it and the parameters follow |
| ShareLink.OverrideReadsBack | internal/sub/service.go:1803-1822 | the recovered parameters under an override are the given ones with security replaced and hints removed |
| RemarkTemplate.FilterRemarkTemplate | internal/sub/remark_vars.go:550-559 | the segments with anything left, joined again |
| RemarkTemplate.FilterRemarkSegment | internal/sub/remark_vars.go:567-590 | a segment without removed tokens is trimmed, any other is the join of its kept runs |
| RemarkTemplate.KeptRunNames | internal/sub/remark_vars.go:592-608 | cutting a run back to its tokens loses none and makes none |
| RemarkTemplate.NamesConcat | internal/sub/remark_vars.go:39-61 | joining texts at a character outside tokens, or at a token, creates no token |
| RemarkTemplate.RunsNames | internal/sub/remark_vars.go:580-589 | the runs of a segment hold the tokens not removed, in order |
| RemarkTemplate.FilterKeepsTheOthers | internal/sub/remark_vars.go:550-608 | the filtered template has exactly the tokens outside the removed set, in order |
| RemarkTemplate.FilterIsIdempotent | internal/sub/remark_vars.go:550-608 | filtering twice is filtering once |
| RemarkText.UntouchedSegment | internal/sub/remark_vars.go:567-578 | a segment without removed tokens, such as literal text, is only trimmed |
| RemarkText.UntouchedTemplate | internal/sub/remark_vars.go:550-559 | a template without removed tokens comes out as its segments, trimmed, less the blank ones |
| RemarkText.TouchedSegment | internal/sub/remark_vars.go:579-608 | between removed tokens all text from a first kept token to the last stays as it is, and the text around those exactly on the sides where no token was removed; pieces without tokens go |
| RemarkText.EverySegmentIsWoven | internal/sub/remark_vars.go:39-61 | every segment is such pieces with removed tokens between them |
| RemarkText.TokenBegins | internal/sub/remark_vars.go:39-61 | a name of capitals and underscores in double braces is a token |
| RemarkText.OnlySuchTokens | internal/sub/remark_vars.go:39-61 | and nothing else is |
| UiTranslation.TranslateUISingleBrackets | internal/sub/remark_vars.go:100-124 | single-brace tokens are written in double braces, everything else copied |
| UiTranslation.TokenIsTranslated | internal/sub/remark_vars.go:81-118 | after text without braces each of the thirteen tokens becomes its internal one and the text stays |
| UiTranslation.OthersAreCopied | internal/sub/remark_vars.go:97-121 | every other name stays in its single braces |
| UiTranslation.DoubledAreCopied | internal/sub/remark_vars.go:104-121 | and every name in double braces stays too |
| UiTranslation.NameComesFromText | internal/sub/remark_vars.go:100-124 | a translation begins with a token and its closing brace only if the text did |
| UiTranslation.TranslationIsIdempotent | internal/sub/remark_vars.go:100-124 | translating twice is translating once, on every text |
| Jalali.GregorianToJalali | internal/sub/remark_vars.go:410-451 | returns a valid date as many days from 1402/10/11 as the Gregorian date is from 2024-01-01 |
| Jalali.WalkForward | internal/sub/remark_vars.go:423-437 | the walk over later months lands on the day that many days on |
| Jalali.WalkBackward | internal/sub/remark_vars.go:438-450 | the walk over earlier months lands on the day that many days back |
| Jalali.ReferenceConverts | internal/sub/remark_vars.go:418-421 | the reference dates are the same day |
| Jalali.KnownDates | internal/sub/remark_vars.go:410-451 | 2024-01-01 is 1402/10/11, 2024-03-20 is 1403/01/01 and 2025-03-20 is 1403/12/30, and no other date |
| Jalali.LeapYearsAre | internal/sub/remark_vars.go:466-475 | the leap years from 1387 to 1419 |
| Jalali.DivisionTruncates | internal/sub/remark_vars.go:411-416 | the division of the formula is Go's, toward zero |
| Jalali.ConversionIsUnique | internal/sub/remark_vars.go:453-475 | no two Jalali dates are the same day |
| Jalali.JulianDaysAreConsecutive | internal/sub/remark_vars.go:411-416 | the day-number formula counts on across month ends, year ends and the 4/100/400 leap rule |
| Jalali.ConsecutiveDays | internal/sub/remark_vars.go:410-451 | consecutive Gregorian days give consecutive Jalali days |
| Jalali.CycleMovesTheYear | internal/sub/remark_vars.go:466-475 | 12053 days move a Jalali date of a non-negative year by exactly 33 years |
| Jalali.CycleExactlyFromYearMinusTwo | internal/sub/remark_vars.go:468-475 | 33 years are 12053 days exactly from year -2 on |
| ProcessLog.ProcLogWriter.Write | internal/mtproto/process.go:67-81 | appends and forwards every complete line |
| ProcessLog.ProcLogWriter.Flush | internal/mtproto/process.go:85-93 | forwards the unfinished line |
| ProcessLog.WriteTwice | internal/mtproto/process.go:67-81 | where the output is cut into writes makes no difference |
| ProcessLog.LinesSurviveChunking | internal/mtproto/process.go:67-102 | however the output is cut, the forwarded lines are the non-blank trimmed lines of the stream, no newline stays buffered, and the last is remembered |
| UniqueNames.FreeName | internal/sub/clash_service.go:126-132 | the first free name, found within one more try than names taken |
| UniqueNames.TriedAreTaken | internal/sub/clash_service.go:126-132 | as many candidates taken, as many names taken: the search ends |
| UniqueNames.AssignedAreDistinct | internal/sub/clash_service.go:119-136 | the names of a pass are pairwise different and new |
| UniqueNames.AssignedIsUnique | internal/sub/clash_service.go:119-136 | the outcome of a pass is determined |
| UniqueNames.FreeBaseIsKept | internal/sub/clash_service.go:125-133 | a name not taken when its turn comes is kept |
| UniqueNames.DistinctAreLeftAlone | internal/sub/clash_service.go:119-136 | names that are distinct already stay as they are |
| UniqueNames.EnsureUniqueProxyNames | internal/sub/clash_service.go:119-145 | afterwards every proxy has a non-empty name and different proxies different ones, each the first free one at its turn; usable names are left alone |
| UniqueNames.UnnamedIsCalled | internal/sub/clash_service.go:138-145 | a proxy without a name is called by its type, server and port, or by its place |
| UniqueNames.PeerEmails | internal/database/db.go:469-486 | the peers of an inbound get the first free emails in turn |
| UniqueNames.PeersInOrder | internal/database/db.go:469-486 | every well-formed peer is called after its own place, and malformed ones get none |
| UniqueNames.PeerIsCalled | internal/database/db.go:469-486 | by the remark, or "wg", with its comment or its place |
| UniqueNames.InboundEmails | internal/database/db.go:633-646 | the migrated inbounds get the first free emails in turn |
| UniqueNames.InboundIsCalled | internal/database/db.go:633-646 | each inbound is called by its remark, or "mtproto" |
| UniqueNames.DashedIs | internal/database/db.go:469-486 | only spaces are replaced, each by a dash, in place |
| UniqueNames.EmailShape | internal/database/db.go:469-486 | an allocated email is new, not empty and without spaces |
| RateLimit.RateLimiter.Allow | internal/eventbus/filter.go:25-36 | prunes, decides and notes the send |
| RateLimit.RateLimiter.PruneLocked | internal/eventbus/filter.go:42-52 | at most once a cooldown, drops exactly the elapsed entries |
| RateLimit.EveryCallIsDecidedRight | internal/eventbus/filter.go:25-52 | a call is allowed exactly when no allowed call of its key was made less than a cooldown ago, as if nothing were pruned |
| RateLimit.NothingTwoCooldownsOld | internal/eventbus/filter.go:42-52 | no entry is ever two positive cooldowns old |
| RateLimit.DecisionIs | internal/eventbus/filter.go:25-52 | whatever the order of the clocks, a call is allowed exactly when the last allowed call of its key is a cooldown ago, was swept away since, or does not exist |
| RateLimit.DenialsAreRight | internal/eventbus/filter.go:25-36 | every denied call has an allowed one of its key less than a cooldown before it |
| RateLimit.WrongGrantIs | internal/eventbus/filter.go:27-52 | a call is allowed despite such a one exactly when a call in between with a later clock swept the latest of them away |
| RateLimit.ClockRaceGrants | internal/eventbus/filter.go:27-28 | three calls, one of them overtaken on its way to the lock, of which the last is wrongly allowed |
| OnlineUsers.Process.RefreshLocalOnline | internal/xray/process.go:423-457 | notes the active names, drops the stale ones and lists every other once |
| OnlineUsers.ListedExactlyWhileRecent | internal/xray/process.go:423-457 | a name is listed exactly when a report less than a grace period ago named it |
| HealthMonitor.Monitor.Step | internal/tunnelmonitor/monitor.go:168-205 | one probe: the counter, the attempt and the recovery time |
| HealthMonitor.NormalizeIsProjection | internal/tunnelmonitor/monitor.go:90-111 | a normalized configuration is within bounds, and such a one is left alone |
| HealthMonitor.DefaultsAre | internal/tunnelmonitor/monitor.go:90-111 | what a configuration without numbers stands for |
| HealthMonitor.AttemptsExactlyWhenDue | internal/tunnelmonitor/monitor.go:168-205 | recovery is attempted exactly after a threshold of failures in a row and a cooldown since the last recovery |
| HealthMonitor.RecoveriesAreApart | internal/tunnelmonitor/monitor.go:180-198 | successful recoveries are at least a cooldown apart |
| HealthMonitor.AttemptFollowsFailures | internal/tunnelmonitor/monitor.go:173-198 | before every attempt lie a threshold of failed probes in a row with no recovery among them |
| HealthMonitor.NothingToAttempt | internal/tunnelmonitor/monitor.go:187-190 | without a recovery function nothing is ever attempted |
| HealthMonitor.CounterIs | internal/tunnelmonitor/monitor.go:173-205 | when the counter goes back to zero, and that a failure adds one up to the threshold unless recovery was attempted |

## Left out

- Go's JSON decoder beyond values and trailing text: case-insensitive struct names and the layout of raw outbound elements; equality is up to formatting and key order, as the planner compares.
- HotApply.AddUsersEffect: the core keeps every field a client sets, less those at their zero value; which other fields its own reader ignores is not part of this repository, nor is whether it takes the strings it gets.
- HotWitness.UnsentIsLost: likewise a field that the core's reader ignores, such as a comment, counts as lost though nothing depends on it.
- HotTheorem.AdditionsFit: whether two listeners collide is the panel's rule (`internal/web/service/port_conflict.go`), trimming ASCII white space only; what the operating system allows is not modelled.
- The core's lower-casing of client emails, and tolerant re-application to a core that drifted from the old configuration (the reconciling of conflicts in `internal/web/service/xray.go`).
- gRPC, HTTP, process spawning, signals, config files and clocks: each is an answer the model takes as a parameter.
- EventBus.Bus: `Stop` and the endless loops are steps of the machine, not methods; a panic in a handler is caught and counts as handled.
- Delivery after `Unsubscribe`: a worker may still take an event that was queued, so nothing is claimed about it.
- RateLimit.WrongGrantIs: for cooldowns that are not negative.
- MtprotoTraffic.NeverOverReports: collections do not overlap each other; nothing is claimed about two of them interleaved.
- MtprotoConfig.SecretsAreFingerprinted: nothing general is claimed of strings that hold the marks themselves, beyond the examples.
- The one-time sweep of orphaned sidecars, quota resets and `HasRunning` in the manager.
- XrayTraffic.XrayAPI.GetTraffic: counter names are taken as already parsed; the two regular expressions are not part of the model.
- SubscriptionCache.EveryRun: a decoded list is an opaque value; what decoding makes of a body is in SubscriptionBody.
- Jalali.ConsecutiveDays: from the year -4799 on, where the divisions of the day number stay non-negative; the panel converts no date before 1969.
- `expandSegment` and the values of tokens, `joinHostPort`, and per-protocol link fields: branching without further depth.
- Online trees of remote nodes (`SetNodeOnlineTree`, `GetMergedNodeTrees`): set union with deduplication.
- `AggregateTrafficByEmails` and the client cache of links: lookups in the database.
- Isolation between hosts in JSON and Clash output: shared transport maps make it untrue beyond the TLS settings.
