# A model of the relay

This project models a peer relay: a broker that registers peers by id and network and forwards
messages between them, the limiters that guard it, the byte path in front of it, and two pieces of
logic beside it. It proves what these promise over whole runs, for every interleaving, clock, byte
stream and order of arrival.

- `Net`, `Wire`: addresses and limiter keys; messages and the pure decision of what one asks for.
- `Buckets`, `RateHistory`, `Stun`, `StrikeHistory`, `BanHistory`, `Limits`, `PerConn`: the limiters.
  Each is a class whose fields are lossy and bounded, proved to give the answer of its full call or
  strike history, which it carries as a ghost log.
- `Broker`: the relay as a step system. A block that holds the registry lock is one step and every
  single send is one step, so other tasks may run between the lookup and the sends of a fan-out, or
  between any two sends. Channels close at any time. `BrokerInvariant` proves what every step keeps;
  `BrokerRuns`, `BrokerOrigins`, `BrokerQueues`, `BrokerRelay`, `BrokerFrames`, `BrokerSweep`,
  `BrokerStaleness`, `BrokerTeardown`, `BrokerCaps` and `BrokerProgress` prove what holds over whole runs, from
  the frames that arrive to the messages a channel's writer takes. `BrokerScenarios` builds the runs that show where a
  promise fails.
- `RelayRegistry`, `Server`: the same as imperative code over the shared registry, counter, channels
  and limiter, in blocks that hold one lock. `ServerSteps`, `ServerTasks` and `ServerRegistration` put
  the relay's functions together from these blocks and pair them with a ghost state of the broker. Other
  tasks run between any two blocks and sends of a function: `OtherTasks` stands for them, and its callers
  know of it only that it takes steps of the broker that are not their own. Where the shared state
  reflects the broker's before a call, it reflects after it a state that enabled steps lead to, and the
  contract says which of them are the function's own.
- `Cidr`, `ProxyProtocol`, `FrontEnd`: trusted proxies, PROXY protocol v2 (section 2.2, binary header
  format, of "The PROXY protocol, Versions 1 & 2") and the two replaying streams up to the WebSocket
  layer.
- `Dial`, `DhtView`, `DhtNodes`, `Service`: published addresses, the content view and the nodes behind
  it, installing and uninstalling.

Clocks, the network's way of splitting a stream, the order a hash map yields its entries in, a
request head's classification, probe answers and the scheduling of tasks are inputs or free choices.
The limiters' clock is assumed not to go back, because a bucket refills on any change of second.

Where the code and its documentation differ, the model follows the code:

- Strikes are documented as counted over a rolling window; the code fixes the window at its first
  strike. `ClusterWithoutBan` shows the difference, `ThresholdClusterBansExactlyWhen` says exactly
  when a cluster bans, and `ClusteredStrikesBan` gives the number that always does.
- The content view's counts are documented as numbers of nodes; they count records and answers, which
  are not limited to one per node. `CountIsNodesExactlyWhen` and `PeersAreNodesExactlyWhen` say when
  they agree. A node's inventions are documented as unable to displace what many report;
  `OneNodeDisplacesMany` shows they can, and `OverratedExactlyWhen` and `ReplicatedKeysStay` say exactly
  when a key cannot.
- The cap on live registrations per address counts slots, and a connection that registers under a
  second id has two records on one slot. `CapBoundsRecordsExactlyWhen` says for which configurations
  the cap bounds records, and `ManyRecordsOneSlot` gives the runs for the others.
- A registration slot is documented as released when the sweep prunes its record. `SweepFreesNoSlot`
  and `SlotLastsToTheEnd` show that it lasts until the connection's task ends.
- A record's silence is bounded by the deadline and the sweep interval only if it was heard from in
  time when it was entered. `BoundHoldsExactlyWhen` states that, `BoundHoldsUnlessOvertaken` that it takes
  a sweep that overtakes the registration, and `LateEntryBreaksTheBound` gives the runs.
- A teardown removes by id alone. `TeardownTakesItsOwnExactlyWhen` says when the record is its own, and
  `NewcomerLosesItsRecord` is a run in which it is not.
- Departures are documented as told to peers of the same network. A teardown tells the network of its
  session; `TeardownTellsItsNetworkExactlyWhen` says when that is the record's, and
  `TeardownCrossesNetworks` is a run in which it is another.

## Model

| member | source | states |
|---|---|---|
| `BrokerInvariant.StepInv` | src/server.rs:747-926 | Every step of every task keeps the whole invariant: the counter is the registry size and within capacity, every slot count is the number of connections holding one, every record names a known channel and itself, matches its connection's certificate and publishes only addresses under its source's key, no queue is over its bound |
| `BrokerInvariant.CommitInv` | src/server.rs:1068-1148 | Entering or refusing a registration at the registry keeps that invariant, with a refused one still holding its slot |
| `BrokerInvariant.SettleInv` | src/server.rs:1187-1192 | Keeping the new slot in place of an earlier one, or giving a refused one back, keeps the counts equal to the slots held |
| `BrokerInvariant.SweepKeeps` | src/server.rs:1305-1315 | Removing victims one at a time keeps records and counter in step, for any order of them |
| `BrokerRuns.RunInv` | src/server.rs:636-926 | In every state of every interleaving from start-up the invariant holds |
| `BrokerRuns.CounterIsRegistrySize` | src/server.rs:1093-1148 | In every reachable state the counter equals the registry size, at most the configured maximum, and no outbound queue exceeds its capacity |
| `BrokerRuns.CounterNeverUnderflows` | src/server.rs:1252-1264 | No teardown or sweep of any run wraps the counter: a teardown lowers it by at most one, a sweep never raises it |
| `BrokerRuns.SlotsAreConserved` | src/limits.rs:410-444 | Over every run each per-source connection and registration count is the number of slots held from that source, within its cap, with no entry for a source holding none |
| `BrokerRuns.NoSlotLeaks` | src/limits.rs:410-444 | Once every connection of a run has ended both count maps are empty |
| `BrokerRuns.RecordFate` | src/registry.rs:105-168 | A record leaves the registry exactly by a teardown of a session with its id or a sweep that finds it closed or silent, appears exactly by an accepted registration, and is replaced only when its channel is closed |
| `BrokerRuns.OpenRecordIsKept` | src/registry.rs:113-139 | Over any stretch of a run in which an id stays registered with its channel open, its record and channel are the same one |
| `BrokerRuns.RefusedRegistrationLeavesNoTrace` | src/server.rs:1036-1148 | Whatever else runs between its reservation, its refusal and its end, a registration refused at the registry leaves no trace: the refusal changes nothing but its own connection, which at the end stands as it did before it reserved, and its source has one slot fewer |
| `BrokerRuns.ReservedSince` | src/server.rs:1050-1068 | Every registration waiting for the registry in a run has its own granted reservation behind it, asks for what that did, with no step of its own task in between, and its source, session, slot and last frame are as they were then |
| `BrokerTeardown.TeardownTakesItsOwnExactlyWhen` | src/server.rs:1252-1277 | Over every run a teardown takes its own record exactly when, since its session's registration, no sweep found the record closed or silent, no other session of the id was torn down and no other connection registered it; and the id is unregistered after it in any case |
| `BrokerTeardown.OwnUntilTaken` | src/registry.rs:105-168 | From its entry on a connection's record is its own exactly until one of those three steps |
| `BrokerTeardown.TeardownTellsItsNetworkExactlyWhen` | src/server.rs:1252-1277 | A teardown in any run tells exactly the other records of the network of the record it takes if and only if that is its session's network, or nobody else is on either; and it is that network while the record is the connection's own |
| `BrokerTeardown.OwnNetwork` | src/server.rs:1191-1193 | Over every run a record its connection owns under the id it last registered is on the network it last registered on |
| `BrokerTeardown.TeardownCrossesNetworks` | src/server.rs:1258-1263 | A run in which a swept connection's teardown takes a record of one network and tells a record of another |
| `BrokerTeardown.NewcomerLosesItsRecord` | src/server.rs:1258-1263 | A run in which a swept connection's teardown takes the record of a newcomer under the same id, although the newcomer's channel is open and stays so |
| `BrokerOrigins.EverythingIsAccounted` | src/server.rs:300-417 | Over every run, everything on any queue, waiting to be sent or left by a sweep traces back to one step that listed it, addressed to that channel for its own reason |
| `BrokerRelay.SessionIsLastRegistered` | src/server.rs:1191-1193 | A connection's session is always its last accepted registration |
| `BrokerRelay.AnnouncementsStayOnTheNetwork` | src/server.rs:1150-1179 | Every queued arrival or departure notice is of a record that joined or left at that step. An arrival, and a departure by the sweep, is told to a record of the same network; a departure by a teardown to one of the network its session registered on |
| `BrokerRelay.TriedInOrder` | src/server.rs:1241-1243 | Between its lookup and its last send a connection tries exactly its listed sends, in order, whatever other tasks do in between |
| `BrokerFrames.FrameIsAnswered` | src/server.rs:796-917 | Over every run the step that acts on a frame lists exactly the sends that frame calls for, case by case of the protocol, in the name the connection last registered and from the registry at that step; and the connection is done only after an unregistration |
| `BrokerFrames.FrameLeadsToItsAnswer` | src/server.rs:300-417 | Conversely after every frame the next step of the connection's task asks for a registration's slot or lists exactly that answer |
| `BrokerFrames.RelayedMessagesAreAuthentic` | src/server.rs:300-417 | Every gossip, broadcast or hole-punch message ever queued was asked for by a frame that arrived, with its payload, number, address or result, and was relayed under the id its connection last registered (its certificate's, if it has one) to the record the frame names, or for a broadcast to one it does not exclude, on that registration's network |
| `BrokerFrames.BroadcastTriesEachOnce` | src/server.rs:1226-1244 | A broadcast frame is tried with its own data exactly once on each record of its connection's network at the lookup outside its own and those the frame excludes, and on no other, whatever runs in between |
| `BrokerFrames.FirstIsSentNext` | src/server.rs:1241-1243 | The next step of a connection with something to send tries the first of it, and it joins an open queue with room |
| `BrokerFrames.GossipArrives` | src/server.rs:1197-1223 | End to end: a gossip frame of a registered connection to a record of its network is, after the two steps of its task, last in that record's queue with its own payload and number and its sender's registered id, unless the channel is closed or full |
| `BrokerFrames.ReservationIsDecided` | src/server.rs:1036-1066 | Over every run a registration frame gets a slot exactly when the limiter grants it and its source holds fewer than the cap; else nothing but its two replies, and its connection ends |
| `BrokerFrames.RegistrationIsDecided` | src/server.rs:1068-1179 | Over every run a registration at the registry is refused for another id's certificate, a full registry or an id an open channel holds, in that order, or entered as its own frame says with one announcement to each other record of its network |
| `BrokerFrames.TeardownIsAnnounced` | src/server.rs:1252-1293 | Over every run a teardown takes the id its session last registered and tells each remaining record of the session's network once, or takes nothing and tells nobody |
| `BrokerQueues.OpenChannelIsFifo` | src/server.rs:1241-1243 | First in, first out: while a channel stays open, what was queued and then tried on it with room left is exactly what its writer has taken, in order, followed by what is still queued |
| `BrokerQueues.RoomMeansQueued` | src/server.rs:1214-1214 | A send to an open channel with room is last in its queue after the step |
| `BrokerQueues.ClosedHoldsNothing` | src/server.rs:1285-1285 | A closed channel never opens again and holds nothing |
| `BrokerSweep.SweepIsExact` | src/server.rs:1301-1315 | A sweep leaves exactly the records whose channel is open and heard from no longer ago than the deadline at the scan, unchanged, and the counter with their number |
| `BrokerSweep.SweepTellsTheNetwork` | src/server.rs:1305-1325 | For each record that is gone after the sweep every remaining record of its network is told once, and nobody of another network |
| `BrokerSweep.NoticesAreOnce` | src/server.rs:1317-1323 | No record is told twice of the same departure in one sweep |
| `BrokerStaleness.StampIsLastFrame` | src/server.rs:796-799 | In every state of every run a connection's time of activity is that of its last frame, or of its opening if it has sent none |
| `BrokerStaleness.SweepKeepsExactlyTheHeard` | src/registry.rs:153-163 | In every run a sweep keeps exactly the records whose channel is open and whose connection sent a frame, or opened, within the deadline of the scan |
| `BrokerStaleness.HeardFromStays` | src/registry.rs:153-163 | Over every stretch of a run in which a record's channel stays open, every sweep finds it heard from and nobody takes its id down, it is the same record at the end |
| `BrokerStaleness.AlwaysFreshExactlyWhen` | src/registry.rs:153-163 | In a run every record was at all times heard from within the deadline of the last sweep's scan exactly when every accepted registration was, at the moment it was entered |
| `BrokerStaleness.SilenceIsBounded` | src/server.rs:1301-1315 | Then, with sweeps at most a gap apart, no registered record is ever silent longer than the deadline and the gap together |
| `BrokerStaleness.BoundHoldsExactlyWhen` | src/server.rs:1301-1315 | With sweeps at most a gap apart, the deadline and the gap bound every record's silence in every state of a run, for as long as the next sweep may take, if and only if every accepted registration was entered in time |
| `BrokerStaleness.LateEntryGoesOnToBreak` | src/server.rs:1301-1315 | Every late entry in a run with sweeps on time has a continuation, by nothing but time passing until the next sweep is due, that breaks the bound |
| `BrokerStaleness.BoundHoldsUnlessOvertaken` | src/server.rs:1068-1068 | The bound holds in every run in which no sweep comes between a connection's last frame and the entry of its registration |
| `BrokerStaleness.LateEntryBreaksTheBound` | src/server.rs:1066-1068 | For every deadline and every gap of at least one there is a run with sweeps on time and a record silent for longer: its task was held up between its reservation and its request for the registry's lock |
| `BrokerCaps.CapBoundsRecordsExactlyWhen` | src/limits.rs:270-288 | The records of every source stay within the cap in every run exactly when the cap is one or no smaller than the registry's capacity |
| `BrokerCaps.ManyRecordsOneSlot` | src/server.rs:1185-1193 | For every cap of two or more and every number of ids up to the capacity, a run in which one connection registers them all, each stays registered, and its source is charged one slot |
| `BrokerCaps.SteadyBoundsRecords` | src/limits.rs:270-288 | With one id to a connection a source has no more records than slots, hence no more than its cap |
| `BrokerCaps.CertifiedSourcesStayWithinCap` | src/server.rs:1068-1091 | In every run whose connections all have certificates, the records of every source are at most its slots, hence at most its cap, whatever the configuration |
| `BrokerCaps.CertificatesKeepNamesSteady` | src/server.rs:1068-1091 | A connection with a certificate is never accepted under a second id |
| `BrokerCaps.SweepFreesNoSlot` | src/limits.rs:267-269 | A sweep takes exactly its victims out of the registry and frees no registration slot of any source |
| `BrokerCaps.SlotLastsToTheEnd` | src/limits.rs:424-444 | Over every run a connection that has registered holds its slot exactly until its task has ended |
| `BrokerProgress.NeverStuck` | src/server.rs:747-926 | In every state of every run, whatever the other tasks hold, every connection that has not ended has an enabled step, none of them waiting for a frame, that by BrokerProgress.AdvanceIsOwn brings it nearer its end |
| `BrokerProgress.AdvanceIsOwn` | src/server.rs:747-926 | Such a step moves no other connection's task, and lowers the rank of its own, the number of its sends or its open channel, in that order |
| `BrokerProgress.TurnsAreFew` | src/server.rs:747-926 | Over every run, between two frames a connection's task takes at most six steps beside its sends, whatever runs in between |
| `BrokerProgress.SweptAfterTheEnd` | src/server.rs:1301-1315 | A sweep after every connection of a run has ended leaves no record and the counter at zero |
| `BrokerProgress.CanAlwaysShutDown` | src/server.rs:636-926 | From every state of every run, with no new connection, no frame and no time passing, enabled steps lead to a state with every connection ended, no record, the counter at zero, no slot counted, and nothing queued or still to send |
| `Wire.DispatchStamps` | src/server.rs:300-417 | Whatever one inbound message claims, the action it leads to carries no name but the session's, and replies only with pongs (what it leads to in full is said over runs by BrokerFrames.FrameIsAnswered) |
| `RelayRegistry.PeerRegistry.Register` | src/registry.rs:105-140 | An id whose channel is open keeps its record, a closed one is replaced, an unused one is added |
| `RelayRegistry.PeerRegistry.Unregister` | src/registry.rs:166-168 | Removes exactly the id and returns its record |
| `RelayRegistry.PeerRegistry.BroadcastTargets` | src/registry.rs:199-214 | Lists exactly the fan-out records, each once, with their channels |
| `RelayRegistry.PeerRegistry.DeadOrStale` | src/registry.rs:153-163 | Lists exactly the records whose channel is closed or whose last activity is longer ago than the deadline, each once |
| `Server.RelayState.RemoveLocked` | src/server.rs:1252-1264 | Takes the id out, lowers the counter by one without wrapping, and lists exactly the records of the network left to tell; an absent id changes nothing |
| `Server.RelayState.RemoveSession` | src/server.rs:1270-1277 | The session's id leaves the registry, whoever holds it, the counter goes down by one, and every remaining record of the session's network is listed once; with no such record nothing changes |
| `Server.RelayState.CheckRate` | src/server.rs:1036-1049 | The call joins the history with the answer given, and going over the rate is recorded as one strike of the source, any other answer as none |
| `Server.RelayState.CheckSlot` | src/server.rs:1050-1066 | A slot exactly when the source is below its cap; finding none records one strike |
| `Server.RelayState.Reserve` | src/server.rs:1036-1066 | A slot exactly when the rate grants the call and the source is below its cap, counted and live only then; a refusal of either kind is one strike of the source and a grant none |
| `Server.RelayState.Enter` | src/server.rs:1068-1148 | Refused for exactly the broker's reasons in its order, leaving registry and counter; else the record is entered and the counter follows |
| `Server.RelayState.SettleSlot` | src/server.rs:1187-1189 | An accepted registration keeps its slot in place of an earlier one, a refused one gives it back |
| `Server.RelayState.Prune` | src/server.rs:1305-1315 | One hold of the lock leaves exactly the records that are open and within the deadline, as the broker's sweep in some order, with the list to tell for each |
| `Server.SweepOneMore` | src/server.rs:1305-1315 | Appending a victim to a sweep is sweeping and then removing it |
| `ServerSteps.SendSteps` | src/server.rs:1241-1243 | One send of the code is one delivery step of the broker, from any state the shared state reflects to one it reflects again |
| `ServerSteps.SendEach` | src/server.rs:1241-1243 | With any steps of other tasks before each send, a loop of sends takes exactly one delivery step for each, in order, and leaves the rest of what its connection has to send |
| `ServerSteps.OthersKeep` | src/server.rs:747-926 | Whatever other tasks do, a connection's own task, session, slot and pending sends are as it left them |
| `ServerTasks.RemoveSteps` | src/server.rs:1270-1277 | The block under the registry lock is the broker's teardown step, and what is still to send is one notice to each listed channel |
| `ServerTasks.DeregisterSteps` | src/server.rs:1270-1293 | With any steps of other tasks before the lock and before each send, the teardown's own steps are the broker's teardown step and one delivery per record told, and the shared state reflects where they all lead |
| `ServerTasks.LookupSteps` | src/server.rs:1233-1240 | The lookup of a fan-out under the lock is the broker's step of it, with one send to each listed channel to come |
| `ServerTasks.BroadcastSteps` | src/server.rs:1226-1244 | With other tasks in between, a fan-out's own steps are the broker's lookup and one delivery per record listed |
| `ServerTasks.FindSteps` | src/server.rs:1204-1212 | The lookup of one record under the lock is the broker's step: nothing to send without a network, the message to a record on it, else the error to the sender |
| `ServerTasks.ForwardSteps` | src/server.rs:1197-1223 | With other tasks in between, a forward's own steps are the broker's lookup and one delivery at most |
| `ServerTasks.PruneSteps` | src/server.rs:1301-1315 | The sweep's block under the lock is an enabled sweep step of the broker, with exactly its notices to come |
| `ServerTasks.NoticeSteps` | src/server.rs:1317-1325 | With other tasks before each send, the nested loops take one delivery step for each notice, in order |
| `ServerTasks.SweepSteps` | src/server.rs:1301-1326 | With other tasks in between, a pass of the health sweep takes the broker's sweep step and one delivery per notice |
| `ServerRegistration.ReserveSteps` | src/server.rs:1036-1066 | The rate and the slot of a registration are the broker's reservation: it is before the registry with its slot, or has its two replies to send |
| `ServerRegistration.EnterIsCommit` | src/server.rs:1068-1148 | The code's verdict and listing make the broker's commit step enabled, and it gives the same registry, counter and answer |
| `ServerRegistration.EnterSteps` | src/server.rs:1068-1148 | The block under the registry lock is the broker's commit, its answer still to come |
| `ServerRegistration.AnswerSteps` | src/server.rs:1150-1179 | With other tasks before each send, the answer takes one delivery step for each of its sends: two for a refusal, one and one per record told for an acceptance |
| `ServerRegistration.SettleSteps` | src/server.rs:1185-1195 | The end of a registration is the broker's settling: accepted, the slot kept in place of an earlier one and the session set; refused, the slot given back after the replies |
| `ServerRegistration.ConcludeSteps` | src/server.rs:1068-1195 | With other tasks before the lock, before each send and before the end, a registration with its slot takes commit, the deliveries of its answer and settling, in that order |
| `ServerRegistration.RegisterSteps` | src/server.rs:1036-1195 | A whole registration with other tasks in between: the reservation, then the two replies for want of a slot or the steps of one with it |
| `ServerSteps.PathsAreRuns` | src/server.rs:747-926 | The steps any of these methods shows extend any run that ends where they start to a longer run, so what is proved of every run holds at the end of the call |
| `Net.OneKeyPerSource` | src/limits.rs:128-147 | A dual-stack client has one key in either form it arrives in, and a key is its own key |
| `Net.CanonicalIs` | src/proxy_protocol.rs:185-196 | An address has a given IPv4 address for its canonical form exactly when it is that address or its IPv4-mapped form, and any other IPv6 address is its own |
| `Net.SameKey` | src/limits.rs:128-147 | Two addresses have one limiter key exactly when they are one IPv4 address in either form or share an IPv6 /64 |
| `Buckets.LeastKey` | src/limits.rs:357-393 | One pass finds an entry of least rank |
| `Buckets.EvictLeastIfFull` | src/limits.rs:357-393 | Nothing goes unless the key is new and the map full, and then one entry of least rank |
| `RateHistory.EvictionMeansCrowd` | src/limits.rs:383-393 | A bucket used in the current second is evicted only if every tracked bucket was, and then more sources called in it than the map can hold |
| `RateHistory.RecordCall` | src/limits.rs:252-265 | One call keeps the bounded map telling what the call history leaves every source, in every second not crowded past the bound |
| `RateHistory.WindowsAreSeconds` | src/limits.rs:74-87 | A window's grants and callers are those between two multiples of a thousand milliseconds of the clock |
| `RateHistory.OnlyTheLastSecondCounts` | src/limits.rs:74-87 | A grant counts against a call, and a caller towards a crowd, only if it was less than a thousand milliseconds earlier |
| `RateHistory.QuietIsGranted` | src/limits.rs:74-87 | So a source granted fewer than its rate in the thousand milliseconds up to a call, with no more callers in them than the map can hold, is granted it |
| `RateHistory.BudgetBoundsGrants` | src/limits.rs:74-87 | If every grant was within budget, no source gets more than its capacity in a second |
| `RateHistory.GrantsStayWithinBudget` | src/limits.rs:74-87 | Answers that follow the history in every second not crowded keep every source within its capacity in each second that never is |
| `Limits.TakeConserves` | src/limits.rs:224-245 | A slot is given exactly below the cap, and the counts stay the numbers of live slots |
| `Limits.ReturnConserves` | src/limits.rs:410-421 | A drop lowers a positive count, never wraps, and leaves no zero entry |
| `Limits.AbusePolicy.TryAcquireConn` | src/limits.rs:224-245 | A slot exactly when the source has fewer live ones than its cap; counts stay conserved |
| `Limits.AbusePolicy.DropConn` | src/limits.rs:410-421 | Gives one live slot back; counts stay conserved |
| `Limits.AbusePolicy.TryAcquireRegistration` | src/limits.rs:270-288 | A slot exactly when the source has fewer live ones than its cap; counts stay conserved |
| `Limits.AbusePolicy.DropRegistration` | src/limits.rs:432-444 | Gives one live slot back; counts stay conserved |
| `Limits.AbusePolicy.AllowRegistration` | src/limits.rs:252-265 | The answer is the history's: granted exactly when the source had fewer grants this second than its rate, in every second not crowded past the map's bound; so a source with fewer than its rate in the last thousand milliseconds is served; the invariant kept says so of every earlier call too |
| `Limits.AbusePolicy.RegistrationsStayWithinRate` | src/limits.rs:252-265 | Over that life no source is granted more registrations than its rate in any whole second, in milliseconds of the clock, in which no more sources ask than the map can hold |
| `Limits.AbusePolicy.IsBanned` | src/limits.rs:294-309 | Lazy expiry is unobservable: short of an eviction of the ban, banned exactly while the latest ban of the source runs; never banned otherwise |
| `Limits.AbusePolicy.RecordStrike` | src/limits.rs:320-351 | One strike bans exactly when the source's record reaches the threshold; an unexpired ban gives way to it only when every ban held is unexpired |
| `StrikeHistory.BansAreEarned` | src/limits.rs:320-351 | Every ban follows at least the threshold of strikes from its source within one window |
| `StrikeHistory.ClusteredStrikesBan` | src/limits.rs:320-351 | Twice the threshold less two strikes (one for a threshold of one) within one window's span always ban, unless the record is evicted meanwhile |
| `StrikeHistory.ThresholdClusterBansExactlyWhen` | src/limits.rs:311-351 | The threshold of strikes within one window's span bans exactly when no earlier window was running at the first of them, or the running one counts enough of them before it runs out |
| `StrikeHistory.ClusterWithoutBan` | src/limits.rs:311-351 | The documented rolling window is not what the code does: for every threshold above two a history one strike short of the sure number, within a millisecond, without a ban |
| `BanHistory.QuietRecordSurvives` | src/limits.rs:357-367 | A strike record outlives any stretch in which fewer other sources strike than the map can hold |
| `BanHistory.RepeatOffenderIsBanned` | src/limits.rs:320-367 | A source that strikes often enough within one window is banned, unless as many other sources as the map holds strike too |
| `PerConn.PerConnLimiter.Admit` | src/limits.rs:489-503 | The verdict on a frame is the one its connection's frame history alone calls for, each dimension charged only when the earlier ones pass; one that fits with all of the last thousand milliseconds is admitted |
| `PerConn.FitsIsAdmitted` | src/limits.rs:489-503 | A frame within every budget together with everything of the last thousand milliseconds is admitted, whatever came before |
| `PerConn.WindowsAreSeconds` | src/limits.rs:114-118 | What a window holds is what came between two multiples of a thousand milliseconds |
| `PerConn.IntervalBound` | src/limits.rs:74-125 | Frames and bytes admitted over any interval are at most the per-second budget times its length in seconds plus two |
| `PerConn.LifetimeCap` | src/limits.rs:498-502 | Total admitted bytes never exceed a lifetime cap below the counter's maximum |
| `PerConn.LifetimeCapSaturates` | src/limits.rs:498-502 | At the counter's maximum they can: frames of any one length, sent often enough, are all admitted and go past the cap together |
| `PerConn.PastTotalIsForever` | src/limits.rs:498-502 | Once the cap is passed every later frame asks for a disconnect |
| `Stun.StunRateLimiter.Allow` | src/stun.rs:78-122 | The answer is the history's, a refusal by one budget spends nothing of the other, and the map stays bounded; a source within both budgets over the last thousand milliseconds is answered |
| `Stun.StunRateLimiter.BucketFor` | src/stun.rs:127-141 | Tracks the source, with a full bucket if new, evicting a least recently seen one when full |
| `Stun.Serve` | src/stun.rs:163-212 | Over any run of requests with a nondecreasing clock every answer is the one the history calls for, and every request within both budgets over the thousand milliseconds before it is answered |
| `Stun.RunStaysWithinBudgets` | src/stun.rs:45-55 | In every whole second of a run, in milliseconds of the clock, all grants together are within the shared budget, and each source's within its own unless more sources called than the map holds |
| `Stun.CrowdResetsBudget` | src/stun.rs:127-141 | That condition is needed, for every map bound and budget: the limiter itself, called by a source that spends its budget, by as many others as the map holds, and by the source again, grants every call within one second |
| `Cidr.PrefixIsQuotient` | src/proxy_protocol.rs:199-211 | Byte strings agree on their first bits exactly when their big-endian values agree after dividing by two to the number of remaining bits |
| `Cidr.ContainsIsArithmetic` | src/proxy_protocol.rs:185-196 | Membership in a block is that division, on the canonical address, within one family |
| `Cidr.ShorterIsWider` | src/proxy_protocol.rs:185-211 | Shortening a prefix only widens the block |
| `Cidr.TrustsEitherForm` | src/proxy_protocol.rs:237-239 | An IPv4 proxy is trusted alike in either form it can arrive in |
| `Cidr.TrustsIsArithmetic` | src/proxy_protocol.rs:237-239 | An address is trusted exactly when it agrees with some listed block of its family on that block's leading bits, by division of the big-endian values |
| `Cidr.MappedBlockMatchesNobodyExactlyWhen` | src/proxy_protocol.rs:185-196 | A block written in the IPv4-mapped form matches no address at all exactly when it has at least its 96 fixed bits |
| `ProxyProtocol.DecodeInvertsEncode` | src/proxy_protocol.rs:89-145 | Decoding an encoded header yields exactly its source and leaves exactly the payload, for every block the reader takes |
| `ProxyProtocol.SourcelessHeaderIsTaken` | src/proxy_protocol.rs:109-145 | A header that declares no source, or whose block is too short for the one it declares, is taken off, and exactly the payload is left with no source |
| `ProxyProtocol.OtherBytesAreLeft` | src/proxy_protocol.rs:89-107 | Bytes whose first sixteen are no version 2 header are all left, with no source |
| `ProxyProtocol.OversizedHeaderIsLeft` | src/proxy_protocol.rs:99-107 | A header declaring a larger block is not taken: every byte is left |
| `FrontEnd.PrefixedStream.Read` | src/proxy_protocol.rs:269-284 | A read yields the next bytes of the replayed prefix and then of the socket, none lost or repeated |
| `FrontEnd.Prefixed.Read` | src/http_serve.rs:180-195 | The same for the second replaying stream |
| `FrontEnd.ReadSourceAddr` | src/proxy_protocol.rs:317-343 | The source and remaining bytes are exactly those of the header's decoding, at any split of the stream |
| `FrontEnd.ResolveSource` | src/server.rs:583-610 | Only a trusted source's header is read; an untrusted connection's bytes and address are untouched |
| `FrontEnd.DirectKeepsItsAddress` | src/server.rs:583-610 | A connection from an address not trusted keeps its address and every byte, whatever the bytes say |
| `FrontEnd.ProxiedIsDirect` | src/server.rs:583-610 | Behind a trusted proxy, any source's header followed by its bytes comes to what the source connecting directly with those bytes does |
| `FrontEnd.SourcelessIsDirect` | src/server.rs:583-610 | A trusted connection's header without a source leaves its own address and the bytes after the header |
| `FrontEnd.UnmarkedIsDirect` | src/server.rs:583-610 | A trusted connection whose first sixteen bytes are no header keeps its address and every byte; one that sends fewer, or too late, is dropped |
| `FrontEnd.ReadRequestHead` | src/http_serve.rs:52-79 | The head is the shortest prefix ending in a blank line and within the cap, nothing after it is read, and the two errors are exactly the other cases |
| `FrontEnd.HeadIsToTheBlankLine` | src/http_serve.rs:52-79 | The head's length is where the first return, line feed, return, line feed of the stream ends |
| `FrontEnd.HeadIsUnique` | src/http_serve.rs:52-79 | A byte string has only one such outcome |
| `FrontEnd.Accept` | src/server.rs:683-701 | A connection up to the handshake has the one fate its bytes call for, and an upgraded one still holds all of them |
| `FrontEnd.SeenByWebSocket` | src/server.rs:683-701 | Reads of any sizes over any network split give the WebSocket layer exactly the bytes of that fate |
| `FrontEnd.WireBytesAreTheClients` | src/proxy_protocol.rs:317-343 | Those bytes are the client's, less exactly one header when the source is trusted and its fixed part parses, and are classified by what comes up to their first blank line, within the cap |
| `Dial.BelongsIsSameKey` | src/dial.rs:75-98 | A host belongs to a source exactly when the two share a limiter key |
| `Dial.UnroutableIsListed` | src/dial.rs:103-124 | A host is kept back exactly when it lies in a listed block, given by base and prefix length: unspecified, loopback, private or link-local IPv4, unspecified, loopback, unique-local or link-local IPv6 |
| `Dial.ResolvedIs` | src/dial.rs:61-72 | A candidate is kept exactly when it is routable and under its source's key, else it is the source's own host at the advertised port |
| `Dial.FirstDistinctGrows` | src/dial.rs:35-46 | What is kept of a prefix of the candidates is a prefix of what is kept of all, so the order is that of first appearance |
| `Dial.ResolvedStaysHome` | src/dial.rs:61-72 | Whatever is advertised, the resolved host is under the source's key, on the advertised port |
| `Dial.ResolveDistinct` | src/dial.rs:35-46 | The filter through a set of seen addresses yields the first eight distinct resolved candidates in order |
| `Dial.OrderIpv6First` | src/dial.rs:52-57 | The sort is the stable partition by family, IPv6 first |
| `Dial.ResolveDialable` | src/dial.rs:35-49 | At most eight distinct addresses, each of the source's key and family and on an advertised port; the family sort moves nothing |
| `DhtView.CollectUnion` | src/dht_view.rs:90-104 | The nested loops collect for each key the most providers and the number of records |
| `DhtView.Rank` | src/dht_view.rs:106-124 | The list is ranked and holds exactly the union's entries |
| `DhtView.BuildDhtView` | src/dht_view.rs:90-136 | The view is the capped ranking of all records, with its totals and truncation flag |
| `DhtView.PublishedInOrder` | src/dht_view.rs:113-124 | The published list goes by reports, then by providers, then by key in character order |
| `DhtView.ReportsAreCounted` | src/dht_view.rs:92-104 | A key's reports are the number of records of it |
| `DhtView.ProvidersAreTheMost` | src/dht_view.rs:92-104 | A key's providers are the most any record of it gives |
| `DhtView.RecordsAreTheAnswers` | src/dht_view.rs:92-104 | The records of a view are those of its answers and no others |
| `DhtView.ViewIgnoresOrder` | src/dht_view.rs:90-136 | The same answers and records in any order give the same view |
| `DhtView.CapKeepsTheBest` | src/dht_view.rs:117-128 | A dropped key ranks below every published one, and only when the cap is reached |
| `DhtView.CountsAddUp` | src/dht_view.rs:92-104 | Before the cap the counts of all keys add up to the number of records |
| `DhtNodes.CollectWindow` | src/server.rs:839-853 | A window of frames pushed and published: the view is that of the frames of registered peers, as many as there are, each count is their records of the key, and it is the number of nodes behind them exactly when none is behind two; likewise the number of reporting peers |
| `DhtNodes.Collector.Publish` | src/server.rs:1362-1367 | The window's view is a view of exactly what was pushed, and the next window starts empty |
| `DhtNodes.SumIsSendersExactlyWhen` | src/dht_view.rs:92-104 | Anything counted over answers is at least the number of senders behind it, and equal exactly when none is behind more than one of it |
| `DhtNodes.CountIsNodesExactlyWhen` | src/dht_view.rs:44-58 | A key's count is at least the number of nodes that sent it, and equal exactly when no node sent it twice, in one answer or in several |
| `DhtNodes.PeersAreNodesExactlyWhen` | src/dht_view.rs:90-136 | The number of reporting peers is at least the number of nodes that answered, and equal exactly when none answered twice |
| `DhtNodes.OverratedExactlyWhen` | src/dht_view.rs:113-124 | Further answers without a key can leave it ranked ahead of a key that more nodes report if and only if some node has sent it twice |
| `DhtNodes.ReplicatedKeysStay` | src/dht_view.rs:106-128 | A key no node has sent twice displaces only keys that no more nodes report, and only from a full view |
| `DhtNodes.OneNodeDisplacesMany` | src/dht_view.rs:106-128 | However many nodes report a key, one node that sends one record more than they do of each of as many other names as a view holds, in any order and however split into frames, puts it out of every view, and each key of the view is reported by that node alone |
| `DhtNodes.SmallFramesSuffice` | src/dht_view.rs:106-128 | Frames of one record each, of distinct 64-digit names, are enough for that |
| `DhtNodes.OneNodeOutranksMany` | src/dht_view.rs:98-98 | However many nodes report a key, one node that sends another key in enough frames, once in each, ranks it ahead |
| `Service.RemoveRegistration` | src/service.rs:334-374 | The report and what is written and removed follow from the probe, the mode and the manager alone |
| `Service.ReportMeans` | src/service.rs:334-374 | A report says present exactly when the probe did, removed exactly when a delete was tried and reported success, and is a problem exactly when something may be left: for a requested scope no manager or a failed delete the probe does not excuse, for a swept one an unreadable probe or a failed delete |
| `Service.CoveredScopes` | src/service.rs:68-78 | With no user scope only the system's is covered, a named one alone, and by default both with the caller's own first |
| `Service.Uninstall` | src/service.rs:928-954 | The outcome is that of the reports of every scope covered, and a scope not named is written to only if its probe said present |
| `Service.SuccessIsTrue` | src/service.rs:410-477 | With managers whose absence and success reports are true, a successful uninstall leaves no registration at any scope covered and removed at least one |
| `Service.ReliableUninstall` | src/service.rs:410-477 | With reliable managers an uninstall succeeds exactly when there is something to uninstall and names exactly what was there |
| `Service.InstallAtScope` | src/service.rs:389-398 | Clears the other scope first, then registers |
| `Service.Install` | src/service.rs:760-870 | Refused, with nothing written, exactly for a system service without root where there is a user scope; else at the scope the choice and the caller's rights call for, and with the other scope cleared without doubt it is the only registration |
| `Service.InstallLeavesOne` | src/service.rs:389-398 | A successful install with no leftover and no doubt reported leaves exactly one registration |

## Left out

- The PEX introducer (`src/pex.rs`) and its frames: an adapter over a library that is not part of this model.
- The STUN message codec: it is in a library that is not part of this model.
- JSON encoding of messages, TLS and certificates: a message is a value, and a certificate is the id it proves.
- The open-connection cap: its check and its increment are two separate atomics, so it is no invariant under interleaving.
- The content-view sweep's requests to peers and the timing of its windows; what is answered to them is modelled.
- The map, geolocation, dashboard, health and HTTP page code, configuration ranges, the command line and logging.
- Parsing of CIDR text, of HTTP header lines and of probe output: the model starts from the parsed value.
- The byte path of the mTLS listener.
- What a service is installed to run, and the elevation a Windows install asks for.
- The texts of error messages and acknowledgements; error codes are kept.
- Timestamps in published peer information, and the order of the peer list, which is a set here.
- The idle and registration timeouts: a connection may leave at any time it is idle.
- Mutex and channel internals: a registry lock is an atomic step, a channel a bounded queue with an open flag, and a sender a handle to it, so channels are entries of a table and not objects of their own. A channel may close at any time, where the code's writer also waits for the handles to it that records hold.
- Buckets and strike records are values stored back into their maps; their update in place through a reference is not captured.
- The frame loop around the relay's functions: opening a connection, receiving a frame, peer lists, replies to the sender alone and the end of a connection are steps of the broker without code of their own here.
- ServerRegistration.ReserveSteps: the counter a refusal reports is read in the same step as the rate and the slot are asked for; the code reads it a moment earlier.
- A registration refused at capacity is answered while the registry's lock is still held; the model lets other tasks run before each of its replies.
