# Verification of the push notification system

A store-and-forward push system: API requests store notifications and broadcasts, a broker tells
the sessions of connected devices about them, each session sends them in parts and waits for
acknowledgements, and the client records, acknowledges and dispatches. This project models that
pipeline in Dafny, from the store to the client, with the helper scheduler and some of the data
structures and codecs around it, and proves what it guarantees. `dafny verify dfyconfig.toml`
checks everything.

Code that changes objects or loops is a class or a method here, proved against functions on values.
The protocols are transition systems over the same functions, and their theorems are about every
run: any interleaving of requests, agent, sessions, client, clock and connections that break at any
step.

| file | subject |
|---|---|
| `Messages.dfy` | splitting of BROADCAST and NOTIFICATIONS messages |
| `Store.dfy`, `Handlers.dfy` | the pending store; the unicast request with its quota and replace tags |
| `SeenState.dfy`, `ClientSession.dfy` | what the client remembers; its handlers |
| `UnicastDelivery.dfy`, `DeviceDelivery.dfy` | runs of the delivery of the notifications of one channel, and of all channels of a device |
| `UnicastProgress.dfy` | that such a delivery can always be finished |
| `OverlappingRequests.dfy` | what requests do to these runs when they overlap and when they do not |
| `Exchanges.dfy`, `BroadcastDelivery.dfy` | broadcast exchanges; runs of the delivery of a channel's broadcasts |
| `ChannelIds.dfy`, `Broker.dfy`, `BrokerRuns.dfy` | channel ids; the broker's agent; its runs with all devices |
| `HelperPool.dfy`, `HelperPoolRuns.dfy` | the helper scheduler; its runs |
| `MBox.dfy`, `Redialer.dfy` | the evicting message box; the stop and redial handshake |
| `Chunked.dfy`, `Framing.dfy`, `Cookies.dfy`, `Murmur.dfy` | codecs and digests |
| `Sequences.dfy` | stock definitions |

Strings are strings of bytes, one `char` a byte, and times are integers that are passed in.

## What is false of the code, and when it holds

* The client has one table of seen ids for all unicast channels of its device. On runs whose appends
  supersede nothing, it never dispatches a notification twice if and only if the appends go to one
  channel at most (`DeviceDelivery.AtMostOnceIffOneChannel`, `DeviceDelivery.OtherChannelDispatchesAgain`).
  Requests with the token of an application all go to the own channel of the device
  (`ChannelIds.ChannelOfToken`); one for a user and a device does not, and its exchange can come first
  (`BrokerRuns.OtherChannelFirst`).
* Within one channel, an append that supersedes the oldest visible notification can make the client
  dispatch that one again, from every state (`OverlappingRequests.UnguardedAppendDispatchesAgain`). Two
  overlapping requests with one replace tag can make such an append; a request that no other one
  overlaps cannot (`OverlappingRequests.LoneRequestIsGuarded`).
* A broadcast can be lost when a connection breaks between the parts of an exchange from which the
  session filtered payloads out (`BroadcastDelivery.CutLosesABroadcast`). For an exchange of the latest
  snapshot, with nothing of what is still to come recorded before, a cut loses nothing if and only if
  what is still to come is the end of the snapshot (`BroadcastDelivery.CutLosesNothingIff`).
* On runs whose appends supersede nothing, no wake-up for the own channel of a device is lost if and
  only if its id has no colon (`BrokerRuns.NoWakeUpIsLostIff`). An append that supersedes an entry can
  lose the wake-up for it (`BrokerRuns.SupersededSleeps`).
* Splitting never ends if and only if an item alone is over the limit
  (`Messages.SplittingEndsIffAllFit`).
* The comment on `Scrub` promises that without criteria it removes expired notifications
  (server/store/store.go:136-142). The code also removes those with an empty application id
  (`Store.PlainScrubIff`); the model follows the code. So a request can remove unexpired notifications that
  it does not ask to go: if and only if it finds expired ones, nothing to clear or replace, and an unexpired
  one with an empty application id (`Handlers.RemovesUnaskedIff`), as requests without a token store them.
* A chunked stream that is cut off reads as complete if and only if the cut is within the data of a
  chunk or just before or after it (`Chunked.CutIsUnnoticedIff`). Chunk lengths are taken modulo 2 to
  the 64th, which is right if and only if they are less (`Chunked.ParseIsModulo`).
* A part within the limit of `Split` can be too long for its 16-bit length prefix when notifications are
  smaller than 32 bytes (`Framing.SmallItemsOverflow`, `Framing.PartFits`), or payloads of a broadcast smaller
  than 33 (`Framing.SmallPayloadsOverflow`, `Framing.BroadcastPartFits`).

## Model

| member | source | states |
|---|---|---|
| Messages.FitCountIsMaximal | protocol/messages.go:148-155 | the part taken is within the limit, and with one more item it would not be |
| Messages.FitCountIsUnique | protocol/messages.go:148-155 | these two properties determine where a list is cut |
| Messages.PartsPartition | protocol/messages.go:137-158 | the parts put together are the list in order, and each is within the limit |
| Messages.PartsAreFewest | protocol/messages.go:137-196 | no order-preserving partition into parts within the limit has fewer parts |
| Messages.PartsNonEmpty | protocol/messages.go:137-196 | only an empty list is sent as an empty part |
| Messages.SplittingEndsIffAllFit | server/session/session.go:154-174 | the loop around `Split` ends if and only if each item alone is within the limit |
| Messages.PartLevelsRise | protocol/messages.go:137-158 | the levels of the parts rise strictly, and the last one is the level of the broadcast |
| Messages.PartLevelsCount | protocol/messages.go:137-158 | the level of a part is that of the part before it plus its length |
| Messages.BroadcastMsg.Split | protocol/messages.go:137-158 | re-slicing past the window moves it to the longest head of the unsent payloads that fits; the level is that before the window plus its length; done when nothing is left |
| Messages.BroadcastMsg.Reset | protocol/messages.go:162-165 | after a reset all payloads of the window are unsent, below the level of the message |
| Messages.NotificationsMsg.Reset | protocol/messages.go:176-179 | after a reset all notifications of the window are unsent |
| Messages.NotificationsMsg.Split | protocol/messages.go:181-196 | the same for notifications by their accounted sizes |
| Messages.SendBroadcast | server/session/session.go:154-174 | the session loop sends exactly the greedy parts, each with the level of the whole minus the items still to send |
| Messages.SendNotifications | server/session/session.go:154-174 | the session loop sends exactly the greedy parts of the notifications |
| Messages.PartsAreNextParts | server/session/session.go:154-174 | sending the next part of what is left until nothing is left, as the transition systems do, sends these parts |
| Store.FilterOutByMsgId | server/store/store.go:153-181 | the backward comparison takes the fast path exactly when the targets are the head id for id; otherwise the result is the set difference in order |
| Store.RemovedIff | server/store/store.go:153-181 | the fast path is taken if and only if the ids of the targets are a head of those of the list; otherwise the result is the difference |
| Store.WithoutLeavesIff | server/store/store.go:170-181 | the difference has exactly the notifications whose ids are not mentioned, in their order |
| Store.FastPathIff | server/store/store.go:153-181 | the fast path agrees with the set difference if and only if no later notification repeats a target id |
| Store.HeadRemoval | server/store/store.go:153-181 | with distinct ids both paths remove exactly the targets |
| Store.MarkObsolete | server/store/store.go:190-212 | the backward scan over the parallel arrays marks exactly the expired and superseded entries and counts the others |
| Store.FilterOutObsolete | server/store/store.go:190-221 | a snapshot is, in order, the unexpired entries with no later unexpired entry of the same application and non-empty tag |
| Store.VisibleIff | server/store/store.go:190-221 | an entry is visible if and only if its time has not passed and no later unexpired entry has its application and its non-empty tag; the visible ones are in their order |
| Store.LiveAreUnique | server/store/store.go:190-221 | a snapshot has no expired entry and no two of the same key |
| Store.ScrubCommutesWithSnapshot | server/store/inmemory.go:137-189 | at the same instant the snapshot after a scrub is the earlier snapshot without the entries that meet the criteria |
| Store.ScrubLeavesIff | server/store/inmemory.go:146-189 | of the visible entries exactly those of other applications and, with a tag, those with another tag are left, in their order |
| Store.PlainScrubIff | server/store/inmemory.go:146-189 | a scrub without criteria keeps the whole snapshot if and only if no application id in it is empty |
| Store.Channel.Append | server/store/inmemory.go:85-97 | the level rises, and the notification is stored last, paired with its metadata |
| Store.Channel.Scrub | server/store/inmemory.go:146-189 | what is left is the snapshot without the entries that meet the criteria; notifications and metadata stay paired and unmarked |
| Store.Channel.Drop | server/store/inmemory.go:195-213 | each survivor gets the metadata of the last entry of its id, so with distinct ids its own |
| Store.MetaIsOfLast | server/store/inmemory.go:195-213 | the metadata of a survivor is that of an entry of its id with no other one of that id after it |
| Store.InMemoryPendingStore.AppendToChannel | server/store/inmemory.go:99-103 | a broadcast raises the level of its channel by one and changes no other channel |
| Store.InMemoryPendingStore.AppendToUnicastChannel | server/store/inmemory.go:105-112 | a notification is stored without a change of the level |
| Store.InMemoryPendingStore.GetChannelSnapshot | server/store/inmemory.go:137-144 | reading a channel gives its level and its visible notifications, and changes nothing stored |
| Store.InMemoryPendingStore.Scrub | server/store/inmemory.go:146-189 | a scrub with up to two criteria, for any channel id |
| Store.InMemoryPendingStore.DropByMsgId | server/store/inmemory.go:195-213 | the same for the channel of an id, and with distinct ids exactly the entries of the targets go; other channels stay |
| Handlers.DoUnicast | server/api/handlers.go:478-546 | the counting loop refuses a request exactly when the quota is used up by others and nothing is cleared, and otherwise scrubs and appends |
| Handlers.RefusedIff | server/api/handlers.go:486-519 | a request is refused if and only if it clears nothing and its application has the maximum of unexpired notifications already, not counting those it replaces |
| Handlers.RequestLeavesIff | server/api/handlers.go:513-540 | what an accepted request leaves: the new entry last, and before it, in order, exactly the entries that it does not ask to clear or replace; a scrub for expired ones alone also takes those with an empty application id |
| Handlers.RemovesUnaskedIff | server/api/handlers.go:513-528 | so an unexpired entry that was not asked to go goes if and only if there is such a scrub and an unexpired entry with an empty application id |
| Handlers.ScrubMakesRoom | server/api/handlers.go:513-524 | after the scrub no stored entry would be superseded by the new one |
| Handlers.UnicastKeepsOrder | server/api/handlers.go:486-540 | a request keeps every application within its quota and the keys unique |
| Handlers.ChannelsStayOrderly | server/api/handlers.go:486-540 | so it is over every sequence of requests and drops from an empty channel |
| SeenState.SqliteSeenState.FilterBySeen | client/session/seenstate/sqlseenstate.go:86-106 | new ids are recorded in order, only they pass, and then the rows older than the head of the batch go |
| SeenState.SqliteSeenState.DropPrevThan | client/session/seenstate/sqlseenstate.go:81-84 | the rows before that of the id are deleted, none when it has no row |
| SeenState.RowsStartAtHead | client/session/seenstate/sqlseenstate.go:81-106 | after a batch the table has the old rows and then the new ids, from the first row of the head of the batch on |
| SeenState.MemSeenState.FilterBySeen | client/session/seenstate/seenstate.go:50-61 | the state that forgets nothing passes first occurrences only |
| SeenState.FreshIff | client/session/seenstate/seenstate.go:50-61 | passed on are exactly the notifications whose ids are neither seen nor those of earlier ones in the batch, in their order |
| ClientSession.ClientSession.HandleNotifications | client/session/session.go:530-561 | the ack is written after the batch was recorded, and dispatching comes after it; a failed recording is answered by a nak, and neither it nor a failed ack dispatches anything |
| ClientSession.ClientSession.HandleBroadcast | client/session/session.go:499-527 | the ack is written after the level was recorded, a nak if that failed; only the system channel is passed on |
| ClientSession.DispatchedIff | client/session/session.go:545-561 | dispatched are exactly the notifications with an addressee, in their order |
| ClientSession.DispatchesArePicked | client/session/session.go:545-561 | what the handler dispatches is what the transition system dispatches |
| UnicastDelivery.StepKeeps | server/broker/exchanges.go:157-182 | every step in one channel keeps the invariant: of the visible ids and those still to be sent, none older than the last accepted one lacks a seen row |
| UnicastDelivery.TimeExpires | server/store/store.go:193-199 | what has expired is not visible any more |
| UnicastDelivery.EndedSessionIsSilent | server/session/session.go:125-177 | a server session that has ended sends nothing and drops nothing any more |
| UnicastProgress.CanDeliverAll | server/broker/exchanges.go:157-182 | from every state of a guarded run, a client that connects can be sent all that is visible; then nothing is visible, and what it never recorded before has been dispatched, in order |
| DeviceDelivery.StepFollows | server/broker/exchanges.go:157-182 | with appends to one channel only, steps in other channels change nothing for it |
| DeviceDelivery.AtMostOnce | client/session/session.go:530-561 | with appends to one channel that supersede nothing, no id is dispatched twice on any run of the device, and ids are accepted and dispatched in append order |
| DeviceDelivery.AtMostOnceIffOneChannel | client/session/seenstate/sqlseenstate.go:81-106 | for any set of channels, no guarded run with appends to them dispatches an id twice if and only if they are one at most |
| DeviceDelivery.OtherChannelDispatchesAgain | client/session/seenstate/sqlseenstate.go:81-106 | from every state with one visible notification in each of two channels, the one already dispatched can be dispatched again |
| DeviceDelivery.DeletedIdsNeverReturn | client/session/seenstate/sqlseenstate.go:81-106 | with appends to one channel, an id whose seen row was deleted is not visible in any channel, nor still to be sent |
| DeviceDelivery.PrunedTableAgrees | client/session/seenstate/sqlseenstate.go:86-106 | with appends to one channel, on every part that reaches the client the pruned table answers as one that forgets nothing |
| DeviceDelivery.DroppedWasRecorded | server/broker/exchanges.go:172-182 | on every run, with any channels and requests, each id the server drops on an ack was recorded by the client before |
| OverlappingRequests.LoneRequestIsGuarded | server/api/handlers.go:478-540 | a request that no other one overlaps scrubs at most once and appends an entry that supersedes nothing, also when acks and time come between its store calls |
| OverlappingRequests.AfterIff | server/api/handlers.go:478-540 | steps in between lead to a state if and only if each is enabled in its turn |
| OverlappingRequests.UnguardedAppendDispatchesAgain | server/api/handlers.go:478-540 | from every state of a guarded run, an append that supersedes the oldest visible entry can make the client dispatch that entry once more |
| OverlappingRequests.OverlapDispatchesTwice | server/api/handlers.go:478-540 | so the first of any two notifications of one key can be dispatched twice |
| Exchanges.ChannelFilter | server/broker/exchanges.go:82-95 | on the system channel exactly the payloads with the tag pass, in order; the decoded forms are matched from the end |
| Exchanges.TaggedIff | server/broker/exchanges.go:82-95 | the payloads that pass are those whose decoded forms have the tag, in their order |
| Exchanges.PayloadsForIff | server/broker/exchanges.go:82-114 | a session gets the payloads of the items that the filter by level leaves, on the system channel only of those with its tag, in their order |
| Exchanges.BrokerSession.Prepare | server/broker/exchanges.go:97-114 | nothing is sent exactly when no payload is left and the client is not ahead; otherwise the message holds the payloads and the level of the exchange; a client that is ahead is sent the last pending payload of a channel without a filter |
| Exchanges.FilterIsEnd | server/broker/exchanges.go:66-80 | the filter by level leaves the end of the list: as many items as the client lacks, if there are so many, and the last one for a client that is ahead |
| Exchanges.NothingLeftIff | server/broker/exchanges.go:66-80 | the filter by level leaves nothing if and only if nothing is pending or the client has the top level |
| Exchanges.AckedIsNop | server/broker/exchanges.go:97-125 | at the level that an ack sets, the same snapshot leaves nothing to send |
| BroadcastDelivery.AskedForIff | server/broker/exchanges.go:66-80 | a level asks for a live broadcast if and only if at most the difference of levels many live ones come from it on |
| BroadcastDelivery.StepKeeps | server/broker/exchanges.go:66-125 | every step keeps the invariant: what is missing is among the last live ones the level asks for, also for stale snapshots and between parts |
| BroadcastDelivery.NoBroadcastIsLost | client/session/session.go:499-527 | on every run with safe cuts, the level of a disconnected client asks for every live broadcast it has not recorded |
| BroadcastDelivery.CanCatchUp | server/broker/exchanges.go:97-125 | a disconnected client can always catch up: one exchange of what is there, cut up in any way, and nothing is missing |
| BroadcastDelivery.NewClientIsCaught | client/session/session.go:641-652 | a client without a level is covered from the start |
| BroadcastDelivery.NothingIsLostWhenAllWanted | server/broker/exchanges.go:82-95 | when every payload is for the device, connections may break anywhere |
| BroadcastDelivery.FinishedExchangeLeavesNothing | server/broker/exchanges.go:97-125 | after the last ack of an exchange nothing below the top of its snapshot is missing |
| BroadcastDelivery.SkippingIsHarmless | server/broker/exchanges.go:194-203 | a session at the top level misses nothing, so feeding it nothing is right |
| BroadcastDelivery.CutLevelCoversIff | protocol/messages.go:148-155 | the level left between parts asks for all that is still to come if and only if this is the end of the snapshot |
| BroadcastDelivery.CutLosesNothingIff | server/broker/exchanges.go:82-125 | breaking off an exchange of the latest snapshot between parts, with nothing of the rest recorded before, loses nothing if and only if the rest is the end of the snapshot |
| BroadcastDelivery.CutLosesABroadcast | server/broker/exchanges.go:82-125 | a run that loses a broadcast |
| BroadcastDelivery.PrepareSendsPayload | server/broker/exchanges.go:97-114 | what `Prepare` sends is the payloads at the positions the transition system sends |
| BroadcastDelivery.PositionsAreTheSnapshot | server/store/store.go:190-221 | without tags the snapshot is the entries at the positions that have not expired |
| ChannelIds.SplitIsFirstColon | server/store/store.go:46-52 | the split is at the first colon |
| ChannelIds.UserAndDeviceIff | server/store/store.go:46-99 | parsing a unicast channel id gives back user and device if and only if the user has no colon |
| ChannelIds.UnicastIff | server/store/store.go:46-52 | exactly the ids made of a user and a device are parsed |
| ChannelIds.UnicastIdsAreInjective | server/store/store.go:97-99 | users without colons never share a channel |
| ChannelIds.ColonsCollide | server/store/store.go:97-99 | users with colons can |
| ChannelIds.OwnChannelIff | server/broker/simple/simple.go:112-114 | the device id comes back from a device's own channel if and only if it has no colon |
| ChannelIds.HexRoundTrip | server/store/store.go:62-94 | a hexadecimal id is read if and only if it is well formed, and written back as it was, all zeros as the system channel |
| ChannelIds.HexIdIff | server/store/store.go:76-94 | the system channel is "0" or 32 zeros, any other 32 hexadecimal digits are a channel of their own, and nothing else is one |
| ChannelIds.ChannelOfToken | server/store/inmemory.go:59-76 | a request with the token of an application goes to the own channel of the token's device, one without a token to the channel of its user and device |
| ChannelIds.ChannelOfRequestIff | server/store/inmemory.go:59-76 | which requests are refused, and the channel of each other one |
| Broker.SimpleBroker.Join | server/broker/simple/simple.go:183-193 | a new session goes to the agent unregistered |
| Broker.SimpleBroker.HandleSession | server/broker/simple/simple.go:242-257 | registering replaces the session of the device and kicks only that one; unregistering removes a session only if it is current |
| Broker.SimpleBroker.HandleDelivery | server/broker/simple/simple.go:258-286 | a broadcast goes to every registered session once, a unicast to the session of its device only |
| Broker.SimpleBroker.Unicast | server/broker/simple/simple.go:300-307 | one delivery is asked for each channel, in order |
| BrokerRuns.RegistryHoldsLatest | server/broker/simple/simple.go:242-257 | on every run the registry holds the session registered last for a device, until that session itself unregisters |
| BrokerRuns.KickedExactlyOnce | server/broker/simple/simple.go:248-256 | on every run a session is kicked once if it was replaced, and otherwise never |
| BrokerRuns.KickIsQueuedOnce | server/broker/simple/simple.go:248-256 | a session that was kicked and has not ended has exactly one kick in its queue, and one that was not has none |
| BrokerRuns.BroadcastIsBrought | server/broker/simple/simple.go:256-297 | on every run, a broadcast that was asked for is still to be delivered, or queued or taken, for every session registered from then on |
| BrokerRuns.BroadcastGoesTo | server/broker/simple/simple.go:256-274 | when the agent takes a broadcast, it goes to the registered sessions and to no others |
| BrokerRuns.PendingIsFed | server/broker/exchanges.go:185-207 | a new session is fed the exchange of its own channel, and before it that of the system channel if and only if it is behind; both stay queued until it takes them |
| BrokerRuns.AgentIsTold | server/broker/simple/simple.go:193-255 | on every run, a session that joins, or one that left and is still registered, is on its way to the agent |
| BrokerRuns.BreaksOff | server/broker/simple/simple.go:207-247 | a session that breaks off leaves, and then the agent takes it out of the registry |
| BrokerRuns.NoLostWakeUp | server/broker/simple/simple.go:234-289 | on every guarded run, an unexpired entry in the own channel of an online device without a colon in its id is about to be asked for, queued, fed, or in the exchange under way |
| BrokerRuns.NoWakeUpIsLostIff | server/broker/simple/simple.go:234-289 | so it is for a device on all guarded runs if and only if its id has no colon |
| BrokerRuns.QuietMeansDelivered | server/broker/exchanges.go:157-207 | on every guarded run, when nothing is left to do for a device without a colon in its id, its own channel has nothing visible |
| BrokerRuns.ColonDeviceSleeps | server/broker/simple/simple.go:275-282 | every device with a colon in its id has a run on which any given entry in its own channel is not brought to its idle session |
| BrokerRuns.SupersededSleeps | server/broker/exchanges.go:157-182 | of any two entries of one key, the earlier one can be left visible with nothing to bring it to the session |
| BrokerRuns.OtherChannelFirst | server/broker/simple/simple.go:248-284 | the exchange of another channel of a device can be queued before that of its own |
| HelperPool.CompactAppend | launch_helper/kindpool.go:166-181 | the entries that are not holes, over concatenation |
| HelperPool.CompactIff | launch_helper/kindpool.go:166-181 | the inputs of a backlog are its entries that are not holes, in their order |
| HelperPool.KindHelperPool.DoGrowBacklog | launch_helper/kindpool.go:160-164 | the input waits last, and the backlog stays at most twice as long as its inputs |
| HelperPool.KindHelperPool.ShrinkBacklog | launch_helper/kindpool.go:166-181 | the waiting inputs stay as they are, and the backlog is at most twice as long as they are many |
| HelperPool.KindHelperPool.TryOne | launch_helper/kindpool.go:200-206 | an input is launched and entered in the table, or answered |
| HelperPool.UidsDiffer | launch_helper/kindpool.go:265 | helpers of different kinds, or with different instance ids, have different ids in the table, if kinds have no colon |
| HelperPool.KindHelperPool.HandleInput | launch_helper/kindpool.go:121-132 | a new input waits when all places are taken or its application runs, and is tried otherwise |
| HelperPool.KindHelperPool.HandleDone | launch_helper/kindpool.go:133-156 | punching holes in place is a scan of the list of waiting inputs up to the first that is launched |
| HelperPool.KindHelperPool.OneDone | launch_helper/kindpool.go:291-328 | a known helper is forgotten and its input answered once, from its output unless it was stopped; an unknown one changes nothing |
| HelperPoolRuns.ScanRunning | launch_helper/kindpool.go:133-156 | a scan launches one input, or leaves only inputs whose application runs |
| HelperPoolRuns.ScanLaunchesFirst | launch_helper/kindpool.go:133-156 | of the waiting inputs the first that can be launched is launched; those before it that fail are answered, and all others go on waiting in their order |
| HelperPoolRuns.ScanAccount | launch_helper/kindpool.go:133-156 | a scan moves inputs of an application on without a change of their order |
| HelperPoolRuns.StepKeeps | launch_helper/kindpool.go:116-328 | every step keeps the invariant of places, table and order |
| HelperPoolRuns.InOrderAndOnce | launch_helper/kindpool.go:116-328 | on every run what was submitted for an application is answered, in flight, waiting and queued in this order, each input once |
| HelperPoolRuns.InFlightIsHeld | launch_helper/kindpool.go:222-328 | the input in flight is that of the one helper of the application in the table or being answered |
| HelperPoolRuns.NoIdlePlace | launch_helper/kindpool.go:116-158 | all places are taken, or every waiting input waits for its own application |
| HelperPoolRuns.LaunchesAreBounded | launch_helper/kindpool.go:116-158 | never more than the maximum of helpers, nor two of an application |
| HelperPoolRuns.IdleMeansAnswered | launch_helper/kindpool.go:116-328 | when no helper is left and nothing is queued, every input was answered |
| HelperPoolRuns.StoppedIsAnsweredByPayload | launch_helper/kindpool.go:262-314 | a helper that the timer stopped while in the table is answered with the payload of its input, whatever it puts out |
| HelperPoolRuns.MarkedIffStopped | launch_helper/kindpool.go:258-279 | on every run, a helper in the table is marked as stopped if and only if its timer stopped it while it was there |
| HelperPoolRuns.AnswerIsOutput | launch_helper/kindpool.go:291-328 | on every run, each answer goes to the input of a helper that was taken out of the table: its parsed output if it has one and was not stopped, and otherwise the payload |
| MBox.EvictsShortestHead | client/service/mbox.go:33-45 | those evicted are the shortest head that makes up for the new message, or everything |
| MBox.AppendEvicts | client/service/mbox.go:48-60 | an append evicts nothing while there is room, and otherwise the shortest head that makes up for the new message, or everything |
| MBox.StaysWithinLimitIff | client/service/mbox.go:48-75 | a box within the limit stays so if and only if the new message fits it |
| MBox.BoxIsLatest | client/service/mbox.go:48-80 | a box holds a suffix of the history that includes the last message |
| MBox.BoxIsWholeIff | client/service/mbox.go:48-75 | a box is its whole history if and only if each message from the second on that is not empty left the total within the limit |
| MBox.BoxIsWithinLimit | client/service/mbox.go:48-75 | a box is within the limit if no message exceeds it |
| MBox.MBox.EvictFor | client/service/mbox.go:33-45 | evicting in place drops that head, blanks it and keeps the size |
| MBox.MBox.Compact | client/service/mbox.go:61-69 | the copy moves messages and ids together, at most twice as many as were evicted |
| MBox.MBox.Append | client/service/mbox.go:48-75 | the buffer holds the box of its history, with its size, and has moved at most two letters an append |
| MBox.MBox.AllMessages | client/service/mbox.go:78-80 | the messages of the box of the history |
| Redialer.AutoRedialer.SetStateIfEqual | util/redialer.go:101-109 | the compare and set |
| Redialer.AutoRedialer.SetStateStopped | util/redialer.go:111-122 | what stopping closes in each state |
| Redialer.StepKeeps | util/redialer.go:101-169 | every step of every caller keeps the invariant of states, channels and dials |
| Redialer.ClosedOnceAndOneDials | util/redialer.go:101-169 | neither channel is closed twice, and at most one Redial ever dials |
| Redialer.StoppedForGood | util/redialer.go:124-129 | after a Stop has returned no Redial is in progress, and none dials again |
| Redialer.StopWaitsForRedialOnly | util/redialer.go:124-129 | a Stop can return if and only if no Redial is in progress |
| Redialer.DialsAreCounted | util/redialer.go:133-169 | at most one dial begins after the stop, and a Redial returns the number of its dials in 32 bits |
| Redialer.EndsOnlyWhenDialedOrStopped | util/redialer.go:133-169 | on every run, a Redial that took effect ends only after one of its dials succeeded or the redialer was stopped |
| Redialer.FirstDialSucceeds | util/redialer.go:133-151 | the first Redial takes effect, and returns 1 when its first dial succeeds |
| Redialer.FailedDialIsTriedAgain | util/redialer.go:146-169 | after a failed dial the caller dials again, unless the redialer was stopped |
| Chunked.ParseHexUint | http13client/chunked.go:187-203 | the shifting loop, and its failure on any other byte |
| Chunked.ParsedIffSpelled | http13client/chunked.go:187-203 | a length is read if and only if it has hexadecimal digits only, in any case; up to 16 of them give the number they spell |
| Chunked.CaseDoesNotMatter | http13client/chunked.go:195-196 | a length in capital letters is read as in small ones |
| Chunked.ParseIsModulo | http13client/chunked.go:187-203 | a length is parsed modulo 2 to the 64th, and right if and only if it is less |
| Chunked.ParseInvertsPrint | http13client/chunked.go:187-203 | parsing inverts hexadecimal printing for every 64-bit number |
| Chunked.PrintIsCanonical | http13client/chunked.go:167-169 | lengths are printed in small digits without leading zeros |
| Chunked.NextLine | http13client/chunked.go:110-132 | the first line, if it ends within the limit, without its trailing white space |
| Chunked.LineIff | http13client/chunked.go:110-124 | a line is read if and only if it ends within the first 4095 bytes, and which error it is otherwise |
| Chunked.TrimsWhite | http13client/chunked.go:127-136 | exactly the white space at the end of a line is trimmed |
| Chunked.ChunkedReader.BeginChunk | http13client/chunked.go:45-59 | reading a header does not change what remains to be delivered |
| Chunked.ChunkedReader.EndChunk | http13client/chunked.go:96-102 | the line end after the data, and the error without it |
| Chunked.ChunkedReader.Read | http13client/chunked.go:70-105 | what a read delivers, followed by what remains, is what remained before, on every stream, with any short reads; progress unless at the end |
| Chunked.ReadAll | http13client/chunked.go:70-105 | reads with buffers of any sizes deliver what decoding in one go gives |
| Chunked.ChunkedWriter.Write | http13client/chunked.go:160-180 | data goes out as one chunk, and no data as nothing |
| Chunked.OnTheWire | http13client/chunked.go:160-185 | the bytes on the wire for data of 20 and of 5 bytes |
| Chunked.DecodesChunks | http13client/chunked.go:45-203 | chunks are read back whole and in order, and then what follows them |
| Chunked.RoundTrip | http13client/chunked.go:45-203 | whatever is written comes back whole, then the end, with the stream just after the line of the last chunk |
| Chunked.Transfer | http13client/chunked.go:30-203 | writer and reader together: what is written is read back with buffers of any sizes, and the rest of the stream is left |
| Chunked.TruncationLooksComplete | http13client/chunked.go:88-102 | a stream cut off within a chunk reads as a proper end, with the data up to there |
| Chunked.NoLineEndIsMalformed | http13client/chunked.go:96-102 | data that no line end follows is delivered, and then an error |
| Chunked.NoNumberIsInvalid | http13client/chunked.go:45-59 | a header that is not a number is an error, after all data before it |
| Chunked.CutIsUnnoticedIff | http13client/chunked.go:45-132 | a stream cut off anywhere reads as a proper end if and only if the cut is within the data of a chunk or at one of its ends |
| Framing.Protocol0.WriteMessage | protocol/protocol.go:94-106 | the buffer patched with the length is the frame of the body |
| Framing.Protocol0.ReadMessage | protocol/protocol.go:77-90 | a body is read exactly when the stream has a whole frame |
| Framing.WordsAreOrdered | protocol/protocol.go:100-103 | lengths are ordered as their words are, the first byte first |
| Framing.HigherBitsAreLost | protocol/protocol.go:100-103 | of a longer length only the remainder is written |
| Framing.FrameRoundTripIff | protocol/protocol.go:77-106 | a frame is read back if and only if its body is shorter than 65536 |
| Framing.StreamRoundTripIff | protocol/protocol.go:77-106 | so it is for a stream of frames |
| Framing.EncodedLength | protocol/messages.go:200-206 | the accounted size of items is the length of their JSON; commas and envelope come on top |
| Framing.PartFits | protocol/messages.go:181-206 | a part whose items have size 32 at least fits the length prefix |
| Framing.SmallItemsOverflow | protocol/messages.go:181-206 | with size 31 a part can be too long |
| Framing.EncodedBroadcastLength | protocol/messages.go:126-155 | so it is for the payloads of a broadcast |
| Framing.BroadcastPartFits | protocol/messages.go:137-158 | a part of a broadcast whose payloads have 33 bytes at least fits the length prefix, for any channel and level |
| Framing.SmallPayloadsOverflow | protocol/messages.go:137-158 | with payloads of 32 bytes a part can be too long |
| Framing.PartsAreReadBack | protocol/protocol.go:77-106 | the parts of any such list are read back frame for frame |
| Cookies.SanitizeOrWarn | http13client/cookie.go:258-278 | exactly the valid bytes are kept, in order |
| Cookies.ValidBytesIff | http13client/cookie.go:244-278 | these are the bytes from the space to the tilde without quote, semicolon and backslash |
| Cookies.SanitizeCookieValue | http13client/cookie.go:233-242 | a value with a space or comma at an end is quoted |
| Cookies.Request.AddCookie | http13client/request.go:262-269 | a cookie joins the one line of the header |
| Cookies.PairOf | http13client/request.go:262-269 | a name, an equals sign, and the value, in quotes if a space or comma is at an end |
| Cookies.ReadCookies | http13client/cookie.go:111-149 | the cookies of all lines in order, those of the wanted name |
| Cookies.LinesAreRead | http13client/cookie.go:111-149 | lines are read one after the other |
| Cookies.SplitIsInverse | http13client/cookie.go:119 | the pieces of a line have no semicolons, and with semicolons between them are the line |
| Cookies.TrimsAround | http13client/cookie.go:126 | exactly the white space around a piece is trimmed |
| Cookies.PieceIsCookieIff | http13client/cookie.go:126-147 | a piece is a cookie if and only if what is before its first equals sign is a token and the wanted name and what comes after it is a value |
| Cookies.NameAloneIff | http13client/cookie.go:126-147 | without an equals sign the value is empty |
| Cookies.TokenIff | http13client/lex.go:9-96 | the bytes of tokens |
| Cookies.WhiteIff | http13client/cookie.go:126 | the white space that is trimmed, in ASCII |
| Cookies.ValueIsReadIff | http13client/cookie.go:280-291 | a value is read if and only if it has valid bytes only, in quotes or not |
| Cookies.QuotedParses | http13client/cookie.go:280-291 | a sanitized value parses to its valid bytes |
| Cookies.RoundTrip | http13client/cookie.go:111-149 | cookies with token names are read back in order with their values reduced to valid bytes |
| Cookies.RoundTripIff | http13client/request.go:262-269 | all cookies come back so if and only if all names are tokens |
| Cookies.UnchangedIff | http13client/cookie.go:111-149 | a cookie with a token for its name comes back as it was if and only if its value has valid bytes only |
| Cookies.AddThenRead | http13client/cookie.go:111-149 | cookies added to a new request are read from its header as said |
| Murmur.MixConcat | external/murmur3/murmur.go:34-59 | mixing in two pieces, with the tail of the first put before the second, is mixing at once |
| Murmur.Digest.BMix | external/murmur3/murmur128.go:56-84 | as many blocks as possible are mixed in, and the rest comes back |
| Murmur.Digest.Refill | external/murmur3/murmur.go:38-50 | the shared buffer completes the pending block |
| Murmur.Digest.Write | external/murmur3/murmur.go:34-59 | after any writes the digest is that of all the data, however it was cut up |
| Murmur.Digest.Reset | external/murmur3/murmur.go:61-65 | a reset digest is that of no data |
| Murmur.Digest.Sum32 | external/murmur3/murmur32.go:63-91 | the 32-bit sum of a digest is that of all the data written |
| Murmur.Digest.Sum128 | external/murmur3/murmur128.go:86-162 | so is the 128-bit sum |
| Murmur.Sum32 | external/murmur3/murmur32.go:105-154 | the separate loop over all the data at once gives the same 32-bit sum |
| Murmur.Sum128 | external/murmur3/murmur128.go:184-189 | so does the 128-bit sum at once |
| Murmur.SumOfHello | external/murmur3/murmur_test.go:15 | the 32-bit sum of the tests for "hello" |
| Murmur.SumOfDate | external/murmur3/murmur_test.go:17 | the 128-bit sum of the tests for a text of 25 bytes |
| Murmur.ZerosDoNotMatter32 | external/murmur3/murmur32.go:63-91 | a tail ends as if zeros came after it, for each length |
| Murmur.ZerosDoNotMatter128 | external/murmur3/murmur128.go:86-162 | so do the two halves of a tail of the 128-bit digest |

## Left out

- OverlappingRequests.UnguardedAppendDispatchesAgain: for the oldest visible entry, whose notification the client may still lack; appends that supersede only later ones are not covered.
- DeviceDelivery.AtMostOnce: message ids are fresh, and the database of the client does not fail in the middle of a batch; dropping is by the set of ids, as it is when ids are distinct.
- BrokerRuns.NoLostWakeUp: the own channel of a device only, since nothing is fed on connect for its other channels (server/broker/exchanges.go:205).
- BroadcastDelivery.NoBroadcastIsLost: parts may be cut anywhere, which covers the cuts of `Split`; a broadcast counts as received when the client has recorded its level, so a failed ack write, after which nothing is dispatched, is not counted as a loss.
- UnicastProgress.CanDeliverAll: delivery can always be finished; that clients connect and messages arrive is not assumed, so no more is claimed.
- BroadcastDelivery.CanCatchUp: so it is for broadcasts.
- Handlers.DoUnicast: the last pending payload that a refused request returns (server/api/handlers.go:511-519) is left out; which notification it is depends on the loop variable rules of the Go version.
- Redialer.DialsAreCounted: how long to wait between dials is left out; the table of timeouts must not be empty.
- Chunked.ChunkedReader.Read: the connection gives at least one byte a read until it ends; the line limit assumes a buffer of 4096 bytes, as the source does.
- Framing.PartFits: JSON escaping is not modelled; nor are the bodies of other messages.
- Cookies.ReadCookies: white space outside of ASCII is not trimmed.
- MBox.MBox.Append: the copies made when a slice grows are not counted; growing may give any larger capacity.
- Broker.SimpleBroker.HandleDelivery: queues have no capacity, so nothing blocks; `Stop` is not modelled.
- ChannelIds.ChannelOfToken: tokens are taken decoded; base64 and the authorization of applications are left out.
- The client reads one message at a time; a read loop that outlives its connection is not modelled.
- JSON, SQLite itself, timers, pings, statistics, logging, temporary files and process launch.
- The unfinished `Sum` of the digests, the 64-bit digest (half of the 128-bit one), and the rest of http13client.
