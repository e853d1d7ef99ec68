# A verified model of the zcockpit link

zcockpit connects cockpit hardware to X-Plane through a plugin server. This project models the parts
of it that hold state across calls and proves what they keep over every run. `dafny verify
dfyconfig.toml` checks all of it.

**Server.** `Registry` is the reference-counted name/id table behind datarefs and commands,
`RefCounts` compares its counts with what clients hold, `Sessions` is the whole server state as one
value with its transitions, `Servers` holds the two network controllers and the server as classes
that are proved to make exactly those transitions, `Answers` says what a client gets for its
subscriptions, and `SessionRuns` and `Duplicates` say what holds over every sequence of updates.
`DataRefs`, `Broadcast` and `Publisher` are the change-only announcements of dataref values, `Updates`
is the whole server update, sessions and values together, and `StaleRuns` holds runs of it that leave
a client with an old value. Open requests, random draws, socket results, received datagrams and clock
readings (whole milliseconds) are inputs.

**Cockpit software.** `Subscriptions` is the client's bookkeeping of requests and ids, `Clients` its
state machine cycle by cycle, `Confirmations` what the plugin confirms to it over a run, and `Routing`
follows ids and names between the two sides. `Switches` and `SwitchRuns` turn hardware switch changes
into commands, and `SpringRuns` follows the commands of spring-loaded switches into the plugin.

**Hardware.** `Mastercard`, `MastercardDecoder` and `MastercardWire` decode IOCards input packets;
`UsbWriter` is the two-thread write side; `Encoder` the gray-code encoders; `FiFrame` and
`GaugeFilter` the Flight Illusion gauges; `Leds` and `SwitchReports` the InterfaceIT boards;
`SpikeFilter` the throttle inputs. `Bits` and `Common` are shared.

State that the source changes in place is changed in place here: each class has a `View` of its
fields, each method's contract equates the new view with a function of the old one, and the lemmas
are about that function.

## Where the code falls short of its intent

Each of these is modelled as written; the member named gives the exact condition.

- Subscribing a name twice leaves a count that is never given back: with all clients gone an id is
  still registered exactly if it was ever subscribed by a client already holding it, and it then
  stays for ever (`Duplicates.RegisteredWithoutClientsIffRepeated`, `SessionRuns.LeakIsForever`). The
  cockpit does this itself with the tail number, which it requests on its own
  (`cockpit/client.h:509`) and again with all others (`cockpit/client.h:253`).
- A session whose receiver opens but whose transmitter does not is never handed over or removed, and
  its package can never connect again (`SessionRuns.HalfOpenIffStuck`, `SessionRuns.HalfOpenIsForever`,
  `SessionRuns.HalfOpenHappens`).
- The client counts confirmation packets while it waits for its subscription and never resets the
  count. Once it has reached five seconds' worth, every further confirmation makes it request both
  tables again, so with both tables nonempty it never becomes active (`Clients.ActiveIffAllConfirmed`,
  `Clients.StarvedForever`, `Clients.ClientsStarve`, `Clients.SubscribedTimeoutNeverResets`).
- A client that is dropped before all its requests were confirmed asks, when it is back, for the rest
  alone, and is active once that is confirmed, without the ids of what it had before
  (`Clients.LeftoversActivateIff`, `Clients.ActiveWithoutIds`).
- A subscription moves the cached value of a dataref without telling its other holders, who stay
  stale unless the value changes again before the next announcement (`Broadcast.ConfirmKeepsSyncedIff`,
  `Broadcast.SilentRefresh`, `StaleRuns.FirstCockpitIsStale`). An array or string whose cache is reset
  and which then reads as zeros is not announced either (`Broadcast.AnnouncementIsExactIff`,
  `StaleRuns.ZerosAreLost`).
- Encoder values look their id up by indexing the id map, which inserts id 0 for a missing name. That
  entry stays until the client is dropped, so this and every later value of the name goes to id 0
  (`Routing.LookupIsRightIff`, `Routing.SetValueReachesItsDataref`, `Routing.MissingNameIsPoisoned`,
  `Routing.EncoderGoesAstray`).
- A spring-loaded switch that is down over a reconnect ends its command with the id of the connection
  before, which may name another command (`SpringRuns.EndReachesItsBegin`, `SpringRuns.EndKeepsOldId`,
  `SpringRuns.IdsNameOtherCommands`).
- The rotary command id is chosen from the simulator's value, its number of steps from the shadow
  value; the two agree exactly under `SwitchRuns.SameSide` (`SwitchRuns.RotaryIsExactIff`,
  `SwitchRuns.RotaryOvershoots`). The direction computed from the shadow at
  `cockpit/aircraft_model.cpp:146-152` only reaches the log.
- The loop in `pLED_Enable` that means to clear `led_buffer` clears copies
  (`cockpit/hardware/InterfaceIT/HidInterfaceIT.cpp:253`), so LEDs left on return with their column
  (`Leds.EnableKeepsCoherentIff`, `Leds.StaleLedReturns`).
- Switch events are popped newest first, so undrained events are replayed backwards
  (`SwitchReports.DrainIsRightIff`, `SwitchReports.TwoUndrainedReportsMislead`).
- A low encoder pin reported at 0 before its high pin produces the code -2, from which that encoder
  never recovers (`Encoder.DeadIffLowPinAlone`, `Encoder.DeadForever`).
- A write callback with a failed transfer leaves `write_callback_running` set, so a waiting
  `send_mastercard` never returns (`UsbWriter.WaitEndsIff`, `UsbWriter.SendHangs`).

## Model

| member | source | states |
|---|---|---|
| Registry.Repository.Subscribe | common/xp_data_ref_repository.hpp:29-61 | A known name is counted once more; a new one gets the next id if X-Plane knows it; a failed creation registers nothing; the counter restarts when the registry is empty |
| Registry.Repository.Unsubscribe | common/xp_command_repository.hpp:39-49 | One count is given back; the last one removes the entry from both maps; an unknown id changes nothing |
| Registry.Repository.UnsubscribeEach | plugin/server.cpp:127-134 | Whatever the order of the set, the loop takes one count from every id in it |
| Registry.SubscribeKeepsWellFormed | common/xp_command_repository.cpp:6-34 | Name and id maps stay inverse to each other, ids stay below the counter and counts at least 1, also when creation fails |
| Registry.SubscribeNamesId | common/xp_data_ref_repository.hpp:36-60 | An id is returned exactly if the name is known or can be created; a new name gets an id nobody has; no id changes its name |
| Registry.IdsAreConsecutive | common/xp_data_ref_repository.hpp:31-58 | Ids are handed out one after the other, from 0 on when nothing is registered, and a failed creation uses none up |
| Registry.SubscribeCounts | common/xp_data_ref_repository.hpp:39-52 | Exactly the returned id is counted once more |
| Registry.UnsubscribeAllCounts | common/xp_data_ref.cpp:414-428 | Giving back a set takes exactly one from each registered id in it and renames nothing |
| Registry.UnsubscribeOneMore | common/xp_command.cpp:37-51 | Unsubscribing ids one at a time, in any order, is the order-free result |
| RefCounts.HeldIsRegistered | common/xp_data_ref_repository.hpp:63-73 | While counts cover holders, a held id is registered |
| RefCounts.SubscribeSurplus | plugin/server.cpp:170-173 | The excess of count over holders grows by one exactly when the client already held the id |
| RefCounts.LeaveSurplus | plugin/server.cpp:124-135 | A client that leaves changes no id's excess of count over holders |
| RefCounts.LastHolderReleases | plugin/server.cpp:124-135 | When the last holder leaves, the id is released exactly if it was never subscribed twice |
| RefCounts.ResetReusesNoHeldId | common/xp_data_ref_repository.hpp:31-34 | The counter is only reset when no connected client holds any id |
| RefCounts.EmptyWithoutSurplus | common/xp_data_ref_repository.hpp:63-73 | With nobody connected the registry is empty exactly if no count exceeds its holders |
| RefCounts.DuplicateLeaks | common/xp_data_ref_repository.hpp:39-44 | The smallest leak: two subscriptions of one name, one id held, and the entry survives the client |
| Sessions.NewIdIsFresh | common/network/multicast_controller.hpp:199-221 | A drawn id is unused in both controllers and in the table of held ids, though only one controller is compared |
| Sessions.OpenEstablishesIff | common/network/multicast_controller.hpp:230-271 | An open request adds a client, connected in the UDP controller and holding nothing, exactly if its package is unknown and both sockets open; it leaves a half-open session in the multicast controller exactly if only the receiver opens; it changes no other entry |
| Sessions.OpenIsAnsweredIff | common/network/multicast_controller.hpp:171-187 | A request is answered exactly if its session still waits, under its client id or for a client without one under its package, or a new one can be established |
| Sessions.HandOffKeepsInv | plugin/server.cpp:80-110 | Handing sessions over keeps all four maps in agreement, leaves no established session behind and adds exactly those clients |
| Sessions.DropKeepsInv | plugin/server.cpp:115-149 | Removing a timed-out client keeps the maps in agreement and every held id covered by its count |
| Sessions.DatarefKeepsInv | plugin/server.cpp:168-175 | A dataref subscription, new, repeated or failed, keeps the invariant |
| Sessions.CommandKeepsInv | plugin/server.cpp:195-201 | The same for commands |
| Sessions.TimesOutIff | common/network/connection.hpp:190-213 | A polled client is listed as timed out exactly if no datagram came and its last is more than 5000 ms ago; a datagram, decodable or not, restarts the timer; a socket that was not heard is as the poll leaves it; no other client is affected |
| Sessions.HeardKeepsInv | common/network/udp_controller.hpp:51-68 | Polling a client not on the list keeps the list duplicate-free and within the live connections |
| Servers.MulticastController.DrawClientId | common/network/multicast_controller.hpp:199-211 | The draw loop ends after exactly one draw |
| Servers.MulticastController.CreateConnection | common/network/multicast_controller.hpp:198-221 | The connection and its package are recorded exactly if the receiver opens |
| Servers.MulticastController.RespondToOpenConnection | common/network/multicast_controller.hpp:230-271 | Maps and reported state change as the model's open step says, in all four cases |
| Servers.MulticastController.FindConnected | common/network/multicast_controller.hpp:154-162 | Finds an established session exactly if there is one |
| Servers.UdpController.GetTimedOutConnectionKey | common/network/udp_controller.hpp:21-29 | Takes the oldest entry of the list, if any |
| Servers.UdpController.ServerReceive | common/network/udp_controller.hpp:51-68 | The packet, the connection's timer and the timed-out list change as the model's poll says |
| Answers.PollIsAnswered | plugin/server.cpp:160-211 | For either registry, in the terms of the datagram: a poll registers exactly what it asks for and X-Plane knows, gives its client the ids of exactly the names it asks for that are known then, confirms exactly those, and gives nobody else anything |
| Answers.ItemIsAnswered | plugin/server.cpp:168-201 | In particular every item that is known or can be created is answered with an id that the client holds and that is registered under its name |
| Answers.PollIsInUpdate | plugin/server.cpp:157-160 | What a poll confirms is among what the update confirms |
| Servers.Server.MoveConnected | plugin/server.cpp:81-109 | The hand-off loop terminates, moves every established session whatever the order of the hash map, and its "already connected" branch is dead |
| Servers.Server.RemoveTimedOut | plugin/server.cpp:113-154 | The cleanup loop terminates and empties the list; its "already disconnected" branch and its assertion on an absent connection are dead |
| Servers.Server.MulticastRequest | plugin/server.cpp:75-155 | One round keeps the invariant, leaves no established session in the multicast controller and nobody on the timed-out list |
| Servers.Server.ClientRequest | plugin/server.cpp:157-283 | Every connected client is polled exactly once, in any order, and subscribed as asked |
| Servers.Server.Update | plugin/server.cpp:37-41 | The session part of an update is one step of the model and keeps the invariant |
| SessionRuns.ReachableMapsAgree | plugin/server.cpp:75-155 | In every reachable state the live ids split over the two controllers and are the range of the package map, the held-id table has the UDP controller's keys, and the timed-out list names live clients once |
| SessionRuns.ReachableHeldIsCounted | common/xp_data_ref_repository.hpp:29-73 | In every reachable state a held dataref or command id is registered and counted at least once per holder |
| SessionRuns.ConnectedKeepsIds | common/xp_data_ref_repository.hpp:29-73 | Over any run during which a client stays connected, it keeps every id it held and each id keeps naming the same dataref or command |
| SessionRuns.UpdateAdvanced | plugin/server.cpp:37-41 | An update takes no id and no name from a client that stays, and drops exactly the clients on the timed-out list |
| SessionRuns.LeakIsForever | common/xp_data_ref_repository.hpp:63-73 | In either registry an id with a surplus count stays registered under its name in every later state |
| SessionRuns.HalfOpenIsForever | common/network/multicast_controller.hpp:243-254 | A session left in the multicast controller stays there for ever and no client of its package is ever connected |
| SessionRuns.HalfOpenIffStuck | common/network/multicast_controller.hpp:240-251 | In every run the multicast controller keeps a session exactly if some update answered its open request with a receiver but no transmitter |
| SessionRuns.HalfOpenHappens | common/network/multicast_controller.hpp:240-251 | A run of one update that ends with such a session |
| Duplicates.CountIsHoldersPlusRepeats | plugin/server.cpp:168-201 | Conservation over every run, for datarefs and for commands: the count of an id is its number of holders plus every repeated subscription ever made |
| Duplicates.RegisteredWithoutClientsIffRepeated | cockpit/client.h:253-284 | Once all clients are gone an id is still registered exactly if it was ever subscribed twice by a holder |
| DataRefs.SampleIsRead | common/xp_data_ref.cpp:91-105 | Element by element, a sample is what X-Plane holds; beyond what was read an array keeps its old elements and a string is zero; the cache of an array is zeroed with its first data, that of a string whenever its length is another one |
| DataRefs.FullReadIsExact | common/xp_data_ref.cpp:214-234 | A read of the cell's size gives exactly what X-Plane holds |
| DataRefs.ChangedCaches | common/xp_data_ref.cpp:22-30 | Asking for a changed value leaves the cache equal to the sample, and yields the sample exactly if they differed |
| DataRefs.FirstIntIsAnnouncedIff | common/xp_data_ref.cpp:17-30 | The first sample of an int is announced unless it is -999999 |
| DataRefs.SampledTwice | common/xp_data_ref.cpp:346-357 | Sampling a dataref that is requested twice in one packet is sampling it once |
| DataRefs.VectorDataRef.UpdateNewValueFromXplane | common/xp_data_ref.cpp:214-234 | First data sizes the vectors, a string of another length zeroes both, and as many elements as fit are read |
| DataRefs.VectorDataRef.GetChangedValue | common/xp_data_ref.cpp:235-255 | The element-wise comparison and copy is comparison and copy of whole values |
| Broadcast.ConfirmKeepsSyncedIff | plugin/server.cpp:176-188 | The subscriptions of one packet leave every replica equal to the cache exactly if each of them is held by nobody else or finds its value unchanged |
| Broadcast.AnnouncementReachesIff | common/xp_data_ref.cpp:268-295 | After an announcement a replica is current exactly if it was told or already held the sample |
| Broadcast.AnnouncementIsExactIff | plugin/server.cpp:43-68 | From replicas equal to the cache, all are current afterwards exactly if no array was reset and read as zeros |
| Broadcast.SilentRefresh | common/xp_data_ref.cpp:297-317 | Another holder is stale after the next announcement exactly if the last sample differs from what it knows and equals the cache the subscription left, resets included |
| Broadcast.DeltaIsFullIff | plugin/server.cpp:48-68 | Sending only changes leaves the same server and replicas as sending every client all it holds, exactly if it leaves every replica current |
| Updates.SessionIsRun | plugin/server.cpp:37-72 | The run with values is a run of the sessions, so all that is proved of sessions, ids and counts holds in it |
| Updates.RoundCarries | plugin/server.cpp:75-155 | Connecting and removing clients keeps the values linked to the registered ids and the holders, and the replicas equal to the caches |
| Updates.PollLinks | plugin/server.cpp:168-188 | Answering a subscription keeps them linked: the client gains exactly the ids it is confirmed, with a cell for each |
| Updates.QuietKeepsSynced | plugin/server.cpp:37-72 | One update of the server without silent refreshes and lost resets ends with every replica current, as full broadcast would |
| Updates.DeltaRefinesFull | plugin/server.cpp:37-72 | Over every run of such updates, each announcement of changes has the effect of full broadcast, and every connected client knows what X-Plane holds of every dataref it holds: all that was read, and exactly X-Plane's value if that has the cell's size |
| StaleRuns.FirstCockpitIsStale | plugin/server.cpp:176-188 | A run of two cockpits after which the first holds 5 for a dataref whose latest sample is 6 |
| StaleRuns.ZerosAreLost | common/xp_data_ref.cpp:91-127 | A run in which an array's first data are zeros and its subscriber is never told |
| Publisher.Store.Publish | plugin/server.cpp:43-68 | The sampling, comparing and addressing loops produce packets that turn every replica into the announced one |
| Publisher.Store.Confirm | plugin/server.cpp:176-184 | The loops over the requested ids, repeated ids included, sample all, compare all and produce a confirmation that turns the client's replica into the confirmed one |
| Subscriptions.RequestsAreConserved | cockpit/aircraft_model.cpp:460-651 | Accepted, mismatched and outstanding requests always add up to those requested, for any confirmations |
| Subscriptions.OutstandingIsUnnamed | cockpit/aircraft_model.cpp:463-644 | What is outstanding is what no confirmation has named, in any order and with any repetition |
| Subscriptions.DoneIffAllNamed | cockpit/aircraft_model.cpp:638-643 | Nothing is outstanding exactly if every requested name was confirmed |
| Subscriptions.AcceptedIsMatching | cockpit/aircraft_model.cpp:462-469 | The number accepted is the number of requested names confirmed with their type, whatever the order |
| Subscriptions.FirstEntriesStay | cockpit/aircraft_model.cpp:480-481 | An id keeps the name it was first recorded with and a name its first id, whatever is confirmed later |
| Subscriptions.HandlersRecordIff | cockpit/aircraft_model.cpp:471-621 | Which handlers record an id: those of floats and int arrays always, of ints, doubles and strings for input data, of float arrays for switches |
| Subscriptions.CommandHasIdIff | cockpit/aircraft_model.cpp:656-673 | A command has an id exactly if it had one or some confirmation was the first for a requested command of its short name |
| Subscriptions.CommandIdIs | cockpit/aircraft_model.cpp:664 | The id is that of the last such confirmation |
| Subscriptions.OtherIdsStay | cockpit/aircraft_model.cpp:656-673 | Confirmations leave the ids of all other commands as they are |
| Subscriptions.BatchesCarryAll | cockpit/client.h:256-284 | The packets are nonempty, hold at most forty names, are as few as possible, and concatenate to the requests |
| Clients.Client.SendSubscriptions | cockpit/client.h:253-284 | The batching loop sends those packets and counts one more than it requested |
| Clients.Client.ProcessDatarefConfirmations | cockpit/aircraft_model.cpp:460-651 | The confirmation loop strikes off names, counts the accepted and fills the id maps as the model says |
| Clients.Client.ProcessCommandConfirmations | cockpit/aircraft_model.cpp:656-673 | The same for commands |
| Clients.Client.ProcessConformationPacket | cockpit/client.h:155-227 | The whole new client state, timeouts and foreign client ids included |
| Clients.Client.ProcessPacket | cockpit/client.h:231-316 | The whole new client state after any packet, with the request packets for both tables sent exactly if the aircraft has just become available |
| Clients.Client.ProcessSwitches | cockpit/client.h:318-382 | Only an active client handles its switches: each lookup of an id sends what the map holds, and inserts id 0 for a missing name unless it asks first |
| Clients.Client.Update | cockpit/client.h:388-525 | One cycle: handshake, packet, switches, connection timeout and tail-number request change the client, and send values, as the model's cycle says |
| Clients.ActiveExactlyWhenComplete | cockpit/client.h:155-316 | Over any run of cycles from the start, with packets lost, repeated or reordered and any reconnects, a connected client is active exactly when nothing requested is outstanding and two datarefs are accepted |
| Clients.ActivatedIff | cockpit/client.h:177-215 | A packet activates a client exactly if it is a confirmation for its id that names all that is outstanding of its kind, nothing of the other kind is outstanding, and two datarefs are accepted |
| Clients.RequestsTablesIff | cockpit/client.h:157-192 | Before its tables are requested, a packet makes a client request them exactly if it is a dataref confirmation for its id, the right aircraft is known, the check has not timed out with it and it does not complete the client; otherwise, unless completed, the client goes on checking or checks anew |
| Clients.OtherAircraftAreLeftAlone | cockpit/client.h:187-193 | Over any run from the start without word of the right aircraft, the client never asks for more than the tail number |
| Clients.ActiveHasCommandIds | cockpit/client.h:286-314 | From the request of its tables on, as long as it is not dropped, an active client has an id for every command of its table |
| Clients.ActiveIffAllConfirmed | cockpit/client.h:155-284 | Until the subscription has counted five seconds' worth of packets, the client is active after any packets exactly if together they named all it had outstanding, datarefs and commands, and two datarefs are accepted |
| Clients.TimedOutPacket | cockpit/client.h:168-176 | Once that count is used up, every confirmation that does not complete the client at once makes it request both tables again |
| Clients.StarvedForever | cockpit/client.h:168-176 | A client that has requested both tables again never becomes active, whatever arrives, until its connection times out |
| Clients.ClientsStarve | cockpit/client.h:168-176 | A run from the start, for any nonempty tables: a hundred connections that each confirm some commands before they time out, and one more, leave a client in that state |
| Clients.SubscribedTimeoutNeverResets | cockpit/client.h:168-176 | No run of cycles lowers the count, reconnecting included |
| Clients.ReconnectActivatesIff | cockpit/client.h:212-215 | A client dropped while complete would be active in the cycle of its next handshake exactly if a confirmation for the new id arrived in that cycle, and would have no id of any dataref or command |
| Clients.LeftoversActivateIff | cockpit/client.h:504-517 | A client dropped with datarefs outstanding asks for those and the tail number alone, is active exactly when they are confirmed and two are accepted, and has the ids of those only and of no command |
| Clients.ActiveWithoutIds | cockpit/client.h:504-517 | A run from the start that ends with such a client, active without an id for one of its datarefs or for its command |
| Routing.ConfirmationsKeepSound | cockpit/aircraft_model.cpp:460-651 | Confirmations that agree on what ids name keep the two id maps true to the names and inverse to each other, except for names already missed, which they do not mend |
| Routing.SoundWithoutMisses | cockpit/aircraft_model.cpp:460-651 | Without misses, sound maps are inverse to each other |
| Routing.LookupsKeepSound | cockpit/aircraft_model.cpp:205-256 | Any lookups keep the maps sound up to the names they miss |
| Routing.CyclesKeepSound | cockpit/client.h:388-525 | Over any run of the client's cycles, with switches, timeouts and requests made anew, the maps are sound up to the names its switches have looked up without an id since the last drop |
| Routing.NameHasIdIff | cockpit/aircraft_model.cpp:463-644 | A name can be sent exactly if it had an id or its first confirmation had the requested type and a handler that records ids |
| Confirmations.ConfirmedIdsAreHeld | plugin/server.cpp:168-201 | Every dataref or command id confirmed to a client is held by it and registered when the answer is sent |
| Confirmations.IssuedStays | common/xp_data_ref_repository.hpp:98-109 | A held id keeps its name over every step that keeps the client connected |
| Confirmations.RunIssues | plugin/server.cpp:157-211 | Whatever the run has confirmed to a client that stayed connected, it still holds under the confirmed name |
| Confirmations.ConfirmedIsRegistered | plugin/server.cpp:157-211 | So it is registered under that name when the server next polls the client |
| Confirmations.UnaskedIsUnconfirmed | plugin/server.cpp:160-211 | A client that has subscribed nothing, such as one that has just been given its id, is confirmed nothing |
| Routing.SetValueReachesItsDataref | plugin/server.cpp:248-273 | End to end: when the server polls a client connected since, and the cockpit has heard what the server's run confirmed to it, in any order and with loss and repetition, the id that a lookup sends for a name reaches that name's dataref in the plugin exactly if the name has an id and was never missed, or id 0 is that dataref's own |
| Routing.CommandReachesItsCommand | cockpit/aircraft_model.cpp:656-673 | End to end for commands: every command id the cockpit has is registered in the plugin for that command when the server polls the client |
| Routing.LookupIsRightIff | cockpit/aircraft_model.cpp:211-256 | On the client's maps after any misses, a lookup sends the right id exactly if the name has an id and was never missed, or id 0 happens to be its own |
| Routing.LookupSendsIff | cockpit/aircraft_model.cpp:205-234 | A lookup sends an id exactly if the name has one or the switch does not ask first, and only a miss changes the maps |
| Routing.EncoderGoesAstray | cockpit/aircraft_model.cpp:196-222 | A run from the start of an active client: both turns of an encoder whose dataref was confirmed with another type are sent to id 0, the tail number's |
| Routing.MissingNameIsPoisoned | cockpit/aircraft_model.cpp:211-221 | Indexing a missing name breaks the inverse and no later confirmation mends the entry |
| Switches.AircraftModel.StepRotary | cockpit/aircraft_model.cpp:142-160 | The stepping loop terminates after as many commands as hardware and shadow are apart |
| Switches.AircraftModel.BuildXplaneCommands | cockpit/aircraft_model.cpp:83-183 | Commands and shadow maps change as the model says, in every branch |
| Switches.AircraftModel.ProcessHwSwitchCommands | cockpit/aircraft_model.cpp:268-310 | The same for all switch types, with the test that skips values the simulator already shows |
| Switches.AircraftModel.UpdateSwitchValues | cockpit/aircraft_model.cpp:688-705 | Every queued change is handled once, oldest first, and the queue is left empty |
| SwitchRuns.QueueIsRun | cockpit/aircraft_model.cpp:688-705 | Handling the queue is a run of its changes, oldest first, so what holds of runs holds of it |
| SwitchRuns.SpringCommandsAlternate | cockpit/aircraft_model.cpp:114-134 | Over every run of switch changes and registrations, begins and ends of a switch alternate and each end carries the id of the begin it closes |
| SwitchRuns.SpringRespondsIff | cockpit/aircraft_model.cpp:298-303 | A registered spring-loaded switch begins exactly when idle, off its rest position and different from the simulator, and ends exactly when open and back at rest |
| SpringRuns.EndReachesItsBegin | cockpit/aircraft_model.cpp:114-124 | While the client stays connected, the id of an end is that of its begin and names the same command in the plugin as it did then |
| SpringRuns.EndKeepsOldId | cockpit/aircraft_model.cpp:675-680 | A run over a reconnect: the end goes out with the id of the connection before, although its command has another id now |
| SpringRuns.IdsNameOtherCommands | common/xp_command_repository.cpp:6-34 | That id may name another command: ids start again once the only client is gone |
| SwitchRuns.ToggleFollowsHardware | cockpit/aircraft_model.cpp:97-111 | A two-command toggle sends the increasing command exactly if the hardware is above the simulator, the decreasing one exactly if below, and nothing else |
| SwitchRuns.OddToggles | cockpit/aircraft_model.cpp:93-111 | With more than two commands a toggle sends the first one whenever it differs, with fewer nothing |
| SwitchRuns.PushbuttonSendsIff | cockpit/aircraft_model.cpp:277-287 | A pushbutton sends its command once exactly if it has one command and the id of it is known |
| SwitchRuns.SelectorFollows | cockpit/aircraft_model.cpp:288-297 | One change of a multi-position switch moves the simulator's selector exactly to the hardware position, if that position has a registered command |
| SwitchRuns.SelectorFollowsHardware | cockpit/aircraft_model.cpp:288-297 | Over any run, with ids registered anew in between, the simulator's selector is at the last hardware position that had a command, or where it was |
| SwitchRuns.RotaryIsExactIff | cockpit/aircraft_model.cpp:93-168 | A handled change sends as many commands as hardware and shadow differ, sets the shadow, and moves the simulator's switch by that difference exactly if the hardware is on one side of both |
| SwitchRuns.RotaryTelescopes | cockpit/aircraft_model.cpp:137-168 | Over any run that stays on one side, with ids registered anew in between, the commands move the simulator's switch exactly from its position at the first handled turn to the hardware position of the last |
| SwitchRuns.RotaryOvershoots | cockpit/aircraft_model.cpp:97-168 | Two turns, to 3 and back to 2 before the simulator has left 0, whose commands move it to 4 |
| SwitchRuns.TestPositionReturns | cockpit/aircraft_model.cpp:161-164 | The test position of `irs_dspl_sel` sends its steps and leaves the shadow at 1 |
| SwitchRuns.FirstTurnIsExact | cockpit/aircraft_model.cpp:138-141 | The first change of a rotary takes the simulator's switch exactly to the hardware position |
| MastercardDecoder.Decoder.ReceiveMastercard | cockpit/hardware/ioCards/iocards.cpp:858-1048 | One packet changes slot states, inputs of card 0 and axes as the model's packet step says and leaves other cards alone |
| MastercardDecoder.Decoder.ReadIndices | cockpit/hardware/ioCards/iocards.cpp:913-939 | A first packet's slot table is exactly the announced slots |
| MastercardDecoder.Decoder.TakeEight | cockpit/hardware/ioCards/iocards.cpp:969-1009 | A data byte goes to the first slot in scan order still to be read |
| MastercardDecoder.Decoder.TakeNinth | cockpit/hardware/ioCards/iocards.cpp:1011-1044 | A ninth-bit byte serves the first eight slots waiting, each from the bit numbered by its rank |
| MastercardWire.ScanOrder | cockpit/hardware/ioCards/iocards.cpp:967-1047 | While slots are read those in state 2 precede those in state 1; afterwards those in state 3 precede those in state 2 |
| MastercardWire.DecodesPrefix | cockpit/hardware/ioCards/iocards.cpp:967-1047 | After any number of packets the decoder holds exactly the report's data bytes received so far, so n slots are finished after n plus a further n/8, rounded up, bytes |
| MastercardWire.DecodeInvertsWire | cockpit/hardware/ioCards/iocards.cpp:831-1048 | For any present slots on four cards, any nine bits each and any split into packets, with axis readings and padding, the decoder stores exactly the sent bits of card 0, keeps absent slots, and finishes every present slot |
| MastercardWire.AxesAreLastReadings | cockpit/hardware/ioCards/iocards.cpp:888-894 | Each axis ends with the value it was last reported with |
| MastercardWire.EncodeThenDecode | cockpit/hardware/ioCards/iocards.cpp:831-1048 | Every report has such a split, and decoding its six packets restores it |
| UsbWriter.OneInFlightInOrder | cockpit/hardware/ioCards/iocards.cpp:715-763 | In every interleaving, failures included, at most one transfer is in flight and what was submitted is a prefix of what was pushed |
| UsbWriter.NothingLost | cockpit/hardware/ioCards/iocards.cpp:1132-1175 | Until something fails, every pushed packet is submitted, in one thread's hand or queued, in that order and once |
| UsbWriter.FailedSubmitsNothing | cockpit/hardware/ioCards/iocards.cpp:735-752 | Once the event thread has failed, nothing more is submitted |
| UsbWriter.ReturnLeavesQueueAttended | cockpit/hardware/ioCards/iocards.cpp:1140-1175 | When a send returns with packets queued, a transfer or its callback will take them |
| UsbWriter.Drained | common/queue.hpp:23-43 | From there completions alone submit every packet and lower the flag |
| UsbWriter.CallbackUsesWork | cockpit/hardware/ioCards/iocards.cpp:731-760 | Every step of a callback uses up work, so no schedule of callbacks runs for ever |
| UsbWriter.CompletionUsesWork | cockpit/hardware/ioCards/iocards.cpp:715-720 | So does every completion, and none arrives while a callback runs |
| UsbWriter.FailedTransferHangs | cockpit/hardware/ioCards/iocards.cpp:720-727 | After a failed transfer a waiting send waits in every later state |
| UsbWriter.WaitEndsIff | cockpit/hardware/ioCards/iocards.cpp:1140-1146 | A waiting send can still return exactly if no transfer has failed |
| UsbWriter.SendHangs | cockpit/hardware/ioCards/iocards.cpp:720-727 | A run of one failed transfer and two sends that ends in such a wait |
| Encoder.MastercardEncoder.Poll | cockpit/hardware/ioCards/iocards.cpp:1604-1650 | The two condition lists are one step forward or back in the gray sequence; saved pins, value and result follow from it |
| Encoder.ReportsTrackSavedPlace | cockpit/hardware/ioCards/iocards.cpp:1598-1651 | Over any samples, illegal jumps included, the reported directions sum to the change of the saved place modulo four |
| Encoder.OneStepIsExact | cockpit/hardware/ioCards/iocards.cpp:1611-1630 | One sample reports the true move exactly if that is at most one step |
| Encoder.SlowEncoderIsExact | cockpit/hardware/ioCards/iocards.cpp:1598-1651 | If no two samples are more than a step apart, the reports sum to the true displacement |
| Encoder.DeadIffLowPinAlone | cockpit/hardware/ioCards/iocards.cpp:1604-1606 | From an unread pair a sample is taken as it is and not reported; the code -2 arises exactly if only the low pin is known and is 0 |
| Encoder.DeadForever | cockpit/hardware/ioCards/iocards.cpp:1606-1650 | With that code saved no known sample is ever reported or saved |
| Encoder.AccelerationBounds | cockpit/hardware/ioCards/iocards.cpp:1775-1800 | The factor lies between 1 and 1 + 800 * accelerator, for any clock difference |
| Encoder.AccelerationIsExact | cockpit/hardware/ioCards/iocards.cpp:1784-1792 | The factor is one more than the whole part of 0.8 * accelerator over the time since the last turn, counted as at least 0.001 seconds |
| FiFrame.SendCommand | cockpit/hardware/flight_illusion/fidevice.cpp:75-112 | The buffer is the frame of the command, and the result says whether the device took eight bytes |
| FiFrame.DecodeInvertsFrame | cockpit/hardware/flight_illusion/fidevice.cpp:77-107 | Decoding a frame gives the command back, cut to the widths of its fields |
| FiFrame.FrameIsMessageIff | cockpit/hardware/flight_illusion/fidevice.cpp:77-107 | A frame is what a gauge accepts, with its flag, address, forced bits and end byte 255, exactly if the address is not zero; two more 255 bytes follow |
| FiFrame.FrameIsExactIffFieldsFit | cockpit/hardware/flight_illusion/fidevice.cpp:77-107 | A frame carries the whole command exactly if the id fits 8 bits, the command number 4 and the magnitude 16 |
| FiFrame.FramesAreDistinct | cockpit/hardware/flight_illusion/fidevice.cpp:77-107 | Different commands that fit have different frames |
| FiFrame.ZeroOnlyAtStart | cockpit/hardware/flight_illusion/fidevice.cpp:77-107 | For every addressable gauge, byte 0 is zero and no other byte is |
| FiFrame.Resynchronises | cockpit/hardware/flight_illusion/fidevice.cpp:77-107 | A receiver that takes only such messages, joining a stream anywhere, reads exactly the frames that start from there on |
| GaugeFilter.FiDevice.SendValue | cockpit/hardware/flight_illusion/fidevice.cpp:13-47 | Filter state, sent frame and result are those of the model's step |
| GaugeFilter.StaysInHull | cockpit/hardware/flight_illusion/fidevice.cpp:21-30 | The filtered value never leaves the range of its start and the inputs |
| GaugeFilter.SentIsWithinLimitsIff | cockpit/hardware/flight_illusion/fidevice.cpp:32-42 | Every sent value is within the device's limits, for all inputs, exactly if the limits are in order |
| GaugeFilter.SentIsNearest | cockpit/hardware/flight_illusion/fidevice.cpp:31-42 | No permitted value is nearer to the scaled one than what is sent |
| Common.TruncatedTowardZero | cockpit/hardware/flight_illusion/fidevice.cpp:31 | The scaled value is cut toward zero, by less than one |
| GaugeFilter.SilentIsNear | cockpit/hardware/flight_illusion/fidevice.cpp:15-19 | A call is silent exactly if the count is used up and the filtered value is within one of the input, and then changes nothing |
| GaugeFilter.ConstantInputSends | cockpit/hardware/flight_illusion/fidevice.cpp:13-47 | The exact number of sends for a constant input after any number of calls |
| GaugeFilter.ConstantInputBound | cockpit/hardware/flight_illusion/fidevice.cpp:13-47 | It never exceeds n + max_send_cnt, n being the least number of sends that bring the error within one |
| GaugeFilter.AlwaysReaches | cockpit/hardware/flight_illusion/fidevice.cpp:21-30 | Such an n exists for every filter coefficient and every error, so a constant input always falls silent |
| Leds.BoundDevice.PLedSet | cockpit/hardware/InterfaceIT/HidInterfaceIT.cpp:267-331 | State, buffer, status and packet change as the model says, in every branch |
| Leds.BoundDevice.PLedEnable | cockpit/hardware/InterfaceIT/HidInterfaceIT.cpp:210-265 | The states of the board's LEDs are cleared and the buffer is not |
| Leds.SetKeepsCoherentIff | cockpit/hardware/InterfaceIT/HidInterfaceIT.cpp:278-323 | A request keeps states and buffer in agreement exactly if its write succeeds or nothing is written |
| Leds.RequestIsAnswered | cockpit/hardware/InterfaceIT/HidInterfaceIT.cpp:267-331 | A disabled board writes nothing; otherwise something is written exactly if the LED exists on an open board and is not as requested; the status says which |
| Leds.EnableIsAnswered | cockpit/hardware/InterfaceIT/HidInterfaceIT.cpp:210-265 | When enabling or disabling succeeds, what is answered otherwise, and that nothing changes then |
| Leds.RetryRepairs | cockpit/hardware/InterfaceIT/HidInterfaceIT.cpp:316-321 | Repeating a failed request gives the state of a request that succeeded at once |
| Leds.DeviceShowsRequests | cockpit/hardware/InterfaceIT/HidInterfaceIT.cpp:267-331 | Although unchanged LEDs send nothing, after any run the device shows led_state, which holds the last request for each LED |
| Leds.EnableKeepsCoherentIff | cockpit/hardware/InterfaceIT/HidInterfaceIT.cpp:248-256 | Enabling or disabling keeps them in agreement exactly if every LED of the board was off |
| Leds.StaleLedReturns | cockpit/hardware/InterfaceIT/HidInterfaceIT.cpp:253-256 | An LED left on when the board was disabled is lit again with any other LED of its column |
| SwitchReports.TimerData.ProcessReport | cockpit/hardware/InterfaceIT/HidInterfaceIT.cpp:514-619 | A report pushes the model's events and becomes the word compared with next |
| SwitchReports.EventsOfSwitch | cockpit/hardware/InterfaceIT/HidInterfaceIT.cpp:541-562 | One report names a switch at most once, exactly if it is new or has changed, with its new state |
| SwitchReports.DrainIsRightIff | cockpit/hardware/InterfaceIT/HidInterfaceIT.cpp:395-406 | However many reports arrive first, draining gives the right state of a switch exactly if the stack held no event of it or an odd number |
| SwitchReports.TwoUndrainedReportsMislead | cockpit/hardware/InterfaceIT/HidInterfaceIT.cpp:395-406 | Three reports from the start, the last two undrained, after which a switch that is off is shown as on |
| SwitchReports.TimerData.GetItem | cockpit/hardware/InterfaceIT/HidInterfaceIT.cpp:395-411 | The newest event is popped; one beyond the board's number of switches is lost and reported as no item |
| SwitchReports.TimerData.Drain | cockpit/hardware/InterfaceIT/interfaceit.cpp:1349-1370 | The consumer's loop stops at the first missing item and leaves the older events on the stack |
| SwitchReports.DrainOfReportIsRightIff | cockpit/hardware/InterfaceIT/HidInterfaceIT.cpp:395-411 | After one report and one drain the picture of a switch is right exactly if the report named no switch beyond the board or left this one alone |
| SwitchReports.DrainingFollowsPanel | cockpit/hardware/InterfaceIT/HidInterfaceIT.cpp:514-619 | Over every run in which no report names a switch beyond the board, a consumer that drains after every report always holds the reported panel and an empty stack, across both banks |
| SwitchReports.SizesFit | cockpit/hardware/InterfaceIT/HidInterfaceIT.hpp:197 | Boards of 64 switches, and boards of 32 that report only those, never name a switch beyond them |
| SwitchReports.AnyOrderReplays | cockpit/hardware/InterfaceIT/HidInterfaceIT.cpp:514-619 | The events of one report give the same panel in any order |
| SpikeFilter.Filter.ProcessSpikes | cockpit/hardware/throttle/throttle_joystick.cpp:676-702 | Every axis takes the model's step, indices stay within the buffer, and each output equals the accepted sample |
| SpikeFilter.OutputsStayInRange | cockpit/hardware/throttle/throttle_joystick.cpp:676-702 | No output leaves the range of the start value and the samples seen |
| SpikeFilter.SmoothIsFollowed | cockpit/hardware/throttle/throttle_joystick.cpp:698-701 | Samples that never move by more than the threshold are handed on exactly |
| SpikeFilter.AxisLimits | cockpit/hardware/throttle/throttle_joystick.hpp:377-378 | The first two axes hold back four spikes and the others two; the sixth, whose threshold is missing, holds back every change |
| SpikeFilter.QuotientTruncates | cockpit/hardware/throttle/throttle_joystick.cpp:694 | The average is cut toward zero |
| SpikeFilter.BurstIsHeldBack | cockpit/hardware/throttle/throttle_joystick.cpp:677-683 | A burst of at most MAX_SPIKES outliers never shows |
| SpikeFilter.OneMoreIsAveraged | cockpit/hardware/throttle/throttle_joystick.cpp:684-696 | One outlier more is answered with the average of those held back |
| SpikeFilter.HeldStepIsFollowed | cockpit/hardware/throttle/throttle_joystick.cpp:676-702 | A held step is followed exactly, on sample MAX_SPIKES + 1 and not before |

## Left out

- Servers.MulticastController.CreateConnection: connections are values in the controllers' maps, where the source has uniquely owned objects; no two entries share one, so nothing aliases.
- Servers.Server.ClientRequest: set-value, command, heartbeat and unknown packets leave the session state alone; the calls into X-Plane they make are not modelled.
- Servers.MulticastController.RespondToOpenConnection: the reply packet, the transmit queues and the heartbeat are not modelled; nothing reads them back into the session state.
- Registry.Repository.Subscribe: the id counter is unbounded, where the source's int would overflow after 2^31 subscriptions without an empty registry; one class stands for both repositories, which share this logic.
- Registry.Repository.Unsubscribe: datarefs and commands are entries with a count; the X-Plane handle and the values of a dataref are not in the registry (values are in `DataRefs`).
- Updates.DeltaRefinesFull: covers int, int-array and char-array datarefs; floats and doubles are compared with a tolerance (`common/almost_equal.hpp`) that is not transitive, so their replicas need not be exact. Rounding applies to floats only.
- Updates.DeltaRefinesFull: delivery to the clients is lossless and in order; the values are those of the registry as it changes, but the class that holds them, `Publisher.Store`, is not joined with `Servers.Server` into one.
- DataRefs.VectorDataRef.UpdateNewValueFromXplane: a read of fewer elements than the vector holds is modelled as a partial overwrite; the source asserts that it does not happen.
- Subscriptions.RequestsAreConserved: the number of type mismatches is counted for the statement only; the source logs them.
- Clients.Client.SendSubscriptions: command requests leave in the same batches (`cockpit/client.h:289-314`); their expected count, which is overwritten per batch, is never read.
- Clients.ActiveExactlyWhenComplete: says nothing about ids; a client that reconnects can be complete without having them again, as `Clients.ActiveWithoutIds` shows.
- Clients.Client.Update: whether the tail number is the right one is an input of each packet, and which ids the pending switch changes look up is an input of each cycle; their values and the commands they send are modelled in `Switches` or not at all.
- Routing.SetValueReachesItsDataref: short names are distinct for distinct datarefs; the tables that define them are data.
- Switches.AircraftModel.BuildXplaneCommands: a missing command table is an empty list of names; a spring-loaded switch needs one name, as the source reads it unconditionally.
- Switches.AircraftModel.ProcessHwSwitchCommands: switches that set dataref values rather than send commands (`process_hw_switch_values`) are covered by their id lookups, in `Clients`, and not by the values they compute.
- SwitchRuns.RotaryTelescopes: excludes `irs_dspl_sel`, whose test position returns by itself; one such turn is `SwitchRuns.TestPositionReturns`.
- MastercardDecoder.Decoder.ReceiveMastercard: takes packets of at least eight bytes and axis numbers up to 4; the source indexes its arrays with anything.
- UsbWriter.NothingLost: packets are copied values; the source hands libusb a pointer into a local vector. Cancelling transfers at shutdown is not modelled.
- Encoder.MastercardEncoder.Poll: encoder types 0 and 3 assert false and type 1 is not modelled; the value is a real and the time since the last turn an input.
- GaugeFilter.FiDevice.SendValue: doubles are reals, and the cast to int does not overflow.
- FiFrame.FrameIsMessageIff: what a gauge accepts and how it reads the displaced bits follows the protocol note at the top of the repository; there is no gauge code.
- Leds.BoundDevice.PLedEnable: the bytes of the enabling report are not modelled, only whether it is written.
- Leds.BoundDevice.PLedSet: an index past the last bound device only returns an error code.
- SwitchReports.TimerData.ProcessReport: reading reports from the HID handle is an input, and so is the moment at which the consumer drains.
- SpikeFilter.Filter.ProcessSpikes: the clamping, Butterworth filtering, reverser timing and autothrottle control that follow are external, real-time or easy.
- The choice of output segments in `send_mastercard`: the whole-array copy at the first changed segment does not support a property of the device's outputs.
- Packet serialisation, sockets, logging, the GUI, configuration and the switch, LED and name tables.
- The client side of the multicast handshake, which does not compare package ids.
