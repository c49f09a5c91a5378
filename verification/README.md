# Verified models of a phone's location and sensor drivers

This project models, in Dafny, the stateful core of a device's GPS and sensor libraries and
proves what it keeps over every input and every run. It has four parts, each in the form
its C and C++ code has: objects whose fields change are classes, loops are loops, and each
of them is proved to follow a specification on values about which the main results are then
proved.

**The AGPS resource.** Applications and the modem share one data connection. `LinkedLists`
is the doubly linked list with its `next` and `prev` pointers on the heap, proved to be a
sequence. `Agps` is the state machine (released, pending, acquired, releasing) over that
sequence, with a log of every answer to a subscriber, every callback to the connectivity
service, and every event the service sent. `AgpsMachines` is the machine as an object over
the heap list, including the loops that search, notify and delete, proved to follow `Agps`.
`AgpsInvariants` and `AgpsTraffic` hold the main results: what each state says about the
list, who is told what and when, that entries added are entries listed plus entries told
their end exactly once, and that the connectivity service sees alternating requests.
`AgpsRejoins` is about clients that come back while their old entry waits for the close.
`AgpsOutcomes` says in full what each request and each event of the service comes to after
any run: the state, who is listed, and what each identity is told.

**The sensors.** `Rings` is the double-length input buffer, proved to be a bounded queue.
`Akm` is the compass driver's resumable decoder on values and `AkmSensors` the same driver
as an object with its ring and the caller's output array. `AkmProofs` shows that whatever
the sizes of reads and calls, the output is that of a simple interpreter of the event
stream, that the accelerometer's reference count is the number of its users, and that
significant motion fires once per enable. `AkmRecords` says what the records at a SYN are:
one for each enabled sensor that moved, in index order, with the last value sent for each
axis. `Lights` does the same for the light sensor in a few lines. `Polls` is the loop that merges the drivers' records, with the calls of poll()
it makes, and `PollContexts` the same loop on driver objects and the caller's array.
`InputEvents` and `Outputs` have what the drivers share, `Seqs` what several proofs do.

**The location engine.** `NiProtocol` and `NiProofs` treat network-initiated requests: a
deferred thread, workers and responders that share a slot with partial locking, as an
interleaving of steps; every accepted request is answered and freed exactly once in every
run. `NiTraces` follows each delivered answer back to the moment when it was given.
`Engine` and `EngineLoops` treat the message loop's postponed deletion of aiding data and
the muting of a session; `EngineOutcomes` says which callbacks each message makes.

**Codecs.** `Frames` (messages over a pipe), `Addresses` (semi-octet addresses, 3GPP TS
23.040 sections 9.1.2.3 and 9.1.2.5) and `Nmea` (which satellites go into which sentence,
NMEA 0183 section 5).

## What does not hold

Some properties one would expect are false of the code. Each is kept as it is in the
model, and a lemma says exactly when it holds.

- An answer that the user gave to one network-initiated request's notification can be sent
  as the answer to the next request. The responder's test can be overtaken
  (`StaleAnswer`), the slot can change hands between its two reads (`TornTest`), the
  first notification's id can still pass after the second request has filled the slot
  (`MisdirectedAnswer`), and an answer stored when nobody waits for it stays for the next
  request (`LeftoverAnswer`). The answer is for its own request exactly if that request was in
  the slot when the answer was stored (`OwnAnswerIffTimely`). While ids are unique, a
  responder that finds the slot filled is right exactly if the id it answers is the current
  one at that moment and the deferred thread is not in the middle of accepting another
  request (`SecondReadRightIff`).
- A request that is handled before `loc_eng_ni_init` has set the callback is neither
  answered nor refused, and its pointer is never freed; every other pointer is freed
  exactly once (`ExactlyOnce`).
- Two notifications can carry the same id (`SharedId`), because a worker empties the slot
  before it increments the id outside the lock. Ids are unique, and then 0, 1, 2 and so on,
  exactly if each was read after all earlier workers had stored theirs
  (`IdsUniqueIffQuiet`, `IdsSequentialIffQuiet`). Two workers can even raise the id by one
  only between them (`LostIncrement`): each stores one more than what it read
  (`StoreFollowsLoad`).
- A client that waits for the close, unsubscribes and subscribes again before the close
  would miss GRANTED on a machine open to several clients (`LostSubscription`). The engine
  makes no machine that such clients share with others; on those it makes, no SUBSCRIBE is
  ever lost (`NeverSwallowed`).
- If the accelerometer is on when the compass driver starts, nobody counts it: the
  reference count is right at the start, and then in every run, exactly if it is off
  (`StartCountsIff`, `AccelerometerCounted`); otherwise it can be switched off under a
  sensor in use (`CutOff`).
- A second mute request in a muted session opens it again (`MutedUnlessRequestedAgain`,
  `SatellitesExposedIff`), and NMEA sentences from the modem are never muted
  (`NmeaAlwaysPasses`).
- `pollEvents` can take records from drivers and not tell the caller of them
  (`LostRecord`): exactly if poll() fails when called without waiting, which is when there
  already is something to return (`HidesIff`).
- A message that is too big for the receiver's buffer leaves the pipe in the middle of it,
  unless it is only a header (`FirstReceived`); a size below that of its own field lets the
  second read past the buffer (`BodyFitsIff`).
- `dropAllSubscribers` empties the list and leaves the state as it is, so afterwards the
  state tells the list's contents only if it was the released one (`DropBreaksShape`).

## Model

| member | source | states |
|---|---|---|
| `LinkedLists.LinkedList.ChainsMirror` | gps/utils/linked_list.c:36-46 | In every valid list the data met along `next` from the head and along `prev` from the tail are mirror images, for any number of steps |
| `LinkedLists.LinkedList.Add` | gps/utils/linked_list.c:110-157 | The datum goes in front; without memory for an element the list is unchanged and the general failure is returned |
| `LinkedLists.LinkedList.Prepend` | gps/utils/linked_list.c:139-152 | The pointers after linking in a new head: old head's `prev`, tail only if the list was empty, all others as they were |
| `LinkedLists.LinkedList.Remove` | gps/utils/linked_list.c:162-204 | Takes the oldest datum, at the tail; an empty list reports unavailable and stays empty |
| `LinkedLists.LinkedList.Empty` | gps/utils/linked_list.c:211-223 | True exactly when nothing is listed |
| `LinkedLists.LinkedList.Flush` | gps/utils/linked_list.c:230-260 | Empties the list and releases, in order, each datum that came with a deallocation function, once |
| `LinkedLists.OwnedAt` | gps/utils/linked_list.c:230-260 | What a flush releases: as many data as came with a deallocation function, each at its turn |
| `LinkedLists.LinkedList.Locate` | gps/utils/linked_list.c:285-324 | The callback is called on a prefix of the list that ends with the first datum it accepts, and on nothing else |
| `LinkedLists.LinkedList.Search` | gps/utils/linked_list.c:267-327 | Returns exactly the first match; with removal it alone leaves the list, and is released exactly if the caller does not take it and it has a deallocation function |
| `LinkedLists.LinkedList.Bypass` | gps/utils/linked_list.c:298-310 | Which pointers change when an element at the head, in the middle, at the tail or alone is taken out |
| `LinkedLists.LinkedList.Unlink` | gps/utils/linked_list.c:297-318 | The list afterwards is the sequence without that position, and is well linked again |
| `Agps.BitEqualsIsSameKey` | gps/libloc_api_50001/loc_eng_agps.cpp:104-111 | Comparing BIT subscribers by number, or by address when there is no number, is equality of a key, so an equivalence |
| `Agps.BitEqualsMeans` | gps/libloc_api_50001/loc_eng_agps.cpp:104-111 | Two BIT requests are the same exactly if their numbers agree and, without a number, their addresses agree up to the first NUL |
| `AgpsMachines.AgpsStateMachine.Notify` | gps/libloc_api_50001/loc_eng_agps.cpp:644-664 | Without deletion every matching entry is told once, in list order, and the list is unchanged |
| `AgpsMachines.AgpsStateMachine.NotifyAndDelete` | gps/libloc_api_50001/loc_eng_agps.cpp:644-664 | The search-and-delete loop ends, tells each match exactly once in list order, deletes it, and leaves the others untold and in order |
| `AgpsMachines.AgpsStateMachine.DeletedOne` | gps/libloc_api_50001/loc_eng_agps.cpp:644-664 | What is left of a search and of the messages after the first match is deleted adds up to the whole |
| `AgpsMachines.AgpsStateMachine.SearchFor` | gps/libloc_api_50001/loc_eng_agps.cpp:54-60 | A search for a subscriber finds the first entry of its key and changes nothing |
| `AgpsMachines.AgpsStateMachine.HasActiveSubscribers` | gps/libloc_api_50001/loc_eng_agps.cpp:732-740 | True exactly if some listed entry is active |
| `AgpsMachines.AgpsStateMachine.Add` | gps/libloc_api_50001/loc_eng_agps.cpp:666-676 | A subscriber is cloned onto the front of the list only if no equal one is listed |
| `AgpsMachines.AgpsStateMachine.SendRequest` | gps/libloc_api_50001/loc_eng_agps.cpp:678-706 | A REQUEST goes out only if somebody is active, a RELEASE only if nobody is |
| `AgpsMachines.AgpsStateMachine.RetireEntry` | gps/libloc_api_50001/loc_eng_agps.cpp:315-322 | An entry that waits for the close becomes inactive in place; any other is told and deleted, by key |
| `AgpsMachines.AgpsStateMachine.OnReleasedJoins` | gps/libloc_api_50001/loc_eng_agps.cpp:246-257 | SUBSCRIBE in the released state |
| `AgpsMachines.AgpsStateMachine.OnReleasedLeaves` | gps/libloc_api_50001/loc_eng_agps.cpp:259-275 | UNSUBSCRIBE in the released state: told once, state kept |
| `AgpsMachines.AgpsStateMachine.OnActiveLeaves` | gps/libloc_api_50001/loc_eng_agps.cpp:313-339 | UNSUBSCRIBE in the pending and acquired states, with the RELEASE when the last active entry goes |
| `AgpsMachines.AgpsStateMachine.SettleState` | gps/libloc_api_50001/loc_eng_agps.cpp:324-337 | Released if nobody is left, releasing if only inactive entries are, unchanged otherwise |
| `AgpsMachines.AgpsStateMachine.OnReleasingLeaves` | gps/libloc_api_50001/loc_eng_agps.cpp:500-517 | UNSUBSCRIBE in the releasing state |
| `AgpsMachines.AgpsStateMachine.OnAcquiredJoins` | gps/libloc_api_50001/loc_eng_agps.cpp:398-409 | SUBSCRIBE while the resource is held: listed once and answered GRANTED at once |
| `AgpsMachines.AgpsStateMachine.OnPendingHears` | gps/libloc_api_50001/loc_eng_agps.cpp:341-370 | GRANTED and DENIED in the pending state |
| `AgpsMachines.AgpsStateMachine.OnAcquiredHears` | gps/libloc_api_50001/loc_eng_agps.cpp:439-463 | RELEASED in the acquired state |
| `AgpsMachines.AgpsStateMachine.OnReleasingHears` | gps/libloc_api_50001/loc_eng_agps.cpp:519-543 | RELEASED or DENIED in the releasing state: inactive entries told and deleted, the resource asked for again if others are left |
| `AgpsMachines.AgpsStateMachine.OnRsrcEvent` | gps/libloc_api_50001/loc_eng_agps.cpp:629-642 | An event of the service on the heap machine is that event on the sequence machine |
| `AgpsMachines.AgpsStateMachine.SubscribeClient` | gps/libloc_api_50001/loc_eng_agps.cpp:708-716 | A further subscriber of a single-subscriber machine is denied and not listed; otherwise SUBSCRIBE |
| `AgpsMachines.AgpsStateMachine.UnsubscribeClient` | gps/libloc_api_50001/loc_eng_agps.cpp:718-730 | Says whether the subscriber was listed, and changes nothing if not |
| `AgpsMachines.AgpsStateMachine.DropAllSubscribers` | gps/libloc_api_50001/loc_eng_agps.h:201-203 | Empties the list and tells nobody |
| `AgpsInvariants.RunKeeps` | gps/libloc_api_50001/loc_eng_agps.cpp:235-548 | After any run without `dropAllSubscribers`: shape of the list by state, no grant yet for anyone in the pending state nor for an active entry in the releasing one, a grant for each active entry in the acquired state, and a ledger line for every identity |
| `AgpsInvariants.StepKeeps` | gps/libloc_api_50001/loc_eng_agps.cpp:708-730 | Each operation keeps all of that |
| `AgpsInvariants.StateTellsList` | gps/libloc_api_50001/loc_eng_agps.cpp:235-548 | Over every run: released exactly when the list is empty; pending and acquired have an active entry, releasing an inactive one |
| `AgpsInvariants.ReleasingLeaveKeeps` | gps/libloc_api_50001/loc_eng_agps.cpp:500-517 | UNSUBSCRIBE in the releasing state leaves an entry behind, so its move to the released state never happens |
| `AgpsInvariants.GrantedOnce` | gps/libloc_api_50001/loc_eng_agps.cpp:341-349 | GRANTED in the pending state tells each active entry once and only entries that were told nothing before |
| `AgpsInvariants.GrantKeeps` | gps/libloc_api_50001/loc_eng_agps.cpp:341-349 | The same for one step from any state with the invariant |
| `AgpsInvariants.AcquiredJoinKeeps` | gps/libloc_api_50001/loc_eng_agps.cpp:398-409 | SUBSCRIBE while acquired answers its own entry and no other, so only a repeated SUBSCRIBE is answered again |
| `AgpsInvariants.NoticeLedger` | gps/libloc_api_50001/loc_eng_agps.cpp:113-213 | Entries added are entries listed plus entries removed; each removed one has exactly one terminal answer, as its last; no listed one has any |
| `AgpsInvariants.CountGone` | gps/libloc_api_50001/loc_eng_agps.cpp:666-676 | Identities are unique, so the missing ones and the listed ones add up |
| `AgpsInvariants.ToldWhenRemoved` | gps/libloc_api_50001/loc_eng_agps.cpp:644-664 | The terminal answer falls in the very step that removes the entry |
| `AgpsInvariants.LogGrows` | gps/libloc_api_50001/loc_eng_agps.cpp:235-548 | No step takes back what was sent, nor reuses an identity |
| `AgpsInvariants.DeletingLine` | gps/libloc_api_50001/loc_eng_agps.cpp:644-664 | A deleting broadcast, seen by one identity: told and gone if it is for it, untouched otherwise |
| `AgpsInvariants.ReleasingHearsKeeps` | gps/libloc_api_50001/loc_eng_agps.cpp:519-537 | The close or denial of a connection being released keeps the invariant, whoever is left |
| `AgpsInvariants.DropBreaksShape` | gps/libloc_api_50001/loc_eng_agps.h:201-203 | After `dropAllSubscribers` state and list still agree if and only if the state was the released one |
| `AgpsRejoins.SubscribedIff` | gps/libloc_api_50001/loc_eng_agps.cpp:666-676 | After SUBSCRIBE a client has an active entry if and only if its entry was active, or it had none and was not turned away |
| `AgpsRejoins.RejoinIgnored` | gps/libloc_api_50001/loc_eng_agps.cpp:490-498 | While the resource is wanted or given back, SUBSCRIBE changes nothing if and only if the machine is open to several and the client is listed, active or not |
| `AgpsRejoins.InactiveStays` | gps/libloc_api_50001/loc_eng_agps.cpp:341-349 | No step makes an inactive entry active or tells it anything while it stays listed, but for SUBSCRIBE while the resource is held |
| `AgpsRejoins.NeverSwallowed` | gps/libloc_api_50001/loc_eng.cpp:857-865 | Over every run of a machine as the engine makes them (a single subscriber, or no client that waits): after SUBSCRIBE the client has an active entry, unless the only place is taken, and then it is told so at once |
| `AgpsRejoins.LostSubscription` | gps/libloc_api_50001/loc_eng_agps.cpp:304-311 | What the transitions would do on a machine open to several with a waiting client, which the engine never makes: a client's last word is SUBSCRIBE and GRANTED passes it by |
| `AgpsTraffic.GuardAlwaysTrue` | gps/libloc_api_50001/loc_eng_agps.cpp:678-706 | The guard in `sendRsrcRequest` holds at every call: a REQUEST goes out exactly on entering the pending state, a RELEASE exactly when UNSUBSCRIBE ends the pending or acquired state |
| `AgpsTraffic.StepMoves` | gps/libloc_api_50001/loc_eng_agps.cpp:235-548 | The state changes that can happen and the event each one needs, also after `dropAllSubscribers` |
| `AgpsTraffic.TrafficDisciplined` | gps/libloc_api_50001/loc_eng_agps.cpp:678-706 | Over every run, with `dropAllSubscribers` anywhere: two REQUESTs have a RELEASE or a RELEASED or DENIED event between them, two RELEASEs a REQUEST |
| `AgpsTraffic.InOrderIsDisciplined` | gps/libloc_api_50001/loc_eng_agps.cpp:678-706 | The step-by-step form of that discipline gives the form that speaks of pairs |
| `AgpsOutcomes.ServiceEnds` | gps/libloc_api_50001/loc_eng_agps.cpp:357-365 | After any run, DENIED while pending: released, nobody listed, and everybody who was listed is told DENIED as an addition to what they heard before; the same for RELEASED while acquired (lines 444-452) |
| `AgpsOutcomes.ServiceCloses` | gps/libloc_api_50001/loc_eng_agps.cpp:519-537 | RELEASED or DENIED while releasing: each inactive entry is told which, and is gone; the others stay as they were and hear nothing; pending if any are left, else released |
| `AgpsOutcomes.ServiceGrants` | gps/libloc_api_50001/loc_eng_agps.cpp:341-349 | GRANTED while pending: acquired, the list unchanged, and exactly the active entries are told |
| `AgpsOutcomes.ServiceIgnored` | gps/libloc_api_50001/loc_eng_agps.cpp:439-463 | Every other event of the service changes nothing in any state (also lines 351-355 and 539-543) |
| `AgpsOutcomes.UnsubscribeSettles` | gps/libloc_api_50001/loc_eng_agps.cpp:313-339 | UNSUBSCRIBE of a listed client after any run: a waiting one turns inactive and is told nothing, any other is gone and told that it is closed, nobody else is told anything; released, releasing or unchanged by who is left (also lines 411-437 and 500-517) |
| `AgpsOutcomes.UnsubscribeUnknown` | gps/libloc_api_50001/loc_eng_agps.cpp:718-730 | UNSUBSCRIBE of an unlisted client does nothing |
| `AgpsOutcomes.SubscribeSettles` | gps/libloc_api_50001/loc_eng_agps.cpp:398-409 | SUBSCRIBE of a client not turned away, after any run: an entry in front if it had none, as active and waiting as asked; told GRANTED exactly if the resource is held; pending only from released (also lines 246-257, 303-311 and 490-498) |
| `Rings.InputEventCircularReader.Fill` | libsensors/InputEventReader.cpp:50-73 | Appends exactly what was read; a failed or torn read, and a full ring, leave the queue as it was |
| `Rings.InputEventCircularReader.Store` | libsensors/InputEventReader.cpp:54-58 | Reading into the buffer overwrites no unread event and never leaves the double-length buffer |
| `Rings.InputEventCircularReader.Advance` | libsensors/InputEventReader.cpp:59-69 | Moving the overflow to the start of the buffer appends the new events to the queue |
| `Rings.InputEventCircularReader.SlotIsModulo` | libsensors/InputEventReader.cpp:75-89 | Unread event i sits at (curr + i) mod capacity |
| `Rings.InputEventCircularReader.ReadEvent` | libsensors/InputEventReader.cpp:75-80 | The oldest unread event if and only if there is one |
| `Rings.InputEventCircularReader.Next` | libsensors/InputEventReader.cpp:82-89 | Drops exactly the oldest, around the end of the ring too |
| `AkmSensors.AkmSensor.constructor` | libsensors/AkmSensor.cpp:54-138 | The start with any devices reported on: enable bits, readings and accuracies as the device gives them, nothing pending, a ring of 32, and a count of 0 |
| `AkmSensors.AkmSensor.EnableHandle` | libsensors/AkmSensor.cpp:147-216 | Switching a handle on the object is the switch on values; an unknown handle gives -EINVAL and changes nothing |
| `AkmSensors.AkmSensor.EnableSensor` | libsensors/AkmSensor.cpp:162-216 | The library is asked only when the device must change; a refusal leaves enable bit and count alone |
| `AkmSensors.AkmSensor.ReadSensor` | libsensors/AkmSensor.cpp:281-327 | One call writes exactly the specified records into the caller's array from the given place and nothing else; below one record it gives -EINVAL, and a failed read ends it with its error number before decoding |
| `AkmSensors.AkmSensor.Decode` | libsensors/AkmSensor.cpp:290-326 | The decoding loop, stopping for want of room or events, possibly in the middle of a SYN |
| `AkmSensors.AkmSensor.DeliverPending` | libsensors/AkmSensor.cpp:300-316 | The inner loop at a SYN writes the pending enabled readings in index order as far as there is room |
| `AkmSensors.AkmSensor.ProcessInput` | libsensors/AkmSensor.cpp:329-389 | One REL event on the object is that event on values |
| `Akm.SynFills` | libsensors/AkmSensor.cpp:298-319 | A SYN leaves something pending only if it has used up its room, which is why the decoder ends |
| `AkmProofs.SynResumes` | libsensors/AkmSensor.cpp:298-319 | A SYN cut short and continued announces what an uncut one announces |
| `AkmProofs.DrainResumes` | libsensors/AkmSensor.cpp:290-326 | Output plus what the interpreter makes of the rest is what the interpreter makes of everything, for all later events; less than asked only if the ring is empty |
| `AkmProofs.StepResumes` | libsensors/AkmSensor.cpp:281-327 | The same for a whole call: at most `count` records, and fewer means an empty ring |
| `AkmProofs.RunResumes` | libsensors/AkmSensor.cpp:281-327 | The same for any sequence of calls with any capacities, reads and read failures |
| `AkmProofs.OutputIsPrefix` | libsensors/AkmSensor.cpp:281-327 | The concatenated output is a prefix of the interpreter's on the whole stream, and all of it when the ring is empty |
| `AkmProofs.ChunkingIndependent` | libsensors/AkmSensor.cpp:281-327 | Two ways to cut one stream into calls deliver the same records and leave the same state |
| `AkmProofs.EnableCounts` | libsensors/AkmSensor.cpp:147-216 | A switch keeps the reference count right whatever the library answers, and succeeds exactly if the sensor ends as asked |
| `AkmProofs.StartCountsIff` | libsensors/AkmSensor.cpp:60-90 | At the start the count is right if and only if the accelerometer is off |
| `AkmProofs.CutOff` | libsensors/AkmSensor.cpp:188-213 | From a start with it on, switching significant motion on and the accelerometer off leaves the device off under a sensor in use |
| `AkmProofs.AccelerometerCounted` | libsensors/AkmSensor.cpp:147-216 | Over any run of switches, refusals and reads with automatic switching off: the count is the number of enabled sensors on the accelerometer, which is on exactly if it is positive; the two other devices are on exactly if their sensor is enabled |
| `AkmProofs.MotionFiresOnce` | libsensors/AkmSensor.cpp:304-314 | If switching off succeeds, at most one significant motion is delivered per successful enable (one more if it was on at the start) |
| `AkmProofs.ProcessChannel` | libsensors/AkmSensor.cpp:329-389 | Each event code sets its own axis, with sign and factor, and no other |
| `AkmProofs.LastValueWins` | libsensors/AkmSensor.cpp:329-389 | After any stream each axis holds the last value sent for it, in SI units |
| `AkmProofs.ReportsWhatMoved` | libsensors/AkmSensor.cpp:295-316 | At a SYN an enabled physical sensor reports if and only if the device has sent something for it since the SYN before |
| `AkmRecords.RecordsAtSyn` | libsensors/AkmSensor.cpp:298-319 | The records at a SYN after any stream: strictly ascending sensors, one exactly for each enabled sensor that moved since the SYN before; each axis is the last value sent for it, the orientation's accuracy the last one sent, significant motion 1 |
| `AkmRecords.SynSettles` | libsensors/AkmSensor.cpp:298-319 | After a SYN nothing is pending, no reading has changed, and at most significant motion has been switched off |
| `AkmRecords.MotionIff` | libsensors/AkmSensor.cpp:341-357 | Between two SYNs significant motion comes up if and only if it is enabled and some height differs from the one before it, cut off to an integer, by 2 or more |
| `AkmRecords.StatusIsLast` | libsensors/AkmSensor.cpp:382-388 | After any stream the orientation's accuracy is the last one sent, with 4 as 0; no other accuracy changes |
| `AkmRecords.EnableExact` | libsensors/AkmSensor.cpp:162-216 | A switch leaves everything else alone, and asks the library exactly if the bit is to change and no other user of the accelerometer is on |
| `AkmRecords.HandlesSwitch` | libsensors/AkmSensor.cpp:147-160 | Handles 0, 1, 2 and 6 switch the four sensors, each its own and no other; any other handle is refused |
| `AkmRecords.StartReadings` | libsensors/AkmSensor.cpp:60-138 | At the start each axis of a device that is on has what the input device says of it, the angles unscaled; all others are 0 |
| `AkmRecords.StartAccuracies` | libsensors/AkmSensor.cpp:54-138 | At the start the accuracies are high, but for the orientation's if the input device gives one; nothing is pending |
| `Lights.LightSensor.ReadLight` | libsensors/LightSensor.cpp:115-159 | One call decodes a prefix of what is queued and arrived, writes what that prefix tells and stops early only right after the record that fills it; fewer than asked means an empty ring; each failure's error number, with nothing changed |
| `Lights.LightSensor.Decode` | libsensors/LightSensor.cpp:131-158 | The decoding loop |
| `Lights.LightSensor.DecodeOne` | libsensors/LightSensor.cpp:135-155 | One event: a new level unless the index is -1, or a record at a SYN if enabled |
| `Lights.LookUp` | libsensors/LightSensor.cpp:162-182 | The level of the first row of the table above the index as an unsigned number, or of the last row |
| `Lights.RecordAtSyn` | libsensors/LightSensor.cpp:131-158 | What an event adds to the records: at a SYN, if enabled, the level of the last index sent other than -1; otherwise nothing |
| `Lights.ChunkingIndependent` | libsensors/LightSensor.cpp:115-159 | Whatever the calls' sizes, the records delivered, with what the queued rest will tell, are what the whole stream tells |
| `Lights.CallResumes` | libsensors/LightSensor.cpp:115-159 | One call's records come first in what the stream tells |
| `Lights.OneOutcome` | libsensors/LightSensor.cpp:131-158 | The events and the room settle a call's result |
| `Polls.MergeTrans` | libsensors/sensors.cpp:251-285 | Rounds one after the other make one merge |
| `Polls.RoundMerges` | libsensors/sensors.cpp:253-265 | What a round writes is a merge of what the drivers gave in it |
| `Polls.PollMerges` | libsensors/sensors.cpp:246-288 | So is what a whole call writes, however it ends |
| `Polls.EachInOrder` | libsensors/sensors.cpp:253-265 | In a merge, the records of each driver are exactly those it gave, in its own order |
| `Polls.NoneLost` | libsensors/sensors.cpp:261-263 | A merge is as long as what all drivers gave together |
| `Polls.EachAsked` | libsensors/sensors.cpp:253-265 | In a round each driver has its turn with exactly the room that the drivers before it left, and none without room: it is called if and only if it is flagged or says that records are waiting, then gives all it has up to that room, and its flag goes exactly if it gives fewer |
| `Polls.ReadyIsCalled` | libsensors/sensors.cpp:251-285 | Every driver that some poll() reports ready is called afterwards, unless the room runs out first |
| `Polls.HowItEnds` | libsensors/sensors.cpp:267-287 | Each outcome exactly: filled up, or the last poll() failed, or found nothing ready with something to return; still waiting if the answers are used up or nothing is ready with nothing to return; every earlier poll() found something ready |
| `Polls.TimeoutsTell` | libsensors/sensors.cpp:267-271 | Each poll() is made without waiting if and only if records have been given before it |
| `Polls.ReturnsSomething` | libsensors/sensors.cpp:271-287 | A normal return is never empty-handed if anything was asked for, and is less than asked only after a poll() that found nothing ready |
| `Polls.HidesIff` | libsensors/sensors.cpp:271-275 | A call that has come back hides records it took if and only if its last poll() failed with timeout 0, which is if and only if it ends in an error after drivers have given records |
| `Polls.LostRecord` | libsensors/sensors.cpp:271-275 | Such an input: poll() reports one driver, which gives a record, and then fails |
| `PollContexts.PollContext.PollEvents` | libsensors/sensors.cpp:246-288 | The loop on driver objects and the caller's array gives the outcome, makes the calls of poll(), reaches the state and writes the records that the functions say, and nothing else |
| `PollContexts.PollContext.ReadSensors` | libsensors/sensors.cpp:253-265 | One round over the driver objects is one round on values |
| `PollContexts.PollContext.ReadSensor` | libsensors/sensors.cpp:254-264 | One driver's turn, with its flag |
| `PollContexts.PollContext.Wait` | libsensors/sensors.cpp:271-282 | What one answer of poll() comes to, and the flags after it |
| `PollContexts.PollContext.TakeFlags` | libsensors/sensors.cpp:271-282 | The flags become those poll() reports, except that the wake pipe's is cleared |
| `NiProofs.SlotHasOneWorker` | gps/libloc_api_50001/loc_eng_ni.cpp:72-204 | Over all interleavings: once its worker is started, a filled slot has exactly one worker waiting for it, and an empty one has none |
| `NiProofs.AnswersCarryOwnRequest` | gps/libloc_api_50001/loc_eng_ni.cpp:184-200 | Each worker's message carries the pointer of the request it was started for |
| `NiProofs.ExactlyOnce` | gps/libloc_api_50001/loc_eng_ni.cpp:72-204 | At rest, each request was accepted and answered by exactly one message, or refused, or dropped for want of a callback; its pointer was freed exactly once if and only if it was not dropped |
| `NiProofs.AtMostOnce` | gps/libloc_api_50001/loc_eng_msg.h:614-624 | At every moment nothing is freed or answered twice, and what is freed is held nowhere |
| `NiProofs.RunKeeps` | gps/libloc_api_50001/loc_eng_ni.cpp:72-204 | What every reachable state keeps |
| `NiProofs.WorkShrinks` | gps/libloc_api_50001/loc_eng_ni.cpp:145-204 | Every step of the threads themselves does some of a finite amount of work |
| `NiProofs.NeverStuck` | gps/libloc_api_50001/loc_eng_ni.cpp:145-204 | Some thread can move if and only if something is under way |
| `NiProofs.RunEnds` | gps/libloc_api_50001/loc_eng_ni.cpp:72-204 | So every run can be brought to rest |
| `NiProofs.OwnAnswerIffTimely` | gps/libloc_api_50001/loc_eng_ni.cpp:286-313 | The user's answer that a worker takes was given to the notification of its own request if and only if that request was in the slot when the answer was stored |
| `NiProofs.SecondReadRightIff` | gps/libloc_api_50001/loc_eng_ni.cpp:297-299 | While ids have been unique, a responder that finds the slot filled at its second read goes on for the right request if and only if the deferred thread is not accepting another one and the id it answers is the current one |
| `NiProofs.StaleAnswer` | gps/libloc_api_50001/loc_eng_ni.cpp:297-306 | A run in which it was not: the slot changed hands between the reads and the lock |
| `NiProofs.TornTest` | gps/libloc_api_50001/loc_eng_ni.cpp:297-298 | A run in which it was not although ids are unique and the deferred thread is idle: the slot changed hands between the two reads |
| `NiProofs.MisdirectedAnswer` | gps/libloc_api_50001/loc_eng_ni.cpp:96-100 | A run in which it was not although the slot stayed the same: the second request fills it before the first worker increments the id, so the answer to the first, only notification passes |
| `NiProofs.IdsSequentialIffQuiet` | gps/libloc_api_50001/loc_eng_ni.cpp:96-100 | Notification ids are 0, 1, 2 and so on if and only if each was read after all earlier workers had stored theirs |
| `NiProofs.IdsUniqueIffQuiet` | gps/libloc_api_50001/loc_eng_ni.cpp:96-100 | No two notifications of a run carry the same id if and only if each was read after all earlier workers had stored theirs |
| `NiProofs.SharedId` | gps/libloc_api_50001/loc_eng_ni.cpp:186-196 | A run in which two notifications carry the same id |
| `NiTraces.FirstReadIff` | gps/libloc_api_50001/loc_eng_ni.cpp:297-298 | A responder gets past its first read if and only if the id it answers is the current one; otherwise nothing changes |
| `NiTraces.SecondReadIff` | gps/libloc_api_50001/loc_eng_ni.cpp:297-298 | It gets past its second read if and only if the slot is filled |
| `NiTraces.LateAnswerRefused` | gps/libloc_api_50001/loc_eng_ni.cpp:297-299 | Over all interleavings: while ids are unique, an answer to a notification whose worker has already stored the next id changes nothing |
| `NiTraces.AnswersTraced` | gps/libloc_api_50001/loc_eng_ni.cpp:286-313 | Over all interleavings: every user's answer under way was given to a notification with the then current id, and later found the slot filled |
| `NiTraces.DeliveredTraced` | gps/libloc_api_50001/loc_eng_ni.cpp:184-200 | Every response delivered to the modem is such an answer, word for word, or the timeout's |
| `NiTraces.AnswerStored` | gps/libloc_api_50001/loc_eng_ni.cpp:300-306 | A responder past both reads stores its answer whatever has become of the slot, and changes nothing else |
| `NiTraces.LeftoverAnswer` | gps/libloc_api_50001/loc_eng_ni.cpp:300-306 | A run in which an answer stored when no request is in the slot is taken for the next request, although all ids are unique and its own notification is unanswered |
| `NiTraces.StoreFollowsLoad` | gps/libloc_api_50001/loc_eng_ni.cpp:196 | Over all interleavings: what a worker stores is one more than the id it read at an earlier step |
| `NiTraces.LostIncrement` | gps/libloc_api_50001/loc_eng_ni.cpp:196 | A run in which two workers have stored and the id has gone up by one |
| `EngineLoops.LocEng.HandleMessage` | gps/libloc_api_50001/loc_eng.cpp:1312-1849 | One round of the message loop on the object's fields is one round on values |
| `EngineLoops.LocEng.ReportGpsStatus` | gps/libloc_api_50001/loc_eng.cpp:1194-1243 | A status report on the fields: muting, the callback, and the statuses kept |
| `EngineLoops.LocEng.HandlePosition` | gps/libloc_api_50001/loc_eng.cpp:1478-1545 | When a position reaches the user, when it ends the session, and when it stops the modem's fix as well |
| `EngineLoops.LocEng.StartFixHandler` | gps/libloc_api_50001/loc_eng.cpp:527-545 | Starting a fix |
| `EngineLoops.LocEng.StopFixHandler` | gps/libloc_api_50001/loc_eng.cpp:585-603 | Stopping a fix |
| `EngineLoops.LocEng.HandleEngineUp` | gps/libloc_api_50001/loc_eng.cpp:1272-1294 | Engine up: status, then a running session is started again |
| `Engine.AidingWaitsForEngine` | gps/libloc_api_50001/loc_eng.cpp:1838-1843 | After every handled message but QUIT a pending mask means that the engine is on, and nothing was ever deleted while it was |
| `Engine.AidingConserved` | gps/libloc_api_50001/loc_eng.cpp:1696-1698 | From any point of any run, the bits pending then or requested later are exactly those deleted later or pending at the end |
| `Engine.HandleMutes` | gps/libloc_api_50001/loc_eng.cpp:1194-1213 | What each message does to muting; in a muted session none makes a location or satellite callback |
| `Engine.MutedSession` | gps/libloc_api_50001/loc_eng.cpp:1478-1562 | After a mute request, from the first begin to the next end with no further request between: no location and no satellite callback |
| `Engine.StaysWaiting` | gps/libloc_api_50001/loc_eng.cpp:621-626 | A mute request stays in force until a session or the engine begins |
| `Engine.MutedUnlessRequestedAgain` | gps/libloc_api_50001/loc_eng.cpp:1355-1360 | Until an end, a muted session is still muted if and only if no mute request came after the last begin |
| `Engine.SatellitesExposedIff` | gps/libloc_api_50001/loc_eng.cpp:1547-1562 | In a muted session satellites reach the user if and only if it was opened in that way |
| `Engine.NmeaAlwaysPasses` | gps/libloc_api_50001/loc_eng.cpp:1568-1577 | In every run, muted or not, each NMEA report of the modem reaches the user exactly once if the callback is set |
| `EngineOutcomes.PositionOutcome` | gps/libloc_api_50001/loc_eng.cpp:1478-1545 | A position is given to the user exactly once if and only if the session is not muted, there is a callback, and it is a failure, a good final fix, or a wanted intermediate fix of enough accuracy; if so it ends a single-shot session, and stops the modem's fix if it was intermediate |
| `EngineOutcomes.SatellitesOutcome` | gps/libloc_api_50001/loc_eng.cpp:1547-1562 | Satellites are given to the user if and only if the session is not muted and there is a callback |
| `EngineOutcomes.StatusOutcome` | gps/libloc_api_50001/loc_eng.cpp:1194-1243 | Which statuses reach the user, and which are kept as the engine's and the session's last |
| `EngineOutcomes.EngineUpOutcome` | gps/libloc_api_50001/loc_eng.cpp:1272-1294 | The engine coming up is reported, and a running session starts again or, if refused, is over |
| `EngineOutcomes.StartOutcome` | gps/libloc_api_50001/loc_eng.cpp:527-545 | A fix starts if and only if none is running and the modem does not refuse; the user is told exactly then |
| `EngineOutcomes.StopOutcome` | gps/libloc_api_50001/loc_eng.cpp:585-603 | A running fix is stopped and over in any case; the user is told if the modem obeys |
| `EngineOutcomes.NmeaOutcome` | gps/libloc_api_50001/loc_eng.cpp:1568-1577 | A sentence is given to the user if and only if there is a callback |
| `EngineOutcomes.SilentOutcome` | gps/libloc_api_50001/loc_eng.cpp:1696-1698 | The other messages make no callback, but a deletion may fall due |
| `EngineOutcomes.QuitOutcome` | gps/libloc_api_50001/loc_eng.cpp:1345-1354 | QUIT ends the loop without a deletion, nothing else does, and nothing happens after it |
| `EngineOutcomes.EngineIsLast` | gps/libloc_api_50001/loc_eng.cpp:1232-1237 | After any run the engine's status is the last one that a message brought |
| `Frames.SizeRoundTrip` | gps/libloc_api_50001/loc_eng_dmn_conn_glue_msg.c:111-124 | A size survives its four bytes |
| `Frames.MessageSend` | gps/libloc_api_50001/loc_eng_dmn_conn_glue_msg.c:111-124 | Fills in the size, leaves the rest of the message, and puts the stamped message on the pipe, or as much of it as the write takes; a short write gives -1 |
| `Frames.MessageReceive` | gps/libloc_api_50001/loc_eng_dmn_conn_glue_msg.c:146-169 | Fills the buffer with one message and takes exactly it off the pipe; what each failure leaves on the pipe |
| `Frames.ReceivedIff` | gps/libloc_api_50001/loc_eng_dmn_conn_glue_msg.c:146-169 | A message is received if and only if its size covers the header, fits the buffer and is all there; what each failure leaves on the pipe |
| `Frames.BodyFitsIff` | gps/libloc_api_50001/loc_eng_dmn_conn_glue_msg.c:157-161 | The second read stays within a buffer that passed the size check if and only if the size is at least that of its own field |
| `Frames.FirstReceived` | gps/libloc_api_50001/loc_eng_dmn_conn_glue_msg.c:146-169 | The first message of a stream comes off whole if it fits; the pipe is then on a boundary if and only if it fits or is only a header |
| `Frames.RoundTrip` | gps/libloc_api_50001/loc_eng_dmn_conn_glue_msg.c:111-169 | Any messages sent and then received come back byte for byte apart from the size, with the pipe on a boundary after each |
| `Addresses.DecodeAddress` | gps/libloc_api_50001/LocApiAdapter.cpp:118-143 | As many decoded digits as fit, then a NUL, nothing written after it, and the count returned; null pointers and a wrong prefix |
| `Addresses.PutDigit` | gps/libloc_api_50001/LocApiAdapter.cpp:133-138 | A half octet is appended if it is a digit and leaves room for the NUL |
| `Addresses.DigitsAreHalves` | gps/libloc_api_50001/LocApiAdapter.cpp:133-138 | The decoded string is the half octets from 0 to 9 in order, low half first, as characters |
| `Addresses.RoundTrip` | gps/libloc_api_50001/LocApiAdapter.cpp:118-143 | Decoding the swapped semi-octets of any string of digits, with filler if odd, gives the string |
| `Addresses.DecodeEncoded` | gps/libloc_api_50001/LocApiAdapter.cpp:118-143 | Through the buffers: 0x91 and the encoded digits come back as the digits, cut to what the string can hold |
| `Nmea.GenerateGsv` | gps/libloc_api_50001/loc_eng_nmea.cpp:598-658 | For n > 0 satellites ceil(n/4) sentences numbered from 1, each full but the last and none empty, whose entries are all satellites once and in order |
| `Nmea.NextFour` | gps/libloc_api_50001/loc_eng_nmea.cpp:623-651 | The entries of one sentence are the next four satellites or those left |
| `Nmea.EntriesAre` | gps/libloc_api_50001/loc_eng_nmea.cpp:623-651 | Each entry has its own satellite's number, rounded elevation and azimuth, and its signal if there is any |
| `Nmea.RoundIs` | gps/libloc_api_50001/loc_eng_nmea.cpp:623-643 | Rounding: to the nearest, halves up, but towards zero below -1/2 |
| `Nmea.SvUsedList` | gps/libloc_api_50001/loc_eng_nmea.cpp:135-143 | The positions of the set bits, strictly ascending from 1, add up to the mask |
| `Nmea.ListDeterminesMask` | gps/libloc_api_50001/loc_eng_nmea.cpp:135-143 | No other ascending list adds up to the same mask |

## Left out

- Identity of subscribers: a subscriber object is stored in its list element, and a number given to each added entry stands for the object; freeing of removed subscribers, APN and bearer buffers are not modelled.
- Comparing BIT with ATL subscribers (an unchecked cast): equality is an equivalence on keys.
- List handles are never null, and the pointer that a search fills is null before it, as all callers of the list make it; `linked_list_init` succeeds.
- Allocation of list elements may fail in `LinkedLists` but not in `AgpsMachines`.
- AgpsInvariants.NoticeLedger: runs contain no `dropAllSubscribers`, which removes entries without telling anybody (`DropBreaksShape`).
- Bit masks (enabled and pending sensors, aiding data, whose width is not in this repository) are sets of indices.
- Floating point is `real` without rounding; the gravity constant 9.80665 is that of Android's sensors.h, which is not part of this model's sources.
- Time stamps of sensor records, and `setDelay`.
- The AKM library is a function from the number of the call and the direction of the switch to its answer.
- Lights.LightSensor.ReadLight: time stamps and the light sensor's own switch are not modelled; its constructor's enable is a parameter. The branch for a waiting initial record (lines 119-125) is left out as dead: only `setInitialState`, which nothing calls, sets its flag.
- AgpsMachines.AgpsStateMachine.SendRequest: the addresses and wifi data that go out with the request are not modelled.
- EngineLoops.LocEng.HandleMessage: messages without effect on muting, sessions and aiding data are one kind, `Other`.
- EngineLoops.LocEng.HandlePosition: the sentences generated from a position are not modelled.
- EngineLoops.LocEng.HandleEngineUp: re-initialisation and `dropAllSubscribers` are not modelled.
- GyroSensor, ProximitySensor, and negative results of drivers in `pollEvents`; poll() reports readiness to read only, and a poll() without timeout that has nothing to report keeps waiting.
- PollContexts.PollContext.ReadSensor: negative results of drivers are not modelled.
- PollContexts.PollContext.PollEvents: an unending wait is the end of the list of answers that poll() will give.
- Engine restart in the network-initiated protocol (it frees the slot outside the lock), null pass-through pointers, failed thread creation; `respTimeLeft` is left out, so a timeout may come at any time; the start of a worker and the notification that follows it are one step.
- The network-initiated protocol is not part of `Engine`, where the acceptance of a request is given by the environment.
- The deferred stop in the message loop: nothing sets `agps_request_pending`, so its branch is dead.
- NMEA text: number formatting, checksums, truncation to the sentence buffer, the twelve satellite fields of GSA, and position sentences.
- Frames.MessageReceive: with a size on the pipe below that of its own field, only pipes that hold no more than the buffer are covered, since anything more is written past it (`BodyFitsIff`).
- Interrupted partial writes to the pipe, blocking reads, and removal of the pipe.
- Sysfs, ioctl, dlopen, sockets, DNS, logging, wake locks, power profiles, lights, camera wrapper, NFC and release tools.
