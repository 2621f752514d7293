# Verification of ptpd's protocol core

This project models the parts of ptpd (an IEEE 1588-2008 engine in C) whose correctness depends on state
that survives from one message, tick or sample to the next, and proves what that state keeps. Each component
comes in two layers:

* a value layer: the data the C code works on as datatypes, each operation as a function with the branches,
  constants, casts and edge cases of the code, and lemmas over single steps, whole runs and whole networks;
* an object layer: classes and array methods that update fields, records, buffers and counters in place as
  the code does, each proved to change its state exactly as the value layer says.

| files | component |
|---|---|
| `PtpTypes`, `LexOrder`, `Division` | messages, data sets, configuration, integer widths; lexicographic comparison; quotients and remainders |
| `Bmc`, `ForeignTable` | data set comparison, best record scan, foreign master ring table |
| `Port`, `PtpClock` | data set updates, state decision, Announce handling, state changes and the main loop of one port |
| `PortRuns`, `PortRoles`, `PortRecords`, `PortTurns`, `PortLimits` | what every run of one port keeps, what its records say, where its turns lead, and where it does less than its comments say |
| `Network`, `Agreement` | any number of ports over a lossy, duplicating, reordering medium |
| `Grants`, `GrantLeases`, `UnicastGrants` | unicast grant table, hash index, leases |
| `Pacing` | rate division and sequence numbers of granted destinations |
| `TimingService`, `ClockControl`, `TimingDomain` | election of the service that controls the clock |
| `FilterAutomaton`, `OutlierFilter` | step blocking of the outlier filter |
| `Exchange`, `SlaveClock` | Sync, Follow_Up, Delay_Req and Delay_Resp in a slave |
| `Codec`, `TimeArith` | message layout; time arithmetic and wire conversions |
| `AlarmMachine`, `Alarms` | alarm conditions and notices |

Timers, sockets, real clock reads, Peirce's test, step tests, multicast refresh results and what the system
reports of the UTC offset are inputs of the modelled steps. `memcmp` is modelled by the sign of its result.

## Findings

Where the code does something other than its comments or the IEEE 1588-2008 rules suggest, the model follows
the code and a lemma says exactly when:

* Data set comparison is antisymmetric except in two families of inputs (`AntisymmetricIff`). Two senders that
  disagree on their common grandmaster can make it cyclic (`ComparisonCanCycle`): a record of another clock that
  closes a cycle exists exactly when the sender that ranks first announces the worse attributes
  (`CycleClosesIff`).
* A disqualified record ranks first, not last: during the announce grace period a slave stays with the dead
  master although a live one is listed, against the comments at `src/ptp_datatypes.h:521` and
  `src/protocol.c:866-870` (`DisqualifiedIsChosen`, `GraceKeepsDeadMaster`).
* A slave-only port that hears a second master in the turn of its announce timeout decides on an empty table
  and then follows a record that is not listed (`SecondMasterAtTimeout`); this is the only way in which data
  sets and state come apart (`DecisionKeepsIff`).
* In PASSIVE the record of the parent is not refreshed, so what the parent announces has no influence on the
  next decision (`PassiveForgetsParent`).
* Initialisation clears the record count without the ring index; the next master is then stored outside the
  used part of the table, unless the ring index is at the front or at the best record, or the stale front record
  is of the same master (`UnpairedResetHidesNewMaster`).
* With a running hold timer two timing services can control the clock (`ElectionKeepsIff`,
  `HoldTimerSharesControl`).
* A clock of class 128 to 254 never ages the leases it granted, and no clock ages those in entries beyond the
  configured destinations or those of message types that are not requestable, which it grants all the same:
  such leases last until an event concerns them (`UnrefreshedLeaseStays`); the others end, after a fixed number
  of refreshes (`LeaseEndsIff`).
* A lease of a message type that is not requestable is ended neither by refreshes nor by cancels, only by a
  denied request or an acknowledgement of a cancel (`NotRequestableLease`). While it is the first grant in force
  of an entry, that entry is never freed (`StuckEntryStays`, `EntryFreedIff`).
* The grant index can answer differently from the scan it stands for (`IndexIsSpeedUpIff`).
* If the Sync numbered 65535 is lost, sequence checking rejects the next fifty messages (`WrapAroundRejects`).
* A Sync that arrives twice with its Follow_Up is measured twice when sequence checking is off
  (`DuplicateIsMeasuredTwice`); with checking on this takes a number 65535 or fifty rejections in between
  (`SameNumberTwice`). `SecondUpdateIff` says when exactly a number is measured again.
* With looped back requests one delay request may be answered twice, and measured against the send time of the
  request before it (`ResponseOvertakesLoopback`). The send time is the right one exactly when the last arming
  event is not older than the request (`SendTimeIsOwnIff`), and there is at most one answer exactly when no copy
  of the request loops back between the first response since an arming event and another response
  (`EachRequestAnsweredOnce`).
* Autotuning that is switched on late can compute a score above 100 percent (`LateTuningMiscounts`): exactly when
  at least 201 outliers are counted for 200 samples (`ScoreAboveHundredIff`). Threshold and score stay in range
  over a run exactly when every reconfiguration has a valid range and does not switch autotuning on while more
  outliers than samples are counted (`TuningStaysInRange`).
* `gtTime` decides "not less", `is_Time_close` is strict, and the last second before 2038 is not converted
  (`GtTime`, `IsTimeClose`, `TimestampRoundTripIff`).

## Model

| member | source | states |
|---|---|---|
| LexOrder.LexAntisymmetric | src/bmc.c:175-201 | comparing identities: zero exactly for equal ones, and swapping flips the sign |
| LexOrder.LexTransitive | src/bmc.c:175-201 | comparing identities is transitive |
| Bmc.CmpPortIdentityZero | src/bmc.c:175-201 | port identities compare as equal exactly when they are equal |
| Bmc.AntisymmetricIff | src/bmc.c:487-642 | swapping two records flips the verdict exactly when none of the two clashing guards applies |
| Bmc.TopologyAntisymmetricIff | src/bmc.c:517-561 | for one grandmaster the clash is a difference of one step whose farther sender is not the parent |
| Bmc.GrandmastersAntisymmetricIff | src/bmc.c:563-640 | for two grandmasters the clash is in the domain tests, when configured and current domain differ |
| Bmc.ComparisonFollowsKey | src/bmc.c:487-642 | on comparable records the branching comparison is the lexicographic order on one explicit key |
| Bmc.ComparisonIsAnOrder | src/bmc.c:487-642 | so on comparable records it is antisymmetric and transitive, with ties for equal keys only |
| Bmc.ScanFindsMinimum | src/bmc.c:769-775 | the scan ends on the first record with the least key |
| Bmc.ScanIgnoresOrder | src/bmc.c:769-775 | the record chosen does not depend on the slots the records are in |
| Bmc.DisqualifiedIsChosen | src/bmc.c:498-504 | a single disqualified record is chosen before all qualified ones |
| Bmc.ComparisonCanCycle | src/bmc.c:487-642 | three records of inconsistent senders each beat the next one |
| Bmc.CycleClosesIff | src/bmc.c:487-642 | for two records of one grandmaster, a record of another that closes a cycle exists exactly when the one ranked first by topology has the worse attributes and both are disqualified or neither |
| ForeignTable.FindIsMembership | src/protocol.c:3358-3380 | the circular search from the best record finds a master exactly when a used slot holds it |
| ForeignTable.AddForeignEffect | src/protocol.c:3351-3418 | the sender is listed, nobody else appears, a table with room loses nobody, the best record stays in its slot |
| ForeignTable.AddForeignStores | src/protocol.c:3358-3417 | the one used slot of the sender has header, announce and preference of the message and is not disqualified; a known master is counted and keeps its address; no other slot changes |
| ForeignTable.AddForeignShape | src/protocol.c:3382-3417 | after an insertion no master is listed twice and a table that is not full grows at its end |
| ForeignTable.RunKeepsWellFormed | src/protocol.c:3351-3418 | distinct masters, bounded count and a best index in use, after every run of insertions, decisions and paired resets |
| ForeignTable.AddForeignAges | src/protocol.c:3382-3417 | in a full table a new master costs every other record one step of its remaining life, a known one costs nothing |
| ForeignTable.NewMasterSurvives | src/protocol.c:3382-3417 | with the best slot fixed, a new master survives the next capacity minus two announcements |
| ForeignTable.RotationIsExact | src/protocol.c:3382-3417 | after exactly that many new masters its slot is the next to be overwritten |
| ForeignTable.RotationVisitsAll | src/protocol.c:3382-3417 | consecutive new masters take pairwise different slots until capacity minus one of them came, and then the same slots again |
| ForeignTable.UnpairedResetHidesNewMaster | src/bmc.c:169-170 | after a reset of the count alone, the next new master is listed exactly when the ring index is at the front or at the best record, or the stale front record is its own |
| Port.TurnStaysReady | src/protocol.c:242-286 | the best master pointer is never null where it is dereferenced and never leaves the record array |
| PtpClock.PtpClock.constructor | src/bmc.c:59-172 | a zeroed clock with an empty table, ready to initialise |
| PtpClock.PtpClock.M1 | src/bmc.c:229-275 | in place, the clock's own attributes as parent and grandmaster, steps zero, configured time properties; nothing else changes |
| PtpClock.PtpClock.S1 | src/bmc.c:289-452 | in place, parent, grandmaster and time properties from the message, its steps plus one modulo 2^16, in PASSIVE the configured UTC offset; nothing else but an any-domain clock's domain changes |
| PtpClock.PtpClock.ScanRecords | src/bmc.c:769-775 | the loop over the records in use returns the scan's choice |
| PtpClock.PtpClock.StateDecision | src/bmc.c:644-752 | recommends the state and leaves the data sets that DecisionKeepsIff and OwnRankDecides are about, for every record and role |
| PtpClock.PtpClock.BestMasterClock | src/bmc.c:756-779 | best index and pointer denote the scanned minimum, whose decision the data sets follow; a MASTER without records stays MASTER |
| PtpClock.PtpClock.FindRecord | src/protocol.c:3358-3380 | the wrapping search loop returns the slot of a known master |
| PtpClock.PtpClock.AddForeign | src/protocol.c:3351-3418 | the record array, count and ring index change as AddForeignEffect and NewMasterSurvives say, and nothing else does |
| PtpClock.PtpClock.UpdateParent | src/protocol.c:1619-1636 | the data sets are those of the message, and the record that the pointer denotes is overwritten in the array |
| PtpClock.PtpClock.HandleAnnounce | src/protocol.c:1549-1787 | in every port state: own messages, messages without a required UTC offset and those of inactive ports change nothing, others the parent record or the table |
| PtpClock.PtpClock.Enter | src/protocol.c:364-742 | the state, pointer and counters that the role and coherence theorems are about, for every state entered |
| PtpClock.PtpClock.EnterListening | src/protocol.c:364-742 | the same for LISTENING, with its retry limit, its multicast refresh and its detour to MASTER |
| PtpClock.PtpClock.AnnounceTimeout | src/protocol.c:847-923 | a clock that may lead becomes MASTER with an empty table; a follower disqualifies its record during the grace period and starts anew after it |
| PtpClock.PtpClock.Turn | src/protocol.c:242-286 | one turn of the main loop; it keeps a coherent port coherent unless it decides on an empty table |
| PortRuns.DecisionKeepsIff | src/bmc.c:756-779 | from a coherent port a decision keeps coherence exactly when no slave-only port decides on an empty table |
| PortRuns.HandleAnnounceKeeps | src/protocol.c:1597-1787 | no Announce separates data sets, pointer and record |
| PortRuns.AnnounceTimeoutKeeps | src/protocol.c:847-923 | nor does the announce timeout |
| PortRuns.TurnKeepsCoherent | src/protocol.c:242-286 | nor does a turn with faults, disabling and re-initialisation |
| PortRuns.DataSetsAgreeWithState | src/protocol.c:792-1203 | over every run from a cleared clock: a MASTER's data sets name itself, a SLAVE's pointer, best index, parent data set, steps and time properties are those of one listed record |
| PortRecords.AcceptsIff | src/protocol.c:1314-1339 | an Announce changes a port exactly when the port is active and listens, the domain is its own or any is allowed to it, a required UTC offset is there, and it is not the port's own; it then asks for a decision |
| PortRecords.ForeignIsIgnored | src/protocol.c:1314-1339 | a turn in which an Announce of another domain, an own one or one without a required UTC offset arrives is the same turn without it |
| PortRecords.RecordsSayWhatWasHeard | src/protocol.c:1597-1787 | over every run each listed record says what the last Announce said that the port accepted from its sender, those of the parent in PASSIVE excepted |
| PortRecords.OnlyOwnDomainIsListed | src/protocol.c:1314-1339 | over every run no listed record is of another domain, of the port itself, or without a required UTC offset |
| PortTurns.DisabledIff | src/protocol.c:242-286 | exactly a port that is disabled is in DISABLED after a turn |
| PortTurns.Recovers | src/protocol.c:745-812 | a faulty port is initialised in the turn after the next; initialising empties the table, makes the port its own master by the configuration, and ends in LISTENING, or in MASTER if announces are ignored |
| PortTurns.RecommendsIff | src/bmc.c:644-752 | a clock leads exactly if its own data set compares better than the record, follows or stands by exactly if worse, by its class, is faulty exactly on a tie; slave-only clocks follow |
| PortTurns.EnteringForgets | src/protocol.c:364-742 | a SLAVE or LISTENING port has its whole grace period ahead, LISTENING, MASTER and DISABLED point at no master, a port that stops listening counts from zero |
| PortTurns.ListeningIff | src/protocol.c:514-560 | a port that is to listen leads with an empty table if it ignores announces, is faulty after too many rounds or a failed refresh, and otherwise listens and counts the rounds |
| PortTurns.ParentEndsGrace | src/protocol.c:1666-1673 | an Announce of the parent ends the grace period |
| PortTurns.SilenceMakesMaster | src/protocol.c:847-862 | a clock that may lead and hears nothing in time is MASTER with an empty table and its own data sets |
| PortTurns.ExpiryIff | src/protocol.c:847-923 | which clocks lead when the announce receipt timer expires, which stay in their grace period, and which start anew with an empty table |
| PortTurns.ListeningGivesUp | src/protocol.c:514-560 | a slave-only clock that hears nothing listens for exactly as many rounds as configured and is then faulty |
| PortTurns.SlaveGivesUp | src/protocol.c:833-1010 | a slave that cannot send is faulty, one whose clock is not updated in time listens again, and otherwise a turn without events changes nothing |
| PortTurns.MasterTurnEnds | src/protocol.c:1011-1160 | a MASTER is faulty exactly after a failure to send, receive or refresh, and one of the slave-only class does not stay MASTER |
| PortRoles.TurnKeepsRole | src/protocol.c:792-1203 | a turn never leads to a state that the role excludes |
| PortRoles.RoleSafety | src/protocol.c:364-742 | over every run: slave-only is never MASTER or PASSIVE, class below 128 is never SLAVE, any other class is never PASSIVE |
| PortLimits.SecondMasterAtTimeout | src/protocol.c:892-916 | the family of turns after which a slave-only port follows a record that is not listed |
| PortLimits.PassiveForgetsParent | src/protocol.c:1721-1756 | in PASSIVE the next decision is the same whatever the parent announced, with or without any-domain; with announces ignored nothing changes at all |
| PortLimits.GraceKeepsDeadMaster | src/protocol.c:864-890 | in the grace period a slave that hears another live master stays with the one that timed out |
| PortLimits.GracePeriodEnds | src/protocol.c:847-923 | the grace period lasts exactly as many expiries as are left of it, with the port a SLAVE of its disqualified master; the next expiry ends it with an empty table |
| Network.OwnRankDecides | src/bmc.c:644-752 | against a record of another clock the state decision compares the two clocks' ranks |
| Network.ScanFindsBestMember | src/bmc.c:769-775 | the chosen record is of a clock that nobody else in the table outranks |
| Network.DecisionKeeps | src/protocol.c:805-824 | a decision keeps the invariant of one port, and a follower does not become MASTER |
| Network.HandleKeeps | src/protocol.c:1597-1787 | an Announce of a leader keeps the invariant and leaves a follower's best record with the same clock |
| Agreement.InitialisedPortStarts | src/protocol.c:745-789 | initialising a cleared clock gives a port as the network theorems start from |
| Agreement.PackedAnnounceIsSent | src/dep/msg.c:1763-1810 | what comes off the wire is what the network lets a port send, with the sender's time properties |
| Agreement.DecidesForBest | src/bmc.c:756-779 | a decision with the best clock listed ends in following it |
| Agreement.HearingIsListing | src/protocol.c:3351-3418 | one accepted Announce of the best clock lists it, however full the table is |
| Agreement.TurnSound | src/protocol.c:792-1203 | a turn without failures and follower timeouts keeps the network invariant |
| Agreement.BestExists | src/bmc.c:487-642 | unless all clocks are slave-only, one of them outranks all others |
| Agreement.StatesAdvance | src/protocol.c:792-1203 | over every run of the network each port only advances from LISTENING to MASTER to SLAVE or PASSIVE |
| Agreement.BestKeepsLeading | src/bmc.c:644-779 | the best clock that may lead never stops leading, and a follower never leads again |
| Agreement.AgreementOnBest | src/bmc.c:644-779 | once all others list the best clock and took one more turn, it is the only MASTER and all others follow it, with tables of any capacity from two on |
| Agreement.HeardIsListed | src/protocol.c:1549-1787 | over every run a port that accepted one Announce of the best clock lists it from then on, however many others it hears |
| Agreement.AgreementAfterHearing | src/protocol.c:792-1203 | from cleared clocks: when every other port has accepted one Announce of the best clock and then took one more turn, the best clock is the only MASTER and all others follow it |
| Grants.FoundIff | src/signaling.c:157-268 | a known node gets its entry, a new one the first entry without identity or time left, and none is found exactly when all have both and none matches |
| Grants.FindEffect | src/signaling.c:157-268 | the entry gets the identity, any address given, and its place in the index; a known node keeps its grants, a new one starts with new numbers; nothing else changes, and without update nothing at all |
| Grants.MaskMerges | src/signaling.c:171-178 | with no port mask all ports are different nodes, with a full one all ports of a clock are one, and masking twice is masking once |
| Grants.IndexIsSpeedUpIff | src/signaling.c:105-268 | an index hit gives the scan's entry and table exactly when it is scanned and no earlier entry matches |
| Grants.IndexIsSpeedUp | src/signaling.c:105-268 | so for an identity that one entry holds and an address that no earlier entry holds, whatever the hash and the stale slots |
| Grants.NodeKeepsEntry | src/signaling.c:157-268 | a node that was given an entry finds it again through the index, and finding it changes nothing |
| GrantLeases.RefreshUsesLease | src/signaling.c:1229-1311 | each refresh uses up one of the refreshes that a lease has left, and the lease is in force while any is left |
| GrantLeases.FreshLease | src/signaling.c:386-430 | a lease is granted for the time asked for, but at least 30 seconds and at most the configured maximum, and for d seconds has d + 9 refreshes left |
| GrantLeases.RequestEffect | src/signaling.c:357-416 | a request that can be granted sets the terms within the limits, keeps the message counter at the same interval and forgets a cancel under way; a denied one withdraws a grant that is not requestable, and only that |
| GrantLeases.RefreshStages | src/signaling.c:1243-1302 | stage by stage a sound lease counts down to 5 seconds, is cancelled three times by a message, and is then forgotten |
| GrantLeases.IdleGrantStays | src/signaling.c:1243-1302 | a grant not in force is left alone by refreshes, but for the rest of a cancel that nobody answered |
| GrantLeases.RefreshesIff | src/signaling.c:1214-1217 | grants are refreshed by clocks that never follow or are slave-only |
| GrantLeases.CancelsAreNumbered | src/signaling.c:711-756 | the signalling numbers of a node go on by as many as its grants are cancelled, modulo 2^16 |
| GrantLeases.HandleRequestEffect | src/signaling.c:304-444 | a request changes the entry given to the node: the grant asked for, the signalling number if granted, and a used up time left; nothing else |
| GrantLeases.ClearingEffect | src/signaling.c:530-672 | an acknowledgement, or a cancel of a grant requested and in force, clears that grant; the cancel is answered under the next number; nothing else changes |
| GrantLeases.LeaseIsBounded | src/signaling.c:1198-1323 | a lease that no event concerns is in force for exactly the refreshes it has left, whatever happens to others |
| GrantLeases.GrantedLeaseEnds | src/signaling.c:304-444 | a request granted for d seconds ends with refresh number d + 9 |
| GrantLeases.CancelUndoesRequest | src/signaling.c:530-612 | a cancel by the node that was granted a request ends that grant at once |
| GrantLeases.UnrefreshedLeaseStays | src/signaling.c:1214-1241 | on a clock that may be master or slave, in entries beyond the destinations, and for message types that are not requestable, a lease that no event concerns never changes |
| GrantLeases.LeaseEndsIff | src/signaling.c:1198-1323 | a lease that no event concerns ends exactly when refreshes reach it and all it had left took place |
| GrantLeases.NotRequestableLease | src/signaling.c:357-444 | over every run a grant of a message type that is not requestable is in force exactly if the last request or acknowledgement about it was a request for some time and no too high rate |
| GrantLeases.EntryFreedIff | src/signaling.c:1229-1320 | a refresh frees an entry exactly when its first grant in force has no time left, or there is none, and no requestable grant has more than 5 seconds |
| GrantLeases.StuckEntryStays | src/signaling.c:1229-1320 | so an entry whose first grant in force is not requestable is never free, over every run without an event about that grant or an earlier one |
| GrantLeases.RunKeepsSound | src/signaling.c:304-612 | over every run an entry with a live lease has time left and an identity |
| GrantLeases.LiveLeaseIsProtected | src/signaling.c:157-268 | an entry with a lease of more than 5 seconds goes only to the node with its identity or its address |
| GrantLeases.EntryIsUsedAgain | src/signaling.c:1221-1320 | after all leases of an entry ran out and one more refresh, over every run, it has no time left, and a new node is given it or an earlier entry |
| UnicastGrants.UnicastGrants.ScanTable | src/signaling.c:199-244 | the scan loop returns the first match, or the first free entry |
| UnicastGrants.UnicastGrants.Find | src/signaling.c:157-268 | in place, the lookup that IndexIsSpeedUpIff, NodeKeepsEntry and LiveLeaseIsProtected are about; without update nothing changes |
| UnicastGrants.UnicastGrants.HandleRequest | src/signaling.c:304-444 | in place, the request that FreshLease, GrantedLeaseEnds and NotRequestableLease are about; it is granted exactly when the node has an entry and asks for some time and no too high rate, on the terms offered |
| UnicastGrants.UnicastGrants.HandleCancel | src/signaling.c:530-612 | in place, the cancel that CancelUndoesRequest is about, acknowledged exactly when the grant was requested and is in force; other grants stay as they were |
| UnicastGrants.UnicastGrants.HandleAcknowledge | src/signaling.c:614-672 | in place, the acknowledgement that NotRequestableLease is about, for any grant, cancelled or not |
| UnicastGrants.UnicastGrants.RefreshGrant | src/signaling.c:1238-1302 | ageing, expiry, cancel and forced clear of one grant, as RefreshUsesLease counts them, and whether a cancel is sent |
| UnicastGrants.UnicastGrants.RefreshEntry | src/signaling.c:1221-1322 | every grant of the entry refreshed once, each cancel with its own signalling number, the remaining time the maximum over live grants, the identity freed when none is left |
| UnicastGrants.UnicastGrants.Refresh | src/signaling.c:1198-1323 | every covered entry is refreshed once, the others and the tables of middle class clocks stay |
| Pacing.SentCount | src/protocol.c:2951-2972 | the messages sent in any run are the multiples of the ratio that the counter passes |
| Pacing.OnePerInterval | src/protocol.c:2951-2972 | in as many rounds as the ratio of the intervals exactly one message is sent, across renewals |
| Pacing.SentAreConsecutive | src/protocol.c:3066-3070 | the messages sent carry consecutive sequence numbers modulo 2^16 |
| Pacing.SendsIffDue | src/protocol.c:2951-2972 | a message goes out exactly when the grant is in force, the round is not paused and the counter is at a multiple of the ratio; the counter moves on in any case |
| Pacing.RoundChanges | src/protocol.c:2931-2985 | a round changes the number of a grant that is due and the counter of a divided rate, and nothing else in the table |
| Pacing.RoundServesDue | src/protocol.c:2931-2985 | a round sends one message, to its own address and with its own number, for every entry that is due, in the order of the table, and no others |
| Pacing.NothingWithoutGrant | src/protocol.c:2886-2972 | as long as no grant is in force no message is sent, whatever rounds, refreshes and denied requests come |
| Pacing.IssueSingle | src/protocol.c:2951-2972 | a message goes out exactly when it is due, with the number of its grant |
| Pacing.IssueRound | src/protocol.c:2931-2985 | every granted destination that is due gets one message with its own sequence number, and every counter moves on by one |
| TimingService.CmpFollowsRank | src/timingdomain.c:101-137 | the comparison is the order on (operational, available, priority1, type, priority2) |
| TimingService.WinnerIsBest | src/timingdomain.c:844-866 | an election ends on the last service of the best rank |
| TimingService.ControlCount | src/timingdomain.c:906-929 | the control count is the number of services in control |
| TimingService.FlagCounts | src/timingdomain.c:906-929 | so are the counts of available, operational and idle services |
| ClockControl.VisitedEvery | src/timingdomain.c:751-774 | over every run a service with an interval of n seconds is visited in exactly every n-th update |
| ClockControl.OutvotedIsDismissed | src/timingdomain.c:893-904 | a service that was visited and lost the election loses control in the same update, unless a hold timer runs or the current service is released first |
| ClockControl.IdleServiceIsReleased | src/timingdomain.c:780-826 | without a hold time an inactive service is released exactly one update after the longer of its idle limits |
| ClockControl.HoldKeepsControl | src/timingdomain.c:342-403 | over every run, when the clock stops being a slave its service stays available and in control for exactly as many visits as the hold time says, at least one; without a hold time a failed clock loses control at once |
| ClockControl.HoldIsCancelled | src/timingdomain.c:371-395 | if the clock is a slave again while the hold lasts, its service steers on without a hold |
| ClockControl.UnavailableSlaveLosesControl | src/timingdomain.c:371-395 | a slave that is not available loses control at once, and the election delay starts |
| ClockControl.WithoutFailoverSteers | src/timingdomain.c:322-333 | without failover the service steers in whatever state the port is |
| ClockControl.ElectionKeepsIff | src/timingdomain.c:844-978 | an election leaves the current service alone in control exactly when no hold timer interferes, and says when two are in control |
| ClockControl.UpdateKeepsExclusiveIff | src/timingdomain.c:724-978 | the same for a whole update |
| ClockControl.HoldTimerSharesControl | src/timingdomain.c:868-904 | a holding service and a newly usable preferred one are both in control after one update |
| ClockControl.ControlIsExclusive | src/timingdomain.c:724-978 | over every run without hold times at most one service is in control, and it is the current one |
| ClockControl.CountsAtMostOne | src/timingdomain.c:906-929 | the domain never counts more than one service in control |
| ClockControl.ControllerIsBest | src/timingdomain.c:844-891 | the service in control after an update is a maximum of its election |
| ClockControl.NoFlapping | src/timingdomain.c:735-742 | after a service lost control nobody has it for as many updates as the election delay says |
| ClockControl.BestGetsControl | src/timingdomain.c:868-970 | with steady flags and activity the best usable service is in control exactly from a computed update on, at most both delays plus two |
| TimingDomain.TimingDomain.Visit | src/timingdomain.c:751-842 | in place, the visit of one service that ControlIsExclusive and IdleServiceIsReleased are about; other services stay |
| TimingDomain.TimingDomain.FindBest | src/timingdomain.c:844-866 | one loop finds the best usable and the preferred service, the last ones of the best rank |
| TimingDomain.TimingDomain.Elect | src/timingdomain.c:844-978 | in place, the release, election, dismissal, counting and acquisition that ElectionKeepsIff is about |
| TimingDomain.TimingDomain.Update | src/timingdomain.c:724-978 | in place, the update that ControlIsExclusive, NoFlapping and BestGetsControl are about |
| FilterAutomaton.VerdictIff | src/dep/outlierfilter.c:206-339 | a disabled filter accepts, one in a delay rejects, an outlier is accepted exactly without discarding, any other sample rejected exactly if it looks like a step after outliers and the credit pays |
| FilterAutomaton.NoOutlierAccepted | src/dep/outlierfilter.c:296-312 | a filter that discards outliers lets none through, over every run with resets and reconfigurations |
| FilterAutomaton.SampleBlocks | src/dep/outlierfilter.c:220-312 | outliers in a row, delay, its total and the blocking period after a sample, by what the sample is and whether it was accepted |
| FilterAutomaton.SampleCredit | src/dep/outlierfilter.c:220-335 | a delay costs as much credit as it lasts, and credit comes back up to its limit with every whole window |
| FilterAutomaton.SampleTunes | src/dep/outlierfilter.c:206-335 | autotuning counts every sample and every outlier outside a delay, and tunes with these counts at half a window |
| FilterAutomaton.ResetIsFresh | src/dep/outlierfilter.c:77-116 | a reset filter equals a new one, but for what autotuning counted and the outliers in a row |
| FilterAutomaton.RestartIff | src/dep/outlierfilter.c:188-203 | a restart is asked for exactly when the window changes, and then nothing changes; otherwise the new configuration is in force after a reset |
| FilterAutomaton.RunKeepsValid | src/dep/outlierfilter.c:206-339 | credit and delays keep their bounds over every run of samples, resets and reconfigurations |
| FilterAutomaton.RejectionsAreBounded | src/dep/outlierfilter.c:220-300 | without outliers at most a computed number of samples is rejected in a row, exactly that many if all look like a step |
| FilterAutomaton.BlockingIsBounded | src/dep/outlierfilter.c:220-300 | that number is at most the delay plus twice the credit, after every run |
| FilterAutomaton.BlockingBoundIsReached | src/dep/outlierfilter.c:245-257 | the bound is reached |
| FilterAutomaton.TuneDirection | src/dep/outlierfilter.c:136-177 | too few outliers tighten the threshold, too many loosen it, by at most one step |
| FilterAutomaton.PercentageIsNearest | src/dep/outlierfilter.c:141-146 | the score is the percentage of outliers rounded to the nearest whole number |
| FilterAutomaton.TuneIsClamped | src/dep/outlierfilter.c:136-177 | a tuning moves the threshold one step down or up, not beyond its range, and starts the counts over |
| FilterAutomaton.TuningConverges | src/dep/outlierfilter.c:136-177 | k tunings with too few or too many outliers move the threshold k steps, and no further than the end of the range |
| FilterAutomaton.StartsInTune | src/dep/outlierfilter.c:77-99 | a filter with a valid range starts with threshold and score in range |
| FilterAutomaton.StepKeepsTuneIff | src/dep/outlierfilter.c:136-339 | a step keeps them there unless a reconfiguration without restart has an invalid range or switches autotuning on with more outliers than samples counted |
| FilterAutomaton.TuningStaysInRange | src/dep/outlierfilter.c:136-339 | over every run of samples, resets and reconfigurations they are in range all the time exactly when every reconfiguration is safe when it is made |
| FilterAutomaton.ScoreAboveHundredIff | src/dep/outlierfilter.c:136-177 | a score above 100 percent is computed exactly for at least 201 outliers per 200 samples |
| FilterAutomaton.LateTuningMiscounts | src/dep/outlierfilter.c:188-203 | switching autotuning on keeps the old outlier count: a score of 300 percent after two outliers before and one after |
| OutlierFilter.OutlierFilter.Tune | src/dep/outlierfilter.c:136-177 | in place, the tuning that TuneDirection and TuningStaysInRange are about |
| OutlierFilter.OutlierFilter.Configure | src/dep/outlierfilter.c:188-203 | a new configuration resets the filter, a new capacity asks for a restart |
| OutlierFilter.OutlierFilter.BlockOrOpen | src/dep/outlierfilter.c:233-292 | blocks exactly when the credit allows it, twice the outliers to start and once to go on below the maximum delay; otherwise the blocking period ends |
| OutlierFilter.OutlierFilter.Filter | src/dep/outlierfilter.c:206-339 | in place, the verdict and the counters that RejectionsAreBounded is about |
| Exchange.FollowUpUsesOneSync | src/protocol.c:2059-2105 | an update driven by a Follow_Up takes receive time and correction from one Sync of the parent with its number |
| Exchange.EachSyncUsedOnce | src/protocol.c:1886-1955 | every offset update is measured with one Sync, and each arriving Sync is used at most once |
| Exchange.DuplicateIsMeasuredTwice | src/protocol.c:1861-1957 | without sequence checking a Sync and a Follow_Up that both arrive twice give the same offset update twice |
| Exchange.SameNumberTwice | src/protocol.c:1861-1885 | with checking, two offset updates of one number have an accepted Sync 65535 or fifty rejections between them, those of a wait before the first included |
| Exchange.UpdatesOffsetIff | src/protocol.c:1834-2112 | over every run an event updates the offset exactly when it is a one-step Sync that passes the check, or the first Follow_Up with the number of a latched Sync before any later Sync counts |
| Exchange.SecondUpdateIff | src/protocol.c:1834-2112 | a number is measured again exactly when another Sync of that number passes the check and its Follow_Up comes before any later Sync counts |
| Exchange.ThirdSyncIsLatched | src/protocol.c:1897-1928 | over every run, between the first and the last of any three two-step Sync messages that pass the check one is latched, although Follow_Ups are lost |
| Exchange.LatchedInARow | src/protocol.c:1897-1928 | with the gap closed and no Follow_Up, of any number of checked Sync messages in a row the first is latched, the next two are not, and all later ones are |
| Exchange.RemembersLast | src/protocol.c:1834-2349 | over every run mode, receive time, number and response time are those of the last message that counts for them, and without checking no errors are counted |
| Exchange.OutOfSequenceIff | src/protocol.c:1862-1868 | the casts accept greater numbers, and every number after 65535 |
| Exchange.WrapAroundRejects | src/protocol.c:1861-1885 | after a lost 65535 the first fifty messages are rejected and the next is not |
| Exchange.ResponseAnswersLatestRequest | src/protocol.c:2303-2349 | an accepted response has the number of the latest request and uses one arming event that no other one uses |
| Exchange.EachArmingAnsweredOnce | src/protocol.c:2303-2349 | no two accepted responses use the same arming event |
| Exchange.SendTimeIsOwnIff | src/protocol.c:2179-2349 | the send time of an accepted response is that of the latest request exactly when the last arming event is not older than it, and is then of the request or its own looped back copy |
| Exchange.AwaitsIff | src/protocol.c:2217-2349 | a response is awaited exactly when none was accepted since the last arming event |
| Exchange.AcceptsIffFirst | src/protocol.c:2294-2356 | a response is accepted exactly when it is the first with the expected number since the last arming event |
| Exchange.AnsweredOnceIffOneArming | src/protocol.c:2303-2349 | a request has at most one accepted response exactly when all its responses use one arming event |
| Exchange.EachRequestAnsweredOnce | src/protocol.c:2179-2349 | over every run a request has at most one accepted response exactly when no copy of it loops back between the first response to it since an arming event and another one |
| Exchange.TimedAtSendAnswersOnce | src/protocol.c:3103-3190 | so with transmit times taken at sending each request has at most one response, measured against its own send time |
| Exchange.ResponseOvertakesLoopback | src/protocol.c:2179-2259 | from every state entered, two looped back requests of which the second has two accepted responses, the first of them with the send time of the first request |
| SlaveClock.SlaveClock.Handle | src/protocol.c:1399-1420 | in place, the step of every event that the runs above consist of |
| SlaveClock.SlaveClock.HandleSync | src/protocol.c:1834-1957 | in place, the step that EachSyncUsedOnce, ThirdSyncIsLatched and WrapAroundRejects are about |
| SlaveClock.SlaveClock.HandleFollowUp | src/protocol.c:2056-2112 | in place, the step that FollowUpUsesOneSync is about; a Follow_Up with another number changes nothing |
| SlaveClock.SlaveClock.IssueDelayReq | src/protocol.c:3103-3190 | in place, the step that arms the response and moves the sequence number on, modulo 2^16 |
| SlaveClock.SlaveClock.HandleDelayResp | src/protocol.c:2294-2356 | in place, the step that ResponseAnswersLatestRequest is about; a response to another number or port changes nothing |
| Codec.HeaderLayout | src/dep/msg.c:1666-1692 | the octet of every header field, most significant octet first |
| Codec.TimestampLayout | src/dep/msg.c:1745-1759 | the octets of the timestamp |
| Codec.BodyLayout | src/dep/msg.c:1815-2085 | the octets of every field of an Announce and of a Delay_Resp |
| Codec.PackHeader | src/dep/msg.c:1665-1711 | unpacking gives back every header field that is packed; reserved octets keep what they held |
| Codec.PackSync | src/dep/msg.c:1714-1759 | header and origin timestamp of a Sync read back |
| Codec.PackAnnounce | src/dep/msg.c:1763-1843 | header and all fields of an Announce read back, whatever the buffer held |
| Codec.AnnounceHeaderFields | src/dep/msg.c:1763-1783 | type, control field, length, interval, domain, version and port of an Announce |
| Codec.PackFollowUp | src/dep/msg.c:1845-1889 | header and precise origin timestamp of a Follow_Up read back |
| Codec.PackDelayReq | src/dep/msg.c:1920-1945 | header and origin timestamp of a Delay_Req read back |
| Codec.PackDelayResp | src/dep/msg.c:1948-1988 | header, receive timestamp and requester of a Delay_Resp read back |
| Codec.FlagsReadBack | src/dep/msg.c:1800-1809 | each time property reads back from its bit of the flag octet |
| Codec.ServeDelayRequest | src/dep/msg.c:1921-1988 | over request and response the requester gets its own port identity and sequence number back |
| TimeArith.NormalFormIsUnique | src/arith.c:153-166 | every value has one normalized form |
| TimeArith.NormalFormOfValue | src/arith.c:153-166 | and it is made of the truncating quotient and remainder of the value by 10^9 |
| TimeArith.NormalizeTime | src/arith.c:153-166 | same value, normalized, no 32-bit overflow when the carry fits |
| TimeArith.AddTime | src/arith.c:168-175 | exact signed sum, also when result and arguments are the same object |
| TimeArith.SubTime | src/arith.c:177-184 | exact signed difference |
| TimeArith.NormalizedSumFits | src/arith.c:168-184 | for normalized arguments only the seconds can overflow |
| TimeArith.Div2Time | src/arith.c:212-220 | half, truncated toward zero for normalized times and off by at most half a nanosecond otherwise |
| TimeArith.GtTime | src/arith.c:243-250 | true exactly when the first value is not less than the second |
| TimeArith.AbsTime | src/arith.c:253-260 | the magnitude |
| TimeArith.IsTimeClose | src/arith.c:264-278 | true exactly when the distance is less than the given nanoseconds, for distances below 2^31 - 4 seconds |
| TimeArith.InternalSurvivesWireIff | src/arith.c:56-93 | a normalized time survives the correction field exactly below 2^47 nanoseconds in magnitude |
| TimeArith.WireLosesFractionOnly | src/arith.c:56-93 | a correction field read and written back loses less than a nanosecond, toward zero |
| TimeArith.TimestampRoundTripIff | src/arith.c:96-133 | a time survives a timestamp exactly if it is not negative and before the last 32-bit second |
| AlarmMachine.NoticesAlternate | src/dep/alarms.c:308-359 | set and cleared notices alternate over every run, starting with set |
| AlarmMachine.ClearNoticeWaits | src/dep/alarms.c:329-341 | a clear notice comes only after the minimum age without the condition |
| AlarmMachine.ClearNoticeComes | src/dep/alarms.c:329-341 | and exactly one update after it, once |
| AlarmMachine.RaisedIsSeen | src/dep/alarms.c:245-280 | the next update sees a condition raised since the last one, however often it was withdrawn |
| AlarmMachine.EventsAreReportedOnce | src/dep/alarms.c:322-326 | a one-off event is reported exactly if it was raised since the last update |
| AlarmMachine.DisabledIsQuiet | src/dep/alarms.c:245-359 | a disabled alarm is left alone and gives no notice, over every run |
| Alarms.Alarms.SetAlarmCondition | src/dep/alarms.c:245-280 | in place, the call that RaisedIsSeen is about; other alarms stay |
| Alarms.Alarms.UpdateAlarms | src/dep/alarms.c:308-359 | in place, every alarm takes the step that NoticesAlternate and ClearNoticeComes are about, and all their notices are handed on in order |

## Left out

- Unicast negotiation inside state changes and decisions: cancelling all grants can re-enter the state change.
- Grants of a slave: requests, grants received, acknowledgements sent, keepalive and the peer table.
- Signalling messages as such: their layout and failing sends; their sequence numbers are modelled.
- Management messages, configuration parsing, templates and updates of the configuration during a run.
- Leap seconds: announced, pending and smeared; Sync and Delay_Req appear with a pause flag only.
- The servo, offset and delay computation, moving averages and Peirce's test: filter samples carry the verdicts.
- Peer delay messages and the peer-to-peer delay mechanism.
- Announce intervals and receipt timers: when they expire is an input; a turn receives at most one Announce.
- The wait between failing initialisations, statistics, counters, log output, status files, SNMP and access lists.
- The NTP service: its update function can set the control flag and its release can fail.
- Two slots of a timing domain that hold the same service object: services are the elements of one array.
- Floating point: thresholds are real numbers, and the rounded tuning score is computed in integers.
- Undefined behaviour of C: shifts of negative numbers wrap, and the one conversion that negates the least 64-bit number has no result.
- ScanIgnoresOrder: is for records that agree on their common grandmasters; `ComparisonCanCycle` shows why.
- RecordsSayWhatWasHeard: is for runs that never decide on an empty table and never initialise a ring whose index is not at the front; UnpairedResetHidesNewMaster says what happens then.
- OnlyOwnDomainIsListed: is for the same runs with any-domain off.
- DataSetsAgreeWithState: is for runs that never decide on an empty table; `DecisionKeepsIff` makes the condition exact.
- PtpClock.PtpClock.M1: does not model the leap second flags, the minimum delay request interval, the parent statistics and the cleared offset and path delay.
- PtpClock.PtpClock.S1: does not model the leap second flags, the announce interval, the clock status and the UTC offset that a leap second file sets in SLAVE; DataSetsAgreeWithState is for clocks without such a file.
- AgreementOnBest: is for networks with fixed attributes and distinct identities, any-domain and UTC preference off and the best master algorithm not disabled, whose clocks have class 255 only if they are slave-only, where no port fails and no follower's timer expires; that ports of other domains never list each other is OnlyOwnDomainIsListed.
- BestKeepsLeading: is for the same networks; a follower whose timer expires starts over.
- EachSyncUsedOnce: counts the copies of a duplicated Sync as different messages; DuplicateIsMeasuredTwice and SameNumberTwice say when two are measured.
- LeaseIsBounded: is for requestable message types in the entries that a refresh covers, on clocks that refresh at all; UnrefreshedLeaseStays and LeaseEndsIff are for all grants.
- UnicastGrants.UnicastGrants.HandleAcknowledge: when a full table has no entry for the node, the code uses a null pointer; the model changes nothing.
- UnicastGrants.UnicastGrants.RefreshEntry: does not model the requests of a slave-only clock, as for Refresh.
- UnicastGrants.UnicastGrants.Refresh: does not model a slave-only clock, which requests where others cancel; the count of served slaves is left out.
- LiveLeaseIsProtected: requests come from nodes whose masked identity is not all zero.
- NoFlapping: is for an update interval of one second, the only one the code sets up.
- OnePerInterval: the granted interval exceeds the port's by at most 31 powers of two, as the 32-bit counter needs.
