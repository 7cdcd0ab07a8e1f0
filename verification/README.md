# Verified model of a gPTP stack

A Dafny model of the hardest parts of a stack for IEEE 802.1AS-2020 (gPTP), and proofs of what
they keep. `dafny verify dfyconfig.toml` verifies the whole project.

Each state machine and each data structure appears twice. A **specification** gives its state as a
value and every operation as a function: one pass of the C dispatch loop, the whole loop (with the
rank that proves that it ends), an entry point, a run of events, and a history of what was done that
no branch reads. A **class** holds the fields the daemon holds and updates them in place, with the
same loops; its methods are proved to compute exactly the specification. The theorems are about all
runs of the specification.

| files | subject |
|---|---|
| `PdelayReq`, `PdelayReqProofs`, `PdelaySequence`, `PdelayTiming`, `PdelayMeasure`, `PdelayNeighbour`, `PdelayHeard`, `PdelayReqMachine` | peer-delay requester: capability, tolerance of losses and faults, sequence ids, what it does as time passes, what it learns of a neighbour, from which messages |
| `PdelayResp`, `PdelayRespProofs`, `PdelayLink`, `PdelayExchange` | peer-delay responder, and both ends over a link that loses nothing |
| `SyncReceive`, `SyncPairing`, `SyncContent` | pairing of Sync and Follow_Up in either order, and what is handed on |
| `SyncSend` | two-step transmission with retries |
| `XTimer` | timer queue: sorted list of deadlines on the heap |
| `ClockTable`, `ClockProofs`, `ClockSelection`, `ClockEffects`, `ClockMachine` | multi-domain clock table, its shared-memory copy, and what a reader of a clock sees |
| `ActiveDomain` | choice of the active domain |
| `Servo`, `ServoProofs`, `ServoSteering`, `ServoMachine` | phase and frequency servo |
| `PerfMon`, `PerfMonDeviation`, `Expansion`, `Header`, `Arith` | running statistics, timestamp expansion, header codec, machine arithmetic |

`double` is `real`. What comes from outside (clock readings, random numbers, results of sends,
whether hardware accepts an adjustment) is an arbitrary parameter of each call. Configuration values
are constants of a run. Fixed-width counters and sequence ids wrap as in C; conversions to `int`
and C's truncating division are written out.

## What the code does, contrary to its comments or to expectation

Each entry names the lemma that says exactly when it happens and, where that is another one, the
lemma with an input.

- The requester returns 1 whenever it attempted a Pdelay_Req; the comment at
  `tsn_gptp/md_pdelay_req_sm.c:716` says 1 means sent. A call that returns 1 put nothing on the wire
  if and only if the send failed (`PdelaySequence.FailedSendReturnsOne`).
- `allowedFaults == 65535` makes the 16-bit fault counter wrap before it exceeds the limit, and no
  fault ever clears asCapable (`PdelayReqProofs.FaultToleranceNeedsHeadroom`).
- Without a network handle the loop of a requester never ends if the port is up and no fixed delay is
  configured (`PdelaySequence.NullNetworkSpins`, `PdelaySequence.NullNetworkEndsIff`).
- While BEGIN is set an enabled requester is not held back but sends an initial request in every call
  (`PdelayTiming.PortComesUp`); and the interval value 127, which is to stop the requests, lets one
  more initial request out (`PdelayTiming.SuspendedSendsOneMore`).
- The computed link delay is the delay in the neighbour's time, rate times D in whole nanoseconds,
  not D: 1000 ns too long for a neighbour 200 ppm fast and 5 ms away
  (`PdelayMeasure.FastNeighbourSeemsFarther`, `PdelayMeasure.PropTimeExact`).
- The responder composes its Follow_Up from a buffer that a refused request has overwritten
  (`PdelayRespProofs.RefusedRequestIsFollowedUp`; exactly when: `PdelayRespProofs.HandleMatchIff`,
  and over runs `PdelayRespProofs.RunMatchesIff`).
- A Sync or Follow_Up that is the very first call of a receiver is thrown away unread; after any
  call, a tick or one while the port is down, none is (`SyncPairing.ThrownAwayIffFirst`).
- The sync sender takes a transmit timestamp in any state and keeps a mock timestamp over a restart
  of the port, and the next Follow_Up reports either (`SyncSend.LateTimestampIsReused`,
  `SyncSend.StaleMockIsReported`; exactly when: `SyncSend.HandleCurrentIff`, `SyncSend.RunCurrentIff`).
- SET_CORRECTION_FIELD tests the same condition twice, so that a one-step port stays there and sends
  nothing more (`SyncSend.OneStepPortStays`, `SyncSend.CorrectionIsLeftIff`).
- `cb_xtimer_man_nearest_timeout` promises a value of at least 0 while a timer runs
  (`tsn_combase/cb_xtimer.h:117`); the conversion to `int` breaks that for distances from about
  36 minutes on (`XTimer.TimeoutIsNonNegativeIff`).
- `gptpclock_setadj` on a clock left in SLAVE_SUB by an earlier selection publishes a rate that is
  not thisClock's; `gptpclock_set_thisClock` does not publish the rate of a newly selected SLAVE_SUB
  clock, nor without set_clock_para its offset (`ClockProofs.SetAdjKeepsInvIff`,
  `ClockSelection.SelectKeepsInvIff`).
- Selecting SLAVE_MAIN drops the time that a software rate had added
  (`ClockSelection.SelectJump`).
- The scan for a stable domain stops at the first domain without a master clock
  (`ActiveDomain.UpdateIsSafeIff`).
- A manual domain number that is out of range is not refused but taken at the next change of a state
  (`ActiveDomain.OutOfRangeSwitchTakesEffectLater`, `ActiveDomain.AlwaysInRangeIff`).
- INITIALIZING leaves a stable phase side stable, and SYNC_STABLE can then be declared although no
  phase sample has been looked at since (`ServoProofs.StableWithoutASample`,
  `ServoProofs.UnearnedDeclaration`; exactly when: `ServoProofs.StableIsEarnedIff`,
  `ServoProofs.EarnedThroughoutIff`).
- The running mean divides by zero at sample 2^32 (`PerfMon.DividesByZeroIff`).
- Header fields of more than 4 bits do not survive composing (`Header.EncodeDecodeIff`).

## Model

| member | source | states |
|---|---|---|
| PdelayReqProofs.CapabilityIsJustified | tsn_gptp/md_pdelay_req_sm.c:610-707 | in every reachable state without a fixed delay, asCapable implies a measured delay within its limits, isMeasuringDelay and a valid rate ratio; lostResponses and detectedFaults stay within their limits |
| PdelayReqProofs.RatioStaysSane | tsn_gptp/md_pdelay_req_sm.c:110-151 | from the first initial send on, neighborRateRatio stays strictly between 1/3 and 3 |
| PdelayReqProofs.LostResponseTolerance | tsn_gptp/md_pdelay_req_sm.c:289-339 | without completed exchanges a capable link survives exactly allowedLostResponses entries of RESET; the next clears it and resets the ratio to 1 |
| PdelayReqProofs.FaultTolerance | tsn_gptp/md_pdelay_req_sm.c:653-706 | with only faulty exchanges a capable link survives exactly allowedFaults + 1 of them and holds the last good delay; the next clears it |
| PdelayReqProofs.FaultToleranceNeedsHeadroom | tsn_gptp/md_pdelay_req_sm.c:653-706 | a faulty exchange can never clear the capability if and only if allowedFaults is 65535 |
| PdelayReqProofs.RatioConverges | tsn_gptp/md_pdelay_req_sm.c:110-151 | n samples within d of the true rate bring the ratio within d plus the n-th halving of its first distance |
| PdelayReqProofs.SampleIsSane | tsn_gptp/md_pdelay_req_sm.c:110-151 | a sample whose spacings fall in the 50 % window lies strictly between 1/3 and 3 |
| PdelayReqProofs.RunKeepsAnchored | tsn_gptp/md_pdelay_req_sm.c:717-786 | the joint invariant behind these theorems holds after any run of events from the state it is anchored at |
| PdelayReq.PassLowersRank | tsn_gptp/md_pdelay_req_sm.c:717-786 | with a network handle every pass that continues lowers a rank, so that the dispatch loop ends from every state and flag combination |
| PdelaySequence.TransmittedIdsFollow | tsn_gptp/md_pdelay_req_sm.c:366-409 | between initial sends each transmitted id is the successor mod 2^16 of the one before, or equal to it after a lost timestamp |
| PdelaySequence.FollowingIdsChain | tsn_gptp/md_pdelay_req_sm.c:366-409 | so neighbours on the wire are linked that way |
| PdelaySequence.OneRequestPerCall | tsn_gptp/md_pdelay_req_sm.c:717-786 | one call attempts at most one transmission and returns 1 exactly when it attempted one |
| PdelaySequence.FailedSendReturnsOne | tsn_gptp/md_pdelay_req_sm.c:716-786 | a call that returns 1 has put nothing on the wire if and only if its send failed |
| PdelaySequence.NullNetworkSpins | tsn_gptp/md_pdelay_req_sm.c:237-287 | with a null network handle the loop of an enabled requester does not end after any number of passes |
| PdelaySequence.NullNetworkEndsIff | tsn_gptp/md_pdelay_req_sm.c:221-287 | with a null network handle the loop ends, from every state such a requester can be in, if and only if a fixed delay is configured or the port is down |
| PdelayTiming.LostTimestampRepeatsRequest | tsn_gptp/md_pdelay_req_sm.c:267-409 | a request whose timestamp does not come in time is sent again in the next call, with the same id; an initial one with a new random id |
| PdelayTiming.DeviceTimeStandsIn | tsn_gptp/md_pdelay_req_sm.c:385-409 | the device time of the send stands in for a missing timestamp once, and not before the time is over |
| PdelayTiming.IntervalSendsNextRequest | tsn_gptp/md_pdelay_req_sm.c:709-715 | after an exchange the next request goes out when the interval is over, and not before |
| PdelayTiming.MissingResponseSendsNextRequest | tsn_gptp/md_pdelay_req_sm.c:289-409 | a missing answer or Follow_Up counts as one lost response and the next request goes out; past the allowed losses the link is not measured and not capable |
| PdelayTiming.SecondAnswerBreaksOff | tsn_gptp/md_pdelay_req_sm.c:527-560 | a second answer to the request breaks the exchange off and counts; with the AVnu rule as many as are allowed to be lost clear the capability |
| PdelayTiming.AvnuCeasesForFiveMinutes | tsn_gptp/md_pdelay_req_sm.c:342-364 | then no request goes out for five minutes |
| PdelayTiming.PortComesUp | tsn_gptp/md_pdelay_req_sm.c:190-265 | a port that comes up sends one initial request and starts afresh; so does an enabled one in every call while BEGIN is set |
| PdelayTiming.PortIsDown | tsn_gptp/md_pdelay_req_sm.c:190-235 | a port that is down sends nothing and keeps what it knows of the link |
| PdelayTiming.SuspendedSendsOneMore | tsn_gptp/md_pdelay_req_sm.c:190-202 | with the interval value 127 one more initial request goes out and then none |
| PdelayMeasure.LinearClockCounts | tsn_gptp/md_pdelay_req_sm.c:110-151 | two stamps of a linear clock that are e off make an interval 2e off |
| PdelayMeasure.SampleMeasuresRate | tsn_gptp/md_pdelay_req_sm.c:110-151 | the sample is the neighbour's rate, up to the stamp error over the spacing, and exactly with ideal stamps |
| PdelayMeasure.HalfRoundTripAccuracy | tsn_gptp/md_pdelay_req_sm.c:153-188 | before the cut-off the result is within 1 ns, half the stamp error and half the round trip times the ratio error |
| PdelayMeasure.PropTimeAccuracy | tsn_gptp/md_pdelay_req_sm.c:153-188 | computePropTime is that accurate while delay and errors stay below 10 ms |
| PdelayMeasure.LongDelaysReadZero | tsn_gptp/md_pdelay_req_sm.c:153-188 | a delay beyond the cut-off is reported as 0 |
| PdelayMeasure.PropTimeExact | tsn_gptp/md_pdelay_req_sm.c:153-188 | with ideal stamps and the right ratio the result is exactly the delay in whole nanoseconds of the neighbour's clock, or 0 beyond the cut-off; so it is near D if and only if that number is |
| PdelayMeasure.FastNeighbourSeemsFarther | tsn_gptp/md_pdelay_req_sm.c:153-188 | an exchange whose result is 1000 ns longer than D |
| PdelayNeighbour.CompleteMeasures | tsn_gptp/md_pdelay_req_sm.c:610-639 | a completed exchange with a linear neighbour and usable spacings halves the distance of the ratio to its rate, and computes its delay to within 1 ns, the stamp error and half the round trip times the ratio error |
| PdelayNeighbour.NeighbourRateIsLearned | tsn_gptp/md_pdelay_req_sm.c:110-151 | over all runs whose exchanges are with one linear neighbour: k of them bring the ratio from anywhere to the rate within the k-th halving of its distance and the stamp error, and with ideal stamps exactly to the k-th halving |
| PdelayNeighbour.NeighbourDelayIsLearned | tsn_gptp/md_pdelay_req_sm.c:610-707 | in every reachable state the delay of a capable link is the one computed in the latest good exchange, and if that was with a linear neighbour it is accurate |
| PdelayNeighbour.RunKeepsFollows | tsn_gptp/md_pdelay_req_sm.c:717-786 | the invariant behind both, from any state whose previous stamps come from the neighbour |
| PdelayNeighbour.CapableAfterIff | tsn_gptp/md_pdelay_req_sm.c:640-707 | after an exchange the link is capable if and only if the delay is inside both limits with another clock and a known ratio, or it was capable, faults are still allowed and the exchange was not merely unrated; what happens to the faults and the delay in each case |
| PdelayNeighbour.FixedDelayIsInForce | tsn_gptp/md_pdelay_req_sm.c:204-235 | a configured fixed delay is in force after the first call, whether the port is up or down |
| PdelayHeard.StampsAreHeard | tsn_gptp/md_pdelay_req_sm.c:824-895 | in every run from power-up a completed exchange is judged on t2 and t4 of the latest Pdelay_Resp event, t3 of the latest Follow_Up event, and t1 of the latest transmit timestamp taken or the device time that stood in; its Follow_Up has the id of the request in flight, a known sdo and a foreign clock, and the Resp in hand when waiting for it began named this port |
| PdelayHeard.RunHeard | tsn_gptp/md_pdelay_req_sm.c:824-895 | the invariant behind it: what the machine stores is what a listener to the events has heard |
| PdelayHeard.DelayLearnedFromMessages | tsn_gptp/md_pdelay_req_sm.c:610-707 | in every reachable state the delay of a capable link was computed from what had been heard in the latest call with a good exchange, and if those messages came from a linear neighbour it is accurate |
| PdelayHeard.RateLearnedFromMessages | tsn_gptp/md_pdelay_req_sm.c:110-151 | the convergence of the ratio, with the neighbour assumed only of the messages and timestamps heard |
| PdelayReqMachine.PdelayReqSm.Sm | tsn_gptp/md_pdelay_req_sm.c:717-786 | the dispatch loop over the fields ends and leaves exactly the state and result of the specification |
| PdelayReqMachine.PdelayReqSm.Pass | tsn_gptp/md_pdelay_req_sm.c:728-784 | one pass over the fields is one pass of the specification, in all nine states |
| PdelayReqMachine.PdelayReqSm.CompleteAction | tsn_gptp/md_pdelay_req_sm.c:610-707 | the completion of an exchange, field by field |
| PdelayReqMachine.PdelayReqSm.UpdateRateRatio | tsn_gptp/md_pdelay_req_sm.c:110-151 | the rate ratio is averaged only with a usable sample |
| PdelayReqMachine.PdelayReqSm.ResetAction | tsn_gptp/md_pdelay_req_sm.c:289-339 | the counting of lost responses and the clearing of the link |
| PdelayReqMachine.PdelayReqSm.SendAction | tsn_gptp/md_pdelay_req_sm.c:366-383 | the send: id, timer, mock timestamp, and the roll-back when it fails |
| PdelayReqMachine.PdelayReqSm.InitialSendAction | tsn_gptp/md_pdelay_req_sm.c:237-265 | the initial send, with a random id and a cleared link |
| PdelayReqMachine.PdelayReqSm.WaitRespNext | tsn_gptp/md_pdelay_req_sm.c:418-517 | the checks on a Pdelay_Resp and the next state |
| PdelayReqMachine.PdelayReqSm.WaitFollowUpNext | tsn_gptp/md_pdelay_req_sm.c:527-608 | the checks on a Follow_Up and the next state |
| PdelayReqMachine.PdelayReqSm.Tick | tsn_gptp/md_pdelay_req_sm.c:717-786 | the timer entry point is the tick event of the specification |
| PdelayReqMachine.PdelayReqSm.TxTimestamp | tsn_gptp/md_pdelay_req_sm.c:824-851 | a transmit timestamp is taken only in the two sending states and for the present id |
| PdelayReqMachine.PdelayReqSm.RecvResp | tsn_gptp/md_pdelay_req_sm.c:853-881 | the Pdelay_Resp entry point stores its receipt time as t2 and its arrival as t4 and runs the machine |
| PdelayReqMachine.PdelayReqSm.RecvFollowUp | tsn_gptp/md_pdelay_req_sm.c:883-895 | the Pdelay_Resp_Follow_Up entry point stores its origin time as t3 and runs the machine |
| PdelayReqMachine.PdelayReqSm.DeviceDown | tsn_gptp/gptpman.c:302-310 | of the requester's record, a device that goes down takes away just the capability |
| PdelayResp.PassLowersRank | tsn_gptp/md_pdelay_resp_sm.c:277-325 | the responder's dispatch loop ends from every state |
| PdelayResp.OneResponsePerCall | tsn_gptp/md_pdelay_resp_sm.c:277-325 | one call sends at most one Pdelay_Resp and returns 1 exactly then; it never changes the expected id, except to accept any |
| PdelayResp.PdelayRespSm.Sm | tsn_gptp/md_pdelay_resp_sm.c:277-325 | the dispatch loop over the fields computes the specification |
| PdelayResp.PdelayRespSm.RecvReq | tsn_gptp/md_pdelay_resp_sm.c:360-399 | a request is stored first and checked for continuity afterwards |
| PdelayResp.PdelayRespSm.TxTimestamp | tsn_gptp/md_pdelay_resp_sm.c:401-425 | a transmit timestamp is taken only for the request being answered |
| PdelayResp.PdelayRespSm.SentRespNext | tsn_gptp/md_pdelay_resp_sm.c:253-275 | waiting for the timestamp, the mock timestamp, and sending again |
| PdelayRespProofs.FollowUpAnswersItsResponse | tsn_gptp/md_pdelay_resp_sm.c:215-232 | if no different request arrives while a Follow_Up is owed, every Follow_Up answers the request its Pdelay_Resp answered |
| PdelayRespProofs.HandleMatchIff | tsn_gptp/md_pdelay_resp_sm.c:215-275 | one call, from any state: its Follow_Up answers the request that the Pdelay_Resp answered, if and only if none is sent or the buffer still holds that request |
| PdelayRespProofs.RunMatchesIff | tsn_gptp/md_pdelay_resp_sm.c:215-275 | the same over all runs, for the whole request: sequence id and requesting port |
| PdelayRespProofs.RefusedRequestIsFollowedUp | tsn_gptp/md_pdelay_resp_sm.c:360-399 | a refused request is what a repeated Follow_Up answers |
| PdelayRespProofs.MessagesBearTheirTimes | tsn_gptp/md_pdelay_resp_sm.c:111-182 | in every run from power-up each Pdelay_Resp bears the arrival time of the latest accepted request event, and each Follow_Up the latest timestamp taken of a Pdelay_Resp, or the device time that stood in |
| PdelayRespProofs.LostTimestampRepeatsResponse | tsn_gptp/md_pdelay_resp_sm.c:253-275 | a Pdelay_Resp whose timestamp does not come in time is sent again in the next call |
| PdelayRespProofs.DeviceTimeStandsIn | tsn_gptp/md_pdelay_resp_sm.c:253-275 | a device time stands in for it once, and not before the time is over |
| PdelayLink.ResponderRefusesOnlyRepeats | tsn_gptp/md_pdelay_resp_sm.c:380-390 | requester and responder over a FIFO: refusals answer only an immediate repeat or an initial send, and never come twice in a row |
| PdelayLink.RunKeepsInv | tsn_gptp/md_pdelay_resp_sm.c:360-399 | the joint invariant of both ends and the wire holds after any run |
| PdelayLink.AcceptedIsRecorded | tsn_gptp/md_pdelay_resp_sm.c:380-393 | the verdicts in those runs are the ones the responder itself recorded |
| PdelayLink.EnabledResponderWaitsForAnyId | tsn_gptp/md_pdelay_resp_sm.c:198-213 | one call of an enabled responder brings it to the start of such runs |
| PdelayExchange.ExchangeCompletes | tsn_gptp/md_pdelay_req_sm.c:824-895 | an exchange over a sound link completes at both ends: the responder answers and follows up, and the requester judges it on the time its request left, the times at which the responder took it and answered it, and the time the answer came back |
| PdelayExchange.RequestIsAnswered | tsn_gptp/md_pdelay_resp_sm.c:234-251 | a request in sequence is answered in the call that brings it, with its arrival time |
| PdelayExchange.TimestampIsFollowedUp | tsn_gptp/md_pdelay_resp_sm.c:215-232 | and followed up in the call that brings the timestamp |
| PdelayExchange.EarlyFollowUpIsKept | tsn_gptp/md_pdelay_req_sm.c:418-517 | a Follow_Up before its Pdelay_Resp is kept if and only if it has the id of the request |
| PdelayExchange.ResponseCompletes | tsn_gptp/md_pdelay_req_sm.c:418-608 | and then the Pdelay_Resp completes the exchange on the same four times |
| SyncReceive.PassLowersRank | tsn_gptp/md_sync_receive_sm.c:360-395 | the receiver's dispatch loop ends from every state |
| SyncReceive.SyncReceiveSm.Sm | tsn_gptp/md_sync_receive_sm.c:360-395 | the dispatch loop over the fields computes the specification |
| SyncReceive.SyncReceiveSm.WaitFollowUpNext | tsn_gptp/md_sync_receive_sm.c:261-294 | which Follow_Up is taken, which dropped, and when waiting ends |
| SyncReceive.SyncReceiveSm.WaitSyncNext | tsn_gptp/md_sync_receive_sm.c:319-358 | what the next Sync leads to |
| SyncReceive.SyncReceiveSm.Emit | tsn_gptp/md_sync_receive_sm.c:80-189 | what the emitted structure takes from the two messages: correction fields added, origin time of the Follow_Up; and the flags cleared |
| SyncReceive.SyncReceiveSm.RecvSync | tsn_gptp/md_sync_receive_sm.c:422-438 | the Sync entry point |
| SyncReceive.SyncReceiveSm.RecvFollowUp | tsn_gptp/md_sync_receive_sm.c:440-449 | the Follow_Up entry point |
| SyncPairing.EmissionsAreSound | tsn_gptp/md_sync_receive_sm.c:191-395 | over every event sequence each emission pairs equal ids, and no received message is used twice |
| SyncPairing.RunRefinesPairing | tsn_gptp/md_sync_receive_sm.c:191-395 | in every run of a two-step port, going up and down and receiving Syncs of either kind, the emissions are exactly, and in order, those of a machine that holds nothing, one early Follow_Up, or one Sync with a deadline |
| SyncPairing.InOrderPairEmitsOnce | tsn_gptp/md_sync_receive_sm.c:237-317 | Sync and then its Follow_Up, with any ticks and other Follow_Ups before the deadline in between, yields exactly one emission |
| SyncPairing.EarlyFollowUpHonouredIff | tsn_gptp/md_sync_receive_sm.c:261-294 | Follow_Up and then its Sync, with any ticks in between, yields exactly one emission if the port is not waiting for another Follow_Up, and none if it is |
| SyncPairing.FirstCallBringsToRest | tsn_gptp/md_sync_receive_sm.c:191-235 | the first call, of a port that is up or down, brings it to rest with nothing in hand |
| SyncPairing.RunFromPowerUp | tsn_gptp/md_sync_receive_sm.c:191-395 | from power-up, whatever the first call is, the emissions are those of the simple machine over all calls after it |
| SyncPairing.FirstPairIsEmitted | tsn_gptp/md_sync_receive_sm.c:237-317 | so a Sync and its Follow_Up after one call of any kind are emitted |
| SyncPairing.ThrownAwayIffFirst | tsn_gptp/md_sync_receive_sm.c:207-216 | over all runs of a two-step port: DISCARD clears a message of the enabled port before it is looked at if and only if no call came before it |
| SyncContent.EmissionsAreMadeOfMessages | tsn_gptp/md_sync_receive_sm.c:80-160 | in every run, one-step or two-step, each emission is made of received messages by their numbers in the run: a two-step Sync and a Follow_Up of the same id, the sum of both 64-bit corrections split into ns and a 16-bit fraction, the origin time of the Follow_Up, the arrival time of that Sync; or a one-step Sync alone |
| SyncContent.OneStepSyncIsEmitted | tsn_gptp/md_sync_receive_sm.c:218-358 | a one-step Sync is handed on in the call that brings it, even while a Follow_Up is awaited |
| SyncContent.AsymmetryEmitsNothing | tsn_gptp/md_sync_receive_sm.c:218-358 | in asymmetry measurement mode nothing is emitted over any run of a port that is not waiting for a Follow_Up |
| SyncContent.AsymmetryWaitsOn | tsn_gptp/md_sync_receive_sm.c:261-294 | one that is waiting gives up exactly when the deadline has passed outside that mode |
| SyncSend.PassLowersRank | tsn_gptp/md_sync_send_sm.c:400-453 | the sender's dispatch loop ends from every state |
| SyncSend.TransmissionsInStep | tsn_gptp/md_sync_send_sm.c:313-361 | under any failures and losses a two-step port transmits Sync(n) one or more times, Follow_Up(n), then the same for n + 1 |
| SyncSend.SyncsAndFollowUpsAlternate | tsn_gptp/md_sync_send_sm.c:313-361 | the same for any two neighbours in the trace while the port stays enabled |
| SyncSend.OneSyncPerCall | tsn_gptp/md_sync_send_sm.c:400-453 | one call sends at most one two-step Sync and returns 1 exactly then |
| SyncSend.HandleCurrentIff | tsn_gptp/md_sync_send_sm.c:323-350 | one call, from any state and with any driver: its Follow_Up reports the timestamp of the latest transmission of its Sync, if and only if none is sent or that timestamp is the one in hand |
| SyncSend.RunCurrentIff | tsn_gptp/md_sync_send_sm.c:323-350 | the same over all runs, with mock timestamps, retransmissions and late timestamps |
| SyncSend.FollowUpStampsAreCurrent | tsn_gptp/md_sync_send_sm.c:493-511 | a driver that reports a timestamp only for the latest Sync and only while that waits for one never meets the condition |
| SyncSend.LateTimestampIsReused | tsn_gptp/md_sync_send_sm.c:493-511 | a timestamp that comes after the Follow_Up is what the next Follow_Up reports |
| SyncSend.StaleMockIsReported | tsn_gptp/md_sync_send_sm.c:292-340 | a mock timestamp that survives a restart of the port is what the next Follow_Up reports |
| SyncSend.LostTimestampRepeatsSync | tsn_gptp/md_sync_send_sm.c:323-340 | an enabled port without a timestamp waits and, when the time is over, sends the same Sync again in that call |
| SyncSend.TimestampLeadsToFollowUp | tsn_gptp/md_sync_send_sm.c:323-361 | a timestamp leads to the Follow_Up of that Sync in the same call, with that timestamp, and then the id moves on |
| SyncSend.DeviceTimeStandsIn | tsn_gptp/md_sync_send_sm.c:323-340 | a device time stands in for it at once, and once |
| SyncSend.FailedFollowUpIsRepeated | tsn_gptp/md_sync_send_sm.c:342-350 | a Follow_Up that cannot be sent is tried again in the next call with the same id |
| SyncSend.MdSyncIsSent | tsn_gptp/md_sync_send_sm.c:302-377 | an MDSyncSend is transmitted in the call that brings it; the id of a one-step Sync moves on if and only if the send returned 0 |
| SyncSend.RestartForgets | tsn_gptp/md_sync_send_sm.c:276-300 | a port that is not enabled forgets what it was to send |
| SyncSend.CorrectionIsLeftIff | tsn_gptp/md_sync_send_sm.c:379-398 | an enabled port leaves SET_CORRECTION_FIELD if and only if an MDSyncSend waits and the port has become two-step |
| SyncSend.OneStepPortStays | tsn_gptp/md_sync_send_sm.c:379-398 | over all runs a port that stays one-step stays there and sends nothing |
| SyncSend.SyncSendSm.Sm | tsn_gptp/md_sync_send_sm.c:400-453 | the dispatch loop over the fields computes the specification |
| SyncSend.SyncSendSm.SendSyncNext | tsn_gptp/md_sync_send_sm.c:323-340 | timestamp, mock timestamp, or sending again after the timeout |
| SyncSend.SyncSendSm.SendFollowUpAction | tsn_gptp/md_sync_send_sm.c:342-350 | the id advances only when the Follow_Up went out |
| SyncSend.SyncSendSm.SendOneStepAction | tsn_gptp/md_sync_send_sm.c:363-371 | the one-step send and when it advances the id |
| SyncSend.SyncSendSm.TakeMdSync | tsn_gptp/md_sync_send_sm.c:483-491 | the MDSyncSend entry point |
| SyncSend.SyncSendSm.TakeTimestamp | tsn_gptp/md_sync_send_sm.c:493-511 | the timestamp entry point |
| XTimer.SleepNeverOverruns | tsn_combase/cb_xtimer.c:139-150 | sleeping the returned microseconds never passes the deadline |
| XTimer.SleepNeverFallsShort | tsn_combase/cb_xtimer.c:139-150 | and below 2^31 microseconds it ends less than a microsecond before the deadline |
| XTimer.TimeoutIsNonNegativeIff | tsn_combase/cb_xtimer.c:139-150 | exactly when the promise of a non-negative timeout is kept |
| XTimer.TimerMan.Schedule | tsn_combase/cb_xtimer.c:104-137 | the calls it makes are exactly the timers that are due at the sampled time, each once, in the order of their deadlines; it leaves the others alone and the list sorted, without duplicates, with is_running exactly for its members |
| XTimer.TimerMan.TakeExpired | tsn_combase/cb_xtimer.c:112-118 | splits off exactly the due prefix of the list |
| XTimer.TimerMan.FireAll | tsn_combase/cb_xtimer.c:120-134 | the timers taken off are called back once each, in their order, whatever the callback of each does to its timer |
| XTimer.TimerMan.Fire | tsn_combase/cb_xtimer.c:121-133 | one firing: the callback, recorded as such, and the re-arming of a periodic timer |
| XTimer.TimerMan.EventLoop | tsn_combase/cb_xtimer.c:104-137 | after n calls a periodic timer's deadline is the first plus n periods, however late each pass is |
| XTimer.TimerMan.AddTimerAbstime | tsn_combase/cb_xtimer.c:234-271 | inserts in order unless the timer is running |
| XTimer.TimerMan.Start | tsn_combase/cb_xtimer.c:273-295 | the new deadline, from the old one for a periodic timer and otherwise from now |
| XTimer.TimerMan.Stop | tsn_combase/cb_xtimer.c:297-306 | removes just this timer and ends its period |
| XTimer.TimerMan.Delete | tsn_combase/cb_xtimer.c:214-223 | removes just this timer |
| XTimer.TimerMan.NearestTimeout | tsn_combase/cb_xtimer.c:139-150 | -2 for an empty list, else the distance to its head |
| ClockSelection.PublishedTimeAgrees | tsn_gptp/gptpmasterclock.c:256-279 | after any guarded run from an empty table, for every domain with a thisClock and every hardware time, a reader of shared memory is within 1 ns of the daemon's thisClock time plus master offset, and equal to it when the rate is 0 |
| ClockSelection.ApplyKeepsInvIff | tsn_gptp/gptpclock.c:708-809 | every operation keeps the invariant of the published copy exactly when its guard holds; only a rate change and a selection have a guard |
| ClockSelection.RunKeepsInv | tsn_gptp/gptpclock.c:408-453 | the invariant over all runs: offsets add up, rate and start agree in SLAVE_SUB and are zero in SLAVE_MAIN, unique keys, one SLAVE_MAIN per clock |
| ClockSelection.SelectKeepsInvIff | tsn_gptp/gptpclock.c:1129-1205 | a selection keeps it if and only if: in SLAVE_MAIN, the clock has no offset or set_clock_para moves it; in SLAVE_SUB, the domain already publishes the clock's rate and, without set_clock_para, the sum of the offsets |
| ClockSelection.StartUpIsGuarded | tsn_gptp/gptpman.c:996-1009 | the daemon's start-up of a domain meets every guard, in a table that may already serve other domains |
| ClockSelection.ReselectKeepsInv | tsn_gptp/gptpclock.c:1129-1205 | selecting the present thisClock again keeps it, except without set_clock_para when a clock with an offset goes to SLAVE_MAIN |
| ClockSelection.SelectConservesTotal | tsn_gptp/gptpclock.c:1166-1204 | hardware time plus thisClock offset plus master offset is conserved in both branches, for any rate, up to the time that passes |
| ClockSelection.SelectJump | tsn_gptp/gptpclock.c:1166-1204 | the domain's time jumps by exactly the change of the software rate's contribution: nothing in SLAVE_SUB, what the rate had added in SLAVE_MAIN |
| ClockSelection.SetThisClockOutcome | tsn_gptp/gptpclock.c:1129-1205 | the whole state after a successful selection, in each branch |
| ClockSelection.OutcomeOneMain | tsn_gptp/gptpclock.c:863-890 | at most one domain holds a clock in SLAVE_MAIN |
| ClockSelection.AddClockKeepsInv | tsn_gptp/gptpclock.c:466-531 | adding a clock never disturbs what is published |
| ClockProofs.ReaderAgrees | tsn_gptp/gptpmasterclock.c:256-279 | a reader of a matching copy is within 1 ns of the daemon |
| ClockProofs.SetAdjKeepsInvIff | tsn_gptp/gptpclock.c:748-809 | a rate change keeps the copy right if and only if the clock is not in SLAVE_SUB, is thisClock, its domain has none, or thisClock has that rate already |
| ClockProofs.StaleAdjustIff | tsn_gptp/gptpclock.c:770-796 | what a rate change of a clock left in SLAVE_SUB does to the copy |
| ClockProofs.AdjustDoesNotJump | tsn_gptp/gptpclock.c:770-796 | a rate change in SLAVE_SUB moves the clock by no more than the hardware moved during the call, and by nothing when it stood still |
| ClockProofs.SetOffset64KeepsInv | tsn_gptp/gptpclock.c:717-746 | setting an offset keeps the copy right, in every mode |
| ClockProofs.SetTsKeepsInv | tsn_gptp/gptpclock.c:342-376 | setting the time keeps the copy right, in every mode |
| ClockEffects.OffsetIsSet | tsn_gptp/gptpclock.c:717-746 | after a set of offset o the record holds o, or in SLAVE_MAIN 0 with the hardware moved on by o; its other fields, the other records and the other domains are as they were |
| ClockEffects.LastOffsetCounts | tsn_gptp/gptpclock.c:717-746 | outside SLAVE_MAIN only the last of several offsets counts, in the table and in the copy; in SLAVE_MAIN they add up |
| ClockEffects.SetTimeReads | tsn_gptp/gptpclock.c:342-376 | after a set of time ts the clock reads ts plus the time since the first reading in the call, in every mode |
| ClockEffects.ClockRunsAtRate | tsn_gptp/gptpclock.c:408-427 | two readings of a SLAVE_SUB clock e ns apart differ by e + rate * e, within 1 ns (2 ns if the hardware was set back behind the last adjustment); in the other modes by e |
| ClockEffects.RateIsSet | tsn_gptp/gptpclock.c:748-809 | when a rate change succeeds, and what is then in force in the hardware, the record and the copy |
| ClockEffects.AdjustedClockRuns | tsn_gptp/gptpclock.c:748-809 | a SLAVE_SUB clock adjusted by ppb then counts e * (1 + ppb / 10^9) in e ns, within 1 ns |
| ClockEffects.SelectionKeepsFrequency | tsn_gptp/gptpclock.c:1166-1190 | a clock that goes from SLAVE_SUB to SLAVE_MAIN hands its frequency adjustment over to the hardware in full |
| ClockEffects.AddedClockReads | tsn_gptp/gptpclock.c:466-531 | an added clock is found, is a MASTER and reads its hardware; refused if and only if the indices are taken or there is no device |
| ClockMachine.GptpClock.GetClockod | tsn_gptp/gptpclock.c:394-406 | the loop finds the first record with both indices |
| ClockMachine.GptpClock.GetTsOd | tsn_gptp/gptpclock.c:408-427 | reads a clock as the specification does |
| ClockMachine.GptpClock.GetDomainTs64 | tsn_gptp/gptpmasterclock.c:256-279 | reads the published copy as the specification does |
| ClockMachine.GptpClock.SetOffsetOd | tsn_gptp/gptpclock.c:429-453 | publishes the combined offset for the right records only |
| ClockMachine.GptpClock.SetTsOffsetOd | tsn_gptp/gptpclock.c:342-365 | steps the record or the hardware |
| ClockMachine.GptpClock.SetTs64 | tsn_gptp/gptpclock.c:708-715 | the new table and result, or -1 for an unknown clock |
| ClockMachine.GptpClock.SetOffset64 | tsn_gptp/gptpclock.c:717-746 | the new table and result, whose meaning OffsetIsSet states, or -1 for an unknown clock |
| ClockMachine.GptpClock.SetAdj | tsn_gptp/gptpclock.c:748-809 | the new table and result for each mode, and the refusals |
| ClockMachine.GptpClock.ModeSlaveMain | tsn_gptp/gptpclock.c:863-890 | the scan over other domains and the change of mode |
| ClockMachine.GptpClock.SetThisClock | tsn_gptp/gptpclock.c:1129-1205 | the selection over the fields computes the specification |
| ClockMachine.GptpClock.AddClock | tsn_gptp/gptpclock.c:466-531 | a new record, or -1 for a duplicate or an unreachable device |
| ActiveDomain.ActiveIsStable | tsn_gptp/gptpclock.c:1082-1104 | with automatic switching and a master clock in every domain, after any run the active domain is stable whenever some domain is |
| ActiveDomain.UpdateIsSafeIff | tsn_gptp/gptpclock.c:965-1003 | the exact condition when master clocks are missing |
| ActiveDomain.UpdateChooses | tsn_gptp/gptpclock.c:965-1003 | which domain an update chooses in each mode |
| ActiveDomain.StableIsNotDisplaced | tsn_gptp/gptpclock.c:982-991 | in mode 1 a stable active domain stays active over any run that leaves it stable |
| ActiveDomain.ChangeGoesToLowest | tsn_gptp/gptpclock.c:993-998 | in the other modes every change of a state leads to the lowest stable domain |
| ActiveDomain.ScanFinds | tsn_gptp/gptpclock.c:993-998 | the scan finds the first stable domain unless a domain without master clock comes before it |
| ActiveDomain.OutOfRangeSwitchTakesEffectLater | tsn_gptp/gptpclock.c:1028-1035 | an out-of-range manual domain becomes active at the next change of a state |
| ActiveDomain.InRangeIff | tsn_gptp/gptpclock.c:965-1035 | one operation takes the active domain out of range if and only if it changes a state while such a number is in force |
| ActiveDomain.AlwaysInRangeIff | tsn_gptp/gptpclock.c:965-1104 | the same throughout any run of state changes and manual switches |
| ActiveDomain.DomainSelector.UpdateActive | tsn_gptp/gptpclock.c:965-1003 | the update with its loop computes the specification |
| ActiveDomain.DomainSelector.ChangeState | tsn_gptp/gptpclock.c:1082-1104 | a state change updates the choice |
| ActiveDomain.DomainSelector.ActiveDomainSwitch | tsn_gptp/gptpclock.c:1028-1035 | the manual switch |
| Servo.FilterBounds | tsn_gptp/clock_master_sync_receive_sm.c:170-174 | the integer filter is within alpha - 1 ns of the exact weighted average and never beyond the larger input |
| Servo.FilterContracts | tsn_gptp/clock_master_sync_receive_sm.c:170-174 | one step towards a constant target |
| ServoProofs.PhaseSettles | tsn_gptp/clock_master_sync_receive_sm.c:117-245 | so does the offset of the phase side, with all its jumps and changes of grandmaster, but for two samples, when phase steps are taken in software |
| ServoProofs.OffsetsStayWithinSamples | tsn_gptp/clock_master_sync_receive_sm.c:117-245 | over all runs no offset kept or set exceeds the largest time difference seen |
| ServoProofs.AdjustmentsAreLimited | tsn_gptp/clock_master_sync_receive_sm.c:343-366 | over all runs gmadjppb and every adjustment made stay within the configured limit |
| ServoProofs.DeclarationsAreEarned | tsn_gptp/clock_master_sync_receive_sm.c:441-448 | in every run that does not enter INITIALIZING with a stable phase side, every SYNC_STABLE came after three consecutive in-threshold samples on each side with no reset and nothing beyond the second threshold since; in every run, the same but for such resets of the phase side |
| ServoProofs.DeclaredExactlyWhenSettled | tsn_gptp/clock_master_sync_receive_sm.c:441-448 | and it is declared exactly when both histories say so, in the same two readings |
| ServoProofs.StableIsEarnedIff | tsn_gptp/clock_master_sync_receive_sm.c:380-399 | one call leaves a stable phase side with a settled history if and only if it does not enter INITIALIZING while that side is stable |
| ServoProofs.EarnedThroughoutIff | tsn_gptp/clock_master_sync_receive_sm.c:380-399 | the same throughout any run |
| ServoProofs.StableWithoutASample | tsn_gptp/clock_master_sync_receive_sm.c:270-278 | with the quick algorithm, INITIALIZING and three source times declare SYNC_STABLE without one phase sample |
| ServoProofs.UnearnedDeclaration | tsn_gptp/clock_master_sync_receive_sm.c:441-448 | a run from power-up that does so |
| ServoProofs.SettledMeans | tsn_gptp/clock_master_sync_receive_sm.c:90-94 | three consecutive samples inside the first threshold and none beyond the second since: the recursive and the direct reading of that agree |
| ServoProofs.RunKeeps | tsn_gptp/clock_master_sync_receive_sm.c:247-370 | stability flags and counters agree with the histories, in the loose reading after every run and in the strict one after every guarded run |
| ServoSteering.UpdateMeasures | tsn_gptp/clock_master_sync_receive_sm.c:299-366 | one update moves the adjustment by 10^9 * (alpha * dmts/dlts + (1 - alpha) * mrate - 1) and the compensation, within 1 ppb and as far as the limit allows, or leaves it if they do not exceed the update threshold |
| ServoSteering.SteersTowardsMaster | tsn_gptp/clock_master_sync_receive_sm.c:247-370 | over all runs that begin with INITIALIZING, with phase steps: a new Sync never lowers the adjustment while the master has counted more than the clock since the last one, and never raises it while it has counted less |
| ServoSteering.AdjustmentIsTold | tsn_gptp/clock_master_sync_receive_sm.c:343-366 | over all runs the rate the servo keeps is the one it last gave to the clock |
| ServoSteering.PhaseSampleEffect | tsn_gptp/clock_master_sync_receive_sm.c:117-245 | a phase sample does nothing, or sets the weighted average of the sample and the offset before, or hands the difference to that average to the frequency side |
| ServoSteering.EarlySampleChangesNothing | tsn_gptp/clock_master_sync_receive_sm.c:149-160 | a sample before the compute interval is over changes nothing at all |
| ServoSteering.JumpNeedsTwoSamples | tsn_gptp/clock_master_sync_receive_sm.c:125-147 | with a stable phase and the same grandmaster one sample off by 1 ms or more is dropped and the one after it taken as it is |
| ServoSteering.OtherJumpsAreTaken | tsn_gptp/clock_master_sync_receive_sm.c:125-147 | otherwise a jump is taken at once |
| ServoSteering.StableRemembersMaster | tsn_gptp/clock_master_sync_receive_sm.c:177-184 | the grandmaster remembered is the one under which the phase became stable |
| ServoSteering.SampleCountsIff | tsn_gptp/clock_master_sync_receive_sm.c:281-297 | exactly which Syncs reach the rate filter, and how skips are used up |
| ServoSteering.FirstSyncAfterGapIsSkipped | tsn_gptp/clock_master_sync_receive_sm.c:261-269 | after a call without a new Sync the next Sync leaves the frequency alone |
| ServoSteering.WeightFollowsStability | tsn_gptp/clock_master_sync_receive_sm.c:303-341 | the weight of a rate sample when stability is gained, lost or kept |
| ServoSteering.InitializingForgets | tsn_gptp/clock_master_sync_receive_sm.c:380-399 | what INITIALIZING forgets and what it keeps |
| ServoMachine.ClockMasterSyncReceive.SetPhaseOffsetGM | tsn_gptp/clock_master_sync_receive_sm.c:117-245 | the phase side over the fields computes the specification |
| ServoMachine.ClockMasterSyncReceive.TrackPhase | tsn_gptp/clock_master_sync_receive_sm.c:161-211 | the switch over the four offset states |
| ServoMachine.ClockMasterSyncReceive.ComputeGmRateRatio | tsn_gptp/clock_master_sync_receive_sm.c:247-370 | phase and frequency side over the fields; which way they steer is stated by UpdateMeasures and SteersTowardsMaster |
| ServoMachine.ClockMasterSyncReceive.CheckRate | tsn_gptp/clock_master_sync_receive_sm.c:303-341 | counting towards a stable rate and losing it |
| ServoMachine.ClockMasterSyncReceive.ApplyRate | tsn_gptp/clock_master_sync_receive_sm.c:343-366 | the clamped adjustment |
| ServoMachine.ClockMasterSyncReceive.InitializingProc | tsn_gptp/clock_master_sync_receive_sm.c:380-399 | what initializing resets and what it leaves |
| ServoMachine.ClockMasterSyncReceive.ReceiveSourceTimeProc | tsn_gptp/clock_master_sync_receive_sm.c:420-453 | a source time, and the declaration at its end |
| PerfMon.CollectedDescribes | tsn_gptp/gptp_perfmon.c:314-338 | for all samples since the reset: count, mean within N(N-1)/2 of the sum and between extremes, variance non-negative and zero exactly for equal samples, stored extremes exactly 2^16 times the true ones |
| PerfMon.AddDescribes | tsn_gptp/gptp_perfmon.c:66-101 | one sample keeps that and never lowers the variance |
| PerfMon.MeanBetween | tsn_gptp/gptp_perfmon.c:91-100 | the new mean lies between the old one and the sample |
| PerfMon.VarianceNeverFalls | tsn_gptp/gptp_perfmon.c:91-100 | the stored variance over any samples |
| PerfMonDeviation.VarianceIsDeviation | tsn_gptp/gptp_perfmon.c:91-100 | the stored variance of n samples within [lo, hi] is within (hi - lo) * (n - 1)^2 / 2 of the sum of their squared deviations from their mean |
| PerfMon.DividesByZeroIff | tsn_gptp/gptp_perfmon.c:91-100 | a run of samples ends in a division by zero if and only if there are 2^32 of them |
| PerfMon.Record.RunningStatAdd | tsn_gptp/gptp_perfmon.c:66-101 | the fields after one sample, or the division by zero |
| PerfMon.Record.Add | tsn_gptp/gptp_perfmon.c:544-596 | the record always describes all samples since its reset, up to the division by zero at exactly the 2^32nd |
| PerfMon.Record.Clear | tsn_gptp/gptp_perfmon.c:246-258 | a reset record describes no samples |
| PerfMon.Monitor.Add | tsn_gptp/gptp_perfmon.c:340-345 | both intervals receive the sample |
| Expansion.ExpandIsUnique | tsn_gptp/gptpmasterclock.c:325-337 | the result is the one value with these low 32 bits in [ts64 - 2^31, ts64 + 2^31) |
| Expansion.RoundTripIff | tsn_gptp/gptpmasterclock.c:325-337 | truncating and expanding gives a time back exactly when it is in that window |
| Expansion.ExpandIsStable | tsn_gptp/gptpmasterclock.c:320-337 | a later reading does not change an expansion near to both |
| Header.EncodeDecodeIff | tsn_gptp/mdeth.c:84-127 | a header comes back from the wire if and only if its four nibble fields fit 4 bits |
| Header.DecodeEncode | tsn_gptp/mdeth.c:84-127 | all 34-byte headers are the encoding of what they decode to |
| Header.EncodeInjective | tsn_gptp/mdeth.c:84-106 | different headers with 4-bit fields look different on the wire |
| Header.EncodingIsLaidOut | tsn_gptp/mdeth.c:84-106 | the header on the wire byte by byte, as numbers: the 16- and 64-bit fields with the most significant byte first at their offsets, 4-bit fields as 16 * high + low, the byte fields in place |
| Header.DecodedIsLaidOut | tsn_gptp/mdeth.c:108-127 | every received header is read in that layout |
| Header.PtpMsgHeader.Compose | tsn_gptp/mdeth.c:84-106 | fills the buffer with the encoding, laid out as in EncodingIsLaidOut, and leaves the bytes behind it alone |
| Header.PtpMsgHeader.Decompose | tsn_gptp/mdeth.c:108-127 | fills the structure from the buffer, read as in DecodedIsLaidOut |

## Left out

- Rounding of `double`, and overflow of 64-bit times and of the `int` rates of the servo.
- The mutex of the shared memory: a reader sees the copy between two operations, not during one.
- Records are held in a sequence that the methods reassign; that the C array may move its elements is not modelled, and neither is deleting a clock, which moves them.
- The table operations with a measured set-offset delay (`ts2diff > 0`): without the deprecated offset plug-in it is always 0 (`tsn_gptp/gptpclock.c:387-391`).
- `adjust_GM_btw_domains`, which copies offsets between domains without regard to thisClock.
- Emit: leaves out what MDSyncReceive does not take from the pairing: rate ratio, phase and frequency change, source port and upstream time.
- Payloads of one-step Syncs, the Follow_Up information TLV, and residence times.
- DeviceDown: leaves out portOper, which is a parameter of each call, and the per-domain asCapable flags, which the requester does not read.
- CapabilityIsJustified: does not cover a configured fixed neighbour delay, which sets the capability without measuring; that mode is in the specification and the class, and PdelayReqProofs' other run theorems leave it out in the same way.
- LostResponseTolerance: is about ports without the AVnu cease timer, which clears the capability on its own; the timer is in the specification and the class.
- StableIsNotDisplaced: like the other theorems about the choice of the active domain, is about at most 256 domains, since a record is looked up by an 8-bit index.
- Performance counters, logging, and flags of the requester that only feed monitoring.
- The square root of the variance in the monitoring records, and their submission to a database.
- Fire: a callback does nothing, restarts or stops its own timer, or ends its period; callbacks that start, stop or delete other timers, or delete their own, and deadlines beyond 64 bits are left out.
- PhaseSettles: is about phase steps in software; a step of the hardware zeroes the offset, and steps left to the frequency keep it.
- The daemon's orchestration in `gptpman.c` apart from a device that goes down; interval-setting, announce and signaling machines; sockets, configuration access and abnormal-event hooks.
- The dispatch loop of the servo's state machine: each of its calls runs one of the two procedures that are modelled.
