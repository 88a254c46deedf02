# Verified model of the SIP bridge

A Dafny model of the concurrent core of the LiveKit SIP bridge: the media-timeout watchdogs, the inbound
and outbound SIP dialogs, REFER/NOTIFY transfers, the life of a call and the tables that list it, digest
authentication, the analytics write-back, pin collection and the RTP read loop. `dafny verify
dfyconfig.toml` checks everything.

How it is built:

- An object of the source is a class whose methods change its fields as the source does. Each method's
  contract gives the whole new state as one step of a state machine (a function `Step` over a datatype of
  events), and the lemmas are about that machine: invariants over every run, exact conditions, bounds.
- Goroutines interleave by steps: a step is what happens between two points where others can interfere.
  A method that holds a lock is one step, unless it waits or hands over several messages while others
  that need no lock go on: then it is several. `Run` (module Traces) folds steps over any sequence of
  events, so "every run" covers every interleaving of them.
- What is handed to the SIP transactions is recorded in logs, which the lemmas speak about.
- Clocks, library calls, network outcomes and the order of goroutines are parameters or event sequences,
  always arbitrary.

Modules: Watchdog, WatchdogBounds, ConnWatchdog (timeouts); InviteRetry, SipInbound, SipOutbound
(dialogs); Notify, Transfer, PendingTransfers (transfers); InboundCall, CallTables, OutboundTables (calls
and tables); DigestAuth; CallState; PinPrompt; RtpReadLoop; Wrappers, Traces and CSeqs (shared vocabulary).

Where code, comments and intentions part, the model follows the code and proves the exact difference:

- The comment where the retry limit without an ACK is chosen says about 750 ms; three waits run out before `Accept`
  gives up, 1750 ms in all (`InviteRetry.WaitsWithoutAck`).
- A call without common media gets a status that maps to 488, but the INVITE has been answered with 500
  by then: 488 is never sent (`InboundCall.NotAcceptableIsNeverSent`).
- A failed `Accept` may be followed by a rejection although a 200 OK went out
  (`SipInbound.RejectAfterOkIff` says when); a CANCEL picked up after `Accept` ends the call without a BYE, and a
  BYE may follow the answer to a remote BYE. `SipInbound.ByeIffClosesFirst` and
  `SipInbound.RejectionIffRejectedFirst` say when a BYE or a rejection is sent.
- A remote BYE that comes between the registration of an inbound call and its `StartRinging` makes
  `StartRinging` read the cancel channel of no transaction (`SipInbound.CrashesIffEarlyBye`); the deferred
  close still runs.
- A timeout may fire although it was disabled after the loop loaded the start
  (`Watchdog.DisableMayComeTooLate`; `Watchdog.StillHoldsIff` says when it is still enabled).
- An outbound call whose media port cannot be created is closed with no media port, so that close crashes
  (`OutboundTables.CrashedNeverListed`).
- An outbound call dialled after its dialog was dropped starts again at number 0; that is the only way for
  its numbers not to be 1, 2, 3 and so on (`SipOutbound.ContiguousIff`).
- An outbound call whose 200 OK has an empty To tag stays in `byRemote` after it is closed
  (`OutboundTables.LeftBehindIffEmptyTag`).
- The inbound tables agree exactly while live calls have distinct remote tags
  (`CallTables.AgreeIffDistinctTags`).
- The two watchdogs agree on all packet patterns exactly when ticks are at least one general threshold
  apart (`ConnWatchdog.AgreeIffSpaced`).

## Model

| member | source | states |
|---|---|---|
| `Watchdog.FiringIsSound` | pkg/sip/media_port.go:257-324 | Over every interleaving and tick spacing, other goroutines running between the loads of a tick too: the loop fires only after the two loads of that very tick, with no other step of its own since; when it loaded the start the timeout was enabled, and when it loaded the packet counter either no packet had come since the last processed reset and that start is at least `initial` old, or every packet was at least `general` old, counted from a time that the loop stamped. |
| `Watchdog.TickFiringIsSound` | pkg/sip/media_port.go:257-324 | For a tick handled without interruption all this holds at the moment of firing. |
| `Watchdog.DisableMayComeTooLate` | pkg/sip/media_port.go:281-321 | With interruption it need not: a run that fires although the timeout was disabled and a packet came after the loads. |
| `Watchdog.StillHoldsIff` | pkg/sip/media_port.go:275-311 | When an interrupted tick fires, the timeout is still enabled if and only if every disabling since the load of the start was followed by another start, and the packets are still those it counted if and only if none came since the load of the counter. |
| `Watchdog.TickIsUninterrupted` | pkg/sip/media_port.go:274-321 | A tick in one step is its loads, its stamp and its decision in a row. |
| `Watchdog.ResetIsUninterrupted` | pkg/sip/media_port.go:270-273 | So is a token: reception, load of the counter and stamp. |
| `Watchdog.CountersNeverRunAhead` | pkg/sip/media_port.go:259-312 | In every run `startPackets` is the packet count at the last processed reset, neither remembered counter exceeds the packet counter, and a decision that rests on `lastTime` finds it set. |
| `Watchdog.LoopInvStep` | pkg/sip/media_port.go:257-324 | Every step keeps the relation between the loop's variables, wherever it is in a token or a tick, and what the trace alone says about packets, enabling, thresholds and the pending token. |
| `Watchdog.EndsIff` | pkg/sip/media_port.go:266-324 | Over every trace in turn, the loop stops if and only if its port is closed when it looks while it runs, and panics if and only if it takes a token that is not positive, both read off the trace; it does not fire once it has seen the port closed. |
| `Watchdog.ClosingStopsTheWatchdog` | pkg/sip/media_port.go:268-269 | A run that would fire, and does not because the port is closed first. |
| `Watchdog.MediaPort.constructor` | pkg/sip/media_port.go:137-178 | Non-positive configured timeouts become 30 s and 15 s; both thresholds start positive, the timeout disabled. |
| `Watchdog.MediaPort.Interfere` | pkg/sip/media_port.go:221-239 | The effect of one store, packet or token offer of another goroutine; an offer to a full slot is dropped. |
| `Watchdog.MediaPort.SetTimeout` | pkg/sip/media_port.go:225-255 | A non-positive initial threshold disables; otherwise the four steps thresholds, token, start are taken in that order. |
| `Watchdog.MediaPort.EnableTimeout` | pkg/sip/media_port.go:241-247 | Enabling restores the configured thresholds; disabling clears the start only. |
| `Watchdog.MediaPort.ReceiveToken` | pkg/sip/media_port.go:270-271 | The token leaves its slot and becomes the ticker's period, or makes the ticker panic if it is not positive. |
| `Watchdog.MediaPort.LoadPacketCount` | pkg/sip/media_port.go:272-277 | One load of the packet counter, for a token or for a tick. |
| `Watchdog.MediaPort.DecideTimeout` | pkg/sip/media_port.go:285-311 | Which threshold applies, and whether it has passed. |
| `Watchdog.MediaPort.HandleToken` | pkg/sip/media_port.go:270-273 | A token handled without interruption. |
| `Watchdog.MediaPort.HandleTick` | pkg/sip/media_port.go:274-321 | A tick handled without interruption. |
| `Watchdog.MediaPort.TakeStep` | pkg/sip/media_port.go:266-321 | The next step of the trace, taken only when it is the loop's turn. |
| `Watchdog.MediaPort.TimeoutLoop` | pkg/sip/media_port.go:257-324 | For every order of steps, the loop ends, and leaves the shared fields, as the state machine says: fired, stopped, still running, or panicked on a non-positive token. |
| `WatchdogBounds.ArmedByReset` | pkg/sip/media_port.go:270-273 | In every run, processing a positive token after the start was stored establishes what the bounds below assume, and makes the token the ticker's period. |
| `WatchdogBounds.ArmedByStart` | pkg/sip/media_port.go:225-239 | So does the other order, in which the token is processed before the start is stored. |
| `WatchdogBounds.ArmedIffEnabled` | pkg/sip/media_port.go:257-324 | In every run a waiting loop is armed if and only if the timeout is enabled, and its counters are fresh until the first packet after a processed reset. |
| `WatchdogBounds.FiresAfterLastPacket` | pkg/sip/media_port.go:288-321 | With ideal ticks of period G and the last packet at t, the loop fires within [t+G, t+2G]. |
| `WatchdogBounds.FiresWhenQuiet` | pkg/sip/media_port.go:288-321 | With no packet and no stale counter it fires at the first tick that is `initial` after the start. |
| `WatchdogBounds.FiresAfterReset` | pkg/sip/media_port.go:271-321 | With no packet after a reset at `at` and a start at b, it fires at b+I at the earliest and at the later of b+I+G and at+2G at the latest. |
| `WatchdogBounds.StaleCounterUsesUpATick` | pkg/sip/media_port.go:272-279 | The 2G term is needed: a reachable state in which a stale counter uses up the first tick. |
| `ConnWatchdog.Conn.constructor` | pkg/media/rtpconn/conn.go:44-70 | The older watchdog starts enabled, with 30 s for a non-positive initial timeout. |
| `ConnWatchdog.Conn.OnTimeout` | pkg/media/rtpconn/conn.go:240-266 | For every trace, the older loop ends as its state machine says. |
| `ConnWatchdog.ConnEndsIff` | pkg/media/rtpconn/conn.go:240-266 | A running older loop fires at a tick if and only if it is enabled, no packet came since the tick before, and if none ever came its start is `initial` old; it stops if and only if its connection is closed. |
| `ConnWatchdog.EnabledOnce` | pkg/sip/media_port.go:225-273 | Enabling once and processing the token brings the newer loop into the state from which the two are compared. |
| `ConnWatchdog.SpacedAgree` | pkg/media/rtpconn/conn.go:240-266 | From related states, ticks at least `general` apart make both loops end alike on every trace of packets and ticks. |
| `ConnWatchdog.ShortGapDisagrees` | pkg/sip/media_port.go:294-321 | One shorter gap is enough for a packet pattern on which the two end differently. |
| `ConnWatchdog.AgreeIffSpaced` | pkg/media/rtpconn/conn.go:240-266 | The two loops agree on every arrangement of packets around given tick times if and only if consecutive ticks are at least `general` apart. |
| `InviteRetry.DoublingStaysCapped` | pkg/sip/inbound.go:1576-1577 | Doubling and capping step by step yields min(first*2^(k-1), 3 s) for the k-th wait. |
| `InviteRetry.TotalWaitClosedForm` | pkg/sip/inbound.go:1537-1581 | Over UDP, n waits that run out take 250(2^n-1) ms for n up to 4 and 3750+3000(n-4) ms from there. |
| `InviteRetry.WaitsWithoutAck` | pkg/sip/inbound.go:62-66 | Without an ACK: 1750 ms after three sends, 9750 ms after six, 6 s after two on a reliable transport that requires the ACK. |
| `InviteRetry.WaitAt` | pkg/sip/inbound.go:1558-1569 | An ACK at a given time is taken in exactly the wait whose interval of the total contains that time, and missed if the total is over. |
| `InviteRetry.AckAtTime` | pkg/sip/inbound.go:1558-1577 | An ACK at a given time after the first copy is taken if and only if it comes before the total wait is over; as many copies are sent as the wait that contains it is late, and the earlier waits have run out; one that comes later is missed, after one copy more than the retry limit. |
| `SipInbound.SipInbound.constructor` | pkg/sip/inbound.go:1291-1342 | A new dialog is pending and its next request number follows the INVITE's. |
| `SipInbound.SipInbound.StopRinging` | pkg/sip/inbound.go:1483-1488 | Closes the ringing channel only if it is set, and clears it. |
| `SipInbound.SipInbound.DropLocked` | pkg/sip/inbound.go:1366-1375 | The dialog becomes dead and stops ringing. |
| `SipInbound.SipInbound.RespondLocked` | pkg/sip/inbound.go:1377-1386 | Responds only while there is a transaction. |
| `SipInbound.SipInbound.SetCSeq` | pkg/sip/inbound.go:1641-1645 | Assigns the next number, wrapping at 2^32. |
| `SipInbound.SipInbound.Drop` | pkg/sip/inbound.go:1360-1364 | Drops without a message. |
| `SipInbound.SipInbound.Processing` | pkg/sip/inbound.go:1438-1442 | A 100 while pending, nothing otherwise. |
| `SipInbound.SipInbound.RespondAndDrop` | pkg/sip/inbound.go:1388-1394 | One final response if pending, then dead. |
| `SipInbound.SipInbound.StartRinging` | pkg/sip/inbound.go:1453-1481 | A 180, the ringing channel set and the ringing goroutine started; crashes if and only if there is no transaction any more. |
| `SipInbound.SipInbound.RingTick` | pkg/sip/inbound.go:1462-1481 | Another 180 while pending. |
| `SipInbound.SipInbound.RingStop` | pkg/sip/inbound.go:1462-1481 | The goroutine ends once the ringing channel is closed. |
| `SipInbound.SipInbound.RingCancel` | pkg/sip/inbound.go:1469-1470 | A CANCEL closes the cancelled channel, without the lock. |
| `SipInbound.SipInbound.CancelReply` | pkg/sip/inbound.go:1471 | Then it is answered, without the lock. |
| `SipInbound.SipInbound.RingTerminate` | pkg/sip/inbound.go:1472-1473 | Then, with the lock, the INVITE is ended with 487 if still pending, and the dialog dropped in any phase. |
| `SipInbound.SipInbound.SendInviteOk` | pkg/sip/inbound.go:1537-1581 | For any retry limit, first interval and wait in which the ACK comes: the number of copies sent, the sum of the waits that ran out, and that errNoACK is returned exactly when an ACK is required and none came. |
| `SipInbound.SipInbound.SendCopy` | pkg/sip/inbound.go:1551-1553 | One more copy is out. |
| `SipInbound.SipInbound.LoseCopy` | pkg/sip/inbound.go:1551-1553 | A failing Respond releases the lock and leaves the dialog pending. |
| `SipInbound.SipInbound.RecordOk` | pkg/sip/inbound.go:1512-1515 | The dialog is recorded as established and the lock released. |
| `SipInbound.SipInbound.Meanwhile` | pkg/sip/inbound.go:1558-1569 | While Accept waits, the others change neither the dialog nor the copies sent. |
| `SipInbound.SipInbound.Accept` | pkg/sip/inbound.go:1517-1582 | Takes its own steps in the order of the retry loop, with any steps of the others that need no lock in between; established if every Respond succeeded, with or without an ACK, and left pending otherwise. In numbers: without an ACK six sends and 9750 ms, then errNoACK, over UDP when the ACK is required; three sends and 1750 ms when not; two sends and 6000 ms, then errNoACK, on a reliable transport that requires it; one send and no wait otherwise; an ACK in the k-th wait means k sends, and a Respond that fails as the k-th k-1. |
| `SipInbound.SipInbound.AcceptBye` | pkg/sip/inbound.go:1588-1593 | The 200 OK for the BYE and the drop are two steps. |
| `SipInbound.SipInbound.Interleave` | pkg/sip/inbound.go:1453-1593 | Any sequence of steps of the ringing, BYE and REFER goroutines, in order. |
| `SipInbound.SipInbound.SendBye` | pkg/sip/inbound.go:1647-1669 | A BYE with the next number, then dead; nothing unless established. |
| `SipInbound.SipInbound.SendStatus` | pkg/sip/inbound.go:1671-1692 | A final response, then dead; nothing unless pending. |
| `SipInbound.SipInbound.NewReferReq` | pkg/sip/inbound.go:1702-1729 | A REFER number only when established, recorded as the latest. |
| `SipInbound.SipInbound.CloseWithStatus` | pkg/sip/inbound.go:1778-1789 | BYE if established, rejection if pending, drop if dead. |
| `SipInbound.PhaseInvStep` | pkg/sip/inbound.go:1366-1394 | Every step keeps the dialog in exactly one phase, ringing only while pending unless StartRinging crashed, accepted only while pending, and each of the two channels closed at most once; no step moves it backwards. |
| `SipInbound.PhasesOverRuns` | pkg/sip/inbound.go:1438-1593 | The same over all runs from a new dialog. |
| `SipInbound.OnlyForward` | pkg/sip/inbound.go:1366-1394 | Along every run the phase never goes back; dead is absorbing. |
| `SipInbound.CrashesIffEarlyBye` | pkg/sip/inbound.go:1453-1461 | StartRinging crashes, leaving a dead dialog that rings, if and only if a remote BYE was accepted since the call was registered. |
| `SipInbound.EarlyByeCrashes` | pkg/sip/inbound.go:1588-1593 | The shortest run in which it does. |
| `SipInbound.LockIsHeld` | pkg/sip/inbound.go:1517-1522 | While Accept holds the lock, no steps of the others touch the phase of the dialog or add a 200 OK. |
| `SipInbound.WireInvStep` | pkg/sip/inbound.go:1377-1593 | Every step keeps the log safe and consistent with the phase. |
| `SipInbound.WireSafeOverRuns` | pkg/sip/inbound.go:1438-1692 | Over all runs, answers to a CANCEL or a BYE during the retransmissions included: at most one rejection or BYE in all and none after a recorded remote BYE; nothing in answer to the INVITE after a completed Accept and no 200 after a rejection; requests only after a completed Accept, which follows a 200 with nothing but such answers in between (sections 9.2, 13.3.1 and 15.1 of RFC 3261). |
| `SipInbound.ByeOkInterruptsAccept` | pkg/sip/inbound.go:1588-1593 | The answer to a BYE does come between a copy of the 200 OK and the end of Accept. |
| `SipInbound.CancelOkInterruptsAccept` | pkg/sip/inbound.go:1469-1473 | So does the answer to a CANCEL. |
| `SipInbound.AddsIff` | pkg/sip/inbound.go:1377-1593 | Which step puts what on the wire: provisional responses exactly while pending, a REFER exactly when established, the mark of a completed Accept, the answers to a CANCEL and a BYE. |
| `SipInbound.CancelEndsRinging` | pkg/sip/inbound.go:1469-1473 | A CANCEL taken while the call rings is answered, then the INVITE is ended with 487 and the goroutine ends. |
| `SipInbound.RingerStopsIff` | pkg/sip/inbound.go:1466-1468 | The ringing goroutine ends by itself exactly when the ringing was stopped. |
| `SipInbound.RejectAfterOkIff` | pkg/sip/inbound.go:1551-1553 | Over all runs a rejection follows a 200 OK if and only if some Accept sends a copy and fails to send another, and the call is rejected before it is accepted or dropped silently. |
| `SipInbound.RejectAfterOkHappens` | pkg/sip/inbound.go:1551-1553 | And it does happen: a run that sends 200, 486. |
| `SipInbound.ByeIffClosesFirst` | pkg/sip/inbound.go:1647-1692 | From an established dialog, exactly one BYE is sent if close comes before everything that drops it silently, and none otherwise. |
| `SipInbound.ByeMayFollowByeOk` | pkg/sip/inbound.go:1588-1593 | A BYE may still go out between the answer to a remote BYE and its drop. |
| `SipInbound.LateCancelEndsWithoutBye` | pkg/sip/inbound.go:1469-1473 | A CANCEL picked up after Accept ends an established call without a BYE. |
| `SipInbound.LateCancelHappens` | pkg/sip/inbound.go:1469-1473 | And it happens: a run from a new dialog that rings, is accepted and is then ended by a CANCEL, without a BYE. |
| `SipInbound.RejectionIffRejectedFirst` | pkg/sip/inbound.go:1388-1394 | From a pending dialog, exactly one rejection is sent if close, RespondAndDrop or a taken CANCEL comes before a completed Accept and every silent drop, and none otherwise. |
| `SipInbound.AddsRejectionIff` | pkg/sip/inbound.go:1388-1394 | Exactly those steps reject, with the code they were given, or 487 for a CANCEL. |
| `SipInbound.NumbersOverRuns` | pkg/sip/inbound.go:1641-1729 | In every run the k-th in-dialog request carries the INVITE's number plus k modulo 2^32, and `referCseq` is the number of the latest REFER. |
| `SipInbound.NumbersIncreaseIffNoWrap` | pkg/sip/inbound.go:1641-1645 | Those numbers strictly increase if and only if they do not wrap around after the first (section 12.2.1.1 of RFC 3261). |
| `SipInbound.ByeIsLast` | pkg/sip/inbound.go:1647-1669 | No in-dialog request follows a BYE. |
| `SipOutbound.SipOutbound.constructor` | pkg/sip/outbound.go:652-697 | Numbers start at 1. |
| `SipOutbound.SipOutbound.SetCSeq` | pkg/sip/outbound.go:928-932 | Assigns the next number, wrapping at 2^32. |
| `SipOutbound.SipOutbound.DropLocked` | pkg/sip/outbound.go:958-962 | No dialog, and the counter back at 0. |
| `SipOutbound.SipOutbound.AttemptInvites` | pkg/sip/outbound.go:771-841 | The INVITEs of a dial, numbered in a row, each with the header that answers the challenge before it. |
| `SipOutbound.SipOutbound.Invite` | pkg/sip/outbound.go:746-866 | Records the dialog when an attempt is answered; succeeds only if the answer carries a To tag. |
| `SipOutbound.SipOutbound.NewReferReq` | pkg/sip/outbound.go:970-1003 | A REFER number only when established and not shutting down. |
| `SipOutbound.SipOutbound.SendBye` | pkg/sip/outbound.go:934-956 | A numbered BYE and a drop, or during shutdown a BYE that does neither. |
| `SipOutbound.SipOutbound.Close` | pkg/sip/outbound.go:1036-1044 | BYE after an answered INVITE, drop otherwise. |
| `SipOutbound.SipOutbound.AcceptBye` | pkg/sip/outbound.go:868-873 | A remote BYE drops the dialog. |
| `SipOutbound.AttemptsMeaning` | pkg/sip/outbound.go:771-841 | One to five attempts; all before the last were challenged; a dial stops before five only at a response that cannot be answered; the first INVITE carries no credentials and each other one answers the challenge to the one before, in the header that challenge asks for. |
| `SipOutbound.DialEstablishesIff` | pkg/sip/outbound.go:771-866 | A dial establishes the dialog if and only if one of at most five attempts is answered, after challenges that could all be answered. |
| `SipOutbound.NumberInvStep` | pkg/sip/outbound.go:928-956 | Every step but a dial after a drop keeps the numbers contiguous from 1. |
| `SipOutbound.ContiguousIff` | pkg/sip/outbound.go:771-841 | From any reachable dialog, below the wrap-around, the numbers are contiguous from 1 if and only if the call is never dialled after a drop. |
| `SipOutbound.NumbersOverRuns` | pkg/sip/outbound.go:771-956 | The same from a new call. |
| `SipOutbound.DialAfterCloseStartsAtZero` | pkg/sip/outbound.go:958-962 | A dial after close sends an INVITE with number 0. |
| `SipOutbound.ReferOverRuns` | pkg/sip/outbound.go:928-1003 | In every run `referCseq` is the number of the latest REFER, and nothing but a new INVITE follows a numbered BYE. |
| `SipOutbound.ShutdownBypassesNumbers` | pkg/sip/outbound.go:943-951 | Once the client shuts down, only INVITEs still take numbers. |
| `SipOutbound.ByeIffClosesFirst` | pkg/sip/outbound.go:1036-1044 | While the client runs, an established dialog gets exactly one numbered BYE if it is closed before anything else ends it, and none otherwise. |
| `SipOutbound.ShutdownByes` | pkg/sip/outbound.go:943-951 | While the client shuts down, every close of an established dialog sends a BYE that takes no number, until the dialog is dropped otherwise. |
| `Notify.EventRoundTrip` | pkg/siptest/client.go:513-514 | Printing `refer;id=n` and parsing it gives n for every uint32 n; a larger id reads as 2^32-1. |
| `Notify.AtoiOfItoa` | pkg/sip/protocol.go:316-319 | Every 64-bit status code survives printing and parsing. |
| `Notify.BodyRoundTrip` | pkg/sip/protocol.go:305-328 | For every code, every reason without a line feed and any suffix, parsing the status line gives back exactly that code and reason (section 7.2 of RFC 3261). |
| `Notify.BareLineFeedIff` | pkg/sip/protocol.go:322-327 | With a bare line feed the reason survives if and only if it does not end in a carriage return. |
| `Notify.NotifyRoundTrip` | pkg/sip/protocol.go:330-357 | The whole NOTIFY of the test client is understood as its number, code and reason. |
| `Notify.MatchReferIff` | pkg/sip/protocol.go:330-357 | The Event header is understood if and only if it reads `refer`, or `refer;id=` and a number, in any case; without an id the number is 0. |
| `Notify.CaseDoesNotMatter` | pkg/sip/protocol.go:330-357 | Case does not matter. |
| `Notify.ShortHeaderStandsIn` | pkg/sip/protocol.go:330-340 | The short header `o` counts exactly when there is no Event header; with neither it is an error. |
| `Notify.PlainReferHasNoNumber` | pkg/sip/protocol.go:330-357 | A plain `refer` reports number 0 with the code and reason of its body. |
| `Notify.BodyErrorIff` | pkg/sip/protocol.go:305-328 | Which bodies are errors, and which error: no space, another version, a code that is no number; a body without a reason is not one. |
| `Transfer.ReferChannel.constructor` | pkg/sip/inbound.go:1291-1342 | No transfer, no blocked handler, no REFER yet. |
| `Transfer.ReferChannel.BeginTransfer` | pkg/sip/inbound.go:1731-1735 | Numbering a REFER needs the write lock and starts a transfer under that number. |
| `Transfer.ReferChannel.ReferResponse` | pkg/sip/inbound.go:1737-1740 | A refused REFER ends the transfer; an accepted one waits for its result. |
| `Transfer.ReferChannel.ReferNotify` | pkg/sip/protocol.go:359-384 | A foreign number or a provisional status is ignored; anything else blocks the handler in its send, under the read lock. |
| `Transfer.ReferChannel.Receive` | pkg/sip/inbound.go:1742-1749 | The waiting transfer takes the result of one blocked handler and ends. |
| `Transfer.ReferChannel.GiveUp` | pkg/sip/protocol.go:380-383 | A handler whose send times out releases the lock. |
| `Transfer.ReferChannel.Cancel` | pkg/sip/inbound.go:1742-1744 | A cancelled transfer leaves the channel without a receiver. |
| `Transfer.InvStep` | pkg/sip/protocol.go:359-384 | Every step keeps blocked handlers and delivered results with the REFER they were matched against. |
| `Transfer.IntegrityOverRuns` | pkg/sip/protocol.go:359-384 | In every run a transfer gets at most one result, from a final NOTIFY without an id or with its own REFER's number, handled after that REFER was numbered and before any later one, and it is a success only on status 200 (section 2.4.6 of RFC 3515). |
| `Transfer.LateSenderHoldsOffNextTransfer` | pkg/sip/inbound.go:1754-1770 | While a handler of a cancelled transfer still blocks, no events but its timeout let another transfer start. |
| `Transfer.FinalNotificationIsDelivered` | pkg/sip/protocol.go:359-384 | Conversely, a final NOTIFY with the transfer's number or none reaches it, as a success exactly on status 200. |
| `Transfer.EndedTransferGetsNothing` | pkg/sip/inbound.go:1737-1744 | After a refused REFER or a cancellation no result ever reaches that transfer, and the next REFER can be numbered if and only if no handler blocks. |
| `Transfer.TimeoutUnblocks` | pkg/sip/protocol.go:380-383 | A handler stops blocking when its send times out, and nothing else changes. |
| `Transfer.NumbersOverRuns` | pkg/sip/inbound.go:1702-1729 | In every run the k-th REFER takes the k-th number from the first, modulo 2^32, and `referCseq` is that of the latest. |
| `PendingTransfers.Service.constructor` | pkg/sip/service.go:271-281 | No transfer in flight. |
| `PendingTransfers.Service.TransferSIPParticipant` | pkg/sip/service.go:276-306 | A request waits on the done channel of the entry for its key, and starts a worker only if there was none. |
| `PendingTransfers.Service.FinishTransfer` | pkg/sip/service.go:291-302 | A worker closes its own done channel, once, before it deletes its entry. |
| `PendingTransfers.Service.DeletePending` | pkg/sip/service.go:291-302 | Then it deletes the entry under its key. |
| `PendingTransfers.InverseOverRuns` | pkg/sip/service.go:276-306 | In every interleaving the table holds exactly the keys of the workers that have not deleted themselves, each under its worker. |
| `PendingTransfers.OneWorkerPerKey` | pkg/sip/service.go:276-306 | At most one worker runs per call and target. |
| `PendingTransfers.DeleteIsOwn` | pkg/sip/service.go:291-302 | A delete removes the worker's own entry and no other. |
| `PendingTransfers.EntryOutlivesWorker` | pkg/sip/service.go:276-306 | A key keeps its worker until that worker deletes it. |
| `PendingTransfers.FinishedWorkerFreesKey` | pkg/sip/service.go:276-306 | A worker that finishes frees its key and no other, and the next request for it starts another worker. |
| `InboundCall.CallMonitor.CallStart` | pkg/stats/monitor.go:341-346 | The gauge rises once per start. |
| `InboundCall.CallMonitor.CallEnd` | pkg/stats/monitor.go:348-353 | It falls only after a start. |
| `InboundCall.CallMonitor.CallTerminate` | pkg/stats/monitor.go:355-360 | The first termination reason is counted, later ones are not. |
| `InboundCall.InboundCall.Close` | pkg/sip/inbound.go:1031-1073 | The first close does everything, with its reason; later ones change nothing. |
| `InboundCall.InboundCall.CloseWithReason` | pkg/sip/inbound.go:1083-1114 | A hangup is named after the abnormal cause of a remote BYE, if there is one. |
| `InboundCall.InboundCall.Ring` | pkg/sip/inbound.go:619 | StartRinging after any steps of the others since the call was registered; it crashes if and only if a BYE was among them, or the dialog had already lost its transaction. |
| `InboundCall.InboundCall.Admit` | pkg/sip/inbound.go:620-669 | The three refusals of dispatch close the call, each for its own reason; the others leave it open. |
| `InboundCall.InboundCall.RunMedia` | pkg/sip/inbound.go:671-693 | Every media failure closes the call for its own reason. |
| `InboundCall.InboundCall.WaitFor` | pkg/sip/inbound.go:905-960 | Waiting for media or a subscription closes the call unless it succeeds; which waits end without an error. |
| `InboundCall.InboundCall.TryAccept` | pkg/sip/inbound.go:703-719 | Whether the INVITE was answered: refused if and only if Accept never completes, which happens if a Respond fails and otherwise only if the caller ended the call first; unacknowledged if and only if it completes, the ACK is required and none comes. |
| `InboundCall.InboundCall.AcceptCall` | pkg/sip/inbound.go:704-733 | The same for the whole of acceptCall: a missing ACK, a refused accept or a failed wait close the call, and the result is the one that the log shows. |
| `InboundCall.InboundCall.PinPrompt` | pkg/sip/inbound.go:962-1028 | Every way out of the prompt but success and a closed DTMF queue closes the call. |
| `InboundCall.InboundCall.Join` | pkg/sip/inbound.go:773-799 | A failure to join, to publish or to be subscribed to closes the call. |
| `InboundCall.InboundCall.ActiveLoop` | pkg/sip/inbound.go:810-845 | The loop closes the call once, for the first event that ends it. |
| `InboundCall.InboundCall.Serve` | pkg/sip/inbound.go:735-845 | The stages after media, in the order the dispatch asks for. |
| `InboundCall.InboundCall.HandleInvite` | pkg/sip/inbound.go:608-846 | Every path, a crash of StartRinging included, closes the call exactly once and for the first exit it takes: with that exit's status and reason, one session end and one termination with that reason, a balanced gauge, the call in neither table, a dead dialog and a safe log. A call that rings has sent a 180; one that gets as far as being accepted completes its Accept exactly unless a Respond fails or the caller ended it first, and no other call does; a call handed over pending ends rejected, accepted or with a BYE of the caller, unless it is dropped as a flood; and an accepted one has seen a BYE or a late CANCEL. It is rejected with no code but that of the exit or of a CANCEL. |
| `InboundCall.ProcessedCallIsAdmissible` | pkg/sip/inbound.go:351-434 | What processInvite hands over, with or without a 100 sent before, meets what HandleInvite requires. |
| `InboundCall.LoopExitMeaning` | pkg/sip/inbound.go:810-845 | The loop fails exactly on a missing ACK or a media timeout. |
| `InboundCall.LoopExitIsFirst` | pkg/sip/inbound.go:810-845 | The loop takes the first event that ends it: the context, the room or the media timeout; without one it ends with its context. |
| `InboundCall.EarlyReasonIff` | pkg/sip/inbound.go:635-693 | Each reason of the dispatch and media stages has exactly its one cause. |
| `InboundCall.AcceptReasonIff` | pkg/sip/inbound.go:703-757 | So have a failed accept and a wrong pin. |
| `InboundCall.JoinReasonIff` | pkg/sip/inbound.go:773-794 | So have a failed join, a failed publication and a missing subscriber. |
| `InboundCall.WaitExitIff` | pkg/sip/inbound.go:905-960 | So has each way in which a wait ends the call, and which of them are errors. |
| `InboundCall.HangupReason` | pkg/sip/inbound.go:1083-1114 | A hangup or a cancellation is named after the cause of an abnormal BYE exactly when there was one. |
| `InboundCall.StatusIff` | pkg/sip/inbound.go:608-846 | The status that goes with each reason. |
| `InboundCall.HangupFailsOnlyByRoom` | pkg/sip/inbound.go:905-960 | A hangup is an error only when the room closes before the call is established. |
| `InboundCall.RejectedWith` | pkg/sip/inbound.go:635-693 | A caller who is rejected and did not cancel gets 501, 404, 500 or 486, each for its own cause. |
| `InboundCall.CleanExits` | pkg/sip/inbound.go:608-846 | handleInvite returns no error only for a hangup, a cancellation or a removal; a cancellation or removal is never an error; with a required ACK, only Accept reports a missing one. |
| `InboundCall.DeferredIff` | pkg/sip/inbound.go:612 | The deferred close decides exactly when StartRinging crashes or the pin prompt finds its queue closed. |
| `InboundCall.NotAcceptableIsNeverSent` | pkg/sip/inbound.go:671-693 | Status 488 is never sent. |
| `InboundCall.NoAckIff` | pkg/sip/inbound.go:828-843 | The loop reports a missing ACK if and only if a media timeout ends it after an ACK timeout that no ACK preceded. |
| `CallTables.Server.constructor` | pkg/sip/server.go:159-175 | Both tables start empty. |
| `CallTables.Server.Register` | pkg/sip/inbound.go:601-604 | A new call is listed under its tag and under its id, replacing an older call of that tag. |
| `CallTables.Server.Remove` | pkg/sip/inbound.go:1056-1059 | Closing deletes both keys. |
| `CallTables.Server.StopServer` | pkg/sip/server.go:314-329 | Stop empties the table by tag only, and returns what it listed. |
| `CallTables.SoundOverRuns` | pkg/sip/inbound.go:1056-1059 | In every run the table by id lists exactly the live calls, and the table by tag only live calls under their own tags. |
| `CallTables.ClosedNeverListed` | pkg/sip/inbound.go:1056-1059 | A closed call is in neither table, then and in every continuation. |
| `CallTables.AgreeIffDistinctTags` | pkg/sip/inbound.go:601-604 | Until the server stops, the two tables agree at every moment if and only if live calls have distinct tags at every moment. |
| `CallTables.EqualTagsHideACall` | pkg/sip/inbound.go:1056-1059 | Two calls of one tag: closing the later hides the earlier. |
| `CallTables.StopUnlists` | pkg/sip/server.go:314-329 | From Stop until another call is registered no call is found by its tag, while all stay live and listed by id. |
| `OutboundTables.Client.constructor` | pkg/sip/client.go:59-73 | Both tables start empty. |
| `OutboundTables.Client.NewCall` | pkg/sip/outbound.go:88-156 | A call is listed only when its media port was created and its room joined; a failed join closes it and leaves it unlisted; without a media port close crashes before it reaches the tables. |
| `OutboundTables.Client.Unlist` | pkg/sip/outbound.go:297-302 | Deletes the id and, only if not empty, the tag. |
| `OutboundTables.Client.CloseLocked` | pkg/sip/outbound.go:272-290 | Only the first close goes on, and it closes the media port. |
| `OutboundTables.Client.FinishClosing` | pkg/sip/outbound.go:291-315 | Then the call leaves the tables. |
| `OutboundTables.Client.Close` | pkg/sip/outbound.go:252-270 | Closing waits for the call's mutex, which a dial holds. |
| `OutboundTables.Client.Invite` | pkg/sip/outbound.go:494-563 | A failed INVITE closes the call. |
| `OutboundTables.Client.SetConfig` | pkg/sip/media_port.go:420-423 | A closed media port refuses the answer, and the call is closed. |
| `OutboundTables.Client.RegisterRemote` | pkg/sip/outbound.go:572-575 | Only a configured call is listed under its remote tag. |
| `OutboundTables.Client.EndDial` | pkg/sip/outbound.go:323-352 | The mutex is released, by close if the dial failed. |
| `OutboundTables.Client.StopClient` | pkg/sip/client.go:102-116 | Both tables are emptied. |
| `OutboundTables.CallInvStep` | pkg/sip/outbound.go:272-352 | A dial that got past the closed check belongs to a call that is not closed, at every step. |
| `OutboundTables.InvOverRuns` | pkg/sip/outbound.go:88-352 | In every run the tables list calls under their own keys, and closed calls at most under the empty tag. |
| `OutboundTables.RemovedStays` | pkg/sip/outbound.go:272-315 | Closed is for ever. |
| `OutboundTables.ClosedNeverListed` | pkg/sip/outbound.go:272-352 | A closed outbound call is never in `activeCalls`, nor in `byRemote` under a tag that is not empty, in any continuation. |
| `OutboundTables.CrashedNeverListed` | pkg/sip/outbound.go:131-142 | A call without a media port is in neither table in any continuation, but its close never completes. |
| `OutboundTables.FailedDialIsClosed` | pkg/sip/outbound.go:323-352 | A dial that fails, at the INVITE, at the answer or at the ACK, ends with the call closed, and in neither table once its close finishes, save under an empty tag. |
| `OutboundTables.DialRegisters` | pkg/sip/outbound.go:494-595 | A dial that succeeds leaves the call open and listed under its remote tag too, and changes nothing else. |
| `OutboundTables.StopUnlists` | pkg/sip/client.go:102-116 | From Stop until a call is listed or registered both tables stay empty. |
| `OutboundTables.LeftBehindIffEmptyTag` | pkg/sip/outbound.go:297-302 | Closing a registered call leaves it in `byRemote` if and only if its tag is empty. |
| `OutboundTables.EmptyTagStaysListed` | pkg/sip/outbound.go:297-302 | A run from empty tables that creates, dials and closes a call, after which it is still listed. |
| `DigestAuth.Server.constructor` | pkg/sip/server.go:134-135 | No challenge on file. |
| `DigestAuth.Server.GetInvite` | pkg/sip/inbound.go:137-151 | The first entry of the Call-ID, or a new last one for which a full list gives up its oldest. |
| `DigestAuth.Server.HandleInviteAuth` | pkg/sip/inbound.go:153-266 | The answer to a request and the list it leaves. |
| `DigestAuth.FindIffHeld` | pkg/sip/inbound.go:137-151 | A lookup finds an entry exactly if fewer than 500 insertions followed it, and where. |
| `DigestAuth.AnsweringFollowsBook` | pkg/sip/inbound.go:179-265 | Every request keeps the list the window of an unbounded map, and its verdict is that against the map. |
| `DigestAuth.WindowOverRuns` | pkg/sip/inbound.go:137-151 | Over every run the list is the last min(500, N) of the N entries inserted, in order. |
| `DigestAuth.CallIDsAreDistinct` | pkg/sip/inbound.go:137-151 | The Call-IDs on the list are pairwise distinct. |
| `DigestAuth.RecordsHoldLatest` | pkg/sip/inbound.go:179-209 | The challenge on file is the one that was sent last for that Call-ID. |
| `DigestAuth.AuthenticatesIff` | pkg/sip/inbound.go:153-266 | After any requests, authentication succeeds if and only if the Call-ID is still held with a challenge and the response is the digest of the challenge sent last for it (section 22.3 of RFC 3261). |
| `DigestAuth.ChallengesIff` | pkg/sip/inbound.go:179-203 | A request without the header is sent a challenge, and that very challenge goes on file. |
| `DigestAuth.AnswersIff` | pkg/sip/inbound.go:153-266 | Exactly when each answer is given: not required, a challenge, bad credentials, unauthorized, authenticated. |
| `DigestAuth.ChallengeRoundTrip` | pkg/sip/inbound.go:153-266 | The whole exchange: answering the challenge that was sent with its digest authenticates, after any requests in between that leave the entry held and send no newer challenge. |
| `DigestAuth.HeldUntilLimit` | pkg/sip/server.go:45-48 | Whatever requests follow, for its own Call-ID too, an entry survives if and only if fewer than 500 of them insert another. |
| `CallState.CallState.constructor` | pkg/sip/analytics.go:36-47 | The state starts dirty. |
| `CallState.CallState.FlushLocked` | pkg/sip/analytics.go:127-138 | Reports the local state; clean only if accepted, or if there is no client. |
| `CallState.CallState.DeferUpdate` | pkg/sip/analytics.go:57-62 | Changes without a report. |
| `CallState.CallState.Update` | pkg/sip/analytics.go:64-70 | Changes, then reports. |
| `CallState.CallState.Flush` | pkg/sip/analytics.go:140-147 | Reports only if dirty. |
| `CallState.CallState.ForceFlush` | pkg/sip/analytics.go:149-153 | Reports always. |
| `CallState.CallState.StartTransfer` | pkg/sip/analytics.go:72-93 | Reports the start, then records the transfer. |
| `CallState.CallState.EndTransfer` | pkg/sip/analytics.go:95-125 | Reports the end of a recorded transfer and forgets it; nothing for any other. |
| `CallState.WriteBackOverRuns` | pkg/sip/analytics.go:57-153 | In every run, failed reports included, a clean state is the state last accepted by the service. |
| `CallState.AcceptedReportDelivers` | pkg/sip/analytics.go:64-153 | In every run a report that the service accepts, by an update or a flush, leaves it with the local state. |
| `CallState.CleanIsNotReported` | pkg/sip/analytics.go:127-153 | A clean state is not reported again unless it is forced. |
| `CallState.ReportsOverRuns` | pkg/sip/analytics.go:57-125 | In every run the local state is the initial one with the updates applied in order, every end report carries the outcome given, and without a client nothing is reported. |
| `CallState.TransfersOverRuns` | pkg/sip/analytics.go:72-125 | In every run each transfer gets at most one end report, and only after that of its start. |
| `CallState.TransferIsReported` | pkg/sip/analytics.go:72-125 | A transfer that runs its course is reported as started and as ended, with its outcome. |
| `PinPrompt.PinCall.constructor` | pkg/sip/inbound.go:593 | The queue starts empty. |
| `PinPrompt.PinCall.HandleDTMF` | pkg/sip/inbound.go:1227-1240 | A tone is queued unless ten wait. |
| `PinPrompt.PinCall.PinPrompt` | pkg/sip/inbound.go:962-1028 | Over every interleaving of tones and receives: the prompt ends at the first interruption, '#' or seventeenth digit and nowhere else, and each outcome has exactly its cause; dispatch is called at most once, exactly when '#' is taken, with the recognised digits taken before it in order, at most 16, noPin exactly when there are none; the call joins exactly if that dispatch is accepted with a room name. |
| `PinPrompt.QueueIsFifo` | pkg/sip/inbound.go:1235-1239 | What was taken from the queue, followed by what waits in it, is the tones that found room, in order. |
| `PinPrompt.RecognisedMeaning` | pkg/sip/inbound.go:987-989 | Unrecognised tones leave no trace in the pin and all others are kept in order. |
| `PinPrompt.TypedPin` | pkg/sip/inbound.go:991-1021 | A pin of up to 16 digits decides nothing until its '#', and then it is dispatched as it was typed. |
| `RtpReadLoop.MediaPort.ReadLoop` | pkg/sip/media_port.go:479-541 | Every packet counts for the watchdog and as ignored or input; the loop kills itself exactly at the first packet that makes the input hopeless, and ends otherwise only with the stream. |
| `RtpReadLoop.HopelessMeaning` | pkg/sip/media_port.go:520-533 | Hopeless means that the 50 most recently handled packets all failed, however many ignored ones came between. |
| `RtpReadLoop.SurvivesMeaning` | pkg/sip/media_port.go:520-533 | Surviving means that no prefix was hopeless. |

## Left out

- Watchdog.MediaPort.TimeoutLoop: the packet counter does not wrap at 2^64.
- Watchdog.MediaPort.constructor: the thresholds are never nil after it, so the loop's fallback for a nil threshold is not modelled.
- ConnWatchdog.AgreeIffSpaced: ticks are handled without interruption, and resets and disabling are not compared, since the older loop knows no resets.
- ConnWatchdog.Conn.OnTimeout: the loads of one tick of the older loop are one step.
- SipInbound.SipInbound.SendInviteOk: an ACK that comes together with the end of a wait is taken in the wait the environment chooses.
- SipInbound.SipInbound.StartRinging: is called once per dialog.
- SipInbound.SipInbound.Accept: cancellation of its context is not an outcome, as the source does not look at it there.
- SipInbound.SipInbound.RespondLocked: a response whose write fails is logged as handed over.
- SipInbound.SipInbound.NewReferReq: a REFER is logged when it is numbered, sent or not, and a missing Contact or From header is not modelled.
- SipOutbound.SipOutbound.SendBye: the number of the shutdown BYE is set by the SIP library.
- SipOutbound.NumbersOverRuns: below 2^32 requests.
- Transfer.IntegrityOverRuns: one transfer at a time per call; two would share the channel and the latest number.
- PendingTransfers.Service.TransferSIPParticipant: the error a joining request gets is local to that request and not modelled.
- Notify.NotifyRoundTrip: strings are ASCII, so the special cases of Unicode upper and lower case do not arise.
- InboundCall.InboundCall.HandleInvite: the library calls and waits are outcomes chosen by the environment, and other calls do not touch the tables meanwhile; CallTables interleaves them.
- InboundCall.InboundCall.PinPrompt: the digits are in module PinPrompt; the life of the call sees only how the prompt ended.
- PinPrompt.PinCall.PinPrompt: digits are below 128, and the queue is never closed, as nothing in the repository closes it.
- OutboundTables.Client.NewCall: outbound calls are records in a map, not objects, and a call is dialled at most once.
- OutboundTables.ClosedNeverListed: a call whose remote tag is empty is excluded, because the source leaves it listed.
- DigestAuth.AuthenticatesIff: requests run one after the other, credentials are configured, and the digest is an arbitrary function.
- CallState.CallState.StartTransfer: transfer ids are fresh, and the reports to the service are ordered as the steps are.
- Checks before a call exists: trunk lookup and its rejections, flood counters and the expirable cache behind getCallInfo.
- SDP, SRTP, jitter buffer, mixer, codecs, room client, SIP transport and transactions.
- Listeners, TLS, interface discovery, metrics export, logging, configuration.
- URI, status-name, attribute and header tables, ogg chunking, signal generation.
- The contents of DTMF audio, dial tones and pin prompts.
