# Verified model of the OpenXT input server

The input server takes events from keyboards, pointers and touch devices and
hands them to virtual machines, or to plugins on a Unix socket. This project
models its protocol and event-processing cores in Dafny and proves what they
keep over whole runs.

| file | what it holds |
|---|---|
| `Wire.dfy` | the twelve-byte record of the plugin link, little-endian |
| `Scanner.dfy` | the resynchronising receiver that the server and the plugins share |
| `Transport.dfy` | `send_to_plugin` over a non-blocking socket with short writes |
| `PluginPort.dfy` | `struct sock_plugin` and the sending operations as functions, with a history |
| `SockPlugin.dfy` | the class whose methods compute those functions |
| `EndToEnd.dfy`, `PluginView.dfy` | from `send_to_plugin` to what the plugin has handled and believes |
| `DeviceAgreement.dfy` | the queue of device events against the history it stands for |
| `LossSignalling.dfy` | slot coherence, and the flags `dropped` and `slot_dropped` against an independent audit |
| `SlotRecovery.dfy` | sockets that become writable again inside a call, and runs on which an event goes astray or a loss stays silent |
| `Promptness.dfy` | what waits was refused by the socket; on a socket that takes everything a run is ideal |
| `ErrorReports.dfy` | error reports: each one kept is told once |
| `Multitouch.dfy` | `demultitouch`, the loop of `input_send`, the accumulators of `xen_event_send` |
| `Contacts.dfy`, `XenRings.dfy` | the output against a reader of the multitouch input, and the rings against a look back over the events |
| `Touchpad.dfy`, `TouchpadMotion.dfy`, `TouchpadDriver.dfy` | gestures, motion, scrolling and `process_packet` |
| `TouchpadContacts.dfy`, `TouchpadStrokes.dfy`, `TouchpadCorners.dfy` | taps and drags, pointer moves and wheel notches against the raw packets |
| `Masks.dfy`, `KeyFilter.dfy` | the keyboard-divert filter on 32-bit modifier masks |
| `HotKeys.dfy` | the hot-key sequence matcher |
| `Keystrokes.dfy` | keystrokes to UTF-8 to UTF-16LE |
| `FrameScaling.dfy` | frames and scaling of diverted pointers |

## How it is modelled

Code that updates state in place is a class, or a method over an array, that is
proved to compute a function of the old state; the properties are lemmas about
those functions and hold for every run.

* **The socket** is a script with one outcome for each `send` call: some bytes
  taken (at least one, as a stream socket does for a nonempty buffer),
  `EAGAIN`, `EINTR`, or an error that ends the connection. A script that runs
  out blocks. Claims for every script are claims for every pattern of short
  writes and failures. After a broken connection nothing reaches the wire any
  more; `send_to_plugin` still answers "accepted" for the record on which the
  connection broke, and the end-to-end result accounts for that.
* **The history** of a port lists calls, requested device events, reported
  errors, every call of `send_to_plugin` with its result, and lost events. What the plugin has heard,
  which devices it was meant to have and which slots are owed a `SYN_DROPPED`
  are functions of the history alone.
* **Doubles** are reals and time stamps are seconds.
* **`hide`** in a proof only withholds a definition that the proof does not need.

## Findings

* `send_plugin_dev_event` flushes the queue before a reset-all that is still
  pending (socket.c:281-302), so a queued configuration is told to the plugin
  and then swept away. `DeviceEventKeepsMeaning` gives the exact condition;
  `SendConfigCanLoseASlot` shows that `sock_plugin_sendconfig` can run into it.
* Losses on two slots other than the selected one share the single flag
  `slot_dropped`. `OneFlagIsExact` says exactly when that is enough, and
  `OneFlagKeepsThePromise` that otherwise the very next event can be accepted
  without the plugin ever hearing of the loss before it. `LossCanStaySilent` is
  a run from an accepted connection: two slots, neither selected yet, and no
  recovery inside a call.
* `send_plugin_event` goes on after a failed `send_slot` (socket.c:430-452).
  While the socket does not become writable again inside a call, every accepted
  event has its slot selected, for any number of slots (`SlotCoherence`). If it
  does, an event can be delivered to the wrong slot exactly when its call
  changes slots (`AstrayExactlyOnSwitch`), and a loss can stay untold exactly
  when it changes to a slot that is owed one (`SilentExactlyOnSwitchToDebt`).
  The first event of a connection can already go astray
  (`FirstEventCanGoAstray`).
* Backspace removes one byte of a two-byte character (input.c:2117-2125;
  `BackspaceIsExact`), and the conversion stops at the first code point outside
  the basic plane (secure.c:104-106; `ConversionIsCorrect`).
* `demultitouch` turns the change to another contact into a report only if the
  first contact said something besides its position (input.c:298-313,
  `SwitchReportsExactly`), so a position alone can stay unsent past the end of
  its frame (`PositionCanStayUnsent`).
* `addmod` tests the index against `MAX_MODS` where the first word of the table
  is the count (bus.c:640), so the twentieth key is written past the table.
  `OverrunsExactly` says which lists do that; one shortcut with sixteen new
  modifiers is enough (`SixteenModifiersOverrun`).
* Frames of any size are accepted (bus.c:707-770), but the scaling computes the
  product of an offset and a width as an `int`. For widths that are ints
  themselves the map is right exactly when the product of the widths fits
  (`ScalesRightlyExactly`); `WideFramesFold` is a frame that it folds. Frames
  within the range of the mouse always fit (`MouseFramesFit`).
* Nothing stops the autoscroll timer while the touchpad is off or scrolling is
  disabled (`LiftingStopsAutoscroll`), so a touchpad that is switched off during
  a corner scroll goes on scrolling (`ScrollIntoCorner`,
  `DisabledGoesOnScrolling`).
* The hot-key matcher does not look back after a mismatch
  (`RestartCanMissASequence`); `FiresExactly` says when a binding fires.

## Model

| member | source | states |
|---|---|---|
| Wire.MagicWord | socket.c:21 | the byte-wise test for the magic word is the comparison of the 32-bit field |
| Wire.MagicHasNoBorder | socket.c:39-48 | two occurrences of the magic word never overlap |
| Wire.DecodeEncode | switch.h:115-121 | an encoded record in front of any bytes is recognised and decoded to itself |
| Wire.EncodeDecode | switch.h:115-121 | twelve bytes that start with the magic word are the encoding of what they decode to |
| Scanner.ScanAppend | socket.c:39-63 | reading a stream in two parts, with the unread rest of the first kept, gives the records and the rest of one reading |
| Scanner.ChunkingIndependence | socket.c:67-101 | for every split of a stream into reads, records and kept bytes are those of one left-to-right pass over the whole |
| Scanner.JunkIsSkipped | socket.c:44-50 | junk without the magic word in front of a record hides neither that record nor what follows |
| Scanner.Resynchronises | socket.c:39-63 | records separated by junk without the magic word are found exactly, and nothing else is |
| Scanner.JunkWithMagicSwallowsARecord | socket.c:44-50 | junk with the magic word in it can swallow a real record, so the condition is needed |
| Scanner.ScanEncodedPrefix | superhidplugin.c:310-335 | of an encoded stream cut anywhere the whole records are read and the cut one is kept |
| Scanner.RecvBuffer.SkipJunk | socket.c:44-50 | the junk loop leaves the reading of the unread bytes unchanged and stops at a record or at fewer than twelve bytes |
| Scanner.RecvBuffer.FindNext | socket.c:39-63 | a record is returned exactly if the unread bytes read as one, and the rest reads as the remaining ones |
| Scanner.RecvBuffer.Refill | socket.c:73-84 | after compaction and receive the unread bytes are the old ones followed by the new, from position 0 |
| Scanner.RecvBuffer.Drain | socket.c:86-89 | afterwards everything complete has been handed on in order and fewer than twelve bytes remain |
| Scanner.RecvBuffer.ServerReceive | socket.c:67-101 | keeps the invariant that records handled and bytes kept are the reading of all bytes received; only data keeps the connection |
| Scanner.RecvBuffer.PluginReceive | superhidplugin.c:337-360 | the same for the plugin, where only an end of file stops |
| Transport.SendRecordConserves | socket.c:326-395 | a refused record leaves no byte, an accepted one all of its bytes behind what was in flight; only a breaking connection can claim one without taking it |
| Transport.RefusedExactly | socket.c:358-382 | a record is refused exactly when the socket blocks before it has taken the waiting tail and one more byte |
| Transport.AcceptedExactly | socket.c:358-395 | a record is accepted exactly when the socket takes the waiting tail and then does anything but block, breaking included |
| Transport.OnlyABlockHoldsBack | socket.c:326-395 | a call that leaves a tail or refuses its record on a standing connection ended with the socket blocking; until then the rest of a short write is pushed |
| Transport.FlowingAccepts | socket.c:358-395 | a socket that takes what it is given accepts the record and leaves no tail |
| Transport.Socket.SendRetrying | socket.c:369-373 | the retry loop sees the first outcome that is no interruption and puts exactly the taken bytes on the wire |
| Transport.PartialSender.SendDelayedToPlugin | socket.c:326-354 | the loop over `partialBuffer` pushes the tail as its specification says, in place |
| Transport.PartialSender.SendToPlugin | socket.c:358-395 | wire, tail and result are those of the specification, which `SendRecordConserves`, `RefusedExactly` and `OnlyABlockHoldsBack` describe |
| EndToEnd.StepFramed | socket.c:122-462 | every call keeps wire plus tail equal to the encoding of the accepted records |
| EndToEnd.PluginHandlesPrefix | superhidplugin.c:310-360 | after n bytes, in any chunks, the plugin has handled exactly the first n/12 accepted records |
| EndToEnd.LinkDeliversPrefix | socket.c:326-395 | over every run, script and split the plugin handles a prefix of the accepted records, and all of them when everything is delivered |
| Promptness.TailWaitsOnlyOnABlock | socket.c:326-395 | over every run and script, a torn record waits on a standing connection only while the last thing its socket did was to block |
| Promptness.FlowingRunIsIdeal | socket.c:122-462 | on a socket that takes everything, a run puts exactly the ideal records on the wire: every event behind the `DEV_SET` it needs, every device event and error once, in order, with nothing left over |
| Promptness.AcceptedOrRefused | socket.c:399-462 | an input event is accepted with nothing pending, or lost right after a refusal |
| Promptness.EventTellsTheBacklog | socket.c:399-462 | from any state, an event on a socket that takes everything is preceded by exactly the pending error, reset-all, queue, losses and change of slots, in this order |
| Promptness.PendingDeviceEventWasRefused | socket.c:274-320 | when a reset-all or a queue is pending after a device event, the last thing the call did was to be refused |
| Promptness.FlowingDeviceEvent | socket.c:274-320 | on a socket that takes everything nothing is pending after a device event, and from agreement and safety the plugin holds exactly the devices asked for |
| ErrorReports.ReportsAreToldOnce | socket.c:122-136 | over every run and script, the errors told and the one that waits are exactly the reports that were kept, each once and with its value; one waits exactly if more were kept than told |
| ErrorReports.AcceptedEventFindsAllTold | socket.c:406-414 | once an input event is accepted every kept report has been told |
| PluginView.HeardIsListened | socket.c:399-462 | what the history says the plugin heard is what the accepted records alone tell it |
| PluginView.PluginHoldsWantedDevices | socket.c:274-320 | over every safe run a plugin that has read the whole wire, with nothing pending, holds exactly the devices asked for |
| SockPlugins.SockPlugin.constructor | socket.c:557-576 | an accepted connection starts with clear flags, no slot, an empty queue and no tail |
| SockPlugins.SockPlugin.AddQueueDevEventConf | socket.c:177-198 | the queue afterwards is the coalesced queue of the specification |
| SockPlugins.SockPlugin.AddQueueDevEventReset | socket.c:200-234 | likewise for a reset, and a reset-all only sets its flag |
| SockPlugins.SockPlugin.FlushQueuedDevEvents | socket.c:236-271 | the loop from the last entry down leaves queue, history and socket as specified, also when it fails part way |
| SockPlugins.SockPlugin.SendPluginDevEvent | socket.c:274-320 | the whole new state is the specified one, including the call that starts over after a reset-all; `PendingDeviceEventWasRefused` says that it sends what it can |
| SockPlugins.SockPlugin.SelectSlot | socket.c:138-173 | the whole new state after `send_slot` |
| SockPlugins.SockPlugin.SendPluginEvent | socket.c:399-462 | the whole new state after an input event, on every path; `AcceptedOrRefused` and `ReportsAreToldOnce` say what it tells |
| SockPlugins.SockPlugin.ReportError | socket.c:122-136 | an error that cannot be sent is remembered unless one is pending |
| DeviceAgreement.FlushOrderIsIrrelevant | socket.c:236-271 | the queue may be told in any order |
| DeviceAgreement.FlushKeeps | socket.c:236-271 | flushing, also part way, does not change what pending state means |
| DeviceAgreement.QueueConfKeeps | socket.c:177-198 | queueing a configuration adds exactly its slot to the pending meaning and keeps the queue sound |
| DeviceAgreement.QueueResetKeeps | socket.c:200-234 | queueing a reset, also over a queued configuration, removes exactly its slot |
| DeviceAgreement.SendDevKeeps | socket.c:274-320 | a proper device event that is safe to send keeps pending state and history in agreement |
| DeviceAgreement.DeviceEventKeepsMeaning | socket.c:274-320 | it does so for every behaviour of the socket if and only if no reset-all is pending with another slot waiting to be configured, or the call is itself a reset-all |
| DeviceAgreement.InputEventDrains | socket.c:404-428 | an input event always keeps the agreement, and when it is accepted the plugin's devices are exactly those asked for |
| DeviceAgreement.RunKeepsMeaning | socket.c:177-428 | agreement over every run whose device events are proper and safe |
| DeviceAgreement.SendConfigCanLoseASlot | input.c:2960-2970 | reset-all and two configurations, with the socket blocked for the first two sends, leave the plugin without the first slot |
| DeviceAgreement.ConfiguringTwiceCanKeepASlot | socket.c:217-223 | configuring a configured slot is not proper: a reset then only cancels the queued configuration |
| LossSignalling.EventCall | socket.c:399-462 | from agreement on the slot, a call keeps it, and without recovery inside the call accepts only on the selected slot; from covered debts, whatever the socket does, the flags cover all debts again exactly unless the call left a third slot's debt behind, and without recovery an accepted event is owed nothing |
| LossSignalling.RunStaysInStep | socket.c:138-173 | over every run, for any slots and any losses, server and plugin agree on the slot, and as long as no call recovers no event is accepted while another slot is selected |
| LossSignalling.SlotCoherence | socket.c:430-452 | the same for every script and run from an accepted connection |
| LossSignalling.TwoSlotRun | socket.c:138-173 | over every run on two slots, one of them selected, the flags cover every debt, and as long as no call recovers no event is accepted for a slot owed a `SYN_DROPPED` |
| LossSignalling.AnyRun | socket.c:138-173 | the same for any number of slots while one flag suffices at every event |
| LossSignalling.OneFlagIsExact | socket.c:154-172 | whatever the socket does, debts stay covered if and only if the only debts are those of the slots left and entered; the same among sockets that do not recover |
| LossSignalling.UncoveredGoesSilent | socket.c:154-172 | an uncovered debt of another slot can lead to an accepted event of that slot with the loss never told |
| LossSignalling.AstrayExactlyAfterRecovery | socket.c:430-452 | an accepted event misses its slot if and only if a try of its call had failed before |
| SlotRecovery.AstrayExactlyOnSwitch | socket.c:430-452 | for every queue, error, reset-all and partial tail, no socket makes the call accept its event on the wrong slot if and only if the call does not change slots |
| SlotRecovery.SilentExactlyOnSwitchToDebt | socket.c:430-452 | from covered debts, no socket makes the call accept its event with a loss of its slot untold if and only if it does not change to a slot that is owed something |
| SlotRecovery.OneFlagKeepsThePromise | socket.c:154-172 | two events in a row, on any socket that does not recover inside a call and for any second slot, leave no loss untold if and only if one flag suffices at the first |
| SlotRecovery.FirstEventCanGoAstray | socket.c:430-452 | from an accepted connection, a socket that blocks once lets the first event be accepted with no slot selected |
| SlotRecovery.LossCanStaySilent | socket.c:154-172 | from an accepted connection, two slots and no recovery inside a call: the loss of the second slot is never told |
| LossSignalling.FlagsClearOnlyByAnnouncing | socket.c:138-173 | for any slots and any socket the flags do not both become clear without an accepted `SYN_DROPPED` |
| Multitouch.DemuxKeeps | input.c:193-331 | every call keeps the invariant: a press waiting on slot 0 has seen slot 0, a simulated click follows a report, draining has something pending |
| Multitouch.ClicksAfterReports | input.c:193-331 | over every stream each simulated button event directly follows `SYN_REPORT` |
| Multitouch.ButtonTracksContact | input.c:274-294 | after every stream nothing drains and, with no press pending, the last simulated button state is the tracked one |
| Multitouch.AccumulatorsTrack | xen_event.c:88-148 | the accumulators hold the latest coordinates, and with none unsent the last position in the ring has them |
| Multitouch.ClickComesAfterPosition | input.c:559-606 | over every stream, when a simulated click enters the ring no coordinate is unsent and the last position there is the latest one |
| Contacts.FirstContactComesThrough | input.c:193-331 | over every stream, what goes out besides reports and simulated clicks is exactly what the input says of the first contact and can be passed on, in order and on its own axes |
| Contacts.ClickIsAtTheContact | input.c:559-606 | over every stream, a simulated click enters the ring with the first contact's own position before it and nothing unsent, and is a press exactly if that contact touches |
| Contacts.ReportDeliversTheClick | input.c:249-266 | a `SYN_REPORT` while the first contact has the word leaves nothing pending, and the simulated button is the state of the contact |
| Contacts.ClickAwaitsItsReport | input.c:222-244 | over every stream, while a click has no report after it something is due |
| Contacts.SwitchReportsExactly | input.c:298-313 | the change to another contact is a report exactly if the first said something besides its position in this frame |
| Contacts.EndOfTurnSendsAll | input.c:193-331 | at the end of its turn what the first contact said is in the rings |
| Contacts.PositionCanStayUnsent | input.c:271-313 | a position alone before the change to another contact stays unsent past the end of the frame |
| XenRings.RingsHoldWhatWasSent | xen_event.c:88-148 | over every stream, the rings hold each key once on the device of its range, and for each frame with motion one entry with the last value of each axis |
| Multitouch.XenBackend.Send | xen_event.c:88-148 | accumulators and both rings after an event |
| Multitouch.TouchSender.Demultitouch | input.c:193-331 | the five static variables, the action and the event rewritten in place; `FirstContactComesThrough` says what the events mean |
| Multitouch.TouchSender.InputSend | input.c:559-606 | the loop sends what the specification says in at most three passes and ends with draining off |
| Gestures.RunIsDisciplined | touchpad.c:413-568 | over every run presses and releases alternate, one is outstanding exactly in a drag, the finger is down exactly in four states, the timer is armed exactly while a tap is pending |
| Gestures.RunConservesTaps | touchpad.c:376-411 | presses plus taps owed grow by exactly the taps recognised, over every interleaving |
| Gestures.TapsBecomePresses | touchpad.c:413-568 | from a reset on, presses plus the tap owed are the taps recognised |
| TouchpadContacts.ContactMeansExactly | touchpad.c:413-568 | on any path of the finger a first contact is a tap exactly if it never strayed and may click; a contact while a tap is pending is a click of its own, a drag or a double click, exactly by straying and place |
| TouchpadContacts.TapClicksExactly | touchpad.c:376-392 | a first contact followed by the timer is one click exactly if it was a tap |
| Motion.MotionIsConserved | touchpad.c:645-652 | deltas plus the carried fraction are the scaled estimates plus the fraction carried in, and fractions stay below one |
| Motion.StrokeDoesNotDrift | touchpad.c:605-671 | a stroke at constant speed moves the pointer by the scaled distance of the smoothed finger positions to within two units, on whatever path |
| Motion.Ring.Store | touchpad.c:596-603 | after storing, the ring of four agrees with the plain list of samples |
| Motion.Ring.Hist | touchpad.c:32 | `HIST(k)` is the k-th sample from the end, from index -1 on |
| Scrolling.ScrollStepIsConserved | touchpad.c:847-866 | the reference point moves by one step for each wheel event and ends within a step of the finger |
| Scrolling.ScrollIsConserved | touchpad.c:776-902 | over a whole vertical scroll the reference point moves by step times net wheel events |
| Scrolling.CornerScrollIsConserved | touchpad.c:868-892 | in a corner the wheel events are what the automatic reach has advanced less its residue |
| Scrolling.TimerOnlyInCorner | touchpad.c:831-835 | after a handled packet the autoscroll timer is set only if the finger is in a corner |
| Scrolling.CornerSetsTimerExactly | touchpad.c:728-768 | a scroll that reaches a corner sets the timer exactly if it has lasted more than three packets, in the direction of the finger |
| TouchpadCorners.OnlyTheEdgeScrolls | touchpad.c:776-903 | scrolling is on only while a finger is on the right edge, and without it and corner scrolling the wheel does not turn |
| TouchpadCorners.CornerSpeedIsTheFingers | touchpad.c:726-768 | a long scroll that reaches a corner goes on at the speed of the finger over its last four samples, a short one has none |
| TouchpadCorners.CornerGoesOn | touchpad.c:838-892 | while the finger stays in the corner the notches are those for the way of the reference point and, to within one, speed times the time passed |
| TouchpadCorners.LatePacketAddsNothing | touchpad.c:868-879 | a packet that comes too late leaves the automatic notches to the timer |
| TouchpadCorners.TimerTurnsWithTheFinger | touchpad.c:673-691 | the timer turns the wheel up or down as the finger went |
| Scrolling.FollowFinger | touchpad.c:850-864 | both loops end for a positive step and deliver the specified steps |
| Scrolling.FollowReach | touchpad.c:881-891 | both loops over the automatic reach end and deliver whole units |
| TouchpadDriver.ProcessKeeps | touchpad.c:983-1035 | a packet is one step of the gesture machine and keeps its discipline and the small fractions |
| TouchpadDriver.DriverConservesMotion | touchpad.c:615-671 | conservation of motion over every run of packets of the whole driver between fraction resets |
| TouchpadStrokes.SentMotionIsConserved | touchpad.c:1018-1030 | on each axis the moves sent plus the fraction carried out are the intended motion plus the fraction carried in, over every run between fraction resets without a clickpad pressed |
| TouchpadStrokes.PointerFollowsFinger | touchpad.c:605-671 | from the third packet of a stroke on, the moves sent on each axis are speed times the way of the finger on that axis, from raw coordinates, to within two units |
| TouchpadStrokes.StrokeStartsSlowly | touchpad.c:610-643 | from the first packet of a stroke to its third the moves sent are four tenths of speed times the way of the finger, to within two units |
| TouchpadStrokes.RunCountsStrokes | touchpad.c:656-671 | over every run the packet count is zero while the finger neither moves the pointer nor drags |
| TouchpadStrokes.RestClearsFractions | touchpad.c:413-568 | a packet that finds the pad at rest leaves no fraction |
| TouchpadStrokes.PointerRests | touchpad.c:1018-1030 | no move is sent while the finger scrolls, or neither moves the pointer nor drags, or presses the bottom edge of a clickpad |
| TouchpadStrokes.ClickpadMutesOnlyItsEdge | touchpad.c:1022-1030 | above its bottom edge a pressed clickpad makes no difference |
| TouchpadStrokes.NoEmptyMoves | touchpad.c:1022-1030 | no move of (0, 0) is ever sent |
| TouchpadStrokes.LandingScrollsExactly | touchpad.c:807-822 | a landing finger starts a scroll exactly if it is on the right edge |
| TouchpadStrokes.WheelFollowsFinger | touchpad.c:776-903 | from where a finger lands on the right edge, the notches sent downwards times their step are its way down, to within one step |
| TouchpadDriver.DriverRun | touchpad.c:983-1035 | over every interleaving of packets, both timers and switching off, gestures keep their discipline, fractions stay small and taps are conserved |
| TouchpadDriver.LiftingStopsAutoscroll | touchpad.c:791-835 | a packet without a finger leaves the autoscroll timer set exactly if it was and the touchpad is off or scrolling disabled |
| TouchpadDriver.DisabledGoesOnScrolling | touchpad.c:673-696 | switched off with the timer set, whatever packets come, each firing sends one more notch in the same direction |
| TouchpadDriver.ScrollIntoCorner | touchpad.c:776-903 | four packets on the edge and one in the corner set the timer, and switching off does not end the scrolling |
| TouchpadDriver.Touchpad.HandleGestures | touchpad.c:413-568 | the gesture state after a packet, and when fractions start anew |
| TouchpadDriver.Touchpad.SendLeftClick | touchpad.c:376-397 | the timer turns a pending tap into a click and is disarmed |
| TouchpadDriver.Touchpad.SendAutoscroll | touchpad.c:673-691 | the timer sends one notch in the direction of the scroll and stays set |
| TouchpadDriver.Touchpad.ComputeDeltas | touchpad.c:615-671 | deltas, fractions and history as specified on the plain list of samples |
| TouchpadDriver.Touchpad.HandleScrolling | touchpad.c:776-903 | the scrolling state with its timer and direction, and the wheel events in their order |
| TouchpadDriver.Touchpad.ProcessPacket | touchpad.c:983-1035 | the whole driver state after a packet, and its invariant; `PointerFollowsFinger` and `WheelFollowsFinger` say what is sent |
| Masks.SetBit | input.c:741 | setting bit i changes exactly bit i of a word |
| Masks.ClearBit | input.c:743 | clearing bit i changes exactly bit i |
| KeyFilter.GrowthKeepsMeaning | bus.c:629-645 | growing the modifier table does not change the meaning of earlier masks |
| KeyFilter.MasksAreSets | input.c:753 | equal masks and equal modifier sets are the same |
| KeyFilter.RemainingIsRuns | bus.c:823-843 | the loop's reading of the list is one shortcut for each nonzero run, its last key with the others as modifiers |
| KeyFilter.OverrunsExactly | bus.c:629-645 | a list overruns the table if and only if its modifiers together with the keys in the table are twenty or more |
| KeyFilter.SixteenModifiersOverrun | bus.c:640-644 | a shortcut of sixteen modifiers overruns the table of a new record |
| KeyFilter.BitsAreHeld | input.c:733-746 | over every stream of keys the mask stands for the modifiers held since the reset |
| KeyFilter.MatchIsExact | input.c:749-761 | an event matches exactly when its key with the held modifiers is a shortcut of the list |
| KeyFilter.ReplayIsBalanced | input.c:679-713 | a replayed shortcut presses its key with exactly its modifiers down and leaves nothing down |
| KeyFilter.DivertInfo.constructor | bus.c:649-674 | a new record knows the four default modifiers |
| KeyFilter.DivertInfo.AddMod | bus.c:629-645 | the key's index, and the table with it, or that the table has no room |
| KeyFilter.DivertInfo.SetFilter | bus.c:777-848 | refused in use; else the keypairs mean exactly the shortcuts of the runs and the table keeps its invariant, unless the list overruns the table, which is reported exactly then |
| KeyFilter.DivertInfo.SendKeypair | input.c:679-713 | the sequence of presses and releases |
| KeyFilter.DivertInfo.FilterKeys | input.c:715-763 | the mask afterwards, whether the event is swallowed, and what is replayed |
| HotKeys.MatchedMeans | input.c:1890-1897 | an index of k means that the last k keys pressed are the first k of the binding, and that the matcher was idle before them |
| HotKeys.FiresExactly | input.c:1890-1904 | a binding fires exactly when its whole sequence ends the key-downs and began at an idle matcher |
| HotKeys.HotKeyIsSound | input.c:1869-1922 | over every stream: the index says which keys came last, firing implies the whole sequence, and exactly the sequence typed from a key-up fires |
| HotKeys.DownMeansFired | input.c:1869-1922 | over every stream and any bindings, one is held down exactly if its callback has run since the last key-up, and each matches as if it were alone |
| HotKeys.RestartCanMissASequence | input.c:1894-1897 | the sequence after a doubled first key is missed |
| HotKeys.Matcher.AddBinding | input.c:2898-2919 | a binding ends with the first terminator of its table and starts unmatched |
| HotKeys.Matcher.ExecBindings | input.c:1869-1922 | every index afterwards, the last completed binding fires, and no index passes the terminator |
| Keystrokes.BackspaceIsExact | input.c:2112-2127 | backspace takes the last key away whole exactly if it is ASCII |
| Keystrokes.KeystrokesSurvive | input.c:2112-2181 | from an empty field the text is the UTF-8 form of what was typed, has no zero byte, and converts to k, 0 for each key |
| Keystrokes.FormFollowsTyping | input.c:2058-2181 | the same for several fields with tabs between them, with the cursor always at the end |
| Keystrokes.TabGoesRound | input.c:2058-2078 | tabbing goes round the order in either direction, and there and back again |
| Keystrokes.ConversionIsCorrect | secure.c:64-113 | the conversion of any text is the UTF-16LE form of its part in the basic plane (section 3 of RFC 3629) |
| Keystrokes.ConversionIsCompleteExactly | secure.c:64-113 | it is complete exactly for text in the basic plane |
| Keystrokes.ConversionStopsAtMalformed | secure.c:64-113 | in front of malformed bytes all text is converted, and nothing after it |
| Keystrokes.Convert | secure.c:118-125 | for every input at most twice as many bytes are written as are read |
| Keystrokes.AuthField.CollectKey | input.c:2129-2181 | the bytes of the key are inserted at the cursor, which moves behind them |
| Keystrokes.AuthField.BackspaceKey | input.c:2112-2127 | the last byte goes and the cursor follows |
| Keystrokes.AuthForm.Tab | input.c:2058-2078 | focus moves along the tab order and the cursor to the end of the field |
| Keystrokes.Utf8ToUtf16le | secure.c:64-113 | the loop writes the conversion and stays inside a buffer of twice the length |
| FrameScaling.ScaleIsProportional | input.c:1592-1597 | where the product of the widths is an int, inside the source frame no operation leaves 32 bits and the result is the proportional map |
| FrameScaling.ScalesRightlyExactly | input.c:1592-1597 | for widths that are ints, every point is scaled in proportion if and only if the product of the widths is an int, and the far edge shows it |
| FrameScaling.WideFramesFold | bus.c:707-770 | frames of width 0x10000 are stored and their far edge is mapped onto the near one |
| FrameScaling.MouseFramesFit | project.h:114-116 | frames within the range of the mouse always scale in proportion |
| FrameScaling.ScaleStaysInside | input.c:1581-1607 | points of the source frame go into the destination frame, corners to corners |
| FrameScaling.ScaleIsMonotone | input.c:1581-1607 | the map is monotone on each axis |
| FrameScaling.ScaleIsAccurate | input.c:1592-1597 | the map is within one unit of the exact proportion |
| FrameScaling.PointsStayApartExactly | input.c:1592-1597 | no two points are merged exactly when the destination is at least as wide |
| FrameScaling.Frames.SetFrames | bus.c:707-770 | empty frames are refused and nothing changes, others are stored with their edges in order |
| FrameScaling.Frames.MouseOutsideFrame | input.c:1571-1579 | true exactly for points outside the source frame |
| FrameScaling.Frames.ScalePointerEvent | input.c:1581-1607 | the event is rewritten on its axis, stays inside frames that fit, and other events are left alone |

## Left out

- D-Bus, xenstore, dmbus, libevent, ioctl, udev, Xen control calls, logging and scripts: their results are parameters or absent.
- Connection teardown: `kill_connection` ends the modelled run; freeing `dev_events` is not modelled.
- `process_event` of the server (requests of a plugin) and of the plugin (HID reports): the records handed over are the interface.
- The `EINTR` retry of the server's `recv`: a receive is modelled after it.
- `xen_event_write_page` on an unmapped page and the wrap of the ring index: the ring is an append-only log.
- TouchpadDriver.Touchpad.ProcessPacket: packets arrive with the finger detected and with the limits and the clickpad state in force; `detect_finger`, `adjust_overflow`, `handle_button_clicks` and `handle_clickpad` are not modelled.
- Resets of the touchpad inside a run: they return to the start state even during a drag, so runs go from reset to reset.
- KeyFilter.DivertInfo.AddMod: what the write past a full table does to the memory behind it; the model ends there.
- KeyFilter.DivertInfo.SetFilter: likewise, after it has reported an overrun.
- The callbacks of hot keys, forced bindings and `input_keyboard_reset`.
- Clearing of fields by escape and enter, and the authentication flow; hashes are library calls.
- Pointer events outside the source frame, for which `scale_pointer_event` is modelled but no bound is claimed.
- FrameScaling.ScalesRightlyExactly: frames wider than an `int`, whose widths the code reads as negative.
- The double-precision mouse position, focus switching, domain teardown, `gesture.c`, LEDs, lid, power management, keymaps and the USB gadget sources.
- Overflow of C `int` counters of unsent positions, samples and steps: they are unbounded here.
