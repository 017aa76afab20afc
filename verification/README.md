# Verified model of the scrcpy agent and its signaling link

A Dafny model of the parts of the repository that carry its behaviour: the takeover of
one device by successive browsers, the video path from the scrcpy socket to the RTP
sender, loss recovery, the two control-stream codecs, and the resources behind them.

| file | what it models |
|---|---|
| `AgentSpec.dfy`, `TakeoverSystem.dfy` | the takeover protocol: the handlers of both sides as functions, and the two-queue transition system |
| `Takeover.dfy`, `TakeoverClaims.dfy`, `TakeoverEvents.dfy`, `TakeoverNotices.dfy`, `TakeoverDelivery.dfy` | its theorems over every run: one session at a time; agreement and what forged messages do to it; the account of session events; who is told of a takeover; that signals, replies and relay answers arrive |
| `Controller.dfy`, `SignalingServer.dfy` | the agent controller and the server's browser table as objects, proved against those functions: `Controller` against the agent's half, `Server` against the server's |
| `AnnexB.dfy` | start codes, NAL units, `mergeConfigNAL`, the SPS scan |
| `VideoTiming.dfy`, `PauseBuffer.dfy`, `VideoForwarder.dfy`, `VideoRuns.dfy` | PTS normaliser, pause buffer, `forwardVideo`, and what every run emits |
| `PacketReader.dfy`, `VideoStream.dfy`, `VideoPump.dfy` | packet framing, the video path from socket bytes to samples, and the RTP clock of the video pump |
| `Red.dfy` | the RED sender, a reference decoder, loss recovery |
| `PliRecovery.dfy`, `PliHistory.dfy` | the PLI/FIR recovery machine, and what it requests told from the events alone |
| `DeviceMessages.dfy` | device-to-client parser and `controlReader` |
| `ControlMessages.dfy`, `ControlBuilders.dfy`, `Utf8Text.dfy` | client-to-device messages, in-place builders, text truncation |
| `BitrateLadder.dfy`, `LadderHistory.dfy` | the bitrate ladder, and what it does told from the events alone |
| `WarmPool.dfy`, `WarmHistory.dfy` | the warm session pool, and what it holds told from the calls alone |
| `PortPool.dfy` | the port pool and the sessions that hold its ports |
| `Bytes.dfy`, `Common.dfy` | big-endian integers, optional values, the clock |

Conventions. Code that updates fields is a `class` whose methods are proved equal to a
function on plain state values; the theorems are about those functions and about runs of
them, and the history lemmas say what those functions compute without naming them. Times are integers read from one monotone clock, once per step; `None` stands for
Go's zero time. Concurrency is a transition system whose steps are lock sections or
message handlers. Bytes are integers below 256 and every shift, mask and narrow-width
sum of the source is written out.

## Where the code does something its surroundings do not say

Each of these is stated exactly and proved.

- A session is reported stopped once for each start, except that a preemption that reaches
  it while the platform is force-closing it adds a stop, and a repeated `bound`, which only
  a forged message can be, loses a start. `EventsBalance` is the exact account over every
  run, `ExactlyOnce` what follows for a session that is not bound twice, whatever is forged
  for others; `OverlapReportsTwice` and `ForgedBoundRestarts` build the two exceptions, and
  `RestartExactly` shows the condition is the right one.
- The server forwards any message type a browser writes, also the `bound` and `unbound`
  that the protocol table in the repository's README.md reserves for the server. One
  session at a time holds all the same (`SingleSession`). The two sides agree about a
  session until a harmful message of its own is handled: an `unbound` while its browser is
  connected and holds the device, or a repeated `bound` after it lost it; others cannot
  disturb that (`SessionAgreement`, `HarmlessExactly`, and for all sessions `Agreement`).
  `ClaimDecides`, `ForgedUnboundExactly` and `ForgedBoundExactly` say what one such message
  does.
- A browser that loses the device while the agent's link is up is told so, unless it took
  it from itself with a harmful message (`OustedIsTold`; the exception happens in
  `ForgedUnboundBreaksAgreement`). A link that drops takes the notice with it:
  `LinkDropLosesNotice` says exactly whose, `NoticeLost` builds the run.
- A PLI-driven encoder reset is preceded by a keyframe request in its episode, unless the
  run opened with a FIR and has not healed since: the exception is exact
  (`ResetIsLastResort`) and happens (`FIRSkipsKeyframe`).
- The SPS scan does not step over a four-byte start code and can repeat one pass forever;
  `ScanTermination` gives the exact condition. forwardVideo scans the first media packet of
  an H.264 stream, and gets past it if and only if that scan stops (`StreamForwards`).
- Trimming the pause buffer drops its keyframe once 300 frames followed it
  (`FlushReturnsRecentKey`), and a flushed keyframe carries parameter sets only while they
  are pending (`ConfigAttachment`).
- `BuildUhidInput` allocates one byte too few: it panics without data, and otherwise its
  report takes the next message's first byte as its own last. It is read as built exactly
  when that byte equals the lost one (`UhidInputReadBack`, `UhidInputSwallows`), and a
  stream is read as sent exactly when it holds no such report and no UHID device whose
  descriptor's length overflows (`StreamDecodes`).
- The device-message parser panics on lengths beyond its 16- and 32-bit sums
  (`DecodeDomain`).
- A session started under a serial whose warm timer is still pending inherits that timer;
  this is the one way to make a timer release a session in use (`SafetyExactly`), and
  cold starts of the serial that do not overlap exclude it (`SequentialIsCalm`).
- A callback is told its serial, not its timer. One left over from an earlier hand-back
  releases the session of a later one before its window has passed (`EarlyExpiry`); arming
  a timer while such a callback is left over is the one way to get there (`OnTimeExactly`,
  `NeverEarly`).
- `expireWarm` drops the map entry even when it releases nothing: a late callback orphans
  the session in use (`ExpireOutcome`, `LateCallbackOrphans`).
- `Session.Release` waits for three channels that only the forwarders close. It can return,
  and give the port back, if and only if audio is on and the session's sockets were once
  opened; otherwise it waits forever (`ReleaseReturnsPort`), so an `Acquire` whose start
  failed never returns (`FailedStartHangs`).
- A pool that starts at port 0 loses it on a failed start, which is why `PortConservation`
  asks for a positive start (`PortZeroLeaks`).
- A quality switch is said to hold the ladder briefly; it holds back downgrades only
  (`QualityHoldExactly`).
- A selected quality tier is kept as a bitrate, so after a configuration change a new
  session may start where the tier no longer stands (`TierInherited`).

## Model

| member | source | states |
|---|---|---|
| `TakeoverClaims.SessionAgreement` | pkg/signaling/server.go:234-296 | in every run, whatever other browsers forge, once both queues are drained and no handler is half way the server has a session in its table iff the agent holds it, as long as what was handled for that session was harmless |
| `TakeoverClaims.Agreement` | pkg/signaling/server.go:234-296 | in every run of connects, messages, leaves, relay preempts, force-closes and a link drop, forged `bound` and `unbound` included while none is harmful, whenever both queues are drained and no handler is half way, the server's session ids equal the agent's session keys and there is at most one |
| `TakeoverClaims.HarmlessExactly` | pkg/signaling/server.go:279-294 | handling a session's `bound` or `unbound` keeps what the two sides share about it iff it is harmless |
| `TakeoverClaims.HonestIsHarmless` | pkg/signaling/server.go:252-276 | the server's own `bound` and `unbound` are never harmful |
| `TakeoverClaims.ClaimDecides` | pkg/signaling/server.go:279-294 | from every such state with one message left for the agent, reading everything in flight ends in agreement iff that message is harmless |
| `TakeoverClaims.ForgedUnboundExactly` | pkg/signaling/server.go:279-294 | from every state at rest, a connected browser's own `unbound` ends in agreement iff it holds nothing, and then changes nothing |
| `TakeoverClaims.ForgedBoundExactly` | pkg/signaling/server.go:279-294 | from every state at rest, a connected browser's own `bound` gives it the device, and ends in agreement iff it held it already |
| `TakeoverClaims.DrainConverges` | pkg/signaling/server.go:129-154 | from every such state with no handler half way, just reading what is in flight leads to that agreement, as long as each message is harmless when its turn comes |
| `TakeoverClaims.HonestConverges` | pkg/signaling/server.go:252-276 | in runs without forged messages it always does |
| `Takeover.SingleSession` | agent/controller.go:538-576 | in every run, whatever browsers write, `sessions` is empty or exactly `{currentSessionID}`, and the session limit never refuses anybody |
| `Takeover.NewestHolds` | agent/controller.go:566-569 | whoever holds the device is the session that started last |
| `TakeoverNotices.OustedIsTold` | pkg/signaling/server.go:342-356 | while the link is up, a connected browser has its `preempted` in flight or was sent it iff its session was started and it holds the device no longer; harmful messages of its own are excluded, those of others are not |
| `TakeoverNotices.LinkDropLosesNotice` | pkg/signaling/server.go:362-373 | under the same condition, after a link drop a connected browser with a started session is never told iff it still held the device, or its notice was in flight and none had been read |
| `TakeoverNotices.NoticeLost` | pkg/signaling/server.go:362-373 | a run in which an ousted browser is never told |
| `TakeoverEvents.EventsBalance` | agent/controller.go:538-703 | in every run, forged messages included, a session's stops, those still to come and its lost starts are together its starts and overlaps |
| `TakeoverEvents.ExactlyOnce` | agent/controller.go:617-625 | in every run, whatever is forged for others, a session that is not bound again starts at most once; once gone it was reported stopped exactly once iff no preemption overlapped a force-close of it |
| `TakeoverEvents.HonestStartsOnce` | pkg/signaling/server.go:252-257 | runs without forged messages bind no session again |
| `TakeoverEvents.RestartExactly` | agent/controller.go:566-575 | a step leaves a session at one start at most iff it does not bind it again |
| `TakeoverEvents.ForgedBoundRestarts` | pkg/signaling/server.go:279-294 | a run in which a browser's own `bound` makes its session start twice and stop once |
| `TakeoverEvents.StopReportedOnRemoval` | agent/controller.go:689-703 | in every run the step that removes a session nobody is force-closing is the step that reports its stop |
| `TakeoverEvents.ReasonsExactly` | agent/controller.go:581-703 | in every run events are only added, and every stop carries its reason: the user's for an unbound, forced for a takeover, the platform's text or forced for a force-close, the agent's for a lost link |
| `TakeoverEvents.OverlapReportsTwice` | agent/controller.go:328-343 | a run in which a newcomer arrives during a force-close and the stop is reported twice |
| `TakeoverClaims.ForgedUnboundBreaksAgreement` | pkg/signaling/server.go:279-294 | a run in which a browser's own `unbound` leaves both sides in lasting disagreement, with the link up and nobody told |
| `TakeoverDelivery.RepliesArrive` | pkg/signaling/server.go:129-154 | in every run what a browser was written is what its session sent, once, in order and from the first on; while it is in the server's table nothing is lost, the rest is on the way |
| `TakeoverDelivery.WrittenToOwner` | pkg/signaling/server.go:325-356 | in every run every message written went to the browser it names |
| `TakeoverDelivery.ReadExactly` | pkg/signaling/server.go:138-154 | one reply read is written to its browser if that is in the table and leaves the table alone; a `preempted` is written likewise and removes it; nothing else is written |
| `TakeoverDelivery.SignalsArrive` | pkg/signaling/server.go:279-294 | in every run the agent's loop reads what a browser wrote once, in order and from the first on; while the link is up the rest is on the way |
| `TakeoverDelivery.RelaysAnswered` | agent/controller.go:637-659 | in every run the answers are those to the relay requests the agent read, in order; while the link is up none is lost |
| `TakeoverDelivery.HandledExactly` | agent/controller.go:460-529 | in every run a bound gives its session the device and tells another holder, an unbound takes the session away, a relay preempt takes the device from whoever holds it and tells that one, and nothing else changes who holds it |
| `ControllerModel.Controller.HandleBound` | agent/controller.go:538-578 | refuses exactly at the session limit; otherwise preempts the current session, registers the new one, reports and sends exactly what the protocol step says |
| `ControllerModel.Controller.HandleUnbound` | agent/controller.go:581-629 | removes and stops the session, goes idle, and reports `user_unbound` unless it was force-preempted; unknown ids change nothing |
| `ControllerModel.Controller.HandleRelayPreempt` | agent/controller.go:637-659 | preempts the current session if any and always answers the relay |
| `ControllerModel.Controller.PreemptAndWait` | agent/controller.go:664-704 | marks, notifies, stops, removes and reports one session and touches no other |
| `ControllerModel.Controller.ForceCloseBegin` | agent/controller.go:328-343 | an unknown id is an error and changes nothing; a known one is marked and its browser notified while it stays registered |
| `ControllerModel.Controller.ForceCloseFinish` | agent/controller.go:678-703 | after the wait the session is removed and reported with the platform's reason, `forced` if that is empty |
| `ControllerModel.Controller.HandleMessage` | agent/controller.go:460-529 | every message has the effect of its protocol step; default messages reach the addressed context or nobody |
| `ControllerModel.Controller.ShutdownAll` | agent/controller.go:1530-1556 | every session is stopped, forgotten and reported once, in the order the map was walked |
| `SignalingServerModel.Server.Enter` | pkg/signaling/server.go:244-250 | adds one connection with a fresh id |
| `SignalingServerModel.Server.Leave` | pkg/signaling/server.go:266-280 | removes that connection's id and no other, also when it is gone already |
| `SignalingServerModel.Server.PreemptBrowser` | pkg/signaling/server.go:342-356 | exactly the addressed browser is told, then closed and removed; an unknown id changes nothing |
| `SignalingServerModel.Server.ForwardToBrowser` | pkg/signaling/server.go:325-334 | the message is written to the connection with its session id, and to nobody if there is none |
| `SignalingServerModel.Server.CloseBrowsersForAgent` | pkg/signaling/server.go:362-373 | every connection is closed and forgotten |
| `SignalingServerModel.Server.HandleAgentMessage` | pkg/signaling/server.go:129-154 | a reply is written to the connection with its id and changes nothing else; a `preempted` is written to it, then closes and removes it; an id nobody has and relay answers change nothing |
| `RedFormat.DecodeBuild` | agent/internal/webrtc/peer.go:201-229 | a decoder for section 3 of RFC 2198 inverts the encoder, with the clamped timestamp offset; the exact packet length |
| `RedFormat.OffsetExact` | agent/internal/webrtc/peer.go:209-212 | the redundant timestamp is the true one iff the mod-2^32 distance is at most 0x3FFF |
| `RedSenderModel.RedSender.Write` | agent/internal/webrtc/peer.go:160-194 | the packet written and the state kept are those of the specification, on every path; `RedExactly` says which they are |
| `RedSenderModel.RedSender.SetEnabled` | agent/internal/webrtc/peer.go:132-139 | switching off forgets the remembered packet |
| `RedSenderModel.RedSender.SetPayloadTypes` | agent/internal/webrtc/peer.go:144-150 | ready iff both payload types were negotiated |
| `RedSenderModel.RedPacketsDecode` | agent/internal/webrtc/peer.go:180-194 | in every run each RED packet is at most 1400 bytes and decodes to the remembered payload, if any, and the primary; other packets are untouched |
| `RedSenderModel.RemembersLastActive` | agent/internal/webrtc/peer.go:164-179 | what is sent redundantly is the packet last written while RED was active, unless RED was switched off since |
| `RedSenderModel.RedExactly` | agent/internal/webrtc/peer.go:160-194 | over every run, from the events alone: a packet goes out as RED iff RED was switched on last, the types negotiated last are both nonzero and the RED packet has at most 1400 bytes; it then has the negotiated RED type and its own timestamp, and otherwise goes out unchanged |
| `RedSenderModel.LossRecovery` | agent/internal/webrtc/peer.go:160-229 | for every set of losses, a lost packet is rebuilt iff its successor arrived, its length is 1 to 1023 and both fit in 1400 bytes; payload always exact, timestamp exact iff at most 0x3FFF ticks apart |
| `RedSenderModel.RemembersPredecessor` | agent/internal/webrtc/peer.go:132-194 | with one negotiation per sender and RED switched on and off at will, what is sent redundantly is the packet written last, or nothing |
| `RedSenderModel.UpToDateExactly` | agent/internal/webrtc/peer.go:144-150 | the only event that would leave an older packet behind takes the payload types away while one is remembered |
| `RedSenderModel.RunLossRecovery` | agent/internal/webrtc/peer.go:132-229 | in every such run the next packet written gives back a lost one iff RED was on when the lost one was written and stayed on in between, its length is 1 to 1023 and both fit in 1400 bytes; payload always exact, timestamp exact iff at most 0x3FFF ticks apart |
| `PliRecovery.PeerManager.HandlePLI` | agent/internal/webrtc/peer.go:837-926 | one PLI changes state and requests actions as specified, throttles and healing included |
| `PliRecovery.PeerManager.HandleFIR` | agent/internal/webrtc/peer.go:928-942 | one FIR resets the encoder unless one did in the last 15 s |
| `PliRecovery.PeerManager.UpdateFramesDecoded` | agent/internal/webrtc/peer.go:776-781 | only growth counts as progress |
| `PliRecovery.ResetRate` | agent/internal/webrtc/peer.go:818-942 | over every run any three resets span at least 15 s |
| `PliRecovery.ResetPair` | agent/internal/webrtc/peer.go:861-942 | any two resets less than 15 s apart are a PLI-driven one and then a FIR-driven one |
| `PliRecovery.KeyframeRate` | agent/internal/webrtc/peer.go:836-857 | keyframe requests are at least 1 s apart |
| `PliRecovery.ResetIsLastResort` | agent/internal/webrtc/peer.go:861-926 | before a PLI-driven reset a keyframe was requested in the same episode iff the run did not open with a FIR or has healed since |
| `PliRecovery.FIRSkipsKeyframe` | agent/internal/webrtc/peer.go:928-942 | the exception happens: a PLI-driven reset with no keyframe request before it |
| `PliRecovery.FIRFollowsClosely` | agent/internal/webrtc/peer.go:933-942 | the close pair happens |
| `PliRecovery.RepeatedReset` | agent/internal/webrtc/peer.go:837-926 | from any reset to a later PLI-driven one of the same episode more than 15 s pass, and no keyframe is requested in between |
| `PliRecovery.EscalationExactly` | agent/internal/webrtc/peer.go:861-926 | in every episode, first or later, an accepted PLI of a stuck decoder resets the encoder for the first time in it iff it is the sixth or later or more than 3 s after the first, and the last reset, of whichever episode, is 15 s ago |
| `PliRecovery.BoundedEscalation` | agent/internal/webrtc/peer.go:836-926 | in every episode the reset comes no later than the sixth accepted PLI once 15 s have passed since the last reset |
| `PliHistory.HistoryDecides` | agent/internal/webrtc/peer.go:818-942 | over every run the requests are exactly those the events call for: which PLIs are heard (1 s, 10 s after a reset), which open an episode and request a keyframe, every further one a keyframe until the sixth or 3 s, then a reset or nothing for 15 s, a repeated reset after more than 15 s, and a FIR a reset once in 15 s |
| `AnnexB.MergePreservesNals` | agent/internal/gateway/session.go:46-67 | under the splitter of section B.1 of ITU-T H.264 the merged unit holds exactly the configuration's NAL units and then the payload's, for every configuration |
| `AnnexB.MergeExactly` | agent/internal/gateway/session.go:46-67 | the merged unit is the configuration, 00 00 00 01 unless the configuration ends with 00 00 01, and the payload |
| `AnnexB.CutGlue` | agent/internal/gateway/session.go:46-67 | the reference splitter loses no byte |
| `AnnexB.CutCodeFree` | agent/internal/gateway/session.go:46-67 | and leaves no start code inside a piece |
| `AnnexB.EnsureCode` | agent/internal/gateway/session.go:690-699 | a payload that starts with 00 00 00 01 or 00 00 01 is unchanged, and 00 00 00 01 is put before every other one |
| `AnnexB.FindStartCode` | agent/internal/gateway/protocol.go:156-172 | the two loops compute the specified first code, inside the data |
| `AnnexB.FirstCodeIsLeftmost` | agent/internal/gateway/protocol.go:156-172 | a code is found iff 00 00 01 occurs: the leftmost four-byte code if there is one, else the leftmost three-byte code |
| `AnnexB.ExclusionIsDead` | agent/internal/gateway/protocol.go:165-168 | the branch that skips the tail of a four-byte code is never taken |
| `AnnexB.FindSPSInAnnexB` | agent/internal/gateway/protocol.go:175-217 | the scan after any number of passes is the specified one |
| `AnnexB.ScanTermination` | agent/internal/gateway/protocol.go:184-214 | it ends iff the rest holds no 00 00 00 01, or its first one is past position 0 and the first byte is an SPS header, and then the SPS is what precedes it; otherwise each further pass changes nothing |
| `AnnexB.ScanFindsFirstSps` | agent/internal/gateway/protocol.go:184-214 | without four-byte codes the scan returns exactly the first SPS between start codes, or none, where a first byte 01 of a unit does not count |
| `AnnexB.ConfigPacketScan` | agent/internal/gateway/protocol.go:184-203 | on a configuration packet in the usual layout it returns the SPS |
| `VideoTiming.PtsNormalizer.Normalize` | agent/internal/gateway/session.go:481-505 | one call returns and stores the specified value |
| `VideoTiming.NormalizedIsElapsed` | agent/internal/gateway/session.go:481-505 | over every stream of raw times the output is the sum of forward deltas plus 16 ms per rollback, and never decreases |
| `VideoTiming.ClampNeverFires` | agent/internal/gateway/session.go:500-503 | the final clamp changes nothing |
| `PauseBuffer.FlushReturnsRecentKey` | agent/internal/gateway/session.go:519-574 | the buffer holds at most 300 frames, a keyframe only at index 0, and a flush yields the newest paused keyframe iff at most 299 frames followed it |
| `VideoForwarder.Session.BufferPausedVideo` | agent/internal/gateway/session.go:519-532 | the buffer after one frame |
| `VideoForwarder.Session.FlushPausedVideo` | agent/internal/gateway/session.go:534-574 | the first keyframe, with the given parameter sets in front; the buffer is empty afterwards |
| `VideoForwarder.Session.ForwardPacket` | agent/internal/gateway/session.go:639-744 | one loop round changes state and emits as specified, for H.264 and other codecs |
| `VideoRuns.ConfigAttachment` | agent/internal/gateway/session.go:534-744 | of the samples after a configuration packet, the first and every live keyframe start with it, and no other sample gets anything in front |
| `VideoRuns.AttachmentPreservesNals` | agent/internal/gateway/session.go:725-738 | a decoder sees the configuration's NAL units, then the frame's own |
| `VideoStream.NewestIsWire` | agent/internal/gateway/protocol.go:39-45 | for the frames of the wire, the configuration in force is the payload of the newest one with the configuration bit |
| `VideoStream.WireLive` | agent/internal/gateway/session.go:607-744 | a frame puts something on VideoCh iff it is not paused and, with H.264, no configuration; the last of it has its payload behind a start code, its keyframe bit, and 1000 times the microseconds elapsed on the device |
| `VideoStream.WireShown` | agent/internal/gateway/session.go:607-744 | under any pause pattern everything put on VideoCh or in the pause buffer is a frame of the wire with its payload and keyframe bit, and with H.264 never a configuration |
| `VideoStream.StreamAttachment` | agent/internal/gateway/session.go:607-744 | for the packets read off any byte stream, after any number of them: what is emitted after the newest frame with the configuration bit carries that frame's payload in front on its first sample and on every live keyframe, which a decoder reads as its NAL units and then the frame's own, and on no other |
| `VideoStream.StreamForwards` | agent/internal/gateway/session.go:607-744 | what is handled are the frames written to the socket, in order, with their bits, payloads and times; all of them iff the codec is not H.264, there is no media packet or the SPS scan of the first one stops, and otherwise only those before it |
| `VideoRuns.EmittedInOrder` | agent/internal/gateway/session.go:674-744 | timestamps on VideoCh never go back under any rollbacks and pauses; a live sample carries exactly the elapsed device time |
| `VideoRuns.LiveSample` | agent/internal/gateway/session.go:674-744 | a live sample is its own frame, lasting the raw gap when that is between 0 and 4.7 s, else 33 ms |
| `VideoRuns.BufferIsHistory` | agent/internal/gateway/session.go:717-721 | the pause buffer is a function of the frames paused since the last unpaused one |
| `VideoRuns.UnpauseFlush` | agent/internal/gateway/session.go:703-716 | the first unpaused frame is preceded by the newest paused keyframe iff at most 299 frames followed it |
| `PacketReader.Reader.ReadPacket` | agent/internal/gateway/protocol.go:113-151 | one read consumes one packet or fails as specified |
| `PacketReader.HeaderBits` | agent/internal/gateway/protocol.go:113-151 | a packet byte by byte: the top bit of the header marks session metadata, the next two are the configuration and keyframe flags, the other 61 the time, bytes 8 to 12 the length of the payload that follows |
| `PacketReader.OutcomeExactly` | agent/internal/gateway/protocol.go:113-151 | fewer than 12 bytes are cut short; session metadata is read from 12; a media packet is read iff its size is from 1 to 50,000,000 and all of it is there, and size 0 and a greater size are errors of their own |
| `PacketReader.StreamReadsBack` | agent/internal/gateway/protocol.go:113-151 | every stream of packets and session metadata is read back as written |
| `VideoPump.RtpFollowsVideo` | agent/internal/webrtc/peer.go:981-986 | RTP time follows VideoCh over the wrap-around, and samples up to 182 ms apart fit a RED timestamp offset |
| `DeviceMessages.ParseDeviceMessages` | agent/internal/gateway/control.go:259-301 | the loop computes the recursive parse |
| `DeviceMessages.DecodeDomain` | agent/internal/gateway/control.go:303-321 | decoding panics iff a text exceeds 2^32-6 or a UHID payload 65530 bytes |
| `DeviceMessages.NeverFails` | agent/internal/gateway/control.go:293-296 | the error return is unreachable |
| `DeviceMessages.ControlReader.OnRead` | agent/internal/gateway/session.go:841-867 | one read delivers the messages of leftover plus chunk |
| `DeviceMessages.ChunkInvariance` | agent/internal/gateway/session.go:846-866 | however the stream is cut, the messages and leftover are those of one parse of the whole, and a crash is a crash of the whole |
| `DeviceMessages.ParseStream` | agent/internal/gateway/control.go:259-301 | encoded messages with noise bytes between parse back exactly |
| `DeviceMessages.ParseExplains` | agent/internal/gateway/control.go:259-301 | whatever is parsed is what the stream is made of |
| `ControlMessages.StreamDecodes` | agent/internal/gateway/control.go:70-252 | for every list of calls that do not panic, the bytes built decode to the messages sent iff none is a UHID report or a UHID device with an oversized descriptor |
| `ControlMessages.UniquelyDecodable` | agent/internal/gateway/control.go:70-252 | equal byte streams of delimited messages were built from equal messages |
| `ControlMessages.DecodeUhidCreate` | agent/internal/gateway/control.go:185-212 | a UHID device is delimited iff its descriptor's length fits 16 bits |
| `ControlMessages.TextsOnWire` | agent/internal/gateway/control.go:147-212 | a clipboard text keeps its first 262130 bytes on the wire and a name its first 255, with that length before them; a report descriptor keeps all its bytes, with its length modulo 2^16 |
| `ControlMessages.UhidInputReadBack` | agent/internal/gateway/control.go:214-221 | the builder panics iff there is no data; a report is read back iff its length fits 16 bits and the byte after it equals its lost last one |
| `ControlMessages.UhidInputSwallows` | agent/internal/gateway/control.go:214-221 | in a stream the report takes the next message's first byte as its own last, and is read as built iff that changes nothing |
| `ControlBuilders.BuildInjectKeycode` | agent/internal/gateway/control.go:70-78 | the buffer is the message's layout |
| `ControlBuilders.BuildInjectText` | agent/internal/gateway/control.go:80-95 | the buffer is the layout with the truncated text |
| `ControlBuilders.BuildInjectTouch` | agent/internal/gateway/control.go:97-110 | the buffer is the message's layout |
| `ControlBuilders.BuildInjectScroll` | agent/internal/gateway/control.go:112-123 | the buffer is the message's layout |
| `ControlBuilders.BuildChangeBitrate` | agent/internal/gateway/control.go:136-141 | the layout, with the bitrate modulo 2^32 |
| `ControlBuilders.BuildSetClipboard` | agent/internal/gateway/control.go:147-163 | the layout, with the text cut at 262130 bytes |
| `ControlBuilders.BuildStartApp` | agent/internal/gateway/control.go:173-183 | the layout, with the name cut at 255 bytes |
| `ControlBuilders.BuildUhidCreate` | agent/internal/gateway/control.go:185-212 | the layout, with the name cut and the descriptor length modulo 2^16 |
| `ControlBuilders.BuildUhidInput` | agent/internal/gateway/control.go:214-221 | a panic, or the layout without its last byte |
| `ControlBuilders.BuildUhidDestroy` | agent/internal/gateway/control.go:223-228 | the buffer is the message's layout |
| `ControlBuilders.BuildResizeDisplay` | agent/internal/gateway/control.go:246-252 | the buffer is the message's layout |
| `Utf8Text.TruncateText` | agent/internal/gateway/control.go:80-89 | the loop computes the truncation |
| `Utf8Text.ValidExactly` | agent/internal/gateway/control.go:87 | the bytes that are valid are exactly the encodings, by section 3 of RFC 3629, of sequences of code points without surrogates |
| `Utf8Text.TruncateText300` | agent/internal/gateway/control.go:80-89 | text over 300 bytes is cut to the longest such encoding that its first 300 bytes begin with; of encoded text at most 3 of those bytes are lost, and shorter text stays as it is |
| `BitrateLadder.SessionCtx.MaybeAdjustBitrate` | agent/controller.go:1440-1504 | one report changes the ladder as specified, and nothing without a running session; the history lemmas below say when and to what |
| `BitrateLadder.SessionCtx.ApplyQualityLevel` | agent/controller.go:799-813 | a quality switch sets tier, bitrate and hysteresis, and stores the tier on the controller |
| `BitrateLadder.Controller.SetQuality` | agent/controller.go:347-364 | the bitrate configured for `clear`, `hd` or `original` is stored, or its default; every other name is an error and changes nothing |
| `BitrateLadder.Controller.NewSessionCtx` | agent/controller.go:734-763 | a new session starts at the stored tier, or at the configured bitrate when none was selected |
| `BitrateLadder.TierInherited` | agent/controller.go:787-794 | later sessions inherit the selected tier; after a configuration change iff the tier's bitrate is unchanged or was zero when selected |
| `BitrateLadder.LadderBounds` | agent/controller.go:1417-1504 | over every run, quality switches included, the bitrate stays between tier and floor and ladder changes are at least 30 s apart |
| `BitrateLadder.UpgradeAfterQuiet` | agent/controller.go:1493-1504 | every upgrade goes straight to max(tier, floor) after at least 30 s in which all reports had loss below 2 % |
| `BitrateLadder.DowngradeAfterHold` | agent/controller.go:1474-1479 | over every run a downgrade answers more than 2 % loss, at least 30 s after every earlier ladder change and quality switch |
| `BitrateLadder.QualityHoldExactly` | agent/controller.go:803-805 | within 30 s of a quality switch the ladder changes iff the new tier is below the floor and low loss had lasted 30 s |
| `BitrateLadder.StepMonotone` | agent/controller.go:1417-1436 | more loss never means more bitrate, and no loss goes below a quarter or the floor |
| `LadderHistory.HistoryDecides` | agent/controller.go:1417-1504 | over every run, from the reports and switches alone, the bitrate changes exactly when and to what they call for: all, 3/4, 1/2 or 1/4 of the tier by loss over 2, 5 and 10 %, never below the floor, 8,000,000 without a tier |
| `LadderHistory.LowersExactly` | agent/controller.go:1474-1479 | over every run a report with more than 2 % loss lowers the bitrate iff the table's is below the present one and nothing changed it in the last 30 s |
| `LadderHistory.RaisesExactly` | agent/controller.go:1493-1504 | over every run a report raises it iff the table's is above the present one and reports were below 2 % for 30 s, or nothing was set |
| `WarmPool.Manager.Lookup` | agent/internal/gateway/manager.go:38-54 | a usable session is reused and its timer cancelled; a dead one is dropped and released |
| `WarmPool.Manager.Insert` | agent/internal/gateway/manager.go:66-70 | a started session enters the map |
| `WarmPool.Manager.ReleaseNow` | agent/internal/gateway/manager.go:75-87 | the session leaves the map with its timer and is released |
| `WarmPool.Manager.HandBack` | agent/internal/gateway/manager.go:93-114 | an alive session gets a timer, a dead one is released, an unknown serial is ignored |
| `WarmPool.Manager.ExpireWarm` | agent/internal/gateway/manager.go:117-132 | the entry goes in any case; the session is released iff its timer is still there |
| `WarmPool.SafetyExactly` | agent/internal/gateway/manager.go:38-141 | a serial's pending timer belongs to a pooled session that nobody uses after a step iff the step does not insert a session of that serial over it, given it did before |
| `WarmPool.ExpirySafety` | agent/internal/gateway/manager.go:38-141 | in every run without such an insertion for that serial, late callbacks included and whatever other serials do, what expires was handed back and not acquired since |
| `WarmPool.SequentialIsCalm` | agent/internal/gateway/manager.go:38-70 | cold starts of a serial that do not overlap never insert over its timer |
| `WarmPool.TimersBelong` | agent/internal/gateway/manager.go:93-141 | in every run without such an insertion for a serial, its pending timer has a session in the map, which is not in use |
| `WarmPool.OnTimeExactly` | agent/internal/gateway/manager.go:93-132 | a pending timer is the only one of its serial that can call back after a step iff the step does not arm it while an earlier callback is left over, given it was before |
| `WarmPool.NeverEarly` | agent/internal/gateway/manager.go:117-132 | in every run without such an arming for that serial, what releases a session is its own timer's callback |
| `WarmPool.EarlyExpiry` | agent/internal/gateway/manager.go:110-125 | a run in which a left-over callback releases a session whose own timer is still pending |
| `WarmPool.ReleasedOnce` | agent/internal/gateway/manager.go:38-132 | in every run no session is released twice, and no pooled session was ever released |
| `WarmPool.ExpireOutcome` | agent/internal/gateway/manager.go:117-132 | a callback releases the session iff its timer is still pending, and loses track of it otherwise |
| `WarmPool.LateCallbackOrphans` | agent/internal/gateway/manager.go:119-129 | a run in which a late callback orphans a session in use |
| `WarmPool.OverlapBreaksSafety` | agent/internal/gateway/manager.go:66-68 | a run with overlapping cold starts in which a session in use is released |
| `WarmHistory.HistoryDecides` | agent/internal/gateway/manager.go:38-132 | over every run, from the calls alone: which session a serial has, which timer of its is pending, what was released, which sessions are in use and which callbacks may still run |
| `WarmHistory.HistoryEnables` | agent/internal/gateway/manager.go:38-132 | over every run, from the calls alone, which steps can come next |
| `WarmHistory.LookupReuses` | agent/internal/gateway/manager.go:38-54 | a lookup reuses the kept session iff it is alive, cancelling its timer; otherwise it begins a cold start |
| `PortPoolModel.Pool.Acquire` | agent/internal/portpool/portpool.go:23-35 | takes the lowest free port, or nothing when all are used |
| `PortPoolModel.Pool.Release` | agent/internal/portpool/portpool.go:37-41 | frees exactly that port |
| `PortPoolModel.Session.StartSession` | agent/internal/gateway/session.go:195-222 | every failure path gives the port back; success keeps it |
| `PortPoolModel.Session.ReleasePort` | agent/internal/gateway/session.go:268-273 | gives back a nonzero port once |
| `PortPoolModel.Session.StartForwarders` | agent/internal/gateway/session.go:238-257 | the first call starts one forwarder a channel, audio only when it is on; later calls do nothing |
| `PortPoolModel.Session.ForwarderReturns` | agent/internal/gateway/session.go:244-252 | a forwarder that returns closes its own channel and no other |
| `PortPoolModel.Session.ReleaseBegin` | agent/internal/gateway/session.go:888-906 | the first release waits, a second one returns at once |
| `PortPoolModel.Session.ReleaseEnd` | agent/internal/gateway/session.go:914-918 | once the three channels are drained the port is given back |
| `PortPoolModel.PortConservation` | agent/internal/gateway/session.go:195-273 | in every run used ports are exactly the sessions' nonzero ports, distinct and in range |
| `PortPoolModel.StartExactly` | agent/internal/gateway/session.go:195-222 | in every run a start succeeds iff its steps do and a port is free, and then holds the lowest free one; a failed one holds none and leaves the pool as it was |
| `PortPoolModel.AcquireFailsWhenFull` | agent/internal/portpool/portpool.go:23-35 | acquiring fails iff all ports are held |
| `PortPoolModel.DrainExactly` | agent/internal/gateway/session.go:906-914 | in every run a release's wait is over iff audio is on, forwarders were started, before or after it, and all have returned |
| `PortPoolModel.ReleaseReturnsPort` | agent/internal/gateway/session.go:888-918 | a waiting release can ever return and give the port back iff audio is on and the session's sockets were once opened |
| `PortPoolModel.FailedStartHangs` | agent/internal/gateway/manager.go:62-65 | the release of a session whose start failed waits forever |
| `PortPoolModel.PortZeroLeaks` | agent/internal/gateway/session.go:268-273 | a run of a pool that starts at 0 after which a used port belongs to no session |

## Left out

- Sockets, ADB processes, WebSocket and pion internals: their outcomes are inputs of the steps (a start fails or succeeds, a browser leaves, the link drops).
- Forwarders started on a session that was never connected, which would crash: the only caller starts them on sessions that `Acquire` returned.
- Data races below one handler or lock section; handlers that wait are one step, except that a force-close is split at its wait.
- An agent that reconnects while browsers are connecting: one agent connection, whose loss clears both sides.
- The relay channel's bookkeeping (`relaySessions`): relay requests reach the agent, their answers are not routed further.
- Busy reports from the peer connection, and stream-dead reports: asynchronous and independent of the session maps. docs/GRPC-API.md:549 promises a stopped event with reason `stream_dead`; no code emits one.
- What a session sends under an id that was never a connection: contexts exist only for ids that were bound.
- Messages with an empty session id: the server always fills it in.
- Stop signals that cut a send short in `forwardVideo` and `controlReader`.
- Profile-level-id extraction around the SPS scan, SDP rewriting, the FEC on/off decision, audio forwarding, logging and debug hooks.
- Floating-point scaling of touch pressure and scroll distance: the scaled 16-bit values are the builders' inputs. Loss rates are real numbers.
- The hexadecimal copy of UHID payloads in device messages; it is derived from the payload.
- Integer overflow of absolute timestamps, and the size of the drop that the ladder logs.
- AnnexB.FindSPSInAnnexB: takes a bound on the number of passes, because the source's loop may never end; `ScanTermination` says when it does.
- PacketReader.Reader.ReadPacket: the stream is everything the socket will deliver; how it is cut into reads is invisible to `io.ReadFull`.
