# A verified model of LocalIM's protocols

LocalIM is a chat, call, file-transfer and remote-control system for a local network. A native daemon
talks to its peers and to a relay over WebSockets it implements itself; a web page talks to peers over
data channels. This project models the protocols that the daemon and the page run by hand and proves
what they promise over every input, every run and every interleaving.

Objects whose methods update fields are classes here (`WsConnection`, `RelayClient`, `Receiver`,
`Sender`, `RelayServer`, `Daemon`, `RoomManager`, `RoomControl`, `PeerRegistry`, `CallDesk`, `ShareHost`,
`MessageStore`, `PeerGate`). Each method is proved equal to a function of the old state, and the theorems
are proved about those functions, over whole runs.

| files | subject |
|---|---|
| `WsFrames`, `WsLayout`, `FrameStream`, `WsDelivery`, `WsConnection` | WebSocket frames (sections 5.2 and 5.3 of RFC 6455), the incremental decoder, one connection |
| `Handshake`, `HeadedStream`, `RelayClient` | the second decoder, behind an HTTP answer head |
| `FileTransfer`, `FileRuns`, `FileFrames`, `FileResume`, `FileLateDigest`, `FileSession` | resumable file transfer |
| `RelayServer`, `RelayViews` | the relay's routes and what each connection has been told |
| `PeerLink`, `PeerDelivery`, `PeerDialing`, `Daemon` | dialling, the held frame, the offline queue |
| `Rooms`, `RoomHistory`, `RoomReplication` | rooms and their copies on other devices |
| `Addresses`, `AddressRanking`, `PeerRegistry` | subnets, candidate ranking, the peer index |
| `CallAnswer`, `CallProgress`, `CallFiles` | answering incoming calls and files |
| `RemoteArming`, `RemoteWho`, `RemoteSafety` | screen shares, controllers and the input injector |
| `MessageLedger`, `Envelope` | the message history file; sealed and signed envelopes |
| `Arithmetic`, `Options` | division and powers of two; values that may be absent |

## What the code does, where it is less than it says

Where a property holds only under a condition, the condition is stated. It is proved in both directions
where this list says exactly or if and only if; elsewhere an input shows the failure.

- A close frame ends a parse call, so frames behind it wait for the next read: the cutting of a stream is
  irrelevant exactly if no complete frame follows a close frame (`CuttingIndependence`). A comment says a
  close frame makes the upper layer disconnect and fragments count as failures; the code does neither, it
  drops fragments and unknown opcodes silently.
- Bytes that arrive with the client handshake's answer are all delivered exactly if another read follows or
  they hold no complete frame (`HandshakeLeftoverWaits`).
- A frame over 64 MiB is never consumed and blocks its connection for good (`OversizedBlocks`).
- An answer head is survived however it is cut exactly if it has at most 65537 bytes (`HeadLimit`).
- The relay client keeps its queue and its flag over a reconnection, so the next connection's answer is read
  as frames, behind whatever was left (`ReconnectedReads`). With nothing left, the relay's own answer of 129
  bytes makes the client swallow exactly the first 75 bytes of what follows, however it is cut
  (`SecondConnectionMisread`). With a text frame left that was cut behind its header, the answer's first bytes
  complete it and the mixture is passed on (`LeftoverFrameIsMixed`).
- A resumed session hands a file over if and only if it is not empty (`ResumeCompletes`).
- Resuming costs no byte twice if every resume is answered, older sessions of a file fall silent once a newer
  one is heard, and no cancellation of a file arrives while a rebuilt copy of that file waits for its digest.
  Cancellations at any other time, of any file, do no harm (`OnlyMissingBytesAreSent`); one that overtakes the
  digest lets the late digest drop a record begun since, as a run from the empty page shows
  (`LateDigestCostsBytes`). A cancellation after the channel has closed gives up nothing, because sending the
  notice fails first.
- A peer removed while it is being dialled leaves a plan behind that is half used up when the dial then fails.
  An idle link holds such a plan exactly if that happened and it has not dialled on since
  (`LeftoverExactlyIfAbandoned`). The next frame tries only the rest of it, so it can be dropped at once with
  the peer reachable (`LeftoverPlanDropsFrame`).
- A frame sent while another one waits for a dial takes its place, and if the plan has no more addresses both are
  dropped although the dial in flight may still succeed (`FrameWhileDialing`, `SecondFrameDisplacesFirst`,
  `SecondFrameLosesBoth`).
- What relay connections have been told is the route table at every moment of a run if and only if none of
  them changes its device in it (`ViewsExactIffNoRename`). One that does is told of itself, and its closing
  leaves a dead route (`RenameSpoils`, `RenameLeavesDeadRoute`).
- A member's own leave, and the owner's re-join, are reported to nobody; when that breaks agreement is stated
  exactly (`MemberLeaveBreaks`, `OwnerJoinBreaks`).
- Every local IPv4 address is in its own subnet, so the primary one is simply the first that is not
  loopback, not the most private one (`PrimaryIsFirstUsable`).
- The slot for an offer that waits is shared by all calls: any other offer, a file transfer's too, empties
  it and the accepted call stays unanswered (`DisplacedOfferIsLost`). A voice or video call accepted before
  its offer adds its tracks twice; a browser that rejects that leaves the call unanswered
  (`EarlyAcceptWithTracks`). Whether it rejects is a parameter.
- The daemon reads the hosting flag as a string, so a boolean `false` arms the injector: it stays armed after
  the last one-to-one remote call has ended (`EndedCallStaysArmed`), and a hang-up arms it while the screen
  capture is still awaited, and at the controlling end (`HangupArms`). Ending a share disarms it under another
  share's controllers and under a remote call that is still up (`EndedShareDisarmsCall`). It is armed at every
  moment exactly while somebody controls or this screen is hosted, if and only if no such step happens
  (`ArmedExactlyIffNeverSpoiled`).
- A viewer who hangs up while in control stays in control; which steps leave such a controller is stated
  exactly (`ControllersViewUnlessStranded`, `StrandedControlStays`).
- Without a passphrase every frame passes, and a sealed packet is delivered sealed (`PlaintextPasses`,
  `InboundExactly`).
- A signed frame with a known sender and nonce is refused unless the memory of nonces overflowed and was
  cleared in between (`ReplayNeedsOverflow`).

## Model

| member | source | states |
|---|---|---|
| `WsFrames.EncodeServerFrame` | native/core/ws_connection.cc:232-249 | the pushed bytes are the frame with the shortest of the three length forms |
| `WsFrames.EncodeClientFrame` | native/core/ws_connection.cc:251-275 | the same, masked byte by byte with the four key bytes |
| `WsFrames.ScanFrame` | native/core/ws_connection.cc:30-66 | one turn of the scanner recognises exactly the frame that the specification reads, asks for more, or meets an oversized length |
| `WsFrames.Unmask` | native/core/ws_connection.cc:60-63 | unmasking in place is the byte-wise exclusive or with the key |
| `WsFrames.XorTwice` | native/core/ws_connection.cc:62 | exclusive or with the same byte twice restores the byte |
| `WsFrames.MaskInvolution` | native/core/ws_connection.cc:60-63 | masking twice with one key restores the payload, for every key |
| `WsFrames.BigEndianRoundTrip` | native/core/ws_connection.cc:39-48 | a length read from its big-endian bytes is the length written |
| `WsFrames.NextFrameStable` | native/core/ws_connection.cc:29-66 | bytes that arrive later never change the verdict on a frame already recognised or refused |
| `WsFrames.NextFrameOwnBytes` | native/core/ws_connection.cc:58-66 | a frame is recognised from its own bytes alone |
| `WsFrames.ProperPrefixNeedsMore` | native/core/ws_connection.cc:41-58 | no proper prefix of a frame is consumed or emitted |
| `WsFrames.ServerFrameRoundTrip` | native/core/ws_connection.cc:232-249 | decoding an encoded server frame in front of any bytes gives back opcode, payload and size, or refuses exactly the payloads over 64 MiB |
| `WsFrames.ClientFrameRoundTrip` | native/core/ws_connection.cc:251-275 | the same for masked frames, whatever the key |
| `WsLayout.XorIsXor` | native/core/ws_connection.cc:62-64 | bit by bit, the combination of two bytes is set exactly where they differ |
| `WsLayout.ServerFrameLayout` | native/core/ws_connection.cc:232-249 | on the wire: final bit and opcode, the shortest length form most significant byte first, and the payload itself |
| `WsLayout.ClientFrameLayout` | native/core/ws_connection.cc:251-275 | on the wire: the same with the mask bit, the key least significant byte first, and payload byte i set in exactly the bits in which it differs from key byte i modulo 4 |
| `WsLayout.ScanVerdict` | native/core/ws_connection.cc:30-58 | a queue is refused exactly if its length is there and declares more than 64 MiB, and holds a frame exactly if the declared payload is there |
| `WsLayout.ScanLayout` | native/core/ws_connection.cc:30-66 | the frame recognised: final bit, opcode, size, and each payload byte, combined bit by bit with its key byte exactly if the mask bit is set |
| `WsLayout.RelayScanLayout` | native/core/discovery/relay_client.cc:30-50 | what the second decoder recognises, byte by byte: no mask, and no bound but 64 bits |
| `WsLayout.HandedUp` | native/core/ws_connection.cc:69-75 | of the frames taken, exactly those with the final bit and opcode 1 are handed up |
| `WsLayout.CloseEndsTheCall` | native/core/ws_connection.cc:69 | opcode 8, and no other, ends a parse call |
| `WsLayout.RelayHandsUp` | native/core/discovery/relay_client.cc:195-201 | of the frames taken, exactly those with opcode 1 and an opening brace become events |
| `WsLayout.HeadLayout` | native/core/discovery/relay_client.cc:181-190 | a head ends exactly behind its first empty line |
| `WsLayout.AcceptedAnswers` | native/core/ws_connection.cc:152-159 | exactly the answers that open with the status line for 101 or the bare status are accepted |
| `FrameStream.Decoder.ParseTakes` | native/core/ws_connection.cc:29-76 | a parse call takes a run of frames ending at the first close frame, and loses or reorders nothing |
| `FrameStream.Decoder.ParseThenArrive` | native/core/ws_connection.cc:182-196 | parsing commutes with the arrival of more bytes |
| `FrameStream.Decoder.ReadsConserve` | native/core/ws_connection.cc:182-196 | however the stream is cut, frames taken so far followed by those still queued are the frames of the whole stream |
| `FrameStream.Decoder.CuttingIndependence` | native/core/ws_connection.cc:69 | frames and left-over bytes are the same for every cutting if and only if no complete frame follows a close frame |
| `FrameStream.Decoder.ByteAtATime` | native/core/ws_connection.cc:182-196 | read byte by byte, everything is delivered even behind close frames |
| `FrameStream.Decoder.ArrivedPrefix` | native/core/ws_connection.cc:97-111 | what was taken from an arrived part is a prefix of the frames of the whole, and all of them at the end |
| `WsDelivery.WsLawful` | native/core/ws_connection.cc:29-66 | the daemon's scanner meets what the stream theorems need |
| `WsDelivery.WireRoundTrip` | native/core/ws_connection.cc:29-76 | any concatenation of encoded text frames, masked or not, parses back into exactly those frames and leaves nothing |
| `WsDelivery.ReliableDelivery` | native/core/ws_connection.cc:182-196 | the receiver has always been given a prefix of the payloads sent, and all of them once the wire has arrived |
| `WsDelivery.HandshakeLeftoverWaits` | native/core/ws_connection.cc:156-163 | bytes behind the handshake answer are delivered exactly if another read follows or they hold no complete frame |
| `WsDelivery.OversizedBlocks` | native/core/ws_connection.cc:49-50 | an oversized frame and everything behind it is never delivered |
| `WsConnection.WsConnection.TryParse` | native/core/ws_connection.cc:29-76 | the queue and the deliveries after the loop are those of the specified parse, and the result tells of a close frame |
| `WsConnection.WsConnection.StartReadingWith` | native/core/ws_connection.cc:97-111 | the first bytes are parsed at once, as one read |
| `WsConnection.WsConnection.OnRead` | native/core/ws_connection.cc:182-196 | an empty read closes; any other keeps queue and deliveries those determined by all reads so far |
| `WsConnection.WsConnection.OnHandshakeRead` | native/core/ws_connection.cc:141-163 | waits for the blank line, refuses other answers, and queues what is behind it |
| `WsConnection.WsConnection.SendText` | native/core/ws_connection.cc:165-172 | a closed connection accepts nothing; else the frame is queued behind the others |
| `WsConnection.WsConnection.TryWriteNext` | native/core/ws_connection.cc:198-212 | keeps: bytes given to the socket followed by those queued are the request and all accepted frames, in order |
| `WsConnection.WsConnection.OnWrite` | native/core/ws_connection.cc:214-222 | keeps the same and drains the queue, or closes |
| `Handshake.FindHeadEnd` | native/core/discovery/relay_client.cc:181-190 | finds the end of the first blank line, or none |
| `Handshake.HeadEndSpec` | native/core/discovery/relay_client.cc:181-190 | that position is the only one that is a first blank line |
| `Handshake.HeadEndStable` | native/core/discovery/relay_client.cc:181-190 | bytes behind a complete head do not move its end |
| `HeadedStream.HeadLimit` | native/core/discovery/relay_client.cc:181-190 | the client survives every cutting if and only if the head has at most 65537 bytes |
| `HeadedStream.HeadedDelivery` | native/core/discovery/relay_client.cc:166-203 | frames behind a head are decoded as if there had been none, however head and frames are cut |
| `RelayClient.DecodersAgree` | native/core/discovery/relay_client.cc:29-59 | the relay client's decoder reads a server frame within the bound exactly as the connection's does |
| `RelayClient.RelayLawful` | native/core/discovery/relay_client.cc:29-59 | it meets what the stream theorems need |
| `RelayClient.RelayDelivery` | native/core/discovery/relay_client.cc:166-203 | on a first connection, any cutting of head and text frames yields a prefix of the JSON payloads, in order, and all of them at the end |
| `RelayClient.EventsAreJsonPayloads` | native/core/discovery/relay_client.cc:195-201 | the events of a sent sequence are exactly its payloads that open with a brace |
| `HeadedStream.ReconnectedReads` | native/core/discovery/relay_client.cc:98-106 | after a reconnection, for every left-over queue and every cutting, what is passed on is that of the left-over bytes followed by the whole new stream, answer included |
| `RelayClient.SecondConnectionMisread` | native/core/discovery/relay_client.cc:98-106 | with nothing left over, the relay's answer makes the client pass on exactly what the stream behind it holds from its 76th byte on, for every cutting |
| `RelayClient.LeftoverFrameIsMixed` | native/core/discovery/relay_client.cc:98-106 | a left-over text frame is completed with the next connection's first bytes and that mixture comes first |
| `RelayClient.TooLongExactly` | native/core/discovery/relay_client.cc:41-50 | which headers make position plus length leave 64 bits |
| `RelayClient.RelayClient.ScanServerFrame` | native/core/discovery/relay_client.cc:30-50 | one turn of the scanner is the specified one |
| `RelayClient.RelayClient.TryParseServerFrames` | native/core/discovery/relay_client.cc:30-58 | queue and events after the loop are those of the specified parse |
| `RelayClient.RelayClient.OnRecv` | native/core/discovery/relay_client.cc:166-203 | one read takes the client to the specified next state, while the head arrives and after |
| `FileTransfer.LandFaithful` | ui/src/client/webrtc.ts:138-143 | a chunk of the source landing at its index, in any order and repeatedly, keeps chunks, prefix and counter a faithful part of the source |
| `FileTransfer.RebuiltIsSource` | ui/src/client/webrtc.ts:150-154 | the counter reaches the size if and only if the joined prefix is the source byte for byte |
| `FileTransfer.ResumeAtFirstGap` | ui/src/client/webrtc.ts:305-310 | the start index computed from the acknowledged byte count is exactly the first missing chunk |
| `FileTransfer.JoinOfSlices` | ui/src/client/webrtc.ts:150-154 | joining the chunks below an index gives the source up to that chunk |
| `FileRuns.ScriptAt` | ui/src/client/webrtc.ts:257-301 | which frame the sending loop has sent at each position |
| `FileRuns.HonestDelivery` | ui/src/client/webrtc.ts:85-148 | at every point of an honest channel the next frame fits what the session expects |
| `FileRuns.StepKeepsInv` | ui/src/client/webrtc.ts:85-321 | every step of sender, channel, receiver or digest keeps all records faithful and all rebuilt files equal to their source |
| `FileRuns.RunIsSafe` | ui/src/client/webrtc.ts:85-321 | the same over every run with any number of sessions, interruptions, cancellations and resumptions |
| `FileRuns.EveryTransferIsFaithful` | ui/src/client/webrtc.ts:129-165 | every file handed over from the start is its source, non-empty, and passes its digest |
| `FileFrames.HandedOverIsComposed` | ui/src/client/webrtc.ts:85-169 | whoever sends, in any order on any session: every file handed over was announced as reported, its bytes are chunks of it that arrived, joined from index 0 without a gap, and the report says whether they have the announced digest, or nothing without one |
| `FileFrames.AnnouncementStarts` | ui/src/client/webrtc.ts:97-109 | from any sender: an announcement with the size on record carries the record on, any other starts an empty one; no other file is touched |
| `FileFrames.ControlFrames` | ui/src/client/webrtc.ts:110-126 | from any sender: what headers, ends, questions and answers change, and that they change nothing else |
| `FileFrames.ChunkLands` | ui/src/client/webrtc.ts:130-146 | from any sender: a chunk lands at the announced index, the prefix ends at the first gap, the file is rebuilt exactly if the prefix has the announced size |
| `FileFrames.ReadyHandsOver` | ui/src/client/webrtc.ts:150-169 | a ready digest hands over exactly one file, with the comparison, and takes its record |
| `FileFrames.SourceKeptUntil` | ui/src/client/webrtc.ts:242-285 | in every step: the sender gives a source up if and only if a loop for it ends over an open channel, finished or by telling the receiver of a cancellation |
| `FileFrames.TurnPuts` | ui/src/client/webrtc.ts:276-299 | what a turn puts on the channel: the next 65536 bytes behind their header, one cancellation, or nothing |
| `FileFrames.StoppedLoop` | ui/src/client/webrtc.ts:220-256 | however often a transfer is cancelled or interrupted before the next turn, that turn ends it, and the receiver is told if and only if there was no interruption |
| `FileFrames.ResumeBegins` | ui/src/client/webrtc.ts:305-320 | a resumed loop begins at the first chunk not wholly reported, or at 0 without an answer; late answers change nothing |
| `FileResume.LandInOrder` | ui/src/client/webrtc.ts:138-143 | a chunk at the first gap extends the prefix by exactly one |
| `FileResume.OrderlyStep` | ui/src/client/webrtc.ts:85-321 | with acknowledged resumes, and no cancellation delivered while a rebuilt copy of its file waits for its digest, each session starts, and stays, at its record's first gap |
| `FileResume.OnlyMissingBytesAreSent` | ui/src/client/webrtc.ts:304-310 | in such runs, with cancellations of any file, every completed file has cost exactly its size in received bytes |
| `FileLateDigest.LateDigestCostsBytes` | ui/src/client/webrtc.ts:113-168 | a run from the empty page in which a cancellation overtakes the digest: the late digest drops the record begun since, and a chunk that was received lies behind a gap |
| `FileResume.OrderlyFromTheStart` | ui/src/client/webrtc.ts:304-310 | the same from the empty page, without assumptions on the state |
| `FileResume.ResumeCompletes` | ui/src/client/webrtc.ts:304-310 | one undisturbed resumed session rebuilds the source at the cost of the missing bytes, and hands it over if and only if the file is not empty |
| `FileSession.Receiver.OnChannelMessage` | ui/src/client/webrtc.ts:85-148 | one frame takes page and session to the specified state and answers as specified |
| `FileSession.Receiver.Accept` | ui/src/client/webrtc.ts:137-143 | the loop that advances the prefix ends at the first gap with the bytes passed added |
| `FileSession.RecvStore.FinishReceive` | ui/src/client/webrtc.ts:150-155 | the loop joins the chunks below the prefix in index order |
| `FileSession.RecvStore.OnDigest` | ui/src/client/webrtc.ts:156-169 | the file is handed over with the comparison of digests and the bytes its record counts by then, and the file's current record is dropped |
| `FileSession.RecvStore.Drop` | ui/src/client/webrtc.ts:150-168 | a dropped record stays with the rebuilt files that came from it, with its final count |
| `FileSession.Sender.SendFile` | ui/src/client/webrtc.ts:231-235 | an open channel gets the announcement first, a closed one nothing |
| `FileSession.Sender.Turn` | ui/src/client/webrtc.ts:257-301 | one turn sends one chunk with its header, or stops as cancelled, interrupted, cut off or done |
| `FileSession.Sender.OnResumeAck` | ui/src/client/webrtc.ts:305-319 | the loop restarts at the index computed from the answer |
| `FileSession.Sender.OnResumeTimeout` | ui/src/client/webrtc.ts:316-318 | without an answer it restarts at 0 |
| `RelayServer.RelayServer.Register` | native/core/discovery/relay_server.cc:244-280 | displacement, record, replay, route and broadcast leave exactly the specified state |
| `RelayServer.RelayServer.ReplayRoster` | native/core/discovery/relay_server.cc:267-273 | the walk sends one online event per other route with a live holder, in walk order |
| `RelayServer.RelayServer.BroadcastExcept` | native/core/discovery/relay_server.cc:323-327 | every other registered connection, and no one else, gets the event |
| `RelayServer.RelayServer.OnClientMessage` | native/core/discovery/relay_server.cc:209-242 | only messages with a device and no or the register operation register |
| `RelayServer.RelayServer.OnClientClosed` | native/core/discovery/relay_server.cc:329-342 | the route goes and an offline event is sent only if the route still names this connection |
| `RelayViews.MessageRegisters` | native/core/discovery/relay_server.cc:209-280 | a message of an open connection that names a device, with no operation or "register", leaves the device routed to it with the record of the message, field by field, and everybody else as told; any other message changes nothing |
| `RelayViews.RouteLeadsToLatest` | native/core/discovery/relay_server.cc:244-342 | in every run the route of a device leads to the connection that registered it last, until that closes |
| `RelayViews.HoldersAlways` | native/core/discovery/relay_server.cc:251-259 | in every run a device has at most one holder and its route names it |
| `RelayViews.EmptyIsGood` | native/core/discovery/relay_server.cc:244-342 | a relay without connections meets what the run theorems start from |
| `RelayViews.DisplacedStaysQuiet` | native/core/discovery/relay_server.cc:329-341 | closing a displaced connection at any later time removes no route and announces nothing |
| `RelayViews.RegisterKeepsGood` | native/core/discovery/relay_server.cc:244-280 | a first or repeated registration leaves every view equal to the route table |
| `RelayViews.ClosedKeepsGood` | native/core/discovery/relay_server.cc:329-342 | so does a closing |
| `RelayViews.StepExact` | native/core/discovery/relay_server.cc:209-342 | a step keeps every view exact if and only if it does not change the device a connection holds |
| `RelayViews.ViewsExactIffNoRename` | native/core/discovery/relay_server.cc:244-342 | in every run: every registered connection's folded events are the route table without its own device, at every moment, if and only if no connection changes its device |
| `RelayViews.RenameSpoils` | native/core/discovery/relay_server.cc:266-274 | a connection that changes its device is told of itself |
| `RelayViews.RenameLeavesDeadRoute` | native/core/discovery/relay_server.cc:329-342 | after that, its closing leaves the old device routed to nobody and unannounced |
| `PeerDelivery.StepKeeps` | native/core/daemon.cc:503-650 | every send, announcement, dial result or closing keeps queue, history and delivered chats consistent |
| `PeerDelivery.ChatsInOrderOnce` | native/core/daemon.cc:605-650 | in every run, chats handed over followed by those queued are those sent, in order, once, except exactly those the cap of 500 pushed out; an open connection has an empty queue |
| `PeerDelivery.StartIsOk` | native/core/daemon.cc:605-650 | a link to an unknown peer meets what the run theorem starts from |
| `PeerDelivery.DialNextEffect` | native/core/daemon.cc:503-589 | a dial, however many candidates fail, leaves the queue alone or hands all of it over |
| `PeerDialing.ReportAdvances` | native/core/daemon.cc:553-589 | the report of a dial takes the plan to a strictly larger index, with everything before it failed, or to its end |
| `PeerDialing.DialAdvances` | native/core/daemon.cc:503-551 | so does starting the next dial, whether connects return at once or later |
| `PeerDialing.FrameTriesWholePlan` | native/core/daemon.cc:503-589 | whatever is announced, reported, closed or chatted until the plan ends, but no other frame and no loss of the record: the plan's addresses, from where it stands, are tried once each in order up to the first reachable one; there the queue of that moment and then the frame go out; the frame is dropped only after all failed, and the queue is kept |
| `PeerDialing.QueueTriesWholePlan` | native/core/daemon.cc:605-650 | the same for a chat to an idle peer on record and for the announcement of an idle peer with chats queued: the addresses are tried in order up to the first reachable one, and there the whole queue of that moment goes out; if none is reachable the queue is kept |
| `PeerDialing.QueueIsTheNewest` | native/core/daemon.cc:611-617 | that queue is the last 500 of those queued and those sent meanwhile, in order |
| `PeerDialing.WhileConnected` | native/core/daemon.cc:467-477 | what each event does while a connection is open |
| `PeerDialing.WhileNotConnected` | native/core/daemon.cc:553-650 | what each event does without one, when it starts no dial |
| `PeerDialing.FrameWhileDialing` | native/core/daemon.cc:503-551 | a frame sent during a dial goes with the next address of the plan, or is dropped with the one held if there is none |
| `PeerDialing.SecondFrameDisplacesFirst` | native/core/daemon.cc:529-530 | a frame sent while another is held: the first one is never sent |
| `PeerDialing.SecondFrameLosesBoth` | native/core/daemon.cc:547-550 | a run in which both are lost although the dial then succeeds |
| `PeerDialing.StepLeftover` | native/core/daemon.cc:503-510 | which events leave an idle link with a plan half used up, and which end that |
| `PeerDialing.LeftoverExactlyIfAbandoned` | native/core/daemon.cc:503-567 | in every run an idle link holds a plan if and only if a failed dial was reported while the record was gone and nothing has made the link dial on since |
| `PeerDialing.LeftoverPlanDropsFrame` | native/core/daemon.cc:545-550 | a run in which such a plan makes a frame for a reachable peer vanish without a dial |
| `Daemon.Daemon.DialNext` | native/core/daemon.cc:503-551 | the specified next dial for this device, every other device unchanged, and the mutual recursion ends |
| `Daemon.Daemon.OnPeerDialResult` | native/core/daemon.cc:553-589 | success connects, sends the queue and then the held frame; failure forgets the route and dials on |
| `Daemon.Daemon.FlushQueue` | native/core/daemon.cc:629-640 | the whole queue is handed over in order, only over an open connection |
| `Daemon.Daemon.QueueOffline` | native/core/daemon.cc:611-617 | the queue keeps the newest 500 |
| `Daemon.Daemon.MaybeRedeliver` | native/core/daemon.cc:643-650 | an announced peer gets its queue, over the connection or after a dial |
| `Daemon.Daemon.EnsureConnection` | native/core/daemon.cc:620-626 | dials only if neither connected nor dialling |
| `Daemon.Daemon.SendChat` | native/core/daemon.cc:976-984 | a chat goes out over the open connection or is queued and redelivery tried |
| `Daemon.Daemon.SendPeerEnvelope` | native/core/daemon.cc:467-477 | any other frame goes out over the open connection or is held for a dial |
| `Daemon.Daemon.OnPeerOnline` | native/core/daemon.cc:1258-1259 | an announcement records the peer and redelivers |
| `Daemon.Daemon.OnPeerOffline` | native/core/daemon.cc:1309-1311 | the record goes, and nothing else |
| `Daemon.Daemon.OnOutgoingClosed` | native/core/daemon.cc:599-602 | a closing leaves the queue alone |
| `Daemon.Daemon.PeerCandidates` | native/core/daemon.cc:479-492 | the remembered route is rotated to the front of the ranked addresses |
| `Rooms.RoomManager.Create` | native/core/session/room_manager.cc:11-23 | a new room holds its owner |
| `Rooms.RoomManager.AddMember` | native/core/session/room_manager.cc:41-50 | the member is in the room and the sequence number advances, or the room is unknown |
| `Rooms.RoomManager.Leave` | native/core/session/room_manager.cc:29-39 | the member is out, and an empty room is gone |
| `Rooms.RoomManager.Upsert` | native/core/session/room_manager.cc:57-73 | the copy becomes the announced table |
| `Rooms.RoomControl.Invite` | native/core/daemon.cc:1042-1064 | only the owner invites; the invited device and the others on record get the new table |
| `Rooms.RoomControl.Kick` | native/core/daemon.cc:1065-1085 | only the owner removes; the removed device is told, the others get the new table |
| `Rooms.RoomControl.LeaveRoom` | native/core/daemon.cc:1029-1041 | an owner's leave is told to the remaining members, a member's to nobody |
| `Rooms.RoomControl.OnRoomSignal` | native/core/daemon.cc:772-800 | what an arriving room signal does to the copy |
| `Rooms.RoomControl.OnMemberJoined` | native/core/daemon.cc:776-787 | the owner registers a joined member and fans the table out |
| `RoomReplication.StepKeepsInv` | native/core/daemon.cc:772-800 | every step keeps every up-to-date device in agreement with the owner |
| `RoomReplication.CopiesConverge` | native/core/daemon.cc:431-440 | at every moment of a run in which everybody concerned is on record and no leave or join goes unreported: applying what is under way gives each member exactly the owner's table, and leaves every other device with no join under way outside |
| `RoomReplication.CopiesConvergeFromCreation` | native/core/session/room_manager.cc:11-23 | the same from a room's creation, without assumptions on the state |
| `RoomReplication.ReplicasConverge` | native/core/daemon.cc:431-440 | in every run, unreported leaves and joins included, the same for each device whose last news is up to date |
| `RoomReplication.QuietRoomsAgree` | native/core/daemon.cc:1029-1085 | with everybody on record and no silent leave, all copies agree whenever nothing is under way |
| `RoomReplication.CreatedIsGood` | native/core/session/room_manager.cc:11-23 | a newly created room meets what the run theorems start from |
| `RoomReplication.MemberLeaveBreaks` | native/core/daemon.cc:1029-1041 | a member's own leave breaks agreement if and only if it is a member at the owner with nothing under way to it |
| `RoomReplication.OwnerJoinBreaks` | native/core/daemon.cc:1010-1028 | the owner's join breaks agreement if and only if it was not in the table |
| `RoomHistory.MembersByHistory` | native/core/daemon.cc:1010-1085 | in every run a device is a member at the owner if and only if the last event that speaks of it invited it or let it join, or none does and it was one at the start |
| `RoomHistory.TableStep` | native/core/daemon.cc:1010-1085 | each event changes the membership of those it speaks of and nobody else; when a room ends; what the sequence number counts |
| `RoomHistory.NewsGoesOut` | native/core/daemon.cc:1029-1085 | which signal each event puts on the way to each device |
| `RoomHistory.CopyAfterDelivery` | native/core/daemon.cc:772-800 | what an arriving signal makes of a copy, field by field |
| `RoomHistory.CopyAfterOwnStep` | native/core/daemon.cc:1010-1041 | what a device's own joining and leaving make of its copy |
| `Addresses.SameSubnetMeaning` | native/core/discovery/lan_ifaces.cc:26-30 | masks of prefix 1 to 31 compare quotients by the subnet size; other prefixes compare whole addresses |
| `Addresses.SubnetsNest` | native/core/discovery/lan_ifaces.cc:69-75 | sharing a subnet is an equivalence and implies sharing every wider one |
| `Addresses.PrivateRanges` | native/core/discovery/lan_ifaces.cc:54-67 | the shift tests hold exactly on the ranges of section 3 of RFC 1918 and section 7 of RFC 6598 |
| `Addresses.ComputeScore` | native/core/discovery/lan_ifaces.cc:33-50 | the early-return loop computes the specified score |
| `Addresses.PickLocalAddrFor` | native/core/discovery/lan_ifaces.cc:117-124 | the first local address that shares a subnet, else the primary one |
| `Addresses.PrimaryLocalAddr` | native/core/discovery/lan_ifaces.cc:126-137 | the first local address of least score, else 127.0.0.1 |
| `Addresses.BestScoreMeaning` | native/core/discovery/lan_ifaces.cc:33-44 | score 0 if and only if the address is IPv4, not loopback, and the search for an own address succeeds |
| `Addresses.ScoresByRange` | native/core/discovery/lan_ifaces.cc:33-50 | the six scores by ranges of addresses, octet by octet: own subnet, private, link-local, other, loopback, none |
| `Addresses.PrimaryIsFirstUsable` | native/core/discovery/lan_ifaces.cc:126-137 | the primary address is the first non-loopback one, else the first loopback one, else the first |
| `AddressRanking.RankPeerAddrs` | native/core/discovery/lan_ifaces.cc:99-115 | the loop and the stable sort give the ranking |
| `AddressRanking.RankedMembers` | native/core/discovery/lan_ifaces.cc:101-109 | each non-empty candidate is ranked once and nothing else is |
| `AddressRanking.RankedIsTheStableOrder` | native/core/discovery/lan_ifaces.cc:110-113 | the ranking is the one sequence ordered by score that keeps equal scores in order of first occurrence |
| `AddressRanking.DistinctInOrder` | native/core/discovery/lan_ifaces.cc:101-109 | repeats are dropped and the rest keep the order of their first occurrence |
| `AddressRanking.RouteLeads` | native/core/daemon.cc:485-490 | a remembered address leads and the others keep their order; else nothing moves |
| `AddressRanking.PlanHoldsEveryAddress` | native/core/daemon.cc:479-492 | a new plan holds each non-empty known address, and the host, exactly once |
| `AddressRanking.HostComesLast` | native/core/daemon.cc:479-484 | among the addresses of one score those announced come first, in their order, and the record's host last |
| `PeerRegistry.PeerRegistry.Upsert` | native/core/session/peer_registry.cc:10-43 | the merge loop and the fallbacks give the specified record and one notification |
| `PeerRegistry.PeerRegistry.Remove` | native/core/session/peer_registry.cc:45-48 | the peer is gone, with a notification only if it was there |
| `PeerRegistry.PeerRegistry.PruneStale` | native/core/session/peer_registry.cc:50-63 | exactly the peers silent for longer than the timeout go, with one notification if any did |
| `PeerRegistry.KnownWhileAnnounced` | native/core/session/peer_registry.cc:10-63 | in every run a device is known if and only if an announcement of it stands |
| `PeerRegistry.AddressesAreTheUnion` | native/core/session/peer_registry.cc:22-29 | its addresses are the union of all announcements since it was last removed or pruned |
| `PeerRegistry.FieldsAreTheLatest` | native/core/session/peer_registry.cc:30-38 | name, transport and port are the latest announced that were not left open |
| `PeerRegistry.NetmaskIsTheLatest` | native/core/session/peer_registry.cc:30-38 | the netmask is the latest standing announcement's, even if that leaves it open |
| `PeerRegistry.MergeInOrder` | native/core/session/peer_registry.cc:22-29 | behind the announced addresses, those known before keep their order |
| `PeerRegistry.HostIsNamedOrGuessed` | native/core/session/peer_registry.cc:32-34 | the host is the latest one that a standing announcement names; if none names one, the first address known at the earliest repeated announcement at which one was known |
| `CallAnswer.CallDesk.Offered` | ui/src/client/webrtc.ts:492-515 | an offer is answered at once, answered with tracks, or put into the slot, and displaces what was there, as specified |
| `CallAnswer.CallDesk.AcceptIncomingCall` | ui/src/client/webrtc.ts:408-414 | accepting waits for the capture in voice and video calls only |
| `CallAnswer.CallDesk.CaptureEnded` | ui/src/client/webrtc.ts:414-426 | the stream is kept with the call and added, unless it is refused |
| `CallAnswer.CallDesk.TakeWaitingOffer` | ui/src/client/webrtc.ts:427-436 | the waiting offer is taken, or the answer armed and the acceptance sent |
| `CallAnswer.CallDesk.IceArrived` | ui/src/client/webrtc.ts:192-195 | a candidate is applied if the remote description is set, else queued |
| `CallProgress.ContinueStep` | ui/src/client/webrtc.ts:181-213 | one continuation of answering keeps the invariant of the call: every candidate is still accounted for once, one answer at most, in order of its phases; and it neither gives up nor revives an answer |
| `CallProgress.StepKeeps` | ui/src/client/webrtc.ts:181-515 | every handler and continuation, of this or any other call, keeps the call's invariant; and costs it its answer exactly in the two stated cases |
| `CallProgress.AnsweredExactlyOnce` | ui/src/client/webrtc.ts:408-515 | in every orderly interleaving: at most one answer, to the call's own offer and after acceptance; once settled, exactly one if and only if nothing displaced the waiting offer and no repeated track was rejected |
| `CallProgress.CandidatesAppliedOnce` | ui/src/client/webrtc.ts:192-213 | each candidate that arrived is applied, queued or in hand once, and all are applied when the call has settled with a remote description |
| `CallProgress.Settles` | ui/src/client/webrtc.ts:181-213 | from every reachable state finitely many continuations settle the call |
| `CallFiles.FileOfferIsAnswered` | ui/src/client/webrtc.ts:181-213 | from every state: an offer of a file, or of a call never announced, that is not armed never waits, and its continuations alone lead to exactly one answer to it, with every queued candidate applied once in order and nothing else changed |
| `CallFiles.OfferFinishes` | ui/src/client/webrtc.ts:181-213 | from every state, whatever else is being answered, the continuations of one answer send it once |
| `CallFiles.EveryFileOfferIsAnswered` | ui/src/client/webrtc.ts:492-515 | in every run: offers that need no acceptance are answered or being answered, once each; with nothing under way there is exactly one answer per offer and every candidate has been applied once |
| `CallFiles.CandidatesAreConserved` | ui/src/client/webrtc.ts:192-213 | in every run whatever, with any number of offers and acceptances: each candidate is applied, queued or in the hands of one answer, once |
| `CallFiles.CallOffer` | ui/src/client/webrtc.ts:492-515 | which offers are answered at once, which with tracks first, and which wait |
| `CallFiles.CallAccepted` | ui/src/client/webrtc.ts:408-436 | what an announcement and an acceptance do, with and without an offer that waits |
| `CallFiles.CallCaptured` | ui/src/client/webrtc.ts:414-426 | what the end of a capture does, granted, refused, or rejected by the browser |
| `CallProgress.DisplacedOfferIsLost` | ui/src/client/webrtc.ts:506-508 | a run in which a file transfer's offer costs a ringing call its answer |
| `CallProgress.EarlyAcceptWithTracks` | ui/src/client/webrtc.ts:498-501 | accepting a call with tracks before its offer leaves it unanswered if and only if repeated tracks are rejected |
| `RemoteArming.ShareHost.RequestHosting` | native/core/daemon.cc:1103-1107 | the injector is armed afterwards if and only if the flag is the string "true" or any boolean, `false` included |
| `RemoteArming.ShareHost.RemoteCallStarted` | ui/src/client/webrtc.ts:611-613 | starting a one-to-one remote call makes the session and arms nothing yet |
| `RemoteArming.ShareHost.ScreenCaptured` | ui/src/client/webrtc.ts:630-639 | the capture arms the injector if the call is still waiting for it, and does nothing after a hang-up |
| `RemoteArming.ShareHost.RemoteCallJoined` | ui/src/client/webrtc.ts:424-425 | the accepting side has a remote-control session too |
| `RemoteArming.ShareHost.EndRoomShare` | ui/src/client/webrtc.ts:686-704 | the share, its sessions and its controllers go and the injector is disarmed |
| `RemoteArming.ShareHost.CallHungUp` | ui/src/client/webrtc.ts:529-553 | a viewer leaves its share, the last one ends it, any other call ends |
| `RemoteArming.ShareHost.RoomShareForMember` | ui/src/client/webrtc.ts:769-772 | the first share, in opening order, that the member views |
| `RemoteArming.ShareHost.ResolveShareControlRequest` | ui/src/client/webrtc.ts:809-821 | a grant adds the controller and arms, a denial changes nothing |
| `RemoteArming.ShareHost.ShareControlReleased` | ui/src/client/webrtc.ts:594-600 | a viewer's release takes its control and disarms if it was the last |
| `RemoteArming.ShareHost.RevokeShareControl` | ui/src/client/webrtc.ts:824-832 | a revocation does the same by room and name, if there is such control |
| `RemoteArming.ShareHost.EndRoomShareViewer` | ui/src/client/webrtc.ts:722-743 | a removed viewer loses session and control; the last one ends the share |
| `RemoteSafety.ArmedExactlyUnlessSpoiled` | ui/src/client/webrtc.ts:529-848 | from a state where the injector is armed exactly while somebody controls or this screen is hosted in a one-to-one remote call, a step keeps that if and only if it is not one of the stated spoiling steps |
| `RemoteSafety.ArmedExactlyIffNeverSpoiled` | ui/src/client/webrtc.ts:529-848 | over every run from the start it is so at every moment if and only if no step of the run spoils it |
| `RemoteSafety.EndedCallStaysArmed` | ui/src/client/webrtc.ts:546 | a remote call begun, hosted and ended leaves the injector armed with no session and no controller |
| `RemoteSafety.HangupArms` | ui/src/client/webrtc.ts:546 | so does a hang-up during the wait for the capture, and one at the controlling end |
| `RemoteSafety.EndedShareDisarmsCall` | ui/src/client/webrtc.ts:692 | ending a share disarms the injector under a remote call that is up |
| `RemoteSafety.OneShareIsArmedExactly` | ui/src/client/webrtc.ts:809-848 | with one shared room and no one-to-one remote call, after every sequence of steps the injector is armed if and only if somebody controls |
| `RemoteSafety.ControllersViewUnlessStranded` | ui/src/client/webrtc.ts:529-545 | everybody in control still views, unless exactly one of three stated steps happens |
| `RemoteSafety.StrandedControlStays` | ui/src/client/webrtc.ts:594-600 | a controller who no longer views cannot give control back, and revoking still works |
| `RemoteSafety.DistinctCallsKept` | ui/src/client/webrtc.ts:670-680 | calls created afresh keep viewers apart |
| `RemoteWho.WhoControls` | ui/src/client/webrtc.ts:529-848 | in every step: who is in control afterwards, if and only if granted it or not deprived of it |
| `RemoteWho.WhoViews` | ui/src/client/webrtc.ts:529-743 | who views, and over which call |
| `RemoteWho.WhatIsShared` | ui/src/client/webrtc.ts:529-743 | which rooms are shared |
| `RemoteWho.WhatSessions` | ui/src/client/webrtc.ts:529-743 | which sessions there are, and what for |
| `RemoteWho.WhatCalls` | ui/src/client/webrtc.ts:529-743 | which call carries which share |
| `RemoteWho.WhatArms` | ui/src/client/webrtc.ts:529-848 | from every state, whether as it should be or not: which events arm and disarm the injector |
| `RemoteWho.ShareFound` | ui/src/client/webrtc.ts:769-772 | the share found for a member is the one opened first of those it views |
| `RemoteWho.SharesAreListed` | ui/src/client/webrtc.ts:686-772 | in every run the list names every share once |
| `RemoteWho.ListStep` | ui/src/client/webrtc.ts:686-772 | shares are listed in the order in which they were opened |
| `MessageLedger.MessageStore.Load` | native/core/session/message_store.cc:36-53 | the items are the messages of the file's non-blank parsable lines, in order |
| `MessageLedger.MessageStore.AppendMessage` | native/core/session/message_store.cc:55-76 | a message with a twin, without text form or unwritable changes nothing; any other is appended to file and items |
| `MessageLedger.MessageStore.Latest` | native/core/session/message_store.cc:78-94 | the two index loops give the last `limit` items of the conversation, oldest first |
| `MessageLedger.UniqueAndReloadable` | native/core/session/message_store.cc:36-76 | over any appends and restarts no two items share a conversation and a nonce, and reading the file gives exactly the items |
| `MessageLedger.NothingIsLost` | native/core/session/message_store.cc:55-76 | items never move or go, and a written message is there, itself or its earlier twin |
| `MessageLedger.HistoryAfterAppend` | native/core/session/message_store.cc:78-94 | an added message is the newest of its own history and changes no other |
| `MessageLedger.AppendedExactly` | native/core/session/message_store.cc:55-76 | a message is added if and only if it has a text form, the file can be written and no item of its conversation has its nonce |
| `MessageLedger.LinesRead` | native/core/session/message_store.cc:44-49 | what a line is read as, whoever wrote it: white space around it does not count, and a blank or unparsable line is passed over |
| `MessageLedger.HistoryIsTheTail` | native/core/session/message_store.cc:78-94 | a history is the last items of the conversation, as many as asked for |
| `MessageLedger.MatchingMeaning` | native/core/session/message_store.cc:83-87 | a conversation's items are all the ledger holds of it, each as often, and none of another |
| `MessageLedger.SplitConcat` | native/core/session/message_store.cc:44-45 | splitting at line feeds is compatible with joining at one |
| `Envelope.SealTwice` | native/core/daemon.cc:276-289 | sealing a sealed packet changes nothing |
| `Envelope.OpenSealed` | native/core/daemon.cc:276-309 | a sealed packet opens again, and to the very packet if and only if that had no marks of its own |
| `Envelope.MacInputInjective` | native/core/cipher.cc:78-87 | the authenticated text determines body, time and nonce if body and time have no line feed |
| `Envelope.PeerGate.VerifyPeerFrame` | native/core/daemon.cc:313-358 | verdict and remembered nonces are the specified ones, in the order of the checks |
| `Envelope.HonestFrameAccepted` | native/core/daemon.cc:313-358 | an honest frame is accepted if and only if it is at most two minutes off and its sender and nonce are not remembered |
| `Envelope.MessageRoundTrip` | native/core/daemon.cc:360-373 | seal, wrap, sign, write, read, verify and open restore sender and packet |
| `Envelope.AcceptedIsAuthentic` | native/core/cipher.cc:89-102 | without hash collisions, an accepted frame with an honest frame's signature is that frame |
| `Envelope.ReplayNeedsOverflow` | native/core/daemon.cc:340-347 | a frame accepted twice had the memory overflow in between, and came within four minutes |
| `Envelope.PlaintextPasses` | native/core/daemon.cc:311-315 | without a passphrase every frame passes, in every run, and none is remembered |
| `Envelope.PlainRoundTrip` | native/core/daemon.cc:360-373 | without a passphrase, or without a body, a message arrives as it was and travels in the clear |
| `Envelope.VerdictExactly` | native/core/daemon.cc:313-358 | with a passphrase: exactly which frames are accepted and which are remembered, with the two minutes, the 65536 entries and the authenticated text written out |
| `Envelope.InboundExactly` | native/core/daemon.cc:668-712 | exactly which envelopes deliver nothing; a sealed packet is delivered sealed where there is no passphrase |
| `Envelope.SealedExactly` | native/core/daemon.cc:276-289 | exactly which packets are sealed, and that only body and marks are touched |
| `Envelope.EnvelopeFields` | native/core/daemon.cc:360-373 | the fields of what leaves, with the three marks if there is a passphrase |

## Left out

- Sockets, accept loops, multicast, threads and callback lifetimes: each callback is one step, and network answers are arguments.
- WsConnection.WsConnection.OnWrite: does not model short writes; like the code it takes a finished write for the whole frame.
- WsConnection.WsConnection.OnRead: reads may be of any size, not at most 16 KiB.
- RelayClient.RelayClient.ScanServerFrame: a length that makes position plus length wrap around 64 bits, which only the ten greatest lengths do, is taken for a frame that never completes, where the code goes on with the wrapped sum and may never leave its loop.
- RelayClient.DecodersAgree: within the 64 MiB bound only, because the relay client has no bound.
- RelayServer.RelayServer.ReplayRoster: the order of the route walk is an argument, any enumeration of the routes, where the code walks them by device id.
- RelayViews.ViewsExactIffNoRename: views count from the moment a connection takes its route; events that reached it before are not part of its view.
- PeerDelivery.ChatsInOrderOnce: chats to one peer are numbered in the order they are sent, and an open connection accepts what it is handed during a flush.
- PeerDialing.FrameTriesWholePlan: assumes no other frame to the peer while its plan runs, because the code holds one frame only; what a second one does is `FrameWhileDialing`.
- Daemon.Daemon.PeerCandidates: peers are given by their ranked addresses; the ranking itself is in `AddressRanking`.
- RoomReplication.ReplicasConverge: one room is followed; channels deliver in order and lose nothing, and room ids are arguments.
- FileRuns.RunIsSafe: backpressure and its probes only delay a turn of the loop, so they are left to the order of events.
- FileFrames.ReadyHandsOver: handing over is a step of its own; without an announced digest the code does it in the same turn, which is one of the orders covered, and a digest that cannot be computed is not modelled.
- Addresses.ComputeScore: which strings are IPv4 literals is a parameter.
- AddressRanking.RankPeerAddrs: `std::stable_sort` is a function shown to be the only stable order.
- CallProgress.AnsweredExactlyOnce: for a call announced before its one offer and accepted once at a time; renegotiation of an answered call, hang-ups and failing descriptions are not modelled.
- CallProgress.ContinueStep: an applied candidate is one handed to the connection, whether or not the connection could use it.
- RemoteArming.ShareHost.ViewerInvited: a share opened again while its first opening is still inviting viewers is taken to invite into the new one.
- MessageLedger.MessageStore.AppendMessage: a failed write leaves nothing in the file; a torn line is not modelled.
- Envelope.PeerGate.VerifyPeerFrame: times are exact integers; a timestamp so close to the 64-bit limit that the window overflows is not modelled.
- Envelope.HonestFrameAccepted: encryption, keyed hash, hexadecimal and JSON texts are parameters with inverse laws.
- Views, styles, login, the static web server, input injection, build scripts and the development stub of the daemon: user interface and operating-system calls.
- The file-session ledger, the identity file, toasts and the roster display: one-branch facts.
