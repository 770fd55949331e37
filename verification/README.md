# A verified model of pipie

Pipie connects two machines through a tunnel. A client and a daemon agree on a pair over a signalling
server; both ends punch a UDP hole to each other or fall back to a relay; the connection is secured, checked
and multiplexed; and over it TCP connections are forwarded. This project models these four parts in Dafny and
proves what they guarantee, for every input, every run and every interleaving.

`dafny verify dfyconfig.toml` checks everything.

| file | contents |
|---|---|
| `ForwardLoops.dfy`, `CommandStream.dfy`, `Tunnel.dfy`, `TunnelTheorems.dfy`, `TunnelOrder.dfy` | the port-forward command protocol: the two loops, both ends of the command stream, and the machine of all pairings and streams |
| `TunnelData.dfy`, `TunnelDelivery.dfy`, `Pumps.dfy`, `SignalFraming.dfy` | the bytes of the tunnel, the copy pumps, the JSON lines |
| `Permission.dfy`, `Daemon.dfy`, `SignalClient.dfy`, `Signalling.dfy`, `SignallingTheorems.dfy` | the signalling exchange between one daemon and any number of clients |
| `Wire.dfy`, `ExchangeCodec.dfy`, `TransferFrame.dfy`, `BinaryForm.dfy` | the binary form of the exchange messages, the transfer header, the receive buffers, and that they carry the symbolic messages |
| `Traversal.dfy`, `HolePunch.dfy` | one traversal round at one peer, and two peers with their concurrent senders |
| `IdentityCheck.dfy`, `PairConnection.dfy` | the checks on a fresh stream, the builder, paths, roles and modes |
| `Wrappers.dfy` | `Option`, `byte`, the mode strings |

Loops and records that the program changes in place are methods and classes here, proved against functions on
values; what runs concurrently is a machine with a step relation over those functions, and the theorems are
about all its runs.

What is assumed: mux streams are reliable and in order, and `Accept` returns each opened stream at most once;
writes to the command stream do not fail; cryptography is symbolic (a sealed payload opens only under its own
key and nonce, random draws are fresh, hashes do not collide on the inputs at hand); participants follow the
protocol and packets reach the address they name, any number of times or never; datagrams of the kind `fromPeer`
come only from the paired peer.

## Findings

Each has its input or run as a lemma or method, named in brackets.

- The accepted pipe returns before its token is deleted (`internal/pipie/daemon.go:252-259`). When the pipe
  session fails, a repeated response is confirmed again and starts a second session
  [`PipeTokenIsConfirmedTwice`]. When it ends well, the daemon is asked to stop, and a repeated response is
  confirmed only if it is read before the socket is closed; the model has both orders.
- A forward whose goroutine cannot be started, because the tomb is dead, has been confirmed already: the client
  completes and has no session (`internal/pipie/daemon.go:297`) [`DeadTombLeavesClientAlone`].
- The client may start a pairing before the server does, since the agreement is written first
  (`lib/io/port_forward_server.go:191-196`) [`ClientMayPairFirst`]. `PairingsAreConserved` gives the exact condition.
- Connections may be matched against the order of their requests (`lib/io/port_forward_server.go:220`)
  [`MatchingMayCrossOver`], and, after a client pairing that ended early, even requests made one after the other
  [`EarlyEndCrossesOver`]. `CrossesIff` gives the exact condition.
- The mode check makes one read only (`lib/io/port_forward_client.go:57-59`): a short read fails it even though
  the rest is under way [`ShortReadFailsTheCheck`].
- Bytes that a read returns together with an error are dropped by both pumps (`lib/io/util.go:49-69`)
  [`CopiesEverythingIff`].
- A port above 65535 passes the check untruncated and is then cut to 16 bits (`internal/pipie/daemon.go:264-303`)
  [`CutPortIsUsed`].
- An empty datagram makes the daemon index an empty slice (`internal/pipie/daemon.go:138`); the panic is recovered
  [`OnlyEmptyDatagramsCrash`].
- A record of the rendezvous server with an address that does not resolve, such as a port that is no number, fails
  an assertion and crashes the traversal (`lib/pairconnect/conn_builder.go:474-478`) [`UnresolvableRecordCrashes`].
- The first error in `tlsIdentityCheck` is overwritten by the second write (`lib/pairconnect/pair_conn.go:327-328`),
  as `TlsIdentityCheck` states.

## Model

| member | source | states |
|---|---|---|
| ForwardClient.PortForwardClientLoop.Run | lib/io/port_forward_client.go:164-257 | A whole schedule of picks has the effects of `RunLoop`, in order. |
| ForwardClient.EveryConnectionIsReleasedOnce | lib/io/port_forward_client.go:171-255 | Against any peer and any schedule: every connection taken from the listener is pending or was handed to a pairing or closed exactly once, each cost exactly one Connect, and none is held after the loop is left. |
| ForwardClient.LoopIsADialogue | lib/io/port_forward_client.go:179-256 | Over every schedule the two-state loop is exactly the conversation it stands for, read two events at a time: ask for each connection, pair or close it as the answer says, and end on anything out of turn, giving up a connection that was asked for. |
| ForwardServer.PortForwardServerLoop.Run | lib/io/port_forward_server.go:140-203 | A whole schedule of commands and dial outcomes has the effects of `RunLoop`, up to the event that ends it. |
| ForwardServer.EveryRequestIsAnsweredOnce | lib/io/port_forward_server.go:146-202 | Against any client: the answers, in order, tell the outcomes of the dials of the Connects read, one each; the pairings started are exactly the dialed connections, in dial order, each right after its own agreement; the loop goes on exactly as long as no Bye, end of the commands or dying tomb comes. |
| CommandStream.ChecksDecide | lib/io/port_forward_client.go:57-90 | Against any peer, at both ends: the mode check is passed exactly on the other role's string in one read, the handshake check exactly on a record of version 1 and type 0. |
| CommandStream.ServerDecides | lib/io/port_forward_server.go:162-196 | Against any client: a Connect is dialed, a Bye ends the server, other commands are passed over; the dial's outcome decides the answer and its code. |
| CommandStream.StopIsFinal | lib/io/port_forward_client.go:171-185 | An end that stops does nothing any more, and the client has given up its pending connection. |
| CommandStream.ReadableAnswer | lib/io/port_forward_client.go:222-253 | When the client loop can read a command, it is in Conn1, the command is an Agree or a Refuse, and nothing else is under way. |
| CommandStream.ClientSetupKeeps | lib/io/port_forward_client.go:44-91 | Opening, mode exchange (whole or cut short by its one read) and handshake at the client keep the invariant that ties both logs to the phases. |
| CommandStream.ClientLoopKeeps | lib/io/port_forward_client.go:186-255 | So does every pass of the client loop. |
| CommandStream.ServerStepKeeps | lib/io/port_forward_server.go:55-202 | So does every step of the server, with the mode read whole or cut short, and dialing, answering and starting the pairing as separate steps. |
| Tunnel.StepKeepsInv | lib/io/port_forward_server.go:186-232 | Every step of client, server, pairings and streams, in any interleaving, keeps ownership, the injective stream matching and the counts. |
| Tunnel.RunKeepsInv | lib/io/port_forward_server.go:140-251 | Every run keeps them. |
| TunnelTheorems.SingleOutstandingRequest | lib/io/port_forward_client.go:186-255 | In every reachable state: Connects unread + answers in preparation + answers unread = 1 in Conn1 and 0 in Wait; what is unread is of the right kind. |
| TunnelTheorems.NoAbnormalMessage | lib/io/port_forward_client.go:52-252 | In any reachable state every handshake check and every command read is passed, so the abnormal-message branches are never taken; a mode check is passed if and only if its one read brings the whole string. |
| TunnelTheorems.PairingsAreConserved | lib/io/port_forward_server.go:186-196 | Connects sent = client pairings + refusals read + outstanding; pairings agreed to by the server, started or due, exceed the client's by 0 or 1; data streams never outnumber client pairings; the client is ahead of the server exactly when it has read an agreement whose pairing is still due. |
| TunnelTheorems.ClientMayPairFirst | lib/io/port_forward_server.go:191-196 | A concrete run where the client has one pairing and the server none: the agreement is sent before the pairing is started. |
| TunnelTheorems.AcceptsNeverMixStreams | lib/io/port_forward_server.go:55 | The first Accept of the server can only return the command stream, and no Accept of a pairing ever returns it. |
| TunnelTheorems.EveryConnectionHasOneOwner | lib/io/port_forward_client.go:171-255 | Each accepted TCP connection is in exactly one of: acceptor, pending slot, open pairing, closed; the slot is filled exactly in Conn1 and empty after the loop. |
| TunnelTheorems.MatchingIsInjective | lib/io/port_forward_server.go:219-232 | The relation between client connections and destination connections is injective both ways, and every accepted stream takes part in it. |
| TunnelTheorems.MatchingMayCrossOver | lib/io/port_forward_server.go:220 | A concrete run that matches the second connection with the first destination: the possibility named in the TODO. |
| TunnelOrder.RequestsAreNumbered | lib/io/port_forward_server.go:186-196 | In every reachable state the client pairings are exactly those of the requests whose answer has been read and is an agreement, and the server pairings exactly the agreements written whose start is not due. |
| TunnelOrder.SerialRequestsAreMatchedInOrder | lib/io/port_forward_server.go:220 | When matching follows the requests: in every run in which the client asks only after every pairing has its stream, every stream is accepted and none is due, and no pairing ends before it has its stream, each matched pair is the one that was agreed to. |
| TunnelOrder.CrossesIff | lib/io/port_forward_server.go:219-232 | The exact condition at any reachable state whose matches so far follow the requests: the pairings under way can be matched against them if and only if a connection that waits or whose stream is not accepted, and a waiting destination, belong to different requests. |
| TunnelOrder.AnyMayBeMatched | lib/io/port_forward_server.go:221 | Any such connection can be matched with any waiting destination, by an Open and an Accept. |
| TunnelOrder.TwoWaitingAreInDanger | lib/io/port_forward_server.go:220 | Two of them on either side are enough for that condition. |
| TunnelOrder.EarlyEndShifts | lib/io/port_forward_server.go:227-231 | If a client pairing ends before its Open, its destination waits on, the condition holds as soon as another connection is under way, and a continuation gives that destination the other connection's stream. |
| TunnelOrder.EarlyEndCrossesOver | lib/io/port_forward_server.go:227-231 | Such a run, although the second request follows the end of the first pairing. |
| TunnelData.HistoryKeepsData | lib/io/port_forward_server.go:235-248 | Every interleaving of control steps, applications and both pumps keeps account of all bytes of all connections. |
| TunnelData.BytesAreConserved | lib/io/util.go:98-135 | For a matched pair and each direction: what was taken from one end is, in order, what the other received, then its pump buffer, then the stream, then this end's pump buffer; so what is delivered is a prefix of what was sent. |
| TunnelData.NoByteCrosses | lib/io/port_forward_server.go:205-251 | Whatever a connection received was sent by the one connection it is matched with. |
| TunnelDelivery.EverythingCanBeDelivered | lib/io/util.go:98-135 | Nothing in flight is ever stuck: from every reachable state in which both ends of a matched pair are open, the two pumps of each end alone can go on until each end has received exactly what the other sent. |
| TunnelDelivery.TunnelCarries | lib/io/port_forward_server.go:205-251 | For any two byte strings there is a run after which the destination has received the one and the client connection the other. |
| TunnelDelivery.EndingStopsTheBytes | lib/io/port_forward_server.go:215-250 | Once a pairing ends, nothing is received, taken or moved at its connection any more, in any continuation; at the client the connection is closed. |
| TunnelDelivery.OutPumpIsHistory | lib/io/port_forward_server.go:235-241 | Whatever a pump from connection to stream may have written by its contract, for any chunks, short writes and exits, is reached by steps of the machine. |
| TunnelDelivery.InPumpIsHistory | lib/io/port_forward_server.go:242-248 | The same for the pump from stream to connection. |
| TunnelDelivery.PumpOut | lib/io/port_forward_server.go:239 | The pump method on a connection's bytes: what it did to the stream is a history of the machine. |
| TunnelDelivery.PumpIn | lib/io/port_forward_server.go:246 | The same for what it delivered to the connection. |
| Pumps.WriteOut | lib/io/util.go:79-94 | The inner loop stops before the end exactly at the first write that fails or takes nothing, with the prefix taken until then. |
| Pumps.ReaderToWriter | lib/io/util.go:98-135 | For any chunking, short writes and errors: the output is a prefix of the clean input, all of it when a read ended the pump; it ends on a write exactly when that write fails or takes nothing, and otherwise on the reader's error. |
| Pumps.ReaderToConn | lib/io/util.go:46-96 | The same; and it ends with the peer closed if and only if a probe it makes finds that, and then only the chunks before that probe are written. |
| Pumps.CopiesEverythingIff | lib/io/util.go:49-69 | The clean input is everything the reader offered if and only if the last read brought no bytes with its error. |
| SignalFraming.SignalRoundTrip | lib/io/util.go:32-38 | Decoding a record gives back version, type and code, for all integers and with the omitted zero code. |
| SignalFraming.OnlyRecordsDecode | lib/io/util.go:142-145 | A line that decodes is the three keys in order, each with its integer, and the brace; only the code may be left out, and a zero may be negative. |
| SignalFraming.NoNewlineInside | lib/io/util.go:149-154 | No record contains a newline. |
| SignalFraming.LinesRoundTrip | lib/io/util.go:137-141 | The complete lines of the stream are those written; a prefix of the stream has a prefix of them. |
| SignalFraming.StreamRoundTrip | lib/io/util.go:137-163 | Everything sent decodes to the signals sent, and any prefix of the bytes to a prefix of the signals. |
| SignalFraming.SignalDealer.ReadBytes | lib/io/util.go:138 | However the bytes arrive, the next line and nothing more is taken from the stream. |
| SignalFraming.SignalDealer.GetSignal | lib/io/util.go:137-147 | Consumes one line, and returns its record or an error. |
| SignalFraming.SignalDealer.ReadCommands | lib/io/port_forward_client.go:103-127 | The command reader hands on exactly the records before the first bad one or the end. |
| SignalFraming.Exchange | lib/io/util.go:137-163 | Sending signals one by one and reading them back over any chunking returns exactly those signals. |
| Permission.Register.BuildChecker | internal/pipie/permission/permission.go:36-40 | The checker holds the rules as they are now, as a value. |
| Permission.LastForwardRuleWins | internal/pipie/permission/permission.go:44-73 | After any sequence of rules, the three checks are decided by the last forward rule alone and by whether pipes were ever allowed. |
| Daemon.PipieDaemon.HandleExchange | internal/pipie/daemon.go:136-367 | One packet changes the token map, the packets sent and the sessions started exactly as `Handle` says, on every branch. |
| Daemon.HandledResponses | internal/pipie/daemon.go:189-360 | Read off the rules alone, for any response: whether the daemon is asked at all, the one confirmation it sends to the sender and what it says, the one session it starts, whether the token is forgotten, and whether the daemon stops. |
| Daemon.HandledRequests | internal/pipie/daemon.go:162-186 | A request for a challenge adds the new token to the live ones, keeps all others, and sends it to the one who asked. |
| Daemon.ConfirmedTwiceIff | internal/pipie/daemon.go:215-260 | A duplicated response that the daemon reads is confirmed a second time if and only if its intention is permitted and is a pipe or met a dead tomb; only a pipe that ended well has asked the daemon to stop in between. |
| SignalClient.PipieClient.ReadDatagram | internal/pipie/client.go:176-292 | One datagram in each waiting phase changes the client and what it sends exactly as `Receive` says. |
| Signalling.StepKeepsInv | internal/pipie/daemon.go:136-367 | Every step of the daemon and of any number of clients, over a network that loses, duplicates and reorders, keeps all packets, records, clients and sessions consistent. |
| Signalling.RunKeepsInv | internal/pipie/client.go:152-306 | Every run keeps this. |
| SignallingTheorems.Agreement | internal/pipie/client.go:243-305 | A client that completes with pair ID P: the daemon issued P for this client's own response, with its pair key and its permitted intention; relay and signature are the daemon's; the connection keys are equal if and only if the access keys are. |
| SignallingTheorems.PairIDsAreUnique | internal/pipie/daemon.go:213 | Two clients never complete with the same pair ID. |
| SignallingTheorems.SessionsMatchClients | internal/pipie/daemon.go:240-354 | In every run, for a completed client: the daemon has started a session with its pair ID if and only if it asked for a pipe or the tomb was alive when the request was granted; there is at most one; it has the client's pair key and the daemon's access key, so an equal key if and only if the access keys are equal, the same relay, and the work the client asked for. |
| SignallingTheorems.SessionsAreDistinct | internal/pipie/daemon.go:213 | Two sessions never share a pair ID. |
| SignallingTheorems.DeadTombLeavesClientAlone | internal/pipie/daemon.go:297-306 | A run in which a client completes and no session exists: its forward was confirmed, and the goroutine could not be started. |
| SignallingTheorems.SessionsArePermitted | internal/pipie/daemon.go:261-354 | Every session ever started passed the checker, for the intention of a client that answered a challenge, with the port cut to 16 bits. |
| SignallingTheorems.SessionsObeyTheRules | internal/pipie/permission/permission.go:44-73 | In every reachable state, naming only the rules: a pipe session needs the pipe rule, dialing out the rule for incoming and listening the rule for outgoing forwards, with the requested host and port the rule's own or the rule for any address, and exactly that host and the port cut to 16 bits in use. |
| SignallingTheorems.SpecificRuleIsUsedExactly | internal/pipie/daemon.go:264-350 | Under a rule for one address the session uses the rule's host and direction, and its port if and only if the port fits 16 bits. |
| SignallingTheorems.CutPortIsUsed | internal/pipie/daemon.go:303 | A run under the rule for port 70000 whose session dials port 4464. |
| SignallingTheorems.TokensAreSpentOnce | internal/pipie/daemon.go:358-359 | A token that no step keeps yields at most one confirmation and one session in the whole run. |
| SignallingTheorems.KeptTokenIsConfirmedAgain | internal/pipie/daemon.go:252-259 | After a step that keeps the token, the same response, read before the socket is closed, is confirmed again under a new pair ID: the condition above is exact. The close has been asked for only by a pipe that ended well. |
| SignallingTheorems.ForwardTokensAreSpentOnce | internal/pipie/daemon.go:261-359 | While the tomb lives, the token of a client that asks for a forward yields at most one confirmation and one session. |
| SignallingTheorems.TokensNeverReturn | internal/pipie/daemon.go:163-166 | Live tokens were issued, and a consumed token never becomes live again. |
| SignallingTheorems.TokensLiveUntilConfirmed | internal/pipie/daemon.go:358-359 | A live token stays live until a step confirms it. |
| SignallingTheorems.RequestsAreChallenged | internal/pipie/daemon.go:163-186 | A request that the daemon reads makes a new token live, keeps the others, and puts the challenge for the asker on the network. |
| SignallingTheorems.IssuedTokensAreLiveOrConfirmed | internal/pipie/daemon.go:163-359 | In every run each token ever issued was sent to the one who asked, and is live or has been confirmed. |
| SignallingTheorems.ChallengesAreAnswered | internal/pipie/client.go:189-225 | A waiting client answers any challenge with its token, a new nonce and pair key, sealed for its own intention; any other message ends it. |
| SignallingTheorems.CompletesIff | internal/pipie/client.go:243-306 | In every run a client that waits for a confirmation completes if and only if it reads an acceptance of its own token and the relay's address parses; otherwise it fails. |
| SignallingTheorems.PipeTokenIsConfirmedTwice | internal/pipie/daemon.go:216-260 | With any configuration that allows pipes, a run confirms one token twice and starts two sessions. |
| Wire.SizeOfVarint | internal/pipie/exchangestruct/exchange.pb.go:207-208 | The size of every 64-bit varint is the number of bytes the encoder emits. |
| Wire.VarintRoundTrip | internal/pipie/exchangestruct/exchange.pb.go:135 | Decoding a base-128 varint gives back the value and the rest, for every 64-bit value. |
| Wire.DecodeVarintIff | internal/pipie/exchangestruct/exchange.pb.go:161-199 | A varint is read exactly when one of its first ten bytes has no continuation bit. |
| Wire.VarintWraps | internal/pipie/exchangestruct/exchange.pb.go:161-199 | A value of more than 64 bits loses its upper bits. |
| Wire.ParseRoundTrip | internal/pipie/exchangestruct/exchange.pb.go:161-199 | Parsing gives back any encodable fields and goes on with what follows. |
| ExchangeCodec.OneofMarshaler | internal/pipie/exchangestruct/exchange.pb.go:130-159 | Appends exactly the encoding of the frame. |
| ExchangeCodec.OneofSizer | internal/pipie/exchangestruct/exchange.pb.go:201-230 | Equals the number of bytes the marshaler appends. |
| ExchangeCodec.ExchangeFrame.OneofUnmarshaler | internal/pipie/exchangestruct/exchange.pb.go:161-199 | One field: the body it leaves and the error it reports, including a wrong wire type and a body that does not parse. |
| ExchangeCodec.ExchangeFrame.Unmarshal | internal/pipie/exchangestruct/exchange.pb.go:161-199 | Giving every field to it leaves what `DecodeFrame` says. |
| ExchangeCodec.FrameRoundTrip | internal/pipie/exchangestruct/exchange.pb.go:130-199 | Decoding after encoding is the identity for every frame, complete or not; an error is reported exactly when a field of the body is missing or zeros follow, which leave the body alone. |
| ExchangeCodec.FrameOkIff | internal/pipie/exchangestruct/exchange.pb.go:161-199 | A frame of any fields decodes without error exactly when each of its body fields is length-delimited, parses and is complete. |
| ExchangeCodec.LastBodyWins | internal/pipie/exchangestruct/exchange.pb.go:161-199 | The last body field wins and fields of other numbers do not matter; a body field of another wire type is an error and leaves the body as it was. |
| ExchangeCodec.IntentionMarshaler | internal/pipie/exchangestruct/exchange.pb.go:515-539 | Appends exactly the encoding of the intention. |
| ExchangeCodec.IntentionSizer | internal/pipie/exchangestruct/exchange.pb.go:573-597 | Equals the number of bytes appended. |
| ExchangeCodec.RequestRoundTrip | internal/pipie/exchangestruct/exchange.pb.go:515-571 | Decoding a response payload after encoding is the identity, for every intention. |
| ExchangeCodec.RequestOkIff | internal/pipie/exchangestruct/exchange.pb.go:541-571 | A request of any fields decodes exactly when it has a pair key and each of its intention fields is length-delimited, parses and has its host and port. |
| ExchangeCodec.ResultRoundTrip | internal/pipie/daemon.go:229-235 | Decoding a confirmation payload after encoding is the identity. |
| ExchangeCodec.ResultOkIff | internal/pipie/client.go:265-272 | A confirmation of any fields decodes exactly when it has a result. |
| TransferFrame.ConstructTransferPacker | internal/pipie/daemon.go:409-416 | Fills the frame by three copies with version, source, destination and payload. |
| TransferFrame.UnpackUndoesPack | internal/pipie/daemon.go:144-154 | The header and the payload are recovered. |
| TransferFrame.DaemonReceivesWhatWasPacked | internal/pipie/daemon.go:136-160 | What is packed for a daemon is accepted and recovered by that daemon and by no other. |
| TransferFrame.DaemonLoop | internal/pipie/daemon.go:105-133 | One buffer that is never cleared: every datagram is judged as if it came alone, up to the error that ends the loop. |
| TransferFrame.EachArrivalByItself | internal/pipie/daemon.go:106-130 | Each arrival counts by itself: a datagram on its first 1500 bytes, a refused connection not at all, any other error as the end. |
| TransferFrame.ReceiveSorts | internal/pipie/daemon.go:138-160 | Version first, then length, then destination, then the frame: when each verdict is given, for any bytes. |
| TransferFrame.OnlyEmptyDatagramsCrash | internal/pipie/daemon.go:118-142 | Handling a datagram crashes if and only if it is empty; the crash is recovered, and all others are judged as if it had not come. |
| TransferFrame.SecondReadIsCleanIff | internal/pipie/client.go:228-239 | After two reads the buffer holds the second datagram cleanly if and only if the first left only zeros behind it. |
| TransferFrame.SealedResultSize | internal/pipie/daemon.go:428-440 | A sealed honest result has at least 43 bytes. |
| TransferFrame.HonestSizes | internal/pipie/daemon.go:168-181 | An honest challenge encodes to 38 bytes, an honest confirmation to at least 95. |
| TransferFrame.ReceiveTwice | internal/pipie/client.go:171-239 | Decoding the whole uncleared buffer twice yields exactly the challenge and then exactly the confirmation. |
| BinaryForm.DatagramMeansPacket | internal/pipie/daemon.go:136-205 | Every symbolic packet, written out as a datagram and read back by its receiver or anyone else, is what the symbolic model says: destination, source, kind, token, and what its sealed payload opens to. |
| BinaryForm.DaemonGoesByTheView | internal/pipie/daemon.go:161-360 | The daemon's reaction depends on a packet only through what is so read. |
| Traversal.PeerLoop.Run | lib/pairconnect/conn_builder.go:381-485 | The loop over any arrivals changes its variables, and ends, exactly as `ReadAll` says, with every branch that fails or crashes. |
| Traversal.LoopHeadKept | lib/pairconnect/conn_builder.go:414-484 | One datagram at a loop head, in every case: when the loop ends successfully and with what, when it fails, when it crashes, when it starts a sender, and what each ping and record changes; what goes on is a loop head again. |
| Traversal.LoopEndsAt | lib/pairconnect/conn_builder.go:381-485 | The whole loop read off the arrivals alone: it ends on the first datagram that can end it, successfully exactly on a pong after a good record, with its source and that record's polarity. |
| Traversal.LeavesIff | lib/pairconnect/conn_builder.go:439-459 | A fresh loop leaves exactly when the first datagram that ends it is a pong after a good record. |
| Traversal.SuccessNeedsPairingAndPong | lib/pairconnect/conn_builder.go:381-492 | For any arrivals: success needs a good record of the server and a pong from the returned address. |
| Traversal.CrashesIff | lib/pairconnect/conn_builder.go:428-478 | For any arrivals: the loop crashes if and only if it reads as far as such a fatal datagram. |
| Traversal.UnresolvableRecordCrashes | lib/pairconnect/conn_builder.go:474-478 | One good record whose address does not resolve brings the loop down, whatever the peer sent before. |
| Traversal.UdpTraverse | lib/pairconnect/conn_builder.go:254-492 | The whole round: it succeeds if and only if everything before the loop works, the first ending datagram is a pong after a good record, and the port opens again, with the pong's source and the record's polarity; it crashes if and only if it gets to a failing assertion. |
| Traversal.StepsMakeARound | lib/pairconnect/conn_builder.go:338-377 | The sender's separate load and writes, undisturbed, make one round of its loop, of which there are eight. |
| Traversal.LoadDecides | lib/pairconnect/conn_builder.go:343-375 | A load of 1 makes the next write a ping, of 2 a pong, to the address found then; any other ends the sender without a send. |
| Traversal.RoundsSend | lib/pairconnect/conn_builder.go:338-377 | Round by round: one pong to the address found by each round that loads 2 before one that ends the goroutine, one ping to each address found by those that load 1, and nothing else. |
| Traversal.FirstRoundCoversBothAddresses | lib/pairconnect/conn_builder.go:466-483 | A good record of the server whose addresses resolve starts a sender whose first round pings exactly the peer's two addresses, once each. |
| Traversal.SendPingPong | lib/pairconnect/conn_builder.go:331-378 | Whatever its eight rounds load and find: at most 16 sends, one pong for each reached round that loads 2, to the address found there, so some pong if and only if there is such a round; and pings to the addresses found by those that load 1. |
| Traversal.BuildConnectionUDP | lib/pairconnect/conn_builder.go:225-252 | At most 4 attempts; a connection exactly when an attempt succeeds after failures only and before any cancellation, a crash exactly when one crashes so, and an error otherwise. |
| HolePunch.StepKeepsInv | lib/pairconnect/conn_builder.go:331-484 | Every step of two peers and their senders, with load and write apart, keeps what each state says about the other peer. |
| HolePunch.LeavingMeansBothHeard | lib/pairconnect/conn_builder.go:425-484 | In every run: a peer that leaves on a pong returns its source, and both peers have pair info and have heard each other. |
| HolePunch.TraversalStateInvariant | lib/pairconnect/conn_builder.go:326-378 | In every run: the loop-head invariant, and the bounds on every sender. |
| HolePunch.LoadedStateIsSent | lib/pairconnect/conn_builder.go:343-374 | A sender that loads state 2 puts a pong on the network with its next write, one that loads 1 a ping, whatever the loop did in between. |
| HolePunch.BothMayLeave | lib/pairconnect/conn_builder.go:425-484 | A run in which both peers leave, each with the address the other was seen at. |
| IdentityCheck.ReadFull | lib/pairconnect/pair_conn.go:333-342 | Succeeds exactly when the reads bring enough bytes, and has then consumed exactly the size of the buffer. |
| IdentityCheck.TlsIdentityCheck | lib/pairconnect/pair_conn.go:314-368 | What is sent and which verdict is given in every case: only the second write's failure counts; then the first read loop, the magic, the second read loop and the key decide in this order; passing consumed exactly 11 + 64 bytes. |
| IdentityCheck.ProgressSuffices | lib/pairconnect/pair_conn.go:333-358 | Any 75 reads that each make progress are enough. |
| IdentityCheck.BothEndsPassIff | lib/pairconnect/pair_conn.go:314-368 | With the agreed pair key and collision-free hashes, each end finds the proof it expects if and only if the access keys are equal. |
| IdentityCheck.ConfirmMode | lib/io/port_forward_client.go:51-64 | Passes if and only if the single read brings the whole expected string, and has then consumed just these 14 bytes. |
| IdentityCheck.ShortReadFailsTheCheck | lib/io/port_forward_client.go:57-62 | Any first read shorter than 14 bytes fails the check although the whole string is under way. |
| PairConnection.BuildForClient | internal/pipie/client.go:297-305 | The setters in the order called give the configuration of a client. |
| PairConnection.BuildForDaemon | internal/pipie/daemon.go:239-251 | The setters in the order called give the configuration of a daemon. |
| PairConnection.ConnectTo | lib/pairconnect/pair_conn.go:130-312 | The path is direct exactly when a traversal attempt succeeds and no relay is forced, and then the metadata is that attempt's; the TLS role and relay side follow; the end is up only with the peer's proof read, and, when no write fails and enough reads come, exactly with it and every stage of its path; "relay not configured" if and only if a relay is forced and none is set. |
| PairConnection.PairedEndsFit | internal/pipie/daemonservices.go:19-89 | In every signalling run, a client and a session with one pair ID have the same relay, equal keys if and only if equal access keys, opposite mux roles, and modes that complement each other, with one end opening and the other accepting. |
| PairConnection.SharedPairAuthenticatesIff | lib/pairconnect/pair_conn.go:304-308 | In every signalling run, a client and a session with one pair ID, each with the key it got from the exchange, find the proof they expect at the front of what the other sent if and only if their access keys are equal. |
| PairConnection.ConnectBoth | lib/pairconnect/pair_conn.go:94-312 | Both ends built and connected, each reading what the other's identity check writes: the relay is never missing, mux roles are opposite, TLS roles are opposite exactly when the polarities in use fit (always when both are on the relay), and an end is up if and only if its stages work and the access keys are equal. |
| PairConnection.SettersDecide | lib/pairconnect/pair_conn.go:66-101 | After any sequence of setters: an end is the permanent side of a relay if and only if a temporary relay was never set, and has a relay if and only if either was set. |

## Left out

- AES-GCM, SHA-2, TLS, yamux, KCP and the relay protocol: libraries outside the repository, represented by their assumptions.
- `buildConnectionTCP`, `accept`, `connect`: marked outdated and never selected, since the builder always chooses UDP.
- Shutdown and liveness: readers may stay blocked on unbuffered channels after a loop is left, so nothing is said about `t.Wait()`; the connection an acceptor holds at shutdown keeps it as owner.
- Real time: deadlines, sleeps, retries and the sender's initial delay; a timeout is a step that may happen at any moment, and `BuildConnectionUDP` takes the outcomes of its attempts as parameters.
- Name resolution: whether an address resolves is a parameter, and an address that does is taken as it is written.
- Mutual completion of hole punching: the last pong may be lost, so only the knowledge of the peer that leaves is stated.
- Complete delivery in `startPairing`: the end of either direction closes both connections, so end to end only prefixes are stated.
- General JSON: only the records written by `SendSignal`, in their field order; integers are unbounded where the program has 64 bits.
- General Protocol Buffers: groups are not decoded, a field that is no oneof member and has the wrong wire type counts as unknown, and payload decoders return nothing on any error, as their callers drop the payload then. The generated code for single fields is part of a library and follows the wire format.
- Daemon.PipieDaemon.HandleExchange: takes symbolic packets; that a datagram carries its packet faithfully, and that only this is looked at, is shown beside it in `BinaryForm`, and the checks on version, length and frame are in `TransferFrame`.
- The identity of a stream's bytes across pairing goroutines is modelled on values: in `Tunnel` and `TunnelData` the two ends, the pairings and the pumps are steps of one machine, not threads over shared objects.
- SignalFraming.SignalDealer.GetSignal: accepts the record shape that `SendSignal` writes; the JSON decoder of the program also accepts other field orders, white space and unknown fields.
- SignalFraming.SignalDealer.ReadCommands: stops at a record that is not of that shape, where the program might read on.
- IdentityCheck: a failing write writes nothing here; the check reports the failure either way.
- PairConnection.ConnectTo: the relay client and the TLS handshake are parameters; the outcomes of the traversal rounds are too, as `Traversal.UdpTraverse` describes them; the certificate is present, as `Build` demands it.
- `getRelayServer` parses a constant; its error branch is not modelled, and neither are `proto.Marshal` errors.
- Pings to the signalling server, command line, certificates, OS signals, logging, `packetchan`, `strelayfinder`, socket options and the programs under `test`: no protocol state.
