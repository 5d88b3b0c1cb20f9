# erwscascade in Dafny

A functional model of the Monibuca plugin `erwscascade`, which links video
platforms over websockets. A subordinate platform registers with a superior
one over a long-lived websocket. The superior proxies HTTP requests down
that socket and correlates the answers by sequence number. Separately, a
pusher on one platform streams FLV tags over its own websocket to a
receiver on the other, which republishes them.

The model covers the parts of that behaviour that are decisions rather
than transport:

- `base.dfy` (`Base`) holds the shared vocabulary: `Option` and `Result`, bytes, Go's
  `uint32` arithmetic, the `strings` operations the code uses, query maps
  and decimal rendering.
- `flv.dfy` (`FlvCodec`) holds the 13-byte FLV file header and the 11-byte tag header of
  Annex E of the Adobe Flash Video File Format Specification v10.1. It
  has a builder, the shared parser and the receiver's handshake checks.
- `timestamps.dfy` (`Timestamps`) holds the start-latch timestamp rebasing both read
  loops perform, in `uint32` wrap-around arithmetic.
- `wire.dfy` (`MediaWire`) holds the websocket writes and reads of a media push.
- `relay.dfy` (`MediaRelay`) models `wssRecever.go`: the push handler `Wspush_`,
  the receive loop and `OnConnErr`.
- `pusher.dfy` (`MediaPusher`) models `wscPusher.go`: the pusher's state machine,
  `Connect`, `Disconnect`, the health loop, `WriteFLVTag` and the
  back-channel read loop.
- `envelopes.dfy` (`Envelopes`) holds the message types and envelopes of the tunnel.
- `hub.dfy` (`Hub`) models `server.go`: the registry of subordinates,
  registration, the per-connection reader and its teardown, and the
  request/response correlator.
- `upstream.dfy` (`Upstream`) models `client.go`: the subordinate's client
  state machine, reconnection, the proxy executor and the setup of one
  client per superior.
- `httpapi.dfy` (`HttpApi`) models `main.go`: the HTTP proxy entry point, the stream
  list and the client list.
- `tunnel.dfy` (`Tunnel`) holds end-to-end lemmas across the two sides:
  - the pusher's output passes the receiver's checks and reaches its
    dispatch;
  - a subordinate's registration URL registers its own cid;
  - a proxied request comes back with the fetched body.

Foreign calls are function-valued parameters:

- `url.QueryUnescape` and `url.ParseQuery` are `UrlCodec`.
- `url.Values.Encode` is `encode`.
- JSON is `Json`.
- `http.Client` is `fetch`.

Outcomes of I/O are inputs: dial results, read and write successes, and
the finite list of responses that arrive before the timer fires.

## Model

| member | source | states |
|---|---|---|
| Base.QueryPart | wssRecever.go:154-157 | the extracted query string never contains `?`, and is empty when the URL has no `?` |
| Base.QueryPartOf | server.go:169-172 | for `p?q` followed by nothing or by another `?`-part, with no `?` in `p` or `q`, the extracted query is exactly `q` |
| Base.DecimalRoundTrip | client.go:307 | the `%d` rendering of an index parses back to the index |
| Base.DecimalInjective | client.go:307 | distinct indices render to distinct keys, so no client slot is overwritten |
| Envelopes.TypeName | client.go:51-57 | types 0, 1 and 2 are named "CInfo", "HTTPProxyReq" and "HTTPProxyRsp"; the name is "Unknown" exactly when the type is outside 0..2 |
| Envelopes.TypeNameInjective | client.go:51-57 | two types share a known name only if they are equal |
| FlvCodec.FlagsByte | wscPusher.go:154-167 | bit 0x04 is set iff audio, bit 0x01 iff video, and no other bit is set |
| FlvCodec.BuildHeader | wscPusher.go:170 | the header is 13 bytes: the signature `FLV`, version 1, the flags byte, the offset 9 and a zero previous-tag size; the flags byte decodes back to the flags |
| FlvCodec.ParseFLVTagAsWritten | wssRecever.go:57-73 | as written, and only callable when the declared payload lies inside the buffer: an input shorter than 11 bytes is the too-short error; otherwise the type is `b[0]`, the timestamp has `b[7]` as its high byte and `b[4..6]` big-endian as its low 24 bits, and the payload is the `DataSize` bytes after the header |
| FlvCodec.OversizedTagEscapesCheck | wssRecever.go:58-68 | an 11-byte tag that declares a 5-byte payload passes the length check yet its payload slice lies outside the buffer |
| FlvCodec.ParseFLVTag | wscPusher.go:292-308 | with the missing bound check added, the parser fails exactly when the header or the declared payload does not fit; on success the type is `b[0]`, the timestamp has `b[7]` as its high byte and `b[4..6]` as its low 24 bits, and the payload is the `DataSize` bytes after the header |
| FlvCodec.ParseFLVTagAgrees | wssRecever.go:57-73 | wherever the code as written does not fault, the checked parser returns the same tag |
| FlvCodec.Be24 | wscPusher.go:176 | three big-endian bytes whose 24-bit value is the size written |
| FlvCodec.BuildTag | wscPusher.go:176-180 | a built tag is 11 header bytes, the payload and a 4-byte trailer, led by its type |
| FlvCodec.ParseBuildTag | wssRecever.go:62-68 | parsing a built tag, whatever follows it, gives back its type, its full 32-bit timestamp and its payload |
| FlvCodec.HandshakeAsWritten | wssRecever.go:197-218 | as written, and only callable when the indexed bytes exist: acceptance implies the `FLV` signature and a script-tag second frame |
| FlvCodec.ShortHeadEscapesCheck | wssRecever.go:197-204 | the 3-byte head `FLV`, which the signature test accepts, lies outside what the code can index, whatever the script frame |
| FlvCodec.ValidateHead | wssRecever.go:197-204 | a head is accepted iff it has at least 5 bytes and starts with `FLV`; audio is `head[4] & 0x04 != 0` and video is `head[4] & 0x01 != 0` |
| FlvCodec.HeadCheckAsWritten | wssRecever.go:197-204 | as written, and only callable when `head[0..2]` and, after a signature match, `head[4]` exist: the head passes iff it starts with `FLV`, and the flags are decoded from `head[4]` |
| FlvCodec.HeadCheckAgrees | wssRecever.go:197-204 | wherever the head check as written does not fault, the checked one decides the same way |
| FlvCodec.ValidateScript | wssRecever.go:214-218 | the second frame is accepted iff its first byte is the script type 18 |
| FlvCodec.Handshake | wssRecever.go:190-218 | the push is accepted iff both the head and the script frame are |
| FlvCodec.HandshakeAgrees | wssRecever.go:197-218 | wherever the code as written does not fault, the checked handshake decides the same way |
| FlvCodec.HandshakeRoundTrip | wscPusher.go:137-185 | the pusher's header and script tag pass the receiver's handshake, which recovers the audio and video flags |
| Timestamps.Rebase | wssRecever.go:105-108 | the offset is kept; an unset start latches the frame's timestamp and a set one sticks; the latched frame is placed at the offset |
| Timestamps.RebaseValue | wssRecever.go:108 | the absolute time is `offset + (ts - start)` modulo 2^32, and exactly that sum when it does not wrap |
| Timestamps.RebaseAllLatched | wscPusher.go:222-225 | once latched, every frame is placed at `offset + ts - start` modulo 2^32 and the latch never moves |
| Timestamps.RebaseAllFromStart | wssRecever.go:76-77 | zero timestamps before the first nonzero one are placed at the offset; from the first nonzero one on, times are relative to it |
| Timestamps.RebaseAllNoWrap | wssRecever.go:105-108 | without wrap-around the rebased times are the plain shifted timestamps |
| Timestamps.RestartContinuity | wssRecever.go:76-77 | a loop started at absolute time `base` places each frame at `base` plus its distance from the first timestamp, so non-decreasing timestamps stay non-decreasing |
| MediaRelay.NewReceiver | wssRecever.go:38-46 | a new receiver has status 0 and absolute time 0 and is not stopped |
| MediaRelay.OnConnErr | wssRecever.go:49-55 | an error sets status 0 and stops publishing, keeping the cid and the time |
| MediaRelay.OnConnErrIdempotent | wssRecever.go:49-55 | a second error changes nothing |
| MediaRelay.Route | wssRecever.go:117-125 | audio goes to the audio writer, video to the video writer, script to the log, and any other type nowhere |
| MediaRelay.HandleFrame | wssRecever.go:101-125 | corrected, with the bound-checked `FlvCodec.ParseFLVTag`: a tag that does not fit is reported as a connection error, stops publishing and is still rebased, at timestamp 0; a parsed tag is rebased at its timestamp and routed at its absolute time, with the offset kept |
| MediaRelay.HandleFrameAsWritten | wssRecever.go:101-125 | as written, with the unchecked parser, and only callable when the declared payload fits: a frame under 11 bytes is reported as a connection error, stops publishing and is rebased at timestamp 0; any other is rebased at its header timestamp and routed by `data[0]` with the declared payload bytes |
| MediaRelay.ReadLoopAsWritten | wssRecever.go:75-127 | as written, with `HandleFrameAsWritten`, and only callable when every delivered frame's payload fits: a read failure anywhere stops publishing, a failing first read is the single event, and the offset and cid are kept |
| MediaRelay.ReadLoop | wssRecever.go:75-127 | corrected, with `HandleFrame`: a read failure anywhere stops publishing, a stopped receiver stays stopped, and the offset and cid are kept |
| MediaRelay.ReadLoopAgrees | wssRecever.go:75-127 | wherever the loop as written does not fault, the corrected loop gives the same state and events |
| MediaRelay.ReadFLVTag | wssRecever.go:75-127 | the corrected loop started at the receiver's time: no reads change nothing, the cid is kept and any read failure stops publishing |
| MediaRelay.ReadLoopStopsAtFailure | wssRecever.go:78-94 | a header or message read failure ends the loop: the rest is never read, the failure is the last event and publishing is stopped |
| MediaRelay.ReadLoopDispatchesTags | wssRecever.go:75-127 | a stream of well-formed tags is routed tag by tag at its rebased times, and the latch ends where the rebasing fold ends |
| MediaRelay.Wspush | wssRecever.go:134-241 | corrected, with the length-checked `FlvCodec.Handshake`: a request is ignored unless upgraded with a parsable query; an empty cid is refused before an empty stream path; then, each exactly when the earlier checks passed, a failed head read, a head that fails `ValidateHead`, a failed script read and a script frame not led by type 18 are refused; a push that passes the handshake is refused as a failed publish exactly when no publisher exists and publishing fails; a relayed stream is keyed `streamPath + "-" + cid`, passed the handshake and publishes iff no publisher exists; conversely, opening frames that pass the handshake are relayed with their flags unless publishing fails |
| MediaRelay.WspushAsWritten | wssRecever.go:134-241 | as written, and only callable when the opening frames' indexed bytes exist: a request is ignored unless upgraded with a parsable query; a relayed stream had a head of at least 5 bytes starting with `FLV`, its flags decoded from `head[4]`, and a script frame led by type 18 |
| MediaRelay.WspushAgrees | wssRecever.go:134-241 | wherever the handler as written does not fault, the corrected handler gives the same outcome |
| MediaRelay.ShortHeadReachesIndex | wssRecever.go:197-204 | the 3-byte head `FLV` on an accepted request reaches an index the code cannot read |
| MediaRelay.EmptyScriptReachesIndex | wssRecever.go:206-218 | after the pusher's own header, an empty script frame reaches an index the code cannot read |
| MediaRelay.BadSignatureRefused | wssRecever.go:197-201 | a head without the `FLV` signature is never relayed |
| MediaPusher.NewPusher | wscPusher.go:42-52 | a new pusher has status 0, count 0 and no connection, and is closed |
| MediaPusher.IsClosed | wscPusher.go:278-280 | a consistent pusher is closed exactly when it has no connection |
| MediaPusher.Disconnect | wscPusher.go:64-88 | at status 0 nothing changes; otherwise the status goes to 0, the connection is dropped and the subscription stops |
| MediaPusher.DisconnectIdempotent | wscPusher.go:71-73 | a second disconnect is a no-op |
| MediaPusher.DisconnectKeepsInv | wscPusher.go:74-80 | status 1 exactly when connected holds after a disconnect |
| MediaPusher.CidUrl | wscPusher.go:105-110 | the dialled URL carries `?cid=`, extends the remote URL and equals it when it already carries one |
| MediaPusher.CidUrlIdempotent | wscPusher.go:105-110 | redialling never appends a second cid |
| MediaPusher.OpeningWrites | wscPusher.go:137-185 | two binary messages: the 13-byte FLV header of the flags, and a script tag at time 0 that parses back to the metadata; together they pass the receiver's handshake with those flags |
| MediaPusher.Connect | wscPusher.go:92-135 | every attempt increments the count; a failed dial returns the error and changes neither status nor connection; a successful one records the URL, writes the two opening messages and stays open iff both writes succeed |
| MediaPusher.ConnectKeepsInv | wscPusher.go:92-135 | status 1 exactly when connected holds after `Connect` |
| MediaPusher.WriteFLVTag | wscPusher.go:310-362 | at status 0 nothing is written; otherwise a masked, final, binary frame header whose length is the joined buffers' length, then the joined buffers unless the header write failed; any failure disconnects |
| MediaPusher.WriteNothingIffClosed | wscPusher.go:278-280 | a consistent pusher writes nothing for a tag exactly when it is closed |
| MediaPusher.HealthCheck | wscPusher.go:257-270 | a closed stream or a stopped player disconnects; otherwise nothing changes |
| MediaPusher.PushLoopStopsAtFirstFault | wscPusher.go:257-272 | the health loop ends on the first faulty probe, disconnected |
| MediaPusher.PushLoopHealthy | wscPusher.go:257-272 | while every probe is healthy the pusher is untouched |
| MediaPusher.PushLoop | wscPusher.go:257-272 | the health loop probes at most once per probe given |
| MediaPusher.ReadStep | wscPusher.go:218-225 | corrected, with the bound-checked `FlvCodec.ParseFLVTag`: a frame is rebased whether or not it parses, a malformed one at timestamp 0; a malformed frame closes the pusher; a parsed one changes only the absolute time |
| MediaPusher.ReadStepAsWritten | wscPusher.go:218-225 | as written, with the unchecked parser, and only callable when the declared payload fits: a frame is rebased whether or not it parses; a frame under 11 bytes closes the pusher; any other changes only the absolute time |
| MediaPusher.ReadLoopAsWritten | wscPusher.go:192-246 | as written, with `ReadStepAsWritten`, and only callable when a connection exists at every read and every payload fits: a read failure anywhere leaves the pusher closed, and the connect count and address are kept |
| MediaPusher.BadFrameThenReadFaults | wscPusher.go:218-221 | after a malformed frame the loop reads again from a dropped connection |
| MediaPusher.FailedHeadWriteThenReadFaults | wscPusher.go:131-134 | a connect whose head write failed reports success, yet the back-channel loop starts with no connection |
| MediaPusher.ReadLoop | wscPusher.go:192-246 | corrected, with `ReadStep` and a connection check before each read: a pusher without a connection is left as it is, and the connect count and address are kept |
| MediaPusher.ReadLoopAgrees | wscPusher.go:192-246 | wherever the code as written does not fault, the checked loop does the same |
| MediaPusher.ReadStepKeepsInv | wscPusher.go:218-225 | status 1 exactly when connected holds after each frame |
| MediaPusher.ReadLoopFaultCloses | wscPusher.go:197-221 | any read failure or malformed frame leaves the pusher closed |
| MediaPusher.ReadLoopClosedStaysClosed | wscPusher.go:192-246 | a closed pusher reads nothing |
| MediaPusher.ReadLoopRebases | wscPusher.go:192-225 | well-formed tags change only the pusher's absolute time, which ends at the last rebased timestamp |
| MediaPusher.ReadFLVTag | wscPusher.go:192-246 | the corrected loop started at the pusher's time: a pusher without a connection is unchanged, and the connect count and address are kept |
| Hub.EmptyHubInv | server.go:27-31 | the empty registry is consistent |
| Hub.Wsocket | server.go:146-209 | a request is ignored unless it is a websocket upgrade on a `/register` path with a parsable query; an empty cid is refused; otherwise the cid's entry is replaced by a fresh one with the next id and the sequence counter is kept |
| Hub.WsocketKeepsInv | server.go:193-200 | registration keeps the registry consistent |
| Hub.RegisteredIsFound | server.go:197-199 | the registered cid is found with no identity yet; every other cid's entry is as before |
| Hub.TeardownAsWritten | server.go:139-143 | as written, and only callable while the cid's channel is open: the entry under the cid is removed and its channel closed |
| Hub.StaleReaderTeardown | server.go:137-143 | when a cid registers twice, the first reader's exit removes the second registration and closes its channel |
| Hub.Teardown | server.go:139-143 | corrected: a reader removes the entry only if it is still its own; its own channel is closed |
| Hub.TeardownAgrees | server.go:139-143 | for the current registration the corrected teardown equals the code's |
| Hub.TeardownKeepsInv | server.go:139-143 | the corrected teardown keeps the registry consistent |
| Hub.Demux | server.go:118-133 | a response is forwarded to the correlator; an identity that decodes replaces the entry's; anything else is logged and changes nothing |
| Hub.ReaderForwardsResponses | server.go:99-135 | the reader forwards exactly the responses among the messages read before the first failure |
| Hub.ReaderLoopAsWritten | server.go:99-144 | as written, with `TeardownAsWritten`, and only callable when the channel under the cid is open if the loop ends in a failure: the failure removes the entry under the cid and closes that channel; without one the channels and the cids are untouched |
| Hub.ReaderLoop | server.go:99-144 | corrected, with `Teardown`: a read failure anywhere closes the reader's own channel and leaves no entry of its own under the cid; without one the channels and cids are untouched; only responses are forwarded |
| Hub.ReaderLoopAgrees | server.go:99-144 | while the reader owns the entry under its cid, the corrected loop gives what the loop as written gives |
| Hub.ReaderFailureTearsDown | server.go:100-144 | for the corrected loop: a read failure ends the loop, removes the reader's own entry and closes its channel, and leaves other cids alone |
| Hub.SendToClient | server.go:86-97 | a message goes out iff the cid is registered, on that cid's connection |
| Hub.FirstMatch | server.go:63-75 | the first arrival with the sequence number is found, none before it matches, and none is found iff none matches |
| Hub.TransWsProxyMessage | server.go:33-84 | an unknown cid fails with "no find client" and leaves the counter; otherwise the counter goes up by one and the request goes out with that number; a write failure, and only a write failure, returns a write error; the answer is the pad of the first arrival with the request's number; a timeout happens iff no arrival matches |
| Hub.CorrelatorTakesFirstMatch | server.go:63-75 | stale responses are skipped and the first matching response's pad is returned |
| Hub.SequenceNumbersIncrease | server.go:44-49 | successive calls send strictly increasing sequence numbers |
| Hub.CallKeepsInv | server.go:33-58 | a call changes no registration |
| Upstream.NewClient | client.go:65-72 | a new client is closed and has no reader |
| Upstream.Connect | client.go:74-97 | a successful dial opens the client on the new connection; a failed one changes nothing |
| Upstream.Close | client.go:99-102 | closing marks the client closed |
| Upstream.ClientInfoEnvelope | client.go:103-120 | the identity goes out with the next value of the counter as its number and type `CInfo` |
| Upstream.ReconnectAsWritten | client.go:122-150 | as written: an open client is left alone; a failed dial is an error; a dial opens the client and sends the identity, and the reader starts only if the send succeeded and none runs |
| Upstream.SendFailureStalls | client.go:139-143 | after a failed identity send the client is open with no reader, and every later keep-alive tick does nothing |
| Upstream.OpenClientIgnored | client.go:123-127 | keep-alive ticks never touch an open client |
| Upstream.KeepAliveAsWritten | client.go:309-315 | the keep-alive ticks with `ReconnectAsWritten` never change the identity or target, and send at most one identity per tick |
| Upstream.Reconnect | client.go:122-150 | corrected: a failed identity send closes the client again, so the next tick redials |
| Upstream.ReconnectAgrees | client.go:122-150 | when the identity send succeeds the corrected reconnect equals the code's |
| Upstream.ReconnectSupervised | client.go:145-147 | reconnecting keeps a client supervised: whenever it is open, a reader runs |
| Upstream.SendFailureRetried | client.go:309-315 | with the correction, keep-alive reopens a supervised client at the first tick whose dial and send succeed |
| Upstream.KeepAlive | client.go:309-315 | with the corrected `Reconnect`: the identity and target are kept, at most one identity is sent per tick, and a supervised client stays supervised |
| Upstream.ResolveTarget | client.go:161-164 | a URL without the `http:` prefix is resolved against `http://127.0.0.1:8440`; one with it is kept |
| Upstream.ResolveTargetIdempotent | client.go:161-164 | resolving twice equals resolving once |
| Upstream.FirstValuesAsWritten | client.go:172-178 | as written, and only callable when no header key has an empty value list: each key keeps its first value |
| Upstream.EmptyHeaderListFaults | client.go:174-177 | a header with an empty value list breaks the code's precondition |
| Upstream.FirstValues | client.go:172-178 | corrected: keys with values keep their first one, and keys without values are dropped |
| Upstream.FirstValuesAgrees | client.go:172-178 | wherever the code as written does not fault, the corrected copy is the same |
| Upstream.HandleProxy | client.go:152-209 | a fetched request is answered with its request's number, type `HTTPProxyRsp` and the body; a failed fetch sends nothing |
| Upstream.ProxyRequestOf | client.go:161-178 | corrected, with `FirstValues`: the request keeps the method and body, resolves the URL, and carries a header key iff the message had values for it, with its first value |
| Upstream.ProxyRequestOfAsWritten | client.go:161-178 | as written, and only callable when no header key has an empty value list: method and body kept, URL resolved, every key kept with its first value |
| Upstream.ProxyRequestOfAgrees | client.go:161-178 | wherever the code as written does not fault, the corrected request is the same |
| Upstream.Respond | client.go:258-270 | at most one message goes back, and only for a request: a response with the request's number |
| Upstream.ClientReadLoop | client.go:211-273 | a closed client reads nothing; the loop never changes the identity or the target |
| Upstream.AnswersMatchRequests | client.go:251-270 | every answer is a response carrying the number of a request that was read |
| Upstream.ClientReadFailureCloses | client.go:221-249 | a read failure closes the client and ends the reader, which leaves it for keep-alive to redial |
| Upstream.RegisterTarget | client.go:289-305 | the scheme is "wss" iff the protocol is "https" or "wss"; the port is appended iff it is neither 80 nor 443; the path is the context path, the register route and the cid |
| Upstream.EffectiveCid | client.go:276-286 | the configured cid is used, or the generated one when it is empty |
| Upstream.SetupClients | client.go:289-308 | server `i` gets a new client under key `"%d"` of `i` targeting its register URL, and every key is such an index |
| Upstream.ClientSetup | client.go:275-308 | setup fails only when no cid is configured and none can be generated; otherwise every server's client targets its register URL with the effective cid |
| Upstream.SetupKeysDistinct | client.go:307 | distinct servers get distinct keys, so every server keeps its own client |
| HttpApi.Remaining | main.go:104-116 | the forwarded query drops `cid` and `httpPath` and keeps every other key with all its values |
| HttpApi.JoinQuery | main.go:121-128 | an empty query leaves the path alone; otherwise the path is followed by `&` iff it already contains `?`, by `?` otherwise, and then by the query |
| HttpApi.JoinQueryNewQuery | main.go:121-128 | a path without a query gets the forwarded parameters as its query |
| HttpApi.JoinQueryExtends | main.go:121-128 | a path with a query keeps it and gets the forwarded parameters after `&` |
| HttpApi.ForwardHeaders | main.go:140-151 | only `Content-Type` and `Set-Cookie` are forwarded, each iff non-empty and with its value |
| HttpApi.HttpProxy | main.go:90-171 | a missing cid is refused before a missing path, then an unescape failure; a body is read only when the content length is positive, and a failed read abandons the request; the forwarded request has the decoded URL, the method, the whitelisted headers and the body; the reply is the tunnel's answer or nothing |
| HttpApi.RefusedRequestSendsNothing | main.go:103-116 | a refused request reaches no subordinate and leaves the counter |
| HttpApi.PluginEntries | main.go:271-295 | a plugin without a pull config lists nothing; one with a pull config lists one entry per on-start and on-subscribe path, all under `name + "Pull"` |
| HttpApi.ConfigEntries | main.go:268-297 | no configuration-sourced entry has source "api" |
| HttpApi.ConfiguredPathsListed | main.go:268-297 | every configured pull path is listed with its plugin's source |
| HttpApi.PluginEntriesOnlyConfigured | main.go:271-295 | every entry a plugin contributes is one of its pull paths, under `name + "Pull"` |
| HttpApi.ConfigEntriesOnlyConfigured | main.go:268-297 | conversely, every configuration-sourced entry is a pull path of some plugin, under that plugin's source name |
| HttpApi.AppendApi | main.go:302-313 | existing entries stay first; each appended entry is an "api" entry for an engine stream not yet listed; every engine stream ends up listed |
| HttpApi.FilterStreams | main.go:265-316 | the list starts with the configuration-sourced entries; every later entry is an "api" entry for a running stream; every running stream is listed |
| HttpApi.ConfigBeforeApi | main.go:265-316 | every configuration-sourced entry precedes every "api" entry |
| HttpApi.ConfigEntriesFirst | main.go:265-316 | the list starts with the configuration-sourced entries unchanged |
| HttpApi.ApiEntriesUnique | main.go:302-313 | an "api" entry repeats no earlier entry's path |
| HttpApi.EngineStreamsListed | main.go:302-313 | every running stream is listed |
| HttpApi.ApiEntryIffUnconfigured | main.go:302-313 | a running stream gets an "api" entry iff no configuration lists it |
| HttpApi.StreamList | main.go:330-357 | an empty cid answers with the local list, which is the `filterStreams` list (configured entries first, then every running stream); otherwise the fixed GET request for the stream list is proxied and its answer returned |
| HttpApi.ClientList | main.go:319-328 | with the cids visited once each, the list has exactly one entry per registered client, and entry `i` is the identity of the `i`-th cid visited |
| HttpApi.ClientListOnlyRegistered | main.go:323-326 | every listed identity belongs to a registered client |
| MediaWire.Received | wssRecever.go:78-94 | the receiver sees at most one read per write, and only the last read can fail |
| Tunnel.OpeningAccepted | wssRecever.go:134-241 | the pusher's two opening messages make the receiver relay the stream under `streamPath + "-" + cid` with the pusher's flags |
| Tunnel.PushedTagsArrive | wscPusher.go:310-362 | the receiver reads the pusher's tag writes as exactly the sent tags, in order |
| Tunnel.PushRelaysTags | wssRecever.go:75-127 | every pushed tag is routed by the receiver at its rebased time |
| Tunnel.RegisterQuery | client.go:301-305 | the superior extracts `cid=` and the subordinate's cid from the register path |
| Tunnel.RegisterPath | client.go:304 | the register path passes the superior's `/register` test |
| Tunnel.RegistrationAccepted | server.go:157-200 | a subordinate dialling its register target is registered under its own cid |
| Tunnel.SubordinateAnswers | client.go:251-270 | an open subordinate answers the superior's request with its number and the fetched body |
| Tunnel.ProxyRoundTrip | server.go:33-84 | the superior's call returns the body the subordinate fetched, whatever stale responses arrive first |
| Tunnel.ForwardedHeadersArrive | main.go:140-151 | the whitelisted headers reach the subordinate's HTTP request unchanged |
| Tunnel.HttpProxyRoundTrip | main.go:90-171 | a proxied HTTP request that the subordinate answers returns the fetched body to the HTTP caller |

## Left out

- Websocket dialing, upgrade and frame I/O are inputs: dial results, write
  successes, and read sequences (`MediaRead`, `Inbound`).
- JSON encoding is the `Json` parameter. No byte-level round trip is
  claimed, and the end-to-end lemmas assume `decodeProxy` inverts
  `encodeProxy`.
- `url.QueryUnescape`, `url.ParseQuery` and `url.Values.Encode` are
  parameters. So is the escaping `url.URL.String` applies to a `?` in the
  register path, which the superior's unescape undoes.
  `Tunnel.RegistrationAccepted` takes the unescaped path as a hypothesis.
- `r.URL.Query()` ignores parse errors, so `HttpApi.HttpProxy` and
  `HttpApi.StreamList` take the parsed map as given.
- Goroutines, `connectionsLock` and the pusher's mutex are not modelled.
  The unlocked reads of `Status` and `IsRecving` are not modelled either,
  nor the window between starting a client reader and its setting
  `IsRecving`.
- Timing is finite sequences. The correlator's 10-second timer is the
  list of arrivals before it fires. The 5-second keep-alive ticks, the
  1-second idle wait and the 15-second health probes are sequences of
  `Tick` and `Probe`.
- The reader's unbuffered send on `RspChan` blocks when no call is
  waiting. It is modelled as a forwarded response.
- `RspChan` is never closed, so a call on a dropped connection ends by
  timeout. The model has no other exit either.
- The m7s engine is outside the model:
  - Publish, Subscribe and `Streams`;
  - `WriteAVCCAudio` and `WriteAVCCVideo`, which the model records as
    `Dispatch` events;
  - the `Plugins` table and stream table, which are inputs;
  - AMF metadata, which is a parameter;
  - `BytesPool` and `BLL` copying.
- UUID generation is an `Option` input, and `http.Client.Do` with the
  body read is the `fetch` parameter.
- `Ui_`, `OnEvent`, `API_Push` and the `push` helper are engine glue with
  no decisions of their own.
- Go map iteration order is an input: the plugin order in
  `HttpApi.FilterStreams` and the cid order in `HttpApi.ClientList`.
- `req.Header.Set` canonicalises header keys. `Upstream.FirstValues`
  keeps keys as given.
- The response write in `onWsProxyMessages` may fail. Its error is
  ignored by the caller, so `Upstream.Respond` treats the answer as
  written.
- FlvCodec.ParseFLVTagAsWritten: a Go slice may extend past its length
  into spare capacity and return stale bytes. The as-written parser
  instead requires the payload to lie within the buffer.
- MediaPusher.Connect requires AMF metadata shorter than 2^24 bytes, the
  most a tag's DataSize field can describe.
- Upstream.ResolveTarget is modelled as written, so an `https:` URL also
  gets the local base prefixed.
- Upstream.ClientSetup is modelled as written, so the identity sent
  upstream keeps the configured, possibly empty, cid even when one was
  generated.
- `receiveWsMessages` never closes `RspChan`, and neither `ParseFLVTag`
  checks the declared payload size. The as-written members follow the
  code; the corrected members are the ones the rest of the model uses.
- MediaRelay.ReadFLVTag, MediaRelay.ReadLoop and Tunnel.PushRelaysTags use
  the bound-checked parser, so they say nothing about the fault of an
  oversized frame; MediaRelay.ReadLoopAsWritten and
  MediaRelay.ReadLoopAgrees cover the code as written.
- MediaRelay.Wspush and Tunnel.OpeningAccepted use the length-checked
  handshake; MediaRelay.WspushAsWritten and MediaRelay.WspushAgrees cover
  the code as written.
- MediaPusher.ReadFLVTag and MediaPusher.ReadLoop and the lemmas about
  them use the corrected loop, which stops once the connection is gone;
  MediaPusher.ReadLoopAsWritten and MediaPusher.ReadLoopAgrees cover the
  code as written.
- Hub.ReaderFailureTearsDown and Hub.ReaderForwardsResponses are about the
  corrected reader loop; Hub.ReaderLoopAsWritten and Hub.ReaderLoopAgrees
  cover the code as written.
- Upstream.HandleProxy, Upstream.Respond, Upstream.ClientReadLoop and
  Tunnel.SubordinateAnswers build the request with the corrected
  `ProxyRequestOf`; Upstream.ProxyRequestOfAsWritten and
  Upstream.ProxyRequestOfAgrees cover the code as written.
- Upstream.SendFailureRetried and Upstream.KeepAlive are about the
  corrected reconnect; Upstream.KeepAliveAsWritten and
  Upstream.SendFailureStalls cover the code as written.
- Tunnel.TagWrites: takes the engine's `FLVFrame` (built by
  `codec.AVCC2FLV`, which is not part of this model) to be the Annex E tag
  with its 4-byte trailer, as `FlvCodec.BuildTag` builds it;
  Tunnel.PushedTagsArrive and Tunnel.PushRelaysTags rest on that.
- MediaPusher.OpeningWrites: takes the script message
  `codec.AVCC2FLV(FLV_TAG_TYPE_SCRIPT, 0, amf.Buffer)` to be the Annex E
  tag `FlvCodec.BuildTag` builds; MediaPusher.Connect and
  Tunnel.OpeningAccepted rest on that.

## Findings

| source | as written | input that shows it | evidently intended | confidence | as-written member | corrected member |
|---|---|---|---|---|---|---|
| wssRecever.go:68 (and wscPusher.go:303) | the payload is sliced `b[11:11+dataSize]` with no check that `dataSize` bytes follow the header | the 11-byte tag `08 00 00 05 00 00 00 00 00 00 00`, which declares 5 payload bytes and has none | report "FLV Tag data is too short" when the declared payload does not fit | not executed | FlvCodec.ParseFLVTagAsWritten, FlvCodec.OversizedTagEscapesCheck, MediaRelay.ReadLoopAsWritten | FlvCodec.ParseFLVTag, MediaRelay.ReadLoop |
| wssRecever.go:197-218 | `head[0..2]`, `head[4]` and `sc[0]` are indexed with no length check | a head frame of the 3 bytes `FLV`, or an empty script frame | refuse the connection as an invalid head or script | not executed | FlvCodec.HandshakeAsWritten, FlvCodec.ShortHeadEscapesCheck, MediaRelay.WspushAsWritten, MediaRelay.ShortHeadReachesIndex | FlvCodec.Handshake, MediaRelay.Wspush |
| wscPusher.go:197-221 | after a parse error `OnConnErr` drops `Conn` and the loop continues, and `Connect` reports success after a failed head write; the next `ws.ReadHeader(*pusher.Conn)` dereferences nil | a malformed frame followed by any read, or a failed head write followed by the back-channel loop | end the loop once the connection is gone | not executed | MediaPusher.ReadLoopAsWritten, MediaPusher.BadFrameThenReadFaults | MediaPusher.ReadLoop |
| server.go:139-143 | a reader's exit deletes whatever entry holds its cid and closes the channel now under that cid | cid `a` registers, registers again, and then the first connection's reader ends: the second registration is removed, and its own reader's exit closes the same channel again | remove and close only the reader's own registration | not executed | Hub.TeardownAsWritten, Hub.StaleReaderTeardown, Hub.ReaderLoopAsWritten | Hub.Teardown, Hub.ReaderLoop |
| client.go:139-143 | a failed identity send returns after `Connect` has set `IsClosed = false`, with no reader started | a dial that succeeds followed by a failed identity write on a client with no reader | treat the failed send as a failed connect, so the next keep-alive tick redials | not executed | Upstream.ReconnectAsWritten, Upstream.SendFailureStalls | Upstream.Reconnect, Upstream.SendFailureRetried |
| client.go:174-177 | `values[0]` is read for every header key | a proxied request whose URL `http.NewRequest` accepts and whose JSON header holds `"X-Empty": []` | skip keys with no values | not executed | Upstream.FirstValuesAsWritten, Upstream.EmptyHeaderListFaults, Upstream.ProxyRequestOfAsWritten | Upstream.FirstValues, Upstream.ProxyRequestOf |
