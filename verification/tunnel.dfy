/** End-to-end properties of the cascade: what one side writes is what the
    other side's checks accept. The pusher's opening messages pass the
    receiver's handshake, its tag frames reach the receiver's read loop as
    the tags it sent, a subordinate's registration URL passes the
    superior's registration checks with the subordinate's own cid, and a
    proxied request answered by the subordinate returns its body to the
    superior's caller. */
module Tunnel {
  import opened Base
  import opened FlvCodec
  import opened MediaWire
  import opened Envelopes
  import opened Timestamps
  import MediaRelay
  import MediaPusher
  import Hub
  import Upstream
  import HttpApi

  // ---------------------------------------------------------------------
  // Media push: pusher -> receiver

  /** The two opening messages a connected pusher writes are accepted by
      the receiving handler, which relays the stream under
      `streamPath + "-" + cid` with the pusher's track flags. */
  lemma OpeningAccepted(codec: UrlCodec, a: MediaRelay.PushAttempt, q: Params, flags: AvFlags, meta: Bytes)
    requires |meta| < 0x100_0000
    requires a.upgrade == "websocket" && a.upgradeOk && HandlerQuery(codec, a.fullUrl) == Some(q)
    requires QueryGet(q, "cid") != "" && QueryGet(q, "streamPath") != ""
    requires a.head == Some(MediaPusher.OpeningWrites(flags, meta)[0].data)
    requires a.script == Some(MediaPusher.OpeningWrites(flags, meta)[1].data)
    requires a.stream == MediaRelay.HasPublisher || a.publishOk
    ensures MediaRelay.Wspush(codec, a) ==
      MediaRelay.Relaying(QueryGet(q, "streamPath") + "-" + QueryGet(q, "cid"), flags, a.stream != MediaRelay.HasPublisher)
  {
    HandshakeRoundTrip(flags, meta);
  }

  /** The writes an open pusher makes for a run of tags, each tag sent as
      one buffer and both writes succeeding. */
  function TagWrites(p: MediaPusher.Pusher, tags: seq<Tag>): (w: seq<WsWrite>)
    requires p.status != 0 && Sendable(tags)
    ensures |w| == 2 * |tags|
    decreases |tags|
  {
    if |tags| == 0 then []
    else
      SendableTail(tags);
      MediaPusher.WriteFLVTag(p, [BuildTag(tags[0])], true, true).1 + TagWrites(p, tags[1..])
  }

  /** One tag's writes: its frame header, then the built tag. */
  lemma TagWritesStep(p: MediaPusher.Pusher, tags: seq<Tag>)
    requires p.status != 0 && Sendable(tags) && |tags| > 0
    ensures Sendable(tags[1..])
    ensures TagWrites(p, tags) ==
      [RawHeader(MediaPusher.TagHeader(|BuildTag(tags[0])|)), BinaryMessage(BuildTag(tags[0]))] + TagWrites(p, tags[1..])
  {
    SendableTail(tags);
    var t := tags[0];
    assert Flatten([BuildTag(t)]) == BuildTag(t) by {
      assert [BuildTag(t)][1..] == [];
    }
  }

  /** A header followed by a message is read as one delivered message. */
  lemma ReceivedPair(hd: WsHeader, data: Bytes, rest: seq<WsWrite>)
    ensures Received([RawHeader(hd), BinaryMessage(data)] + rest) == [Delivered(data)] + Received(rest)
  {
    var w := [RawHeader(hd), BinaryMessage(data)] + rest;
    assert w[2..] == rest;
  }

  /** The receiver reads each written pair as one delivered message: the
      frames it sees are exactly the built tags, in order. */
  lemma {:induction false} PushedTagsArrive(p: MediaPusher.Pusher, tags: seq<Tag>)
    requires p.status != 0 && Sendable(tags)
    ensures Received(TagWrites(p, tags)) == Frames(tags)
    decreases |tags|
  {
    if |tags| > 0 {
      TagWritesStep(p, tags);
      PushedTagsArrive(p, tags[1..]);
      ReceivedPair(MediaPusher.TagHeader(|BuildTag(tags[0])|), BuildTag(tags[0]), TagWrites(p, tags[1..]));
      assert Frames(tags) == [Delivered(BuildTag(tags[0]))] + Frames(tags[1..]);
    }
  }

  /** Every tag the pusher sends reaches the receiver's routing with its
      timestamp rebased, and nothing else is dispatched. */
  lemma PushRelaysTags(p: MediaPusher.Pusher, s: MediaRelay.RelayState, tags: seq<Tag>)
    requires p.status != 0 && Sendable(tags)
    ensures MediaRelay.ReadLoop(s, Received(TagWrites(p, tags))).1
            == MediaRelay.Expected(tags, RebaseAll(s.rebaser, Stamps(tags)))
  {
    PushedTagsArrive(p, tags);
    MediaRelay.ReadLoopDispatchesTags(s, tags);
  }

  // ---------------------------------------------------------------------
  // Registration: subordinate client -> superior hub

  /** The query the superior extracts from the registration path is
      exactly `cid=` followed by the subordinate's cid. */
  lemma RegisterQuery(s: Upstream.ServerConfig, cid: string)
    requires '?' !in s.contextPath && '?' !in cid
    ensures QueryPart(Upstream.RegisterTarget(s, cid).path) == "cid=" + cid
  {
    var p := s.contextPath + "/erwscascade/wsocket/register";
    var tail := "cid=" + cid;
    assert Upstream.RegisterTarget(s, cid).path == p + "?" + tail + "";
    assert '?' !in p;
    assert '?' !in tail;
    QueryPartOf(p, tail, "");
  }

  /** The registration path passes the superior's path test. */
  lemma RegisterPath(s: Upstream.ServerConfig, cid: string)
    ensures Contains(Upstream.RegisterTarget(s, cid).path, "/register")
  {
    var a := s.contextPath + "/erwscascade/wsocket";
    var b := "?cid=" + cid;
    assert Upstream.RegisterTarget(s, cid).path == a + "/register" + b;
    ContainsInfix(a, "/register", b);
  }

  /** A subordinate that dials its registration target is registered under
      its own cid, given that unescaping yields the target path and that
      `cid=<cid>` parses to that cid. */
  lemma RegistrationAccepted(h: Hub.Hub, codec: UrlCodec, s: Upstream.ServerConfig, cid: string,
                             a: Hub.RegisterAttempt, q: Params)
    requires '?' !in s.contextPath && '?' !in cid && cid != ""
    requires a.upgrade == "websocket" && a.upgradeOk
    requires a.path == Upstream.RegisterTarget(s, cid).path
    requires codec.unescape(a.fullUrl) == Some(Upstream.RegisterTarget(s, cid).path)
    requires codec.parseQuery("cid=" + cid) == Some(q) && QueryGet(q, "cid") == cid
    ensures Hub.Wsocket(h, codec, a).1 == Hub.Registered(cid, h.nextId)
    ensures cid in Hub.Wsocket(h, codec, a).0.clients
  {
    RegisterQuery(s, cid);
    RegisterPath(s, cid);
  }

  // ---------------------------------------------------------------------
  // HTTP proxying: superior hub -> subordinate client -> superior hub

  /** The request the superior sends for `req`. */
  function RequestEnvelope(h: Hub.Hub, req: ProxyMessage, json: Json): (env: Envelope)
    ensures env.kind == HTTPProxyReq && env.sn == h.gSn + 1
  {
    Envelope(h.gSn + 1, HTTPProxyReq, json.encodeProxy(req))
  }

  /** An open subordinate answers the request envelope with one response
      carrying the same sequence number and the fetched body. */
  lemma SubordinateAnswers(c: Upstream.Client, h: Hub.Hub, req: ProxyMessage, json: Json,
                           fetch: Upstream.HttpRequest -> Option<Bytes>, body: Bytes)
    requires !c.isClosed
    requires json.decodeProxy(json.encodeProxy(req)) == Some(req)
    requires fetch(Upstream.ProxyRequestOf(req)) == Some(body)
    ensures Upstream.ClientReadLoop(c, json, fetch, [Text(Some(RequestEnvelope(h, req, json)))]).1
            == [Envelope(h.gSn + 1, HTTPProxyRsp, body)]
  {
    var env := RequestEnvelope(h, req, json);
    assert [Text(Some(env))][1..] == [];
  }

  /** The full round trip: the superior writes the request envelope to the
      subordinate's connection, the subordinate answers it, and the
      superior's call returns the fetched body, whatever stale responses
      to earlier calls arrive first. */
  lemma ProxyRoundTrip(h: Hub.Hub, cid: string, c: Upstream.Client, req: ProxyMessage, json: Json,
                       fetch: Upstream.HttpRequest -> Option<Bytes>, body: Bytes,
                       stale: seq<Envelope>, later: seq<Envelope>)
    requires cid in h.clients && !c.isClosed
    requires json.decodeProxy(json.encodeProxy(req)) == Some(req)
    requires fetch(Upstream.ProxyRequestOf(req)) == Some(body)
    requires forall i :: 0 <= i < |stale| ==> stale[i].sn != h.gSn + 1
    ensures var answers := Upstream.ClientReadLoop(c, json, fetch, [Text(Some(RequestEnvelope(h, req, json)))]).1;
      var call := Hub.TransWsProxyMessage(h, cid, req, json, true, stale + answers + later);
      && call.sent == Some((h.clients[cid].conn, RequestEnvelope(h, req, json)))
      && call.result == Ok(body)
  {
    SubordinateAnswers(c, h, req, json, fetch, body);
    Hub.CorrelatorTakesFirstMatch(h, cid, req, json, stale, body, later);
  }

  /** The headers the superior whitelists reach the subordinate's HTTP
      request unchanged: each is present exactly when it was non-empty. */
  lemma ForwardedHeadersArrive(contentType: string, setCookie: string)
    ensures var hd := Upstream.FirstValues(HttpApi.ForwardHeaders(contentType, setCookie));
      && ("Content-Type" in hd <==> contentType != "")
      && ("Content-Type" in hd ==> hd["Content-Type"] == contentType)
      && ("Set-Cookie" in hd <==> setCookie != "")
      && ("Set-Cookie" in hd ==> hd["Set-Cookie"] == setCookie)
      && (forall k :: k in hd ==> k == "Content-Type" || k == "Set-Cookie")
  {
  }

  /** A proxied HTTP request whose subordinate answers comes back to the
      HTTP caller as the fetched body. */
  lemma HttpProxyRoundTrip(h: Hub.Hub, c: Upstream.Client, json: Json, encode: Params -> string, codec: UrlCodec,
                           r: HttpApi.IncomingRequest, fetch: Upstream.HttpRequest -> Option<Bytes>, body: Bytes,
                           stale: seq<Envelope>, later: seq<Envelope>)
    requires QueryGet(r.query, "cid") != "" && QueryGet(r.query, "cid") in h.clients && !c.isClosed
    requires QueryGet(r.query, "httpPath") != ""
    requires codec.unescape(HttpApi.ProxyTarget(r.query, encode)).Some?
    requires r.contentLength > 0 ==> r.body.Some?
    requires forall m :: json.decodeProxy(json.encodeProxy(m)) == Some(m)
    requires forall i :: 0 <= i < |stale| ==> stale[i].sn != h.gSn + 1
    ensures HttpApi.HttpProxy(h, json, encode, codec, r, true, []).forwarded.Some?
    ensures var req := HttpApi.HttpProxy(h, json, encode, codec, r, true, []).forwarded.value;
      fetch(Upstream.ProxyRequestOf(req)) == Some(body) ==>
        var answers := Upstream.ClientReadLoop(c, json, fetch, [Text(Some(RequestEnvelope(h, req, json)))]).1;
        HttpApi.HttpProxy(h, json, encode, codec, r, true, stale + answers + later).reply == HttpApi.Replied(body)
  {
    var out := HttpApi.HttpProxy(h, json, encode, codec, r, true, []);
    assert !out.reply.Rejected? && out.reply != HttpApi.BodyUnread;
    var req := out.forwarded.value;
    if fetch(Upstream.ProxyRequestOf(req)) == Some(body) {
      var answers := Upstream.ClientReadLoop(c, json, fetch, [Text(Some(RequestEnvelope(h, req, json)))]).1;
      ProxyRoundTrip(h, QueryGet(r.query, "cid"), c, req, json, fetch, body, stale, later);
      var out2 := HttpApi.HttpProxy(h, json, encode, codec, r, true, stale + answers + later);
      assert out2.forwarded == Some(req);
    }
  }
}
