/** The subordinate's side of the tunnel (client.go): the client that
    registers with each configured superior, keeps that registration alive,
    and answers the HTTP requests the superior sends down it. */
module Upstream {
  import opened Base
  import opened Envelopes

  /** Where a client registers: `url.URL{Scheme, Host, Path}`. The path
      carries the query text `?cid=...` verbatim. */
  datatype WsTarget = WsTarget(scheme: string, host: string, path: string)

  /** A `CascadingWsClient`. `conn` is `None` until the first successful
      dial; connections are told apart by a number. */
  datatype Client = Client(info: ClientInfo, target: WsTarget, conn: Option<nat>, isClosed: bool, isRecving: bool)

  /** `NewCascadingWsClient`: closed, with no reader. */
  function NewClient(info: ClientInfo, target: WsTarget): (c: Client)
    ensures c.info == info && c.target == target && c.isClosed && !c.isRecving && c.conn.None?
  {
    Client(info, target, None, true, false)
  }

  /** `Connect`: on success the new connection is kept and the client is
      open; a failed dial changes nothing. */
  function Connect(c: Client, dial: Option<nat>): (c': Client)
    ensures dial.None? ==> c' == c
    ensures dial.Some? ==> !c'.isClosed && c'.conn == dial && c'.isRecving == c.isRecving
    ensures c'.info == c.info && c'.target == c.target
  {
    match dial
    case None => c
    case Some(_) => c.(conn := dial, isClosed := false)
  }

  /** `Close`. */
  function Close(c: Client): (c': Client)
    ensures c'.isClosed && c'.conn == c.conn && c'.isRecving == c.isRecving
    ensures c'.info == c.info && c'.target == c.target
  {
    c.(isClosed := true)
  }

  /** `SendClientInfo`: the next value of the process-wide counter `cSn`
      and the identity envelope written with it. */
  function ClientInfoEnvelope(c: Client, cSn: int, json: Json): (out: (int, Envelope))
    ensures out.0 == cSn + 1
    ensures out.1.sn == out.0 && out.1.kind == CInfo && out.1.pad == json.encodeInfo(c.info)
  {
    (cSn + 1, Envelope(cSn + 1, CInfo, json.encodeInfo(c.info)))
  }

  datatype UpstreamError = ConnectFailed | SendFailed

  /** The client after a `Reconnect`, the counter, the envelope written,
      the result, and whether a read loop was started. */
  datatype Reconnection = Reconnection(
    client: Client, cSn: int, sent: Option<Envelope>, result: Result<(), UpstreamError>, startsReader: bool)

  /** What one keep-alive tick meets: the dial outcome and whether the
      identity write succeeds. */
  datatype Tick = Tick(dial: Option<nat>, sendOk: bool)

  /** Every open client has a read loop: the loop is the only thing that
      notices a dropped connection and closes the client, which is what
      makes the next keep-alive tick redial. */
  predicate Supervised(c: Client)
  {
    !c.isClosed ==> c.isRecving
  }

  /** `Reconnect` as written. An open client is left alone. A failed
      identity write returns before the read loop is started, and the
      client stays open. A started loop is taken to mark itself as
      receiving at once. */
  function ReconnectAsWritten(c: Client, cSn: int, json: Json, t: Tick): (r: Reconnection)
    ensures !c.isClosed ==> r == Reconnection(c, cSn, None, Ok(()), false)
    ensures c.isClosed && t.dial.None? ==> r == Reconnection(c, cSn, None, Err(ConnectFailed), false)
    ensures c.isClosed && t.dial.Some? ==>
      && r.sent == Some(ClientInfoEnvelope(c, cSn, json).1) && r.cSn == cSn + 1
      && !r.client.isClosed && r.client.conn == t.dial
      && (r.result.Ok? <==> t.sendOk)
      && (r.startsReader <==> t.sendOk && !c.isRecving)
  {
    if !c.isClosed then Reconnection(c, cSn, None, Ok(()), false)
    else match t.dial
      case None => Reconnection(c, cSn, None, Err(ConnectFailed), false)
      case Some(_) =>
        var c1 := Connect(c, t.dial);
        var (sn, env) := ClientInfoEnvelope(c1, cSn, json);
        if !t.sendOk then Reconnection(c1, sn, Some(env), Err(SendFailed), false)
        else
          var start := !c1.isRecving;
          Reconnection(c1.(isRecving := true), sn, Some(env), Ok(()), start)
  }

  /** The keep-alive loop's ticks on one client, nothing else happening to
      it in between. */
  function KeepAliveAsWritten(c: Client, cSn: int, json: Json, ticks: seq<Tick>): (out: (Client, int))
    ensures out.0.info == c.info && out.0.target == c.target
    ensures cSn <= out.1 <= cSn + |ticks|
    decreases |ticks|
  {
    if |ticks| == 0 then (c, cSn)
    else
      var r := ReconnectAsWritten(c, cSn, json, ticks[0]);
      KeepAliveAsWritten(r.client, r.cSn, json, ticks[1..])
  }

  /** A failed identity write leaves an open client with no read loop:
      nothing will ever close it, and every later tick is a no-op, however
      the network behaves. */
  lemma {:induction false} SendFailureStalls(c: Client, cSn: int, json: Json, conn: nat, ticks: seq<Tick>)
    requires c.isClosed && !c.isRecving
    ensures var r := ReconnectAsWritten(c, cSn, json, Tick(Some(conn), false));
      && !Supervised(r.client)
      && KeepAliveAsWritten(r.client, r.cSn, json, ticks) == (r.client, r.cSn)
  {
    var r := ReconnectAsWritten(c, cSn, json, Tick(Some(conn), false));
    OpenClientIgnored(r.client, r.cSn, json, ticks);
  }

  lemma {:induction false} OpenClientIgnored(c: Client, cSn: int, json: Json, ticks: seq<Tick>)
    requires !c.isClosed
    ensures KeepAliveAsWritten(c, cSn, json, ticks) == (c, cSn)
    decreases |ticks|
  {
    if |ticks| > 0 {
      OpenClientIgnored(c, cSn, json, ticks[1..]);
    }
  }

  /** `Reconnect` with a failed identity write treated like a failed dial:
      the new connection is closed, so the next tick dials again. */
  function Reconnect(c: Client, cSn: int, json: Json, t: Tick): (r: Reconnection)
    ensures !c.isClosed ==> r == Reconnection(c, cSn, None, Ok(()), false)
    ensures c.isClosed && t.dial.None? ==> r == Reconnection(c, cSn, None, Err(ConnectFailed), false)
    ensures c.isClosed && t.dial.Some? ==>
      && r.sent == Some(ClientInfoEnvelope(c, cSn, json).1) && r.cSn == cSn + 1
      && (r.result.Ok? <==> t.sendOk)
      && (r.client.isClosed <==> !t.sendOk)
      && (r.startsReader <==> t.sendOk && !c.isRecving)
  {
    if !c.isClosed then Reconnection(c, cSn, None, Ok(()), false)
    else match t.dial
      case None => Reconnection(c, cSn, None, Err(ConnectFailed), false)
      case Some(_) =>
        var c1 := Connect(c, t.dial);
        var (sn, env) := ClientInfoEnvelope(c1, cSn, json);
        if !t.sendOk then Reconnection(Close(c1), sn, Some(env), Err(SendFailed), false)
        else
          var start := !c1.isRecving;
          Reconnection(c1.(isRecving := true), sn, Some(env), Ok(()), start)
  }

  /** Whenever the identity write succeeds, the corrected reconnect does
      what the code as written does. */
  lemma ReconnectAgrees(c: Client, cSn: int, json: Json, t: Tick)
    requires t.sendOk
    ensures Reconnect(c, cSn, json, t) == ReconnectAsWritten(c, cSn, json, t)
  {
  }

  /** The corrected reconnect keeps every open client supervised. */
  lemma ReconnectSupervised(c: Client, cSn: int, json: Json, t: Tick)
    requires Supervised(c)
    ensures Supervised(Reconnect(c, cSn, json, t).client)
  {
  }

  function KeepAlive(c: Client, cSn: int, json: Json, ticks: seq<Tick>): (out: (Client, int))
    ensures out.0.info == c.info && out.0.target == c.target
    ensures cSn <= out.1 <= cSn + |ticks|
    ensures Supervised(c) ==> Supervised(out.0)
    decreases |ticks|
  {
    if |ticks| == 0 then (c, cSn)
    else
      var r := Reconnect(c, cSn, json, ticks[0]);
      KeepAlive(r.client, r.cSn, json, ticks[1..])
  }

  /** With the correction, a failed identity write is retried: the first
      later tick whose dial and write succeed leaves the client open and
      supervised. */
  lemma {:induction false} SendFailureRetried(c: Client, cSn: int, json: Json, ticks: seq<Tick>, k: nat)
    requires c.isClosed && Supervised(c)
    requires k < |ticks| && ticks[k].dial.Some? && ticks[k].sendOk
    requires forall j :: 0 <= j < k ==> !(ticks[j].dial.Some? && ticks[j].sendOk)
    ensures var out := KeepAlive(c, cSn, json, ticks[..k + 1]).0;
      !out.isClosed && Supervised(out)
    decreases k
  {
    var r := Reconnect(c, cSn, json, ticks[0]);
    if k > 0 {
      assert ticks[..k + 1][1..] == ticks[1..][..k];
      SendFailureRetried(r.client, r.cSn, json, ticks[1..], k - 1);
    } else {
      assert ticks[..1][1..] == [];
    }
  }

  // ---------------------------------------------------------------------
  // Answering a proxied request (onWsProxyMessages)

  /** The local server every relative request URL is sent to. */
  const LocalBase: string := "http://127.0.0.1:8440"

  /** The request URL: kept when it starts with "http:", otherwise taken
      as a path on the local server. An "https:" URL does not start with
      "http:" and is prefixed too. */
  function ResolveTarget(u: string): (t: string)
    ensures HasPrefix(t, "http:")
    ensures HasPrefix(u, "http:") ==> t == u
    ensures !HasPrefix(u, "http:") ==> t == LocalBase + u && |t| == |LocalBase| + |u|
  {
    if HasPrefix(u, "http:") then u
    else
      assert (LocalBase + u)[..5] == "http:";
      LocalBase + u
  }

  /** Resolving twice is resolving once. */
  lemma ResolveTargetIdempotent(u: string)
    ensures ResolveTarget(ResolveTarget(u)) == ResolveTarget(u)
  {
  }

  /** The request header `req.Header.Set(key, values[0])` builds, as
      written: every key must carry at least one value. */
  function FirstValuesAsWritten(h: Params): (r: map<string, string>)
    requires forall k :: k in h ==> |h[k]| > 0
    ensures r.Keys == h.Keys
    ensures forall k :: k in r ==> r[k] == h[k][0]
  {
    map k | k in h :: h[k][0]
  }

  /** A header key with an empty value list, as a JSON request can carry
      it: the code as written indexes past its end. */
  lemma EmptyHeaderListFaults()
    ensures var h: Params := map["X-Empty" := []];
      !(forall k :: k in h ==> |h[k]| > 0)
  {
    var h: Params := map["X-Empty" := []];
    assert "X-Empty" in h && |h["X-Empty"]| == 0;
  }

  /** The header with keys that carry no value skipped. */
  function FirstValues(h: Params): (r: map<string, string>)
    ensures forall k :: k in r <==> k in h && |h[k]| > 0
    ensures forall k :: k in r ==> r[k] == h[k][0]
  {
    map k | k in h && |h[k]| > 0 :: h[k][0]
  }

  /** Wherever the code as written does not fault, the corrected header
      is the same. */
  lemma FirstValuesAgrees(h: Params)
    requires forall k :: k in h ==> |h[k]| > 0
    ensures FirstValues(h) == FirstValuesAsWritten(h)
  {
  }

  /** The request made for a proxied message. */
  datatype HttpRequest = HttpRequest(httpMethod: string, url: string, header: map<string, string>, body: Bytes)

  /** `onWsProxyMessages`. `fetch` stands for building the request,
      `http.Client.Do` and reading the body; `None` is any of their
      failures, after which nothing is written. The answer echoes the
      request's sequence number. */
  function HandleProxy(m: Envelope, pm: ProxyMessage, fetch: HttpRequest -> Option<Bytes>): (rsp: Option<Envelope>)
    ensures rsp.None? <==> fetch(ProxyRequestOf(pm)).None?
    ensures rsp.Some? ==> rsp.value == Envelope(m.sn, HTTPProxyRsp, fetch(ProxyRequestOf(pm)).value)
  {
    match fetch(ProxyRequestOf(pm))
    case None => None
    case Some(body) => Some(Envelope(m.sn, HTTPProxyRsp, body))
  }

  /** The HTTP request a proxied message turns into, as written: every
      header key must carry a value. */
  function ProxyRequestOfAsWritten(pm: ProxyMessage): (req: HttpRequest)
    requires forall k :: k in pm.header ==> |pm.header[k]| > 0
    ensures req.httpMethod == pm.httpMethod && req.body == pm.body
    ensures req.url == ResolveTarget(pm.url)
    ensures req.header.Keys == pm.header.Keys
    ensures forall k :: k in req.header ==> req.header[k] == pm.header[k][0]
  {
    HttpRequest(pm.httpMethod, ResolveTarget(pm.url), FirstValuesAsWritten(pm.header), pm.body)
  }

  /** The HTTP request a proxied message turns into, with header keys that
      carry no value skipped. The rest of the model uses this request. */
  function ProxyRequestOf(pm: ProxyMessage): (req: HttpRequest)
    ensures req.httpMethod == pm.httpMethod && req.body == pm.body
    ensures req.url == ResolveTarget(pm.url)
    ensures forall k :: k in req.header <==> k in pm.header && |pm.header[k]| > 0
    ensures forall k :: k in req.header ==> req.header[k] == pm.header[k][0]
  {
    HttpRequest(pm.httpMethod, ResolveTarget(pm.url), FirstValues(pm.header), pm.body)
  }

  /** Wherever the code as written does not fault, the request is the
      same. */
  lemma ProxyRequestOfAgrees(pm: ProxyMessage)
    requires forall k :: k in pm.header ==> |pm.header[k]| > 0
    ensures ProxyRequestOf(pm) == ProxyRequestOfAsWritten(pm)
  {
    FirstValuesAgrees(pm.header);
  }

  // ---------------------------------------------------------------------
  // The read loop (receiveWsMessages)

  /** What one decoded message produces: a proxied request that decodes
      is answered; anything else is only logged. */
  function Respond(m: Envelope, json: Json, fetch: HttpRequest -> Option<Bytes>): (out: seq<Envelope>)
    ensures |out| <= 1
    ensures |out| == 1 ==> m.kind == HTTPProxyReq && out[0].sn == m.sn && out[0].kind == HTTPProxyRsp
  {
    if m.kind != HTTPProxyReq then []
    else match json.decodeProxy(m.pad)
      case None => []
      case Some(pm) =>
        match HandleProxy(m, pm, fetch)
        case None => []
        case Some(rsp) => [rsp]
  }

  /** The read loop over a finite run of reads. While the client is closed
      the loop only waits; a failed read closes the client and ends the
      loop, which then no longer counts as receiving. The result is the
      client and the answers written, in order. */
  function ClientReadLoop(c: Client, json: Json, fetch: HttpRequest -> Option<Bytes>, inbound: seq<Inbound>): (out: (Client, seq<Envelope>))
    ensures c.isClosed ==> out == (c, [])
    ensures out.0.info == c.info && out.0.target == c.target
    decreases |inbound|
  {
    if c.isClosed || |inbound| == 0 then (c, [])
    else match inbound[0]
      case ReadFailed => (Close(c).(isRecving := false), [])
      case Text(None) => ClientReadLoop(c, json, fetch, inbound[1..])
      case Text(Some(m)) =>
        var (c2, rest) := ClientReadLoop(c, json, fetch, inbound[1..]);
        (c2, Respond(m, json, fetch) + rest)
  }

  /** Read `j` delivered a proxied request numbered `sn`. */
  predicate RequestAt(inbound: seq<Inbound>, j: int, sn: int)
  {
    0 <= j < |inbound| && inbound[j].Text? && inbound[j].env.Some?
    && inbound[j].env.value.kind == HTTPProxyReq && inbound[j].env.value.sn == sn
  }

  /** Every answer is a response to a request among `inbound`. */
  predicate AnswersRequests(answers: seq<Envelope>, inbound: seq<Inbound>)
  {
    forall i :: 0 <= i < |answers| ==>
      answers[i].kind == HTTPProxyRsp && exists j | 0 <= j < |inbound| :: RequestAt(inbound, j, answers[i].sn)
  }

  /** Every answer the loop writes is a response carrying the sequence
      number of a request among the messages it read. */
  lemma {:induction false} AnswersMatchRequests(c: Client, json: Json, fetch: HttpRequest -> Option<Bytes>, inbound: seq<Inbound>)
    ensures AnswersRequests(ClientReadLoop(c, json, fetch, inbound).1, inbound)
    decreases |inbound|
  {
    if !c.isClosed && |inbound| > 0 && inbound[0].Text? {
      AnswersMatchRequests(c, json, fetch, inbound[1..]);
      var here := if inbound[0].env.Some? then Respond(inbound[0].env.value, json, fetch) else [];
      assert ClientReadLoop(c, json, fetch, inbound).1 == here + ClientReadLoop(c, json, fetch, inbound[1..]).1;
      AnswersCons(here, ClientReadLoop(c, json, fetch, inbound[1..]).1, inbound);
    }
  }

  lemma AnswersCons(here: seq<Envelope>, rest: seq<Envelope>, inbound: seq<Inbound>)
    requires |inbound| > 0 && AnswersRequests(rest, inbound[1..])
    requires forall i :: 0 <= i < |here| ==> here[i].kind == HTTPProxyRsp && RequestAt(inbound, 0, here[i].sn)
    ensures AnswersRequests(here + rest, inbound)
  {
    var out := here + rest;
    forall i | 0 <= i < |out|
      ensures out[i].kind == HTTPProxyRsp && exists j | 0 <= j < |inbound| :: RequestAt(inbound, j, out[i].sn)
    {
      if i < |here| {
        assert out[i] == here[i];
      } else {
        var i' := i - |here|;
        assert out[i] == rest[i'];
        var j :| 0 <= j < |inbound[1..]| && RequestAt(inbound[1..], j, rest[i'].sn);
        assert inbound[j + 1] == inbound[1..][j];
        assert RequestAt(inbound, j + 1, out[i].sn);
      }
    }
  }

  /** A failed read leaves the client closed and not receiving, which is
      what lets the next keep-alive tick redial. */
  lemma {:induction false} ClientReadFailureCloses(c: Client, json: Json, fetch: HttpRequest -> Option<Bytes>, inbound: seq<Inbound>, k: nat)
    requires !c.isClosed
    requires k < |inbound| && inbound[k].ReadFailed?
    ensures var c' := ClientReadLoop(c, json, fetch, inbound).0;
      c'.isClosed && !c'.isRecving && Supervised(c')
    decreases k
  {
    if k > 0 && !inbound[0].ReadFailed? {
      ClientReadFailureCloses(c, json, fetch, inbound[1..], k - 1);
    }
  }

  // ---------------------------------------------------------------------
  // Client setup (onClientSetup)

  /** One `ServerConfig` entry. */
  datatype ServerConfig = ServerConfig(protocol: string, host: string, port: int, contextPath: string)

  /** The registration target for one superior: "wss" for an "https" or
      "wss" protocol and "ws" otherwise; the port is written out unless it
      is 80 or 443. */
  function RegisterTarget(s: ServerConfig, cid: string): (t: WsTarget)
    ensures t.scheme == "wss" <==> s.protocol == "https" || s.protocol == "wss"
    ensures t.scheme == "ws" <==> !(s.protocol == "https" || s.protocol == "wss")
    ensures (s.port == 80 || s.port == 443) ==> t.host == s.host
    ensures !(s.port == 80 || s.port == 443) ==> t.host == s.host + ":" + Decimal(s.port)
    ensures t.path == s.contextPath + "/erwscascade/wsocket/register?cid=" + cid
  {
    var scheme := if s.protocol == "https" || s.protocol == "wss" then "wss" else "ws";
    var host := if s.port != 80 && s.port != 443 then s.host + ":" + Decimal(s.port) else s.host;
    WsTarget(scheme, host, s.contextPath + "/erwscascade/wsocket/register?cid=" + cid)
  }

  /** The configured cid, or a generated one when it is empty (`None` when
      generation fails). */
  function EffectiveCid(configured: string, generated: Option<string>): (cid: Option<string>)
    ensures configured != "" ==> cid == Some(configured)
    ensures configured == "" ==> cid == generated
  {
    if configured != "" then Some(configured) else generated
  }

  /** The `wsclients` table: one closed client per configured superior,
      keyed by its index written in decimal. The identity sent upward is
      the configured one, even when the cid in the target was
      generated. */
  function SetupClients(info: ClientInfo, cid: string, servers: seq<ServerConfig>): (m: map<string, Client>)
    ensures forall i :: 0 <= i < |servers| ==>
      Decimal(i) in m && m[Decimal(i)] == NewClient(info, RegisterTarget(servers[i], cid))
    ensures forall k :: k in m ==> ParseDecimal(k).Some? && 0 <= ParseDecimal(k).value < |servers|
    decreases |servers|
  {
    if |servers| == 0 then map[]
    else
      var n := |servers| - 1;
      var m0 := SetupClients(info, cid, servers[..n]);
      SetupStep(info, cid, servers, m0);
      m0[Decimal(n) := NewClient(info, RegisterTarget(servers[n], cid))]
  }

  /** Adding the last superior's client overwrites none of the others. */
  lemma SetupStep(info: ClientInfo, cid: string, servers: seq<ServerConfig>, m0: map<string, Client>)
    requires |servers| > 0
    requires forall i :: 0 <= i < |servers| - 1 ==>
      Decimal(i) in m0 && m0[Decimal(i)] == NewClient(info, RegisterTarget(servers[..|servers| - 1][i], cid))
    requires forall k :: k in m0 ==> ParseDecimal(k).Some? && 0 <= ParseDecimal(k).value < |servers| - 1
    ensures ParseDecimal(Decimal(|servers| - 1)) == Some(|servers| - 1)
    ensures forall i :: 0 <= i < |servers| - 1 ==>
      Decimal(i) != Decimal(|servers| - 1) && m0[Decimal(i)] == NewClient(info, RegisterTarget(servers[i], cid))
  {
    var n := |servers| - 1;
    DecimalRoundTrip(n);
    forall i | 0 <= i < n
      ensures Decimal(i) != Decimal(n) && servers[..n][i] == servers[i]
    {
      DecimalInjective(i, n);
    }
  }

  /** `onClientSetup`: nothing is set up when a cid had to be generated
      and generation failed. */
  function ClientSetup(info: ClientInfo, generated: Option<string>, servers: seq<ServerConfig>): (m: Option<map<string, Client>>)
    ensures m.None? <==> info.cid == "" && generated.None?
    ensures m.Some? ==> forall i :: 0 <= i < |servers| ==>
      Decimal(i) in m.value && m.value[Decimal(i)].target == RegisterTarget(servers[i], EffectiveCid(info.cid, generated).value)
  {
    match EffectiveCid(info.cid, generated)
    case None => None
    case Some(cid) => Some(SetupClients(info, cid, servers))
  }

  /** Each configured superior gets its own client: no two indices share a
      key, so none overwrites another. */
  lemma SetupKeysDistinct(info: ClientInfo, cid: string, servers: seq<ServerConfig>, i: nat, j: nat)
    requires i < |servers| && j < |servers| && i != j
    ensures Decimal(i) != Decimal(j)
    ensures SetupClients(info, cid, servers)[Decimal(i)].target == RegisterTarget(servers[i], cid)
  {
    DecimalInjective(i, j);
  }
}
