/** The superior's side of the tunnel (server.go): the registry of
    registered subordinates, the registration handshake `Wsocket_`, the
    per-connection read loop `receiveWsMessages`, and the request/response
    correlator `transWsProxyMessage`. */
module Hub {
  import opened Base
  import opened Envelopes

  /** A `WsClientConn`: the connection it reads (connections are told
      apart by a number, standing for the `*WsClientConn` pointer) and the
      last identity the subordinate reported. */
  datatype Entry = Entry(conn: nat, info: ClientInfo)

  /** The package-level state: `clientConnections`, `connectionsThreads`
      (the channel made at each registration, named by its connection),
      the channels closed so far, `gSn`, the next connection number, and
      the cid each connection registered under. */
  datatype Hub = Hub(
    clients: map<string, Entry>,
    threads: map<string, nat>,
    closed: set<nat>,
    gSn: int,
    nextId: nat,
    owners: map<nat, string>)

  const EmptyHub: Hub := Hub(map[], map[], {}, 0, 0, map[])

  /** Every live entry was registered under its own cid, holds the channel
      made with it, and that channel is still open. */
  predicate Inv(h: Hub)
  {
    && (forall c :: c in h.clients ==>
          && c in h.threads && h.threads[c] == h.clients[c].conn
          && h.clients[c].conn in h.owners && h.owners[h.clients[c].conn] == c
          && h.clients[c].conn !in h.closed)
    && (forall c :: c in h.threads ==> h.threads[c] < h.nextId)
    && (forall x :: x in h.owners ==> x < h.nextId)
    && (forall x :: x in h.closed ==> x < h.nextId)
  }

  lemma EmptyHubInv()
    ensures Inv(EmptyHub) && EmptyHub.clients == map[]
  {
  }

  // ---------------------------------------------------------------------
  // Registration (Wsocket_)

  /** The foreign facts of one registration request: the Upgrade header,
      the URL path, the full request URL and whether the upgrade
      succeeded. */
  datatype RegisterAttempt = RegisterAttempt(upgrade: string, path: string, fullUrl: string, upgradeOk: bool)

  /** `Ignored`: the handler returned with no connection. `Refused`: the
      upgraded connection was closed for want of a cid. `Registered`: an
      entry was made and a read loop started on connection `id`. */
  datatype RegisterOutcome = Ignored | Refused | Registered(cid: string, id: nat)

  /** `Wsocket_`. The path test is a regular expression with no special
      characters, so it is a substring test. A new registration replaces
      any entry of the same cid without closing its connection. */
  function Wsocket(h: Hub, codec: UrlCodec, a: RegisterAttempt): (out: (Hub, RegisterOutcome))
    ensures out.1.Ignored? <==>
      a.upgrade != "websocket" || !Contains(a.path, "/register")
      || HandlerQuery(codec, a.fullUrl).None? || !a.upgradeOk
    ensures out.1.Refused? <==>
      !out.1.Ignored? && QueryGet(HandlerQuery(codec, a.fullUrl).value, "cid") == ""
    ensures !out.1.Registered? ==> out.0 == h
    ensures out.1.Registered? ==>
      && out.1.cid == QueryGet(HandlerQuery(codec, a.fullUrl).value, "cid") != ""
      && out.1.id == h.nextId
      && out.0.clients == h.clients[out.1.cid := Entry(h.nextId, NoInfo)]
      && out.0.gSn == h.gSn
  {
    if a.upgrade != "websocket" || !Contains(a.path, "/register") then (h, Ignored)
    else match HandlerQuery(codec, a.fullUrl)
      case None => (h, Ignored)
      case Some(q) =>
        var cid := QueryGet(q, "cid");
        if !a.upgradeOk then (h, Ignored)
        else if cid == "" then (h, Refused)
        else
          var id := h.nextId;
          (Hub(h.clients[cid := Entry(id, NoInfo)], h.threads[cid := id], h.closed,
               h.gSn, id + 1, h.owners[id := cid]),
           Registered(cid, id))
  }

  lemma WsocketKeepsInv(h: Hub, codec: UrlCodec, a: RegisterAttempt)
    requires Inv(h)
    ensures Inv(Wsocket(h, codec, a).0)
  {
    var (h', o) := Wsocket(h, codec, a);
    if o.Registered? {
      forall c | c in h'.clients
        ensures h'.clients[c].conn in h'.owners && h'.owners[h'.clients[c].conn] == c
      {
        if c != o.cid {
          assert h'.clients[c] == h.clients[c];
          assert h.clients[c].conn in h.owners;
        }
      }
    }
  }

  /** Registration makes the cid reachable, with no identity yet, and
      leaves every other subordinate's entry as it was. */
  lemma RegisteredIsFound(h: Hub, codec: UrlCodec, a: RegisterAttempt, other: string)
    requires Wsocket(h, codec, a).1.Registered?
    ensures var (h', o) := Wsocket(h, codec, a);
      && o.cid in h'.clients && h'.clients[o.cid] == Entry(o.id, NoInfo)
      && (other != o.cid ==> (other in h'.clients <==> other in h.clients))
      && (other != o.cid && other in h.clients ==> h'.clients[other] == h.clients[other])
  {
  }

  // ---------------------------------------------------------------------
  // Teardown at the end of a read loop

  /** `delete(clientConnections, cid); close(connectionsThreads[cid])` as
      written: the entry under `cid` is removed whoever registered it, and
      the channel now under `cid` is closed. Closing a closed channel
      panics, so the caller must guarantee it is still open. */
  function TeardownAsWritten(h: Hub, cid: string): (h': Hub)
    requires cid in h.threads && h.threads[cid] !in h.closed
    ensures cid !in h'.clients && h.threads[cid] in h'.closed
  {
    h.(clients := h.clients - {cid}, closed := h.closed + {h.threads[cid]})
  }

  /** The same cid registered twice, and the first connection's reader
      ends: it removes the second, live, registration and closes the
      second connection's channel, so the second reader's own teardown
      would close that channel again. */
  lemma StaleReaderTeardown(codec: UrlCodec, a: RegisterAttempt)
    requires Wsocket(EmptyHub, codec, a).1.Registered?
    ensures var (h1, o1) := Wsocket(EmptyHub, codec, a);
      var (h2, o2) := Wsocket(h1, codec, a);
      && o2.Registered? && o2.cid == o1.cid && o2.id != o1.id
      && h2.clients[o1.cid].conn == o2.id
      && var h3 := TeardownAsWritten(h2, o1.cid);
         && o1.cid !in h3.clients
         && h3.threads[o1.cid] in h3.closed
  {
  }

  /** Teardown by a reader that only touches its own registration: it
      closes the channel made with its own connection, and removes the
      entry under its cid only when that entry is still its own. */
  function Teardown(h: Hub, cid: string, id: nat): (h': Hub)
    ensures h'.closed == h.closed + {id}
    ensures cid in h.clients && h.clients[cid].conn == id ==> h'.clients == h.clients - {cid}
    ensures !(cid in h.clients && h.clients[cid].conn == id) ==> h'.clients == h.clients
    ensures h'.threads == h.threads && h'.gSn == h.gSn && h'.owners == h.owners
  {
    var own := cid in h.clients && h.clients[cid].conn == id;
    h.(clients := if own then h.clients - {cid} else h.clients, closed := h.closed + {id})
  }

  /** Where the code as written does not panic and the entry under `cid`
      is the reader's own, the corrected teardown does the same. */
  lemma TeardownAgrees(h: Hub, cid: string, id: nat)
    requires Inv(h) && cid in h.clients && h.clients[cid].conn == id
    ensures Teardown(h, cid, id) == TeardownAsWritten(h, cid)
  {
  }

  /** The reader of a connection registered under `cid` keeps the
      invariant when it ends: no live entry loses its open channel. */
  lemma TeardownKeepsInv(h: Hub, cid: string, id: nat)
    requires Inv(h) && id in h.owners && h.owners[id] == cid
    ensures Inv(Teardown(h, cid, id))
  {
  }

  // ---------------------------------------------------------------------
  // The read loop (receiveWsMessages)

  /** One decoded envelope: a response is handed to the waiting
      correlator; an identity report that decodes is stored in the
      reader's own entry (invisible once a newer registration replaced
      it); anything else is only logged. */
  function Demux(h: Hub, cid: string, id: nat, json: Json, m: Envelope): (out: (Hub, seq<Envelope>))
    ensures m.kind == HTTPProxyRsp ==> out == (h, [m])
    ensures m.kind != HTTPProxyRsp ==> out.1 == []
    ensures out.0.clients.Keys == h.clients.Keys
    ensures out.0 == h.(clients := out.0.clients)
    ensures m.kind == CInfo && json.decodeInfo(m.pad).Some? && cid in h.clients && h.clients[cid].conn == id ==>
      out.0.clients == h.clients[cid := Entry(id, json.decodeInfo(m.pad).value)]
    ensures !(m.kind == CInfo && json.decodeInfo(m.pad).Some?) ==> out.0 == h
  {
    if m.kind == HTTPProxyRsp then (h, [m])
    else if m.kind == CInfo then
      match json.decodeInfo(m.pad)
      case None => (h, [])
      case Some(info) =>
        if cid in h.clients && h.clients[cid].conn == id
        then (h.(clients := h.clients[cid := Entry(id, info)]), [])
        else (h, [])
    else (h, [])
  }

  /** The loop over a finite run of reads: undecodable messages are
      skipped; a read failure tears down and ends the loop. The result is
      the hub and the responses handed to the correlator. */
  function ReaderLoop(h: Hub, cid: string, id: nat, json: Json, inbound: seq<Inbound>): (out: (Hub, seq<Envelope>))
    ensures out.0.threads == h.threads
    ensures forall k :: 0 <= k < |inbound| && inbound[k].ReadFailed? ==>
      id in out.0.closed && !(cid in out.0.clients && out.0.clients[cid].conn == id)
    ensures !EndsInFailure(inbound) ==> out.0.closed == h.closed && out.0.clients.Keys == h.clients.Keys
    ensures forall i :: 0 <= i < |out.1| ==> out.1[i].kind == HTTPProxyRsp
    decreases |inbound|
  {
    if |inbound| == 0 then (h, [])
    else
      assert forall k :: 1 <= k < |inbound| ==> inbound[k] == inbound[1..][k - 1];
      match inbound[0]
      case ReadFailed => (Teardown(h, cid, id), [])
      case Text(None) => ReaderLoop(h, cid, id, json, inbound[1..])
      case Text(Some(m)) =>
        var (h1, fwd) := Demux(h, cid, id, json, m);
        var (h2, rest) := ReaderLoop(h1, cid, id, json, inbound[1..]);
        (h2, fwd + rest)
  }

  /** The run of reads ends in a failed read, which makes the loop tear
      down. */
  predicate EndsInFailure(inbound: seq<Inbound>)
  {
    exists k | 0 <= k < |inbound| :: inbound[k].ReadFailed?
  }

  lemma EndsInFailureTail(inbound: seq<Inbound>)
    requires |inbound| > 0 && !inbound[0].ReadFailed? && EndsInFailure(inbound)
    ensures EndsInFailure(inbound[1..])
  {
    var k :| 0 <= k < |inbound| && inbound[k].ReadFailed?;
    assert inbound[1..][k - 1] == inbound[k];
  }

  /** The loop as written, tearing down with `TeardownAsWritten`: when it
      ends in a failed read, the entry under `cid` is removed whoever
      registered it, and the channel under `cid` is closed. The caller
      must guarantee that channel is still open. */
  function ReaderLoopAsWritten(h: Hub, cid: string, id: nat, json: Json, inbound: seq<Inbound>): (out: (Hub, seq<Envelope>))
    requires EndsInFailure(inbound) ==> cid in h.threads && h.threads[cid] !in h.closed
    ensures out.0.threads == h.threads
    ensures EndsInFailure(inbound) ==> cid !in out.0.clients && h.threads[cid] in out.0.closed
    ensures !EndsInFailure(inbound) ==> out.0.closed == h.closed && out.0.clients.Keys == h.clients.Keys
    decreases |inbound|
  {
    if |inbound| == 0 then (h, [])
    else if inbound[0].ReadFailed? then (TeardownAsWritten(h, cid), [])
    else
      var (h1, fwd) := if inbound[0].Text? && inbound[0].env.Some?
        then Demux(h, cid, id, json, inbound[0].env.value) else (h, []);
      if EndsInFailure(inbound) then
        EndsInFailureTail(inbound);
        var (h2, rest) := ReaderLoopAsWritten(h1, cid, id, json, inbound[1..]);
        (h2, fwd + rest)
      else
        var (h2, rest) := ReaderLoopAsWritten(h1, cid, id, json, inbound[1..]);
        (h2, fwd + rest)
  }

  /** The reader's own registration is the live one under `cid`, and its
      channel is still open. */
  predicate OwnsEntry(h: Hub, cid: string, id: nat)
  {
    cid in h.clients && h.clients[cid].conn == id && cid in h.threads && h.threads[cid] == id && id !in h.closed
  }

  /** For the reader of the live registration the corrected loop does
      exactly what the code does. */
  lemma {:induction false} ReaderLoopAgrees(h: Hub, cid: string, id: nat, json: Json, inbound: seq<Inbound>)
    requires OwnsEntry(h, cid, id)
    ensures ReaderLoop(h, cid, id, json, inbound) == ReaderLoopAsWritten(h, cid, id, json, inbound)
    decreases |inbound|
  {
    if |inbound| > 0 && !inbound[0].ReadFailed? {
      match inbound[0]
      case Text(None) =>
        ReaderLoopAgrees(h, cid, id, json, inbound[1..]);
        var rest := ReaderLoopAsWritten(h, cid, id, json, inbound[1..]).1;
        assert [] + rest == rest;
      case Text(Some(m)) =>
        ReaderLoopAgrees(Demux(h, cid, id, json, m).0, cid, id, json, inbound[1..]);
    }
  }

  /** The reads the loop makes: those up to and including the first
      failure. */
  function ReadsMade(inbound: seq<Inbound>): (made: seq<Inbound>)
    ensures |made| <= |inbound|
    ensures forall i :: 0 <= i < |made| ==> made[i] == inbound[i]
  {
    if |inbound| == 0 then []
    else if inbound[0].ReadFailed? then [inbound[0]]
    else [inbound[0]] + ReadsMade(inbound[1..])
  }

  /** The responses among a run of inbound, in order. */
  function Responses(inbound: seq<Inbound>): seq<Envelope>
  {
    if |inbound| == 0 then []
    else
      var here := match inbound[0]
        case Text(Some(m)) => if m.kind == HTTPProxyRsp then [m] else []
        case _ => [];
      here + Responses(inbound[1..])
  }

  /** The loop hands on exactly the responses among the inbound it makes,
      in arrival order. */
  lemma {:induction false} ReaderForwardsResponses(h: Hub, cid: string, id: nat, json: Json, inbound: seq<Inbound>)
    ensures ReaderLoop(h, cid, id, json, inbound).1 == Responses(ReadsMade(inbound))
    decreases |inbound|
  {
    if |inbound| > 0 {
      var made := ReadsMade(inbound);
      match inbound[0]
      case ReadFailed =>
        assert made == [inbound[0]];
        assert Responses(made) == [] + Responses([]);
      case Text(None) =>
        ReaderForwardsResponses(h, cid, id, json, inbound[1..]);
        assert made == [inbound[0]] + ReadsMade(inbound[1..]);
        assert made[1..] == ReadsMade(inbound[1..]);
      case Text(Some(m)) =>
        ReaderForwardsResponses(Demux(h, cid, id, json, m).0, cid, id, json, inbound[1..]);
        assert made[1..] == ReadsMade(inbound[1..]);
    }
  }

  /** Once a read fails the reader's own registration is gone and its
      channel closed, while other subordinates' entries are untouched. */
  lemma {:induction false} ReaderFailureTearsDown(h: Hub, cid: string, id: nat, json: Json, inbound: seq<Inbound>, k: nat)
    requires k < |inbound| && inbound[k].ReadFailed?
    ensures var h' := ReaderLoop(h, cid, id, json, inbound).0;
      && !(cid in h'.clients && h'.clients[cid].conn == id)
      && id in h'.closed
      && (forall c :: c in h.clients && c != cid ==> c in h'.clients && h'.clients[c].conn == h.clients[c].conn)
    decreases k
  {
    if k > 0 {
      match inbound[0]
      case ReadFailed =>
      case Text(None) =>
        ReaderFailureTearsDown(h, cid, id, json, inbound[1..], k - 1);
      case Text(Some(m)) =>
        ReaderFailureTearsDown(Demux(h, cid, id, json, m).0, cid, id, json, inbound[1..], k - 1);
    }
  }

  // ---------------------------------------------------------------------
  // The correlator (transWsProxyMessage)

  /** `sendWsMessageToClient`: a text message goes out only to a
      registered cid. */
  function SendToClient(h: Hub, cid: string, message: string): (sent: Option<(nat, string)>)
    ensures sent.Some? <==> cid in h.clients
    ensures sent.Some? ==> sent.value == (h.clients[cid].conn, message)
  {
    if cid in h.clients then Some((h.clients[cid].conn, message)) else None
  }

  datatype ProxyError = NoFindClient | WriteError | TimeOut

  /** The position of the first arrival carrying sequence number `sn`. */
  function FirstMatch(arrivals: seq<Envelope>, sn: int): (r: Option<nat>)
    ensures r.None? <==> forall i :: 0 <= i < |arrivals| ==> arrivals[i].sn != sn
    ensures r.Some? ==>
      && r.value < |arrivals| && arrivals[r.value].sn == sn
      && forall j :: 0 <= j < r.value ==> arrivals[j].sn != sn
  {
    if |arrivals| == 0 then None
    else if arrivals[0].sn == sn then Some(0)
    else match FirstMatch(arrivals[1..], sn)
      case None => None
      case Some(k) => Some(k + 1)
  }

  /** One call: the hub after it, the request envelope written (if any),
      and what the caller gets. */
  datatype Call = Call(hub: Hub, sent: Option<(nat, Envelope)>, result: Result<Bytes, ProxyError>)

  /** `transWsProxyMessage`. `writeOk` is the outcome of the write and
      `arrivals` what the entry's channel delivers before the 10-second
      timer fires: arrivals with another sequence number are consumed and
      dropped. */
  function TransWsProxyMessage(h: Hub, cid: string, req: ProxyMessage, json: Json,
                               writeOk: bool, arrivals: seq<Envelope>): (c: Call)
    ensures cid !in h.clients <==> c.result == Err(NoFindClient)
    ensures cid !in h.clients ==> c.hub == h && c.sent.None?
    ensures cid in h.clients ==>
      && c.hub == h.(gSn := h.gSn + 1)
      && c.sent == Some((h.clients[cid].conn, Envelope(h.gSn + 1, HTTPProxyReq, json.encodeProxy(req))))
    ensures cid in h.clients && !writeOk ==> c.result == Err(WriteError)
    ensures cid in h.clients && writeOk ==>
      && (c.result == Err(TimeOut) <==> forall i :: 0 <= i < |arrivals| ==> arrivals[i].sn != h.gSn + 1)
      && (c.result.Ok? ==> exists i :: 0 <= i < |arrivals| && arrivals[i].sn == h.gSn + 1 && c.result.value == arrivals[i].pad)
      && c.result != Err(WriteError)
      && (forall i :: FirstMatch(arrivals, h.gSn + 1) == Some(i) ==> c.result == Ok(arrivals[i].pad))
  {
    if cid !in h.clients then Call(h, None, Err(NoFindClient))
    else
      var sn := h.gSn + 1;
      var env := Envelope(sn, HTTPProxyReq, json.encodeProxy(req));
      var h' := h.(gSn := sn);
      var sent := Some((h.clients[cid].conn, env));
      if !writeOk then Call(h', sent, Err(WriteError))
      else match FirstMatch(arrivals, sn)
        case None => Call(h', sent, Err(TimeOut))
        case Some(i) => Call(h', sent, Ok(arrivals[i].pad))
  }

  /** The answer is the pad of the first arrival with the request's
      sequence number; arrivals before it are responses to other calls. */
  lemma CorrelatorTakesFirstMatch(h: Hub, cid: string, req: ProxyMessage, json: Json,
                                  stale: seq<Envelope>, pad: Bytes, later: seq<Envelope>)
    requires cid in h.clients
    requires forall i :: 0 <= i < |stale| ==> stale[i].sn != h.gSn + 1
    ensures TransWsProxyMessage(h, cid, req, json, true, stale + [Envelope(h.gSn + 1, HTTPProxyRsp, pad)] + later).result
            == Ok(pad)
  {
    var arr := stale + [Envelope(h.gSn + 1, HTTPProxyRsp, pad)] + later;
    forall j | 0 <= j < |stale|
      ensures arr[j].sn != h.gSn + 1
    {
      assert arr[j] == stale[j];
    }
    FirstMatchAt(arr, h.gSn + 1, |stale|);
  }

  lemma FirstMatchAt(arrivals: seq<Envelope>, sn: int, k: nat)
    requires k < |arrivals| && arrivals[k].sn == sn
    requires forall j :: 0 <= j < k ==> arrivals[j].sn != sn
    ensures FirstMatch(arrivals, sn) == Some(k)
  {
  }

  /** Successive calls use strictly increasing sequence numbers, so no
      call can take another call's answer by number. */
  lemma SequenceNumbersIncrease(h: Hub, cid: string, req1: ProxyMessage, req2: ProxyMessage, json: Json,
                                ok1: bool, ok2: bool, arr1: seq<Envelope>, arr2: seq<Envelope>)
    requires cid in h.clients
    ensures var c1 := TransWsProxyMessage(h, cid, req1, json, ok1, arr1);
      var c2 := TransWsProxyMessage(c1.hub, cid, req2, json, ok2, arr2);
      c1.sent.value.1.sn < c2.sent.value.1.sn
  {
  }

  /** A call changes no registration: only the sequence counter moves. */
  lemma CallKeepsInv(h: Hub, cid: string, req: ProxyMessage, json: Json, writeOk: bool, arrivals: seq<Envelope>)
    requires Inv(h)
    ensures Inv(TransWsProxyMessage(h, cid, req, json, writeOk, arrivals).hub)
    ensures TransWsProxyMessage(h, cid, req, json, writeOk, arrivals).hub.clients == h.clients
  {
  }
}
