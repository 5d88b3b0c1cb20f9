/** The subordinate's side of a media push (wscPusher.go): the `WscPusher`
    connection life cycle, the two frames it opens a push with, the framing
    of every FLV tag it forwards, its health check, and the loop that reads
    what the superior sends back. */
module MediaPusher {
  import opened Base
  import opened FlvCodec
  import opened Timestamps
  import opened MediaWire

  /** The part of a `WscPusher` the plugin changes: `status` (1 while
      connected), the dial counter, the connection (`None` is a nil `Conn`;
      connections are told apart by a number), `RemoteAddr`, the absolute
      timestamp the read loop has reached, and whether the subscriber has
      been stopped. */
  datatype Pusher = Pusher(status: int, connectCount: nat, conn: Option<nat>, remoteAddr: string, absTS: U32, stopped: bool)

  /** The pusher is connected exactly when it holds a connection. */
  predicate Inv(p: Pusher)
  {
    (p.status == 0 || p.status == 1) && (p.status == 1 <==> p.conn.Some?)
  }

  /** `IsClosed`: a consistent pusher is closed exactly when it has no
      connection. */
  predicate IsClosed(p: Pusher)
    ensures Inv(p) ==> (IsClosed(p) <==> p.conn.None?)
  {
    p.status != 1
  }

  /** `NewWscPusher`. */
  function NewPusher(): (p: Pusher)
    ensures p.status == 0 && p.connectCount == 0 && p.conn.None? && p.absTS == 0 && !p.stopped
    ensures Inv(p) && IsClosed(p)
  {
    Pusher(0, 0, None, "", 0, false)
  }

  /** `Disconnect` (also the pusher's `OnConnErr`): a no-op on a pusher
      already at status 0; otherwise the connection is closed and dropped
      and the subscriber is stopped. */
  function Disconnect(p: Pusher): (q: Pusher)
    ensures p.status == 0 ==> q == p
    ensures p.status != 0 ==> q.status == 0 && q.conn.None? && q.stopped
    ensures IsClosed(q)
    ensures q.connectCount == p.connectCount && q.remoteAddr == p.remoteAddr && q.absTS == p.absTS
  {
    if p.status == 0 then p
    else p.(status := 0, conn := None, stopped := true)
  }

  lemma DisconnectIdempotent(p: Pusher)
    ensures Disconnect(Disconnect(p)) == Disconnect(p)
  {
  }

  lemma DisconnectKeepsInv(p: Pusher)
    requires Inv(p)
    ensures Inv(Disconnect(p)) && Disconnect(p).conn.None?
  {
  }

  // ---------------------------------------------------------------------
  // Connect

  /** The dial URL: the configured remote URL with `?cid=<cid>` appended
      unless it already carries one. */
  function CidUrl(remoteUrl: string, cid: string): (u: string)
    ensures Contains(u, "?cid=")
    ensures HasPrefix(u, remoteUrl)
    ensures Contains(remoteUrl, "?cid=") ==> u == remoteUrl
  {
    if Contains(remoteUrl, "?cid=") then remoteUrl
    else
      ContainsInfix(remoteUrl, "?cid=", cid);
      remoteUrl + "?cid=" + cid
  }

  /** Redialling never appends a second cid. */
  lemma CidUrlIdempotent(remoteUrl: string, cid: string, cid': string)
    ensures CidUrl(CidUrl(remoteUrl, cid), cid') == CidUrl(remoteUrl, cid)
  {
  }

  datatype ConnectError = DialFailed

  /** The pusher after `Connect`, the messages it wrote, and its result. */
  datatype Connection = Connection(pusher: Pusher, writes: seq<WsWrite>, result: Result<(), ConnectError>)

  /** The two messages `WriteFlvHeader` sends: the 13-byte head and a script
      tag at time 0 carrying the AMF-encoded `onMetaData`. */
  function OpeningWrites(flags: AvFlags, meta: Bytes): (w: seq<WsWrite>)
    requires |meta| < 0x100_0000
    ensures |w| == 2 && w[0] == BinaryMessage(BuildHeader(flags)) && w[1].BinaryMessage?
    ensures ParseFLVTag(w[1].data) == Ok(Tag(TagScript, 0, meta))
    ensures Handshake(w[0].data, w[1].data) == Ok(flags)
  {
    var t := Tag(TagScript, 0, meta);
    ParseBuildTag(t, []);
    assert BuildTag(t) + [] == BuildTag(t);
    HandshakeRoundTrip(flags, meta);
    [BinaryMessage(BuildHeader(flags)), BinaryMessage(BuildTag(t))]
  }

  /** `Connect` with `WriteFlvHeader`. `dial` is the dialler's outcome,
      `flags` the tracks the subscribed stream has, `meta` the AMF
      metadata, `headOk` and `scriptOk` the outcomes of the two writes. A
      failed write goes to `OnConnErr`, yet the second write is still made
      and `Connect` still reports success. */
  function Connect(p: Pusher, remoteUrl: string, cid: string, dial: Option<nat>,
                   flags: AvFlags, meta: Bytes, headOk: bool, scriptOk: bool): (c: Connection)
    requires |meta| < 0x100_0000
    ensures c.pusher.connectCount == p.connectCount + 1
    ensures c.result.Err? <==> dial.None?
    ensures dial.None? ==>
      && c.writes == []
      && c.pusher.status == p.status && c.pusher.conn == p.conn && c.pusher.remoteAddr == p.remoteAddr
    ensures dial.Some? ==>
      && c.pusher.remoteAddr == CidUrl(remoteUrl, cid)
      && c.writes == OpeningWrites(flags, meta)
      && (IsClosed(c.pusher) <==> !(headOk && scriptOk))
      && (!IsClosed(c.pusher) ==> c.pusher.conn == dial)
  {
    var p1 := p.(connectCount := p.connectCount + 1);
    match dial
    case None => Connection(p1, [], Err(DialFailed))
    case Some(conn) =>
      var p2 := p1.(remoteAddr := CidUrl(remoteUrl, cid), conn := dial, status := 1);
      var p3 := if headOk then p2 else Disconnect(p2);
      var p4 := if scriptOk then p3 else Disconnect(p3);
      Connection(p4, OpeningWrites(flags, meta), Ok(()))
  }

  lemma ConnectKeepsInv(p: Pusher, remoteUrl: string, cid: string, dial: Option<nat>,
                        flags: AvFlags, meta: Bytes, headOk: bool, scriptOk: bool)
    requires |meta| < 0x100_0000 && Inv(p)
    ensures Inv(Connect(p, remoteUrl, cid, dial, flags, meta, headOk, scriptOk).pusher)
  {
  }

  // ---------------------------------------------------------------------
  // Forwarding a tag

  /** The frame header `WriteFLVTag` announces for `n` bytes of tag. */
  function TagHeader(n: nat): WsHeader
  {
    WsHeader(true, OpBinary, true, PusherMask, n)
  }

  /** `WriteFLVTag`: nothing on a pusher at status 0; otherwise the joined
      buffers are announced by a masked binary frame header and then sent
      as a binary message. A failed header write ends the call; either
      failure disconnects. */
  function WriteFLVTag(p: Pusher, bufs: seq<Bytes>, headerOk: bool, dataOk: bool): (out: (Pusher, seq<WsWrite>))
    ensures p.status == 0 ==> out == (p, [])
    ensures p.status != 0 ==>
      && |out.1| > 0
      && out.1[0] == RawHeader(WsHeader(true, OpBinary, true, PusherMask, |Flatten(bufs)|))
      && (headerOk <==> |out.1| == 2)
      && (headerOk ==> out.1[1] == BinaryMessage(Flatten(bufs)))
      && (out.0 == p <==> headerOk && dataOk)
    ensures !(headerOk && dataOk) ==> IsClosed(out.0)
  {
    if p.status == 0 then (p, [])
    else
      var data := Flatten(bufs);
      var header := RawHeader(TagHeader(|data|));
      if !headerOk then (Disconnect(p), [header])
      else if !dataOk then (Disconnect(p), [header, BinaryMessage(data)])
      else (p, [header, BinaryMessage(data)])
  }

  /** A connected pusher always writes something for a tag; a closed one
      writes nothing. */
  lemma WriteNothingIffClosed(p: Pusher, bufs: seq<Bytes>, headerOk: bool, dataOk: bool)
    requires Inv(p)
    ensures WriteFLVTag(p, bufs, headerOk, dataOk).1 == [] <==> IsClosed(p)
    ensures Inv(WriteFLVTag(p, bufs, headerOk, dataOk).0)
  {
  }

  // ---------------------------------------------------------------------
  // Push: the health check

  /** One probe of the `Push` loop: whether the subscribed stream has
      closed and whether the subscriber is playing. */
  datatype Probe = Probe(streamClosed: bool, playing: bool)

  predicate Healthy(pr: Probe)
  {
    !pr.streamClosed && pr.playing
  }

  /** One pass of the `Push` loop's body: a closed stream or a subscriber
      that is not playing disconnects. */
  function HealthCheck(p: Pusher, pr: Probe): (q: Pusher)
    ensures Healthy(pr) ==> q == p
    ensures !Healthy(pr) ==> q == Disconnect(p) && IsClosed(q)
  {
    var p1 := if pr.streamClosed then Disconnect(p) else p;
    if !pr.playing then Disconnect(p1) else p1
  }

  /** The `Push` loop over a finite run of probes: it runs while the
      status is not 0; the result is the pusher and the number of probes
      made. */
  function PushLoop(p: Pusher, probes: seq<Probe>): (out: (Pusher, nat))
    ensures out.1 <= |probes|
    decreases |probes|
  {
    if p.status == 0 || |probes| == 0 then (p, 0)
    else
      var (q, n) := PushLoop(HealthCheck(p, probes[0]), probes[1..]);
      (q, n + 1)
  }

  /** A connected pusher keeps pushing through healthy probes and
      disconnects, ending the loop, at the first unhealthy one. */
  lemma {:induction false} PushLoopStopsAtFirstFault(p: Pusher, probes: seq<Probe>, k: nat)
    requires Inv(p) && !IsClosed(p)
    requires k < |probes| && !Healthy(probes[k])
    requires forall j :: 0 <= j < k ==> Healthy(probes[j])
    ensures PushLoop(p, probes) == (Disconnect(p), k + 1)
    decreases k
  {
    if k > 0 {
      PushLoopStopsAtFirstFault(p, probes[1..], k - 1);
    }
  }

  /** Through healthy probes only, nothing changes and every probe is made. */
  lemma {:induction false} PushLoopHealthy(p: Pusher, probes: seq<Probe>)
    requires Inv(p) && !IsClosed(p)
    requires forall j :: 0 <= j < |probes| ==> Healthy(probes[j])
    ensures PushLoop(p, probes) == (p, |probes|)
    decreases |probes|
  {
    if |probes| > 0 {
      PushLoopHealthy(p, probes[1..]);
    }
  }

  // ---------------------------------------------------------------------
  // The pusher's ReadFLVTag loop

  datatype ReadState = ReadState(pusher: Pusher, rebaser: Rebaser)

  /** One delivered message: a parse error disconnects but does not leave
      the loop; the (possibly zero) tag's time is rebased into `absTS`. The
      tag itself goes nowhere: every branch of the type switch is empty. */
  function ReadStep(s: ReadState, data: Bytes): (out: ReadState)
    ensures out.rebaser == Rebase(s.rebaser, ParsedOrZero(data).timestamp).0
    ensures out.pusher.absTS == Rebase(s.rebaser, ParsedOrZero(data).timestamp).1
    ensures ParseFLVTag(data).Ok? ==> out.pusher == s.pusher.(absTS := out.pusher.absTS)
    ensures ParseFLVTag(data).Err? ==> IsClosed(out.pusher)
  {
    var p := if ParseFLVTag(data).Err? then Disconnect(s.pusher) else s.pusher;
    var (rb, abs) := Rebase(s.rebaser, ParsedOrZero(data).timestamp);
    ReadState(p.(absTS := abs), rb)
  }

  /** One delivered message as the code is written: the parser refuses
      only messages under 11 bytes and takes the declared payload on
      trust. */
  function ReadStepAsWritten(s: ReadState, data: Bytes): (out: ReadState)
    requires PayloadInBounds(data)
    ensures out.rebaser == Rebase(s.rebaser, ParsedOrZeroAsWritten(data).timestamp).0
    ensures out.pusher.absTS == Rebase(s.rebaser, ParsedOrZeroAsWritten(data).timestamp).1
    ensures |data| >= TagHeaderSize ==> out.pusher == s.pusher.(absTS := out.pusher.absTS)
    ensures |data| < TagHeaderSize ==> IsClosed(out.pusher)
  {
    var p := if ParseFLVTagAsWritten(data).Err? then Disconnect(s.pusher) else s.pusher;
    var (rb, abs) := Rebase(s.rebaser, ParsedOrZeroAsWritten(data).timestamp);
    ReadState(p.(absTS := abs), rb)
  }

  /** Every read the loop as written makes is defined: it dereferences
      `*pusher.Conn`, so the connection is there, and every message it
      parses declares a payload that fits. */
  predicate ReadsDefined(s: ReadState, frames: seq<MediaRead>)
    decreases |frames|
  {
    |frames| == 0 ||
    (s.pusher.conn.Some? &&
     (frames[0].Delivered? ==>
        PayloadInBounds(frames[0].data) && ReadsDefined(ReadStepAsWritten(s, frames[0].data), frames[1..])))
  }

  /** The loop as written: it breaks after a failed read, and the caller
      must guarantee that every read it makes is defined. A failed read
      anywhere leaves the pusher disconnected. */
  function ReadLoopAsWritten(s: ReadState, frames: seq<MediaRead>): (out: ReadState)
    requires ReadsDefined(s, frames)
    ensures forall k :: 0 <= k < |frames| && IsFailure(frames[k]) ==> IsClosed(out.pusher)
    ensures out.pusher.connectCount == s.pusher.connectCount && out.pusher.remoteAddr == s.pusher.remoteAddr
    decreases |frames|
  {
    if |frames| == 0 then s
    else match frames[0]
      case HeaderFailed => s.(pusher := Disconnect(s.pusher))
      case DataFailed => s.(pusher := Disconnect(s.pusher))
      case Delivered(data) =>
        var out := ReadLoopAsWritten(ReadStepAsWritten(s, data), frames[1..]);
        assert forall k :: 1 <= k < |frames| ==> frames[k] == frames[1..][k - 1];
        out
  }

  /** A malformed message disconnects, and the loop's next read then
      dereferences the nil connection. */
  lemma BadFrameThenReadFaults(s: ReadState, next: MediaRead)
    requires Inv(s.pusher) && !IsClosed(s.pusher)
    ensures !ReadsDefined(s, [Delivered([]), next])
  {
    assert ParseFLVTagAsWritten([]).Err?;
    assert ReadStepAsWritten(s, []).pusher.conn.None?;
  }

  /** A connection whose opening head write failed is dropped, but `Push`
      still starts the read loop, whose first read dereferences nil. */
  lemma FailedHeadWriteThenReadFaults(p: Pusher, remoteUrl: string, cid: string, conn: nat,
                                      flags: AvFlags, meta: Bytes, scriptOk: bool, frames: seq<MediaRead>)
    requires |meta| < 0x100_0000 && |frames| > 0
    ensures var c := Connect(p, remoteUrl, cid, Some(conn), flags, meta, false, scriptOk);
      c.result.Ok? && !ReadsDefined(ReadState(c.pusher, StartRebaser(c.pusher.absTS)), frames)
  {
  }

  /** The loop with a connection check before each read and the parser's
      bound check: once the connection is gone the loop ends. The rest of
      the model uses this loop. */
  function ReadLoop(s: ReadState, frames: seq<MediaRead>): (out: ReadState)
    ensures s.pusher.conn.None? ==> out == s
    ensures out.pusher.connectCount == s.pusher.connectCount && out.pusher.remoteAddr == s.pusher.remoteAddr
    decreases |frames|
  {
    if |frames| == 0 || s.pusher.conn.None? then s
    else match frames[0]
      case HeaderFailed => s.(pusher := Disconnect(s.pusher))
      case DataFailed => s.(pusher := Disconnect(s.pusher))
      case Delivered(data) => ReadLoop(ReadStep(s, data), frames[1..])
  }

  /** Wherever the loop as written does not fault, the checked loop does
      exactly the same. */
  lemma {:induction false} ReadLoopAgrees(s: ReadState, frames: seq<MediaRead>)
    requires ReadsDefined(s, frames)
    ensures ReadLoop(s, frames) == ReadLoopAsWritten(s, frames)
    decreases |frames|
  {
    if |frames| > 0 && frames[0].Delivered? {
      var data := frames[0].data;
      ParseFLVTagAgrees(data);
      assert ReadStep(s, data) == ReadStepAsWritten(s, data);
      ReadLoopAgrees(ReadStep(s, data), frames[1..]);
    }
  }

  lemma ReadStepKeepsInv(s: ReadState, data: Bytes)
    requires Inv(s.pusher)
    ensures Inv(ReadStep(s, data).pusher)
  {
  }

  /** Any failed read or malformed message leaves the pusher closed. */
  lemma {:induction false} ReadLoopFaultCloses(s: ReadState, frames: seq<MediaRead>, k: nat)
    requires Inv(s.pusher)
    requires k < |frames|
    requires IsFailure(frames[k]) || ParseFLVTag(frames[k].data).Err?
    ensures IsClosed(ReadLoop(s, frames).pusher) && Inv(ReadLoop(s, frames).pusher)
    decreases k
  {
    if s.pusher.conn.None? {
    } else if k == 0 {
      if frames[0].Delivered? {
        ReadStepKeepsInv(s, frames[0].data);
        ReadLoopClosedStaysClosed(ReadStep(s, frames[0].data), frames[1..]);
      }
    } else if frames[0].Delivered? {
      ReadStepKeepsInv(s, frames[0].data);
      ReadLoopFaultCloses(ReadStep(s, frames[0].data), frames[1..], k - 1);
    }
  }

  lemma ReadLoopClosedStaysClosed(s: ReadState, frames: seq<MediaRead>)
    requires Inv(s.pusher) && IsClosed(s.pusher)
    ensures ReadLoop(s, frames) == s
  {
  }

  /** Well-formed tags from the superior keep the pusher connected, and its
      absolute time follows the rebasing rule frame by frame. */
  lemma {:induction false} ReadLoopRebases(s: ReadState, tags: seq<Tag>)
    requires Inv(s.pusher) && !IsClosed(s.pusher)
    requires Sendable(tags)
    ensures var out := ReadLoop(s, Frames(tags));
      && out.pusher == s.pusher.(absTS := out.pusher.absTS)
      && out.rebaser == RebaserAfter(s.rebaser, Stamps(tags))
      && (|tags| > 0 ==> out.pusher.absTS == RebaseAll(s.rebaser, Stamps(tags))[|tags| - 1])
    decreases |tags|
  {
    if |tags| > 0 {
      var t := tags[0];
      var (rb, abs) := Rebase(s.rebaser, t.timestamp);
      var s1 := ReadState(s.pusher.(absTS := abs), rb);
      SendableTail(tags);
      ReadLoopFirstTag(s, tags);
      ReadLoopRebases(s1, tags[1..]);
      StampsStep(s.rebaser, tags);
      var all := RebaseAll(s.rebaser, Stamps(tags));
      var rest := RebaseAll(rb, Stamps(tags[1..]));
      assert all == [abs] + rest;
      if |tags| == 1 {
        assert Frames(tags[1..]) == [];
        assert all[0] == abs;
      } else {
        assert all[|tags| - 1] == rest[|tags| - 2];
      }
    }
  }

  lemma ReadLoopFirstTag(s: ReadState, tags: seq<Tag>)
    requires s.pusher.conn.Some? && |tags| > 0 && Sendable(tags)
    ensures Sendable(tags[1..])
    ensures var (rb, abs) := Rebase(s.rebaser, tags[0].timestamp);
      ReadLoop(s, Frames(tags)) == ReadLoop(ReadState(s.pusher.(absTS := abs), rb), Frames(tags[1..]))
  {
    SendableTail(tags);
    ReadStepBuilt(s, tags[0]);
    assert Frames(tags) == [Delivered(BuildTag(tags[0]))] + Frames(tags[1..]);
    ReadLoopDelivered(s, BuildTag(tags[0]), Frames(tags[1..]));
  }

  lemma ReadStepBuilt(s: ReadState, t: Tag)
    requires |t.payload| < 0x100_0000
    ensures var (rb, abs) := Rebase(s.rebaser, t.timestamp);
      ReadStep(s, BuildTag(t)) == ReadState(s.pusher.(absTS := abs), rb)
  {
    ParseBuildTag(t, []);
    assert BuildTag(t) + [] == BuildTag(t);
  }

  lemma ReadLoopDelivered(s: ReadState, data: Bytes, rest: seq<MediaRead>)
    requires s.pusher.conn.Some?
    ensures ReadLoop(s, [Delivered(data)] + rest) == ReadLoop(ReadStep(s, data), rest)
  {
    assert ([Delivered(data)] + rest)[1..] == rest;
  }

  lemma StampsStep(r: Rebaser, tags: seq<Tag>)
    requires |tags| > 0
    ensures var (rb, abs) := Rebase(r, tags[0].timestamp);
      && RebaseAll(r, Stamps(tags)) == [abs] + RebaseAll(rb, Stamps(tags[1..]))
      && RebaserAfter(r, Stamps(tags)) == RebaserAfter(rb, Stamps(tags[1..]))
  {
    assert Stamps(tags)[1..] == Stamps(tags[1..]);
  }

  /** `ReadFLVTag`: a fresh origin offset by the pusher's absolute time. */
  function ReadFLVTag(p: Pusher, frames: seq<MediaRead>): (q: Pusher)
    ensures p.conn.None? ==> q == p
    ensures q.connectCount == p.connectCount && q.remoteAddr == p.remoteAddr
  {
    ReadLoop(ReadState(p, StartRebaser(p.absTS)), frames).pusher
  }
}
