/** The superior's side of a media push (wssRecever.go): the `Wspush_`
    acceptance decision for an incoming push connection, and the
    `ReadFLVTag` loop that rebases and dispatches the tags it carries. */
module MediaRelay {
  import opened Base
  import opened FlvCodec
  import opened Timestamps
  import opened MediaWire

  /** The part of a `WssRecever` the relay changes. Nothing in the file sets
      `Status` to 1; `stopped` records the call to `Stop` that ends
      publishing. */
  datatype Receiver = Receiver(cid: string, status: int, absTS: U32, stopped: bool)

  /** `NewWssRecever`: all counters at their zero value. */
  function NewReceiver(cid: string): (r: Receiver)
    ensures r.cid == cid && r.status == 0 && r.absTS == 0 && !r.stopped
  {
    Receiver(cid, 0, 0, false)
  }

  /** `OnConnErr`: the shared error handler sets `Status` to 0 and stops
      publishing; the timestamp it has reached is kept. */
  function OnConnErr(r: Receiver): (q: Receiver)
    ensures q.status == 0 && q.stopped
    ensures q.cid == r.cid && q.absTS == r.absTS
  {
    r.(status := 0, stopped := true)
  }

  /** A second connection error changes nothing further. */
  lemma OnConnErrIdempotent(r: Receiver)
    ensures OnConnErr(OnConnErr(r)) == OnConnErr(r)
  {
  }

  // ---------------------------------------------------------------------
  // The ReadFLVTag loop

  datatype ConnErrCause = HeaderReadError | DataReadError | TagParseError

  /** What the loop hands on: audio and video to the publisher
      (`WriteAVCCAudio` / `WriteAVCCVideo`) at their rebased time, script
      tags to the log, errors to `OnConnErr`. */
  datatype Dispatch =
    | ToAudio(ts: U32, payload: Bytes)
    | ToVideo(ts: U32, payload: Bytes)
    | ScriptLogged(payload: Bytes)
    | ConnError(cause: ConnErrCause)

  /** The `switch t` of the loop: audio, video and script are routed; every
      other tag type is dropped silently. */
  function Route(kind: byte, ts: U32, payload: Bytes): (d: seq<Dispatch>)
    ensures kind == TagAudio <==> d == [ToAudio(ts, payload)]
    ensures kind == TagVideo <==> d == [ToVideo(ts, payload)]
    ensures kind == TagScript <==> d == [ScriptLogged(payload)]
    ensures kind !in {TagAudio, TagVideo, TagScript} <==> d == []
  {
    if kind == TagAudio then [ToAudio(ts, payload)]
    else if kind == TagVideo then [ToVideo(ts, payload)]
    else if kind == TagScript then [ScriptLogged(payload)]
    else []
  }

  datatype RelayState = RelayState(recv: Receiver, rebaser: Rebaser)

  /** One delivered frame. A parse error goes to `OnConnErr` but does not
      leave the loop: the zero tag is then rebased like any other and, its
      type being 0, dispatched nowhere. */
  function HandleFrame(s: RelayState, data: Bytes): (out: (RelayState, seq<Dispatch>))
    ensures out.0.rebaser.offsetTs == s.rebaser.offsetTs
    ensures ParseFLVTag(data).Err? ==>
      && out.1 == [ConnError(TagParseError)] && out.0.recv.stopped && out.0.recv.status == 0
      && out.0.recv.cid == s.recv.cid
      && (out.0.rebaser, out.0.recv.absTS) == Rebase(s.rebaser, 0)
    ensures ParseFLVTag(data).Ok? ==>
      var t := ParseFLVTag(data).value;
      && out.0.recv.stopped == s.recv.stopped
      && (out.0.rebaser, out.0.recv.absTS) == Rebase(s.rebaser, t.timestamp)
      && out.1 == Route(t.kind, out.0.recv.absTS, t.payload)
  {
    var parsed := ParseFLVTag(data);
    var t := ParsedOrZero(data);
    var recv := if parsed.Err? then OnConnErr(s.recv) else s.recv;
    var (rb, abs) := Rebase(s.rebaser, t.timestamp);
    var errs := if parsed.Err? then [ConnError(TagParseError)] else [];
    (RelayState(recv.(absTS := abs), rb), errs + Route(t.kind, abs, t.payload))
  }

  /** One delivered frame as the code is written: the parser refuses only
      frames under 11 bytes and takes the declared payload on trust, so the
      caller must guarantee that it is in bounds. */
  function HandleFrameAsWritten(s: RelayState, data: Bytes): (out: (RelayState, seq<Dispatch>))
    requires PayloadInBounds(data)
    ensures out.0.rebaser.offsetTs == s.rebaser.offsetTs
    ensures |data| < TagHeaderSize ==>
      && out.1 == [ConnError(TagParseError)] && out.0.recv.stopped && out.0.recv.status == 0
      && out.0.recv.absTS == Rebase(s.rebaser, 0).1
    ensures |data| >= TagHeaderSize ==>
      && out.0.recv == s.recv.(absTS := Rebase(s.rebaser, TimestampField(data)).1)
      && out.1 == Route(data[0], out.0.recv.absTS, data[TagHeaderSize..TagHeaderSize + DataSize(data)])
  {
    var parsed := ParseFLVTagAsWritten(data);
    var t := ParsedOrZeroAsWritten(data);
    var recv := if parsed.Err? then OnConnErr(s.recv) else s.recv;
    var (rb, abs) := Rebase(s.rebaser, t.timestamp);
    var errs := if parsed.Err? then [ConnError(TagParseError)] else [];
    (RelayState(recv.(absTS := abs), rb), errs + Route(t.kind, abs, t.payload))
  }

  /** The loop as written, over frames whose every parsed payload is in
      bounds. */
  function ReadLoopAsWritten(s: RelayState, frames: seq<MediaRead>): (out: (RelayState, seq<Dispatch>))
    requires ReadsInBounds(frames)
    ensures out.0.rebaser.offsetTs == s.rebaser.offsetTs && out.0.recv.cid == s.recv.cid
    ensures s.recv.stopped ==> out.0.recv.stopped
    ensures |frames| > 0 && IsFailure(frames[0]) ==> out.0.recv.stopped && |out.1| == 1 && out.1[0].ConnError?
    ensures forall k :: 0 <= k < |frames| && IsFailure(frames[k]) ==> out.0.recv.stopped
    decreases |frames|
  {
    if |frames| == 0 then (s, [])
    else match frames[0]
      case HeaderFailed => (s.(recv := OnConnErr(s.recv)), [ConnError(HeaderReadError)])
      case DataFailed => (s.(recv := OnConnErr(s.recv)), [ConnError(DataReadError)])
      case Delivered(data) =>
        assert forall k :: 1 <= k < |frames| ==> frames[k] == frames[1..][k - 1];
        var (s1, e1) := HandleFrameAsWritten(s, data);
        var (s2, e2) := ReadLoopAsWritten(s1, frames[1..]);
        (s2, e1 + e2)
  }

  /** The loop with the parser's missing bound check added: an oversized
      frame is reported like a short one. The rest of the model uses this
      loop. */
  function ReadLoop(s: RelayState, frames: seq<MediaRead>): (out: (RelayState, seq<Dispatch>))
    ensures out.0.rebaser.offsetTs == s.rebaser.offsetTs && out.0.recv.cid == s.recv.cid
    ensures s.recv.stopped ==> out.0.recv.stopped
    ensures forall k :: 0 <= k < |frames| && IsFailure(frames[k]) ==> out.0.recv.stopped
    decreases |frames|
  {
    if |frames| == 0 then (s, [])
    else match frames[0]
      case HeaderFailed => (s.(recv := OnConnErr(s.recv)), [ConnError(HeaderReadError)])
      case DataFailed => (s.(recv := OnConnErr(s.recv)), [ConnError(DataReadError)])
      case Delivered(data) =>
        assert forall k :: 1 <= k < |frames| ==> frames[k] == frames[1..][k - 1];
        var (s1, e1) := HandleFrame(s, data);
        var (s2, e2) := ReadLoop(s1, frames[1..]);
        (s2, e1 + e2)
  }

  /** Wherever the code as written does not fault, the checked loop does
      exactly the same. */
  lemma {:induction false} ReadLoopAgrees(s: RelayState, frames: seq<MediaRead>)
    requires ReadsInBounds(frames)
    ensures ReadLoop(s, frames) == ReadLoopAsWritten(s, frames)
    decreases |frames|
  {
    if |frames| > 0 && frames[0].Delivered? {
      var data := frames[0].data;
      ParseFLVTagAgrees(data);
      assert HandleFrame(s, data) == HandleFrameAsWritten(s, data);
      ReadLoopAgrees(HandleFrame(s, data).0, frames[1..]);
    }
  }

  /** `ReadFLVTag`: a fresh origin, offset by the receiver's last absolute
      timestamp. */
  function ReadFLVTag(recv: Receiver, frames: seq<MediaRead>): (out: (Receiver, seq<Dispatch>))
    ensures |frames| == 0 ==> out == (recv, [])
    ensures out.0.cid == recv.cid && (recv.stopped ==> out.0.stopped)
    ensures forall k :: 0 <= k < |frames| && IsFailure(frames[k]) ==> out.0.stopped
  {
    var (s, events) := ReadLoop(RelayState(recv, StartRebaser(recv.absTS)), frames);
    (s.recv, events)
  }

  /** Reads after the first failure are never made: the loop's outcome is
      fixed by the reads up to it, the failure is the last thing reported,
      and publishing has been stopped. */
  lemma {:induction false} ReadLoopStopsAtFailure(s: RelayState, frames: seq<MediaRead>, k: nat)
    requires k < |frames| && IsFailure(frames[k])
    requires forall j :: 0 <= j < k ==> !IsFailure(frames[j])
    ensures ReadLoop(s, frames) == ReadLoop(s, frames[..k + 1])
    ensures ReadLoop(s, frames).0.recv.stopped
    ensures |ReadLoop(s, frames).1| > 0
    ensures ReadLoop(s, frames).1[|ReadLoop(s, frames).1| - 1].ConnError?
    decreases k
  {
    if k > 0 {
      var s1 := HandleFrame(s, frames[0].data).0;
      assert frames[1..][..k] == frames[..k + 1][1..];
      ReadLoopStopsAtFailure(s1, frames[1..], k - 1);
    }
  }

  /** The dispatch a tag receives at absolute time `abs`, frame by frame. */
  function Expected(tags: seq<Tag>, abs: seq<U32>): seq<Dispatch>
    requires |abs| == |tags|
  {
    if |tags| == 0 then []
    else Route(tags[0].kind, abs[0], tags[0].payload) + Expected(tags[1..], abs[1..])
  }

  /** A built tag parses back, so its frame is rebased and routed with no
      error. */
  lemma HandleBuiltTag(s: RelayState, t: Tag)
    requires |t.payload| < 0x100_0000
    ensures var (rb, abs) := Rebase(s.rebaser, t.timestamp);
      HandleFrame(s, BuildTag(t)) == (RelayState(s.recv.(absTS := abs), rb), Route(t.kind, abs, t.payload))
  {
    ParseBuildTag(t, []);
    assert BuildTag(t) + [] == BuildTag(t);
  }

  lemma ReadLoopDelivered(s: RelayState, data: Bytes, rest: seq<MediaRead>)
    ensures var (s1, e1) := HandleFrame(s, data);
      ReadLoop(s, [Delivered(data)] + rest) == (ReadLoop(s1, rest).0, e1 + ReadLoop(s1, rest).1)
  {
    assert ([Delivered(data)] + rest)[1..] == rest;
  }

  lemma StepExpected(s: RelayState, tags: seq<Tag>)
    requires |tags| > 0
    ensures var (rb, abs) := Rebase(s.rebaser, tags[0].timestamp);
      && RebaseAll(s.rebaser, Stamps(tags)) == [abs] + RebaseAll(rb, Stamps(tags[1..]))
      && RebaserAfter(s.rebaser, Stamps(tags)) == RebaserAfter(rb, Stamps(tags[1..]))
      && Expected(tags, RebaseAll(s.rebaser, Stamps(tags)))
           == Route(tags[0].kind, abs, tags[0].payload) + Expected(tags[1..], RebaseAll(rb, Stamps(tags[1..])))
  {
    assert Stamps(tags)[1..] == Stamps(tags[1..]);
  }

  /** A stream of well-formed tags is dispatched tag by tag, each at the
      time the rebasing rule gives its raw timestamp, with no error and
      publishing left running. */
  lemma {:induction false} ReadLoopDispatchesTags(s: RelayState, tags: seq<Tag>)
    requires Sendable(tags)
    ensures ReadLoop(s, Frames(tags)).1 == Expected(tags, RebaseAll(s.rebaser, Stamps(tags)))
    ensures ReadLoop(s, Frames(tags)).0.recv.stopped == s.recv.stopped
    ensures ReadLoop(s, Frames(tags)).0.rebaser == RebaserAfter(s.rebaser, Stamps(tags))
    decreases |tags|
  {
    if |tags| > 0 {
      var t := tags[0];
      SendableTail(tags);
      HandleBuiltTag(s, t);
      ReadLoopDelivered(s, BuildTag(t), Frames(tags[1..]));
      var (rb, abs) := Rebase(s.rebaser, t.timestamp);
      ReadLoopDispatchesTags(RelayState(s.recv.(absTS := abs), rb), tags[1..]);
      StepExpected(s, tags);
    }
  }

  // ---------------------------------------------------------------------
  // Wspush_: accepting a push

  /** What `Streams.Get(newStreamPath)` finds. */
  datatype StreamState = NoStream | NoPublisher | HasPublisher

  datatype PushRefusal =
    | EmptyCid
    | EmptyStreamPath
    | HeadReadFailed
    | InvalidHead
    | ScriptReadFailed
    | InvalidScript
    | PublishFailed

  /** `NotUpgraded`: the handler returned before or during the upgrade, so
      no connection exists. `Refused`: the upgraded connection was closed.
      `Relaying`: the loop runs for `streamKey`, publishing it only when
      `publishes`. */
  datatype PushOutcome =
    | NotUpgraded
    | Refused(reason: PushRefusal)
    | Relaying(streamKey: string, flags: AvFlags, publishes: bool)

  /** The foreign outcomes one push attempt meets: the Upgrade header, the
      request URL, the upgrade itself, the first two binary reads, the
      stream table and the publish call. */
  datatype PushAttempt = PushAttempt(
    upgrade: string,
    fullUrl: string,
    upgradeOk: bool,
    head: Option<Bytes>,
    script: Option<Bytes>,
    stream: StreamState,
    publishOk: bool)

  /** The stream a push publishes: the pushed path tagged with the pusher's cid. */
  function StreamKey(streamPath: string, cid: string): string
  {
    streamPath + "-" + cid
  }

  /** The handler got past the upgrade with a cid and a stream path, so it
      goes on to read the two opening frames. */
  predicate ReadsOpening(codec: UrlCodec, a: PushAttempt)
  {
    && a.upgrade == "websocket" && HandlerQuery(codec, a.fullUrl).Some? && a.upgradeOk
    && QueryGet(HandlerQuery(codec, a.fullUrl).value, "cid") != ""
    && QueryGet(HandlerQuery(codec, a.fullUrl).value, "streamPath") != ""
  }

  /** `Wspush_` with the missing length checks of the two opening frames
      added. The rest of the model uses this handler. */
  function Wspush(codec: UrlCodec, a: PushAttempt): (r: PushOutcome)
    ensures r.NotUpgraded? <==>
      a.upgrade != "websocket" || HandlerQuery(codec, a.fullUrl).None? || !a.upgradeOk
    ensures !r.NotUpgraded? ==>
      var q := HandlerQuery(codec, a.fullUrl).value;
      && (r == Refused(EmptyCid) <==> QueryGet(q, "cid") == "")
      && (r == Refused(EmptyStreamPath) <==> QueryGet(q, "cid") != "" && QueryGet(q, "streamPath") == "")
    ensures r.Relaying? ==>
      var q := HandlerQuery(codec, a.fullUrl).value;
      && QueryGet(q, "cid") != "" && QueryGet(q, "streamPath") != ""
      && r.streamKey == QueryGet(q, "streamPath") + "-" + QueryGet(q, "cid")
      && a.head.Some? && a.script.Some?
      && Handshake(a.head.value, a.script.value) == Ok(r.flags)
      && (r.publishes <==> a.stream != HasPublisher)
    ensures r == Refused(PublishFailed) ==> a.stream != HasPublisher && !a.publishOk
    ensures r == Refused(HeadReadFailed) <==> ReadsOpening(codec, a) && a.head.None?
    ensures r == Refused(ScriptReadFailed) <==>
      ReadsOpening(codec, a) && a.head.Some? && ValidateHead(a.head.value).Ok? && a.script.None?
    ensures r == Refused(InvalidScript) <==>
      && ReadsOpening(codec, a) && a.head.Some? && ValidateHead(a.head.value).Ok?
      && a.script.Some? && ValidateScript(a.script.value).Err?
    ensures r == Refused(PublishFailed) <==>
      && ReadsOpening(codec, a) && a.head.Some? && a.script.Some?
      && Handshake(a.head.value, a.script.value).Ok? && a.stream != HasPublisher && !a.publishOk
    ensures r == Refused(InvalidHead) <==>
      ReadsOpening(codec, a) && a.head.Some? && ValidateHead(a.head.value).Err?
    ensures ReadsOpening(codec, a) && a.head.Some? && a.script.Some?
            && (a.stream == HasPublisher || a.publishOk) ==>
      var q := HandlerQuery(codec, a.fullUrl).value;
      forall f :: Handshake(a.head.value, a.script.value) == Ok(f) ==>
        r == Relaying(StreamKey(QueryGet(q, "streamPath"), QueryGet(q, "cid")), f, a.stream != HasPublisher)
  {
    if a.upgrade != "websocket" then NotUpgraded
    else match HandlerQuery(codec, a.fullUrl)
      case None => NotUpgraded
      case Some(q) =>
        if !a.upgradeOk then NotUpgraded
        else
          var cid := QueryGet(q, "cid");
          var streamPath := QueryGet(q, "streamPath");
          if cid == "" then Refused(EmptyCid)
          else if streamPath == "" then Refused(EmptyStreamPath)
          else match a.head
            case None => Refused(HeadReadFailed)
            case Some(head) =>
              match ValidateHead(head)
              case Err(_) => Refused(InvalidHead)
              case Ok(flags) =>
                match a.script
                case None => Refused(ScriptReadFailed)
                case Some(sc) =>
                  if ValidateScript(sc).Err? then Refused(InvalidScript)
                  else if a.stream == HasPublisher then Relaying(StreamKey(streamPath, cid), flags, false)
                  else if !a.publishOk then Refused(PublishFailed)
                  else Relaying(StreamKey(streamPath, cid), flags, true)
  }

  /** The opening frames are indexable wherever the handler as written
      reads them: the head's checked bytes, and the script's first byte
      once the head passed. */
  predicate OpeningIndexable(a: PushAttempt)
  {
    a.head.Some? ==>
      && HeadIndexable(a.head.value)
      && (HeadCheckAsWritten(a.head.value).Ok? && a.script.Some? ==> |a.script.value| >= 1)
  }

  /** `Wspush_` as written: `head[0..2]`, `head[4]` and `sc[0]` are read
      with no length check, so the caller must guarantee those bytes
      exist. */
  function WspushAsWritten(codec: UrlCodec, a: PushAttempt): (r: PushOutcome)
    requires ReadsOpening(codec, a) ==> OpeningIndexable(a)
    ensures r.NotUpgraded? <==>
      a.upgrade != "websocket" || HandlerQuery(codec, a.fullUrl).None? || !a.upgradeOk
    ensures r.Relaying? ==>
      && ReadsOpening(codec, a) && a.head.Some? && a.script.Some?
      && |a.head.value| >= 5 && a.head.value[..3] == Magic && r.flags == DecodeFlags(a.head.value[4])
      && |a.script.value| > 0 && a.script.value[0] == TagScript
  {
    if a.upgrade != "websocket" then NotUpgraded
    else match HandlerQuery(codec, a.fullUrl)
      case None => NotUpgraded
      case Some(q) =>
        if !a.upgradeOk then NotUpgraded
        else
          var cid := QueryGet(q, "cid");
          var streamPath := QueryGet(q, "streamPath");
          if cid == "" then Refused(EmptyCid)
          else if streamPath == "" then Refused(EmptyStreamPath)
          else match a.head
            case None => Refused(HeadReadFailed)
            case Some(head) =>
              if head[0] != Magic[0] || head[1] != Magic[1] || head[2] != Magic[2] then Refused(InvalidHead)
              else
                var flags := DecodeFlags(head[4]);
                match a.script
                case None => Refused(ScriptReadFailed)
                case Some(sc) =>
                  if sc[0] != TagScript then Refused(InvalidScript)
                  else if a.stream == HasPublisher then Relaying(StreamKey(streamPath, cid), flags, false)
                  else if !a.publishOk then Refused(PublishFailed)
                  else Relaying(StreamKey(streamPath, cid), flags, true)
  }

  /** Wherever the handler as written does not fault, the checked handler
      decides the same way. */
  lemma WspushAgrees(codec: UrlCodec, a: PushAttempt)
    requires ReadsOpening(codec, a) ==> OpeningIndexable(a)
    ensures Wspush(codec, a) == WspushAsWritten(codec, a)
  {
    if ReadsOpening(codec, a) && a.head.Some? {
      HeadCheckAgrees(a.head.value);
    }
  }

  /** A 3-byte head `FLV` reaches the handler's read of `head[4]`. */
  lemma ShortHeadReachesIndex(codec: UrlCodec, a: PushAttempt)
    requires ReadsOpening(codec, a) && a.head == Some(Magic)
    ensures !OpeningIndexable(a)
  {
  }

  /** After a valid head, an empty script frame reaches the handler's read
      of `sc[0]`. */
  lemma EmptyScriptReachesIndex(codec: UrlCodec, a: PushAttempt, f: AvFlags)
    requires ReadsOpening(codec, a) && a.head == Some(BuildHeader(f)) && a.script == Some([])
    ensures !OpeningIndexable(a)
  {
  }

  /** A push whose head does not start with the FLV signature is closed,
      and nothing is published. */
  lemma BadSignatureRefused(codec: UrlCodec, a: PushAttempt)
    requires a.head.Some? && |a.head.value| >= 3 && a.head.value[..3] != Magic
    ensures !Wspush(codec, a).Relaying?
    ensures !Wspush(codec, a).NotUpgraded? ==> Wspush(codec, a).Refused?
  {
  }
}
