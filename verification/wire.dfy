/** The websocket traffic of a media push. The pusher writes every FLV tag
    as a hand-made frame header (`ws.WriteHeader`) followed by a complete
    binary message (`wsutil.WriteClientBinary`); both read loops read one
    frame header (`ws.ReadHeader`) and then one binary message, so each
    iteration consumes exactly one such pair. */
module MediaWire {
  import opened Base
  import opened FlvCodec

  /** The binary-frame opcode of section 5.2 of RFC 6455. */
  const OpBinary: nat := 2

  /** The masking key the pusher announces. */
  const PusherMask: Bytes := [0x12, 0x34, 0x56, 0x78]

  /** The fields of `ws.Header` the pusher sets. */
  datatype WsHeader = WsHeader(fin: bool, opcode: nat, masked: bool, mask: Bytes, length: nat)

  /** One write to the connection. */
  datatype WsWrite = RawHeader(header: WsHeader) | BinaryMessage(data: Bytes)

  /** One iteration's reads: the frame header read fails, the binary
      message read fails, or a binary message is delivered. */
  datatype MediaRead = HeaderFailed | DataFailed | Delivered(data: Bytes)

  predicate IsFailure(m: MediaRead)
  {
    m.HeaderFailed? || m.DataFailed?
  }

  /** The byte slices of an `FLVFrame` (`net.Buffers`) appended in order. */
  function Flatten(bufs: seq<Bytes>): Bytes
  {
    if |bufs| == 0 then [] else bufs[0] + Flatten(bufs[1..])
  }

  /** Splitting a frame's buffer list anywhere gives the same bytes. */
  lemma {:induction false} FlattenAppend(a: seq<Bytes>, b: seq<Bytes>)
    ensures Flatten(a + b) == Flatten(a) + Flatten(b)
    decreases |a|
  {
    if |a| == 0 {
      assert a + b == b;
    } else {
      assert (a + b)[1..] == a[1..] + b;
      FlattenAppend(a[1..], b);
      assert Flatten(a + b) == a[0] + Flatten(a[1..] + b);
    }
  }

  function Stamps(tags: seq<Tag>): (ts: seq<U32>)
    ensures |ts| == |tags|
    ensures forall i :: 0 <= i < |tags| ==> ts[i] == tags[i].timestamp
  {
    if |tags| == 0 then [] else [tags[0].timestamp] + Stamps(tags[1..])
  }

  /** Tags whose payload fits the 24-bit DataSize field. */
  predicate Sendable(tags: seq<Tag>)
  {
    forall i :: 0 <= i < |tags| ==> |tags[i].payload| < 0x100_0000
  }

  lemma SendableTail(tags: seq<Tag>)
    requires |tags| > 0 && Sendable(tags)
    ensures Sendable(tags[1..])
  {
    forall i | 0 <= i < |tags[1..]|
      ensures |tags[1..][i].payload| < 0x100_0000
    {
      assert tags[1..][i] == tags[i + 1];
    }
  }

  /** Each tag delivered in its own message, laid out as section E.4.1 of
      the FLV format has it. */
  function Frames(tags: seq<Tag>): (frames: seq<MediaRead>)
    requires Sendable(tags)
    ensures |frames| == |tags|
    ensures forall i :: 0 <= i < |tags| ==> frames[i] == Delivered(BuildTag(tags[i]))
  {
    if |tags| == 0 then []
    else
      SendableTail(tags);
      [Delivered(BuildTag(tags[0]))] + Frames(tags[1..])
  }

  /** What a read loop sees of a run of writes: each header-then-message
      pair is one delivered message; a header with nothing after it is a
      failed message read; anything out of step is a failed header read. */
  function Received(writes: seq<WsWrite>): (frames: seq<MediaRead>)
    ensures |frames| <= |writes|
    ensures forall i :: 0 <= i < |frames| - 1 ==> frames[i].Delivered?
    decreases |writes|
  {
    if |writes| == 0 then []
    else if !writes[0].RawHeader? then [HeaderFailed]
    else if |writes| == 1 then [DataFailed]
    else if !writes[1].BinaryMessage? then [DataFailed]
    else [Delivered(writes[1].data)] + Received(writes[2..])
  }

  /** Every message the code as written parses, that is every delivered
      message up to the first failed read, declares a payload that fits. */
  predicate ReadsInBounds(frames: seq<MediaRead>)
    decreases |frames|
  {
    |frames| == 0 || IsFailure(frames[0])
    || (PayloadInBounds(frames[0].data) && ReadsInBounds(frames[1..]))
  }
}
