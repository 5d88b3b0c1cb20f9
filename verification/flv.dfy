/** The FLV byte formats the media relay carries, as laid down in Annex E of
    the Adobe Flash Video File Format Specification 10.1: the 13-byte
    stream head the pusher sends (the 9-byte file header of section E.2
    followed by PreviousTagSize0), the 11-byte tag header of section E.4.1,
    and the receiver's checks of the first two frames of a push. */
module FlvCodec {
  import opened Base

  /** TagType values of section E.4.1. */
  const TagAudio: byte := 8
  const TagVideo: byte := 9
  const TagScript: byte := 18

  const TagHeaderSize: nat := 11

  /** The signature bytes 'F', 'L', 'V'. */
  const Magic: Bytes := [0x46, 0x4C, 0x56]

  /** The TypeFlagsAudio (bit 2) and TypeFlagsVideo (bit 0) of the file header. */
  datatype AvFlags = AvFlags(audio: bool, video: bool)

  /** Bit 0x04 of a flags byte (`&0x04 != 0` in Go). */
  predicate AudioBit(b: byte)
  {
    b / 4 % 2 == 1
  }

  /** Bit 0x01 of a flags byte (`&0x01 != 0` in Go). */
  predicate VideoBit(b: byte)
  {
    b % 2 == 1
  }

  function FlagsByte(f: AvFlags): (b: byte)
    ensures AudioBit(b) == f.audio
    ensures VideoBit(b) == f.video
    ensures b == 0 || b == 1 || b == 4 || b == 5
  {
    (if f.audio then 0x04 else 0) + (if f.video then 0x01 else 0)
  }

  function DecodeFlags(b: byte): AvFlags
  {
    AvFlags(AudioBit(b), VideoBit(b))
  }

  /** The head `WriteFlvHeader` sends: signature, version 1, flags,
      DataOffset 9 (big-endian 32 bits), then a zero PreviousTagSize0. */
  function BuildHeader(f: AvFlags): (h: Bytes)
    ensures |h| == 13 && h[..3] == Magic && h[3] == 1
    ensures h[5..9] == [0, 0, 0, 9] && h[9..] == [0, 0, 0, 0]
    ensures DecodeFlags(h[4]) == f
  {
    Magic + [0x01, FlagsByte(f), 0, 0, 0, 9, 0, 0, 0, 0]
  }

  // ---------------------------------------------------------------------
  // Tag header (section E.4.1)

  datatype Tag = Tag(kind: byte, timestamp: U32, payload: Bytes)

  /** "FLV Tag data is too short". */
  datatype TagError = TooShort

  /** The big-endian 24-bit value of three bytes. The Go code ORs shifted
      bytes together; the shifted ranges are disjoint, so OR is a sum. */
  function Be24Value(hi: byte, mid: byte, lo: byte): (n: nat)
    ensures n < 0x100_0000
  {
    hi as nat * 0x1_0000 + mid as nat * 0x100 + lo as nat
  }

  /** DataSize: bytes 1..3 of the tag header. */
  function DataSize(b: Bytes): nat
    requires |b| >= TagHeaderSize
  {
    Be24Value(b[1], b[2], b[3])
  }

  /** Timestamp (bytes 4..6) extended by TimestampExtended (byte 7) as its
      upper eight bits. */
  function TimestampField(b: Bytes): U32
    requires |b| >= TagHeaderSize
  {
    b[7] as nat * 0x100_0000 + Be24Value(b[4], b[5], b[6])
  }

  /** The two parts of the timestamp field come back apart: TimestampExtended
      is its top byte and Timestamp its low 24 bits. */
  lemma TimestampFieldParts(b: Bytes)
    requires |b| >= TagHeaderSize
    ensures TimestampField(b) / 0x100_0000 == b[7] as nat
    ensures TimestampField(b) % 0x100_0000 == Be24Value(b[4], b[5], b[6])
  {
    var lo := Be24Value(b[4], b[5], b[6]);
    var t := TimestampField(b);
    assert t == b[7] as nat * 0x100_0000 + lo && 0 <= lo < 0x100_0000;
  }

  /** The slice `b[11 : 11+dataSize]` of `ParseFLVTag` stays inside `b`. */
  predicate PayloadInBounds(b: Bytes)
  {
    |b| >= TagHeaderSize ==> TagHeaderSize + DataSize(b) <= |b|
  }

  /** `ParseFLVTag` as written in both files: only inputs under 11 bytes are
      refused; the payload slice is taken on trust, so the caller must
      guarantee that it is in bounds. */
  function ParseFLVTagAsWritten(b: Bytes): (r: Result<Tag, TagError>)
    requires PayloadInBounds(b)
    ensures r.Err? <==> |b| < TagHeaderSize
    ensures r.Ok? ==> r.value.kind == b[0] && |r.value.payload| == DataSize(b)
    ensures r.Ok? ==>
      && r.value.timestamp / 0x100_0000 == b[7] as nat
      && r.value.timestamp % 0x100_0000 == Be24Value(b[4], b[5], b[6])
      && r.value.payload == b[TagHeaderSize..TagHeaderSize + DataSize(b)]
  {
    if |b| < TagHeaderSize then Err(TooShort)
    else
      TimestampFieldParts(b);
      Ok(Tag(b[0], TimestampField(b), b[TagHeaderSize..TagHeaderSize + DataSize(b)]))
  }

  /** Eleven bytes of an audio tag that declares five payload bytes and
      carries none: the slice of the code as written is out of range. */
  const OversizedTag: Bytes := [8, 0, 0, 5, 0, 0, 0, 0, 0, 0, 0]

  lemma OversizedTagEscapesCheck()
    ensures |OversizedTag| >= TagHeaderSize
    ensures !PayloadInBounds(OversizedTag)
  {
  }

  /** The tag parser with the missing bound check added: a header that
      declares more payload than the frame holds is refused as too short,
      like a frame under 11 bytes. */
  function ParseFLVTag(b: Bytes): (r: Result<Tag, TagError>)
    ensures r.Err? <==> !(|b| >= TagHeaderSize && TagHeaderSize + DataSize(b) <= |b|)
    ensures r.Ok? ==> r.value.kind == b[0] && |r.value.payload| == DataSize(b)
    ensures r.Ok? ==>
      && r.value.timestamp / 0x100_0000 == b[7] as nat
      && r.value.timestamp % 0x100_0000 == Be24Value(b[4], b[5], b[6])
      && r.value.payload == b[TagHeaderSize..TagHeaderSize + DataSize(b)]
  {
    if |b| < TagHeaderSize || TagHeaderSize + DataSize(b) > |b| then Err(TooShort)
    else
      TimestampFieldParts(b);
      Ok(Tag(b[0], TimestampField(b), b[TagHeaderSize..TagHeaderSize + DataSize(b)]))
  }

  /** Wherever the code as written does not fault, the corrected parser
      returns exactly what it returns. */
  lemma ParseFLVTagAgrees(b: Bytes)
    requires PayloadInBounds(b)
    ensures ParseFLVTag(b) == ParseFLVTagAsWritten(b)
  {
  }

  lemma Split24(n: nat)
    requires n < 0x100_0000
    ensures n == n / 0x100 / 0x100 * 0x1_0000 + n / 0x100 % 0x100 * 0x100 + n % 0x100
    ensures n / 0x100 / 0x100 < 0x100
  {
    var q := n / 0x100;
    assert n == q * 0x100 + n % 0x100;
    assert q == q / 0x100 * 0x100 + q % 0x100;
  }

  /** Three big-endian bytes of a 24-bit value. */
  function Be24(n: nat): (r: Bytes)
    requires n < 0x100_0000
    ensures |r| == 3 && Be24Value(r[0], r[1], r[2]) == n
  {
    Split24(n);
    var hi, mid, lo := n / 0x100 / 0x100, n / 0x100 % 0x100, n % 0x100;
    [hi as byte, mid as byte, lo as byte]
  }

  /** Four big-endian bytes of a 32-bit value (PreviousTagSize). */
  function Be32(n: U32): (r: Bytes)
    ensures |r| == 4
  {
    [(n / 0x100_0000) as byte] + Be24(n % 0x100_0000)
  }

  /** The 11-byte header of section E.4.1: type, DataSize, Timestamp,
      TimestampExtended and a zero StreamID. */
  function TagHeaderBytes(t: Tag): (h: Bytes)
    requires |t.payload| < 0x100_0000
    ensures |h| == TagHeaderSize && h[0] == t.kind
  {
    [t.kind] + Be24(|t.payload|) + Be24(t.timestamp % 0x100_0000)
      + [(t.timestamp / 0x100_0000) as byte] + [0, 0, 0]
  }

  /** A complete tag: header, payload, and the trailing PreviousTagSize
      (header plus payload length). */
  function BuildTag(t: Tag): (b: Bytes)
    requires |t.payload| < 0x100_0000
    ensures |b| == TagHeaderSize + |t.payload| + 4
    ensures b[0] == t.kind
  {
    TagHeaderBytes(t) + t.payload + Be32(TagHeaderSize + |t.payload|)
  }

  /** The header's DataSize and timestamp fields read back the payload
      length and the full 32-bit timestamp. */
  lemma HeaderFieldsRoundTrip(t: Tag)
    requires |t.payload| < 0x100_0000
    ensures DataSize(TagHeaderBytes(t)) == |t.payload|
    ensures TimestampField(TagHeaderBytes(t)) == t.timestamp
  {
    var h := TagHeaderBytes(t);
    var sz := Be24(|t.payload|);
    var ts := Be24(t.timestamp % 0x100_0000);
    assert h[1..4] == sz;
    assert h[4..7] == ts;
    assert h[7] as nat == t.timestamp / 0x100_0000;
  }

  /** The header fields depend on the first 11 bytes only. */
  lemma FieldsOfPrefix(h: Bytes, rest: Bytes)
    requires |h| == TagHeaderSize
    ensures DataSize(h + rest) == DataSize(h)
    ensures TimestampField(h + rest) == TimestampField(h)
  {
    var b := h + rest;
    assert b[1] == h[1] && b[2] == h[2] && b[3] == h[3];
    assert b[4] == h[4] && b[5] == h[5] && b[6] == h[6] && b[7] == h[7];
  }

  /** A frame holding a header, then exactly the payload it declares, then
      anything, parses to that payload. */
  lemma ParseHeaderThen(h: Bytes, payload: Bytes, tail: Bytes)
    requires |h| == TagHeaderSize && DataSize(h) == |payload|
    ensures ParseFLVTag(h + (payload + tail)) == Ok(Tag(h[0], TimestampField(h), payload))
  {
    var b := h + (payload + tail);
    FieldsOfPrefix(h, payload + tail);
    assert b[TagHeaderSize..TagHeaderSize + |payload|] == payload;
  }

  /** Build then parse: the tag comes back unchanged, whatever follows it
      in the frame. */
  lemma ParseBuildTag(t: Tag, rest: Bytes)
    requires |t.payload| < 0x100_0000
    ensures ParseFLVTag(BuildTag(t) + rest) == Ok(t)
  {
    var h := TagHeaderBytes(t);
    var trailer := Be32(TagHeaderSize + |t.payload|) + rest;
    assert BuildTag(t) + rest == h + (t.payload + trailer);
    HeaderFieldsRoundTrip(t);
    ParseHeaderThen(h, t.payload, trailer);
  }

  /** What both read loops go on with after parsing: the tag, or Go's zero
      values (type 0, timestamp 0, no payload) when parsing failed. */
  function ParsedOrZero(data: Bytes): Tag
  {
    match ParseFLVTag(data)
    case Ok(t) => t
    case Err(_) => Tag(0, 0, [])
  }

  /** `ParsedOrZero` over the parser as written. */
  function ParsedOrZeroAsWritten(data: Bytes): Tag
    requires PayloadInBounds(data)
  {
    match ParseFLVTagAsWritten(data)
    case Ok(t) => t
    case Err(_) => Tag(0, 0, [])
  }

  // ---------------------------------------------------------------------
  // The first two frames of a push (wssRecever.go, Wspush_)

  datatype HandshakeError = BadHead | BadScript

  /** The indices `head[0]`, `head[1]`, `head[2]`, `head[4]` and `sc[0]`
      that the receiver reads, in Go's short-circuit order, all exist. */
  predicate HandshakeIndexable(head: Bytes, sc: Bytes)
  {
    && |head| >= 1
    && (head[0] == Magic[0] ==> |head| >= 2)
    && (head[0] == Magic[0] && head[1] == Magic[1] ==> |head| >= 3)
    && (head[0] == Magic[0] && head[1] == Magic[1] && head[2] == Magic[2] ==> |head| >= 5 && |sc| >= 1)
  }

  /** The checks of the first two frames as written: the magic of the head,
      its flags byte, and the type byte of the script tag. */
  function HandshakeAsWritten(head: Bytes, sc: Bytes): (r: Result<AvFlags, HandshakeError>)
    requires HandshakeIndexable(head, sc)
    ensures r.Ok? ==> |head| >= 5 && head[..3] == Magic && |sc| > 0 && sc[0] == TagScript
  {
    if head[0] != Magic[0] || head[1] != Magic[1] || head[2] != Magic[2] then Err(BadHead)
    else if sc[0] != TagScript then Err(BadScript)
    else Ok(DecodeFlags(head[4]))
  }

  /** A head frame of just "FLV" passes the magic check and is then read at
      index 4. */
  lemma ShortHeadEscapesCheck(sc: Bytes)
    ensures !HandshakeIndexable(Magic, sc)
  {
  }

  /** The head bytes `head[0]`, `head[1]`, `head[2]` and `head[4]` the
      receiver reads, in Go's short-circuit order, all exist. */
  predicate HeadIndexable(head: Bytes)
  {
    && |head| >= 1
    && (head[0] == Magic[0] ==> |head| >= 2)
    && (head[0] == Magic[0] && head[1] == Magic[1] ==> |head| >= 3)
    && (head[0] == Magic[0] && head[1] == Magic[1] && head[2] == Magic[2] ==> |head| >= 5)
  }

  /** The head check as written: the signature test, then the flags from
      `head[4]`. */
  function HeadCheckAsWritten(head: Bytes): (r: Result<AvFlags, HandshakeError>)
    requires HeadIndexable(head)
    ensures r.Ok? <==> |head| >= 5 && head[..3] == Magic
    ensures r.Ok? ==> r.value == DecodeFlags(head[4])
  {
    if head[0] != Magic[0] || head[1] != Magic[1] || head[2] != Magic[2] then Err(BadHead)
    else Ok(DecodeFlags(head[4]))
  }

  /** The head check with the missing length check added. */
  function ValidateHead(head: Bytes): (r: Result<AvFlags, HandshakeError>)
    ensures r.Ok? <==> |head| >= 5 && head[..3] == Magic
    ensures r.Ok? ==> r.value == AvFlags(AudioBit(head[4]), VideoBit(head[4]))
  {
    if |head| < 5 || head[0] != Magic[0] || head[1] != Magic[1] || head[2] != Magic[2] then Err(BadHead)
    else Ok(DecodeFlags(head[4]))
  }

  /** The script check with the missing length check added. */
  function ValidateScript(sc: Bytes): (r: Result<(), HandshakeError>)
    ensures r.Ok? <==> |sc| > 0 && sc[0] == TagScript
  {
    if |sc| == 0 || sc[0] != TagScript then Err(BadScript) else Ok(())
  }

  /** Both checks in the order the receiver makes them. */
  function Handshake(head: Bytes, sc: Bytes): (r: Result<AvFlags, HandshakeError>)
    ensures r.Ok? <==> ValidateHead(head).Ok? && ValidateScript(sc).Ok?
  {
    match ValidateHead(head)
    case Err(e) => Err(e)
    case Ok(f) => if ValidateScript(sc).Err? then Err(BadScript) else Ok(f)
  }

  /** Wherever the head check as written does not fault, the checked one
      decides the same way. */
  lemma HeadCheckAgrees(head: Bytes)
    requires HeadIndexable(head)
    ensures ValidateHead(head) == HeadCheckAsWritten(head)
  {
  }

  /** Wherever the code as written does not fault, the corrected checks
      decide the same way. */
  lemma HandshakeAgrees(head: Bytes, sc: Bytes)
    requires HandshakeIndexable(head, sc)
    ensures Handshake(head, sc) == HandshakeAsWritten(head, sc)
  {
  }

  /** The pusher's head and script tag pass the receiver's checks, and the
      flags it wrote are the flags the receiver reads. */
  lemma HandshakeRoundTrip(f: AvFlags, meta: Bytes)
    requires |meta| < 0x100_0000
    ensures Handshake(BuildHeader(f), BuildTag(Tag(TagScript, 0, meta))) == Ok(f)
  {
  }
}
