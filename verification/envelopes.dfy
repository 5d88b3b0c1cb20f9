/** The tunnel's message vocabulary (client.go): message types, the
    sequence-numbered envelope `CascadingWsMessage`, the client identity and
    the proxied request. JSON encoding is a foreign call; the encoders and
    decoders the code uses are parameters, bundled in `Json`. */
module Envelopes {
  import opened Base

  /** `MessageType` is a Go `int`; any value can arrive in a decoded envelope. */
  type MessageType = int

  const CInfo: MessageType := 0
  const HTTPProxyReq: MessageType := 1
  const HTTPProxyRsp: MessageType := 2

  /** `MessageType.String`. */
  function TypeName(m: MessageType): (s: string)
    ensures s == "Unknown" <==> !(CInfo <= m <= HTTPProxyRsp)
    ensures m == CInfo ==> s == "CInfo"
    ensures m == HTTPProxyReq ==> s == "HTTPProxyReq"
    ensures m == HTTPProxyRsp ==> s == "HTTPProxyRsp"
  {
    if m < CInfo || m > HTTPProxyRsp then "Unknown"
    else ["CInfo", "HTTPProxyReq", "HTTPProxyRsp"][m]
  }

  /** Distinct known types have distinct names, so a logged name identifies
      the type. */
  lemma TypeNameInjective(a: MessageType, b: MessageType)
    requires CInfo <= a <= HTTPProxyRsp
    ensures TypeName(a) == TypeName(b) <==> a == b
  {
  }

  /** `CascadingWsMessage`: sequence number, type, opaque pad. */
  datatype Envelope = Envelope(sn: int, kind: MessageType, pad: Bytes)

  /** `ClientInfo`. */
  datatype ClientInfo = ClientInfo(cid: string, name: string, serial: string)

  /** The zero value a fresh registry entry holds. */
  const NoInfo: ClientInfo := ClientInfo("", "", "")

  /** `ProxyMessage`; `header` is an `http.Header`. */
  datatype ProxyMessage = ProxyMessage(url: string, header: Params, httpMethod: string, body: Bytes)

  /** `json.Marshal` / `json.Unmarshal` of the pads. */
  datatype Json = Json(
    encodeInfo: ClientInfo -> Bytes,
    decodeInfo: Bytes -> Option<ClientInfo>,
    encodeProxy: ProxyMessage -> Bytes,
    decodeProxy: Bytes -> Option<ProxyMessage>)

  /** One read of a tunnel read loop: a transport failure, or a text
      message whose JSON envelope did (`Some`) or did not (`None`) decode. */
  datatype Inbound = ReadFailed | Text(env: Option<Envelope>)
}
