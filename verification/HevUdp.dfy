/** HEV UDP-in-TCP frames (udp.rs): the codec with its address form from section 5 of RFC 1928,
    the streaming reader, and the batching reply writer on these frames.

    Whether bytes are UTF-8 is a parameter: every law holds for every such test. */
module HevUdp {
  import opened Base
  import opened Wire
  import opened ReplyWriter

  const ATYP_IPV4: byte := 1
  const ATYP_DOMAIN: byte := 3
  const ATYP_IPV6: byte := 4
  const MAX_DOMAIN_LEN: nat := 255

  type u16 = x: int | 0 <= x < 0x1_0000

  datatype Endpoint = V4(ip: seq<byte>, port: u16) | V6(ip: seq<byte>, port: u16) | Domain(host: seq<byte>, port: u16)

  datatype Frame = Frame(endpoint: Endpoint, payload: seq<byte>)

  datatype FrameError =
    | Truncated | TruncatedAddress | PayloadTooLarge(len: nat) | InvalidHeaderLength(len: nat) | HeaderTooLarge(len: nat)
    | LengthMismatch(expected: nat, actual: nat) | UnsupportedAddressType(atyp: byte) | InvalidDomainLength(len: nat)
    | InvalidDomain | UnexpectedEof

  type Utf8 = seq<byte> -> bool

  /** What the source's address types guarantee by themselves. */
  predicate WellTyped(utf8: Utf8, e: Endpoint) {
    match e
    case V4(ip, _) => |ip| == 4
    case V6(ip, _) => |ip| == 16
    case Domain(host, _) => utf8(host)
  }

  function Port(p: u16): (s: seq<byte>)
    ensures |s| == 2
  {
    Widths(); BE(p, 2)
  }

  function ReadPort(s: seq<byte>): u16
    requires |s| == 2
  {
    Widths(); FromBEBound(s); FromBE(s)
  }

  lemma PortLaws(p: u16, s: seq<byte>)
    ensures ReadPort(Port(p)) == p
    ensures |s| == 2 ==> Port(ReadPort(s)) == s
  {
    Widths();
    DecodeEncode(p, 2);
    if |s| == 2 { EncodeDecode(s); }
  }

  function EncodeEndpoint(e: Endpoint): Result<seq<byte>, FrameError> {
    match e
    case V4(ip, port) => Ok([ATYP_IPV4] + ip + Port(port))
    case V6(ip, port) => Ok([ATYP_IPV6] + ip + Port(port))
    case Domain(host, port) =>
      if |host| == 0 || |host| > MAX_DOMAIN_LEN then Err(InvalidDomainLength(|host|))
      else Ok([ATYP_DOMAIN, |host|] + host + Port(port))
  }

  function DecodeEndpoint(utf8: Utf8, s: seq<byte>): Result<(Endpoint, nat), FrameError> {
    if s == [] then Err(TruncatedAddress)
    else if s[0] == ATYP_IPV4 then
      if |s| < 7 then Err(TruncatedAddress) else Ok((V4(s[1..5], ReadPort(s[5..7])), 7))
    else if s[0] == ATYP_IPV6 then
      if |s| < 19 then Err(TruncatedAddress) else Ok((V6(s[1..17], ReadPort(s[17..19])), 19))
    else if s[0] == ATYP_DOMAIN then
      if |s| < 2 then Err(TruncatedAddress)
      else
        var n := s[1];
        if n == 0 || n > MAX_DOMAIN_LEN || |s| < n + 4 then Err(InvalidDomainLength(n))
        else if !utf8(s[2..2 + n]) then Err(InvalidDomain)
        else Ok((Domain(s[2..2 + n], ReadPort(s[2 + n..4 + n])), n + 4))
    else Err(UnsupportedAddressType(s[0]))
  }

  function Encode(f: Frame): Result<seq<byte>, FrameError> {
    if |f.payload| > MAX_UDP_PAYLOAD then Err(PayloadTooLarge(|f.payload|))
    else match EncodeEndpoint(f.endpoint)
      case Err(e) => Err(e)
      case Ok(address) =>
        var header := 3 + |address|;
        if header > 255 then Err(HeaderTooLarge(header))
        else Ok(Port(|f.payload|) + [header] + address + f.payload)
  }

  function Decode(utf8: Utf8, input: seq<byte>): Result<Frame, FrameError> {
    if |input| < 3 then Err(Truncated) else
    var n: nat := ReadPort(input[..2]);
    if n > MAX_UDP_PAYLOAD then Err(PayloadTooLarge(n)) else
    var header: nat := input[2];
    if header < 3 || header > |input| then Err(InvalidHeaderLength(header))
    else if |input| != header + n then Err(LengthMismatch(header + n, |input|))
    else match DecodeEndpoint(utf8, input[3..header])
      case Err(e) => Err(e)
      case Ok((endpoint, consumed)) =>
        if consumed + 3 != header then Err(InvalidHeaderLength(header)) else Ok(Frame(endpoint, input[header..]))
  }

  /** Reads one frame off a stream and returns what follows it. */
  function ReadFrom(utf8: Utf8, stream: seq<byte>): Result<(Frame, seq<byte>), FrameError> {
    if |stream| < 3 then Err(UnexpectedEof) else
    var n: nat := ReadPort(stream[..2]);
    if n > MAX_UDP_PAYLOAD then Err(PayloadTooLarge(n)) else
    var header: nat := stream[2];
    if header < 3 then Err(InvalidHeaderLength(header))
    else if |stream| < header + n then Err(UnexpectedEof)
    else match Decode(utf8, stream[..header + n])
      case Err(e) => Err(e)
      case Ok(f) => Ok((f, stream[header + n..]))
  }

  // ------------------------------------------------------------- exact inverses

  lemma EndpointRoundTrip(utf8: Utf8, e: Endpoint, rest: seq<byte>)
    requires WellTyped(utf8, e) && EncodeEndpoint(e).Ok?
    ensures var s := EncodeEndpoint(e).value; DecodeEndpoint(utf8, s + rest) == Ok((e, |s|))
  {
    hide Port, ReadPort;
    var s := EncodeEndpoint(e).value;
    PortLaws(e.port, []);
    match e
    case V4(ip, port) => assert (s + rest)[1..5] == ip && (s + rest)[5..7] == Port(port);
    case V6(ip, port) => assert (s + rest)[1..17] == ip && (s + rest)[17..19] == Port(port);
    case Domain(host, port) =>
      assert (s + rest)[2..2 + |host|] == host && (s + rest)[2 + |host|..4 + |host|] == Port(port);
  }

  lemma DecodedEndpointReencodes(utf8: Utf8, s: seq<byte>)
    requires DecodeEndpoint(utf8, s).Ok?
    ensures var (e, n) := DecodeEndpoint(utf8, s).value;
            n <= |s| && WellTyped(utf8, e) && EncodeEndpoint(e) == Ok(s[..n])
  {
    hide Port, ReadPort;
    var (e, n) := DecodeEndpoint(utf8, s).value;
    PortLaws(0, s[n - 2..n]);
    match e
    case V4(ip, _) => assert s[..7] == [s[0]] + s[1..5] + s[5..7];
    case V6(ip, _) => assert s[..19] == [s[0]] + s[1..17] + s[17..19];
    case Domain(host, _) => assert s[..n] == [s[0], s[1]] + s[2..n - 2] + s[n - 2..n];
  }

  /** Exactly the frames whose payload and, for a domain, whose name fit have an encoding. */
  lemma EncodableIff(f: Frame, utf8: Utf8)
    requires WellTyped(utf8, f.endpoint)
    ensures Encode(f).Ok? <==> |f.payload| <= MAX_UDP_PAYLOAD && (f.endpoint.Domain? ==> 1 <= |f.endpoint.host| <= 248)
    ensures Encode(f).Ok? ==> 3 < |Encode(f).value| <= MAX_WRITE_BATCH
  {
  }

  /** What encodes decodes to the same value, and a stream reader consumes exactly that frame. */
  lemma EncodedFrameReadsBack(utf8: Utf8, f: Frame, rest: seq<byte>)
    requires WellTyped(utf8, f.endpoint) && Encode(f).Ok?
    ensures Decode(utf8, Encode(f).value) == Ok(f)
    ensures ReadFrom(utf8, Encode(f).value + rest) == Ok((f, rest))
  {
    hide EncodeEndpoint, DecodeEndpoint, Port, ReadPort;
    var s, address := Encode(f).value, EncodeEndpoint(f.endpoint).value;
    var header := 3 + |address|;
    PortLaws(|f.payload|, []);
    EndpointRoundTrip(utf8, f.endpoint, []);
    assert address + [] == address;
    assert s[..2] == Port(|f.payload|) && s[2] == header && s[3..header] == address && s[header..] == f.payload;
    var all := s + rest;
    assert all[..2] == s[..2] && all[2] == s[2] && all[..header + |f.payload|] == s && all[header + |f.payload|..] == rest;
  }

  /** What decodes re-encodes to the same bytes. */
  lemma DecodedFrameReencodes(utf8: Utf8, s: seq<byte>)
    requires Decode(utf8, s).Ok?
    ensures WellTyped(utf8, Decode(utf8, s).value.endpoint) && Encode(Decode(utf8, s).value) == Ok(s)
  {
    hide EncodeEndpoint, DecodeEndpoint, Port, ReadPort, WellTyped;
    var f, header := Decode(utf8, s).value, s[2];
    DecodedEndpointReencodes(utf8, s[3..header]);
    PortLaws(0, s[..2]);
    assert s[3..header][..header - 3] == s[3..header];
    assert |f.payload| == ReadPort(s[..2]);
    assert s == s[..2] + [s[2]] + s[3..header] + s[header..];
  }

  predicate StartsWith(utf8: Utf8, s: seq<byte>, f: Frame, rest: seq<byte>) {
    WellTyped(utf8, f.endpoint) && Encode(f).Ok? && s == Encode(f).value + rest
  }

  /** The streaming reader accepts exactly the streams that start with an encoded frame, and returns
      that frame and what follows it. */
  lemma ReaderTakesOneFrame(utf8: Utf8, s: seq<byte>)
    ensures ReadFrom(utf8, s).Ok? <==> exists f: Frame, rest: seq<byte> :: StartsWith(utf8, s, f, rest)
    ensures ReadFrom(utf8, s).Ok? ==> StartsWith(utf8, s, ReadFrom(utf8, s).value.0, ReadFrom(utf8, s).value.1)
  {
    hide Decode, Encode, WellTyped;
    if ReadFrom(utf8, s).Ok? {
      var n := s[2] + ReadPort(s[..2]);
      DecodedFrameReencodes(utf8, s[..n]);
      assert s == s[..n] + s[n..];
      assert StartsWith(utf8, s, ReadFrom(utf8, s).value.0, ReadFrom(utf8, s).value.1);
    }
    if f: Frame, rest: seq<byte> :| StartsWith(utf8, s, f, rest) {
      EncodedFrameReadsBack(utf8, f, rest);
    }
  }

  /** Where everything stands in an encoded frame: the payload length, the header length, the address of
      section 5 of RFC 1928 with its type, the port, the payload; numbers most significant byte first. */
  lemma FrameLayout(utf8: Utf8, f: Frame)
    requires WellTyped(utf8, f.endpoint) && Encode(f).Ok?
    ensures var n, e := |f.payload|, f.endpoint;
            var port := [e.port / 256, e.port % 256];
            Encode(f).value == match e
                               case V4(ip, _) => [n / 256, n % 256, 10, 1] + ip + port + f.payload
                               case V6(ip, _) => [n / 256, n % 256, 22, 4] + ip + port + f.payload
                               case Domain(host, _) => [n / 256, n % 256, 7 + |host|, 3, |host|] + host + port + f.payload
  {
    TwoBytes(|f.payload|);
    TwoBytes(f.endpoint.port);
  }

  /** What is wrong with a damaged frame is what is reported: cut short, followed by more, or with an
      address of no known type or a name that is not UTF-8. */
  lemma DamageIsReported(utf8: Utf8, f: Frame, k: nat, more: seq<byte>)
    requires WellTyped(utf8, f.endpoint) && Encode(f).Ok?
    ensures var s := Encode(f).value;
            && (k < 3 ==> Decode(utf8, s[..k]) == Err(Truncated))
            && (s[2] <= k < |s| ==> Decode(utf8, s[..k]) == Err(LengthMismatch(|s|, k)))
            && (3 <= k < s[2] ==> Decode(utf8, s[..k]) == Err(InvalidHeaderLength(s[2])))
            && (more != [] ==> Decode(utf8, s + more) == Err(LengthMismatch(|s|, |s| + |more|)))
  {
    hide EncodeEndpoint, DecodeEndpoint, Port, ReadPort;
    var s, address := Encode(f).value, EncodeEndpoint(f.endpoint).value;
    PortLaws(|f.payload|, []);
    assert s[..2] == Port(|f.payload|) && s[2] == 3 + |address|;
    if 3 <= k <= |s| { assert s[..k][..2] == s[..2] && s[..k][2] == s[2]; }
    assert (s + more)[..2] == s[..2] && (s + more)[2] == s[2];
  }

  lemma BadAddressIsReported(utf8: Utf8, s: seq<byte>)
    requires s != []
    ensures s[0] != 1 && s[0] != 3 && s[0] != 4 ==> DecodeEndpoint(utf8, s) == Err(UnsupportedAddressType(s[0]))
    ensures s[0] == 3 && |s| >= 2 && (s[1] == 0 || |s| - 4 < s[1]) ==> DecodeEndpoint(utf8, s) == Err(InvalidDomainLength(s[1]))
    ensures s[0] == 3 && |s| >= 2 && s[1] > 0 && |s| - 4 >= s[1] && !utf8(s[2..2 + (s[1] as int)]) ==>
              DecodeEndpoint(utf8, s) == Err(InvalidDomain)
    ensures (s[0] == 1 && |s| < 7) || (s[0] == 4 && |s| < 19) || (s[0] == 3 && |s| < 2) ==> DecodeEndpoint(utf8, s) == Err(TruncatedAddress)
  {
  }

  // --------------------------------------------------------------- whole streams

  function EncodeFrame(f: Frame): Option<seq<byte>> {
    match Encode(f) case Ok(s) => Some(s) case Err(_) => None
  }

  function ReadFrame(utf8: Utf8): seq<byte> -> Option<(Frame, seq<byte>)> {
    stream => match ReadFrom(utf8, stream) case Ok(r) => Some(r) case Err(_) => None
  }

  lemma FramesAreSelfDelimiting(utf8: Utf8, f: Frame)
    requires WellTyped(utf8, f.endpoint)
    ensures SelfDelimiting(EncodeFrame, ReadFrame(utf8), f) && WithinBatch(EncodeFrame, f)
  {
    if Encode(f).Ok? {
      EncodableIff(f, utf8);
      forall rest: seq<byte> ensures ReadFrame(utf8)(EncodeFrame(f).value + rest) == Some((f, rest)) {
        EncodedFrameReadsBack(utf8, f, rest);
      }
    }
  }

  /** What the relay queues: a datagram received from a socket address. */
  predicate FromSocket(f: Frame) { !f.endpoint.Domain? && |f.payload| <= MAX_UDP_PAYLOAD }

  /** The reply writer on HEV frames: its output is exactly the in-order encodings of the replies
      it did not drop, in batches within the bound, and a reader gets those replies back. Replies from
      sockets never end it. */
  method WriteHevReplies(groups: seq<seq<Reply<Frame>>>, utf8: Utf8)
    returns (batches: seq<Batch>, ok: bool, sent: seq<Reply<Frame>>)
    requires forall r :: r in Concat(groups) ==> WellTyped(utf8, r.frame.endpoint)
    ensures forall i :: 0 <= i < |batches| ==> BatchOk(batches[i])
    ensures sent <= Concat(groups) && (ok ==> sent == Concat(groups))
    ensures ok <==> forall r :: r in Concat(groups) ==> r.tooOld || Encode(r.frame).Ok?
    ensures Written(batches) == EncodeAll(KeptFrames(sent), EncodeFrame)
    ensures ReadAll(Written(batches), ReadFrame(utf8)) == Some(KeptFrames(sent))
    ensures !ok ==> exists i :: LosesOnlyTheOpenBatch(batches, Concat(groups), i, EncodeFrame)
    ensures (forall r :: r in Concat(groups) ==> FromSocket(r.frame)) ==> ok
  {
    forall r | r in Concat(groups) ensures SelfDelimiting(EncodeFrame, ReadFrame(utf8), r.frame) && WithinBatch(EncodeFrame, r.frame) {
      FramesAreSelfDelimiting(utf8, r.frame);
    }
    batches, ok, sent := WriteReplies(groups, EncodeFrame, ReadFrame(utf8));
    if forall r :: r in Concat(groups) ==> FromSocket(r.frame) {
      forall r | r in Concat(groups) ensures Encode(r.frame).Ok? { EncodableIff(r.frame, utf8); }
    }
  }
}
