/** The GNR4 control protocol (protocol.rs): its frame codec, the streaming reader, and the text form
    of session ids (the UUID form of section 3 of RFC 4122). */
module Gnr4 {
  import opened Base
  import opened Wire

  const MAGIC: seq<byte> := [71, 78, 82, 52]   // "GNR4"
  const VERSION: nat := 4
  const HEADER_LEN: nat := 28
  const MAX_PAYLOAD: nat := 64 * 1024

  type SessionId = s: seq<byte> | |s| == 16 witness [0, 0, 0, 0, 0, 0, 0, 0, 0, 0, 0, 0, 0, 0, 0, 0]

  const ZERO: SessionId := [0, 0, 0, 0, 0, 0, 0, 0, 0, 0, 0, 0, 0, 0, 0, 0]

  datatype MessageType =
    Hello | HelloAck | Started | Heartbeat | Stop | Stopped | Status | Error | Suspend | Suspended | Metrics

  function Code(t: MessageType): (n: nat)
    ensures 1 <= n <= 11
  {
    match t
    case Hello => 1 case HelloAck => 2 case Started => 3 case Heartbeat => 4 case Stop => 5 case Stopped => 6
    case Status => 7 case Error => 8 case Suspend => 9 case Suspended => 10 case Metrics => 11
  }

  function TypeOf(n: nat): (t: Option<MessageType>)
    ensures t.Some? <==> 1 <= n <= 11
    ensures t.Some? ==> Code(t.value) == n
  {
    match n
    case 1 => Some(Hello) case 2 => Some(HelloAck) case 3 => Some(Started) case 4 => Some(Heartbeat)
    case 5 => Some(Stop) case 6 => Some(Stopped) case 7 => Some(Status) case 8 => Some(Error)
    case 9 => Some(Suspend) case 10 => Some(Suspended) case 11 => Some(Metrics)
    case _ => None
  }

  datatype Frame = Frame(kind: MessageType, session: SessionId, payload: seq<byte>)

  datatype ProtocolError =
    | BadMagic | PayloadTooLarge(len: nat) | TruncatedHeader(len: nat) | TruncatedPayload(expected: nat, actual: nat)
    | TrailingBytes(len: nat) | UnknownMessageType(code: nat) | UnsupportedVersion(version: nat) | UnexpectedEof
    | InvalidSessionId

  function Header(f: Frame): (h: seq<byte>)
    requires |f.payload| <= MAX_PAYLOAD
    ensures |h| == HEADER_LEN
  {
    Widths();
    MAGIC + BE(VERSION, 2) + BE(Code(f.kind), 2) + BE(|f.payload|, 4) + f.session
  }

  function Encode(f: Frame): Result<seq<byte>, ProtocolError> {
    if |f.payload| > MAX_PAYLOAD then Err(PayloadTooLarge(|f.payload|)) else Ok(Header(f) + f.payload)
  }

  function Decode(s: seq<byte>): Result<Frame, ProtocolError> {
    if |s| < HEADER_LEN then Err(TruncatedHeader(|s|))
    else if s[..4] != MAGIC then Err(BadMagic)
    else if FromBE(s[4..6]) != VERSION then Err(UnsupportedVersion(FromBE(s[4..6])))
    else
      var kind := TypeOf(FromBE(s[6..8]));
      if kind == None then Err(UnknownMessageType(FromBE(s[6..8]))) else
      var n := FromBE(s[8..12]);
      if n > MAX_PAYLOAD then Err(PayloadTooLarge(n))
      else if |s| < HEADER_LEN + n then Err(TruncatedPayload(n, |s| - HEADER_LEN))
      else if |s| != HEADER_LEN + n then Err(TrailingBytes(|s| - HEADER_LEN - n))
      else Ok(Frame(kind.value, s[12..28], s[28..]))
  }

  /** Reads one frame off a stream and returns what follows it. */
  function ReadFrom(s: seq<byte>): Result<(Frame, seq<byte>), ProtocolError> {
    if |s| < HEADER_LEN then Err(UnexpectedEof)
    else if s[..4] != MAGIC then Err(BadMagic)
    else if FromBE(s[4..6]) != VERSION then Err(UnsupportedVersion(FromBE(s[4..6])))
    else
      var n := FromBE(s[8..12]);
      if n > MAX_PAYLOAD then Err(PayloadTooLarge(n))
      else if |s| < HEADER_LEN + n then Err(UnexpectedEof)
      else match Decode(s[..HEADER_LEN + n])
        case Err(e) => Err(e)
        case Ok(f) => Ok((f, s[HEADER_LEN + n..]))
  }

  /** The parts of an encoded header, read back. */
  lemma HeaderParts(f: Frame, tail: seq<byte>)
    requires |f.payload| <= MAX_PAYLOAD
    ensures var s := Header(f) + tail;
            && s[..4] == MAGIC && FromBE(s[4..6]) == VERSION && FromBE(s[6..8]) == Code(f.kind)
            && FromBE(s[8..12]) == |f.payload| && s[12..28] == f.session && s[28..] == tail
  {
    hide BE, FromBE, Pow256, Code;
    Widths();
    var s := Header(f) + tail;
    assert s[..4] == MAGIC && s[12..28] == f.session && s[28..] == tail;
    assert s[4..6] == BE(VERSION, 2) && s[6..8] == BE(Code(f.kind), 2) && s[8..12] == BE(|f.payload|, 4);
    DecodeEncode(VERSION, 2);
    DecodeEncode(Code(f.kind), 2);
    DecodeEncode(|f.payload|, 4);
  }

  lemma TypeOfCode(t: MessageType)
    ensures TypeOf(Code(t)) == Some(t)
  {
  }

  lemma EncodedFrameDecodes(f: Frame)
    requires Encode(f).Ok?
    ensures Decode(Encode(f).value) == Ok(f)
  {
    hide Header, FromBE, Code, TypeOf;
    HeaderParts(f, f.payload);
    TypeOfCode(f.kind);
  }

  /** What encodes decodes to the same value, and a stream reader consumes exactly that frame. */
  lemma EncodedFrameReadsBack(f: Frame, rest: seq<byte>)
    requires Encode(f).Ok?
    ensures Decode(Encode(f).value) == Ok(f)
    ensures ReadFrom(Encode(f).value + rest) == Ok((f, rest))
  {
    hide Header, FromBE, Decode;
    var s := Encode(f).value;
    EncodedFrameDecodes(f);
    HeaderParts(f, f.payload + rest);
    var all := s + rest;
    assert all == Header(f) + (f.payload + rest);
    assert all[..HEADER_LEN + |f.payload|] == s && all[HEADER_LEN + |f.payload|..] == rest;
  }

  /** What decodes re-encodes to the same bytes. */
  lemma DecodedFrameReencodes(s: seq<byte>)
    requires Decode(s).Ok?
    ensures Encode(Decode(s).value) == Ok(s)
  {
    hide BE, FromBE, Pow256, TypeOf, Code;
    Widths();
    EncodeDecode(s[4..6]);
    EncodeDecode(s[6..8]);
    EncodeDecode(s[8..12]);
    assert s == s[..4] + s[4..6] + s[6..8] + s[8..12] + s[12..28] + s[28..];
  }

  predicate StartsWith(s: seq<byte>, f: Frame, rest: seq<byte>) { Encode(f).Ok? && s == Encode(f).value + rest }

  /** The streaming reader accepts exactly the streams that start with an encoded frame, and returns
      that frame and what follows it. */
  lemma ReaderTakesOneFrame(s: seq<byte>)
    ensures ReadFrom(s).Ok? <==> exists f: Frame, rest: seq<byte> :: StartsWith(s, f, rest)
    ensures ReadFrom(s).Ok? ==> StartsWith(s, ReadFrom(s).value.0, ReadFrom(s).value.1)
  {
    hide Encode, Decode, FromBE;
    if ReadFrom(s).Ok? {
      var n := FromBE(s[8..12]);
      DecodedFrameReencodes(s[..HEADER_LEN + n]);
      assert s == s[..HEADER_LEN + n] + s[HEADER_LEN + n..];
      assert StartsWith(s, ReadFrom(s).value.0, ReadFrom(s).value.1);
    }
    if f: Frame, rest: seq<byte> :| StartsWith(s, f, rest) {
      EncodedFrameReadsBack(f, rest);
    }
  }

  /** The message types in the order of their numbers on the wire, from 1. */
  const MESSAGE_TYPES := [Hello, HelloAck, Started, Heartbeat, Stop, Stopped, Status, Error, Suspend, Suspended, Metrics]

  lemma CodeIsPosition(t: MessageType)
    ensures Code(t) <= |MESSAGE_TYPES| && MESSAGE_TYPES[Code(t) - 1] == t
  {
  }

  /** Where everything stands in an encoded frame: "GNR4", version 4, the type, the payload length most
      significant byte first, the session, the payload. */
  lemma FrameLayout(f: Frame)
    requires |f.payload| <= 65_536
    ensures Encode(f).Ok?
    ensures var s, n := Encode(f).value, |f.payload|;
            && |s| == 28 + n && s[..4] == [71, 78, 82, 52] && s[4..7] == [0, 4, 0]
            && 1 <= s[7] <= 11 && MESSAGE_TYPES[s[7] - 1] == f.kind
            && s[8..12] == [n / 256 / 256 / 256, n / 256 / 256 % 256, n / 256 % 256, n % 256]
            && s[12..28] == f.session && s[28..] == f.payload
  {
    hide BE, Pow256, Code;
    var s, n := Encode(f).value, |f.payload|;
    Widths();
    TwoBytes(VERSION);
    TwoBytes(Code(f.kind));
    FourBytes(n);
    CodeIsPosition(f.kind);
    assert s == MAGIC + BE(VERSION, 2) + BE(Code(f.kind), 2) + BE(n, 4) + f.session + f.payload;
    assert s[4..6] == BE(VERSION, 2) && s[6..8] == BE(Code(f.kind), 2) && s[8..12] == BE(n, 4);
    assert s[4..7] == s[4..6] + [s[6]] && s[6] == BE(Code(f.kind), 2)[0] && s[7] == BE(Code(f.kind), 2)[1];
  }

  /** What is wrong with a damaged frame is what is reported: cut short in the header or in the payload,
      followed by more, or with its magic, version, type or length spoilt. */
  lemma DamageIsReported(f: Frame, k: nat, more: seq<byte>)
    requires Encode(f).Ok?
    ensures var s, n := Encode(f).value, |f.payload|;
            && (k < 28 ==> Decode(s[..k]) == Err(TruncatedHeader(k)))
            && (28 <= k < 28 + n ==> Decode(s[..k]) == Err(TruncatedPayload(n, k - 28)))
            && (more != [] ==> Decode(s + more) == Err(TrailingBytes(|more|)))
  {
    hide FromBE, Code, TypeOf, Header;
    var s, n := Encode(f).value, |f.payload|;
    HeaderParts(f, f.payload);
    TypeOfCode(f.kind);
    if 28 <= k < 28 + n {
      var cut := s[..k];
      assert cut[..4] == s[..4] && cut[4..6] == s[4..6] && cut[6..8] == s[6..8] && cut[8..12] == s[8..12];
    }
    var all := s + more;
    assert all[..4] == s[..4] && all[4..6] == s[4..6] && all[6..8] == s[6..8] && all[8..12] == s[8..12];
  }

  lemma SpoiltHeaderIsReported(s: seq<byte>)
    requires |s| >= 28
    ensures s[..4] != [71, 78, 82, 52] ==> Decode(s) == Err(BadMagic) && ReadFrom(s) == Err(BadMagic)
    ensures s[..4] == [71, 78, 82, 52] && (s[4] != 0 || s[5] != 4) ==>
              Decode(s) == Err(UnsupportedVersion((s[4] as int) * 256 + s[5])) && ReadFrom(s) == Err(UnsupportedVersion((s[4] as int) * 256 + s[5]))
    ensures s[..6] == [71, 78, 82, 52, 0, 4] && !(s[6] == 0 && 1 <= s[7] <= 11) ==>
              Decode(s) == Err(UnknownMessageType((s[6] as int) * 256 + s[7]))
  {
    hide FromBE, TypeOf;
    assert s[4..6] == [s[4], s[5]] && s[6..8] == [s[6], s[7]];
    ReadTwo(s[4], s[5]);
    ReadTwo(s[6], s[7]);
    if s[..6] == [71, 78, 82, 52, 0, 4] { assert s[..4] == s[..6][..4] && s[4] == s[..6][4] && s[5] == s[..6][5]; }
  }

  lemma ReadTwo(a: byte, b: byte)
    ensures FromBE([a, b]) == (a as int) * 256 + b
  {
    assert [a, b][..1] == [a] && [a][..0] == [];
    assert FromBE([]) == 0 && FromBE([a]) == a;
  }

  // ------------------------------------------------------------ session id as text

  const DASH: byte := 45

  predicate IsDashAt(k: nat) { k == 8 || k == 13 || k == 18 || k == 23 }

  /** Which of the 32 hex digits stands at text position `k`, were it not a dash. */
  function DigitIndex(k: nat): (j: int)
    ensures k < 36 && !IsDashAt(k) ==> 0 <= j < 32
  {
    k - (if k > 8 then 1 else 0) - (if k > 13 then 1 else 0) - (if k > 18 then 1 else 0) - (if k > 23 then 1 else 0)
  }

  /** The text position of hex digit `j`. */
  function TextIndex(j: nat): (k: nat)
    ensures j < 32 ==> k < 36 && !IsDashAt(k) && DigitIndex(k) == j
  {
    j + (if j >= 8 then 1 else 0) + (if j >= 12 then 1 else 0) + (if j >= 16 then 1 else 0) + (if j >= 20 then 1 else 0)
  }

  lemma IndexesMatch(k: nat)
    requires k < 36 && !IsDashAt(k)
    ensures TextIndex(DigitIndex(k)) == k
  {
  }

  function HexChar(n: nat): byte
    requires n < 16
  {
    if n < 10 then 48 + n else 87 + n
  }

  function HexValue(b: byte): Option<nat> {
    if 48 <= b <= 57 then Some(b - 48)
    else if 97 <= b <= 102 then Some(b - 87)
    else if 65 <= b <= 70 then Some(b - 55)
    else None
  }

  function Lower(b: byte): byte { if 65 <= b <= 90 then b + 32 else b }

  lemma HexLaws(n: nat, b: byte)
    ensures n < 16 ==> HexValue(HexChar(n)) == Some(n)
    ensures HexValue(b).Some? ==> HexValue(b).value < 16 && HexChar(HexValue(b).value) == Lower(b)
  {
  }

  /** Hex digit `j` of an id: the high half of a byte first. */
  function Nibble(id: SessionId, j: nat): (n: nat)
    requires j < 32
    ensures n < 16
  {
    if j % 2 == 0 then id[j / 2] / 16 else id[j / 2] % 16
  }

  function Display(id: SessionId): (s: seq<byte>)
    ensures |s| == 36
  {
    seq(36, k requires 0 <= k < 36 => if IsDashAt(k) then DASH else HexChar(Nibble(id, DigitIndex(k))))
  }

  predicate WellFormed(s: seq<byte>) {
    |s| == 36 && forall k :: 0 <= k < 36 ==> if IsDashAt(k) then s[k] == DASH else HexValue(s[k]).Some?
  }

  function DigitOf(s: seq<byte>, j: nat): (n: nat)
    requires WellFormed(s) && j < 32
    ensures n < 16
  {
    HexValue(s[TextIndex(j)]).value
  }

  /** Byte `i` of the id written as `s`. */
  function ByteOf(s: seq<byte>, i: nat): byte
    requires WellFormed(s) && i < 16
  {
    DigitOf(s, 2 * i) * 16 + DigitOf(s, 2 * i + 1)
  }

  function FirstBytes(s: seq<byte>, n: nat): (r: seq<byte>)
    requires WellFormed(s) && n <= 16
    ensures |r| == n && forall k :: 0 <= k < n ==> r[k] == ByteOf(s, k)
  {
    if n == 0 then [] else FirstBytes(s, n - 1) + [ByteOf(s, n - 1)]
  }

  function Bytes(s: seq<byte>): SessionId
    requires WellFormed(s)
  {
    FirstBytes(s, 16)
  }

  function Parse(s: seq<byte>): Result<SessionId, ProtocolError> {
    if !WellFormed(s) then Err(InvalidSessionId)
    else
      var id := Bytes(s);
      if id == ZERO then Err(InvalidSessionId) else Ok(id)
  }

  lemma DisplayIsWellFormed(id: SessionId)
    ensures WellFormed(Display(id))
  {
    var s := Display(id);
    forall k | 0 <= k < 36 ensures if IsDashAt(k) then s[k] == DASH else HexValue(s[k]).Some? {
      if !IsDashAt(k) {
        IndexesMatch(k);
        HexLaws(Nibble(id, DigitIndex(k)), 0);
      }
    }
  }

  lemma DisplayedByte(id: SessionId, i: nat)
    requires i < 16 && WellFormed(Display(id))
    ensures ByteOf(Display(id), i) == id[i]
  {
    HexLaws(Nibble(id, 2 * i), 0);
    HexLaws(Nibble(id, 2 * i + 1), 0);
    assert (2 * i + 1) / 2 == i && (2 * i + 1) % 2 == 1 && (2 * i) / 2 == i && (2 * i) % 2 == 0;
  }

  /** Every non-zero id parses back from its text; the zero id is refused. */
  lemma DisplayParsesBack(id: SessionId)
    ensures Parse(Display(id)) == if id == ZERO then Err(InvalidSessionId) else Ok(id)
  {
    DisplayIsWellFormed(id);
    forall i | 0 <= i < 16 ensures Bytes(Display(id))[i] == id[i] { DisplayedByte(id, i); }
    assert Bytes(Display(id)) == id;
  }

  lemma ParsedDigit(s: seq<byte>, id: SessionId, j: nat)
    requires WellFormed(s) && j < 32 && id[j / 2] == ByteOf(s, j / 2)
    ensures Nibble(id, j) == DigitOf(s, j)
  {
    hide DigitOf, WellFormed;
    assert j == 2 * (j / 2) + j % 2;
  }

  lemma ParsedChar(s: seq<byte>, k: nat)
    requires WellFormed(s) && k < 36
    ensures Display(Bytes(s))[k] == Lower(s[k])
  {
    hide Nibble, Bytes;
    if !IsDashAt(k) {
      var j: nat := DigitIndex(k);
      IndexesMatch(k);
      HexLaws(0, s[k]);
      assert Bytes(s)[j / 2] == ByteOf(s, j / 2) by { ParsedByte(s, j / 2); }
      ParsedDigit(s, Bytes(s), j);
    }
  }

  lemma ParsedByte(s: seq<byte>, i: nat)
    requires WellFormed(s) && i < 16
    ensures Bytes(s)[i] == ByteOf(s, i)
  {
    hide WellFormed, ByteOf;
  }

  /** Text that parses prints back as the same text in lower case. */
  lemma ParsedDisplaysLowerCased(s: seq<byte>)
    requires Parse(s).Ok?
    ensures Display(Parse(s).value) == seq(36, k requires 0 <= k < 36 => Lower(s[k]))
  {
    hide Display, Lower;
    forall k | 0 <= k < 36 ensures Display(Bytes(s))[k] == Lower(s[k]) { ParsedChar(s, k); }
  }

  /** Where byte `i` of an id is written. */
  function TextOf(i: nat): nat { 2 * i + (if i < 4 then 0 else if i < 6 then 1 else if i < 8 then 2 else if i < 10 then 3 else 4) }

  const HEX_DIGITS: seq<byte> := [48, 49, 50, 51, 52, 53, 54, 55, 56, 57, 97, 98, 99, 100, 101, 102]

  /** The text of an id: each byte as two lower-case digits, the high half first, and dashes after the
      4th, 6th, 8th and 10th byte. */
  lemma DisplayLayout(id: SessionId, i: nat)
    requires i < 16
    ensures var s := Display(id);
            && s[TextOf(i)] == HEX_DIGITS[id[i] / 16] && s[TextOf(i) + 1] == HEX_DIGITS[id[i] % 16]
            && s[8] == s[13] == s[18] == s[23] == 45
  {
    assert DigitIndex(TextOf(i)) == 2 * i && DigitIndex(TextOf(i) + 1) == 2 * i + 1;
    assert !IsDashAt(TextOf(i)) && !IsDashAt(TextOf(i) + 1);
    assert (2 * i) / 2 == i && (2 * i) % 2 == 0 && (2 * i + 1) / 2 == i && (2 * i + 1) % 2 == 1;
  }

  /** Checks the layout and drops the dashes. */
  method ReadDigits(s: seq<byte>) returns (hex: Option<seq<nat>>)
    ensures hex.Some? <==> WellFormed(s)
    ensures hex.Some? ==> |hex.value| == 32 && forall j: nat :: j < 32 ==> hex.value[j] == DigitOf(s, j)
  {
    if |s| != 36 { return None; }
    var digits: seq<nat> := [];
    for k := 0 to 36
      invariant forall i :: 0 <= i < k ==> if IsDashAt(i) then s[i] == DASH else HexValue(s[i]).Some?
      invariant |digits| == DigitIndex(k)
      invariant forall i :: 0 <= i < k && !IsDashAt(i) ==> 0 <= DigitIndex(i) < |digits| && digits[DigitIndex(i)] == HexValue(s[i]).value
    {
      if IsDashAt(k) {
        if s[k] != DASH { return None; }
      } else {
        if HexValue(s[k]) == None { return None; }
        digits := digits + [HexValue(s[k]).value];
      }
    }
    forall j: nat | j < 32 ensures digits[j] == DigitOf(s, j) { assert DigitIndex(TextIndex(j)) == j; }
    return Some(digits);
  }

  /** `from_str` as written: check the layout, drop the dashes, pair the digits up. */
  method ParseSessionId(s: seq<byte>) returns (r: Result<SessionId, ProtocolError>)
    ensures r == Parse(s)
  {
    var hex := ReadDigits(s);
    if hex == None { return Err(InvalidSessionId); }
    var id: seq<byte> := [];
    for i := 0 to 16
      invariant |id| == i
      invariant forall k :: 0 <= k < i ==> id[k] == ByteOf(s, k)
    {
      assert hex.value[2 * i] == DigitOf(s, 2 * i) && hex.value[2 * i + 1] == DigitOf(s, 2 * i + 1);
      id := id + [hex.value[2 * i] * 16 + hex.value[2 * i + 1]];
    }
    assert id == Bytes(s);
    if id == ZERO { return Err(InvalidSessionId); }
    return Ok(id);
  }
}
