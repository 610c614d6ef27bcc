/**
 * The server's request decoder (server/protocol/requests.py). A request is
 * a 23-byte header (16-byte client id, version, code, payload size, all
 * integers little-endian) followed by a payload whose layout depends on the
 * code. Text fields are UTF-8 decoded and then stripped of NUL characters at
 * both ends; the file payload's integers are big-endian.
 */
module Requests {
  import opened Bytes

  const CLIENT_ID_SIZE := 16
  const NAME_SIZE := 255
  const KEY_SIZE := 160
  const HEADER_SIZE := CLIENT_ID_SIZE + 7

  datatype RequestCode =
    | REGISTER | SEND_RSA_PUBLIC_KEY | LOGIN | SEND_FILE
    | CRC_OK | CRC_FAIL_TRY_AGAIN | CRC_FAIL_SHUT_DOWN
  {
    function Value(): u16
    {
      match this
      case REGISTER => 825
      case SEND_RSA_PUBLIC_KEY => 826
      case LOGIN => 827
      case SEND_FILE => 828
      case CRC_OK => 900
      case CRC_FAIL_TRY_AGAIN => 901
      case CRC_FAIL_SHUT_DOWN => 902
    }
  }

  /** The enum member whose value is `v`, if any. */
  function CodeOfValue(v: int): (r: Option<RequestCode>)
    ensures r.Some? ==> r.value.Value() == v
    ensures r.None? ==> forall c: RequestCode :: c.Value() != v
  {
    if v == 825 then Some(REGISTER)
    else if v == 826 then Some(SEND_RSA_PUBLIC_KEY)
    else if v == 827 then Some(LOGIN)
    else if v == 828 then Some(SEND_FILE)
    else if v == 900 then Some(CRC_OK)
    else if v == 901 then Some(CRC_FAIL_TRY_AGAIN)
    else if v == 902 then Some(CRC_FAIL_SHUT_DOWN)
    else None
  }

  /** Distinct members have distinct values, so a value names at most one member. */
  lemma CodeValuesDistinct(c: RequestCode, d: RequestCode)
    ensures c.Value() == d.Value() ==> c == d
    ensures CodeOfValue(c.Value()) == Some(c)
  {
  }

  /** The exceptions a decoder can raise. */
  datatype RequestError =
    | UnicodeDecodeError
    | StructError                  // `struct.error`: the slice is not the unpacked width
    | UnknownPayloadCode(code: int) // `ValueError` from the payload factory

  /** `b.decode('utf-8').strip('\x00')`. */
  function Text(b: seq<byte>): (r: Result<string, RequestError>)
    ensures r.Err? <==> Utf8Decode(b).None?
    ensures r.Err? ==> r.error == UnicodeDecodeError
    ensures r.Ok? ==> NoNulEnds(r.value) && r.value == StripNul(Utf8Decode(b).value)
  {
    match Utf8Decode(b)
    case None => Err(UnicodeDecodeError)
    case Some(s) => Ok(StripNul(s))
  }

  /**
   * `struct.unpack` of one unsigned integer of `w` bytes: the buffer must be
   * exactly `w` bytes long.
   */
  function Unpack(b: seq<byte>, w: nat, bigEndian: bool): (r: Result<nat, RequestError>)
    ensures r.Ok? <==> |b| == w
    ensures r.Err? ==> r.error == StructError
    ensures r.Ok? ==> r.value < Pow256(w)
    ensures r.Ok? && bigEndian ==> EncodeBE(r.value, w) == b
    ensures r.Ok? && !bigEndian ==> EncodeLE(r.value, w) == b
  {
    if |b| != w then Err(StructError)
    else if bigEndian then
      DecodeBEBound(b);
      EncodeDecodeBE(b);
      Ok(DecodeBE(b))
    else
      DecodeLEBound(b);
      EncodeDecodeLE(b);
      Ok(DecodeLE(b))
  }

  lemma {:induction false} EncodeDecodeLE(s: seq<byte>)
    ensures EncodeLE(DecodeLE(s), |s|) == s
  {
    if s != [] {
      EncodeDecodeLE(s[1..]);
      assert (s[0] + 256 * DecodeLE(s[1..])) / 256 == DecodeLE(s[1..]);
      assert [s[0]] + s[1..] == s;
    }
  }

  lemma Pow256Small()
    ensures Pow256(1) == 0x100 && Pow256(2) == 0x1_0000 && Pow256(4) == 0x1_0000_0000
  {
    assert Pow256(1) == 0x100;
    assert Pow256(2) == 0x1_0000;
    assert Pow256(3) == 0x100_0000;
  }

  // ---------------------------------------------------------------------
  // Header

  datatype RequestHeader = RequestHeader(clientId: string, code: u16, payloadSize: u32, version: byte)

  /**
   * `RequestHeader.deserialize_header`: the id is decoded first, then the
   * version, the code and the size are unpacked in that order, each from a
   * slice that is one, two or four bytes only when the data reaches its end.
   */
  function DeserializeHeader(data: seq<byte>): (r: Result<RequestHeader, RequestError>)
    ensures r.Err? <==> Utf8Decode(Slice(data, 0, CLIENT_ID_SIZE)).None? || |data| < HEADER_SIZE
    ensures Utf8Decode(Slice(data, 0, CLIENT_ID_SIZE)).None? ==> r == Err(UnicodeDecodeError)
    ensures Utf8Decode(Slice(data, 0, CLIENT_ID_SIZE)).Some? && |data| < HEADER_SIZE ==> r == Err(StructError)
    ensures r.Ok? ==> r.value.clientId == Text(data[..CLIENT_ID_SIZE]).value
    ensures r.Ok? ==> EncodeLE(r.value.version, 1) == data[16..17]
                      && EncodeLE(r.value.code, 2) == data[17..19]
                      && EncodeLE(r.value.payloadSize, 4) == data[19..23]
  {
    Pow256Small();
    var clientId :- Text(Slice(data, 0, CLIENT_ID_SIZE));
    var version :- Unpack(Slice(data, CLIENT_ID_SIZE, CLIENT_ID_SIZE + 1), 1, false);
    var code :- Unpack(Slice(data, CLIENT_ID_SIZE + 1, CLIENT_ID_SIZE + 3), 2, false);
    var payloadSize :- Unpack(Slice(data, CLIENT_ID_SIZE + 3, CLIENT_ID_SIZE + 7), 4, false);
    Ok(RequestHeader(clientId, code, payloadSize, version))
  }

  /** A text written into a field of `width` bytes: its UTF-8 bytes, then zero bytes. */
  function PadField(s: string, width: nat): (r: seq<byte>)
    requires |Utf8Encode(s)| <= width
    ensures |r| == width
  {
    Utf8Encode(s) + Zeros(width - |Utf8Encode(s)|)
  }

  /** A padded field decodes back to its text when the text has no NUL at either end. */
  lemma PadFieldText(s: string, width: nat)
    requires |Utf8Encode(s)| <= width && NoNulEnds(s)
    ensures Text(PadField(s, width)) == Ok(s)
  {
    var k := width - |Utf8Encode(s)|;
    Utf8EncodeNuls(k);
    Utf8EncodeAppend(s, Nuls(k));
    Utf8RoundTrip(s + Nuls(k));
    StripNulPadded(s, k);
  }

  /** The header a well-behaved client sends: the id padded to 16 bytes, then the little-endian fields. */
  function EncodeHeader(h: RequestHeader): (r: seq<byte>)
    requires |Utf8Encode(h.clientId)| <= CLIENT_ID_SIZE
    ensures |r| == HEADER_SIZE
  {
    PadField(h.clientId, CLIENT_ID_SIZE) + EncodeLE(h.version, 1) + EncodeLE(h.code, 2) + EncodeLE(h.payloadSize, 4)
  }

  /** Decoding an encoded header, with anything after it, gives the header back. */
  lemma HeaderRoundTrip(h: RequestHeader, rest: seq<byte>)
    requires |Utf8Encode(h.clientId)| <= CLIENT_ID_SIZE && NoNulEnds(h.clientId)
    ensures DeserializeHeader(EncodeHeader(h) + rest) == Ok(h)
  {
    var data := EncodeHeader(h) + rest;
    var id := PadField(h.clientId, CLIENT_ID_SIZE);
    assert data[..16] == id;
    assert data[16..17] == EncodeLE(h.version, 1);
    assert data[17..19] == EncodeLE(h.code, 2);
    assert data[19..23] == EncodeLE(h.payloadSize, 4);
    PadFieldText(h.clientId, CLIENT_ID_SIZE);
    Pow256Small();
    DecodeEncodeLE(h.version, 1);
    DecodeEncodeLE(h.code, 2);
    DecodeEncodeLE(h.payloadSize, 4);
  }

  // ---------------------------------------------------------------------
  // Payloads

  datatype RequestPayload =
    | RegisterPayload(name: string)
    | SendKeyPayload(name: string, publicKey: string)
    | LoginPayload(name: string)
    | SendFilePayload(contentSize: u32, originalFileSize: u32, packetNumber: u16, totalPackets: u16,
                      fileName: string, messageContent: string)
    | ChecksumCorrectPayload(name: string)
    | ChecksumFailedPayload(name: string)
    | ChecksumShutDownPayload(name: string)
  {
    /** The request code whose decoder builds this kind of payload. */
    function Code(): RequestCode
    {
      match this
      case RegisterPayload(_) => REGISTER
      case SendKeyPayload(_, _) => SEND_RSA_PUBLIC_KEY
      case LoginPayload(_) => LOGIN
      case SendFilePayload(_, _, _, _, _, _) => SEND_FILE
      case ChecksumCorrectPayload(_) => CRC_OK
      case ChecksumFailedPayload(_) => CRC_FAIL_TRY_AGAIN
      case ChecksumShutDownPayload(_) => CRC_FAIL_SHUT_DOWN
    }
  }

  /** The name field: the first NAME_SIZE bytes of the payload. */
  function Name(data: seq<byte>): (r: Result<string, RequestError>)
    ensures r.Err? ==> r.error == UnicodeDecodeError
    ensures r.Ok? ==> NoNulEnds(r.value)
    ensures |data| >= NAME_SIZE ==> r == Text(data[..NAME_SIZE])
  {
    Text(Slice(data, 0, NAME_SIZE))
  }

  /** A name field followed by anything decodes to the name: bytes past the field are never read. */
  lemma NameRoundTrip(name: string, rest: seq<byte>)
    requires |Utf8Encode(name)| <= NAME_SIZE && NoNulEnds(name)
    ensures Name(PadField(name, NAME_SIZE) + rest) == Ok(name)
  {
    assert (PadField(name, NAME_SIZE) + rest)[..NAME_SIZE] == PadField(name, NAME_SIZE);
    PadFieldText(name, NAME_SIZE);
  }

  function DecodeRegister(data: seq<byte>): (r: Result<RequestPayload, RequestError>)
    ensures r.Ok? ==> r.value.Code() == REGISTER
    ensures r.Ok? <==> Name(data).Ok?
    ensures r.Err? ==> r.error == UnicodeDecodeError
    ensures r.Ok? ==> r.value == RegisterPayload(Name(data).value)
  {
    var name :- Name(data);
    Ok(RegisterPayload(name))
  }

  /** The name, then the key in the next KEY_SIZE bytes; the name is decoded first. */
  function DecodeSendKey(data: seq<byte>): (r: Result<RequestPayload, RequestError>)
    ensures r.Ok? ==> r.value.Code() == SEND_RSA_PUBLIC_KEY
    ensures Name(data).Err? ==> r == Err(UnicodeDecodeError)
    ensures r.Err? ==> r.error == UnicodeDecodeError
    ensures r.Ok? <==> Name(data).Ok? && Text(Slice(data, NAME_SIZE, NAME_SIZE + KEY_SIZE)).Ok?
    ensures r.Ok? ==> r.value.SendKeyPayload? && r.value.name == Name(data).value
                      && r.value.publicKey == Text(Slice(data, NAME_SIZE, NAME_SIZE + KEY_SIZE)).value
  {
    var name :- Name(data);
    var publicKey :- Text(Slice(data, NAME_SIZE, NAME_SIZE + KEY_SIZE));
    Ok(SendKeyPayload(name, publicKey))
  }

  /** A padded name followed by a padded key decodes to both, whatever follows them. */
  lemma {:induction false} SendKeyRoundTrip(name: string, publicKey: string, rest: seq<byte>)
    requires |Utf8Encode(name)| <= NAME_SIZE && NoNulEnds(name)
    requires |Utf8Encode(publicKey)| <= KEY_SIZE && NoNulEnds(publicKey)
    ensures DecodeSendKey(PadField(name, NAME_SIZE) + PadField(publicKey, KEY_SIZE) + rest)
            == Ok(SendKeyPayload(name, publicKey))
  {
    var key := PadField(publicKey, KEY_SIZE);
    var data := PadField(name, NAME_SIZE) + key + rest;
    assert data == PadField(name, NAME_SIZE) + (key + rest);
    NameRoundTrip(name, key + rest);
    assert Slice(data, NAME_SIZE, NAME_SIZE + KEY_SIZE) == key;
    PadFieldText(publicKey, KEY_SIZE);
  }

  function DecodeLogin(data: seq<byte>): (r: Result<RequestPayload, RequestError>)
    ensures r.Ok? ==> r.value.Code() == LOGIN
    ensures r.Ok? <==> Name(data).Ok?
    ensures r.Err? ==> r.error == UnicodeDecodeError
    ensures r.Ok? ==> r.value == LoginPayload(Name(data).value)
  {
    var name :- Name(data);
    Ok(LoginPayload(name))
  }

  /**
   * The file payload: four big-endian integers in the first 12 bytes, the
   * file name in the next NAME_SIZE bytes, and the rest of the payload as
   * text. A payload shorter than 12 bytes makes an unpack fail.
   */
  function DecodeSendFile(data: seq<byte>): (r: Result<RequestPayload, RequestError>)
    ensures r.Ok? ==> r.value.Code() == SEND_FILE
    ensures |data| < 12 ==> r == Err(StructError)
    ensures |data| >= 12 && r.Err? ==> r.error == UnicodeDecodeError
    ensures r.Ok? <==> |data| >= 12 && Text(Slice(data, 12, 12 + NAME_SIZE)).Ok? && Text(Drop(data, 12 + NAME_SIZE)).Ok?
    ensures r.Ok? ==> r.value.SendFilePayload?
                      && EncodeBE(r.value.contentSize, 4) == data[..4]
                      && EncodeBE(r.value.originalFileSize, 4) == data[4..8]
                      && EncodeBE(r.value.packetNumber, 2) == data[8..10]
                      && EncodeBE(r.value.totalPackets, 2) == data[10..12]
  {
    Pow256Small();
    var contentSize :- Unpack(Slice(data, 0, 4), 4, true);
    var originalFileSize :- Unpack(Slice(data, 4, 8), 4, true);
    var packetNumber :- Unpack(Slice(data, 8, 10), 2, true);
    var totalPackets :- Unpack(Slice(data, 10, 12), 2, true);
    var fileName :- Text(Slice(data, 12, 12 + NAME_SIZE));
    var messageContent :- Text(Drop(data, 12 + NAME_SIZE));
    Ok(SendFilePayload(contentSize, originalFileSize, packetNumber, totalPackets, fileName, messageContent))
  }

  /** The file name is the decoded field at bytes 12 to 266 (fewer when the payload is shorter), and the content is every later byte, decoded. */
  lemma SendFileTexts(data: seq<byte>)
    requires DecodeSendFile(data).Ok?
    ensures DecodeSendFile(data).value.fileName == Text(Slice(data, 12, 12 + NAME_SIZE)).value
    ensures DecodeSendFile(data).value.messageContent == Text(Drop(data, 12 + NAME_SIZE)).value
  {
  }

  /** The file payload a well-behaved sender writes, in the layout the decoder reads. */
  function EncodeSendFile(p: RequestPayload): (r: seq<byte>)
    requires p.SendFilePayload? && |Utf8Encode(p.fileName)| <= NAME_SIZE
    ensures |r| == 12 + NAME_SIZE + |Utf8Encode(p.messageContent)|
  {
    EncodeBE(p.contentSize, 4) + EncodeBE(p.originalFileSize, 4)
    + EncodeBE(p.packetNumber, 2) + EncodeBE(p.totalPackets, 2)
    + PadField(p.fileName, NAME_SIZE) + Utf8Encode(p.messageContent)
  }

  /** Decoding an encoded file payload gives it back when its texts have no NUL at either end. */
  lemma SendFileRoundTrip(p: RequestPayload)
    requires p.SendFilePayload? && |Utf8Encode(p.fileName)| <= NAME_SIZE
    requires NoNulEnds(p.fileName) && NoNulEnds(p.messageContent)
    ensures DecodeSendFile(EncodeSendFile(p)) == Ok(p)
  {
    var data := EncodeSendFile(p);
    assert data[..4] == EncodeBE(p.contentSize, 4);
    assert data[4..8] == EncodeBE(p.originalFileSize, 4);
    assert data[8..10] == EncodeBE(p.packetNumber, 2);
    assert data[10..12] == EncodeBE(p.totalPackets, 2);
    assert data[12..12 + NAME_SIZE] == PadField(p.fileName, NAME_SIZE);
    assert data[12 + NAME_SIZE..] == Utf8Encode(p.messageContent);
    Pow256Small();
    DecodeEncodeBE(p.contentSize, 4);
    DecodeEncodeBE(p.originalFileSize, 4);
    DecodeEncodeBE(p.packetNumber, 2);
    DecodeEncodeBE(p.totalPackets, 2);
    PadFieldText(p.fileName, NAME_SIZE);
    Utf8RoundTrip(p.messageContent);
    StripNulNoNulEnds(p.messageContent);
  }

  function DecodeChecksumCorrect(data: seq<byte>): (r: Result<RequestPayload, RequestError>)
    ensures r.Ok? ==> r.value.Code() == CRC_OK
    ensures r.Ok? <==> Name(data).Ok?
    ensures r.Err? ==> r.error == UnicodeDecodeError
    ensures r.Ok? ==> r.value == ChecksumCorrectPayload(Name(data).value)
  {
    var name :- Name(data);
    Ok(ChecksumCorrectPayload(name))
  }

  function DecodeChecksumFailed(data: seq<byte>): (r: Result<RequestPayload, RequestError>)
    ensures r.Ok? ==> r.value.Code() == CRC_FAIL_TRY_AGAIN
    ensures r.Ok? <==> Name(data).Ok?
    ensures r.Err? ==> r.error == UnicodeDecodeError
    ensures r.Ok? ==> r.value == ChecksumFailedPayload(Name(data).value)
  {
    var name :- Name(data);
    Ok(ChecksumFailedPayload(name))
  }

  function DecodeChecksumShutDown(data: seq<byte>): (r: Result<RequestPayload, RequestError>)
    ensures r.Ok? ==> r.value.Code() == CRC_FAIL_SHUT_DOWN
    ensures r.Ok? <==> Name(data).Ok?
    ensures r.Err? ==> r.error == UnicodeDecodeError
    ensures r.Ok? ==> r.value == ChecksumShutDownPayload(Name(data).value)
  {
    var name :- Name(data);
    Ok(ChecksumShutDownPayload(name))
  }

  /**
   * `RequestPayloadFactory.deserialize_payload`: dispatch on the code; a code
   * that is no request code raises `ValueError`, and a payload of the right
   * kind is built for every other code.
   */
  function DeserializePayload(code: int, data: seq<byte>): (r: Result<RequestPayload, RequestError>)
    ensures r == Err(UnknownPayloadCode(code)) <==> CodeOfValue(code).None?
    ensures r.Ok? ==> r.value.Code().Value() == code
    ensures r.Err? && CodeOfValue(code).Some? ==> r.error != UnknownPayloadCode(code)
    ensures CodeOfValue(code) == Some(REGISTER) ==> r == DecodeRegister(data)
    ensures CodeOfValue(code) == Some(SEND_RSA_PUBLIC_KEY) ==> r == DecodeSendKey(data)
    ensures CodeOfValue(code) == Some(LOGIN) ==> r == DecodeLogin(data)
    ensures CodeOfValue(code) == Some(SEND_FILE) ==> r == DecodeSendFile(data)
    ensures CodeOfValue(code) == Some(CRC_OK) ==> r == DecodeChecksumCorrect(data)
    ensures CodeOfValue(code) == Some(CRC_FAIL_TRY_AGAIN) ==> r == DecodeChecksumFailed(data)
    ensures CodeOfValue(code) == Some(CRC_FAIL_SHUT_DOWN) ==> r == DecodeChecksumShutDown(data)
  {
    match CodeOfValue(code)
    case None => Err(UnknownPayloadCode(code))
    case Some(REGISTER) => DecodeRegister(data)
    case Some(SEND_RSA_PUBLIC_KEY) => DecodeSendKey(data)
    case Some(LOGIN) => DecodeLogin(data)
    case Some(SEND_FILE) => DecodeSendFile(data)
    case Some(CRC_OK) => DecodeChecksumCorrect(data)
    case Some(CRC_FAIL_TRY_AGAIN) => DecodeChecksumFailed(data)
    case Some(CRC_FAIL_SHUT_DOWN) => DecodeChecksumShutDown(data)
  }

  /** For every name-only request, a padded name decodes to a payload of the code's kind carrying the name. */
  lemma NamePayloadRoundTrip(c: RequestCode, name: string, rest: seq<byte>)
    requires c != SEND_RSA_PUBLIC_KEY && c != SEND_FILE
    requires |Utf8Encode(name)| <= NAME_SIZE && NoNulEnds(name)
    ensures var r := DeserializePayload(c.Value(), PadField(name, NAME_SIZE) + rest);
            r.Ok? && r.value.Code() == c && r.value.name == name
  {
    var data := PadField(name, NAME_SIZE) + rest;
    NameRoundTrip(name, rest);
    CodeValuesDistinct(c, c);
    var r := DeserializePayload(c.Value(), data);
    match c
    case REGISTER => assert r == DecodeRegister(data);
    case LOGIN => assert r == DecodeLogin(data);
    case CRC_OK => assert r == DecodeChecksumCorrect(data);
    case CRC_FAIL_TRY_AGAIN => assert r == DecodeChecksumFailed(data);
    case CRC_FAIL_SHUT_DOWN => assert r == DecodeChecksumShutDown(data);
  }
}
