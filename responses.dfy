/**
 * The server's response encoder (server/protocol/responses.py). A response
 * is a 7-byte big-endian header (version, code, payload size) followed by
 * the payload bytes. Payload constructors validate their fields and raise
 * `ValueError`; `struct.pack` raises `struct.error` for a value out of the
 * field's range.
 */
module Responses {
  import opened Bytes

  const CLIENT_ID_SIZE := 16
  const NAME_SIZE := 255
  const HEADER_SIZE := 7

  datatype ResponseCode =
    | REGISTER_OK | REGISTER_FAIL | AES_SEND_KEY | FILE_OK
    | MESSAGE_OK | LOGIN_OK_SEND_AES | LOGIN_FAIL | GENERAL_ERROR
  {
    function Value(): u16
    {
      match this
      case REGISTER_OK => 1600
      case REGISTER_FAIL => 1601
      case AES_SEND_KEY => 1602
      case FILE_OK => 1603
      case MESSAGE_OK => 1604
      case LOGIN_OK_SEND_AES => 1605
      case LOGIN_FAIL => 1606
      case GENERAL_ERROR => 1607
    }
  }

  /**
   * What a header's `response_code` attribute holds: an enum member, or a
   * plain integer such as `ResponseCode.REGISTER_OK.value`, which has no
   * `.value` attribute of its own.
   */
  datatype CodeField = Member(code: ResponseCode) | RawInt(value: int)

  datatype ResponseHeader = ResponseHeader(version: int, responseCode: CodeField, payloadSize: int)

  datatype PyError =
    | AttributeError
    | StructError   // `struct.error`: a packed value does not fit its field
    | ValueError    // a payload constructor rejected its arguments

  /**
   * `ResponseHeader.serialize`: `struct.pack('>BHI', ...)`. The arguments are
   * evaluated before packing, so a raw integer code fails on `.value` first.
   */
  function SerializeHeader(h: ResponseHeader): (r: Result<seq<byte>, PyError>)
    ensures r == Err(AttributeError) <==> h.responseCode.RawInt?
    ensures r.Ok? <==> h.responseCode.Member? && 0 <= h.version < 0x100 && 0 <= h.payloadSize < 0x1_0000_0000
    ensures r.Err? && h.responseCode.Member? ==> r.error == StructError
    ensures r.Ok? ==> |r.value| == HEADER_SIZE && r.value[0] == h.version
                      && DecodeBE(r.value[1..3]) == h.responseCode.code.Value()
                      && DecodeBE(r.value[3..7]) == h.payloadSize
  {
    match h.responseCode
    case RawInt(_) => Err(AttributeError)
    case Member(code) =>
      if !(0 <= h.version < 0x100 && 0 <= h.payloadSize < 0x1_0000_0000) then Err(StructError)
      else
        var bytes := [h.version as byte] + EncodeBE(code.Value(), 2) + EncodeBE(h.payloadSize, 4);
        assert bytes[1..3] == EncodeBE(code.Value(), 2) && bytes[3..7] == EncodeBE(h.payloadSize, 4);
        assert Pow256(2) == 0x1_0000 && Pow256(4) == 0x1_0000_0000 by {
          assert Pow256(1) == 0x100 && Pow256(3) == 0x100_0000;
        }
        DecodeEncodeBE(code.Value(), 2);
        DecodeEncodeBE(h.payloadSize, 4);
        Ok(bytes)
  }

  // ---------------------------------------------------------------------
  // Payloads

  datatype ResponsePayload =
    | RegisterOkPayload(clientId: seq<byte>)
    | RegisterFailPayload
    | AESSendKeyPayload(clientId: seq<byte>, aesKey: seq<byte>)
    | FileOkPayload(clientId: seq<byte>, contentSize: int, fileName: string, checksum: int)
    | MessageOkPayload(clientId: seq<byte>)
    | LoginOkSendAesPayload(clientId: seq<byte>, aesKey: seq<byte>)
    | LoginFailPayload(clientId: seq<byte>)
    | GeneralErrorPayload

  function NewRegisterOk(clientId: seq<byte>): (r: Result<ResponsePayload, PyError>)
    ensures r.Ok? <==> |clientId| == CLIENT_ID_SIZE
    ensures r.Err? ==> r.error == ValueError
    ensures r.Ok? ==> r.value.RegisterOkPayload? && r.value.clientId == clientId
  {
    if |clientId| != CLIENT_ID_SIZE then Err(ValueError) else Ok(RegisterOkPayload(clientId))
  }

  function NewAESSendKey(clientId: seq<byte>, aesKey: seq<byte>): (r: Result<ResponsePayload, PyError>)
    ensures r.Ok? <==> |clientId| == CLIENT_ID_SIZE
    ensures r.Err? ==> r.error == ValueError
    ensures r.Ok? ==> r.value.AESSendKeyPayload? && r.value.clientId == clientId && r.value.aesKey == aesKey
  {
    if |clientId| != CLIENT_ID_SIZE then Err(ValueError) else Ok(AESSendKeyPayload(clientId, aesKey))
  }

  /**
   * The file name is limited to 255 characters and stored left-justified
   * in 255 characters, padded with NULs.
   */
  function NewFileOk(clientId: seq<byte>, contentSize: int, fileName: string, checksum: int)
    : (r: Result<ResponsePayload, PyError>)
    ensures r.Ok? <==> |clientId| == CLIENT_ID_SIZE && |fileName| <= NAME_SIZE
    ensures r.Err? ==> r.error == ValueError
    ensures r.Ok? ==> var p := r.value;
                      p.FileOkPayload? && p.clientId == clientId && p.contentSize == contentSize
                      && p.checksum == checksum && |p.fileName| == NAME_SIZE
                      && p.fileName[..|fileName|] == fileName
                      && (forall i :: |fileName| <= i < NAME_SIZE ==> p.fileName[i] == '\0')
  {
    if |clientId| != CLIENT_ID_SIZE then Err(ValueError)
    else if |fileName| > NAME_SIZE then Err(ValueError)
    else
      var padded := fileName + Nuls(NAME_SIZE - |fileName|);
      assert padded[..|fileName|] == fileName;
      Ok(FileOkPayload(clientId, contentSize, padded, checksum))
  }

  function NewMessageOk(clientId: seq<byte>): (r: Result<ResponsePayload, PyError>)
    ensures r.Ok? <==> |clientId| == CLIENT_ID_SIZE
    ensures r.Err? ==> r.error == ValueError
    ensures r.Ok? ==> r.value.MessageOkPayload? && r.value.clientId == clientId
  {
    if |clientId| != CLIENT_ID_SIZE then Err(ValueError) else Ok(MessageOkPayload(clientId))
  }

  function NewLoginOkSendAes(clientId: seq<byte>, aesKey: seq<byte>): (r: Result<ResponsePayload, PyError>)
    ensures r.Ok? <==> |clientId| == CLIENT_ID_SIZE
    ensures r.Err? ==> r.error == ValueError
    ensures r.Ok? ==> r.value.LoginOkSendAesPayload? && r.value.clientId == clientId && r.value.aesKey == aesKey
  {
    if |clientId| != CLIENT_ID_SIZE then Err(ValueError) else Ok(LoginOkSendAesPayload(clientId, aesKey))
  }

  function NewLoginFail(clientId: seq<byte>): (r: Result<ResponsePayload, PyError>)
    ensures r.Ok? <==> |clientId| == CLIENT_ID_SIZE
    ensures r.Err? ==> r.error == ValueError
    ensures r.Ok? ==> r.value.LoginFailPayload? && r.value.clientId == clientId
  {
    if |clientId| != CLIENT_ID_SIZE then Err(ValueError) else Ok(LoginFailPayload(clientId))
  }

  /**
   * `serialize` of each payload. Only the file payload packs integers, so
   * only it can fail, when its size or checksum does not fit in 32 bits.
   */
  function SerializePayload(p: ResponsePayload): (r: Result<seq<byte>, PyError>)
    ensures r.Err? <==> p.FileOkPayload? && !(0 <= p.contentSize < 0x1_0000_0000 && 0 <= p.checksum < 0x1_0000_0000)
    ensures r.Err? ==> r.error == StructError
    ensures r.Ok? && (p.RegisterFailPayload? || p.GeneralErrorPayload?) ==> r.value == []
    ensures r.Ok? && (p.RegisterOkPayload? || p.MessageOkPayload? || p.LoginFailPayload?) ==> r.value == p.clientId
    ensures r.Ok? && (p.AESSendKeyPayload? || p.LoginOkSendAesPayload?) ==>
              |r.value| == |p.clientId| + |p.aesKey| && r.value[..|p.clientId|] == p.clientId
              && r.value[|p.clientId|..] == p.aesKey
    ensures r.Ok? && p.FileOkPayload? ==>
              var n := |Utf8Encode(p.fileName)|;
              |r.value| == |p.clientId| + 8 + n
              && r.value[..|p.clientId|] == p.clientId
              && DecodeBE(r.value[|p.clientId|..|p.clientId| + 4]) == p.contentSize
              && r.value[|p.clientId| + 4..|p.clientId| + 4 + n] == Utf8Encode(p.fileName)
              && DecodeBE(r.value[|p.clientId| + 4 + n..]) == p.checksum
  {
    match p
    case RegisterOkPayload(clientId) => Ok(clientId)
    case RegisterFailPayload => Ok([])
    case AESSendKeyPayload(clientId, aesKey) => Ok(clientId + aesKey)
    case FileOkPayload(clientId, contentSize, fileName, checksum) =>
      if !(0 <= contentSize < 0x1_0000_0000 && 0 <= checksum < 0x1_0000_0000) then Err(StructError)
      else Ok(FileOkBytes(clientId, contentSize, fileName, checksum))
    case MessageOkPayload(clientId) => Ok(clientId)
    case LoginOkSendAesPayload(clientId, aesKey) => Ok(clientId + aesKey)
    case LoginFailPayload(clientId) => Ok(clientId)
    case GeneralErrorPayload => Ok([])
  }

  /** The file acknowledgement's bytes: id, big-endian size, UTF-8 name, big-endian checksum. */
  function FileOkBytes(clientId: seq<byte>, contentSize: u32, fileName: string, checksum: u32): (r: seq<byte>)
    ensures var n := |Utf8Encode(fileName)|;
            |r| == |clientId| + 8 + n
            && r[..|clientId|] == clientId
            && DecodeBE(r[|clientId|..|clientId| + 4]) == contentSize
            && r[|clientId| + 4..|clientId| + 4 + n] == Utf8Encode(fileName)
            && DecodeBE(r[|clientId| + 4 + n..]) == checksum
  {
    var name := Utf8Encode(fileName);
    var size := EncodeBE(contentSize, 4);
    var sum := EncodeBE(checksum, 4);
    SliceConcat4(clientId, size, name, sum);
    assert Pow256(4) == 0x1_0000_0000 by {
      assert Pow256(1) == 0x100 && Pow256(2) == 0x1_0000 && Pow256(3) == 0x100_0000;
    }
    DecodeEncodeBE(contentSize, 4);
    DecodeEncodeBE(checksum, 4);
    clientId + size + name + sum
  }

  /** A file payload built from an ASCII name of at most 255 characters serializes to 279 bytes. */
  lemma FileOkAsciiLength(clientId: seq<byte>, contentSize: u32, fileName: string, checksum: u32)
    requires |clientId| == CLIENT_ID_SIZE && |fileName| <= NAME_SIZE && IsAscii(fileName)
    ensures NewFileOk(clientId, contentSize, fileName, checksum).Ok?
    ensures var b := SerializePayload(NewFileOk(clientId, contentSize, fileName, checksum).value);
            b.Ok? && |b.value| == CLIENT_ID_SIZE + 4 + NAME_SIZE + 4
  {
    var p := NewFileOk(clientId, contentSize, fileName, checksum).value;
    assert p.fileName == fileName + Nuls(NAME_SIZE - |fileName|);
    assert IsAscii(p.fileName);
    Utf8EncodeAscii(p.fileName);
  }

  // ---------------------------------------------------------------------
  // Packets

  datatype Packet = Packet(header: ResponseHeader, payload: ResponsePayload)

  /** `Packet.serialize`: the header is serialized first, then the payload, and the two are concatenated. */
  function SerializePacket(pkt: Packet): (r: Result<seq<byte>, PyError>)
    ensures SerializeHeader(pkt.header).Err? ==> r == Err(SerializeHeader(pkt.header).error)
    ensures r.Ok? <==> SerializeHeader(pkt.header).Ok? && SerializePayload(pkt.payload).Ok?
    ensures r.Ok? ==> |r.value| >= HEADER_SIZE
                      && r.value[..HEADER_SIZE] == SerializeHeader(pkt.header).value
                      && r.value[HEADER_SIZE..] == SerializePayload(pkt.payload).value
  {
    var header :- SerializeHeader(pkt.header);
    var payload :- SerializePayload(pkt.payload);
    assert (header + payload)[..HEADER_SIZE] == header;
    Ok(header + payload)
  }

  /**
   * `create_packet`: the payload is serialized once to measure it, and the
   * header's size is that length.
   */
  function CreatePacket(code: ResponseCode, version: int, payload: ResponsePayload): (r: Result<Packet, PyError>)
    ensures r.Ok? <==> SerializePayload(payload).Ok?
    ensures r.Err? ==> r.error == StructError
    ensures r.Ok? ==> r.value.payload == payload
                      && r.value.header.responseCode == Member(code) && r.value.header.version == version
                      && r.value.header.payloadSize == |SerializePayload(payload).value|
  {
    var bytes :- SerializePayload(payload);
    Ok(Packet(ResponseHeader(version, Member(code), |bytes|), payload))
  }

  /**
   * A packet made by `create_packet` announces in its header exactly the
   * number of bytes that follow the header.
   */
  lemma CreatePacketSizeAgrees(code: ResponseCode, version: byte, payload: ResponsePayload)
    requires SerializePayload(payload).Ok? && |SerializePayload(payload).value| < 0x1_0000_0000
    ensures var pkt := CreatePacket(code, version, payload);
            pkt.Ok? && SerializePacket(pkt.value).Ok?
            && var b := SerializePacket(pkt.value).value;
               b[0] == version && DecodeBE(b[1..3]) == code.Value() && DecodeBE(b[3..7]) == |b| - HEADER_SIZE
  {
    var pkt := CreatePacket(code, version, payload).value;
    var h := SerializeHeader(pkt.header).value;
    var b := SerializePacket(pkt).value;
    assert b[1..3] == h[1..3] && b[3..7] == h[3..7];
  }

  /** A header whose code is a plain integer cannot be serialized, whatever its other fields. */
  lemma RawCodeNeverSerializes(version: int, code: int, payloadSize: int, payload: ResponsePayload)
    ensures SerializePacket(Packet(ResponseHeader(version, RawInt(code), payloadSize), payload)) == Err(AttributeError)
  {
  }
}
