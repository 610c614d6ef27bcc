/**
 * The client's response decoder (ResponseUnpacker.cpp). Each payload
 * decoder checks the buffer length, slices fixed offsets into `std::string`
 * fields and passes them to a constructor that re-checks the id length.
 *
 * The integer readers `deserializeShort` and `deserializeInt` are not part
 * of this model: they are parameters applied to the exact two- or four-byte
 * window at the offset, and a window that passes the end of the buffer is
 * reported as `ReadPastEnd` rather than read.
 */
module ResponseUnpacker {
  import opened Bytes
  import Utils

  const CLIENT_ID_SIZE := 16
  const NAME_SIZE := 255
  const HEADER_SIZE := 7
  const AES_KEY_FIELD_END := 144
  const FILE_OK_SIZE := 279

  type CppString = seq<Char8>

  /** `std::string(first, last)` over bytes: one character per byte. */
  function StringOf(b: seq<byte>): (s: CppString)
    ensures |s| == |b| && forall i :: 0 <= i < |b| ==> s[i] as int == b[i]
  {
    seq(|b|, i requires 0 <= i < |b| => b[i] as char)
  }

  /** Copying bytes into a string and serializing it back gives the bytes, and the other way round. */
  lemma StringOfInverse(b: seq<byte>, s: CppString)
    ensures Utils.SerializeString(StringOf(b)) == b
    ensures StringOf(Utils.SerializeString(s)) == s
  {
    var t := StringOf(Utils.SerializeString(s));
    assert forall i :: 0 <= i < |s| ==> t[i] as int == s[i] as int;
  }

  /** The exceptions a decoder can throw, plus a read outside the buffer. */
  datatype UnpackError =
    | RuntimeError      // std::runtime_error
    | InvalidArgument   // std::invalid_argument
    | LengthError       // std::length_error
    | ReadPastEnd       // an integer read whose window passes the end of the buffer

  function ReadShort(data: seq<byte>, offset: nat, readShort: seq<byte> -> u16): (r: Result<u16, UnpackError>)
    ensures r.Ok? <==> offset + 2 <= |data|
    ensures r.Err? ==> r.error == ReadPastEnd
    ensures r.Ok? ==> r.value == readShort(data[offset..offset + 2])
  {
    if offset + 2 > |data| then Err(ReadPastEnd) else Ok(readShort(data[offset..offset + 2]))
  }

  function ReadInt(data: seq<byte>, offset: nat, readInt: seq<byte> -> u32): (r: Result<u32, UnpackError>)
    ensures r.Ok? <==> offset + 4 <= |data|
    ensures r.Err? ==> r.error == ReadPastEnd
    ensures r.Ok? ==> r.value == readInt(data[offset..offset + 4])
  {
    if offset + 4 > |data| then Err(ReadPastEnd) else Ok(readInt(data[offset..offset + 4]))
  }

  // ---------------------------------------------------------------------
  // Header

  /** The three header fields; the code is kept as the raw `uint16_t` the enum is cast from. */
  datatype HeaderFields = HeaderFields(responseCode: u16, payloadSize: u32, version: byte)

  /**
   * `ResponseHeader::deserializeHeader` as written: the guard rejects fewer
   * than 6 bytes, while the size is read from bytes 3 to 6.
   */
  function DeserializeHeader(data: seq<byte>, readShort: seq<byte> -> u16, readInt: seq<byte> -> u32)
    : (r: Result<HeaderFields, UnpackError>)
    ensures |data| < 6 ==> r == Err(RuntimeError)
    ensures |data| == 6 ==> r == Err(ReadPastEnd)
    ensures r.Ok? <==> |data| >= HEADER_SIZE
    ensures r.Ok? ==> r.value == HeaderFields(readShort(data[1..3]), readInt(data[3..7]), data[0])
  {
    if |data| < 6 then Err(RuntimeError)
    else
      var version := data[0];
      var responseCodeValue := ReadShort(data, 1, readShort).value;
      var payloadSize :- ReadInt(data, 3, readInt);
      Ok(HeaderFields(responseCodeValue, payloadSize, version))
  }

  /** The header decoder with the guard the 7-byte layout needs: it never reads past the end. */
  function DeserializeHeaderChecked(data: seq<byte>, readShort: seq<byte> -> u16, readInt: seq<byte> -> u32)
    : (r: Result<HeaderFields, UnpackError>)
    ensures r.Err? <==> |data| < HEADER_SIZE
    ensures r.Err? ==> r.error == RuntimeError
    ensures r.Ok? ==> r.value == HeaderFields(readShort(data[1..3]), readInt(data[3..7]), data[0])
  {
    if |data| < HEADER_SIZE then Err(RuntimeError)
    else
      var version := data[0];
      var responseCodeValue := ReadShort(data, 1, readShort).value;
      var payloadSize := ReadInt(data, 3, readInt).value;
      Ok(HeaderFields(responseCodeValue, payloadSize, version))
  }

  /** A 6-byte buffer passes the written guard and then the size read runs past its end. */
  lemma HeaderGuardTooShort(data: seq<byte>, readShort: seq<byte> -> u16, readInt: seq<byte> -> u32)
    requires |data| == 6
    ensures !(|data| < 6)
    ensures DeserializeHeader(data, readShort, readInt) == Err(ReadPastEnd)
    ensures DeserializeHeaderChecked(data, readShort, readInt) == Err(RuntimeError)
  {
  }

  /** On every buffer the corrected decoder agrees with the written one except where that one reads past the end. */
  lemma HeaderCheckedAgrees(data: seq<byte>, readShort: seq<byte> -> u16, readInt: seq<byte> -> u32)
    ensures DeserializeHeader(data, readShort, readInt) != Err(ReadPastEnd) ==>
              DeserializeHeaderChecked(data, readShort, readInt) == DeserializeHeader(data, readShort, readInt)
  {
  }

  /** The header object, whose fields the setters overwrite one at a time. */
  class ResponseHeader {
    var responseCode: u16
    var payloadSize: u32
    var version: byte

    constructor (responseCode: u16, payloadSize: u32, version: byte)
      ensures this.responseCode == responseCode && this.payloadSize == payloadSize && this.version == version
    {
      this.responseCode := responseCode;
      this.payloadSize := payloadSize;
      this.version := version;
    }

    function GetResponseCode(): u16
      reads this
    {
      responseCode
    }

    function GetPayloadSize(): u32
      reads this
    {
      payloadSize
    }

    function GetVersion(): byte
      reads this
    {
      version
    }

    function Fields(): HeaderFields
      reads this
    {
      HeaderFields(responseCode, payloadSize, version)
    }

    method SetResponseCode(responseCode: u16)
      modifies this
      ensures Fields() == old(Fields()).(responseCode := responseCode)
    {
      this.responseCode := responseCode;
    }

    method SetPayloadSize(payloadSize: u32)
      modifies this
      ensures Fields() == old(Fields()).(payloadSize := payloadSize)
    {
      this.payloadSize := payloadSize;
    }

    method SetVersion(version: byte)
      modifies this
      ensures Fields() == old(Fields()).(version := version)
    {
      this.version := version;
    }

    /** The static `deserializeHeader`, returning a new header object. */
    static method Deserialize(data: seq<byte>, readShort: seq<byte> -> u16, readInt: seq<byte> -> u32)
      returns (r: Result<ResponseHeader, UnpackError>)
      ensures DeserializeHeader(data, readShort, readInt).Err? ==> r == Err(DeserializeHeader(data, readShort, readInt).error)
      ensures r.Ok? <==> DeserializeHeader(data, readShort, readInt).Ok?
      ensures r.Ok? ==> fresh(r.value) && r.value.Fields() == DeserializeHeader(data, readShort, readInt).value
    {
      match DeserializeHeader(data, readShort, readInt)
      case Err(e) =>
        r := Err(e);
      case Ok(f) =>
        var h := new ResponseHeader(f.responseCode, f.payloadSize, f.version);
        r := Ok(h);
    }
  }

  // ---------------------------------------------------------------------
  // Payloads

  datatype Payload =
    | RegisterOkPayload(clientID: CppString)
    | RegisterFailPayload
    | AESSendKeyPayload(clientID: CppString, aesKey: CppString)
    | FileOkPayload(clientID: CppString, contentSize: u32, fileName: CppString, checksum: u32)
    | MessageOkPayload(clientID: CppString)
    | LoginOkPayload(clientID: CppString, encryptedAESKey: CppString)
    | LoginFailPayload(clientID: CppString)
    | GeneralErrorPayload

  function NewRegisterOk(clientID: CppString): (r: Result<Payload, UnpackError>)
    ensures r.Ok? <==> |clientID| == CLIENT_ID_SIZE
    ensures r.Err? ==> r.error == InvalidArgument
    ensures r.Ok? ==> r.value.RegisterOkPayload? && r.value.clientID == clientID
  {
    if |clientID| != CLIENT_ID_SIZE then Err(InvalidArgument) else Ok(RegisterOkPayload(clientID))
  }

  function NewAESSendKey(clientID: CppString, aesKey: CppString): (r: Result<Payload, UnpackError>)
    ensures r.Ok? <==> |clientID| == CLIENT_ID_SIZE
    ensures r.Err? ==> r.error == LengthError
    ensures r.Ok? ==> r.value.AESSendKeyPayload? && r.value.clientID == clientID && r.value.aesKey == aesKey
  {
    if |clientID| != CLIENT_ID_SIZE then Err(LengthError) else Ok(AESSendKeyPayload(clientID, aesKey))
  }

  function NewFileOk(clientID: CppString, contentSize: u32, fileName: CppString, checksum: u32)
    : (r: Result<Payload, UnpackError>)
    ensures r.Ok? <==> |clientID| == CLIENT_ID_SIZE && |fileName| <= NAME_SIZE
    ensures r.Err? ==> r.error == InvalidArgument
    ensures r.Ok? ==> r.value == FileOkPayload(clientID, contentSize, fileName, checksum)
  {
    if |clientID| != CLIENT_ID_SIZE then Err(InvalidArgument)
    else if |fileName| > NAME_SIZE then Err(InvalidArgument)
    else Ok(FileOkPayload(clientID, contentSize, fileName, checksum))
  }

  function NewMessageOk(clientID: CppString): (r: Result<Payload, UnpackError>)
    ensures r.Ok? <==> |clientID| == CLIENT_ID_SIZE
    ensures r.Err? ==> r.error == InvalidArgument
    ensures r.Ok? ==> r.value.MessageOkPayload? && r.value.clientID == clientID
  {
    if |clientID| != CLIENT_ID_SIZE then Err(InvalidArgument) else Ok(MessageOkPayload(clientID))
  }

  function NewLoginOk(clientID: CppString, encryptedAESKey: CppString): (r: Result<Payload, UnpackError>)
    ensures r.Ok? <==> |clientID| == CLIENT_ID_SIZE
    ensures r.Err? ==> r.error == InvalidArgument
    ensures r.Ok? ==> r.value.LoginOkPayload? && r.value.clientID == clientID
                      && r.value.encryptedAESKey == encryptedAESKey
  {
    if |clientID| != CLIENT_ID_SIZE then Err(InvalidArgument) else Ok(LoginOkPayload(clientID, encryptedAESKey))
  }

  function NewLoginFail(clientID: CppString): (r: Result<Payload, UnpackError>)
    ensures r.Ok? <==> |clientID| == CLIENT_ID_SIZE
    ensures r.Err? ==> r.error == InvalidArgument
    ensures r.Ok? ==> r.value.LoginFailPayload? && r.value.clientID == clientID
  {
    if |clientID| != CLIENT_ID_SIZE then Err(InvalidArgument) else Ok(LoginFailPayload(clientID))
  }

  /** Exactly 16 bytes, all of them the id. */
  function DeserializeRegisterOk(data: seq<byte>): (r: Result<Payload, UnpackError>)
    ensures r.Ok? <==> |data| == CLIENT_ID_SIZE
    ensures r.Err? ==> r.error == RuntimeError
    ensures r.Ok? ==> r.value.RegisterOkPayload? && Utils.SerializeString(r.value.clientID) == data
  {
    if |data| != CLIENT_ID_SIZE then Err(RuntimeError)
    else
      StringOfInverse(data, []);
      NewRegisterOk(StringOf(data))
  }

  /** The payload is empty; whatever bytes are given are ignored. */
  function DeserializeRegisterFail(data: seq<byte>): (r: Result<Payload, UnpackError>)
    ensures r == Ok(RegisterFailPayload)
  {
    Ok(RegisterFailPayload)
  }

  /** At least 144 bytes: the id in 0..16 and the key in 16..144; later bytes are ignored. */
  function DeserializeAESSendKey(data: seq<byte>): (r: Result<Payload, UnpackError>)
    ensures r.Ok? <==> |data| >= AES_KEY_FIELD_END
    ensures r.Err? ==> r.error == InvalidArgument
    ensures r.Ok? ==> r.value.AESSendKeyPayload?
                      && Utils.SerializeString(r.value.clientID) == data[..CLIENT_ID_SIZE]
                      && Utils.SerializeString(r.value.aesKey) == data[CLIENT_ID_SIZE..AES_KEY_FIELD_END]
  {
    if |data| < AES_KEY_FIELD_END then Err(InvalidArgument)
    else
      StringOfInverse(data[..CLIENT_ID_SIZE], []);
      StringOfInverse(data[CLIENT_ID_SIZE..AES_KEY_FIELD_END], []);
      NewAESSendKey(StringOf(data[..CLIENT_ID_SIZE]), StringOf(data[CLIENT_ID_SIZE..AES_KEY_FIELD_END]))
  }

  /** Bytes after the key field are never read: appending any bytes leaves the result unchanged. */
  lemma AESSendKeyIgnoresTrailing(data: seq<byte>, rest: seq<byte>)
    requires |data| >= AES_KEY_FIELD_END
    ensures DeserializeAESSendKey(data + rest) == DeserializeAESSendKey(data)
  {
    assert (data + rest)[..CLIENT_ID_SIZE] == data[..CLIENT_ID_SIZE];
    assert (data + rest)[CLIENT_ID_SIZE..AES_KEY_FIELD_END] == data[CLIENT_ID_SIZE..AES_KEY_FIELD_END];
  }

  /** The file fields at their offsets, once the buffer holds at least the id, size and name fields. */
  function FileOkFields(data: seq<byte>, readInt: seq<byte> -> u32): (r: Result<Payload, UnpackError>)
    requires |data| >= 275
    ensures r.Ok? <==> |data| >= FILE_OK_SIZE
    ensures r.Err? ==> r.error == ReadPastEnd
    ensures r.Ok? ==> r.value.FileOkPayload?
                      && Utils.SerializeString(r.value.clientID) == data[..16]
                      && r.value.contentSize == readInt(data[16..20])
                      && Utils.SerializeString(r.value.fileName) == data[20..275]
                      && r.value.checksum == readInt(data[275..279])
  {
    var clientID := StringOf(data[..16]);
    var contentSize := ReadInt(data, 16, readInt).value;
    var fileName := StringOf(data[20..275]);
    var checksum :- ReadInt(data, 275, readInt);
    StringOfInverse(data[..16], []);
    StringOfInverse(data[20..275], []);
    NewFileOk(clientID, contentSize, fileName, checksum)
  }

  /**
   * `FileOkPayload::deserialize` as written: the guard rejects fewer than
   * 275 bytes, while the checksum is read from bytes 275 to 278.
   */
  function DeserializeFileOk(data: seq<byte>, readInt: seq<byte> -> u32): (r: Result<Payload, UnpackError>)
    ensures |data| < 275 ==> r == Err(RuntimeError)
    ensures 275 <= |data| < FILE_OK_SIZE ==> r == Err(ReadPastEnd)
    ensures r.Ok? <==> |data| >= FILE_OK_SIZE
    ensures r.Ok? ==> r.value.FileOkPayload?
                      && Utils.SerializeString(r.value.clientID) == data[..16]
                      && r.value.contentSize == readInt(data[16..20])
                      && Utils.SerializeString(r.value.fileName) == data[20..275]
                      && r.value.checksum == readInt(data[275..279])
  {
    if |data| < 275 then Err(RuntimeError) else FileOkFields(data, readInt)
  }

  /** The file decoder with the guard its 279-byte layout needs. */
  function DeserializeFileOkChecked(data: seq<byte>, readInt: seq<byte> -> u32): (r: Result<Payload, UnpackError>)
    ensures r.Err? <==> |data| < FILE_OK_SIZE
    ensures r.Err? ==> r.error == RuntimeError
    ensures r.Ok? ==> r.value.FileOkPayload?
                      && Utils.SerializeString(r.value.clientID) == data[..16]
                      && r.value.contentSize == readInt(data[16..20])
                      && Utils.SerializeString(r.value.fileName) == data[20..275]
                      && r.value.checksum == readInt(data[275..279])
  {
    if |data| < FILE_OK_SIZE then Err(RuntimeError) else FileOkFields(data, readInt)
  }

  /** A 275-byte buffer passes the written guard and then the checksum read runs past its end. */
  lemma FileOkGuardTooShort(data: seq<byte>, readInt: seq<byte> -> u32)
    requires |data| == 275
    ensures !(|data| < 275)
    ensures DeserializeFileOk(data, readInt) == Err(ReadPastEnd)
    ensures DeserializeFileOkChecked(data, readInt) == Err(RuntimeError)
  {
  }

  /** Exactly 16 bytes, all of them the id. */
  function DeserializeMessageOk(data: seq<byte>): (r: Result<Payload, UnpackError>)
    ensures r.Ok? <==> |data| == CLIENT_ID_SIZE
    ensures r.Err? ==> r.error == RuntimeError
    ensures r.Ok? ==> r.value.MessageOkPayload? && Utils.SerializeString(r.value.clientID) == data
  {
    if |data| != CLIENT_ID_SIZE then Err(RuntimeError)
    else
      StringOfInverse(data, []);
      NewMessageOk(StringOf(data))
  }

  /** At least 16 bytes: the id, then every remaining byte is the wrapped key. */
  function DeserializeLoginOk(data: seq<byte>): (r: Result<Payload, UnpackError>)
    ensures r.Ok? <==> |data| >= CLIENT_ID_SIZE
    ensures r.Err? ==> r.error == RuntimeError
    ensures r.Ok? ==> r.value.LoginOkPayload?
                      && Utils.SerializeString(r.value.clientID) + Utils.SerializeString(r.value.encryptedAESKey) == data
                      && |r.value.clientID| == CLIENT_ID_SIZE
  {
    if |data| < CLIENT_ID_SIZE then Err(RuntimeError)
    else
      StringOfInverse(data[..CLIENT_ID_SIZE], []);
      StringOfInverse(data[CLIENT_ID_SIZE..], []);
      assert data[..CLIENT_ID_SIZE] + data[CLIENT_ID_SIZE..] == data;
      NewLoginOk(StringOf(data[..CLIENT_ID_SIZE]), StringOf(data[CLIENT_ID_SIZE..]))
  }

  /** Exactly 16 bytes, all of them the id. */
  function DeserializeLoginFail(data: seq<byte>): (r: Result<Payload, UnpackError>)
    ensures r.Ok? <==> |data| == CLIENT_ID_SIZE
    ensures r.Err? ==> r.error == RuntimeError
    ensures r.Ok? ==> r.value.LoginFailPayload? && Utils.SerializeString(r.value.clientID) == data
  {
    if |data| != CLIENT_ID_SIZE then Err(RuntimeError)
    else
      StringOfInverse(data, []);
      NewLoginFail(StringOf(data))
  }

  /** The payload is empty; whatever bytes are given are ignored. */
  function DeserializeGeneralError(data: seq<byte>): (r: Result<Payload, UnpackError>)
    ensures r == Ok(GeneralErrorPayload)
  {
    Ok(GeneralErrorPayload)
  }
}
