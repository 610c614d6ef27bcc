/**
 * The client's string-based packet builders (RequestManager.cpp): a
 * request header, its little-endian serialisation, a packet owning a
 * header and a payload, and seven validate-then-construct builders.
 *
 * Each builder calls `Header(clientID, version, code, payloadSize)`, while
 * the constructor's parameters are `(clientID, code, payloadSize, version)`.
 * The arguments therefore bind by position: the header's code field gets
 * the version, its payload-size field gets the request code, and its
 * version field gets the payload size cut to eight bits. The builders below
 * reproduce that.
 */
module RequestManager {
  import opened Bytes
  import Utils

  const NAME_SIZE := 255
  const KEY_SIZE := 160
  const CLIENT_VERSION: byte := 3

  const REGISTER_CODE: u16 := 825
  const SEND_KEY_CODE: u16 := 826
  const LOGIN_CODE: u16 := 827
  const SEND_FILE_CODE: u16 := 828
  const CHECKSUM_CORRECT_CODE: u16 := 900
  const CHECKSUM_FAILED_CODE: u16 := 901
  const CHECKSUM_SHUTDOWN_CODE: u16 := 902

  /** A `std::string`: a sequence of 8-bit characters. */
  type CppString = seq<Char8>

  datatype Header = Header(clientID: CppString, version: byte, code: u16, payloadSize: u32)

  /** The constructor `Header(clientID, code, payloadSize, version)`. */
  function NewHeader(clientID: CppString, code: u16, payloadSize: u32, version: byte): Header
  {
    Header(clientID, version, code, payloadSize)
  }

  /**
   * What `Header(clientID, version, code, payloadSize)` in a builder
   * constructs: the implicit conversions widen `version` into the code
   * parameter and `code` into the payload-size parameter, and narrow
   * `payloadSize` to the eight-bit version parameter.
   */
  function BuilderHeader(clientID: CppString, version: byte, code: u16, payloadSize: u32): (h: Header)
    ensures h.clientID == clientID
    ensures h.code == version && h.payloadSize == code && h.version == payloadSize % 0x100
  {
    NewHeader(clientID, version, code, Utils.Cast8(payloadSize))
  }

  /** The header the builders evidently mean: each argument in its own field. */
  function IntendedHeader(clientID: CppString, version: byte, code: u16, payloadSize: u32): (h: Header)
    ensures h.clientID == clientID
    ensures h.code == code && h.payloadSize == payloadSize && h.version == version
  {
    NewHeader(clientID, code, payloadSize, version)
  }

  /** The bytes `serializeHeader` produces, as a value. */
  function HeaderBytes(h: Header): (r: seq<byte>)
    ensures |r| == |h.clientID| + 7
    ensures r[..|h.clientID|] == Utils.SerializeString(h.clientID)
    ensures r[|h.clientID|] == h.version
    ensures DecodeLE(r[|h.clientID| + 1..|h.clientID| + 3]) == h.code
    ensures DecodeLE(r[|h.clientID| + 3..]) == h.payloadSize
  {
    var id := Utils.SerializeString(h.clientID);
    var r := id + [h.version] + EncodeLE(h.code, 2) + EncodeLE(h.payloadSize, 4);
    assert r[|id| + 1..|id| + 3] == EncodeLE(h.code, 2);
    assert r[|id| + 3..] == EncodeLE(h.payloadSize, 4);
    assert Pow256(2) == 0x1_0000 && Pow256(4) == 0x1_0000_0000;
    DecodeEncodeLE(h.code, 2);
    DecodeEncodeLE(h.payloadSize, 4);
    r
  }

  /**
   * `Header::serializeHeader`: appends the client id bytes, the version
   * byte, the little-endian code and the little-endian payload size.
   */
  method SerializeHeader(h: Header) returns (serializedData: seq<byte>)
    ensures serializedData == HeaderBytes(h)
    ensures |serializedData| == |h.clientID| + 7
  {
    serializedData := [];
    var serializedClientID := Utils.SerializeString(h.clientID);
    serializedData := serializedData + serializedClientID;
    var serializedVersion := Utils.SerializeByte(h.version);
    serializedData := serializedData + serializedVersion;
    var serializedCode := Utils.SerializeShort(h.code);
    serializedData := serializedData + serializedCode;
    var serializedPayloadSize := Utils.SerializeInt(h.payloadSize);
    serializedData := serializedData + serializedPayloadSize;
    assert serializedVersion == [h.version];
    assert serializedData == serializedClientID + [h.version] + EncodeLE(h.code, 2) + EncodeLE(h.payloadSize, 4);
  }

  /**
   * The payload objects of the string-based client. Their constructors and
   * `serializePayload` bodies are not part of this model; the builders
   * only store their arguments in them.
   */
  datatype Payload =
    | RegisterPayload(name: CppString)
    | SendKeyPayload(name: CppString, publicKey: CppString)
    | LoginPayload(name: CppString)
    | SendFilePayload(contentSize: u32, originalFileSize: u32, packetNumber: u16, totalPackets: u16,
                      fileName: CppString, messageContent: CppString)
    | ChecksumCorrectPayload(name: CppString)
    | ChecksumFailedPayload(name: CppString)
    | ChecksumShutDownPayload(name: CppString)

  /** `std::invalid_argument` thrown by a builder. */
  datatype BuildError = InvalidName | InvalidPublicKey | InvalidFileName

  /** A header and a payload as a builder hands them to the `Packet` constructor. */
  datatype Parts = Parts(header: Header, payload: Payload)

  /**
   * The packet object: it owns its header and payload, and `getHeader` /
   * `getPayload` move them out, leaving the packet's pointer null.
   */
  class Packet {
    var header: Option<Header>
    var payload: Option<Payload>

    constructor (header: Header, payload: Payload)
      ensures this.header == Some(header) && this.payload == Some(payload)
    {
      this.header := Some(header);
      this.payload := Some(payload);
    }

    method GetHeader() returns (h: Option<Header>)
      modifies this
      ensures h == old(header) && header == None && payload == old(payload)
    {
      h := header;
      header := None;
    }

    method GetPayload() returns (p: Option<Payload>)
      modifies this
      ensures p == old(payload) && payload == None && header == old(header)
    {
      p := payload;
      payload := None;
    }
  }

  function RegistrationPacket(clientID: CppString, name: CppString,
                              version: byte := CLIENT_VERSION, code: u16 := REGISTER_CODE)
    : (r: Result<Parts, BuildError>)
    ensures r.Err? <==> |name| != NAME_SIZE
    ensures r.Err? ==> r.error == InvalidName
    ensures r.Ok? ==> r.value.payload == RegisterPayload(name)
    ensures r.Ok? ==> r.value.header == BuilderHeader(clientID, version, code, NAME_SIZE)
  {
    if |name| != NAME_SIZE then Err(InvalidName)
    else
      var payloadSize: u32 := |name|;
      Ok(Parts(BuilderHeader(clientID, version, code, payloadSize), RegisterPayload(name)))
  }

  function SendKeyPacket(clientID: CppString, name: CppString, publicKey: CppString,
                         version: byte := CLIENT_VERSION, code: u16 := SEND_KEY_CODE)
    : (r: Result<Parts, BuildError>)
    ensures r.Err? <==> |name| != NAME_SIZE || |publicKey| != KEY_SIZE
    ensures r.Err? ==> r.error == if |name| != NAME_SIZE then InvalidName else InvalidPublicKey
    ensures r.Ok? ==> r.value.payload == SendKeyPayload(name, publicKey)
    ensures r.Ok? ==> r.value.header == BuilderHeader(clientID, version, code, NAME_SIZE + KEY_SIZE)
  {
    if |name| != NAME_SIZE then Err(InvalidName)
    else if |publicKey| != KEY_SIZE then Err(InvalidPublicKey)
    else
      var payloadSize: u32 := |name| + |publicKey|;
      Ok(Parts(BuilderHeader(clientID, version, code, payloadSize), SendKeyPayload(name, publicKey)))
  }

  function LoginPacket(clientID: CppString, name: CppString,
                       version: byte := CLIENT_VERSION, code: u16 := LOGIN_CODE)
    : (r: Result<Parts, BuildError>)
    ensures r.Err? <==> |name| != NAME_SIZE
    ensures r.Err? ==> r.error == InvalidName
    ensures r.Ok? ==> r.value.payload == LoginPayload(name)
    ensures r.Ok? ==> r.value.header == BuilderHeader(clientID, version, code, NAME_SIZE)
  {
    if |name| != NAME_SIZE then Err(InvalidName)
    else
      var payloadSize: u32 := |name|;
      Ok(Parts(BuilderHeader(clientID, version, code, payloadSize), LoginPayload(name)))
  }

  /**
   * `sendFilePacket`: the payload size is `contentSize` plus the widths of
   * the original size (4), the packet number (2) and the packet count (2),
   * computed in `size_t` and stored in a `uint32_t`.
   */
  function SendFilePacket(clientID: CppString, contentSize: u32, originalFileSize: u32,
                          packetNumber: u16, totalPackets: u16, fileName: CppString, messageContent: CppString,
                          version: byte := CLIENT_VERSION, code: u16 := SEND_FILE_CODE)
    : (r: Result<Parts, BuildError>)
    ensures r.Err? <==> |fileName| != NAME_SIZE
    ensures r.Err? ==> r.error == InvalidFileName
    ensures r.Ok? ==> r.value.payload
                      == SendFilePayload(contentSize, originalFileSize, packetNumber, totalPackets, fileName, messageContent)
    ensures r.Ok? ==> r.value.header == BuilderHeader(clientID, version, code, (contentSize + 8) % 0x1_0000_0000)
  {
    if |fileName| != NAME_SIZE then Err(InvalidFileName)
    else
      var payloadSize: u32 := (contentSize + 4 + 2 + 2) % 0x1_0000_0000;
      Ok(Parts(BuilderHeader(clientID, version, code, payloadSize),
               SendFilePayload(contentSize, originalFileSize, packetNumber, totalPackets, fileName, messageContent)))
  }

  function ChecksumCorrectPacket(clientID: CppString, name: CppString,
                                 version: byte := CLIENT_VERSION, code: u16 := CHECKSUM_CORRECT_CODE)
    : (r: Result<Parts, BuildError>)
    ensures r.Err? <==> |name| != NAME_SIZE
    ensures r.Err? ==> r.error == InvalidName
    ensures r.Ok? ==> r.value.payload == ChecksumCorrectPayload(name)
    ensures r.Ok? ==> r.value.header == BuilderHeader(clientID, version, code, NAME_SIZE)
  {
    if |name| != NAME_SIZE then Err(InvalidName)
    else
      var payloadSize: u32 := |name|;
      Ok(Parts(BuilderHeader(clientID, version, code, payloadSize), ChecksumCorrectPayload(name)))
  }

  function ChecksumFailedPacket(clientID: CppString, name: CppString,
                                version: byte := CLIENT_VERSION, code: u16 := CHECKSUM_FAILED_CODE)
    : (r: Result<Parts, BuildError>)
    ensures r.Err? <==> |name| != NAME_SIZE
    ensures r.Err? ==> r.error == InvalidName
    ensures r.Ok? ==> r.value.payload == ChecksumFailedPayload(name)
    ensures r.Ok? ==> r.value.header == BuilderHeader(clientID, version, code, NAME_SIZE)
  {
    if |name| != NAME_SIZE then Err(InvalidName)
    else
      var payloadSize: u32 := |name|;
      Ok(Parts(BuilderHeader(clientID, version, code, payloadSize), ChecksumFailedPayload(name)))
  }

  function ChecksumShutDownPacket(clientID: CppString, name: CppString,
                                  version: byte := CLIENT_VERSION, code: u16 := CHECKSUM_SHUTDOWN_CODE)
    : (r: Result<Parts, BuildError>)
    ensures r.Err? <==> |name| != NAME_SIZE
    ensures r.Err? ==> r.error == InvalidName
    ensures r.Ok? ==> r.value.payload == ChecksumShutDownPayload(name)
    ensures r.Ok? ==> r.value.header == BuilderHeader(clientID, version, code, NAME_SIZE)
  {
    if |name| != NAME_SIZE then Err(InvalidName)
    else
      var payloadSize: u32 := |name|;
      Ok(Parts(BuilderHeader(clientID, version, code, payloadSize), ChecksumShutDownPayload(name)))
  }

  /**
   * A registration packet built with the default arguments carries, in
   * serialised form, version byte 0xFF, code 3 and payload size 825.
   */
  lemma RegistrationHeaderShifted(clientID: CppString, name: CppString)
    requires |name| == NAME_SIZE
    ensures var h := RegistrationPacket(clientID, name).value.header;
            h.version == 255 && h.code == 3 && h.payloadSize == 825
            && HeaderBytes(h)[|clientID|] == 255
            && DecodeLE(HeaderBytes(h)[|clientID| + 1..|clientID| + 3]) == 3
            && DecodeLE(HeaderBytes(h)[|clientID| + 3..]) == 825
  {
  }

  /** The evidently intended header keeps version, code and payload size in their own fields on the wire. */
  lemma IntendedHeaderLayout(clientID: CppString, version: byte, code: u16, payloadSize: u32)
    ensures var b := HeaderBytes(IntendedHeader(clientID, version, code, payloadSize));
            b[|clientID|] == version
            && DecodeLE(b[|clientID| + 1..|clientID| + 3]) == code
            && DecodeLE(b[|clientID| + 3..]) == payloadSize
  {
  }
}
