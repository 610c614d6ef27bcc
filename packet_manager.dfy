/**
 * The byte-vector packet builders of the client (PacketManager.cpp). Like
 * the string-based builders they call `Header(clientID, version, code,
 * payloadSize)` against a constructor whose parameters are `(clientID,
 * code, payloadSize, version)`, so the arguments bind by position.
 */
module PacketManager {
  import opened Bytes
  import P = Payload

  const NAME_SIZE := 255
  const CLIENT_VERSION: byte := 3

  const REGISTER_CODE: u16 := 825
  const LOGIN_CODE: u16 := 827
  const SEND_FILE_CODE: u16 := 828
  const CHECKSUM_CORRECT_CODE: u16 := 900
  const CHECKSUM_FAILED_CODE: u16 := 901
  const CHECKSUM_SHUTDOWN_CODE: u16 := 902

  datatype Header = Header(clientID: seq<byte>, version: byte, code: u16, payloadSize: u32)

  /** The constructor `Header(clientID, code, payloadSize, version)`. */
  function NewHeader(clientID: seq<byte>, code: u16, payloadSize: u32, version: byte): Header
  {
    Header(clientID, version, code, payloadSize)
  }

  /** What a builder's call `Header(clientID, version, code, payloadSize)` constructs. */
  function BuilderHeader(clientID: seq<byte>, version: byte, code: u16, payloadSize: u32): (h: Header)
    ensures h.clientID == clientID
    ensures h.code == version && h.payloadSize == code && h.version == payloadSize % 0x100
  {
    NewHeader(clientID, version, code, payloadSize % 0x100)
  }

  datatype Packet = Packet(header: Header, payload: P.Payload)

  /** `std::invalid_argument` thrown by a builder before the payload is constructed. */
  datatype BuildError = InvalidName | InvalidFileName

  function RegistrationPacket(clientID: seq<byte>, name: seq<byte>,
                              version: byte := CLIENT_VERSION, code: u16 := REGISTER_CODE)
    : (r: Result<Packet, BuildError>)
    ensures r.Err? <==> |name| != NAME_SIZE
    ensures r.Err? ==> r.error == InvalidName
    ensures r.Ok? ==> r.value.payload == P.RegisterPayload(name)
    ensures r.Ok? ==> r.value.header == BuilderHeader(clientID, version, code, NAME_SIZE)
  {
    if |name| != NAME_SIZE then Err(InvalidName)
    else
      var payloadSize: u32 := |name|;
      Ok(Packet(BuilderHeader(clientID, version, code, payloadSize), P.NewRegisterPayload(name).value))
  }

  function LoginPacket(clientID: seq<byte>, name: seq<byte>,
                       version: byte := CLIENT_VERSION, code: u16 := LOGIN_CODE)
    : (r: Result<Packet, BuildError>)
    ensures r.Err? <==> |name| != NAME_SIZE
    ensures r.Err? ==> r.error == InvalidName
    ensures r.Ok? ==> r.value.payload == P.LoginPayload(name)
    ensures r.Ok? ==> r.value.header == BuilderHeader(clientID, version, code, NAME_SIZE)
  {
    if |name| != NAME_SIZE then Err(InvalidName)
    else
      var payloadSize: u32 := |name|;
      Ok(Packet(BuilderHeader(clientID, version, code, payloadSize), P.NewLoginPayload(name).value))
  }

  /** The content size the builder computes: file name plus content length, stored in a `uint32_t`. */
  function ContentSize(fileName: seq<byte>, messageContent: seq<byte>): u32
  {
    (|fileName| + |messageContent|) % 0x1_0000_0000
  }

  /**
   * `sendFilePacket`: the content size is the file name length plus the
   * content length, and the payload size adds 8 for the original size, the
   * packet number and the packet count; both are cut to 32 bits.
   */
  function SendFilePacket(clientID: seq<byte>, originalFileSize: u32, packetNumber: u16, totalPackets: u16,
                          fileName: seq<byte>, messageContent: seq<byte>,
                          version: byte := CLIENT_VERSION, code: u16 := SEND_FILE_CODE)
    : (r: Result<Packet, BuildError>)
    ensures r.Err? <==> |fileName| != NAME_SIZE
    ensures r.Err? ==> r.error == InvalidFileName
    ensures r.Ok? ==> r.value.payload.SendFilePayload?
    ensures r.Ok? ==> r.value.payload.contentSize == (NAME_SIZE + |messageContent|) % 0x1_0000_0000
    ensures r.Ok? ==> r.value.payload
                      == P.SendFilePayload(ContentSize(fileName, messageContent), originalFileSize,
                                           packetNumber, totalPackets, fileName, messageContent)
    ensures r.Ok? ==> r.value.header
                      == BuilderHeader(clientID, version, code, (ContentSize(fileName, messageContent) + 8) % 0x1_0000_0000)
  {
    if |fileName| != NAME_SIZE then Err(InvalidFileName)
    else
      var contentSize := ContentSize(fileName, messageContent);
      var payloadSize: u32 := (contentSize + 4 + 2 + 2) % 0x1_0000_0000;
      Ok(Packet(BuilderHeader(clientID, version, code, payloadSize),
                P.NewSendFilePayload(contentSize, originalFileSize, packetNumber, totalPackets,
                                     fileName, messageContent).value))
  }

  /**
   * Without 32-bit wrap-around the payload size the file builder computes
   * is 263 plus the content length; it is never stored in the header's
   * size field but cut to its low byte in the version field.
   */
  lemma SendFilePayloadSize(clientID: seq<byte>, originalFileSize: u32, packetNumber: u16, totalPackets: u16,
                            fileName: seq<byte>, messageContent: seq<byte>)
    requires |fileName| == NAME_SIZE && |messageContent| < 0x1_0000_0000 - 263
    ensures var r := SendFilePacket(clientID, originalFileSize, packetNumber, totalPackets, fileName, messageContent);
            r.Ok? && r.value.payload.contentSize == 255 + |messageContent|
            && r.value.header.version == (263 + |messageContent|) % 0x100
            && r.value.header.code == CLIENT_VERSION
            && r.value.header.payloadSize == SEND_FILE_CODE
  {
  }

  function ChecksumCorrectPacket(clientID: seq<byte>, name: seq<byte>,
                                 version: byte := CLIENT_VERSION, code: u16 := CHECKSUM_CORRECT_CODE)
    : (r: Result<Packet, BuildError>)
    ensures r.Err? <==> |name| != NAME_SIZE
    ensures r.Err? ==> r.error == InvalidName
    ensures r.Ok? ==> r.value.payload == P.ChecksumCorrectPayload(name)
    ensures r.Ok? ==> r.value.header == BuilderHeader(clientID, version, code, NAME_SIZE)
  {
    if |name| != NAME_SIZE then Err(InvalidName)
    else
      var payloadSize: u32 := |name|;
      Ok(Packet(BuilderHeader(clientID, version, code, payloadSize), P.NewChecksumCorrectPayload(name).value))
  }

  function ChecksumFailedPacket(clientID: seq<byte>, name: seq<byte>,
                                version: byte := CLIENT_VERSION, code: u16 := CHECKSUM_FAILED_CODE)
    : (r: Result<Packet, BuildError>)
    ensures r.Err? <==> |name| != NAME_SIZE
    ensures r.Err? ==> r.error == InvalidName
    ensures r.Ok? ==> r.value.payload == P.ChecksumFailedPayload(name)
    ensures r.Ok? ==> r.value.header == BuilderHeader(clientID, version, code, NAME_SIZE)
  {
    if |name| != NAME_SIZE then Err(InvalidName)
    else
      var payloadSize: u32 := |name|;
      Ok(Packet(BuilderHeader(clientID, version, code, payloadSize), P.NewChecksumFailedPayload(name).value))
  }

  function ChecksumShutDownPacket(clientID: seq<byte>, name: seq<byte>,
                                  version: byte := CLIENT_VERSION, code: u16 := CHECKSUM_SHUTDOWN_CODE)
    : (r: Result<Packet, BuildError>)
    ensures r.Err? <==> |name| != NAME_SIZE
    ensures r.Err? ==> r.error == InvalidName
    ensures r.Ok? ==> r.value.payload == P.ChecksumShutDownPayload(name)
    ensures r.Ok? ==> r.value.header == BuilderHeader(clientID, version, code, NAME_SIZE)
  {
    if |name| != NAME_SIZE then Err(InvalidName)
    else
      var payloadSize: u32 := |name|;
      Ok(Packet(BuilderHeader(clientID, version, code, payloadSize), P.NewChecksumShutDownPayload(name).value))
  }
}
