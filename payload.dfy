/**
 * The byte-vector payload objects of the client (Payload.cpp). Each
 * constructor copies its arguments and throws `std::invalid_argument` when
 * the name or file name is not exactly NAME_SIZE bytes.
 */
module Payload {
  import opened Bytes

  const NAME_SIZE := 255

  datatype Payload =
    | RegisterPayload(name: seq<byte>)
    | LoginPayload(name: seq<byte>)
    | SendFilePayload(contentSize: u32, originalFileSize: u32, packetNumber: u16, totalPackets: u16,
                      fileName: seq<byte>, messageContent: seq<byte>)
    | ChecksumCorrectPayload(name: seq<byte>)
    | ChecksumFailedPayload(name: seq<byte>)
    | ChecksumShutDownPayload(name: seq<byte>)

  /** `std::invalid_argument` from a constructor. */
  datatype PayloadError = InvalidNameSize | InvalidFileNameSize

  function NewRegisterPayload(name: seq<byte>): (r: Result<Payload, PayloadError>)
    ensures r.Ok? <==> |name| == NAME_SIZE
    ensures r.Ok? ==> r.value.RegisterPayload? && r.value.name == name
    ensures r.Err? ==> r.error == InvalidNameSize
  {
    if |name| != NAME_SIZE then Err(InvalidNameSize) else Ok(RegisterPayload(name))
  }

  function NewLoginPayload(name: seq<byte>): (r: Result<Payload, PayloadError>)
    ensures r.Ok? <==> |name| == NAME_SIZE
    ensures r.Ok? ==> r.value.LoginPayload? && r.value.name == name
    ensures r.Err? ==> r.error == InvalidNameSize
  {
    if |name| != NAME_SIZE then Err(InvalidNameSize) else Ok(LoginPayload(name))
  }

  /** Only the file name is checked; the numbers and the content are stored as given. */
  function NewSendFilePayload(contentSize: u32, originalFileSize: u32, packetNumber: u16, totalPackets: u16,
                              fileName: seq<byte>, messageContent: seq<byte>)
    : (r: Result<Payload, PayloadError>)
    ensures r.Ok? <==> |fileName| == NAME_SIZE
    ensures r.Err? ==> r.error == InvalidFileNameSize
    ensures r.Ok? ==> var p := r.value;
                      p.SendFilePayload? && p.contentSize == contentSize && p.originalFileSize == originalFileSize
                      && p.packetNumber == packetNumber && p.totalPackets == totalPackets
                      && p.fileName == fileName && p.messageContent == messageContent
  {
    if |fileName| != NAME_SIZE then Err(InvalidFileNameSize)
    else Ok(SendFilePayload(contentSize, originalFileSize, packetNumber, totalPackets, fileName, messageContent))
  }

  function NewChecksumCorrectPayload(name: seq<byte>): (r: Result<Payload, PayloadError>)
    ensures r.Ok? <==> |name| == NAME_SIZE
    ensures r.Ok? ==> r.value.ChecksumCorrectPayload? && r.value.name == name
    ensures r.Err? ==> r.error == InvalidNameSize
  {
    if |name| != NAME_SIZE then Err(InvalidNameSize) else Ok(ChecksumCorrectPayload(name))
  }

  function NewChecksumFailedPayload(name: seq<byte>): (r: Result<Payload, PayloadError>)
    ensures r.Ok? <==> |name| == NAME_SIZE
    ensures r.Ok? ==> r.value.ChecksumFailedPayload? && r.value.name == name
    ensures r.Err? ==> r.error == InvalidNameSize
  {
    if |name| != NAME_SIZE then Err(InvalidNameSize) else Ok(ChecksumFailedPayload(name))
  }

  function NewChecksumShutDownPayload(name: seq<byte>): (r: Result<Payload, PayloadError>)
    ensures r.Ok? <==> |name| == NAME_SIZE
    ensures r.Ok? ==> r.value.ChecksumShutDownPayload? && r.value.name == name
    ensures r.Err? ==> r.error == InvalidNameSize
  {
    if |name| != NAME_SIZE then Err(InvalidNameSize) else Ok(ChecksumShutDownPayload(name))
  }
}
