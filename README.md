# Encrypted file transfer protocol: codec, builders and session model

The system is a client/server file-transfer protocol. A C++ client registers a
name, sends an RSA public key, receives an AES key wrapped under it, and sends a
file in encrypted chunks that the server acknowledges with a CRC. A Python
server decodes each request and answers with one response frame.

This project models four parts of it in Dafny and proves properties about them.

- **Request framing.** The client's request encoders are `utils.cpp` and
  `Header::serializeHeader`. The server's decoders are `requests.py`. A request
  header is 23 bytes: a 16-byte client id, a version byte, a little-endian u16
  code and a little-endian u32 payload size. Seven payload layouts follow, one
  per request code. Text fields are UTF-8 decoded and have NULs stripped from
  both ends. The numbers in the file payload are big-endian.
- **Response framing.** The server's response encoder is `responses.py`. The
  client's decoders are in `ResponseUnpacker.cpp`. A response header is 7 bytes:
  version, then a big-endian u16 code, then a big-endian u32 payload size. One
  payload layout follows per response code, and the client checks its length
  before slicing fixed offsets.
- **Client packet builders.** There are two sets: the `std::string` builders in
  `RequestManager.cpp` and the byte-vector builders in `PacketManager.cpp`, over
  the payload objects of `Payload.cpp`. Each rejects a name, file name or key of
  the wrong size and computes the header's payload size.
- **The server session** (`client_handler.py`). A `ClientHandler` object owns the
  per-connection fields: name, id, public key and AES key. It reads one request,
  decodes it and dispatches it to the registration, key-exchange or login handler.
  Each handler updates the fields and the client registry, then builds its
  response frames. As written, every response header is given a plain integer
  code, so building any frame raises `AttributeError` (the first row of
  "## Findings"). Registration and key exchange therefore set their fields,
  raise `AttributeError` and send nothing. Login raises earlier, before any
  frame is built (see the quirks below). The session class follows the corrected program, which passes the
  enum member and does send the frames. The handlers as written are modelled
  beside it, and lemmas state their outcome.

Modules:

| file | module | models |
|---|---|---|
| bytes.dfy | `Bytes` | shared vocabulary: fixed-width integers, little- and big-endian encodings, Python slicing, strict UTF-8, NUL stripping, `Result`/`Option` |
| utils.dfy | `Utils` | `utils.cpp` |
| request_manager.dfy | `RequestManager` | `RequestManager.cpp` |
| payload.dfy | `Payload` | `Payload.cpp` |
| packet_manager.dfy | `PacketManager` | `PacketManager.cpp` |
| requests.dfy | `Requests` | `server/protocol/requests.py` |
| responses.dfy | `Responses` | `server/protocol/responses.py` |
| response_unpacker.dfy | `ResponseUnpacker` | `ResponseUnpacker.cpp` |
| client_handler.dfy | `Session` | `server/client_handler.py` |
| interop.dfy | `Interop` | what each side makes of the other side's bytes |

How each kind of code is modelled:

- **Pure code** becomes functions over datatypes whose result is a
  `Result<_, error>`. Every exception the program raises is an `Err` case:
  `UnicodeDecodeError`, `struct.error`, `ValueError`, `AttributeError`,
  `std::invalid_argument`, `std::runtime_error` and `std::length_error`.
- **The little-endian encoders** `serializeShort` and `serializeInt` are methods
  that fill a fresh array by indexed writes.
- **`serializeHeader`** is a method that appends field by field.
- **The response header object** is a class with setters.
- **The session** is the class `Session.ClientHandler`. Its fields are the
  session fields, the registry (a map from name to record), the unread socket
  bytes and the sequence of frames sent.
  - Each method is proved equal to a pure step function of the old state,
    such as `RegisterStep` or `LoginStep`.
  - The session's properties are lemmas about those step functions.

The client's integer readers `deserializeShort` and `deserializeInt` are not
part of this model. The decoders take them as function parameters, applied to
the exact two- or four-byte window. A window that passes the end of the buffer
gives `ReadPastEnd`. The lemmas in `Interop` apply the decoders to both
big-endian and little-endian readers.

Quirks the model reproduces, not fixes:

- **Header argument order.** The builders call `Header(id, version, code, size)`,
  but the constructor's parameters are `(id, code, size, version)`. So the code
  field gets the version, the size field gets the request code, and the version
  field gets the low byte of the payload size.
- **Response header guard.** It checks for fewer than 6 bytes, but the header
  is 7 bytes long.
- **FileOk guard.** It checks for fewer than 275 bytes, but the payload is 279
  bytes long.
- **Login under a known name.** The new key is written with a one-argument
  call to a two-parameter function. This raises `TypeError` outside any `try`,
  so, as written, no reply is built. `AsWrittenLoginStep` reproduces this;
  `LoginStep` models the intended write.
- **Login under an unknown name.** The handler formats an unbound name, so it
  raises `NameError` and sends nothing.
- **Key-exchange registry updates.** They are called with the wrong number of
  arguments. The resulting `TypeError` is swallowed, so the registry is left
  unchanged.

## Model

| member | source | states |
|---|---|---|
| Utils.SerializeByte | utils.cpp:6-10 | a one-byte vector holding the argument |
| Utils.SerializeShort | utils.cpp:12-18 | two bytes, low byte first; equal to the 2-byte little-endian encoding, and decoding it gives the number back |
| Utils.SerializeInt | utils.cpp:20-28 | four bytes, least significant first (the 0xFFFF masks change nothing); equal to the 4-byte little-endian encoding, and decoding it gives the u32 back |
| Utils.MaskedBytes | utils.cpp:23-26 | masking a shifted value with 0xFFFF and then truncating to 8 bits gives the same byte as truncating alone |
| Utils.RoundTripLE4 | utils.cpp:20-28 | decoding the 4-byte little-endian encoding of a u32 gives it back |
| Utils.EncodeLE4 | utils.cpp:22-26 | the 4-byte little-endian encoding is exactly the four shifted bytes |
| Utils.SerializeString | utils.cpp:30-33 | same length as the string; byte i is character i |
| RequestManager.BuilderHeader | RequestManager.cpp:20-21 | a builder's positional call puts the version in the code field, the code in the size field and the size modulo 256 in the version field |
| RequestManager.IntendedHeader | RequestManager.cpp:20-21 | each argument is stored in its own field |
| RequestManager.HeaderBytes | RequestManager.cpp:23-39 | the id bytes, then the version byte, then the code as little-endian u16, then the size as little-endian u32; length is id length + 7 |
| RequestManager.SerializeHeader | RequestManager.cpp:23-39 | the appending method produces exactly `HeaderBytes` |
| RequestManager.Packet.constructor | RequestManager.cpp:8-9 | the packet owns the given header and payload |
| RequestManager.Packet.GetHeader | RequestManager.cpp:12-14 | returns the header and leaves the packet's header empty; the payload is untouched |
| RequestManager.Packet.GetPayload | RequestManager.cpp:16-18 | returns the payload and leaves the packet's payload empty; the header is untouched |
| RequestManager.RegistrationPacket | RequestManager.cpp:41-53 | fails with invalid name iff the name is not 255 characters; otherwise the register payload, with the builder header for size 255 |
| RequestManager.SendKeyPacket | RequestManager.cpp:55-70 | fails iff the name is not 255 or the key is not 160 characters, and the name check comes first; otherwise the builder header for size 415 |
| RequestManager.LoginPacket | RequestManager.cpp:72-85 | fails iff the name is not 255 characters; otherwise the login payload, with the builder header for size 255 |
| RequestManager.SendFilePacket | RequestManager.cpp:87-105 | fails iff the file name is not 255 characters; otherwise all six fields are stored, and the builder header's size is contentSize + 8 modulo 2^32 |
| RequestManager.ChecksumCorrectPacket | RequestManager.cpp:107-120 | fails iff the name is not 255 characters; otherwise the builder header for size 255 |
| RequestManager.ChecksumFailedPacket | RequestManager.cpp:122-135 | fails iff the name is not 255 characters; otherwise the builder header for size 255 |
| RequestManager.ChecksumShutDownPacket | RequestManager.cpp:137-151 | fails iff the name is not 255 characters; otherwise the builder header for size 255 |
| RequestManager.RegistrationHeaderShifted | RequestManager.cpp:51 | a default registration header serializes with version byte 255, code 3 and size 825 |
| RequestManager.IntendedHeaderLayout | RequestManager.cpp:23-39 | the intended header puts version, code and size in their own places on the wire |
| Payload.NewRegisterPayload | Payload.cpp:10-15 | succeeds iff the name is 255 bytes, and then stores it unchanged |
| Payload.NewLoginPayload | Payload.cpp:17-22 | succeeds iff the name is 255 bytes, and then stores it unchanged |
| Payload.NewSendFilePayload | Payload.cpp:24-34 | succeeds iff the file name is 255 bytes, and then stores all six arguments unchanged |
| Payload.NewChecksumCorrectPayload | Payload.cpp:36-41 | succeeds iff the name is 255 bytes |
| Payload.NewChecksumFailedPayload | Payload.cpp:43-48 | succeeds iff the name is 255 bytes |
| Payload.NewChecksumShutDownPayload | Payload.cpp:50-55 | succeeds iff the name is 255 bytes |
| PacketManager.BuilderHeader | PacketManager.cpp:9-10 | the same positional binding as the string builders |
| PacketManager.RegistrationPacket | PacketManager.cpp:12-25 | fails iff the name is not 255 bytes; otherwise the register payload, with the builder header for size 255 |
| PacketManager.LoginPacket | PacketManager.cpp:27-40 | fails iff the name is not 255 bytes; otherwise the login payload, with the builder header for size 255 |
| PacketManager.SendFilePacket | PacketManager.cpp:42-60 | fails iff the file name is not 255 bytes; contentSize = name + content length and payloadSize = contentSize + 8, both modulo 2^32 |
| PacketManager.SendFilePayloadSize | PacketManager.cpp:56-58 | contentSize is 255 + content length; the payload size 263 + content length reaches the header only as its low byte, in the version field |
| PacketManager.ChecksumCorrectPacket | PacketManager.cpp:62-75 | fails iff the name is not 255 bytes; otherwise the builder header for size 255 |
| PacketManager.ChecksumFailedPacket | PacketManager.cpp:77-90 | fails iff the name is not 255 bytes; otherwise the builder header for size 255 |
| PacketManager.ChecksumShutDownPacket | PacketManager.cpp:92-106 | fails iff the name is not 255 bytes; otherwise the builder header for size 255 |
| Bytes.Utf8RoundTrip | server/protocol/requests.py:31 | strict UTF-8 decoding of the encoding of any text gives the text back |
| Bytes.StripNulPadded | server/protocol/requests.py:68 | stripping NULs from a text padded with NULs gives the text back, when the text has no NUL at either end |
| Requests.CodeOfValue | server/protocol/requests.py:11-19 | finds the member with the given value, or none when no member has it |
| Requests.CodeValuesDistinct | server/protocol/requests.py:11-19 | the seven codes are pairwise distinct and each maps back to its member |
| Requests.Text | server/protocol/requests.py:31 | fails with a Unicode error iff the bytes are not UTF-8; otherwise the decoded text with NULs stripped from both ends |
| Requests.Unpack | server/protocol/requests.py:32-34 | fails with struct.error iff the slice is not exactly the field width; otherwise the number whose encoding is the slice |
| Requests.DeserializeHeader | server/protocol/requests.py:29-36 | fails iff the id bytes are not UTF-8 (checked first) or the buffer is shorter than 23 bytes; the id is bytes 0-15 decoded and NUL-stripped; the version is byte 16, the code is bytes 17-18 and the size is bytes 19-22, little-endian |
| Requests.PadFieldText | server/protocol/requests.py:31 | a NUL-padded text field decodes to the text |
| Requests.HeaderRoundTrip | server/protocol/requests.py:29-36 | a header encoded with a 16-byte padded id, followed by any bytes, decodes to that header |
| Requests.Name | server/protocol/requests.py:68 | the name is only the first 255 bytes, decoded and stripped |
| Requests.NameRoundTrip | server/protocol/requests.py:68 | a padded name decodes to the name whatever follows it |
| Requests.DecodeRegister | server/protocol/requests.py:66-69 | succeeds iff the name field decodes, and then gives that name; the only error is a UnicodeDecodeError |
| Requests.DecodeSendKey | server/protocol/requests.py:77-81 | the name comes from bytes 0-254 and the key from bytes 255-414; either failing to decode is a UnicodeDecodeError, which is the only error, and the name is decoded first |
| Requests.SendKeyRoundTrip | server/protocol/requests.py:77-81 | a NUL-padded 255-byte name followed by a NUL-padded 160-byte key, and any further bytes, decodes to that name and key |
| Requests.DecodeLogin | server/protocol/requests.py:88-91 | succeeds iff the name field decodes, and then gives that name; the only error is a UnicodeDecodeError |
| Requests.DecodeSendFile | server/protocol/requests.py:103-111 | fewer than 12 bytes give struct.error, and from 12 bytes on the only error is a UnicodeDecodeError of the name or content; the four numbers are big-endian from bytes 0-11; the name is bytes 12-266 and the content is the rest |
| Requests.SendFileTexts | server/protocol/requests.py:109-110 | in a decoded SEND_FILE payload the name is the NUL-stripped UTF-8 text of bytes 12-266 (as far as they exist) and the content is that of everything after |
| Requests.SendFileRoundTrip | server/protocol/requests.py:103-111 | an encoded file payload decodes back to itself |
| Requests.DecodeChecksumCorrect | server/protocol/requests.py:118-121 | succeeds iff the name field decodes, and then gives that name; the only error is a UnicodeDecodeError |
| Requests.DecodeChecksumFailed | server/protocol/requests.py:128-131 | succeeds iff the name field decodes, and then gives that name; the only error is a UnicodeDecodeError |
| Requests.DecodeChecksumShutDown | server/protocol/requests.py:138-141 | succeeds iff the name field decodes, and then gives that name; the only error is a UnicodeDecodeError |
| Requests.DeserializePayload | server/protocol/requests.py:144-162 | raises the unknown-code ValueError iff the code is none of the seven; each of the seven codes gives exactly its own decoder applied to the data, and a payload it returns is of the code's kind |
| Requests.NamePayloadRoundTrip | server/protocol/requests.py:144-162 | for every name-only code, a padded name decodes to a payload of that code carrying the name |
| Responses.SerializeHeader | server/protocol/responses.py:23-25 | AttributeError iff the code is a plain integer; otherwise exactly 7 bytes (version, big-endian code, big-endian size) when both fit, and struct.error when either does not |
| Responses.NewRegisterOk | server/protocol/responses.py:34-38 | ValueError iff the id is not 16 bytes; otherwise the id is stored |
| Responses.NewAESSendKey | server/protocol/responses.py:49-54 | ValueError iff the id is not 16 bytes; otherwise the id and the key are stored |
| Responses.NewFileOk | server/protocol/responses.py:60-69 | ValueError iff the id is not 16 bytes or the name is longer than 255; otherwise the name is NUL-padded to 255, starting with the given name |
| Responses.NewMessageOk | server/protocol/responses.py:80-84 | ValueError iff the id is not 16 bytes |
| Responses.NewLoginOkSendAes | server/protocol/responses.py:90-95 | ValueError iff the id is not 16 bytes; otherwise the id and the key are stored |
| Responses.NewLoginFail | server/protocol/responses.py:101-105 | ValueError iff the id is not 16 bytes |
| Responses.SerializePayload | server/protocol/responses.py:33-113 | empty for the fail and error payloads; the id unchanged for the id-only payloads; id then key for the key payloads; id, big-endian size, UTF-8 name, big-endian checksum for FileOk, which alone can fail |
| Responses.FileOkBytes | server/protocol/responses.py:71-77 | the FileOk bytes are the id, then four bytes that decode big-endian to the size, then the UTF-8 name, then four bytes that decode big-endian to the checksum; the length is the sum of those |
| Responses.FileOkAsciiLength | server/protocol/responses.py:59-77 | a FileOk payload with an ASCII name serializes to 279 bytes |
| Responses.SerializePacket | server/protocol/responses.py:121-124 | the header bytes followed immediately by the payload bytes; a header error comes first |
| Responses.CreatePacket | server/protocol/responses.py:127-130 | the header's size is the length of the serialized payload |
| Responses.CreatePacketSizeAgrees | server/protocol/responses.py:127-130 | the size field of a created packet equals the number of bytes after its header |
| Responses.RawCodeNeverSerializes | server/protocol/responses.py:25 | a packet whose header code is a plain integer never serializes |
| ResponseUnpacker.StringOf | ResponseUnpacker.cpp:56 | one character per byte, in order |
| ResponseUnpacker.StringOfInverse | ResponseUnpacker.cpp:56 | copying bytes into a string and serializing it back are mutual inverses |
| ResponseUnpacker.DeserializeHeader | ResponseUnpacker.cpp:31-42 | runtime_error below 6 bytes and a read past the end at exactly 6; otherwise the version is byte 0, the code is read at 1 and the size at 3 |
| ResponseUnpacker.DeserializeHeaderChecked | ResponseUnpacker.cpp:31-42 | fails iff there are fewer than 7 bytes; otherwise the same fields |
| ResponseUnpacker.HeaderGuardTooShort | ResponseUnpacker.cpp:32-38 | a 6-byte buffer passes the guard and the size read then runs past the end |
| ResponseUnpacker.HeaderCheckedAgrees | ResponseUnpacker.cpp:31-42 | the corrected decoder agrees with the original wherever the original does not read past the end |
| ResponseUnpacker.ResponseHeader.constructor | ResponseUnpacker.cpp:4-5 | stores the three fields |
| ResponseUnpacker.ResponseHeader.SetResponseCode | ResponseUnpacker.cpp:19-21 | only the code changes |
| ResponseUnpacker.ResponseHeader.SetPayloadSize | ResponseUnpacker.cpp:23-25 | only the size changes |
| ResponseUnpacker.ResponseHeader.SetVersion | ResponseUnpacker.cpp:27-29 | only the version changes |
| ResponseUnpacker.ResponseHeader.Deserialize | ResponseUnpacker.cpp:31-42 | a new header object with the decoded fields, or the decoder's error |
| ResponseUnpacker.NewRegisterOk | ResponseUnpacker.cpp:45-49 | invalid_argument iff the id is not 16 bytes |
| ResponseUnpacker.NewAESSendKey | ResponseUnpacker.cpp:71-76 | length_error iff the id is not 16 bytes |
| ResponseUnpacker.NewFileOk | ResponseUnpacker.cpp:97-105 | invalid_argument iff the id is not 16 bytes or the name is longer than 255 |
| ResponseUnpacker.NewMessageOk | ResponseUnpacker.cpp:137-141 | invalid_argument iff the id is not 16 bytes |
| ResponseUnpacker.NewLoginOk | ResponseUnpacker.cpp:157-162 | invalid_argument iff the id is not 16 bytes |
| ResponseUnpacker.NewLoginFail | ResponseUnpacker.cpp:184-188 | invalid_argument iff the id is not 16 bytes |
| ResponseUnpacker.DeserializeRegisterOk | ResponseUnpacker.cpp:51-58 | accepts exactly 16 bytes, and the id is those bytes |
| ResponseUnpacker.DeserializeRegisterFail | ResponseUnpacker.cpp:65-68 | always succeeds and reads nothing |
| ResponseUnpacker.DeserializeAESSendKey | ResponseUnpacker.cpp:78-86 | invalid_argument iff there are fewer than 144 bytes; the id is bytes 0-15 and the key is bytes 16-143 |
| ResponseUnpacker.AESSendKeyIgnoresTrailing | ResponseUnpacker.cpp:78-86 | bytes after offset 144 do not change the result |
| ResponseUnpacker.FileOkFields | ResponseUnpacker.cpp:112-117 | from 275 bytes up, succeeds iff the checksum window fits; the id, size, name and checksum come from their offsets |
| ResponseUnpacker.DeserializeFileOk | ResponseUnpacker.cpp:107-118 | runtime_error below 275 bytes and a read past the end from 275 to 278; otherwise the fields at their offsets |
| ResponseUnpacker.DeserializeFileOkChecked | ResponseUnpacker.cpp:107-118 | fails iff there are fewer than 279 bytes; otherwise the same fields |
| ResponseUnpacker.FileOkGuardTooShort | ResponseUnpacker.cpp:108-115 | a 275-byte buffer passes the guard and the checksum read then runs past the end |
| ResponseUnpacker.DeserializeMessageOk | ResponseUnpacker.cpp:143-150 | accepts exactly 16 bytes, and the id is those bytes |
| ResponseUnpacker.DeserializeLoginOk | ResponseUnpacker.cpp:164-173 | needs at least 16 bytes; the id is the first 16 and the key is every later byte |
| ResponseUnpacker.DeserializeLoginFail | ResponseUnpacker.cpp:190-197 | accepts exactly 16 bytes, and the id is those bytes |
| ResponseUnpacker.DeserializeGeneralError | ResponseUnpacker.cpp:204-207 | always succeeds and reads nothing |
| Session.Frame | server/client_handler.py:86-89 | a frame with the server version and the given code and size, whose body is the serialized payload; fails iff the size or payload does not pack |
| Session.GeneralErrorFrame | server/client_handler.py:163-167 | a well-formed 7-byte GENERAL_ERROR frame |
| Session.RegisterFailFrame | server/client_handler.py:65-68 | a well-formed 7-byte REGISTER_FAIL frame |
| Session.RegisterOkReply | server/client_handler.py:86-89 | a well-formed REGISTER_OK frame carrying the id iff the id is 16 bytes, and ValueError otherwise |
| Session.KeyReply | server/client_handler.py:106-110 | a well-formed frame carrying id + wrapped key, iff wrapping succeeds and the id is 16 bytes |
| Session.LoginFailReply | server/client_handler.py:141-144 | a well-formed LOGIN_FAIL frame carrying the session id iff it is 16 bytes |
| Session.AsWrittenFrame | server/client_handler.py:87 | a header built with `ResponseCode.X.value` always fails with AttributeError |
| Session.RecvStep | server/client_handler.py:37 | `recv` returns a prefix of at most n bytes, and the inbox keeps the rest |
| Session.RegisterPreserves | server/client_handler.py:59-92 | registration keeps the session invariant, appends at most two frames and never raises |
| Session.RegisterTakenName | server/client_handler.py:63-68 | a taken name sends one 7-byte REGISTER_FAIL frame and changes nothing else |
| Session.RegisterNewName | server/client_handler.py:74-89 | a new name sets the session name and the fresh id, files a record with the current keys, and sends one REGISTER_OK carrying the id |
| Session.RegisterDbFailure | server/client_handler.py:77-92 | a failing registry write sends GENERAL_ERROR and then REGISTER_OK, and files no record |
| Session.KeySendPreserves | server/client_handler.py:95-113 | key exchange keeps the invariant and never raises |
| Session.KeySendReply | server/client_handler.py:95-113 | installs the public key and the new AES key, leaves the registry unchanged, and sends one frame: AES_SEND_KEY carrying id + wrapped key, or GENERAL_ERROR |
| Session.LoginPreserves | server/client_handler.py:116-137 | login keeps the invariant and appends at most two frames |
| Session.LoginUnknownName | server/client_handler.py:135-137 | an unknown name raises NameError and changes nothing |
| Session.LoginWithoutId | server/client_handler.py:120-144 | a session without an id persists the new key and then raises ValueError, sending nothing |
| Session.LoginKnownName | server/client_handler.py:120-130 | the new key is installed and persisted, and one LOGIN_OK_SEND_AES frame carries id + wrapped key |
| Session.LoginWrapFails | server/client_handler.py:120-133 | with an id but a key reply that cannot be built, the new key is still installed and persisted, and one LOGIN_FAIL frame carries the id |
| Session.DispatchPreserves | server/client_handler.py:42-57 | every handler keeps the invariant |
| Session.NoOpRequests | server/client_handler.py:147-160 | the file and checksum requests leave the whole session unchanged |
| Session.RecvFollows | server/client_handler.py:37-39 | a read only consumes a prefix of the inbox |
| Session.PayloadStepPreserves | server/client_handler.py:39-57 | reading, decoding and dispatching the payload keeps the invariant |
| Session.HandlePreserves | server/client_handler.py:36-57 | one `handle` keeps the invariant, only appends frames (at most two) and consumes a prefix of the inbox |
| Session.DispatchKeepsInbox | server/client_handler.py:42-57 | the handlers do not read the socket |
| Session.ShortHeaderRaises | server/client_handler.py:37-38 | a header cut short raises a decode error after consuming the inbox, and sends nothing |
| Session.HandleReadsThenDispatches | server/client_handler.py:36-57 | `handle` consumes the header bytes, then exactly min(announced size, bytes left) more, and then either raises the payload's decode error (the unknown-code error among them) or is the handler of the decoded payload |
| Session.AsWrittenRegisterSendsNothing | server/client_handler.py:59-92 | as written, registration sets the name and id and files the record like the corrected program, then raises AttributeError and sends nothing |
| Session.AsWrittenKeySendSendsNothing | server/client_handler.py:95-113 | as written, key exchange installs both keys, then raises AttributeError and sends nothing |
| Session.AsWrittenLoginSendsNothing | server/client_handler.py:116-137 | as written, login never sends a frame and never changes the registry: an unknown name raises NameError, and a known name installs the new key and raises TypeError from the one-argument `update_client_aes_key` call, the same state as the corrected login whose write fails |
| Session.ClientHandler.constructor | server/client_handler.py:24-34 | empty name, id and keys, and nothing sent; the session invariant holds whenever the registry files each record under its own name with a 16-byte id |
| Session.ClientHandler.Recv | server/client_handler.py:37 | equals `RecvStep` on the object's state |
| Session.ClientHandler.Send | server/client_handler.py:68 | appends exactly one frame and changes nothing else |
| Session.ClientHandler.SendGeneralError | server/client_handler.py:163-167 | appends the GENERAL_ERROR frame |
| Session.ClientHandler.HandleRegistration | server/client_handler.py:59-92 | updates the fields exactly as `RegisterStep` |
| Session.ClientHandler.HandleKeySend | server/client_handler.py:95-113 | updates the fields exactly as `KeySendStep` |
| Session.ClientHandler.SendLoginFailed | server/client_handler.py:140-144 | updates the fields exactly as `LoginFailedStep` |
| Session.ClientHandler.HandleLogin | server/client_handler.py:116-137 | updates the fields exactly as `LoginStep` |
| Session.ClientHandler.HandleFileSend | server/client_handler.py:147-148 | changes nothing |
| Session.ClientHandler.HandleChecksumOk | server/client_handler.py:151-152 | changes nothing |
| Session.ClientHandler.HandleChecksumFail | server/client_handler.py:155-156 | changes nothing |
| Session.ClientHandler.HandleChecksumShutdown | server/client_handler.py:159-160 | changes nothing |
| Session.ClientHandler.Handle | server/client_handler.py:36-57 | updates the fields exactly as `HandleStep`; from a valid session it leaves a valid one that only appended frames (at most two) and consumed a prefix of the socket bytes |
| Session.ClientHandler.Dispatch | server/client_handler.py:42-55 | runs the handler of the payload's kind, exactly as `DispatchStep` |
| Interop.IntendedHeaderReachesServer | server/protocol/requests.py:29-36 | a client header with the intended binding and a 16-character ASCII id, followed by any bytes, decodes on the server to the same id, version, code and size |
| Interop.IntendedRegistrationAccepted | server/protocol/requests.py:146-148 | with the intended binding, a registration reaches the registration decoder and yields the padded name |
| Interop.AsWrittenRegistrationRejected | RequestManager.cpp:51 | the registration header as built reaches the server as version 255, code 3 and size 825, and the factory rejects code 3 |
| Interop.RawIdRejected | server/protocol/requests.py:31 | an id whose first byte is a UTF-8 continuation byte is rejected with a Unicode error |
| Interop.FrameHeaderDecodes | ResponseUnpacker.cpp:31-42 | every well-formed frame, read with big-endian readers, gives its code, the server version and the exact payload length |
| Interop.SentFramesDecode | ResponseUnpacker.cpp:31-42 | every frame a session has sent decodes on the client to its own code and size |
| Interop.LittleEndianReaderMisreads | ResponseUnpacker.cpp:37 | little-endian readers misread every response code |
| Interop.RegisterOkReplyDecodes | ResponseUnpacker.cpp:51-58 | the REGISTER_OK reply decodes to code 1600, size 16, version 3 and the id |
| Interop.AESSendKeyDecodes | ResponseUnpacker.cpp:78-86 | the key reply decodes iff the wrapped key has at least 128 bytes, and then gives the id and the first 128 key bytes |
| Interop.LoginOkDecodes | ResponseUnpacker.cpp:164-173 | the login reply decodes to the id and the whole wrapped key |
| Interop.IdRepliesDecode | ResponseUnpacker.cpp:143-150 | the MESSAGE_OK and LOGIN_FAIL payloads decode to the id |
| Interop.FileOkDecodes | ResponseUnpacker.cpp:107-118 | a FileOk payload with an ASCII name decodes to its id, size, padded name and checksum |

## Left out

- server/server.py: the accept loop and thread per connection. This is
  concurrency and I/O. `handle` is modelled for a single request.
- The database lock `_db_lock`. Its only purpose is mutual exclusion.
- server/database_management.py: the SQL. The registry is an abstract map from
  name to record, and a write that raises is an input (`Env.dbFails`).
  `ClientDBManager` is not part of this model.
- Crypto (server/crypto/*.py, AESWrapper.cpp, RSAEncryption.cpp and the
  checksum):
  - AES key generation and `uuid4` are inputs (`Env.newKey`, `Env.freshId`);
  - RSA wrapping is an uninterpreted function that may fail.
- The socket:
  - `recv` returns the next bytes of a finite inbox, so short reads that are
    not at the end of the stream are not modelled;
  - `send` always succeeds and appends one frame;
  - the `print` calls are not modelled.
- `client_exists_by_name` never raises.
- Session.RegisterStep, Session.KeySendStep, Session.LoginStep, Session.LoginFailedStep:
  these build each response header with the enum member, which is the
  corrected half of the client_handler.py:66 finding, so they and the session
  class send the frames the program evidently intends. The program as written
  sends no frame at all; `AsWrittenRegisterStep`, `AsWrittenKeySendStep` and
  `AsWrittenLoginStep` model it, and the `AsWritten…SendsNothing` lemmas state
  their outcome.
- Session.LoginStep: `update_client_aes_key(self._aes_key)` at
  client_handler.py:123 passes one argument. The call goes to a
  `ClientDBManager` method, and that class is not defined in
  server/database_management.py. That file defines only a module-level
  `update_client_aes_key(client_id, aes_key)` at line 58, with two
  parameters. The two-parameter arity of the method is inferred from that
  function. On that reading, as written, the call raises `TypeError` outside any `try`, so a login under a
  known name never reaches its reply; `AsWrittenLoginStep` models that. In
  `LoginStep`, the call is the evidently intended write of the new key into
  the record filed under the login name, and a write that raises is
  `Env.dbFails`. The lemmas with `!env.dbFails` (`LoginKnownName`,
  `LoginWrapFails`, `LoginWithoutId`) describe that intended registry API.
- The client integer readers `deserializeShort` and `deserializeInt`, the
  string payloads' `serializePayload`, `splitIntoChunks`, and the client
  program (Client.cpp, Main.cpp) are not part of this model.
- Chunk reassembly and CRC checking on the server are not modelled. Their
  handlers are empty.
- Session.ClientHandler.Handle dispatches on the decoded payload's kind rather
  than re-comparing the header code. The two agree because
  `Requests.DeserializePayload` builds a payload only of the header code's kind.
  Its final `ValueError` is the factory's own.
- ResponseUnpacker.DeserializeHeader keeps the code as the raw `uint16_t`. The
  `static_cast` to the enum is not modelled, because it does not change the
  value.

## Findings

| source | as written | input that shows it | evidently intended | confidence | as-written member | corrected member |
|---|---|---|---|---|---|---|
| server/client_handler.py:66 | every response header is built with `ResponseCode.X.value`, a plain `int`, and `ResponseHeader.serialize` (responses.py:25) then calls `.value` on it | a registration or key-exchange request, e.g. registration of a taken name | the enum member is passed, and the frame serializes | high, not executed | Session.AsWrittenFrame | Session.Frame |
| ResponseUnpacker.cpp:32 | the guard rejects fewer than 6 bytes, but the size is read from bytes 3-6 | a 6-byte buffer | reject fewer than 7 bytes | high, not executed | ResponseUnpacker.HeaderGuardTooShort | ResponseUnpacker.DeserializeHeaderChecked |
| ResponseUnpacker.cpp:108 | the guard rejects fewer than 275 bytes, but the checksum is read from bytes 275-278 | a 275-byte buffer | reject fewer than 279 bytes | high, not executed | ResponseUnpacker.FileOkGuardTooShort | ResponseUnpacker.DeserializeFileOkChecked |
| RequestManager.cpp:51 | `Header(clientID, version, code, payloadSize)` against the parameters `(clientID, code, payloadSize, version)` | a registration with any 255-character name | each argument stored in its own field | high, not executed | Interop.AsWrittenRegistrationRejected | Interop.IntendedRegistrationAccepted |
