/**
 * What the two sides make of each other's bytes: client request headers
 * read by the server's decoder, and server response frames read by the
 * client's decoders.
 *
 * The client's integer readers are not part of this model; the lemmas here
 * instantiate them with big-endian readers, which is the order the server
 * writes, and with little-endian readers, which is the order the client's
 * own encoders use.
 */
module Interop {
  import opened Bytes
  import Utils
  import RM = RequestManager
  import Q = Requests
  import R = Responses
  import U = ResponseUnpacker
  import S = Session

  /** A big-endian reader over an exact two-byte window. */
  function ReadBE16(w: seq<byte>): (v: u16)
    ensures |w| == 2 ==> v == DecodeBE(w)
  {
    if |w| == 2 then BE2(w); 256 * (w[0] as int) + w[1] as int else 0
  }

  /** A big-endian reader over an exact four-byte window. */
  function ReadBE32(w: seq<byte>): (v: u32)
    ensures |w| == 4 ==> v == DecodeBE(w)
  {
    if |w| == 4 then
      BE4(w);
      DecodeBEBound(w);
      assert Pow256(4) == 0x1_0000_0000 by {
        assert Pow256(1) == 0x100 && Pow256(2) == 0x1_0000 && Pow256(3) == 0x100_0000;
      }
      DecodeBE(w)
    else 0
  }

  /** A little-endian reader over an exact two-byte window. */
  function ReadLE16(w: seq<byte>): (v: u16)
    ensures |w| == 2 ==> v == DecodeLE(w)
  {
    if |w| == 2 then LE2(w); w[0] as int + 256 * (w[1] as int) else 0
  }

  /** A little-endian reader over an exact four-byte window. */
  function ReadLE32(w: seq<byte>): (v: u32)
    ensures |w| == 4 ==> v == DecodeLE(w)
  {
    if |w| == 4 then
      DecodeLEBound(w);
      assert Pow256(4) == 0x1_0000_0000 by {
        assert Pow256(1) == 0x100 && Pow256(2) == 0x1_0000 && Pow256(3) == 0x100_0000;
      }
      DecodeLE(w)
    else 0
  }

  // ---------------------------------------------------------------------
  // Client requests read by the server

  /** The client's id characters read as text. */
  function IdText(clientID: RM.CppString): (s: string)
    ensures |s| == |clientID| && forall i :: 0 <= i < |s| ==> s[i] == clientID[i] as char
  {
    seq(|clientID|, i requires 0 <= i < |clientID| => clientID[i] as char)
  }

  /** An id the server can read back: 16 ASCII characters, without NUL at either end. */
  predicate PlainId(clientID: RM.CppString)
  {
    |clientID| == Q.CLIENT_ID_SIZE && IsAscii(IdText(clientID)) && NoNulEnds(IdText(clientID))
  }

  lemma AsciiIdBytes(clientID: RM.CppString)
    requires IsAscii(IdText(clientID))
    ensures Utf8Encode(IdText(clientID)) == Utils.SerializeString(clientID)
  {
    Utf8EncodeAscii(IdText(clientID));
  }

  /**
   * The bytes the client writes for a header, read by the server, when
   * the header's fields are bound to their own parameters.
   */
  lemma IntendedHeaderReachesServer(clientID: RM.CppString, version: byte, code: u16, payloadSize: u32, rest: seq<byte>)
    requires PlainId(clientID)
    ensures Q.DeserializeHeader(RM.HeaderBytes(RM.IntendedHeader(clientID, version, code, payloadSize)) + rest)
            == Ok(Q.RequestHeader(IdText(clientID), code, payloadSize, version))
  {
    var h := Q.RequestHeader(IdText(clientID), code, payloadSize, version);
    AsciiIdBytes(clientID);
    assert Q.PadField(h.clientId, Q.CLIENT_ID_SIZE) == Utils.SerializeString(clientID);
    assert EncodeLE(version, 1) == [version];
    assert Q.EncodeHeader(h) == RM.HeaderBytes(RM.IntendedHeader(clientID, version, code, payloadSize));
    Q.HeaderRoundTrip(h, rest);
  }

  /**
   * With the intended binding a registration request is dispatched to the
   * registration decoder and yields the name the client padded.
   */
  lemma IntendedRegistrationAccepted(clientID: RM.CppString, name: string, rest: seq<byte>)
    requires PlainId(clientID)
    requires |Utf8Encode(name)| <= Q.NAME_SIZE && NoNulEnds(name)
    ensures var data := RM.HeaderBytes(RM.IntendedHeader(clientID, RM.CLIENT_VERSION, RM.REGISTER_CODE, Q.NAME_SIZE));
            var header := Q.DeserializeHeader(data);
            header.Ok? && header.value.code == 825
            && Q.DeserializePayload(header.value.code, Q.PadField(name, Q.NAME_SIZE) + rest) == Ok(Q.RegisterPayload(name))
  {
    var data := RM.HeaderBytes(RM.IntendedHeader(clientID, RM.CLIENT_VERSION, RM.REGISTER_CODE, Q.NAME_SIZE));
    IntendedHeaderReachesServer(clientID, RM.CLIENT_VERSION, RM.REGISTER_CODE, Q.NAME_SIZE, []);
    assert data + [] == data;
    Q.NamePayloadRoundTrip(Q.REGISTER, name, rest);
  }

  /**
   * The registration header the client's builder actually produces reaches
   * the server as code 3, which the payload factory rejects whatever the
   * payload bytes are.
   */
  lemma AsWrittenRegistrationRejected(clientID: RM.CppString, name: RM.CppString, payload: seq<byte>)
    requires PlainId(clientID) && |name| == RM.NAME_SIZE
    ensures var data := RM.HeaderBytes(RM.RegistrationPacket(clientID, name).value.header);
            var header := Q.DeserializeHeader(data);
            header.Ok? && header.value.version == 255 && header.value.code == 3 && header.value.payloadSize == 825
            && Q.DeserializePayload(header.value.code, payload) == Err(Q.UnknownPayloadCode(3))
  {
    var h := RM.RegistrationPacket(clientID, name).value.header;
    RM.RegistrationHeaderShifted(clientID, name);
    assert h == RM.IntendedHeader(clientID, 255, 3, 825);
    IntendedHeaderReachesServer(clientID, 255, 3, 825, []);
    assert RM.HeaderBytes(h) + [] == RM.HeaderBytes(h);
  }

  /**
   * The server decodes the 16 id bytes as UTF-8; an id (a raw UUID on the
   * client) whose first byte is a continuation byte is rejected.
   */
  lemma RawIdRejected(clientID: RM.CppString, version: byte, code: u16, payloadSize: u32)
    requires |clientID| == Q.CLIENT_ID_SIZE && 0x80 <= clientID[0] as int < 0xC0
    ensures Q.DeserializeHeader(RM.HeaderBytes(RM.IntendedHeader(clientID, version, code, payloadSize)))
            == Err(Q.UnicodeDecodeError)
  {
    var b := RM.HeaderBytes(RM.IntendedHeader(clientID, version, code, payloadSize));
    var id := b[..16];
    assert Slice(b, 0, Q.CLIENT_ID_SIZE) == id;
    assert id[0] == clientID[0] as int;
    assert DecodeScalar(id).None?;
  }

  // ---------------------------------------------------------------------
  // Server responses read by the client

  /**
   * Every well-formed frame, read by the client's header decoder (with the
   * length guard of the 7-byte layout) and big-endian readers, yields the
   * frame's code, the server version and exactly the number of bytes that
   * follow the header.
   */
  lemma FrameHeaderDecodes(f: seq<byte>)
    requires S.WellFormed(f)
    ensures var h := U.DeserializeHeaderChecked(f, ReadBE16, ReadBE32);
            h.Ok? && h.value.responseCode == S.CodeOf(f) && h.value.payloadSize == |f| - R.HEADER_SIZE
            && h.value.version == S.SERVER_VERSION
  {
    DecodeBEBound(f[1..3]);
    DecodeBEBound(f[3..7]);
    assert Pow256(2) == 0x1_0000 && Pow256(4) == 0x1_0000_0000 by {
      assert Pow256(1) == 0x100 && Pow256(3) == 0x100_0000;
    }
  }

  /** Every frame a session has sent is read back by the client with its own code and exact size. */
  lemma SentFramesDecode(s: S.SessionState, i: nat)
    requires S.Inv(s) && i < |s.sent|
    ensures var h := U.DeserializeHeaderChecked(s.sent[i], ReadBE16, ReadBE32);
            h.Ok? && h.value.responseCode == S.CodeOf(s.sent[i]) && h.value.payloadSize == |s.sent[i]| - R.HEADER_SIZE
            && h.value.version == S.SERVER_VERSION
  {
    FrameHeaderDecodes(s.sent[i]);
  }

  /**
   * Reading the server's big-endian code with little-endian readers gives a
   * different number for every response code.
   */
  lemma LittleEndianReaderMisreads(code: R.ResponseCode, version: byte, size: u32)
    ensures var b := R.SerializeHeader(R.ResponseHeader(version, R.Member(code), size)).value;
            U.DeserializeHeaderChecked(b, ReadLE16, ReadLE32).value.responseCode != code.Value()
  {
    var b := R.SerializeHeader(R.ResponseHeader(version, R.Member(code), size)).value;
    var w := b[1..3];
    BE2(w);
    LE2(w);
  }

  /** The registration reply the session sends decodes on the client to REGISTER_OK, size 16, and the id it carries. */
  lemma RegisterOkReplyDecodes(clientId: seq<byte>)
    requires |clientId| == S.CLIENT_ID_SIZE
    ensures var f := S.RegisterOkReply(clientId).value;
            U.DeserializeHeaderChecked(f[..R.HEADER_SIZE], ReadBE16, ReadBE32) == Ok(U.HeaderFields(1600, 16, 3))
            && var p := U.DeserializeRegisterOk(f[R.HEADER_SIZE..]);
               p.Ok? && Utils.SerializeString(p.value.clientID) == clientId
  {
    var f := S.RegisterOkReply(clientId).value;
    FrameHeaderDecodes(f);
    assert f[..R.HEADER_SIZE][1..3] == f[1..3] && f[..R.HEADER_SIZE][3..7] == f[3..7];
  }

  /**
   * The key-exchange reply decodes on the client only when the wrapped key
   * has at least 128 bytes, and then to the id and the first 128 bytes of
   * the wrapped key.
   */
  lemma AESSendKeyDecodes(clientId: seq<byte>, aesKey: seq<byte>)
    requires |clientId| == R.CLIENT_ID_SIZE
    ensures var b := R.SerializePayload(R.NewAESSendKey(clientId, aesKey).value).value;
            var p := U.DeserializeAESSendKey(b);
            (p.Ok? <==> |aesKey| >= 128)
            && (p.Ok? ==> Utils.SerializeString(p.value.clientID) == clientId
                          && Utils.SerializeString(p.value.aesKey) == aesKey[..128])
  {
    var b := R.SerializePayload(R.NewAESSendKey(clientId, aesKey).value).value;
    assert b == clientId + aesKey;
    assert b[..16] == clientId;
    if |aesKey| >= 128 {
      assert b[16..144] == aesKey[..128];
    }
  }

  /** The login reply decodes on the client to the id and the whole wrapped key, whatever its length. */
  lemma LoginOkDecodes(clientId: seq<byte>, aesKey: seq<byte>)
    requires |clientId| == R.CLIENT_ID_SIZE
    ensures var b := R.SerializePayload(R.NewLoginOkSendAes(clientId, aesKey).value).value;
            var p := U.DeserializeLoginOk(b);
            p.Ok? && Utils.SerializeString(p.value.clientID) == clientId
            && Utils.SerializeString(p.value.encryptedAESKey) == aesKey
  {
    var b := R.SerializePayload(R.NewLoginOkSendAes(clientId, aesKey).value).value;
    assert b == clientId + aesKey;
    assert b[..16] == clientId && b[16..] == aesKey;
  }

  /** The id-only replies decode on the client to the id. */
  lemma IdRepliesDecode(clientId: seq<byte>)
    requires |clientId| == R.CLIENT_ID_SIZE
    ensures var p := U.DeserializeMessageOk(R.SerializePayload(R.NewMessageOk(clientId).value).value);
            p.Ok? && Utils.SerializeString(p.value.clientID) == clientId
    ensures var p := U.DeserializeLoginFail(R.SerializePayload(R.NewLoginFail(clientId).value).value);
            p.Ok? && Utils.SerializeString(p.value.clientID) == clientId
  {
  }

  /**
   * A file acknowledgement with an ASCII name decodes on the client (with
   * the 279-byte guard and big-endian readers) to the id, the content size,
   * the NUL-padded name and the checksum.
   */
  lemma FileOkDecodes(clientId: seq<byte>, contentSize: u32, fileName: string, checksum: u32)
    requires |clientId| == R.CLIENT_ID_SIZE && |fileName| <= R.NAME_SIZE && IsAscii(fileName)
    ensures var payload := R.NewFileOk(clientId, contentSize, fileName, checksum).value;
            var b := R.SerializePayload(payload).value;
            var p := U.DeserializeFileOkChecked(b, ReadBE32);
            p.Ok? && Utils.SerializeString(p.value.clientID) == clientId
            && p.value.contentSize == contentSize && p.value.checksum == checksum
            && Utils.SerializeString(p.value.fileName) == Utf8Encode(payload.fileName)
  {
    var payload := R.NewFileOk(clientId, contentSize, fileName, checksum).value;
    R.FileOkAsciiLength(clientId, contentSize, fileName, checksum);
    var b := R.SerializePayload(payload).value;
    var n := |Utf8Encode(payload.fileName)|;
    assert n == R.NAME_SIZE;
    assert |b| == 279;
    assert b[..16] == clientId;
    assert DecodeBE(b[16..20]) == contentSize;
    assert b[20..275] == Utf8Encode(payload.fileName);
    assert DecodeBE(b[275..]) == checksum;
    assert b[275..] == b[275..279];
  }
}
