/**
 * The server's per-connection session (server/client_handler.py). A
 * `ClientHandler` reads one request from its socket, decodes it, and runs
 * the handler for its code. The handlers update the session fields and
 * the client registry, and append response frames to the socket.
 *
 * Abstractions:
 * - The socket is a byte inbox that `recv` consumes, plus the sequence of
 *   frames sent.
 * - The client database is a map from client name to record.
 * - `uuid.uuid4().bytes`, the generated AES key and whether a database
 *   write raises come in as an `Env` value.
 * - RSA wrapping of the AES key is an uninterpreted function that may fail.
 *
 * Every response header is built with the enum member as its code (see
 * `AsWrittenFrame` for the plain-integer codes of client_handler.py).
 */
module Session {
  import opened Bytes
  import Q = Requests
  import R = Responses

  const CLIENT_HEADER_SIZE := 23
  const CLIENT_ID_SIZE := 16
  const SERVER_VERSION: byte := 3

  datatype ClientRecord = ClientRecord(clientId: seq<byte>, name: string, publicKey: string, aesKey: seq<byte>)

  /** Everything a handler can change: the unread socket bytes, the session fields, the registry and the frames sent. */
  datatype SessionState = SessionState(
    inbox: seq<byte>,
    clientName: string,
    clientId: seq<byte>,
    publicKey: string,
    aesKey: seq<byte>,
    clients: map<string, ClientRecord>,
    sent: seq<seq<byte>>)

  /** The values the environment supplies to one request. */
  datatype Env = Env(freshId: seq<byte>, newKey: seq<byte>, dbFails: bool)

  /** RSA encryption of a key under a public key; `None` when it raises. */
  type Wrap = (seq<byte>, string) -> Option<seq<byte>>

  /** The exception that ends a handler. */
  datatype Failure =
    | Decode(error: Q.RequestError)  // from the request decoders
    | Encode(pyError: R.PyError)     // from a response constructor or `struct.pack`
    | CryptoError                    // from RSA encryption
    | NameError                      // an unbound name
    | DbError                        // from a database write outside any `try`
    | TypeError                      // a call with the wrong number of arguments, outside any `try`

  datatype Outcome = Done | Raised(failure: Failure)

  function Lift<T>(r: Result<T, R.PyError>): (l: Result<T, Failure>)
    ensures l.Ok? <==> r.Ok?
    ensures l.Ok? ==> l.value == r.value
    ensures l.Err? ==> l.error == Encode(r.error)
  {
    match r
    case Ok(v) => Ok(v)
    case Err(e) => Err(Encode(e))
  }

  // ---------------------------------------------------------------------
  // Response frames

  /** A frame whose header names the server version and announces exactly the bytes that follow it. */
  predicate WellFormed(f: seq<byte>)
  {
    |f| >= R.HEADER_SIZE && f[0] == SERVER_VERSION && DecodeBE(f[3..7]) == |f| - R.HEADER_SIZE
  }

  /** The code field of a frame. */
  function CodeOf(f: seq<byte>): nat
    requires |f| >= R.HEADER_SIZE
  {
    DecodeBE(f[1..3])
  }

  /** Building a response packet with header `(SERVER_VERSION, code, size)` and serializing it. */
  function Frame(code: R.ResponseCode, size: int, payload: R.ResponsePayload): (r: Result<seq<byte>, Failure>)
    ensures r.Ok? <==> 0 <= size < 0x1_0000_0000 && R.SerializePayload(payload).Ok?
    ensures r.Err? ==> r.error == Encode(R.StructError)
    ensures r.Ok? ==> |r.value| >= R.HEADER_SIZE && r.value[0] == SERVER_VERSION
                      && CodeOf(r.value) == code.Value() && DecodeBE(r.value[3..7]) == size
                      && r.value[R.HEADER_SIZE..] == R.SerializePayload(payload).value
  {
    var h := R.ResponseHeader(SERVER_VERSION as int, R.Member(code), size);
    var r := Lift(R.SerializePacket(R.Packet(h, payload)));
    if r.Ok? then
      var hb := R.SerializeHeader(h).value;
      assert r.value[..R.HEADER_SIZE] == hb;
      assert r.value[1..3] == hb[1..3] && r.value[3..7] == hb[3..7];
      r
    else r
  }

  /** `send_general_error`: an empty GENERAL_ERROR payload with size 0. */
  function GeneralErrorFrame(): (f: seq<byte>)
    ensures WellFormed(f) && |f| == R.HEADER_SIZE && CodeOf(f) == R.ResponseCode.GENERAL_ERROR.Value()
  {
    Frame(R.GENERAL_ERROR, 0, R.GeneralErrorPayload).value
  }

  /** The reply to a registration under a name already taken: an empty REGISTER_FAIL payload with size 0. */
  function RegisterFailFrame(): (f: seq<byte>)
    ensures WellFormed(f) && |f| == R.HEADER_SIZE && CodeOf(f) == R.ResponseCode.REGISTER_FAIL.Value()
  {
    Frame(R.REGISTER_FAIL, 0, R.RegisterFailPayload).value
  }

  /** REGISTER_OK with size 16; fails when the id is not 16 bytes. */
  function RegisterOkReply(clientId: seq<byte>): (r: Result<seq<byte>, Failure>)
    ensures r.Ok? <==> |clientId| == CLIENT_ID_SIZE
    ensures r.Err? ==> r.error == Encode(R.ValueError)
    ensures r.Ok? ==> WellFormed(r.value) && CodeOf(r.value) == R.ResponseCode.REGISTER_OK.Value()
                      && r.value[R.HEADER_SIZE..] == clientId
  {
    var payload :- Lift(R.NewRegisterOk(clientId));
    Frame(R.REGISTER_OK, CLIENT_ID_SIZE, payload)
  }

  /** The result of wrapping, as the exception it may raise. */
  function WrapKey(wrap: Wrap, aesKey: seq<byte>, publicKey: string): (r: Result<seq<byte>, Failure>)
    ensures r.Ok? <==> wrap(aesKey, publicKey).Some?
    ensures r.Ok? ==> r.value == wrap(aesKey, publicKey).value
  {
    match wrap(aesKey, publicKey)
    case None => Err(CryptoError)
    case Some(k) => Ok(k)
  }

  /**
   * The key reply shared by key exchange (AES_SEND_KEY) and login
   * (LOGIN_OK_SEND_AES): the id and the wrapped key, with size 16 plus the
   * wrapped key's length.
   */
  function KeyReply(code: R.ResponseCode, clientId: seq<byte>, aesKey: seq<byte>, publicKey: string, wrap: Wrap)
    : (r: Result<seq<byte>, Failure>)
    requires code == R.AES_SEND_KEY || code == R.LOGIN_OK_SEND_AES
    ensures r.Ok? <==> wrap(aesKey, publicKey).Some? && |clientId| == CLIENT_ID_SIZE
                       && CLIENT_ID_SIZE + |wrap(aesKey, publicKey).value| < 0x1_0000_0000
    ensures r.Ok? ==> WellFormed(r.value) && CodeOf(r.value) == code.Value()
                      && r.value[R.HEADER_SIZE..] == clientId + wrap(aesKey, publicKey).value
  {
    var encrypted :- WrapKey(wrap, aesKey, publicKey);
    var payload :- Lift(if code == R.AES_SEND_KEY then R.NewAESSendKey(clientId, encrypted)
                        else R.NewLoginOkSendAes(clientId, encrypted));
    var f :- Frame(code, CLIENT_ID_SIZE + |encrypted|, payload);
    assert f[R.HEADER_SIZE..] == clientId + encrypted;
    Ok(f)
  }

  /** LOGIN_FAIL with size 16 carrying the session id; fails when the id is not 16 bytes. */
  function LoginFailReply(clientId: seq<byte>): (r: Result<seq<byte>, Failure>)
    ensures r.Ok? <==> |clientId| == CLIENT_ID_SIZE
    ensures r.Err? ==> r.error == Encode(R.ValueError)
    ensures r.Ok? ==> WellFormed(r.value) && CodeOf(r.value) == R.ResponseCode.LOGIN_FAIL.Value()
                      && r.value[R.HEADER_SIZE..] == clientId
  {
    var payload :- Lift(R.NewLoginFail(clientId));
    Frame(R.LOGIN_FAIL, CLIENT_ID_SIZE, payload)
  }

  /** A `try` that sends a reply, with `send_general_error` in its `except`. */
  function OrGeneralError(reply: Result<seq<byte>, Failure>): (f: seq<byte>)
    ensures reply.Ok? ==> f == reply.value
    ensures reply.Err? ==> f == GeneralErrorFrame()
  {
    if reply.Ok? then reply.value else GeneralErrorFrame()
  }

  /**
   * The header client_handler.py builds, whose code is `ResponseCode.X.value`, a
   * plain integer: serializing it always raises `AttributeError`.
   */
  function AsWrittenFrame(code: R.ResponseCode, size: int, payload: R.ResponsePayload): (r: Result<seq<byte>, R.PyError>)
    ensures r == Err(R.AttributeError)
  {
    R.SerializePacket(R.Packet(R.ResponseHeader(SERVER_VERSION as int, R.RawInt(code.Value()), size), payload))
  }

  // ---------------------------------------------------------------------
  // The session as a state machine

  /** What the session keeps true: an id is absent or 16 bytes, records are filed under their own names, every frame sent is well formed. */
  predicate Inv(s: SessionState)
  {
    (|s.clientId| == 0 || |s.clientId| == CLIENT_ID_SIZE)
    && (forall n :: n in s.clients ==> s.clients[n].name == n && |s.clients[n].clientId| == CLIENT_ID_SIZE)
    && (forall i :: 0 <= i < |s.sent| ==> WellFormed(s.sent[i]))
  }

  function Initial(inbox: seq<byte>, clients: map<string, ClientRecord>): SessionState
  {
    SessionState(inbox, "", [], "", [], clients, [])
  }

  /** `recv(n)`: the next `n` bytes of the inbox, or all of them if fewer remain. */
  function RecvStep(s: SessionState, n: nat): (r: (SessionState, seq<byte>))
    ensures |r.1| == Min(n, |s.inbox|) && r.1 + r.0.inbox == s.inbox
    ensures r.0 == s.(inbox := r.0.inbox)
  {
    var k := Min(n, |s.inbox|);
    assert s.inbox[..k] + s.inbox[k..] == s.inbox;
    (s.(inbox := s.inbox[k..]), s.inbox[..k])
  }

  function Append(s: SessionState, f: seq<byte>): SessionState
  {
    s.(sent := s.sent + [f])
  }

  /**
   * `handle_registration`. A taken name gets REGISTER_FAIL. A new name
   * becomes the session's name with a fresh id. The record is stored, or
   * GENERAL_ERROR is sent when the write raises, and REGISTER_OK follows in
   * both cases.
   */
  function RegisterStep(s: SessionState, name: string, env: Env): (SessionState, Outcome)
  {
    if name in s.clients then
      (Append(s, RegisterFailFrame()), Done)
    else
      var s1 := s.(clientName := name, clientId := env.freshId);
      var s2 := if env.dbFails then Append(s1, GeneralErrorFrame())
                else s1.(clients := s1.clients[name := ClientRecord(s1.clientId, s1.clientName, s1.publicKey, s1.aesKey)]);
      (Append(s2, OrGeneralError(RegisterOkReply(s2.clientId))), Done)
  }

  /**
   * `handle_key_send`. The session takes the supplied public key and a new
   * AES key. Both registry updates are called without their arguments, so
   * they raise `TypeError`, which is caught, and the registry is unchanged.
   * The reply is AES_SEND_KEY, or GENERAL_ERROR if building it raises.
   */
  function KeySendStep(s: SessionState, publicKey: string, newKey: seq<byte>, wrap: Wrap): (SessionState, Outcome)
  {
    var s1 := s.(publicKey := publicKey, aesKey := newKey);
    (Append(s1, OrGeneralError(KeyReply(R.AES_SEND_KEY, s1.clientId, s1.aesKey, s1.publicKey, wrap))), Done)
  }

  /** `send_login_failed`: LOGIN_FAIL with the session id, or the `ValueError` of a missing id, uncaught. */
  function LoginFailedStep(s: SessionState): (SessionState, Outcome)
  {
    var reply := LoginFailReply(s.clientId);
    if reply.Ok? then (Append(s, reply.value), Done) else (s, Raised(reply.error))
  }

  /**
   * `handle_login`. An unknown name reaches a `print` of an unbound name and
   * raises `NameError`. A known name gets a new AES key, which is persisted
   * outside any `try`. The reply is LOGIN_OK_SEND_AES, or
   * `send_login_failed` if building it raises.
   */
  function LoginStep(s: SessionState, name: string, env: Env, wrap: Wrap): (SessionState, Outcome)
  {
    if name !in s.clients then (s, Raised(NameError))
    else
      var s1 := s.(aesKey := env.newKey);
      if env.dbFails then (s1, Raised(DbError))
      else
        var s2 := s1.(clients := s1.clients[name := s1.clients[name].(aesKey := s1.aesKey)]);
        var reply := KeyReply(R.LOGIN_OK_SEND_AES, s2.clientId, s2.aesKey, s2.publicKey, wrap);
        if reply.Ok? then (Append(s2, reply.value), Done) else LoginFailedStep(s2)
  }

  /** The handler for a decoded payload; the file and checksum handlers do nothing. */
  function DispatchStep(s: SessionState, p: Q.RequestPayload, env: Env, wrap: Wrap): (SessionState, Outcome)
  {
    match p
    case RegisterPayload(name) => RegisterStep(s, name, env)
    case SendKeyPayload(_, publicKey) => KeySendStep(s, publicKey, env.newKey, wrap)
    case LoginPayload(name) => LoginStep(s, name, env, wrap)
    case SendFilePayload(_, _, _, _, _, _) => (s, Done)
    case ChecksumCorrectPayload(_) => (s, Done)
    case ChecksumFailedPayload(_) => (s, Done)
    case ChecksumShutDownPayload(_) => (s, Done)
  }

  /** `handle`: read and decode the 23-byte header, then go on with its payload. */
  function HandleStep(s: SessionState, env: Env, wrap: Wrap): (SessionState, Outcome)
  {
    var (s1, headerData) := RecvStep(s, CLIENT_HEADER_SIZE);
    match Q.DeserializeHeader(headerData)
    case Err(e) => (s1, Raised(Decode(e)))
    case Ok(header) => PayloadStep(s1, header, env, wrap)
  }

  /** The rest of `handle`: read as many bytes as the header announces, decode them for its code, dispatch. */
  function PayloadStep(s: SessionState, header: Q.RequestHeader, env: Env, wrap: Wrap): (SessionState, Outcome)
  {
    var (s1, payloadData) := RecvStep(s, header.payloadSize);
    match Q.DeserializePayload(header.code, payloadData)
    case Err(e) => (s1, Raised(Decode(e)))
    case Ok(payload) => DispatchStep(s1, payload, env, wrap)
  }

  // ---------------------------------------------------------------------
  // Properties of the steps

  /** A step only appends to the frames sent, and at most two frames. */
  predicate AppendsAtMostTwo(s: SessionState, t: SessionState)
  {
    |s.sent| <= |t.sent| <= |s.sent| + 2 && t.sent[..|s.sent|] == s.sent
  }

  /** Sending a well-formed frame keeps the invariant and keeps the earlier frames. */
  lemma AppendKeeps(s: SessionState, f: seq<byte>)
    requires Inv(s) && WellFormed(f)
    ensures Inv(Append(s, f)) && Append(s, f).sent[..|s.sent|] == s.sent
  {
    var t := Append(s, f);
    assert forall i :: 0 <= i < |t.sent| ==> t.sent[i] == (if i < |s.sent| then s.sent[i] else f);
  }

  lemma RegisterPreserves(s: SessionState, name: string, env: Env)
    requires Inv(s) && |env.freshId| == CLIENT_ID_SIZE
    ensures Inv(RegisterStep(s, name, env).0)
    ensures AppendsAtMostTwo(s, RegisterStep(s, name, env).0)
    ensures RegisterStep(s, name, env).1 == Done
  {
    if name in s.clients {
      AppendKeeps(s, RegisterFailFrame());
    } else {
      var s1 := s.(clientName := name, clientId := env.freshId);
      var s2 := if env.dbFails then Append(s1, GeneralErrorFrame())
                else s1.(clients := s1.clients[name := ClientRecord(s1.clientId, s1.clientName, s1.publicKey, s1.aesKey)]);
      if env.dbFails {
        AppendKeeps(s1, GeneralErrorFrame());
      }
      var f := OrGeneralError(RegisterOkReply(s2.clientId));
      AppendKeeps(s2, f);
      var t := Append(s2, f);
      assert t == RegisterStep(s, name, env).0;
      assert t.sent[..|s.sent|] == s2.sent[..|s.sent|];
    }
  }

  /** A taken name: one REGISTER_FAIL frame, and nothing else changes. */
  lemma RegisterTakenName(s: SessionState, name: string, env: Env)
    requires name in s.clients
    ensures RegisterStep(s, name, env) == (s.(sent := s.sent + [RegisterFailFrame()]), Done)
    ensures CodeOf(RegisterFailFrame()) == 1601 && |RegisterFailFrame()| == R.HEADER_SIZE
  {
  }

  /**
   * A new name with a working database: the session takes the name and the
   * fresh id, the registry files a record with the session's current keys,
   * and one REGISTER_OK frame carries the id.
   */
  lemma RegisterNewName(s: SessionState, name: string, env: Env)
    requires name !in s.clients && !env.dbFails && |env.freshId| == CLIENT_ID_SIZE
    ensures var t := RegisterStep(s, name, env).0;
            t.clientName == name && t.clientId == env.freshId
            && t.publicKey == s.publicKey && t.aesKey == s.aesKey && t.inbox == s.inbox
            && t.clients == s.clients[name := ClientRecord(env.freshId, name, s.publicKey, s.aesKey)]
            && |t.sent| == |s.sent| + 1 && t.sent[..|s.sent|] == s.sent
            && var f := t.sent[|s.sent|];
               WellFormed(f) && CodeOf(f) == 1600 && f[R.HEADER_SIZE..] == env.freshId
  {
    var t := RegisterStep(s, name, env).0;
    assert t.sent == s.sent + [RegisterOkReply(env.freshId).value];
  }

  /** A new name whose record cannot be written: GENERAL_ERROR, then REGISTER_OK all the same, and no record. */
  lemma RegisterDbFailure(s: SessionState, name: string, env: Env)
    requires name !in s.clients && env.dbFails && |env.freshId| == CLIENT_ID_SIZE
    ensures var t := RegisterStep(s, name, env).0;
            t.clients == s.clients && t.clientId == env.freshId
            && t.sent == s.sent + [GeneralErrorFrame(), RegisterOkReply(env.freshId).value]
  {
  }

  lemma KeySendPreserves(s: SessionState, publicKey: string, newKey: seq<byte>, wrap: Wrap)
    requires Inv(s)
    ensures Inv(KeySendStep(s, publicKey, newKey, wrap).0)
    ensures AppendsAtMostTwo(s, KeySendStep(s, publicKey, newKey, wrap).0)
    ensures KeySendStep(s, publicKey, newKey, wrap).1 == Done
  {
    var t := KeySendStep(s, publicKey, newKey, wrap).0;
    assert t.sent[..|s.sent|] == s.sent;
  }

  /**
   * Key exchange never changes the registry, name or id; it installs the
   * two keys and sends exactly one frame: AES_SEND_KEY carrying the id and
   * the wrapped key when wrapping succeeds and the session has an id,
   * GENERAL_ERROR otherwise.
   */
  lemma KeySendReply(s: SessionState, publicKey: string, newKey: seq<byte>, wrap: Wrap)
    requires Inv(s)
    ensures var t := KeySendStep(s, publicKey, newKey, wrap).0;
            t.clients == s.clients && t.clientName == s.clientName && t.clientId == s.clientId
            && t.publicKey == publicKey && t.aesKey == newKey
            && |t.sent| == |s.sent| + 1 && t.sent[..|s.sent|] == s.sent
            && var f := t.sent[|s.sent|];
               var ok := wrap(newKey, publicKey).Some? && |s.clientId| == CLIENT_ID_SIZE
                         && CLIENT_ID_SIZE + |wrap(newKey, publicKey).value| < 0x1_0000_0000;
               (ok ==> CodeOf(f) == 1602 && f[R.HEADER_SIZE..] == s.clientId + wrap(newKey, publicKey).value)
               && (!ok ==> f == GeneralErrorFrame())
  {
    var t := KeySendStep(s, publicKey, newKey, wrap).0;
    assert t.sent[..|s.sent|] == s.sent;
  }

  lemma LoginPreserves(s: SessionState, name: string, env: Env, wrap: Wrap)
    requires Inv(s)
    ensures Inv(LoginStep(s, name, env, wrap).0)
    ensures AppendsAtMostTwo(s, LoginStep(s, name, env, wrap).0)
  {
    var t := LoginStep(s, name, env, wrap).0;
    if name in s.clients && !env.dbFails {
      assert t.sent[..|s.sent|] == s.sent;
    }
  }

  /** Login under an unknown name raises `NameError` and changes nothing, not even the frames sent. */
  lemma LoginUnknownName(s: SessionState, name: string, env: Env, wrap: Wrap)
    requires name !in s.clients
    ensures LoginStep(s, name, env, wrap) == (s, Raised(NameError))
  {
  }

  /**
   * Login in a session that has no id yet (the session did not register)
   * cannot build either reply: it raises `ValueError` after persisting the
   * new key, and sends nothing.
   */
  lemma LoginWithoutId(s: SessionState, name: string, env: Env, wrap: Wrap)
    requires name in s.clients && !env.dbFails && |s.clientId| == 0
    ensures var (t, outcome) := LoginStep(s, name, env, wrap);
            outcome == Raised(Encode(R.ValueError)) && t.sent == s.sent
            && t.aesKey == env.newKey && t.clients[name].aesKey == env.newKey
  {
  }

  /** Login with an id and a working wrap: the new key is persisted and LOGIN_OK_SEND_AES carries the id and the wrapped key. */
  lemma LoginKnownName(s: SessionState, name: string, env: Env, wrap: Wrap)
    requires Inv(s) && name in s.clients && !env.dbFails && |s.clientId| == CLIENT_ID_SIZE
    requires wrap(env.newKey, s.publicKey).Some? && CLIENT_ID_SIZE + |wrap(env.newKey, s.publicKey).value| < 0x1_0000_0000
    ensures var (t, outcome) := LoginStep(s, name, env, wrap);
            outcome == Done && t.aesKey == env.newKey
            && t.clients == s.clients[name := s.clients[name].(aesKey := env.newKey)]
            && |t.sent| == |s.sent| + 1 && t.sent[..|s.sent|] == s.sent
            && CodeOf(t.sent[|s.sent|]) == 1605
            && t.sent[|s.sent|][R.HEADER_SIZE..] == s.clientId + wrap(env.newKey, s.publicKey).value
  {
    var t := LoginStep(s, name, env, wrap).0;
    assert t.sent[..|s.sent|] == s.sent;
  }

  /**
   * Login with an id whose key reply cannot be built (wrapping raises, or
   * the size does not fit): the new key is still persisted and one
   * LOGIN_FAIL frame carries the id.
   */
  lemma LoginWrapFails(s: SessionState, name: string, env: Env, wrap: Wrap)
    requires name in s.clients && !env.dbFails && |s.clientId| == CLIENT_ID_SIZE
    requires !(wrap(env.newKey, s.publicKey).Some? && CLIENT_ID_SIZE + |wrap(env.newKey, s.publicKey).value| < 0x1_0000_0000)
    ensures var (t, outcome) := LoginStep(s, name, env, wrap);
            outcome == Done && t.aesKey == env.newKey
            && t.clients == s.clients[name := s.clients[name].(aesKey := env.newKey)]
            && |t.sent| == |s.sent| + 1 && t.sent[..|s.sent|] == s.sent
            && var f := t.sent[|s.sent|];
               WellFormed(f) && CodeOf(f) == 1606 && f[R.HEADER_SIZE..] == s.clientId
  {
    var t := LoginStep(s, name, env, wrap).0;
    assert t.sent == s.sent + [LoginFailReply(s.clientId).value];
    assert t.sent[..|s.sent|] == s.sent;
  }

  lemma DispatchPreserves(s: SessionState, p: Q.RequestPayload, env: Env, wrap: Wrap)
    requires Inv(s) && |env.freshId| == CLIENT_ID_SIZE
    ensures Inv(DispatchStep(s, p, env, wrap).0)
    ensures AppendsAtMostTwo(s, DispatchStep(s, p, env, wrap).0)
  {
    match p
    case RegisterPayload(name) => RegisterPreserves(s, name, env);
    case SendKeyPayload(_, publicKey) => KeySendPreserves(s, publicKey, env.newKey, wrap);
    case LoginPayload(name) => LoginPreserves(s, name, env, wrap);
    case _ => assert s.sent[..|s.sent|] == s.sent;
  }

  /** The file and checksum requests leave the whole session as it was. */
  lemma NoOpRequests(s: SessionState, p: Q.RequestPayload, env: Env, wrap: Wrap)
    requires p.SendFilePayload? || p.ChecksumCorrectPayload? || p.ChecksumFailedPayload? || p.ChecksumShutDownPayload?
    ensures DispatchStep(s, p, env, wrap) == (s, Done)
  {
  }

  /** `t` is what a step may make of `s`: the invariant holds, frames were only appended, and a prefix of the inbox was consumed. */
  predicate Follows(s: SessionState, t: SessionState)
  {
    Inv(t) && AppendsAtMostTwo(s, t) && |t.inbox| <= |s.inbox| && t.inbox == s.inbox[|s.inbox| - |t.inbox|..]
  }

  lemma RecvFollows(s: SessionState, n: nat)
    requires Inv(s)
    ensures Follows(s, RecvStep(s, n).0)
  {
    assert s.sent[..|s.sent|] == s.sent;
  }

  /** A step that sends nothing followed by one that sends at most two is again a step. */
  lemma FollowsThen(s: SessionState, m: SessionState, t: SessionState)
    requires Follows(s, m) && Follows(m, t) && m.sent == s.sent
    ensures Follows(s, t)
  {
    assert t.inbox == s.inbox[|s.inbox| - |t.inbox|..];
  }

  lemma PayloadStepPreserves(s: SessionState, header: Q.RequestHeader, env: Env, wrap: Wrap)
    requires Inv(s) && |env.freshId| == CLIENT_ID_SIZE
    ensures Follows(s, PayloadStep(s, header, env, wrap).0)
  {
    var r := RecvStep(s, header.payloadSize);
    RecvFollows(s, header.payloadSize);
    var payload := Q.DeserializePayload(header.code, r.1);
    if payload.Ok? {
      var t := DispatchStep(r.0, payload.value, env, wrap).0;
      DispatchPreserves(r.0, payload.value, env, wrap);
      DispatchKeepsInbox(r.0, payload.value, env, wrap);
      assert Follows(r.0, t);
      FollowsThen(s, r.0, t);
    }
  }

  /**
   * One `handle` call keeps the session invariant, only appends frames (at
   * most two), and consumes a prefix of the inbox.
   */
  lemma HandlePreserves(s: SessionState, env: Env, wrap: Wrap)
    requires Inv(s) && |env.freshId| == CLIENT_ID_SIZE
    ensures Follows(s, HandleStep(s, env, wrap).0)
  {
    var r := RecvStep(s, CLIENT_HEADER_SIZE);
    RecvFollows(s, CLIENT_HEADER_SIZE);
    var header := Q.DeserializeHeader(r.1);
    if header.Ok? {
      PayloadStepPreserves(r.0, header.value, env, wrap);
      FollowsThen(s, r.0, PayloadStep(r.0, header.value, env, wrap).0);
    }
  }

  lemma DispatchKeepsInbox(s: SessionState, p: Q.RequestPayload, env: Env, wrap: Wrap)
    ensures DispatchStep(s, p, env, wrap).0.inbox == s.inbox
  {
  }

  /** A request whose header is cut short raises before any payload is read or any frame is sent. */
  lemma ShortHeaderRaises(s: SessionState, env: Env, wrap: Wrap)
    requires |s.inbox| < CLIENT_HEADER_SIZE
    ensures var (t, outcome) := HandleStep(s, env, wrap);
            outcome.Raised? && outcome.failure.Decode? && t.inbox == [] && t.sent == s.sent
  {
    var (s1, headerData) := RecvStep(s, CLIENT_HEADER_SIZE);
    assert headerData == s.inbox;
  }

  /**
   * `handle` reads the 23-byte header (or what is left), then exactly as
   * many further bytes as the header announces (or what is left), and hands
   * the decoded payload to its handler; a payload that does not decode, an
   * unknown code among them, raises with only those reads done.
   */
  lemma HandleReadsThenDispatches(s: SessionState, env: Env, wrap: Wrap)
    ensures var hd := s.inbox[..Min(CLIENT_HEADER_SIZE, |s.inbox|)];
            var rest := s.inbox[|hd|..];
            var (t, outcome) := HandleStep(s, env, wrap);
            match Q.DeserializeHeader(hd)
            case Err(e) => t == s.(inbox := rest) && outcome == Raised(Decode(e))
            case Ok(h) =>
              var k := Min(h.payloadSize, |rest|);
              var s2 := s.(inbox := rest[k..]);
              t.inbox == rest[k..]
              && (Q.CodeOfValue(h.code).None? ==> outcome == Raised(Decode(Q.UnknownPayloadCode(h.code))))
              && match Q.DeserializePayload(h.code, rest[..k])
                 case Err(e) => t == s2 && outcome == Raised(Decode(e))
                 case Ok(p) => (t, outcome) == DispatchStep(s2, p, env, wrap)
  {
    var (s1, hd) := RecvStep(s, CLIENT_HEADER_SIZE);
    assert hd == s.inbox[..Min(CLIENT_HEADER_SIZE, |s.inbox|)] && s1.inbox == s.inbox[|hd|..];
    var header := Q.DeserializeHeader(hd);
    if header.Ok? {
      var (s2, data) := RecvStep(s1, header.value.payloadSize);
      var k := Min(header.value.payloadSize, |s1.inbox|);
      assert data == s1.inbox[..k] && s2.inbox == s1.inbox[k..];
      var payload := Q.DeserializePayload(header.value.code, data);
      if payload.Ok? {
        DispatchKeepsInbox(s2, payload.value, env, wrap);
      }
    }
  }

  // ---------------------------------------------------------------------
  // The session as written

  /*
   * client_handler.py builds every response header with `ResponseCode.X.value`, so
   * building any frame raises `AttributeError` (see `AsWrittenFrame`), and
   * so does `send_general_error` inside each `except`. The steps below are
   * the handlers with those frames; the steps above use the enum member.
   */

  /** Sending a frame that may have failed to build: the error escapes. */
  function AsWrittenSend(s: SessionState, frame: Result<seq<byte>, Failure>): (SessionState, Outcome)
  {
    match frame
    case Ok(f) => (Append(s, f), Done)
    case Err(e) => (s, Raised(e))
  }

  /** `send_general_error` as written. */
  function AsWrittenGeneralError(s: SessionState): (SessionState, Outcome)
  {
    AsWrittenSend(s, Lift(AsWrittenFrame(R.GENERAL_ERROR, 0, R.GeneralErrorPayload)))
  }

  /** A `try` that sends a reply, with `send_general_error` in its `except`, as written. */
  function AsWrittenTry(s: SessionState, reply: Result<seq<byte>, Failure>): (SessionState, Outcome)
  {
    if reply.Ok? then (Append(s, reply.value), Done) else AsWrittenGeneralError(s)
  }

  function AsWrittenRegisterOk(clientId: seq<byte>): Result<seq<byte>, Failure>
  {
    var payload :- Lift(R.NewRegisterOk(clientId));
    Lift(AsWrittenFrame(R.REGISTER_OK, CLIENT_ID_SIZE, payload))
  }

  /** `handle_registration` as written. */
  function AsWrittenRegisterStep(s: SessionState, name: string, env: Env): (SessionState, Outcome)
  {
    if name in s.clients then
      AsWrittenTry(s, Lift(AsWrittenFrame(R.REGISTER_FAIL, 0, R.RegisterFailPayload)))
    else
      var s1 := s.(clientName := name, clientId := env.freshId);
      var (s2, o) := if env.dbFails then AsWrittenGeneralError(s1)
                     else (s1.(clients := s1.clients[name := ClientRecord(s1.clientId, s1.clientName, s1.publicKey, s1.aesKey)]), Done);
      if o.Raised? then (s2, o) else AsWrittenTry(s2, AsWrittenRegisterOk(s2.clientId))
  }

  /** The key-exchange reply as written: wrap, build the payload, build the frame. */
  function AsWrittenKeyReply(clientId: seq<byte>, aesKey: seq<byte>, publicKey: string, wrap: Wrap): Result<seq<byte>, Failure>
  {
    var encrypted :- WrapKey(wrap, aesKey, publicKey);
    var payload :- Lift(R.NewAESSendKey(clientId, encrypted));
    Lift(AsWrittenFrame(R.AES_SEND_KEY, CLIENT_ID_SIZE + |encrypted|, payload))
  }

  /** `handle_key_send` as written. */
  function AsWrittenKeySendStep(s: SessionState, publicKey: string, newKey: seq<byte>, wrap: Wrap): (SessionState, Outcome)
  {
    var s1 := s.(publicKey := publicKey, aesKey := newKey);
    AsWrittenTry(s1, AsWrittenKeyReply(s1.clientId, s1.aesKey, s1.publicKey, wrap))
  }

  /**
   * `handle_login` as written. Under a known name the new key is installed,
   * and then `update_client_aes_key(self._aes_key)` passes one argument to a
   * function of two (`client_id`, `aes_key`), which raises `TypeError`
   * outside any `try`; the reply, and `send_login_failed`, are never reached.
   */
  function AsWrittenLoginStep(s: SessionState, name: string, env: Env, wrap: Wrap): (SessionState, Outcome)
  {
    if name !in s.clients then (s, Raised(NameError))
    else (s.(aesKey := env.newKey), Raised(TypeError))
  }

  /**
   * As written, registration sets the session fields and files the record
   * as the corrected program does, but then raises `AttributeError` and
   * sends nothing.
   */
  lemma AsWrittenRegisterSendsNothing(s: SessionState, name: string, env: Env)
    ensures var (t, outcome) := AsWrittenRegisterStep(s, name, env);
            outcome == Raised(Encode(R.AttributeError)) && t.sent == s.sent && t.inbox == s.inbox
            && (name in s.clients ==> t == s)
            && (name !in s.clients ==> t.clientName == name && t.clientId == env.freshId
                                       && t == RegisterStep(s, name, env).0.(sent := s.sent))
  {
  }

  /** As written, key exchange installs both keys, then raises `AttributeError` and sends nothing. */
  lemma AsWrittenKeySendSendsNothing(s: SessionState, publicKey: string, newKey: seq<byte>, wrap: Wrap)
    ensures var (t, outcome) := AsWrittenKeySendStep(s, publicKey, newKey, wrap);
            outcome == Raised(Encode(R.AttributeError)) && t.sent == s.sent
            && t == KeySendStep(s, publicKey, newKey, wrap).0.(sent := s.sent)
  {
  }

  /**
   * As written, login never sends a frame and never changes the registry:
   * an unknown name raises `NameError` as in the corrected program, and a
   * known name installs the new key and raises `TypeError`, which is the
   * corrected program's failed-write branch.
   */
  lemma AsWrittenLoginSendsNothing(s: SessionState, name: string, env: Env, wrap: Wrap)
    ensures var (t, outcome) := AsWrittenLoginStep(s, name, env, wrap);
            outcome.Raised? && t.sent == s.sent && t.clients == s.clients && t.inbox == s.inbox
            && (name !in s.clients ==> (t, outcome) == LoginStep(s, name, env, wrap))
            && (name in s.clients ==> t == s.(aesKey := env.newKey) && outcome == Raised(TypeError)
                                      && t == LoginStep(s, name, env.(dbFails := true), wrap).0)
  {
  }


  // ---------------------------------------------------------------------
  // The handler object

  class ClientHandler {
    var inbox: seq<byte>
    var clientName: string
    var clientId: seq<byte>
    var publicKey: string
    var aesKey: seq<byte>
    var clients: map<string, ClientRecord>
    var sent: seq<seq<byte>>
    const wrap: Wrap

    function State(): SessionState
      reads this
    {
      SessionState(inbox, clientName, clientId, publicKey, aesKey, clients, sent)
    }

    predicate Valid()
      reads this
    {
      Inv(State())
    }

    /** A new session: empty name, id and keys, nothing sent yet. */
    constructor (inbox: seq<byte>, clients: map<string, ClientRecord>, wrap: Wrap)
      requires forall n :: n in clients ==> clients[n].name == n && |clients[n].clientId| == CLIENT_ID_SIZE
      ensures State() == Initial(inbox, clients) && this.wrap == wrap
      ensures Valid()
    {
      this.inbox := inbox;
      this.clientName := "";
      this.clientId := [];
      this.publicKey := "";
      this.aesKey := [];
      this.clients := clients;
      this.sent := [];
      this.wrap := wrap;
    }

    method Recv(n: nat) returns (data: seq<byte>)
      modifies this
      ensures (State(), data) == RecvStep(old(State()), n)
    {
      var k := Min(n, |inbox|);
      data := inbox[..k];
      inbox := inbox[k..];
    }

    method Send(frame: seq<byte>)
      modifies this
      ensures State() == Append(old(State()), frame)
    {
      sent := sent + [frame];
    }

    method SendGeneralError()
      modifies this
      ensures State() == Append(old(State()), GeneralErrorFrame())
    {
      Send(GeneralErrorFrame());
    }

    method HandleRegistration(name: string, env: Env) returns (outcome: Outcome)
      modifies this
      ensures (State(), outcome) == RegisterStep(old(State()), name, env)
    {
      var clientExists := name in clients;
      if clientExists {
        Send(RegisterFailFrame());
      } else {
        clientName := name;
        clientId := env.freshId;
        if env.dbFails {
          SendGeneralError();
        } else {
          clients := clients[name := ClientRecord(clientId, clientName, publicKey, aesKey)];
        }
        var reply := RegisterOkReply(clientId);
        if reply.Ok? {
          Send(reply.value);
        } else {
          SendGeneralError();
        }
      }
      outcome := Done;
    }

    method HandleKeySend(publicKey: string, newKey: seq<byte>) returns (outcome: Outcome)
      modifies this
      ensures (State(), outcome) == KeySendStep(old(State()), publicKey, newKey, wrap)
    {
      this.publicKey := publicKey;
      aesKey := newKey;
      var reply := KeyReply(R.AES_SEND_KEY, clientId, aesKey, this.publicKey, wrap);
      if reply.Ok? {
        Send(reply.value);
      } else {
        SendGeneralError();
      }
      outcome := Done;
    }

    method SendLoginFailed() returns (outcome: Outcome)
      modifies this
      ensures (State(), outcome) == LoginFailedStep(old(State()))
    {
      var reply := LoginFailReply(clientId);
      if reply.Ok? {
        Send(reply.value);
        outcome := Done;
      } else {
        outcome := Raised(reply.error);
      }
    }

    method HandleLogin(name: string, env: Env) returns (outcome: Outcome)
      modifies this
      ensures (State(), outcome) == LoginStep(old(State()), name, env, wrap)
    {
      var clientExists := name in clients;
      if !clientExists {
        return Raised(NameError);
      }
      aesKey := env.newKey;
      if env.dbFails {
        return Raised(DbError);
      }
      clients := clients[name := clients[name].(aesKey := aesKey)];
      var reply := KeyReply(R.LOGIN_OK_SEND_AES, clientId, aesKey, publicKey, wrap);
      if reply.Ok? {
        Send(reply.value);
        outcome := Done;
      } else {
        outcome := SendLoginFailed();
      }
    }

    method HandleFileSend()
      ensures State() == old(State())
    {
    }

    method HandleChecksumOk()
      ensures State() == old(State())
    {
    }

    method HandleChecksumFail()
      ensures State() == old(State())
    {
    }

    method HandleChecksumShutdown()
      ensures State() == old(State())
    {
    }

    /**
     * One request. The handler is chosen by the decoded payload, which the
     * factory builds only for the header's code; the final `ValueError` of
     * the dispatch in client_handler.py is the factory's own.
     */
    method Handle(env: Env) returns (outcome: Outcome)
      modifies this
      ensures (State(), outcome) == HandleStep(old(State()), env, wrap)
      ensures old(Valid()) && |env.freshId| == CLIENT_ID_SIZE ==> Valid() && Follows(old(State()), State())
    {
      if Valid() && |env.freshId| == CLIENT_ID_SIZE {
        HandlePreserves(State(), env, wrap);
      }
      var headerData := Recv(CLIENT_HEADER_SIZE);
      var header := Q.DeserializeHeader(headerData);
      if header.Err? {
        return Raised(Decode(header.error));
      }
      var payloadData := Recv(header.value.payloadSize);
      var payload := Q.DeserializePayload(header.value.code, payloadData);
      if payload.Err? {
        return Raised(Decode(payload.error));
      }
      outcome := Dispatch(payload.value, env);
    }

    /** The handler chosen for a decoded payload. */
    method Dispatch(p: Q.RequestPayload, env: Env) returns (outcome: Outcome)
      modifies this
      ensures (State(), outcome) == DispatchStep(old(State()), p, env, wrap)
    {
      match p
      case RegisterPayload(name) =>
        outcome := HandleRegistration(name, env);
      case SendKeyPayload(_, key) =>
        outcome := HandleKeySend(key, env.newKey);
      case LoginPayload(name) =>
        outcome := HandleLogin(name, env);
      case SendFilePayload(_, _, _, _, _, _) =>
        HandleFileSend();
        outcome := Done;
      case ChecksumCorrectPayload(_) =>
        HandleChecksumOk();
        outcome := Done;
      case ChecksumFailedPayload(_) =>
        HandleChecksumFail();
        outcome := Done;
      case ChecksumShutDownPayload(_) =>
        HandleChecksumShutdown();
        outcome := Done;
    }
  }
}
