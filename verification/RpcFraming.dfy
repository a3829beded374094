/** Byte layout of RPC requests and replies sent over a publish/subscribe server. */
module RpcFraming {
  import opened Common
  import opened Text
  import opened States

  type Byte = b: int | 0 <= b < 256
  type Bytes = seq<Byte>

  const PROTO_VERSION: Byte := 1
  const RPC_REQUEST: Byte := 0x01
  const RPC_REPLY: Byte := 0x11
  const RPC_ERROR: Byte := 0x12

  // ----- little-endian numbers -----

  function Pow256(k: nat): nat {
    if k == 0 then 1 else 256 * Pow256(k - 1)
  }

  function ToLe(n: nat, k: nat): (r: Bytes)
    ensures |r| == k
  {
    if k == 0 then [] else [n % 256] + ToLe(n / 256, k - 1)
  }

  function FromLe(b: Bytes): nat {
    if b == [] then 0 else b[0] + 256 * FromLe(b[1..])
  }

  lemma {:induction false} LeRoundTrip(n: nat, k: nat)
    requires n < Pow256(k)
    ensures FromLe(ToLe(n, k)) == n
    decreases k
  {
    if k > 0 {
      LeRoundTrip(n / 256, k - 1);
      assert ToLe(n, k)[1..] == ToLe(n / 256, k - 1);
    }
  }

  /** Earlier bytes weigh less. */
  lemma {:induction false} LeWeights(a: Bytes, b: Bytes)
    ensures FromLe(a + b) == FromLe(a) + Pow256(|a|) * FromLe(b)
    decreases |a|
  {
    if a == [] {
      assert a + b == b;
    } else {
      assert (a + b)[0] == a[0] && (a + b)[1..] == a[1..] + b;
      LeWeights(a[1..], b);
      assert 256 * (Pow256(|a| - 1) * FromLe(b)) == Pow256(|a|) * FromLe(b);
    }
  }

  // ----- options -----

  datatype Encryption = NoEncryption | Aes128Gcm | Aes256Gcm
  datatype Compression = NoCompression | Bzip2

  function EncryptionCode(e: Encryption): Byte {
    match e
    case NoEncryption => 0
    case Aes128Gcm => 1
    case Aes256Gcm => 2
  }

  function CompressionCode(c: Compression): Byte {
    if c == NoCompression then 0 else 1
  }

  datatype Key = Key(id: Bytes, value: Bytes)

  /** A key goes with encryption and only with it. */
  datatype Options = Options(encryption: Encryption, compression: Compression, key: Option<Key>) {
    predicate Valid() {
      key.Some? <==> encryption != NoEncryption
    }

    /** The low four bits and the two bits above them. */
    function Flags(): Byte {
      CompressionCode(compression) * 16 + EncryptionCode(encryption)
    }

    function KeyId(): Bytes {
      if key.Some? then key.value.id else []
    }
  }

  datatype RpcError =
    | InvalidFlags | NotText | KeyIdMissing | PayloadMissing | UnknownKey
    | TooShort | BadSeal | BadCompression | ParamsMissing | BadParams

  function ParseFlags(flags: Byte): Result<(Encryption, Compression), RpcError> {
    var e, c := flags % 16, flags / 16 % 4;
    if e > 2 || c > 1 then Err(InvalidFlags) else
    Ok((if e == 0 then NoEncryption else if e == 1 then Aes128Gcm else Aes256Gcm,
        if c == 0 then NoCompression else Bzip2))
  }

  lemma FlagsRoundTrip(o: Options)
    ensures ParseFlags(o.Flags()) == Ok((o.encryption, o.compression))
  {
  }

  // ----- payloads -----

  /** The codecs the protocol builds on, seen through what they do. */
  datatype Codec = Codec(
    compress: Bytes -> Bytes,
    decompress: Bytes -> Option<Bytes>,
    seal: (Encryption, Bytes, Bytes, Bytes) -> (Bytes, Bytes),               // cipher, key, nonce, data
    unseal: (Encryption, Bytes, Bytes, Bytes, Bytes) -> Option<Bytes>,      // cipher, key, nonce, ciphertext, tag
    hash: Bytes -> Bytes,
    isText: Bytes -> bool,
    pack: Value -> Bytes,
    unpack: Bytes -> Option<Value>)

  const TAG_SIZE := 16
  const NONCE_SIZE := 12

  /** Decompression inverts compression, and decryption inverts encryption. */
  ghost predicate Inverts(c: Codec) {
    && (forall d :: c.decompress(c.compress(d)) == Some(d))
    && (forall e, k, n, d :: |c.seal(e, k, n, d).1| == TAG_SIZE &&
          c.unseal(e, k, n, c.seal(e, k, n, d).0, c.seal(e, k, n, d).1) == Some(d))
  }

  /** The value survives packing, and its packed form is not empty. */
  predicate Packs(c: Codec, params: Option<Value>) {
    params.Some? ==> c.pack(params.value) != [] && c.unpack(c.pack(params.value)) == Some(params.value)
  }

  /** The cipher key: the hash of the key value, or its first half for the shorter cipher. */
  function CipherKey(c: Codec, o: Options): Bytes {
    if o.key.None? then [] else
    var h := c.hash(o.key.value.value);
    if o.encryption == Aes128Gcm && |h| >= 16 then h[..16] else h
  }

  /** Compressed, then sealed as ciphertext, tag and nonce. */
  function PackPayload(c: Codec, o: Options, nonce: Bytes, payload: Bytes): Bytes {
    var data := if o.compression == NoCompression then payload else c.compress(payload);
    if o.encryption == NoEncryption then data else
    var (ciphertext, tag) := c.seal(o.encryption, CipherKey(c, o), nonce, data);
    ciphertext + tag + nonce
  }

  function UnpackPayload(c: Codec, o: Options, message: Bytes, pos: nat): Result<Bytes, RpcError> {
    if |message| < pos then Err(TooShort) else
    var payload := message[pos..];
    var len := |payload|;
    if o.encryption != NoEncryption && len < TAG_SIZE + NONCE_SIZE then Err(TooShort) else
    var data := if o.encryption == NoEncryption then Some(payload) else
      c.unseal(o.encryption, CipherKey(c, o), payload[len - 12..], payload[..len - 28], payload[len - 28..len - 12]);
    if data.None? then Err(BadSeal) else
    if o.compression == NoCompression then Ok(data.value) else
    match c.decompress(data.value)
    case Some(d) => Ok(d)
    case None => Err(BadCompression)
  }

  /** Whatever stands before it, a packed payload is unpacked to itself. */
  lemma PayloadRoundTrip(c: Codec, o: Options, nonce: Bytes, payload: Bytes, head: Bytes)
    requires Inverts(c) && |nonce| == NONCE_SIZE
    ensures UnpackPayload(c, o, head + PackPayload(c, o, nonce, payload), |head|) == Ok(payload)
  {
    var packed := PackPayload(c, o, nonce, payload);
    assert (head + packed)[|head|..] == packed;
    if o.encryption != NoEncryption {
      var data := if o.compression == NoCompression then payload else c.compress(payload);
      var (ciphertext, tag) := c.seal(o.encryption, CipherKey(c, o), nonce, data);
      var len := |packed|;
      assert packed[len - 12..] == nonce;
      assert packed[..len - 28] == ciphertext;
      assert packed[len - 28..len - 12] == tag;
    }
  }

  /** The bytes a payload is packed into, for each cipher and compression. */
  lemma PackedBytes(c: Codec, o: Options, nonce: Bytes, payload: Bytes, head: Bytes)
    ensures var data := if o.compression == Bzip2 then c.compress(payload) else payload;
      var message := head + PackPayload(c, o, nonce, payload);
      && (o.encryption == NoEncryption ==> message == head + data)
      && (o.encryption == Aes256Gcm && o.key.Some? ==>
            var (ciphertext, tag) := c.seal(Aes256Gcm, c.hash(o.key.value.value), nonce, data);
            message == head + ciphertext + tag + nonce)
      && (o.encryption == Aes128Gcm && o.key.Some? && |c.hash(o.key.value.value)| >= 16 ==>
            var (ciphertext, tag) := c.seal(Aes128Gcm, c.hash(o.key.value.value)[..16], nonce, data);
            message == head + ciphertext + tag + nonce)
  {
    var data := if o.compression == Bzip2 then c.compress(payload) else payload;
    if o.encryption != NoEncryption {
      var (ciphertext, tag) := c.seal(o.encryption, CipherKey(c, o), nonce, data);
      assert head + (ciphertext + tag + nonce) == head + ciphertext + tag + nonce;
    }
  }

  /**
   What the receiver makes of ciphertext, tag and nonce: it opens them with the hash of the key value, or with the
   first 16 bytes of it for the shorter cipher, and decompresses what it gets.
   */
  lemma Opens(c: Codec, o: Options, head: Bytes, ciphertext: Bytes, tag: Bytes, nonce: Bytes)
    requires o.encryption != NoEncryption && o.key.Some? && |tag| == 16 && |nonce| == 12
    requires o.encryption == Aes128Gcm ==> |c.hash(o.key.value.value)| >= 16
    ensures var hash := c.hash(o.key.value.value);
      var data := if o.encryption == Aes256Gcm then c.unseal(Aes256Gcm, hash, nonce, ciphertext, tag)
                  else c.unseal(Aes128Gcm, hash[..16], nonce, ciphertext, tag);
      UnpackPayload(c, o, head + ciphertext + tag + nonce, |head|) ==
      if data.None? then Err(BadSeal) else
      if o.compression == NoCompression then Ok(data.value) else
      if c.decompress(data.value).Some? then Ok(c.decompress(data.value).value) else Err(BadCompression)
  {
    var payload := ciphertext + tag + nonce;
    assert head + ciphertext + tag + nonce == head + payload;
    assert (head + payload)[|head|..] == payload;
    var len := |payload|;
    assert payload[len - 12..] == nonce;
    assert payload[..len - 28] == ciphertext;
    assert payload[len - 28..len - 12] == tag;
  }

  /** What was sealed under exactly those keys is opened, whatever stands before it. */
  lemma OpensSealed(c: Codec, o: Options, head: Bytes, nonce: Bytes, payload: Bytes)
    requires Inverts(c) && |nonce| == 12 && o.encryption != NoEncryption && o.key.Some?
    requires o.encryption == Aes128Gcm ==> |c.hash(o.key.value.value)| >= 16
    ensures var hash := c.hash(o.key.value.value);
      var data := if o.compression == Bzip2 then c.compress(payload) else payload;
      var (ciphertext, tag) := if o.encryption == Aes256Gcm then c.seal(Aes256Gcm, hash, nonce, data)
                               else c.seal(Aes128Gcm, hash[..16], nonce, data);
      UnpackPayload(c, o, head + ciphertext + tag + nonce, |head|) == Ok(payload)
  {
    PackedBytes(c, o, nonce, payload, head);
    PayloadRoundTrip(c, o, nonce, payload, head);
  }

  // ----- requests -----

  datatype Request = Request(callId: nat, method_: Bytes, params: Option<Value>)

  function Body(c: Codec, r: Request): Bytes {
    ToLe(r.callId, 16) + r.method_ + [0] + (if r.params.Some? then c.pack(r.params.value) else [])
  }

  function Head(sender: Bytes, o: Options): Bytes {
    [PROTO_VERSION, RPC_REQUEST, o.Flags(), 0, 0] + Names(sender, o.KeyId())
  }

  function Names(sender: Bytes, keyId: Bytes): Bytes {
    sender + [0] + (keyId + [0])
  }

  /**
   The bytes of a request: version 1, type 1, the flags, two zero bytes, the names, each ended by a zero byte, and
   the packed body, in the clear or as ciphertext, tag and nonce.
   */
  ghost predicate SentAs(c: Codec, sender: Bytes, o: Options, nonce: Bytes, r: Request, message: Bytes) {
    var keyId := if o.key.Some? then o.key.value.id else [];
    var flags := (if o.compression == Bzip2 then 16 else 0) +
                 (if o.encryption == Aes128Gcm then 1 else if o.encryption == Aes256Gcm then 2 else 0);
    var head := [1, 1, flags, 0, 0] + (sender + [0] + (keyId + [0]));
    var body := ToLe(r.callId, 16) + r.method_ + [0] + (if r.params.Some? then c.pack(r.params.value) else []);
    var data := if o.compression == Bzip2 then c.compress(body) else body;
    && (o.encryption == NoEncryption ==> message == head + data)
    && (o.encryption == Aes256Gcm && o.key.Some? ==>
          var (ciphertext, tag) := c.seal(Aes256Gcm, c.hash(o.key.value.value), nonce, data);
          message == head + ciphertext + tag + nonce)
    && (o.encryption == Aes128Gcm && o.key.Some? && |c.hash(o.key.value.value)| >= 16 ==>
          var (ciphertext, tag) := c.seal(Aes128Gcm, c.hash(o.key.value.value)[..16], nonce, data);
          message == head + ciphertext + tag + nonce)
  }

  lemma RequestBytes(c: Codec, sender: Bytes, o: Options, nonce: Bytes, r: Request)
    ensures SentAs(c, sender, o, nonce, r, Head(sender, o) + PackPayload(c, o, nonce, Body(c, r)))
  {
    PackedBytes(c, o, nonce, Body(c, r), Head(sender, o));
  }

  method BuildRequest(c: Codec, sender: Bytes, o: Options, nonce: Bytes, r: Request) returns (message: Bytes)
    ensures message == Head(sender, o) + PackPayload(c, o, nonce, Body(c, r))
    ensures SentAs(c, sender, o, nonce, r, message)
  {
    message := [PROTO_VERSION, RPC_REQUEST, o.Flags(), 0, 0];
    message := message + sender;
    message := message + [0];
    if o.key.Some? {
      message := message + o.key.value.id;
    }
    message := message + [0];
    assert message == Head(sender, o);
    var payload: Bytes := [];
    payload := payload + ToLe(r.callId, 16);
    payload := payload + r.method_;
    payload := payload + [0];
    if r.params.Some? {
      payload := payload + c.pack(r.params.value);
    }
    assert payload == Body(c, r);
    message := message + PackPayload(c, o, nonce, payload);
    RequestBytes(c, sender, o, nonce, r);
  }

  /** What the receiver makes of a request. */
  datatype Received = Received(sender: Bytes, options: Options, request: Request)

  /** The sender, the options and where the payload begins. */
  function ParseHead(c: Codec, getKey: Bytes -> Option<Bytes>, message: Bytes): Result<(Bytes, Options, nat), RpcError>
    requires |message| >= 5
  {
    var flags := ParseFlags(message[2]);
    if flags.Err? then Err(flags.error) else
    var (encryption, compression) := flags.value;
    var (sender, rest) := Cut(message[5..], 0);
    if !c.isText(sender) then Err(NotText) else
    if rest.None? then Err(KeyIdMissing) else
    var (keyId, sealed) := Cut(rest.value, 0);
    if sealed.None? then Err(PayloadMissing) else
    if encryption != NoEncryption && !c.isText(keyId) then Err(NotText) else
    if encryption != NoEncryption && getKey(keyId).None? then Err(UnknownKey) else
    var key := if encryption == NoEncryption then None else Some(Key(keyId, getKey(keyId).value));
    Ok((sender, Options(encryption, compression, key), |sender| + |keyId| + 7))
  }

  function ParseRequest(c: Codec, getKey: Bytes -> Option<Bytes>, message: Bytes): Result<Received, RpcError>
    requires |message| >= 5
  {
    var head := ParseHead(c, getKey, message);
    if head.Err? then Err(head.error) else
    var (sender, o, pos) := head.value;
    var payload := UnpackPayload(c, o, message, pos);
    if payload.Err? then Err(payload.error) else
    var request := ParseBody(c, payload.value);
    if request.Err? then Err(request.error) else
    Ok(Received(sender, o, request.value))
  }

  function ParseBody(c: Codec, payload: Bytes): Result<Request, RpcError> {
    if |payload| < 17 then Err(TooShort) else
    var (name, params) := Cut(payload[16..], 0);
    if !c.isText(name) then Err(NotText) else
    if params.None? then Err(ParamsMissing) else
    if params.value == [] then Ok(Request(FromLe(payload[..16]), name, None)) else
    match c.unpack(params.value)
    case Some(v) => Ok(Request(FromLe(payload[..16]), name, Some(v)))
    case None => Err(BadParams)
  }

  ghost predicate NulFree(sender: Bytes, o: Options, r: Request) {
    0 !in sender && 0 !in o.KeyId() && 0 !in r.method_
  }

  lemma BodyRoundTrip(c: Codec, r: Request)
    requires Packs(c, r.params) && r.callId < Pow256(16) && c.isText(r.method_) && 0 !in r.method_
    ensures ParseBody(c, Body(c, r)) == Ok(r)
  {
    var params := if r.params.Some? then c.pack(r.params.value) else [];
    var body := Body(c, r);
    assert body[..16] == ToLe(r.callId, 16);
    assert body[16..] == r.method_ + [0] + params;
    CutOf(r.method_, 0, params);
    LeRoundTrip(r.callId, 16);
  }

  /** Names the receiver reads out of a message end at the first zero byte. */
  lemma ParsedNamesAreNulFree(c: Codec, getKey: Bytes -> Option<Bytes>, message: Bytes)
    requires |message| >= 5
    ensures var p := ParseRequest(c, getKey, message);
      p.Ok? ==> NulFree(p.value.sender, p.value.options, p.value.request)
  {
  }

  lemma HeadParts(c: Codec, getKey: Bytes -> Option<Bytes>, message: Bytes, sender: Bytes, o: Options, rest: Bytes,
                  packed: Bytes)
    requires |message| >= 5 && o.Valid() && c.isText(sender)
    requires o.key.Some? ==> c.isText(o.key.value.id) && getKey(o.key.value.id) == Some(o.key.value.value)
    requires ParseFlags(message[2]) == Ok((o.encryption, o.compression))
    requires Cut(message[5..], 0) == (sender, Some(rest)) && Cut(rest, 0) == (o.KeyId(), Some(packed))
    ensures ParseHead(c, getKey, message) == Ok((sender, o, |sender| + |o.KeyId()| + 7))
  {
  }

  lemma HeadRecovered(c: Codec, getKey: Bytes -> Option<Bytes>, sender: Bytes, o: Options, packed: Bytes,
                      message: Bytes)
    requires o.Valid() && c.isText(sender) && 0 !in sender && 0 !in o.KeyId()
    requires o.key.Some? ==> c.isText(o.key.value.id) && getKey(o.key.value.id) == Some(o.key.value.value)
    requires message == Head(sender, o) + packed
    ensures |message| >= 5 && ParseHead(c, getKey, message) == Ok((sender, o, |sender| + |o.KeyId()| + 7))
  {
    var rest := o.KeyId() + [0] + packed;
    assert message[2] == o.Flags() && Cut(message[5..], 0) == (sender, Some(rest)) &&
      Cut(rest, 0) == (o.KeyId(), Some(packed)) by {
      HeadRoundTrip(sender, o, packed);
    }
    FlagsRoundTrip(o);
    HeadParts(c, getKey, message, sender, o, rest, packed);
  }

  lemma NulFreeRequestRecovered(c: Codec, getKey: Bytes -> Option<Bytes>, sender: Bytes, o: Options, nonce: Bytes,
                                r: Request)
    requires Inverts(c) && Packs(c, r.params) && |nonce| == NONCE_SIZE && o.Valid() && r.callId < Pow256(16)
    requires c.isText(sender) && c.isText(r.method_) && NulFree(sender, o, r)
    requires o.key.Some? ==> c.isText(o.key.value.id) && getKey(o.key.value.id) == Some(o.key.value.value)
    ensures ParseRequest(c, getKey, Head(sender, o) + PackPayload(c, o, nonce, Body(c, r))) ==
      Ok(Received(sender, o, r))
  {
    var body := Body(c, r);
    var packed := PackPayload(c, o, nonce, body);
    HeadRecovered(c, getKey, sender, o, packed, Head(sender, o) + packed);
    PayloadRoundTrip(c, o, nonce, body, Head(sender, o));
    assert |Head(sender, o)| == |sender| + |o.KeyId()| + 7;
    BodyRoundTrip(c, r);
  }

  /**
   The receiver recovers the sender, the options with their key, the call id, the method
   and the parameters of every request, exactly when no name holds a zero byte.
   */
  lemma RequestRoundTrip(c: Codec, getKey: Bytes -> Option<Bytes>, sender: Bytes, o: Options, nonce: Bytes, r: Request)
    requires Inverts(c) && Packs(c, r.params) && |nonce| == NONCE_SIZE && o.Valid() && r.callId < Pow256(16)
    requires c.isText(sender) && c.isText(r.method_)
    requires o.key.Some? ==> c.isText(o.key.value.id) && getKey(o.key.value.id) == Some(o.key.value.value)
    ensures ParseRequest(c, getKey, Head(sender, o) + PackPayload(c, o, nonce, Body(c, r))) ==
      Ok(Received(sender, o, r))
      <==> NulFree(sender, o, r)
  {
    if NulFree(sender, o, r) {
      NulFreeRequestRecovered(c, getKey, sender, o, nonce, r);
    } else {
      ParsedNamesAreNulFree(c, getKey, Head(sender, o) + PackPayload(c, o, nonce, Body(c, r)));
    }
  }

  lemma NamesThenPayload(sender: Bytes, keyId: Bytes, packed: Bytes)
    ensures Names(sender, keyId) + packed == sender + [0] + (keyId + [0] + packed)
  {
  }

  lemma AfterHead(head: Bytes, names: Bytes, packed: Bytes)
    requires |head| == 5
    ensures (head + names + packed)[5..] == names + packed && (head + names + packed)[2] == head[2]
  {
  }

  lemma HeadRoundTrip(sender: Bytes, o: Options, packed: Bytes)
    requires 0 !in sender && 0 !in o.KeyId()
    ensures var message := Head(sender, o) + packed;
      && message[2] == o.Flags()
      && Cut(message[5..], 0) == (sender, Some(o.KeyId() + [0] + packed))
      && Cut(o.KeyId() + [0] + packed, 0) == (o.KeyId(), Some(packed))
      && |Head(sender, o)| == |sender| + |o.KeyId()| + 7
  {
    AfterHead([PROTO_VERSION, RPC_REQUEST, o.Flags(), 0, 0], Names(sender, o.KeyId()), packed);
    NamesThenPayload(sender, o.KeyId(), packed);
    CutOf(sender, 0, o.KeyId() + [0] + packed);
    CutOf(o.KeyId(), 0, packed);
  }

  // ----- replies -----

  datatype ReplyKind = Success | Error

  function ReplyHead(kind: ReplyKind, callId: nat): (r: Bytes)
    ensures |r| == 20
  {
    [PROTO_VERSION, if kind == Success then RPC_REPLY else RPC_ERROR, 0, 0] + ToLe(callId, 16)
  }

  method BuildReply(c: Codec, o: Options, nonce: Bytes, kind: ReplyKind, callId: nat,
                    payload: Bytes) returns (message: Bytes)
    ensures message == ReplyHead(kind, callId) + PackPayload(c, o, nonce, payload)
    ensures message[..20] == [1, if kind == Success then 0x11 else 0x12, 0, 0] + ToLe(callId, 16)
  {
    message := [PROTO_VERSION];
    if kind == Success {
      message := message + [RPC_REPLY];
    } else {
      message := message + [RPC_ERROR];
    }
    message := message + [0];
    message := message + [0];
    message := message + ToLe(callId, 16);
    message := message + PackPayload(c, o, nonce, payload);
  }

  /** What the receive loop takes a message on its topic for. */
  datatype Incoming = Ignored | Call | Reply(callId: nat, kind: ReplyKind)

  function Classify(message: Bytes): Incoming {
    if |message| < 5 || message[0] != PROTO_VERSION then Ignored
    else if message[1] == RPC_REQUEST then Call
    else if message[1] != RPC_REPLY && message[1] != RPC_ERROR then Ignored
    else if |message| < 22 then Ignored
    else Reply(FromLe(message[4..20]), if message[1] == RPC_REPLY then Success else Error)
  }

  /**
   A reply reaches its caller, with its kind, exactly when its packed payload has at least two bytes; then
   the payload is recovered too.
   */
  lemma ReplyRoundTrip(c: Codec, o: Options, nonce: Bytes, kind: ReplyKind, callId: nat, payload: Bytes)
    requires Inverts(c) && |nonce| == NONCE_SIZE && callId < Pow256(16)
    ensures var packed := PackPayload(c, o, nonce, payload);
      var message := ReplyHead(kind, callId) + packed;
      && (Classify(message) == Reply(callId, kind) <==> |packed| >= 2)
      && (|packed| < 2 ==> Classify(message) == Ignored)
      && UnpackPayload(c, o, message, 20) == Ok(payload)
  {
    var packed := PackPayload(c, o, nonce, payload);
    var message := ReplyHead(kind, callId) + packed;
    PayloadRoundTrip(c, o, nonce, payload, ReplyHead(kind, callId));
    assert message[4..20] == ToLe(callId, 16);
    LeRoundTrip(callId, 16);
  }

  /** Only replies sent in the clear are ever lost that way: a one-byte result, uncompressed, is one. */
  lemma LostRepliesAreClear(c: Codec, o: Options, nonce: Bytes, payload: Bytes)
    requires Inverts(c) && |nonce| == NONCE_SIZE
    ensures |PackPayload(c, o, nonce, payload)| < 2 <==>
      o.encryption == NoEncryption && |if o.compression == NoCompression then payload else c.compress(payload)| < 2
  {
    var data := if o.compression == NoCompression then payload else c.compress(payload);
    assert o.encryption != NoEncryption ==> |c.seal(o.encryption, CipherKey(c, o), nonce, data).1| == TAG_SIZE;
  }

  // ----- error replies -----

  /** The error code as a 16-bit two's complement number, then the message. */
  function ErrorPayload(code: int, text: Bytes): Bytes
    requires -0x8000 <= code < 0x8000
  {
    ToLe(if code < 0 then code + 0x10000 else code, 2) + text
  }

  function ParseError(payload: Bytes): Option<(int, Option<Bytes>)> {
    if |payload| < 2 then None else
    var n := FromLe(payload[..2]);
    Some((if n < 0x8000 then n else n - 0x10000, if |payload| > 2 then Some(payload[2..]) else None))
  }

  /** The error code is sent as 16 bits, negative ones as their two's complement. */
  lemma ErrorBytes(code: int, text: Bytes)
    requires -0x8000 <= code < 0x8000
    ensures |ErrorPayload(code, text)| >= 2 && ErrorPayload(code, text)[2..] == text
    ensures FromLe(ErrorPayload(code, text)[..2]) == code % 65536
  {
    var n := if code < 0 then code + 0x10000 else code;
    assert Pow256(2) == 256 * (256 * Pow256(0));
    LeRoundTrip(n, 2);
    assert ErrorPayload(code, text)[..2] == ToLe(n, 2);
  }

  lemma ErrorRoundTrip(code: int, text: Bytes)
    requires -0x8000 <= code < 0x8000
    ensures ParseError(ErrorPayload(code, text)) == Some((code, if text == [] then None else Some(text)))
  {
    var n := if code < 0 then code + 0x10000 else code;
    var p := ErrorPayload(code, text);
    assert Pow256(2) == 256 * (256 * Pow256(0));
    LeRoundTrip(n, 2);
    assert p[..2] == ToLe(n, 2);
    assert p[2..] == text;
  }
}
