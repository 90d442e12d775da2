/** Web Push framing (web-push.ts; RFC 8291 section 4, RFC 8188 sections 2 and 2.1)
    and the relay's own check of it (push.ts). The primitives are parameters. */
module WebPush {
  import opened Common

  /** HMAC-SHA-256, P-256 ECDH and AES-128-GCM, as functions of bytes. */
  datatype Crypto = Crypto(
    hmac: (Bytes, Bytes) -> Bytes,
    publicOf: Bytes -> Bytes,
    isPoint: Bytes -> bool,
    shared: (Bytes, Bytes) -> Bytes,
    seal: (Bytes, Bytes, Bytes) -> Bytes,
    open: (Bytes, Bytes, Bytes) -> Option<Bytes>)

  /** What the framing needs of them: ECDH commutes, opening undoes sealing, and
      a sealed message is 16 octets longer. Public keys are 65 octets. */
  ghost predicate Lawful(c: Crypto) {
    && (forall a, b :: c.shared(a, c.publicOf(b)) == c.shared(b, c.publicOf(a)))
    && (forall a :: |c.publicOf(a)| == 65 && c.isPoint(c.publicOf(a)))
    && (forall k, n, p :: c.open(k, n, c.seal(k, n, p)) == Some(p) && |c.seal(k, n, p)| == |p| + 16)
    && (forall k, d :: |c.hmac(k, d)| == 32)
  }

  function Zeros(n: nat): (r: Bytes)
    ensures |r| == n
  {
    seq(n, _ => 0)
  }

  /** Secrets all equal, and a seal of sixteen zeros. */
  function Toy(): Crypto {
    Crypto((k: Bytes, d: Bytes) => Zeros(32), (a: Bytes) => Zeros(65), (a: Bytes) => true,
           (a: Bytes, b: Bytes) => [],
           (k: Bytes, n: Bytes, p: Bytes) => p + Zeros(16),
           (k: Bytes, n: Bytes, t: Bytes) => if |t| < 16 then None else Some(t[..|t| - 16]))
  }

  lemma ToyOpens(k: Bytes, n: Bytes, p: Bytes)
    ensures Toy().open(k, n, Toy().seal(k, n, p)) == Some(p) && |Toy().seal(k, n, p)| == |p| + 16
  {
    assert (p + Zeros(16))[..|p|] == p;
  }

  /** The laws do not contradict each other. */
  lemma LawfulPossible()
    ensures exists c :: Lawful(c)
  {
    var c := Toy();
    forall k, n, p ensures c.open(k, n, c.seal(k, n, p)) == Some(p) && |c.seal(k, n, p)| == |p| + 16 {
      ToyOpens(k, n, p);
    }
    assert Lawful(c);
  }

  /** utf8 of an ASCII text and a NUL. */
  function Label(text: string): Bytes {
    seq(|text|, i requires 0 <= i < |text| => (text[i] as int % 256) as Byte) + [0]
  }

  datatype Keys = Keys(cek: Bytes, nonce: Bytes)

  function Slice(s: Bytes, from: nat, to: nat): Bytes {
    var hi := Min(to, |s|);
    s[Min(from, hi)..hi]
  }

  function DeriveKeys(c: Crypto, shared: Bytes, auth: Bytes, uaPublic: Bytes, asPublic: Bytes, salt: Bytes): Keys {
    var prkKey := c.hmac(auth, shared);
    var keyInfo := Label("WebPush: info") + uaPublic + asPublic;
    var ikm := c.hmac(prkKey, keyInfo + [1]);
    var prk := c.hmac(salt, ikm);
    Keys(Slice(c.hmac(prk, Label("Content-Encoding: aes128gcm") + [1]), 0, 16),
         Slice(c.hmac(prk, Label("Content-Encoding: nonce") + [1]), 0, 12))
  }

  // --- The derivation of RFC 8291 section 3.4 ----------------------------------------------

  /** HKDF-Extract and HKDF-Expand (RFC 5869 sections 2.2 and 2.3). */
  function Extract(c: Crypto, salt: Bytes, ikm: Bytes): Bytes {
    c.hmac(salt, ikm)
  }

  /** T(k): each block is made from the one before, the info and its number. */
  function Block(c: Crypto, prk: Bytes, info: Bytes, k: nat): Bytes {
    if k == 0 then [] else c.hmac(prk, Block(c, prk, info, k - 1) + info + [k % 256])
  }

  /** T(1) to T(k). */
  function Blocks(c: Crypto, prk: Bytes, info: Bytes, k: nat): Bytes {
    if k == 0 then [] else Blocks(c, prk, info, k - 1) + Block(c, prk, info, k)
  }

  function Expand(c: Crypto, prk: Bytes, info: Bytes, length: nat): Bytes {
    var okm := Blocks(c, prk, info, (length + 31) / 32);
    okm[..Min(length, |okm|)]
  }

  /** "WebPush: info", "Content-Encoding: aes128gcm" and "Content-Encoding: nonce", each
      with a zero octet. */
  const KEY_INFO: Bytes := [87, 101, 98, 80, 117, 115, 104, 58, 32, 105, 110, 102, 111, 0]
  const CEK_INFO: Bytes := [67, 111, 110, 116, 101, 110, 116, 45, 69, 110, 99, 111, 100, 105, 110, 103, 58, 32,
                            97, 101, 115, 49, 50, 56, 103, 99, 109, 0]
  const NONCE_INFO: Bytes := [67, 111, 110, 116, 101, 110, 116, 45, 69, 110, 99, 111, 100, 105, 110, 103, 58, 32,
                              110, 111, 110, 99, 101, 0]

  lemma Labels()
    ensures Label("WebPush: info") == KEY_INFO
    ensures Label("Content-Encoding: nonce") == NONCE_INFO
  {
  }

  lemma CekLabel()
    ensures Label("Content-Encoding: aes128gcm") == CEK_INFO
  {
  }

  lemma ExpandOne(c: Crypto, prk: Bytes, info: Bytes, length: nat)
    requires Lawful(c) && 0 < length <= 32
    ensures Expand(c, prk, info, length) == c.hmac(prk, info + [1])[..length]
  {
    assert [] + info + [1] == info + [1];
    assert Block(c, prk, info, 1) == c.hmac(prk, info + [1]);
    assert Blocks(c, prk, info, 1) == Blocks(c, prk, info, 0) + Block(c, prk, info, 1);
    assert Blocks(c, prk, info, 1) == c.hmac(prk, info + [1]);
  }

  /** The key and the nonce are those of the standards: the authentication secret salts
      the shared secret, the device's public key comes before the sender's, and the
      message's salt comes last. */
  lemma KeysOfStandard(c: Crypto, shared: Bytes, auth: Bytes, uaPublic: Bytes, asPublic: Bytes, salt: Bytes)
    requires Lawful(c)
    ensures
      var ikm := Expand(c, Extract(c, auth, shared), KEY_INFO + uaPublic + asPublic, 32);
      var prk := Extract(c, salt, ikm);
      DeriveKeys(c, shared, auth, uaPublic, asPublic, salt) ==
        Keys(Expand(c, prk, CEK_INFO, 16), Expand(c, prk, NONCE_INFO, 12))
  {
    Labels();
    CekLabel();
    var prkKey := c.hmac(auth, shared);
    ExpandOne(c, prkKey, KEY_INFO + uaPublic + asPublic, 32);
    var whole := c.hmac(prkKey, KEY_INFO + uaPublic + asPublic + [1]);
    assert whole[..32] == whole;
    var prk := c.hmac(salt, whole);
    ExpandOne(c, prk, CEK_INFO, 16);
    ExpandOne(c, prk, NONCE_INFO, 12);
  }

  // --- Header -------------------------------------------------------------------------

  /** A 32-bit field keeps a number modulo 2^32. */
  lemma {:induction false} Uint32RoundTrip(n: nat)
    ensures FromBigEndian(BigEndian(n, 4), 0, 4) == n % 0x1_0000_0000
  {
    var a := n / 256;
    var b := a / 256;
    var d := b / 256;
    var q := d / 256;
    var field := FourOctets(n);
    var r := FromBigEndian(field, 0, 4);
    assert FromBigEndian(field, 0, 2) == d % 256 * 256 + b % 256 by {
      assert FromBigEndian(field, 0, 1) == field[0];
    }
    assert r == (FromBigEndian(field, 0, 2) * 256 + a % 256) * 256 + n % 256 by {
      assert FromBigEndian(field, 0, 3) == FromBigEndian(field, 0, 2) * 256 + field[2];
    }
    assert d == 256 * q + d % 256;
    assert n == 0x1_0000_0000 * q + r;
    Remainder(n, q, r);
  }

  lemma FourOctets(n: nat) returns (field: Bytes)
    ensures field == BigEndian(n, 4)
    ensures field == [n / 256 / 256 / 256 % 256, n / 256 / 256 % 256, n / 256 % 256, n % 256]
  {
    field := BigEndian(n, 4);
    var a := n / 256;
    var b := a / 256;
    assert BigEndian(b, 2) == [b / 256 % 256, b % 256] by {
      assert BigEndian(b / 256, 1) == [b / 256 % 256];
    }
    assert BigEndian(a, 3) == BigEndian(b, 2) + [a % 256];
  }

  lemma Remainder(n: nat, q: nat, r: nat)
    requires n == 0x1_0000_0000 * q + r && r < 0x1_0000_0000
    ensures n % 0x1_0000_0000 == r
  {
  }

  function HeaderOf(salt: Bytes, recordSize: nat, keyIdLength: nat): Bytes
    requires |salt| == 16
  {
    salt + BigEndian(recordSize, 4) + [keyIdLength % 256]
  }

  /** The 21 octets before the key id, filled in place. */
  method Header(salt: Bytes, recordSize: nat, keyIdLength: nat) returns (header: array<Byte>)
    requires |salt| == 16
    ensures fresh(header) && header[..] == HeaderOf(salt, recordSize, keyIdLength)
  {
    header := new Byte[21](_ => 0);
    for i := 0 to 16
      invariant header[..i] == salt[..i]
    {
      header[i] := salt[i];
    }
    var size := BigEndian(recordSize, 4);
    header[16], header[17], header[18], header[19] := size[0], size[1], size[2], size[3];
    header[20] := keyIdLength % 256;
    assert header[..16] == salt;
    assert header[16..20] == size;
    assert header[..] == header[..16] + header[16..20] + header[20..];
  }

  // --- Encrypt and decrypt ----------------------------------------------------------------

  function Ciphertext(c: Crypto, uaPublic: Bytes, auth: Bytes, plaintext: Bytes, salt: Bytes,
                      senderPrivate: Bytes): Bytes {
    var keys := DeriveKeys(c, c.shared(senderPrivate, uaPublic), auth, uaPublic, c.publicOf(senderPrivate), salt);
    c.seal(keys.cek, keys.nonce, plaintext + [2])
  }

  function Encrypted(c: Crypto, uaPublic: Bytes, auth: Bytes, plaintext: Bytes, salt: Bytes, senderPrivate: Bytes,
                     recordSize: nat): Bytes
    requires |salt| == 16
  {
    var public := c.publicOf(senderPrivate);
    HeaderOf(salt, recordSize, |public|) + public + Ciphertext(c, uaPublic, auth, plaintext, salt, senderPrivate)
  }

  /** Encrypts one message as a single aes128gcm record. */
  method EncryptWebPush(c: Crypto, uaPublic: Bytes, auth: Bytes, plaintext: Bytes, salt: Bytes, senderPrivate: Bytes,
                        recordSize: nat)
    returns (body: Bytes)
    requires |salt| == 16
    ensures body == Encrypted(c, uaPublic, auth, plaintext, salt, senderPrivate, recordSize)
  {
    var public := c.publicOf(senderPrivate);
    var header := Header(salt, recordSize, |public|);
    body := header[..] + public + Ciphertext(c, uaPublic, auth, plaintext, salt, senderPrivate);
  }

  /** What stands before the last delimiter: trailing zeros, then a 2. */
  function Unpadded(padded: Bytes): Option<Bytes> {
    if padded == [] then None
    else if padded[|padded| - 1] == 0 then Unpadded(padded[..|padded| - 1])
    else if padded[|padded| - 1] == 2 then Some(padded[..|padded| - 1])
    else None
  }

  method Unpad(padded: Bytes) returns (r: Option<Bytes>)
    ensures r == Unpadded(padded)
  {
    var end := |padded|;
    assert padded[..end] == padded;
    while end > 0 && padded[end - 1] == 0
      invariant 0 <= end <= |padded|
      invariant Unpadded(padded) == Unpadded(padded[..end])
    {
      assert padded[..end][..end - 1] == padded[..end - 1];
      end := end - 1;
    }
    if end > 0 { assert padded[..end][..end - 1] == padded[..end - 1]; }
    r := if end == 0 || padded[end - 1] != 2 then None else Some(padded[..end - 1]);
  }

  /** Decrypts one message. None where the original throws: no such point, a
      record that does not open, or no delimiter. */
  method DecryptWebPush(c: Crypto, uaPrivate: Bytes, uaPublic: Bytes, auth: Bytes, body: Bytes)
    returns (r: Option<Bytes>)
    ensures r == Decrypted(c, uaPrivate, uaPublic, auth, body)
  {
    var keyIdLength: nat := if |body| > 20 then body[20] else 0;
    var salt, asPublic := Slice(body, 0, 16), Slice(body, 21, 21 + keyIdLength);
    if !c.isPoint(asPublic) { return None; }
    var keys := DeriveKeys(c, c.shared(uaPrivate, asPublic), auth, uaPublic, asPublic, salt);
    var plain := c.open(keys.cek, keys.nonce, Slice(body, 21 + keyIdLength, |body|));
    if plain.None? { return None; }
    r := Unpad(plain.value);
  }

  function Decrypted(c: Crypto, uaPrivate: Bytes, uaPublic: Bytes, auth: Bytes, body: Bytes): Option<Bytes> {
    var keyIdLength: nat := if |body| > 20 then body[20] else 0;
    var salt, asPublic := Slice(body, 0, 16), Slice(body, 21, 21 + keyIdLength);
    if !c.isPoint(asPublic) then None
    else
      var keys := DeriveKeys(c, c.shared(uaPrivate, asPublic), auth, uaPublic, asPublic, salt);
      match c.open(keys.cek, keys.nonce, Slice(body, 21 + keyIdLength, |body|))
      case None => None
      case Some(padded) => Unpadded(padded)
  }

  /** Any amount of zero padding after the delimiter comes off, and nothing else:
      trailing 0x00 and 0x02 octets of the message stay. */
  lemma {:induction false} UnpadUndoesPadding(p: Bytes, zeros: Bytes)
    requires forall i :: 0 <= i < |zeros| ==> zeros[i] == 0
    ensures Unpadded(p + [2] + zeros) == Some(p)
  {
    var padded := p + [2] + zeros;
    if zeros == [] {
      assert padded == p + [2];
      assert padded[..|padded| - 1] == p;
    } else {
      var fewer := zeros[..|zeros| - 1];
      assert padded[..|padded| - 1] == p + [2] + fewer;
      UnpadUndoesPadding(p, fewer);
    }
  }

  /** And nothing but such padding comes off. */
  lemma {:induction false} UnpaddedWas(padded: Bytes) returns (zeros: nat)
    ensures Unpadded(padded).None? ==>
      && zeros <= |padded| && (forall i :: |padded| - zeros <= i < |padded| ==> padded[i] == 0)
      && (zeros == |padded| || padded[|padded| - zeros - 1] !in {0, 2})
    ensures Unpadded(padded).Some? ==> padded == Unpadded(padded).value + [2] + Zeros(zeros)
  {
    zeros := 0;
    if padded != [] {
      var n := |padded| - 1;
      assert padded == padded[..n] + [padded[n]];
      if padded[n] == 0 {
        var fewer := UnpaddedWas(padded[..n]);
        zeros := fewer + 1;
        assert Zeros(fewer) + [0] == Zeros(zeros);
      } else {
        assert Zeros(0) == [];
      }
    }
  }

  lemma BodyParts(salt: Bytes, recordSize: nat, public: Bytes, text: Bytes)
    requires |salt| == 16 && |public| == 65
    ensures
      var body := HeaderOf(salt, recordSize, 65) + public + text;
      && |body| > 20 && body[20] == 65
      && Slice(body, 0, 16) == salt && Slice(body, 21, 86) == public && Slice(body, 86, |body|) == text
  {
    var header := HeaderOf(salt, recordSize, 65);
    var body := header + public + text;
    assert body[..21] == header && header[..16] == salt;
    assert body[..16] == header[..16];
    assert body[21..86] == public;
    assert body[86..] == text;
  }

  /** What is read of a body with these parts. */
  lemma DecryptedOf(c: Crypto, uaPrivate: Bytes, uaPublic: Bytes, auth: Bytes, body: Bytes,
                    salt: Bytes, public: Bytes, text: Bytes)
    requires |body| > 20 && body[20] == 65 && c.isPoint(public)
    requires Slice(body, 0, 16) == salt && Slice(body, 21, 86) == public && Slice(body, 86, |body|) == text
    ensures
      var keys := DeriveKeys(c, c.shared(uaPrivate, public), auth, uaPublic, public, salt);
      var plain := c.open(keys.cek, keys.nonce, text);
      Decrypted(c, uaPrivate, uaPublic, auth, body) == if plain.None? then None else Unpadded(plain.value)
  {
  }

  /** The device reads exactly what the application server sent. */
  lemma DecryptUndoesEncrypt(c: Crypto, uaPrivate: Bytes, auth: Bytes, plaintext: Bytes, salt: Bytes,
                             senderPrivate: Bytes, recordSize: nat)
    requires Lawful(c) && |salt| == 16
    ensures Decrypted(c, uaPrivate, c.publicOf(uaPrivate), auth,
              Encrypted(c, c.publicOf(uaPrivate), auth, plaintext, salt, senderPrivate, recordSize)) == Some(plaintext)
  {
    var uaPublic, public := c.publicOf(uaPrivate), c.publicOf(senderPrivate);
    var text := Ciphertext(c, uaPublic, auth, plaintext, salt, senderPrivate);
    var body := Encrypted(c, uaPublic, auth, plaintext, salt, senderPrivate, recordSize);
    BodyParts(salt, recordSize, public, text);
    DecryptedOf(c, uaPrivate, uaPublic, auth, body, salt, public, text);
    assert c.shared(uaPrivate, public) == c.shared(senderPrivate, uaPublic);
    assert plaintext + [2] + [] == plaintext + [2];
    UnpadUndoesPadding(plaintext, []);
  }

  // --- The relay's check -------------------------------------------------------------------

  const AES128GCM_HEADER := 16 + 4 + 1 + 65
  const MIN_BODY := AES128GCM_HEADER + 17

  datatype BodyProblem = TooShort | KeyIdNot65 | RecordSizeTooSmall | NotOneRecord

  function Aes128gcmProblem(body: Bytes): Option<BodyProblem> {
    if |body| < MIN_BODY then Some(TooShort)
    else
      var recordSize := FromBigEndian(body, 16, 20);
      if body[20] != 65 then Some(KeyIdNot65)
      else if recordSize < 18 then Some(RecordSizeTooSmall)
      else if |body| - AES128GCM_HEADER > recordSize then Some(NotOneRecord)
      else None
  }

  lemma HeaderParts(salt: Bytes, recordSize: nat, keyIdLength: nat, rest: Bytes)
    requires |salt| == 16
    ensures
      var body := HeaderOf(salt, recordSize, keyIdLength) + rest;
      && |body| == 21 + |rest| && body[20] == keyIdLength % 256
      && FromBigEndian(body, 16, 20) == recordSize % 0x1_0000_0000
  {
    var body, field := HeaderOf(salt, recordSize, keyIdLength) + rest, BigEndian(recordSize, 4);
    forall k | 0 <= k < 4 ensures body[k + 16] == field[k] {
      assert body[k + 16] == HeaderOf(salt, recordSize, keyIdLength)[k + 16];
    }
    SameNumber(field, body, 0, 4, 16);
    Uint32RoundTrip(recordSize);
  }

  lemma {:induction false} ProblemOf(body: Bytes, recordSize: nat)
    requires |body| >= MIN_BODY && body[20] == 65 && FromBigEndian(body, 16, 20) == recordSize
    ensures Aes128gcmProblem(body).None? <==> recordSize >= Max(18, |body| - AES128GCM_HEADER)
  {
  }

  lemma AcceptsParts(salt: Bytes, recordSize: nat, rest: Bytes)
    requires |salt| == 16 && |rest| >= 65 + 17
    ensures
      var body := HeaderOf(salt, recordSize, 65) + rest;
      && |body| == 21 + |rest|
      && (Aes128gcmProblem(body).None? <==> recordSize % 0x1_0000_0000 >= Max(18, |rest| - 65))
  {
    HeaderParts(salt, recordSize, 65, rest);
    ProblemOf(HeaderOf(salt, recordSize, 65) + rest, recordSize % 0x1_0000_0000);
  }

  lemma EncryptedParts(c: Crypto, uaPublic: Bytes, auth: Bytes, plaintext: Bytes, salt: Bytes,
                       senderPrivate: Bytes, recordSize: nat) returns (rest: Bytes)
    requires Lawful(c) && |salt| == 16
    ensures |rest| == 65 + |plaintext| + 17
    ensures Encrypted(c, uaPublic, auth, plaintext, salt, senderPrivate, recordSize) ==
      HeaderOf(salt, recordSize, 65) + rest
  {
    var public, text := c.publicOf(senderPrivate), Ciphertext(c, uaPublic, auth, plaintext, salt, senderPrivate);
    rest := public + text;
    Appended(HeaderOf(salt, recordSize, 65), public, text);
  }

  lemma Appended(a: Bytes, b: Bytes, c: Bytes)
    ensures a + b + c == a + (b + c)
  {
  }

  /** The relay accepts a sender's message exactly when the record size, as its
      32-bit field keeps it, holds the whole record. */
  lemma RelayAcceptsIff(c: Crypto, uaPublic: Bytes, auth: Bytes, plaintext: Bytes, salt: Bytes,
                        senderPrivate: Bytes, recordSize: nat)
    requires Lawful(c) && |salt| == 16
    ensures |Encrypted(c, uaPublic, auth, plaintext, salt, senderPrivate, recordSize)| == MIN_BODY + |plaintext|
    ensures Aes128gcmProblem(Encrypted(c, uaPublic, auth, plaintext, salt, senderPrivate, recordSize)).None?
       <==> recordSize % 0x1_0000_0000 >= Max(18, |plaintext| + 17)
  {
    var rest := EncryptedParts(c, uaPublic, auth, plaintext, salt, senderPrivate, recordSize);
    AcceptsParts(salt, recordSize, rest);
  }
}
