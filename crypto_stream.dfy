/** The per-direction AES-128-CBC transform of the encrypted session
    (`js/lib/CryptoStream.js`, and the stream factories of
    `js/lib/ICrypto.js`).  Every chunk is encrypted or decrypted by a fresh
    CBC cipher (section 6.2 of NIST SP 800-38A) with PKCS#7 padding
    (section 6.3 of RFC 5652), and the IV is chained by hand from one chunk
    to the next.  The AES block function itself is a parameter. */
module CryptoStreams {
  import opened Prelude

  const BLOCK_SIZE: nat := 16

  /** A 16-byte value: an AES-128 key, an IV or one cipher block. */
  type Bytes16 = s: seq<byte> | |s| == 16 witness [0, 0, 0, 0, 0, 0, 0, 0, 0, 0, 0, 0, 0, 0, 0, 0]

  /** The block cipher under a key: forward and inverse permutation of one
      block. */
  datatype BlockCipher = BlockCipher(encipher: (Bytes16, Bytes16) -> Bytes16,
                                     decipher: (Bytes16, Bytes16) -> Bytes16)

  /** Deciphering undoes enciphering under the same key (what AES
      guarantees). */
  ghost predicate IsInverse(c: BlockCipher)
  {
    forall k: Bytes16, x: Bytes16 :: c.decipher(k, c.encipher(k, x)) == x
  }

  function XorBlock(a: Bytes16, b: Bytes16): (r: Bytes16)
    ensures forall i :: 0 <= i < 16 ==> r[i] == Xor(a[i], b[i])
  {
    seq(16, i requires 0 <= i < 16 => Xor(a[i], b[i]))
  }

  lemma XorBlockCancels(a: Bytes16, b: Bytes16)
    ensures XorBlock(XorBlock(a, b), b) == a
  {
    forall i | 0 <= i < 16 ensures XorBlock(XorBlock(a, b), b)[i] == a[i] {
      XorCancels(a[i], b[i]);
    }
  }

  // -----------------------------------------------------------------------
  // PKCS#7 padding

  /** Append `n` bytes of value `n`, 1 <= n <= 16, to reach a whole number
      of blocks. */
  function Pad(m: seq<byte>): (p: seq<byte>)
    ensures |p| % BLOCK_SIZE == 0 && |m| < |p| <= |m| + BLOCK_SIZE
    ensures p[..|m|] == m
  {
    var n := BLOCK_SIZE - |m| % BLOCK_SIZE;
    m + seq(n, _ => n as byte)
  }

  /** Remove PKCS#7 padding; `None` when it is malformed. */
  function Unpad(p: seq<byte>): (r: Option<seq<byte>>)
    ensures r.Some? ==> |r.value| < |p| && r.value == p[..|r.value|]
  {
    if |p| == 0 || |p| % BLOCK_SIZE != 0 then None
    else
      var n := p[|p| - 1] as nat;
      if 1 <= n <= BLOCK_SIZE && n <= |p| && forall i :: |p| - n <= i < |p| ==> p[i] as nat == n
      then Some(p[..|p| - n])
      else None
  }

  lemma UnpadPad(m: seq<byte>)
    ensures Unpad(Pad(m)) == Some(m)
  {
    var p := Pad(m);
    var n := BLOCK_SIZE - |m| % BLOCK_SIZE;
    assert p[|p| - 1] as nat == n;
    assert forall i :: |p| - n <= i < |p| ==> p[i] as nat == n;
    assert p[..|p| - n] == m;
  }

  // -----------------------------------------------------------------------
  // CBC mode

  function CbcEncrypt(c: BlockCipher, key: Bytes16, iv: Bytes16, p: seq<byte>): (ct: seq<byte>)
    requires |p| % BLOCK_SIZE == 0
    ensures |ct| == |p|
    decreases |p|
  {
    if p == [] then []
    else
      var block := c.encipher(key, XorBlock(p[..16], iv));
      block + CbcEncrypt(c, key, block, p[16..])
  }

  function CbcDecrypt(c: BlockCipher, key: Bytes16, iv: Bytes16, ct: seq<byte>): (p: seq<byte>)
    requires |ct| % BLOCK_SIZE == 0
    ensures |p| == |ct|
    decreases |ct|
  {
    if ct == [] then []
    else XorBlock(c.decipher(key, ct[..16]), iv) + CbcDecrypt(c, key, ct[..16], ct[16..])
  }

  lemma {:induction false} CbcRoundTrip(c: BlockCipher, key: Bytes16, iv: Bytes16, p: seq<byte>)
    requires IsInverse(c) && |p| % BLOCK_SIZE == 0
    ensures CbcDecrypt(c, key, iv, CbcEncrypt(c, key, iv, p)) == p
    decreases |p|
  {
    if p != [] {
      var x: Bytes16 := p[..16];
      var block := c.encipher(key, XorBlock(x, iv));
      var ct := CbcEncrypt(c, key, iv, p);
      assert ct == block + CbcEncrypt(c, key, block, p[16..]);
      assert ct[..16] == block && ct[16..] == CbcEncrypt(c, key, block, p[16..]);
      XorBlockCancels(x, iv);
      CbcRoundTrip(c, key, block, p[16..]);
      assert p == x + p[16..];
    }
  }

  /** A whole-chunk `aes-128-cbc` encryption with automatic padding. */
  function Encrypt(c: BlockCipher, key: Bytes16, iv: Bytes16, m: seq<byte>): (ct: seq<byte>)
    ensures |ct| % BLOCK_SIZE == 0 && |m| < |ct| <= |m| + BLOCK_SIZE
  {
    CbcEncrypt(c, key, iv, Pad(m))
  }

  /** A whole-chunk decryption: `None` where the decipher's `final` throws
      (no data, a partial block, or bad padding). */
  function Decrypt(c: BlockCipher, key: Bytes16, iv: Bytes16, ct: seq<byte>): (r: Option<seq<byte>>)
    ensures r.Some? ==> |ct| >= BLOCK_SIZE && |ct| % BLOCK_SIZE == 0 && |r.value| < |ct|
  {
    if |ct| == 0 || |ct| % BLOCK_SIZE != 0 then None
    else Unpad(CbcDecrypt(c, key, iv, ct))
  }

  lemma DecryptEncrypt(c: BlockCipher, key: Bytes16, iv: Bytes16, m: seq<byte>)
    requires IsInverse(c)
    ensures Decrypt(c, key, iv, Encrypt(c, key, iv, m)) == Some(m)
  {
    CbcRoundTrip(c, key, iv, Pad(m));
    UnpadPad(m);
  }

  // -----------------------------------------------------------------------
  // One chunk through each direction, with the IV for the next chunk

  /** Encrypting one chunk: the ciphertext, and the next IV, which is the
      first block of that ciphertext. */
  function EncryptStep(c: BlockCipher, key: Bytes16, iv: Bytes16, chunk: seq<byte>): (r: (seq<byte>, Bytes16))
    ensures r.0 == Encrypt(c, key, iv, chunk)
    ensures r.1 == r.0[..16]
  {
    var ct := Encrypt(c, key, iv, chunk);
    (ct, ct[..16])
  }

  /** Decrypting one chunk: the plaintext, or `None` when decryption fails;
      on success the next IV is the first block of the chunk consumed, on
      failure the IV stays. */
  function DecryptStep(c: BlockCipher, key: Bytes16, iv: Bytes16, chunk: seq<byte>): (r: (Option<seq<byte>>, Bytes16))
    ensures r.0 == Decrypt(c, key, iv, chunk)
    ensures r.0.Some? ==> r.1 == chunk[..16]
    ensures r.0.None? ==> r.1 == iv
  {
    var p := Decrypt(c, key, iv, chunk);
    if p.Some? then (p, chunk[..16]) else (p, iv)
  }

  /** A sequence of chunks through the encrypting direction: the outputs and
      the final IV. */
  function EncryptAll(c: BlockCipher, key: Bytes16, iv: Bytes16, msgs: seq<seq<byte>>): (r: (seq<seq<byte>>, Bytes16))
    ensures |r.0| == |msgs|
    decreases |msgs|
  {
    if msgs == [] then ([], iv)
    else
      var (ct, next) := EncryptStep(c, key, iv, msgs[0]);
      var (rest, last) := EncryptAll(c, key, next, msgs[1..]);
      ([ct] + rest, last)
  }

  /** A sequence of chunks through the decrypting direction, stopping at the
      first failure (the stream stalls there). */
  function DecryptAll(c: BlockCipher, key: Bytes16, iv: Bytes16, cts: seq<seq<byte>>): (r: (Option<seq<seq<byte>>>, Bytes16))
    decreases |cts|
  {
    if cts == [] then (Some([]), iv)
    else
      var (p, next) := DecryptStep(c, key, iv, cts[0]);
      if p.None? then (None, iv)
      else
        var (rest, last) := DecryptAll(c, key, next, cts[1..]);
        if rest.None? then (None, last) else (Some([p.value] + rest.value), last)
  }

  /** IV synchronisation: a decrypter started with the encrypter's key and IV
      and fed the encrypter's outputs in order recovers every plaintext and
      ends with the same IV.  Applied to each prefix of `msgs`, this says the
      two IVs agree before every chunk. */
  lemma {:induction false} ChainRoundTrip(c: BlockCipher, key: Bytes16, iv: Bytes16, msgs: seq<seq<byte>>)
    requires IsInverse(c)
    ensures DecryptAll(c, key, iv, EncryptAll(c, key, iv, msgs).0) ==
      (Some(msgs), EncryptAll(c, key, iv, msgs).1)
    decreases |msgs|
  {
    if msgs != [] {
      var (ct, next) := EncryptStep(c, key, iv, msgs[0]);
      DecryptEncrypt(c, key, iv, msgs[0]);
      ChainRoundTrip(c, key, next, msgs[1..]);
      var cts := EncryptAll(c, key, iv, msgs).0;
      assert cts[0] == ct && cts[1..] == EncryptAll(c, key, next, msgs[1..]).0;
      assert DecryptStep(c, key, iv, ct) == (Some(msgs[0]), next);
      assert [msgs[0]] + msgs[1..] == msgs;
    }
  }

  /** Bytes 0..15 of the 40-byte session key. */
  function SessionCipherKey(sessionKey: seq<byte>): (k: Bytes16)
    requires |sessionKey| >= 32
    ensures k == sessionKey[..16]
  {
    sessionKey[..16]
  }

  /** Bytes 16..31 of the 40-byte session key. */
  function SessionIv(sessionKey: seq<byte>): (iv: Bytes16)
    requires |sessionKey| >= 32
    ensures iv == sessionKey[16..32]
  {
    sessionKey[16..32]
  }

  // -----------------------------------------------------------------------
  // The stream object

  class CryptoStream {
    const cipher: BlockCipher
    var key: Bytes16
    var iv: Bytes16
    var encrypt: bool
    /** What the stream has pushed to its readers, in order. */
    var pushed: seq<seq<byte>>
    /** A decryption failed: the transform callback was never called, so the
        stream accepts no further chunk. */
    var stalled: bool

    /** Construction stores the key, the IV and the direction, nothing else. */
    constructor (cipher: BlockCipher, key: Bytes16, iv: Bytes16, encrypt: bool)
      ensures this.cipher == cipher && this.key == key && this.iv == iv && this.encrypt == encrypt
      ensures pushed == [] && !stalled
    {
      this.cipher := cipher;
      this.key := key;
      this.iv := iv;
      this.encrypt := encrypt;
      pushed := [];
      stalled := false;
    }

    /** `_transform`: one chunk through a fresh cipher under the current key
        and IV.  Only the IV, the output and the stall flag may change. */
    method Transform(chunk: seq<byte>)
      modifies this`iv, this`pushed, this`stalled
      ensures old(stalled) ==> iv == old(iv) && pushed == old(pushed) && stalled
      ensures !old(stalled) && encrypt ==>
        var (ct, next) := EncryptStep(cipher, key, old(iv), chunk);
        pushed == old(pushed) + [ct] && iv == next && !stalled
      ensures !old(stalled) && !encrypt ==>
        var (p, next) := DecryptStep(cipher, key, old(iv), chunk);
        iv == next &&
        (p.Some? ==> pushed == old(pushed) + [p.value] && !stalled) &&
        (p.None? ==> pushed == old(pushed) && stalled)
    {
      if stalled {
        return;
      }
      if encrypt {
        var ct := Encrypt(cipher, key, iv, chunk);
        OnCipherEnd(ct);
      } else {
        var p := Decrypt(cipher, key, iv, chunk);
        if p.None? {
          stalled := true;
          return;
        }
        OnCipherEnd(p.value);
        iv := chunk[..16];
      }
    }

    /** The cipher's 'end' handler: push the output and, when encrypting,
        take its first block as the IV for the next chunk. */
    method OnCipherEnd(output: seq<byte>)
      requires encrypt ==> |output| >= 16
      modifies this`iv, this`pushed
      ensures pushed == old(pushed) + [output]
      ensures encrypt ==> iv == output[..16]
      ensures !encrypt ==> iv == old(iv)
    {
      pushed := pushed + [output];
      if encrypt {
        iv := output[..16];
      }
    }
  }

  /** `CreateAESCipherStream`: the encrypting direction of a session. */
  method CreateAesCipherStream(cipher: BlockCipher, sessionKey: seq<byte>) returns (s: CryptoStream)
    requires |sessionKey| >= 32
    ensures fresh(s) && s.cipher == cipher && s.encrypt
    ensures s.key == SessionCipherKey(sessionKey) && s.iv == SessionIv(sessionKey)
    ensures s.pushed == [] && !s.stalled
  {
    s := new CryptoStream(cipher, sessionKey[..16], sessionKey[16..32], true);
  }

  /** `CreateAESDecipherStream`: the decrypting direction of a session. */
  method CreateAesDecipherStream(cipher: BlockCipher, sessionKey: seq<byte>) returns (s: CryptoStream)
    requires |sessionKey| >= 32
    ensures fresh(s) && s.cipher == cipher && !s.encrypt
    ensures s.key == SessionCipherKey(sessionKey) && s.iv == SessionIv(sessionKey)
    ensures s.pushed == [] && !s.stalled
  {
    s := new CryptoStream(cipher, sessionKey[..16], sessionKey[16..32], false);
  }

  /** Both directions built from the same session key stay in step: feeding
      the decrypter every output of the encrypter recovers all plaintexts. */
  lemma SessionStreamsAgree(c: BlockCipher, sessionKey: seq<byte>, msgs: seq<seq<byte>>)
    requires IsInverse(c) && |sessionKey| >= 32
    ensures
      var key, iv := SessionCipherKey(sessionKey), SessionIv(sessionKey);
      DecryptAll(c, key, iv, EncryptAll(c, key, iv, msgs).0).0 == Some(msgs)
  {
    ChainRoundTrip(c, SessionCipherKey(sessionKey), SessionIv(sessionKey), msgs);
  }
}
