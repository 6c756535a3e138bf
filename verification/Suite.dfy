/** The cryptographic library as a record of functions, and the laws the protocol relies on.
    Nothing else is known of the functions, so every theorem holds for any suite with these laws. */
module CryptoSuite {
  import opened Basics

  datatype Suite = Suite(
    /** Truncated SHA-256 of a long-term public key. */
    fingerprint: Bytes -> Bytes,
    /** Ed25519: secret to public key, signature of a message, check of a signature. */
    edPub: Bytes -> Bytes,
    sign: (Bytes, Bytes) -> Bytes,
    verify: (Bytes, Bytes, Bytes) -> bool,
    /** X25519: public key of a secret, and the shared secret; low-order points are refused. */
    xPub: Bytes -> Bytes,
    dh: (Bytes, Bytes) -> Option<Bytes>,
    /** Shared secret of an ephemeral secret and a peer's long-term Ed25519 public key, and the same
        secret from the peer's side: long-term Ed25519 secret and ephemeral public key. */
    toPeer: (Bytes, Bytes) -> Bytes,
    fromPeer: (Bytes, Bytes) -> Option<Bytes>,
    /** HKDF: wrapping key from a shared secret and a context. */
    kdf: (Bytes, Bytes) -> Bytes,
    /** XChaCha20-Poly1305: key, nonce, associated data, and plaintext or ciphertext. */
    seal: (Bytes, Bytes, Bytes, Bytes) -> Bytes,
    open: (Bytes, Bytes, Bytes, Bytes) -> Option<Bytes>,
    /** Case-insensitive glob match of a pattern against a handle. */
    glob: (string, string) -> bool
  ) {

    ghost predicate Signed(s: Bytes, m: Bytes) {
      verify(edPub(s), m, sign(s, m))
    }

    ghost predicate Exchange(a: Bytes, b: Bytes) {
      dh(a, xPub(b)).Some? && dh(a, xPub(b)) == dh(b, xPub(a))
    }

    ghost predicate PeerExchange(a: Bytes, s: Bytes) {
      fromPeer(s, xPub(a)) == Some(toPeer(a, edPub(s)))
    }

    /** Opening succeeds on exactly the ciphertext that sealing yields. */
    ghost predicate Sealed(k: Bytes, n: Bytes, a: Bytes, ct: Bytes, p: Bytes) {
      open(k, n, a, ct) == Some(p) <==> ct == seal(k, n, a, p)
    }

    ghost predicate SealsRight() {
      forall k, n, a, ct, p :: Sealed(k, n, a, ct, p)
    }

    ghost predicate Sized() {
      && (forall k, n, a, p :: |seal(k, n, a, p)| == |p| + 16)
      && (forall s :: |edPub(s)| == 32 && |xPub(s)| == 32)
      && (forall s, m :: |sign(s, m)| == 64)
    }

    ghost predicate Lawful() {
      && (forall s, m :: Signed(s, m))
      && (forall a, b :: Exchange(a, b))
      && (forall a, s :: PeerExchange(a, s))
      && SealsRight()
      && Sized()
    }
  }

  function Zeros(n: nat): (b: Bytes)
    ensures |b| == n
  {
    seq(n, i => 0)
  }

  function Ones(n: nat): (b: Bytes)
    ensures |b| == n && (n > 0 ==> b[0] == 1)
  {
    seq(n, i => 1)
  }

  /** A key or secret of the right size stands for itself. */
  function Canonical(key: Bytes): (k: Bytes)
    ensures |k| == 32
  {
    if |key| == 32 then key else Zeros(32)
  }

  function Sum(x: int, y: int): Byte {
    (x + y) % 256
  }

  function Mix(a: Bytes, b: Bytes): (m: Bytes)
    ensures |m| == 32
  {
    seq(32, i requires 0 <= i < 32 => Sum(Canonical(a)[i], Canonical(b)[i]))
  }

  function Tag(key: Bytes): (t: Bytes)
    ensures |t| == 16
  {
    Canonical(key)[..16]
  }

  /** A suite with the laws that tells keys apart: it hides nothing, but nothing in the laws is contradictory. */
  function ToySuite(): Suite {
    Suite(
      pk => pk,
      s => Canonical(s), (s, m) => Zeros(64), (pk, m, sig) => true,
      s => Canonical(s), (a, pk) => Some(Mix(a, pk)),
      (a, pk) => Mix(a, pk), (s, pk) => Some(Mix(s, pk)),
      (shared, info) => shared,
      (k, n, a, p) => p + Tag(k),
      (k, n, a, ct) => if |ct| >= 16 && ct[|ct| - 16..] == Tag(k) then Some(ct[..|ct| - 16]) else None,
      (pattern, handle) => true)
  }

  lemma ToySeals(k: Bytes, n: Bytes, a: Bytes, ct: Bytes, p: Bytes)
    ensures ToySuite().Sealed(k, n, a, ct, p)
  {
    var sealed := p + Tag(k);
    assert sealed[..|sealed| - 16] == p && sealed[|sealed| - 16..] == Tag(k);
    if |ct| >= 16 && ct[|ct| - 16..] == Tag(k) {
      assert ct == ct[..|ct| - 16] + Tag(k);
    }
  }

  lemma MixCommutes(a: Bytes, b: Bytes)
    ensures Mix(a, Canonical(b)) == Mix(b, Canonical(a))
  {
    assert Canonical(Canonical(a)) == Canonical(a) && Canonical(Canonical(b)) == Canonical(b);
    assert forall i | 0 <= i < 32 :: Mix(a, Canonical(b))[i] == Mix(b, Canonical(a))[i];
  }

  lemma LawsCanHold()
    ensures ToySuite().Lawful()
  {
    forall k, n, a, ct, p
      ensures ToySuite().Sealed(k, n, a, ct, p)
    {
      ToySeals(k, n, a, ct, p);
    }
    forall a, b
      ensures ToySuite().Exchange(a, b) && ToySuite().PeerExchange(a, b)
    {
      MixCommutes(a, b);
    }
  }

}
