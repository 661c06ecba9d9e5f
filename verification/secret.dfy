/** Sealing and opening credential values: AAD encoding, blob framing and the four outcomes of Open. */
module Secret {
  import opened Basics
  import opened Errors

  const KEY_SIZE := 32
  const NONCE_SIZE := 12
  const VERSION: byte := 1

  /** "aud/cred/v1" */
  const AAD_DOMAIN: Bytes := [97, 117, 100, 47, 99, 114, 101, 100, 47, 118, 49]

  type Nonce = n: Bytes | |n| == NONCE_SIZE witness [0, 0, 0, 0, 0, 0, 0, 0, 0, 0, 0, 0]

  function AAD(providerId: Bytes, fieldName: Bytes): Bytes {
    AAD_DOMAIN + [NUL] + providerId + [NUL] + fieldName
  }

  /** The buffer is grown by one append per part, as the program does. */
  method BuildAAD(providerId: Bytes, fieldName: Bytes) returns (aad: Bytes)
    ensures aad == AAD(providerId, fieldName)
    ensures |aad| == |AAD_DOMAIN| + |providerId| + |fieldName| + 2
  {
    aad := AAD_DOMAIN;
    aad := aad + [NUL];
    aad := aad + providerId;
    aad := aad + [NUL];
    aad := aad + fieldName;
  }

  /** The bytes of b before and after its first NUL. */
  function SplitAtNul(b: Bytes): Option<(Bytes, Bytes)> {
    if b == [] then None
    else if b[0] == NUL then Some(([], b[1..]))
    else match SplitAtNul(b[1..])
         case None => None
         case Some((before, after)) => Some(([b[0]] + before, after))
  }

  /** The reader AAD is meant for: strip the domain, then split at the first NUL. */
  function ParseAAD(aad: Bytes): Option<(Bytes, Bytes)> {
    if AAD_DOMAIN + [NUL] <= aad then SplitAtNul(aad[|AAD_DOMAIN| + 1..]) else None
  }

  lemma {:induction false} SplitFindsFirstNul(before: Bytes, after: Bytes)
    requires NulFree(before)
    ensures SplitAtNul(before + [NUL] + after) == Some((before, after))
  {
    var b := before + [NUL] + after;
    if before == [] {
      assert b[1..] == after;
    } else {
      assert b[1..] == before[1..] + [NUL] + after;
      SplitFindsFirstNul(before[1..], after);
      assert [before[0]] + before[1..] == before;
    }
  }

  lemma {:induction false} SplitHeadIsNulFree(b: Bytes)
    ensures SplitAtNul(b).Some? ==> NulFree(SplitAtNul(b).value.0)
  {
    if b != [] && b[0] != NUL {
      SplitHeadIsNulFree(b[1..]);
    }
  }

  lemma AADBody(p: Bytes, f: Bytes)
    ensures AAD_DOMAIN + [NUL] <= AAD(p, f)
    ensures AAD(p, f)[|AAD_DOMAIN| + 1..] == p + [NUL] + f
  {
  }

  /** Reading back what AAD wrote gives the pair it was built from exactly for NUL-free provider ids. */
  lemma ParseInvertsAAD(p: Bytes, f: Bytes)
    ensures ParseAAD(AAD(p, f)) == Some((p, f)) <==> NulFree(p)
  {
    AADBody(p, f);
    if NulFree(p) {
      SplitFindsFirstNul(p, f);
    } else {
      SplitHeadIsNulFree(p + [NUL] + f);
    }
  }

  lemma AADInjective(p: Bytes, f: Bytes, q: Bytes, g: Bytes)
    requires NulFree(p) && NulFree(q)
    ensures AAD(p, f) == AAD(q, g) <==> p == q && f == g
  {
    if AAD(p, f) == AAD(q, g) {
      ParseInvertsAAD(p, f);
      ParseInvertsAAD(q, g);
    }
  }

  /** Without the condition on ids, AAD pins down its arguments exactly when neither of them contains a NUL. */
  lemma AADUniqueIff(p: Bytes, f: Bytes)
    ensures (forall q, g :: AAD(q, g) == AAD(p, f) ==> q == p && g == f) <==> NulFree(p) && NulFree(f)
  {
    if NulFree(p) && NulFree(f) {
      forall q, g | AAD(q, g) == AAD(p, f)
        ensures q == p && g == f
      {
        OnlyOneNul(p, f, q, g);
      }
    } else if NUL in p {
      var i :| 0 <= i < |p| && p[i] == NUL;
      assert p == p[..i] + [NUL] + p[i + 1..];
      var q, g := p[..i], p[i + 1..] + [NUL] + f;
      assert AAD(q, g) == AAD(p, f) && q != p;
    } else {
      var i :| 0 <= i < |f| && f[i] == NUL;
      assert f == f[..i] + [NUL] + f[i + 1..];
      var q, g := p + [NUL] + f[..i], f[i + 1..];
      assert AAD(q, g) == AAD(p, f) && g != f;
    }
  }

  lemma OnlyOneNul(p: Bytes, f: Bytes, q: Bytes, g: Bytes)
    requires NulFree(p) && NulFree(f) && AAD(q, g) == AAD(p, f)
    ensures q == p && g == f
  {
    AADBody(p, f);
    AADBody(q, g);
    var b := p + [NUL] + f;
    assert b == q + [NUL] + g;
    assert forall i | 0 <= i < |b| && b[i] == NUL :: i == |p|;
    assert b[|q|] == NUL;
    assert q == b[..|q|] == p;
    assert g == b[|q| + 1..] == f;
  }

  /** Two different (provider, field) pairs share an AAD once a provider id may contain a NUL. */
  lemma AADCollisionWitness()
    ensures AAD([97, NUL, 98], [99]) == AAD([97], [98, NUL, 99])
  {
  }

  // -------------------------------------------------------------------------------------------------
  // The ideal AEAD

  /** An AEAD with the interface of RFC 5116, sections 2.1 and 2.2: (key, nonce, text, associated data). */
  datatype Aead = Aead(
    encrypt: (Bytes, Bytes, Bytes, Bytes) -> Bytes,
    decrypt: (Bytes, Bytes, Bytes, Bytes) -> Option<Bytes>)

  /** Decryption accepts exactly the encryptions made with the same key, nonce and associated data. */
  ghost predicate Correct(g: Aead) {
    forall k, n, c, a, m :: g.decrypt(k, n, c, a) == Some(m) <==> c == g.encrypt(k, n, m, a)
  }

  /** Under one nonce, no ciphertext is shared by two keys or by two associated data. */
  ghost predicate Binding(g: Aead) {
    forall k, n, m, a, k', m', a' ::
      g.encrypt(k, n, m, a) == g.encrypt(k', n, m', a') ==> k == k' && a == a'
  }

  ghost predicate Ideal(g: Aead) {
    Correct(g) && Binding(g)
  }

  function Escape(b: Bytes): Bytes {
    if b == [] then [0] else [1, b[0]] + Escape(b[1..])
  }

  function Unescape(c: Bytes): Option<(Bytes, Bytes)> {
    if |c| >= 1 && c[0] == 0 then Some(([], c[1..]))
    else if |c| >= 2 && c[0] == 1 then
      match Unescape(c[2..])
      case None => None
      case Some((b, rest)) => Some(([c[1]] + b, rest))
    else None
  }

  lemma {:induction false} UnescapeInvertsEscape(b: Bytes, rest: Bytes)
    ensures Unescape(Escape(b) + rest) == Some((b, rest))
  {
    var c := Escape(b) + rest;
    if b == [] {
      assert c[1..] == rest;
    } else {
      assert c == [1, b[0]] + (Escape(b[1..]) + rest);
      assert c[2..] == Escape(b[1..]) + rest;
      UnescapeInvertsEscape(b[1..], rest);
      assert [b[0]] + b[1..] == b;
    }
  }

  function Transparent(k: Bytes, n: Bytes, m: Bytes, a: Bytes): Bytes {
    Escape(k) + (Escape(a) + m)
  }

  lemma TransparentInjective(k: Bytes, n: Bytes, m: Bytes, a: Bytes, k': Bytes, m': Bytes, a': Bytes)
    requires Transparent(k, n, m, a) == Transparent(k', n, m', a')
    ensures k == k' && m == m' && a == a'
  {
    UnescapeInvertsEscape(k, Escape(a) + m);
    UnescapeInvertsEscape(k', Escape(a') + m');
    UnescapeInvertsEscape(a, m);
    UnescapeInvertsEscape(a', m');
  }

  function TransparentOpen(k: Bytes, n: Bytes, c: Bytes, a: Bytes): Option<Bytes> {
    if Escape(k) <= c && Escape(a) <= c[|Escape(k)|..]
    then Some(c[|Escape(k)|..][|Escape(a)|..])
    else None
  }

  /** The requirements on an ideal AEAD are satisfiable (by a scheme that hides nothing, but binds everything). */
  lemma IdealExists()
    ensures exists g :: Ideal(g)
  {
    var g := Aead(Transparent, TransparentOpen);
    forall k, n, c, a, m
      ensures g.decrypt(k, n, c, a) == Some(m) <==> c == g.encrypt(k, n, m, a)
    {
      TransparentOpens(k, n, c, a, m);
    }
    forall k, n, m, a, k', m', a' | g.encrypt(k, n, m, a) == g.encrypt(k', n, m', a')
      ensures k == k' && a == a'
    {
      TransparentInjective(k, n, m, a, k', m', a');
    }
    assert Ideal(g);
  }

  lemma TransparentOpens(k: Bytes, n: Bytes, c: Bytes, a: Bytes, m: Bytes)
    ensures TransparentOpen(k, n, c, a) == Some(m) <==> c == Transparent(k, n, m, a)
  {
  }

  // -------------------------------------------------------------------------------------------------
  // Seal and Open

  function Frame(nonce: Nonce, ciphertext: Bytes): Bytes {
    [VERSION] + nonce + ciphertext
  }

  /** `draw` is what crypto/rand delivers: a nonce, or a read error. */
  function Seal(g: Aead, key: Bytes, draw: Result<Nonce, int>, plaintext: Bytes, aad: Bytes): Result<Bytes, Error> {
    if |key| != KEY_SIZE then Err(InvalidKeyLength)
    else match draw
         case Err(code) => Err(Wrapped(Other(code)))
         case Ok(nonce) => Ok(Frame(nonce, g.encrypt(key, nonce, plaintext, aad)))
  }

  function Open(g: Aead, key: Bytes, blob: Bytes, aad: Bytes): Result<Bytes, Error> {
    if |key| != KEY_SIZE then Err(InvalidKeyLength)
    else if |blob| < 1 + NONCE_SIZE then Err(InvalidBlob)
    else if blob[0] != VERSION then Err(InvalidBlob)
    else
      var nonce := blob[1..1 + NONCE_SIZE];
      var ciphertext := blob[1 + NONCE_SIZE..];
      match g.decrypt(key, nonce, ciphertext, aad)
      case None => Err(DecryptionFailed)
      case Some(plaintext) => Ok(plaintext)
  }

  predicate WellFramed(blob: Bytes) {
    |blob| >= 1 + NONCE_SIZE && blob[0] == VERSION
  }

  /** blob is the sealing of m for (key, aad) under some nonce. */
  ghost predicate SealedAs(g: Aead, key: Bytes, blob: Bytes, m: Bytes, aad: Bytes) {
    exists nonce: Nonce :: Seal(g, key, Ok(nonce), m, aad) == Ok(blob)
  }

  lemma FrameParts(nonce: Nonce, ciphertext: Bytes)
    ensures var b := Frame(nonce, ciphertext);
      WellFramed(b) && b[1..1 + NONCE_SIZE] == nonce && b[1 + NONCE_SIZE..] == ciphertext
  {
  }

  lemma WellFramedIsFrame(blob: Bytes)
    requires WellFramed(blob)
    ensures blob == Frame(blob[1..1 + NONCE_SIZE], blob[1 + NONCE_SIZE..])
  {
  }

  /** What Seal writes, byte by byte, for every AEAD: version 1, the 12 bytes of the nonce, the ciphertext. */
  lemma SealLayout(g: Aead, key: Bytes, draw: Result<Nonce, int>, plaintext: Bytes, aad: Bytes)
    ensures var r := Seal(g, key, draw, plaintext, aad);
      && (|key| != 32 ==> r == Err(InvalidKeyLength))
      && (|key| == 32 && draw.Err? ==> r == Err(Wrapped(Other(draw.error))))
      && (|key| == 32 && draw.Ok? ==>
            && r.Ok? && |r.value| >= 13 && r.value[0] == 1 && r.value[1..13] == draw.value
            && r.value[13..] == g.encrypt(key, draw.value, plaintext, aad))
  {
    if draw.Ok? {
      FrameParts(draw.value, g.encrypt(key, draw.value, plaintext, aad));
    }
  }

  /** What Open reads, byte by byte, for every AEAD. */
  lemma OpenLayout(g: Aead, key: Bytes, blob: Bytes, aad: Bytes)
    ensures Open(g, key, blob, aad) ==
      if |key| != 32 then Err(InvalidKeyLength)
      else if |blob| < 13 || blob[0] != 1 then Err(InvalidBlob)
      else match g.decrypt(key, blob[1..13], blob[13..], aad)
           case None => Err(DecryptionFailed)
           case Some(plaintext) => Ok(plaintext)
  {
  }

  /** What AAD writes: the domain and the two arguments, a NUL byte after each of the first two parts. */
  lemma AADLayout(providerId: Bytes, fieldName: Bytes)
    ensures AAD(providerId, fieldName) == Ascii("aud/cred/v1") + [0] + providerId + [0] + fieldName
  {
    assert AAD_DOMAIN == Ascii("aud/cred/v1");
  }

  lemma OpenSealed(g: Aead, key: Bytes, nonce: Nonce, m: Bytes, aad: Bytes)
    requires Ideal(g) && |key| == KEY_SIZE
    ensures var blob := Frame(nonce, g.encrypt(key, nonce, m, aad));
      Open(g, key, blob, aad) == Ok(m)
  {
    FrameParts(nonce, g.encrypt(key, nonce, m, aad));
    assert g.decrypt(key, nonce, g.encrypt(key, nonce, m, aad), aad) == Some(m);
  }

  /** Open accepts a blob precisely when Seal could have produced it for that key and AAD, and returns what was sealed. */
  lemma OpensIffSealed(g: Aead, key: Bytes, blob: Bytes, aad: Bytes, m: Bytes)
    requires Ideal(g)
    ensures Open(g, key, blob, aad) == Ok(m) <==> SealedAs(g, key, blob, m, aad)
  {
    if SealedAs(g, key, blob, m, aad) {
      var nonce: Nonce :| Seal(g, key, Ok(nonce), m, aad) == Ok(blob);
      OpenSealed(g, key, nonce, m, aad);
    }
    if Open(g, key, blob, aad) == Ok(m) {
      WellFramedIsFrame(blob);
      var nonce: Nonce := blob[1..1 + NONCE_SIZE];
      assert Seal(g, key, Ok(nonce), m, aad) == Ok(blob);
    }
  }

  /** Every byte string falls in exactly one of the four outcomes, and each is recognisable from the outside. */
  lemma OpenOutcomes(g: Aead, key: Bytes, blob: Bytes, aad: Bytes)
    requires Ideal(g)
    ensures Open(g, key, blob, aad) == Err(InvalidKeyLength) <==> |key| != KEY_SIZE
    ensures Open(g, key, blob, aad) == Err(InvalidBlob) <==> |key| == KEY_SIZE && !WellFramed(blob)
    ensures Open(g, key, blob, aad) == Err(DecryptionFailed)
       <==> |key| == KEY_SIZE && WellFramed(blob) && forall m :: !SealedAs(g, key, blob, m, aad)
    ensures Open(g, key, blob, aad).Ok?
       <==> |key| == KEY_SIZE && WellFramed(blob) && exists m :: SealedAs(g, key, blob, m, aad)
  {
    forall m
      ensures Open(g, key, blob, aad) == Ok(m) <==> SealedAs(g, key, blob, m, aad)
    {
      OpensIffSealed(g, key, blob, aad, m);
    }
    if Open(g, key, blob, aad).Ok? {
      assert SealedAs(g, key, blob, Open(g, key, blob, aad).value, aad);
    }
  }

  /** A sealed blob opens under its own key and AAD only; elsewhere it is a decryption failure. */
  lemma SealedOpensOnlyAtHome(g: Aead, key: Bytes, nonce: Nonce, m: Bytes, aad: Bytes, key': Bytes, aad': Bytes)
    requires Ideal(g) && |key| == KEY_SIZE && |key'| == KEY_SIZE
    ensures var blob := Frame(nonce, g.encrypt(key, nonce, m, aad));
      Open(g, key', blob, aad') == (if key' == key && aad' == aad then Ok(m) else Err(DecryptionFailed))
  {
    var c := g.encrypt(key, nonce, m, aad);
    FrameParts(nonce, c);
    OpenSealed(g, key, nonce, m, aad);
    if g.decrypt(key', nonce, c, aad').Some? {
      var m' := g.decrypt(key', nonce, c, aad').value;
      assert c == g.encrypt(key', nonce, m', aad');
    }
  }

  /** Seal's buffer, grown as the program grows it. */
  method BuildSealed(g: Aead, key: Bytes, draw: Result<Nonce, int>, plaintext: Bytes, aad: Bytes)
    returns (r: Result<Bytes, Error>)
    ensures r == Seal(g, key, draw, plaintext, aad)
  {
    if |key| != KEY_SIZE {
      return Err(InvalidKeyLength);
    }
    if draw.Err? {
      return Err(Wrapped(Other(draw.error)));
    }
    var nonce := draw.value;
    var blob: Bytes := [VERSION];
    blob := blob + nonce;
    blob := blob + g.encrypt(key, nonce, plaintext, aad);
    return Ok(blob);
  }
}
