/** The .mdbk backup format over an ideal authenticated cipher. */
module Backup {
  import opened Options

  newtype byte = x: int | 0 <= x < 256

  type Bytes = seq<byte>

  const MAGIC: Bytes := [0x4D, 0x44, 0x42, 0x4B]
  const VERSION: byte := 1
  const HEADER_SIZE := 14

  /** uint64 and the largest length a Go slice can have. */
  const TWO_64 := 0x1_0000_0000_0000_0000
  const MAX_INT := 0x7FFF_FFFF_FFFF_FFFF

  // ---- Big-endian numbers ----

  function Power256(n: nat): nat {
    if n == 0 then 1 else 256 * Power256(n - 1)
  }

  /** The low n bytes of v, most significant first. */
  function BigEndian(v: nat, n: nat): (s: Bytes)
    ensures |s| == n
  {
    if n == 0 then [] else BigEndian(v / 256, n - 1) + [(v % 256) as byte]
  }

  function FromBigEndian(s: Bytes): (v: nat)
    ensures v < Power256(|s|)
  {
    if s == [] then 0 else 256 * FromBigEndian(s[..|s| - 1]) + s[|s| - 1] as nat
  }

  lemma BigEndianLast(v: nat, n: nat)
    requires n > 0
    ensures BigEndian(v, n) == BigEndian(v / 256, n - 1) + [(v % 256) as byte]
  {
  }

  lemma BigEndianNone(v: nat)
    ensures BigEndian(v, 0) == []
  {
  }

  lemma Power256Positive(n: nat)
    ensures Power256(n) > 0
  {
  }

  /** Byte i of n is the digit of weight 256^(n - 1 - i): the most significant one first. */
  lemma {:induction false} BigEndianDigit(v: nat, n: nat, i: nat)
    requires i < n
    ensures Power256(n - 1 - i) > 0 && BigEndian(v, n)[i] as nat == (v / Power256(n - 1 - i)) % 256
    decreases n
  {
    Power256Positive(n - 1 - i);
    BigEndianLast(v, n);
    if i < n - 1 {
      BigEndianDigit(v / 256, n - 1, i);
      DivDiv(v, Power256(n - 2 - i));
    }
  }

  lemma DivDiv(v: nat, p: nat)
    requires p > 0
    ensures v / 256 / p == v / (256 * p)
  {
    var q, r := v / (256 * p), v % (256 * p);
    assert v == q * (256 * p) + r;
    var a, b := r / 256, r % 256;
    assert v == 256 * (q * p + a) + b;
    DivMod256(q * p + a, b);
    assert a < p;
    SmallRemainder(q, p, a);
  }

  lemma AtLeastOnce(k: nat, p: nat)
    requires k > 0
    ensures k * p >= p
  {
    assert k * p == (k - 1) * p + p;
  }

  /** The quotient is determined by a remainder smaller than the divisor. */
  lemma SmallRemainder(q: nat, p: nat, a: nat)
    requires a < p
    ensures (q * p + a) / p == q
  {
    var x := q * p + a;
    Quotient(x, p, x / p, x % p, q, a);
  }

  lemma Quotient(x: nat, p: nat, d: nat, e: nat, q: nat, a: nat)
    requires x == d * p + e && x == q * p + a && a < p && e < p
    ensures d == q
  {
    if d > q {
      FurtherApart(d, q, p);
    } else if d < q {
      FurtherApart(q, d, p);
    }
  }

  lemma FurtherApart(d: nat, q: nat, p: nat)
    requires d > q
    ensures d * p >= q * p + p
  {
    AtLeastOnce(d - q, p);
    assert d * p == (d - q) * p + q * p;
  }

  lemma DivMod256(a: nat, b: nat)
    requires b < 256
    ensures (256 * a + b) / 256 == a && (256 * a + b) % 256 == b
  {
  }

  lemma {:induction false} BigEndianRoundTrip(v: nat, n: nat)
    requires v < Power256(n)
    ensures FromBigEndian(BigEndian(v, n)) == v
  {
    if n > 0 {
      BigEndianRoundTrip(v / 256, n - 1);
      assert BigEndian(v, n)[..n - 1] == BigEndian(v / 256, n - 1);
    }
  }

  lemma {:induction false} BigEndianOf(s: Bytes)
    ensures BigEndian(FromBigEndian(s), |s|) == s
  {
    if s != [] {
      var init, last := s[..|s| - 1], s[|s| - 1];
      BigEndianOf(init);
      DivMod256(FromBigEndian(init), last as nat);
      BigEndianLast(FromBigEndian(s), |s|);
      hide BigEndian;
      assert s == init + [last];
    }
  }

  lemma Power256Of8()
    ensures Power256(8) == TWO_64
  {
  }

  // ---- The cipher ----

  /** AES-GCM as an ideal AEAD under one key. Opening with a nonce of the wrong length is
      not an error but a panic of the Go implementation. */
  datatype Aead = Aead(
    nonceSize: nat, overhead: nat,
    seal: (Bytes, Bytes, Bytes) -> Bytes,           // nonce, plaintext, additional data
    open: (Bytes, Bytes, Bytes) -> Option<Bytes>)   // nonce, ciphertext, additional data

  /** Sealing adds a fixed overhead, opening undoes it, and nothing but a sealed text
      opens. */
  ghost predicate Ideal(a: Aead) {
    && 0 < a.nonceSize && 0 < a.overhead
    && (forall n, p, d :: |a.seal(n, p, d)| == |p| + a.overhead)
    && (forall n, p, d :: |n| == a.nonceSize ==> a.open(n, a.seal(n, p, d), d) == Some(p))
    && (forall n, c, d :: |n| == a.nonceSize && a.open(n, c, d).Some? ==> c == a.seal(n, a.open(n, c, d).value, d))
  }

  // ---- The layout ----

  function Header(nonceSize: nat, ciphertextLength: nat): (h: Bytes)
    requires nonceSize < 256
    ensures |h| == HEADER_SIZE
  {
    MAGIC + [VERSION, nonceSize as byte] + BigEndian(ciphertextLength, 8)
  }

  function Encode(a: Aead, nonce: Bytes, database: Bytes): Bytes
    requires a.nonceSize < 256
  {
    var header := Header(a.nonceSize, |database| + a.overhead);
    header + nonce + a.seal(nonce, database, header)
  }

  datatype Sealed = Sealed(encoded: Bytes) | SealRejected

  datatype Opened = Database(content: Bytes) | InvalidMagic | UnsupportedVersion | InvalidLengths | Unauthentic | NoncePanic

  // ---- Seal ----

  method PutUint64(buffer: array<byte>, offset: nat, v: nat)
    requires offset + 8 <= buffer.Length && v < TWO_64
    modifies buffer
    ensures buffer[offset..offset + 8] == BigEndian(v, 8)
    ensures buffer[..offset] == old(buffer[..offset]) && buffer[offset + 8..] == old(buffer[offset + 8..])
  {
    hide BigEndian;
    var rest := v;
    for i := 0 to 8
      invariant BigEndian(v, 8) == BigEndian(rest, 8 - i) + buffer[offset + 8 - i..offset + 8]
      invariant buffer[..offset] == old(buffer[..offset]) && buffer[offset + 8..] == old(buffer[offset + 8..])
    {
      var k := offset + 7 - i;
      BigEndianLast(rest, 8 - i);
      buffer[k] := (rest % 256) as byte;
      assert buffer[k..offset + 8] == [buffer[k]] + buffer[k + 1..offset + 8];
      rest := rest / 256;
    }
    BigEndianNone(rest);
  }

  /** `nonce` is what the random source delivers. */
  method Seal(a: Aead, nonce: Bytes, database: Bytes) returns (r: Sealed)
    requires |nonce| == a.nonceSize && |database| + a.overhead <= MAX_INT
    ensures r == if database == [] || a.nonceSize > 255 then SealRejected else Sealed(Encode(a, nonce, database))
  {
    if |database| == 0 {
      return SealRejected;
    }
    if a.nonceSize > 255 {
      return SealRejected;
    }
    var header := new byte[HEADER_SIZE];
    header[0], header[1], header[2], header[3] := MAGIC[0], MAGIC[1], MAGIC[2], MAGIC[3];
    header[4] := VERSION;
    header[5] := a.nonceSize as byte;
    assert header[..6] == MAGIC + [VERSION, a.nonceSize as byte];
    PutUint64(header, 6, |database| + a.overhead);
    assert header[..] == header[..6] + header[6..14];
    var ciphertext := a.seal(nonce, database, header[..]);
    return Sealed(header[..] + nonce + ciphertext);
  }

  // ---- Open ----

  /** The length check of Open in 64-bit arithmetic. */
  predicate LengthsAccepted(encoded: Bytes)
    requires |encoded| >= HEADER_SIZE
  {
    var nonceLen := encoded[5] as nat;
    var ciphertextLen := FromBigEndian(encoded[6..14]);
    && nonceLen != 0 && ciphertextLen != 0 && ciphertextLen <= |encoded|
    && (HEADER_SIZE + nonceLen + ciphertextLen) % TWO_64 == |encoded| % TWO_64
  }

  method Open(a: Aead, encoded: Bytes) returns (r: Opened)
    requires |encoded| <= MAX_INT
    ensures r == OpenSpec(a, encoded)
  {
    if |encoded| < HEADER_SIZE || encoded[..4] != MAGIC {
      return InvalidMagic;
    }
    if encoded[4] != VERSION {
      return UnsupportedVersion;
    }
    LengthsExactly(encoded);
    if !LengthsAccepted(encoded) {
      return InvalidLengths;
    }
    var nonceLen := encoded[5] as nat;
    var nonce := encoded[HEADER_SIZE..HEADER_SIZE + nonceLen];
    var ciphertext := encoded[HEADER_SIZE + nonceLen..];
    if |nonce| != a.nonceSize {
      return NoncePanic;
    }
    match a.open(nonce, ciphertext, encoded[..HEADER_SIZE])
    case Some(content) => return Database(content);
    case None => return Unauthentic;
  }

  function OpenSpec(a: Aead, encoded: Bytes): Opened {
    if |encoded| < HEADER_SIZE || encoded[..4] != MAGIC then InvalidMagic
    else if encoded[4] != VERSION then UnsupportedVersion
    else
      var n := encoded[5] as nat;
      if n == 0 || |encoded| <= HEADER_SIZE + n || FromBigEndian(encoded[6..14]) != |encoded| - HEADER_SIZE - n then InvalidLengths
      else if n != a.nonceSize then NoncePanic
      else match a.open(encoded[HEADER_SIZE..HEADER_SIZE + n], encoded[HEADER_SIZE + n..], encoded[..HEADER_SIZE])
           case Some(content) => Database(content)
           case None => Unauthentic
  }

  /** The 64-bit check neither wraps nor admits anything but the exact length. */
  lemma LengthsExactly(encoded: Bytes)
    requires HEADER_SIZE <= |encoded| <= MAX_INT
    ensures LengthsAccepted(encoded) <==>
              encoded[5] != 0 && FromBigEndian(encoded[6..14]) > 0
              && |encoded| == HEADER_SIZE + encoded[5] as nat + FromBigEndian(encoded[6..14])
  {
  }

  /** The first fourteen bytes of every backup: M D B K, version 1, the nonce length, and
      the ciphertext length with its most significant byte first. */
  lemma HeaderExactly(nonceSize: nat, length: nat, i: nat)
    requires nonceSize < 256 && length < TWO_64 && i < 8
    ensures var h := Header(nonceSize, length);
            && |h| == 14 && h[0] == 0x4D && h[1] == 0x44 && h[2] == 0x42 && h[3] == 0x4B && h[4] == 1 && h[5] as nat == nonceSize
            && Power256(7 - i) > 0 && h[6 + i] as nat == (length / Power256(7 - i)) % 256
  {
    BigEndianDigit(length, 8, i);
    hide BigEndian;
    assert Header(nonceSize, length)[6 + i] == BigEndian(length, 8)[i];
  }

  /** Which input is refused for what. */
  lemma ErrorsExactly(a: Aead, encoded: Bytes)
    requires |encoded| <= MAX_INT
    ensures OpenSpec(a, encoded) == InvalidMagic <==> |encoded| < 14 || encoded[..4] != [0x4D, 0x44, 0x42, 0x4B]
    ensures OpenSpec(a, encoded) == UnsupportedVersion <==>
              |encoded| >= 14 && encoded[..4] == [0x4D, 0x44, 0x42, 0x4B] && encoded[4] != 1
    ensures OpenSpec(a, encoded) == InvalidLengths <==>
              && |encoded| >= 14 && encoded[..4] == [0x4D, 0x44, 0x42, 0x4B] && encoded[4] == 1
              && !(encoded[5] != 0 && FromBigEndian(encoded[6..14]) > 0
                   && |encoded| == 14 + encoded[5] as nat + FromBigEndian(encoded[6..14]))
    ensures OpenSpec(a, encoded) == Unauthentic ==>
              var n := encoded[5] as nat;
              14 + n <= |encoded| && n == a.nonceSize && a.open(encoded[14..14 + n], encoded[14 + n..], encoded[..14]) == None
  {
  }

  lemma HeaderFields(nonceSize: nat, length: nat, rest: Bytes)
    requires nonceSize < 256 && length < TWO_64
    ensures var e := Header(nonceSize, length) + rest;
            && e[..4] == MAGIC && e[4] == VERSION && e[5] == nonceSize as byte
            && FromBigEndian(e[6..14]) == length && e[..HEADER_SIZE] == Header(nonceSize, length)
  {
    var e := Header(nonceSize, length) + rest;
    Power256Of8();
    BigEndianRoundTrip(length, 8);
    assert e[6..14] == BigEndian(length, 8);
  }

  /** Open undoes Seal for every payload and nonce. */
  lemma OpenUndoesSeal(a: Aead, nonce: Bytes, database: Bytes)
    requires Ideal(a) && a.nonceSize < 256 && |nonce| == a.nonceSize
    requires |database| + a.overhead <= MAX_INT
    ensures OpenSpec(a, Encode(a, nonce, database)) == Database(database)
  {
    var header := Header(a.nonceSize, |database| + a.overhead);
    var ciphertext := a.seal(nonce, database, header);
    var e := Encode(a, nonce, database);
    assert e == header + (nonce + ciphertext);
    HeaderFields(a.nonceSize, |database| + a.overhead, nonce + ciphertext);
    assert e[HEADER_SIZE..HEADER_SIZE + a.nonceSize] == nonce;
    assert e[HEADER_SIZE + a.nonceSize..] == ciphertext;
  }

  /** Nothing else opens: what Open accepts is byte for byte what Seal's layout produces
      for the content it returns, so no header field can differ. */
  lemma OpenAcceptsOnlySealed(a: Aead, encoded: Bytes)
    requires Ideal(a) && a.nonceSize < 256 && |encoded| <= MAX_INT
    requires OpenSpec(a, encoded).Database?
    ensures encoded == Encode(a, encoded[HEADER_SIZE..HEADER_SIZE + a.nonceSize], OpenSpec(a, encoded).content)
  {
    hide Ideal, OpenSpec, Header, FromBigEndian;
    OpenedParts(a, encoded);
    var nonce := encoded[HEADER_SIZE..HEADER_SIZE + a.nonceSize];
    var ciphertext := encoded[HEADER_SIZE + a.nonceSize..];
    HeaderOf(encoded, a.nonceSize, |ciphertext|);
    OpensOnlySealed(a, nonce, ciphertext, encoded[..HEADER_SIZE]);
    assert encoded == encoded[..HEADER_SIZE] + nonce + ciphertext;
  }

  /** What the checks of Open leave. */
  lemma OpenedParts(a: Aead, encoded: Bytes)
    requires OpenSpec(a, encoded).Database? && a.nonceSize < 256
    ensures |encoded| > HEADER_SIZE + a.nonceSize
    ensures encoded[..4] == MAGIC && encoded[4] == VERSION && encoded[5] == a.nonceSize as byte
    ensures FromBigEndian(encoded[6..14]) == |encoded[HEADER_SIZE + a.nonceSize..]|
    ensures a.open(encoded[HEADER_SIZE..HEADER_SIZE + a.nonceSize], encoded[HEADER_SIZE + a.nonceSize..], encoded[..HEADER_SIZE])
            == Some(OpenSpec(a, encoded).content)
  {
  }

  lemma OpensOnlySealed(a: Aead, nonce: Bytes, ciphertext: Bytes, header: Bytes)
    requires Ideal(a) && |nonce| == a.nonceSize && a.open(nonce, ciphertext, header).Some?
    ensures var content := a.open(nonce, ciphertext, header).value;
            ciphertext == a.seal(nonce, content, header) && |ciphertext| == |content| + a.overhead
  {
    var content := a.open(nonce, ciphertext, header).value;
    assert ciphertext == a.seal(nonce, content, header);
  }

  /** The header is determined by what Open reads from it. */
  lemma HeaderOf(encoded: Bytes, nonceSize: nat, length: nat)
    requires |encoded| >= HEADER_SIZE && nonceSize < 256
    requires encoded[..4] == MAGIC && encoded[4] == VERSION && encoded[5] == nonceSize as byte
    requires FromBigEndian(encoded[6..14]) == length
    ensures encoded[..HEADER_SIZE] == Header(nonceSize, length)
  {
    BigEndianOf(encoded[6..14]);
    hide BigEndian, FromBigEndian;
    assert encoded[..HEADER_SIZE] == encoded[..4] + [encoded[4], encoded[5]] + encoded[6..14];
  }

  /** The nonce length in the header is not checked against the cipher: Open panics
      exactly on a well-formed layout for another nonce length. */
  lemma PanicsExactly(a: Aead, encoded: Bytes)
    requires |encoded| <= MAX_INT
    ensures OpenSpec(a, encoded) == NoncePanic <==>
              && |encoded| >= HEADER_SIZE && encoded[..4] == MAGIC && encoded[4] == VERSION
              && LengthsAccepted(encoded) && encoded[5] as nat != a.nonceSize
  {
  }
}
