/** The framing `encrypt`/`decrypt` put around AES-256-GCM: the output is
    hex(nonce) ++ hex(tag) ++ hex(ciphertext), with a 12-byte nonce and a 16-byte
    tag, and decryption slices the text at the fixed offsets 24 and 56.

    The cipher itself is abstract: `Cipher` is a pair of functions, and
    `IsAuthenticated` states what authenticated encryption promises of them. */
module Encryption {

  import opened Wrappers
  import opened Hex

  const NonceLength: nat := 12
  const TagLength: nat := 16

  /** Hex characters before the tag, and before the ciphertext. */
  const TagOffset: nat := 2 * NonceLength
  const CiphertextOffset: nat := 2 * NonceLength + 2 * TagLength

  const KeyNotSetMessage: string := "ENCRYPTION_KEY is not set"
  const AuthFailureMessage: string := "Unsupported state or unable to authenticate data"

  /** What Node's `createDecipheriv` throws for an empty initialisation vector. */
  const InvalidIvMessage: string := "Invalid initialization vector"

  /** What Node's `setAuthTag` throws for a tag of a length GCM does not allow. */
  function InvalidTagMessage(length: nat): string {
    "Invalid authentication tag length: " + Decimal(length)
  }

  function Decimal(n: nat): string {
    if n < 10 then [Digits[n]] else Decimal(n / 10) + [Digits[n % 10]]
  }

  /** The tag lengths, in bytes, GCM accepts: 4, 8, and 12 to 16. A shorter tag
      is checked against that prefix of the full tag. */
  predicate GcmTagLength(n: nat) {
    n == 4 || n == 8 || 12 <= n <= TagLength
  }

  /** What Node's `decipher.update(text, "hex")` throws for hex text of odd length. */
  const OddHexMessage: string := "The argument 'encoding' is invalid for data of odd length. Received 'hex'"

  /** A key the guard `!ENCRYPTION_KEY` lets through: any non-empty string. */
  type Key = k: string | k != "" witness "k"

  /** The value of the encryption-key environment variable (absent when unset)
      is usable when it is present and not empty. */
  predicate KeySet(key: Option<string>) {
    !Blank(key)
  }

  /** What `crypto.randomBytes(NONCE_LENGTH)` returns. */
  type Nonce = s: seq<Byte> | |s| == NonceLength witness seq(12, _ => 0)

  datatype Sealed = Sealed(ciphertext: seq<Byte>, tag: seq<Byte>)

  /** An authenticated cipher: `seal` encrypts a text under a key and nonce;
      `open` takes key, nonce, tag and ciphertext and yields the text, or
      `None` when `final()` would throw. */
  datatype Cipher = Cipher(
    seal: (Key, seq<Byte>, string) -> Sealed,
    open: (Key, seq<Byte>, seq<Byte>, seq<Byte>) -> Option<string>)

  /** Every tag `seal` produces has the full 16 bytes. */
  ghost predicate FullTags(c: Cipher) {
    forall k, n, p :: |c.seal(k, n, p).tag| == TagLength
  }

  /** What AES-256-GCM guarantees of the pair: the tag has 16 bytes, and
      opening what was sealed under a non-empty nonce, with a tag of a length
      GCM allows, gives the text back exactly when that tag is a prefix of the
      sealed one, the full tag included. */
  ghost predicate IsAuthenticated(c: Cipher) {
    && FullTags(c)
    && (forall k, n, p, t :: |n| > 0 && GcmTagLength(|t|) ==>
          c.open(k, n, t, c.seal(k, n, p).ciphertext) == if t <= c.seal(k, n, p).tag then Some(p) else None)
  }

  /** JavaScript's `s.slice(from, to)` for 0 <= from <= to: both ends are clamped to |s|. */
  function Slice(s: string, from: nat, to: nat): (r: string)
    requires from <= to
    ensures to <= |s| ==> r == s[from..to]
    ensures |s| <= from ==> r == []
  {
    if |s| <= from then [] else if |s| <= to then s[from..] else s[from..to]
  }

  /** `encrypt(text)`: fails before anything else when the key is unset or empty. */
  function Encrypt(c: Cipher, key: Option<string>, nonce: Nonce, text: string): (r: Result<string, Error>)
    ensures !KeySet(key) ==> r == Failure(Thrown(KeyNotSetMessage))
    ensures KeySet(key) ==> r.Success?
  {
    if !KeySet(key) then Failure(Thrown(KeyNotSetMessage))
    else
      var sealed := c.seal(key.value, nonce, text);
      Success(Hex.Encode(nonce) + Hex.Encode(sealed.tag) + Hex.Encode(sealed.ciphertext))
  }

  /** `decrypt(text)`: fails before anything else when the key is unset or
      empty; then, in Node's order, when the nonce part decodes to no bytes,
      when the tag part decodes to a length GCM does not allow, and when the
      ciphertext part has an odd number of hex characters; and last when the
      cipher does not authenticate the three slices. */
  function Decrypt(c: Cipher, key: Option<string>, text: string): (r: Result<string, Error>)
    ensures !KeySet(key) ==> r == Failure(Thrown(KeyNotSetMessage))
    ensures KeySet(key) && (|text| < 2 || DigitValue(text[0]).None? || DigitValue(text[1]).None?) ==>
              r == Failure(Thrown(InvalidIvMessage))
    ensures KeySet(key) && Hex.Decode(Slice(text, 0, TagOffset)) != [] ==>
              var tag := Hex.Decode(Slice(text, TagOffset, CiphertextOffset));
              !GcmTagLength(|tag|) ==> r == Failure(Thrown(InvalidTagMessage(|tag|)))
    ensures KeySet(key) && Hex.Decode(Slice(text, 0, TagOffset)) != []
            && GcmTagLength(|Hex.Decode(Slice(text, TagOffset, CiphertextOffset))|)
            && |text| > CiphertextOffset && (|text| - CiphertextOffset) % 2 == 1 ==>
              r == Failure(Thrown(OddHexMessage))
  {
    if !KeySet(key) then Failure(Thrown(KeyNotSetMessage))
    else
      var nonce := Hex.Decode(Slice(text, 0, TagOffset));
      var tag := Hex.Decode(Slice(text, TagOffset, CiphertextOffset));
      var encrypted := Slice(text, CiphertextOffset, CiphertextOffset + |text|);
      if nonce == [] then Failure(Thrown(InvalidIvMessage))
      else if !GcmTagLength(|tag|) then Failure(Thrown(InvalidTagMessage(|tag|)))
      else if |encrypted| % 2 == 1 then Failure(Thrown(OddHexMessage))
      else match c.open(key.value, nonce, tag, Hex.Decode(encrypted))
        case None => Failure(Thrown(AuthFailureMessage))
        case Some(plain) => Success(plain)
  }

  /** The layout `encrypt` produces: 24 hex characters of nonce, 32 of tag,
      then the ciphertext in hex, and nothing but lower-case hex digits. */
  lemma EncryptLayout(c: Cipher, key: Key, nonce: Nonce, text: string)
    requires FullTags(c)
    ensures var out := Encrypt(c, Some(key), nonce, text).value;
            var sealed := c.seal(key, nonce, text);
            && |out| == CiphertextOffset + 2 * |sealed.ciphertext|
            && out[..TagOffset] == Hex.Encode(nonce)
            && out[TagOffset..CiphertextOffset] == Hex.Encode(sealed.tag)
            && out[CiphertextOffset..] == Hex.Encode(sealed.ciphertext)
            && forall i :: 0 <= i < |out| ==> Hex.IsDigit(out[i])
  {
    var out := Encrypt(c, Some(key), nonce, text).value;
    var sealed := c.seal(key, nonce, text);
    var a, b, d := Hex.Encode(nonce), Hex.Encode(sealed.tag), Hex.Encode(sealed.ciphertext);
    assert out == a + b + d;
    assert |b| == 2 * TagLength;
    assert out[..TagOffset] == a;
    assert out[TagOffset..CiphertextOffset] == b;
    assert out[CiphertextOffset..] == d;
    forall i | 0 <= i < |out| ensures Hex.IsDigit(out[i]) {
      if i < |a| {
        assert out[i] == a[i];
      } else if i < |a| + |b| {
        assert out[i] == b[i - |a|];
      } else {
        assert out[i] == d[i - |a| - |b|];
      }
    }
  }

  /** The three slices `decrypt` takes of a text framed as `encrypt` frames it. */
  lemma SlicesOfFrame(a: string, b: string, d: string)
    requires |a| == TagOffset && |b| == CiphertextOffset - TagOffset
    ensures var out := a + b + d;
            && Slice(out, 0, TagOffset) == a
            && Slice(out, TagOffset, CiphertextOffset) == b
            && Slice(out, CiphertextOffset, CiphertextOffset + |out|) == d
  {
    var out := a + b + d;
    assert out[..TagOffset] == a;
    assert out[TagOffset..CiphertextOffset] == b;
    assert out[CiphertextOffset..] == d;
  }

  lemma DoubleIsEven(n: nat)
    ensures (2 * n) % 2 == 0
  {
  }

  /** When the three slices of a text are `a`, `b` and an even-length `d`,
      and `a` and `b` decode to a nonce and a tag Node accepts, `decrypt`
      hands the cipher their decodings. */
  lemma DecryptOfSlices(c: Cipher, key: Key, text: string, a: string, b: string, d: string)
    requires Slice(text, 0, TagOffset) == a && Slice(text, TagOffset, CiphertextOffset) == b
    requires Slice(text, CiphertextOffset, CiphertextOffset + |text|) == d && |d| % 2 == 0
    requires Hex.Decode(a) != [] && GcmTagLength(|Hex.Decode(b)|)
    ensures Decrypt(c, Some(key), text) ==
              match c.open(key, Hex.Decode(a), Hex.Decode(b), Hex.Decode(d))
              case None => Failure(Thrown(AuthFailureMessage))
              case Some(plain) => Success(plain)
  {
  }

  /** `decrypt` of a framed text hands the cipher exactly the nonce, tag and
      ciphertext that were framed. */
  lemma DecryptFrame(c: Cipher, key: Key, nonce: Nonce, tag: seq<Byte>, ciphertext: seq<Byte>)
    requires |tag| == TagLength
    ensures var framed := Hex.Encode(nonce) + Hex.Encode(tag) + Hex.Encode(ciphertext);
            Decrypt(c, Some(key), framed) ==
              match c.open(key, nonce, tag, ciphertext)
              case None => Failure(Thrown(AuthFailureMessage))
              case Some(plain) => Success(plain)
  {
    Hex.DecodeEncode(tag);
    DecryptTagPart(c, key, nonce, Hex.Encode(tag), ciphertext);
  }

  /** The same for any 32-character tag part that decodes to a tag Node accepts. */
  lemma DecryptTagPart(c: Cipher, key: Key, nonce: Nonce, b: string, ciphertext: seq<Byte>)
    requires |b| == CiphertextOffset - TagOffset && GcmTagLength(|Hex.Decode(b)|)
    ensures var framed := Hex.Encode(nonce) + b + Hex.Encode(ciphertext);
            Decrypt(c, Some(key), framed) ==
              match c.open(key, nonce, Hex.Decode(b), ciphertext)
              case None => Failure(Thrown(AuthFailureMessage))
              case Some(plain) => Success(plain)
  {
    var a, d := Hex.Encode(nonce), Hex.Encode(ciphertext);
    SlicesOfFrame(a, b, d);
    DoubleIsEven(|ciphertext|);
    Hex.DecodeEncode(nonce);
    Hex.DecodeEncode(ciphertext);
    DecryptOfSlices(c, key, a + b + d, a, b, d);
  }

  /** decrypt(encrypt(x)) == x, for every text, key and nonce. */
  lemma RoundTrip(c: Cipher, key: Key, nonce: Nonce, text: string)
    requires IsAuthenticated(c)
    ensures Decrypt(c, Some(key), Encrypt(c, Some(key), nonce, text).value) == Success(text)
  {
    var sealed := c.seal(key, nonce, text);
    DecryptFrame(c, key, nonce, sealed.tag, sealed.ciphertext);
  }

  /** Replacing the tag part of an encrypted text by any other 16-byte tag
      makes `decrypt` fail rather than return some other text. */
  lemma TamperedTagFails(c: Cipher, key: Key, nonce: Nonce, text: string, forged: seq<Byte>)
    requires IsAuthenticated(c)
    requires |forged| == TagLength && forged != c.seal(key, nonce, text).tag
    ensures var out := Encrypt(c, Some(key), nonce, text).value;
            Decrypt(c, Some(key), out[..TagOffset] + Hex.Encode(forged) + out[CiphertextOffset..])
              == Failure(Thrown(AuthFailureMessage))
  {
    var sealed := c.seal(key, nonce, text);
    EncryptLayout(c, key, nonce, text);
    DecryptFrame(c, key, nonce, forged, sealed.ciphertext);
  }

  /** A tag part holding only a GCM-allowed prefix of the real tag, padded out
      with characters that are not hex, still decrypts to the text: Node sets
      the shortened tag and GCM checks that prefix. */
  lemma ShortenedTagOpens(c: Cipher, key: Key, nonce: Nonce, text: string, m: nat, pad: string)
    requires IsAuthenticated(c)
    requires GcmTagLength(m) && m < TagLength
    requires |pad| == 2 * (TagLength - m) && DigitValue(pad[0]).None?
    ensures var sealed := c.seal(key, nonce, text);
            Decrypt(c, Some(key), Hex.Encode(nonce) + (Hex.Encode(sealed.tag[..m]) + pad) + Hex.Encode(sealed.ciphertext))
              == Success(text)
  {
    var sealed := c.seal(key, nonce, text);
    var t := sealed.tag[..m];
    assert t <= sealed.tag;
    DecodePadded(t, pad);
    DecryptTagPart(c, key, nonce, Hex.Encode(t) + pad, sealed.ciphertext);
  }

  /** Hex of some bytes followed by a pad that does not start with a hex digit
      decodes to those bytes. */
  lemma DecodePadded(bs: seq<Byte>, pad: string)
    requires |pad| >= 2 && DigitValue(pad[0]).None?
    ensures Hex.Decode(Hex.Encode(bs) + pad) == bs
  {
    Hex.DecodeEncodeAppend(bs, pad);
  }
}
