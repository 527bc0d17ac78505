/**
 * The text form of encrypted values: initialisation vector, authentication tag and data in
 * hexadecimal, separated by colons.  The cipher itself is left open as a pair of functions.
 */
module SealedText {
  import opened KeyCache
  import opened Prelude
  import opened Splitting

  const IV_LEN: nat := 12

  datatype SealedBytes = SealedBytes(authTag: seq<Byte>, data: seq<Byte>)

  datatype Result = Plain(plaintext: seq<Byte>) | InvalidFormat | NotAuthentic | NoKey(reason: Failure)

  /** Encryption under a key and an initialisation vector, and its inverse, which may refuse. */
  datatype Cipher = Cipher(
    seal: (seq<Byte>, seq<Byte>, seq<Byte>) -> SealedBytes,
    open: (seq<Byte>, seq<Byte>, SealedBytes) -> Option<seq<Byte>>)

  /** What is asked of the cipher: it opens what it sealed, adds a tag, and keeps the length of the data. */
  ghost predicate Sound(c: Cipher) {
    forall key, iv, plain ::
      && c.open(key, iv, c.seal(key, iv, plain)) == Some(plain)
      && c.seal(key, iv, plain).authTag != []
      && |c.seal(key, iv, plain).data| == |plain|
  }

  // ---------------------------------------------------------------------------------------------
  // Hexadecimal.
  // ---------------------------------------------------------------------------------------------

  function HexDigit(d: nat): char
    requires d < 16
  {
    "0123456789abcdef"[d]
  }

  function HexValue(c: char): Option<nat> {
    if '0' <= c <= '9' then Some((c - '0') as nat)
    else if 'a' <= c <= 'f' then Some((c - 'a') as nat + 10)
    else if 'A' <= c <= 'F' then Some((c - 'A') as nat + 10)
    else None
  }

  function ToHex(bytes: seq<Byte>): string {
    if bytes == [] then "" else [HexDigit(bytes[0] / 16), HexDigit(bytes[0] % 16)] + ToHex(bytes[1..])
  }

  /** Reads pairs of digits up to the first that is none; a lone last digit is dropped. */
  function FromHex(text: string): seq<Byte> {
    if |text| < 2 || HexValue(text[0]).None? || HexValue(text[1]).None? then []
    else
      HexByte(HexValue(text[0]).value, HexValue(text[1]).value) + FromHex(text[2..])
  }

  function HexByte(high: nat, low: nat): seq<Byte> {
    if high < 16 && low < 16 then [16 * high + low] else []
  }

  lemma HexDigitValue(d: nat)
    requires d < 16
    ensures HexValue(HexDigit(d)) == Some(d) && HexDigit(d) != ':'
  {
  }

  lemma ByteDigits(b: Byte)
    ensures 0 <= b / 16 < 16 && 0 <= b % 16 < 16 && HexByte(b / 16, b % 16) == [b]
  {
  }

  /** Reading back what was written gives the bytes. */
  lemma {:induction false} HexRoundTrip(bytes: seq<Byte>)
    ensures FromHex(ToHex(bytes)) == bytes
  {
    if bytes != [] {
      var text := ToHex(bytes);
      ByteDigits(bytes[0]);
      HexDigitValue(bytes[0] / 16);
      HexDigitValue(bytes[0] % 16);
      HexRoundTrip(bytes[1..]);
      assert text[2..] == ToHex(bytes[1..]);
    }
  }

  lemma {:induction false} HexIsPlain(bytes: seq<Byte>)
    ensures ':' !in ToHex(bytes) && (ToHex(bytes) == "" <==> bytes == [])
  {
    if bytes != [] {
      ByteDigits(bytes[0]);
      HexDigitValue(bytes[0] / 16);
      HexDigitValue(bytes[0] % 16);
      HexIsPlain(bytes[1..]);
    }
  }

  // ---------------------------------------------------------------------------------------------
  // Framing.
  // ---------------------------------------------------------------------------------------------

  function Encrypt(c: Cipher, key: seq<Byte>, iv: seq<Byte>, plaintext: seq<Byte>): string {
    var s := c.seal(key, iv, plaintext);
    ToHex(iv) + ":" + ToHex(s.authTag) + ":" + ToHex(s.data)
  }

  /** Takes the first three parts; a missing or empty one is a format error. */
  function Decrypt(c: Cipher, key: seq<Byte>, ciphertext: string): Result {
    var parts := Split(ciphertext, ':');
    if |parts| < 3 || parts[0] == "" || parts[1] == "" || parts[2] == "" then InvalidFormat
    else
      var answer := c.open(key, FromHex(parts[0]), SealedBytes(FromHex(parts[1]), FromHex(parts[2])));
      if answer.Some? then Plain(answer.value) else NotAuthentic
  }

  lemma EncryptParts(c: Cipher, key: seq<Byte>, iv: seq<Byte>, plaintext: seq<Byte>)
    ensures var s := c.seal(key, iv, plaintext);
            Split(Encrypt(c, key, iv, plaintext), ':') == [ToHex(iv), ToHex(s.authTag), ToHex(s.data)]
  {
    var s := c.seal(key, iv, plaintext);
    HexIsPlain(iv);
    HexIsPlain(s.authTag);
    HexIsPlain(s.data);
    var tail := ToHex(s.authTag) + ":" + ToHex(s.data);
    assert Encrypt(c, key, iv, plaintext) == ToHex(iv) + [':'] + tail;
    SplitFirst(ToHex(iv), ':', tail);
    SplitFirst(ToHex(s.authTag), ':', ToHex(s.data));
    SplitNothing(ToHex(s.data), ':');
  }

  /** Decrypting gives back what was encrypted, except the empty text, which decryption calls malformed. */
  lemma EncryptedTextsRoundTrip(c: Cipher, key: seq<Byte>, iv: seq<Byte>, plaintext: seq<Byte>)
    requires Sound(c) && |iv| == IV_LEN
    ensures Decrypt(c, key, Encrypt(c, key, iv, plaintext)) ==
            if plaintext == [] then InvalidFormat else Plain(plaintext)
    ensures Decrypt(c, key, Encrypt(c, key, iv, plaintext)) == Plain(plaintext) <==> plaintext != []
  {
    var s := c.seal(key, iv, plaintext);
    EncryptParts(c, key, iv, plaintext);
    HexRoundTrip(iv);
    HexRoundTrip(s.authTag);
    HexRoundTrip(s.data);
    HexIsPlain(iv);
    HexIsPlain(s.authTag);
    HexIsPlain(s.data);
    assert c.open(key, iv, c.seal(key, iv, plaintext)) == Some(plaintext);
  }

  // ---------------------------------------------------------------------------------------------
  // With keys from the cache.
  // ---------------------------------------------------------------------------------------------

  datatype Text = Text(text: string) | NoText(reason: Failure)

  method EncryptText(
      cache: Cache, c: Cipher, plaintext: seq<Byte>, iv: seq<Byte>, domainTag: string, now: int, later: int)
    returns (r: Text)
    requires cache.Valid() && |iv| == IV_LEN
    modifies cache, cache.Overwritten(cache.lower(domainTag))
    ensures cache.Valid() && fresh(cache.Buffers() - old(cache.Buffers()))
    ensures r.Text? ==> r.text == Encrypt(c, cache.KeyOf(cache.lower(domainTag)), iv, plaintext)
    ensures r.NoText? ==> cache.env.Secret() == "" || cache.env.salt == ""
  {
    var k := cache.DeriveKey(domainTag, now, later);
    match k
    case Ok(key) => r := Text(Encrypt(c, key[..], iv, plaintext));
    case Error(reason) => r := NoText(reason);
  }

  method DecryptText(cache: Cache, c: Cipher, ciphertext: string, domainTag: string, now: int, later: int)
    returns (r: Result)
    requires cache.Valid()
    modifies cache, cache.Overwritten(cache.lower(domainTag))
    ensures cache.Valid() && fresh(cache.Buffers() - old(cache.Buffers()))
    ensures r.NoKey? ==> cache.env.Secret() == "" || cache.env.salt == ""
    ensures !r.NoKey? ==> r == Decrypt(c, cache.KeyOf(cache.lower(domainTag)), ciphertext)
  {
    var parts := Split(ciphertext, ':');
    if |parts| < 3 || parts[0] == "" || parts[1] == "" || parts[2] == "" {
      return InvalidFormat;
    }
    var k := cache.DeriveKey(domainTag, now, later);
    match k
    case Ok(key) =>
      var answer := c.open(key[..], FromHex(parts[0]), SealedBytes(FromHex(parts[1]), FromHex(parts[2])));
      r := if answer.Some? then Plain(answer.value) else NotAuthentic;
    case Error(reason) => r := NoKey(reason);
  }

  /**
   * What was encrypted under a tag is decrypted under any spelling of it, although the cache may
   * evict, expire and derive keys in between.
   */
  method RoundTripThroughTheCache(cache: Cache, c: Cipher, plaintext: seq<Byte>, iv: seq<Byte>,
      tag: string, between: seq<(string, int)>, spelling: string, now: int)
    returns (r: Result)
    requires cache.Valid() && Sound(c) && |iv| == IV_LEN && plaintext != []
    requires cache.lower(tag) == cache.lower(spelling)
    requires cache.env.Secret() != "" && cache.env.salt != ""
    modifies cache, cache.Buffers()
    ensures r == Plain(plaintext)
  {
    var sealedText := EncryptText(cache, c, plaintext, iv, tag, now, now);
    for i := 0 to |between|
      invariant cache.Valid() && fresh(cache.Buffers() - old(cache.Buffers()))
    {
      var _ := cache.DeriveKey(between[i].0, between[i].1, between[i].1);
    }
    EncryptedTextsRoundTrip(c, cache.KeyOf(cache.lower(tag)), iv, plaintext);
    r := DecryptText(cache, c, sealedText.text, spelling, now, now);
  }
}
