/** The password digests of server/src/utils/password.js: the text
    `iterations:salt:hash` that `hashPassword` stores and the defensive
    parse `verifyPassword` performs on it. The crypto primitives are
    parameters: `randomBytes(16)` is the salt passed in, and PBKDF2 is a key
    stream per (password, salt, iterations, digest), of which a key of
    length `keylen` is the first `keylen` bytes, as PBKDF2's output is. */
module Password {

  import opened Wrappers
  import opened Http
  import JsText

  type Byte = b: int | 0 <= b < 256

  const DefaultIterations: nat := 100000
  const KeyLength: nat := 64
  const DigestName: string := "sha512"
  const SaltLength: nat := 16

  /** The largest iteration count `pbkdf2Sync` accepts (a 32-bit signed integer). */
  const MaxIterations: int := 2147483647

  /** PBKDF2 for one password, salt, iteration count and digest: byte `i` of
      every key derived with at least `i + 1` bytes. */
  type KeyStream = (string, string, int, string) -> (nat -> Byte)

  /** `crypto.pbkdf2Sync(password, salt, iterations, keylen, digest)`. */
  function Pbkdf2(kdf: KeyStream, password: string, salt: string, iterations: int, keylen: nat, digest: string): (key: seq<Byte>)
    ensures |key| == keylen
    ensures forall i :: 0 <= i < keylen ==> key[i] == kdf(password, salt, iterations, digest)(i)
  {
    seq(keylen, i requires 0 <= i < keylen => kdf(password, salt, iterations, digest)(i))
  }

  /** Keys derived from the same inputs agree: a shorter one is the prefix
      of a longer one. */
  lemma Pbkdf2Prefix(kdf: KeyStream, password: string, salt: string, iterations: int, n: nat, m: nat, digest: string)
    requires n <= m
    ensures Pbkdf2(kdf, password, salt, iterations, n, digest) == Pbkdf2(kdf, password, salt, iterations, m, digest)[..n]
  {
  }

  // ---- hex text, as Node's Buffer writes and reads it ----

  /** The lower-case hex digit for `d`. */
  function HexDigit(d: nat): (c: char)
    requires d < 16
    ensures '0' <= c <= '9' || 'a' <= c <= 'f'
  {
    if d < 10 then ('0' as int + d) as char else ('a' as int + d - 10) as char
  }

  predicate IsLowerHexDigit(c: char) {
    '0' <= c <= '9' || 'a' <= c <= 'f'
  }

  predicate IsHexDigit(c: char) {
    '0' <= c <= '9' || 'a' <= c <= 'f' || 'A' <= c <= 'F'
  }

  function HexValue(c: char): (v: nat)
    requires IsHexDigit(c)
    ensures v < 16
  {
    if '0' <= c <= '9' then (c - '0') as nat
    else if 'a' <= c <= 'f' then (c - 'a') as nat + 10
    else (c - 'A') as nat + 10
  }

  /** `buffer.toString('hex')`: two lower-case hex digits per byte. */
  function Hex(bytes: seq<Byte>): (s: string)
    ensures |s| == 2 * |bytes|
    ensures forall i :: 0 <= i < |s| ==> IsLowerHexDigit(s[i])
  {
    if bytes == [] then ""
    else [HexDigit(bytes[0] / 16), HexDigit(bytes[0] % 16)] + Hex(bytes[1..])
  }

  /** The UTF-16 code units JavaScript stores for one character: one below
      U+10000, a surrogate pair above. */
  function CodeUnits(c: char): (u: seq<int>)
    ensures 1 <= |u| <= 2 && forall k :: 0 <= k < |u| ==> 0 <= u[k] < 0x1_0000
    ensures c as int < 0x1_0000 ==> u == [c as int]
  {
    if c as int < 0x1_0000 then [c as int]
    else
      var v := c as int - 0x1_0000;
      [0xD800 + v / 0x400, 0xDC00 + v % 0x400]
  }

  /** A string as JavaScript stores it: its UTF-16 code units. */
  function Utf16(s: string): (u: seq<int>)
    ensures |s| <= |u| <= 2 * |s|
  {
    if s == [] then [] else CodeUnits(s[0]) + Utf16(s[1..])
  }

  /** The low byte of a code unit, as a Latin-1 character. */
  function LowByte(unit: int): char {
    (unit % 256) as char
  }

  /** Node's hex decoder on code units: each unit is cut to its low byte
      before it is tested, pairs of hex digits in either case are read up
      to the first pair that is not one, and an odd last unit is dropped. */
  function HexDecodeUnits(u: seq<int>): (bytes: seq<Byte>)
    ensures 2 * |bytes| <= |u|
  {
    if |u| < 2 || !IsHexDigit(LowByte(u[0])) || !IsHexDigit(LowByte(u[1])) then []
    else [HexValue(LowByte(u[0])) * 16 + HexValue(LowByte(u[1]))] + HexDecodeUnits(u[2..])
  }

  /** `Buffer.from(s, 'hex')`: at most one byte per two code units. */
  function HexDecode(s: string): (bytes: seq<Byte>)
    ensures 2 * |bytes| <= |Utf16(s)| <= 4 * |s|
  {
    HexDecodeUnits(Utf16(s))
  }

  /** A character above U+00FF counts by its low byte: U+0130 ends in 0x30,
      the digit '0', so "\U{0130}\U{0130}" decodes to one zero byte. */
  lemma HexDecodeReadsLowByte()
    ensures HexDecode("\U{0130}\U{0130}") == [0]
  {
    var s := "\U{0130}\U{0130}";
    assert s[1..] == "\U{0130}" && s[1..][1..] == [];
    assert Utf16(s) == [0x130, 0x130];
    assert LowByte(0x130) == '0';
    assert HexDecodeUnits([0x130, 0x130][2..]) == [];
  }

  /** Decoding reads back exactly what encoding wrote. */
  lemma {:induction false} HexRoundTrip(bytes: seq<Byte>)
    ensures HexDecode(Hex(bytes)) == bytes
  {
    if bytes != [] {
      var s := Hex(bytes);
      var hi, lo := HexDigit(bytes[0] / 16), HexDigit(bytes[0] % 16);
      assert s == [hi, lo] + Hex(bytes[1..]);
      var u := Utf16(s);
      Utf16OfTwoNarrow(s);
      HexDigitReadsBack(bytes[0] / 16);
      HexDigitReadsBack(bytes[0] % 16);
      assert HexDecodeUnits(u) == [bytes[0]] + HexDecodeUnits(u[2..]);
      HexRoundTrip(bytes[1..]);
    }
  }

  /** Two characters below U+10000 take one code unit each. */
  lemma Utf16OfTwoNarrow(s: string)
    requires |s| >= 2 && s[0] as int < 0x1_0000 && s[1] as int < 0x1_0000
    ensures Utf16(s) == [s[0] as int, s[1] as int] + Utf16(s[2..])
  {
    assert s[1..][0] == s[1] && s[1..][1..] == s[2..];
  }

  /** A hex digit is its own low byte and reads back as its value. */
  lemma HexDigitReadsBack(d: nat)
    requires d < 16
    ensures LowByte(HexDigit(d) as int) == HexDigit(d)
    ensures IsHexDigit(HexDigit(d)) && HexValue(HexDigit(d)) == d
  {
  }

  // ---- hashPassword ----

  /** `hashPassword(password)` with `salt` the 16 random bytes. */
  /** The digest is 168 characters long, with its two `:` at positions 6
      and 39: six characters of iteration count, 32 of salt and 128 of key. */
  function HashPassword(password: string, salt: seq<Byte>, kdf: KeyStream): (digest: string)
    requires |salt| == SaltLength
    ensures |digest| == 168
    ensures forall i :: 0 <= i < |digest| ==> (digest[i] == ':' <==> i == 6 || i == 39)
  {
    var saltText := Hex(salt);
    var derived := Hex(Pbkdf2(kdf, password, saltText, DefaultIterations, KeyLength, DigestName));
    DefaultIterationsText();
    var digest := JsText.Decimal(DefaultIterations) + ":" + saltText + ":" + derived;
    assert forall i :: 0 <= i < 6 ==> digest[i] == "100000"[i];
    assert forall i :: 7 <= i < 39 ==> digest[i] == saltText[i - 7];
    assert forall i :: 40 <= i < 168 ==> digest[i] == derived[i - 40];
    digest
  }

  /** `${DEFAULT_ITERATIONS}` is the text "100000". */
  lemma DefaultIterationsText()
    ensures JsText.Decimal(DefaultIterations) == "100000"
  {
    assert JsText.Decimal(1) == "1";
    assert JsText.Decimal(10) == JsText.Decimal(1) + "0";
    assert JsText.Decimal(100) == JsText.Decimal(10) + "0";
    assert JsText.Decimal(1000) == JsText.Decimal(100) + "0";
    assert JsText.Decimal(10000) == JsText.Decimal(1000) + "0";
    assert JsText.Decimal(100000) == JsText.Decimal(10000) + "0";
  }

  /** The three fields `hashPassword` joins with `:`. */
  function DigestFields(password: string, salt: seq<Byte>, kdf: KeyStream): (fields: seq<string>)
    requires |salt| == SaltLength
    ensures |fields| == 3 && JsText.Join(fields, ':') == HashPassword(password, salt, kdf)
    ensures forall i :: 0 <= i < 3 ==> ':' !in fields[i]
  {
    var saltText := Hex(salt);
    var derived := Hex(Pbkdf2(kdf, password, saltText, DefaultIterations, KeyLength, DigestName));
    var fields := [JsText.Decimal(DefaultIterations), saltText, derived];
    assert fields[1..] == [saltText, derived] && fields[1..][1..] == [derived];
    assert JsText.Join(fields[1..], ':') == saltText + ":" + derived;
    assert ':' !in saltText && ':' !in derived;
    fields
  }

  /** The stored digest has exactly three `:`-separated fields: "100000", a
      salt of 32 hex digits that decodes to the random bytes, and a hash of
      128 hex digits that decodes to the 64-byte key. */
  lemma HashPasswordFormat(password: string, salt: seq<Byte>, kdf: KeyStream)
    requires |salt| == SaltLength
    ensures var parts := JsText.Split(HashPassword(password, salt, kdf), ':');
            && |parts| == 3 && parts[0] == "100000"
            && |parts[1]| == 32 && |parts[2]| == 128
            && (forall i :: 0 <= i < 32 ==> IsLowerHexDigit(parts[1][i]))
            && (forall i :: 0 <= i < 128 ==> IsLowerHexDigit(parts[2][i]))
            && HexDecode(parts[1]) == salt
            && HexDecode(parts[2]) == Pbkdf2(kdf, password, parts[1], DefaultIterations, KeyLength, DigestName)
  {
    var fields := DigestFields(password, salt, kdf);
    JsText.SplitJoin(fields, ':');
    DefaultIterationsText();
    HexRoundTrip(salt);
    HexRoundTrip(Pbkdf2(kdf, password, fields[1], DefaultIterations, KeyLength, DigestName));
  }

  // ---- verifyPassword ----

  /** The three leading fields of `storedDigest.split(':')`, the first one
      through `Number.parseInt(_, 10)`; `None` stands for NaN and for
      `undefined` when there are fewer fields. */
  datatype Fields = Fields(iterations: Option<int>, salt: Option<string>, storedHash: Option<string>)

  function FieldsOf(digest: string): (f: Fields)
    ensures f.salt.Some? <==> ':' in digest
    ensures f.salt.Some? ==> ':' !in f.salt.value
    ensures f.storedHash.Some? ==> f.salt.Some? && ':' !in f.storedHash.value
  {
    var parts := JsText.Split(digest, ':');
    JsText.SplitPieces(digest, ':');
    Fields(JsText.ParseInt(parts[0]),
           if |parts| > 1 then Some(parts[1]) else None,
           if |parts| > 2 then Some(parts[2]) else None)
  }

  /** `!iterations || !salt || !storedHash`: NaN or zero iterations, or a
      missing or empty salt or hash. */
  predicate Rejected(f: Fields) {
    || f.iterations.None? || f.iterations.value == 0
    || f.salt.None? || f.salt.value == ""
    || f.storedHash.None? || f.storedHash.value == ""
  }

  /** The bytes the stored hash field must match: PBKDF2 of the attempt with
      the stored salt and iteration count, as long as the decoded hash. */
  function Expected(password: string, f: Fields, kdf: KeyStream): seq<Byte>
    requires !Rejected(f)
  {
    Pbkdf2(kdf, password, f.salt.value, f.iterations.value,
           |HexDecode(f.storedHash.value)|, DigestName)
  }

  /** What `verifyPassword` does once the digest is split. `Err(Thrown)` is
      the range error `pbkdf2Sync` throws for an iteration count below 1 or
      above 2^31 - 1, such as the one "-5" parses to. The result is true
      exactly when the decoded hash equals the key derived from the attempt. */
  function VerifyFields(password: string, f: Fields, kdf: KeyStream): (r: Outcome<bool>)
    ensures Rejected(f) ==> r == Ok(false)
    ensures r == Err(Thrown) <==> !Rejected(f) && !(1 <= f.iterations.value <= MaxIterations)
    ensures r == Ok(true) <==> r.Ok? && !Rejected(f) && HexDecode(f.storedHash.value) == Expected(password, f, kdf)
  {
    if Rejected(f) then Ok(false)
    else
      var iterations := f.iterations.value;
      if iterations < 1 || iterations > MaxIterations then Err(Thrown)
      else
        var hashBuffer := HexDecode(f.storedHash.value);
        var key := Pbkdf2(kdf, password, f.salt.value, iterations, |hashBuffer|, DigestName);
        var derived := Hex(key);
        HexRoundTrip(key);
        var derivedBuffer := HexDecode(derived);
        if |derivedBuffer| != |hashBuffer| then Ok(false)
        else Ok(derivedBuffer == hashBuffer)
  }

  /** `verifyPassword(password, storedDigest)` as written: a missing or
      empty digest is refused before it is split. */
  function VerifyPassword(password: string, storedDigest: Option<string>, kdf: KeyStream): (r: Outcome<bool>)
    ensures storedDigest.None? || storedDigest.value == "" ==> r == Ok(false)
  {
    if storedDigest.None? || storedDigest.value == "" then Ok(false)
    else VerifyFields(password, FieldsOf(storedDigest.value), kdf)
  }

  /** `verifyPassword` with the guard the code evidently intends: a hash
      field that decodes to no bytes at all is refused like an empty one.
      It accepts only a non-empty hash equal to the key derived from the
      attempt. */
  function VerifyPasswordStrict(password: string, storedDigest: Option<string>, kdf: KeyStream): (r: Outcome<bool>)
    ensures r == Ok(true) ==>
              && storedDigest.Some? && storedDigest.value != ""
              && var f := FieldsOf(storedDigest.value);
                 && !Rejected(f)
                 && |HexDecode(f.storedHash.value)| > 0
                 && HexDecode(f.storedHash.value) == Expected(password, f, kdf)
  {
    if storedDigest.None? || storedDigest.value == "" then Ok(false)
    else
      var f := FieldsOf(storedDigest.value);
      if !Rejected(f) && |HexDecode(f.storedHash.value)| == 0 then Ok(false)
      else VerifyFields(password, f, kdf)
  }

  lemma SampleDigestFields()
    ensures FieldsOf("1:s:zz") == Fields(Some(1), Some("s"), Some("zz"))
    ensures !Rejected(FieldsOf("1:s:zz"))
  {
    SampleDigestSplits();
    SampleIterationsParse();
  }

  lemma SampleDigestSplits()
    ensures JsText.Split("1:s:zz", ':') == ["1", "s", "zz"]
  {
    var parts := ["1", "s", "zz"];
    assert JsText.Join(parts, ':') == "1:s:zz" by {
      assert parts[1..] == ["s", "zz"] && parts[1..][1..] == ["zz"];
    }
    JsText.SplitJoin(parts, ':');
  }

  lemma SampleIterationsParse()
    ensures JsText.ParseInt("1") == Some(1)
  {
    JsText.ParseIntOfDecimal(1, "");
    assert JsText.Decimal(1) + "" == "1";
  }

  /** Counterexample: a digest whose hash field holds no hex pair, here
      "1:s:zz", decodes to an empty buffer, PBKDF2 derives an empty key, and
      the two empty buffers compare equal: every password is accepted. The
      corrected version refuses it. */
  lemma NonHexHashAcceptsAnyPassword(password: string, kdf: KeyStream)
    ensures VerifyPassword(password, Some("1:s:zz"), kdf) == Ok(true)
    ensures VerifyPasswordStrict(password, Some("1:s:zz"), kdf) == Ok(false)
  {
    SampleDigestFields();
    var f := FieldsOf("1:s:zz");
    assert HexDecode("zz") == [] by {
      Utf16OfTwoNarrow("zz");
      assert !IsHexDigit(LowByte('z' as int));
    }
    assert Expected(password, f, kdf) == [];
  }

  lemma FieldsOfHashPassword(password: string, salt: seq<Byte>, kdf: KeyStream)
    requires |salt| == SaltLength
    ensures var f := FieldsOf(HashPassword(password, salt, kdf));
            && f.salt == Some(Hex(salt))
            && f.storedHash == Some(Hex(Pbkdf2(kdf, password, Hex(salt), DefaultIterations, KeyLength, DigestName)))
            && f.iterations == Some(DefaultIterations)
  {
    var fields := DigestFields(password, salt, kdf);
    JsText.SplitJoin(fields, ':');
    DefaultIterationsText();
    JsText.ParseIntOfDecimal(DefaultIterations, "");
    assert JsText.Decimal(DefaultIterations) + "" == JsText.Decimal(DefaultIterations);
  }

  /** Fields shaped like those `hashPassword` writes verify an attempt
      exactly when the attempt's key equals the stored one. */
  lemma VerifyWellFormedFields(attempt: string, f: Fields, key: seq<Byte>, kdf: KeyStream)
    requires f.iterations == Some(DefaultIterations)
    requires f.salt.Some? && f.salt.value != ""
    requires f.storedHash == Some(Hex(key)) && |key| > 0
    ensures VerifyFields(attempt, f, kdf)
            == Ok(Pbkdf2(kdf, attempt, f.salt.value, DefaultIterations, |key|, DigestName) == key)
  {
    HexRoundTrip(key);
    assert !Rejected(f);
    var r := VerifyFields(attempt, f, kdf);
    assert r != Err(Thrown) && r.Ok?;
    assert Expected(attempt, f, kdf) == Pbkdf2(kdf, attempt, f.salt.value, DefaultIterations, |key|, DigestName);
  }

  /** Round trip: a password verifies against the digest `hashPassword`
      made of it, and any attempt verifies exactly when PBKDF2 gives it the
      same 64-byte key. Both versions agree on such digests. */
  lemma VerifyHashPassword(password: string, attempt: string, salt: seq<Byte>, kdf: KeyStream)
    requires |salt| == SaltLength
    ensures var digest := HashPassword(password, salt, kdf);
            && VerifyPassword(attempt, Some(digest), kdf)
               == Ok(Pbkdf2(kdf, attempt, Hex(salt), DefaultIterations, KeyLength, DigestName)
                     == Pbkdf2(kdf, password, Hex(salt), DefaultIterations, KeyLength, DigestName))
            && VerifyPasswordStrict(attempt, Some(digest), kdf) == VerifyPassword(attempt, Some(digest), kdf)
    ensures VerifyPassword(password, Some(HashPassword(password, salt, kdf)), kdf) == Ok(true)
  {
    var digest := HashPassword(password, salt, kdf);
    var key := Pbkdf2(kdf, password, Hex(salt), DefaultIterations, KeyLength, DigestName);
    var f := FieldsOf(digest);
    FieldsOfHashPassword(password, salt, kdf);
    assert digest != "" by { var fields := DigestFields(password, salt, kdf); }
    VerifyWellFormedFields(attempt, f, key, kdf);
    VerifyWellFormedFields(password, f, key, kdf);
    HexRoundTrip(key);
  }

  /** Whatever follows the third field is ignored. */
  lemma TrailingFieldsIgnored(password: string, digest: string, extra: string, kdf: KeyStream)
    requires |JsText.Split(digest, ':')| >= 3
    ensures VerifyPassword(password, Some(digest + ":" + extra), kdf) == VerifyPassword(password, Some(digest), kdf)
  {
    JsText.SplitAround(digest, ':', extra);
    assert digest + ":" + extra == digest + [':'] + extra;
    assert FieldsOf(digest + ":" + extra) == FieldsOf(digest);
  }
}
