/**
 * pkg/hashing/driver.go: the bcrypt and Argon2id password hashers. The key
 * derivation functions are foreign code and stay parameters; what is
 * modelled is the encoded-hash text the Argon2 hasher writes and reads
 * back, with fmt.Sscanf's decimal scanning and strict unpadded base64, and
 * the defaults the constructors fill in.
 */
module Hashing {
  import opened GoTypes
  import opened GoStrings
  import opened GoStrconv
  import opened Base64

  const Two32: int := 0x1_0000_0000
  const Two8: int := 0x100
  const MaxUint64: int := 0xffff_ffff_ffff_ffff

  type uint32 = n: int | 0 <= n < 0x1_0000_0000
  type uint8 = n: int | 0 <= n < 0x100

  /** Go's conversion uint32(n): the value modulo 2^32. */
  function Uint32(n: nat): (r: uint32)
    ensures n < Two32 ==> r == n
  {
    n % Two32
  }

  /** argon2.Version */
  const Argon2Version: int := 0x13

  /* ---------- bcrypt ---------- */

  const DefaultBcryptCost := 14

  datatype BcryptConfig = BcryptConfig(cost: int)
  datatype Bcrypt = Bcrypt(c: BcryptConfig)

  /** newBcrypt: a zero cost becomes 14, any other cost is kept. */
  method NewBcrypt(c: BcryptConfig) returns (b: Bcrypt)
    ensures b.c.cost != 0
    ensures c.cost != 0 ==> b.c == c
    ensures c.cost == 0 ==> b.c.cost == DefaultBcryptCost
  {
    var c := c;
    if c.cost == 0 {
      c := c.(cost := DefaultBcryptCost);
    }
    b := Bcrypt(c);
  }

  /* ---------- Argon2 configuration ---------- */

  const DefaultMemory: uint32 := 64 * 1024
  const DefaultIterations: uint32 := 3
  const DefaultParallelism: uint8 := 2
  const DefaultSaltLength: uint32 := 16
  const DefaultKeyLength: uint32 := 32

  datatype Argon2Config = Argon2Config(
    memory: uint32,
    iterations: uint32,
    parallelism: uint8,
    saltLength: uint32,
    keyLength: uint32)

  datatype Argon2 = Argon2(c: Argon2Config)

  predicate NoZeroField(c: Argon2Config)
  {
    c.memory != 0 && c.iterations != 0 && c.parallelism != 0 && c.saltLength != 0 && c.keyLength != 0
  }

  /**
   * newArgon2: each zero field in turn is replaced by its default; the
   * result has no zero field, and a configuration without one is kept as is.
   */
  method NewArgon2(c: Argon2Config) returns (a: Argon2)
    ensures NoZeroField(a.c)
    ensures NoZeroField(c) ==> a.c == c
    ensures a.c.memory == (if c.memory == 0 then DefaultMemory else c.memory)
    ensures a.c.iterations == (if c.iterations == 0 then DefaultIterations else c.iterations)
    ensures a.c.parallelism == (if c.parallelism == 0 then DefaultParallelism else c.parallelism)
    ensures a.c.saltLength == (if c.saltLength == 0 then DefaultSaltLength else c.saltLength)
    ensures a.c.keyLength == (if c.keyLength == 0 then DefaultKeyLength else c.keyLength)
  {
    var c := c;
    if c.memory == 0 {
      c := c.(memory := DefaultMemory);
    }
    if c.iterations == 0 {
      c := c.(iterations := DefaultIterations);
    }
    if c.parallelism == 0 {
      c := c.(parallelism := DefaultParallelism);
    }
    if c.saltLength == 0 {
      c := c.(saltLength := DefaultSaltLength);
    }
    if c.keyLength == 0 {
      c := c.(keyLength := DefaultKeyLength);
    }
    a := Argon2(c);
  }

  /* ---------- fmt.Sscanf ---------- */

  /** What a scanning step leaves: a value and the unread input, or fmt's error. */
  datatype Parsed<T> = Parsed(value: T, rest: string) | Failed(err: GoError)

  const ErrUnexpectedEOF := GoError("unexpected EOF")
  const ErrEOF := GoError("EOF")
  const ErrInputMismatch := GoError("input does not match format")
  const ErrExpectedInteger := GoError("expected integer")
  const ErrUnexpectedNewline := GoError("unexpected newline")

  /** strconv's range error, as fmt passes it on; the tokens here never need quoting escapes. */
  function RangeError(fn: string, tok: string): GoError
  {
    GoError(fn + ": parsing \"" + tok + "\": value out of range")
  }

  function UintOverflow(tok: string): GoError
  {
    GoError("unsigned integer overflow on token " + tok)
  }

  /** fmt's isSpace table. */
  predicate IsSpace(c: char)
  {
    var n := c as int;
    (0x09 <= n <= 0x0d) || n == 0x20 || n == 0x85 || n == 0xa0 || n == 0x1680
    || (0x2000 <= n <= 0x200a) || n == 0x2028 || n == 0x2029 || n == 0x202f
    || n == 0x205f || n == 0x3000
  }

  /** SkipSpace as Sscanf runs it: white space is skipped, but a newline in the input is an error. */
  function SkipSpace(s: string): (r: Option<string>)
    ensures r.Some? ==> |r.value| <= |s| && r.value == s[|s| - |r.value|..]
    ensures r.Some? && r.value != "" ==> !IsSpace(r.value[0])
    decreases |s|
  {
    if |s| == 0 then Some(s)
    else if s[0] == '\n' then None
    else if IsSpace(s[0]) then SkipSpace(s[1..])
    else Some(s)
  }

  /** A literal of the format, matched character by character. */
  function Literal(s: string, lit: string): (r: Parsed<()>)
    ensures r.Parsed? <==> HasPrefix(s, lit)
    ensures r.Parsed? ==> s == lit + r.rest
    decreases |lit|
  {
    if |lit| == 0 then Parsed((), s)
    else if |s| == 0 then Failed(ErrUnexpectedEOF)
    else if s[0] != lit[0] then Failed(ErrInputMismatch)
    else
      var r := Literal(s[1..], lit[1..]);
      assert r.Parsed? ==> s == [s[0]] + s[1..];
      assert HasPrefix(s, lit) ==> s[1..][..|lit| - 1] == s[..|lit|][1..];
      r
  }

  /** The longest run of decimal digits at the start of `s`. */
  function LeadingDigits(s: string): (d: string)
    ensures |d| <= |s| && s[..|d|] == d && AllDigits(d)
    ensures |d| < |s| ==> !IsDigit(s[|d|])
    decreases |s|
  {
    if |s| > 0 && IsDigit(s[0]) then [s[0]] + LeadingDigits(s[1..]) else ""
  }

  /** `%d` into an unsigned integer of `limit` values (uint32 or uint8): no sign, at least one digit. */
  function ScanUint(s: string, limit: nat): (r: Parsed<nat>)
    ensures r.Parsed? ==> r.value < limit && |r.rest| < |s|
    ensures r.Parsed? ==> r.rest == "" || !IsDigit(r.rest[0])
  {
    match SkipSpace(s)
    case None => Failed(ErrUnexpectedNewline)
    case Some(t) =>
      if |t| == 0 then Failed(ErrEOF)
      else
        var tok := LeadingDigits(t);
        if tok == "" then Failed(ErrExpectedInteger)
        else if DigitsValue(tok) > MaxUint64 then Failed(RangeError("strconv.ParseUint", tok))
        else if DigitsValue(tok) >= limit then Failed(UintOverflow(tok))
        else Parsed(DigitsValue(tok), t[|tok|..])
  }

  /** `%d` into a 64-bit int: an optional sign, then at least one digit. */
  function ScanInt(s: string): (r: Parsed<int>)
    ensures r.Parsed? ==> MinInt64 <= r.value <= MaxInt64 && |r.rest| < |s|
    ensures r.Parsed? ==> r.rest == "" || !IsDigit(r.rest[0])
  {
    match SkipSpace(s)
    case None => Failed(ErrUnexpectedNewline)
    case Some(t) => ScanSignedDigits(t)
  }

  /** The part of `%d` after the white space: an optional sign, then the digits. */
  function ScanSignedDigits(t: string): (r: Parsed<int>)
    ensures r.Parsed? ==> MinInt64 <= r.value <= MaxInt64 && |r.rest| < |t|
    ensures r.Parsed? ==> r.rest == "" || !IsDigit(r.rest[0])
  {
    if |t| == 0 then Failed(ErrEOF)
    else
      var signed := t[0] == '+' || t[0] == '-';
      var u := if signed then t[1..] else t;
      if |u| == 0 then Failed(ErrEOF)
      else
        var digits := LeadingDigits(u);
        var tok := t[..|t| - |u|] + digits;
        var n: int := if signed && t[0] == '-' then -(DigitsValue(digits) as int) else DigitsValue(digits);
        if digits == "" then Failed(ErrExpectedInteger)
        else if n < MinInt64 || n > MaxInt64 then Failed(RangeError("strconv.ParseInt", tok))
        else Parsed(n, u[|digits|..])
  }

  /** Sscanf(vals[2], "v=%d", &version) */
  function ScanVersion(s: string): (r: Parsed<int>)
    ensures r.Parsed? ==> HasPrefix(s, "v=")
  {
    match Literal(s, "v=")
    case Failed(e) => Failed(e)
    case Parsed(_, rest) => ScanInt(rest)
  }

  /** Sscanf(vals[3], "m=%d,t=%d,p=%d", &p.Memory, &p.Iterations, &p.Parallelism), filling a zero config. */
  function ScanParams(s: string): (r: Parsed<Argon2Config>)
    ensures r.Parsed? ==> HasPrefix(s, "m=") && r.value.saltLength == 0 && r.value.keyLength == 0
  {
    match Literal(s, "m=")
    case Failed(e) => Failed(e)
    case Parsed(_, s1) =>
      match ScanUint(s1, Two32)
      case Failed(e) => Failed(e)
      case Parsed(m, s2) =>
        match Literal(s2, ",t=")
        case Failed(e) => Failed(e)
        case Parsed(_, s3) =>
          match ScanUint(s3, Two32)
          case Failed(e) => Failed(e)
          case Parsed(t, s4) =>
            match Literal(s4, ",p=")
            case Failed(e) => Failed(e)
            case Parsed(_, s5) =>
              match ScanUint(s5, Two8)
              case Failed(e) => Failed(e)
              case Parsed(p, s6) => Parsed(Argon2Config(m, t, p, 0, 0), s6)
  }

  /* ---------- the encoded hash ---------- */

  const ErrHashFormat := GoError("the encoded hash is not in the correct format")
  const ErrIncompatibleVersion := GoError("incompatible version of argon2")
  /** base64.CorruptInputError; the byte offset it reports is not modelled. */
  const ErrIllegalBase64 := GoError("illegal base64 data")

  /** The version field, "v=%d". */
  function VersionText(v: nat): string
  {
    "v=" + FormatNat(v)
  }

  /** The parameter field, "m=%d,t=%d,p=%d". */
  function ParamsText(c: Argon2Config): string
  {
    "m=" + FormatNat(c.memory) + ",t=" + FormatNat(c.iterations) + ",p=" + FormatNat(c.parallelism)
  }

  /** The six '$'-separated fields of a hash text: an empty one, the variant, the version, the parameters, the salt and the key. */
  function Fields(variant: string, version: string, params: string, salt64: string, key64: string): seq<string>
  {
    ["", variant, version, params, salt64, key64]
  }

  /** The text generateFromPassword writes: "$argon2id$v=%d$m=%d,t=%d,p=%d$%s$%s" with argon2.Version. */
  function EncodeHash(c: Argon2Config, salt: seq<byte>, key: seq<byte>): (s: string)
  {
    Join(Fields("argon2id", VersionText(Argon2Version), ParamsText(c), Encode(salt), Encode(key)), "$")
  }

  datatype Decoded =
    | Decoded(params: Argon2Config, salt: seq<byte>, key: seq<byte>)
    | DecodeFailed(err: GoError)

  /**
   * The salt and the key of decodeHash, in strict unpadded base64; their
   * lengths, truncated to uint32, become SaltLength and KeyLength of the
   * scanned parameters `p`.
   */
  function DecodeKeys(p: Argon2Config, salt64: string, key64: string): (r: Decoded)
    ensures r.Decoded? <==> DecodeString(salt64).Some? && DecodeString(key64).Some?
    ensures r.Decoded? ==> DecodeString(salt64) == Some(r.salt) && DecodeString(key64) == Some(r.key)
    ensures r.Decoded? ==> r.params == p.(saltLength := Uint32(|r.salt|), keyLength := Uint32(|r.key|))
  {
    match DecodeString(salt64)
    case None => DecodeFailed(ErrIllegalBase64)
    case Some(salt) =>
      var p := p.(saltLength := Uint32(|salt|));
      match DecodeString(key64)
      case None => DecodeFailed(ErrIllegalBase64)
      case Some(hash) => Decoded(p.(keyLength := Uint32(|hash|)), salt, hash)
  }

  /**
   * decodeHash once the text has been split into six fields: a version
   * equal to argon2.Version, the three parameters, then the salt and the
   * key. The variant name in the second field is not looked at, and text
   * after a scanned number is ignored, as Sscanf does.
   */
  function DecodeFields(version: string, params: string, salt64: string, key64: string): (r: Decoded)
    ensures r.Decoded? ==> ScanVersion(version).Parsed? && ScanVersion(version).value == Argon2Version
    ensures r.Decoded? ==> ScanParams(params).Parsed?
    ensures ScanVersion(version).Parsed? && ScanVersion(version).value != Argon2Version
      ==> r == DecodeFailed(ErrIncompatibleVersion)
  {
    match ScanVersion(version)
    case Failed(e) => DecodeFailed(e)
    case Parsed(v, _) =>
      if v != Argon2Version then DecodeFailed(ErrIncompatibleVersion)
      else
        match ScanParams(params)
        case Failed(e) => DecodeFailed(e)
        case Parsed(p, _) => DecodeKeys(p, salt64, key64)
  }

  /** decodeHash: a text that does not split on '$' into exactly six fields is refused. */
  function DecodeHash(encodedHash: string): (r: Decoded)
    ensures |Split(encodedHash, '$')| != 6 ==> r == DecodeFailed(ErrHashFormat)
    ensures r.Decoded? ==> |Split(encodedHash, '$')| == 6
  {
    var vals := Split(encodedHash, '$');
    if |vals| != 6 then DecodeFailed(ErrHashFormat) else DecodeFields(vals[2], vals[3], vals[4], vals[5])
  }

  /* ---------- scanning lemmas ---------- */

  lemma {:induction false} LiteralMatches(lit: string, rest: string)
    ensures Literal(lit + rest, lit) == Parsed((), rest)
    decreases |lit|
  {
    if |lit| > 0 {
      assert (lit + rest)[1..] == lit[1..] + rest;
      LiteralMatches(lit[1..], rest);
    }
  }

  lemma {:induction false} LeadingDigitsOf(d: string, rest: string)
    requires AllDigits(d)
    requires rest == "" || !IsDigit(rest[0])
    ensures LeadingDigits(d + rest) == d
    decreases |d|
  {
    if |d| > 0 {
      assert (d + rest)[1..] == d[1..] + rest;
      LeadingDigitsOf(d[1..], rest);
      assert d == [d[0]] + d[1..];
    } else {
      assert d + rest == rest;
    }
  }

  /** %d reads back what FormatNat wrote, up to the first non-digit. */
  lemma ScanUintFormat(n: nat, rest: string, limit: nat)
    requires n < limit <= MaxUint64 + 1
    requires rest == "" || !IsDigit(rest[0])
    ensures ScanUint(FormatNat(n) + rest, limit) == Parsed(n, rest)
  {
    var d := FormatNat(n);
    assert (d + rest)[0] == d[0];
    LeadingDigitsOf(d, rest);
    assert (d + rest)[|d|..] == rest;
  }

  /** The same for a non-negative version number. */
  lemma ScanIntFormat(n: nat, rest: string)
    requires n <= MaxInt64
    requires rest == "" || !IsDigit(rest[0])
    ensures ScanInt(FormatNat(n) + rest) == Parsed(n, rest)
  {
    ScanIntOfDigits(FormatNat(n), rest);
  }

  /** Unsigned digits in range, then a non-digit or the end: the digits are the number. */
  lemma ScanIntOfDigits(d: string, rest: string)
    requires d != "" && AllDigits(d) && DigitsValue(d) <= MaxInt64
    requires rest == "" || !IsDigit(rest[0])
    ensures ScanInt(d + rest) == Parsed(DigitsValue(d), rest)
  {
    var t := d + rest;
    assert t[0] == d[0] && IsDigit(t[0]);
    SkipSpaceAtNonSpace(t);
    UnsignedDigits(d, rest);
  }

  /** Sscanf skips nothing in front of a character that is not white space. */
  lemma SkipSpaceAtNonSpace(t: string)
    requires t != "" && t[0] != '\n' && !IsSpace(t[0])
    ensures SkipSpace(t) == Some(t)
  {
  }

  lemma UnsignedDigits(d: string, rest: string)
    requires d != "" && AllDigits(d) && DigitsValue(d) <= MaxInt64
    requires rest == "" || !IsDigit(rest[0])
    ensures ScanSignedDigits(d + rest) == Parsed(DigitsValue(d), rest)
  {
    var t := d + rest;
    assert t[0] == d[0] && IsDigit(t[0]);
    LeadingDigitsOf(d, rest);
    assert t[|d|..] == rest;
  }

  lemma ScanParamsText(c: Argon2Config)
    ensures ScanParams(ParamsText(c)) == Parsed(c.(saltLength := 0, keyLength := 0), "")
  {
    var m, t, p := FormatNat(c.memory), FormatNat(c.iterations), FormatNat(c.parallelism);
    assert ParamsText(c) == "m=" + (m + (",t=" + (t + (",p=" + (p + "")))));
    LiteralMatches("m=", m + (",t=" + (t + (",p=" + (p + "")))));
    ScanUintFormat(c.memory, ",t=" + (t + (",p=" + (p + ""))), Two32);
    LiteralMatches(",t=", t + (",p=" + (p + "")));
    ScanUintFormat(c.iterations, ",p=" + (p + ""), Two32);
    LiteralMatches(",p=", p + "");
    ScanUintFormat(c.parallelism, "", Two8);
  }

  lemma ScanVersionText(n: nat)
    requires n <= MaxInt64
    ensures ScanVersion(VersionText(n)) == Parsed(n, "")
  {
    assert VersionText(n) == "v=" + (FormatNat(n) + "");
    LiteralMatches("v=", FormatNat(n) + "");
    ScanIntFormat(n, "");
  }

  /** %d also takes an explicit sign. */
  lemma ScanIntSigned(n: nat, sign: char)
    requires n <= MaxInt64 && (sign == '+' || sign == '-')
    ensures ScanInt([sign] + FormatNat(n)) == Parsed(if sign == '-' then -(n as int) else n, "")
  {
    ScanIntAfterSign(sign, FormatNat(n));
  }

  /** A sign followed by digits only: the whole string is the number. */
  lemma ScanIntAfterSign(sign: char, d: string)
    requires (sign == '+' || sign == '-') && d != ""
    requires AllDigits(d) && DigitsValue(d) <= MaxInt64
    ensures ScanInt([sign] + d) == Parsed(if sign == '-' then -(DigitsValue(d) as int) else DigitsValue(d), "")
  {
    var t := [sign] + d;
    assert t[0] == sign && !IsSpace(sign);
    SkipSpaceAtNonSpace(t);
    SignedDigits(sign, d);
  }

  lemma SignedDigits(sign: char, d: string)
    requires (sign == '+' || sign == '-') && d != ""
    requires AllDigits(d) && DigitsValue(d) <= MaxInt64
    ensures ScanSignedDigits([sign] + d) == Parsed(if sign == '-' then -(DigitsValue(d) as int) else DigitsValue(d), "")
  {
    var t := [sign] + d;
    assert t[0] == sign && t[1..] == d;
    assert d + "" == d;
    LeadingDigitsOf(d, "");
    assert d[|d|..] == "";
  }

  /** A leading zero does not change the value of a digit string. */
  lemma {:induction false} DigitsValueLeadingZero(d: string)
    requires AllDigits(d)
    ensures AllDigits("0" + d) && DigitsValue("0" + d) == DigitsValue(d)
    decreases |d|
  {
    var z := "0" + d;
    if |d| == 0 {
      assert z[..0] == "";
    } else {
      DigitsValueLeadingZero(d[..|d| - 1]);
      assert z[..|z| - 1] == "0" + d[..|d| - 1];
      assert z[|z| - 1] == d[|d| - 1];
    }
  }

  /** %d takes leading zeros. */
  lemma ScanIntLeadingZero(n: nat)
    requires n <= MaxInt64
    ensures ScanInt("0" + FormatNat(n)) == Parsed(n, "")
  {
    var d := "0" + FormatNat(n);
    DigitsValueLeadingZero(FormatNat(n));
    assert d + "" == d;
    ScanIntOfDigits(d, "");
  }

  /* ---------- decoding lemmas ---------- */

  lemma NoDollarInNumber(n: nat)
    ensures '$' !in FormatNat(n)
  {
    var d := FormatNat(n);
    assert forall i :: 0 <= i < |d| ==> IsDigit(d[i]);
  }

  lemma NoDollarInParams(c: Argon2Config)
    ensures '$' !in ParamsText(c)
  {
    NoDollarInNumber(c.memory);
    NoDollarInNumber(c.iterations);
    NoDollarInNumber(c.parallelism);
  }

  lemma NoDollarInBase64(bs: seq<byte>)
    ensures '$' !in Encode(bs)
  {
    var s := Encode(bs);
    assert forall i :: 0 <= i < |s| ==> IsB64(s[i]);
  }

  /** Splitting the joined fields gives them back, so decodeHash works on them. */
  lemma SplitFields(variant: string, version: string, params: string, salt64: string, key64: string)
    requires '$' !in variant && '$' !in version && '$' !in params && '$' !in salt64 && '$' !in key64
    ensures DecodeHash(Join(Fields(variant, version, params, salt64, key64), "$"))
      == DecodeFields(version, params, salt64, key64)
  {
    SplitJoin(Fields(variant, version, params, salt64, key64), '$');
  }

  /** The fields of a made hash decode to its parameters, salt and key. */
  lemma DecodeMadeFields(c: Argon2Config, salt: seq<byte>, key: seq<byte>)
    ensures DecodeFields(VersionText(Argon2Version), ParamsText(c), Encode(salt), Encode(key))
      == Decoded(c.(saltLength := Uint32(|salt|), keyLength := Uint32(|key|)), salt, key)
  {
    ScanVersionText(Argon2Version);
    ScanParamsText(c);
    DecodeEncode(salt);
    DecodeEncode(key);
  }

  /**
   * The round trip of the hash text: decoding what generateFromPassword
   * writes gives back the same memory, iterations and parallelism, the same
   * salt and key, and their lengths.
   */
  lemma DecodeEncodeHash(c: Argon2Config, salt: seq<byte>, key: seq<byte>)
    ensures DecodeHash(EncodeHash(c, salt, key))
      == Decoded(c.(saltLength := Uint32(|salt|), keyLength := Uint32(|key|)), salt, key)
  {
    NoDollarInNumber(Argon2Version);
    NoDollarInParams(c);
    NoDollarInBase64(salt);
    NoDollarInBase64(key);
    SplitFields("argon2id", VersionText(Argon2Version), ParamsText(c), Encode(salt), Encode(key));
    DecodeMadeFields(c, salt, key);
  }

  /** Only a text with exactly five '$' can decode. */
  lemma DecodeNeedsFiveSeparators(s: string)
    ensures CountChar(s, '$') != 5 ==> DecodeHash(s) == DecodeFailed(ErrHashFormat)
  {
    SplitCount(s, '$');
  }

  /** A well-formed text with any other version number is refused. */
  lemma OtherVersionRefused(c: Argon2Config, salt: seq<byte>, key: seq<byte>, version: nat)
    requires version != Argon2Version && version <= MaxInt64
    ensures DecodeHash(Join(Fields("argon2id", VersionText(version), ParamsText(c), Encode(salt), Encode(key)), "$"))
      == DecodeFailed(ErrIncompatibleVersion)
  {
    NoDollarInNumber(version);
    NoDollarInParams(c);
    NoDollarInBase64(salt);
    NoDollarInBase64(key);
    SplitFields("argon2id", VersionText(version), ParamsText(c), Encode(salt), Encode(key));
    ScanVersionText(version);
  }

  /** The variant field is never checked: an "argon2i" text decodes like the "argon2id" one. */
  lemma VariantIgnored(c: Argon2Config, salt: seq<byte>, key: seq<byte>, variant: string)
    requires '$' !in variant
    ensures DecodeHash(Join(Fields(variant, VersionText(Argon2Version), ParamsText(c), Encode(salt), Encode(key)), "$"))
      == DecodeHash(EncodeHash(c, salt, key))
  {
    NoDollarInNumber(Argon2Version);
    NoDollarInParams(c);
    NoDollarInBase64(salt);
    NoDollarInBase64(key);
    SplitFields(variant, VersionText(Argon2Version), ParamsText(c), Encode(salt), Encode(key));
    DecodeMadeFields(c, salt, key);
    DecodeEncodeHash(c, salt, key);
  }

  /** Sscanf's %d takes a sign, so "v=+19" passes the version check. */
  lemma VersionWithSign()
    ensures ScanVersion("v=+" + FormatNat(Argon2Version)) == Parsed(Argon2Version, "")
  {
    var d := FormatNat(Argon2Version);
    assert "v=+" + d == "v=" + (['+'] + d);
    LiteralMatches("v=", ['+'] + d);
    ScanIntSigned(Argon2Version, '+');
  }

  /** Leading zeros are read too, so "v=019" passes the version check. */
  lemma VersionWithLeadingZero()
    ensures ScanVersion("v=0" + FormatNat(Argon2Version)) == Parsed(Argon2Version, "")
  {
    var d := FormatNat(Argon2Version);
    assert "v=0" + d == "v=" + ("0" + d);
    LiteralMatches("v=", "0" + d);
    ScanIntLeadingZero(Argon2Version);
  }

  /** Without a number the scanner reports EOF; without the literal, unexpected EOF. */
  lemma VersionMissing()
    ensures ScanVersion("v=") == Failed(ErrEOF)
    ensures ScanVersion("") == Failed(ErrUnexpectedEOF)
  {
    LiteralMatches("v=", "");
    assert "v=" + "" == "v=";
  }

  /* ---------- Make and Check ---------- */

  /** argon2.IDKey(password, salt, time, memory, threads, keyLen), left abstract. */
  type IdKey = (string, seq<byte>, uint32, uint32, uint8, uint32) -> seq<byte>

  /** generateRandomBytes: n bytes from the random source, unless reading fails. */
  function RandomBytes(n: uint32, random: nat -> byte, readErr: Option<GoError>): (r: Option<seq<byte>>)
    ensures r.Some? <==> readErr.None?
    ensures r.Some? ==> |r.value| == n && forall i :: 0 <= i < n ==> r.value[i] == random(i)
  {
    if readErr.Some? then None else Some(seq(n, i requires 0 <= i < n => random(i)))
  }

  datatype Made = Made(hash: string, err: Option<GoError>)

  /** Argon2.Make: a salt of SaltLength random bytes, the Argon2id key, and the hash text. */
  function Make(a: Argon2, password: string, random: nat -> byte, readErr: Option<GoError>, idKey: IdKey): (r: Made)
    ensures r.err == readErr
    ensures readErr.Some? ==> r.hash == ""
    ensures readErr.None? ==> var d := DecodeHash(r.hash);
      d.Decoded? && d.params.memory == a.c.memory && d.params.iterations == a.c.iterations
      && d.params.parallelism == a.c.parallelism && |d.salt| == a.c.saltLength
  {
    match RandomBytes(a.c.saltLength, random, readErr)
    case None => Made("", readErr)
    case Some(salt) =>
      var key := idKey(password, salt, a.c.iterations, a.c.memory, a.c.parallelism, a.c.keyLength);
      DecodeEncodeHash(a.c, salt, key);
      Made(EncodeHash(a.c, salt, key), None)
  }

  /** subtle.ConstantTimeCompare: 1 exactly when the two byte strings are equal. */
  function ConstantTimeCompare(x: seq<byte>, y: seq<byte>): (r: int)
    ensures r == 1 <==> x == y
    ensures r == 0 || r == 1
  {
    if |x| != |y| then 0 else if x == y then 1 else 0
  }

  /**
   * Argon2.Check: false when the text does not decode; otherwise the key
   * derived from `plain` with the decoded salt and parameters must equal
   * the decoded key. The receiver's own configuration is unused.
   */
  function Check(a: Argon2, hashed: string, plain: string, idKey: IdKey): (ok: bool)
    ensures DecodeHash(hashed).DecodeFailed? ==> !ok
    ensures ok ==> var d := DecodeHash(hashed);
      Uint32(|d.key|) == d.params.keyLength
      && idKey(plain, d.salt, d.params.iterations, d.params.memory, d.params.parallelism, d.params.keyLength) == d.key
  {
    match DecodeHash(hashed)
    case DecodeFailed(_) => false
    case Decoded(p, salt, hash) =>
      ConstantTimeCompare(hash, idKey(plain, salt, p.iterations, p.memory, p.parallelism, p.keyLength)) == 1
  }

  /** Check does not depend on the hasher it is called on. */
  lemma CheckIgnoresReceiver(a: Argon2, b: Argon2, hashed: string, plain: string, idKey: IdKey)
    ensures Check(a, hashed, plain, idKey) == Check(b, hashed, plain, idKey)
  {
  }

  /**
   * A hash made from a password checks against that password, on any
   * hasher, provided the key derivation returns keys of the requested length.
   */
  lemma CheckAcceptsMade(a: Argon2, b: Argon2, password: string, random: nat -> byte, idKey: IdKey)
    requires forall salt :: |idKey(password, salt, a.c.iterations, a.c.memory, a.c.parallelism, a.c.keyLength)| == a.c.keyLength
    ensures Make(a, password, random, None, idKey).err.None?
    ensures Check(b, Make(a, password, random, None, idKey).hash, password, idKey)
  {
    var salt := RandomBytes(a.c.saltLength, random, None).value;
    var key := idKey(password, salt, a.c.iterations, a.c.memory, a.c.parallelism, a.c.keyLength);
    var h := Make(a, password, random, None, idKey).hash;
    assert h == EncodeHash(a.c, salt, key);
    DecodeEncodeHash(a.c, salt, key);
    assert |salt| == a.c.saltLength;
    assert |key| == a.c.keyLength;
    assert DecodeHash(h) == Decoded(a.c, salt, key);
  }

  /** A text that fails to decode is refused whatever the password. */
  lemma CheckRefusesMalformed(a: Argon2, hashed: string, plain: string, idKey: IdKey)
    requires CountChar(hashed, '$') != 5
    ensures !Check(a, hashed, plain, idKey)
  {
    DecodeNeedsFiveSeparators(hashed);
  }
}
