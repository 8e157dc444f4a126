/**
 * The digest string of a client secret: PBKDF2 output in unpadded base64 with '.' for '+'
 * (sections 3.2 and 4 of RFC 4648), between dollar signs. The key derivation is a parameter.
 */
module Digest {
  import opened JsonTree

  type Byte = x: int | 0 <= x < 256
  type Sextet = x: int | 0 <= x < 64

  const UPPER: string := "ABCDEFGHIJKLMNOPQRSTUVWXYZ"
  const LOWER: string := "abcdefghijklmnopqrstuvwxyz"
  const DIGITS: string := "0123456789"
  const ALPHABET: string := UPPER + LOWER + DIGITS + "./"

  function Digit(n: Sextet): char {
    if n < 26 then 'A' + n as char
    else if n < 52 then 'a' + (n - 26) as char
    else if n < 62 then '0' + (n - 52) as char
    else if n == 62 then '.'
    else '/'
  }

  function Undigit(c: char): Option<Sextet> {
    if 'A' <= c <= 'Z' then Some(c as int - 'A' as int)
    else if 'a' <= c <= 'z' then Some(c as int - 'a' as int + 26)
    else if '0' <= c <= '9' then Some(c as int - '0' as int + 52)
    else if c == '.' then Some(62)
    else if c == '/' then Some(63)
    else None
  }

  lemma AlphabetIsDigits(n: Sextet)
    ensures |ALPHABET| == 64 && ALPHABET[n] == Digit(n) && Undigit(Digit(n)) == Some(n) && Digit(n) != '$'
  {
    assert |UPPER| == 26 && |LOWER| == 26 && |DIGITS| == 10;
    if n < 26 {
      assert ALPHABET[n] == UPPER[n];
    } else if n < 52 {
      assert ALPHABET[n] == LOWER[n - 26];
    } else if n < 62 {
      assert ALPHABET[n] == DIGITS[n - 52];
    }
  }

  function Encode(b: seq<Byte>): string {
    if b == [] then ""
    else if |b| == 1 then [Digit(b[0] / 4), Digit(b[0] % 4 * 16)]
    else if |b| == 2 then [Digit(b[0] / 4), Digit(b[0] % 4 * 16 + b[1] / 16), Digit(b[1] % 16 * 4)]
    else
      [Digit(b[0] / 4), Digit(b[0] % 4 * 16 + b[1] / 16), Digit(b[1] % 16 * 4 + b[2] / 64), Digit(b[2] % 64)]
      + Encode(b[3..])
  }

  function Undigits(s: string): Option<seq<Sextet>> {
    if s == "" then Some([])
    else match (Undigit(s[0]), Undigits(s[1..]))
      case (Some(n), Some(rest)) => Some([n] + rest)
      case _ => None
  }

  function Pack(d: seq<Sextet>): Option<seq<Byte>> {
    if d == [] then Some([])
    else if |d| == 1 then None
    else
      var first: int := d[0] as int * 4 + d[1] / 16;
      if |d| == 2 then Some([first])
      else
        var second: int := (d[1] % 16) as int * 16 + d[2] / 4;
        if |d| == 3 then Some([first, second])
        else
          var third: int := (d[2] % 4) as int * 64 + d[3];
          match Pack(d[4..])
          case Some(rest) => Some([first, second, third] + rest)
          case None => None
  }

  function Decode(s: string): Option<seq<Byte>> {
    match Undigits(s)
    case Some(d) => Pack(d)
    case None => None
  }

  function Sextets(b: seq<Byte>): seq<Sextet> {
    if b == [] then []
    else if |b| == 1 then [b[0] / 4, b[0] % 4 * 16]
    else if |b| == 2 then [b[0] / 4, b[0] % 4 * 16 + b[1] / 16, b[1] % 16 * 4]
    else [b[0] / 4, b[0] % 4 * 16 + b[1] / 16, b[1] % 16 * 4 + b[2] / 64, b[2] % 64] + Sextets(b[3..])
  }

  lemma {:induction false} UndigitsConcat(d: seq<Sextet>, s: string)
    requires Undigits(s).Some?
    ensures Undigits(seq(|d|, i requires 0 <= i < |d| => Digit(d[i])) + s) == Some(d + Undigits(s).value)
  {
    var t := seq(|d|, i requires 0 <= i < |d| => Digit(d[i]));
    if d == [] {
      assert t + s == s && d + Undigits(s).value == Undigits(s).value;
    } else {
      UndigitsConcat(d[1..], s);
      assert (t + s)[1..] == seq(|d[1..]|, i requires 0 <= i < |d[1..]| => Digit(d[1..][i])) + s;
      AlphabetIsDigits(d[0]);
      assert d + Undigits(s).value == [d[0]] + (d[1..] + Undigits(s).value);
    }
  }

  lemma {:induction false} UndigitsOfEncode(b: seq<Byte>)
    ensures Undigits(Encode(b)) == Some(Sextets(b))
  {
    var d := if |b| < 3 then Sextets(b)
             else [b[0] / 4, b[0] % 4 * 16 + b[1] / 16, b[1] % 16 * 4 + b[2] / 64, b[2] % 64];
    var t := seq(|d|, i requires 0 <= i < |d| => Digit(d[i]));
    if |b| < 3 {
      UndigitsConcat(d, "");
      assert t + "" == Encode(b);
      assert d + [] == d;
    } else {
      UndigitsOfEncode(b[3..]);
      UndigitsConcat(d, Encode(b[3..]));
      assert Encode(b) == t + Encode(b[3..]);
    }
  }

  /** Three bytes as four groups of six bits and back. */
  lemma Regroup(x: Byte, y: Byte, z: Byte)
    ensures var d1 := x % 4 * 16 + y / 16; var d2 := y % 16 * 4 + z / 64;
      x / 4 * 4 + d1 / 16 == x && d1 % 16 * 16 + d2 / 4 == y && d2 % 4 * 64 + z % 64 == z
  {
  }

  lemma {:induction false} PackOfSextets(b: seq<Byte>)
    ensures Pack(Sextets(b)) == Some(b)
  {
    if |b| == 1 {
      Regroup(b[0], 0, 0);
      assert b == [b[0]];
    } else if |b| == 2 {
      Regroup(b[0], b[1], 0);
      assert b == [b[0], b[1]];
    } else if |b| >= 3 {
      PackOfSextets(b[3..]);
      Regroup(b[0], b[1], b[2]);
      assert Sextets(b)[4..] == Sextets(b[3..]);
      assert b == [b[0], b[1], b[2]] + b[3..];
    }
  }

  /** Decoding gives back the bytes, whatever their number. */
  lemma Base64RoundTrip(b: seq<Byte>)
    ensures Decode(Encode(b)) == Some(b)
  {
    UndigitsOfEncode(b);
    PackOfSextets(b);
  }

  /** No padding: 16 bytes make 22 characters and 64 bytes make 86; a dollar sign never occurs. */
  lemma {:induction false} EncodedLength(b: seq<Byte>)
    ensures |Encode(b)| == (4 * |b| + 2) / 3
    ensures '$' !in Encode(b)
  {
    if |b| >= 3 {
      EncodedLength(b[3..]);
    }
  }

  lemma DigitSpelled(n: Sextet)
    ensures Digit(n) == "ABCDEFGHIJKLMNOPQRSTUVWXYZabcdefghijklmnopqrstuvwxyz0123456789./"[n]
  {
    AlphabetSpelled();
    AlphabetIsDigits(n);
  }

  lemma AlphabetSpelled()
    ensures ALPHABET == "ABCDEFGHIJKLMNOPQRSTUVWXYZabcdefghijklmnopqrstuvwxyz0123456789./"
  {
    assert UPPER + LOWER == "ABCDEFGHIJKLMNOPQRSTUVWXYZabcdefghijklmnopqrstuvwxyz";
    assert DIGITS + "./" == "0123456789./";
    assert ALPHABET == (UPPER + LOWER) + (DIGITS + "./");
  }

  /** Each three bytes are one number of 24 bits, most significant byte first, cut into four digits. */
  lemma EncodeGroup(x: Byte, y: Byte, z: Byte, rest: seq<Byte>)
    ensures var v := 65536 * x + 256 * y + z;
      Encode([x, y, z] + rest) == [Digit(v / 262144), Digit(v / 4096 % 64), Digit(v / 64 % 64), Digit(v % 64)] + Encode(rest)
  {
    Cut24(x, y, z);
    assert ([x, y, z] + rest)[3..] == rest;
  }

  /** What is left over is filled up with zero bits, as many digits as needed. */
  lemma EncodeTail(x: Byte, y: Byte)
    ensures Encode([x]) == [Digit(65536 * x / 262144), Digit(65536 * x / 4096 % 64)]
    ensures var v := 65536 * x + 256 * y; Encode([x, y]) == [Digit(v / 262144), Digit(v / 4096 % 64), Digit(v / 64 % 64)]
  {
    Cut24(x, 0, 0);
    Cut24(x, y, 0);
  }

  lemma Cut24(x: Byte, y: Byte, z: Byte)
    ensures var v := 65536 * x + 256 * y + z;
      v / 262144 == x / 4 && v / 4096 % 64 == x % 4 * 16 + y / 16 && v / 64 % 64 == y % 16 * 4 + z / 64 && v % 64 == z % 64
  {
    var v := 65536 * x + 256 * y + z;
    var a, b, c, d := x / 4, x % 4 * 16 + y / 16, y % 16 * 4 + z / 64, z % 64;
    Regroup(x, y, z);
    assert 0 <= b < 64 && 0 <= c < 64 && v == 262144 * a + 4096 * b + 64 * c + d;
    assert v / 64 == 4096 * a + 64 * b + c && v / 4096 == 64 * a + b;
  }

  // ------------------------------------------------------------- the digest

  const ITERATIONS: nat := 310000
  const SCHEME: string := "pbkdf2-sha512"

  function Decimal(n: nat): string {
    if n < 10 then ['0' + n as char] else Decimal(n / 10) + ['0' + (n % 10) as char]
  }

  function ParseDecimal(s: string): Option<nat> {
    if s == "" then None
    else
      var c := s[|s| - 1];
      if !('0' <= c <= '9') then None
      else if |s| == 1 then Some(c as int - '0' as int)
      else match ParseDecimal(s[..|s| - 1])
        case Some(n) => Some(n * 10 + (c as int - '0' as int))
        case None => None
  }

  lemma {:induction false} DecimalRoundTrip(n: nat)
    ensures ParseDecimal(Decimal(n)) == Some(n) && '$' !in Decimal(n)
  {
    if n >= 10 {
      DecimalRoundTrip(n / 10);
      assert Decimal(n)[..|Decimal(n)| - 1] == Decimal(n / 10);
    }
  }

  datatype Pbkdf2 = Pbkdf2(iterations: nat, salt: seq<Byte>, key: seq<Byte>)

  function Format(d: Pbkdf2): string {
    "$" + SCHEME + "$" + Decimal(d.iterations) + "$" + Encode(d.salt) + "$" + Encode(d.key)
  }

  /** The pieces between the dollar signs. */
  function Split(s: string): (parts: seq<string>)
    ensures parts != []
  {
    if s == "" then [""]
    else
      var rest := Split(s[1..]);
      if s[0] == '$' then [""] + rest else [[s[0]] + rest[0]] + rest[1..]
  }

  lemma {:induction false} SplitFirst(a: string, s: string)
    requires '$' !in a
    ensures Split(a + "$" + s) == [a] + Split(s)
  {
    if a == "" {
      assert ("" + "$" + s)[1..] == s;
    } else {
      assert (a + "$" + s)[1..] == a[1..] + "$" + s;
      SplitFirst(a[1..], s);
      assert a == [a[0]] + a[1..];
    }
  }

  lemma {:induction false} SplitNone(a: string)
    requires '$' !in a
    ensures Split(a) == [a]
  {
    if a != "" {
      SplitNone(a[1..]);
      assert a == [a[0]] + a[1..];
    }
  }

  function Parse(s: string): Option<Pbkdf2> {
    var p := Split(s);
    if |p| != 5 || p[0] != "" || p[1] != SCHEME then None
    else match (ParseDecimal(p[2]), Decode(p[3]), Decode(p[4]))
      case (Some(n), Some(salt), Some(key)) => Some(Pbkdf2(n, salt, key))
      case _ => None
  }

  /** Splitting a digest on the dollar signs recovers iterations, salt and key. */
  lemma DigestRoundTrip(d: Pbkdf2)
    ensures Parse(Format(d)) == Some(d)
  {
    var n, salt, key := Decimal(d.iterations), Encode(d.salt), Encode(d.key);
    DecimalRoundTrip(d.iterations);
    EncodedLength(d.salt);
    EncodedLength(d.key);
    Base64RoundTrip(d.salt);
    Base64RoundTrip(d.key);
    FormatIsJoin(SCHEME, n, salt, key);
    SplitJoin(["", SCHEME, n, salt, key]);
  }

  function Join(parts: seq<string>): string
    requires parts != []
  {
    if |parts| == 1 then parts[0] else parts[0] + "$" + Join(parts[1..])
  }

  lemma {:induction false} SplitJoin(parts: seq<string>)
    requires parts != [] && forall p :: p in parts ==> '$' !in p
    ensures Split(Join(parts)) == parts
  {
    if |parts| == 1 {
      SplitNone(parts[0]);
    } else {
      assert parts[0] in parts && forall p :: p in parts[1..] ==> p in parts;
      SplitJoin(parts[1..]);
      SplitFirst(parts[0], Join(parts[1..]));
    }
  }

  lemma FormatIsJoin(scheme: string, n: string, salt: string, key: string)
    ensures "$" + scheme + "$" + n + "$" + salt + "$" + key == Join(["", scheme, n, salt, key])
  {
    assert Join([key]) == key;
    assert Join([salt, key]) == salt + "$" + key;
    assert Join([n, salt, key]) == n + "$" + Join([salt, key]);
    assert Join([scheme, n, salt, key]) == scheme + "$" + Join([n, salt, key]);
    assert Join(["", scheme, n, salt, key]) == "" + "$" + Join([scheme, n, salt, key]);
  }

  // ------------------------------------------------------------- verification

  type Kdf = (string, seq<Byte>, nat) -> seq<Byte>

  function HashClientSecret(kdf: Kdf, secret: string, salt: seq<Byte>): string {
    Format(Pbkdf2(ITERATIONS, salt, kdf(secret, salt, ITERATIONS)))
  }

  /** How Authelia checks a secret: derive the key again with the digest's own parameters. */
  predicate Verify(kdf: Kdf, secret: string, digest: string) {
    match Parse(digest)
    case Some(d) => kdf(secret, d.salt, d.iterations) == d.key
    case None => false
  }

  /** Hashing and checking as the rest of the model sees them. */
  type Hash = (string, seq<Byte>) -> string
  type Verifier = (string, string) -> bool

  function KdfHash(kdf: Kdf): Hash {
    (secret, salt) => HashClientSecret(kdf, secret, salt)
  }

  function KdfVerifier(kdf: Kdf): Verifier {
    (secret, digest) => Verify(kdf, secret, digest)
  }

  /** A fresh digest is not empty and verifies its secret. */
  ghost predicate HashFits(hash: Hash, verify: Verifier) {
    forall secret, salt :: hash(secret, salt) != "" && verify(secret, hash(secret, salt))
  }

  /** PBKDF2 digests in this format verify, whatever the key derivation. */
  lemma HashVerifies(kdf: Kdf)
    ensures HashFits(KdfHash(kdf), KdfVerifier(kdf))
  {
    forall secret, salt
      ensures KdfHash(kdf)(secret, salt) != "" && KdfVerifier(kdf)(secret, KdfHash(kdf)(secret, salt))
    {
      DigestRoundTrip(Pbkdf2(ITERATIONS, salt, kdf(secret, salt, ITERATIONS)));
    }
  }

  lemma IterationsSpelled()
    ensures Decimal(ITERATIONS) == "310000"
  {
    assert Decimal(3) == "3" && Decimal(31) == "31" && Decimal(310) == "310" && Decimal(3100) == "3100";
    assert Decimal(31000) == "31000";
  }

  /** The digest of a secret, spelled out. */
  lemma HashSpelled(kdf: Kdf, secret: string, salt: seq<Byte>)
    ensures KdfHash(kdf)(secret, salt) ==
            "$pbkdf2-sha512$310000$" + Encode(salt) + "$" + Encode(kdf(secret, salt, 310000))
  {
    IterationsSpelled();
    assert "$" + SCHEME + "$" + Decimal(ITERATIONS) + "$" == "$pbkdf2-sha512$310000$";
  }

  /** A digest verifies exactly the secrets from which its parameters derive its key. */
  lemma VerifiesIff(kdf: Kdf, secret: string, n: nat, salt: seq<Byte>, key: seq<Byte>)
    ensures KdfVerifier(kdf)(secret, "$pbkdf2-sha512$" + Decimal(n) + "$" + Encode(salt) + "$" + Encode(key)) <==>
            kdf(secret, salt, n) == key
  {
    DigestRoundTrip(Pbkdf2(n, salt, key));
    assert "$" + SCHEME + "$" == "$pbkdf2-sha512$";
  }
}
