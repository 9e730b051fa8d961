/** Unpadded base64url (section 5 of RFC 4648), as the refresh-token generator uses it. */
module Base64Url {
  import opened Schema

  type Byte = b: nat | b < 256
  type Sextet = v: nat | v < 64

  const REFRESH_TOKEN_BYTES: nat := 32

  function Symbol(v: Sextet): char {
    if v < 26 then ('A' as int + v) as char
    else if v < 52 then ('a' as int + (v - 26)) as char
    else if v < 62 then ('0' as int + (v - 52)) as char
    else if v == 62 then '-'
    else '_'
  }

  function SymbolValue(c: char): Option<Sextet> {
    if 'A' <= c <= 'Z' then Some(c as int - 'A' as int)
    else if 'a' <= c <= 'z' then Some(c as int - 'a' as int + 26)
    else if '0' <= c <= '9' then Some(c as int - '0' as int + 52)
    else if c == '-' then Some(62)
    else if c == '_' then Some(63)
    else None
  }

  /** The sextets of one group of one, two or three bytes; missing bytes count as zero bits. */
  function GroupSextets(b: seq<Byte>): seq<Sextet>
    requires 1 <= |b| <= 3
  {
    var y: nat, z: nat := if |b| > 1 then b[1] else 0, if |b| > 2 then b[2] else 0;
    [FirstSextet(b[0]), SecondSextet(b[0], y)]
    + (if |b| >= 2 then [ThirdSextet(y, z)] else [])
    + (if |b| == 3 then [FourthSextet(z)] else [])
  }

  function FirstSextet(x: nat): Sextet
    requires x < 256
  {
    x / 4
  }

  function SecondSextet(x: nat, y: nat): Sextet
    requires x < 256 && y < 256
  {
    x % 4 * 16 + y / 16
  }

  function ThirdSextet(y: nat, z: nat): Sextet
    requires y < 256 && z < 256
  {
    y % 16 * 4 + z / 64
  }

  function FourthSextet(z: nat): Sextet
    requires z < 256
  {
    z % 64
  }

  function Symbols(v: seq<Sextet>): string {
    seq(|v|, i requires 0 <= i < |v| => Symbol(v[i]))
  }

  function Encode(b: seq<Byte>): string {
    if |b| == 0 then ""
    else if |b| <= 3 then Symbols(GroupSextets(b))
    else Symbols(GroupSextets(b[..3])) + Encode(b[3..])
  }

  function FirstByte(a: nat, b: nat): Byte
    requires a < 64 && b < 64
  {
    a * 4 + b / 16
  }

  function SecondByte(b: nat, c: nat): Byte
    requires b < 64 && c < 64
  {
    b % 16 * 16 + c / 4
  }

  function ThirdByte(c: nat, d: nat): Byte
    requires c < 64 && d < 64
  {
    c % 4 * 64 + d
  }

  /** The bytes of one group of two, three or four sextets. */
  function GroupBytes(v: seq<Sextet>): (r: seq<Byte>)
    requires 2 <= |v| <= 4
    ensures |r| == |v| - 1 && r[0] == FirstByte(v[0], v[1])
    ensures |v| >= 3 ==> r[1] == SecondByte(v[1], v[2])
    ensures |v| == 4 ==> r[2] == ThirdByte(v[2], v[3])
  {
    [FirstByte(v[0], v[1])]
    + (if |v| >= 3 then [SecondByte(v[1], v[2])] else [])
    + (if |v| == 4 then [ThirdByte(v[2], v[3])] else [])
  }

  function DecodeGroup(s: string): Option<seq<Byte>>
    requires 2 <= |s| <= 4
  {
    if exists c | c in s :: SymbolValue(c).None? then None
    else Some(GroupBytes(seq(|s|, i requires 0 <= i < |s| => SymbolValue(s[i]).value)))
  }

  /** The inverse reading: four symbols give three bytes, a short last group one or two. */
  function Decode(s: string): Option<seq<Byte>> {
    if |s| == 0 then Some([])
    else if |s| == 1 then None
    else if |s| <= 4 then DecodeGroup(s)
    else
      var group := DecodeGroup(s[..4]);
      var rest := Decode(s[4..]);
      if group.Some? && rest.Some? then Some(group.value + rest.value) else None
  }

  /** The generator: 32 random bytes, or the error of the random source. */
  function GenerateRefreshToken(entropy: Option<seq<Byte>>): Option<string> {
    if entropy.None? then None else Some(Encode(entropy.value))
  }

  // ---------- what the encoding is for ----------

  lemma Repack(x: nat, y: nat, z: nat)
    requires x < 256 && y < 256 && z < 256
    ensures FirstByte(FirstSextet(x), SecondSextet(x, y)) == x
    ensures SecondByte(SecondSextet(x, y), ThirdSextet(y, z)) == y
    ensures ThirdByte(ThirdSextet(y, z), FourthSextet(z)) == z
  {
  }

  lemma DecodeSymbols(v: seq<Sextet>)
    requires 2 <= |v| <= 4
    ensures DecodeGroup(Symbols(v)) == Some(GroupBytes(v))
  {
    var s := Symbols(v);
    assert v == seq(|s|, i requires 0 <= i < |s| => SymbolValue(s[i]).value);
  }

  lemma OneByte(x: Byte)
    ensures GroupBytes(GroupSextets([x])) == [x]
  {
  }

  lemma TwoBytes(x: Byte, y: Byte)
    ensures GroupBytes(GroupSextets([x, y])) == [x, y]
  {
  }

  lemma ThreeBytes(x: Byte, y: Byte, z: Byte)
    ensures GroupBytes(GroupSextets([x, y, z])) == [x, y, z]
  {
    Repack(x, y, z);
  }

  lemma GroupRoundTrip(b: seq<Byte>)
    requires 1 <= |b| <= 3
    ensures DecodeGroup(Symbols(GroupSextets(b))) == Some(b)
  {
    DecodeSymbols(GroupSextets(b));
    if |b| == 1 {
      OneByte(b[0]);
      assert b == [b[0]];
    } else if |b| == 2 {
      TwoBytes(b[0], b[1]);
      assert b == [b[0], b[1]];
    } else {
      ThreeBytes(b[0], b[1], b[2]);
      assert b == [b[0], b[1], b[2]];
    }
  }

  /** Decoding gives back every byte sequence, so nothing is lost in the cookie. */
  lemma {:induction false} RoundTrip(b: seq<Byte>)
    ensures Decode(Encode(b)) == Some(b)
  {
    if 1 <= |b| <= 3 {
      GroupRoundTrip(b);
    } else if |b| > 3 {
      GroupRoundTrip(b[..3]);
      RoundTrip(b[3..]);
      Length(b[3..]);
      assert Encode(b)[..4] == Symbols(GroupSextets(b[..3]));
      assert Encode(b)[4..] == Encode(b[3..]);
      assert b[..3] + b[3..] == b;
    }
  }

  /** Distinct byte sequences give distinct tokens. */
  lemma Injective(a: seq<Byte>, b: seq<Byte>)
    requires Encode(a) == Encode(b)
    ensures a == b
  {
    RoundTrip(a);
    RoundTrip(b);
  }

  /** ceil(4n/3) characters: 43 for a refresh token. */
  lemma {:induction false} Length(b: seq<Byte>)
    ensures |Encode(b)| == (4 * |b| + 2) / 3
  {
    if |b| > 3 {
      Length(b[3..]);
    }
  }

  /** The alphabet, in order: Table 2 of RFC 4648. */
  lemma SymbolTable(v: nat)
    requires v < 63
    ensures Symbol(0) == 'A' && Symbol(25) == 'Z' && Symbol(26) == 'a' && Symbol(51) == 'z'
    ensures Symbol(52) == '0' && Symbol(61) == '9' && Symbol(62) == '-' && Symbol(63) == '_'
    ensures v != 25 && v != 51 && v < 61 ==> Symbol(v + 1) as int == Symbol(v) as int + 1
  {
  }

  /** The 24 bits of a whole group, first byte first, are those of its sextets, first sextet first. */
  lemma GroupKeepsBits(x: Byte, y: Byte, z: Byte)
    ensures
      var v := GroupSextets([x, y, z]);
      && |v| == 4
      && x as int * 65536 + y as int * 256 + z as int
         == v[0] as int * 262144 + v[1] as int * 4096 + v[2] as int * 64 + v[3] as int
  {
  }

  /** A short last group is filled up with zero bits. */
  lemma ShortGroupKeepsBits(x: Byte, y: Byte)
    ensures
      var v := GroupSextets([x]);
      |v| == 2 && x as int * 16 == v[0] as int * 64 + v[1] as int
    ensures
      var v := GroupSextets([x, y]);
      |v| == 3 && (x as int * 256 + y as int) * 4 == v[0] as int * 4096 + v[1] as int * 64 + v[2] as int
  {
  }

  predicate UrlSafe(c: char) {
    'A' <= c <= 'Z' || 'a' <= c <= 'z' || '0' <= c <= '9' || c == '-' || c == '_'
  }

  /** cookie-octet, section 4.1.1 of RFC 6265. */
  predicate CookieOctet(c: char) {
    var n := c as int;
    n == 0x21 || 0x23 <= n <= 0x2B || 0x2D <= n <= 0x3A || 0x3C <= n <= 0x5B || 0x5D <= n <= 0x7E
  }

  lemma {:induction false} Alphabet(b: seq<Byte>)
    ensures forall c | c in Encode(b) :: UrlSafe(c) && CookieOctet(c)
  {
    if |b| > 3 {
      Alphabet(b[3..]);
    }
  }

  /** What the cookie and the token's freshness rest on: a token is non-empty, 43 characters
      that a cookie carries unchanged, and it repeats only if the random bytes repeat. */
  lemma GeneratedTokens(e: seq<Byte>, f: seq<Byte>)
    requires |e| == |f| == REFRESH_TOKEN_BYTES
    ensures |GenerateRefreshToken(Some(e)).value| == 43
    ensures forall c | c in GenerateRefreshToken(Some(e)).value :: CookieOctet(c)
    ensures GenerateRefreshToken(Some(e)) == GenerateRefreshToken(Some(f)) <==> e == f
  {
    Length(e);
    Alphabet(e);
    if Encode(e) == Encode(f) {
      Injective(e, f);
    }
  }
}
