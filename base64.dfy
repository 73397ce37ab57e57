/**
 * The browser's `btoa` and `atob`, which the codec calls on the joined text.
 * `btoa` is Base64 as in section 4 of RFC 4648 (standard alphabet, `=` padding) over
 * the code units of a string, and throws when a code unit is above 0xFF. `atob` is
 * the forgiving decoder of the WHATWG Infra standard: ASCII whitespace is dropped,
 * one or two trailing `=` are dropped when the length is a multiple of four, and the
 * input is refused when one character is left over or a character is outside the
 * alphabet; left-over bits at the end are discarded.
 *
 * Both directions go through three layers: characters, 6-bit values and bytes.
 */
module Base64 {
  import opened Wrappers

  /** Every code unit fits in a byte (the strings `btoa` accepts). */
  predicate IsLatin1(s: string)
  {
    forall i :: 0 <= i < |s| ==> s[i] as int < 256
  }

  predicate IsBytes(b: seq<int>)
  {
    forall i :: 0 <= i < |b| ==> 0 <= b[i] < 256
  }

  predicate IsSextets(v: seq<int>)
  {
    forall i :: 0 <= i < |v| ==> 0 <= v[i] < 64
  }

  // ---------------------------------------------------------------------------
  // Characters and 6-bit values (table 1 of RFC 4648)

  /** The 6-bit value of an alphabet character; -1 for any other character. */
  function SextetValue(c: char): (n: int)
    ensures -1 <= n < 64
  {
    if 'A' <= c <= 'Z' then c as int - 65
    else if 'a' <= c <= 'z' then c as int - 71
    else if '0' <= c <= '9' then c as int + 4
    else if c == '+' then 62
    else if c == '/' then 63
    else -1
  }

  /** The alphabet character of a 6-bit value. */
  function SextetChar(n: int): (c: char)
    requires 0 <= n < 64
    ensures SextetValue(c) == n
  {
    if n < 26 then (65 + n) as char             // 'A'..'Z'
    else if n < 52 then (97 + n - 26) as char   // 'a'..'z'
    else if n < 62 then (48 + n - 52) as char   // '0'..'9'
    else if n == 62 then '+'
    else '/'
  }

  predicate InAlphabet(s: string)
  {
    forall i :: 0 <= i < |s| ==> SextetValue(s[i]) >= 0
  }

  function Chars(v: seq<int>): (s: string)
    requires IsSextets(v)
    ensures |s| == |v| && InAlphabet(s)
    ensures forall i :: 0 <= i < |v| ==> SextetValue(s[i]) == v[i]
  {
    seq(|v|, i requires 0 <= i < |v| => SextetChar(v[i]))
  }

  function SextetValues(s: string): (v: seq<int>)
    requires InAlphabet(s)
    ensures |v| == |s| && IsSextets(v)
  {
    seq(|s|, i requires 0 <= i < |s| => SextetValue(s[i]))
  }

  function CodeUnits(s: string): (b: seq<int>)
    ensures |b| == |s|
    ensures IsLatin1(s) ==> IsBytes(b)
  {
    seq(|s|, i requires 0 <= i < |s| => s[i] as int)
  }

  function FromBytes(b: seq<int>): (s: string)
    requires IsBytes(b)
    ensures |s| == |b| && IsLatin1(s)
  {
    seq(|b|, i requires 0 <= i < |b| => b[i] as char)
  }

  // ---------------------------------------------------------------------------
  // Bytes and 6-bit values

  // The 6-bit values of a group of bytes a, b, c: the top six bits of a; the low two
  // of a and the top four of b; the low four of b and the top two of c; the low six of c.
  function Sextet0(a: int): (r: int)
    requires 0 <= a < 256
    ensures 0 <= r < 64
  {
    a / 4
  }

  function Sextet1(a: int, b: int): (r: int)
    requires 0 <= a < 256 && 0 <= b < 256
    ensures 0 <= r < 64
  {
    (a % 4) * 16 + b / 16
  }

  function Sextet2(b: int, c: int): (r: int)
    requires 0 <= b < 256 && 0 <= c < 256
    ensures 0 <= r < 64
  {
    (b % 16) * 4 + c / 64
  }

  function Sextet3(c: int): (r: int)
    requires 0 <= c < 256
    ensures 0 <= r < 64
  {
    c % 64
  }

  // The bytes rebuilt from 6-bit values v0, v1, v2, v3.
  function Byte0(v0: int, v1: int): (r: int)
    requires 0 <= v0 < 64 && 0 <= v1 < 64
    ensures 0 <= r < 256
  {
    v0 * 4 + v1 / 16
  }

  function Byte1(v1: int, v2: int): (r: int)
    requires 0 <= v1 < 64 && 0 <= v2 < 64
    ensures 0 <= r < 256
  {
    (v1 % 16) * 16 + v2 / 4
  }

  function Byte2(v2: int, v3: int): (r: int)
    requires 0 <= v2 < 64 && 0 <= v3 < 64
    ensures 0 <= r < 256
  {
    (v2 % 4) * 64 + v3
  }

  /** Four 6-bit values per full group of three bytes, then two for a last single
      byte (its low bits padded with zeros) or three for a last pair of bytes. */
  function Encode(b: seq<int>): (v: seq<int>)
    requires IsBytes(b)
    ensures IsSextets(v)
    ensures |v| % 4 == (if |b| % 3 == 0 then 0 else |b| % 3 + 1)
    decreases |b|
  {
    if |b| == 0 then []
    else if |b| == 1 then [Sextet0(b[0]), Sextet1(b[0], 0)]
    else if |b| == 2 then [Sextet0(b[0]), Sextet1(b[0], b[1]), Sextet2(b[1], 0)]
    else
      var rest := Encode(b[3..]);
      EncodedLength(|b|, |rest|);
      [Sextet0(b[0]), Sextet1(b[0], b[1]), Sextet2(b[1], b[2]), Sextet3(b[2])] + rest
  }

  /** Three more bytes make four more values without changing either remainder. */
  lemma EncodedLength(n: nat, m: nat)
    requires n >= 3 && m % 4 == (if (n - 3) % 3 == 0 then 0 else (n - 3) % 3 + 1)
    ensures (4 + m) % 4 == (if n % 3 == 0 then 0 else n % 3 + 1)
  {
    assert (n - 3) % 3 == n % 3;
    assert (4 + m) % 4 == m % 4;
  }

  /** Three bytes per group of four 6-bit values, then one byte for two left-over
      values (12 bits, the last 4 dropped) or two for three (18 bits, the last 2
      dropped). */
  function Decode(v: seq<int>): (b: seq<int>)
    requires IsSextets(v) && |v| % 4 != 1
    ensures IsBytes(b)
    decreases |v|
  {
    if |v| == 0 then []
    else if |v| == 2 then [Byte0(v[0], v[1])]
    else if |v| == 3 then [Byte0(v[0], v[1]), Byte1(v[1], v[2])]
    else
      DecodeTail(v);
      [Byte0(v[0], v[1]), Byte1(v[1], v[2]), Byte2(v[2], v[3])] + Decode(v[4..])
  }

  /** What is left after a full group of four is again decodable. */
  lemma DecodeTail(v: seq<int>)
    requires IsSextets(v) && |v| % 4 != 1 && |v| != 0 && |v| != 2 && |v| != 3
    ensures |v| >= 4 && IsSextets(v[4..]) && |v[4..]| % 4 != 1
    ensures 0 <= v[0] < 64 && 0 <= v[1] < 64 && 0 <= v[2] < 64 && 0 <= v[3] < 64
  {
    assert |v| != 1;
    assert (|v| - 4) % 4 == |v| % 4;
    assert forall i :: 0 <= i < |v| - 4 ==> v[4..][i] == v[i + 4];
  }

  // ---------------------------------------------------------------------------
  // btoa and atob

  /** The `=` padding that completes the last group of four characters. */
  function Padding(n: nat): (p: string)
    ensures forall i :: 0 <= i < |p| ==> p[i] == '='
    ensures |p| <= 2
    ensures (n + |p|) % 3 == 0
  {
    if n % 3 == 1 then "==" else if n % 3 == 2 then "=" else ""
  }

  /** `btoa(s)`. */
  function Btoa(s: string): (r: Result<string, Exception>)
    ensures r.Success? <==> IsLatin1(s)
    ensures r.Failure? ==> r.error == InvalidCharacterError
    ensures r.Success? ==> |r.value| % 4 == 0
  {
    if IsLatin1(s) then Success(Chars(Encode(CodeUnits(s))) + Padding(|s|))
    else Failure(InvalidCharacterError)
  }

  /** The ASCII whitespace of the Infra standard: TAB, LF, FF, CR and SPACE. */
  predicate IsAsciiWhitespace(c: char)
  {
    c == '\t' || c == '\n' || c == '\U{C}' || c == '\r' || c == ' '
  }

  function RemoveWhitespace(s: string): (r: string)
    ensures forall i :: 0 <= i < |r| ==> !IsAsciiWhitespace(r[i])
    ensures forall c :: c in r <==> c in s && !IsAsciiWhitespace(c)
    ensures |s| == 1 ==> r == (if IsAsciiWhitespace(s[0]) then "" else s)
    decreases |s|
  {
    if |s| == 0 then ""
    else if IsAsciiWhitespace(s[0]) then RemoveWhitespace(s[1..])
    else [s[0]] + RemoveWhitespace(s[1..])
  }

  /** Whitespace removal works character by character, keeping the order of the rest. */
  lemma {:induction false} RemoveWhitespaceConcat(a: string, b: string)
    ensures RemoveWhitespace(a + b) == RemoveWhitespace(a) + RemoveWhitespace(b)
    decreases |a|
  {
    if |a| > 0 {
      assert (a + b)[0] == a[0];
      assert (a + b)[1..] == a[1..] + b;
      RemoveWhitespaceConcat(a[1..], b);
    } else {
      assert a + b == b;
    }
  }

  /** When the length is a multiple of four, drop a trailing `==` or `=`. */
  function StripPadding(s: string): (r: string)
    ensures r <= s && |s| - |r| <= 2
    ensures |s| % 4 != 0 ==> r == s
    ensures forall i :: |r| <= i < |s| ==> s[i] == '='
    ensures |s| % 4 == 0 && |s| >= 2 && s[|s| - 2] == '=' && s[|s| - 1] == '=' ==> |r| == |s| - 2
    ensures |s| % 4 == 0 && |s| >= 2 && s[|s| - 2] != '=' && s[|s| - 1] == '=' ==> |r| == |s| - 1
    ensures |s| % 4 == 0 && (|s| == 0 || s[|s| - 1] != '=') ==> r == s
  {
    if |s| % 4 != 0 then s
    else if |s| >= 2 && s[|s| - 2] == '=' && s[|s| - 1] == '=' then s[..|s| - 2]
    else if |s| >= 1 && s[|s| - 1] == '=' then s[..|s| - 1]
    else s
  }

  /** `atob(s)`. */
  function Atob(s: string): (r: Result<string, Exception>)
    ensures r.Failure? ==> r.error == InvalidCharacterError
    ensures r.Success? ==> IsLatin1(r.value)
    ensures r.Success? <==>
              (var d := StripPadding(RemoveWhitespace(s)); |d| % 4 != 1 && InAlphabet(d))
  {
    var d := StripPadding(RemoveWhitespace(s));
    if |d| % 4 == 1 || !InAlphabet(d) then Failure(InvalidCharacterError)
    else Success(FromBytes(Decode(SextetValues(d))))
  }

  // ---------------------------------------------------------------------------
  // Round trip

  lemma SextetBounds(a: int, b: int)
    requires 0 <= a < 256 && 0 <= b < 256
    ensures 0 <= Sextet0(a) < 64 && 0 <= Sextet1(a, b) < 64
    ensures 0 <= Sextet2(a, b) < 64 && 0 <= Sextet3(a) < 64
  {
  }

  // Rebuilding a byte from the 6-bit values that hold its bits gives back the byte.

  lemma Rebuild0(a: int, b: int)
    requires 0 <= a < 256 && 0 <= b < 256
    ensures Byte0(Sextet0(a), Sextet1(a, b)) == a
  {
  }

  lemma Rebuild1(a: int, b: int, c: int)
    requires 0 <= a < 256 && 0 <= b < 256 && 0 <= c < 256
    ensures Byte1(Sextet1(a, b), Sextet2(b, c)) == b
  {
    var hi, lo, top := b / 16, b % 16, c / 64;
    assert b == hi * 16 + lo;
    assert 0 <= hi < 16 && 0 <= top < 4;
    assert Sextet1(a, b) % 16 == hi by {
      assert Sextet1(a, b) == (a % 4) * 16 + hi;
    }
    assert Sextet2(b, c) / 4 == lo by {
      assert Sextet2(b, c) == lo * 4 + top;
    }
  }

  lemma Rebuild2(b: int, c: int)
    requires 0 <= b < 256 && 0 <= c < 256
    ensures Byte2(Sextet2(b, c), Sextet3(c)) == c
  {
    var top, low, mid := c / 64, c % 64, b % 16;
    assert c == top * 64 + low;
    assert 0 <= top < 4 && 0 <= mid < 16;
    assert Sextet2(b, c) % 4 == top by {
      assert Sextet2(b, c) == mid * 4 + top;
    }
  }

  /** Decoding distributes over a leading group of four 6-bit values. */
  lemma DecodeGroupThenRest(g: seq<int>, rest: seq<int>)
    requires |g| == 4 && IsSextets(g) && IsSextets(rest) && |rest| % 4 != 1
    ensures IsSextets(g + rest) && |g + rest| % 4 != 1
    ensures Decode(g + rest) == Decode(g) + Decode(rest)
  {
    var v := g + rest;
    assert v[4..] == rest;
    assert g[4..] == [];
    assert v[0] == g[0] && v[1] == g[1] && v[2] == g[2] && v[3] == g[3];
    assert Decode(g) == [Byte0(g[0], g[1]), Byte1(g[1], g[2]), Byte2(g[2], g[3])];
  }

  lemma OneByteRoundTrip(a: int)
    requires 0 <= a < 256
    ensures IsSextets([Sextet0(a), Sextet1(a, 0)])
    ensures Decode([Sextet0(a), Sextet1(a, 0)]) == [a]
  {
    SextetBounds(a, 0);
    Rebuild0(a, 0);
  }

  lemma TwoBytesRoundTrip(a: int, b: int)
    requires 0 <= a < 256 && 0 <= b < 256
    ensures IsSextets([Sextet0(a), Sextet1(a, b), Sextet2(b, 0)])
    ensures Decode([Sextet0(a), Sextet1(a, b), Sextet2(b, 0)]) == [a, b]
  {
    SextetBounds(a, b);
    SextetBounds(b, 0);
    Rebuild0(a, b);
    Rebuild1(a, b, 0);
  }

  lemma ThreeBytesRoundTrip(a: int, b: int, c: int)
    requires 0 <= a < 256 && 0 <= b < 256 && 0 <= c < 256
    ensures var g := [Sextet0(a), Sextet1(a, b), Sextet2(b, c), Sextet3(c)];
            IsSextets(g) && Decode(g) == [a, b, c]
  {
    SextetBounds(a, b);
    SextetBounds(b, c);
    SextetBounds(c, 0);
    Rebuild0(a, b);
    Rebuild1(a, b, c);
    Rebuild2(b, c);
    var g := [Sextet0(a), Sextet1(a, b), Sextet2(b, c), Sextet3(c)];
    assert g[4..] == [];
  }

  /** Decoding the 6-bit values of some bytes gives back the bytes. */
  lemma {:induction false} EncodeRoundTrip(b: seq<int>)
    requires IsBytes(b)
    ensures Decode(Encode(b)) == b
    decreases |b|
  {
    if |b| == 1 {
      OneByteRoundTrip(b[0]);
      assert b == [b[0]];
    } else if |b| == 2 {
      TwoBytesRoundTrip(b[0], b[1]);
      assert b == [b[0], b[1]];
    } else if |b| >= 3 {
      EncodeRoundTrip(b[3..]);
      GroupRoundTrip(b);
    }
  }

  /** A leading group of three bytes survives the round trip when the rest does. */
  lemma GroupRoundTrip(b: seq<int>)
    requires IsBytes(b) && |b| >= 3 && Decode(Encode(b[3..])) == b[3..]
    ensures Decode(Encode(b)) == b
  {
    var g := [Sextet0(b[0]), Sextet1(b[0], b[1]), Sextet2(b[1], b[2]), Sextet3(b[2])];
    var rest := Encode(b[3..]);
    EncodeGroup(b);
    ThreeBytesRoundTrip(b[0], b[1], b[2]);
    DecodeGroupThenRest(g, rest);
    FirstThree(b);
  }

  lemma EncodeGroup(b: seq<int>)
    requires IsBytes(b) && |b| >= 3
    ensures Encode(b) ==
            [Sextet0(b[0]), Sextet1(b[0], b[1]), Sextet2(b[1], b[2]), Sextet3(b[2])] + Encode(b[3..])
  {
  }

  lemma FirstThree(b: seq<int>)
    requires |b| >= 3
    ensures b == [b[0], b[1], b[2]] + b[3..]
  {
  }

  lemma CharsRoundTrip(v: seq<int>)
    requires IsSextets(v)
    ensures SextetValues(Chars(v)) == v
  {
  }

  lemma BytesRoundTrip(s: string)
    requires IsLatin1(s)
    ensures FromBytes(CodeUnits(s)) == s
  {
    var t := FromBytes(CodeUnits(s));
    forall i | 0 <= i < |s| ensures t[i] == s[i] {
      assert (s[i] as int) as char == s[i];
    }
  }

  lemma NoWhitespaceUnchanged(s: string)
    requires forall i :: 0 <= i < |s| ==> !IsAsciiWhitespace(s[i])
    ensures RemoveWhitespace(s) == s
  {
    if |s| > 0 {
      NoWhitespaceUnchanged(s[1..]);
      assert s == [s[0]] + s[1..];
    }
  }

  /** The padding `btoa` appends is exactly what `atob` strips. */
  lemma StripBtoaPadding(d: string, n: nat)
    requires InAlphabet(d)
    requires |d| % 4 == (if n % 3 == 0 then 0 else n % 3 + 1)
    ensures StripPadding(d + Padding(n)) == d
  {
    var t := d + Padding(n);
    assert |d| > 0 ==> SextetValue(d[|d| - 1]) >= 0;
    if n % 3 == 1 {
      assert t[..|t| - 2] == d;
    } else if n % 3 == 2 {
      assert t[..|t| - 1] == d;
    }
  }

  /** `atob` undoes `btoa`: every string `btoa` accepts comes back unchanged. */
  lemma AtobBtoa(s: string)
    requires IsLatin1(s)
    ensures Btoa(s).Success? && Atob(Btoa(s).value) == Success(s)
  {
    var v := Encode(CodeUnits(s));
    var d := Chars(v);
    var t := d + Padding(|s|);
    assert Btoa(s).value == t;
    forall i | 0 <= i < |t| ensures !IsAsciiWhitespace(t[i]) {
      if i < |d| {
        assert SextetValue(t[i]) >= 0;
      } else {
        assert t[i] == '=';
      }
    }
    NoWhitespaceUnchanged(t);
    StripBtoaPadding(d, |s|);
    CharsRoundTrip(v);
    EncodeRoundTrip(CodeUnits(s));
    BytesRoundTrip(s);
  }
}
