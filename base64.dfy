/** Base 64 text as defined in section 4 of RFC 4648 (alphabet `A`-`Z`,
    `a`-`z`, `0`-`9`, `+`, `/`, padding `=`), the codec behind Node's
    `Buffer.toString("base64")` and `Buffer.from(text, "base64")`.
    Decoding here is strict about the alphabet and tolerant about padding:
    any run of trailing `=` is dropped, and any other character outside the
    alphabet is a failure. */
module Base64 {
  import opened Wrappers

  type Byte = x: int | 0 <= x < 256
  type Sextet = x: int | 0 <= x < 64

  predicate IsAlphabetChar(c: char) {
    ('A' <= c <= 'Z') || ('a' <= c <= 'z') || ('0' <= c <= '9') || c == '+' || c == '/'
  }

  /** The character that stands for a 6-bit value (Table 1 of RFC 4648). */
  function CharOf(v: Sextet): (c: char)
    ensures IsAlphabetChar(c)
  {
    if v < 26 then ('A' as int + v) as char
    else if v < 52 then ('a' as int + (v - 26)) as char
    else if v < 62 then ('0' as int + (v - 52)) as char
    else if v == 62 then '+'
    else '/'
  }

  /** The 6-bit value a character of the alphabet stands for. */
  function ValueOf(c: char): (v: Sextet)
    requires IsAlphabetChar(c)
    ensures CharOf(v) == c
  {
    if 'A' <= c <= 'Z' then c as int - 'A' as int
    else if 'a' <= c <= 'z' then c as int - 'a' as int + 26
    else if '0' <= c <= '9' then c as int - '0' as int + 52
    else if c == '+' then 62
    else 63
  }

  lemma ValueOfCharOf(v: Sextet)
    ensures ValueOf(CharOf(v)) == v
  {
  }

  /** Every 3 bytes become 4 sextets; a final 1 or 2 bytes become 2 or 3
      sextets, the unused low bits being zero. */
  function EncodeSextets(b: seq<Byte>): (v: seq<Sextet>)
    ensures |v| == (|b| * 4 + 2) / 3
  {
    if |b| == 0 then []
    else if |b| == 1 then [b[0] / 4, (b[0] % 4) * 16]
    else if |b| == 2 then [b[0] / 4, (b[0] % 4) * 16 + b[1] / 16, (b[1] % 16) * 4]
    else [b[0] / 4, (b[0] % 4) * 16 + b[1] / 16, (b[1] % 16) * 4 + b[2] / 64, b[2] % 64]
         + EncodeSextets(b[3..])
  }

  function Chars(v: seq<Sextet>): (s: string)
    ensures |s| == |v|
    ensures forall k :: 0 <= k < |v| ==> s[k] == CharOf(v[k])
  {
    seq(|v|, k requires 0 <= k < |v| => CharOf(v[k]))
  }

  /** The `=` characters that complete the last group of 4. */
  function Padding(byteCount: nat): string {
    if byteCount % 3 == 1 then "==" else if byteCount % 3 == 2 then "=" else ""
  }

  /** Padded base 64 text of `b`: 4 characters for every 3 bytes started;
      when `|b|` is a multiple of 3 there is no padding and every character
      is in the alphabet. */
  function Encode(b: seq<Byte>): (s: string)
    ensures |s| == (|b| + 2) / 3 * 4
    ensures |b| % 3 == 0 ==> forall k :: 0 <= k < |s| ==> IsAlphabetChar(s[k])
  {
    EncodedLength(|b|);
    Chars(EncodeSextets(b)) + Padding(|b|)
  }

  /** The sextet count plus the padding fills whole groups of 4. */
  lemma EncodedLength(n: nat)
    ensures (n * 4 + 2) / 3 + |Padding(n)| == (n + 2) / 3 * 4
  {
    var q := n / 3;
    assert n == 3 * q + n % 3;
    if n % 3 == 0 {
      assert n * 4 + 2 == 3 * (4 * q) + 2 && n + 2 == 3 * q + 2;
    } else if n % 3 == 1 {
      assert n * 4 + 2 == 3 * (4 * q + 2) && n + 2 == 3 * (q + 1);
    } else {
      assert n * 4 + 2 == 3 * (4 * q + 3) + 1 && n + 2 == 3 * (q + 1) + 1;
    }
  }

  /** Drops the run of `=` at the end. */
  function StripPadding(s: string): (t: string)
    ensures |t| <= |s| && t == s[..|t|]
    ensures forall k :: |t| <= k < |s| ==> s[k] == '='
    ensures |t| > 0 ==> t[|t| - 1] != '='
  {
    if |s| > 0 && s[|s| - 1] == '=' then StripPadding(s[..|s| - 1]) else s
  }

  function Values(t: string): (v: seq<Sextet>)
    requires forall k :: 0 <= k < |t| ==> IsAlphabetChar(t[k])
    ensures |v| == |t|
    ensures forall k :: 0 <= k < |t| ==> v[k] == ValueOf(t[k])
  {
    seq(|t|, k requires 0 <= k < |t| => ValueOf(t[k]))
  }

  /** The three bytes that four sextets `a b c d` stand for. */
  function Byte0(a: Sextet, b: Sextet): Byte { a as int * 4 + b as int / 16 }
  function Byte1(b: Sextet, c: Sextet): Byte { (b as int % 16) * 16 + c as int / 4 }
  function Byte2(c: Sextet, d: Sextet): Byte { (c as int % 4) * 64 + d as int }

  /** Groups of 4 sextets give 3 bytes; a final group of 2 or 3 gives 1 or
      2 bytes; a final single sextet cannot stand for a byte. */
  function DecodeSextets(v: seq<Sextet>): Option<seq<Byte>>
  {
    if |v| == 0 then Some([])
    else if |v| == 1 then None
    else if |v| == 2 then Some([Byte0(v[0], v[1])])
    else if |v| == 3 then Some([Byte0(v[0], v[1]), Byte1(v[1], v[2])])
    else
      match DecodeSextets(v[4..])
      case None => None
      case Some(rest) => Some([Byte0(v[0], v[1]), Byte1(v[1], v[2]), Byte2(v[2], v[3])] + rest)
  }

  /** Decoding fails exactly when a single sextet is left over, and
      otherwise gives 3 bytes for every 4 sextets, rounded down: the byte
      count is the largest whose 8 bits each fit in the 6 of each sextet. */
  lemma {:induction false} DecodeSextetsLength(v: seq<Sextet>)
    ensures DecodeSextets(v).Some? <==> |v| % 4 != 1
    ensures DecodeSextets(v).Some? ==>
      4 * |DecodeSextets(v).value| <= 3 * |v| < 4 * |DecodeSextets(v).value| + 4
    decreases |v|
  {
    if |v| >= 4 {
      DecodeSextetsLength(v[4..]);
      assert |v| % 4 == |v[4..]| % 4;
    }
  }

  /** The first 8 bytes that 11 or more sextets stand for: they depend on
      the first 10 sextets and the high 4 bits of the 11th only. */
  function First8(v: seq<Sextet>): seq<Byte>
    requires |v| >= 11
  {
    [Byte0(v[0], v[1]), Byte1(v[1], v[2]), Byte2(v[2], v[3]),
     Byte0(v[4], v[5]), Byte1(v[5], v[6]), Byte2(v[6], v[7]),
     Byte0(v[8], v[9]), Byte1(v[9], v[10])]
  }

  /** Decoding 11 or more sextets gives at least 8 bytes, and the first 8
      are read off the first 11 sextets. */
  lemma DecodeSextetsFirst8(v: seq<Sextet>)
    requires |v| >= 11 && DecodeSextets(v).Some?
    ensures |DecodeSextets(v).value| >= 8 && DecodeSextets(v).value[..8] == First8(v)
  {
    var w := v[4..];
    var u := w[4..];
    assert DecodeSextets(w).Some? && DecodeSextets(u).Some?;
    var r2 := DecodeSextets(u).value;
    assert |r2| >= 2 && r2[..2] == [Byte0(u[0], u[1]), Byte1(u[1], u[2])];
    var r1 := DecodeSextets(w).value;
    assert r1 == [Byte0(w[0], w[1]), Byte1(w[1], w[2]), Byte2(w[2], w[3])] + r2;
    assert DecodeSextets(v).value == [Byte0(v[0], v[1]), Byte1(v[1], v[2]), Byte2(v[2], v[3])] + r1;
  }

  /** The bytes give back the sextets they were read from. */
  lemma Byte0Parts(a: Sextet, b: Sextet, a': Sextet, b': Sextet)
    requires Byte0(a, b) == Byte0(a', b')
    ensures a == a' && b / 16 == b' / 16
  {
    assert Byte0(a, b) / 4 == a && Byte0(a, b) % 4 == b / 16;
    assert Byte0(a', b') / 4 == a' && Byte0(a', b') % 4 == b' / 16;
  }

  lemma Byte1Parts(b: Sextet, c: Sextet, b': Sextet, c': Sextet)
    requires Byte1(b, c) == Byte1(b', c')
    ensures b % 16 == b' % 16 && c / 4 == c' / 4
  {
    assert Byte1(b, c) / 16 == b % 16 && Byte1(b, c) % 16 == c / 4;
    assert Byte1(b', c') / 16 == b' % 16 && Byte1(b', c') % 16 == c' / 4;
  }

  lemma Byte2Parts(c: Sextet, d: Sextet, c': Sextet, d': Sextet)
    requires Byte2(c, d) == Byte2(c', d')
    ensures c % 4 == c' % 4 && d == d'
  {
    assert Byte2(c, d) / 64 == c % 4 && Byte2(c, d) % 64 == d;
    assert Byte2(c', d') / 64 == c' % 4 && Byte2(c', d') % 64 == d';
  }

  /** Equal first 8 bytes come from equal first 10 sextets and 11th
      sextets that agree in their high 4 bits. */
  lemma First8Injective(v: seq<Sextet>, w: seq<Sextet>)
    requires |v| >= 11 && |w| >= 11 && First8(v) == First8(w)
    ensures forall k :: 0 <= k < 10 ==> v[k] == w[k]
    ensures v[10] / 4 == w[10] / 4
  {
    var f, g := First8(v), First8(w);
    assert f[0] == g[0] && f[1] == g[1] && f[2] == g[2] && f[3] == g[3];
    assert f[4] == g[4] && f[5] == g[5] && f[6] == g[6] && f[7] == g[7];
    Byte0Parts(v[0], v[1], w[0], w[1]);
    Byte1Parts(v[1], v[2], w[1], w[2]);
    Byte2Parts(v[2], v[3], w[2], w[3]);
    Byte0Parts(v[4], v[5], w[4], w[5]);
    Byte1Parts(v[5], v[6], w[5], w[6]);
    Byte2Parts(v[6], v[7], w[6], w[7]);
    Byte0Parts(v[8], v[9], w[8], w[9]);
    Byte1Parts(v[9], v[10], w[9], w[10]);
    SameSextet(v[1], w[1], 16);
    SameSextet(v[2], w[2], 4);
    SameSextet(v[5], w[5], 16);
    SameSextet(v[6], w[6], 4);
    SameSextet(v[9], w[9], 16);
  }

  lemma SameSextet(x: Sextet, y: Sextet, m: int)
    requires m == 4 || m == 16
    requires x / m == y / m && x % m == y % m
    ensures x == y
  {
    if m == 4 {
      assert x == 4 * (x / 4) + x % 4 && y == 4 * (y / 4) + y % 4;
    } else {
      assert x == 16 * (x / 16) + x % 16 && y == 16 * (y / 16) + y % 16;
    }
  }

  /** `Buffer.from(s, "base64")`, restricted to text that is base 64 apart
      from its trailing padding. */
  function Decode(s: string): (r: Option<seq<Byte>>)
    ensures r.Some? <==>
      (forall k :: 0 <= k < |StripPadding(s)| ==> IsAlphabetChar(StripPadding(s)[k])) &&
      |StripPadding(s)| % 4 != 1
    ensures r.Some? ==> 4 * |r.value| <= 3 * |StripPadding(s)| < 4 * |r.value| + 4
  {
    var t := StripPadding(s);
    if forall k :: 0 <= k < |t| ==> IsAlphabetChar(t[k]) then
      DecodeSextetsLength(Values(t));
      DecodeSextets(Values(t))
    else None
  }

  /** A character outside the alphabet that is not `=` makes the strict
      decoder fail, wherever it is. */
  lemma NonAlphabetFails(s: string, k: nat)
    requires k < |s| && !IsAlphabetChar(s[k]) && s[k] != '='
    ensures Decode(s).None?
  {
    var t := StripPadding(s);
    assert k < |t| && t[k] == s[k];
  }

  lemma {:induction false} DecodeEncodeSextets(b: seq<Byte>)
    ensures DecodeSextets(EncodeSextets(b)) == Some(b)
    decreases |b|
  {
    var v := EncodeSextets(b);
    if |b| == 1 {
      assert Byte0(v[0], v[1]) == b[0];
      assert b == [b[0]];
    } else if |b| == 2 {
      assert Byte0(v[0], v[1]) == b[0];
      assert Byte1(v[1], v[2]) == b[1];
      assert b == [b[0], b[1]];
    } else if |b| >= 3 {
      DecodeEncodeSextets(b[3..]);
      assert v[4..] == EncodeSextets(b[3..]);
      assert Byte0(v[0], v[1]) == b[0];
      assert Byte1(v[1], v[2]) == b[1];
      assert Byte2(v[2], v[3]) == b[2];
      assert b == [b[0], b[1], b[2]] + b[3..];
    }
  }

  /** Decoding undoes encoding, for every byte sequence. */
  lemma DecodeEncode(b: seq<Byte>)
    ensures Decode(Encode(b)) == Some(b)
  {
    var v := EncodeSextets(b);
    var chars := Chars(v);
    var s := Encode(b);
    StripPaddingOf(chars, Padding(|b|));
    assert StripPadding(s) == chars;
    forall k | 0 <= k < |v| ensures Values(chars)[k] == v[k] {
      ValueOfCharOf(v[k]);
    }
    assert Values(chars) == v;
    DecodeEncodeSextets(b);
  }

  /** Trailing padding is dropped, and nothing else is, when the text
      before it does not end in `=`. */
  lemma StripPaddingOf(t: string, pad: string)
    requires forall k :: 0 <= k < |pad| ==> pad[k] == '='
    requires |t| > 0 ==> t[|t| - 1] != '='
    ensures StripPadding(t + pad) == t
    decreases |pad|
  {
    if |pad| > 0 {
      assert (t + pad)[..|t + pad| - 1] == t + pad[..|pad| - 1];
      StripPaddingOf(t, pad[..|pad| - 1]);
    } else {
      assert t + pad == t;
    }
  }

  /** Appending `=` characters never changes what decodes. */
  lemma StripPaddingAppend(s: string, pad: string)
    requires forall k :: 0 <= k < |pad| ==> pad[k] == '='
    ensures StripPadding(s + pad) == StripPadding(s)
    decreases |pad|
  {
    if |pad| > 0 {
      assert (s + pad)[..|s + pad| - 1] == s + pad[..|pad| - 1];
      StripPaddingAppend(s, pad[..|pad| - 1]);
    } else {
      assert s + pad == s;
    }
  }
}
