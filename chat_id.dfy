/** The chat-id codec of lib/grok-utils.ts (`encodeChatId`, `decodeChatId`;
    the copies in route.ts and lib/utils.ts are the same code).  An upstream
    id becomes `chatcmpl-` followed by the base 64 text of the first 24
    bytes of its SHA-256 digest, with `+`, `/`, `=` written as `x`, `y`, `z`.
    Decoding undoes the substitution and reads the first 8 decoded bytes as
    a big-endian unsigned 64-bit number.  SHA-256 itself is a parameter. */
module ChatId {
  import opened Wrappers
  import opened Strings
  import opened Base64

  /** A SHA-256 digest: 32 bytes. */
  type Digest = d: seq<Byte> | |d| == 32 witness seq(32, k => 0)

  const Prefix: string := "chatcmpl-"

  /** The upstream id as the source receives it: a number or a string. */
  datatype GrokId = NumberId(n: int) | StringId(s: string)

  /** `String(grokId)`. */
  function IdString(id: GrokId): string {
    match id
    case NumberId(n) => DecimalString(n)
    case StringId(s) => s
  }

  predicate IsAlphanumeric(c: char) {
    ('A' <= c <= 'Z') || ('a' <= c <= 'z') || ('0' <= c <= '9')
  }

  /** The substitution of one character, as the three global replacements
      `+`→`x`, `/`→`y`, `=`→`z` apply it. */
  function CleanChar(c: char): char {
    if c == '+' then 'x' else if c == '/' then 'y' else if c == '=' then 'z' else c
  }

  /** The reverse substitution `x`→`+`, `y`→`/`, `z`→`=`. */
  function RestoreChar(c: char): char {
    if c == 'x' then '+' else if c == 'y' then '/' else if c == 'z' then '=' else c
  }

  /** `b64Str.replace(/\+/g, "x").replace(/\//g, "y").replace(/=/g, "z")`:
      the three passes together replace each character on its own. */
  function CleanSymbols(b64: string): (r: string)
    ensures |r| == |b64|
    ensures forall k :: 0 <= k < |b64| ==> r[k] == CleanChar(b64[k])
  {
    ReplaceChar(ReplaceChar(ReplaceChar(b64, '+', 'x'), '/', 'y'), '=', 'z')
  }

  /** `b64Str.replace(/x/g, "+").replace(/y/g, "/").replace(/z/g, "=")`. */
  function RestoreSymbols(s: string): (r: string)
    ensures |r| == |s|
    ensures forall k :: 0 <= k < |s| ==> r[k] == RestoreChar(s[k])
  {
    ReplaceChar(ReplaceChar(ReplaceChar(s, 'x', '+'), 'y', '/'), 'z', '=')
  }

  /** The base 64 text of the first 24 digest bytes: 32 characters, every
      one in the alphabet, so there is no `=` padding. */
  function DigestText(digest: Digest): (b64: string)
    ensures |b64| == 32
    ensures forall k :: 0 <= k < 32 ==> IsAlphabetChar(b64[k])
  {
    Encode(digest[..24])
  }

  /** `encodeChatId(grokId)`: the prefix, then exactly 32 letters and
      digits, which are the whole substituted base 64 text (`slice(0, 32)`
      cuts nothing off). */
  function EncodeChatId(sha256: string -> Digest, grokId: GrokId): (r: string)
    ensures |r| == |Prefix| + 32 && r[..|Prefix|] == Prefix
    ensures forall k :: |Prefix| <= k < |r| ==> IsAlphanumeric(r[k])
    ensures r[|Prefix|..] == CleanSymbols(DigestText(sha256(IdString(grokId))))
  {
    var b64 := DigestText(sha256(IdString(grokId)));
    var clean := CleanSymbols(b64);
    assert clean[..32] == clean;
    Prefix + clean[..32]
  }

  /** The encoding depends on `String(grokId)` only: a number and its
      decimal text give the same chat id. */
  lemma EncodeNumberAsText(sha256: string -> Digest, n: int)
    ensures EncodeChatId(sha256, NumberId(n)) == EncodeChatId(sha256, StringId(DecimalString(n)))
  {
  }

  function Pow256(k: nat): (p: nat)
    ensures p > 0
  {
    if k == 0 then 1 else 256 * Pow256(k - 1)
  }

  /** `readBigUInt64BE` over the given bytes: the unsigned big-endian value,
      below 256 to the number of bytes. */
  function BigEndian(b: seq<Byte>): (n: nat)
    ensures n < Pow256(|b|)
  {
    if |b| == 0 then 0
    else
      var high := BigEndian(b[..|b| - 1]);
      assert high * 256 <= (Pow256(|b| - 1) - 1) * 256;
      high * 256 + b[|b| - 1]
  }

  const TwoTo64: nat := 0x1_0000_0000_0000_0000

  /** What follows the prefix: restore the symbols, add `==`, decode, and
      read the first 8 bytes; `None` wherever the source's `try` would catch
      an exception. */
  function DecodePayload(b64: string): (r: Option<nat>)
    ensures r.Some? ==> r.value < TwoTo64
  {
    match Decode(RestoreSymbols(b64) + "==")
    case None => None
    case Some(bytes) =>
      if |bytes| < 8 then None
      else
        assert Pow256(8) == TwoTo64;
        Some(BigEndian(bytes[..8]))
  }

  /** `decodeChatId(openaiId)`: never fails, it answers `None` instead, and
      any value it returns fits in an unsigned 64-bit integer. */
  function DecodeChatId(openaiId: string): (r: Option<nat>)
    ensures r.Some? ==> r.value < TwoTo64
  {
    DecodePayload(RemoveFirst(openaiId, Prefix))
  }

  /** Only the first `chatcmpl-` is removed: an id that starts with the
      prefix decodes the rest as it is, later copies of the prefix included. */
  lemma DecodeStripsFirstPrefixOnly(t: string)
    ensures DecodeChatId(Prefix + t) == DecodePayload(t)
  {
    RemoveFirstOfPrefix(Prefix, t);
  }

  /** A second copy of the prefix is not removed, and the strict decoder
      fails on its `-`, so such an id does not decode. */
  lemma DoublePrefixFails(u: string)
    ensures DecodeChatId(Prefix + Prefix + u).None?
  {
    var t := Prefix + u;
    assert Prefix + Prefix + u == Prefix + t;
    DecodeStripsFirstPrefixOnly(t);
    assert t[8] == '-';
    HyphenFails(t, 8);
  }

  /** The strict decoder fails on a `-` after the prefix. */
  lemma HyphenFails(b64: string, k: nat)
    requires k < |b64| && b64[k] == '-'
    ensures DecodePayload(b64).None?
  {
    var s := RestoreSymbols(b64) + "==";
    assert s[k] == RestoreChar(b64[k]);
    NonAlphabetFails(s, k);
  }

  /** Fewer than 11 characters after the prefix cannot give the 8 bytes
      that `readBigUInt64BE(0)` reads, so decoding fails. */
  lemma ShortPayloadFails(b64: string)
    requires |b64| < 11
    ensures DecodePayload(b64).None?
  {
    var fixed := RestoreSymbols(b64);
    StripPaddingAppend(fixed, "==");
    assert |StripPadding(fixed + "==")| <= |fixed|;
  }

  /** The reverse substitution undoes the substitution exactly when the
      base 64 text had no `x`, `y` or `z` of its own. */
  lemma RestoreCleanIff(b64: string)
    ensures RestoreSymbols(CleanSymbols(b64)) == b64 <==>
      forall k :: 0 <= k < |b64| ==> b64[k] != 'x' && b64[k] != 'y' && b64[k] != 'z'
  {
    var back := RestoreSymbols(CleanSymbols(b64));
    if back == b64 {
      forall k | 0 <= k < |b64| ensures b64[k] != 'x' && b64[k] != 'y' && b64[k] != 'z' {
        assert back[k] == RestoreChar(CleanChar(b64[k]));
      }
    }
  }

  /** Padding added after complete base 64 text is ignored. */
  lemma DecodeWithAddedPadding(b64: string)
    requires |b64| > 0 && b64[|b64| - 1] != '='
    ensures Decode(b64 + "==") == Decode(b64)
  {
    StripPaddingOf(b64, "==");
    StripPaddingOf(b64, "");
    assert b64 + "" == b64;
  }

  /** `m` splits `b` into a part without `z` and a trailing run of `z`,
      which the reverse substitution turns into trailing `=`. */
  predicate ZRunFrom(b: string, m: nat) {
    && m <= |b|
    && (forall k :: 0 <= k < m ==> b[k] != 'z')
    && (forall k :: m <= k < |b| ==> b[k] == 'z')
  }

  /** When the chat id of a digest text decodes to the digest's first 8
      bytes: none of the 11 characters those bytes are read from is an `x`
      or a `y` (which come back as `+` and `/`), and every `z` (which comes
      back as `=`) stands in a trailing run short enough to leave a
      decodable text of at least 11 characters. */
  predicate RoundTrips(b: string) {
    && (forall k :: 0 <= k < 11 && k < |b| ==> b[k] != 'x' && b[k] != 'y')
    && exists m: nat :: 11 <= m <= |b| && ZRunFrom(b, m) && m % 4 != 1
  }

  /** Round trip: decoding an encoded chat id gives the big-endian value of
      the first 8 digest bytes exactly when the digest text `RoundTrips`;
      the upstream id itself is not recoverable, since it went through the
      hash. */
  lemma DecodeEncodeChatId(sha256: string -> Digest, grokId: GrokId)
    ensures DecodeChatId(EncodeChatId(sha256, grokId)) == Some(BigEndian(sha256(IdString(grokId))[..8]))
        <==> RoundTrips(DigestText(sha256(IdString(grokId))))
  {
    var digest := sha256(IdString(grokId));
    var id := EncodeChatId(sha256, grokId);
    assert id == Prefix + CleanSymbols(DigestText(digest));
    DecodeStripsFirstPrefixOnly(CleanSymbols(DigestText(digest)));
    DecodeCleanDigestText(digest);
  }

  /** In particular a digest text without `x`, `y` and `z` round-trips. */
  lemma NoSymbolsRoundTrip(b: string)
    requires |b| == 32
    requires forall k :: 0 <= k < |b| ==> b[k] != 'x' && b[k] != 'y' && b[k] != 'z'
    ensures RoundTrips(b)
  {
    assert ZRunFrom(b, 32);
  }

  /** The substituted digest text decodes to the first 8 digest bytes
      exactly when it `RoundTrips`. */
  lemma DecodeCleanDigestText(digest: Digest)
    ensures DecodePayload(CleanSymbols(DigestText(digest))) == Some(BigEndian(digest[..8]))
        <==> RoundTrips(DigestText(digest))
  {
    var b := DigestText(digest);
    var r := RestoreSymbols(CleanSymbols(b));
    assert forall k :: 0 <= k < 32 ==> r[k] == RestoreChar(CleanChar(b[k]));
    StripPaddingAppend(r, "==");
    DigestSextets(digest);
    if RoundTrips(b) {
      RoundTripsDecodes(digest, b, r);
    }
    if DecodePayload(CleanSymbols(b)) == Some(BigEndian(digest[..8])) {
      DecodesRoundTrips(digest, b, r);
    }
  }

  /** The sextets of the digest text decode to the 24 digest bytes, and
      their first 11 give its first 8. */
  lemma DigestSextets(digest: Digest)
    ensures forall k :: 0 <= k < 32 ==> IsAlphabetChar(DigestText(digest)[k])
    ensures DecodeSextets(Values(DigestText(digest))) == Some(digest[..24])
    ensures First8(Values(DigestText(digest))) == digest[..8]
  {
    var b := DigestText(digest);
    DecodeEncode(digest[..24]);
    StripPaddingOf(b, "");
    assert b + "" == b;
    DecodeSextetsFirst8(Values(b));
    assert digest[..24][..8] == digest[..8];
  }

  lemma RoundTripsDecodes(digest: Digest, b: string, r: string)
    requires b == DigestText(digest) && r == RestoreSymbols(CleanSymbols(b)) && RoundTrips(b)
    requires forall k :: 0 <= k < 32 ==> r[k] == RestoreChar(CleanChar(b[k]))
    requires StripPadding(r + "==") == StripPadding(r)
    requires forall k :: 0 <= k < 32 ==> IsAlphabetChar(b[k])
    requires First8(Values(b)) == digest[..8]
    ensures DecodePayload(CleanSymbols(b)) == Some(BigEndian(digest[..8]))
  {
    var m: nat :| 11 <= m <= |b| && ZRunFrom(b, m) && m % 4 != 1;
    ZRunStripped(b, r, m);
    var t := r[..m];
    var w := Values(t);
    DecodeSextetsLength(w);
    var bytes := DecodeSextets(w).value;
    assert Decode(r + "==") == Some(bytes);
    DecodeSextetsFirst8(w);
    SameFirstSextets(b, r, m);
  }

  /** Before the run of `z` the restored text is base 64; the run itself
      is padding. */
  lemma ZRunStripped(b: string, r: string, m: nat)
    requires |b| == 32 && |r| == 32 && 0 < m && ZRunFrom(b, m)
    requires forall k :: 0 <= k < 32 ==> r[k] == RestoreChar(CleanChar(b[k]))
    requires forall k :: 0 <= k < 32 ==> IsAlphabetChar(b[k])
    ensures StripPadding(r) == r[..m]
    ensures forall k :: 0 <= k < m ==> IsAlphabetChar(r[..m][k])
  {
    assert r == r[..m] + r[m..];
    StripPaddingOf(r[..m], r[m..]);
  }

  lemma SameFirstSextets(b: string, r: string, m: nat)
    requires |b| == 32 && |r| == 32 && 11 <= m <= 32 && RoundTrips(b) && ZRunFrom(b, m)
    requires forall k :: 0 <= k < 32 ==> r[k] == RestoreChar(CleanChar(b[k]))
    requires forall k :: 0 <= k < 32 ==> IsAlphabetChar(b[k])
    requires forall k :: 0 <= k < m ==> IsAlphabetChar(r[..m][k])
    ensures First8(Values(r[..m])) == First8(Values(b))
  {
    var w, v := Values(r[..m]), Values(b);
    forall k | 0 <= k < 11 ensures w[k] == v[k] {
      assert r[..m][k] == b[k];
    }
  }

  lemma DecodesRoundTrips(digest: Digest, b: string, r: string)
    requires b == DigestText(digest) && r == RestoreSymbols(CleanSymbols(b))
    requires forall k :: 0 <= k < 32 ==> r[k] == RestoreChar(CleanChar(b[k]))
    requires StripPadding(r + "==") == StripPadding(r)
    requires forall k :: 0 <= k < 32 ==> IsAlphabetChar(b[k])
    requires First8(Values(b)) == digest[..8]
    requires DecodePayload(CleanSymbols(b)) == Some(BigEndian(digest[..8]))
    ensures RoundTrips(b)
  {
    var bytes := Decode(r + "==").value;
    var t := StripPadding(r);
    assert 11 <= |t| && |t| % 4 != 1;
    StrippedZRun(b, r);
    var w := Values(t);
    assert bytes == DecodeSextets(w).value;
    DecodeSextetsFirst8(w);
    BigEndianInjective(bytes[..8], digest[..8]);
    First8Injective(w, Values(b));
    EarlySymbolsKept(b, r, t);
  }

  /** Where the restored text decodes, its trailing padding is exactly
      the restored run of `z`. */
  lemma StrippedZRun(b: string, r: string)
    requires |b| == 32 && |r| == 32
    requires forall k :: 0 <= k < 32 ==> r[k] == RestoreChar(CleanChar(b[k]))
    requires forall k :: 0 <= k < 32 ==> IsAlphabetChar(b[k])
    requires forall k :: 0 <= k < |StripPadding(r)| ==> IsAlphabetChar(StripPadding(r)[k])
    ensures ZRunFrom(b, |StripPadding(r)|)
  {
    var t := StripPadding(r);
    forall k | 0 <= k < |t| ensures b[k] != 'z' {
      assert t[k] == r[k];
    }
  }

  /** Sextets that agree as far as the first 8 bytes read them come from
      characters that are not `x` or `y`. */
  lemma EarlySymbolsKept(b: string, r: string, t: string)
    requires |b| == 32 && |r| == 32 && 11 <= |t| <= 32 && t == r[..|t|]
    requires forall k :: 0 <= k < 32 ==> r[k] == RestoreChar(CleanChar(b[k]))
    requires forall k :: 0 <= k < 32 ==> IsAlphabetChar(b[k])
    requires forall k :: 0 <= k < |t| ==> IsAlphabetChar(t[k])
    requires forall k :: 0 <= k < 10 ==> Values(t)[k] == Values(b)[k]
    requires Values(t)[10] / 4 == Values(b)[10] / 4
    ensures forall k :: 0 <= k < 11 ==> b[k] != 'x' && b[k] != 'y'
  {
    forall k | 0 <= k < 11 ensures b[k] != 'x' && b[k] != 'y' {
      assert t[k] == RestoreChar(CleanChar(b[k]));
    }
  }

  /** Different bytes of one length read as different numbers. */
  lemma {:induction false} BigEndianInjective(a: seq<Byte>, b: seq<Byte>)
    requires |a| == |b| && BigEndian(a) == BigEndian(b)
    ensures a == b
    decreases |a|
  {
    if |a| > 0 {
      var n := |a| - 1;
      var x, y := BigEndian(a[..n]), BigEndian(b[..n]);
      assert BigEndian(a) == x * 256 + a[n] && BigEndian(b) == y * 256 + b[n];
      assert a[n] == b[n] && x == y;
      BigEndianInjective(a[..n], b[..n]);
      assert a == a[..n] + [a[n]] && b == b[..n] + [b[n]];
    }
  }

  /** The digest text with the padding the decoder adds decodes to the 24
      digest bytes it encodes. */
  lemma DigestTextDecodes(digest: Digest)
    ensures Decode(DigestText(digest) + "==") == Some(digest[..24])
  {
    var b64 := DigestText(digest);
    assert IsAlphabetChar(b64[31]);
    DecodeWithAddedPadding(b64);
    DecodeEncode(digest[..24]);
  }
}
