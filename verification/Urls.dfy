/** URL assembly: `join_url_path` of `src/config.rs`, and `urlencoding_lite` and
    `actions_url` of `src/client.rs`, on UTF-8 bytes. */
module Urls {
  import opened Text

  const SLASH: byte := 0x2F
  const QUESTION: byte := 0x3F
  const AMP: byte := 0x26
  const EQUALS: byte := 0x3D
  const PERCENT: byte := 0x25

  // ----- join_url_path -----

  /** `trim_end_matches('/')` */
  function TrimEnd(s: text): text {
    if s != [] && s[|s| - 1] == SLASH then TrimEnd(s[..|s| - 1]) else s
  }

  predicate StartsWithSlash(s: text) {
    s != [] && s[0] == SLASH
  }

  function JoinUrlPath(base: text, path: text): text {
    if base == [] then
      if path == [] then []
      else if StartsWithSlash(path) then path
      else [SLASH] + path
    else if path == [] then TrimEnd(base)
    else if StartsWithSlash(path) then TrimEnd(base) + path
    else TrimEnd(base) + [SLASH] + path
  }

  /** A path with one slash in front, unless it is empty or has one. */
  function Rooted(path: text): text {
    if path == [] || StartsWithSlash(path) then path else [SLASH] + path
  }

  lemma JoinIsTrimRoot(base: text, path: text)
    ensures JoinUrlPath(base, path) == TrimEnd(base) + Rooted(path)
  {
  }

  /** The slashes at the end of the base are dropped, and a path that does not
      start with a slash gets exactly one in front; the empty path adds nothing. */
  lemma JoinShape(base: text, path: text)
    ensures JoinUrlPath(base, path)
         == TrimEnd(base) + (if path == [] || path[0] == 0x2F then path else [0x2F] + path)
  {
    JoinIsTrimRoot(base, path);
  }

  /** Trimming sees only the last part that is not all slashes. */
  lemma {:induction false} TrimConcat(a: text, b: text)
    ensures TrimEnd(a + b) == if TrimEnd(b) == [] then TrimEnd(a) else a + TrimEnd(b)
  {
    if b == [] {
      assert a + b == a;
    } else if b[|b| - 1] == SLASH {
      TrimConcat(a, b[..|b| - 1]);
      assert (a + b)[..|a + b| - 1] == a + b[..|b| - 1];
    }
  }

  /** Exactly the slashes at the end are trimmed. */
  lemma {:induction false} TrimKeepsHead(s: text)
    ensures TrimEnd(s) <= s
    ensures TrimEnd(s) != [] ==> TrimEnd(s)[|TrimEnd(s)| - 1] != 0x2F
    ensures forall i :: |TrimEnd(s)| <= i < |s| ==> s[i] == 0x2F
  {
    if s != [] && s[|s| - 1] == SLASH {
      TrimKeepsHead(s[..|s| - 1]);
    }
  }

  lemma {:induction false} TrimTwice(s: text)
    ensures TrimEnd(TrimEnd(s)) == TrimEnd(s)
  {
    if s != [] && s[|s| - 1] == SLASH {
      TrimTwice(s[..|s| - 1]);
    }
  }

  lemma TrimRooted(path: text)
    ensures TrimEnd(Rooted(path)) == Rooted(TrimEnd(path))
  {
    TrimKeepsHead(path);
    if path != [] && !StartsWithSlash(path) {
      TrimConcat([SLASH], path);
      assert TrimEnd([SLASH]) == [];
      if TrimEnd(path) == [] {
        AllSlashes(path);
      }
    }
  }

  /** A text that is trimmed away starts with a slash. */
  lemma {:induction false} AllSlashes(s: text)
    requires s != [] && TrimEnd(s) == []
    ensures StartsWithSlash(s)
  {
    if |s| > 1 {
      AllSlashes(s[..|s| - 1]);
    }
  }

  lemma RootedAppend(path: text, q: text)
    requires q == [] || StartsWithSlash(q)
    ensures Rooted(path + q) == Rooted(path) + q
  {
    if path == [] {
      assert path + q == q;
    } else if !StartsWithSlash(path) {
      assert [SLASH] + (path + q) == [SLASH] + path + q;
    }
  }

  lemma TrimJoined(base: text, path: text)
    ensures TrimEnd(TrimEnd(base) + Rooted(path)) == TrimEnd(base) + Rooted(TrimEnd(path))
  {
    TrimConcat(TrimEnd(base), Rooted(path));
    TrimTwice(base);
    TrimRooted(path);
    if Rooted(TrimEnd(path)) == [] {
      assert TrimEnd(base) + Rooted(TrimEnd(path)) == TrimEnd(base);
    }
  }

  lemma JoinLeft(base: text, path: text, more: text)
    ensures JoinUrlPath(JoinUrlPath(base, path), more)
         == TrimEnd(base) + Rooted(TrimEnd(path)) + Rooted(more)
  {
    JoinIsTrimRoot(base, path);
    JoinIsTrimRoot(JoinUrlPath(base, path), more);
    TrimJoined(base, path);
  }

  lemma JoinRight(base: text, path: text, more: text)
    ensures JoinUrlPath(base, JoinUrlPath(path, more))
         == TrimEnd(base) + (Rooted(TrimEnd(path)) + Rooted(more))
  {
    JoinIsTrimRoot(path, more);
    JoinIsTrimRoot(base, JoinUrlPath(path, more));
    RootedAppend(TrimEnd(path), Rooted(more));
  }

  /** Joining is associative on all texts, empty and all-slash ones included. */
  lemma JoinAssociative(base: text, path: text, more: text)
    ensures JoinUrlPath(JoinUrlPath(base, path), more) == JoinUrlPath(base, JoinUrlPath(path, more))
  {
    JoinLeft(base, path, more);
    JoinRight(base, path, more);
    Associate(TrimEnd(base), Rooted(TrimEnd(path)), Rooted(more));
  }

  // ----- Percent-encoding -----

  /** The unreserved characters of section 2.3 of RFC 3986. */
  predicate Unreserved(b: byte) {
    || 0x41 <= b <= 0x5A || 0x61 <= b <= 0x7A || 0x30 <= b <= 0x39
    || b == 0x2D || b == 0x5F || b == 0x2E || b == 0x7E
  }

  /** An upper-case hexadecimal digit. */
  function HexDigit(n: byte): byte {
    if n < 10 then 0x30 + n else 0x37 + n
  }

  predicate IsHexDigit(c: byte) {
    0x30 <= c <= 0x39 || 0x41 <= c <= 0x46 || 0x61 <= c <= 0x66
  }

  function HexValue(c: byte): byte
    requires IsHexDigit(c)
  {
    if c <= 0x39 then c - 0x30 else if c <= 0x46 then c - 0x37 else c - 0x57
  }

  function EncodeByte(b: byte): text {
    if Unreserved(b) then [b] else [PERCENT, HexDigit(b >> 4), HexDigit(b & 15)]
  }

  function Encode(s: text): text {
    if s == [] then [] else Encode(s[..|s| - 1]) + EncodeByte(s[|s| - 1])
  }

  /** Byte by byte: letters, digits and `-_.~` stand for themselves, and any other
      byte becomes a percent sign and its two upper-case hexadecimal digits. */
  lemma EncodeSnocIs(s: text, b: byte)
    ensures Encode([]) == []
    ensures
      var plain := 0x41 <= b <= 0x5A || 0x61 <= b <= 0x7A || 0x30 <= b <= 0x39
                   || b == 0x2D || b == 0x2E || b == 0x5F || b == 0x7E;
      var (hi, lo) := (b >> 4, b & 15);
      Encode(s + [b]) == Encode(s) + if plain then [b]
                                     else [0x25, if hi < 10 then 0x30 + hi else 0x41 + (hi - 10),
                                           if lo < 10 then 0x30 + lo else 0x41 + (lo - 10)]
  {
    assert (s + [b])[..|s|] == s;
    HexDigitIs(b >> 4);
    HexDigitIs(b & 15);
  }

  lemma HexDigitIs(n: byte)
    requires n < 16
    ensures HexDigit(n) == if n < 10 then 0x30 + n else 0x41 + (n - 10)
  {
  }

  /** A text of letters, digits and `-_.~` is its own encoding. */
  lemma {:induction false} PlainEncodes(s: text)
    requires forall b <- s ::
               || 0x41 <= b <= 0x5A || 0x61 <= b <= 0x7A || 0x30 <= b <= 0x39
               || b == 0x2D || b == 0x2E || b == 0x5F || b == 0x7E
    ensures Encode(s) == s
  {
    if s != [] {
      var init, last := s[..|s| - 1], s[|s| - 1];
      assert s == init + [last] && last in s;
      assert forall b <- init :: b in s;
      PlainEncodes(init);
      EncodeSnocIs(init, last);
    }
  }

  /** `urlencoding_lite` */
  method UrlencodingLite(s: text) returns (out: text)
    ensures out == Encode(s)
  {
    out := [];
    for i := 0 to |s|
      invariant out == Encode(s[..i])
    {
      var b := s[i];
      if Unreserved(b) {
        out := out + [b];
      } else {
        out := out + [PERCENT, HexDigit(b >> 4), HexDigit(b & 15)];
      }
      assert s[..i + 1][..i] == s[..i];
    }
    assert s[..|s|] == s;
  }

  /** The reference decoder of section 2.1 of RFC 3986; a percent sign without
      two hexadecimal digits stands for itself. */
  function PercentDecode(s: text): text {
    if s == [] then []
    else if |s| >= 3 && s[0] == PERCENT && IsHexDigit(s[1]) && IsHexDigit(s[2]) then
      [(HexValue(s[1]) << 4) | HexValue(s[2])] + PercentDecode(s[3..])
    else [s[0]] + PercentDecode(s[1..])
  }

  lemma HexRoundTrip(b: byte)
    ensures IsHexDigit(HexDigit(b >> 4)) && IsHexDigit(HexDigit(b & 15))
    ensures (HexValue(HexDigit(b >> 4)) << 4) | HexValue(HexDigit(b & 15)) == b
  {
  }

  lemma EncodedByteDecodes(b: byte, rest: text)
    ensures PercentDecode(EncodeByte(b) + rest) == [b] + PercentDecode(rest)
  {
    var s := EncodeByte(b) + rest;
    if Unreserved(b) {
      assert s[1..] == rest && s[0] == b;
    } else {
      HexRoundTrip(b);
      assert s[3..] == rest && s[0] == PERCENT && s[1] == HexDigit(b >> 4) && s[2] == HexDigit(b & 15);
    }
  }

  lemma EncodeSnoc(s: text, rest: text)
    requires s != []
    ensures Encode(s) + rest == Encode(s[..|s| - 1]) + (EncodeByte(s[|s| - 1]) + rest)
  {
    Associate(Encode(s[..|s| - 1]), EncodeByte(s[|s| - 1]), rest);
  }

  lemma {:induction false} EncodedDecodes(s: text, rest: text)
    ensures PercentDecode(Encode(s) + rest) == s + PercentDecode(rest)
  {
    if s == [] {
      assert Encode(s) + rest == rest;
    } else {
      var init, b := s[..|s| - 1], s[|s| - 1];
      EncodeSnoc(s, rest);
      EncodedDecodes(init, EncodeByte(b) + rest);
      EncodedByteDecodes(b, rest);
      Associate(init, [b], PercentDecode(rest));
      assert init + [b] == s;
    }
  }

  /** Decoding undoes encoding, so encoding is injective. */
  lemma EncodeRoundTrip(s: text)
    ensures PercentDecode(Encode(s)) == s
  {
    EncodedDecodes(s, []);
    assert Encode(s) + [] == Encode(s);
  }

  lemma EncodeInjective(s: text, t: text)
    requires Encode(s) == Encode(t)
    ensures s == t
  {
    EncodeRoundTrip(s);
    EncodeRoundTrip(t);
  }

  /** The output is unreserved characters and %HH triplets with upper-case digits. */
  predicate WellEncoded(s: text) {
    || s == []
    || ((0x41 <= s[0] <= 0x5A || 0x61 <= s[0] <= 0x7A || 0x30 <= s[0] <= 0x39
         || s[0] == 0x2D || s[0] == 0x2E || s[0] == 0x5F || s[0] == 0x7E) && WellEncoded(s[1..]))
    || (|s| >= 3 && s[0] == 0x25 && UpperHex(s[1]) && UpperHex(s[2]) && WellEncoded(s[3..]))
  }

  predicate UpperHex(c: byte) {
    0x30 <= c <= 0x39 || 0x41 <= c <= 0x46
  }

  lemma HexDigitsUpper(b: byte)
    ensures UpperHex(HexDigit(b >> 4)) && UpperHex(HexDigit(b & 15))
  {
  }

  lemma {:induction false} WellEncodedAppend(s: text, t: text)
    requires WellEncoded(s) && WellEncoded(t)
    ensures WellEncoded(s + t)
    decreases |s|
  {
    if s == [] {
      assert s + t == t;
    } else if Unreserved(s[0]) && WellEncoded(s[1..]) {
      WellEncodedAppend(s[1..], t);
      assert (s + t)[1..] == s[1..] + t;
    } else {
      WellEncodedAppend(s[3..], t);
      assert (s + t)[3..] == s[3..] + t;
    }
  }

  lemma EncodedByteWellEncoded(b: byte)
    ensures WellEncoded(EncodeByte(b))
    ensures forall c <- EncodeByte(b) :: c != AMP && c != QUESTION && c != EQUALS
  {
    if Unreserved(b) {
      assert [b][1..] == [];
    } else {
      HexDigitsUpper(b);
      assert EncodeByte(b)[3..] == [];
    }
  }

  lemma {:induction false} EncodeWellEncoded(s: text)
    ensures WellEncoded(Encode(s))
    ensures 0x26 !in Encode(s) && 0x3F !in Encode(s) && 0x3D !in Encode(s)
  {
    if s != [] {
      EncodeWellEncoded(s[..|s| - 1]);
      EncodedByteWellEncoded(s[|s| - 1]);
      WellEncodedAppend(Encode(s[..|s| - 1]), EncodeByte(s[|s| - 1]));
    }
  }

  // ----- Queries -----

  type Pair = (text, text)

  /** "api-version" and "6.0-preview" */
  const KEY_API_VERSION: text := [0x61, 0x70, 0x69, 0x2D, 0x76, 0x65, 0x72, 0x73, 0x69, 0x6F, 0x6E]
  const API_VERSION: text := [0x36, 0x2E, 0x30, 0x2D, 0x70, 0x72, 0x65, 0x76, 0x69, 0x65, 0x77]

  function EncodePair(p: Pair): text {
    Encode(p.0) + [EQUALS] + Encode(p.1)
  }

  function EncodePairs(pairs: seq<Pair>): seq<text> {
    seq(|pairs|, i requires 0 <= i < |pairs| => EncodePair(pairs[i]))
  }

  function QueryString(pairs: seq<Pair>): text {
    Join(AMP, EncodePairs(pairs))
  }

  /** Pairs are `key=value`, encoded, with an `&` between them. */
  lemma QueryStringIs(pairs: seq<Pair>)
    requires pairs != []
    ensures
      var first := Encode(pairs[0].0) + [0x3D] + Encode(pairs[0].1);
      QueryString(pairs) == if |pairs| == 1 then first else first + [0x26] + QueryString(pairs[1..])
  {
    if |pairs| > 1 {
      assert EncodePairs(pairs)[1..] == EncodePairs(pairs[1..]);
    }
  }

  /** The reference parser: pairs are separated by `&`, key and value by the first `=`. */
  function ParsePair(segment: text): Pair {
    var parts := Split(EQUALS, segment);
    (PercentDecode(parts[0]), PercentDecode(Join(EQUALS, parts[1..])))
  }

  /** The pairs of one segment: none when it is empty. */
  function ParseOne(segment: text): seq<Pair> {
    if segment == [] then [] else [ParsePair(segment)]
  }

  function ParseSegments(segments: seq<text>): seq<Pair> {
    if segments == [] then []
    else ParseOne(segments[0]) + ParseSegments(segments[1..])
  }

  function ParseQuery(query: text): seq<Pair> {
    ParseSegments(Split(AMP, query))
  }

  /** Everything up to the first `?`, and everything after it. */
  function BeforeQuery(url: text): text {
    Split(QUESTION, url)[0]
  }

  function QueryOf(url: text): text {
    Join(QUESTION, Split(QUESTION, url)[1..])
  }

  predicate HasQuery(url: text) {
    QUESTION in url
  }

  predicate Contains(s: text, pattern: text) {
    exists i :: 0 <= i <= |s| && pattern <= s[i..]
  }

  predicate HasKey(pairs: seq<Pair>, key: text) {
    exists p <- pairs :: p.0 == key
  }

  /** `retain(|(k, _)| k != key)` */
  function WithoutKey(pairs: seq<Pair>, key: text): seq<Pair> {
    if pairs == [] then []
    else
      var last := pairs[|pairs| - 1];
      WithoutKey(pairs[..|pairs| - 1], key) + (if last.0 == key then [] else [last])
  }

  /** The positions of the pairs with other keys, in order. */
  function KeptAt(pairs: seq<Pair>, key: text): seq<nat> {
    if pairs == [] then []
    else
      var n := |pairs| - 1;
      KeptAt(pairs[..n], key) + (if pairs[n].0 == key then [] else [n])
  }

  /** What is kept, is kept in order: exactly the pairs with other keys. */
  lemma {:induction false} WithoutKeyIsStable(pairs: seq<Pair>, key: text)
    ensures
      var at := KeptAt(pairs, key);
      && |at| == |WithoutKey(pairs, key)|
      && (forall i :: 0 <= i < |at| ==>
            at[i] < |pairs| && pairs[at[i]].0 != key && WithoutKey(pairs, key)[i] == pairs[at[i]])
      && (forall i, j :: 0 <= i < j < |at| ==> at[i] < at[j])
      && (forall p :: 0 <= p < |pairs| && pairs[p].0 != key ==> p in at)
  {
    if pairs != [] {
      WithoutKeyIsStable(pairs[..|pairs| - 1], key);
    }
  }

  lemma WithoutKeySnoc(pairs: seq<Pair>, p: Pair, key: text)
    ensures WithoutKey(pairs + [p], key) == WithoutKey(pairs, key) + (if p.0 == key then [] else [p])
  {
    assert (pairs + [p])[..|pairs|] == pairs;
  }

  /** The pairs that `actions_url` appends to an assembled URL. */
  function AppendedPairs(assembled: text, extra: seq<Pair>): seq<Pair> {
    var pairs := if HasKey(extra, KEY_API_VERSION) then extra else extra + [(KEY_API_VERSION, API_VERSION)];
    if HasQuery(assembled) && Contains(QueryOf(assembled), KEY_API_VERSION + [EQUALS]) then
      WithoutKey(pairs, KEY_API_VERSION)
    else pairs
  }

  function Separator(assembled: text): text {
    if !HasQuery(assembled) then [QUESTION]
    else if assembled[|assembled| - 1] != QUESTION && assembled[|assembled| - 1] != AMP then [AMP]
    else []
  }

  function ActionsUrlOf(base: text, path: text, extra: seq<Pair>): text {
    var assembled := JoinUrlPath(base, path);
    var pairs := AppendedPairs(assembled, extra);
    if pairs == [] then assembled else assembled + Separator(assembled) + QueryString(pairs)
  }

  method JoinPairs(pairs: seq<Pair>) returns (qs: text)
    ensures qs == QueryString(pairs)
  {
    var segments: seq<text> := [];
    for i := 0 to |pairs|
      invariant segments == EncodePairs(pairs[..i])
    {
      var k := UrlencodingLite(pairs[i].0);
      var v := UrlencodingLite(pairs[i].1);
      segments := segments + [k + [EQUALS] + v];
      assert pairs[..i + 1] == pairs[..i] + [pairs[i]];
    }
    assert pairs[..|pairs|] == pairs;
    qs := Join(AMP, segments);
  }

  /** The first half of `actions_url`: the pairs to append. */
  method QueryPairs(assembled: text, extra: seq<Pair>) returns (pairs: seq<Pair>)
    ensures pairs == AppendedPairs(assembled, extra)
  {
    pairs := extra;
    if !HasKey(pairs, KEY_API_VERSION) {
      pairs := pairs + [(KEY_API_VERSION, API_VERSION)];
    }
    if HasQuery(assembled) {
      var existing := QueryOf(assembled);
      if Contains(existing, KEY_API_VERSION + [EQUALS]) {
        pairs := WithoutKey(pairs, KEY_API_VERSION);
      }
    }
  }

  /** `actions_url`, once the admin token with its service address `base` is there. */
  method ActionsUrl(base: text, path: text, extra: seq<Pair>) returns (assembled: text)
    ensures assembled == ActionsUrlOf(base, path, extra)
  {
    assembled := JoinUrlPath(base, path);
    var pairs := QueryPairs(assembled, extra);
    if pairs != [] {
      ghost var separator := Separator(assembled);
      if !HasQuery(assembled) {
        assembled := assembled + [QUESTION];
      } else if assembled[|assembled| - 1] != QUESTION && assembled[|assembled| - 1] != AMP {
        assembled := assembled + [AMP];
      }
      assert assembled == JoinUrlPath(base, path) + separator;
      var qs := JoinPairs(pairs);
      assembled := assembled + qs;
    }
  }

  // ----- Round trip -----

  lemma EncodedPairShape(p: Pair)
    ensures EncodePair(p) != [] && AMP !in EncodePair(p) && QUESTION !in EncodePair(p)
    ensures Split(EQUALS, EncodePair(p)) == [Encode(p.0), Encode(p.1)]
  {
    EncodeWellEncoded(p.0);
    EncodeWellEncoded(p.1);
    SplitWithoutSep(EQUALS, Encode(p.0));
    SplitWithoutSep(EQUALS, Encode(p.1));
    SplitConcat(EQUALS, Encode(p.0), Encode(p.1));
  }

  lemma EncodedPairParses(p: Pair)
    ensures ParsePair(EncodePair(p)) == p
  {
    EncodedPairShape(p);
    assert [Encode(p.0), Encode(p.1)][1..] == [Encode(p.1)];
    EncodeRoundTrip(p.0);
    EncodeRoundTrip(p.1);
  }

  lemma {:induction false} EncodedSegmentsParse(pairs: seq<Pair>)
    ensures ParseSegments(EncodePairs(pairs)) == pairs
  {
    if pairs != [] {
      EncodedPairParses(pairs[0]);
      EncodedPairShape(pairs[0]);
      EncodedSegmentsParse(pairs[1..]);
      assert EncodePairs(pairs)[1..] == EncodePairs(pairs[1..]);
      assert [pairs[0]] + pairs[1..] == pairs;
    }
  }

  lemma AssociatePairs(a: seq<Pair>, b: seq<Pair>, c: seq<Pair>)
    ensures a + b + c == a + (b + c)
  {
  }

  lemma {:induction false} ParseAppend(x: seq<text>, y: seq<text>)
    ensures ParseSegments(x + y) == ParseSegments(x) + ParseSegments(y)
  {
    if x == [] {
      assert x + y == y;
    } else {
      ParseAppend(x[1..], y);
      assert (x + y)[1..] == x[1..] + y && (x + y)[0] == x[0];
      AssociatePairs(ParseOne(x[0]), ParseSegments(x[1..]), ParseSegments(y));
    }
  }

  /** Non-empty lists of pairs survive encoding, joining, splitting and parsing. */
  lemma QueryStringParses(pairs: seq<Pair>)
    requires pairs != []
    ensures Split(AMP, QueryString(pairs)) == EncodePairs(pairs)
    ensures ParseQuery(QueryString(pairs)) == pairs
  {
    forall s | s in EncodePairs(pairs)
      ensures AMP !in s
    {
      var i :| 0 <= i < |pairs| && s == EncodePair(pairs[i]);
      EncodedPairShape(pairs[i]);
    }
    JoinSplits(AMP, EncodePairs(pairs));
    EncodedSegmentsParse(pairs);
  }

  /** The text after the first `?` is the query, and appending extends it. */
  lemma QueryOfCut(h: text, t: text)
    requires QUESTION !in h
    ensures BeforeQuery(h + [QUESTION] + t) == h && QueryOf(h + [QUESTION] + t) == t
  {
    SplitWithoutSep(QUESTION, h);
    SplitConcat(QUESTION, h, t);
    SplitJoins(QUESTION, t);
    assert ([h] + Split(QUESTION, t))[1..] == Split(QUESTION, t);
  }

  lemma CutAtQuery(url: text)
    requires HasQuery(url)
    ensures QUESTION !in BeforeQuery(url)
    ensures url == BeforeQuery(url) + [QUESTION] + QueryOf(url)
  {
    SplitJoins(QUESTION, url);
  }

  lemma NoQueryInJoin(base: text, path: text)
    requires QUESTION !in base && QUESTION !in path
    ensures QUESTION !in JoinUrlPath(base, path)
  {
    JoinIsTrimRoot(base, path);
    TrimKeepsHead(base);
  }

  /** The plain case, byte for byte: `?api-version=6.0-preview` is appended. */
  lemma DefaultUrl(base: text, path: text)
    requires 0x3F !in base && 0x3F !in path
    ensures ActionsUrlOf(base, path, [])
         == JoinUrlPath(base, path)
            + [0x3F, 0x61, 0x70, 0x69, 0x2D, 0x76, 0x65, 0x72, 0x73, 0x69, 0x6F, 0x6E,
               0x3D, 0x36, 0x2E, 0x30, 0x2D, 0x70, 0x72, 0x65, 0x76, 0x69, 0x65, 0x77]
  {
    FreshQueryRoundTrip(base, path, []);
    AppendedToNone();
    DefaultQuery();
    DefaultBytes();
    Associate(JoinUrlPath(base, path), [0x3F], QueryString([(KEY_API_VERSION, API_VERSION)]));
  }

  lemma AppendedToNone()
    ensures
      var none: seq<Pair> := [];
      !(exists p <- none :: p.0 == KEY_API_VERSION)
      && none + [(KEY_API_VERSION, API_VERSION)] == [(KEY_API_VERSION, API_VERSION)]
  {
  }

  lemma DefaultBytes()
    ensures [0x3F] + (KEY_API_VERSION + [0x3D] + API_VERSION)
         == [0x3F, 0x61, 0x70, 0x69, 0x2D, 0x76, 0x65, 0x72, 0x73, 0x69, 0x6F, 0x6E,
             0x3D, 0x36, 0x2E, 0x30, 0x2D, 0x70, 0x72, 0x65, 0x76, 0x69, 0x65, 0x77]
  {
  }

  lemma KeyIsPlain()
    ensures Encode(KEY_API_VERSION) == KEY_API_VERSION
  {
    PlainEncodes(KEY_API_VERSION);
  }

  lemma VersionIsPlain()
    ensures Encode(API_VERSION) == API_VERSION
  {
    PlainEncodes(API_VERSION);
  }

  lemma DefaultQuery()
    ensures QueryString([(KEY_API_VERSION, API_VERSION)]) == KEY_API_VERSION + [0x3D] + API_VERSION
  {
    KeyIsPlain();
    VersionIsPlain();
    QueryStringIs([(KEY_API_VERSION, API_VERSION)]);
  }

  /** On a base and a path without a query, parsing the result gives back exactly
      the given pairs, in order, and then one api-version if none was given. */
  lemma FreshQueryRoundTrip(base: text, path: text, extra: seq<Pair>)
    requires QUESTION !in base && QUESTION !in path
    ensures
      var url := ActionsUrlOf(base, path, extra);
      var pairs := if exists p <- extra :: p.0 == KEY_API_VERSION then extra
                   else extra + [(KEY_API_VERSION, API_VERSION)];
      && url == JoinUrlPath(base, path) + [0x3F] + QueryString(pairs)
      && BeforeQuery(url) == JoinUrlPath(base, path) && ParseQuery(QueryOf(url)) == pairs
  {
    NoQueryInJoin(base, path);
    var assembled := JoinUrlPath(base, path);
    var pairs := AppendedPairs(assembled, extra);
    QueryOfCut(assembled, QueryString(pairs));
    QueryStringParses(pairs);
  }

  lemma EmptyQuery()
    ensures ParseQuery([]) == []
  {
    var none: seq<text> := [[]];
    assert Split(AMP, []) == none && none[1..] == [];
  }

  lemma ParseAcrossAmp(a: text, b: text)
    ensures ParseQuery(a + [AMP] + b) == ParseQuery(a) + ParseQuery(b)
  {
    SplitConcat(AMP, a, b);
    ParseAppend(Split(AMP, a), Split(AMP, b));
  }

  /** The last segment of a text that does not end in the separator is not empty. */
  lemma LastSegment(sep: byte, s: text)
    requires s != [] && s[|s| - 1] != sep
    ensures var x := Split(sep, s); x[|x| - 1] != []
  {
    var init, c := s[..|s| - 1], s[|s| - 1];
    assert s == init + [c];
    SplitWithoutSep(sep, [c]);
    SplitAppend(sep, init, [c]);
  }

  /** Without a separator the first new pair runs into the last old one. */
  lemma GluedQueryLosesOne(a: text, b: text)
    requires a != [] && a[|a| - 1] != AMP && Split(AMP, b)[0] != []
    ensures |ParseQuery(a + b)| + 1 == |ParseQuery(a)| + |ParseQuery(b)|
  {
    LastSegment(AMP, a);
    SplitAppend(AMP, a, b);
    GlueLosesOne(Split(AMP, a), Split(AMP, b));
  }

  lemma GlueLosesOne(x: seq<text>, y: seq<text>)
    requires x != [] && y != [] && x[|x| - 1] != [] && y[0] != []
    ensures |ParseSegments(Glue(x, y))| + 1 == |ParseSegments(x)| + |ParseSegments(y)|
  {
    var n := |x| - 1;
    LengthOfThree(x[..n], x[n] + y[0], y[1..]);
    LengthOfThree(x[..n], x[n], []);
    LengthOfThree([], y[0], y[1..]);
    assert x[..n] + [x[n]] + [] == x;
    assert [] + [y[0]] + y[1..] == y;
  }

  lemma LengthOfThree(x: seq<text>, m: text, y: seq<text>)
    requires m != []
    ensures |ParseSegments(x + [m] + y)| == |ParseSegments(x)| + 1 + |ParseSegments(y)|
  {
    ParseAppend(x + [m], y);
    ParseAppend(x, [m]);
    assert ParseSegments([m]) == ParseOne(m) + ParseSegments([m][1..]);
  }

  /** Appending to a URL with a query appends to its query. */
  lemma AppendToQuery(url: text, added: text)
    requires HasQuery(url)
    ensures BeforeQuery(url + added) == BeforeQuery(url) && QueryOf(url + added) == QueryOf(url) + added
  {
    CutAtQuery(url);
    assert url + added == BeforeQuery(url) + [QUESTION] + (QueryOf(url) + added);
    QueryOfCut(BeforeQuery(url), QueryOf(url) + added);
  }

  lemma LastOfQuery(url: text)
    requires HasQuery(url)
    ensures url != []
    ensures url[|url| - 1] == if QueryOf(url) == [] then QUESTION else QueryOf(url)[|QueryOf(url)| - 1]
  {
    CutAtQuery(url);
  }

  /** On an assembled URL that has a query, the new pairs are appended to it,
      exactly when there is nothing to append, or the query is empty or does not
      end in a question mark: the code takes such an end for the start of the
      query and leaves the separator out. */
  lemma ExistingQueryExtended(base: text, path: text, extra: seq<Pair>)
    requires HasQuery(JoinUrlPath(base, path))
    ensures
      var assembled := JoinUrlPath(base, path);
      var existing := QueryOf(assembled);
      var pairs := AppendedPairs(assembled, extra);
      var url := ActionsUrlOf(base, path, extra);
      && BeforeQuery(url) == BeforeQuery(assembled)
      && (ParseQuery(QueryOf(url)) == ParseQuery(existing) + pairs
          <==> pairs == [] || existing == [] || existing[|existing| - 1] != QUESTION)
  {
    var assembled := JoinUrlPath(base, path);
    var pairs := AppendedPairs(assembled, extra);
    if pairs != [] {
      var added := Separator(assembled) + QueryString(pairs);
      assert ActionsUrlOf(base, path, extra) == assembled + added;
      AppendToQuery(assembled, added);
      SeparatedQueryParses(assembled, pairs);
    }
  }

  lemma SeparatedQueryParses(assembled: text, pairs: seq<Pair>)
    requires HasQuery(assembled) && pairs != []
    ensures
      var existing := QueryOf(assembled);
      ParseQuery(existing + (Separator(assembled) + QueryString(pairs))) == ParseQuery(existing) + pairs
      <==> existing == [] || existing[|existing| - 1] != QUESTION
  {
    var existing := QueryOf(assembled);
    LastOfQuery(assembled);
    if existing == [] {
      EmptyQuery();
      QueryStringParses(pairs);
      assert existing + (Separator(assembled) + QueryString(pairs)) == QueryString(pairs);
    } else {
      ExistingQueryCases(existing, Separator(assembled), pairs);
    }
  }

  lemma AppendAfterQuestion(existing: text, pairs: seq<Pair>)
    requires existing != [] && pairs != [] && existing[|existing| - 1] == QUESTION
    ensures ParseQuery(existing + QueryString(pairs)) != ParseQuery(existing) + pairs
  {
    var qs := QueryString(pairs);
    QueryStringParses(pairs);
    EncodedPairShape(pairs[0]);
    assert Split(AMP, qs)[0] == EncodePair(pairs[0]);
    GluedQueryLosesOne(existing, qs);
  }

  lemma TrailingAmp(init: text, none: text)
    requires none == []
    ensures ParseQuery(init + [AMP] + none) == ParseQuery(init)
  {
    ParseAcrossAmp(init, none);
    EmptyQuery();
  }

  lemma ExtendAfterAmp(init: text, qs: text)
    ensures ParseQuery(init + [AMP] + qs) == ParseQuery(init + [AMP]) + ParseQuery(qs)
  {
    ParseAcrossAmp(init, qs);
    TrailingAmp(init, []);
    assert init + [AMP] + [] == init + [AMP];
  }

  lemma AppendAfterAmp(existing: text, pairs: seq<Pair>)
    requires existing != [] && pairs != [] && existing[|existing| - 1] == AMP
    ensures ParseQuery(existing + QueryString(pairs)) == ParseQuery(existing) + pairs
  {
    var init := existing[..|existing| - 1];
    assert existing == init + [AMP];
    QueryStringParses(pairs);
    ExtendAfterAmp(init, QueryString(pairs));
  }

  lemma ExistingQueryCases(existing: text, sep: text, pairs: seq<Pair>)
    requires existing != [] && pairs != []
    requires sep == if existing[|existing| - 1] != QUESTION && existing[|existing| - 1] != AMP then [AMP] else []
    ensures ParseQuery(existing + (sep + QueryString(pairs))) == ParseQuery(existing) + pairs
            <==> existing[|existing| - 1] != QUESTION
  {
    var qs := QueryString(pairs);
    var last := existing[|existing| - 1];
    if last == QUESTION {
      assert sep + qs == qs;
      AppendAfterQuestion(existing, pairs);
    } else if last == AMP {
      assert sep + qs == qs;
      AppendAfterAmp(existing, pairs);
    } else {
      QueryStringParses(pairs);
      assert existing + (sep + qs) == existing + [AMP] + qs;
      ParseAcrossAmp(existing, qs);
    }
  }

  /** On a path as every caller passes it, not empty and not ending in `?`, the
      new pairs always follow those of the query so far: the given ones, and the
      default api-version if they have none; but no api-version at all when the
      query so far contains the text `api-version=`. */
  lemma PairsAlwaysAppended(base: text, path: text, extra: seq<Pair>)
    requires path != [] && path[|path| - 1] != 0x3F
    ensures
      var assembled := JoinUrlPath(base, path);
      var existing := QueryOf(assembled);
      var hidden := exists i :: 0 <= i <= |existing| && KEY_API_VERSION + [0x3D] <= existing[i..];
      var given := exists p <- extra :: p.0 == KEY_API_VERSION;
      var url := ActionsUrlOf(base, path, extra);
      && BeforeQuery(url) == BeforeQuery(assembled)
      && ParseQuery(QueryOf(url))
         == ParseQuery(existing)
            + (if hidden then WithoutKey(extra, KEY_API_VERSION)
               else if given then extra else extra + [(KEY_API_VERSION, API_VERSION)])
  {
    PairsFollow(base, path, extra);
    AppendedPairsAre(JoinUrlPath(base, path), extra);
  }

  lemma AppendedPairsAre(assembled: text, extra: seq<Pair>)
    ensures
      var hidden := Contains(QueryOf(assembled), KEY_API_VERSION + [EQUALS]);
      AppendedPairs(assembled, extra)
      == (if hidden then WithoutKey(extra, KEY_API_VERSION)
          else if HasKey(extra, KEY_API_VERSION) then extra else extra + [(KEY_API_VERSION, API_VERSION)])
  {
    if !HasQuery(assembled) {
      SplitWithoutSep(QUESTION, assembled);
      assert [assembled][1..] == [] && QueryOf(assembled) == [];
    }
    var fallback := [(KEY_API_VERSION, API_VERSION)];
    WithoutKeySnoc(extra, fallback[0], KEY_API_VERSION);
  }

  lemma PairsFollow(base: text, path: text, extra: seq<Pair>)
    requires path != [] && path[|path| - 1] != QUESTION
    ensures
      var assembled := JoinUrlPath(base, path);
      var url := ActionsUrlOf(base, path, extra);
      && BeforeQuery(url) == BeforeQuery(assembled)
      && ParseQuery(QueryOf(url)) == ParseQuery(QueryOf(assembled)) + AppendedPairs(assembled, extra)
  {
    var assembled := JoinUrlPath(base, path);
    if HasQuery(assembled) {
      LastOfJoin(base, path);
      LastOfQuery(assembled);
      ExistingQueryExtended(base, path, extra);
    } else {
      FreshQuery(assembled, AppendedPairs(assembled, extra));
    }
  }

  lemma LastOfJoin(base: text, path: text)
    requires path != []
    ensures JoinUrlPath(base, path) != []
    ensures JoinUrlPath(base, path)[|JoinUrlPath(base, path)| - 1] == path[|path| - 1]
  {
    JoinIsTrimRoot(base, path);
  }

  lemma FreshQuery(assembled: text, pairs: seq<Pair>)
    requires !HasQuery(assembled) && pairs != []
    ensures
      var url := assembled + [QUESTION] + QueryString(pairs);
      && BeforeQuery(url) == BeforeQuery(assembled)
      && ParseQuery(QueryOf(url)) == ParseQuery(QueryOf(assembled)) + pairs
  {
    SplitWithoutSep(QUESTION, assembled);
    QueryOfCut(assembled, QueryString(pairs));
    QueryStringParses(pairs);
    assert [assembled][1..] == [];
    EmptyQuery();
    assert [] + pairs == pairs;
  }

  /** How many pairs have this key. */
  function Occurrences(pairs: seq<Pair>, key: text): nat {
    if pairs == [] then 0 else (if pairs[0].0 == key then 1 else 0) + Occurrences(pairs[1..], key)
  }

  lemma {:induction false} OccursIffHasKey(pairs: seq<Pair>, key: text)
    ensures Occurrences(pairs, key) > 0 <==> HasKey(pairs, key)
  {
    if pairs != [] {
      OccursIffHasKey(pairs[1..], key);
      assert pairs == [pairs[0]] + pairs[1..];
    }
  }

  lemma {:induction false} OccurrencesAppend(a: seq<Pair>, b: seq<Pair>, key: text)
    ensures Occurrences(a + b, key) == Occurrences(a, key) + Occurrences(b, key)
  {
    if a == [] {
      assert a + b == b;
    } else {
      OccurrencesAppend(a[1..], b, key);
      assert (a + b)[1..] == a[1..] + b;
    }
  }

  lemma {:induction false} OccurrencesWithout(pairs: seq<Pair>, key: text)
    ensures Occurrences(WithoutKey(pairs, key), key) == 0
  {
    if pairs != [] {
      var init, last := pairs[..|pairs| - 1], pairs[|pairs| - 1];
      OccurrencesWithout(init, key);
      OccurrencesAppend(WithoutKey(init, key), if last.0 == key then [] else [last], key);
    }
  }

  /** The server sees the api-versions of the query so far, and those asked for, or
      the default one; but none of the latter when the query so far contains the
      text `api-version=` anywhere. So it sees none at all if and only if that
      text is there without being an api-version. */
  lemma ApiVersionsSent(base: text, path: text, extra: seq<Pair>)
    requires path != [] && path[|path| - 1] != QUESTION
    ensures
      var existing := QueryOf(JoinUrlPath(base, path));
      var sent := ParseQuery(QueryOf(ActionsUrlOf(base, path, extra)));
      var hidden := Contains(existing, KEY_API_VERSION + [EQUALS]);
      && Occurrences(sent, KEY_API_VERSION)
         == Occurrences(ParseQuery(existing), KEY_API_VERSION)
            + (if hidden then 0 else if HasKey(extra, KEY_API_VERSION) then Occurrences(extra, KEY_API_VERSION) else 1)
      && (!HasKey(sent, KEY_API_VERSION) <==> hidden && !HasKey(ParseQuery(existing), KEY_API_VERSION))
  {
    var assembled := JoinUrlPath(base, path);
    var sent := ParseQuery(QueryOf(ActionsUrlOf(base, path, extra)));
    PairsFollow(base, path, extra);
    OccurrencesAppend(ParseQuery(QueryOf(assembled)), AppendedPairs(assembled, extra), KEY_API_VERSION);
    AppendedOccurrences(assembled, extra);
    OccursIffHasKey(sent, KEY_API_VERSION);
    OccursIffHasKey(ParseQuery(QueryOf(assembled)), KEY_API_VERSION);
    OccursIffHasKey(extra, KEY_API_VERSION);
  }

  lemma AppendedOccurrences(assembled: text, extra: seq<Pair>)
    ensures
      var hidden := Contains(QueryOf(assembled), KEY_API_VERSION + [EQUALS]);
      Occurrences(AppendedPairs(assembled, extra), KEY_API_VERSION)
      == if hidden then 0 else if HasKey(extra, KEY_API_VERSION) then Occurrences(extra, KEY_API_VERSION) else 1
  {
    var fallback := [(KEY_API_VERSION, API_VERSION)];
    var pairs := if HasKey(extra, KEY_API_VERSION) then extra else extra + fallback;
    if !HasQuery(assembled) {
      SplitWithoutSep(QUESTION, assembled);
      assert [assembled][1..] == [] && QueryOf(assembled) == [];
    }
    OccurrencesWithout(pairs, KEY_API_VERSION);
    OccurrencesAppend(extra, fallback, KEY_API_VERSION);
    OccursIffHasKey(extra, KEY_API_VERSION);
    assert fallback[1..] == [] && Occurrences(fallback, KEY_API_VERSION) == 1;
  }

  lemma {:induction false} PlainDecodes(s: text)
    requires PERCENT !in s
    ensures PercentDecode(s) == s
  {
    if s != [] {
      PlainDecodes(s[1..]);
      assert [s[0]] + s[1..] == s;
    }
  }

  lemma SegmentParses(key: text, value: text)
    requires EQUALS !in key && EQUALS !in value && PERCENT !in key
    ensures ParsePair(key + [EQUALS] + value) == (key, PercentDecode(value))
  {
    SplitWithoutSep(EQUALS, key);
    SplitWithoutSep(EQUALS, value);
    SplitConcat(EQUALS, key, value);
    assert [key, value][1..] == [value];
    PlainDecodes(key);
  }

  lemma OneSegment(segment: text)
    requires AMP !in segment && segment != []
    ensures ParseQuery(segment) == [ParsePair(segment)]
  {
    var one := [segment];
    SplitWithoutSep(AMP, segment);
    assert one[1..] == [] && ParseSegments(one) == ParseOne(segment) + ParseSegments(one[1..]);
    assert ParseOne(segment) == [ParsePair(segment)];
  }

  /** A query of one segment with one `=` is one pair. */
  lemma OnePair(key: text, value: text)
    requires AMP !in key && AMP !in value && EQUALS !in key && EQUALS !in value && PERCENT !in key
    ensures ParseQuery(key + [EQUALS] + value) == [(key, PercentDecode(value))]
  {
    SegmentParses(key, value);
    OneSegment(key + [EQUALS] + value);
  }

  /** "xapi-version" and "h?xapi-version=1" */
  const OTHER_KEY: text := [0x78] + KEY_API_VERSION
  const OTHER_BASE: text := [0x68, QUESTION] + OTHER_KEY + [EQUALS, 0x31]

  /** The condition is met on ordinary paths: on the base `h?xapi-version=1` and any
      plain path no api-version is sent. */
  lemma SubstringHidesApiVersion(path: text)
    requires StartsWithSlash(path) && QUESTION !in path && AMP !in path && EQUALS !in path
    ensures ActionsUrlOf(OTHER_BASE, path, []) == OTHER_BASE + path
    ensures
      var sent := ParseQuery(QueryOf(ActionsUrlOf(OTHER_BASE, path, [])));
      sent == [(OTHER_KEY, PercentDecode([0x31] + path))] && !HasKey(sent, KEY_API_VERSION)
  {
    var tail := [0x31] + path;
    OtherUrl(path);
    QueryOfCut([0x68], OTHER_KEY + [EQUALS] + tail);
    KeyInside(tail);
    NothingAppended(OTHER_BASE + path);
    OtherKeyIsPlain();
    OnePair(OTHER_KEY, tail);
  }

  lemma OtherUrl(path: text)
    requires StartsWithSlash(path)
    ensures JoinUrlPath(OTHER_BASE, path) == OTHER_BASE + path && HasQuery(OTHER_BASE + path)
    ensures OTHER_BASE + path == [0x68] + [QUESTION] + (OTHER_KEY + [EQUALS] + ([0x31] + path))
  {
    assert TrimEnd(OTHER_BASE) == OTHER_BASE;
    assert (OTHER_BASE + path)[1] == QUESTION;
  }

  lemma KeyInside(tail: text)
    ensures Contains(OTHER_KEY + [EQUALS] + tail, KEY_API_VERSION + [EQUALS])
  {
    var existing := OTHER_KEY + [EQUALS] + tail;
    assert existing[1..] == KEY_API_VERSION + [EQUALS] + tail;
    assert KEY_API_VERSION + [EQUALS] <= existing[1..];
  }

  lemma OtherKeyIsPlain()
    ensures AMP !in OTHER_KEY && EQUALS !in OTHER_KEY && PERCENT !in OTHER_KEY && OTHER_KEY != KEY_API_VERSION
  {
    assert |OTHER_KEY| != |KEY_API_VERSION|;
  }

  lemma NothingAppended(assembled: text)
    requires HasQuery(assembled) && Contains(QueryOf(assembled), KEY_API_VERSION + [EQUALS])
    ensures AppendedPairs(assembled, []) == []
  {
    var none: seq<Pair> := [];
    var fallback := [(KEY_API_VERSION, API_VERSION)];
    assert !HasKey(none, KEY_API_VERSION) && none + fallback == fallback;
    WithoutKeySnoc(none, fallback[0], KEY_API_VERSION);
  }

  /** The exception of `ExistingQueryExtended`, which no caller meets, since it needs
      the empty path or one that ends in `?`: on the base `h?a?` the api-version is
      not added as a pair, it ends up in the key `a?api-version`. */
  lemma TrailingQuestionMark()
    ensures
      var base := [0x68, QUESTION, 0x61, QUESTION];
      var url := ActionsUrlOf(base, [], []);
      ParseQuery(QueryOf(url)) != ParseQuery(QueryOf(base)) + [(KEY_API_VERSION, API_VERSION)]
  {
    var base := [0x68, QUESTION, 0x61, QUESTION];
    assert JoinUrlPath(base, []) == base;
    QueryOfCut([0x68], [0x61, QUESTION]);
    assert [0x68] + [QUESTION] + [0x61, QUESTION] == base;
    assert QueryOf(base) == [0x61, QUESTION] && HasQuery(base);
    forall i | 0 <= i <= 2
      ensures !(KEY_API_VERSION + [EQUALS] <= [0x61, QUESTION][i..])
    {
      assert |[0x61, QUESTION][i..]| <= 2 && |KEY_API_VERSION + [EQUALS]| == 12;
    }
    assert AppendedPairs(base, []) == [(KEY_API_VERSION, API_VERSION)];
    ExistingQueryExtended(base, [], []);
  }
}
