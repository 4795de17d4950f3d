/** Texts as their UTF-8 bytes, and splitting them at a separator byte. */
module Text {
  type byte = bv8

  type text = seq<byte>

  /** Rust's `split(sep)`: the separators cut the text into one more segments. */
  function Split(sep: byte, s: text): (segments: seq<text>)
    ensures segments != []
  {
    if s == [] then [[]]
    else
      var rest := Split(sep, s[1..]);
      if s[0] == sep then [[]] + rest
      else [[s[0]] + rest[0]] + rest[1..]
  }

  function Join(sep: byte, segments: seq<text>): text {
    if segments == [] then []
    else if |segments| == 1 then segments[0]
    else segments[0] + [sep] + Join(sep, segments[1..])
  }

  /** The first two segments, and what follows them. */
  lemma JoinTwo(sep: byte, segments: seq<text>) returns (rest: text)
    requires |segments| >= 2
    ensures Join(sep, segments) == segments[0] + [sep] + segments[1] + rest
    ensures rest == [] || rest[0] == sep
  {
    var tail := segments[1..];
    if |segments| == 2 {
      rest := [];
    } else {
      rest := [sep] + Join(sep, tail[1..]);
      assert Join(sep, tail) == segments[1] + rest;
    }
    assert Join(sep, segments) == segments[0] + [sep] + Join(sep, tail);
  }

  /** Splitting is undone by joining, and leaves no separator inside a segment. */
  lemma {:induction false} SplitJoins(sep: byte, s: text)
    ensures Join(sep, Split(sep, s)) == s
    ensures forall i :: 0 <= i < |Split(sep, s)| ==> sep !in Split(sep, s)[i]
  {
    if s != [] {
      var rest := Split(sep, s[1..]);
      SplitJoins(sep, s[1..]);
      if s[0] == sep {
        assert ([[]] + rest)[1..] == rest;
      } else {
        var all := [[s[0]] + rest[0]] + rest[1..];
        assert all[1..] == rest[1..];
        assert s == [s[0]] + s[1..];
        assert Join(sep, all) == [s[0]] + Join(sep, rest);
      }
    }
  }

  lemma {:induction false} SplitWithoutSep(sep: byte, s: text)
    requires sep !in s
    ensures Split(sep, s) == [s]
  {
    if s != [] {
      SplitWithoutSep(sep, s[1..]);
      assert [s[0]] + s[1..] == s;
    }
  }

  /** The last segment of `x` runs on into the first one of `y`. */
  function Glue(x: seq<text>, y: seq<text>): (r: seq<text>)
    requires x != [] && y != []
    ensures r != []
  {
    x[..|x| - 1] + [x[|x| - 1] + y[0]] + y[1..]
  }

  /** One more byte in front of the first segment. */
  function Prepend(c: byte, x: seq<text>): (r: seq<text>)
    requires x != []
    ensures r != []
  {
    [[c] + x[0]] + x[1..]
  }

  lemma GlueCons(x: seq<text>, y: seq<text>)
    requires x != [] && y != []
    ensures Glue([[]] + x, y) == [[]] + Glue(x, y)
  {
    assert ([[]] + x)[..|x|] == [[]] + x[..|x| - 1];
  }

  lemma GluePrepend(c: byte, x: seq<text>, y: seq<text>)
    requires x != [] && y != []
    ensures Glue(Prepend(c, x), y) == Prepend(c, Glue(x, y))
  {
    if |x| == 1 {
      assert [c] + (x[0] + y[0]) == [c] + x[0] + y[0];
    } else {
      assert Prepend(c, x)[..|x| - 1] == [[c] + x[0]] + x[1..|x| - 1];
      assert Glue(x, y)[1..] == x[1..|x| - 1] + [x[|x| - 1] + y[0]] + y[1..];
    }
  }

  /** Appending glues the last segment of `a` to the first one of `b`. */
  lemma {:induction false} SplitAppend(sep: byte, a: text, b: text)
    ensures Split(sep, a + b) == Glue(Split(sep, a), Split(sep, b))
  {
    var y := Split(sep, b);
    if a == [] {
      assert a + b == b && [] + y[0] == y[0] && y == [y[0]] + y[1..];
    } else {
      var tail := Split(sep, a[1..]);
      SplitAppend(sep, a[1..], b);
      assert (a + b)[1..] == a[1..] + b && (a + b)[0] == a[0];
      if a[0] == sep {
        GlueCons(tail, y);
      } else {
        GluePrepend(a[0], tail, y);
      }
    }
  }

  /** A separator between two texts splits them apart. */
  lemma SplitConcat(sep: byte, a: text, b: text)
    ensures Split(sep, a + [sep] + b) == Split(sep, a) + Split(sep, b)
  {
    var x := Split(sep, a);
    assert ([sep] + b)[1..] == b;
    assert Split(sep, [sep] + b) == [[]] + Split(sep, b);
    SplitAppend(sep, a, [sep] + b);
    assert a + [sep] + b == a + ([sep] + b);
    assert x[|x| - 1] + [] == x[|x| - 1];
    assert x[..|x| - 1] + [x[|x| - 1]] == x;
    assert ([[]] + Split(sep, b))[1..] == Split(sep, b);
  }

  /** Joining separator-free segments is undone by splitting. */
  lemma {:induction false} JoinSplits(sep: byte, segments: seq<text>)
    requires segments != [] && forall s <- segments :: sep !in s
    ensures Split(sep, Join(sep, segments)) == segments
  {
    SplitWithoutSep(sep, segments[0]);
    if |segments| > 1 {
      JoinSplits(sep, segments[1..]);
      SplitConcat(sep, segments[0], Join(sep, segments[1..]));
      assert [segments[0]] + segments[1..] == segments;
    }
  }

  lemma Associate(a: text, b: text, c: text)
    ensures a + b + c == a + (b + c)
  {
  }
}
