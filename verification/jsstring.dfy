/**
 The two string primitives of the JavaScript standard library the
 application relies on: `String.prototype.trim` and
 `String.prototype.split` with a one-character separator.
 */
module JsString {

  /** The characters `trim` removes: ECMAScript WhiteSpace and LineTerminator. */
  predicate IsWhitespace(c: char)
  {
    c == '\t' || c == '\U{000B}' || c == '\U{000C}' || c == ' ' || c == '\U{00A0}' || c == '\U{FEFF}'
    || c == '\U{1680}' || ('\U{2000}' <= c <= '\U{200A}') || c == '\U{202F}' || c == '\U{205F}'
    || c == '\U{3000}' || c == '\n' || c == '\r' || c == '\U{2028}' || c == '\U{2029}'
  }

  predicate AllWhitespace(s: string)
  {
    forall i :: 0 <= i < |s| ==> IsWhitespace(s[i])
  }

  /** Length of the leading whitespace of `s`. */
  function LeadingEnd(s: string): (k: nat)
    ensures k <= |s|
    ensures forall i :: 0 <= i < k ==> IsWhitespace(s[i])
    ensures k < |s| ==> !IsWhitespace(s[k])
  {
    if |s| == 0 || !IsWhitespace(s[0]) then 0 else 1 + LeadingEnd(s[1..])
  }

  /** Start of the trailing whitespace of `s`, looking no further left than `lo`. */
  function TrailingStart(s: string, lo: nat): (k: nat)
    requires lo <= |s|
    ensures lo <= k <= |s|
    ensures forall i :: k <= i < |s| ==> IsWhitespace(s[i])
    ensures k > lo ==> !IsWhitespace(s[k - 1])
    decreases |s|
  {
    if |s| == lo || !IsWhitespace(s[|s| - 1]) then |s|
    else TrailingStart(s[..|s| - 1], lo)
  }

  /** `trim`: `s` without its leading and trailing whitespace. */
  function Trim(s: string): (r: string)
    ensures |r| <= |s|
    ensures |r| > 0 ==> !IsWhitespace(r[0]) && !IsWhitespace(r[|r| - 1])
  {
    var lo := LeadingEnd(s);
    s[lo..TrailingStart(s, lo)]
  }

  /** Trimming leaves nothing exactly when the string is all whitespace. */
  lemma TrimEmptyIff(s: string)
    ensures Trim(s) == "" <==> AllWhitespace(s)
  {
    var lo := LeadingEnd(s);
    var hi := TrailingStart(s, lo);
    if Trim(s) == "" {
      assert lo == hi;
    }
  }

  /** Trimming drops only whitespace: what it keeps is a contiguous piece of the string. */
  lemma TrimIsSlice(s: string)
    ensures exists i, j ::
              0 <= i <= j <= |s| && Trim(s) == s[i..j] && AllWhitespace(s[..i]) && AllWhitespace(s[j..])
  {
    var lo := LeadingEnd(s);
    var hi := TrailingStart(s, lo);
    assert AllWhitespace(s[..lo]) by {
      forall i | 0 <= i < lo
        ensures IsWhitespace(s[..lo][i])
      {
        assert s[..lo][i] == s[i];
      }
    }
    assert AllWhitespace(s[hi..]) by {
      forall i | 0 <= i < |s| - hi
        ensures IsWhitespace(s[hi..][i])
      {
        assert s[hi..][i] == s[hi + i];
      }
    }
  }

  /** Trimming twice is trimming once. */
  lemma TrimIdempotent(s: string)
    ensures Trim(Trim(s)) == Trim(s)
  {
    var t := Trim(s);
    if |t| > 0 {
      assert LeadingEnd(t) == 0;
      assert TrailingStart(t, 0) == |t|;
      assert t[0..|t|] == t;
    } else {
      assert t == "";
    }
  }

  /** `split(c)`: the pieces of `s` between occurrences of `c`. */
  function Split(s: string, c: char): (r: seq<string>)
    ensures |r| >= 1
    ensures forall i :: 0 <= i < |r| ==> c !in r[i]
  {
    if |s| == 0 then [""]
    else
      var rest := Split(s[1..], c);
      if s[0] == c then [""] + rest else [[s[0]] + rest[0]] + rest[1..]
  }

  /** The pieces put back together with `c` between them (`join(c)`). */
  function Join(pieces: seq<string>, c: char): string
    requires |pieces| >= 1
  {
    if |pieces| == 1 then pieces[0] else pieces[0] + [c] + Join(pieces[1..], c)
  }

  /** Joining the pieces of a split gives back the string. */
  lemma {:induction false} JoinSplit(s: string, c: char)
    ensures Join(Split(s, c), c) == s
  {
    if |s| > 0 {
      JoinSplit(s[1..], c);
      var rest := Split(s[1..], c);
      if s[0] == c {
        assert Split(s, c)[1..] == rest;
      } else {
        var r := Split(s, c);
        assert r[0] == [s[0]] + rest[0];
        if |rest| > 1 {
          assert r[1..] == rest[1..];
        }
      }
    }
  }

  /** Splitting pieces free of `c` joined by `c` gives back the pieces. */
  lemma {:induction false} SplitJoin(pieces: seq<string>, c: char)
    requires |pieces| >= 1
    requires forall i :: 0 <= i < |pieces| ==> c !in pieces[i]
    ensures Split(Join(pieces, c), c) == pieces
    decreases |pieces|, |pieces[0]|
  {
    var p := pieces[0];
    if |p| > 0 {
      var shorter := [p[1..]] + pieces[1..];
      SplitJoin(shorter, c);
      var j := Join(pieces, c);
      assert j == [p[0]] + Join(shorter, c) by {
        if |pieces| > 1 {
          assert Join(shorter, c) == p[1..] + [c] + Join(pieces[1..], c);
          assert shorter[1..] == pieces[1..];
        }
      }
      assert j[1..] == Join(shorter, c);
      assert j[0] == p[0];
      assert [p[0]] + p[1..] == p;
      assert [[p[0]] + p[1..]] + pieces[1..] == pieces;
    } else if |pieces| > 1 {
      SplitJoin(pieces[1..], c);
      var j := Join(pieces, c);
      assert j == [c] + Join(pieces[1..], c);
      assert j[1..] == Join(pieces[1..], c);
      assert [""] + pieces[1..] == pieces;
    }
  }

  /** Splitting a string whose first separator follows `a` gives `a` first, then the pieces of the rest. */
  lemma {:induction false} SplitAfterFirst(a: string, b: string, c: char)
    requires c !in a
    ensures Split(a + [c] + b, c) == [a] + Split(b, c)
  {
    if |a| == 0 {
      assert a + [c] + b == [c] + b;
      assert ([c] + b)[1..] == b;
    } else {
      SplitAfterFirst(a[1..], b, c);
      assert (a + [c] + b)[1..] == a[1..] + [c] + b;
      assert [a[0]] + a[1..] == a;
    }
  }

  /** A string without the separator is a single piece. */
  lemma SplitWithout(a: string, c: char)
    requires c !in a
    ensures Split(a, c) == [a]
  {
    SplitJoin([a], c);
  }
}
