/** The parts of Kotlin's string library that the app relies on: searching
    (`indexOf`, `lastIndexOf`, `contains`), cutting (`substringBefore`,
    `substringAfter`, `substringAfterLast`), splitting on one character,
    `isBlank` and `lowercase`. */
module Strings {

  /** `p` occurs in `s` starting at index `k`. */
  predicate OccursAt(s: string, p: string, k: int) {
    0 <= k && k + |p| <= |s| && s[k..k + |p|] == p
  }

  /** The first index at which `p` occurs in `s` at or after `from`, or -1. */
  function IndexFrom(s: string, p: string, from: nat): (r: int)
    requires from <= |s| + 1
    ensures r == -1 || (from <= r && OccursAt(s, p, r))
    ensures forall k :: from <= k && (r == -1 || k < r) ==> !OccursAt(s, p, k)
    decreases |s| + 1 - from
  {
    if from + |p| > |s| then -1
    else if s[from..from + |p|] == p then from
    else IndexFrom(s, p, from + 1)
  }

  /** Kotlin's `s.indexOf(p)`: the first occurrence of `p`, or -1. */
  function IndexOf(s: string, p: string): (r: int)
    ensures r == -1 || OccursAt(s, p, r)
    ensures forall k :: 0 <= k && (r == -1 || k < r) ==> !OccursAt(s, p, k)
  {
    IndexFrom(s, p, 0)
  }

  /** The last index at which `p` occurs in `s` at or before `upto`, or -1. */
  function LastIndexUpTo(s: string, p: string, upto: int): (r: int)
    requires upto < |s| + 1
    ensures r == -1 || (r <= upto && OccursAt(s, p, r))
    ensures forall k :: k <= upto && r < k ==> !OccursAt(s, p, k)
    decreases upto + 1
  {
    if upto < 0 then -1
    else if upto + |p| <= |s| && s[upto..upto + |p|] == p then upto
    else LastIndexUpTo(s, p, upto - 1)
  }

  /** Kotlin's `s.lastIndexOf(p)`: the last occurrence of `p`, or -1. */
  function LastIndexOf(s: string, p: string): (r: int)
    ensures r == -1 || OccursAt(s, p, r)
    ensures forall k :: r < k ==> !OccursAt(s, p, k)
  {
    LastIndexUpTo(s, p, |s|)
  }

  /** Kotlin's `s.substringBefore(d)`: the text before the first `d`, or all of `s`. */
  function SubstringBefore(s: string, d: string): (r: string)
    ensures IndexOf(s, d) == -1 ==> r == s
    ensures IndexOf(s, d) >= 0 ==> r == s[..IndexOf(s, d)]
  {
    var k := IndexOf(s, d);
    if k == -1 then s else s[..k]
  }

  /** Kotlin's `s.substringAfter(d, missing)`: the text after the first `d`, or `missing`. */
  function SubstringAfter(s: string, d: string, missing: string): (r: string)
    ensures IndexOf(s, d) == -1 ==> r == missing
    ensures IndexOf(s, d) >= 0 ==> r == s[IndexOf(s, d) + |d|..]
  {
    var k := IndexOf(s, d);
    if k == -1 then missing else s[k + |d|..]
  }

  /** Kotlin's `s.substringAfterLast(d)`: the text after the last `d`, or all of `s`. */
  function SubstringAfterLast(s: string, d: string): (r: string)
    ensures LastIndexOf(s, d) == -1 ==> r == s
    ensures LastIndexOf(s, d) >= 0 ==> r == s[LastIndexOf(s, d) + |d|..]
  {
    var k := LastIndexOf(s, d);
    if k == -1 then s else s[k + |d|..]
  }

  /** A one-character pattern occurs exactly where that character stands. */
  lemma OccursAtChar(s: string, c: char, k: int)
    ensures OccursAt(s, [c], k) <==> 0 <= k < |s| && s[k] == c
  {
    if 0 <= k < |s| {
      assert s[k..k + 1] == [s[k]];
    }
  }

  /** The text `substringBefore` keeps never holds the delimiter character. */
  lemma {:induction false} BeforeHasNoDelimiter(s: string, c: char)
    ensures c !in SubstringBefore(s, [c])
  {
    var k := IndexOf(s, [c]);
    var r := SubstringBefore(s, [c]);
    forall j | 0 <= j < |r| ensures r[j] != c {
      OccursAtChar(s, c, j);
    }
  }

  /** The text after the last occurrence of a character never holds that character. */
  lemma {:induction false} AfterLastHasNoDelimiter(s: string, c: char)
    ensures c !in SubstringAfterLast(s, [c])
  {
    var k := LastIndexOf(s, [c]);
    var r := SubstringAfterLast(s, [c]);
    forall j | 0 <= j < |r| ensures r[j] != c {
      OccursAtChar(s, c, if k == -1 then j else k + 1 + j);
    }
  }

  /** `substringBefore` of a text that does not hold the delimiter returns that text,
      whatever follows the delimiter. */
  lemma {:induction false} BeforeDelimiter(a: string, c: char, b: string)
    requires c !in a
    ensures SubstringBefore(a, [c]) == a
    ensures SubstringBefore(a + [c] + b, [c]) == a
  {
    var s := a + [c] + b;
    OccursAtChar(s, c, |a|);
    forall k | 0 <= k < |a| ensures !OccursAt(s, [c], k) && !OccursAt(a, [c], k) {
      OccursAtChar(s, c, k);
      OccursAtChar(a, c, k);
    }
    forall k | k >= |a| ensures !OccursAt(a, [c], k) {
      OccursAtChar(a, c, k);
    }
    assert s[..|a|] == a;
  }

  /** `substringAfterLast` of a text whose tail after some delimiter holds no other
      delimiter returns that tail. */
  lemma {:induction false} AfterLastDelimiter(a: string, c: char, b: string)
    requires c !in b
    ensures SubstringAfterLast(a + [c] + b, [c]) == b
  {
    var s := a + [c] + b;
    OccursAtChar(s, c, |a|);
    forall k | k > |a| ensures !OccursAt(s, [c], k) {
      OccursAtChar(s, c, k);
      if 0 <= k < |s| {
        assert s[k] == b[k - |a| - 1];
      }
    }
    assert s[|a| + 1..] == b;
  }

  /** Kotlin's `s.split(c)`: the pieces between occurrences of `c`, empty pieces included. */
  function SplitOn(s: string, c: char): (r: seq<string>)
    ensures |r| >= 1
  {
    if s == [] then [[]]
    else if s[0] == c then [[]] + SplitOn(s[1..], c)
    else var rest := SplitOn(s[1..], c); [[s[0]] + rest[0]] + rest[1..]
  }

  /** A text without the separator is one piece. */
  lemma {:induction false} SplitOnNone(a: string, c: char)
    requires c !in a
    ensures SplitOn(a, c) == [a]
  {
    if a != [] {
      SplitOnNone(a[1..], c);
      assert [a[0]] + a[1..] == a;
    }
  }

  /** A piece without the separator, then the separator, splits off at the front. */
  lemma {:induction false} SplitOnCons(a: string, c: char, b: string)
    requires c !in a
    ensures SplitOn(a + [c] + b, c) == [a] + SplitOn(b, c)
  {
    if a == [] {
      assert a + [c] + b == [c] + b;
      assert ([c] + b)[1..] == b;
    } else {
      SplitOnCons(a[1..], c, b);
      assert (a + [c] + b)[1..] == a[1..] + [c] + b;
      assert [a[0]] + a[1..] == a;
    }
  }

  /** Splitting two texts joined by the separator gives the pieces of each, in order. */
  lemma {:induction false} SplitOnJoin(a: string, c: char, b: string)
    ensures SplitOn(a + [c] + b, c) == SplitOn(a, c) + SplitOn(b, c)
  {
    if a == [] {
      var s := a + [c] + b;
      assert s == [c] + b;
      assert s[1..] == b;
    } else {
      var x, t := a[0], a[1..];
      assert a == [x] + t;
      SplitOnJoin(t, c, b);
      SplitOnJoinStep(x, t, c, b);
    }
  }

  /** The inductive step of `SplitOnJoin`: one more leading character. */
  lemma SplitOnJoinStep(x: char, t: string, c: char, b: string)
    requires SplitOn(t + [c] + b, c) == SplitOn(t, c) + SplitOn(b, c)
    ensures SplitOn([x] + t + [c] + b, c) == SplitOn([x] + t, c) + SplitOn(b, c)
  {
    var r, tail := SplitOn(t, c), SplitOn(b, c);
    if x == c {
      calc {
        SplitOn([x] + t + [c] + b, c);
      == { assert [x] + t + [c] + b == [x] + (t + [c] + b); SplitOnHead(x, t + [c] + b, c); }
        [[]] + SplitOn(t + [c] + b, c);
      ==
        [[]] + (r + tail);
      == { SplitOnHead(x, t, c); }
        SplitOn([x] + t, c) + tail;
      }
    } else {
      calc {
        SplitOn([x] + t + [c] + b, c);
      == { assert [x] + t + [c] + b == [x] + (t + [c] + b); SplitOnHead(x, t + [c] + b, c); }
        [[x] + (r + tail)[0]] + (r + tail)[1..];
      == { ExtendFirstPiece([x], r, tail); }
        ([[x] + r[0]] + r[1..]) + tail;
      == { SplitOnHead(x, t, c); }
        SplitOn([x] + t, c) + tail;
      }
    }
  }

  /** One step of `split`: a leading separator opens an empty piece, any other
      character joins the first piece. */
  lemma SplitOnHead(x: char, u: string, c: char)
    ensures x == c ==> SplitOn([x] + u, c) == [[]] + SplitOn(u, c)
    ensures x != c ==> SplitOn([x] + u, c) == [[x] + SplitOn(u, c)[0]] + SplitOn(u, c)[1..]
  {
    assert ([x] + u)[1..] == u;
  }

  /** Extending the first piece commutes with appending further pieces. */
  lemma ExtendFirstPiece(p: string, r: seq<string>, tail: seq<string>)
    requires |r| >= 1
    ensures [p + (r + tail)[0]] + (r + tail)[1..] == ([p + r[0]] + r[1..]) + tail
  {
    assert (r + tail)[1..] == r[1..] + tail;
  }

  /** The characters Kotlin's `Char.isWhitespace` accepts: Java's whitespace plus
      every Unicode space, line and paragraph separator. */
  predicate IsWhitespace(c: char) {
    || ('\U{9}' <= c <= '\U{D}')
    || ('\U{1C}' <= c <= '\U{20}')
    || c == '\U{A0}' || c == '\U{1680}'
    || ('\U{2000}' <= c <= '\U{200A}')
    || c == '\U{2028}' || c == '\U{2029}' || c == '\U{202F}' || c == '\U{205F}' || c == '\U{3000}'
  }

  /** Kotlin's `isBlank`: empty, or whitespace only. */
  predicate IsBlank(s: string) {
    forall i :: 0 <= i < |s| ==> IsWhitespace(s[i])
  }

  /** Only a non-empty text can fail to be blank. */
  lemma NonBlankIsNonEmpty(s: string)
    requires !IsBlank(s)
    ensures |s| > 0
  {
  }

  /** Lower-case mapping of one character (ASCII letters only). */
  function LowerChar(c: char): (r: char)
    ensures 'A' <= c <= 'Z' ==> r as int == c as int + 32
    ensures !('A' <= c <= 'Z') ==> r == c
  {
    if 'A' <= c <= 'Z' then (c as int + 32) as char else c
  }

  /** Kotlin's `lowercase()`, character by character. */
  function Lower(s: string): (r: string)
    ensures |r| == |s|
    ensures forall i :: 0 <= i < |s| ==> r[i] == LowerChar(s[i])
  {
    seq(|s|, i requires 0 <= i < |s| => LowerChar(s[i]))
  }

  /** Lower-casing twice is lower-casing once. */
  lemma LowerIdempotent(s: string)
    ensures Lower(Lower(s)) == Lower(s)
  {
  }

  /** Lower-casing keeps a blank text blank and a non-blank text non-blank. */
  lemma LowerKeepsBlank(s: string)
    ensures IsBlank(Lower(s)) <==> IsBlank(s)
  {
  }
}
