/** The relevance score the stream list uses to filter and rank titles against
    the search text (util/FuzzyMatch.kt). */
module FuzzyMatch {
  import opened Strings

  /** The loop variables of the character-by-character walk. */
  datatype WalkState = WalkState(score: int, matched: nat, streak: nat)

  /** One iteration of the walk, at text position `i`: a character equal to the
      next query character is consumed and rewarded with the streak (counting
      itself) plus the position bonus `|lt| - i`; any other character ends the streak. */
  function Step(lq: string, lt: string, w: WalkState, i: nat): WalkState
    requires i < |lt|
  {
    if w.matched < |lq| && lt[i] == lq[w.matched] then
      WalkState(w.score + (w.streak + 1) + (|lt| - i), w.matched + 1, w.streak + 1)
    else
      WalkState(w.score, w.matched, 0)
  }

  /** The loop variables after the walk has visited `lt[..n]`. */
  function Walk(lq: string, lt: string, n: nat): WalkState
    requires n <= |lt|
  {
    if n == 0 then WalkState(0, 0, 0) else Step(lq, lt, Walk(lq, lt, n - 1), n - 1)
  }

  /** `idx` lists strictly increasing positions of `t` that spell out `q`. */
  predicate Embeds(idx: seq<nat>, q: string, t: string) {
    && |idx| == |q|
    && (forall k :: 0 <= k < |idx| ==> idx[k] < |t| && t[idx[k]] == q[k])
    && (forall j, k :: 0 <= j < k < |idx| ==> idx[j] < idx[k])
  }

  /** `q` is a (not necessarily contiguous) subsequence of `t`. */
  ghost predicate IsSubsequence(q: string, t: string) {
    exists idx :: Embeds(idx, q, t)
  }

  /** `fuzzyMatchScore(query, target)`, as a function of its inputs. */
  function Score(query: string, target: string): (r: int)
    ensures r >= 0
    ensures !IsBlank(query) && IndexOf(Lower(target), Lower(query)) >= 0 ==> 1000 < r <= 1000 + |target|
  {
    if IsBlank(query) then 1
    else
      var lq := Lower(query);
      var lt := Lower(target);
      var k := IndexOf(lt, lq);
      NonBlankIsNonEmpty(query);
      WalkBounds(lq, lt, |lt|);
      if k >= 0 then 1000 + (|lt| - k)
      else
        var w := Walk(lq, lt, |lt|);
        if w.matched == |lq| then w.score else 0
  }

  /** The loop variables stay in range: the query cursor never passes the query
      or the visited text, the streak never exceeds the matches, and every match
      adds at least one point. */
  lemma {:induction false} WalkBounds(lq: string, lt: string, n: nat)
    requires n <= |lt|
    ensures Walk(lq, lt, n).matched <= |lq| && Walk(lq, lt, n).matched <= n
    ensures Walk(lq, lt, n).streak <= Walk(lq, lt, n).matched
    ensures Walk(lq, lt, n).score >= Walk(lq, lt, n).matched
  {
    if n > 0 {
      WalkBounds(lq, lt, n - 1);
    }
  }

  /** Neither the score nor the query cursor ever goes back as the walk proceeds. */
  lemma {:induction false} WalkNeverDecreases(lq: string, lt: string, n: nat, m: nat)
    requires n <= m <= |lt|
    ensures Walk(lq, lt, n).score <= Walk(lq, lt, m).score
    ensures Walk(lq, lt, n).matched <= Walk(lq, lt, m).matched
  {
    if n < m {
      WalkNeverDecreases(lq, lt, n, m - 1);
    }
  }

  /** Soundness of the greedy walk: the query prefix it has consumed is spelled out
      by positions it has visited. */
  lemma {:induction false} GreedySound(lq: string, lt: string, n: nat) returns (idx: seq<nat>)
    requires n <= |lt|
    ensures Walk(lq, lt, n).matched <= |lq|
    ensures Embeds(idx, lq[..Walk(lq, lt, n).matched], lt)
    ensures forall k :: 0 <= k < |idx| ==> idx[k] < n
  {
    WalkBounds(lq, lt, n);
    if n == 0 {
      idx := [];
    } else {
      var prev := GreedySound(lq, lt, n - 1);
      var w := Walk(lq, lt, n - 1);
      if w.matched < |lq| && lt[n - 1] == lq[w.matched] {
        idx := prev + [n - 1];
        assert lq[..w.matched + 1] == lq[..w.matched] + [lq[w.matched]];
      } else {
        idx := prev;
      }
    }
  }

  /** Completeness of the greedy walk: whenever some positions below `n` spell out
      `lq[..m]`, the walk has consumed at least `m` query characters by then. */
  lemma {:induction false} GreedyComplete(lq: string, lt: string, n: nat, m: nat, idx: seq<nat>)
    requires n <= |lt| && m <= |lq|
    requires Embeds(idx, lq[..m], lt)
    requires forall k :: 0 <= k < |idx| ==> idx[k] < n
    ensures Walk(lq, lt, n).matched >= m
  {
    if m == 0 {
    } else {
      var j := idx[m - 1];
      if j < n - 1 {
        GreedyComplete(lq, lt, n - 1, m, idx);
        WalkNeverDecreases(lq, lt, n - 1, n);
      } else {
        var front := idx[..m - 1];
        assert lq[..m - 1] == lq[..m][..m - 1];
        assert Embeds(front, lq[..m - 1], lt);
        GreedyComplete(lq, lt, n - 1, m - 1, front);
        WalkNeverDecreases(lq, lt, n - 1, n);
      }
    }
  }

  /** The greedy left-to-right walk consumes the whole query exactly when the
      query is a subsequence of the text. */
  lemma {:induction false} WalkDecidesSubsequence(lq: string, lt: string)
    ensures Walk(lq, lt, |lt|).matched == |lq| <==> IsSubsequence(lq, lt)
  {
    var idx := GreedySound(lq, lt, |lt|);
    if Walk(lq, lt, |lt|).matched == |lq| {
      assert lq[..|lq|] == lq;
      assert Embeds(idx, lq, lt);
    }
    if IsSubsequence(lq, lt) {
      var w :| Embeds(w, lq, lt);
      assert lq[..|lq|] == lq;
      GreedyComplete(lq, lt, |lt|, |lq|, w);
    }
  }

  /** A contiguous occurrence is in particular a subsequence. */
  lemma SubstringIsSubsequence(lq: string, lt: string, k: int)
    requires OccursAt(lt, lq, k)
    ensures IsSubsequence(lq, lt)
  {
    var idx := seq(|lq|, i requires 0 <= i < |lq| => k + i);
    forall i | 0 <= i < |lq| ensures lt[idx[i]] == lq[i] {
      assert lt[k..k + |lq|][i] == lq[i];
    }
    assert Embeds(idx, lq, lt);
  }

  /** A blank query (empty or whitespace only) scores exactly 1 against every text. */
  lemma BlankScoresOne(query: string, target: string)
    requires IsBlank(query)
    ensures Score(query, target) == 1
  {
  }

  /** A case-insensitive substring match scores 1000 plus the length of the text
      from the first occurrence on, hence at least 1001. */
  lemma {:induction false} SubstringScore(query: string, target: string)
    requires !IsBlank(query)
    requires IndexOf(Lower(target), Lower(query)) >= 0
    ensures Score(query, target) == 1000 + |target| - IndexOf(Lower(target), Lower(query))
    ensures Score(query, target) >= 1001
  {
    NonBlankIsNonEmpty(query);
  }

  /** Of two texts of one length that both contain the query, the one whose first
      occurrence comes earlier scores strictly higher. */
  lemma {:induction false} EarlierSubstringScoresHigher(query: string, t1: string, t2: string)
    requires !IsBlank(query) && |t1| == |t2|
    requires 0 <= IndexOf(Lower(t1), Lower(query)) < IndexOf(Lower(t2), Lower(query))
    ensures Score(query, t1) > Score(query, t2)
  {
    SubstringScore(query, t1);
    SubstringScore(query, t2);
  }

  /** For a query that is not blank the score is positive exactly when the
      lower-cased query is a subsequence of the lower-cased text. */
  lemma {:induction false} ScorePositiveIffSubsequence(query: string, target: string)
    requires !IsBlank(query)
    ensures Score(query, target) > 0 <==> IsSubsequence(Lower(query), Lower(target))
  {
    var lq, lt := Lower(query), Lower(target);
    NonBlankIsNonEmpty(query);
    var k := IndexOf(lt, lq);
    if k >= 0 {
      SubstringIsSubsequence(lq, lt, k);
    } else {
      WalkBounds(lq, lt, |lt|);
      WalkDecidesSubsequence(lq, lt);
    }
  }

  /** Scoring ignores case: lower-casing the query and the text first changes nothing. */
  lemma {:induction false} ScoreIgnoresCase(query: string, target: string)
    ensures Score(query, target) == Score(Lower(query), Lower(target))
  {
    LowerKeepsBlank(query);
    LowerIdempotent(query);
    LowerIdempotent(target);
  }

  /** A query that is not blank scores 0 against the empty text. */
  lemma {:induction false} EmptyTargetScoresZero(query: string)
    requires !IsBlank(query)
    ensures Score(query, []) == 0
  {
    NonBlankIsNonEmpty(query);
  }

  /** `fuzzyMatchScore`: blank queries score 1, substring matches 1000 plus the
      position bonus, otherwise the streak-and-position score of the greedy walk
      if it consumes the whole query, else 0. */
  method FuzzyMatchScore(query: string, target: string) returns (r: int)
    ensures r == Score(query, target)
    ensures r >= 0
    ensures IsBlank(query) ==> r == 1
    ensures !IsBlank(query) ==> (r > 0 <==> IsSubsequence(Lower(query), Lower(target)))
  {
    if IsBlank(query) {
      return 1;
    }
    ScorePositiveIffSubsequence(query, target);
    var lq := Lower(query);
    var lt := Lower(target);
    var k := IndexOf(lt, lq);
    if k >= 0 {
      return 1000 + (|lt| - k);
    }
    var score, queryIndex, streak := 0, 0, 0;
    for i := 0 to |lt|
      invariant 0 <= queryIndex <= |lq|
      invariant 0 <= streak <= queryIndex
      invariant score >= queryIndex
      invariant WalkState(score, queryIndex, streak) == Walk(lq, lt, i)
    {
      if queryIndex < |lq| && lt[i] == lq[queryIndex] {
        queryIndex := queryIndex + 1;
        streak := streak + 1;
        score := score + streak + (|lt| - i);
      } else {
        streak := 0;
      }
    }
    r := if queryIndex == |lq| then score else 0;
  }
}
