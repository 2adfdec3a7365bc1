/** Kotlin's stable `sortedByDescending`, for lists of streams decorated with
    their sort key and their position in the input. Ordering by key, and on equal
    keys by input position, is a strict total order on such a list, so the sorted
    result is both descending and stable. */
module Ranking {
  import opened Data

  /** A stream with its sort key and its position in the list being sorted. */
  datatype Ranked = Ranked(pos: nat, stream: LofiStream, key: int)

  /** `a` comes first: a larger key, or an equal key and an earlier position. */
  predicate Before(a: Ranked, b: Ranked) {
    a.key > b.key || (a.key == b.key && a.pos < b.pos)
  }

  predicate StrictlySorted(xs: seq<Ranked>) {
    forall i, j :: 0 <= i < j < |xs| ==> Before(xs[i], xs[j])
  }

  predicate DistinctPositions(xs: seq<Ranked>) {
    forall i, j :: 0 <= i < j < |xs| ==> xs[i].pos != xs[j].pos
  }

  /** The streams of a decorated list, in its order. */
  function Streams(xs: seq<Ranked>): (r: seq<LofiStream>)
    ensures |r| == |xs| && forall i :: 0 <= i < |xs| ==> r[i] == xs[i].stream
  {
    seq(|xs|, i requires 0 <= i < |xs| => xs[i].stream)
  }

  /** Inserts `x` into a sorted list at its place. */
  function Insert(x: Ranked, xs: seq<Ranked>): (r: seq<Ranked>)
    requires StrictlySorted(xs)
    requires forall y :: y in xs ==> y.pos != x.pos
    ensures StrictlySorted(r)
    ensures multiset(r) == multiset(xs) + multiset{x}
  {
    if xs == [] then [x]
    else if Before(x, xs[0]) then [x] + xs
    else
      var rest := Insert(x, xs[1..]);
      InsertBehindHead(x, xs, rest);
      [xs[0]] + rest
  }

  /** When `x` goes behind the head, the head stays in front of the tail with `x` inserted. */
  lemma InsertBehindHead(x: Ranked, xs: seq<Ranked>, rest: seq<Ranked>)
    requires xs != [] && StrictlySorted(xs) && !Before(x, xs[0]) && xs[0].pos != x.pos
    requires StrictlySorted(rest) && multiset(rest) == multiset(xs[1..]) + multiset{x}
    ensures StrictlySorted([xs[0]] + rest)
    ensures multiset([xs[0]] + rest) == multiset(xs) + multiset{x}
  {
    forall z | z in rest ensures Before(xs[0], z) {
      assert z in multiset(rest);
      if z != x {
        assert z in xs[1..];
        var k :| 0 <= k < |xs[1..]| && xs[1..][k] == z;
        assert xs[k + 1] == z;
      }
    }
    var r := [xs[0]] + rest;
    forall i, j | 0 <= i < j < |r| ensures Before(r[i], r[j]) {
      if i == 0 {
        assert r[j] in rest;
      } else {
        assert r[i] == rest[i - 1] && r[j] == rest[j - 1];
      }
    }
    assert xs == [xs[0]] + xs[1..];
  }

  /** With distinct positions, the tail has distinct positions, and the head's
      position recurs nowhere among the tail's elements. */
  lemma HeadPositionNotInTail(xs: seq<Ranked>)
    requires xs != [] && DistinctPositions(xs)
    ensures DistinctPositions(xs[1..])
    ensures forall y :: y in multiset(xs[1..]) ==> y.pos != xs[0].pos
  {
    var tail := xs[1..];
    forall i, j | 0 <= i < j < |tail| ensures tail[i].pos != tail[j].pos {
      assert tail[i] == xs[i + 1] && tail[j] == xs[j + 1];
    }
    forall y | y in multiset(tail) ensures y.pos != xs[0].pos {
      var k :| 0 <= k < |tail| && tail[k] == y;
      assert xs[k + 1] == y;
    }
  }

  /** Insertion sort under `Before`: the result is ordered and a permutation. */
  function SortDescending(xs: seq<Ranked>): (r: seq<Ranked>)
    requires DistinctPositions(xs)
    ensures StrictlySorted(r)
    ensures multiset(r) == multiset(xs)
  {
    if xs == [] then []
    else
      TailDistinct(xs);
      var rest := SortDescending(xs[1..]);
      SortStep(xs, rest);
      Insert(xs[0], rest)
  }

  lemma TailDistinct(xs: seq<Ranked>)
    requires xs != [] && DistinctPositions(xs)
    ensures DistinctPositions(xs[1..])
  {
    HeadPositionNotInTail(xs);
  }

  /** The sorted tail has no element at the head's position, and with the head
      it holds the elements of the whole list. */
  lemma SortStep(xs: seq<Ranked>, rest: seq<Ranked>)
    requires xs != [] && DistinctPositions(xs)
    requires multiset(rest) == multiset(xs[1..])
    ensures forall y :: y in rest ==> y.pos != xs[0].pos
    ensures multiset(rest) + multiset{xs[0]} == multiset(xs)
  {
    HeadPositionNotInTail(xs);
    PositionNotInPermutation(xs[0], xs[1..], rest);
    assert xs == [xs[0]] + xs[1..];
  }

  /** A position absent from a list is absent from every permutation of it. */
  lemma PositionNotInPermutation(x: Ranked, xs: seq<Ranked>, ys: seq<Ranked>)
    requires multiset(ys) == multiset(xs)
    requires forall y :: y in multiset(xs) ==> y.pos != x.pos
    ensures forall y :: y in ys ==> y.pos != x.pos
  {
    forall y | y in ys ensures y.pos != x.pos {
      assert y in multiset(ys);
    }
  }

  lemma StreamsAppend(a: seq<Ranked>, b: seq<Ranked>)
    ensures Streams(a + b) == Streams(a) + Streams(b)
  {
  }

  /** Inserting adds exactly the inserted stream to the streams listed. */
  lemma {:induction false} InsertStreams(x: Ranked, xs: seq<Ranked>)
    requires StrictlySorted(xs)
    requires forall y :: y in xs ==> y.pos != x.pos
    ensures multiset(Streams(Insert(x, xs))) == multiset(Streams(xs)) + multiset{x.stream}
  {
    if xs == [] {
    } else if Before(x, xs[0]) {
      StreamsAppend([x], xs);
    } else {
      InsertStreams(x, xs[1..]);
      StreamsAppend([xs[0]], Insert(x, xs[1..]));
      StreamsAppend([xs[0]], xs[1..]);
      assert xs == [xs[0]] + xs[1..];
    }
  }

  /** Sorting lists the same streams, each as often. */
  lemma {:induction false} SortStreams(xs: seq<Ranked>)
    requires DistinctPositions(xs)
    ensures multiset(Streams(SortDescending(xs))) == multiset(Streams(xs))
  {
    if xs != [] {
      var tail := xs[1..];
      HeadPositionNotInTail(xs);
      var rest := SortDescending(tail);
      assert forall y :: y in rest ==> y.pos != xs[0].pos by {
        forall y | y in rest ensures y.pos != xs[0].pos {
          assert y in multiset(rest);
        }
      }
      assert SortDescending(xs) == Insert(xs[0], rest);
      SortStreams(tail);
      InsertStreams(xs[0], rest);
      ConsStreams(xs);
    }
  }

  lemma ConsStreams(xs: seq<Ranked>)
    requires xs != []
    ensures multiset(Streams(xs)) == multiset(Streams(xs[1..])) + multiset{xs[0].stream}
  {
    assert Streams(xs) == [xs[0].stream] + Streams(xs[1..]);
  }
}
