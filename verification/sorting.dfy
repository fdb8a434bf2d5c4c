/**
 * The sort of the inner matches (App.tsx:60): a stable sort by score,
 * highest first. `Array.prototype.sort` is stable, so interests of equal score
 * keep their relative order; the model is an insertion sort with that property.
 */
module Sorting {
  import opened Interests

  /** Scores never increase from left to right. */
  predicate SortedDesc(s: seq<Interest>) {
    forall i, j :: 0 <= i < j < |s| ==> s[i].score >= s[j].score
  }

  /** `t` lists the interests of each score exactly as `s` does, in the same order. */
  ghost predicate StableFor(t: seq<Interest>, s: seq<Interest>) {
    forall k :: Select(ScoreIs(k), t) == Select(ScoreIs(k), s)
  }

  /** Puts `x` in front of the first interest whose score is not above its own. */
  function Insert(x: Interest, t: seq<Interest>): seq<Interest> {
    if t == [] || x.score >= t[0].score then [x] + t
    else [t[0]] + Insert(x, t[1..])
  }

  /** Inserting into a sorted sequence keeps it sorted; the new head is `x` or the old one. */
  lemma {:induction false} InsertSorted(x: Interest, t: seq<Interest>)
    requires SortedDesc(t)
    ensures SortedDesc(Insert(x, t))
    ensures |Insert(x, t)| == |t| + 1
    ensures Insert(x, t)[0] == x || (t != [] && Insert(x, t)[0] == t[0])
  {
    if t != [] && x.score < t[0].score {
      InsertSorted(x, t[1..]);
    }
  }

  /** Inserting adds exactly one occurrence of `x` and nothing else. */
  lemma {:induction false} InsertCounts(x: Interest, t: seq<Interest>)
    ensures multiset(Insert(x, t)) == multiset(t) + multiset{x}
  {
    if t != [] && x.score < t[0].score {
      InsertCounts(x, t[1..]);
      assert t == [t[0]] + t[1..];
    }
  }

  /**
   * Within its own score, `x` lands in front of every interest of `t`: the
   * insertion is stable when `x` came before all of `t` in the input.
   */
  lemma {:induction false} InsertSelect(x: Interest, t: seq<Interest>, k: int)
    ensures Select(ScoreIs(k), Insert(x, t))
         == (if x.score == k then [x] else []) + Select(ScoreIs(k), t)
  {
    var c := ScoreIs(k);
    SelectSingle(c, x);
    if t == [] || x.score >= t[0].score {
      SelectConcat(c, [x], t);
    } else {
      var rest := Insert(x, t[1..]);
      assert t == [t[0]] + t[1..];
      InsertSelect(x, t[1..], k);
      SelectConcat(c, [t[0]], rest);
      SelectConcat(c, [t[0]], t[1..]);
      SelectSingle(c, t[0]);
    }
  }

  lemma InsertStable(x: Interest, t: seq<Interest>, u: seq<Interest>)
    requires StableFor(t, u)
    ensures StableFor(Insert(x, t), [x] + u)
  {
    forall k
      ensures Select(ScoreIs(k), Insert(x, t)) == Select(ScoreIs(k), [x] + u)
    {
      InsertSelect(x, t, k);
      SelectConcat(ScoreIs(k), [x], u);
    }
  }

  /**
   * The score sort: the result is ordered by non-increasing score, is a
   * permutation of `s`, and keeps the input order among equal scores.
   */
  function SortByScore(s: seq<Interest>): (r: seq<Interest>)
    ensures SortedDesc(r)
    ensures multiset(r) == multiset(s)
    ensures StableFor(r, s)
  {
    if s == [] then []
    else
      var t := SortByScore(s[1..]);
      assert s == [s[0]] + s[1..];
      InsertSorted(s[0], t);
      InsertCounts(s[0], t);
      InsertStable(s[0], t, s[1..]);
      Insert(s[0], t)
  }

  /** The first interest of a non-empty per-score group is the sequence's first. */
  lemma HeadSelect(a: seq<Interest>)
    requires a != []
    ensures Select(ScoreIs(a[0].score), a) == [a[0]] + Select(ScoreIs(a[0].score), a[1..])
  {
  }

  /** An interest of score `k` in `b` makes the group of `k` in `b` non-empty. */
  lemma NonEmptyGroupBoundsHead(a: seq<Interest>, b: seq<Interest>)
    requires a != [] && b != []
    requires SortedDesc(b)
    requires Select(ScoreIs(a[0].score), a) == Select(ScoreIs(a[0].score), b)
    ensures b[0].score >= a[0].score
  {
    var c := ScoreIs(a[0].score);
    HeadSelect(a);
    SelectMembers(c, b);
    assert a[0] in Select(c, b);
    var j :| 0 <= j < |b| && b[j] == a[0];
  }

  /** A non-empty sequence has a non-empty group for its own first score. */
  lemma HeadGroupNonEmpty(a: seq<Interest>)
    requires a != []
    ensures Select(ScoreIs(a[0].score), a) != []
  {
    HeadSelect(a);
  }

  /** Dropping the first interest keeps a sequence score-sorted. */
  lemma SortedTail(a: seq<Interest>)
    requires a != [] && SortedDesc(a)
    ensures SortedDesc(a[1..])
  {
    forall i, j | 0 <= i < j < |a| - 1
      ensures a[1..][i].score >= a[1..][j].score
    {
      assert a[1..][i] == a[i + 1] && a[1..][j] == a[j + 1];
    }
  }

  /**
   * Uniqueness of the stable order: two score-sorted sequences that agree on
   * every per-score group are equal.
   */
  lemma {:induction false} SortedStableUnique(a: seq<Interest>, b: seq<Interest>)
    requires SortedDesc(a) && SortedDesc(b)
    requires StableFor(a, b)
    ensures a == b
    decreases |a| + |b|
  {
    if a != [] {
      HeadGroupNonEmpty(a);
      assert Select(ScoreIs(a[0].score), b) != [];
      assert b != [];
    }
    if b != [] {
      HeadGroupNonEmpty(b);
      assert Select(ScoreIs(b[0].score), a) != [];
      assert a != [];
    }
    if a != [] && b != [] {
      NonEmptyGroupBoundsHead(a, b);
      NonEmptyGroupBoundsHead(b, a);
      var k0 := a[0].score;
      HeadSelect(a);
      HeadSelect(b);
      assert Select(ScoreIs(k0), a) == Select(ScoreIs(k0), b);
      assert a[0] == Select(ScoreIs(k0), a)[0] == Select(ScoreIs(k0), b)[0] == b[0];
      forall k | true
        ensures Select(ScoreIs(k), a[1..]) == Select(ScoreIs(k), b[1..])
      {
        var c := ScoreIs(k);
        assert a == [a[0]] + a[1..];
        assert b == [b[0]] + b[1..];
        SelectConcat(c, [a[0]], a[1..]);
        SelectConcat(c, [b[0]], b[1..]);
        var h := Select(c, [a[0]]);
        assert Select(c, a) == h + Select(c, a[1..]);
        assert Select(c, b) == h + Select(c, b[1..]);
        assert Select(c, a) == Select(c, b);
        assert Select(c, a)[|h|..] == Select(c, a[1..]);
        assert Select(c, b)[|h|..] == Select(c, b[1..]);
      }
      SortedTail(a);
      SortedTail(b);
      SortedStableUnique(a[1..], b[1..]);
      assert a == [a[0]] + a[1..];
      assert b == [b[0]] + b[1..];
    }
  }

  /**
   * `SortByScore` is the only stable score order: any score-sorted `t` that
   * keeps each score group of `s` in its input order is `SortByScore(s)`.
   */
  lemma SortByScoreUnique(s: seq<Interest>, t: seq<Interest>)
    requires SortedDesc(t)
    requires StableFor(t, s)
    ensures t == SortByScore(s)
  {
    SortedStableUnique(t, SortByScore(s));
  }

  /** Sorting an already sorted sequence leaves it as it is. */
  lemma SortedIsFixpoint(s: seq<Interest>)
    requires SortedDesc(s)
    ensures SortByScore(s) == s
  {
    SortByScoreUnique(s, s);
  }
}
