/**
 * `filterInterests` (App.tsx): prefix matches in input order, then the other
 * matches by descending score, everything else dropped.
 */
module Ranking {
  import opened Text
  import opened Interests
  import opened Sorting

  /** The search word: the query trimmed, then lower-cased. */
  function Normalize(q: string): string {
    Lower(Trim(q))
  }

  /**
   * The ranking for an already normalised search word `w`: prefix matches in
   * input order, then the other matches sorted by score.
   */
  function RankWord(w: string, items: seq<Interest>): seq<Interest> {
    Select(PrefixOf(w), items) + SortByScore(Select(InnerMatchOf(w), items))
  }

  /** The displayed list for query `q` over `items`. */
  function Rank(q: string, items: seq<Interest>): seq<Interest> {
    RankWord(Normalize(q), items)
  }

  /**
   * The ranked list holds exactly the items whose lower-cased name contains
   * the search word, each as often as `items` does: nothing is added,
   * duplicated or lost among the matches.
   */
  lemma RankWordCounts(w: string, items: seq<Interest>)
    ensures multiset(RankWord(w, items)) == multiset(Select(MatchOf(w), items))
  {
    MatchSplits(w, items);
  }

  lemma RankCounts(q: string, items: seq<Interest>)
    ensures multiset(Rank(q, items)) == multiset(Select(MatchOf(Normalize(q)), items))
    ensures multiset(Rank(q, items)) <= multiset(items)
  {
    RankWordCounts(Normalize(q), items);
    SelectMembers(MatchOf(Normalize(q)), items);
  }

  /** An item is displayed exactly when it is in the list and its name contains the search word. */
  lemma RankMembers(q: string, items: seq<Interest>)
    ensures forall x :: x in Rank(q, items) <==> x in items && Holds(MatchOf(Normalize(q)), x)
  {
    var r := Rank(q, items);
    var m := Select(MatchOf(Normalize(q)), items);
    RankCounts(q, items);
    SelectMembers(MatchOf(Normalize(q)), items);
    forall x
      ensures x in r <==> x in m
    {
      assert x in r <==> x in multiset(r);
      assert x in m <==> x in multiset(m);
    }
  }

  /** The two groups `RankWord` concatenates, and what each is made of. */
  lemma RankWordGroups(w: string, items: seq<Interest>)
    ensures forall x :: x in Select(PrefixOf(w), items) ==> Holds(PrefixOf(w), x)
    ensures forall x :: x in SortByScore(Select(InnerMatchOf(w), items)) ==> Holds(InnerMatchOf(w), x)
  {
    var m := Select(InnerMatchOf(w), items);
    var s := SortByScore(m);
    SelectMembers(PrefixOf(w), items);
    SelectMembers(InnerMatchOf(w), items);
    forall x | x in s
      ensures Holds(InnerMatchOf(w), x)
    {
      assert x in multiset(s);
      assert x in multiset(m);
    }
  }

  /** Every prefix match of the result comes before every other match. */
  lemma RankWordPrefixFirst(w: string, items: seq<Interest>)
    ensures var r := RankWord(w, items);
            forall i, j :: 0 <= i < j < |r| && Holds(PrefixOf(w), r[j]) ==> Holds(PrefixOf(w), r[i])
  {
    var p := Select(PrefixOf(w), items);
    var s := SortByScore(Select(InnerMatchOf(w), items));
    var r := RankWord(w, items);
    RankWordGroups(w, items);
    forall i, j | 0 <= i < j < |r|
      ensures Holds(PrefixOf(w), r[j]) ==> Holds(PrefixOf(w), r[i])
    {
      if i < |p| {
        assert r[i] == p[i];
        assert r[i] in p;
      } else {
        assert r[j] == s[j - |p|];
        assert r[j] in s;
      }
    }
  }

  /** The prefix matches come out exactly as they came in: same items, same order. */
  lemma RankWordKeepsPrefixOrder(w: string, items: seq<Interest>)
    ensures Select(PrefixOf(w), RankWord(w, items)) == Select(PrefixOf(w), items)
  {
    var p := Select(PrefixOf(w), items);
    var s := SortByScore(Select(InnerMatchOf(w), items));
    RankWordGroups(w, items);
    SelectConcat(PrefixOf(w), p, s);
    SelectAll(PrefixOf(w), p);
    SelectNone(PrefixOf(w), s);
  }

  /** The other matches of the result are exactly the sorted other matches of the input. */
  lemma RankWordInnerGroup(w: string, items: seq<Interest>)
    ensures Select(InnerMatchOf(w), RankWord(w, items)) == SortByScore(Select(InnerMatchOf(w), items))
  {
    var p := Select(PrefixOf(w), items);
    var s := SortByScore(Select(InnerMatchOf(w), items));
    RankWordGroups(w, items);
    SelectConcat(InnerMatchOf(w), p, s);
    SelectNone(InnerMatchOf(w), p);
    SelectAll(InnerMatchOf(w), s);
  }

  /**
   * The other matches come out ordered by non-increasing score, and those of
   * equal score keep their input order.
   */
  lemma RankWordOrdersInnerMatches(w: string, items: seq<Interest>)
    ensures SortedDesc(Select(InnerMatchOf(w), RankWord(w, items)))
    ensures StableFor(Select(InnerMatchOf(w), RankWord(w, items)), Select(InnerMatchOf(w), items))
  {
    RankWordInnerGroup(w, items);
  }

  /** What a correctly ranked list `t` for search word `w` over `items` looks like. */
  ghost predicate RankedFor(w: string, items: seq<Interest>, t: seq<Interest>) {
    && (forall x :: x in t ==> Holds(MatchOf(w), x))
    && (forall i, j :: 0 <= i < j < |t| && Holds(PrefixOf(w), t[j]) ==> Holds(PrefixOf(w), t[i]))
    && Select(PrefixOf(w), t) == Select(PrefixOf(w), items)
    && SortedDesc(Select(InnerMatchOf(w), t))
    && StableFor(Select(InnerMatchOf(w), t), Select(InnerMatchOf(w), items))
  }

  /**
   * A list of matches whose prefix matches come first splits into its prefix
   * matches followed by its other matches.
   */
  lemma {:induction false} BlockSplit(w: string, t: seq<Interest>)
    requires forall x :: x in t ==> Holds(MatchOf(w), x)
    requires forall i, j :: 0 <= i < j < |t| && Holds(PrefixOf(w), t[j]) ==> Holds(PrefixOf(w), t[i])
    ensures t == Select(PrefixOf(w), t) + Select(InnerMatchOf(w), t)
  {
    if t != [] {
      var rest := t[1..];
      assert t == [t[0]] + rest;
      if Holds(PrefixOf(w), t[0]) {
        forall i, j | 0 <= i < j < |rest| && Holds(PrefixOf(w), rest[j])
          ensures Holds(PrefixOf(w), rest[i])
        {
          assert rest[i] == t[i + 1] && rest[j] == t[j + 1];
        }
        BlockSplit(w, rest);
        SelectConcat(PrefixOf(w), [t[0]], rest);
        SelectSingle(PrefixOf(w), t[0]);
        SelectConcat(InnerMatchOf(w), [t[0]], rest);
        SelectSingle(InnerMatchOf(w), t[0]);
      } else {
        forall x | x in t
          ensures !Holds(PrefixOf(w), x)
        {
          var j :| 0 <= j < |t| && t[j] == x;
        }
        SelectNone(PrefixOf(w), t);
        SelectAll(InnerMatchOf(w), t);
      }
    }
  }

  /** `RankWord` produces a correctly ranked list. */
  lemma RankWordIsRanked(w: string, items: seq<Interest>)
    ensures RankedFor(w, items, RankWord(w, items))
  {
    var r := RankWord(w, items);
    RankWordCounts(w, items);
    SelectMembers(MatchOf(w), items);
    forall x | x in r
      ensures Holds(MatchOf(w), x)
    {
      assert x in multiset(r);
    }
    RankWordPrefixFirst(w, items);
    RankWordKeepsPrefixOrder(w, items);
    RankWordOrdersInnerMatches(w, items);
  }

  /** A correctly ranked list is the one `RankWord` produces: the ranking is fully determined. */
  lemma RankWordUnique(w: string, items: seq<Interest>, t: seq<Interest>)
    requires RankedFor(w, items, t)
    ensures t == RankWord(w, items)
  {
    BlockSplit(w, t);
    SortByScoreUnique(Select(InnerMatchOf(w), items), Select(InnerMatchOf(w), t));
  }

  /**
   * When `x` starts with the word and nothing after it contains the word, the
   * ranking of `[x] + rest` is `x` alone.
   */
  lemma RankWordSoleMatch(w: string, x: Interest, rest: seq<Interest>)
    requires Holds(PrefixOf(w), x)
    requires forall y :: y in rest ==> !Holds(MatchOf(w), y)
    ensures RankWord(w, [x] + rest) == [x]
  {
    forall y | y in rest
      ensures !Holds(PrefixOf(w), y) && !Holds(InnerMatchOf(w), y)
    {
      if Holds(PrefixOf(w), y) {
        PrefixIsContained(Key(y), w);
      }
    }
    SelectConcat(PrefixOf(w), [x], rest);
    SelectConcat(InnerMatchOf(w), [x], rest);
    SelectSingle(PrefixOf(w), x);
    SelectSingle(InnerMatchOf(w), x);
    SelectNone(PrefixOf(w), rest);
    SelectNone(InnerMatchOf(w), rest);
  }

  /**
   * `Rank` is characterised by `RankedFor`: a list is the displayed list for
   * `q` exactly when it is correctly ranked for the normalised query.
   */
  lemma RankCharacterized(q: string, items: seq<Interest>, t: seq<Interest>)
    ensures t == Rank(q, items) <==> RankedFor(Normalize(q), items, t)
  {
    RankWordIsRanked(Normalize(q), items);
    if RankedFor(Normalize(q), items, t) {
      RankWordUnique(Normalize(q), items, t);
    }
  }

  /** Ranking an already ranked list for the same word changes nothing. */
  lemma RankWordIdempotent(w: string, items: seq<Interest>)
    ensures RankWord(w, RankWord(w, items)) == RankWord(w, items)
  {
    var r := RankWord(w, items);
    RankWordIsRanked(w, items);
    RankWordKeepsPrefixOrder(w, r);
    RankWordInnerGroup(w, items);
    var inner := Select(InnerMatchOf(w), r);
    SortedIsFixpoint(inner);
    BlockSplit(w, r);
  }

  /** Ranking an already ranked list with the same query changes nothing. */
  lemma RankIdempotent(q: string, items: seq<Interest>)
    ensures Rank(q, Rank(q, items)) == Rank(q, items)
  {
    RankWordIdempotent(Normalize(q), items);
  }

  /** When the source has no repeated item, neither has the ranked list. */
  lemma RankDistinct(q: string, items: seq<Interest>)
    requires Distinct(items)
    ensures Distinct(Rank(q, items))
  {
    RankCounts(q, items);
    SubMultisetDistinct(Rank(q, items), items);
  }

  /**
   * A query of white space only searches for the empty word, which every name
   * starts with: the whole list comes back unchanged.
   */
  lemma RankBlankQuery(q: string, items: seq<Interest>)
    requires Trim(q) == []
    ensures Rank(q, items) == items
  {
    var w := Normalize(q);
    assert w == [];
    forall x | x in items
      ensures Holds(PrefixOf(w), x)
    {
    }
    SelectAll(PrefixOf(w), items);
    SelectNone(InnerMatchOf(w), items);
  }
}
