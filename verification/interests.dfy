/**
 * The interest records returned by the autocomplete service and the
 * order-keeping filter (`Array.prototype.filter`) the ranking is built from.
 */
module Interests {
  import opened Options
  import opened Text

  /**
   * One autocomplete record. `score` is the record's `match` field, the
   * service's relevance number (higher is more relevant).
   */
  datatype Interest = Interest(id: string, name: string, avatar: Option<string>, score: int)

  /** The lower-cased name, the form every comparison in the search uses. */
  function Key(it: Interest): string {
    Lower(it.name)
  }

  /** The tests the search filters interests by. */
  datatype Criterion =
    | PrefixOf(word: string)      // the key starts with `word`
    | InnerMatchOf(word: string)  // the key contains `word` but does not start with it
    | MatchOf(word: string)       // the key contains `word`
    | ScoreIs(score: int)         // the interest's score is exactly `score`

  predicate Holds(c: Criterion, it: Interest) {
    match c
    case PrefixOf(w) => StartsWith(Key(it), w)
    case InnerMatchOf(w) => Contains(Key(it), w) && !StartsWith(Key(it), w)
    case MatchOf(w) => Contains(Key(it), w)
    case ScoreIs(k) => it.score == k
  }

  /** `s.filter(c)`: the items of `s` satisfying `c`, in their order in `s`. */
  function Select(c: Criterion, s: seq<Interest>): seq<Interest> {
    if s == [] then []
    else (if Holds(c, s[0]) then [s[0]] else []) + Select(c, s[1..])
  }

  /**
   * The filter keeps exactly the items passing the test, each as often as it
   * occurs in `s`, and drops the rest.
   */
  lemma {:induction false} SelectCounts(c: Criterion, s: seq<Interest>)
    ensures forall x :: multiset(Select(c, s))[x] == if Holds(c, x) then multiset(s)[x] else 0
  {
    if s != [] {
      assert s == [s[0]] + s[1..];
      SelectCounts(c, s[1..]);
    }
  }

  /** Membership in the filtered sequence. */
  lemma SelectMembers(c: Criterion, s: seq<Interest>)
    ensures forall x :: x in Select(c, s) <==> x in s && Holds(c, x)
    ensures multiset(Select(c, s)) <= multiset(s)
  {
    SelectCounts(c, s);
    forall x
      ensures x in Select(c, s) <==> x in s && Holds(c, x)
    {
      assert x in Select(c, s) <==> x in multiset(Select(c, s));
      assert x in s <==> x in multiset(s);
    }
  }

  /** No item occurs twice. */
  predicate Distinct(s: seq<Interest>) {
    forall i, j :: 0 <= i < j < |s| ==> s[i] != s[j]
  }

  lemma SelectSingle(c: Criterion, x: Interest)
    ensures Select(c, [x]) == if Holds(c, x) then [x] else []
  {
    assert [x][1..] == [];
  }

  lemma {:induction false} SelectConcat(c: Criterion, a: seq<Interest>, b: seq<Interest>)
    ensures Select(c, a + b) == Select(c, a) + Select(c, b)
  {
    if a == [] {
      assert a + b == b;
    } else {
      assert (a + b)[1..] == a[1..] + b;
      SelectConcat(c, a[1..], b);
    }
  }

  /** Filtering by a test every item passes changes nothing. */
  lemma {:induction false} SelectAll(c: Criterion, s: seq<Interest>)
    requires forall x :: x in s ==> Holds(c, x)
    ensures Select(c, s) == s
  {
    if s != [] {
      SelectAll(c, s[1..]);
    }
  }

  /** Filtering by a test no item passes leaves nothing. */
  lemma SelectNone(c: Criterion, s: seq<Interest>)
    requires forall x :: x in s ==> !Holds(c, x)
    ensures Select(c, s) == []
  {
  }

  /**
   * Every match is a prefix match or an inner match and never both, so the
   * two groups together hold each matching item exactly as often as `s` does.
   */
  lemma {:induction false} MatchSplits(w: string, s: seq<Interest>)
    ensures multiset(Select(MatchOf(w), s))
         == multiset(Select(PrefixOf(w), s)) + multiset(Select(InnerMatchOf(w), s))
  {
    if s != [] {
      var x := s[0];
      var rest := s[1..];
      assert s == [x] + rest;
      MatchSplits(w, rest);
      SelectConcat(MatchOf(w), [x], rest);
      SelectConcat(PrefixOf(w), [x], rest);
      SelectConcat(InnerMatchOf(w), [x], rest);
      SelectSingle(MatchOf(w), x);
      SelectSingle(PrefixOf(w), x);
      SelectSingle(InnerMatchOf(w), x);
      if StartsWith(Key(x), w) {
        PrefixIsContained(Key(x), w);
      }
    }
  }

  /** A repeat-free sequence holds each item at most once. */
  lemma {:induction false} DistinctCounts(s: seq<Interest>, x: Interest)
    requires Distinct(s)
    ensures multiset(s)[x] <= 1
  {
    if s != [] {
      assert s == [s[0]] + s[1..];
      assert Distinct(s[1..]);
      DistinctCounts(s[1..], x);
      if x == s[0] {
        assert x !in s[1..];
      }
    }
  }

  /** Two equal entries make an item occur at least twice. */
  lemma RepeatCounts(s: seq<Interest>, i: nat, j: nat)
    requires i < j < |s|
    ensures s[i] == s[j] ==> multiset(s)[s[j]] >= 2
  {
    assert s == s[..j] + [s[j]] + s[j + 1..];
    assert s[i] in s[..j];
  }

  /** A sequence holding each item at most once has no repeats. */
  lemma CountsDistinct(s: seq<Interest>)
    requires forall x :: multiset(s)[x] <= 1
    ensures Distinct(s)
  {
    forall i, j | 0 <= i < j < |s|
      ensures s[i] != s[j]
    {
      RepeatCounts(s, i, j);
    }
  }

  /** Dropping items and reordering the rest never creates a repeat. */
  lemma SubMultisetDistinct(r: seq<Interest>, s: seq<Interest>)
    requires multiset(r) <= multiset(s)
    requires Distinct(s)
    ensures Distinct(r)
  {
    forall x
      ensures multiset(r)[x] <= 1
    {
      DistinctCounts(s, x);
    }
    CountsDistinct(r);
  }
}
