/**
 * The cache gate of the debounced effect (App.tsx): a committed search is
 * served from the cached interests when one of them starts with it, and
 * fetched otherwise. The gate compares against the search as typed, without
 * trimming it, while the ranking trims.
 */
module Gate {
  import opened Options
  import opened Text
  import opened Interests
  import opened Ranking

  /** Whether some cached interest's lower-cased name starts with the lower-cased search, as typed. */
  function HasMatchingInterest(cache: seq<Interest>, search: string): (b: bool)
    ensures b <==> exists i :: 0 <= i < |cache| && Holds(PrefixOf(Lower(search)), cache[i])
  {
    if cache == [] then false
    else if Holds(PrefixOf(Lower(search)), cache[0]) then true
    else
      var b := HasMatchingInterest(cache[1..], search);
      assert forall i :: 0 < i < |cache| ==> cache[i] == cache[1..][i - 1];
      b
  }

  /**
   * Every cached interest that made the gate choose reuse is shown by the
   * re-ranking: the untrimmed, lower-cased search contains the trimmed one.
   */
  lemma ReuseShowsWitnesses(cache: seq<Interest>, search: string)
    ensures forall x :: x in cache && Holds(PrefixOf(Lower(search)), x) ==> x in Rank(search, cache)
  {
    RankMembers(search, cache);
    forall x | x in cache && Holds(PrefixOf(Lower(search)), x)
      ensures Holds(MatchOf(Normalize(search)), x)
    {
      StartsWithLowerContainsNormalized(Key(x), search);
    }
  }

  /** When the gate chooses reuse, the re-ranked cache is never empty. */
  lemma ReuseIsNeverEmpty(cache: seq<Interest>, search: string)
    requires HasMatchingInterest(cache, search)
    ensures Rank(search, cache) != []
  {
    var i :| 0 <= i < |cache| && Holds(PrefixOf(Lower(search)), cache[i]);
    ReuseShowsWitnesses(cache, search);
    assert cache[i] in Rank(search, cache);
  }

  /** The search "ca " is lower-case already and trims to "ca". */
  lemma CaSpaceNormalizes()
    ensures Lower("ca ") == "ca " && Normalize("ca ") == "ca"
  {
    LowerKeepsLowercase("ca ");
    LowerKeepsLowercase("ca");
    assert LeadingSpaces("ca ") == 0;
    assert "ca "[..2] == "ca";
    assert TrailingSpaces("ca") == 0;
    assert TrailingSpaces("ca ") == 1;
    assert Trim("ca ") == "ca "[..2];
  }

  /** The key of an interest named "cat" is "cat"; it starts with "ca" but not with "ca ". */
  lemma CatKey(x: Interest)
    requires x.name == "cat"
    ensures Key(x) == "cat"
    ensures StartsWith(Key(x), "ca") && !StartsWith(Key(x), "ca ")
  {
    LowerKeepsLowercase("cat");
    assert "cat"[..2] == "ca";
    assert "cat"[2] != "ca "[2];
  }

  /** An interest named "cat" does not pass the gate for "ca ". */
  lemma CatFailsCaSpace(x: Interest)
    requires x.name == "cat"
    ensures !HasMatchingInterest([x], "ca ")
  {
    CaSpaceNormalizes();
    CatKey(x);
  }

  /** Ranking the cache `[x]` with `x` named "cat" for "ca " shows `x`. */
  lemma CaSpaceRanksCat(x: Interest)
    requires x.name == "cat"
    ensures Rank("ca ", [x]) == [x]
  {
    CaSpaceNormalizes();
    CatKey(x);
    assert [x] + [] == [x];
    RankWordSoleMatch("ca", x, []);
  }

  /**
   * The gate does not trim: with "cat" cached, the search "ca " is sent to
   * the service although ranking the cache for it would show "cat".
   */
  lemma GateDoesNotTrim()
    ensures var cache := [Interest("1", "cat", None, 5)];
            && !HasMatchingInterest(cache, "ca ")
            && Rank("ca ", cache) == cache
  {
    var x := Interest("1", "cat", None, 5);
    CatFailsCaSpace(x);
    CaSpaceRanksCat(x);
  }
}
