/**
 * The search state of the component (App.tsx) as a pure reducer: the cached
 * interests of the last successful fetch, the list on screen, and the events
 * that change them. Timers and the network are not modelled: a debounced
 * commit and the settling of a request are events, and a request is an output.
 */
module Search {
  import opened Options
  import opened Text
  import opened Interests
  import opened Ranking
  import opened Gate

  /** `allInterests` and `filteredInterests`. */
  datatype SearchState = SearchState(allInterests: seq<Interest>, filteredInterests: seq<Interest>)

  /** The state on mount: nothing cached, nothing shown. */
  const Initial := SearchState([], [])

  /**
   * How a request settles: it fails (transport error or unreadable body), or
   * it yields a body whose `autocomplete` field may be missing.
   */
  datatype FetchOutcome = Failed | Fetched(autocomplete: Option<seq<Interest>>)

  /** A new state and the autocomplete request issued, if any. */
  datatype Transition = Transition(state: SearchState, request: Option<string>)

  /** The synchronous part of `fetchInterests(query)`: a blank query clears the list and sends nothing. */
  function StartFetch(s: SearchState, query: string): (t: Transition)
    ensures t.request.Some? <==> Trim(query) != []
    ensures t.request.Some? ==> t.request.value == query && t.state == s
    ensures t.request.None? ==> t.state == s.(filteredInterests := [])
  {
    if Trim(query) == [] then Transition(s.(filteredInterests := []), None)
    else Transition(s, Some(query))
  }

  /**
   * The continuation of `fetchInterests(query)` once its request settles. A
   * success replaces the cache wholesale and ranks it for `query`; a failure
   * changes nothing. There is no check that `query` is still the current one.
   */
  function FetchSettled(s: SearchState, query: string, outcome: FetchOutcome): (r: SearchState)
    ensures outcome.Failed? ==> r == s
    ensures outcome.Fetched? ==> r.allInterests == outcome.autocomplete.GetOr([])
    ensures outcome.Fetched? ==> multiset(r.filteredInterests) <= multiset(r.allInterests)
    ensures outcome.Fetched? ==> forall x :: x in r.filteredInterests <==>
              x in r.allInterests && Holds(MatchOf(Normalize(query)), x)
    ensures outcome.Fetched? ==> RankedFor(Normalize(query), r.allInterests, r.filteredInterests)
  {
    match outcome
    case Failed => s
    case Fetched(payload) =>
      var fetched := payload.GetOr([]);
      RankCounts(query, fetched);
      RankMembers(query, fetched);
      RankWordIsRanked(Normalize(query), fetched);
      SearchState(fetched, Rank(query, fetched))
  }

  /**
   * The debounce timer firing for `search`: an empty search clears the list;
   * otherwise the cache is re-ranked when one cached name starts with the
   * search, and a fetch is started when none does.
   */
  function Commit(s: SearchState, search: string): (t: Transition)
    ensures t.state.allInterests == s.allInterests
    ensures search == [] ==> t == Transition(s.(filteredInterests := []), None)
    ensures t.request.Some? <==>
              search != [] && !HasMatchingInterest(s.allInterests, search) && Trim(search) != []
    ensures t.request.Some? ==> t.request.value == search && t.state == s
    ensures search != [] && HasMatchingInterest(s.allInterests, search) ==>
              t.state.filteredInterests == Rank(search, s.allInterests) && t.state.filteredInterests != []
    ensures t.request.None? && !(search != [] && HasMatchingInterest(s.allInterests, search)) ==>
              t.state == s.(filteredInterests := [])
  {
    if |search| >= 1 then
      if !HasMatchingInterest(s.allInterests, search) then StartFetch(s, search)
      else
        ReuseIsNeverEmpty(s.allInterests, search);
        Transition(s.(filteredInterests := Rank(search, s.allInterests)), None)
    else Transition(s.(filteredInterests := []), None)
  }

  /** The events the component reacts to. */
  datatype Event =
    | Committed(search: string)                      // the 200 ms timer fired for `search`
    | Settled(query: string, outcome: FetchOutcome)  // a request for `query` settled

  function Step(s: SearchState, e: Event): Transition {
    match e
    case Committed(search) => Commit(s, search)
    case Settled(query, outcome) => Transition(FetchSettled(s, query, outcome), None)
  }

  /** The state after `events`, and every request they issued, in order. */
  datatype Trace = Trace(state: SearchState, requests: seq<string>)

  function Run(s: SearchState, events: seq<Event>): Trace
    decreases |events|
  {
    if events == [] then Trace(s, [])
    else
      var t := Step(s, events[0]);
      var rest := Run(t.state, events[1..]);
      var sent := if t.request.Some? then [t.request.value] else [];
      Trace(rest.state, sent + rest.requests)
  }

  /** A non-blank search that fails the gate sends itself and leaves the state alone. */
  lemma CommitFetches(s: SearchState, search: string)
    requires Trim(search) != [] && !HasMatchingInterest(s.allInterests, search)
    ensures Step(s, Committed(search)) == Transition(s, Some(search))
  {
    assert search != [];
  }

  /** Running `[e] + rest` steps through `e` and then runs `rest`. */
  lemma RunFirst(s: SearchState, e: Event, rest: seq<Event>)
    ensures var t := Step(s, e);
            var r := Run(t.state, rest);
            Run(s, [e] + rest) == Trace(r.state, (if t.request.Some? then [t.request.value] else []) + r.requests)
  {
    assert ([e] + rest)[0] == e;
    assert ([e] + rest)[1..] == rest;
  }

  /** The list on screen is empty or a ranking of the cache for some query. */
  ghost predicate Coherent(s: SearchState) {
    s.filteredInterests == [] || exists q :: s.filteredInterests == Rank(q, s.allInterests)
  }

  /** A coherent state shows only cached interests, never more often than they are cached. */
  lemma CoherentShowsCached(s: SearchState)
    requires Coherent(s)
    ensures multiset(s.filteredInterests) <= multiset(s.allInterests)
  {
    if s.filteredInterests != [] {
      var q :| s.filteredInterests == Rank(q, s.allInterests);
      RankCounts(q, s.allInterests);
    }
  }

  /** Every event keeps the state coherent. */
  lemma StepCoherent(s: SearchState, e: Event)
    requires Coherent(s)
    ensures Coherent(Step(s, e).state)
  {
    match e
    case Committed(search) =>
      var t := Commit(s, search);
      if search != [] && HasMatchingInterest(s.allInterests, search) {
        assert t.state.filteredInterests == Rank(search, t.state.allInterests);
      }
    case Settled(query, outcome) =>
      var r := FetchSettled(s, query, outcome);
      if outcome.Fetched? {
        assert r.filteredInterests == Rank(query, r.allInterests);
      }
  }

  /**
   * From a coherent state, any sequence of events keeps the state coherent,
   * and no request it issues is for a blank query.
   */
  lemma {:induction false} RunCoherent(s: SearchState, events: seq<Event>)
    requires Coherent(s)
    ensures Coherent(Run(s, events).state)
    ensures forall q :: q in Run(s, events).requests ==> Trim(q) != []
    decreases |events|
  {
    if events != [] {
      var t := Step(s, events[0]);
      StepCoherent(s, events[0]);
      RunCoherent(t.state, events[1..]);
    }
  }

  /** From mount on, the list on screen only ever shows cached interests. */
  lemma DisplayAlwaysCached(events: seq<Event>)
    ensures multiset(Run(Initial, events).state.filteredInterests)
         <= multiset(Run(Initial, events).state.allInterests)
  {
    RunCoherent(Initial, events);
    CoherentShowsCached(Run(Initial, events).state);
  }

  /** Failed requests, however many, leave the state exactly as it was. */
  lemma {:induction false} FailuresChangeNothing(s: SearchState, events: seq<Event>)
    requires forall e :: e in events ==> e.Settled? && e.outcome.Failed?
    ensures Run(s, events) == Trace(s, [])
    decreases |events|
  {
    if events != [] {
      assert events[0] in events;
      assert forall e :: e in events[1..] ==> e in events;
      FailuresChangeNothing(s, events[1..]);
    }
  }

  /**
   * Without a staleness check the request that settles last decides the
   * screen: the user commits `a` and then `b`, both go to the service, and
   * when `a`'s response arrives after `b`'s it replaces `b`'s result although
   * `b` was the last search.
   */
  lemma LastSettledWins(s: SearchState, a: string, pa: Option<seq<Interest>>,
                        b: string, pb: Option<seq<Interest>>)
    requires Trim(a) != [] && !HasMatchingInterest(s.allInterests, a)
    requires Trim(b) != [] && !HasMatchingInterest(s.allInterests, b)
    ensures var r := Run(s, [Committed(a), Committed(b), Settled(b, Fetched(pb)), Settled(a, Fetched(pa))]);
            && r.requests == [a, b]
            && r.state.allInterests == pa.GetOr([])
            && r.state.filteredInterests == Rank(a, pa.GetOr([]))
  {
    var settles := [Settled(b, Fetched(pb)), Settled(a, Fetched(pa))];
    SettlesInOrder(s, b, pb, a, pa);
    CommitsFetch(s, a, b, settles);
    PairPair(Committed(a), Committed(b), Settled(b, Fetched(pb)), Settled(a, Fetched(pa)));
  }

  /** Two searches that both fail the gate and are not blank are both sent, in order. */
  lemma CommitsFetch(s: SearchState, a: string, b: string, rest: seq<Event>)
    requires Trim(a) != [] && !HasMatchingInterest(s.allInterests, a)
    requires Trim(b) != [] && !HasMatchingInterest(s.allInterests, b)
    ensures var r := Run(s, rest);
            Run(s, [Committed(a), Committed(b)] + rest) == Trace(r.state, [a, b] + r.requests)
  {
    var r := Run(s, rest);
    var evs := [Committed(b)] + rest;
    RunCommitFetch(s, b, rest);
    assert Run(s, evs) == Trace(r.state, [b] + r.requests);
    RunCommitFetch(s, a, evs);
    assert Run(s, [Committed(a)] + evs) == Trace(r.state, [a] + ([b] + r.requests));
    ConsTwo(Committed(a), Committed(b), rest);
    ConsTwo(a, b, r.requests);
  }

  /** Two pairs side by side make a list of four. */
  lemma PairPair<T>(w: T, x: T, y: T, z: T)
    ensures [w, x] + [y, z] == [w, x, y, z]
  {
  }

  /** Prepending two elements one at a time prepends the pair. */
  lemma ConsTwo<T>(x: T, y: T, t: seq<T>)
    ensures [x] + ([y] + t) == [x, y] + t
    ensures [x, y] + [] == [x, y]
  {
  }

  /** A search that fails the gate and is not blank is sent and changes nothing else. */
  lemma RunCommitFetch(s: SearchState, a: string, rest: seq<Event>)
    requires Trim(a) != [] && !HasMatchingInterest(s.allInterests, a)
    ensures var r := Run(s, rest);
            Run(s, [Committed(a)] + rest) == Trace(r.state, [a] + r.requests)
  {
    CommitFetches(s, a);
    RunFirst(s, Committed(a), rest);
  }

  /** A successful settle updates the state and sends nothing. */
  lemma RunSettled(s: SearchState, q: string, p: Option<seq<Interest>>, rest: seq<Event>)
    ensures Run(s, [Settled(q, Fetched(p))] + rest) == Run(FetchSettled(s, q, Fetched(p)), rest)
  {
    var e := Settled(q, Fetched(p));
    assert Step(s, e) == Transition(FetchSettled(s, q, Fetched(p)), None);
    RunFirst(s, e, rest);
  }

  /** Two successful settles in a row: the second one's payload and query decide the state. */
  lemma SettlesInOrder(s: SearchState, b: string, pb: Option<seq<Interest>>, a: string, pa: Option<seq<Interest>>)
    ensures var r := Run(s, [Settled(b, Fetched(pb)), Settled(a, Fetched(pa))]);
            && r.requests == []
            && r.state.allInterests == pa.GetOr([])
            && r.state.filteredInterests == Rank(a, pa.GetOr([]))
  {
    var s1 := FetchSettled(s, b, Fetched(pb));
    var s2 := FetchSettled(s1, a, Fetched(pa));
    assert s2.filteredInterests == Rank(a, pa.GetOr([]));
    ConsTwo(Settled(b, Fetched(pb)), Settled(a, Fetched(pa)), []);
    RunSettled(s1, a, pa, []);
    assert Run(s2, []) == Trace(s2, []);
    RunSettled(s, b, pb, [Settled(a, Fetched(pa))] + []);
  }

  /**
   * A search of white space only never reaches the service: when a cached
   * name starts with that white space it shows the whole cache (its trimmed
   * word is empty and every name starts with ""), and otherwise nothing.
   */
  lemma BlankSearchNeverFetches(s: SearchState, search: string)
    requires Trim(search) == []
    ensures Commit(s, search).request == None
    ensures Commit(s, search).state.filteredInterests ==
              if search != [] && HasMatchingInterest(s.allInterests, search) then s.allInterests else []
  {
    if search != [] && HasMatchingInterest(s.allInterests, search) {
      RankBlankQuery(search, s.allInterests);
    }
  }

  /** "cat" is its own trimmed, lower-cased form. */
  lemma CatIsNormal()
    ensures Lower("cat") == "cat" && Normalize("cat") == "cat"
  {
    LowerKeepsLowercase("cat");
    assert LeadingSpaces("cat") == 0;
    assert TrailingSpaces("cat") == 0;
    assert Trim("cat") == "cat";
  }

  /** Neither "car" nor "scan" contains "cat". */
  lemma CatNotInCarOrScan()
    ensures !Contains("car", "cat") && !Contains("scan", "cat")
  {
    assert "car"[0..3][2] != "cat"[2];
    assert "scan"[0..3][0] != "cat"[0];
    assert "scan"[1..4][2] != "cat"[2];
  }

  /** Of the scenario's cache below, only "cat" matches "cat", and as a prefix. */
  lemma CatCacheMatches(cat: Interest, car: Interest, scan: Interest)
    requires cat.name == "cat" && car.name == "car" && scan.name == "scan"
    ensures Holds(PrefixOf("cat"), cat)
    ensures !Holds(MatchOf("cat"), car) && !Holds(MatchOf("cat"), scan)
  {
    CatNotInCarOrScan();
    LowerKeepsLowercase("cat");
    LowerKeepsLowercase("car");
    LowerKeepsLowercase("scan");
  }

  /** Ranking the scenario's cache below for "cat" keeps "cat" alone. */
  lemma RankCatCache(cat: Interest, car: Interest, scan: Interest)
    requires cat.name == "cat" && car.name == "car" && scan.name == "scan"
    ensures Rank("cat", [cat, car, scan]) == [cat]
  {
    CatIsNormal();
    CatCacheMatches(cat, car, scan);
    RankWordSoleMatch("cat", cat, [car, scan]);
    assert [cat] + [car, scan] == [cat, car, scan];
  }

  /**
   * With "cat" (5), "car" (9) and "scan" (2) cached, committing "cat" reuses
   * the cache and shows "cat" alone: "car" and "scan" do not contain "cat".
   */
  lemma CachedCatScenario()
    ensures var cat := Interest("1", "cat", None, 5);
            var car := Interest("2", "car", None, 9);
            var scan := Interest("3", "scan", None, 2);
            var s := SearchState([cat, car, scan], []);
            Commit(s, "cat") == Transition(SearchState([cat, car, scan], [cat]), None)
  {
    var cat := Interest("1", "cat", None, 5);
    var car := Interest("2", "car", None, 9);
    var scan := Interest("3", "scan", None, 2);
    var cache := [cat, car, scan];
    CatIsNormal();
    assert Holds(PrefixOf(Lower("cat")), cache[0]);
    RankCatCache(cat, car, scan);
  }
}
