/**
 * The filter pipeline and the suggestion (engine/suggest.go): keep movies,
 * keep titles that meet both rating thresholds, drop titles whose display
 * name is on the seen list, then pick one of what is left.
 */
module Suggest {
  import opened Results
  import opened Title
  import opened ImdbReader

  // ---------------------------------------------------------------------
  // Filtering a sequence, and what it means to keep relative order
  // ---------------------------------------------------------------------

  /** The elements of `s` that `keep` accepts, in their order in `s`. */
  function Filter<T>(s: seq<T>, keep: T -> bool): (r: seq<T>)
    ensures |r| <= |s|
  {
    if s == [] then []
    else Filter(s[..|s| - 1], keep) + (if keep(s[|s| - 1]) then [s[|s| - 1]] else [])
  }

  /** `a` can be obtained from `b` by deleting elements. */
  ghost predicate IsSubsequence<T>(a: seq<T>, b: seq<T>)
    decreases |b|
  {
    || a == []
    || (&& b != []
        && (|| (a[|a| - 1] == b[|b| - 1] && IsSubsequence(a[..|a| - 1], b[..|b| - 1]))
            || IsSubsequence(a, b[..|b| - 1])))
  }

  /** An element is kept exactly when it occurs in the input and is accepted. */
  lemma {:induction false} FilterMembership<T>(s: seq<T>, keep: T -> bool)
    ensures forall x :: x in Filter(s, keep) <==> x in s && keep(x)
  {
    if s != [] {
      var init := s[..|s| - 1];
      FilterMembership(init, keep);
      assert s == init + [s[|s| - 1]];
    }
  }

  /** Filtering only deletes: the kept elements stay in their relative order. */
  lemma {:induction false} FilterIsSubsequence<T>(s: seq<T>, keep: T -> bool)
    ensures IsSubsequence(Filter(s, keep), s)
  {
    if s != [] {
      var init := s[..|s| - 1];
      FilterIsSubsequence(init, keep);
      var r := Filter(s, keep);
      if keep(s[|s| - 1]) {
        assert r[|r| - 1] == s[|s| - 1];
        assert r[..|r| - 1] == Filter(init, keep);
      } else {
        assert r == Filter(init, keep);
      }
    }
  }

  /** Filtering a second time with the same test changes nothing. */
  lemma {:induction false} FilterIdempotent<T>(s: seq<T>, keep: T -> bool)
    ensures Filter(Filter(s, keep), keep) == Filter(s, keep)
  {
    if s != [] {
      var init := s[..|s| - 1];
      FilterIdempotent(init, keep);
      var r := Filter(s, keep);
      if keep(s[|s| - 1]) {
        assert r[|r| - 1] == s[|s| - 1];
        assert r[..|r| - 1] == Filter(init, keep);
        assert Filter(r, keep) == Filter(Filter(init, keep), keep) + [s[|s| - 1]];
      } else {
        assert r == Filter(init, keep);
      }
    }
  }

  /** A test that accepts every element returns the input unchanged. */
  lemma {:induction false} FilterKeepsAll<T>(s: seq<T>, keep: T -> bool)
    requires forall x :: x in s ==> keep(x)
    ensures Filter(s, keep) == s
  {
    if s != [] {
      var init, last := s[..|s| - 1], s[|s| - 1];
      assert s == init + [last];
      assert keep(last);
      FilterKeepsAll(init, keep);
      assert Filter(s, keep) == Filter(init, keep) + [last];
    }
  }

  /** The test that accepts what both `p` and `q` accept. */
  function Both<T>(p: T -> bool, q: T -> bool): T -> bool
  {
    t => p(t) && q(t)
  }

  /** Two filters in a row are one filter with both tests. */
  lemma {:induction false} FilterFilter<T>(s: seq<T>, p: T -> bool, q: T -> bool)
    ensures Filter(Filter(s, p), q) == Filter(s, Both(p, q))
  {
    if s != [] {
      var init, last := s[..|s| - 1], s[|s| - 1];
      FilterFilter(init, p, q);
      var r := Filter(s, p);
      if p(last) {
        assert r[|r| - 1] == last;
        assert r[..|r| - 1] == Filter(init, p);
        assert Filter(r, q) == Filter(Filter(init, p), q) + (if q(last) then [last] else []);
      } else {
        assert r == Filter(init, p);
      }
    }
  }

  // ---------------------------------------------------------------------
  // The three tests
  // ---------------------------------------------------------------------

  /** The options the caller passes in. */
  datatype SuggestOptions = SuggestOptions(minRating: Rating, minRatingCount: Int32, seenTitles: seq<string>)

  /** The type test: the category is exactly "movie". */
  predicate IsMovie(t: Title)
  {
    t.titleType == "movie"
  }

  /** The rating test: both thresholds are met, with the float comparison. */
  predicate MeetsThresholds(t: Title, minRating: Rating, minRatingCount: Int32)
  {
    AtLeast(t.rating, minRating) && t.ratingCount >= minRatingCount
  }

  /** The exclusion test: no entry of the seen list is the display name. */
  predicate Unseen(t: Title, seen: seq<string>)
  {
    t.primaryTitle !in seen
  }

  function MovieTest(): Title -> bool
  {
    t => IsMovie(t)
  }

  function RatingTest(minRating: Rating, minRatingCount: Int32): Title -> bool
  {
    t => MeetsThresholds(t, minRating, minRatingCount)
  }

  function UnseenTest(seen: seq<string>): Title -> bool
  {
    t => Unseen(t, seen)
  }

  /** Everything the pipeline asks of a title it may suggest. */
  predicate Qualifies(t: Title, options: SuggestOptions)
  {
    IsMovie(t) && MeetsThresholds(t, options.minRating, options.minRatingCount) && Unseen(t, options.seenTitles)
  }

  /** The type and rating tests as one. */
  function CandidateTest(options: SuggestOptions): (keep: Title -> bool)
    ensures forall t :: keep(t) <==> IsMovie(t) && MeetsThresholds(t, options.minRating, options.minRatingCount)
  {
    Both(MovieTest(), RatingTest(options.minRating, options.minRatingCount))
  }

  /** All three tests as one. */
  function QualifyingTest(options: SuggestOptions): (keep: Title -> bool)
    ensures forall t :: keep(t) <==> Qualifies(t, options)
  {
    Both(CandidateTest(options), UnseenTest(options.seenTitles))
  }

  // ---------------------------------------------------------------------
  // filterNonMovies (engine/suggest.go:33-41)
  // ---------------------------------------------------------------------

  /** `order` lists every key of the map once, in some order. */
  ghost predicate Enumerates(order: seq<string>, keys: set<string>)
  {
    && |order| == |keys|
    && (forall i, j :: 0 <= i < j < |order| ==> order[i] != order[j])
    && (forall k :: k in order <==> k in keys)
  }

  /** The map's values in the order of the listed keys. */
  function ValuesAlong(titles: map<string, Title>, order: seq<string>): (values: seq<Title>)
    requires forall k :: k in order ==> k in titles
    ensures |values| == |order|
    ensures forall i :: 0 <= i < |order| ==> values[i] == titles[order[i]]
  {
    seq(|order|, i requires 0 <= i < |order| => titles[order[i]])
  }

  /**
   * The type filter over a map. The map is visited in an order the language
   * leaves unspecified; `order` is the order this run took.
   */
  method FilterNonMovies(titles: map<string, Title>) returns (filtered: seq<Title>, ghost order: seq<string>)
    ensures Enumerates(order, titles.Keys)
    ensures filtered == Filter(ValuesAlong(titles, order), MovieTest())
  {
    filtered, order := [], [];
    var rest := titles.Keys;
    while rest != {}
      invariant rest <= titles.Keys
      invariant |order| + |rest| == |titles.Keys|
      invariant forall i, j :: 0 <= i < j < |order| ==> order[i] != order[j]
      invariant forall k :: k in order <==> k in titles.Keys && k !in rest
      invariant filtered == Filter(ValuesAlong(titles, order), MovieTest())
      decreases rest
    {
      var tconst :| tconst in rest;
      var title := titles[tconst];
      ghost var before := ValuesAlong(titles, order);
      order := order + [tconst];
      assert ValuesAlong(titles, order) == before + [title];
      if title.titleType == "movie" {
        filtered := filtered + [title];
      }
      rest := rest - {tconst};
    }
  }

  /** The listed keys whose titles pass `keep`. */
  ghost function KeysAlong(titles: map<string, Title>, order: seq<string>, keep: Title -> bool): set<string>
  {
    set k | k in order && k in titles && keep(titles[k])
  }

  /** Listing one more key adds it to the passing keys exactly when its title passes. */
  lemma KeysStep(titles: map<string, Title>, init: seq<string>, last: string, keep: Title -> bool)
    requires last in titles && last !in init
    ensures |KeysAlong(titles, init + [last], keep)|
         == |KeysAlong(titles, init, keep)| + if keep(titles[last]) then 1 else 0
  {
    var before, after := KeysAlong(titles, init, keep), KeysAlong(titles, init + [last], keep);
    assert forall k :: k in init + [last] <==> k in init || k == last;
    if keep(titles[last]) {
      assert after == before + {last};
    } else {
      assert after == before;
    }
  }

  /** Along distinct keys, a filter of the values yields one title per passing key. */
  lemma {:induction false} CountAlong(titles: map<string, Title>, order: seq<string>, keep: Title -> bool)
    requires forall k :: k in order ==> k in titles
    requires forall i, j :: 0 <= i < j < |order| ==> order[i] != order[j]
    ensures |Filter(ValuesAlong(titles, order), keep)| == |KeysAlong(titles, order, keep)|
  {
    if order != [] {
      var init, last := order[..|order| - 1], order[|order| - 1];
      assert order == init + [last];
      CountAlong(titles, init, keep);
      assert ValuesAlong(titles, order)[..|order| - 1] == ValuesAlong(titles, init);
      KeysStep(titles, init, last, keep);
    }
  }

  /** The keys of the map whose titles pass `keep`. */
  ghost function KeysPassing(titles: map<string, Title>, keep: Title -> bool): set<string>
  {
    set k | k in titles && keep(titles[k])
  }

  /** When `order` lists every key, a filter of the values yields one title per passing key of the map. */
  lemma CountAll(titles: map<string, Title>, order: seq<string>, keep: Title -> bool)
    requires Enumerates(order, titles.Keys)
    ensures |Filter(ValuesAlong(titles, order), keep)| == |KeysPassing(titles, keep)|
  {
    CountAlong(titles, order, keep);
    assert KeysAlong(titles, order, keep) == KeysPassing(titles, keep);
  }

  /**
   * The type filter returns exactly the map's values whose category is
   * "movie", one per key, so never more titles than the map has.
   */
  lemma MovieFilterSpec(titles: map<string, Title>, order: seq<string>)
    requires Enumerates(order, titles.Keys)
    ensures forall t :: t in Filter(ValuesAlong(titles, order), MovieTest()) <==> IsMovie(t) && t in titles.Values
    ensures |Filter(ValuesAlong(titles, order), MovieTest())| == |set k | k in titles && IsMovie(titles[k])|
    ensures |Filter(ValuesAlong(titles, order), MovieTest())| <= |titles|
  {
    var values := ValuesAlong(titles, order);
    FilterMembership(values, MovieTest());
    forall t | t in titles.Values
      ensures t in values
    {
      var k :| k in titles && titles[k] == t;
      var i :| 0 <= i < |order| && order[i] == k;
      assert values[i] == t;
    }
    CountAll(titles, order, MovieTest());
    assert KeysPassing(titles, MovieTest()) == set k | k in titles && IsMovie(titles[k]);
  }

  // ---------------------------------------------------------------------
  // filterByRating and filterAlreadySeen (engine/suggest.go:43-67)
  // ---------------------------------------------------------------------

  /** The rating filter: one pass, appending each title that meets both thresholds. */
  method FilterByRating(titles: seq<Title>, minRating: Rating, minRatingCount: Int32) returns (filtered: seq<Title>)
    ensures filtered == Filter(titles, RatingTest(minRating, minRatingCount))
  {
    filtered := [];
    for i := 0 to |titles|
      invariant filtered == Filter(titles[..i], RatingTest(minRating, minRatingCount))
    {
      var title := titles[i];
      assert titles[..i + 1][..i] == titles[..i];
      if AtLeast(title.rating, minRating) && title.ratingCount >= minRatingCount {
        filtered := filtered + [title];
      }
    }
    assert titles[..|titles|] == titles;
  }

  /**
   * The exclusion filter: for each title, a scan of the seen list that moves
   * on to the next title at the first equal display name.
   */
  method FilterAlreadySeen(titles: seq<Title>, alreadySeenTitleNames: seq<string>) returns (filtered: seq<Title>)
    ensures filtered == Filter(titles, UnseenTest(alreadySeenTitleNames))
  {
    filtered := [];
    label TitleLoop:
    for i := 0 to |titles|
      invariant filtered == Filter(titles[..i], UnseenTest(alreadySeenTitleNames))
    {
      var title := titles[i];
      assert titles[..i + 1][..i] == titles[..i];
      for j := 0 to |alreadySeenTitleNames|
        invariant title.primaryTitle !in alreadySeenTitleNames[..j]
      {
        if title.primaryTitle == alreadySeenTitleNames[j] {
          continue TitleLoop;
        }
        assert alreadySeenTitleNames[..j + 1] == alreadySeenTitleNames[..j] + [alreadySeenTitleNames[j]];
      }
      assert alreadySeenTitleNames[..|alreadySeenTitleNames|] == alreadySeenTitleNames;
      filtered := filtered + [title];
    }
    assert titles[..|titles|] == titles;
  }

  /**
   * The rating filter keeps a title exactly when its rating is at least the
   * minimum and its count at least the minimum count, equality included; an
   * unrated title is never kept, whatever the thresholds.
   */
  lemma RatingFilterSpec(titles: seq<Title>, minRating: Rating, minRatingCount: Int32)
    ensures forall t :: t in Filter(titles, RatingTest(minRating, minRatingCount)) <==>
      t in titles && AtLeast(t.rating, minRating) && t.ratingCount >= minRatingCount
    ensures forall t :: t in Filter(titles, RatingTest(minRating, minRatingCount)) ==> t.rating.Rated?
    ensures IsSubsequence(Filter(titles, RatingTest(minRating, minRatingCount)), titles)
    ensures Filter(Filter(titles, RatingTest(minRating, minRatingCount)), RatingTest(minRating, minRatingCount))
         == Filter(titles, RatingTest(minRating, minRatingCount))
  {
    FilterMembership(titles, RatingTest(minRating, minRatingCount));
    FilterIsSubsequence(titles, RatingTest(minRating, minRatingCount));
    FilterIdempotent(titles, RatingTest(minRating, minRatingCount));
  }

  /**
   * The exclusion filter drops a title exactly when its display name equals
   * an entry of the seen list; with an empty seen list it returns its input.
   */
  lemma UnseenFilterSpec(titles: seq<Title>, seen: seq<string>)
    ensures forall t :: t in Filter(titles, UnseenTest(seen)) <==> t in titles && t.primaryTitle !in seen
    ensures seen == [] ==> Filter(titles, UnseenTest(seen)) == titles
    ensures IsSubsequence(Filter(titles, UnseenTest(seen)), titles)
    ensures Filter(Filter(titles, UnseenTest(seen)), UnseenTest(seen)) == Filter(titles, UnseenTest(seen))
  {
    FilterMembership(titles, UnseenTest(seen));
    FilterIsSubsequence(titles, UnseenTest(seen));
    FilterIdempotent(titles, UnseenTest(seen));
    if seen == [] {
      FilterKeepsAll(titles, UnseenTest(seen));
    }
  }

  // ---------------------------------------------------------------------
  // Suggest (engine/suggest.go:15-31)
  // ---------------------------------------------------------------------

  /** The counts reported before the emptiness check: unseen candidates, and all candidates. */
  datatype Report = Report(unseen: nat, candidates: nat)

  datatype Suggestion = Suggestion(title: Title, report: Report)

  datatype SuggestError = ParseFailed(error: ParseError) | SeenItAll(report: Report)

  /** The candidates along one visiting order of the map: the movies that meet both thresholds. */
  function Candidates(titles: map<string, Title>, order: seq<string>, options: SuggestOptions): seq<Title>
    requires forall k :: k in order ==> k in titles
  {
    var movies := Filter(ValuesAlong(titles, order), MovieTest());
    Filter(movies, RatingTest(options.minRating, options.minRatingCount))
  }

  /** The unseen candidates along one visiting order of the map, after all three filters. */
  function Pipeline(titles: map<string, Title>, order: seq<string>, options: SuggestOptions): seq<Title>
    requires forall k :: k in order ==> k in titles
  {
    Filter(Candidates(titles, order, options), UnseenTest(options.seenTitles))
  }

  /**
   * The two counts the run reports, stated on the map: its entries that
   * qualify, and its entries that are movies meeting both thresholds.
   */
  ghost function ExpectedReport(titles: map<string, Title>, options: SuggestOptions): Report
  {
    Report(
      |set k | k in titles && Qualifies(titles[k], options)|,
      |set k | k in titles && IsMovie(titles[k]) && MeetsThresholds(titles[k], options.minRating, options.minRatingCount)|)
  }

  /** The keys that pass the combined tests are the ones the report counts. */
  lemma ReportedKeys(titles: map<string, Title>, options: SuggestOptions)
    ensures |KeysPassing(titles, CandidateTest(options))| == ExpectedReport(titles, options).candidates
    ensures |KeysPassing(titles, QualifyingTest(options))| == ExpectedReport(titles, options).unseen
  {
    assert KeysPassing(titles, CandidateTest(options))
        == set k | k in titles && IsMovie(titles[k]) && MeetsThresholds(titles[k], options.minRating, options.minRatingCount);
    assert KeysPassing(titles, QualifyingTest(options)) == set k | k in titles && Qualifies(titles[k], options);
  }

  /**
   * Whatever the visiting order, the candidates number the map's well-rated
   * movies and the unseen candidates its qualifying entries.
   */
  lemma PipelineCounts(titles: map<string, Title>, order: seq<string>, options: SuggestOptions)
    requires Enumerates(order, titles.Keys)
    ensures Report(|Pipeline(titles, order, options)|, |Candidates(titles, order, options)|)
         == ExpectedReport(titles, options)
  {
    var values := ValuesAlong(titles, order);
    FilterFilter(values, MovieTest(), RatingTest(options.minRating, options.minRatingCount));
    FilterFilter(values, CandidateTest(options), UnseenTest(options.seenTitles));
    CountAll(titles, order, CandidateTest(options));
    CountAll(titles, order, QualifyingTest(options));
    ReportedKeys(titles, options);
  }

  /**
   * Whatever the visiting order, the pipeline yields exactly the map's values
   * that are movies, meet both thresholds and are unseen.
   */
  lemma PipelineSpec(titles: map<string, Title>, order: seq<string>, options: SuggestOptions)
    requires Enumerates(order, titles.Keys)
    ensures forall t :: t in Pipeline(titles, order, options) <==> Qualifies(t, options) && t in titles.Values
  {
    var movies := Filter(ValuesAlong(titles, order), MovieTest());
    var candidates := Candidates(titles, order, options);
    MovieFilterSpec(titles, order);
    FilterMembership(movies, RatingTest(options.minRating, options.minRatingCount));
    FilterMembership(candidates, UnseenTest(options.seenTitles));
  }

  /**
   * Suggest, from the parse on. Downloading is not modelled: the two files
   * come in as tokenised streams. `roll` stands for the random draw, reduced
   * into the range of the list as the draw is.
   */
  method Suggest(options: SuggestOptions, files: TitleFiles, parsers: NumberParsers, roll: nat) returns (r: Result<Suggestion, SuggestError>)
    requires WellFormed(files.ratings) && WellFormed(files.basics)
    ensures ReadTitles(files, parsers).Failure? ==> r == Failure(ParseFailed(ReadTitles(files, parsers).error))
    ensures r.Failure? && r.error.ParseFailed? ==> ReadTitles(files, parsers).Failure?
    ensures (r.Failure? && r.error.SeenItAll?) <==>
      && ReadTitles(files, parsers).Success?
      && !exists k :: k in ReadTitles(files, parsers).value && Qualifies(ReadTitles(files, parsers).value[k], options)
    ensures r.Failure? && r.error.SeenItAll? ==> r.error.report.unseen == 0
    ensures r.Success? ==>
      && ReadTitles(files, parsers).Success?
      && Qualifies(r.value.title, options)
      && r.value.title in ReadTitles(files, parsers).value.Values
    ensures r.Success? ==> 0 < r.value.report.unseen <= r.value.report.candidates
    ensures ReadTitles(files, parsers).Success? && r.Success? ==>
      r.value.report == ExpectedReport(ReadTitles(files, parsers).value, options)
    ensures ReadTitles(files, parsers).Success? && r.Failure? ==>
      r.error.SeenItAll? && r.error.report == ExpectedReport(ReadTitles(files, parsers).value, options)
  {
    var allTitles := ReadImdbTitleFiles(files, parsers);
    if allTitles.Failure? {
      return Failure(ParseFailed(allTitles.error));
    }
    var titles := allTitles.value;
    var movieTitles;
    ghost var order;
    movieTitles, order := FilterNonMovies(titles);
    var candidateTitles := FilterByRating(movieTitles, options.minRating, options.minRatingCount);
    var unseenCandidateTitles := FilterAlreadySeen(candidateTitles, options.seenTitles);
    var report := Report(|unseenCandidateTitles|, |candidateTitles|);
    PipelineSpec(titles, order, options);
    PipelineCounts(titles, order, options);
    assert candidateTitles == Candidates(titles, order, options);
    assert unseenCandidateTitles == Pipeline(titles, order, options);
    if |unseenCandidateTitles| == 0 {
      return Failure(SeenItAll(report));
    }
    var suggestion := RandTitle(unseenCandidateTitles, roll % |unseenCandidateTitles|);
    assert suggestion in unseenCandidateTitles;
    return Success(Suggestion(suggestion, report));
  }
}
