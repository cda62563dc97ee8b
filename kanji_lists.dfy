// Model of KanjiList.java: the records grouped by stroke count, and the
// search for the best matches of a drawn record.

module KanjiLists {
  import opened Wrappers
  import opened StrokeGeometry
  import opened KanjiRecord
  import opened Matches

  // ---------------------------------------------------------------------------
  // Buckets and the candidates a search scans

  /** The bucket for a stroke count, or nothing when the count was never added. */
  function Bucket(buckets: map<int, seq<KanjiInfo>>, n: int): seq<KanjiInfo> {
    if n in buckets then buckets[n] else []
  }

  /** The range that getTopMatches derives from a fuzzy algorithm. */
  function Range(algo: MatchAlgorithm): nat {
    if algo == FUZZY_2OUT then 2 else if algo == FUZZY_1OUT then 1 else 0
  }

  /** For the fuzzy algorithms the range is the algorithm's getOut. */
  lemma RangeIsOut(algo: MatchAlgorithm)
    requires algo.IsFuzzy()
    ensures Range(algo) == algo.GetOut()
  {
  }

  /** The stroke counts a fuzzy search scans, in order: n - range, then n + range, skipping counts <= 0. */
  function FuzzyCounts(n: int, range: nat): seq<int> {
    if n <= 0 then []
    else (if n - range > 0 then [n - range] else []) + (if range == 0 then [] else [n + range])
  }

  /**
   * A drawn record of no strokes scans nothing; range 0 scans exactly its
   * own count; a wider range never scans its own count, always scans
   * n + range, and scans n - range exactly when that is a positive count.
   */
  lemma FuzzyCountsScanned(n: int, range: nat)
    ensures n <= 0 ==> FuzzyCounts(n, range) == []
    ensures n > 0 && range == 0 ==> FuzzyCounts(n, range) == [n]
    ensures n > 0 && range > 0 ==>
      n !in FuzzyCounts(n, range) && (n + range) in FuzzyCounts(n, range)
      && ((n - range) in FuzzyCounts(n, range) <==> n - range > 0)
      && forall c :: c in FuzzyCounts(n, range) ==> c > 0 && (c == n - range || c == n + range)
  {
  }

  /** The buckets of the given counts, one after another. */
  function Gather(buckets: map<int, seq<KanjiInfo>>, counts: seq<int>): seq<KanjiInfo> {
    if counts == [] then [] else Bucket(buckets, counts[0]) + Gather(buckets, counts[1..])
  }

  /** The records a search with the algorithm scans for a drawn record of n strokes. */
  function Candidates(buckets: map<int, seq<KanjiInfo>>, algo: MatchAlgorithm, n: int): seq<KanjiInfo> {
    if algo == STRICT then Bucket(buckets, n) else Gather(buckets, FuzzyCounts(n, Range(algo)))
  }

  /** The strict search scans only the bucket of the drawn count. */
  lemma StrictCandidates(buckets: map<int, seq<KanjiInfo>>, n: int)
    ensures Candidates(buckets, STRICT, n) == (if n in buckets then buckets[n] else [])
  {
  }

  /** A fuzzy search scans the record of a bucket exactly when its count is one it scans. */
  lemma {:induction false} GatherMembers(buckets: map<int, seq<KanjiInfo>>, counts: seq<int>, x: KanjiInfo)
    ensures x in Gather(buckets, counts) <==> exists c :: c in counts && c in buckets && x in buckets[c]
  {
    if counts != [] {
      GatherMembers(buckets, counts[1..], x);
      assert forall c :: c in counts <==> c == counts[0] || c in counts[1..];
    }
  }

  /** The progress reports of a scan of max records: (0, max), then (i, max) after each record. */
  function ProgressCalls(max: nat): seq<ProgressCall> {
    seq(max + 1, i requires 0 <= i <= max => ProgressCall(i, max))
  }

  /** One call of Progress.progress(done, max). */
  datatype ProgressCall = ProgressCall(done: int, max: int)

  // ---------------------------------------------------------------------------
  // The TreeSet of matches

  /** Ordered by compareTo, with no two entries that compare equal. */
  predicate StrictlySorted(s: seq<KanjiMatch>) {
    forall i, j :: 0 <= i < j < |s| ==> Before(s[i], s[j])
  }

  predicate AllFinite(s: seq<KanjiMatch>) {
    forall i :: 0 <= i < |s| ==> s[i].score.Finite?
  }

  /** TreeSet.add: m goes before the first entry it sorts before, and is dropped if one compares equal to it. */
  function Insert(s: seq<KanjiMatch>, m: KanjiMatch): seq<KanjiMatch> {
    if s == [] then [m]
    else if m.CompareTo(s[0]) < 0 then [m] + s
    else if m.CompareTo(s[0]) == 0 then s
    else [s[0]] + Insert(s[1..], m)
  }

  /** Adding keeps the set ordered when the scores are finite, keeps every entry, and adds only m. */
  lemma {:induction false} InsertSorted(s: seq<KanjiMatch>, m: KanjiMatch)
    requires StrictlySorted(s) && AllFinite(s) && m.score.Finite?
    ensures StrictlySorted(Insert(s, m)) && AllFinite(Insert(s, m))
    ensures forall x :: x in s ==> x in Insert(s, m)
    ensures forall x :: x in Insert(s, m) ==> x in s || x == m
    ensures m in Insert(s, m) <==> m in s || forall y :: y in s ==> m.CompareTo(y) != 0
  {
    if s != [] {
      var rest := s[1..];
      assert StrictlySorted(rest) && AllFinite(rest);
      if m.CompareTo(s[0]) < 0 {
        forall j | 0 <= j < |s|
          ensures Before(m, s[j])
        {
          if j > 0 {
            BeforeTransitive(m, s[0], s[j]);
          }
        }
        forall y | y in s
          ensures m.CompareTo(y) != 0
        {
        }
      } else if m.CompareTo(s[0]) == 0 {
      } else {
        InsertSorted(rest, m);
        var tail := Insert(rest, m);
        assert Before(s[0], m) by {
          CompareToAntisymmetric(m, s[0]);
        }
        forall x | x in tail
          ensures Before(s[0], x)
        {
          if x != m {
            var idx :| 0 <= idx < |rest| && rest[idx] == x;
            assert s[idx + 1] == x;
          }
        }
        var t := [s[0]] + tail;
        forall i, j | 0 <= i < j < |t|
          ensures Before(t[i], t[j])
        {
          assert t[j] == tail[j - 1];
          if i > 0 {
            assert t[i] == tail[i - 1];
          }
        }
        assert forall y :: y in s <==> y == s[0] || y in rest;
      }
    }
  }

  /** The set after the first k records: each scored record is added, and a strict search adds only scores above 0. */
  function Collect(candidates: seq<KanjiInfo>, scores: seq<FloatValue>, positiveOnly: bool, k: nat): seq<KanjiMatch>
    requires k <= |candidates| && k <= |scores|
  {
    if k == 0 then []
    else
      var prev := Collect(candidates, scores, positiveOnly, k - 1);
      if positiveOnly && !FloatGreater(scores[k - 1], Finite(0.0)) then prev
      else Insert(prev, KanjiMatch(candidates[k - 1], scores[k - 1]))
  }

  /** With finite scores the collected matches are ordered, and each one is a scanned record with its score. */
  lemma {:induction false} CollectSorted(candidates: seq<KanjiInfo>, scores: seq<FloatValue>, positiveOnly: bool, k: nat)
    requires k <= |candidates| && k <= |scores|
    requires forall i :: 0 <= i < k ==> scores[i].Finite?
    ensures StrictlySorted(Collect(candidates, scores, positiveOnly, k))
    ensures AllFinite(Collect(candidates, scores, positiveOnly, k))
    ensures forall x :: x in Collect(candidates, scores, positiveOnly, k) ==>
      exists i :: 0 <= i < k && x == KanjiMatch(candidates[i], scores[i])
        && (positiveOnly ==> FloatGreater(scores[i], Finite(0.0)))
  {
    if k > 0 {
      CollectSorted(candidates, scores, positiveOnly, k - 1);
      var prev := Collect(candidates, scores, positiveOnly, k - 1);
      var m := KanjiMatch(candidates[k - 1], scores[k - 1]);
      if !(positiveOnly && !FloatGreater(scores[k - 1], Finite(0.0))) {
        InsertSorted(prev, m);
      }
      forall x | x in Collect(candidates, scores, positiveOnly, k)
        ensures exists i ::
          0 <= i < k && x == KanjiMatch(candidates[i], scores[i]) && (positiveOnly ==> FloatGreater(scores[i], Finite(0.0)))
      {
        if x in prev {
          var i :| 0 <= i < k - 1 && x == KanjiMatch(candidates[i], scores[i])
            && (positiveOnly ==> FloatGreater(scores[i], Finite(0.0)));
        } else {
          assert x == m;
        }
      }
    }
  }

  // ---------------------------------------------------------------------------
  // Pulling the matches down to three quarters of the best score

  /** Java's float < : false whenever either side is NaN. */
  predicate FloatLess(a: FloatValue, b: FloatValue) {
    a.Finite? && b.Finite? && a.value < b.value
  }

  function Scale(v: FloatValue, factor: real): FloatValue {
    if v.NaN? then NaN else Finite(v.value * factor)
  }

  /**
   * How many matches the final loop keeps, from match i on with the best
   * score so far: the first score (while the sentinel -1 is still in
   * place) is taken as the best, and the loop stops at the first score
   * below three quarters of it.
   */
  function KeptFrom(s: seq<KanjiMatch>, i: nat, maxScore: FloatValue): (k: nat)
    requires i <= |s|
    ensures i <= k <= |s|
    decreases |s| - i
  {
    if i == |s| then i
    else if maxScore == Finite(-1.0) then KeptFrom(s, i + 1, s[i].score)
    else if FloatLess(s[i].score, Scale(maxScore, 0.75)) then i
    else KeptFrom(s, i + 1, maxScore)
  }

  function KeptCount(s: seq<KanjiMatch>): nat
    ensures KeptCount(s) <= |s|
  {
    KeptFrom(s, 0, Finite(-1.0))
  }

  /** After the best score is known the loop keeps going while scores stay at or above the bar. */
  lemma {:induction false} KeptFromBar(s: seq<KanjiMatch>, i: nat, best: real)
    requires i <= |s| && best != -1.0
    ensures var k := KeptFrom(s, i, Finite(best));
      (forall j :: i <= j < k ==> !FloatLess(s[j].score, Finite(0.75 * best)))
      && (k < |s| ==> FloatLess(s[k].score, Finite(0.75 * best)))
    decreases |s| - i
  {
    if i < |s| {
      assert Scale(Finite(best), 0.75) == Finite(0.75 * best);
      if !FloatLess(s[i].score, Finite(0.75 * best)) {
        KeptFromBar(s, i + 1, best);
      }
    }
  }

  /**
   * The kept matches are the longest prefix whose scores are all at least
   * three quarters of the first one; the first match is always kept.
   */
  lemma KeptPrefix(s: seq<KanjiMatch>)
    requires |s| > 0 && s[0].score.Finite? && s[0].score.value != -1.0
    ensures var k, best := KeptCount(s), s[0].score.value;
      1 <= k <= |s|
      && (forall j :: 1 <= j < k ==> !FloatLess(s[j].score, Finite(0.75 * best)))
      && (k < |s| ==> FloatLess(s[k].score, Finite(0.75 * best)))
  {
    KeptFromBar(s, 1, s[0].score.value);
  }

  /** An ordered list holds no two entries with equal scores and equal characters. */
  lemma SortedDistinct(s: seq<KanjiMatch>)
    requires StrictlySorted(s) && AllFinite(s)
    ensures forall i, j :: 0 <= i < j < |s| ==> s[i].score != s[j].score || s[i].kanji.kanji != s[j].kanji.kanji
  {
    forall i, j | 0 <= i < j < |s|
      ensures s[i].score != s[j].score || s[i].kanji.kanji != s[j].kanji.kanji
    {
      CompareToZeroFinite(s[i], s[j]);
    }
  }

  /**
   * With finite scores, the result of a search is in compareTo order, holds
   * no two entries with equal score and character, and every entry is a
   * scanned record with the score it got (above 0 for a strict search).
   */
  lemma TopMatchesOrdered(candidates: seq<KanjiInfo>, scores: seq<FloatValue>, positiveOnly: bool)
    requires |scores| == |candidates|
    requires forall i :: 0 <= i < |scores| ==> scores[i].Finite?
    ensures var matches := Collect(candidates, scores, positiveOnly, |candidates|);
      var result := matches[..KeptCount(matches)];
      StrictlySorted(result)
      && (forall i, j :: 0 <= i < j < |result| ==> result[i].score != result[j].score || result[i].kanji.kanji != result[j].kanji.kanji)
      && forall x :: x in result ==>
        exists i :: 0 <= i < |candidates| && x == KanjiMatch(candidates[i], scores[i]) && (positiveOnly ==> FloatGreater(scores[i], Finite(0.0)))
  {
    CollectSorted(candidates, scores, positiveOnly, |candidates|);
    var matches := Collect(candidates, scores, positiveOnly, |candidates|);
    var result := matches[..KeptCount(matches)];
    assert forall i :: 0 <= i < |result| ==> result[i] == matches[i];
    SortedDistinct(result);
    forall x | x in result
      ensures x in matches
    {
      var i :| 0 <= i < |result| && result[i] == x;
      assert matches[i] == x;
    }
  }

  // ---------------------------------------------------------------------------
  // Finite scores

  /** Every record of bucket k is a finished record of k strokes, as add files it. */
  ghost predicate Filed(buckets: map<int, seq<KanjiInfo>>)
    reads set k, x | k in buckets && x in buckets[k] :: x
  {
    forall k, x :: k in buckets && x in buckets[k] ==> x.strokes.Some? && |x.strokes.value| == k
  }

  /**
   * A strict search scans records of exactly the drawn count; any other
   * search scans records of at least one stroke, range strokes away from it.
   */
  lemma CandidateCounts(buckets: map<int, seq<KanjiInfo>>, algo: MatchAlgorithm, n: int)
    requires Filed(buckets)
    ensures algo == STRICT ==>
      forall x :: x in Candidates(buckets, algo, n) ==> x.strokes.Some? && |x.strokes.value| == n
    ensures algo != STRICT ==>
      forall x :: x in Candidates(buckets, algo, n) ==>
        x.strokes.Some? && |x.strokes.value| > 0
        && (|x.strokes.value| == n - Range(algo) || |x.strokes.value| == n + Range(algo))
  {
    if algo != STRICT {
      var counts := FuzzyCounts(n, Range(algo));
      forall x | x in Candidates(buckets, algo, n)
        ensures x.strokes.Some? && |x.strokes.value| > 0
        ensures |x.strokes.value| == n - Range(algo) || |x.strokes.value| == n + Range(algo)
      {
        GatherMembers(buckets, counts, x);
        var c :| c in counts && c in buckets && x in buckets[c];
      }
    }
  }

  /**
   * A strict comparer's scores are always finite; a fuzzy comparer of at
   * least one drawn stroke gives finite scores to records of at least one
   * stroke (NaN comes only from an empty kanji).
   */
  lemma ScoresFinite(c: Comparer, candidates: seq<KanjiInfo>, scores: seq<FloatValue>)
    requires ComparerValid(c) && !c.SpansOne? && |scores| == |candidates|
    requires c.FuzzyOne? ==> |c.fuzzy.drawnPairs| > 0
    requires c.FuzzyOne? ==> forall j :: 0 <= j < |candidates| && candidates[j].strokes.Some? ==> |candidates[j].strokes.value| > 0
    requires forall j :: 0 <= j < |candidates| ==> ScoredBy(c, candidates[j].strokes, candidates[j].features, Success(scores[j]))
    ensures forall j :: 0 <= j < |scores| ==> scores[j].Finite?
  {
    forall j | 0 <= j < |scores|
      ensures scores[j].Finite?
    {
      assert ScoredBy(c, candidates[j].strokes, candidates[j].features, Success(scores[j]));
      if c.FuzzyOne? {
        Fuzzy.FuzzyScoreRange(c.fuzzy.drawnPairs, candidates[j].strokes.value);
      }
    }
  }

  /**
   * With every bucket filed by add, the scores of a strict or fuzzy search
   * (the fuzzy comparer built from at least one stroke) are all finite, so
   * the search's result is ordered as TopMatchesOrdered states.
   */
  lemma SearchScoresFinite(c: Comparer, buckets: map<int, seq<KanjiInfo>>, algo: MatchAlgorithm, n: int,
                           scores: seq<FloatValue>)
    requires Filed(buckets) && ComparerValid(c) && Fits(algo, c) && (algo == STRICT || algo.IsFuzzy())
    requires c.FuzzyOne? ==> |c.fuzzy.drawnPairs| > 0
    requires |scores| == |Candidates(buckets, algo, n)|
    requires forall j :: 0 <= j < |scores| ==>
      var x := Candidates(buckets, algo, n)[j];
      ScoredBy(c, x.strokes, x.features, Success(scores[j]))
    ensures forall j :: 0 <= j < |scores| ==> scores[j].Finite?
  {
    var candidates := Candidates(buckets, algo, n);
    CandidateCounts(buckets, algo, n);
    ScoresFinite(c, candidates, scores);
  }

  // ---------------------------------------------------------------------------
  // KanjiList

  class KanjiList {
    /** The records of each stroke count, in the order they were added. */
    var buckets: map<int, seq<KanjiInfo>>

    /** KanjiList(): no records. */
    constructor ()
      ensures buckets == map[]
    {
      buckets := map[];
    }

    /** add: the record goes to the end of the bucket for its stroke count; getStrokeCount's IllegalState otherwise. */
    method Add(info: KanjiInfo) returns (r: Result<()>)
      requires info.Valid()
      modifies this
      ensures old(Filed(buckets)) ==> Filed(buckets)
      ensures info.features.None? ==> r == Failure(IllegalState) && buckets == old(buckets)
      ensures info.features.Some? ==>
        var n := |info.strokes.value|;
        r == Success(()) && buckets == old(buckets)[n := Bucket(old(buckets), n) + [info]]
    {
      var count := info.GetStrokeCount();
      if count.Failure? {
        return Failure(count.error);
      }
      var list := Bucket(buckets, count.value);
      buckets := buckets[count.value := list + [info]];
      r := Success(());
    }

    /** getKanji: the bucket for a stroke count, empty when none was added. */
    function GetKanji(strokeCount: int): (r: seq<KanjiInfo>)
      reads this
      ensures strokeCount in buckets ==> r == buckets[strokeCount]
      ensures strokeCount !in buckets ==> r == []
    {
      Bucket(buckets, strokeCount)
    }

    /**
     * getTopMatches: scores every candidate against the drawn record (which
     * caches its comparers), collects the matches in compareTo order and
     * keeps those within three quarters of the best. The scores each call
     * returned are given back as a ghost result, each one what the drawn
     * record's comparer gives on that candidate; progress reports are
     * returned instead of called back.
     */
    method GetTopMatches(compare: KanjiInfo, algo: MatchAlgorithm, reportProgress: bool)
      returns (r: Result<seq<KanjiMatch>>, calls: seq<ProgressCall>, ghost scores: seq<FloatValue>)
      requires compare.Valid()
      requires forall k, x :: k in buckets && x in buckets[k] ==> x.Valid()
      modifies compare
      ensures compare.Valid() && compare.strokes == old(compare.strokes) && compare.features == old(compare.features)
      ensures algo != STRICT && !algo.IsFuzzy() ==> r == Failure(IllegalArgument) && calls == []
      ensures (algo == STRICT || algo.IsFuzzy()) && compare.features.None? ==> r == Failure(IllegalState) && calls == []
      ensures r.Success? ==>
        var n := |compare.strokes.value|;
        var candidates := Candidates(buckets, algo, n);
        && compare.features.Some?
        && |scores| == |candidates|
        && calls == (if reportProgress && (algo != STRICT || n in buckets) then ProgressCalls(|candidates|) else [])
        && (forall j :: 0 <= j < |candidates| ==>
              algo in compare.comparers
              && ScoredBy(compare.comparers[algo], candidates[j].strokes, candidates[j].features, Success(scores[j])))
        && var matches := Collect(candidates, scores, algo == STRICT, |candidates|);
           r.value == matches[..KeptCount(matches)]
      ensures r.Failure? && (algo == STRICT || algo.IsFuzzy()) && compare.features.Some? ==>
        var n := |compare.strokes.value|;
        var candidates := Candidates(buckets, algo, n);
        && |scores| < |candidates|
        && calls == (if reportProgress && (algo != STRICT || n in buckets) then ProgressCalls(|candidates|)[..|scores| + 1] else [])
        && algo in compare.comparers
        && (forall j :: 0 <= j < |scores| ==>
              ScoredBy(compare.comparers[algo], candidates[j].strokes, candidates[j].features, Success(scores[j])))
        && ScoredBy(compare.comparers[algo], candidates[|scores|].strokes, candidates[|scores|].features, Failure(r.error))
      ensures (algo == STRICT || algo.IsFuzzy()) && compare.features.Some? ==>
        var candidates := Candidates(buckets, algo, |compare.strokes.value|);
        (forall j :: 0 <= j < |candidates| ==>
           algo in compare.comparers
           && forall v :: ScoredBy(compare.comparers[algo], candidates[j].strokes, candidates[j].features, v) ==> v.Success?)
        ==> r.Success?
    {
      calls, scores := [], [];
      if algo != STRICT && !algo.IsFuzzy() {
        return Failure(IllegalArgument), calls, scores;
      }
      var count := compare.GetStrokeCount();
      if count.Failure? {
        return Failure(count.error), calls, scores;
      }
      var n := count.value;
      var candidates := CandidateList(algo, n);
      var matches;
      matches, calls, scores := ScoreAll(compare, candidates, algo, reportProgress && (algo != STRICT || n in buckets));
      if matches.Failure? {
        return Failure(matches.error), calls, scores;
      }
      var kept := Threshold(matches.value);
      r := Success(kept);
    }

    /** The records the search scans, each one taken from a bucket. */
    method CandidateList(algo: MatchAlgorithm, n: int) returns (candidates: seq<KanjiInfo>)
      ensures candidates == Candidates(buckets, algo, n)
      ensures forall x :: x in candidates ==> exists k :: k in buckets && x in buckets[k]
    {
      if algo == STRICT {
        candidates := Bucket(buckets, n);
      } else {
        candidates := FuzzyList(buckets, n, Range(algo));
        forall x | x in candidates
          ensures exists k :: k in buckets && x in buckets[k]
        {
          GatherMembers(buckets, FuzzyCounts(n, Range(algo)), x);
        }
      }
    }
  }

  /** What a comparer reads of a record: its strokes and its features. */
  type Shape = (Option<seq<Stroke>>, Option<Features>)

  /** The shapes are those of the records, in order. */
  ghost predicate ShapesOf(candidates: seq<KanjiInfo>, shapes: seq<Shape>)
    reads candidates
  {
    |shapes| == |candidates|
    && forall j :: 0 <= j < |candidates| ==> shapes[j] == (candidates[j].strokes, candidates[j].features)
  }

  /** The shapes of well-formed records, each with strokes and features that belong together. */
  ghost method TakeShapes(candidates: seq<KanjiInfo>) returns (shapes: seq<Shape>)
    requires forall x :: x in candidates ==> x.Valid()
    ensures ShapesOf(candidates, shapes)
    ensures forall j :: 0 <= j < |shapes| ==> Paired(shapes[j].0, shapes[j].1)
  {
    shapes := seq(|candidates|, j requires 0 <= j < |candidates| reads candidates => (candidates[j].strokes, candidates[j].features));
    forall j | 0 <= j < |shapes|
      ensures Paired(shapes[j].0, shapes[j].1)
    {
      assert candidates[j] in candidates;
    }
  }

  /** The scores so far are the ones a comparer with this data gives the first |scores| shapes. */
  predicate ScoredPrefix(s: Scorer, shapes: seq<Shape>, scores: seq<FloatValue>)
    requires ScorerReady(s) && |scores| <= |shapes|
  {
    scores == []
    || (ScoredPrefix(s, shapes, scores[..|scores| - 1])
        && ScoredFrom(s, shapes[|scores| - 1].0, shapes[|scores| - 1].1, Success(scores[|scores| - 1])))
  }

  /** Each score of a scored prefix is the comparer's score of its shape. */
  lemma {:induction false} ScoredPrefixAt(s: Scorer, shapes: seq<Shape>, scores: seq<FloatValue>, j: nat)
    requires ScorerReady(s) && |scores| <= |shapes| && j < |scores|
    requires ScoredPrefix(s, shapes, scores)
    ensures ScoredFrom(s, shapes[j].0, shapes[j].1, Success(scores[j]))
  {
    if j < |scores| - 1 {
      var front := scores[..|scores| - 1];
      ScoredPrefixAt(s, shapes, front, j);
      assert front[j] == scores[j];
    }
  }

  /**
   * The scoring loop of getTopMatches: the first failing score ends the
   * search; otherwise the set of matches after every candidate, with a
   * progress report before the first and after each one when asked, and
   * every score the one the comparer for the algorithm gives that record.
   */
  method ScoreAll(compare: KanjiInfo, candidates: seq<KanjiInfo>, algo: MatchAlgorithm, report: bool)
    returns (r: Result<seq<KanjiMatch>>, calls: seq<ProgressCall>, ghost scores: seq<FloatValue>)
    requires compare.Valid()
    requires forall x :: x in candidates ==> x.Valid()
    modifies compare
    ensures compare.Valid() && compare.strokes == old(compare.strokes) && compare.features == old(compare.features)
    ensures r.Success? ==>
      |scores| == |candidates|
      && r.value == Collect(candidates, scores, algo == STRICT, |candidates|)
      && calls == (if report then ProgressCalls(|candidates|) else [])
      && forall j :: 0 <= j < |candidates| ==>
           algo in compare.comparers
           && ScoredBy(compare.comparers[algo], candidates[j].strokes, candidates[j].features, Success(scores[j]))
    ensures r.Failure? ==>
      |scores| < |candidates| && calls == (if report then ProgressCalls(|candidates|)[..|scores| + 1] else [])
    ensures r.Failure? && algo !in compare.comparers ==>
      scores == [] && r.error == IllegalState && algo != STRICT && compare.strokes.None?
    ensures r.Failure? && algo in compare.comparers ==>
      (forall j :: 0 <= j < |scores| ==>
         ScoredBy(compare.comparers[algo], candidates[j].strokes, candidates[j].features, Success(scores[j])))
      && ScoredBy(compare.comparers[algo], candidates[|scores|].strokes, candidates[|scores|].features, Failure(r.error))
    ensures (forall j :: 0 <= j < |candidates| ==>
               algo in compare.comparers
               && forall v :: ScoredBy(compare.comparers[algo], candidates[j].strokes, candidates[j].features, v) ==> v.Success?)
            ==> r.Success?
  {
    hide ScoredFrom;
    ghost var shapes := TakeShapes(candidates);
    ghost var scorer;
    r, calls, scores, scorer := ScoreLoop(compare, candidates, shapes, algo, report);
    if |scores| > 0 || (r.Failure? && algo in compare.comparers) || (r.Success? && |candidates| > 0) {
      ScoredPrefixBy(compare.comparers[algo], candidates, shapes, scores);
    }
    if r.Failure? {
      // The record whose score failed: with a comparer, its result is that failure.
      ghost var next := candidates[|scores|];
      assert shapes[|scores|] == (next.strokes, next.features);
    }
  }

  /**
   * The loop of ScoreAll, stated through the comparer's data as a value: the
   * scores so far are a scored prefix of the candidates' shapes, and a
   * failure is that data's result on the next candidate.
   */
  method ScoreLoop(compare: KanjiInfo, candidates: seq<KanjiInfo>, ghost shapes: seq<Shape>, algo: MatchAlgorithm,
                   report: bool)
    returns (r: Result<seq<KanjiMatch>>, calls: seq<ProgressCall>, ghost scores: seq<FloatValue>, ghost scorer: Scorer)
    requires compare.Valid() && ShapesOf(candidates, shapes)
    requires forall j :: 0 <= j < |shapes| ==> Paired(shapes[j].0, shapes[j].1)
    modifies compare
    ensures compare.Valid() && compare.strokes == old(compare.strokes) && compare.features == old(compare.features)
    ensures ShapesOf(candidates, shapes)
    ensures r.Success? ==>
      |scores| == |candidates|
      && r.value == Collect(candidates, scores, algo == STRICT, |candidates|)
      && calls == (if report then ProgressCalls(|candidates|) else [])
    ensures r.Failure? ==>
      |scores| < |candidates| && calls == (if report then ProgressCalls(|candidates|)[..|scores| + 1] else [])
    ensures r.Failure? && algo !in compare.comparers ==>
      scores == [] && r.error == IllegalState && algo != STRICT && compare.strokes.None?
    ensures |scores| > 0 || (r.Failure? && algo in compare.comparers) || (r.Success? && |candidates| > 0) ==>
      && algo in compare.comparers && ScorerOf(compare.comparers[algo]) == scorer
      && ScorerReady(scorer) && |scores| <= |shapes| && ScoredPrefix(scorer, shapes, scores)
    ensures r.Failure? && algo in compare.comparers ==>
      ScoredFrom(scorer, shapes[|scores|].0, shapes[|scores|].1, Failure(r.error))
  {
    // The loop only passes the comparer's results along: their definitions stay folded.
    hide ScoredFrom, ScorerOf;
    calls, scores := if report then [ProgressCall(0, |candidates|)] else [], [];
    var matches: seq<KanjiMatch> := [];
    scorer := StrictScorer(None);
    for i := 0 to |candidates|
      invariant compare.Valid() && compare.strokes == old(compare.strokes) && compare.features == old(compare.features)
      invariant ShapesOf(candidates, shapes)
      invariant |scores| == i
      invariant matches == Collect(candidates, scores, algo == STRICT, i)
      invariant calls == if report then ProgressCalls(|candidates|)[..i + 1] else []
      invariant i > 0 ==> algo in compare.comparers && ScorerOf(compare.comparers[algo]) == scorer
      invariant i > 0 ==> ScorerReady(scorer) && ScoredPrefix(scorer, shapes, scores)
    {
      var score;
      score, scorer := ScoreOne(compare, candidates, i, algo, scorer, shapes, scores);
      if score.Failure? {
        return Failure(score.error), calls, scores, scorer;
      }
      matches, calls := AddScore(candidates, i, scores, algo, report, matches, calls, score.value);
      scores := scores + [score.value];
    }
    r := Success(matches);
  }

  /** Each score of a scored prefix is the comparer's score of its own record. */
  lemma ScoredPrefixBy(c: Comparer, candidates: seq<KanjiInfo>, shapes: seq<Shape>, scores: seq<FloatValue>)
    requires ComparerValid(c) && ShapesOf(candidates, shapes) && |scores| <= |shapes|
    requires ScorerReady(ScorerOf(c)) && ScoredPrefix(ScorerOf(c), shapes, scores)
    ensures forall j :: 0 <= j < |scores| ==>
      ScoredBy(c, candidates[j].strokes, candidates[j].features, Success(scores[j]))
  {
    forall j | 0 <= j < |scores|
      ensures ScoredBy(c, candidates[j].strokes, candidates[j].features, Success(scores[j]))
    {
      ScoredPrefixAt(ScorerOf(c), shapes, scores, j);
    }
  }

  /**
   * One call of the drawn record's getMatchScore in the scoring loop, on
   * candidate i: no record's strokes or features change and the drawn record
   * stays well formed. Either no comparer could be built for the algorithm
   * (only possible on the first call, when the drawn record has no strokes),
   * or the comparer that gave the earlier scores gives this result too,
   * success or failure.
   */
  method ScoreOne(compare: KanjiInfo, candidates: seq<KanjiInfo>, i: nat, algo: MatchAlgorithm,
                  ghost scorer: Scorer, ghost shapes: seq<Shape>, ghost scores: seq<FloatValue>)
    returns (r: Result<FloatValue>, ghost now: Scorer)
    requires i < |candidates| && |scores| == i
    requires compare.Valid() && ShapesOf(candidates, shapes) && Paired(shapes[i].0, shapes[i].1)
    requires i > 0 ==> algo in compare.comparers && ScorerOf(compare.comparers[algo]) == scorer
    requires i > 0 ==> ScorerReady(scorer) && ScoredPrefix(scorer, shapes, scores)
    modifies compare
    ensures compare.Valid() && compare.strokes == old(compare.strokes) && compare.features == old(compare.features)
    ensures ShapesOf(candidates, shapes)
    ensures algo !in compare.comparers ==>
      i == 0 && r == Failure(IllegalState) && algo != STRICT && compare.strokes.None?
    ensures algo in compare.comparers ==> ScorerOf(compare.comparers[algo]) == now && ScorerReady(now)
    ensures algo in compare.comparers ==>
      ScoredPrefix(now, shapes, scores) && ScoredFrom(now, shapes[i].0, shapes[i].1, r)
    ensures r.Success? ==> algo in compare.comparers && ScoredPrefix(now, shapes, scores + [r.value])
  {
    hide ScoredFrom;
    r := compare.GetMatchScore(candidates[i], algo);
    now := scorer;
    if algo in compare.comparers {
      now := ScorerOf(compare.comparers[algo]);
      if r.Success? {
        assert (scores + [r.value])[..i] == scores;
      }
    }
    forall j | 0 <= j < |candidates|
      ensures shapes[j] == (candidates[j].strokes, candidates[j].features)
    {
      assert candidates[j].strokes == old(candidates[j].strokes) && candidates[j].features == old(candidates[j].features);
    }
  }

  /**
   * The rest of one round of the scoring loop, once candidate i has its
   * score: the match goes into the set (for a strict search only when the
   * score is above 0) and the progress after i + 1 records is reported.
   */
  method AddScore(candidates: seq<KanjiInfo>, i: nat, ghost scores: seq<FloatValue>, algo: MatchAlgorithm, report: bool,
                  matches: seq<KanjiMatch>, calls: seq<ProgressCall>, score: FloatValue)
    returns (matches': seq<KanjiMatch>, calls': seq<ProgressCall>)
    requires i == |scores| < |candidates|
    requires matches == Collect(candidates, scores, algo == STRICT, i)
    requires calls == if report then ProgressCalls(|candidates|)[..i + 1] else []
    ensures matches' == Collect(candidates, scores + [score], algo == STRICT, i + 1)
    ensures calls' == if report then ProgressCalls(|candidates|)[..i + 2] else []
  {
    CollectPrefix(candidates, scores, scores + [score], algo == STRICT, i);
    matches' := matches;
    if algo != STRICT || FloatGreater(score, Finite(0.0)) {
      matches' := Insert(matches, KanjiMatch(candidates[i], score));
    }
    calls' := calls;
    if report {
      calls' := calls + [ProgressCall(i + 1, |candidates|)];
    }
  }

  /** Collect reads only the first k scores. */
  lemma {:induction false} CollectPrefix(candidates: seq<KanjiInfo>, a: seq<FloatValue>, b: seq<FloatValue>, positiveOnly: bool, k: nat)
    requires k <= |candidates| && k <= |a| && k <= |b| && a[..k] == b[..k]
    ensures Collect(candidates, a, positiveOnly, k) == Collect(candidates, b, positiveOnly, k)
  {
    if k > 0 {
      assert a[..k - 1] == b[..k - 1] && a[k - 1] == b[k - 1];
      CollectPrefix(candidates, a, b, positiveOnly, k - 1);
    }
  }

  /** The bucket loop of the fuzzy search. */
  method FuzzyList(buckets: map<int, seq<KanjiInfo>>, n: int, range: nat) returns (list: seq<KanjiInfo>)
    ensures list == Gather(buckets, FuzzyCounts(n, range))
  {
    list := [];
    if n > 0 {
      FuzzyGather(buckets, n, range);
      var count := n - range;
      var i := 0;
      while i < 2
        invariant 0 <= i <= 2
        invariant count == n - range + 2 * range * i
        invariant i == 0 ==> list == []
        invariant i == 1 ==> list == (if n - range > 0 then Bucket(buckets, n - range) else [])
        invariant i == 2 ==> list == Gather(buckets, FuzzyCounts(n, range))
        invariant range == 0 ==> i == 0
      {
        if count > 0 {
          list := list + Bucket(buckets, count);
        }
        count := count + 2 * range;
        if range == 0 {
          break;
        }
        i := i + 1;
      }
    }
  }

  lemma FuzzyGather(buckets: map<int, seq<KanjiInfo>>, n: int, range: nat)
    requires n > 0
    ensures Gather(buckets, FuzzyCounts(n, range))
      == (if n - range > 0 then Bucket(buckets, n - range) else [])
         + (if range == 0 then [] else Bucket(buckets, n + range))
  {
    var counts := FuzzyCounts(n, range);
    if counts != [] {
      assert Gather(buckets, counts[1..]) == (if |counts| == 2 then Bucket(buckets, counts[1]) else []) by {
        if |counts| == 2 {
          assert counts[1..][1..] == [];
        }
      }
    }
  }

  /** The final loop of getTopMatches: copies matches until one falls below three quarters of the first. */
  method Threshold(matches: seq<KanjiMatch>) returns (results: seq<KanjiMatch>)
    ensures results == matches[..KeptCount(matches)]
  {
    results := [];
    var maxScore := Finite(-1.0);
    var i := 0;
    while i < |matches|
      invariant 0 <= i <= |matches|
      invariant results == matches[..i]
      invariant KeptFrom(matches, i, maxScore) == KeptCount(matches)
    {
      var m := matches[i];
      if maxScore == Finite(-1.0) {
        maxScore := m.score;
      } else if FloatLess(m.score, Scale(maxScore, 0.75)) {
        break;
      }
      results := results + [m];
      i := i + 1;
    }
  }
}
