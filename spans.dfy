/**
 * The spans comparer. Every drawn stroke is posted, with a closeness score,
 * to the cells of a 5×5×5×5 grid of (start band, end band) pairs around it,
 * in both orientations. Candidate strokes are then bound greedily to drawn
 * strokes, the highest required score first.
 */
module Spans {
  import opened Wrappers
  import opened StrokeGeometry

  const LocationRange: nat := 5
  const ArraySize: nat := LocationRange * LocationRange * LocationRange * LocationRange

  const ScoreRightDirection: int := 2
  const ScoreExactLocation: int := 4
  const ScoreStraightLocation: int := 3
  const ScoreDiagonalLocation: int := 2

  const MaxScore: int := ScoreExactLocation * 2 + ScoreRightDirection
  const MinScore: int := ScoreDiagonalLocation * 2

  const NoMatch: int := -1

  // ---------------------------------------------------------------------------
  // SpanScore and its order

  /** A drawn stroke index with the score it earns in one cell. */
  datatype SpanScore = SpanScore(stroke: int, score: int)

  /** SpanScore.compareTo: negative when a sorts before b. */
  function CompareSpanScores(a: SpanScore, b: SpanScore): int {
    if b.score > a.score then 1
    else if b.score < a.score then -1
    else b.stroke - a.stroke
  }

  predicate Before(a: SpanScore, b: SpanScore) {
    CompareSpanScores(a, b) < 0
  }

  /**
   * compareTo orders by descending score, then by descending stroke; it is
   * zero exactly on equal values, antisymmetric and transitive.
   */
  lemma SpanScoreOrder(a: SpanScore, b: SpanScore, c: SpanScore)
    ensures Before(a, b) <==> a.score > b.score || (a.score == b.score && a.stroke > b.stroke)
    ensures CompareSpanScores(a, b) == 0 <==> a == b
    ensures Sign(CompareSpanScores(a, b)) == -Sign(CompareSpanScores(b, a))
    ensures Before(a, b) && Before(b, c) ==> Before(a, c)
  {
  }

  predicate StrictlySorted(s: seq<SpanScore>) {
    forall i, j :: 0 <= i < j < |s| ==> Before(s[i], s[j])
  }

  // ---------------------------------------------------------------------------
  // Position: a TreeSet while loading, an array once finished

  /** TreeSet.add on a set kept as a strictly sorted sequence. */
  function Insert(s: seq<SpanScore>, x: SpanScore): seq<SpanScore> {
    if s == [] then [x]
    else if s[0] == x then s
    else if Before(x, s[0]) then [x] + s
    else [s[0]] + Insert(s[1..], x)
  }

  /** Adding keeps the set sorted, and its elements are the old ones and x. */
  lemma {:induction false} InsertSorted(s: seq<SpanScore>, x: SpanScore)
    requires StrictlySorted(s)
    ensures StrictlySorted(Insert(s, x))
    ensures forall y :: y in Insert(s, x) <==> y in s || y == x
  {
    if s != [] && s[0] != x && !Before(x, s[0]) {
      InsertSorted(s[1..], x);
      var r := Insert(s[1..], x);
      assert Before(s[0], x) by {
        SpanScoreOrder(x, s[0], x);
      }
      forall y | y in r
        ensures Before(s[0], y)
      {
        if y != x {
          var k :| 0 <= k < |s[1..]| && s[1..][k] == y;
          assert s[k + 1] == y;
        }
      }
      assert Insert(s, x) == [s[0]] + r;
    }
  }

  datatype Position = Loading(spanSet: seq<SpanScore>) | Finished(spanScores: seq<SpanScore>)

  /** Position.add: one more entry in the loading set. */
  function Add(p: Position, stroke: int, score: int): Position
    requires p.Loading?
  {
    Loading(Insert(p.spanSet, SpanScore(stroke, score)))
  }

  /** Position.finish: the set frozen in its order. */
  function Finish(p: Position): Position
    requires p.Loading?
  {
    Finished(p.spanSet)
  }

  /** Position.match: the first unused stroke before the first entry scoring under minScore. */
  function FirstMatch(spans: seq<SpanScore>, minScore: int, used: seq<bool>): (r: int)
    requires forall k :: 0 <= k < |spans| ==> 0 <= spans[k].stroke < |used|
    ensures r == NoMatch || (0 <= r < |used| && !used[r])
  {
    if spans == [] then NoMatch
    else if spans[0].score < minScore then NoMatch
    else if !used[spans[0].stroke] then spans[0].stroke
    else FirstMatch(spans[1..], minScore, used)
  }

  /**
   * On a list sorted by descending score, match finds a stroke exactly when
   * some unused entry reaches minScore, and it finds the first such entry.
   */
  lemma {:induction false} FirstMatchCharacterised(spans: seq<SpanScore>, minScore: int, used: seq<bool>)
    requires forall k :: 0 <= k < |spans| ==> 0 <= spans[k].stroke < |used|
    requires StrictlySorted(spans)
    ensures FirstMatch(spans, minScore, used) == NoMatch
      <==> forall k :: 0 <= k < |spans| && spans[k].score >= minScore ==> used[spans[k].stroke]
    ensures FirstMatch(spans, minScore, used) != NoMatch ==>
      exists k :: 0 <= k < |spans| && spans[k].stroke == FirstMatch(spans, minScore, used)
        && spans[k].score >= minScore && forall j :: 0 <= j < k ==> used[spans[j].stroke]
  {
    if spans != [] {
      if spans[0].score < minScore {
        forall k | 0 < k < |spans|
          ensures spans[k].score < minScore
        {
          assert Before(spans[0], spans[k]);
        }
      } else if used[spans[0].stroke] {
        FirstMatchCharacterised(spans[1..], minScore, used);
        var r := FirstMatch(spans, minScore, used);
        assert r == FirstMatch(spans[1..], minScore, used);
        if r != NoMatch {
          var k :| 0 <= k < |spans[1..]| && spans[1..][k].stroke == r
            && spans[1..][k].score >= minScore && forall j :: 0 <= j < k ==> used[spans[1..][j].stroke];
          assert spans[k + 1].stroke == r;
          forall j | 0 <= j < k + 1
            ensures used[spans[j].stroke]
          {
            if j > 0 {
              assert spans[j] == spans[1..][j - 1];
            }
          }
        } else {
          forall k | 0 <= k < |spans| && spans[k].score >= minScore
            ensures used[spans[k].stroke]
          {
            if k > 0 {
              assert spans[k] == spans[1..][k - 1];
            }
          }
        }
      } else {
        assert spans[0].stroke == FirstMatch(spans, minScore, used);
      }
    }
  }

  /** Position.match on a finished cell. */
  method Match(p: Position, minScore: int, used: array<bool>) returns (r: int)
    requires p.Finished?
    requires forall k :: 0 <= k < |p.spanScores| ==> 0 <= p.spanScores[k].stroke < used.Length
    ensures r == FirstMatch(p.spanScores, minScore, used[..])
  {
    var spans := p.spanScores;
    for k := 0 to |spans|
      invariant FirstMatch(spans, minScore, used[..]) == FirstMatch(spans[k..], minScore, used[..])
    {
      assert spans[k..][1..] == spans[k + 1..];
      var score := spans[k];
      if score.score < minScore {
        return NoMatch;
      }
      if !used[score.stroke] {
        return score.stroke;
      }
    }
    return NoMatch;
  }

  // ---------------------------------------------------------------------------
  // The grid of cells

  /** getIndex: the cell of a start band and an end band. */
  function GetIndex(sX: int, sY: int, eX: int, eY: int): int {
    sX * LocationRange * LocationRange * LocationRange
    + sY * LocationRange * LocationRange
    + eX * LocationRange
    + eY
  }

  /** The start band column of a cell. */
  function CellStartX(idx: int): int { idx / 125 }
  /** The start band row of a cell. */
  function CellStartY(idx: int): int { (idx / 25) % 5 }
  /** The end band column of a cell. */
  function CellEndX(idx: int): int { (idx / 5) % 5 }
  /** The end band row of a cell. */
  function CellEndY(idx: int): int { idx % 5 }

  predicate InBand(v: int) { 0 <= v < LocationRange }

  /** getIndex numbers the cells of [0,5)^4 one to one onto [0,625). */
  lemma GetIndexBijective(sX: int, sY: int, eX: int, eY: int)
    requires InBand(sX) && InBand(sY) && InBand(eX) && InBand(eY)
    ensures var idx := GetIndex(sX, sY, eX, eY);
      0 <= idx < ArraySize
      && CellStartX(idx) == sX && CellStartY(idx) == sY && CellEndX(idx) == eX && CellEndY(idx) == eY
  {
    var idx := GetIndex(sX, sY, eX, eY);
    assert idx == ((sX * 5 + sY) * 5 + eX) * 5 + eY;
    assert idx / 5 == (sX * 5 + sY) * 5 + eX;
    assert idx / 25 == (idx / 5) / 5;
    assert idx / 25 == sX * 5 + sY;
    assert idx / 125 == (idx / 25) / 5;
  }

  /** Every cell is the getIndex of its own bands. */
  lemma CellBands(idx: int)
    requires 0 <= idx < ArraySize
    ensures InBand(CellStartX(idx)) && InBand(CellStartY(idx)) && InBand(CellEndX(idx)) && InBand(CellEndY(idx))
    ensures GetIndex(CellStartX(idx), CellStartY(idx), CellEndX(idx), CellEndY(idx)) == idx
  {
    assert idx == (idx / 5) * 5 + idx % 5;
    assert idx / 5 == (idx / 25) * 5 + (idx / 5) % 5;
    assert idx / 25 == (idx / 125) * 5 + (idx / 25) % 5;
    assert idx / 25 == (idx / 5) / 5;
    assert idx / 125 == (idx / 25) / 5;
  }

  /** The cell of a stroke, from the bands of its two end points. */
  function StrokeIndex(s: Stroke): int {
    GetIndex(Band(s.startX, LocationRange), Band(s.startY, LocationRange),
             Band(s.endX, LocationRange), Band(s.endY, LocationRange))
  }

  // ---------------------------------------------------------------------------
  // addSpan

  predicate Near(v: int, centre: int) { centre - 1 <= v <= centre + 1 }

  /** The score of a grid point for the exact point (x, y): exact, same row or column, or diagonal. */
  function LocationScore(x: int, y: int, cellX: int, cellY: int): int {
    if x == cellX && y == cellY then ScoreExactLocation
    else if x == cellX || y == cellY then ScoreStraightLocation
    else ScoreDiagonalLocation
  }

  /** What addSpan posts to cell idx for one stroke in one orientation, if anything. */
  function SpanAt(stroke: int, startX: int, startY: int, endX: int, endY: int, forward: bool, idx: int): Option<SpanScore> {
    var sX, sY, eX, eY := CellStartX(idx), CellStartY(idx), CellEndX(idx), CellEndY(idx);
    if Near(sX, startX) && Near(sY, startY) && Near(eX, endX) && Near(eY, endY) then
      Some(SpanScore(stroke, LocationScore(startX, startY, sX, sY) + LocationScore(endX, endY, eX, eY)
                             + (if forward then ScoreRightDirection else 0)))
    else None
  }

  /** Every posted score lies between MinScore and MaxScore; only the exact cell read forwards scores MaxScore. */
  lemma SpanAtScore(stroke: int, startX: int, startY: int, endX: int, endY: int, forward: bool, idx: int)
    requires SpanAt(stroke, startX, startY, endX, endY, forward, idx).Some?
    ensures var sp := SpanAt(stroke, startX, startY, endX, endY, forward, idx).value;
      && sp.stroke == stroke
      && MinScore <= sp.score <= MaxScore
      && (sp.score == MaxScore <==>
            forward && CellStartX(idx) == startX && CellStartY(idx) == startY
            && CellEndX(idx) == endX && CellEndY(idx) == endY)
  {
  }

  /** TreeSet.add of an optional entry. */
  function InsertSpan(s: seq<SpanScore>, span: Option<SpanScore>): seq<SpanScore> {
    if span.None? then s else Insert(s, span.value)
  }

  /** A loading cell after one addSpan. */
  function Post(p: Position, span: Option<SpanScore>): Position
    requires p.Loading?
  {
    Loading(InsertSpan(p.spanSet, span))
  }

  predicate AllLoading(cells: seq<Position>) {
    forall idx :: 0 <= idx < |cells| ==> cells[idx].Loading?
  }

  /** The innermost loop of addSpan, over the end row eY. */
  method AddSpanEndColumn(positions: array<Position>, stroke: int, startX: int, startY: int,
                          endX: int, endY: int, forward: bool, sX: int, sY: int, eX: int)
    requires positions.Length == ArraySize && AllLoading(positions[..])
    requires InBand(sX) && InBand(sY) && InBand(eX)
    requires Near(sX, startX) && Near(sY, startY) && Near(eX, endX)
    modifies positions
    ensures AllLoading(positions[..])
    ensures forall idx :: 0 <= idx < ArraySize ==>
      positions[idx] == if CellStartX(idx) == sX && CellStartY(idx) == sY && CellEndX(idx) == eX
                        then Post(old(positions[idx]), SpanAt(stroke, startX, startY, endX, endY, forward, idx))
                        else old(positions[idx])
  {
    for eY := endY - 1 to endY + 2
      invariant AllLoading(positions[..])
      invariant forall idx :: 0 <= idx < ArraySize ==>
        positions[idx] == if CellStartX(idx) == sX && CellStartY(idx) == sY && CellEndX(idx) == eX && CellEndY(idx) < eY
                          then Post(old(positions[idx]), SpanAt(stroke, startX, startY, endX, endY, forward, idx))
                          else old(positions[idx])
    {
      if eY < 0 || eY >= LocationRange {
        continue;
      }
      var score;
      if startX == sX && startY == sY {
        score := ScoreExactLocation;
      } else if startX == sX || startY == sY {
        score := ScoreStraightLocation;
      } else {
        score := ScoreDiagonalLocation;
      }
      if endX == eX && endY == eY {
        score := score + ScoreExactLocation;
      } else if endX == eX || endY == eY {
        score := score + ScoreStraightLocation;
      } else {
        score := score + ScoreDiagonalLocation;
      }
      if forward {
        score := score + ScoreRightDirection;
      }
      var idx0 := GetIndex(sX, sY, eX, eY);
      GetIndexBijective(sX, sY, eX, eY);
      assert SpanAt(stroke, startX, startY, endX, endY, forward, idx0) == Some(SpanScore(stroke, score));
      forall idx | 0 <= idx < ArraySize
        ensures (CellStartX(idx) == sX && CellStartY(idx) == sY && CellEndX(idx) == eX && CellEndY(idx) == eY)
                <==> idx == idx0
      {
        CellBands(idx);
      }
      positions[idx0] := Add(positions[idx0], stroke, score);
    }
  }

  /** The loop of addSpan over the end column eX. */
  method AddSpanEnd(positions: array<Position>, stroke: int, startX: int, startY: int,
                    endX: int, endY: int, forward: bool, sX: int, sY: int)
    requires positions.Length == ArraySize && AllLoading(positions[..])
    requires InBand(sX) && InBand(sY) && Near(sX, startX) && Near(sY, startY)
    modifies positions
    ensures AllLoading(positions[..])
    ensures forall idx :: 0 <= idx < ArraySize ==>
      positions[idx] == if CellStartX(idx) == sX && CellStartY(idx) == sY
                        then Post(old(positions[idx]), SpanAt(stroke, startX, startY, endX, endY, forward, idx))
                        else old(positions[idx])
  {
    for eX := endX - 1 to endX + 2
      invariant AllLoading(positions[..])
      invariant forall idx :: 0 <= idx < ArraySize ==>
        positions[idx] == if CellStartX(idx) == sX && CellStartY(idx) == sY && CellEndX(idx) < eX
                          then Post(old(positions[idx]), SpanAt(stroke, startX, startY, endX, endY, forward, idx))
                          else old(positions[idx])
    {
      if eX < 0 || eX >= LocationRange {
        forall idx | 0 <= idx < ArraySize
          ensures InBand(CellEndX(idx))
        {
          CellBands(idx);
        }
        continue;
      }
      AddSpanEndColumn(positions, stroke, startX, startY, endX, endY, forward, sX, sY, eX);
    }
  }

  /** The loop of addSpan over the start row sY. */
  method AddSpanStart(positions: array<Position>, stroke: int, startX: int, startY: int,
                      endX: int, endY: int, forward: bool, sX: int)
    requires positions.Length == ArraySize && AllLoading(positions[..])
    requires InBand(sX) && Near(sX, startX)
    modifies positions
    ensures AllLoading(positions[..])
    ensures forall idx :: 0 <= idx < ArraySize ==>
      positions[idx] == if CellStartX(idx) == sX
                        then Post(old(positions[idx]), SpanAt(stroke, startX, startY, endX, endY, forward, idx))
                        else old(positions[idx])
  {
    for sY := startY - 1 to startY + 2
      invariant AllLoading(positions[..])
      invariant forall idx :: 0 <= idx < ArraySize ==>
        positions[idx] == if CellStartX(idx) == sX && CellStartY(idx) < sY
                          then Post(old(positions[idx]), SpanAt(stroke, startX, startY, endX, endY, forward, idx))
                          else old(positions[idx])
    {
      if sY < 0 || sY >= LocationRange {
        forall idx | 0 <= idx < ArraySize
          ensures InBand(CellStartY(idx))
        {
          CellBands(idx);
        }
        continue;
      }
      AddSpanEnd(positions, stroke, startX, startY, endX, endY, forward, sX, sY);
    }
  }

  /** addSpan: posts the stroke to every cell within one band of it on all four axes. */
  method AddSpan(positions: array<Position>, stroke: int, startX: int, startY: int,
                 endX: int, endY: int, forward: bool)
    requires positions.Length == ArraySize && AllLoading(positions[..])
    modifies positions
    ensures AllLoading(positions[..])
    ensures forall idx :: 0 <= idx < ArraySize ==>
      positions[idx] == Post(old(positions[idx]), SpanAt(stroke, startX, startY, endX, endY, forward, idx))
  {
    for sX := startX - 1 to startX + 2
      invariant AllLoading(positions[..])
      invariant forall idx :: 0 <= idx < ArraySize ==>
        positions[idx] == if CellStartX(idx) < sX
                          then Post(old(positions[idx]), SpanAt(stroke, startX, startY, endX, endY, forward, idx))
                          else old(positions[idx])
    {
      if sX < 0 || sX >= LocationRange {
        forall idx | 0 <= idx < ArraySize
          ensures InBand(CellStartX(idx))
        {
          CellBands(idx);
        }
        continue;
      }
      AddSpanStart(positions, stroke, startX, startY, endX, endY, forward, sX);
    }
  }

  // ---------------------------------------------------------------------------
  // init

  function StartBandX(s: Stroke): int { Band(s.startX, LocationRange) }
  function StartBandY(s: Stroke): int { Band(s.startY, LocationRange) }
  function EndBandX(s: Stroke): int { Band(s.endX, LocationRange) }
  function EndBandY(s: Stroke): int { Band(s.endY, LocationRange) }

  /** The postings of cell idx after init has posted the first n strokes both ways. */
  function Postings(strokes: seq<Stroke>, n: nat, idx: int): seq<SpanScore>
    requires n <= |strokes|
  {
    if n == 0 then []
    else
      var s := strokes[n - 1];
      var x0, y0, x1, y1 := StartBandX(s), StartBandY(s), EndBandX(s), EndBandY(s);
      InsertSpan(InsertSpan(Postings(strokes, n - 1, idx), SpanAt(n - 1, x0, y0, x1, y1, true, idx)),
                 SpanAt(n - 1, x1, y1, x0, y0, false, idx))
  }

  /** The spans a stroke posts to cell idx: forwards, and reversed without the direction bonus. */
  function PostedBy(s: Stroke, stroke: int, idx: int): set<SpanScore> {
    var x0, y0, x1, y1 := StartBandX(s), StartBandY(s), EndBandX(s), EndBandY(s);
    var fwd := SpanAt(stroke, x0, y0, x1, y1, true, idx);
    var back := SpanAt(stroke, x1, y1, x0, y0, false, idx);
    (if fwd.Some? then {fwd.value} else {}) + (if back.Some? then {back.value} else {})
  }

  /** Everything the first n strokes post to cell idx. */
  function PostedSet(strokes: seq<Stroke>, n: nat, idx: int): set<SpanScore>
    requires n <= |strokes|
  {
    if n == 0 then {} else PostedSet(strokes, n - 1, idx) + PostedBy(strokes[n - 1], n - 1, idx)
  }

  /** TreeSet.add of an optional entry keeps the order and adds that entry. */
  lemma InsertSpanSorted(s: seq<SpanScore>, span: Option<SpanScore>)
    requires StrictlySorted(s)
    ensures StrictlySorted(InsertSpan(s, span))
    ensures forall y :: y in InsertSpan(s, span) <==> y in s || (span.Some? && y == span.value)
  {
    if span.Some? {
      InsertSorted(s, span.value);
    }
  }

  /** A cell's postings are sorted and hold exactly what the strokes posted to it. */
  lemma {:induction false} PostingsSorted(strokes: seq<Stroke>, n: nat, idx: int)
    requires n <= |strokes|
    ensures StrictlySorted(Postings(strokes, n, idx))
    ensures forall x :: x in Postings(strokes, n, idx) <==> x in PostedSet(strokes, n, idx)
  {
    if n > 0 {
      PostingsSorted(strokes, n - 1, idx);
      var s := strokes[n - 1];
      var x0, y0, x1, y1 := StartBandX(s), StartBandY(s), EndBandX(s), EndBandY(s);
      var before := Postings(strokes, n - 1, idx);
      var fwd := SpanAt(n - 1, x0, y0, x1, y1, true, idx);
      InsertSpanSorted(before, fwd);
      InsertSpanSorted(InsertSpan(before, fwd), SpanAt(n - 1, x1, y1, x0, y0, false, idx));
    }
  }

  /** What the first n strokes post names one of them, and comes from one of them. */
  lemma {:induction false} PostedSetCharacterised(strokes: seq<Stroke>, n: nat, idx: int)
    requires n <= |strokes|
    ensures forall x :: x in PostedSet(strokes, n, idx) <==> exists i :: 0 <= i < n && x in PostedBy(strokes[i], i, idx)
    ensures forall x :: x in PostedSet(strokes, n, idx) ==> 0 <= x.stroke < n
  {
    if n > 0 {
      PostedSetCharacterised(strokes, n - 1, idx);
    }
  }

  /** The cells are ready for matching: finished, and naming only drawn strokes. */
  predicate CellsReady(cells: seq<Position>, count: int) {
    |cells| == ArraySize
    && forall idx :: 0 <= idx < ArraySize ==>
      cells[idx].Finished? && forall k :: 0 <= k < |cells[idx].spanScores| ==> 0 <= cells[idx].spanScores[k].stroke < count
  }

  // ---------------------------------------------------------------------------
  // getMatchScore

  /** The state of the binding loops. */
  datatype Binding = Binding(score: int, used: seq<bool>, otherUsed: seq<bool>, unmatched: int, otherUnmatched: int)

  /** The inner loop of getMatchScore at one required score, from candidate i on. */
  function InnerPass(cells: seq<Position>, otherIndexes: seq<int>, required: int, i: nat, st: Binding): (r: Binding)
    requires CellsReady(cells, |st.used|) && |st.otherUsed| == |otherIndexes|
    requires forall k :: 0 <= k < |otherIndexes| ==> 0 <= otherIndexes[k] < ArraySize
    requires i <= |otherIndexes|
    ensures |r.used| == |st.used| && |r.otherUsed| == |st.otherUsed|
    decreases |otherIndexes| - i
  {
    if i == |otherIndexes| then st
    else if st.otherUsed[i] then InnerPass(cells, otherIndexes, required, i + 1, st)
    else
      var m := FirstMatch(cells[otherIndexes[i]].spanScores, required, st.used);
      if m == NoMatch then InnerPass(cells, otherIndexes, required, i + 1, st)
      else
        var next := Binding(st.score + required, st.used[m := true], st.otherUsed[i := true],
                            st.unmatched - 1, st.otherUnmatched - 1);
        if next.unmatched == 0 || next.otherUnmatched == 0 then next
        else InnerPass(cells, otherIndexes, required, i + 1, next)
  }

  /** The outer loop of getMatchScore, from a required score down to MinScore. */
  function OuterPass(cells: seq<Position>, otherIndexes: seq<int>, required: int, st: Binding): (r: Binding)
    requires CellsReady(cells, |st.used|) && |st.otherUsed| == |otherIndexes|
    requires forall k :: 0 <= k < |otherIndexes| ==> 0 <= otherIndexes[k] < ArraySize
    ensures |r.used| == |st.used| && |r.otherUsed| == |st.otherUsed|
    decreases required - MinScore + 1
  {
    if required < MinScore then st
    else OuterPass(cells, otherIndexes, required - 1, InnerPass(cells, otherIndexes, required, 0, st))
  }

  /** The cells of a candidate's strokes. */
  function OtherIndexes(other: seq<Stroke>): (r: seq<int>)
    ensures |r| == |other|
    ensures forall k :: 0 <= k < |r| ==> 0 <= r[k] < ArraySize
  {
    seq(|other|, k requires 0 <= k < |other| =>
      var s := other[k];
      GetIndexBijective(StartBandX(s), StartBandY(s), EndBandX(s), EndBandY(s));
      StrokeIndex(s))
  }

  /** The state before the binding loops. */
  function Unbound(count: nat, otherCount: nat): Binding {
    Binding(0, seq(count, _ => false), seq(otherCount, _ => false), count, otherCount)
  }

  /** getMatchScore: the bound points as a percentage of MaxScore per stroke of the smaller side. */
  function SpansScore(cells: seq<Position>, count: nat, other: seq<Stroke>): FloatValue
    requires CellsReady(cells, count)
  {
    var otherIndexes := OtherIndexes(other);
    var st := OuterPass(cells, otherIndexes, MaxScore, Unbound(count, |other|));
    var maxScore := (if count < |other| then count else |other|) * MaxScore;
    if maxScore == 0 then NaN else Finite(100.0 * (st.score as real / maxScore as real))
  }

  // ---------------------------------------------------------------------------
  // The comparer

  /** The first loop of init: every stroke posted in both orientations. */
  method PostAll(cells: array<Position>, strokes: seq<Stroke>)
    requires cells.Length == ArraySize && forall idx :: 0 <= idx < ArraySize ==> cells[idx] == Loading([])
    modifies cells
    ensures forall idx :: 0 <= idx < ArraySize ==> cells[idx] == Loading(Postings(strokes, |strokes|, idx))
  {
    for i := 0 to |strokes|
      invariant forall idx :: 0 <= idx < ArraySize ==> cells[idx] == Loading(Postings(strokes, i, idx))
    {
      var s := strokes[i];
      var startX, startY := Band(s.startX, LocationRange), Band(s.startY, LocationRange);
      var endX, endY := Band(s.endX, LocationRange), Band(s.endY, LocationRange);
      AddSpan(cells, i, startX, startY, endX, endY, true);
      AddSpan(cells, i, endX, endY, startX, startY, false);
    }
  }

  /** The second loop of init: every cell finished. */
  method FinishAll(cells: array<Position>)
    requires forall idx :: 0 <= idx < cells.Length ==> cells[idx].Loading?
    modifies cells
    ensures forall idx :: 0 <= idx < cells.Length ==> cells[idx] == Finished(old(cells[idx]).spanSet)
  {
    for idx := 0 to cells.Length
      invariant forall k :: 0 <= k < idx ==> cells[k] == Finished(old(cells[k]).spanSet)
      invariant forall k :: idx <= k < cells.Length ==> cells[k] == old(cells[k])
    {
      cells[idx] := Finish(cells[idx]);
    }
  }

  /** Cells holding the finished postings of the strokes are ready for a comparer. */
  lemma FinishedReady(cells: seq<Position>, strokes: seq<Stroke>)
    requires |cells| == ArraySize
    requires forall idx :: 0 <= idx < ArraySize ==> cells[idx] == Finished(Postings(strokes, |strokes|, idx))
    ensures CellsReady(cells, |strokes|)
  {
    forall idx | 0 <= idx < ArraySize
      ensures forall k :: 0 <= k < |cells[idx].spanScores| ==> 0 <= cells[idx].spanScores[k].stroke < |strokes|
    {
      PostingsSorted(strokes, |strokes|, idx);
      PostedSetCharacterised(strokes, |strokes|, idx);
    }
  }

  /** The cells of the candidate's strokes, in a fresh array. */
  method CellsOf(strokes: seq<Stroke>) returns (otherIndexes: array<int>)
    ensures fresh(otherIndexes) && otherIndexes[..] == OtherIndexes(strokes)
  {
    otherIndexes := new int[|strokes|](_ => 0);
    for i := 0 to |strokes|
      invariant forall k :: 0 <= k < i ==> otherIndexes[k] == OtherIndexes(strokes)[k]
    {
      var s := strokes[i];
      var startX, startY := Band(s.startX, LocationRange), Band(s.startY, LocationRange);
      var endX, endY := Band(s.endX, LocationRange), Band(s.endY, LocationRange);
      otherIndexes[i] := GetIndex(startX, startY, endX, endY);
    }
  }

  class SpansComparer {
    const positions: array<Position>
    const count: nat
    /** The cells as a value: the array is never written once built. */
    ghost const cells: seq<Position>

    ghost predicate Valid()
      reads positions
    {
      positions.Length == ArraySize && positions[..] == cells && CellsReady(cells, count)
    }

    /** newComparer followed by init, on the strokes of a finished record. */
    constructor (strokes: seq<Stroke>)
      ensures Valid() && fresh(positions)
      ensures count == |strokes| && cells == positions[..]
      ensures forall idx :: 0 <= idx < ArraySize ==> positions[idx] == Finished(Postings(strokes, |strokes|, idx))
    {
      var cells := new Position[ArraySize](_ => Loading([]));
      PostAll(cells, strokes);
      FinishAll(cells);
      FinishedReady(cells[..], strokes);
      positions := cells;
      count := |strokes|;
      this.cells := cells[..];
    }

    /**
     * getMatchScore: binds candidate strokes to drawn strokes at required
     * scores from MaxScore down to MinScore; an unfinished candidate throws
     * IllegalState.
     */
    method GetMatchScore(other: Option<seq<Stroke>>) returns (r: Result<FloatValue>)
      requires Valid()
      ensures other.None? ==> r == Failure(IllegalState)
      ensures other.Some? ==> r == Success(SpansScore(positions[..], count, other.value))
    {
      if other.None? {
        return Failure(IllegalState);
      }
      var strokes := other.value;
      var used := new bool[count](_ => false);
      var unmatched := count;
      var otherCount := |strokes|;
      var otherUnmatched := otherCount;
      var otherUsed := new bool[otherCount](_ => false);
      var otherIndexes := CellsOf(strokes);
      assert forall k :: 0 <= k < count ==> !used[k];
      assert used[..] == Unbound(count, otherCount).used;
      assert forall k :: 0 <= k < otherCount ==> !otherUsed[k];
      assert otherUsed[..] == Unbound(count, otherCount).otherUsed;

      var score := BindAll(positions, count, otherIndexes, used, otherUsed);
      var maxScore := (if count < otherCount then count else otherCount) * MaxScore;
      if maxScore == 0 {
        return Success(NaN);
      }
      r := Success(Finite(100.0 * (score as real / maxScore as real)));
    }
  }

  /** The outer loop of getMatchScore: one pass per required score, MaxScore down to MinScore, from nothing bound. */
  method BindAll(positions: array<Position>, count: nat, otherIndexes: array<int>, used: array<bool>, otherUsed: array<bool>)
      returns (score: int)
    requires positions.Length == ArraySize && CellsReady(positions[..], count)
    requires forall k :: 0 <= k < otherIndexes.Length ==> 0 <= otherIndexes[k] < ArraySize
    requires used != otherUsed
    requires used[..] == Unbound(count, otherIndexes.Length).used
    requires otherUsed[..] == Unbound(count, otherIndexes.Length).otherUsed
    modifies used, otherUsed
    ensures score == OuterPass(positions[..], otherIndexes[..], MaxScore, Unbound(count, otherIndexes.Length)).score
  {
    var unmatched, otherUnmatched := count, otherIndexes.Length;
    score := 0;
    var requiredScore := MaxScore;
    ghost var cells, others := positions[..], otherIndexes[..];
    ghost var start := Unbound(count, otherIndexes.Length);
    while requiredScore >= MinScore
      invariant MinScore - 1 <= requiredScore <= MaxScore
      invariant used.Length == count && otherUsed.Length == otherIndexes.Length
      invariant positions[..] == cells && otherIndexes[..] == others
      invariant OuterPass(cells, others, MaxScore, start)
             == OuterPass(cells, others, requiredScore, Binding(score, used[..], otherUsed[..], unmatched, otherUnmatched))
      decreases requiredScore
    {
      ghost var before := Binding(score, used[..], otherUsed[..], unmatched, otherUnmatched);
      score, unmatched, otherUnmatched :=
        BindAtScore(positions, count, otherIndexes, requiredScore, used, otherUsed, score, unmatched, otherUnmatched);
      assert Binding(score, used[..], otherUsed[..], unmatched, otherUnmatched)
          == InnerPass(cells, others, requiredScore, 0, before);
      requiredScore := requiredScore - 1;
    }
  }

  /** One pass of the inner loop of getMatchScore at one required score. */
  method BindAtScore(positions: array<Position>, count: nat, otherIndexes: array<int>, required: int,
                     used: array<bool>, otherUsed: array<bool>, score: int, unmatched: int, otherUnmatched: int)
      returns (score': int, unmatched': int, otherUnmatched': int)
    requires positions.Length == ArraySize && CellsReady(positions[..], count)
    requires used.Length == count && otherUsed.Length == otherIndexes.Length
    requires forall k :: 0 <= k < otherIndexes.Length ==> 0 <= otherIndexes[k] < ArraySize
    requires used != otherUsed
    modifies used, otherUsed
    ensures Binding(score', used[..], otherUsed[..], unmatched', otherUnmatched')
         == InnerPass(positions[..], otherIndexes[..], required, 0,
                      Binding(score, old(used[..]), old(otherUsed[..]), unmatched, otherUnmatched))
  {
    ghost var cells := positions[..];
    ghost var start := Binding(score, used[..], otherUsed[..], unmatched, otherUnmatched);
    score', unmatched', otherUnmatched' := score, unmatched, otherUnmatched;
    for i := 0 to otherIndexes.Length
      invariant InnerPass(cells, otherIndexes[..], required, 0, start)
             == InnerPass(cells, otherIndexes[..], required, i,
                          Binding(score', used[..], otherUsed[..], unmatched', otherUnmatched'))
    {
      if otherUsed[i] {
        continue;
      }
      var found := Match(positions[otherIndexes[i]], required, used);
      if found != NoMatch {
        score' := score' + required;
        otherUsed[i] := true;
        used[found] := true;
        unmatched' := unmatched' - 1;
        otherUnmatched' := otherUnmatched' - 1;
        if unmatched' == 0 || otherUnmatched' == 0 {
          break;
        }
      }
    }
  }

  // ---------------------------------------------------------------------------
  // Properties of the binding

  /** The number of strokes not yet bound. */
  function CountFalse(s: seq<bool>): nat {
    if s == [] then 0 else CountFalse(s[..|s| - 1]) + (if s[|s| - 1] then 0 else 1)
  }

  /** Binding one more stroke lowers the count of unbound strokes by one. */
  lemma {:induction false} CountFalseSet(s: seq<bool>, k: nat)
    requires k < |s| && !s[k]
    ensures CountFalse(s[k := true]) == CountFalse(s) - 1
  {
    var t := s[k := true];
    if k == |s| - 1 {
      assert t[..|t| - 1] == s[..|s| - 1];
    } else {
      assert t[..|t| - 1] == s[..|s| - 1][k := true];
      CountFalseSet(s[..|s| - 1], k);
    }
  }

  /** No stroke is bound at the start. */
  lemma {:induction false} CountFalseNone(n: nat)
    ensures CountFalse(seq(n, _ => false)) == n
  {
    if n > 0 {
      assert seq(n, _ => false)[..n - 1] == seq(n - 1, _ => false);
      CountFalseNone(n - 1);
    }
  }

  /**
   * The bookkeeping of the binding loops: the counters count the unbound
   * strokes, both sides have bound equally many, and every binding has
   * added at most MaxScore.
   */
  predicate Consistent(st: Binding, count: nat, otherCount: nat) {
    |st.used| == count && |st.otherUsed| == otherCount
    && st.unmatched == CountFalse(st.used) && st.otherUnmatched == CountFalse(st.otherUsed)
    && count - st.unmatched == otherCount - st.otherUnmatched
    && 0 <= st.score <= MaxScore * (count - st.unmatched)
  }

  /** Binding an unused drawn stroke to an unused candidate stroke keeps the bookkeeping. */
  lemma BindConsistent(st: Binding, m: nat, i: nat, required: int, count: nat, otherCount: nat)
    requires Consistent(st, count, otherCount)
    requires m < count && !st.used[m] && i < otherCount && !st.otherUsed[i]
    requires 0 <= required <= MaxScore
    ensures Consistent(Binding(st.score + required, st.used[m := true], st.otherUsed[i := true],
                               st.unmatched - 1, st.otherUnmatched - 1), count, otherCount)
  {
    CountFalseSet(st.used, m);
    CountFalseSet(st.otherUsed, i);
  }

  /** The inner loop keeps the bookkeeping. */
  lemma {:induction false} InnerPassConsistent(cells: seq<Position>, otherIndexes: seq<int>, required: int,
                                               i: nat, st: Binding, count: nat)
    requires CellsReady(cells, |st.used|) && |st.otherUsed| == |otherIndexes|
    requires forall k :: 0 <= k < |otherIndexes| ==> 0 <= otherIndexes[k] < ArraySize
    requires i <= |otherIndexes| && 0 <= required <= MaxScore
    requires Consistent(st, count, |otherIndexes|)
    ensures Consistent(InnerPass(cells, otherIndexes, required, i, st), count, |otherIndexes|)
    decreases |otherIndexes| - i
  {
    if i < |otherIndexes| && !st.otherUsed[i] {
      var m := FirstMatch(cells[otherIndexes[i]].spanScores, required, st.used);
      if m != NoMatch {
        var next := Binding(st.score + required, st.used[m := true], st.otherUsed[i := true],
                            st.unmatched - 1, st.otherUnmatched - 1);
        BindConsistent(st, m, i, required, count, |otherIndexes|);
        if next.unmatched != 0 && next.otherUnmatched != 0 {
          InnerPassConsistent(cells, otherIndexes, required, i + 1, next, count);
        }
      } else {
        InnerPassConsistent(cells, otherIndexes, required, i + 1, st, count);
      }
    } else if i < |otherIndexes| {
      InnerPassConsistent(cells, otherIndexes, required, i + 1, st, count);
    }
  }

  /** The outer loop keeps the bookkeeping. */
  lemma {:induction false} OuterPassConsistent(cells: seq<Position>, otherIndexes: seq<int>, required: int,
                                               st: Binding, count: nat)
    requires CellsReady(cells, |st.used|) && |st.otherUsed| == |otherIndexes|
    requires forall k :: 0 <= k < |otherIndexes| ==> 0 <= otherIndexes[k] < ArraySize
    requires required <= MaxScore
    requires Consistent(st, count, |otherIndexes|)
    ensures Consistent(OuterPass(cells, otherIndexes, required, st), count, |otherIndexes|)
    decreases required - MinScore + 1
  {
    if required >= MinScore {
      InnerPassConsistent(cells, otherIndexes, required, 0, st, count);
      OuterPassConsistent(cells, otherIndexes, required - 1, InnerPass(cells, otherIndexes, required, 0, st), count);
    }
  }

  /**
   * Each drawn and each candidate stroke is bound at most once, so at most
   * min(count, otherCount) bindings are made, each worth at most MaxScore.
   */
  lemma BindingBounds(cells: seq<Position>, count: nat, other: seq<Stroke>)
    requires CellsReady(cells, count)
    ensures var st := OuterPass(cells, OtherIndexes(other), MaxScore, Unbound(count, |other|));
      var bound := count - st.unmatched;
      && bound == |other| - st.otherUnmatched
      && 0 <= bound <= (if count < |other| then count else |other|)
      && 0 <= st.score <= MaxScore * bound
  {
    CountFalseNone(count);
    CountFalseNone(|other|);
    OuterPassConsistent(cells, OtherIndexes(other), MaxScore, Unbound(count, |other|), count);
  }

  /** A proportion of a positive whole. */
  lemma Ratio(part: int, whole: int)
    requires 0 <= part <= whole && whole > 0
    ensures 0.0 <= 100.0 * (part as real / whole as real) <= 100.0
  {
  }

  /** With strokes on both sides the score is a percentage; otherwise it is 0/0. */
  lemma SpansScoreInRange(cells: seq<Position>, count: nat, other: seq<Stroke>)
    requires CellsReady(cells, count)
    ensures SpansScore(cells, count, other).NaN? <==> count == 0 || |other| == 0
    ensures SpansScore(cells, count, other).Finite? ==> 0.0 <= SpansScore(cells, count, other).value <= 100.0
  {
    BindingBounds(cells, count, other);
    var st := OuterPass(cells, OtherIndexes(other), MaxScore, Unbound(count, |other|));
    var maxScore := (if count < |other| then count else |other|) * MaxScore;
    if maxScore != 0 {
      Ratio(st.score, maxScore);
    }
  }
}
