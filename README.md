# kanjirecog recognition core in Dafny

kanjirecog recognises a hand-drawn kanji from its strokes. The core works on the
straight-line view of a drawing: one start point and one end point per stroke, with
every coordinate an integer in 0..255. It does four things:

- It classifies each stroke into a 3×3 grid **Location** and a nine-way **Direction**.
- It serialises a character record (**KanjiInfo**) as a compact hex stroke summary and
  as a direction summary, and parses both back.
- It scores a drawn record against a stored one with one of four comparers:
  - **StrictComparer**: a weighted positional sum;
  - **DotsComparer**: five-bucket histograms matched greedily;
  - **SpansComparer**: 625 posting lists bound greedily at falling thresholds;
  - **FuzzyComparer**: six integer features per point, top-five ranking and greedy pair
    matching.
- It ranks the stored records in a **KanjiList** and keeps the prefix that scores at
  least 0.75 of the best.

The SVG path reader of **InputStroke** turns an M/C/S/Z path into the start and end
points of a stroke.

There is one Dafny module per Java file:

| module | file |
|---|---|
| `Wrappers` | `Option`, `Result`, the error kinds and a float value that can be NaN |
| `StrokeGeometry` | `Stroke.java` |
| `InputStrokes` | `InputStroke.java` |
| `KanjiRecord` | `KanjiInfo.java` |
| `Strict` | `StrictComparer.java` |
| `Dots` | `DotsComparer.java` (plus `DotsTests`, the test vectors of `DotsComparerTest.java`) |
| `Spans` | `SpansComparer.java` |
| `Fuzzy` | `FuzzyComparer.java` |
| `Matches` | `KanjiMatch.java` |
| `KanjiLists` | `KanjiList.java` |

Pure Java code becomes datatypes, functions and lemmas. Code that changes state becomes
classes and methods with `modifies` clauses and loop invariants:

- `KanjiInfo`, `KanjiList`, the comparers and `PathData` are classes.
- Each loop's method states its result or new state through a specification function
  of its inputs (`ensures outcome == Matching(states, n)`).
- The properties are then proved about that function.

A Java exception becomes a `Failure` carrying the exception's kind. A Java `float`
becomes a `real`, or a `FloatValue` where a 0/0 can produce NaN.

The model follows the code where it differs from the library's own documentation:

- `KanjiInfo.MatchAlgorithm` names `FuzzyComparer.class` for the `FUZZY*` entries, although
  `FuzzyComparer` does not implement `KanjiComparer`. The model dispatches those entries to
  a `FuzzyComparer` built from the drawn strokes.
- `finish` never clears `loadingStrokes`. On a record built with `KanjiInfo(String)`,
  repeated `finish` or `addStroke` calls therefore succeed, as in the code.
- `getTopMatches` throws "Unknown algorithm" for the three `SPANS*` algorithms, as in the code.
- `DotsComparer` cannot be reached from `MatchAlgorithm`, which has no `DOTS` entry. The
  model has it only as its own class.
- `getAllDirections` on a record whose direction arrays are absent fails with a
  `NullPointer` error, which is what the code would throw.

## Model

| member | source | states |
|---|---|---|
| StrokeGeometry.Band | src/com/leafdigital/kanji/SpansComparer.java:163-166 | the bucket (v·ranges)>>8 of a coordinate lies below the number of ranges |
| StrokeGeometry.LocationOf | src/com/leafdigital/kanji/Stroke.java:173-220 | the location's column and row are the thirds of 0..255 (below 85, below 170, otherwise) holding x and y |
| StrokeGeometry.LocationCellsDetermine | src/com/leafdigital/kanji/Stroke.java:104-122 | no two locations share a (column, row) pair |
| StrokeGeometry.LocationIsCloseReflexive | src/com/leafdigital/kanji/Stroke.java:163-166 | every location is close to itself |
| StrokeGeometry.LocationIsCloseSymmetric | src/com/leafdigital/kanji/Stroke.java:163-166 | a is close to b iff b is close to a |
| StrokeGeometry.MidIsCloseToAll | src/com/leafdigital/kanji/Stroke.java:163-166 | MID is close to every location |
| StrokeGeometry.FindLocation | src/com/leafdigital/kanji/Stroke.java:147-157 | the scan returns a candidate whose text is s, or IllegalArgument exactly when no candidate has that text |
| StrokeGeometry.LocationFromString | src/com/leafdigital/kanji/Stroke.java:147-157 | a parsed location displays as s; IllegalArgument only when no location displays as s |
| StrokeGeometry.LocationRoundTrip | src/com/leafdigital/kanji/Stroke.java:135-157 | fromString(toString(l)) == l for every location |
| StrokeGeometry.DirectionIsCloseCompass | src/com/leafdigital/kanji/Stroke.java:284-292 | isClose holds iff either side is X or the compass indices are at most one step apart, modulo 8 |
| StrokeGeometry.DirectionIsCloseSymmetric | src/com/leafdigital/kanji/Stroke.java:284-292 | Direction.isClose is symmetric |
| StrokeGeometry.DirectionIsCloseReflexive | src/com/leafdigital/kanji/Stroke.java:284-292 | every direction is close to itself and to X |
| StrokeGeometry.DirectionStepsDetermine | src/com/leafdigital/kanji/Stroke.java:227-245 | two non-X directions with the same column and row steps are equal |
| StrokeGeometry.DirectionOf | src/com/leafdigital/kanji/Stroke.java:315-382 | X iff both \|dx\| and \|dy\| are below 51; otherwise diagonal iff minor > (77·major)>>8, a diagonal follows the signs of dx and dy, and a cardinal follows the strictly larger axis, with ties going to the vertical |
| StrokeGeometry.EqualDeltasAreDiagonal | src/com/leafdigital/kanji/Stroke.java:328-381 | a move with equal horizontal and vertical extent of at least 51 is diagonal |
| StrokeGeometry.FindDirection | src/com/leafdigital/kanji/Stroke.java:268-278 | the scan returns a candidate whose text is s, or IllegalArgument exactly when no candidate has that text |
| StrokeGeometry.DirectionFromString | src/com/leafdigital/kanji/Stroke.java:268-278 | a parsed direction displays as s; IllegalArgument only when no direction displays as s |
| StrokeGeometry.DirectionRoundTrip | src/com/leafdigital/kanji/Stroke.java:256-278 | fromString(toString(d)) == d for every direction |
| StrokeGeometry.NewStroke | src/com/leafdigital/kanji/Stroke.java:56-67 | IllegalArgument iff some coordinate is outside 0..255; otherwise the four getters return the given values |
| InputStrokes.ReadLetterSpec | src/com/leafdigital/kanji/InputStroke.java:50-71 | EOL iff only whitespace is left; NUMBER, consuming nothing, when the first non-blank character starts a number; otherwise that character, consumed together with the blanks before it |
| InputStrokes.CommandAt | src/com/leafdigital/kanji/InputStroke.java:50-71 | conversely, a command character after blanks is exactly what readLetter returns, with the rest after it |
| InputStrokes.TokenBounds | src/com/leafdigital/kanji/InputStroke.java:78-108 | a token found is a non-empty slice of the input |
| InputStrokes.TokenBoundsFound | src/com/leafdigital/kanji/InputStroke.java:78-108 | the token starts after the leading ',', whitespace and '+' and runs over the following digits and dots; there is no token iff only separators are left |
| InputStrokes.TokenBoundsUnique | src/com/leafdigital/kanji/InputStroke.java:78-108 | those bounds are the only ones with that description |
| InputStrokes.ReadNumberToken | src/com/leafdigital/kanji/InputStroke.java:78-121 | readNumber fails at end of input, otherwise consumes exactly the token and succeeds iff the token parses, with the parsed value |
| InputStrokes.ReadNumberSpec | src/com/leafdigital/kanji/InputStroke.java:78-121 | failure is IllegalArgument; success consumes input |
| InputStrokes.PathData.constructor | src/com/leafdigital/kanji/InputStroke.java:41-44 | the cursor starts at the whole path |
| InputStrokes.PathData.ReadLetter | src/com/leafdigital/kanji/InputStroke.java:50-71 | the cursor loop returns the letter ReadLetterSpec describes and leaves the cursor after it |
| InputStrokes.PathData.ReadNumber | src/com/leafdigital/kanji/InputStroke.java:78-121 | the cursor loop returns the number ReadNumberSpec describes and leaves the cursor after it |
| InputStrokes.ReadNumbers | src/com/leafdigital/kanji/InputStroke.java:171-196 | k numbers in turn give exactly k values and consume input, or fail with IllegalArgument |
| InputStrokes.ReadNumbersFirstFails | src/com/leafdigital/kanji/InputStroke.java:171-196 | a failing first number fails the whole command |
| InputStrokes.ReadCubicEnd | src/com/leafdigital/kanji/InputStroke.java:170-185 | reading a C/c argument list succeeds iff six numbers can be read, and returns the fifth and sixth |
| InputStrokes.ReadSmoothEnd | src/com/leafdigital/kanji/InputStroke.java:186-197 | reading an S/s argument list succeeds iff four numbers can be read, and returns the third and fourth |
| InputStrokes.Dispatch | src/com/leafdigital/kanji/InputStroke.java:166-206 | a command fails only with IllegalArgument; a continuing command becomes the last command and consumes input, except z/Z, which reads nothing |
| InputStrokes.CurveStep | src/com/leafdigital/kanji/InputStroke.java:170-197 | a curve command fails only with IllegalArgument, and a continuing one consumes input and becomes the last command |
| InputStrokes.CurveStepReads | src/com/leafdigital/kanji/InputStroke.java:170-197 | for any arity, c and s add the last pair read to the current point, the other letters replace it, and a failed read fails the command |
| InputStrokes.DispatchCurve | src/com/leafdigital/kanji/InputStroke.java:170-197 | c and s add the final pair to the current point, C and S replace it, and a failed read fails the command |
| InputStrokes.StepAsWritten | src/com/leafdigital/kanji/InputStroke.java:151-207 | one pass of the loop as written: a continuing pass consumes input unless a bare number follows z/Z |
| InputStrokes.PathStep | src/com/leafdigital/kanji/InputStroke.java:151-207 | one pass with the repeated closepath rejected: every continuing pass consumes input, and the pass agrees with the code everywhere else |
| InputStrokes.RunCommands | src/com/leafdigital/kanji/InputStroke.java:151-210 | the command loop fails only with IllegalArgument, and a result keeps the start point |
| InputStrokes.RunCommandsContinues | src/com/leafdigital/kanji/InputStroke.java:151-207 | a continuing pass leaves the outcome of the loop unchanged |
| InputStrokes.PathSpec | src/com/leafdigital/kanji/InputStroke.java:132-211 | a path whose first letter is not M or m is rejected with IllegalArgument |
| InputStrokes.PathStartIsMovePair | src/com/leafdigital/kanji/InputStroke.java:136-149 | a parsed stroke starts at the pair after M or m, with m read as absolute |
| InputStrokes.ExecuteCubic | src/com/leafdigital/kanji/InputStroke.java:170-185 | executing c/C on the cursor gives the step CurveStep describes for six numbers and leaves the cursor after them |
| InputStrokes.ExecuteSmooth | src/com/leafdigital/kanji/InputStroke.java:186-197 | executing s/S on the cursor gives the step CurveStep describes for four numbers and leaves the cursor after them |
| InputStrokes.Execute | src/com/leafdigital/kanji/InputStroke.java:166-206 | the switch on the command gives the step Dispatch describes and leaves the cursor after it |
| InputStrokes.Pass | src/com/leafdigital/kanji/InputStroke.java:153-206 | one iteration of the labelled loop on the cursor is PathStep |
| InputStrokes.FromPath | src/com/leafdigital/kanji/InputStroke.java:132-211 | the imperative path reader computes PathSpec |
| InputStrokes.NumberBeforeFirstCommandFails | src/com/leafdigital/kanji/InputStroke.java:154-159 | a number before any command after the M pair is rejected |
| InputStrokes.UnknownCommandFails | src/com/leafdigital/kanji/InputStroke.java:203-205 | any letter other than c, C, s, S, z or Z rejects the path |
| InputStrokes.CloseReturnsToStart | src/com/leafdigital/kanji/InputStroke.java:198-202 | z and Z move the current point back to the start point |
| InputStrokes.BareNumberRepeatsCurve | src/com/leafdigital/kanji/InputStroke.java:154-165 | a bare number after a curve command acts as if that command letter were written again |
| InputStrokes.RepeatedCurveDispatch | src/com/leafdigital/kanji/InputStroke.java:154-165 | the repeated curve command reads its arguments from the bare number on |
| InputStrokes.ReadCurveDispatch | src/com/leafdigital/kanji/InputStroke.java:162-206 | a command letter is dispatched on the input after it |
| InputStrokes.CurveCommandStep | src/com/leafdigital/kanji/InputStroke.java:170-197 | a curve command letter makes the pass add (c, s) or replace (C, S) the current point with the last pair read, or fail when the read fails |
| InputStrokes.EndOfLineEndsAtCurrentPoint | src/com/leafdigital/kanji/InputStroke.java:166-211 | at end of input the stroke ends at the current point |
| InputStrokes.CloseThenNumberLoopsForever | src/com/leafdigital/kanji/InputStroke.java:151-207 | as written, a z followed by "1" is a pass that changes nothing |
| InputStrokes.RepeatedCloseIsFixedPoint | src/com/leafdigital/kanji/InputStroke.java:151-207 | as written, after a z any bare number makes every later pass repeat the same state |
| InputStrokes.CloseThenNumberRejected | src/com/leafdigital/kanji/InputStroke.java:132-211 | corrected: "M0,0z1" is rejected with IllegalArgument |
| KanjiRecord.LowerHexValue | src/com/leafdigital/kanji/KanjiInfo.java:220-226 | a lowercase hex digit's value is below 16 and is written back as that digit |
| KanjiRecord.HexDigitValue | src/com/leafdigital/kanji/KanjiInfo.java:433-441 | the digit written for v < 16 is a lowercase hex digit that reads back as v |
| KanjiRecord.TwoDigitHexIntOfDigits | src/com/leafdigital/kanji/KanjiInfo.java:220-226 | getTwoDigitHexInt on two lowercase hex digits is 16·high + low, whatever surrounds them |
| KanjiRecord.TwoDigitPosition | src/com/leafdigital/kanji/KanjiInfo.java:433-441 | a coordinate is written as two lowercase hex digits, high digit first and zero-padded |
| KanjiRecord.ParseInt16OfDigits | src/com/leafdigital/kanji/KanjiInfo.java:290-294 | Integer.parseInt(·, 16) of two lowercase hex digits is 16·high + low |
| KanjiRecord.StrokeSummary | src/com/leafdigital/kanji/KanjiInfo.java:461-467 | each stroke is written in exactly 11 characters |
| KanjiRecord.SummaryLayout | src/com/leafdigital/kanji/KanjiInfo.java:454-468 | the summary of n strokes has length 12n−1 (0 for none), and the 11 characters at offset 12i are stroke i's summary |
| KanjiRecord.SummaryLength | src/com/leafdigital/kanji/KanjiInfo.java:447-471 | the full summary of n ≥ 1 strokes has length 12n−1 |
| KanjiRecord.StrokeAt | src/com/leafdigital/kanji/KanjiInfo.java:194-198 | reading one stroke fails only with IllegalArgument |
| KanjiRecord.ReadAll | src/com/leafdigital/kanji/KanjiInfo.java:185-200 | reading count strokes gives exactly count strokes, or IllegalArgument |
| KanjiRecord.ParseFull | src/com/leafdigital/kanji/KanjiInfo.java:172-207 | the two-argument constructor rejects every length other than 12·count−1 with IllegalArgument, and success gives count ≥ 1 strokes |
| KanjiRecord.ReadHexDigits | src/com/leafdigital/kanji/KanjiInfo.java:194-198 | both hex readers read back the two digits written for a coordinate |
| KanjiRecord.StrokeAtDigits | src/com/leafdigital/kanji/KanjiInfo.java:194-198 | eleven characters holding a stroke's digits read back as that stroke, whatever the separators |
| KanjiRecord.LaidOutReadBack | src/com/leafdigital/kanji/KanjiInfo.java:172-207 | any text laid out like a summary parses to its strokes |
| KanjiRecord.FullSummaryRoundTrip | src/com/leafdigital/kanji/KanjiInfo.java:172-210 | parsing getFullSummary of n ≥ 1 strokes gives back exactly those strokes |
| KanjiRecord.EmptySummaryRejected | src/com/leafdigital/kanji/KanjiInfo.java:176-181 | the summary of no strokes is empty, and the two-argument constructor rejects it |
| KanjiRecord.BuildFullSummary | src/com/leafdigital/kanji/KanjiInfo.java:447-471 | the StringBuilder loop writes the full summary |
| KanjiRecord.ParseStrokes | src/com/leafdigital/kanji/KanjiInfo.java:172-207 | the parsing loop computes ParseFull |
| KanjiRecord.ReadStrokes | src/com/leafdigital/kanji/KanjiInfo.java:183-200 | the offset-cursor loop reads the strokes ReadAll describes |
| KanjiRecord.FeaturesOf | src/com/leafdigital/kanji/KanjiInfo.java:343-360 | the derived arrays hold one entry per stroke and one move per consecutive pair |
| KanjiRecord.MovesOf | src/com/leafdigital/kanji/KanjiInfo.java:355-359 | there are max(n−1, 0) moves, each from the end of stroke i to the start of stroke i+1 |
| KanjiRecord.FindDirections | src/com/leafdigital/kanji/KanjiInfo.java:343-360 | findDirections sets each stroke's direction, start and end location and each move direction |
| KanjiRecord.StrokeDirections | src/com/leafdigital/kanji/KanjiInfo.java:346-354 | the first loop fills direction, start and end per stroke |
| KanjiRecord.MoveDirections | src/com/leafdigital/kanji/KanjiInfo.java:355-359 | the second loop fills the move directions |
| KanjiRecord.DirectionsLayout | src/com/leafdigital/kanji/KanjiInfo.java:415-431 | the directions text of k strokes has length 6k−3, with stroke i's start, direction and end glyphs at 6i, 6i+1 and 6i+2 and move i's glyph at 6i+4 |
| KanjiRecord.DirectionsLength | src/com/leafdigital/kanji/KanjiInfo.java:415-431 | getAllDirections of n ≥ 1 strokes has length 6n−3, the length the three-argument constructor accepts |
| KanjiRecord.BuildAllDirections | src/com/leafdigital/kanji/KanjiInfo.java:415-431 | the StringBuilder loop writes the directions text |
| KanjiRecord.ParseDirections | src/com/leafdigital/kanji/KanjiInfo.java:251-277 | parsing the directions text fails only with IllegalArgument, and success gives well-formed arrays for count strokes |
| KanjiRecord.ReadDirections | src/com/leafdigital/kanji/KanjiInfo.java:251-277 | the offset-cursor loop computes ParseDirections |
| KanjiRecord.ReadGlyphs | src/com/leafdigital/kanji/KanjiInfo.java:269-271 | one stroke's three glyphs are read at offsets 6i, 6i+1 and 6i+2 |
| KanjiRecord.ReadMove | src/com/leafdigital/kanji/KanjiInfo.java:262-266 | the move glyph is read at offset 6i+4 |
| KanjiRecord.MissingGlyph | src/com/leafdigital/kanji/KanjiInfo.java:262-277 | any glyph that is not a location or direction rejects the whole text with IllegalArgument |
| KanjiRecord.DirectionsRoundTrip | src/com/leafdigital/kanji/KanjiInfo.java:235-277 | parsing getAllDirections gives back the same four arrays |
| KanjiRecord.FromSummary | src/com/leafdigital/kanji/KanjiInfo.java:172-210 | a record loaded from a summary has at least one stroke and arrays derived from its strokes; failure is IllegalArgument |
| KanjiRecord.FromTexts | src/com/leafdigital/kanji/KanjiInfo.java:235-304 | a record loaded from the two texts has n ≥ 1 strokes, texts of lengths 6n−3 and 12n−1, and well-formed arrays for n strokes |
| KanjiRecord.SummaryRoundTrip | src/com/leafdigital/kanji/KanjiInfo.java:172-210 | loading getFullSummary gives back the strokes and their derived arrays |
| KanjiRecord.TextsRoundTrip | src/com/leafdigital/kanji/KanjiInfo.java:235-304 | loading getAllDirections and getFullSummary together gives back the strokes and arrays |
| KanjiRecord.MatchAlgorithm.GetOut | src/com/leafdigital/kanji/KanjiInfo.java:34-89 | the out count is 0 for STRICT, FUZZY and SPANS, 2 for the 2OUT entries, and 1 otherwise |
| KanjiRecord.KanjiInfo.constructor | src/com/leafdigital/kanji/KanjiInfo.java:160-164 | a new record is loading, with no strokes, no arrays and no comparers |
| KanjiRecord.KanjiInfo.Load | src/com/leafdigital/kanji/KanjiInfo.java:172-210 | a parsed record is not loading, and holds the parsed strokes and arrays |
| KanjiRecord.KanjiInfo.FromFull | src/com/leafdigital/kanji/KanjiInfo.java:172-210 | KanjiInfo(kanji, full) fails exactly when the summary is rejected, and otherwise holds the parsed strokes and derived arrays |
| KanjiRecord.KanjiInfo.FromDirections | src/com/leafdigital/kanji/KanjiInfo.java:235-304 | KanjiInfo(kanji, directions, full) fails exactly when either text is rejected, and otherwise holds what they describe |
| KanjiRecord.KanjiInfo.AddStroke | src/com/leafdigital/kanji/KanjiInfo.java:311-318 | addStroke appends to loadingStrokes, and throws IllegalState only when loadingStrokes is absent; nothing else changes |
| KanjiRecord.KanjiInfo.Finish | src/com/leafdigital/kanji/KanjiInfo.java:324-338 | finish sets the normalised strokes and their derived arrays, keeps loadingStrokes, and throws IllegalState only when loadingStrokes is absent |
| KanjiRecord.KanjiInfo.GetStrokeCount | src/com/leafdigital/kanji/KanjiInfo.java:366-390 | getStrokeCount throws IllegalState iff the derived arrays are absent, and otherwise returns the number of strokes |
| KanjiRecord.KanjiInfo.GetStroke | src/com/leafdigital/kanji/KanjiInfo.java:400-409 | getStroke returns stroke i, throws IllegalState before strokes exist, and throws IndexOutOfBounds outside the range |
| KanjiRecord.KanjiInfo.GetAllDirections | src/com/leafdigital/kanji/KanjiInfo.java:415-431 | getAllDirections returns the directions text of the record's arrays |
| KanjiRecord.KanjiInfo.GetFullSummary | src/com/leafdigital/kanji/KanjiInfo.java:447-471 | getFullSummary returns the summary of the record's strokes, or IllegalState before strokes exist |
| KanjiRecord.KanjiInfo.NewComparer | src/com/leafdigital/kanji/KanjiInfo.java:96-113 | the comparer for an algorithm is built from this record's data; only the non-STRICT comparers need strokes |
| KanjiRecord.KanjiInfo.CachedComparer | src/com/leafdigital/kanji/KanjiInfo.java:497-510 | a cached comparer is reused unchanged; otherwise a new one is stored for that algorithm alone |
| KanjiRecord.KanjiInfo.GetMatchScore | src/com/leafdigital/kanji/KanjiInfo.java:493-513 | at most one comparer per algorithm is created and kept; the score is the one the cached comparer's own specification gives the other record |
| KanjiRecord.ScoreWith | src/com/leafdigital/kanji/KanjiInfo.java:512 | each comparer scores the other record by its own specification: StrictScore, DotsScore, SpansScore or FuzzyScore, or the exception the comparer throws |
| KanjiRecord.ScorerReadyOf | src/com/leafdigital/kanji/KanjiInfo.java:96-113 | the data a well-formed comparer scores from meets what its scoring function needs |
| Strict.Credits | src/com/leafdigital/kanji/StrictComparer.java:71-113 | one credit per stroke, each the stroke's weighted credit |
| Strict.StrictScore | src/com/leafdigital/kanji/StrictComparer.java:57-120 | fails iff an array is absent (NullPointer) or the stroke counts differ (IllegalArgument) |
| Strict.StrictComparer.constructor | src/com/leafdigital/kanji/StrictComparer.java:43-49 | init keeps the drawn arrays |
| Strict.StrictComparer.GetMatchScore | src/com/leafdigital/kanji/StrictComparer.java:57-120 | the loop computes StrictScore, without changing the comparer |
| Strict.PercentScore | src/com/leafdigital/kanji/StrictComparer.java:70-119 | the weighted sum over strokes as a percentage of n·2.2 + (n−1)·0.8 |
| Strict.StrokeStep | src/com/leafdigital/kanji/StrictComparer.java:73-112 | one loop iteration adds that stroke's credit |
| Strict.CreditBounds | src/com/leafdigital/kanji/StrictComparer.java:74-81 | a credit lies between 0 and its weight, and is the full weight on equality |
| Strict.StrokeCreditBounds | src/com/leafdigital/kanji/StrictComparer.java:73-112 | a stroke's credit lies between 0 and its full credit, and is full when both sides are the same |
| Strict.ScoreSumBounds | src/com/leafdigital/kanji/StrictComparer.java:70-117 | the weighted sum lies between 0 and the maximum |
| Strict.ScoreSumSelf | src/com/leafdigital/kanji/StrictComparer.java:70-117 | a record compared with itself reaches the maximum |
| Strict.StrictScoreInRange | src/com/leafdigital/kanji/StrictComparer.java:57-120 | every score lies in [0, 100] |
| Strict.StrictSelfMatch | src/com/leafdigital/kanji/StrictComparer.java:57-120 | identical arrays score exactly 100 |
| Strict.StrokeCreditSymmetric | src/com/leafdigital/kanji/StrictComparer.java:73-112 | a stroke's credit does not depend on which side is drawn |
| Strict.ScoreSumSymmetric | src/com/leafdigital/kanji/StrictComparer.java:70-113 | the weighted sum is symmetric |
| Strict.StrictScoreSymmetric | src/com/leafdigital/kanji/StrictComparer.java:57-120 | the score, and the error, are symmetric in drawn and candidate |
| Dots.Bucket | src/com/leafdigital/kanji/DotsComparer.java:78-81 | the bucket (v·5)>>8 lies in 0..4 |
| Dots.TallySum | src/com/leafdigital/kanji/DotsComparer.java:73-83 | fillCounts adds exactly 2 per stroke to the histogram total |
| Dots.TallyGrows | src/com/leafdigital/kanji/DotsComparer.java:73-83 | fillCounts never lowers a bucket |
| Dots.HistogramTotal | src/com/leafdigital/kanji/DotsComparer.java:73-83 | a fresh histogram of n strokes totals 2n |
| Dots.FillCounts | src/com/leafdigital/kanji/DotsComparer.java:73-83 | the in-place loop adds each stroke's two ends to both histograms |
| Dots.NewHistograms | src/com/leafdigital/kanji/DotsComparer.java:53-56 | two fresh histograms of the strokes are built |
| Dots.DotsComparer.constructor | src/com/leafdigital/kanji/DotsComparer.java:37-42 | init fills countsX and countsY from the drawn strokes |
| Dots.DotsComparer.GetMatchScore | src/com/leafdigital/kanji/DotsComparer.java:50-65 | the score is 50·(compareArrays on X + compareArrays on Y), without wrap; IllegalState when the other record has no strokes |
| Dots.Left1 | src/com/leafdigital/kanji/DotsComparer.java:103-125 | after the exact pass, left1 holds the surplus of the first array per bucket |
| Dots.Left2 | src/com/leafdigital/kanji/DotsComparer.java:103-125 | after the exact pass, left2 holds the surplus of the second array per bucket |
| Dots.Taken | src/com/leafdigital/kanji/DotsComparer.java:150-161 | a neighbour gives up at most what is still needed and at most what it has left |
| Dots.TakeNeighbour | src/com/leafdigital/kanji/DotsComparer.java:147-177 | taking from one neighbour updates left2 as TakeFrom describes |
| Dots.ExactPass | src/com/leafdigital/kanji/DotsComparer.java:97-125 | the exact pass scores the shared units, totals both arrays and leaves the surpluses |
| Dots.NeighbourPass | src/com/leafdigital/kanji/DotsComparer.java:137-215 | the neighbour pass scores as NeighbourFrom, taking left first and then right |
| Dots.CompareArrays | src/com/leafdigital/kanji/DotsComparer.java:95-227 | the whole of compareArrays computes CompareSpec, and does not modify its inputs |
| Dots.ExactPlusLeft | src/com/leafdigital/kanji/DotsComparer.java:103-125 | shared units plus each surplus make up each array's total |
| Dots.TakeFromBounds | src/com/leafdigital/kanji/DotsComparer.java:147-161 | units taken from a neighbour leave the total unchanged and no bucket negative |
| Dots.StepBounds | src/com/leafdigital/kanji/DotsComparer.java:137-213 | one bucket's neighbour step gains at most its surplus, conserves units and keeps left2 non-negative |
| Dots.NeighbourBounds | src/com/leafdigital/kanji/DotsComparer.java:137-215 | the neighbour pass gains at most the first array's surplus and never drives left2 negative |
| Dots.NeighbourNothingLeft | src/com/leafdigital/kanji/DotsComparer.java:140-144 | with no surplus left, the neighbour pass gains nothing |
| Dots.MatchScoreBounds | src/com/leafdigital/kanji/DotsComparer.java:103-215 | the score achieved lies between 0 and 2·min(total1, total2) |
| Dots.CompareInRange | src/com/leafdigital/kanji/DotsComparer.java:95-227 | compareArrays lies in [0, 1] |
| Dots.CompareBothEmpty | src/com/leafdigital/kanji/DotsComparer.java:128-131 | two empty arrays score 1 |
| Dots.CompareOneEmpty | src/com/leafdigital/kanji/DotsComparer.java:219-223 | exactly one empty array scores 0 |
| Dots.MatchScoreSelf | src/com/leafdigital/kanji/DotsComparer.java:103-134 | an array matched with itself scores twice its total |
| Dots.CompareIdentical | src/com/leafdigital/kanji/DotsComparer.java:95-227 | identical non-empty arrays score exactly 1 |
| Dots.DotsScoreInRange | src/com/leafdigital/kanji/DotsComparer.java:50-65 | getMatchScore lies in [0, 100] |
| Dots.Compare5 | src/com/leafdigital/kanji/DotsComparer.java:95-227 | on five buckets, compareArrays is 1 for two empty arrays, 0 for one, and otherwise the score over 2·min of the totals |
| Dots.EqualAndEmpty | test/com/leafdigital/kanji/DotsComparerTest.java:58-113 | the test's equal arrays score 1, two empty arrays score 1, and one empty array scores 0 |
| DotsTests.ShiftFirst | test/com/leafdigital/kanji/DotsComparerTest.java:64-66 | shifting the first unit right scores 0.5 |
| DotsTests.ShiftSecond | test/com/leafdigital/kanji/DotsComparerTest.java:67-69 | shifting the second unit left scores 0.5 |
| DotsTests.ShiftLast | test/com/leafdigital/kanji/DotsComparerTest.java:70-72 | shifting the last unit left scores 0.5 |
| DotsTests.ShiftFourth | test/com/leafdigital/kanji/DotsComparerTest.java:73-75 | shifting the fourth unit right scores 0.5 |
| DotsTests.ShiftLeftOver | test/com/leafdigital/kanji/DotsComparerTest.java:78-80 | [2,0,0,0,0] against [0,1,1,0,0] scores 0.25 |
| DotsTests.ShiftUsedOnce | test/com/leafdigital/kanji/DotsComparerTest.java:83-85 | [0,1,0,1,0] against [0,0,1,0,0] scores 0.5 |
| DotsTests.EqualAndShift | test/com/leafdigital/kanji/DotsComparerTest.java:88-90 | [1,0,1,0,0] against [0,1,1,0,0] scores 0.75 |
| DotsTests.ExtraFirst | test/com/leafdigital/kanji/DotsComparerTest.java:93-95 | one extra unit on the first side scores 1 |
| DotsTests.ExtraSecond | test/com/leafdigital/kanji/DotsComparerTest.java:96-98 | one extra unit on the second side scores 1 |
| Spans.SpanScoreOrder | src/com/leafdigital/kanji/SpansComparer.java:74-85 | SpanScore.compareTo orders by descending score, then descending stroke; it is zero only on equal entries, antisymmetric and transitive |
| Spans.InsertSorted | src/com/leafdigital/kanji/SpansComparer.java:107-110 | adding to the ordered set keeps it strictly ordered and adds exactly that entry |
| Spans.InsertSpanSorted | src/com/leafdigital/kanji/SpansComparer.java:107-110 | Position.add keeps the set ordered and holds exactly the entries added |
| Spans.FirstMatch | src/com/leafdigital/kanji/SpansComparer.java:125-139 | match returns NO_MATCH or an unused stroke |
| Spans.FirstMatchCharacterised | src/com/leafdigital/kanji/SpansComparer.java:125-139 | match returns NO_MATCH iff every entry at or above the threshold is used, and otherwise returns the first unused one in list order |
| Spans.Match | src/com/leafdigital/kanji/SpansComparer.java:125-139 | the scan over a finished list computes FirstMatch |
| Spans.GetIndexBijective | src/com/leafdigital/kanji/SpansComparer.java:179-185 | getIndex maps four buckets in 0..4 into 0..624, and the four buckets can be read back from the index |
| Spans.CellBands | src/com/leafdigital/kanji/SpansComparer.java:179-185 | every index in 0..624 is the getIndex of its four buckets |
| Spans.SpanAtScore | src/com/leafdigital/kanji/SpansComparer.java:215-244 | a posted score lies in [4, 10], and is 10 exactly for the forward stroke at its own cell |
| Spans.AddSpanEndColumn | src/com/leafdigital/kanji/SpansComparer.java:202-249 | the innermost loop posts SpanAt's entry to every cell with the given start buckets and end column, and changes no other cell |
| Spans.AddSpanEnd | src/com/leafdigital/kanji/SpansComparer.java:196-250 | the end-row loop posts SpanAt's entry to every cell with the given start buckets, and changes no other cell |
| Spans.AddSpanStart | src/com/leafdigital/kanji/SpansComparer.java:190-251 | the start-row loop posts SpanAt's entry to every cell with the given start column, and changes no other cell |
| Spans.AddSpan | src/com/leafdigital/kanji/SpansComparer.java:187-252 | addSpan posts to each cell at most the entry SpanAt describes, and leaves the others unchanged |
| Spans.PostingsSorted | src/com/leafdigital/kanji/SpansComparer.java:156-176 | every finished list is strictly ordered and holds exactly the posted entries |
| Spans.PostedSetCharacterised | src/com/leafdigital/kanji/SpansComparer.java:156-171 | an entry is posted iff one of the strokes posts it, and it names a stroke of the record |
| Spans.PostAll | src/com/leafdigital/kanji/SpansComparer.java:156-170 | posting both orientations of every stroke fills each cell with its postings |
| Spans.FinishAll | src/com/leafdigital/kanji/SpansComparer.java:172-176 | finish freezes every cell into its ordered list |
| Spans.OtherIndexes | src/com/leafdigital/kanji/SpansComparer.java:271-283 | one cell index in 0..624 per candidate stroke |
| Spans.CellsOf | src/com/leafdigital/kanji/SpansComparer.java:271-283 | the index loop computes OtherIndexes |
| Spans.SpansComparer.constructor | src/com/leafdigital/kanji/SpansComparer.java:147-177 | init leaves every cell holding its finished, ordered postings |
| Spans.SpansComparer.GetMatchScore | src/com/leafdigital/kanji/SpansComparer.java:261-321 | the nested binding loops compute SpansScore; IllegalState when the other record has no strokes |
| Spans.BindAtScore | src/com/leafdigital/kanji/SpansComparer.java:292-315 | one threshold's pass over the candidate strokes is InnerPass |
| Spans.BindConsistent | src/com/leafdigital/kanji/SpansComparer.java:300-309 | binding an unused pair at threshold r keeps the counts and the score bound consistent |
| Spans.InnerPassConsistent | src/com/leafdigital/kanji/SpansComparer.java:292-315 | one threshold's pass keeps that consistency |
| Spans.OuterPassConsistent | src/com/leafdigital/kanji/SpansComparer.java:290-316 | the passes from 10 down to 4 keep that consistency |
| Spans.BindingBounds | src/com/leafdigital/kanji/SpansComparer.java:290-316 | each side is bound at most once, so there are at most min(count, otherCount) bindings, and the total is at most 10 per binding |
| Spans.SpansScoreInRange | src/com/leafdigital/kanji/SpansComparer.java:261-321 | the score is NaN iff either side has no strokes, and otherwise lies in [0, 100] |
| Fuzzy.PointCoordinateExact | src/com/leafdigital/kanji/FuzzyComparer.java:225-229 | the truncation of (v+0.5)·255 is exactly 255·v + 127 |
| Fuzzy.SimilarMeansEqual | src/com/leafdigital/kanji/FuzzyComparer.java:236-269 | on point coordinates, "within ±13" means the same stroke coordinate, and less or more means less or more |
| Fuzzy.PairsOf | src/com/leafdigital/kanji/FuzzyComparer.java:372-388 | one pair per stroke, each pair knowing its own index |
| Fuzzy.ConvertKanjiInfo | src/com/leafdigital/kanji/FuzzyComparer.java:372-388 | the conversion loop computes PairsOf |
| Fuzzy.CountsTotal | src/com/leafdigital/kanji/FuzzyComparer.java:236-269 | after count, less + more + similar is points−1 on each axis |
| Fuzzy.Count | src/com/leafdigital/kanji/FuzzyComparer.java:236-269 | the counting loop computes CountsOf |
| Fuzzy.GetPairPoints | src/com/leafdigital/kanji/FuzzyComparer.java:390-404 | the loop lists pair 0's a and b, then pair 1's, and so on |
| Fuzzy.PairPointsShape | src/com/leafdigital/kanji/FuzzyComparer.java:390-404 | point k belongs to pair k/2, and its counts are balanced |
| Fuzzy.PointsOfStrokes | src/com/leafdigital/kanji/FuzzyComparer.java:372-404 | points 2i and 2i+1 lie at stroke i's start and end coordinates, and both belong to pair i |
| Fuzzy.ScoreAndIndexOrder | src/com/leafdigital/kanji/FuzzyComparer.java:189-203 | compareTo orders by descending score, then ascending index; it is zero only on equal entries, antisymmetric and transitive |
| Fuzzy.DifferenceBound | src/com/leafdigital/kanji/FuzzyComparer.java:298-301 | the L1 distance of six balanced counts is between 0 and 6·max(points) |
| Fuzzy.PointScoresInRange | src/com/leafdigital/kanji/FuzzyComparer.java:293-307 | every point score lies in [6, maxScore] and is therefore positive |
| Fuzzy.BestIndex | src/com/leafdigital/kanji/FuzzyComparer.java:311-318 | the insertion slot lies after the slots scoring at least this score and at the first slot scoring less |
| Fuzzy.FindBestIndex | src/com/leafdigital/kanji/FuzzyComparer.java:311-318 | the slot search loop computes BestIndex |
| Fuzzy.InsertBestAt | src/com/leafdigital/kanji/FuzzyComparer.java:319-323 | inserting shifts the later slots down by one and drops the last |
| Fuzzy.Shift | src/com/leafdigital/kanji/FuzzyComparer.java:319-323 | the in-place shift computes InsertBest |
| Fuzzy.TopFiveSlots | src/com/leafdigital/kanji/FuzzyComparer.java:309-328 | every slot holds a point already seen, or the dummy |
| Fuzzy.TopFiveDescending | src/com/leafdigital/kanji/FuzzyComparer.java:309-328 | the best five slots are in non-increasing score order |
| Fuzzy.TopFiveFilled | src/com/leafdigital/kanji/FuzzyComparer.java:309-328 | with positive scores, the first min(n, 5) slots are distinct seen points, and all of the first n points are present while n ≤ 5 |
| Fuzzy.SortedIsRanking | src/com/leafdigital/kanji/FuzzyComparer.java:331-344 | the best slots followed by the unused points list 0..n−1 once each |
| Fuzzy.RankingComplete | src/com/leafdigital/kanji/FuzzyComparer.java:286-344 | for positive scores, the first n entries of sortedScore are a permutation of 0..n−1 |
| Fuzzy.MaxScoreOfBounds | src/com/leafdigital/kanji/FuzzyComparer.java:64-87 | the running maxima of Pair.score are the largest point score, or -1 when no score is larger |
| Fuzzy.Rank | src/com/leafdigital/kanji/FuzzyComparer.java:309-328 | one iteration of the top-five loop computes TopFiveStep |
| Fuzzy.RankScores | src/com/leafdigital/kanji/FuzzyComparer.java:288-329 | scoring a point fills the score array and the top five slots |
| Fuzzy.SortByBest | src/com/leafdigital/kanji/FuzzyComparer.java:331-344 | sortedScore is the best slots followed by the unused points in order |
| Fuzzy.ScorePoint | src/com/leafdigital/kanji/FuzzyComparer.java:286-354 | Point.score yields the point scores PointScores describes and their ranking |
| Fuzzy.PairEntryByIndex | src/com/leafdigital/kanji/FuzzyComparer.java:88-113 | scores[a][b] is (s_a + s_b) × 0.9 across pairs, × 0.97 for a reversed pair, and × 1 otherwise |
| Fuzzy.PairEntryRange | src/com/leafdigital/kanji/FuzzyComparer.java:88-113 | a pair entry lies in (0, 2·maxScore] |
| Fuzzy.ScorePair | src/com/leafdigital/kanji/FuzzyComparer.java:64-117 | Pair.score fills the matrix with zero on the diagonal and pair entries elsewhere, and its two maxima are the largest a and b scores (or -1) |
| Fuzzy.ScoreRow | src/com/leafdigital/kanji/FuzzyComparer.java:88-113 | one row of the matrix loop |
| Fuzzy.PairStateGood | src/com/leafdigital/kanji/FuzzyComparer.java:64-117 | a scored pair satisfies the invariant the greedy loop relies on |
| Fuzzy.ScanRow | src/com/leafdigital/kanji/FuzzyComparer.java:148-175 | the inner scan computes ScanB |
| Fuzzy.ScoreAvailable | src/com/leafdigital/kanji/FuzzyComparer.java:119-180 | scoreAvailable computes BestAvailable, keeping the cached best when it is positive |
| Fuzzy.ScanBKeeps | src/com/leafdigital/kanji/FuzzyComparer.java:148-175 | the inner scan never lowers the best score found |
| Fuzzy.ScanBFinds | src/com/leafdigital/kanji/FuzzyComparer.java:148-175 | the inner scan reaches at least the score of any available partner it passes |
| Fuzzy.ScanAKeeps | src/com/leafdigital/kanji/FuzzyComparer.java:136-176 | the outer scan never lowers the best score found |
| Fuzzy.ScanAFinds | src/com/leafdigital/kanji/FuzzyComparer.java:136-176 | with two available points, the outer scan finds a positive score |
| Fuzzy.BestAvailableGood | src/com/leafdigital/kanji/FuzzyComparer.java:119-180 | scoreAvailable keeps the cache valid |
| Fuzzy.BestAvailableFinds | src/com/leafdigital/kanji/FuzzyComparer.java:119-180 | with two available points, scoreAvailable finds a positive score |
| Fuzzy.SelectPair | src/com/leafdigital/kanji/FuzzyComparer.java:442-462 | the search over remaining pairs computes SelectFrom |
| Fuzzy.SelectKeeps | src/com/leafdigital/kanji/FuzzyComparer.java:442-462 | the search keeps every cache valid and keeps a found pair |
| Fuzzy.SelectFinds | src/com/leafdigital/kanji/FuzzyComparer.java:442-466 | with a pair and two points remaining, some pair is chosen |
| Fuzzy.EatBestPair | src/com/leafdigital/kanji/FuzzyComparer.java:442-472 | one round removes one drawn pair and at most two points, and adds a score in (0, 2·maxScore] |
| Fuzzy.MatchPairs | src/com/leafdigital/kanji/FuzzyComparer.java:434-472 | the greedy loop runs min(pairs, points/2) rounds with a total in (0, 2·maxScore per round] |
| Fuzzy.RunBounds | src/com/leafdigital/kanji/FuzzyComparer.java:442-472 | from any state the loop reaches, the rest of the run matches min(pairs, points/2) pairs in all, each adding a score in (0, 2·maxScore] |
| Fuzzy.MatchingBounds | src/com/leafdigital/kanji/FuzzyComparer.java:434-472 | the whole greedy matching ends with min(pairs, points/2) matched and the total in (0, 2·maxScore·matched], or 0 when none matched |
| Fuzzy.Greedy | src/com/leafdigital/kanji/FuzzyComparer.java:434-472 | from the initial state, the loop computes Matching: min(pairs, points/2) rounds, total 0 when none matched and otherwise in (0, 2·maxScore per round] |
| Fuzzy.ApplyPenalty | src/com/leafdigital/kanji/FuzzyComparer.java:478-488 | the total is multiplied by 0.98 once per unit of stroke-count difference |
| Fuzzy.FinalScore | src/com/leafdigital/kanji/FuzzyComparer.java:475-491 | the end of getMatchScore computes FinalValue: NaN iff nothing matched, and otherwise total / (2·maxScore·matched) · 0.98^|diff| · 100, in (0, 100·0.98^\|diff\|] |
| Fuzzy.FinalValueRange | src/com/leafdigital/kanji/FuzzyComparer.java:474-491 | scaling a total in (0, 2·maxScore·matched] gives a value in (0, 100·0.98^\|diff\|], and NaN exactly when nothing matched |
| Fuzzy.MatchedValueRange | src/com/leafdigital/kanji/FuzzyComparer.java:474-491 | with min(drawn, other) pairs matched, the scaled score is NaN exactly when either kanji has no strokes |
| Fuzzy.ScoreAll | src/com/leafdigital/kanji/FuzzyComparer.java:419-431 | the two scoring loops give ScoredStates, one good state per drawn pair: positive point scores, complete rankings and pair entries in (0, 2·maxScore] |
| Fuzzy.ScoreEveryPoint | src/com/leafdigital/kanji/FuzzyComparer.java:421-425 | the first loop gives each drawn point its PointScores and their ranking |
| Fuzzy.ScoreEveryPair | src/com/leafdigital/kanji/FuzzyComparer.java:427-431 | the second loop gives each drawn pair the state Pair.score leaves from its own two points |
| Fuzzy.PairStateOfGood | src/com/leafdigital/kanji/FuzzyComparer.java:64-117 | the state of every drawn pair is good: positive point scores up to maxScore, complete rankings, pair entries in (0, 2·maxScore] and the true maxima |
| Fuzzy.ScoredStatesGood | src/com/leafdigital/kanji/FuzzyComparer.java:419-431 | all the drawn pairs' states are good against the candidate's points |
| Fuzzy.FuzzyOutcomeBounds | src/com/leafdigital/kanji/FuzzyComparer.java:411-472 | min(drawn strokes, candidate strokes) pairs are matched, each adding a score in (0, 2·maxScore] |
| Fuzzy.FuzzyScoreRange | src/com/leafdigital/kanji/FuzzyComparer.java:405-491 | the FUZZY score is NaN exactly when either kanji has no strokes, and otherwise in (0, 100·0.98^\|diff\|] |
| Fuzzy.FuzzyComparer.constructor | src/com/leafdigital/kanji/FuzzyComparer.java:361-370 | the comparer keeps the drawn pairs and their points |
| Fuzzy.FuzzyComparer.GetMatchScore | src/com/leafdigital/kanji/FuzzyComparer.java:411-492 | the score is FuzzyScore of the drawn pairs and the other strokes: NaN iff either side has no strokes, otherwise in (0, 100·0.98^\|diff\|]; IllegalState when the other record has no strokes |
| Matches.KanjiMatch.CompareTo | src/com/leafdigital/kanji/KanjiMatch.java:56-70 | a higher score sorts first and a lower score sorts later |
| Matches.CompareToZero | src/com/leafdigital/kanji/KanjiMatch.java:56-70 | compareTo is 0 iff neither score is greater and the kanji strings are equal |
| Matches.CompareToZeroFinite | src/com/leafdigital/kanji/KanjiMatch.java:56-70 | for numbers, compareTo is 0 iff the scores and the strings are equal |
| Matches.CompareToAntisymmetric | src/com/leafdigital/kanji/KanjiMatch.java:56-70 | compareTo(a, b) has the opposite sign of compareTo(b, a) |
| Matches.BeforeTransitive | src/com/leafdigital/kanji/KanjiMatch.java:56-70 | the order is transitive |
| Matches.BeforeTotal | src/com/leafdigital/kanji/KanjiMatch.java:56-70 | two matches differing in score or kanji are ordered one way or the other |
| Matches.CompareStringsZero | src/com/leafdigital/kanji/KanjiMatch.java:68 | String.compareTo is zero iff the strings are equal |
| Matches.CompareStringsAntisymmetric | src/com/leafdigital/kanji/KanjiMatch.java:68 | String.compareTo is antisymmetric |
| Matches.CompareStringsTransitive | src/com/leafdigital/kanji/KanjiMatch.java:68 | String.compareTo is transitive |
| KanjiLists.KanjiList.constructor | src/com/leafdigital/kanji/KanjiList.java:56-58 | a new list has no buckets |
| KanjiLists.KanjiList.Add | src/com/leafdigital/kanji/KanjiList.java:141-151 | add appends the record to the end of its stroke count's bucket, creating the bucket when absent, leaves the other buckets unchanged, and keeps every bucket holding records of its own stroke count |
| KanjiLists.KanjiList.GetKanji | src/com/leafdigital/kanji/KanjiList.java:157-165 | a bucket's records in insertion order, or nothing for an absent count |
| KanjiLists.KanjiList.CandidateList | src/com/leafdigital/kanji/KanjiList.java:182-235 | the records scanned are those of Candidates, all from the list |
| KanjiLists.KanjiList.GetTopMatches | src/com/leafdigital/kanji/KanjiList.java:175-277 | IllegalArgument for any algorithm other than STRICT or FUZZY*; otherwise progress (0, max) … (max, max), each candidate's score the one the drawn record's comparer gives it, and the kept prefix of the matches ordered by those scores; a failure is the getMatchScore error of the first candidate that fails, after progress (0, max) … (k, max) for the k candidates before it; when every candidate scores, the search succeeds |
| KanjiLists.StrictCandidates | src/com/leafdigital/kanji/KanjiList.java:182-207 | STRICT scans only the bucket of the query's stroke count |
| KanjiLists.RangeIsOut | src/com/leafdigital/kanji/KanjiList.java:216-217 | the fuzzy range is the algorithm's out count |
| KanjiLists.FuzzyCountsScanned | src/com/leafdigital/kanji/KanjiList.java:212-235 | fuzzy scans n−r and n+r, skipping counts ≤ 0; only n when r = 0, never n when r > 0, and nothing when n ≤ 0 |
| KanjiLists.FuzzyList | src/com/leafdigital/kanji/KanjiList.java:212-235 | the bucket loop gathers the buckets of the scanned counts |
| KanjiLists.FuzzyGather | src/com/leafdigital/kanji/KanjiList.java:212-235 | bucket n−r first, then bucket n+r |
| KanjiLists.GatherMembers | src/com/leafdigital/kanji/KanjiList.java:219-234 | a record is gathered iff it is in the bucket of a scanned count |
| KanjiLists.ScoreAll | src/com/leafdigital/kanji/KanjiList.java:186-251 | on success the matches are collected in order, progress 0..max is reported and every score is the comparer's score of that candidate; a failure is the comparer's error on candidate k, where k scores came before it and progress 0..k was reported; with no comparer, the error is IllegalState on the first candidate; when every candidate scores, the loop succeeds |
| KanjiLists.ScoreLoop | src/com/leafdigital/kanji/KanjiList.java:193-205 | the same loop stated on the candidates' shapes: a scored prefix of the shapes, then either all of them or the comparer's failure on the next one |
| KanjiLists.ScoredPrefixBy | src/com/leafdigital/kanji/KanjiList.java:242-246 | each score of a scored prefix is the comparer's score of that candidate record |
| KanjiLists.ScoreOne | src/com/leafdigital/kanji/KanjiList.java:242-244 | one getMatchScore call changes no record's strokes or features and keeps the comparer that gave the earlier scores; its result, success or failure, is that comparer's result on the candidate; with no comparer it is IllegalState, only on the first call, and only when the drawn record has no strokes |
| KanjiLists.AddScore | src/com/leafdigital/kanji/KanjiList.java:193-204 | a match joins the set (for STRICT only when its score is above 0) and the progress after i + 1 records is reported |
| KanjiLists.ScoredPrefixAt | src/com/leafdigital/kanji/KanjiList.java:242-246 | each score gathered so far is the comparer's score of its own candidate |
| KanjiLists.InsertSorted | src/com/leafdigital/kanji/KanjiList.java:196-200 | TreeSet.add keeps the set strictly ordered, adds the match, and drops it only when an equal match is present |
| KanjiLists.CollectSorted | src/com/leafdigital/kanji/KanjiList.java:179-251 | the collected matches are ordered, and each comes from a candidate (with a positive score for STRICT) |
| KanjiLists.SortedDistinct | src/com/leafdigital/kanji/KanjiList.java:179 | no two results share both score and kanji |
| KanjiLists.KeptFromBar | src/com/leafdigital/kanji/KanjiList.java:257-276 | kept matches are all at or above 0.75 × best, and the first dropped one is below |
| KanjiLists.KeptPrefix | src/com/leafdigital/kanji/KanjiList.java:257-276 | the result is the longest prefix at or above 0.75 × the first score, and the first match is always kept |
| KanjiLists.Threshold | src/com/leafdigital/kanji/KanjiList.java:257-276 | the copying loop with its early break keeps exactly that prefix |
| KanjiLists.TopMatchesOrdered | src/com/leafdigital/kanji/KanjiList.java:175-277 | the results are ordered, distinct, and each is a scanned candidate with its own score |
| KanjiLists.CandidateCounts | src/com/leafdigital/kanji/KanjiList.java:182-235 | with every record filed by add, STRICT scans records of exactly the drawn count, and FUZZY* records of n ± range strokes, at least one |
| KanjiLists.ScoresFinite | src/com/leafdigital/kanji/KanjiList.java:242-246 | STRICT scores are always finite, and FUZZY scores of non-empty records are finite when the drawn record has strokes |
| KanjiLists.SearchScoresFinite | src/com/leafdigital/kanji/KanjiList.java:175-252 | with every record filed by add, a STRICT or FUZZY* search gives only finite scores, so its result is ordered |

## Left out

- XML and SAX loading and saving are not part of this model: the `KanjiList(InputStream)`
  constructor and its handler, `KanjiList.save`, `KanjiInfo.write` and `KanjiVgLoader.java`.
  They are I/O plumbing.
- `InputStroke.normalise` and the `Stroke(float…)` conversion are float numerics. They are
  not part of this model. `KanjiRecord.KanjiInfo.Finish` takes the normalisation as a
  function parameter that returns in-range strokes.
- `InputStrokes.ReadNumberSpec`: `Float.parseFloat` is a library call. The model takes
  it as a parameter from the token text to an optional real.
- Java `float` rounding is not modelled; every score and weight is an exact real. Only 0/0
  is modelled, as NaN.
- `synchronized` methods and threads are left out, as is the reflection that
  `MatchAlgorithm.newComparer` uses (`KanjiRecord.KanjiInfo.NewComparer` dispatches on
  the algorithm).
- The `Progress` callback is a listener call. `KanjiLists.KanjiList.GetTopMatches`
  returns the sequence of calls instead of making them.
- `Fuzzy.FuzzyComparer.GetMatchScore` requires that the candidate has at most two strokes
  more than the drawn record. The code sizes its arrays for that many and would index out
  of bounds beyond it. `KanjiRecord.ScoreWith` returns IndexOutOfBounds in that case.
- `Fuzzy.FuzzyComparer.GetMatchScore` allocates its scratch arrays (point scores, ranking
  slots, pair matrix, best-pair cache) on every call. The code allocates them once in
  `initDrawn` and rewrites them on each call. After a call that completes, no value
  survives into the next one. A call on a candidate with too many strokes is different:
  `Point.score` writes index, score and used into `preSortedScore[i]` (FuzzyComparer.java:304-306)
  before `score[i]` throws (FuzzyComparer.java:307). At i = 2·maxStrokes that slot is the
  dummy "best" marker. If the caller catches the exception and reuses the cached comparer,
  later rankings start from a dummy whose score is no longer 0 (FuzzyComparer.java:290, 314).
  The model returns IndexOutOfBounds from `KanjiRecord.ScoreWith` before scoring, so it
  does not capture that corrupted state.
- `Fuzzy.FuzzyComparer.GetMatchScore` does not state that the greedy binding is
  injective. `scoreAvailable` keeps a positive cached pair even after another pair has
  used its points, so the code does not guarantee injectivity either.
- `Matches.CompareStrings` (and so `Matches.KanjiMatch.CompareTo`) compares strings by
  Unicode scalar value. Java's `String.compareTo` (KanjiMatch.java:68) compares UTF-16 code
  units. The two orders differ when a supplementary character meets a character from
  U+E000 to U+FFFF. For example, U+20B9F comes after U+FA11 here, but before it in Java,
  because its first surrogate is 0xD842. Dafny's `char` has no surrogates to compare.
- `KanjiRecord.ParseInt16` accepts only the ASCII digits and the letters a–f and A–F
  (`AnyHexValue`). `Integer.parseInt(·, 16)` also accepts other Unicode decimal digits and
  the fullwidth letters, which the model rejects as IllegalArgument. Files written by
  `getFullSummary` never contain them.
- `KanjiLists.ScoresFinite` and `KanjiLists.SearchScoresFinite` assume a fuzzy comparer built
  from at least one drawn stroke. `KanjiInfo` caches its comparers. After `finish` runs
  again, a cached comparer can describe the strokes from an earlier `finish`, so the drawn
  record's current stroke count does not decide this.
- `KanjiRecord.KanjiInfo.GetMatchScore` and `KanjiRecord.ScoreWith` require the other
  record's strokes and direction arrays to belong together (`Paired`). That holds for
  every record built by the constructors, `Load` and `Finish`.
- `Spans.SpansComparer` keeps its cells as a value (`cells`) beside the array. This relies
  on the code never writing the array after `init`, which it does not.
- `Dots.CompareArrays` requires that the first array is no longer than the second.
  `compareArrays` reads the second array at every index of the first.
- `Strict.StrictScore` of two records with no strokes divides 0 by a negative maximum, as
  the code does. The range lemma holds because the sum is then 0.
- `StatsReporter.java`, the Android and example code, `package-info.java`, `Stroke.toString`
  and the data-file tests are not part of this model.
- The raw `InputStroke(float, float, float, float)` constructor is the `InputStroke`
  datatype constructor, whose fields are the four values.

## Findings

| source | as written | input that shows it | evidently intended | confidence | as-written member | corrected member |
|---|---|---|---|---|---|---|
| src/com/leafdigital/kanji/InputStroke.java:150-207 | After z or Z, a following number makes `readLetter` return NUMBER without consuming it. The loop re-runs z, which reads no numbers, so the same state repeats forever. | "M0,0z1" | a number after closepath is rejected like any other number without a command that takes arguments | not executed | InputStrokes.CloseThenNumberLoopsForever | InputStrokes.CloseThenNumberRejected |
