// Model of KanjiInfo.java: the record of one character's strokes, its two
// text summaries and their parsers, the loading/finished lifecycle and the
// per-algorithm comparer cache.

module KanjiRecord {
  import opened Wrappers
  import opened StrokeGeometry
  import InputStrokes
  import Strict
  import Spans
  import Fuzzy

  // ---------------------------------------------------------------------------
  // Two-digit hex

  /**
   * Java's | on ints, in two's complement: bit by bit from the lowest,
   * where -1 has every bit set. floor(a / 2) is Dafny's a / 2.
   */
  function BitOr(a: int, b: int): int
    decreases Abs(a) + Abs(b)
  {
    if a == 0 then b
    else if b == 0 then a
    else if a == -1 || b == -1 then -1
    else 2 * BitOr(a / 2, b / 2) + (if a % 2 == 1 || b % 2 == 1 then 1 else 0)
  }

  /** What getTwoDigitHexInt takes a character to: above '9' it is read as a lowercase letter. */
  function Nibble(c: char): int {
    if c > '9' then c as int - 'a' as int + 10 else c as int - '0' as int
  }

  /**
   * getTwoDigitHexInt: high << 4 | low, with no check that the two
   * characters are hex digits. A nibble lies in -48 .. 65448, so the shift
   * by 4 never leaves the 32-bit range and is a multiplication by 16.
   */
  function TwoDigitHexInt(input: string, pos: nat): int
    requires pos + 1 < |input|
  {
    BitOr(Nibble(input[pos]) * 16, Nibble(input[pos + 1]))
  }

  /** Or-ing in a value below 2^k into a multiple of 2^k adds it. */
  lemma {:induction false} BitOrLowBits(high: nat, low: nat, k: nat, scale: nat)
    requires scale == Power2(k) && low < scale
    ensures BitOr(high * scale, low) == high * scale + low
  {
    if high == 0 || low == 0 {
    } else {
      assert k > 0;
      var half := Power2(k - 1);
      assert scale == 2 * half;
      assert (high * scale) / 2 == high * half && (high * scale) % 2 == 0;
      BitOrLowBits(high, low / 2, k - 1, half);
    }
  }

  function Power2(k: nat): (p: nat)
    ensures p >= 1
  {
    if k == 0 then 1 else 2 * Power2(k - 1)
  }

  /** The lowercase hex digit of a value 0..15, as Integer.toHexString writes it. */
  function HexDigit(v: nat): char
    requires v < 16
  {
    if v < 10 then ('0' as int + v) as char else ('a' as int + v - 10) as char
  }

  predicate IsLowerHexDigit(c: char) {
    '0' <= c <= '9' || 'a' <= c <= 'f'
  }

  /** The digit a lowercase hex character stands for. */
  function LowerHexValue(c: char): (v: nat)
    requires IsLowerHexDigit(c)
    ensures v < 16 && HexDigit(v) == c
  {
    if c <= '9' then c as int - '0' as int else c as int - 'a' as int + 10
  }

  lemma HexDigitValue(v: nat)
    requires v < 16
    ensures IsLowerHexDigit(HexDigit(v)) && LowerHexValue(HexDigit(v)) == v
  {
  }

  /** On two lowercase hex digits getTwoDigitHexInt is the number they spell. */
  lemma TwoDigitHexIntOfDigits(input: string, pos: nat)
    requires pos + 1 < |input| && IsLowerHexDigit(input[pos]) && IsLowerHexDigit(input[pos + 1])
    ensures TwoDigitHexInt(input, pos) == 16 * LowerHexValue(input[pos]) + LowerHexValue(input[pos + 1])
  {
    var high, low := LowerHexValue(input[pos]), LowerHexValue(input[pos + 1]);
    assert Nibble(input[pos]) == high && Nibble(input[pos + 1]) == low;
    assert Power2(4) == 16;
    BitOrLowBits(high, low, 4, 16);
  }

  /** Integer.toHexString on a non-negative value: lowercase digits, no leading zeros. */
  function ToHexString(v: nat): (r: string)
    decreases v
  {
    if v < 16 then [HexDigit(v)] else ToHexString(v / 16) + [HexDigit(v % 16)]
  }

  /** getTwoDigitPosition: the hex form padded to two digits. */
  function TwoDigitPosition(v: Coord): (r: string)
    ensures r == [HexDigit(v / 16), HexDigit(v % 16)]
  {
    var result := ToHexString(v);
    assert v < 16 ==> result == [HexDigit(v)] && v / 16 == 0 && v % 16 == v;
    assert v >= 16 ==> v / 16 < 16 && ToHexString(v / 16) == [HexDigit(v / 16)];
    if |result| == 1 then "0" + result else result
  }

  /** The value of a hex digit in either case; Integer.parseInt's other Unicode digits are not modelled. */
  function AnyHexValue(c: char): Option<int> {
    if '0' <= c <= '9' then Some(c as int - '0' as int)
    else if 'a' <= c <= 'f' then Some(c as int - 'a' as int + 10)
    else if 'A' <= c <= 'F' then Some(c as int - 'A' as int + 10)
    else None
  }

  /** Integer.parseInt(s, 16) on a two-character string: an optional sign and one digit, or two digits. */
  function ParseInt16(a: char, b: char): Option<int> {
    if AnyHexValue(b).None? then None
    else if a == '-' then Some(0 - AnyHexValue(b).value)
    else if a == '+' then Some(AnyHexValue(b).value)
    else if AnyHexValue(a).None? then None
    else Some(16 * AnyHexValue(a).value + AnyHexValue(b).value)
  }

  lemma ParseInt16OfDigits(a: char, b: char)
    requires IsLowerHexDigit(a) && IsLowerHexDigit(b)
    ensures ParseInt16(a, b) == Some(16 * LowerHexValue(a) + LowerHexValue(b))
  {
  }

  // ---------------------------------------------------------------------------
  // The full summary: xx,yy-xx,yy per stroke, joined by ':'

  /** One stroke's 11 characters. */
  function StrokeSummary(s: Stroke): (r: string)
    ensures |r| == 11
  {
    TwoDigitPosition(s.startX) + "," + TwoDigitPosition(s.startY) + "-"
    + TwoDigitPosition(s.endX) + "," + TwoDigitPosition(s.endY)
  }

  /** Each stroke's 11 characters, in order. */
  function StrokePieces(strokes: seq<Stroke>): seq<string> {
    seq(|strokes|, i requires 0 <= i < |strokes| => StrokeSummary(strokes[i]))
  }

  /** getFullSummary after k pieces: a ':' before each piece once the text is not empty. */
  function JoinUpTo(pieces: seq<string>, k: nat): string
    requires k <= |pieces|
  {
    if k == 0 then ""
    else
      var prev := JoinUpTo(pieces, k - 1);
      prev + (if |prev| > 0 then ":" else "") + pieces[k - 1]
  }

  function FullSummary(strokes: seq<Stroke>): string {
    JoinUpTo(StrokePieces(strokes), |strokes|)
  }

  /** Character j of a stroke's summary: the high and low digit of each coordinate, then ',' or '-'. */
  function StrokeChar(s: Stroke, j: nat): char
    requires j < 11
  {
    if j == 2 || j == 8 then ','
    else if j == 5 then '-'
    else
      var v := if j < 2 then s.startX else if j < 5 then s.startY else if j < 8 then s.endX else s.endY;
      if j % 3 == 0 then HexDigit(v / 16) else HexDigit(v % 16)
  }

  lemma StrokeSummaryChars(s: Stroke)
    ensures forall j :: 0 <= j < 11 ==> StrokeSummary(s)[j] == StrokeChar(s, j)
  {
  }

  /** A slice inside the first part of a concatenation. */
  lemma SliceInFront(a: string, b: string, x: nat, y: nat)
    requires x <= y <= |a|
    ensures (a + b)[x..y] == a[x..y]
  {
    assert forall t :: 0 <= t < y - x ==> (a + b)[x..y][t] == a[x..y][t];
  }

  /** The second part of a concatenation, as a slice. */
  lemma SliceAtBack(a: string, b: string)
    ensures (a + b)[|a|..|a| + |b|] == b
  {
    assert forall t :: 0 <= t < |b| ==> (a + b)[|a|..|a| + |b|][t] == b[t];
  }

  /** Every piece has the 11 characters of one stroke. */
  predicate ElevenEach(pieces: seq<string>) {
    forall j :: 0 <= j < |pieces| ==> |pieces[j]| == 11
  }

  /** The text after k pieces of 11 has 12k - 1 characters, piece i at offset 12i. */
  lemma {:induction false} JoinLayout(pieces: seq<string>, k: nat)
    requires k <= |pieces| && ElevenEach(pieces)
    ensures |JoinUpTo(pieces, k)| == if k == 0 then 0 else 12 * k - 1
    ensures forall i :: 0 <= i < k ==> JoinUpTo(pieces, k)[12 * i..12 * i + 11] == pieces[i]
  {
    if k > 0 {
      JoinLayout(pieces, k - 1);
      forall i | 0 <= i < k
        ensures |JoinUpTo(pieces, k)| == 12 * k - 1
        ensures JoinUpTo(pieces, k)[12 * i..12 * i + 11] == pieces[i]
      {
        JoinPieceAt(pieces, k, i);
      }
    }
  }

  /** The text before piece k - 1: the text so far and, unless it is empty, a ':'. */
  function JoinFront(pieces: seq<string>, k: nat): string
    requires 1 <= k <= |pieces|
  {
    var prev := JoinUpTo(pieces, k - 1);
    prev + (if |prev| > 0 then ":" else "")
  }

  /** Piece i survives appending piece k - 1, which lands at 12(k - 1). */
  lemma JoinPieceAt(pieces: seq<string>, k: nat, i: nat)
    requires i < k <= |pieces| && ElevenEach(pieces)
    requires |JoinUpTo(pieces, k - 1)| == if k == 1 then 0 else 12 * k - 13
    requires i < k - 1 ==> JoinUpTo(pieces, k - 1)[12 * i..12 * i + 11] == pieces[i]
    ensures |JoinUpTo(pieces, k)| == 12 * k - 1
    ensures JoinUpTo(pieces, k)[12 * i..12 * i + 11] == pieces[i]
  {
    var prev, front, piece := JoinUpTo(pieces, k - 1), JoinFront(pieces, k), pieces[k - 1];
    assert JoinUpTo(pieces, k) == front + piece;
    assert |front| == 12 * (k - 1) && |piece| == 11;
    if i < k - 1 {
      SliceInFront(prev, if |prev| > 0 then ":" else "", 12 * i, 12 * i + 11);
      SliceInFront(front, piece, 12 * i, 12 * i + 11);
    } else {
      SliceAtBack(front, piece);
    }
  }

  /** The summary of k strokes: stroke i's eleven characters at offset 12i, 12k - 1 in all. */
  lemma SummaryLayout(strokes: seq<Stroke>)
    ensures |FullSummary(strokes)| == if |strokes| == 0 then 0 else 12 * |strokes| - 1
    ensures forall i :: 0 <= i < |strokes| ==> FullSummary(strokes)[12 * i..12 * i + 11] == StrokeSummary(strokes[i])
  {
    var pieces := StrokePieces(strokes);
    assert ElevenEach(pieces);
    JoinLayout(pieces, |strokes|);
    forall i | 0 <= i < |strokes|
      ensures FullSummary(strokes)[12 * i..12 * i + 11] == StrokeSummary(strokes[i])
    {
      assert pieces[i] == StrokeSummary(strokes[i]);
    }
  }

  /** The length getFullSummary promises: 12 characters per stroke, less one. */
  lemma SummaryLength(strokes: seq<Stroke>)
    requires |strokes| >= 1
    ensures |FullSummary(strokes)| == 12 * |strokes| - 1
  {
    SummaryLayout(strokes);
  }

  /** Which hex reader a parser uses: getTwoDigitHexInt, or Integer.parseInt. */
  datatype HexReader = TwoDigit | ParseInt

  function ReadHex(reader: HexReader, s: string, pos: nat): Option<int>
    requires pos + 1 < |s|
  {
    match reader
    case TwoDigit => Some(TwoDigitHexInt(s, pos))
    case ParseInt => ParseInt16(s[pos], s[pos + 1])
  }

  /** The stroke whose summary starts at offset: four hex pairs 3 apart, then the range check. */
  function StrokeAt(reader: HexReader, full: string, offset: nat): (r: Result<Stroke>)
    requires offset + 11 <= |full|
    ensures r.Failure? ==> r.error == IllegalArgument
  {
    var sx, sy := ReadHex(reader, full, offset), ReadHex(reader, full, offset + 3);
    var ex, ey := ReadHex(reader, full, offset + 6), ReadHex(reader, full, offset + 9);
    if sx.None? || sy.None? || ex.None? || ey.None? then Failure(IllegalArgument)
    else NewStroke(sx.value, sy.value, ex.value, ey.value)
  }

  /** Every one of the first count strokes of the text reads without error. */
  predicate AllStrokesRead(reader: HexReader, full: string, count: nat)
    requires 12 * count <= |full| + 1
  {
    forall i :: 0 <= i < count ==> StrokeAt(reader, full, 12 * i).Success?
  }

  /** The strokes of a summary, each at offset 12i, or IllegalArgument if any fails. */
  function ReadAll(reader: HexReader, full: string, count: nat): (r: Result<seq<Stroke>>)
    requires 12 * count <= |full| + 1
    ensures r.Success? ==> |r.value| == count
    ensures r.Failure? ==> r.error == IllegalArgument
  {
    if !AllStrokesRead(reader, full, count) then Failure(IllegalArgument)
    else Success(seq(count, i requires 0 <= i < count && AllStrokesRead(reader, full, count) =>
                              StrokeAt(reader, full, 12 * i).value))
  }

  /** The stroke count a summary of this length has, as the constructors compute it. */
  function SummaryCount(full: string): nat {
    (|full| + 1) / 12
  }

  /**
   * The strokes of KanjiInfo(kanji, full): IllegalArgument unless the
   * length is 12 × count - 1 (so never for the empty string), or when a
   * stroke's values are out of range. Separators are not checked.
   */
  function ParseFull(reader: HexReader, full: string): (r: Result<seq<Stroke>>)
    ensures r.Failure? ==> r.error == IllegalArgument
    ensures SummaryCount(full) * 12 - 1 != |full| ==> r.Failure?
    ensures r.Success? ==> |r.value| == SummaryCount(full) >= 1
  {
    var count := SummaryCount(full);
    if count * 12 - 1 != |full| then Failure(IllegalArgument)
    else ReadAll(reader, full, count)
  }

  /** Either reader reads back the two digits getTwoDigitPosition wrote. */
  lemma ReadHexDigits(reader: HexReader, full: string, pos: nat, v: Coord)
    requires pos + 1 < |full| && full[pos] == HexDigit(v / 16) && full[pos + 1] == HexDigit(v % 16)
    ensures ReadHex(reader, full, pos) == Some(v)
  {
    HexDigitValue(v / 16);
    HexDigitValue(v % 16);
    if reader.TwoDigit? {
      TwoDigitHexIntOfDigits(full, pos);
    } else {
      ParseInt16OfDigits(full[pos], full[pos + 1]);
    }
  }

  /** The stroke whose eight digits sit at offset is read back, with either reader. */
  lemma StrokeAtDigits(reader: HexReader, full: string, offset: nat, s: Stroke)
    requires offset + 11 <= |full|
    requires full[offset] == HexDigit(s.startX / 16) && full[offset + 1] == HexDigit(s.startX % 16)
    requires full[offset + 3] == HexDigit(s.startY / 16) && full[offset + 4] == HexDigit(s.startY % 16)
    requires full[offset + 6] == HexDigit(s.endX / 16) && full[offset + 7] == HexDigit(s.endX % 16)
    requires full[offset + 9] == HexDigit(s.endY / 16) && full[offset + 10] == HexDigit(s.endY % 16)
    ensures StrokeAt(reader, full, offset) == Success(s)
  {
    ReadHexDigits(reader, full, offset, s.startX);
    ReadHexDigits(reader, full, offset + 3, s.startY);
    ReadHexDigits(reader, full, offset + 6, s.endX);
    ReadHexDigits(reader, full, offset + 9, s.endY);
  }

  /** A text laid out as the summary of these strokes: stroke i's eleven characters at offset 12i. */
  predicate LaidOut(strokes: seq<Stroke>, full: string) {
    |full| == 12 * |strokes| - 1 &&
    forall i :: 0 <= i < |strokes| ==> full[12 * i..12 * i + 11] == StrokeSummary(strokes[i])
  }

  lemma SummaryLaidOut(strokes: seq<Stroke>)
    requires |strokes| >= 1
    ensures LaidOut(strokes, FullSummary(strokes))
  {
    SummaryLayout(strokes);
  }

  /** Stroke i of a laid-out text reads back from offset 12i. */
  lemma LaidOutStroke(reader: HexReader, strokes: seq<Stroke>, full: string, i: nat)
    requires LaidOut(strokes, full) && i < |strokes|
    ensures 12 * i + 11 <= |full| && StrokeAt(reader, full, 12 * i) == Success(strokes[i])
  {
    var o, s := 12 * i, strokes[i];
    var piece := full[o..o + 11];
    assert piece == StrokeSummary(s);
    StrokeSummaryChars(s);
    assert full[o] == piece[0] && full[o + 1] == piece[1];
    assert full[o + 3] == piece[3] && full[o + 4] == piece[4];
    assert full[o + 6] == piece[6] && full[o + 7] == piece[7];
    assert full[o + 9] == piece[9] && full[o + 10] == piece[10];
    StrokeAtDigits(reader, full, o, s);
  }

  /** Either parser reads a laid-out text back into its strokes. */
  lemma LaidOutReadBack(reader: HexReader, strokes: seq<Stroke>, full: string)
    requires LaidOut(strokes, full) && |strokes| >= 1
    ensures ParseFull(reader, full) == Success(strokes)
  {
    assert SummaryCount(full) == |strokes|;
    forall i | 0 <= i < |strokes|
      ensures StrokeAt(reader, full, 12 * i) == Success(strokes[i])
    {
      LaidOutStroke(reader, strokes, full, i);
    }
    assert AllStrokesRead(reader, full, |strokes|);
    var r := ReadAll(reader, full, |strokes|);
    assert forall i :: 0 <= i < |strokes| ==> r.value[i] == strokes[i];
    assert r.value == strokes;
    assert SummaryCount(full) * 12 - 1 == |full|;
  }

  /** Parsing getFullSummary's text gives back the strokes, for either parser, when there is at least one. */
  lemma FullSummaryRoundTrip(reader: HexReader, strokes: seq<Stroke>)
    requires |strokes| >= 1
    ensures ParseFull(reader, FullSummary(strokes)) == Success(strokes)
  {
    SummaryLaidOut(strokes);
    LaidOutReadBack(reader, strokes, FullSummary(strokes));
  }

  /** The empty summary is rejected: a stroke-less record does not survive getFullSummary and back. */
  lemma EmptySummaryRejected(reader: HexReader)
    ensures FullSummary([]) == "" && ParseFull(reader, "") == Failure(IllegalArgument)
  {
  }

  /** The loop of getFullSummary. */
  method BuildFullSummary(strokes: seq<Stroke>) returns (out: string)
    ensures out == FullSummary(strokes)
  {
    out := "";
    for i := 0 to |strokes|
      invariant out == JoinUpTo(StrokePieces(strokes), i)
    {
      if |out| > 0 {
        out := out + ":";
      }
      var s := strokes[i];
      var piece := TwoDigitPosition(s.startX) + "," + TwoDigitPosition(s.startY) + "-"
                   + TwoDigitPosition(s.endX) + "," + TwoDigitPosition(s.endY);
      assert piece == StrokePieces(strokes)[i];
      out := out + piece;
    }
  }

  /** The length check of the summary constructors. */
  method ParseStrokes(reader: HexReader, full: string) returns (r: Result<seq<Stroke>>)
    ensures r == ParseFull(reader, full)
  {
    var count := (|full| + 1) / 12;
    if count * 12 - 1 != |full| {
      return Failure(IllegalArgument);
    }
    r := ReadStrokes(reader, full, count);
  }

  /** The stroke loop of the summary constructors, with its offset cursor. */
  method ReadStrokes(reader: HexReader, full: string, count: nat) returns (r: Result<seq<Stroke>>)
    requires count * 12 - 1 == |full|
    ensures r == ReadAll(reader, full, count)
  {
    var strokes := new Stroke[count](_ => Stroke(0, 0, 0, 0));
    var offset := 0;
    for i := 0 to count
      invariant offset == (if i == 0 then 0 else 12 * i - 1)
      invariant forall k :: 0 <= k < i ==> StrokeAt(reader, full, 12 * k) == Success(strokes[k])
    {
      if i != 0 {
        offset := offset + 1;
      }
      var s := StrokeAt(reader, full, offset);
      if s.Failure? {
        assert offset == 12 * i && !StrokeAt(reader, full, 12 * i).Success?;
        assert !AllStrokesRead(reader, full, count);
        assert ReadAll(reader, full, count) == Failure(IllegalArgument);
        return Failure(IllegalArgument);
      }
      strokes[i] := s.value;
      offset := offset + 11;
    }
    assert AllStrokesRead(reader, full, count);
    var expected := ReadAll(reader, full, count);
    assert forall k :: 0 <= k < count ==> strokes[..][k] == expected.value[k];
    assert strokes[..] == expected.value;
    r := Success(strokes[..]);
  }

  // ---------------------------------------------------------------------------
  // Directions: findDirections, getAllDirections and its parser

  /** The stroke and move directions and the start and end cells of each stroke. */
  function FeaturesOf(strokes: seq<Stroke>): (f: Features)
    ensures f.WellFormed() && f.Count() == |strokes|
  {
    Features(DirectionsOf(strokes), MovesOf(strokes), StartsOf(strokes), EndsOf(strokes))
  }

  function DirectionsOf(strokes: seq<Stroke>): (r: seq<Direction>)
    ensures |r| == |strokes|
  {
    seq(|strokes|, i requires 0 <= i < |strokes| => strokes[i].GetDirection())
  }

  /** One move per consecutive pair: from the end of stroke i to the start of stroke i + 1. */
  function MovesOf(strokes: seq<Stroke>): (r: seq<Direction>)
    ensures |r| == if |strokes| == 0 then 0 else |strokes| - 1
  {
    var n := |strokes|;
    seq(if n == 0 then 0 else n - 1, i requires 0 <= i < n - 1 => strokes[i + 1].GetMoveDirection(strokes[i]))
  }

  function StartsOf(strokes: seq<Stroke>): (r: seq<Location>)
    ensures |r| == |strokes|
  {
    seq(|strokes|, i requires 0 <= i < |strokes| => strokes[i].GetStartLocation())
  }

  function EndsOf(strokes: seq<Stroke>): (r: seq<Location>)
    ensures |r| == |strokes|
  {
    seq(|strokes|, i requires 0 <= i < |strokes| => strokes[i].GetEndLocation())
  }

  /** findDirections: one loop over the strokes, then one over consecutive pairs. */
  method FindDirections(strokes: seq<Stroke>) returns (f: Features)
    ensures f == FeaturesOf(strokes)
  {
    var directions, starts, ends := StrokeDirections(strokes);
    var moves := MoveDirections(strokes);
    f := Features(directions, moves, starts, ends);
  }

  /** The first loop of findDirections: each stroke's direction and its start and end cells. */
  method StrokeDirections(strokes: seq<Stroke>) returns (directions: seq<Direction>, starts: seq<Location>, ends: seq<Location>)
    ensures directions == DirectionsOf(strokes) && starts == StartsOf(strokes) && ends == EndsOf(strokes)
  {
    var n := |strokes|;
    var d := new Direction[n](_ => Direction.X);
    var a := new Location[n](_ => Location.MID);
    var b := new Location[n](_ => Location.MID);
    for i := 0 to n
      invariant d[..i] == DirectionsOf(strokes)[..i]
      invariant a[..i] == StartsOf(strokes)[..i]
      invariant b[..i] == EndsOf(strokes)[..i]
    {
      d[i] := strokes[i].GetDirection();
      a[i] := strokes[i].GetStartLocation();
      b[i] := strokes[i].GetEndLocation();
      assert d[..i + 1] == d[..i] + [d[i]];
      assert a[..i + 1] == a[..i] + [a[i]];
      assert b[..i + 1] == b[..i] + [b[i]];
    }
    assert d[..] == d[..n] && a[..] == a[..n] && b[..] == b[..n];
    directions, starts, ends := d[..], a[..], b[..];
  }

  /** The second loop of findDirections: the move from each stroke's end to the next one's start. */
  method MoveDirections(strokes: seq<Stroke>) returns (moves: seq<Direction>)
    ensures moves == MovesOf(strokes)
  {
    var n := |strokes|;
    var result := new Direction[if n == 0 then 0 else n - 1](_ => Direction.X);
    if n > 0 {
      for i := 1 to n
        invariant forall k :: 0 <= k < i - 1 ==> result[k] == strokes[k + 1].GetMoveDirection(strokes[k])
      {
        result[i - 1] := strokes[i].GetMoveDirection(strokes[i - 1]);
      }
    }
    moves := result[..];
    assert moves == MovesOf(strokes);
  }

  /** The one character of a location's display form. */
  function LocationGlyph(l: Location): (c: char)
    ensures [c] == l.ToString()
  {
    l.ToString()[0]
  }

  /** The one character of a direction's display form. */
  function DirectionGlyph(d: Direction): (c: char)
    ensures [c] == d.ToString()
  {
    d.ToString()[0]
  }

  /** getAllDirections after k strokes: ':' move ':' before every stroke but the first, then start, direction, end. */
  function DirectionsUpTo(f: Features, k: nat): string
    requires f.WellFormed() && k <= f.Count()
  {
    if k == 0 then ""
    else
      DirectionsUpTo(f, k - 1)
      + (if k > 1 then [':', DirectionGlyph(f.moves[k - 2]), ':'] else [])
      + [LocationGlyph(f.starts[k - 1]), DirectionGlyph(f.directions[k - 1]), LocationGlyph(f.ends[k - 1])]
  }

  function DirectionsText(f: Features): string
    requires f.WellFormed()
  {
    DirectionsUpTo(f, f.Count())
  }

  /** The text after k strokes has 6k - 3 characters: stroke i's start, direction and end at 6i .. 6i + 2, the move after it at 6i + 4. */
  lemma {:induction false} DirectionsLayout(f: Features, k: nat)
    requires f.WellFormed() && k <= f.Count()
    ensures |DirectionsUpTo(f, k)| == if k == 0 then 0 else 6 * k - 3
    ensures forall i :: 0 <= i < k ==>
              DirectionsUpTo(f, k)[6 * i] == LocationGlyph(f.starts[i])
              && DirectionsUpTo(f, k)[6 * i + 1] == DirectionGlyph(f.directions[i])
              && DirectionsUpTo(f, k)[6 * i + 2] == LocationGlyph(f.ends[i])
    ensures forall i :: 0 <= i < k - 1 ==> DirectionsUpTo(f, k)[6 * i + 4] == DirectionGlyph(f.moves[i])
  {
    if k > 0 {
      DirectionsLayout(f, k - 1);
      var prev := DirectionsUpTo(f, k - 1);
      var mid: string := if k > 1 then [':', DirectionGlyph(f.moves[k - 2]), ':'] else [];
      var tail := [LocationGlyph(f.starts[k - 1]), DirectionGlyph(f.directions[k - 1]), LocationGlyph(f.ends[k - 1])];
      var cur := DirectionsUpTo(f, k);
      var front := prev + mid;
      assert cur == front + tail;
      assert |front| == 6 * (k - 1);
      forall i | 0 <= i < k
        ensures cur[6 * i] == LocationGlyph(f.starts[i])
        ensures cur[6 * i + 1] == DirectionGlyph(f.directions[i])
        ensures cur[6 * i + 2] == LocationGlyph(f.ends[i])
      {
        if i < k - 1 {
          assert cur[6 * i] == prev[6 * i] && cur[6 * i + 1] == prev[6 * i + 1] && cur[6 * i + 2] == prev[6 * i + 2];
        } else {
          assert cur[6 * i] == tail[0] && cur[6 * i + 1] == tail[1] && cur[6 * i + 2] == tail[2];
        }
      }
      forall i | 0 <= i < k - 1
        ensures cur[6 * i + 4] == DirectionGlyph(f.moves[i])
      {
        if i < k - 2 {
          assert cur[6 * i + 4] == prev[6 * i + 4];
        } else {
          assert cur[6 * i + 4] == mid[1];
        }
      }
    }
  }

  /** getAllDirections is 6 characters per stroke less three: the length the three-argument constructor accepts. */
  lemma DirectionsLength(f: Features)
    requires f.WellFormed() && f.Count() >= 1
    ensures |DirectionsText(f)| == 6 * f.Count() - 3
  {
    DirectionsLayout(f, f.Count());
  }

  /** The cells read from offset 6i, 6i + 2 and the direction from 6i + 1 and (the move) 6i + 4. */
  function StartAt(text: string, i: nat): Result<Location>
    requires 6 * i < |text|
  {
    LocationFromString([text[6 * i]])
  }

  function DirectionAt(text: string, i: nat): Result<Direction>
    requires 6 * i + 1 < |text|
  {
    DirectionFromString([text[6 * i + 1]])
  }

  function EndAt(text: string, i: nat): Result<Location>
    requires 6 * i + 2 < |text|
  {
    LocationFromString([text[6 * i + 2]])
  }

  function MoveAt(text: string, i: nat): Result<Direction>
    requires 6 * i + 4 < |text|
  {
    DirectionFromString([text[6 * i + 4]])
  }

  /** Every glyph of a directions text of count strokes names a location or direction. */
  predicate AllGlyphsRead(text: string, count: nat)
    requires count >= 1 && |text| == 6 * count - 3
  {
    (forall i :: 0 <= i < count ==> StartAt(text, i).Success? && DirectionAt(text, i).Success? && EndAt(text, i).Success?)
    && forall i :: 0 <= i < count - 1 ==> MoveAt(text, i).Success?
  }

  /**
   * The arrays the three-argument constructor reads from its directions
   * text, or IllegalArgument when a glyph is not a location or direction.
   * The ':' separators are skipped, not checked.
   */
  function ParseDirections(text: string, count: nat): (r: Result<Features>)
    requires count >= 1 && |text| == 6 * count - 3
    ensures r.Failure? ==> r.error == IllegalArgument
    ensures r.Success? ==> r.value.WellFormed() && r.value.Count() == count
  {
    if !AllGlyphsRead(text, count) then Failure(IllegalArgument)
    else
      Success(Features(seq(count, i requires 0 <= i < count && AllGlyphsRead(text, count) => DirectionAt(text, i).value),
                       seq(count - 1, i requires 0 <= i < count - 1 && AllGlyphsRead(text, count) => MoveAt(text, i).value),
                       seq(count, i requires 0 <= i < count && AllGlyphsRead(text, count) => StartAt(text, i).value),
                       seq(count, i requires 0 <= i < count && AllGlyphsRead(text, count) => EndAt(text, i).value)))
  }

  /** Parsing getAllDirections' text gives back the four arrays. */
  lemma DirectionsRoundTrip(f: Features)
    requires f.WellFormed() && f.Count() >= 1
    ensures |DirectionsText(f)| == 6 * f.Count() - 3
    ensures ParseDirections(DirectionsText(f), f.Count()) == Success(f)
  {
    var n := f.Count();
    var text := DirectionsText(f);
    DirectionsLayout(f, n);
    forall i | 0 <= i < n
      ensures StartAt(text, i) == Success(f.starts[i])
      ensures DirectionAt(text, i) == Success(f.directions[i])
      ensures EndAt(text, i) == Success(f.ends[i])
    {
      LocationGlyphRead(text, 6 * i, f.starts[i]);
      DirectionGlyphRead(text, 6 * i + 1, f.directions[i]);
      LocationGlyphRead(text, 6 * i + 2, f.ends[i]);
    }
    forall i | 0 <= i < n - 1
      ensures MoveAt(text, i) == Success(f.moves[i])
    {
      DirectionGlyphRead(text, 6 * i + 4, f.moves[i]);
    }
    ParseDirectionsOf(f, text);
  }

  /** A text whose every glyph reads back as the matching entry of f parses to f. */
  lemma ParseDirectionsOf(f: Features, text: string)
    requires f.WellFormed() && f.Count() >= 1 && |text| == 6 * f.Count() - 3
    requires forall i :: 0 <= i < f.Count() ==> StartAt(text, i) == Success(f.starts[i])
    requires forall i :: 0 <= i < f.Count() ==> DirectionAt(text, i) == Success(f.directions[i])
    requires forall i :: 0 <= i < f.Count() ==> EndAt(text, i) == Success(f.ends[i])
    requires forall i :: 0 <= i < f.Count() - 1 ==> MoveAt(text, i) == Success(f.moves[i])
    ensures ParseDirections(text, f.Count()) == Success(f)
  {
    var n := f.Count();
    assert AllGlyphsRead(text, n);
    var r := ParseDirections(text, n).value;
    assert r.directions == f.directions;
    assert r.moves == f.moves;
    assert r.starts == f.starts;
    assert r.ends == f.ends;
  }

  /** A text character equal to a location's glyph reads back as that location. */
  lemma LocationGlyphRead(text: string, o: nat, l: Location)
    requires o < |text| && text[o] == LocationGlyph(l)
    ensures LocationFromString([text[o]]) == Success(l)
  {
    LocationRoundTrip(l);
  }

  /** A text character equal to a direction's glyph reads back as that direction. */
  lemma DirectionGlyphRead(text: string, o: nat, d: Direction)
    requires o < |text| && text[o] == DirectionGlyph(d)
    ensures DirectionFromString([text[o]]) == Success(d)
  {
    DirectionRoundTrip(d);
  }

  // ---------------------------------------------------------------------------
  // The two summary constructors, on values

  /** The strokes and the four direction arrays of a loaded record. */
  datatype Loaded = Loaded(strokes: seq<Stroke>, features: Features)

  /** KanjiInfo(kanji, full): the strokes read with getTwoDigitHexInt, then findDirections. */
  function FromSummary(full: string): (r: Result<Loaded>)
    ensures r.Failure? ==> r.error == IllegalArgument
    ensures r.Success? ==> |r.value.strokes| >= 1 && r.value.features == FeaturesOf(r.value.strokes)
  {
    var s := ParseFull(TwoDigit, full);
    if s.Failure? then Failure(IllegalArgument) else Success(Loaded(s.value, FeaturesOf(s.value)))
  }

  /**
   * KanjiInfo(kanji, directions, full): IllegalArgument unless there is at
   * least one stroke and both texts have that stroke count's length, or
   * when a glyph or a number does not read; the arrays come from the
   * directions text and the strokes from the summary, read with parseInt.
   */
  function FromTexts(directions: string, full: string): (r: Result<Loaded>)
    ensures r.Failure? ==> r.error == IllegalArgument
    ensures r.Success? ==> var n := |r.value.strokes|;
      n >= 1 && |directions| == 6 * n - 3 && |full| == 12 * n - 1 && r.value.features.WellFormed() && r.value.features.Count() == n
  {
    var count := SummaryCount(full);
    if count < 1 || count * 6 - 3 != |directions| || count * 12 - 1 != |full| then Failure(IllegalArgument)
    else
      var f := ParseDirections(directions, count);
      var s := ReadAll(ParseInt, full, count);
      if f.Failure? || s.Failure? then Failure(IllegalArgument) else Success(Loaded(s.value, f.value))
  }

  /** A record's two texts, written by getAllDirections and getFullSummary, load back into the same record. */
  lemma TextsRoundTrip(strokes: seq<Stroke>)
    requires |strokes| >= 1
    ensures FromTexts(DirectionsText(FeaturesOf(strokes)), FullSummary(strokes)) == Success(Loaded(strokes, FeaturesOf(strokes)))
  {
    var f := FeaturesOf(strokes);
    DirectionsRoundTrip(f);
    FullSummaryRoundTrip(ParseInt, strokes);
    SummaryLength(strokes);
    assert SummaryCount(FullSummary(strokes)) == |strokes|;
  }

  /** The summary text alone loads back into the same strokes and the same derived arrays. */
  lemma SummaryRoundTrip(strokes: seq<Stroke>)
    requires |strokes| >= 1
    ensures FromSummary(FullSummary(strokes)) == Success(Loaded(strokes, FeaturesOf(strokes)))
  {
    FullSummaryRoundTrip(TwoDigit, strokes);
  }

  // ---------------------------------------------------------------------------
  // Match algorithms and the comparers they build

  /** KanjiInfo.MatchAlgorithm. */
  datatype MatchAlgorithm = STRICT | FUZZY | FUZZY_1OUT | FUZZY_2OUT | SPANS | SPANS_1OUT | SPANS_2OUT {
    /** How many strokes away from the drawn count a candidate may be. */
    function GetOut(): (r: nat)
      ensures r <= 2
      ensures r == 0 <==> this == STRICT || this == FUZZY || this == SPANS
      ensures r == 2 <==> this == FUZZY_2OUT || this == SPANS_2OUT
    {
      match this
      case STRICT => 0 case FUZZY => 0 case FUZZY_1OUT => 1 case FUZZY_2OUT => 2
      case SPANS => 0 case SPANS_1OUT => 1 case SPANS_2OUT => 2
    }

    predicate IsFuzzy() { this == FUZZY || this == FUZZY_1OUT || this == FUZZY_2OUT }

    predicate IsSpans() { this == SPANS || this == SPANS_1OUT || this == SPANS_2OUT }
  }

  /** A comparer built by newComparer: which class it is. */
  datatype Comparer =
    | StrictOne(strict: Strict.StrictComparer)
    | SpansOne(spans: Spans.SpansComparer)
    | FuzzyOne(fuzzy: Fuzzy.FuzzyComparer)

  /** The comparer class each algorithm constructs. */
  predicate Fits(algo: MatchAlgorithm, c: Comparer) {
    if algo == STRICT then c.StrictOne? else if algo.IsSpans() then c.SpansOne? else c.FuzzyOne?
  }

  /** The mutable state a comparer's validity depends on. */
  function ComparerArrays(c: Comparer): set<array<Spans.Position>> {
    if c.SpansOne? then {c.spans.positions} else {}
  }

  ghost predicate ComparerValid(c: Comparer)
    reads ComparerArrays(c)
  {
    match c
    case StrictOne(k) => k.drawn.Some? ==> k.drawn.value.WellFormed()
    case SpansOne(k) => k.Valid()
    case FuzzyOne(k) => k.Valid()
  }

  // ---------------------------------------------------------------------------
  // KanjiInfo

  /** Strokes and direction arrays that belong together: both or neither, one entry per stroke. */
  predicate Paired(strokes: Option<seq<Stroke>>, features: Option<Features>) {
    (strokes.Some? <==> features.Some?)
    && (features.Some? ==> features.value.WellFormed() && features.value.Count() == |strokes.value|)
  }

  class KanjiInfo {
    const kanji: string
    /** The strokes added so far; None on a record built from its texts. */
    var loadingStrokes: Option<seq<InputStrokes.InputStroke>>
    var strokes: Option<seq<Stroke>>
    /** strokeDirections, moveDirections, strokeStarts and strokeEnds; None until derived. */
    var features: Option<Features>
    /** The comparers built so far, one per algorithm. */
    var comparers: map<MatchAlgorithm, Comparer>
    ghost var Repr: set<array<Spans.Position>>

    ghost predicate Valid()
      reads this, Repr
    {
      Paired(strokes, features)
      && forall a :: a in comparers ==>
           Fits(a, comparers[a]) && ComparerArrays(comparers[a]) <= Repr && ComparerValid(comparers[a])
    }

    /** KanjiInfo(kanji): a record that takes strokes until finish. */
    constructor (kanji: string)
      ensures Valid() && fresh(Repr)
      ensures this.kanji == kanji && loadingStrokes == Some([])
      ensures strokes.None? && features.None? && comparers == map[]
    {
      this.kanji := kanji;
      loadingStrokes := Some([]);
      strokes := None;
      features := None;
      comparers := map[];
      Repr := {};
    }

    /** A record built from its texts: no stroke list to add to. */
    constructor Load(kanji: string, data: Loaded)
      requires data.features.WellFormed() && data.features.Count() == |data.strokes|
      ensures Valid() && fresh(Repr)
      ensures this.kanji == kanji && loadingStrokes.None?
      ensures strokes == Some(data.strokes) && features == Some(data.features) && comparers == map[]
    {
      this.kanji := kanji;
      loadingStrokes := None;
      strokes := Some(data.strokes);
      features := Some(data.features);
      comparers := map[];
      Repr := {};
    }

    /** KanjiInfo(kanji, full). */
    static method FromFull(kanji: string, full: string) returns (r: Result<KanjiInfo>)
      ensures r.Failure? <==> FromSummary(full).Failure?
      ensures r.Failure? ==> r.error == IllegalArgument
      ensures r.Success? ==>
        fresh(r.value) && r.value.Valid() && fresh(r.value.Repr) && r.value.kanji == kanji
        && r.value.loadingStrokes.None? && r.value.comparers == map[]
        && r.value.strokes == Some(FromSummary(full).value.strokes) && r.value.features == Some(FromSummary(full).value.features)
    {
      var parsed := ParseStrokes(TwoDigit, full);
      if parsed.Failure? {
        return Failure(IllegalArgument);
      }
      var f := FindDirections(parsed.value);
      var info := new KanjiInfo.Load(kanji, Loaded(parsed.value, f));
      r := Success(info);
    }

    /** KanjiInfo(kanji, directions, full). */
    static method FromDirections(kanji: string, directions: string, full: string) returns (r: Result<KanjiInfo>)
      ensures r.Failure? <==> FromTexts(directions, full).Failure?
      ensures r.Failure? ==> r.error == IllegalArgument
      ensures r.Success? ==>
        fresh(r.value) && r.value.Valid() && fresh(r.value.Repr) && r.value.kanji == kanji
        && r.value.loadingStrokes.None? && r.value.comparers == map[]
        && r.value.strokes == Some(FromTexts(directions, full).value.strokes) && r.value.features == Some(FromTexts(directions, full).value.features)
    {
      var count := (|full| + 1) / 12;
      if count < 1 || count * 6 - 3 != |directions| {
        return Failure(IllegalArgument);
      }
      if count * 12 - 1 != |full| {
        return Failure(IllegalArgument);
      }
      var f := ReadDirections(directions, count);
      if f.Failure? {
        return Failure(IllegalArgument);
      }
      var s := ReadStrokes(ParseInt, full, count);
      if s.Failure? {
        return Failure(IllegalArgument);
      }
      var info := new KanjiInfo.Load(kanji, Loaded(s.value, f.value));
      r := Success(info);
    }

    /** addStroke: IllegalState exactly when the record has no stroke list, else one more stroke at the end. */
    method AddStroke(stroke: InputStrokes.InputStroke) returns (r: Result<()>)
      requires Valid()
      modifies this
      ensures Valid() && Repr == old(Repr)
      ensures old(loadingStrokes).None? ==> r == Failure(IllegalState) && loadingStrokes.None?
      ensures old(loadingStrokes).Some? ==> r == Success(()) && loadingStrokes == Some(old(loadingStrokes).value + [stroke])
      ensures strokes == old(strokes) && features == old(features) && comparers == old(comparers)
    {
      if loadingStrokes.None? {
        return Failure(IllegalState);
      }
      loadingStrokes := Some(loadingStrokes.value + [stroke]);
      r := Success(());
    }

    /**
     * finish: the added strokes normalised (InputStroke.normalise, a
     * parameter here) and their directions found. IllegalState exactly when
     * the record has no stroke list; the list itself is kept.
     */
    method Finish(normalise: seq<InputStrokes.InputStroke> -> seq<Stroke>) returns (r: Result<()>)
      requires Valid()
      modifies this
      ensures Valid() && Repr == old(Repr)
      ensures loadingStrokes == old(loadingStrokes) && comparers == old(comparers)
      ensures old(loadingStrokes).None? ==> r == Failure(IllegalState) && strokes == old(strokes) && features == old(features)
      ensures old(loadingStrokes).Some? ==>
        r == Success(()) && strokes == Some(normalise(loadingStrokes.value)) && features == Some(FeaturesOf(strokes.value))
    {
      if loadingStrokes.None? {
        return Failure(IllegalState);
      }
      var normalised := normalise(loadingStrokes.value);
      var f := FindDirections(normalised);
      strokes := Some(normalised);
      features := Some(f);
      r := Success(());
    }

    /** getStrokeCount: IllegalState until the direction arrays exist, then the number of strokes. */
    function GetStrokeCount(): (r: Result<nat>)
      requires Valid()
      reads this, Repr
      ensures r.Failure? <==> features.None?
      ensures r.Failure? ==> r.error == IllegalState
      ensures r.Success? ==> r.value == |strokes.value|
    {
      if features.None? then Failure(IllegalState) else Success(|features.value.directions|)
    }

    /** getStroke: IllegalState without strokes, IndexOutOfBounds outside 0 .. count - 1. */
    function GetStroke(index: int): (r: Result<Stroke>)
      reads this
      ensures strokes.None? ==> r == Failure(IllegalState)
      ensures strokes.Some? && !(0 <= index < |strokes.value|) ==> r == Failure(IndexOutOfBounds)
      ensures r.Success? ==> strokes.Some? && 0 <= index < |strokes.value| && r.value == strokes.value[index]
    {
      if strokes.None? then Failure(IllegalState)
      else if index < 0 || index >= |strokes.value| then Failure(IndexOutOfBounds)
      else Success(strokes.value[index])
    }

    /** getAllDirections: a NullPointer before the arrays exist. */
    method GetAllDirections() returns (r: Result<string>)
      requires Valid()
      ensures features.None? ==> r == Failure(NullPointer)
      ensures features.Some? ==> r == Success(DirectionsText(features.value))
    {
      if features.None? {
        return Failure(NullPointer);
      }
      var text := BuildAllDirections(features.value);
      r := Success(text);
    }

    /** getFullSummary: IllegalState without strokes. */
    method GetFullSummary() returns (r: Result<string>)
      ensures strokes.None? ==> r == Failure(IllegalState)
      ensures strokes.Some? ==> r == Success(FullSummary(strokes.value))
    {
      if strokes.None? {
        return Failure(IllegalState);
      }
      var text := BuildFullSummary(strokes.value);
      r := Success(text);
    }

    /**
     * newComparer followed by init: a strict comparer keeps the (possibly
     * missing) arrays; the others read the strokes through getStrokeCount
     * and getStroke, which throw IllegalState on an unfinished record.
     */
    method NewComparer(algo: MatchAlgorithm) returns (r: Result<Comparer>)
      requires Valid()
      ensures r.Failure? <==> algo != STRICT && strokes.None?
      ensures r.Failure? ==> r.error == IllegalState
      ensures r.Success? ==> Fits(algo, r.value) && fresh(ComparerArrays(r.value)) && ComparerValid(r.value)
      ensures r.Success? && r.value.StrictOne? ==> r.value.strict.drawn == features
      ensures r.Success? && r.value.SpansOne? ==> r.value.spans.count == |strokes.value|
      ensures r.Success? && r.value.FuzzyOne? ==> r.value.fuzzy.drawnPairs == Fuzzy.PairsOf(strokes.value)
    {
      if algo == STRICT {
        var k := new Strict.StrictComparer(features);
        return Success(StrictOne(k));
      }
      if strokes.None? {
        return Failure(IllegalState);
      }
      if algo.IsSpans() {
        var k := new Spans.SpansComparer(strokes.value);
        r := Success(SpansOne(k));
      } else {
        var k := new Fuzzy.FuzzyComparer(strokes.value);
        r := Success(FuzzyOne(k));
      }
    }

    /**
     * The cache lookup of getMatchScore: the comparer built for algo on first
     * use, kept and returned again on later calls (even after the record
     * changes); a failed build leaves the cache as it was.
     */
    method CachedComparer(algo: MatchAlgorithm) returns (c: Result<Comparer>)
      requires Valid()
      modifies this
      ensures Valid() && old(Repr) <= Repr && fresh(Repr - old(Repr))
      ensures loadingStrokes == old(loadingStrokes) && strokes == old(strokes) && features == old(features)
      ensures algo in old(comparers) ==> c == Success(old(comparers)[algo]) && comparers == old(comparers)
      ensures algo !in old(comparers) && c.Failure? ==>
        comparers == old(comparers) && c.error == IllegalState && algo != STRICT && strokes.None?
      ensures algo !in old(comparers) && c.Success? ==> comparers == old(comparers)[algo := c.value]
      ensures algo !in old(comparers) && c.Success? && c.value.StrictOne? ==> c.value.strict.drawn == features
      ensures c.Success? ==> algo in comparers && comparers[algo] == c.value
    {
      if algo in comparers {
        return Success(comparers[algo]);
      }
      c := NewComparer(algo);
      if c.Success? {
        comparers := comparers[algo := c.value];
        Repr := Repr + ComparerArrays(c.value);
      }
    }

    /** getMatchScore: this record's comparer for algo, applied to the other record. */
    method GetMatchScore(other: KanjiInfo, algo: MatchAlgorithm) returns (r: Result<FloatValue>)
      requires Valid() && Paired(other.strokes, other.features)
      modifies this
      ensures Valid() && old(Repr) <= Repr && fresh(Repr - old(Repr))
      ensures loadingStrokes == old(loadingStrokes) && strokes == old(strokes) && features == old(features)
      ensures forall a :: a in old(comparers) ==> a in comparers && comparers[a] == old(comparers)[a]
      ensures comparers.Keys <= old(comparers).Keys + {algo}
      ensures algo !in comparers ==> comparers == old(comparers) && r == Failure(IllegalState) && algo != STRICT && strokes.None?
      ensures algo !in old(comparers) && algo in comparers && comparers[algo].StrictOne? ==>
        comparers[algo].strict.drawn == features
      ensures algo in comparers ==> ScoredBy(comparers[algo], other.strokes, other.features, r)
    {
      var c := CachedComparer(algo);
      if c.Failure? {
        return Failure(c.error);
      }
      r := ScoreWith(c.value, other);
    }
  }

  /** What a comparer scores from, as a value: the drawn features, the span cells or the drawn pairs. */
  datatype Scorer =
    | StrictScorer(drawn: Option<Features>)
    | SpansScorer(cells: seq<Spans.Position>, count: nat)
    | FuzzyScorer(drawnPairs: seq<Fuzzy.Pair>)

  /** The data a comparer scores from is in the shape its scoring needs. */
  predicate ScorerReady(s: Scorer) {
    match s
    case StrictScorer(drawn) => drawn.Some? ==> drawn.value.WellFormed()
    case SpansScorer(cells, count) => Spans.CellsReady(cells, count)
    case FuzzyScorer(drawnPairs) => Fuzzy.PairIndexed(drawnPairs)
  }

  /** The data a comparer scores from. */
  ghost function ScorerOf(c: Comparer): Scorer {
    match c
    case StrictOne(k) => StrictScorer(k.drawn)
    case SpansOne(k) => SpansScorer(k.cells, k.count)
    case FuzzyOne(k) => FuzzyScorer(k.drawnPairs)
  }

  /** What getMatchScore gives, from this data, on a record with these strokes and direction arrays. */
  predicate ScoredFrom(s: Scorer, strokes: Option<seq<Stroke>>, features: Option<Features>, r: Result<FloatValue>)
    requires ScorerReady(s)
  {
    match s
    case StrictScorer(drawn) =>
      (features.Some? ==> features.value.WellFormed())
      && r == Lift(Strict.StrictScore(drawn, features))
    case SpansScorer(cells, count) =>
      if strokes.None? then r == Failure(IllegalState)
      else r == Success(Spans.SpansScore(cells, count, strokes.value))
    case FuzzyScorer(drawnPairs) =>
      if strokes.None? then r == Failure(IllegalState)
      else if |drawnPairs| > 0 && |strokes.value| > |drawnPairs| + 2 then r == Failure(IndexOutOfBounds)
      else r == Success(Fuzzy.FuzzyScore(drawnPairs, strokes.value))
  }

  /** What a comparer's getMatchScore gives on a record with these strokes and direction arrays. */
  ghost predicate ScoredBy(c: Comparer, strokes: Option<seq<Stroke>>, features: Option<Features>, r: Result<FloatValue>)
    requires ComparerValid(c)
    reads ComparerArrays(c)
  {
    ScorerReadyOf(c);
    ScoredFrom(ScorerOf(c), strokes, features, r)
  }

  /** A well-formed comparer's data is ready to score from. */
  lemma ScorerReadyOf(c: Comparer)
    requires ComparerValid(c)
    ensures ScorerReady(ScorerOf(c))
  {
  }

  /**
   * The comparer's getMatchScore. The fuzzy comparer's score arrays hold
   * drawn + 2 strokes, so a longer candidate overruns them.
   */
  method ScoreWith(c: Comparer, other: KanjiInfo) returns (r: Result<FloatValue>)
    requires ComparerValid(c) && Paired(other.strokes, other.features)
    ensures ScoredBy(c, other.strokes, other.features, r)
  {
    match c
    case StrictOne(k) =>
      var score := k.GetMatchScore(other.features);
      r := Lift(score);
    case SpansOne(k) =>
      r := k.GetMatchScore(other.strokes);
    case FuzzyOne(k) =>
      if other.strokes.Some? && |k.drawnPairs| > 0 && |other.strokes.value| > |k.drawnPairs| + 2 {
        return Failure(IndexOutOfBounds);
      }
      r := k.GetMatchScore(other.strokes);
  }

  /** A strict score as a float result. */
  function Lift(score: Result<real>): Result<FloatValue> {
    if score.Success? then Success(Finite(score.value)) else Failure(score.error)
  }

  /** The loop of getAllDirections. */
  method BuildAllDirections(f: Features) returns (out: string)
    requires f.WellFormed()
    ensures out == DirectionsText(f)
  {
    out := "";
    for i := 0 to f.Count()
      invariant out == DirectionsUpTo(f, i)
    {
      if i > 0 {
        out := out + [':'] + f.moves[i - 1].ToString() + [':'];
      }
      out := out + f.starts[i].ToString() + f.directions[i].ToString() + f.ends[i].ToString();
    }
  }

  /** The glyph loop of the three-argument constructor, with its offset cursor. */
  method ReadDirections(text: string, count: nat) returns (r: Result<Features>)
    requires count >= 1 && |text| == 6 * count - 3
    ensures r == ParseDirections(text, count)
  {
    var directions: seq<Direction>, starts: seq<Location>, ends: seq<Location>, moves: seq<Direction> := [], [], [], [];
    var offset := 0;
    for i := 0 to count
      invariant offset == if i == 0 then 0 else 6 * i - 3
      invariant |starts| == i && |directions| == i && |ends| == i && |moves| == if i == 0 then 0 else i - 1
      invariant StrokesRead(text, starts, directions, ends) && MovesRead(text, moves)
    {
      if i != 0 {
        offset := offset + 1;
        var m := ReadMove(text, i - 1, offset);
        if m.Failure? {
          MissingGlyph(text, count, i - 1, true);
          return Failure(IllegalArgument);
        }
        MovesReadAppend(text, moves, m.value);
        moves := moves + [m.value];
        offset := offset + 2;
      }
      var a, d, b := ReadGlyphs(text, i, offset);
      if a.Failure? || d.Failure? || b.Failure? {
        MissingGlyph(text, count, i, false);
        return Failure(IllegalArgument);
      }
      StrokesReadAppend(text, starts, directions, ends, a.value, d.value, b.value);
      starts, directions, ends := starts + [a.value], directions + [d.value], ends + [b.value];
      offset := offset + 3;
    }
    var f := Features(directions, moves, starts, ends);
    ParseDirectionsOf(f, text);
    r := Success(f);
  }

  /** The glyphs of the first |starts| strokes read as these cells and directions. */
  predicate StrokesRead(text: string, starts: seq<Location>, directions: seq<Direction>, ends: seq<Location>) {
    |starts| == |directions| == |ends|
    && StartsRead(text, starts) && DirectionsRead(text, directions) && EndsRead(text, ends)
  }

  predicate StartsRead(text: string, starts: seq<Location>) {
    forall k :: 0 <= k < |starts| && 6 * k < |text| ==> StartAt(text, k) == Success(starts[k])
  }

  predicate DirectionsRead(text: string, directions: seq<Direction>) {
    forall k :: 0 <= k < |directions| && 6 * k + 1 < |text| ==> DirectionAt(text, k) == Success(directions[k])
  }

  predicate EndsRead(text: string, ends: seq<Location>) {
    forall k :: 0 <= k < |ends| && 6 * k + 2 < |text| ==> EndAt(text, k) == Success(ends[k])
  }

  /** The glyphs of the first |moves| moves read as these directions. */
  predicate MovesRead(text: string, moves: seq<Direction>) {
    forall k :: 0 <= k < |moves| && 6 * k + 4 < |text| ==> MoveAt(text, k) == Success(moves[k])
  }

  lemma StrokesReadAppend(text: string, starts: seq<Location>, directions: seq<Direction>, ends: seq<Location>,
                          a: Location, d: Direction, b: Location)
    requires StrokesRead(text, starts, directions, ends) && 6 * |starts| + 2 < |text|
    requires StartAt(text, |starts|) == Success(a) && DirectionAt(text, |starts|) == Success(d) && EndAt(text, |starts|) == Success(b)
    ensures StrokesRead(text, starts + [a], directions + [d], ends + [b])
  {
    StartsReadAppend(text, starts, a);
    DirectionsReadAppend(text, directions, d);
    EndsReadAppend(text, ends, b);
  }

  lemma StartsReadAppend(text: string, starts: seq<Location>, a: Location)
    requires StartsRead(text, starts) && 6 * |starts| < |text| && StartAt(text, |starts|) == Success(a)
    ensures StartsRead(text, starts + [a])
  {
    var s2 := starts + [a];
    forall k | 0 <= k < |s2| && 6 * k < |text|
      ensures StartAt(text, k) == Success(s2[k])
    {
      if k < |starts| {
        assert s2[k] == starts[k];
      }
    }
  }

  lemma DirectionsReadAppend(text: string, directions: seq<Direction>, d: Direction)
    requires DirectionsRead(text, directions) && 6 * |directions| + 1 < |text| && DirectionAt(text, |directions|) == Success(d)
    ensures DirectionsRead(text, directions + [d])
  {
    var d2 := directions + [d];
    forall k | 0 <= k < |d2| && 6 * k + 1 < |text|
      ensures DirectionAt(text, k) == Success(d2[k])
    {
      if k < |directions| {
        assert d2[k] == directions[k];
      }
    }
  }

  lemma EndsReadAppend(text: string, ends: seq<Location>, b: Location)
    requires EndsRead(text, ends) && 6 * |ends| + 2 < |text| && EndAt(text, |ends|) == Success(b)
    ensures EndsRead(text, ends + [b])
  {
    var e2 := ends + [b];
    forall k | 0 <= k < |e2| && 6 * k + 2 < |text|
      ensures EndAt(text, k) == Success(e2[k])
    {
      if k < |ends| {
        assert e2[k] == ends[k];
      }
    }
  }

  lemma MovesReadAppend(text: string, moves: seq<Direction>, m: Direction)
    requires MovesRead(text, moves) && 6 * |moves| + 4 < |text| && MoveAt(text, |moves|) == Success(m)
    ensures MovesRead(text, moves + [m])
  {
    var m2 := moves + [m];
    forall k | 0 <= k < |m2| && 6 * k + 4 < |text|
      ensures MoveAt(text, k) == Success(m2[k])
    {
      if k < |moves| {
        assert m2[k] == moves[k];
      }
    }
  }

  /** One glyph that does not read makes the whole directions text fail. */
  lemma MissingGlyph(text: string, count: nat, i: nat, move: bool)
    requires count >= 1 && |text| == 6 * count - 3
    requires move ==> i < count - 1 && MoveAt(text, i).Failure?
    requires !move ==> i < count && (StartAt(text, i).Failure? || DirectionAt(text, i).Failure? || EndAt(text, i).Failure?)
    ensures ParseDirections(text, count) == Failure(IllegalArgument)
  {
  }

  /** Location.fromString and Direction.fromString on the three glyphs of stroke i. */
  method ReadGlyphs(text: string, i: nat, offset: nat) returns (a: Result<Location>, d: Result<Direction>, b: Result<Location>)
    requires offset == 6 * i && offset + 2 < |text|
    ensures a == StartAt(text, i) && d == DirectionAt(text, i) && b == EndAt(text, i)
  {
    a := LocationFromString([text[offset]]);
    d := DirectionFromString([text[offset + 1]]);
    b := LocationFromString([text[offset + 2]]);
  }

  /** Direction.fromString on the glyph of move i. */
  method ReadMove(text: string, i: nat, offset: nat) returns (m: Result<Direction>)
    requires offset == 6 * i + 4 && offset < |text|
    ensures m == MoveAt(text, i)
  {
    m := DirectionFromString([text[offset]]);
  }
}
