/**
 * Strokes before normalisation, and the extractor that reads the start and
 * end point out of an SVG path restricted to M/m, C/c, S/s and Z/z
 * (sections 8.3.2, 8.3.3 and 8.3.6 of SVG 1.1).
 *
 * The Java float parser is a library call: it is a parameter `parseFloat`
 * here, which maps a number token to its value or to None when the token
 * is not a valid float.
 */
module InputStrokes {
  import opened Wrappers

  /** A stroke in unnormalised coordinates; the datatype constructor is the raw constructor. */
  datatype InputStroke = InputStroke(startX: real, startY: real, endX: real, endY: real)

  /** Character.isWhitespace on a UTF-16 code unit. */
  predicate IsWhitespace(c: char) {
    c == ' ' || ('\t' <= c <= '\r') || ('\U{1C}' <= c <= '\U{1F}')
    || c == '\U{1680}' || ('\U{2000}' <= c <= '\U{2006}') || ('\U{2008}' <= c <= '\U{200A}')
    || c == '\U{2028}' || c == '\U{2029}' || c == '\U{205F}' || c == '\U{3000}'
  }

  /** Characters at which readLetter stops and reports that a number follows. */
  predicate StartsNumber(c: char) { c == ',' || c == '-' || c == '+' || ('0' <= c <= '9') }

  /** Characters readNumber skips before a token. */
  predicate IsSeparator(c: char) { c == ',' || IsWhitespace(c) || c == '+' }

  /** Characters that continue a number token after its first character. */
  predicate ContinuesNumber(c: char) { c == '.' || ('0' <= c <= '9') }

  /** The character classes the scanning loops skip over. */
  datatype CharClass = Whitespace | Separator | NumberTail

  predicate InClass(cls: CharClass, c: char) {
    match cls
    case Whitespace => IsWhitespace(c)
    case Separator => IsSeparator(c)
    case NumberTail => ContinuesNumber(c)
  }

  /** Length of the longest prefix of s whose characters are all in the class. */
  function PrefixLength(s: string, cls: CharClass): (n: nat)
    ensures n <= |s|
    ensures forall i :: 0 <= i < n ==> InClass(cls, s[i])
    ensures n < |s| ==> !InClass(cls, s[n])
  {
    if s == [] || !InClass(cls, s[0]) then 0 else 1 + PrefixLength(s[1..], cls)
  }

  /** The prefix length is the only index that satisfies PrefixLength's contract. */
  lemma {:induction false} PrefixLengthUnique(s: string, cls: CharClass, n: nat)
    requires n <= |s|
    requires forall i :: 0 <= i < n ==> InClass(cls, s[i])
    requires n < |s| ==> !InClass(cls, s[n])
    ensures PrefixLength(s, cls) == n
  {
    if n > 0 {
      assert InClass(cls, s[0]);
      PrefixLengthUnique(s[1..], cls, n - 1);
    }
  }

  // ---------------------------------------------------------------------------
  // PathData

  /** What PathData.readLetter reports: end of input, a number ahead, or a command letter. */
  datatype Letter = EndOfLine | NumberAhead | Command(c: char)

  /**
   * readLetter on input s: the letter and the input left afterwards. Only a
   * command letter is consumed, together with the whitespace before it.
   */
  function ReadLetterSpec(s: string): (r: (Letter, string))
    ensures r.0 == EndOfLine <==> forall i :: 0 <= i < |s| ==> IsWhitespace(s[i])
    ensures !r.0.Command? ==> r.1 == s
    ensures r.0 == NumberAhead ==>
      var k := PrefixLength(s, Whitespace); k < |s| && StartsNumber(s[k])
    ensures r.0.Command? ==>
      var k := |s| - |r.1| - 1;
      && 0 <= k && s[k] == r.0.c && r.1 == s[k + 1..]
      && !IsWhitespace(r.0.c) && !StartsNumber(r.0.c)
      && forall i :: 0 <= i < k ==> IsWhitespace(s[i])
  {
    var k := PrefixLength(s, Whitespace);
    if k == |s| then (EndOfLine, s)
    else if StartsNumber(s[k]) then (NumberAhead, s)
    else (Command(s[k]), s[k + 1..])
  }

  /** The converse of ReadLetterSpec's contract for a command letter after k blanks. */
  lemma CommandAt(s: string, k: nat)
    requires k < |s| && !IsWhitespace(s[k]) && !StartsNumber(s[k])
    requires forall i :: 0 <= i < k ==> IsWhitespace(s[i])
    ensures ReadLetterSpec(s) == (Command(s[k]), s[k + 1..])
  {
    PrefixLengthUnique(s, Whitespace, k);
  }

  /**
   * Where readNumber's token lies in s: after the leading separators, one
   * character of any kind and then the run of digits and dots. None when s
   * holds only separators. TokenBoundsFound states this in full.
   */
  function TokenBounds(s: string): (r: Option<(nat, nat)>)
    ensures r.Some? ==> r.value.0 < r.value.1 <= |s|
  {
    var start := PrefixLength(s, Separator);
    if start == |s| then None
    else Some((start, start + 1 + PrefixLength(s[start + 1..], NumberTail)))
  }

  /** The token TokenBounds finds, described character by character. */
  lemma TokenBoundsFound(s: string)
    ensures TokenBounds(s) == None <==> forall i :: 0 <= i < |s| ==> IsSeparator(s[i])
    ensures TokenBounds(s).Some? ==>
      var start, end := TokenBounds(s).value.0, TokenBounds(s).value.1;
      && (forall i :: 0 <= i < start ==> IsSeparator(s[i]))
      && !IsSeparator(s[start])
      && (forall i :: start < i < end ==> ContinuesNumber(s[i]))
      && (end < |s| ==> !ContinuesNumber(s[end]))
  {
    var start := PrefixLength(s, Separator);
    assert forall i :: 0 <= i < start ==> InClass(Separator, s[i]);
    if start < |s| {
      assert !InClass(Separator, s[start]);
      var tail := s[start + 1..];
      var run := PrefixLength(tail, NumberTail);
      assert forall i :: start < i < start + 1 + run ==> s[i] == tail[i - start - 1];
    }
  }

  /** The converse of TokenBounds' contract: the bounds it states are the only ones. */
  lemma TokenBoundsUnique(s: string, start: nat, end: nat)
    requires start < end <= |s|
    requires forall i :: 0 <= i < start ==> IsSeparator(s[i])
    requires !IsSeparator(s[start])
    requires forall i :: start < i < end ==> ContinuesNumber(s[i])
    requires end < |s| ==> !ContinuesNumber(s[end])
    ensures TokenBounds(s) == Some((start, end))
  {
    PrefixLengthUnique(s, Separator, start);
    var tail := s[start + 1..];
    assert forall i :: 0 <= i < end - start - 1 ==> tail[i] == s[start + 1 + i];
    PrefixLengthUnique(tail, NumberTail, end - start - 1);
  }

  /**
   * readNumber on input s: the value (IllegalArgument at end of input or for
   * a token the float parser rejects) and the input left afterwards. A token
   * is consumed even when it does not parse.
   */
  function ReadNumberSpec(s: string, parseFloat: string -> Option<real>): (r: (Result<real>, string))
    ensures r.0.Failure? ==> r.0.error == IllegalArgument
    ensures r.0.Success? ==> |r.1| < |s|
  {
    var bounds := TokenBounds(s);
    if bounds.None? then (Failure(IllegalArgument), s)
    else
      var token := s[bounds.value.0..bounds.value.1];
      var parsed := parseFloat(token);
      (if parsed.None? then Failure(IllegalArgument) else Success(parsed.value), s[bounds.value.1..])
  }

  /** The cursor over the rest of a path that readLetter and readNumber advance. */
  class PathData {
    var remaining: string

    constructor (path: string)
      ensures remaining == path
    {
      remaining := path;
    }

    /** Skips whitespace; consumes and returns a command letter, or reports EOL / a number. */
    method ReadLetter() returns (letter: Letter)
      modifies this
      ensures (letter, remaining) == ReadLetterSpec(old(remaining))
    {
      var pos := 0;
      while true
        invariant pos <= |remaining| && remaining == old(remaining)
        invariant forall i :: 0 <= i < pos ==> IsWhitespace(remaining[i])
        decreases |remaining| - pos
      {
        if pos == |remaining| {
          PrefixLengthUnique(remaining, Whitespace, pos);
          return EndOfLine;
        }
        var c := remaining[pos];
        if !IsWhitespace(c) {
          PrefixLengthUnique(remaining, Whitespace, pos);
          if StartsNumber(c) {
            return NumberAhead;
          }
          remaining := remaining[pos + 1..];
          return Command(c);
        }
        pos := pos + 1;
      }
    }

    /** Skips ',', whitespace and '+', then consumes one token and parses it. */
    method ReadNumber(parseFloat: string -> Option<real>) returns (r: Result<real>)
      modifies this
      ensures (r, remaining) == ReadNumberSpec(old(remaining), parseFloat)
    {
      var start := 0;
      while true
        invariant start <= |remaining| && remaining == old(remaining)
        invariant forall i :: 0 <= i < start ==> IsSeparator(remaining[i])
        decreases |remaining| - start
      {
        if start == |remaining| {
          TokenBoundsFound(remaining);
          return Failure(IllegalArgument);
        }
        var c := remaining[start];
        if !IsSeparator(c) {
          break;
        }
        start := start + 1;
      }
      var end := start + 1;
      while true
        invariant start < end <= |remaining| && remaining == old(remaining)
        invariant forall i :: start < i < end ==> ContinuesNumber(remaining[i])
        decreases |remaining| - end
      {
        if end == |remaining| {
          break;
        }
        var c := remaining[end];
        if !ContinuesNumber(c) {
          break;
        }
        end := end + 1;
      }
      TokenBoundsUnique(remaining, start, end);
      var number := remaining[start..end];
      remaining := remaining[end..];
      var parsed := parseFloat(number);
      if parsed.None? {
        r := Failure(IllegalArgument);
      } else {
        r := Success(parsed.value);
      }
    }
  }

  // ---------------------------------------------------------------------------
  // The command loop of InputStroke(String)

  /** The loop's variables: the unread input, the current point and the last explicit command. */
  datatype LoopState = LoopState(remaining: string, x: real, y: real, lastCommand: Option<char>)

  /** One pass of the loop: go round again, leave the loop at EOL, or throw. */
  datatype Step = Continue(next: LoopState) | Done(x: real, y: real) | Fail(error: Error)

  /** Reads k numbers in turn: the values and the input left, or the first failure. */
  function ReadNumbers(s: string, k: nat, parseFloat: string -> Option<real>): (r: Result<(seq<real>, string)>)
    ensures r.Failure? ==> r.error == IllegalArgument
    ensures r.Success? ==> |r.value.0| == k && |r.value.1| <= |s|
    ensures r.Success? && k > 0 ==> |r.value.1| < |s|
  {
    if k == 0 then Success(([], s))
    else
      var first := ReadNumberSpec(s, parseFloat);
      if first.0.Failure? then Failure(first.0.error)
      else
        var more := ReadNumbers(first.1, k - 1, parseFloat);
        if more.Failure? then Failure(more.error)
        else Success(([first.0.value] + more.value.0, more.value.1))
  }

  /** Reading k + 1 numbers is reading one and then k more. */
  lemma ReadNumbersAfterFirst(s: string, k: nat, parseFloat: string -> Option<real>)
    requires ReadNumberSpec(s, parseFloat).0.Success?
    ensures var first := ReadNumberSpec(s, parseFloat);
      var more := ReadNumbers(first.1, k, parseFloat);
      && (ReadNumbers(s, k + 1, parseFloat).Success? <==> more.Success?)
      && (more.Success? ==>
            && ReadNumbers(s, k + 1, parseFloat).value.0 == [first.0.value] + more.value.0
            && ReadNumbers(s, k + 1, parseFloat).value.1 == more.value.1
            && (k >= 1 ==> ReadNumbers(s, k + 1, parseFloat).value.0[k] == more.value.0[k - 1])
            && (k >= 2 ==> ReadNumbers(s, k + 1, parseFloat).value.0[k - 1] == more.value.0[k - 2]))
  {
    var first := ReadNumberSpec(s, parseFloat);
    var more := ReadNumbers(first.1, k, parseFloat);
    if more.Success? {
      var whole := ReadNumbers(s, k + 1, parseFloat);
      assert whole == Success(([first.0.value] + more.value.0, more.value.1));
      if k >= 1 {
        assert whole.value.0[k] == more.value.0[k - 1];
      }
      if k >= 2 {
        assert whole.value.0[k - 1] == more.value.0[k - 2];
      }
    } else {
      assert ReadNumbers(s, k + 1, parseFloat) == Failure(more.error);
    }
  }

  /** The Bezier commands: C/c read six numbers, S/s four; the last two are the new point. */
  predicate IsCurveCommand(c: char) { c == 'c' || c == 'C' || c == 's' || c == 'S' }

  predicate IsCloseCommand(c: char) { c == 'z' || c == 'Z' }

  /** True when the loop is about to repeat a closepath because a bare number follows it. */
  predicate RepeatsClose(st: LoopState) {
    ReadLetterSpec(st.remaining).0 == NumberAhead
    && st.lastCommand.Some? && IsCloseCommand(st.lastCommand.value)
  }

  /**
   * The switch of the command loop once the command is known (read now, or
   * repeated for a bare number): lower-case curves add their end pair to the
   * current point, upper-case curves replace it, z/Z return to the start
   * point, and any other letter throws.
   */
  function Dispatch(startX: real, startY: real, command: char, rest: string, x: real, y: real,
                    parseFloat: string -> Option<real>): (r: Step)
    ensures r.Fail? ==> r.error == IllegalArgument
    ensures r.Continue? ==> r.next.lastCommand == Some(command)
    ensures r.Continue? ==> |r.next.remaining| < |rest| || (IsCloseCommand(command) && r.next.remaining == rest)
    ensures r.Done? ==> false
  {
    if IsCurveCommand(command) then
      CurveStep(command, if command == 'c' || command == 'C' then 6 else 4, rest, x, y, parseFloat)
    else if IsCloseCommand(command) then
      Continue(LoopState(rest, startX, startY, Some(command)))
    else Fail(IllegalArgument)
  }

  /**
   * The curve cases of the switch: read the command's arity of numbers; the
   * last pair is where the point moves to (C, S) or by (c, s).
   */
  function CurveStep(command: char, arity: nat, rest: string, x: real, y: real,
                     parseFloat: string -> Option<real>): (r: Step)
    requires arity >= 2
    ensures r.Fail? ==> r.error == IllegalArgument
    ensures r.Continue? ==> r.next.lastCommand == Some(command) && |r.next.remaining| < |rest|
    ensures !r.Done?
  {
    var read := ReadNumbers(rest, arity, parseFloat);
    if read.Failure? then Fail(read.error)
    else
      var vs, rest' := read.value.0, read.value.1;
      var endX, endY := vs[arity - 2], vs[arity - 1];
      if command == 'c' || command == 's' then
        Continue(LoopState(rest', x + endX, y + endY, Some(command)))
      else
        Continue(LoopState(rest', endX, endY, Some(command)))
  }

  /**
   * One pass of the command loop as written: read a letter; at EOL leave the
   * loop; a bare number repeats the last command, or throws if there is none.
   */
  function StepAsWritten(startX: real, startY: real, st: LoopState,
                         parseFloat: string -> Option<real>): (r: Step)
    ensures r.Fail? ==> r.error == IllegalArgument
    ensures r.Continue? ==> |r.next.remaining| < |st.remaining| || RepeatsClose(st)
  {
    var read := ReadLetterSpec(st.remaining);
    var rest := read.1;
    match read.0
    case EndOfLine => Done(st.x, st.y)
    case NumberAhead =>
      if st.lastCommand == None then Fail(IllegalArgument)
      else Dispatch(startX, startY, st.lastCommand.value, rest, st.x, st.y, parseFloat)
    case Command(c) => Dispatch(startX, startY, c, rest, st.x, st.y, parseFloat)
  }

  /**
   * One pass of the command loop with a bare number after z/Z rejected
   * (closepath takes no parameters), so that every pass that continues
   * consumes input.
   */
  function PathStep(startX: real, startY: real, st: LoopState,
                    parseFloat: string -> Option<real>): (r: Step)
    ensures r.Fail? ==> r.error == IllegalArgument
    ensures r.Continue? ==> |r.next.remaining| < |st.remaining|
    ensures !RepeatsClose(st) ==> r == StepAsWritten(startX, startY, st, parseFloat)
  {
    if RepeatsClose(st) then Fail(IllegalArgument)
    else StepAsWritten(startX, startY, st, parseFloat)
  }

  /** Runs the command loop to EOL or to the first error. */
  function RunCommands(startX: real, startY: real, st: LoopState,
                       parseFloat: string -> Option<real>): (r: Result<InputStroke>)
    ensures r.Failure? ==> r.error == IllegalArgument
    ensures r.Success? ==> r.value.startX == startX && r.value.startY == startY
    decreases |st.remaining|
  {
    match PathStep(startX, startY, st, parseFloat)
    case Done(x, y) => Success(InputStroke(startX, startY, x, y))
    case Fail(e) => Failure(e)
    case Continue(next) => RunCommands(startX, startY, next, parseFloat)
  }

  /** Reads the six numbers of a C/c command, dropping the four control values. */
  method ReadCubicEnd(data: PathData, parseFloat: string -> Option<real>) returns (r: Result<(real, real)>)
    modifies data
    ensures var spec := ReadNumbers(old(data.remaining), 6, parseFloat);
      && (r.Success? <==> spec.Success?)
      && (r.Failure? ==> r.error == IllegalArgument)
      && (r.Success? ==> r.value == (spec.value.0[4], spec.value.0[5]) && data.remaining == spec.value.1)
  {
    ghost var r0 := data.remaining;
    var n1 := data.ReadNumber(parseFloat);
    if n1.Failure? {
      return Failure(n1.error);
    }
    ghost var r1 := data.remaining;
    var n2 := data.ReadNumber(parseFloat);
    if n2.Failure? {
      ReadNumbersAfterFirst(r0, 5, parseFloat);
      return Failure(n2.error);
    }
    ghost var r2 := data.remaining;
    var n3 := data.ReadNumber(parseFloat);
    if n3.Failure? {
      ReadNumbersAfterFirst(r1, 4, parseFloat);
      ReadNumbersAfterFirst(r0, 5, parseFloat);
      return Failure(n3.error);
    }
    ghost var r3 := data.remaining;
    var n4 := data.ReadNumber(parseFloat);
    if n4.Failure? {
      ReadNumbersAfterFirst(r2, 3, parseFloat);
      ReadNumbersAfterFirst(r1, 4, parseFloat);
      ReadNumbersAfterFirst(r0, 5, parseFloat);
      return Failure(n4.error);
    }
    ghost var r4 := data.remaining;
    var endX := data.ReadNumber(parseFloat);
    if endX.Failure? {
      ReadNumbersAfterFirst(r3, 2, parseFloat);
      ReadNumbersAfterFirst(r2, 3, parseFloat);
      ReadNumbersAfterFirst(r1, 4, parseFloat);
      ReadNumbersAfterFirst(r0, 5, parseFloat);
      return Failure(endX.error);
    }
    ghost var r5 := data.remaining;
    var endY := data.ReadNumber(parseFloat);
    if endY.Failure? {
      ReadNumbersAfterFirst(r4, 1, parseFloat);
      ReadNumbersAfterFirst(r3, 2, parseFloat);
      ReadNumbersAfterFirst(r2, 3, parseFloat);
      ReadNumbersAfterFirst(r1, 4, parseFloat);
      ReadNumbersAfterFirst(r0, 5, parseFloat);
      return Failure(endY.error);
    }
    ghost var r6 := data.remaining;
    ReadNumbersAfterFirst(r5, 0, parseFloat);
    ReadNumbersAfterFirst(r4, 1, parseFloat);
    ReadNumbersAfterFirst(r3, 2, parseFloat);
    ReadNumbersAfterFirst(r2, 3, parseFloat);
    ReadNumbersAfterFirst(r1, 4, parseFloat);
    ReadNumbersAfterFirst(r0, 5, parseFloat);
    r := Success((endX.value, endY.value));
  }

  /** Reads the four numbers of an S/s command, dropping the two control values. */
  method ReadSmoothEnd(data: PathData, parseFloat: string -> Option<real>) returns (r: Result<(real, real)>)
    modifies data
    ensures var spec := ReadNumbers(old(data.remaining), 4, parseFloat);
      && (r.Success? <==> spec.Success?)
      && (r.Failure? ==> r.error == IllegalArgument)
      && (r.Success? ==> r.value == (spec.value.0[2], spec.value.0[3]) && data.remaining == spec.value.1)
  {
    ghost var r0 := data.remaining;
    var n1 := data.ReadNumber(parseFloat);
    if n1.Failure? {
      return Failure(n1.error);
    }
    ghost var r1 := data.remaining;
    var n2 := data.ReadNumber(parseFloat);
    if n2.Failure? {
      ReadNumbersAfterFirst(r0, 3, parseFloat);
      return Failure(n2.error);
    }
    ghost var r2 := data.remaining;
    var endX := data.ReadNumber(parseFloat);
    if endX.Failure? {
      ReadNumbersAfterFirst(r1, 2, parseFloat);
      ReadNumbersAfterFirst(r0, 3, parseFloat);
      return Failure(endX.error);
    }
    ghost var r3 := data.remaining;
    var endY := data.ReadNumber(parseFloat);
    if endY.Failure? {
      ReadNumbersAfterFirst(r2, 1, parseFloat);
      ReadNumbersAfterFirst(r1, 2, parseFloat);
      ReadNumbersAfterFirst(r0, 3, parseFloat);
      return Failure(endY.error);
    }
    ghost var r4 := data.remaining;
    ReadNumbersAfterFirst(r3, 0, parseFloat);
    ReadNumbersAfterFirst(r2, 1, parseFloat);
    ReadNumbersAfterFirst(r1, 2, parseFloat);
    ReadNumbersAfterFirst(r0, 3, parseFloat);
    r := Success((endX.value, endY.value));
  }

  /**
   * InputStroke(String): the path must start with M or m (both absolute),
   * whose pair is the start point; the end point is the current point at EOL.
   */
  function PathSpec(path: string, parseFloat: string -> Option<real>): (r: Result<InputStroke>)
    ensures r.Failure? ==> r.error == IllegalArgument
    ensures ReadLetterSpec(path).0 != Command('M') && ReadLetterSpec(path).0 != Command('m')
            ==> r == Failure(IllegalArgument)
  {
    var initial := ReadLetterSpec(path);
    if initial.0 != Command('M') && initial.0 != Command('m') then Failure(IllegalArgument)
    else
      var move := ReadNumbers(initial.1, 2, parseFloat);
      if move.Failure? then Failure(move.error)
      else
        var vs := move.value.0;
        RunCommands(vs[0], vs[1], LoopState(move.value.1, vs[0], vs[1], None), parseFloat)
  }

  /** A successful run of the loop starts at the location the M pair names. */
  lemma PathStartIsMovePair(path: string, parseFloat: string -> Option<real>)
    requires PathSpec(path, parseFloat).Success?
    ensures var initial, rest := ReadLetterSpec(path).0, ReadLetterSpec(path).1;
      && (initial == Command('M') || initial == Command('m'))
      && ReadNumbers(rest, 2, parseFloat).Success?
      && PathSpec(path, parseFloat).value.startX == ReadNumbers(rest, 2, parseFloat).value.0[0]
      && PathSpec(path, parseFloat).value.startY == ReadNumbers(rest, 2, parseFloat).value.0[1]
  {
  }

  /** A failing first number fails the whole read. */
  lemma ReadNumbersFirstFails(s: string, k: nat, parseFloat: string -> Option<real>)
    requires ReadNumberSpec(s, parseFloat).0.Failure?
    ensures ReadNumbers(s, k + 1, parseFloat) == Failure(IllegalArgument)
  {
  }

  /** A pass of the loop that continues leaves the outcome of the loop unchanged. */
  lemma RunCommandsContinues(startX: real, startY: real, st: LoopState, next: LoopState,
                             parseFloat: string -> Option<real>)
    requires PathStep(startX, startY, st, parseFloat) == Continue(next)
    ensures RunCommands(startX, startY, st, parseFloat) == RunCommands(startX, startY, next, parseFloat)
  {
  }

  /** The curve cases of the switch in terms of the numbers read. */
  lemma DispatchCurve(startX: real, startY: real, c: char, rest: string, x: real, y: real,
                      parseFloat: string -> Option<real>, k: nat)
    requires ((c == 'c' || c == 'C') && k == 6) || ((c == 's' || c == 'S') && k == 4)
    ensures var read := ReadNumbers(rest, k, parseFloat);
      var d := Dispatch(startX, startY, c, rest, x, y, parseFloat);
      && (read.Failure? ==> d == Fail(IllegalArgument))
      && (read.Success? && (c == 'c' || c == 's') ==>
            d == Continue(LoopState(read.value.1, x + read.value.0[k - 2], y + read.value.0[k - 1], Some(c))))
      && (read.Success? && (c == 'C' || c == 'S') ==>
            d == Continue(LoopState(read.value.1, read.value.0[k - 2], read.value.0[k - 1], Some(c))))
  {
    assert IsCurveCommand(c) && (if c == 'c' || c == 'C' then 6 else 4) == k;
    assert Dispatch(startX, startY, c, rest, x, y, parseFloat) == CurveStep(c, k, rest, x, y, parseFloat);
    CurveStepReads(c, rest, x, y, parseFloat, k);
  }

  /** CurveStepReads restated for the end point a curve reader returns and the input it leaves. */
  lemma CurveStepPair(c: char, rest: string, x: real, y: real, parseFloat: string -> Option<real>,
                      k: nat, pair: Result<(real, real)>, left: string)
    requires k >= 2
    requires pair.Success? <==> ReadNumbers(rest, k, parseFloat).Success?
    requires pair.Success? ==>
      var read := ReadNumbers(rest, k, parseFloat).value;
      pair.value == (read.0[k - 2], read.0[k - 1]) && left == read.1
    ensures var d := CurveStep(c, k, rest, x, y, parseFloat);
      && (pair.Failure? ==> d == Fail(IllegalArgument))
      && (pair.Success? && (c == 'c' || c == 's') ==>
            d == Continue(LoopState(left, x + pair.value.0, y + pair.value.1, Some(c))))
      && (pair.Success? && !(c == 'c' || c == 's') ==>
            d == Continue(LoopState(left, pair.value.0, pair.value.1, Some(c))))
  {
    CurveStepReads(c, rest, x, y, parseFloat, k);
  }

  /** A curve step for any arity: the last pair read is added (c, s) or taken (otherwise). */
  lemma CurveStepReads(c: char, rest: string, x: real, y: real,
                       parseFloat: string -> Option<real>, k: nat)
    requires k >= 2
    ensures var read := ReadNumbers(rest, k, parseFloat);
      var d := CurveStep(c, k, rest, x, y, parseFloat);
      && (read.Failure? ==> d == Fail(IllegalArgument))
      && (read.Success? && (c == 'c' || c == 's') ==>
            d == Continue(LoopState(read.value.1, x + read.value.0[k - 2], y + read.value.0[k - 1], Some(c))))
      && (read.Success? && !(c == 'c' || c == 's') ==>
            d == Continue(LoopState(read.value.1, read.value.0[k - 2], read.value.0[k - 1], Some(c))))
  {
  }

  /** The C/c case of the switch: the point moves to, or by, the last pair of six numbers. */
  method ExecuteCubic(data: PathData, c: char, x: real, y: real,
                      parseFloat: string -> Option<real>) returns (step: Step)
    requires c == 'c' || c == 'C'
    modifies data
    ensures step == CurveStep(c, 6, old(data.remaining), x, y, parseFloat)
    ensures step.Continue? ==> data.remaining == step.next.remaining
  {
    ghost var rest := data.remaining;
    var pair := ReadCubicEnd(data, parseFloat);
    CurveStepPair(c, rest, x, y, parseFloat, 6, pair, data.remaining);
    if pair.Failure? {
      return Fail(IllegalArgument);
    }
    if c == 'c' {
      step := Continue(LoopState(data.remaining, x + pair.value.0, y + pair.value.1, Some(c)));
    } else {
      step := Continue(LoopState(data.remaining, pair.value.0, pair.value.1, Some(c)));
    }
  }

  /** The S/s case of the switch: the point moves to, or by, the last pair of four numbers. */
  method ExecuteSmooth(data: PathData, c: char, x: real, y: real,
                       parseFloat: string -> Option<real>) returns (step: Step)
    requires c == 's' || c == 'S'
    modifies data
    ensures step == CurveStep(c, 4, old(data.remaining), x, y, parseFloat)
    ensures step.Continue? ==> data.remaining == step.next.remaining
  {
    ghost var rest := data.remaining;
    var pair := ReadSmoothEnd(data, parseFloat);
    CurveStepPair(c, rest, x, y, parseFloat, 4, pair, data.remaining);
    if pair.Failure? {
      return Fail(IllegalArgument);
    }
    if c == 's' {
      step := Continue(LoopState(data.remaining, x + pair.value.0, y + pair.value.1, Some(c)));
    } else {
      step := Continue(LoopState(data.remaining, pair.value.0, pair.value.1, Some(c)));
    }
  }

  /** The switch of the command loop on the cursor, for a command read or repeated. */
  method Execute(data: PathData, startX: real, startY: real, c: char, x: real, y: real,
                 parseFloat: string -> Option<real>) returns (step: Step)
    modifies data
    ensures step == Dispatch(startX, startY, c, old(data.remaining), x, y, parseFloat)
    ensures step.Continue? ==> data.remaining == step.next.remaining
  {
    if c == 'c' || c == 'C' {
      assert IsCurveCommand(c);
      step := ExecuteCubic(data, c, x, y, parseFloat);
    } else if c == 's' || c == 'S' {
      assert IsCurveCommand(c);
      step := ExecuteSmooth(data, c, x, y, parseFloat);
    } else if IsCloseCommand(c) {
      step := Continue(LoopState(data.remaining, startX, startY, Some(c)));
    } else {
      step := Fail(IllegalArgument);
    }
  }

  /**
   * One pass of the command loop of InputStroke(String) on the cursor: the
   * outcome is the corrected pass on the loop variables, and the cursor is
   * left where the next pass starts.
   */
  method Pass(data: PathData, startX: real, startY: real, x: real, y: real, lastCommand: Option<char>,
              parseFloat: string -> Option<real>) returns (step: Step)
    modifies data
    ensures step == PathStep(startX, startY, LoopState(old(data.remaining), x, y, lastCommand), parseFloat)
    ensures step.Continue? ==> data.remaining == step.next.remaining
  {
    ghost var st := LoopState(data.remaining, x, y, lastCommand);
    var command := data.ReadLetter();
    var c: char;
    if command == NumberAhead {
      if lastCommand == None {
        return Fail(IllegalArgument);
      }
      c := lastCommand.value;
      if IsCloseCommand(c) {
        assert RepeatsClose(st);
        return Fail(IllegalArgument);
      }
    } else if command == EndOfLine {
      return Done(x, y);
    } else {
      c := command.c;
    }
    assert !RepeatsClose(st);
    step := Execute(data, startX, startY, c, x, y, parseFloat);
  }

  /** InputStroke(String) as the loop over PathData that the Java constructor runs. */
  method FromPath(path: string, parseFloat: string -> Option<real>) returns (r: Result<InputStroke>)
    ensures r == PathSpec(path, parseFloat)
  {
    var data := new PathData(path);
    var initial := data.ReadLetter();
    if initial != Command('M') && initial != Command('m') {
      return Failure(IllegalArgument);
    }
    ghost var afterMove := data.remaining;
    var startX := data.ReadNumber(parseFloat);
    if startX.Failure? {
      ReadNumbersFirstFails(afterMove, 1, parseFloat);
      return Failure(IllegalArgument);
    }
    ghost var afterX := data.remaining;
    var startY := data.ReadNumber(parseFloat);
    if startY.Failure? {
      ReadNumbersFirstFails(afterX, 0, parseFloat);
      ReadNumbersAfterFirst(afterMove, 1, parseFloat);
      return Failure(IllegalArgument);
    }
    ReadNumbersAfterFirst(afterX, 0, parseFloat);
    ReadNumbersAfterFirst(afterMove, 1, parseFloat);

    var x, y := startX.value, startY.value;
    var lastCommand: Option<char> := None;
    while true
      invariant PathSpec(path, parseFloat)
                == RunCommands(startX.value, startY.value, LoopState(data.remaining, x, y, lastCommand), parseFloat)
      decreases |data.remaining|
    {
      ghost var st := LoopState(data.remaining, x, y, lastCommand);
      var step := Pass(data, startX.value, startY.value, x, y, lastCommand, parseFloat);
      match step
      case Done(endX, endY) =>
        return Success(InputStroke(startX.value, startY.value, endX, endY));
      case Fail(e) =>
        return Failure(e);
      case Continue(next) =>
        RunCommandsContinues(startX.value, startY.value, st, next, parseFloat);
        x, y, lastCommand := next.x, next.y, next.lastCommand;
    }
  }

  // ---------------------------------------------------------------------------
  // Properties

  /** A number straight after the M pair, before any command letter, throws. */
  lemma NumberBeforeFirstCommandFails(startX: real, startY: real, s: string,
                                      parseFloat: string -> Option<real>)
    requires ReadLetterSpec(s).0 == NumberAhead
    ensures RunCommands(startX, startY, LoopState(s, startX, startY, None), parseFloat)
            == Failure(IllegalArgument)
  {
  }

  /** A letter outside M/C/S/Z (either case) met by the loop throws; so does M itself. */
  lemma UnknownCommandFails(startX: real, startY: real, st: LoopState, c: char,
                            parseFloat: string -> Option<real>)
    requires ReadLetterSpec(st.remaining).0 == Command(c)
    requires !IsCurveCommand(c) && !IsCloseCommand(c)
    ensures RunCommands(startX, startY, st, parseFloat) == Failure(IllegalArgument)
  {
  }

  /** z or Z puts the pen back on the start point and remembers the command. */
  lemma CloseReturnsToStart(startX: real, startY: real, st: LoopState, c: char,
                            parseFloat: string -> Option<real>)
    requires ReadLetterSpec(st.remaining).0 == Command(c) && IsCloseCommand(c)
    ensures PathStep(startX, startY, st, parseFloat)
            == Continue(LoopState(ReadLetterSpec(st.remaining).1, startX, startY, Some(c)))
  {
  }

  /**
   * A bare number repeats the last curve command: the next pass behaves as
   * if the letter had been written again.
   */
  lemma BareNumberRepeatsCurve(startX: real, startY: real, st: LoopState,
                               parseFloat: string -> Option<real>)
    requires ReadLetterSpec(st.remaining).0 == NumberAhead
    requires st.lastCommand.Some? && IsCurveCommand(st.lastCommand.value)
    ensures PathStep(startX, startY, st, parseFloat)
            == PathStep(startX, startY,
                        st.(remaining := [st.lastCommand.value] + st.remaining), parseFloat)
  {
    var c := st.lastCommand.value;
    var s' := [c] + st.remaining;
    CommandAt(s', 0);
    assert s'[1..] == st.remaining;
    RepeatedCurveDispatch(startX, startY, st, parseFloat);
    ReadCurveDispatch(startX, startY, st.(remaining := s'), c, st.remaining, parseFloat);
  }

  /** A bare number after a curve command dispatches that command on the unread input. */
  lemma RepeatedCurveDispatch(startX: real, startY: real, st: LoopState, parseFloat: string -> Option<real>)
    requires ReadLetterSpec(st.remaining).0 == NumberAhead
    requires st.lastCommand.Some? && IsCurveCommand(st.lastCommand.value)
    ensures PathStep(startX, startY, st, parseFloat)
            == Dispatch(startX, startY, st.lastCommand.value, st.remaining, st.x, st.y, parseFloat)
  {
    assert !RepeatsClose(st);
  }

  /** A command letter read by the loop dispatches on the input after it. */
  lemma ReadCurveDispatch(startX: real, startY: real, st: LoopState, c: char, rest: string,
                          parseFloat: string -> Option<real>)
    requires ReadLetterSpec(st.remaining) == (Command(c), rest)
    ensures PathStep(startX, startY, st, parseFloat) == Dispatch(startX, startY, c, rest, st.x, st.y, parseFloat)
  {
    assert !RepeatsClose(st);
  }

  /** Finding: as written, "M0,0z1" leaves the loop in the same state forever. */
  lemma CloseThenNumberLoopsForever(parseFloat: string -> Option<real>)
    ensures var st := LoopState("1", 0.0, 0.0, Some('z'));
      StepAsWritten(0.0, 0.0, st, parseFloat) == Continue(st)
  {
    var st := LoopState("1", 0.0, 0.0, Some('z'));
    assert PrefixLength(st.remaining, Whitespace) == 0;
  }

  /** As written, every state that repeats a closepath is a fixed point of the loop. */
  lemma RepeatedCloseIsFixedPoint(startX: real, startY: real, st: LoopState,
                                  parseFloat: string -> Option<real>)
    requires RepeatsClose(st)
    ensures var next := st.(x := startX, y := startY);
      && StepAsWritten(startX, startY, st, parseFloat) == Continue(next)
      && RepeatsClose(next)
      && StepAsWritten(startX, startY, next, parseFloat) == Continue(next)
  {
  }

  /** With the correction, the same input is rejected instead. */
  lemma CloseThenNumberRejected(parseFloat: string -> Option<real>)
    ensures PathSpec("M0,0z1", parseFloat) == Failure(IllegalArgument)
  {
    CommandAt("M0,0z1", 0);
    assert "M0,0z1"[1..] == "0,0z1";
    ZeroPairRead(parseFloat);
    var move := ReadNumbers("0,0z1", 2, parseFloat);
    if move.Success? {
      CloseThenNumberFromZ(move.value.0[0], move.value.0[1], parseFloat);
    }
  }

  /** The pair "0,0" of "M0,0z1" leaves "z1" when it parses. */
  lemma ZeroPairRead(parseFloat: string -> Option<real>)
    ensures var move := ReadNumbers("0,0z1", 2, parseFloat);
      move.Success? ==> move.value.1 == "z1"
  {
    ZeroTokenRead("0,0z1", 0, parseFloat);
    ZeroTokenRead(",0z1", 1, parseFloat);
    if parseFloat("0").None? {
      ReadNumbersFirstFails("0,0z1", 1, parseFloat);
    } else {
      ReadNumbersAfterFirst(",0z1", 0, parseFloat);
      ReadNumbersAfterFirst("0,0z1", 1, parseFloat);
    }
  }

  /** A "0" at index start, after separators only and before a non-digit, is read and consumed. */
  lemma ZeroTokenRead(s: string, start: nat, parseFloat: string -> Option<real>)
    requires start + 1 < |s| && s[start] == '0' && !ContinuesNumber(s[start + 1])
    requires forall i :: 0 <= i < start ==> IsSeparator(s[i])
    ensures ReadNumberSpec(s, parseFloat).1 == s[start + 1..]
    ensures ReadNumberSpec(s, parseFloat).0.Success? <==> parseFloat("0").Some?
  {
    assert !IsSeparator(s[start]);
    TokenBoundsUnique(s, start, start + 1);
    assert s[start..start + 1] == "0";
  }

  /** The loop on "z1" after the M pair: z returns to the start, then the bare 1 is rejected. */
  lemma CloseThenNumberFromZ(x: real, y: real, parseFloat: string -> Option<real>)
    ensures RunCommands(x, y, LoopState("z1", x, y, None), parseFloat) == Failure(IllegalArgument)
  {
    CommandAt("z1", 0);
    assert "z1"[1..] == "1";
    var next := LoopState("1", x, y, Some('z'));
    assert PathStep(x, y, LoopState("z1", x, y, None), parseFloat) == Continue(next);
    PrefixLengthUnique("1", Whitespace, 0);
    assert RepeatsClose(next);
  }

  /** At the end of the path the stroke ends on the current point. */
  lemma EndOfLineEndsAtCurrentPoint(startX: real, startY: real, st: LoopState,
                                    parseFloat: string -> Option<real>)
    requires forall i :: 0 <= i < |st.remaining| ==> IsWhitespace(st.remaining[i])
    ensures RunCommands(startX, startY, st, parseFloat) == Success(InputStroke(startX, startY, st.x, st.y))
  {
  }

  /**
   * A curve letter read by the loop: c/s move the point by the last of the
   * numbers that follow, C/S move it to that pair, and a missing or
   * malformed number throws.
   */
  lemma CurveCommandStep(startX: real, startY: real, st: LoopState, c: char, k: nat,
                         parseFloat: string -> Option<real>)
    requires ReadLetterSpec(st.remaining).0 == Command(c)
    requires ((c == 'c' || c == 'C') && k == 6) || ((c == 's' || c == 'S') && k == 4)
    ensures var read := ReadNumbers(ReadLetterSpec(st.remaining).1, k, parseFloat);
      var step := PathStep(startX, startY, st, parseFloat);
      && (read.Failure? ==> step == Fail(IllegalArgument))
      && (read.Success? && (c == 'c' || c == 's') ==>
            step == Continue(LoopState(read.value.1, st.x + read.value.0[k - 2], st.y + read.value.0[k - 1], Some(c))))
      && (read.Success? && (c == 'C' || c == 'S') ==>
            step == Continue(LoopState(read.value.1, read.value.0[k - 2], read.value.0[k - 1], Some(c))))
  {
    DispatchCurve(startX, startY, c, ReadLetterSpec(st.remaining).1, st.x, st.y, parseFloat, k);
  }

  /**
   * readNumber consumes the token TokenBounds finds (even when it does not
   * parse) and throws at end of input; its value is the parser's.
   */
  lemma ReadNumberToken(s: string, parseFloat: string -> Option<real>)
    ensures var r := ReadNumberSpec(s, parseFloat);
      && (TokenBounds(s) == None ==> r == (Failure(IllegalArgument), s))
      && (TokenBounds(s).Some? ==>
            var token := s[TokenBounds(s).value.0..TokenBounds(s).value.1];
            && r.1 == s[TokenBounds(s).value.1..]
            && (r.0.Success? <==> parseFloat(token).Some?)
            && (r.0.Success? ==> r.0.value == parseFloat(token).value))
  {
  }
}
