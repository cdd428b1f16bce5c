/** The scanner as it runs: loops over one index, each proved equal to its specification. */
module WorkerScanner {
  import opened Wrappers
  import opened WorkerSource

  method SkipTrivia(source: seq<Unit>, eof: bool, start: nat) returns (r: Trivia)
    requires start <= |source|
    ensures r == Skip(source, eof, start)
  {
    hide CommentEnd, LineEnd, SingleLine, CutTrivia, IsBlank, Pair;
    var index := start;
    var newline := false;
    var lineStart := start == 0 || IsLineBreak(source[start - 1]);
    while index < |source|
      invariant index <= |source|
      invariant SkipFrom(source, eof, index, newline, lineStart) == Skip(source, eof, start)
      decreases |source| - index
    {
      var ch := source[index];
      if IsBlank(ch) {
        if IsLineBreak(ch) { newline, lineStart := true, true; }
        index := index + 1;
      } else if SingleLine(source, index, lineStart) {
        OpenerIsNoBreak(source, index, lineStart);
        index := ToLineEnd(source, index);
      } else if Pair(source, index, SLASH, STAR) {
        var end := CommentEnd(source, index + 2);
        if end.None? { return Halt(Short(eof, UnterminatedComment)); }
        PairInside(source, end.value);
        var broken := FindBreak(source, index + 2, end.value);
        if broken { newline, lineStart := true, true; }
        index := end.value + 2;
      } else if !eof && CutTrivia(source, index, lineStart) {
        return Halt(Pending);
      } else {
        break;
      }
    }
    if !eof && index == |source| { return Halt(Pending); }
    r := At(index, newline);
  }

  lemma PairInside(s: seq<Unit>, i: nat)
    ensures Pair(s, i, STAR, SLASH) ==> i + 2 <= |s|
  {
  }

  method ToLineEnd(source: seq<Unit>, start: nat) returns (index: nat)
    requires start <= |source|
    ensures index == LineEnd(source, start)
  {
    index := start;
    while index < |source| && !IsLineBreak(source[index])
      invariant start <= index <= |source| && LineEnd(source, index) == LineEnd(source, start)
    {
      index := index + 1;
    }
  }

  method FindBreak(source: seq<Unit>, start: nat, end: nat) returns (found: bool)
    requires end <= |source|
    ensures found == HasBreak(source, start, end)
  {
    found := false;
    var cursor := start;
    while cursor < end
      invariant found == exists k :: start <= k < end && k < cursor && IsLineBreak(source[k])
      decreases end - cursor
    {
      if IsLineBreak(source[cursor]) { found := true; }
      cursor := cursor + 1;
    }
  }

  /** Exactly `n` hexadecimal digits from `start` on. */
  method HexDigitsAt(source: seq<Unit>, eof: bool, start: nat, n: nat) returns (r: Literal)
    ensures r == HexRun(source, eof, start, n)
  {
    var cursor := start;
    while cursor < start + n
      invariant start <= cursor <= start + n
      invariant HexRun(source, eof, cursor, start + n - cursor) == HexRun(source, eof, start, n)
    {
      if cursor >= |source| { return Stop(Short(eof, InvalidEscape)); }
      if !IsHexDigit(source[cursor]) { return Stop(Invalid(InvalidEscape)); }
      cursor := cursor + 1;
    }
    r := End(cursor);
  }

  method CodePointAt(source: seq<Unit>, eof: bool, start: nat) returns (r: Literal)
    requires start <= |source|
    ensures r == Braced(source, eof, start)
  {
    var cursor, digits, codePoint := start, 0, 0;
    while cursor < |source| && IsHexDigit(source[cursor])
      invariant start <= cursor <= |source| && digits == cursor - start
      invariant forall k :: start <= k < cursor ==> IsHexDigit(source[k])
      invariant HexEnd(source, cursor) == HexEnd(source, start) && codePoint == HexNumber(source[start..cursor])
    {
      assert source[start..cursor + 1][..cursor - start] == source[start..cursor];
      digits := digits + 1;
      codePoint := codePoint * 16 + HexValue(source[cursor]);
      cursor := cursor + 1;
    }
    if cursor == |source| { return Stop(Short(eof, InvalidEscape)); }
    if source[cursor] != '}' as int || digits == 0 || digits > 6 || codePoint > 0x10FFFF {
      return Stop(Invalid(InvalidEscape));
    }
    r := End(cursor + 1);
  }

  method ReadStringLiteral(source: seq<Unit>, eof: bool, start: nat) returns (r: Literal)
    requires start < |source|
    ensures r == ReadLiteral(source, eof, start)
  {
    hide HexRun, Braced;
    var quote := source[start];
    if !IsQuote(quote) { return NotLiteral; }
    var index := start + 1;
    while index < |source|
      invariant index <= |source|
      invariant BodyFrom(source, eof, quote, index) == BodyFrom(source, eof, quote, start + 1)
      decreases |source| - index
    {
      if source[index] == quote { return End(index + 1); }
      if source[index] == LF || source[index] == CR { return Stop(Invalid(InvalidSyntax)); }
      if source[index] != BACKSLASH {
        index := index + 1;
        continue;
      }
      var escapeIndex := index + 1;
      if escapeIndex == |source| { return Stop(Short(eof, UnterminatedString)); }
      var escaped := source[escapeIndex];
      if escaped == 'x' as int {
        var digits := HexDigitsAt(source, eof, escapeIndex + 1, 2);
        if digits.Stop? { return digits; }
        index := escapeIndex + 2;
      } else if escaped == 'u' as int {
        var brace := escapeIndex + 1;
        if brace < |source| && source[brace] == '{' as int {
          var point := CodePointAt(source, eof, brace + 1);
          if point.Stop? { return point; }
          index := point.index - 1;
        } else {
          var digits := HexDigitsAt(source, eof, brace, 4);
          if digits.Stop? { return digits; }
          index := brace + 3;
        }
      } else if IsLineBreak(escaped) {
        index := if Pair(source, escapeIndex, CR, LF) then escapeIndex + 1 else escapeIndex;
      } else {
        index := escapeIndex;
      }
      index := index + 1;
    }
    r := Stop(Short(eof, UnterminatedString));
  }

  /** The whole scan. It ends because every statement ends strictly after it starts. */
  method ParseWorkerSource(source: seq<Unit>, eof: bool) returns (r: Outcome)
    ensures r == Parse(source, eof)
  {
    hide Skip, ReadLiteral, ScanAfterLiteral, Conclude;
    var index := 0;
    while true
      invariant index <= |source| && ParseFrom(source, eof, index) == Parse(source, eof)
      decreases |source| - index
    {
      var next := SkipTrivia(source, eof, index);
      if next.Halt? { return next.outcome; }
      if next.index >= |source| { return Ready(next.index); }
      var literal := ReadStringLiteral(source, eof, next.index);
      if literal.NotLiteral? {
        return if IsUnsupported(source[next.index]) then Invalid(UnsupportedSyntax) else Ready(next.index);
      }
      if literal.Stop? { return literal.outcome; }
      var statement := Conclude(literal.index, ScanAfterLiteral(source, eof, literal.index));
      assert statement == ExpressionStatement(source, eof, next.index);
      if statement.NoStatement? {
        return if IsUnsupported(source[next.index]) then Invalid(UnsupportedSyntax) else Ready(next.index);
      }
      if statement.Broken? { return statement.outcome; }
      index := statement.statementEnd;
    }
  }
}
