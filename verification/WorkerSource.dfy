/** The scanner that finds where to insert code after a worker script's directive prologue. It is
    run again on every longer prefix of the script, with `eof` false until the last one.
    A source is a sequence of UTF-16 code units. */
module WorkerSource {
  import opened Wrappers

  type Unit = c: int | 0 <= c < 0x1_0000

  datatype Reason = UnterminatedComment | UnterminatedString | InvalidEscape | InvalidSyntax | UnsupportedSyntax

  datatype Outcome = Ready(offset: nat) | Pending | Invalid(reason: Reason)

  /** The result when the source ends too early. */
  function Short(eof: bool, reason: Reason): Outcome { if eof then Invalid(reason) else Pending }

  const IN: seq<Unit> := [105, 110]
  const INSTANCEOF: seq<Unit> := [105, 110, 115, 116, 97, 110, 99, 101, 111, 102]
  const OPEN_HTML: seq<Unit> := [60, 33, 45, 45]
  const CLOSE_HTML: seq<Unit> := [45, 45, 62]

  const SLASH: Unit := '/' as int
  const STAR: Unit := '*' as int
  const HASH: Unit := '#' as int
  const BANG: Unit := '!' as int
  const PLUS: Unit := '+' as int
  const MINUS: Unit := '-' as int
  const EQUALS: Unit := '=' as int
  const GREATER: Unit := '>' as int
  const BACKSLASH: Unit := '\\' as int
  const LF: Unit := 10
  const CR: Unit := 13
  const MARK: Unit := 0xFEFF

  predicate IsLineBreak(ch: Unit) { ch == LF || ch == CR || ch == 0x2028 || ch == 0x2029 }

  /** What trimming removes: white space and line ends. */
  predicate IsBlank(ch: Unit) {
    9 <= ch <= 13 || ch == 32 || ch == 0xA0 || ch == 0x1680 || 0x2000 <= ch <= 0x200A || ch == 0x2028 || ch == 0x2029
    || ch == 0x202F || ch == 0x205F || ch == 0x3000 || ch == MARK
  }

  predicate IsQuote(ch: Unit) { ch == '"' as int || ch == '\'' as int }

  predicate IsHexDigit(ch: Unit) { 48 <= ch <= 57 || 65 <= ch <= 70 || 97 <= ch <= 102 }

  function HexValue(ch: Unit): nat
    requires IsHexDigit(ch)
  {
    if ch <= 57 then ch - 48 else if ch <= 70 then ch - 55 else ch - 87
  }

  predicate IsUnsupported(ch: Unit) { ch == '@' as int || ch == HASH }

  predicate IsIdentifierPart(ch: Unit) {
    48 <= ch <= 57 || 65 <= ch <= 90 || 97 <= ch <= 122 || ch == '_' as int || ch == '$' as int || ch == BACKSLASH
    || ch >= 128
  }

  predicate StartsWith(s: seq<Unit>, p: seq<Unit>, at: nat) { at + |p| <= |s| && s[at..at + |p|] == p }

  predicate Pair(s: seq<Unit>, at: nat, a: Unit, b: Unit) { at + 1 < |s| && s[at] == a && s[at + 1] == b }

  // ---------- trivia ----------

  datatype Trivia = At(index: nat, newline: bool) | Halt(outcome: Outcome)

  /** Position 0, or 1 after a byte order mark: where a hashbang may stand. */
  predicate AtTop(s: seq<Unit>, i: nat) { i == 0 || (i == 1 && |s| > 0 && s[0] == MARK) }

  predicate SingleLine(s: seq<Unit>, i: nat, lineStart: bool) {
    (AtTop(s, i) && Pair(s, i, HASH, BANG)) || Pair(s, i, SLASH, SLASH)
    || (lineStart && (StartsWith(s, OPEN_HTML, i) || StartsWith(s, CLOSE_HTML, i)))
  }

  /** What is left could still become a comment. */
  predicate CutTrivia(s: seq<Unit>, i: nat, lineStart: bool)
    requires i < |s|
  {
    (s[i] == SLASH && i + 1 == |s|)
    || (lineStart && (s[i..] <= OPEN_HTML || s[i..] <= CLOSE_HTML))
    || (AtTop(s, i) && s[i] == HASH && i + 1 == |s|)
  }

  lemma OpenerIsNoBreak(p: seq<Unit>, i: nat, lineStart: bool)
    requires i < |p| && SingleLine(p, i, lineStart)
    ensures !IsLineBreak(p[i])
  {
    if StartsWith(p, OPEN_HTML, i) { assert p[i..i + 4][0] == OPEN_HTML[0]; }
    if StartsWith(p, CLOSE_HTML, i) { assert p[i..i + 3][0] == CLOSE_HTML[0]; }
  }

  function LineEnd(s: seq<Unit>, i: nat): (e: nat)
    requires i <= |s|
    ensures i <= e <= |s| && (e < |s| ==> IsLineBreak(s[e]))
    ensures i < |s| && !IsLineBreak(s[i]) ==> i < e
    ensures forall k :: i <= k < e ==> !IsLineBreak(s[k])
    decreases |s| - i
  {
    if i == |s| || IsLineBreak(s[i]) then i else LineEnd(s, i + 1)
  }

  /** The first star-slash from `i` on. */
  function CommentEnd(s: seq<Unit>, i: nat): (e: Option<nat>)
    ensures e.Some? ==> i <= e.value && Pair(s, e.value, STAR, SLASH)
    ensures e.Some? ==> forall k :: i <= k < e.value ==> !Pair(s, k, STAR, SLASH)
    decreases |s| - i
  {
    if i + 1 >= |s| then None else if Pair(s, i, STAR, SLASH) then Some(i) else CommentEnd(s, i + 1)
  }

  predicate HasBreak(s: seq<Unit>, a: nat, b: nat)
    requires b <= |s|
  {
    exists k :: a <= k < b && IsLineBreak(s[k])
  }

  function SkipFrom(s: seq<Unit>, eof: bool, i: nat, newline: bool, lineStart: bool): (r: Trivia)
    requires i <= |s|
    ensures r.At? ==> i <= r.index <= |s| && (r.index == |s| ==> eof)
    ensures r.At? && r.index < |s| ==> !IsBlank(s[r.index])
    decreases |s| - i
  {
    if i == |s| then if eof then At(i, newline) else Halt(Pending)
    else if IsBlank(s[i]) then SkipFrom(s, eof, i + 1, newline || IsLineBreak(s[i]), lineStart || IsLineBreak(s[i]))
    else if SingleLine(s, i, lineStart) then SkipFrom(s, eof, LineEnd(s, i), newline, lineStart)
    else if Pair(s, i, SLASH, STAR) then
      match CommentEnd(s, i + 2)
      case None => Halt(Short(eof, UnterminatedComment))
      case Some(e) => SkipFrom(s, eof, e + 2, newline || HasBreak(s, i + 2, e), lineStart || HasBreak(s, i + 2, e))
    else if !eof && CutTrivia(s, i, lineStart) then Halt(Pending)
    else At(i, newline)
  }

  function Skip(s: seq<Unit>, eof: bool, start: nat): (r: Trivia)
    requires start <= |s|
    ensures r.At? ==> start <= r.index <= |s| && (r.index == |s| ==> eof)
    ensures r.Halt? ==> r.outcome == if eof then Invalid(UnterminatedComment) else Pending
  {
    SkipOutcome(s, eof, start, false, start == 0 || IsLineBreak(s[start - 1]));
    SkipFrom(s, eof, start, false, start == 0 || IsLineBreak(s[start - 1]))
  }

  lemma {:induction false} SkipOutcome(s: seq<Unit>, eof: bool, i: nat, newline: bool, lineStart: bool)
    requires i <= |s|
    ensures var r := SkipFrom(s, eof, i, newline, lineStart);
            r.Halt? ==> r.outcome == if eof then Invalid(UnterminatedComment) else Pending
    decreases |s| - i
  {
    if i == |s| {
    } else if IsBlank(s[i]) {
      SkipOutcome(s, eof, i + 1, newline || IsLineBreak(s[i]), lineStart || IsLineBreak(s[i]));
    } else if SingleLine(s, i, lineStart) {
      SkipOutcome(s, eof, LineEnd(s, i), newline, lineStart);
    } else if Pair(s, i, SLASH, STAR) && CommentEnd(s, i + 2).Some? {
      var e := CommentEnd(s, i + 2).value;
      SkipOutcome(s, eof, e + 2, newline || HasBreak(s, i + 2, e), lineStart || HasBreak(s, i + 2, e));
    }
  }

  // ---------- string literals ----------

  datatype Literal = NotLiteral | End(index: nat) | Stop(outcome: Outcome)

  function HexRun(s: seq<Unit>, eof: bool, i: nat, n: nat): (r: Literal)
    ensures r.End? ==> r.index == i + n && (n > 0 ==> r.index <= |s|)
    ensures r.Stop? ==> !r.outcome.Ready? && (eof ==> r.outcome.Invalid?)
    ensures !r.NotLiteral?
    decreases n
  {
    if n == 0 then End(i)
    else if i >= |s| then Stop(Short(eof, InvalidEscape))
    else if !IsHexDigit(s[i]) then Stop(Invalid(InvalidEscape))
    else HexRun(s, eof, i + 1, n - 1)
  }

  function HexEnd(s: seq<Unit>, i: nat): (e: nat)
    requires i <= |s|
    ensures i <= e <= |s| && (e < |s| ==> !IsHexDigit(s[e]))
    ensures forall k :: i <= k < e ==> IsHexDigit(s[k])
    decreases |s| - i
  {
    if i == |s| || !IsHexDigit(s[i]) then i else HexEnd(s, i + 1)
  }

  function HexNumber(s: seq<Unit>): nat
    requires forall k :: 0 <= k < |s| ==> IsHexDigit(s[k])
  {
    if |s| == 0 then 0 else HexNumber(s[..|s| - 1]) * 16 + HexValue(s[|s| - 1])
  }

  /** The code point escape whose digits start at `i`. */
  function Braced(s: seq<Unit>, eof: bool, i: nat): (r: Literal)
    requires i <= |s|
    ensures r.End? ==> i < r.index <= |s|
    ensures r.Stop? ==> !r.outcome.Ready? && (eof ==> r.outcome.Invalid?)
    ensures !r.NotLiteral?
  {
    var e := HexEnd(s, i);
    if e == |s| then Stop(Short(eof, InvalidEscape))
    else if s[e] != '}' as int || e == i || e - i > 6 || HexNumber(s[i..e]) > 0x10FFFF then Stop(Invalid(InvalidEscape))
    else End(e + 1)
  }

  /** The escape whose backslash stands just before `e`. */
  function Escape(s: seq<Unit>, eof: bool, e: nat): (r: Literal)
    requires e <= |s|
    ensures r.End? ==> e < r.index <= |s|
    ensures r.Stop? ==> !r.outcome.Ready? && (eof ==> r.outcome.Invalid?)
    ensures !r.NotLiteral?
  {
    if e == |s| then Stop(Short(eof, UnterminatedString))
    else if s[e] == 'x' as int then HexRun(s, eof, e + 1, 2)
    else if s[e] == 'u' as int then
      if e + 1 < |s| && s[e + 1] == '{' as int then Braced(s, eof, e + 2) else HexRun(s, eof, e + 1, 4)
    else if IsLineBreak(s[e]) && Pair(s, e, CR, LF) then End(e + 2)
    else End(e + 1)
  }

  function BodyFrom(s: seq<Unit>, eof: bool, quote: Unit, i: nat): (r: Literal)
    requires i <= |s|
    ensures r.End? ==> i < r.index <= |s|
    ensures r.Stop? ==> !r.outcome.Ready? && (eof ==> r.outcome.Invalid?)
    ensures !r.NotLiteral?
    decreases |s| - i
  {
    if i == |s| then Stop(Short(eof, UnterminatedString))
    else if s[i] == quote then End(i + 1)
    else if s[i] == LF || s[i] == CR then Stop(Invalid(InvalidSyntax))
    else if s[i] != BACKSLASH then BodyFrom(s, eof, quote, i + 1)
    else
      var escape := Escape(s, eof, i + 1);
      if escape.End? then BodyFrom(s, eof, quote, escape.index) else escape
  }

  function ReadLiteral(s: seq<Unit>, eof: bool, start: nat): (r: Literal)
    requires start < |s|
    ensures r.End? ==> start + 1 < r.index <= |s|
    ensures r.Stop? ==> !r.outcome.Ready? && (eof ==> r.outcome.Invalid?)
    ensures r.NotLiteral? <==> !IsQuote(s[start])
  {
    if IsQuote(s[start]) then BodyFrom(s, eof, s[start], start + 1) else NotLiteral
  }

  // ---------- the token after a literal ----------

  datatype Kind = AtEnd | Semicolon | RightBrace | Continuation | Other

  datatype Token = Token(kind: Kind, index: nat, newline: bool) | NoToken(outcome: Outcome)

  /** The rest of the source could still become an operator or a keyword. */
  predicate CutToken(rest: seq<Unit>) {
    rest == [PLUS] || rest == [MINUS] || rest == [BANG] || rest <= INSTANCEOF
  }

  predicate KeywordAt(s: seq<Unit>, at: nat, keyword: seq<Unit>) {
    StartsWith(s, keyword, at) && (at + |keyword| < |s| ==> !IsIdentifierPart(s[at + |keyword|]))
  }

  predicate Keyword(s: seq<Unit>, at: nat) { KeywordAt(s, at, INSTANCEOF) || KeywordAt(s, at, IN) }

  /** The characters that continue the expression a literal begins: + - * / % < > = & | ^ ? . ( [ , ` */
  predicate IsOperator(ch: Unit) {
    ch == PLUS || ch == MINUS || ch == STAR || ch == SLASH || ch == '%' as int || ch == '<' as int || ch == GREATER
    || ch == EQUALS || ch == '&' as int || ch == '|' as int || ch == '^' as int || ch == '?' as int || ch == '.' as int
    || ch == '(' as int || ch == '[' as int || ch == ',' as int || ch == '`' as int
  }

  function Classify(s: seq<Unit>, i: nat, newline: bool): (t: Token)
    requires i < |s|
    ensures t.Token? ==> t.index == i && t.newline == newline && (t.kind == Continuation || t.kind == Other)
    ensures t.NoToken? ==> t.outcome == Invalid(InvalidSyntax)
  {
    if Pair(s, i, PLUS, PLUS) || Pair(s, i, MINUS, MINUS) then
      if newline then Token(Other, i, newline) else NoToken(Invalid(InvalidSyntax))
    else if s[i] == BANG then Token(if i + 1 < |s| && s[i + 1] == EQUALS then Continuation else Other, i, newline)
    else if Pair(s, i, EQUALS, GREATER) then NoToken(Invalid(InvalidSyntax))
    else Token(if IsOperator(s[i]) || Keyword(s, i) then Continuation else Other, i, newline)
  }

  function TokenAt(s: seq<Unit>, eof: bool, i: nat, newline: bool): (t: Token)
    requires i <= |s|
    ensures t.Token? ==> t.index == i
    ensures t.NoToken? ==> !t.outcome.Ready? && (eof ==> t.outcome.Invalid?)
  {
    if i == |s| then Token(AtEnd, i, newline)
    else if s[i] == ';' as int then Token(Semicolon, i, newline)
    else if s[i] == '}' as int then Token(RightBrace, i, newline)
    else if IsUnsupported(s[i]) then NoToken(Invalid(UnsupportedSyntax))
    else if !eof && newline && CutToken(s[i..]) then NoToken(Pending)
    else if !eof && s[i..] == [BANG] then NoToken(Pending)
    else Classify(s, i, newline)
  }

  function ScanAfterLiteral(s: seq<Unit>, eof: bool, start: nat): (t: Token)
    requires start <= |s|
    ensures t.Token? ==> start <= t.index <= |s| && (t.kind == Semicolon ==> t.index < |s|)
    ensures t.NoToken? ==> !t.outcome.Ready? && (eof ==> t.outcome.Invalid?)
  {
    var next := Skip(s, eof, start);
    if next.Halt? then NoToken(next.outcome) else TokenAt(s, eof, next.index, next.newline)
  }

  // ---------- statements ----------

  datatype Statement = NoStatement | Statement(literalEnd: nat, statementEnd: nat) | Broken(outcome: Outcome)

  /** What the token after a literal makes of it. */
  function Conclude(literalEnd: nat, token: Token): Statement {
    match token
    case NoToken(outcome) => Broken(outcome)
    case Token(Continuation, _, _) => NoStatement
    case Token(Semicolon, index, _) => Statement(literalEnd, index + 1)
    case Token(Other, _, newline) =>
      if newline then Statement(literalEnd, literalEnd) else Broken(Invalid(InvalidSyntax))
    case Token(_, _, _) => Statement(literalEnd, literalEnd)
  }

  function ExpressionStatement(s: seq<Unit>, eof: bool, start: nat): (r: Statement)
    requires start < |s|
    ensures r.Statement? ==> start + 1 < r.literalEnd <= r.statementEnd <= |s|
    ensures r.Broken? ==> !r.outcome.Ready? && (eof ==> r.outcome.Invalid?)
  {
    match ReadLiteral(s, eof, start)
    case NotLiteral => NoStatement
    case Stop(outcome) => Broken(outcome)
    case End(literalEnd) => Conclude(literalEnd, ScanAfterLiteral(s, eof, literalEnd))
  }

  // ---------- the scan ----------

  function ParseFrom(s: seq<Unit>, eof: bool, index: nat): (r: Outcome)
    requires index <= |s|
    decreases |s| - index
  {
    var next := Skip(s, eof, index);
    if next.Halt? then next.outcome
    else if next.index == |s| then Ready(next.index)
    else
      match ExpressionStatement(s, eof, next.index)
      case NoStatement => if IsUnsupported(s[next.index]) then Invalid(UnsupportedSyntax) else Ready(next.index)
      case Broken(outcome) => outcome
      case Statement(_, statementEnd) => ParseFrom(s, eof, statementEnd)
  }

  function Parse(s: seq<Unit>, eof: bool): Outcome { ParseFrom(s, eof, 0) }
}
