/** What the scanner answered on a prefix, against what it answers on every extension of it. */
module WorkerStreaming {
  import opened Wrappers
  import opened WorkerSource

  // ---------- characters and words that are not cut off ----------

  lemma PairStable(p: seq<Unit>, x: seq<Unit>, i: nat, a: Unit, b: Unit)
    requires i < |p|
    ensures Pair(p, i, a, b) ==> Pair(p + x, i, a, b)
    ensures Pair(p + x, i, a, b) ==> Pair(p, i, a, b) || (i + 1 == |p| && p[i] == a)
  {
  }

  lemma WordStable(p: seq<Unit>, x: seq<Unit>, word: seq<Unit>, i: nat)
    requires i < |p|
    ensures StartsWith(p, word, i) ==> StartsWith(p + x, word, i)
    ensures StartsWith(p + x, word, i) ==> StartsWith(p, word, i) || p[i..] <= word
  {
    if i + |word| <= |p| {
      assert (p + x)[i..i + |word|] == p[i..i + |word|];
    } else if StartsWith(p + x, word, i) {
      assert p[i..] == (p + x)[i..i + |word|][..|p| - i];
    }
  }

  lemma SingleLineStable(p: seq<Unit>, x: seq<Unit>, i: nat, lineStart: bool)
    requires i < |p|
    ensures SingleLine(p, i, lineStart) ==> SingleLine(p + x, i, lineStart)
    ensures SingleLine(p + x, i, lineStart) ==> SingleLine(p, i, lineStart) || CutTrivia(p, i, lineStart)
  {
    hide StartsWith, Pair;
    PairStable(p, x, i, HASH, BANG);
    PairStable(p, x, i, SLASH, SLASH);
    WordStable(p, x, OPEN_HTML, i);
    WordStable(p, x, CLOSE_HTML, i);
  }

  lemma {:induction false} LineEndStable(p: seq<Unit>, x: seq<Unit>, i: nat)
    requires i <= |p| && LineEnd(p, i) < |p|
    ensures LineEnd(p + x, i) == LineEnd(p, i)
    decreases |p| - i
  {
    if i < |p| && !IsLineBreak(p[i]) { LineEndStable(p, x, i + 1); }
  }

  lemma {:induction false} CommentEndStable(p: seq<Unit>, x: seq<Unit>, i: nat)
    requires CommentEnd(p, i).Some?
    ensures CommentEnd(p + x, i) == CommentEnd(p, i)
    decreases |p| - i
  {
    if !Pair(p, i, STAR, SLASH) {
      PairStable(p, x, i, STAR, SLASH);
      CommentEndStable(p, x, i + 1);
    }
  }

  lemma HasBreakStable(p: seq<Unit>, x: seq<Unit>, a: nat, b: nat)
    requires b <= |p|
    ensures HasBreak(p + x, a, b) == HasBreak(p, a, b)
  {
    if HasBreak(p, a, b) {
      var k :| a <= k < b && IsLineBreak(p[k]);
      assert IsLineBreak((p + x)[k]);
    }
    if HasBreak(p + x, a, b) {
      var k :| a <= k < b && IsLineBreak((p + x)[k]);
      assert IsLineBreak(p[k]);
    }
  }

  // ---------- trivia ----------

  /** Trivia that ended before the end of the prefix ends there in every extension. */
  lemma {:induction false} SkipStable(p: seq<Unit>, x: seq<Unit>, e: bool, i: nat, newline: bool, lineStart: bool)
    requires i <= |p| && SkipFrom(p, false, i, newline, lineStart).At?
    ensures SkipFrom(p + x, e, i, newline, lineStart) == SkipFrom(p, false, i, newline, lineStart)
    decreases |p| - i
  {
    hide SingleLine, CutTrivia, Pair, HasBreak, IsBlank, CommentEnd, LineEnd;
    SingleLineStable(p, x, i, lineStart);
    PairStable(p, x, i, SLASH, STAR);
    if IsBlank(p[i]) {
      SkipStable(p, x, e, i + 1, newline || IsLineBreak(p[i]), lineStart || IsLineBreak(p[i]));
    } else if SingleLine(p, i, lineStart) {
      OpenerIsNoBreak(p, i, lineStart);
      LineEndStable(p, x, i);
      SkipStable(p, x, e, LineEnd(p, i), newline, lineStart);
    } else if Pair(p, i, SLASH, STAR) {
      var end := CommentEnd(p, i + 2).value;
      PairInside(p, end);
      CommentIsWhole(p, i, lineStart);
      CommentEndStable(p, x, i + 2);
      HasBreakStable(p, x, i + 2, end);
      SkipStable(p, x, e, end + 2, newline || HasBreak(p, i + 2, end), lineStart || HasBreak(p, i + 2, end));
    } else {
      CutSlash(p, i, lineStart);
      if CutTrivia(p + x, i, lineStart) { CutTriviaBack(p, x, i, lineStart); }
    }
  }

  lemma CutTriviaBack(p: seq<Unit>, x: seq<Unit>, i: nat, lineStart: bool)
    requires i < |p| && CutTrivia(p + x, i, lineStart)
    ensures CutTrivia(p, i, lineStart)
  {
    CutBack(p, x, i);
    if (p + x)[i..] <= OPEN_HTML { PrefixBack(p[i..], (p + x)[i..], OPEN_HTML); }
    if (p + x)[i..] <= CLOSE_HTML { PrefixBack(p[i..], (p + x)[i..], CLOSE_HTML); }
  }

  lemma CutBack(p: seq<Unit>, x: seq<Unit>, i: nat)
    requires i < |p|
    ensures p[i..] <= (p + x)[i..] && |(p + x)[i..]| == |p[i..]| + |x|
  {
    assert (p + x)[i..] == p[i..] + x;
  }

  lemma PrefixBack(a: seq<Unit>, b: seq<Unit>, c: seq<Unit>)
    requires a <= b <= c
    ensures a <= c
  {
  }

  lemma CommentIsWhole(p: seq<Unit>, i: nat, lineStart: bool)
    requires i < |p| && Pair(p, i, SLASH, STAR)
    ensures !CutTrivia(p, i, lineStart)
  {
    assert p[i..][0] == SLASH;
  }

  lemma PairInside(p: seq<Unit>, i: nat)
    ensures Pair(p, i, STAR, SLASH) ==> i + 2 <= |p|
  {
  }

  lemma CutSlash(p: seq<Unit>, i: nat, lineStart: bool)
    requires i < |p|
    ensures i + 1 == |p| && p[i] == SLASH ==> CutTrivia(p, i, lineStart)
  {
  }

  lemma TriviaStable(p: seq<Unit>, x: seq<Unit>, e: bool, start: nat)
    requires start <= |p| && Skip(p, false, start).At?
    ensures Skip(p + x, e, start) == Skip(p, false, start)
    ensures Skip(p, false, start).index < |p|
  {
    SkipStable(p, x, e, start, false, start == 0 || IsLineBreak(p[start - 1]));
  }

  // ---------- literals ----------

  /** The literal is decided: it ended, or it broke a rule. */
  predicate Decided(r: Literal) { r.End? || (r.Stop? && r.outcome.Invalid?) }

  lemma {:induction false} HexRunStable(p: seq<Unit>, x: seq<Unit>, e: bool, i: nat, n: nat)
    requires Decided(HexRun(p, false, i, n))
    ensures HexRun(p + x, e, i, n) == HexRun(p, false, i, n)
    decreases n
  {
    if n > 0 && IsHexDigit(p[i]) { HexRunStable(p, x, e, i + 1, n - 1); }
  }

  lemma {:induction false} HexEndStable(p: seq<Unit>, x: seq<Unit>, i: nat)
    requires i <= |p| && HexEnd(p, i) < |p|
    ensures HexEnd(p + x, i) == HexEnd(p, i)
    decreases |p| - i
  {
    if i < |p| && IsHexDigit(p[i]) { HexEndStable(p, x, i + 1); }
  }

  lemma BracedStable(p: seq<Unit>, x: seq<Unit>, e: bool, i: nat)
    requires i <= |p| && Decided(Braced(p, false, i))
    ensures Braced(p + x, e, i) == Braced(p, false, i)
  {
    hide HexNumber, HexEnd;
    HexEndStable(p, x, i);
    var end := HexEnd(p, i);
    assert (p + x)[i..end] == p[i..end];
  }

  /** An escape is decided once its end lies inside the prefix: a carriage return waits for one
      more character. */
  lemma EscapeStable(p: seq<Unit>, x: seq<Unit>, e: bool, i: nat)
    requires i <= |p| && Decided(Escape(p, false, i))
    requires Escape(p, false, i).End? ==> Escape(p, false, i).index < |p|
    ensures Escape(p + x, e, i) == Escape(p, false, i)
  {
    hide HexRun, Braced, Pair;
    PairStable(p, x, i, CR, LF);
    if p[i] == 'x' as int {
      HexRunStable(p, x, e, i + 1, 2);
    } else if p[i] == 'u' as int {
      if i + 1 < |p| && p[i + 1] == '{' as int {
        BracedStable(p, x, e, i + 2);
      } else {
        NoRoom(p, i + 1);
        HexRunStable(p, x, e, i + 1, 4);
      }
    }
  }

  lemma NoRoom(p: seq<Unit>, i: nat)
    ensures i >= |p| ==> !Decided(HexRun(p, false, i, 4))
  {
  }

  lemma {:induction false} BodyStable(p: seq<Unit>, x: seq<Unit>, e: bool, quote: Unit, i: nat)
    requires i <= |p| && Decided(BodyFrom(p, false, quote, i))
    ensures BodyFrom(p + x, e, quote, i) == BodyFrom(p, false, quote, i)
    decreases |p| - i
  {
    hide Escape;
    if p[i] == quote || p[i] == LF || p[i] == CR {
    } else if p[i] != BACKSLASH {
      BodyStable(p, x, e, quote, i + 1);
    } else {
      var escape := Escape(p, false, i + 1);
      EscapeStable(p, x, e, i + 1);
      if escape.End? { BodyStable(p, x, e, quote, escape.index); }
    }
  }

  lemma LiteralStable(p: seq<Unit>, x: seq<Unit>, e: bool, start: nat)
    requires start < |p| && (Decided(ReadLiteral(p, false, start)) || ReadLiteral(p, false, start).NotLiteral?)
    ensures ReadLiteral(p + x, e, start) == ReadLiteral(p, false, start)
  {
    hide BodyFrom;
    if IsQuote(p[start]) { BodyStable(p, x, e, p[start], start + 1); }
  }

  // ---------- the token after a literal ----------

  /** A continuation that the extension turns into something else: an arrow, an increment, or a
      longer word. */
  predicate Spoils(p: seq<Unit>, x: seq<Unit>, i: nat, newline: bool)
    requires i < |p|
  {
    || (p[i..] == [EQUALS] && [GREATER] <= x)
    || (!newline && p[i..] == [PLUS] && [PLUS] <= x)
    || (!newline && p[i..] == [MINUS] && [MINUS] <= x)
    || (!newline && (p[i..] == IN || p[i..] == INSTANCEOF) && !Keyword(p + x, i))
  }

  /** A cut keyword, seen as another word: the extension may still complete it. */
  predicate Completes(p: seq<Unit>, x: seq<Unit>, i: nat, newline: bool)
    requires i < |p|
  {
    !newline && p[i..] < INSTANCEOF && p[i..] != IN && Keyword(p + x, i)
  }

  lemma KeywordStable(p: seq<Unit>, x: seq<Unit>, i: nat)
    requires i < |p| && !(p[i..] <= INSTANCEOF)
    ensures Keyword(p + x, i) <==> Keyword(p, i)
  {
    hide StartsWith, IsIdentifierPart;
    assert IN <= INSTANCEOF;
    WordEnd(p, i, INSTANCEOF);
    WordEnd(p, i, IN);
    WordStable(p, x, INSTANCEOF, i);
    WordStable(p, x, IN, i);
    PrefixOfKeyword(p[i..]);
  }

  lemma PrefixOfKeyword(rest: seq<Unit>)
    ensures rest <= IN ==> rest <= INSTANCEOF
  {
  }

  lemma WordEnd(p: seq<Unit>, i: nat, word: seq<Unit>)
    requires i < |p|
    ensures StartsWith(p, word, i) ==> i + |word| <= |p|
    ensures StartsWith(p, word, i) && i + |word| == |p| ==> p[i..] == word
  {
  }

  /** A proper prefix of the longer keyword is no keyword by itself, unless it is the shorter one. */
  lemma CutKeyword(p: seq<Unit>, i: nat)
    requires i < |p| && p[i..] <= INSTANCEOF
    ensures Keyword(p, i) <==> p[i..] == IN || p[i..] == INSTANCEOF
    ensures !IsOperator(p[i]) && p[i] == INSTANCEOF[0]
  {
    var rest := p[i..];
    assert p[i] == rest[0];
    if rest == IN || rest == INSTANCEOF {
      assert p[i..i + |rest|] == rest;
    } else {
      if StartsWith(p, IN, i) { assert p[i + 2] == rest[2] == INSTANCEOF[2]; }
    }
  }

  lemma LastUnit(p: seq<Unit>, x: seq<Unit>, i: nat, b: Unit)
    requires i + 1 == |p|
    ensures p[i..] == [p[i]]
    ensures i + 1 < |p + x| && (p + x)[i + 1] == b <==> [b] <= x
  {
  }

  /** Classification on the prefix and on its extension, seen through what the statement does with it. */
  lemma ClassifyStable(p: seq<Unit>, x: seq<Unit>, i: nat, newline: bool, end: nat)
    requires i < |p| && !(newline && CutToken(p[i..])) && p[i..] != [BANG]
    ensures var c, d := Conclude(end, Classify(p, i, newline)), Conclude(end, Classify(p + x, i, newline));
            && (Spoils(p, x, i, newline) ==> c == NoStatement && d == Broken(Invalid(InvalidSyntax)))
            && (Completes(p, x, i, newline) ==> c == Broken(Invalid(InvalidSyntax)) && d == NoStatement)
            && (!Spoils(p, x, i, newline) && !Completes(p, x, i, newline) ==> d == c)
  {
    hide Keyword;
    if p[i..] <= INSTANCEOF {
      CutKeyword(p, i);
    } else {
      KeywordStable(p, x, i);
    }
    if i + 1 == |p| {
      LastUnit(p, x, i, PLUS);
      LastUnit(p, x, i, MINUS);
      LastUnit(p, x, i, GREATER);
    }
  }

  lemma TokenStable(p: seq<Unit>, x: seq<Unit>, e: bool, i: nat, newline: bool, end: nat)
    requires i < |p| && TokenAt(p, false, i, newline) != NoToken(Pending)
    ensures var c := Conclude(end, TokenAt(p, false, i, newline));
            var d := Conclude(end, TokenAt(p + x, e, i, newline));
            && (Spoils(p, x, i, newline) ==> c == NoStatement && d == Broken(Invalid(InvalidSyntax)))
            && (Completes(p, x, i, newline) ==> c == Broken(Invalid(InvalidSyntax)) && d == NoStatement)
            && (!Spoils(p, x, i, newline) && !Completes(p, x, i, newline) ==> d == c)
  {
    hide Classify, Keyword;
    CutBack(p, x, i);
    if (p + x)[i..] <= INSTANCEOF { PrefixBack(p[i..], (p + x)[i..], INSTANCEOF); }
    RestHead(p, i);
    if p[i] != ';' as int && p[i] != '}' as int && !IsUnsupported(p[i]) { ClassifyStable(p, x, i, newline, end); }
  }

  lemma RestHead(p: seq<Unit>, i: nat)
    requires i < |p|
    ensures p[i..][0] == p[i]
  {
  }

  // ---------- statements ----------

  /** The token right after the literal that starts at `start`, in the prefix. */
  function TokenStart(p: seq<Unit>, start: nat): (r: Trivia)
    requires start < |p|
    ensures r.At? ==> r.index < |p|
  {
    var literal := ReadLiteral(p, false, start);
    if literal.End? then Skip(p, false, literal.index) else Halt(Pending)
  }

  predicate SpoilsAt(p: seq<Unit>, x: seq<Unit>, start: nat)
    requires start < |p|
  {
    var next := TokenStart(p, start);
    next.At? && Spoils(p, x, next.index, next.newline)
  }

  predicate CompletesAt(p: seq<Unit>, x: seq<Unit>, start: nat)
    requires start < |p|
  {
    var next := TokenStart(p, start);
    next.At? && Completes(p, x, next.index, next.newline)
  }

  lemma StatementStable(p: seq<Unit>, x: seq<Unit>, e: bool, start: nat)
    requires start < |p| && ExpressionStatement(p, false, start) != Broken(Pending)
    ensures var c, d := ExpressionStatement(p, false, start), ExpressionStatement(p + x, e, start);
            && (SpoilsAt(p, x, start) ==> c == NoStatement && d == Broken(Invalid(InvalidSyntax)) && IsQuote(p[start]))
            && (CompletesAt(p, x, start) ==>
                  c == Broken(Invalid(InvalidSyntax)) && d == NoStatement && IsQuote(p[start]))
            && (!SpoilsAt(p, x, start) && !CompletesAt(p, x, start) ==> d == c)
  {
    hide Spoils, Completes, TokenAt, Skip, ReadLiteral, IsQuote;
    LiteralStable(p, x, e, start);
    var literal := ReadLiteral(p, false, start);
    if literal.End? {
      var next := Skip(p, false, literal.index);
      TriviaStable(p, x, e, literal.index);
      TokenStable(p, x, e, next.index, next.newline, literal.index);
    }
  }

  // ---------- the whole scan ----------

  /** Where the scan from `index` stopped looking: the start of the last statement it met. */
  function LastStart(p: seq<Unit>, index: nat): nat
    requires index <= |p|
    decreases |p| - index
  {
    var next := Skip(p, false, index);
    if next.Halt? then index
    else
      var statement := ExpressionStatement(p, false, next.index);
      if statement.Statement? then LastStart(p, statement.statementEnd) else next.index
  }

  lemma {:induction false} ParseStable(p: seq<Unit>, x: seq<Unit>, e: bool, index: nat)
    requires index <= |p| && ParseFrom(p, false, index) != Pending
    ensures LastStart(p, index) < |p|
    ensures var start := LastStart(p, index);
            var c, d := ParseFrom(p, false, index), ParseFrom(p + x, e, index);
            && (c.Ready? ==> c == Ready(start))
            && (SpoilsAt(p, x, start) ==> c == Ready(start) && d == Invalid(InvalidSyntax))
            && (CompletesAt(p, x, start) ==> c == Invalid(InvalidSyntax) && d == Ready(start))
            && (!SpoilsAt(p, x, start) && !CompletesAt(p, x, start) ==> d == c)
    decreases |p| - index
  {
    hide Skip, ExpressionStatement, SpoilsAt, CompletesAt;
    TriviaStable(p, x, e, index);
    var next := Skip(p, false, index);
    StatementStable(p, x, e, next.index);
    var statement := ExpressionStatement(p, false, next.index);
    if statement.Statement? { ParseStable(p, x, e, statement.statementEnd); }
  }

  /** An answer "ready" on a prefix is the answer on every extension, with either `eof`, unless
      the extension spoils the token it was based on; then the answer is "invalid". It is never
      pending again and never another offset. */
  lemma ReadyStays(p: seq<Unit>, x: seq<Unit>, e: bool)
    requires Parse(p, false).Ready?
    ensures Parse(p, false).offset < |p|
    ensures Parse(p + x, e)
         == if SpoilsAt(p, x, Parse(p, false).offset) then Invalid(InvalidSyntax) else Parse(p, false)
  {
    hide SpoilsAt, CompletesAt, ParseFrom;
    ParseStable(p, x, e, 0);
  }

  /** The empty extension spoils nothing. */
  lemma NothingSpoils(p: seq<Unit>, start: nat)
    requires start < |p|
    ensures !SpoilsAt(p, [], start)
  {
    hide Skip, ReadLiteral, Keyword;
    var next := TokenStart(p, start);
    assert p + [] == p;
    if next.At? { WholeKeyword(p, next.index); }
  }

  lemma WholeKeyword(p: seq<Unit>, i: nat)
    requires i < |p|
    ensures p[i..] == IN || p[i..] == INSTANCEOF ==> Keyword(p, i)
  {
    if p[i..] <= INSTANCEOF { CutKeyword(p, i); }
    assert IN <= INSTANCEOF;
  }

  /** An answer "invalid" on a prefix is final, with its reason, unless the source was cut inside a
      keyword and the extension completes it; then the answer is "ready". */
  lemma InvalidStays(p: seq<Unit>, x: seq<Unit>, e: bool)
    requires Parse(p, false).Invalid?
    ensures LastStart(p, 0) < |p|
    ensures Parse(p + x, e)
         == if CompletesAt(p, x, LastStart(p, 0)) then Ready(LastStart(p, 0)) else Parse(p, false)
  {
    hide SpoilsAt, CompletesAt, ParseFrom, LastStart;
    ParseStable(p, x, e, 0);
  }

  /** The last call always decides. */
  lemma {:induction false} EndDecides(s: seq<Unit>, index: nat)
    requires index <= |s|
    ensures ParseFrom(s, true, index) != Pending
    decreases |s| - index
  {
    hide Skip, ExpressionStatement;
    var next := Skip(s, true, index);
    if next.At? && next.index < |s| {
      var statement := ExpressionStatement(s, true, next.index);
      if statement.Statement? { EndDecides(s, statement.statementEnd); }
    }
  }

  // ---------- an early "invalid" that a longer source takes back ----------

  /** `'a' i`, and then `n x`. */
  lemma InvalidTakenBack()
    ensures Parse([39, 97, 39, 32, 105], false) == Invalid(InvalidSyntax)
    ensures Parse([39, 97, 39, 32, 105] + [110, 32, 120], true) == Ready(0)
  {
    var p: seq<Unit>, x: seq<Unit> := [39, 97, 39, 32, 105], [110, 32, 120];
    assert Skip(p, false, 0) == At(0, false);
    assert BodyFrom(p, false, 39, 2) == End(3);
    assert ReadLiteral(p, false, 0) == End(3);
    assert SkipFrom(p, false, 4, false, false) == At(4, false);
    assert Skip(p, false, 3) == At(4, false);
    assert p[4..] == [105];
    CutKeyword(p, 4);
    assert ExpressionStatement(p, false, 0) == Broken(Invalid(InvalidSyntax));
    var t := p + x;
    assert t == [39, 97, 39, 32, 105, 110, 32, 120];
    assert t[4..6] == IN;
    assert Keyword(t, 4);
    assert CompletesAt(p, x, 0);
    assert LastStart(p, 0) == 0;
    InvalidStays(p, x, true);
  }
}
