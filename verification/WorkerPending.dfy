/** The answer "pending" is given only where the source, as far as it goes, leaves the answer open: two
    ways to go on are answered differently. The one exception is a code point escape that has
    too many digits already. */
module WorkerPending {
  import opened Wrappers
  import opened WorkerSource
  import opened WorkerStreaming

  const AT: Unit := '@' as int
  const ZERO: Unit := '0' as int

  /** Two ways to end the source are answered differently. */
  ghost predicate Open(p: seq<Unit>) {
    exists x, y :: Parse(p + x, true) != Parse(p + y, true)
  }

  // ---------- trivia that may go on ----------

  /** With `x` the trivia from `i` end before something that is no literal and no semicolon, or a
      comment is left unclosed; with `y` all is trivia. */
  predicate TriviaOpen(p: seq<Unit>, x: seq<Unit>, y: seq<Unit>, i: nat, newline: bool, lineStart: bool)
    requires i <= |p|
  {
    var r, all := SkipFrom(p + x, true, i, newline, lineStart), SkipFrom(p + y, true, i, newline, lineStart);
    && all.At? && all.index == |p + y|
    && (r.At? ==> r.index < |p + x| && r.index != |p + y|
                  && !IsQuote((p + x)[r.index]) && (p + x)[r.index] != ';' as int)
  }

  lemma AtTheEnd(p: seq<Unit>, newline: bool, lineStart: bool)
    ensures TriviaOpen(p, [LF, AT], [], |p|, newline, lineStart)
  {
    var s := p + [LF, AT];
    assert s[|p|] == LF && s[|p| + 1] == AT;
    assert SkipFrom(s, true, |p| + 1, true, true) == At(|p| + 1, true) by { AtStopsHere(s, |p| + 1); }
    assert p + [] == p;
  }

  lemma AtStopsHere(s: seq<Unit>, i: nat)
    requires i < |s| && s[i] == AT
    ensures SkipFrom(s, true, i, true, true) == At(i, true)
  {
    HeadOf(s, i);
  }

  /** An opener of a comment to the end of the line begins with a slash, a hash, or an angle or a dash. */
  lemma HeadOf(s: seq<Unit>, i: nat)
    requires i < |s|
    ensures StartsWith(s, OPEN_HTML, i) ==> s[i] == '<' as int
    ensures StartsWith(s, CLOSE_HTML, i) ==> s[i] == MINUS
  {
    if StartsWith(s, OPEN_HTML, i) { assert s[i..i + 4][0] == OPEN_HTML[0]; }
    if StartsWith(s, CLOSE_HTML, i) { assert s[i..i + 3][0] == CLOSE_HTML[0]; }
  }

  /** A comment to the end of the line that reaches the end of the source. */
  lemma LineAtTheEnd(p: seq<Unit>, i: nat, newline: bool, lineStart: bool)
    requires i < |p| && !IsBlank(p[i]) && SingleLine(p, i, lineStart) && LineEnd(p, i) == |p|
    ensures TriviaOpen(p, [LF, AT], [], i, newline, lineStart)
  {
    hide SingleLine, LineEnd, IsBlank, CutTrivia, HasBreak;
    var x: seq<Unit> := [LF, AT];
    SingleLineStable(p, x, i, lineStart);
    LineEndAt(p, x, i);
    AtTheEnd(p, newline, lineStart);
    assert p + [] == p;
  }

  lemma {:induction false} LineEndAt(p: seq<Unit>, x: seq<Unit>, i: nat)
    requires i <= |p| && LineEnd(p, i) == |p| && |x| > 0 && x[0] == LF
    ensures LineEnd(p + x, i) == |p|
    decreases |p| - i
  {
    if i < |p| { LineEndAt(p, x, i + 1); }
  }

  /** A block comment that is not closed. */
  lemma UnclosedComment(p: seq<Unit>, i: nat, newline: bool, lineStart: bool)
    requires i < |p| && !IsBlank(p[i]) && !SingleLine(p, i, lineStart) && Pair(p, i, SLASH, STAR)
    requires CommentEnd(p, i + 2).None?
    ensures TriviaOpen(p, [], [STAR, SLASH], i, newline, lineStart)
  {
    hide SingleLine, CommentEnd, IsBlank, CutTrivia, HasBreak;
    var y: seq<Unit> := [STAR, SLASH];
    SingleLineStable(p, y, i, lineStart);
    CommentIsWhole(p, i, lineStart);
    PairStable(p, y, i, SLASH, STAR);
    ClosedAt(p, i + 2);
    assert p + [] == p;
    var s := p + y;
    assert s[i] == p[i] && |s| == |p| + 2;
    assert SkipFrom(s, true, |p| + 2, newline || HasBreak(s, i + 2, |p|), lineStart || HasBreak(s, i + 2, |p|)).At?;
  }

  lemma {:induction false} ClosedAt(p: seq<Unit>, i: nat)
    requires i <= |p| && CommentEnd(p, i).None?
    ensures CommentEnd(p + [STAR, SLASH], i) == Some(|p|)
    decreases |p| - i
  {
    var s := p + [STAR, SLASH];
    assert s[|p|] == STAR && s[|p| + 1] == SLASH;
    if i < |p| {
      if i + 1 < |p| { ClosedAt(p, i + 1); }
    }
  }

  /** What could still become a comment, with and without what it lacks. */
  lemma CutOpener(p: seq<Unit>, i: nat, newline: bool, lineStart: bool) returns (y: seq<Unit>)
    requires i < |p| && !IsBlank(p[i]) && !SingleLine(p, i, lineStart) && !Pair(p, i, SLASH, STAR)
    requires CutTrivia(p, i, lineStart)
    ensures TriviaOpen(p, [], y, i, newline, lineStart)
  {
    hide LineEnd, HasBreak, SingleLine, Pair, IsBlank, StartsWith, CutTrivia;
    assert p + [] == p;
    y := Missing(p, i, lineStart);
    assert (p + y)[i] == p[i];
    NoBreakFrom(p, y, i);
    CutHead(p, i, lineStart);
    assert SkipFrom(p + y, true, |p + y|, newline, lineStart) == At(|p + y|, newline);
    assert SkipFrom(p + y, true, i, newline, lineStart) == SkipFrom(p + y, true, LineEnd(p + y, i), newline, lineStart);
    assert SkipFrom(p, true, i, newline, lineStart) == At(i, newline);
  }

  lemma CutHead(p: seq<Unit>, i: nat, lineStart: bool)
    requires i < |p| && CutTrivia(p, i, lineStart)
    ensures !IsQuote(p[i]) && p[i] != ';' as int
  {
    assert p[i] == p[i..][0];
  }

  /** What the comment that could still come lacks. */
  lemma Missing(p: seq<Unit>, i: nat, lineStart: bool) returns (y: seq<Unit>)
    requires i < |p| && !SingleLine(p, i, lineStart) && CutTrivia(p, i, lineStart)
    ensures |y| > 0 && SingleLine(p + y, i, lineStart)
    ensures forall k :: i <= k < |p + y| ==> !IsLineBreak((p + y)[k])
  {
    if p[i] == SLASH && i + 1 == |p| {
      y := [SLASH];
      assert (p + y)[i] == SLASH && (p + y)[i + 1] == SLASH;
    } else if AtTop(p, i) && p[i] == HASH && i + 1 == |p| {
      y := [BANG];
      assert (p + y)[i] == HASH && (p + y)[i + 1] == BANG;
    } else if p[i..] <= OPEN_HTML {
      y := Rest(p, i, OPEN_HTML);
    } else {
      y := Rest(p, i, CLOSE_HTML);
    }
  }

  lemma WholeWord(p: seq<Unit>, i: nat, word: seq<Unit>)
    requires i <= |p| && p[i..] == word
    ensures StartsWith(p, word, i)
  {
    assert p[i..i + |word|] == p[i..];
  }

  lemma Rest(p: seq<Unit>, i: nat, word: seq<Unit>) returns (y: seq<Unit>)
    requires i < |p| && p[i..] <= word && !StartsWith(p, word, i)
    ensures |y| > 0 && StartsWith(p + y, word, i) && |p + y| == i + |word|
    ensures forall k :: i <= k < |p + y| ==> (p + y)[k] == word[k - i]
  {
    hide StartsWith;
    y := word[|p| - i..];
    if p[i..] == word { WholeWord(p, i, word); }
    assert (p + y)[i..] == p[i..] + y == word;
    WholeWord(p + y, i, word);
    forall k | i <= k < |p + y| ensures (p + y)[k] == word[k - i] { assert (p + y)[k] == (p + y)[i..][k - i]; }
  }

  lemma {:induction false} NoBreakFrom(p: seq<Unit>, y: seq<Unit>, i: nat)
    requires i <= |p + y| && forall k :: i <= k < |p + y| ==> !IsLineBreak((p + y)[k])
    ensures LineEnd(p + y, i) == |p + y|
    decreases |p + y| - i
  {
    if i < |p + y| { NoBreakFrom(p, y, i + 1); }
  }

  lemma {:induction false} TriviaIsOpen(p: seq<Unit>, i: nat, newline: bool, lineStart: bool)
    returns (x: seq<Unit>, y: seq<Unit>)
    requires i <= |p| && SkipFrom(p, false, i, newline, lineStart).Halt?
    ensures TriviaOpen(p, x, y, i, newline, lineStart)
    decreases |p| - i
  {
    hide SingleLine, CutTrivia, Pair, HasBreak, IsBlank, IsLineBreak, CommentEnd, LineEnd, TriviaOpen;
    if i == |p| {
      x, y := [LF, AT], [];
      AtTheEnd(p, newline, lineStart);
    } else if IsBlank(p[i]) {
      x, y := TriviaIsOpen(p, i + 1, newline || IsLineBreak(p[i]), lineStart || IsLineBreak(p[i]));
      PassesBlank(p, x, i, newline, lineStart);
      PassesBlank(p, y, i, newline, lineStart);
      StaysOpen(p, x, y, i, newline, lineStart, i + 1, newline || IsLineBreak(p[i]), lineStart || IsLineBreak(p[i]));
    } else if SingleLine(p, i, lineStart) {
      OpenerIsNoBreak(p, i, lineStart);
      if LineEnd(p, i) == |p| {
        x, y := [LF, AT], [];
        LineAtTheEnd(p, i, newline, lineStart);
      } else {
        x, y := TriviaIsOpen(p, LineEnd(p, i), newline, lineStart);
        PassesLine(p, x, i, newline, lineStart);
        PassesLine(p, y, i, newline, lineStart);
        StaysOpen(p, x, y, i, newline, lineStart, LineEnd(p, i), newline, lineStart);
      }
    } else if Pair(p, i, SLASH, STAR) {
      CommentIsWhole(p, i, lineStart);
      if CommentEnd(p, i + 2).None? {
        x, y := [], [STAR, SLASH];
        UnclosedComment(p, i, newline, lineStart);
      } else {
        var e := CommentEnd(p, i + 2).value;
        PairInside(p, e);
        var broken := HasBreak(p, i + 2, e);
        x, y := TriviaIsOpen(p, e + 2, newline || broken, lineStart || broken);
        PassesComment(p, x, i, e, newline, lineStart);
        PassesComment(p, y, i, e, newline, lineStart);
        StaysOpen(p, x, y, i, newline, lineStart, e + 2, newline || broken, lineStart || broken);
      }
    } else {
      x := [];
      y := CutOpener(p, i, newline, lineStart);
    }
  }

  /** What is open after a piece of trivia is open before it. */
  lemma StaysOpen(p: seq<Unit>, x: seq<Unit>, y: seq<Unit>, i: nat, newline: bool, lineStart: bool,
                  j: nat, newline': bool, lineStart': bool)
    requires i <= j <= |p| && TriviaOpen(p, x, y, j, newline', lineStart')
    requires SkipFrom(p + x, true, i, newline, lineStart) == SkipFrom(p + x, true, j, newline', lineStart')
    requires SkipFrom(p + y, true, i, newline, lineStart) == SkipFrom(p + y, true, j, newline', lineStart')
    ensures TriviaOpen(p, x, y, i, newline, lineStart)
  {
    hide SkipFrom;
  }

  lemma PassesBlank(p: seq<Unit>, z: seq<Unit>, i: nat, newline: bool, lineStart: bool)
    requires i < |p| && IsBlank(p[i])
    ensures SkipFrom(p + z, true, i, newline, lineStart)
         == SkipFrom(p + z, true, i + 1, newline || IsLineBreak(p[i]), lineStart || IsLineBreak(p[i]))
  {
    hide SingleLine, CutTrivia, HasBreak, CommentEnd, Pair;
    assert (p + z)[i] == p[i];
  }

  lemma PassesLine(p: seq<Unit>, z: seq<Unit>, i: nat, newline: bool, lineStart: bool)
    requires i < |p| && !IsBlank(p[i]) && SingleLine(p, i, lineStart) && i < LineEnd(p, i) < |p|
    ensures SkipFrom(p + z, true, i, newline, lineStart)
         == SkipFrom(p + z, true, LineEnd(p, i), newline, lineStart)
  {
    hide SingleLine, CutTrivia, HasBreak, CommentEnd, Pair, IsBlank, LineEnd;
    assert (p + z)[i] == p[i];
    SingleLineStable(p, z, i, lineStart);
    LineEndStable(p, z, i);
  }

  lemma PassesComment(p: seq<Unit>, z: seq<Unit>, i: nat, e: nat, newline: bool, lineStart: bool)
    requires i < |p| && !IsBlank(p[i]) && !SingleLine(p, i, lineStart) && Pair(p, i, SLASH, STAR)
    requires CommentEnd(p, i + 2) == Some(e) && e + 2 <= |p|
    ensures var broken := HasBreak(p, i + 2, e);
            SkipFrom(p + z, true, i, newline, lineStart)
            == SkipFrom(p + z, true, e + 2, newline || broken, lineStart || broken)
  {
    hide SingleLine, CutTrivia, HasBreak, IsBlank, CommentEnd;
    SingleLineStable(p, z, i, lineStart);
    CommentIsWhole(p, i, lineStart);
    PairStable(p, z, i, SLASH, STAR);
    CommentEndStable(p, z, i + 2);
    HasBreakStable(p, z, i + 2, e);
  }

  // ---------- literals that may go on ----------

  /** The source ends in the digits of a code point escape that has too many, or too large ones, already. */
  predicate Overlong(p: seq<Unit>, i: nat) {
    && i + 3 <= |p| && p[i] == BACKSLASH && p[i + 1] == 'u' as int && p[i + 2] == '{' as int
    && (forall k :: i + 3 <= k < |p| ==> IsHexDigit(p[k]))
    && (|p| - (i + 3) > 6 || HexNumber(p[i + 3..]) > 0x10FFFF)
  }

  /** From `i` on, inside a literal, there is such an escape after whole pieces of the literal. */
  predicate OverlongIn(p: seq<Unit>, quote: Unit, i: nat)
    requires i <= |p|
    decreases |p| - i
  {
    && i < |p| && p[i] != quote && p[i] != LF && p[i] != CR
    && if p[i] != BACKSLASH then OverlongIn(p, quote, i + 1)
       else
         Overlong(p, i)
         || (Escape(p, false, i + 1).End? && OverlongIn(p, quote, Escape(p, false, i + 1).index))
  }

  /** The two ways to go on break the literal for two reasons. */
  predicate LiteralOpen(p: seq<Unit>, x: seq<Unit>, y: seq<Unit>, quote: Unit, i: nat)
    requires i <= |p|
  {
    var r, t := BodyFrom(p + x, true, quote, i), BodyFrom(p + y, true, quote, i);
    r.Stop? && t.Stop? && r.outcome.Invalid? && t.outcome.Invalid? && r.outcome != t.outcome
  }

  /** An escape that ended is not changed by what follows, unless that is a line feed. */
  lemma EscapeStays(p: seq<Unit>, z: seq<Unit>, i: nat)
    requires i <= |p| && Escape(p, false, i).End? && (|z| > 0 ==> z[0] != LF)
    ensures Escape(p + z, true, i) == Escape(p, false, i)
  {
    hide HexRun, Braced, Pair;
    PairStable(p, z, i, CR, LF);
    if i + 1 == |p| && |z| > 0 { assert (p + z)[i + 1] == z[0]; }
    if p[i] == 'x' as int {
      HexRunStable(p, z, true, i + 1, 2);
    } else if p[i] == 'u' as int {
      if i + 1 < |p| && p[i + 1] == '{' as int {
        BracedStable(p, z, true, i + 2);
      } else {
        NoRoom(p, i + 1);
        HexRunStable(p, z, true, i + 1, 4);
      }
    }
    PairAt(p + z, i, z, p);
  }

  lemma PairAt(s: seq<Unit>, i: nat, z: seq<Unit>, p: seq<Unit>)
    requires s == p + z && i < |p| && (|z| > 0 ==> z[0] != LF)
    ensures Pair(s, i, CR, LF) ==> Pair(p, i, CR, LF)
  {
  }

  function Zeros(n: nat): (z: seq<Unit>)
    ensures |z| == n && forall k :: 0 <= k < n ==> z[k] == ZERO
  {
    seq(n, k requires 0 <= k < n => ZERO)
  }

  lemma {:induction false} HexRunCut(p: seq<Unit>, i: nat, n: nat)
    requires i <= |p| && HexRun(p, false, i, n) == Stop(Pending)
    ensures |p| - i < n && HexRun(p, true, i, n) == Stop(Invalid(InvalidEscape))
    decreases n
  {
    if i < |p| { HexRunCut(p, i + 1, n - 1); }
  }

  lemma {:induction false} HexRunFilled(p: seq<Unit>, z: seq<Unit>, i: nat, n: nat)
    requires i <= |p| && HexRun(p, false, i, n) == Stop(Pending)
    requires |p| - i + |z| >= n && forall k :: 0 <= k < n - (|p| - i) ==> z[k] == ZERO
    ensures HexRun(p + z, true, i, n) == End(i + n)
    decreases n
  {
    if i == |p| {
      HexRunOfZeros(p, z, i, n);
    } else {
      HexRunCut(p, i, n);
      assert (p + z)[i] == p[i];
      HexRunFilled(p, z, i + 1, n - 1);
    }
  }

  lemma {:induction false} HexRunOfZeros(p: seq<Unit>, z: seq<Unit>, i: nat, n: nat)
    requires |p| <= i && i - |p| + n <= |z| && forall k :: 0 <= k < i - |p| + n ==> z[k] == ZERO
    ensures HexRun(p + z, true, i, n) == End(i + n)
    decreases n
  {
    if n > 0 {
      assert (p + z)[i] == z[i - |p|];
      HexRunOfZeros(p, z, i + 1, n - 1);
    }
  }

  /** An escape that is cut, and what completes it, with a line end after it. */
  predicate EscapeOpen(p: seq<Unit>, y: seq<Unit>, i: nat)
    requires i <= |p|
  {
    && |y| > 0 && y[0] != LF
    && if i == |p| then
         && Escape(p, true, i) == Stop(Invalid(UnterminatedString))
         && Escape(p + y, true, i) == Stop(Invalid(InvalidEscape))
       else
         && Escape(p, true, i) == Stop(Invalid(InvalidEscape))
         && y[|y| - 1] == CR && Escape(p + y, true, i) == End(|p| + |y| - 1)
  }

  lemma RunEscapeOpen(p: seq<Unit>, i: nat, n: nat) returns (y: seq<Unit>)
    requires i + 1 <= |p| && HexRun(p, false, i + 1, n) == Stop(Pending)
    requires (p[i] == 'x' as int && n == 2)
             || (p[i] == 'u' as int && n == 4 && !(i + 1 < |p| && p[i + 1] == '{' as int))
    ensures EscapeOpen(p, y, i)
  {
    hide HexRun;
    HexRunCut(p, i + 1, n);
    y := Zeros(n - (|p| - (i + 1))) + [CR];
    HexRunFilled(p, y, i + 1, n);
    assert (p + y)[i] == p[i];
    if i + 1 < |p| { assert (p + y)[i + 1] == p[i + 1]; } else { assert (p + y)[i + 1] == ZERO; }
  }

  lemma {:induction false} HexEndAt(p: seq<Unit>, y: seq<Unit>, i: nat, e: nat)
    requires i <= |p| && HexEnd(p, i) == |p| && |p| <= e < |p + y| && !IsHexDigit((p + y)[e])
    requires forall k :: |p| <= k < e ==> IsHexDigit((p + y)[k])
    ensures HexEnd(p + y, i) == e
    decreases |p| - i
  {
    if i < |p| { HexEndAt(p, y, i + 1, e); } else { HexEndFrom(p + y, i, e); }
  }

  lemma {:induction false} HexEndFrom(s: seq<Unit>, i: nat, e: nat)
    requires i <= e < |s| && !IsHexDigit(s[e]) && forall k :: i <= k < e ==> IsHexDigit(s[k])
    ensures HexEnd(s, i) == e
    decreases e - i
  {
    if i < e { HexEndFrom(s, i + 1, e); }
  }

  lemma BracedEscapeOpen(p: seq<Unit>, i: nat) returns (y: seq<Unit>)
    requires i + 1 < |p| && p[i] == 'u' as int && p[i + 1] == '{' as int && Braced(p, false, i + 2) == Stop(Pending)
    requires |p| - (i + 2) <= 6
    requires HexEnd(p, i + 2) == |p| ==> HexNumber(p[i + 2..]) <= 0x10FFFF
    ensures EscapeOpen(p, y, i)
  {
    hide HexEnd, HexNumber;
    var close: Unit := '}' as int;
    y := if |p| == i + 2 then [ZERO, close, CR] else [close, CR];
    var e := |p| + |y| - 2;
    var s := p + y;
    assert s[i] == p[i] && s[i + 1] == p[i + 1] && s[e] == close;
    HexEndAt(p, y, i + 2, e);
    if |p| == i + 2 {
      assert s[i + 2..e] == [ZERO];
      ZeroIsSmall();
    } else {
      assert s[i + 2..e] == p[i + 2..];
    }
  }

  lemma ZeroIsSmall()
    ensures HexNumber([ZERO]) == 0
  {
    assert [ZERO][..0] == [];
  }

  lemma EscapeIsOpen(p: seq<Unit>, i: nat) returns (y: seq<Unit>)
    requires 0 < i <= |p| && p[i - 1] == BACKSLASH && Escape(p, false, i) == Stop(Pending) && !Overlong(p, i - 1)
    ensures EscapeOpen(p, y, i)
  {
    hide HexRun, Braced, Overlong;
    if i == |p| {
      y := ['x' as int];
      assert (p + y)[i] == 'x' as int;
      NoDigits(p + y, i + 1);
    } else if p[i] == 'x' as int {
      y := RunEscapeOpen(p, i, 2);
    } else if i + 1 < |p| && p[i + 1] == '{' as int {
      NotOverlong(p, i);
      y := BracedEscapeOpen(p, i);
    } else {
      y := RunEscapeOpen(p, i, 4);
    }
  }

  lemma NoDigits(s: seq<Unit>, i: nat)
    requires i >= |s|
    ensures HexRun(s, true, i, 2) == Stop(Invalid(InvalidEscape))
  {
  }

  lemma NotOverlong(p: seq<Unit>, i: nat)
    requires 0 < i && i + 1 < |p| && p[i - 1] == BACKSLASH && p[i] == 'u' as int && p[i + 1] == '{' as int
    requires Braced(p, false, i + 2) == Stop(Pending) && !Overlong(p, i - 1)
    ensures HexEnd(p, i + 2) == |p| && |p| - (i + 2) <= 6 && HexNumber(p[i + 2..]) <= 0x10FFFF
  {
    hide HexNumber;
  }

  lemma {:induction false} LiteralIsOpen(p: seq<Unit>, quote: Unit, i: nat) returns (y: seq<Unit>)
    requires i <= |p| && IsQuote(quote) && BodyFrom(p, false, quote, i) == Stop(Pending) && !OverlongIn(p, quote, i)
    ensures |y| > 0 && y[0] != LF && LiteralOpen(p, [], y, quote, i)
    decreases |p| - i
  {
    hide Escape, Overlong, IsQuote;
    assert p + [] == p;
    if i == |p| {
      y := [CR];
      LiteralCut(p, quote);
    } else if p[i] != BACKSLASH {
      y := LiteralIsOpen(p, quote, i + 1);
      assert (p + y)[i] == p[i];
    } else {
      var escape := Escape(p, false, i + 1);
      if escape.End? {
        y := LiteralIsOpen(p, quote, escape.index);
        EscapeStays(p, y, i + 1);
        EscapeStays(p, [], i + 1);
        assert (p + y)[i] == p[i];
      } else {
        y := EscapeIsOpen(p, i + 1);
        EscapeBreaks(p, y, quote, i);
      }
    }
  }

  lemma LiteralCut(p: seq<Unit>, quote: Unit)
    requires IsQuote(quote)
    ensures LiteralOpen(p, [], [CR], quote, |p|)
  {
    assert p + [] == p;
    assert (p + [CR])[|p|] == CR;
  }

  lemma EscapeBreaks(p: seq<Unit>, y: seq<Unit>, quote: Unit, i: nat)
    requires i < |p| && p[i] == BACKSLASH && IsQuote(quote) && EscapeOpen(p, y, i + 1)
    ensures LiteralOpen(p, [], y, quote, i)
  {
    hide Escape;
    var s := p + y;
    assert p + [] == p;
    assert s[i] == p[i];
    if i + 1 < |p| {
      var m := |p| + |y| - 1;
      assert s[m] == CR;
      assert BodyFrom(s, true, quote, m) == Stop(Invalid(InvalidSyntax));
    }
  }

  // ---------- the token after a literal, when it is cut ----------

  /** With `x` the expression goes on, with `y` it does not. */
  predicate TokenOpen(p: seq<Unit>, x: seq<Unit>, y: seq<Unit>, j: nat, newline: bool, m: nat)
    requires j < |p|
  {
    var c, d := Conclude(m, TokenAt(p + x, true, j, newline)), Conclude(m, TokenAt(p + y, true, j, newline));
    c == NoStatement && (d == Statement(m, m) || d == Broken(Invalid(InvalidSyntax)))
  }

  lemma TokenIsOpen(p: seq<Unit>, j: nat, newline: bool, m: nat) returns (x: seq<Unit>, y: seq<Unit>)
    requires j < |p| && TokenAt(p, false, j, newline) == NoToken(Pending)
    ensures TokenOpen(p, x, y, j, newline, m)
    ensures !IsUnsupported(p[j]) && !IsQuote(p[j])
  {
    hide Keyword;
    assert p + [] == p;
    CutHeads(p, j);
    if p[j..] == [PLUS] {
      x, y := [], [PLUS];
      OneAndMore(p, j, PLUS, PLUS);
    } else if p[j..] == [MINUS] {
      x, y := [], [MINUS];
      OneAndMore(p, j, MINUS, MINUS);
    } else if p[j..] == [BANG] {
      x, y := [EQUALS], [];
      OneAndMore(p, j, BANG, EQUALS);
    } else {
      x, y := WordIsOpen(p, j, newline, m);
    }
  }

  lemma CutHeads(p: seq<Unit>, j: nat)
    requires j < |p| && (CutToken(p[j..]) || p[j..] == [BANG])
    ensures p[j] == PLUS || p[j] == MINUS || p[j] == BANG || p[j] == 'i' as int
  {
    assert p[j] == p[j..][0];
  }

  lemma OneAndMore(p: seq<Unit>, j: nat, a: Unit, b: Unit)
    requires j < |p| && p[j..] == [a]
    ensures j + 1 == |p| && p[j] == a && (p + [b])[j] == a && (p + [b])[j + 1] == b && |p + [b]| == j + 2
  {
    assert p[j] == p[j..][0];
  }

  lemma WordIsOpen(p: seq<Unit>, j: nat, newline: bool, m: nat) returns (x: seq<Unit>, y: seq<Unit>)
    requires j < |p| && newline && p[j..] <= INSTANCEOF
    ensures TokenOpen(p, x, y, j, newline, m)
  {
    hide Keyword;
    CutKeyword(p, j);
    assert p + [] == p;
    if p[j..] == IN || p[j..] == INSTANCEOF {
      x, y := [], ['a' as int];
      assert (p + y)[j] == p[j];
      LongerWord(p, j);
    } else {
      x, y := INSTANCEOF[|p| - j..], [];
      assert (p + x)[j..] == p[j..] + x == INSTANCEOF;
      assert (p + x)[j] == p[j];
      WholeKeyword(p + x, j);
    }
  }

  /** A keyword with one more letter is none. */
  lemma LongerWord(p: seq<Unit>, j: nat)
    requires j < |p| && (p[j..] == IN || p[j..] == INSTANCEOF)
    ensures !Keyword(p + ['a' as int], j)
  {
    var s: seq<Unit> := p + ['a' as int];
    var n := |p| - j;
    assert s[j + n] == 'a' as int;
    if n == 10 { assert s[j + 2] == p[j..][2] == 's' as int; }
  }

  // ---------- the whole scan ----------

  lemma StopDiffers(p: seq<Unit>, x: seq<Unit>, y: seq<Unit>, index: nat)
    requires index <= |p|
    requires TriviaOpen(p, x, y, index, false, index == 0 || IsLineBreak(p[index - 1]))
    ensures ParseFrom(p + y, true, index) == Ready(|p + y|)
    ensures var d := ParseFrom(p + x, true, index); d.Invalid? || (d.Ready? && d.offset != |p + y|)
    ensures Skip(p + y, true, index).At? && Skip(p + y, true, index).index == |p + y|
  {
    hide SkipFrom;
    SameTop(p, x, index);
    SameTop(p, y, index);
  }

  lemma SameTop(p: seq<Unit>, z: seq<Unit>, index: nat)
    requires index <= |p|
    ensures index > 0 ==> (p + z)[index - 1] == p[index - 1]
  {
  }

  /** A literal that is cut. */
  lemma LiteralDiffers(p: seq<Unit>, k: nat) returns (y: seq<Unit>)
    requires k < |p| && ReadLiteral(p, false, k) == Stop(Pending) && !OverlongIn(p, p[k], k + 1)
    ensures var c, d := ExpressionStatement(p, true, k), ExpressionStatement(p + y, true, k);
            c.Broken? && d.Broken? && c.outcome != d.outcome
  {
    hide BodyFrom, OverlongIn, IsQuote;
    y := LiteralIsOpen(p, p[k], k + 1);
    assert p + [] == p;
    assert (p + y)[k] == p[k];
  }

  /** Trivia after a literal that are cut. */
  lemma GapDiffers(p: seq<Unit>, k: nat, m: nat) returns (x: seq<Unit>, y: seq<Unit>)
    requires k < m <= |p| && ReadLiteral(p, false, k) == End(m) && Skip(p, false, m).Halt?
    ensures ExpressionStatement(p + y, true, k) == Statement(m, m) && ParseFrom(p + y, true, m) == Ready(|p + y|)
    ensures var c := ExpressionStatement(p + x, true, k);
            match c
            case NoStatement => true
            case Broken(outcome) => outcome.Invalid?
            case Statement(_, e) =>
              e == m && var d := ParseFrom(p + x, true, m); d.Invalid? || (d.Ready? && d.offset != |p + y|)
  {
    hide ReadLiteral, SkipFrom, ParseFrom, Classify, TriviaOpen;
    x, y := TriviaIsOpen(p, m, false, m == 0 || IsLineBreak(p[m - 1]));
    LiteralStable(p, x, true, k);
    LiteralStable(p, y, true, k);
    StopDiffers(p, x, y, m);
    NoSemicolon(p, x, y, m);
  }

  lemma NoSemicolon(p: seq<Unit>, x: seq<Unit>, y: seq<Unit>, m: nat)
    requires m <= |p| && TriviaOpen(p, x, y, m, false, m == 0 || IsLineBreak(p[m - 1]))
    ensures var next := Skip(p + x, true, m); next.At? ==> next.index < |p + x| && (p + x)[next.index] != ';' as int
    ensures Skip(p + x, true, m).Halt? ==> Skip(p + x, true, m).outcome.Invalid?
  {
    hide SkipFrom;
    SameTop(p, x, m);
  }

  /** A token after a literal that is cut. */
  lemma TokenDiffers(p: seq<Unit>, k: nat, m: nat) returns (x: seq<Unit>, y: seq<Unit>)
    requires k < m <= |p| && ReadLiteral(p, false, k) == End(m) && Skip(p, false, m).At?
    requires var next := Skip(p, false, m);
             next.index < |p| && TokenAt(p, false, next.index, next.newline) == NoToken(Pending)
    ensures ExpressionStatement(p + x, true, k) == NoStatement
    ensures var d := ExpressionStatement(p + y, true, k);
            || d == Broken(Invalid(InvalidSyntax))
            || (d == Statement(m, m) && ParseFrom(p + y, true, m).Ready? && ParseFrom(p + y, true, m).offset >= m)
  {
    hide ReadLiteral, Skip, TokenAt, IsUnsupported, IsQuote;
    var next := Skip(p, false, m);
    x, y := TokenIsOpen(p, next.index, next.newline, m);
    LiteralStable(p, x, true, k);
    LiteralStable(p, y, true, k);
    TriviaStable(p, x, true, m);
    TriviaStable(p, y, true, m);
    PlainAt(p, y, next.index);
  }

  lemma PlainAt(p: seq<Unit>, y: seq<Unit>, j: nat)
    requires j < |p| && !IsQuote(p[j])
    ensures ExpressionStatement(p + y, true, j) == NoStatement && (p + y)[j] == p[j]
  {
    hide BodyFrom;
  }

  /** The last statement the scan meets is a literal with an over-long escape. */
  predicate OverlongFrom(p: seq<Unit>, index: nat)
    requires index <= |p|
  {
    var k := LastStart(p, index);
    k < |p| && IsQuote(p[k]) && OverlongIn(p, p[k], k + 1)
  }

  lemma {:induction false} OpenFrom(p: seq<Unit>, index: nat) returns (x: seq<Unit>, y: seq<Unit>)
    requires index <= |p| && ParseFrom(p, false, index) == Pending && !OverlongFrom(p, index)
    ensures ParseFrom(p + x, true, index) != ParseFrom(p + y, true, index)
    decreases |p| - index
  {
    hide Skip, ExpressionStatement, TriviaOpen, OverlongIn, IsQuote;
    var next := Skip(p, false, index);
    if next.Halt? {
      x, y := GapFrom(p, index);
    } else {
      var k := next.index;
      TriviaStable(p, [], true, index);
      var statement := ExpressionStatement(p, false, k);
      if statement.Statement? {
        x, y := OpenFrom(p, statement.statementEnd);
        SamePast(p, x, index, k);
        SamePast(p, y, index, k);
      } else {
        x, y := StatementDiffers(p, k);
        TriviaStable(p, x, true, index);
        TriviaStable(p, y, true, index);
        QuoteIsSupported(p, x, k);
        QuoteIsSupported(p, y, k);
      }
    }
  }

  lemma GapFrom(p: seq<Unit>, index: nat) returns (x: seq<Unit>, y: seq<Unit>)
    requires index <= |p| && Skip(p, false, index).Halt?
    ensures ParseFrom(p + x, true, index) != ParseFrom(p + y, true, index)
  {
    hide SkipFrom, TriviaOpen, ParseFrom;
    x, y := TriviaIsOpen(p, index, false, index == 0 || IsLineBreak(p[index - 1]));
    StopDiffers(p, x, y, index);
  }

  lemma SamePast(p: seq<Unit>, z: seq<Unit>, index: nat, k: nat)
    requires index <= |p| && Skip(p, false, index).At? && Skip(p, false, index).index == k < |p|
    requires ExpressionStatement(p, false, k).Statement?
    ensures ParseFrom(p + z, true, index) == ParseFrom(p + z, true, ExpressionStatement(p, false, k).statementEnd)
  {
    hide Skip, ExpressionStatement, SpoilsAt, CompletesAt;
    TriviaStable(p, z, true, index);
    StatementStable(p, z, true, k);
  }

  lemma QuoteIsSupported(p: seq<Unit>, z: seq<Unit>, k: nat)
    requires k < |p|
    ensures (p + z)[k] == p[k] && (IsQuote(p[k]) ==> !IsUnsupported(p[k]))
  {
  }

  /** A statement that is cut: what becomes of it, or of what follows it, is not the same. */
  lemma StatementDiffers(p: seq<Unit>, k: nat) returns (x: seq<Unit>, y: seq<Unit>)
    requires k < |p| && ExpressionStatement(p, false, k) == Broken(Pending)
    requires IsQuote(p[k]) ==> !OverlongIn(p, p[k], k + 1)
    ensures IsQuote(p[k]) && StatementOutcome(p + x, k) != StatementOutcome(p + y, k)
  {
    hide ReadLiteral, Skip, TokenAt, ParseFrom, OverlongIn, IsQuote, ExpressionStatement;
    assert p + [] == p;
    LiteralKinds(p, k);
    var literal := ReadLiteral(p, false, k);
    if literal.Stop? {
      x := [];
      y := LiteralDiffers(p, k);
    } else if Skip(p, false, literal.index).Halt? {
      x, y := GapDiffers(p, k, literal.index);
    } else {
      TriviaStable(p, [], true, literal.index);
      x, y := TokenDiffers(p, k, literal.index);
    }
  }

  lemma LiteralKinds(p: seq<Unit>, k: nat)
    requires k < |p| && ExpressionStatement(p, false, k) == Broken(Pending)
    ensures IsQuote(p[k]) && !ReadLiteral(p, false, k).NotLiteral?
    ensures ReadLiteral(p, false, k).Stop? ==> ReadLiteral(p, false, k) == Stop(Pending)
    ensures ReadLiteral(p, false, k).End? && Skip(p, false, ReadLiteral(p, false, k).index).At? ==>
              var next := Skip(p, false, ReadLiteral(p, false, k).index);
              TokenAt(p, false, next.index, next.newline) == NoToken(Pending)
  {
    hide BodyFrom, SkipFrom, TokenAt;
  }

  /** The answer, when the scan has come to a literal at `k`. */
  function StatementOutcome(s: seq<Unit>, k: nat): Outcome
    requires k < |s|
  {
    match ExpressionStatement(s, true, k)
    case NoStatement => Ready(k)
    case Broken(outcome) => outcome
    case Statement(_, statementEnd) => ParseFrom(s, true, statementEnd)
  }

  // ---------- an escape that is too long already ----------

  lemma {:induction false} NumberGrows(a: seq<Unit>, b: seq<Unit>)
    requires (forall k :: 0 <= k < |a| ==> IsHexDigit(a[k])) && (forall k :: 0 <= k < |b| ==> IsHexDigit(b[k]))
    ensures forall k :: 0 <= k < |a + b| ==> IsHexDigit((a + b)[k])
    ensures HexNumber(a + b) >= HexNumber(a)
    decreases |b|
  {
    if |b| == 0 {
      assert a + b == a;
    } else {
      assert (a + b)[..|a + b| - 1] == a + b[..|b| - 1];
      NumberGrows(a, b[..|b| - 1]);
    }
  }

  lemma {:induction false} HexEndPast(p: seq<Unit>, x: seq<Unit>, i: nat)
    requires i <= |p| && forall k :: i <= k < |p| ==> IsHexDigit(p[k])
    ensures HexEnd(p + x, i) >= |p|
    decreases |p| - i
  {
    if i < |p| { HexEndPast(p, x, i + 1); }
  }

  lemma OverlongBreaks(p: seq<Unit>, x: seq<Unit>, i: nat)
    requires Overlong(p, i)
    ensures Escape(p + x, true, i + 1) == Stop(Invalid(InvalidEscape))
  {
    hide HexNumber, HexEnd;
    var s := p + x;
    assert s[i + 1] == p[i + 1] && s[i + 2] == p[i + 2];
    HexEndPast(p, x, i + 3);
    var e := HexEnd(s, i + 3);
    var more := x[..e - |p|];
    assert s[i + 3..e] == p[i + 3..] + more;
    forall k | 0 <= k < |more| ensures IsHexDigit(more[k]) { assert more[k] == s[|p| + k]; }
    NumberGrows(p[i + 3..], more);
  }

  lemma {:induction false} OverlongBodyBreaks(p: seq<Unit>, x: seq<Unit>, quote: Unit, i: nat)
    requires i <= |p| && OverlongIn(p, quote, i)
    ensures BodyFrom(p + x, true, quote, i) == Stop(Invalid(InvalidEscape))
    decreases |p| - i
  {
    hide Escape, Overlong;
    assert (p + x)[i] == p[i];
    if p[i] != BACKSLASH {
      OverlongBodyBreaks(p, x, quote, i + 1);
    } else if Overlong(p, i) {
      OverlongBreaks(p, x, i);
    } else {
      InsideIsNotLast(p, quote, Escape(p, false, i + 1).index);
      EscapeStable(p, x, true, i + 1);
      OverlongBodyBreaks(p, x, quote, Escape(p, false, i + 1).index);
    }
  }

  lemma InsideIsNotLast(p: seq<Unit>, quote: Unit, i: nat)
    requires i <= |p| && OverlongIn(p, quote, i)
    ensures i < |p|
  {
  }

  lemma {:induction false} OverlongFails(p: seq<Unit>, x: seq<Unit>, index: nat)
    requires index <= |p| && ParseFrom(p, false, index) == Pending && OverlongFrom(p, index)
    ensures ParseFrom(p + x, true, index) == Invalid(InvalidEscape)
    decreases |p| - index
  {
    hide Skip, ExpressionStatement, OverlongIn, IsQuote;
    var next := Skip(p, false, index);
    if next.Halt? {
      NoQuoteHere(p, index);
    } else {
      TriviaStable(p, x, true, index);
      var statement := ExpressionStatement(p, false, next.index);
      if statement.Statement? {
        OverlongFails(p, x, statement.statementEnd);
        SamePast(p, x, index, next.index);
      } else {
        LiteralFails(p, x, next.index);
      }
    }
  }

  lemma NoQuoteHere(p: seq<Unit>, index: nat)
    requires index < |p| && Skip(p, false, index).Halt?
    ensures !IsQuote(p[index])
  {
    hide CommentEnd, LineEnd, HasBreak, StartsWith;
    HeadOf(p, index);
    assert p[index] == p[index..][0];
  }

  lemma LiteralFails(p: seq<Unit>, x: seq<Unit>, k: nat)
    requires k < |p| && IsQuote(p[k]) && OverlongIn(p, p[k], k + 1)
    ensures ExpressionStatement(p + x, true, k) == Broken(Invalid(InvalidEscape))
  {
    hide BodyFrom, OverlongIn, IsQuote;
    assert (p + x)[k] == p[k];
    OverlongBodyBreaks(p, x, p[k], k + 1);
  }

  /** A prefix that is answered "pending" leaves the answer open, if and only if it does not end in the
      digits of an escape that is too long already. */
  lemma PendingIff(p: seq<Unit>)
    requires Parse(p, false) == Pending
    ensures Open(p) <==> !OverlongFrom(p, 0)
  {
    hide ParseFrom, OverlongFrom;
    if OverlongFrom(p, 0) {
      forall x ensures Parse(p + x, true) == Invalid(InvalidEscape) { OverlongFails(p, x, 0); }
    } else {
      var x, y := OpenFrom(p, 0);
      assert Parse(p + x, true) != Parse(p + y, true);
    }
  }

  /** The source '\u{1234567 : pending, and whatever comes next, an invalid escape. */
  lemma PendingForGood(x: seq<Unit>)
    ensures Parse([39, 92, 117, 123, 49, 50, 51, 52, 53, 54, 55], false) == Pending
    ensures Parse([39, 92, 117, 123, 49, 50, 51, 52, 53, 54, 55] + x, true) == Invalid(InvalidEscape)
  {
    hide HexNumber;
    var p: seq<Unit> := [39, 92, 117, 123, 49, 50, 51, 52, 53, 54, 55];
    HexEndPast(p, [], 4);
    assert p + [] == p;
    assert Overlong(p, 1);
    assert Escape(p, false, 2) == Stop(Pending);
    assert BodyFrom(p, false, 39, 1) == Stop(Pending);
    assert Skip(p, false, 0) == At(0, false) by { QuoteStops(p); }
    OverlongFails(p, x, 0);
  }

  lemma QuoteStops(p: seq<Unit>)
    requires |p| > 0 && IsQuote(p[0])
    ensures Skip(p, false, 0) == At(0, false)
  {
    hide CommentEnd, LineEnd, HasBreak, StartsWith;
    HeadOf(p, 0);
    assert p[0] == p[0..][0];
  }
}
