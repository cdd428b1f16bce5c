/** Which offset the scan answers with: the end of the directive prologue. The grammar here is stated
    apart from the scanner: white space and comments; string literals that stand as statements;
    and what goes on with the expression that a string literal begins. */
module WorkerPrologue {
  import opened WorkerSource
  import WorkerStreaming

  predicate HexDigits(s: seq<Unit>, a: nat, b: nat)
    requires b <= |s|
  {
    forall k :: a <= k < b ==> IsHexDigit(s[k])
  }

  /** An escape sequence, as in section 12.9.4 of ECMA-262 (2022 edition): two or four hexadecimal digits, a code
      point in braces, a line continuation, or one other character. */
  predicate EscapeText(s: seq<Unit>, a: nat, b: nat)
    requires a + 2 <= b <= |s|
  {
    s[a] == BACKSLASH
    && if s[a + 1] == 'x' as int then b == a + 4 && HexDigits(s, a + 2, b)
       else if s[a + 1] != 'u' as int then b == if s[a + 1] == CR && a + 2 < |s| && s[a + 2] == LF then a + 3 else a + 2
       else if a + 2 < b && s[a + 2] == '{' as int then
         a + 5 <= b <= a + 10 && s[b - 1] == '}' as int && HexDigits(s, a + 3, b - 1)
         && HexNumber(s[a + 3..b - 1]) <= 0x10FFFF
       else b == a + 6 && HexDigits(s, a + 2, b)
  }

  /** Plain characters and escapes, without a bare quote or line end. */
  ghost predicate LiteralBody(s: seq<Unit>, quote: Unit, a: nat, b: nat)
    requires a <= b <= |s|
    decreases b - a
  {
    || a == b
    || (a < b && s[a] != quote && s[a] != LF && s[a] != CR && s[a] != BACKSLASH && LiteralBody(s, quote, a + 1, b))
    || (exists m :: a + 2 <= m <= b && EscapeText(s, a, m) && LiteralBody(s, quote, m, b))
  }

  ghost predicate StringLiteral(s: seq<Unit>, a: nat, b: nat)
    requires a <= b <= |s|
  {
    a + 2 <= b && IsQuote(s[a]) && s[b - 1] == s[a] && LiteralBody(s, s[a], a + 1, b - 1)
  }

  // ---------- white space and comments ----------

  predicate BlockComment(s: seq<Unit>, a: nat, b: nat)
    requires a <= b <= |s|
  {
    a + 4 <= b && Pair(s, a, SLASH, STAR) && Pair(s, b - 2, STAR, SLASH)
    && forall k :: a + 2 <= k < b - 2 ==> !Pair(s, k, STAR, SLASH)
  }

  /** For trivia that begin at `base`, at the top or after a token: a line begins before `a`. */
  predicate LineTop(s: seq<Unit>, base: nat, a: nat)
    requires base <= a <= |s|
  {
    base == 0 || IsLineBreak(s[base - 1]) || HasBreak(s, base, a)
  }

  /** Two slashes; a hashbang at the top of the source; or an HTML-like opener or closer that has
      nothing but trivia before it on its line. */
  predicate LineCommentBegins(s: seq<Unit>, base: nat, a: nat)
    requires base <= a <= |s|
  {
    || Pair(s, a, SLASH, SLASH)
    || (Pair(s, a, HASH, BANG) && (a == 0 || (a == 1 && s[0] == MARK)))
    || ((StartsWith(s, OPEN_HTML, a) || StartsWith(s, CLOSE_HTML, a)) && LineTop(s, base, a))
  }

  predicate LineComment(s: seq<Unit>, base: nat, a: nat, b: nat)
    requires base <= a <= b <= |s|
  {
    a < b && LineCommentBegins(s, base, a) && !HasBreak(s, a, b) && (b < |s| ==> IsLineBreak(s[b]))
  }

  /** One white space character or one comment. */
  predicate TriviaPiece(s: seq<Unit>, base: nat, a: nat, b: nat)
    requires base <= a <= b <= |s|
  {
    (b == a + 1 && IsBlank(s[a])) || LineComment(s, base, a, b) || BlockComment(s, a, b)
  }

  ghost predicate TriviaRow(s: seq<Unit>, base: nat, b: nat)
    requires base <= b <= |s|
    decreases b
  {
    base == b || exists m :: base <= m < b && TriviaRow(s, base, m) && TriviaPiece(s, base, m, b)
  }

  predicate TriviaBegins(s: seq<Unit>, base: nat, a: nat)
    requires base <= a <= |s|
  {
    a < |s| && (IsBlank(s[a]) || LineCommentBegins(s, base, a) || Pair(s, a, SLASH, STAR))
  }

  /** All the white space and comments from `base` on. */
  ghost predicate WholeTrivia(s: seq<Unit>, base: nat, b: nat) {
    base <= b <= |s| && TriviaRow(s, base, b) && !TriviaBegins(s, base, b)
  }

  // ---------- statements ----------

  const PUNCTUATORS: set<int> := {
    '*' as int, '/' as int, '%' as int, '<' as int, '>' as int, '&' as int, '|' as int, '^' as int, '?' as int,
    '.' as int, '(' as int, '[' as int, ',' as int, '`' as int}

  predicate WordAt(s: seq<Unit>, k: nat, word: seq<Unit>) {
    StartsWith(s, word, k) && (k + |word| == |s| || !IsIdentifierPart(s[k + |word|]))
  }

  predicate Followed(s: seq<Unit>, k: nat, ch: Unit) { k + 1 < |s| && s[k + 1] == ch }

  /** The expression that a string literal begins goes on at `k`: with a punctuator, with a sign that is
      not doubled, with an equals sign that is no arrow, with an inequality, or with one of the
      two operators that are words. */
  predicate GoesOn(s: seq<Unit>, k: nat) {
    && k < |s|
    && (|| s[k] in PUNCTUATORS
        || (s[k] == '+' as int && !Followed(s, k, '+' as int))
        || (s[k] == '-' as int && !Followed(s, k, '-' as int))
        || (s[k] == '=' as int && !Followed(s, k, '>' as int))
        || (s[k] == '!' as int && Followed(s, k, '=' as int))
        || WordAt(s, k, ['i' as int, 'n' as int])
        || WordAt(s, k, ['i' as int, 'n' as int, 's' as int, 't' as int, 'a' as int, 'n' as int, 'c' as int, 'e' as int,
                         'o' as int, 'f' as int]))
  }

  /** After a literal that ends at `m`, the statement ends without a semicolon before `k`: at the end
      of the source, before a closing brace, or at a line break before something that neither goes
      on with the expression nor is out of the question. */
  predicate EndsBefore(s: seq<Unit>, m: nat, k: nat)
    requires m <= k <= |s|
  {
    || k == |s|
    || s[k] == '}' as int
    || (&& HasBreak(s, m, k) && s[k] != ';' as int && s[k] != '@' as int && s[k] != '#' as int && !GoesOn(s, k)
        && !(s[k] == '=' as int && Followed(s, k, '>' as int)))
  }

  /** A string literal that stands as a statement, with its semicolon if it has one. */
  ghost predicate Directive(s: seq<Unit>, a: nat, e: nat) {
    exists m, k :: a < m <= k <= |s| && StringLiteral(s, a, m) && WholeTrivia(s, m, k)
                   && ((k < |s| && s[k] == ';' as int && e == k + 1) || (e == m && EndsBefore(s, m, k)))
  }

  /** A string literal that begins a longer expression. */
  ghost predicate Longer(s: seq<Unit>, a: nat) {
    exists m, k :: a < m <= k <= |s| && StringLiteral(s, a, m) && WholeTrivia(s, m, k) && GoesOn(s, k)
  }

  /** Code may be put in at `k`: nothing is there, or something that is no directive and not out of
      the question. */
  ghost predicate CodeAt(s: seq<Unit>, k: nat)
    requires k <= |s|
  {
    k == |s| || (s[k] != '@' as int && s[k] != '#' as int && (IsQuote(s[k]) ==> Longer(s, k)))
  }

  /** From `a` on there are directives with trivia around them, and the code begins at `o`. */
  ghost predicate Prologue(s: seq<Unit>, a: nat, o: nat)
    requires a <= |s|
    decreases |s| - a
  {
    exists k :: a <= k <= |s| && WholeTrivia(s, a, k)
                && ((o == k && CodeAt(s, k)) || exists e :: k < e <= |s| && Directive(s, k, e) && Prologue(s, e, o))
  }

  // ---------- literals ----------

  lemma {:induction false} HexRunIsHex(s: seq<Unit>, eof: bool, i: nat, n: nat)
    requires HexRun(s, eof, i, n).End? && i + n <= |s|
    ensures HexDigits(s, i, i + n)
    decreases n
  {
    if n > 0 { HexRunIsHex(s, eof, i + 1, n - 1); }
  }

  /** What the scanner accepts as an escape is one. */
  lemma EscapeIsText(s: seq<Unit>, eof: bool, i: nat)
    requires i < |s| && s[i] == BACKSLASH && Escape(s, eof, i + 1).End?
    ensures EscapeText(s, i, Escape(s, eof, i + 1).index)
  {
    hide HexNumber, HexRun, HexEnd;
    var e := i + 1;
    if s[e] == 'x' as int {
      HexRunIsHex(s, eof, e + 1, 2);
    } else if s[e] == 'u' as int && !(e + 1 < |s| && s[e + 1] == '{' as int) {
      HexRunIsHex(s, eof, e + 1, 4);
    }
  }

  lemma {:induction false} BodyIsText(s: seq<Unit>, eof: bool, quote: Unit, i: nat)
    requires i <= |s| && BodyFrom(s, eof, quote, i).End?
    ensures var end := BodyFrom(s, eof, quote, i).index;
            s[end - 1] == quote && LiteralBody(s, quote, i, end - 1)
    decreases |s| - i
  {
    hide Escape, EscapeText;
    if s[i] != quote {
      if s[i] != BACKSLASH {
        BodyIsText(s, eof, quote, i + 1);
      } else {
        var m := Escape(s, eof, i + 1).index;
        EscapeIsText(s, eof, i);
        BodyIsText(s, eof, quote, m);
      }
    }
  }

  lemma LiteralIsText(s: seq<Unit>, eof: bool, start: nat)
    requires start < |s| && ReadLiteral(s, eof, start).End?
    ensures StringLiteral(s, start, ReadLiteral(s, eof, start).index)
  {
    hide BodyFrom, LiteralBody;
    BodyIsText(s, eof, s[start], start + 1);
  }

  lemma {:induction false} HexRunWhole(s: seq<Unit>, eof: bool, i: nat, n: nat)
    requires i + n <= |s| && HexDigits(s, i, i + n)
    ensures HexRun(s, eof, i, n) == End(i + n)
    decreases n
  {
    if n > 0 { HexRunWhole(s, eof, i + 1, n - 1); }
  }

  lemma {:induction false} HexEndWhole(s: seq<Unit>, i: nat, e: nat)
    requires i <= e < |s| && HexDigits(s, i, e) && !IsHexDigit(s[e])
    ensures HexEnd(s, i) == e
    decreases e - i
  {
    if i < e { HexEndWhole(s, i + 1, e); }
  }

  lemma TextIsEscape(s: seq<Unit>, eof: bool, a: nat, b: nat)
    requires a + 2 <= b <= |s| && EscapeText(s, a, b)
    ensures Escape(s, eof, a + 1) == End(b)
  {
    hide HexNumber, HexRun, HexEnd;
    if s[a + 1] == 'x' as int {
      HexRunWhole(s, eof, a + 2, 2);
    } else if s[a + 1] == 'u' as int {
      if a + 2 < b && s[a + 2] == '{' as int {
        HexEndWhole(s, a + 3, b - 1);
      } else {
        HexRunWhole(s, eof, a + 2, 4);
      }
    }
  }

  lemma {:induction false} TextIsBody(s: seq<Unit>, eof: bool, quote: Unit, i: nat, b: nat)
    requires i <= b < |s| && IsQuote(quote) && s[b] == quote && LiteralBody(s, quote, i, b)
    ensures BodyFrom(s, eof, quote, i) == End(b + 1)
    decreases b - i
  {
    hide Escape, EscapeText;
    if i < b {
      if s[i] != quote && s[i] != LF && s[i] != CR && s[i] != BACKSLASH && LiteralBody(s, quote, i + 1, b) {
        TextIsBody(s, eof, quote, i + 1, b);
      } else {
        var m :| i + 2 <= m <= b && EscapeText(s, i, m) && LiteralBody(s, quote, m, b);
        EscapeBegins(s, i, m);
        TextIsEscape(s, eof, i, m);
        TextIsBody(s, eof, quote, m, b);
      }
    }
  }

  lemma EscapeBegins(s: seq<Unit>, a: nat, b: nat)
    requires a + 2 <= b <= |s| && EscapeText(s, a, b)
    ensures s[a] == BACKSLASH
  {
  }

  /** What is accepted as a literal is one, and every literal is accepted, whatever follows. */
  lemma LiteralIff(s: seq<Unit>, eof: bool, start: nat, m: nat)
    requires start < m <= |s|
    ensures ReadLiteral(s, eof, start) == End(m) <==> StringLiteral(s, start, m)
  {
    hide BodyFrom, LiteralBody;
    if ReadLiteral(s, eof, start) == End(m) { LiteralIsText(s, eof, start); }
    if StringLiteral(s, start, m) { TextIsBody(s, eof, s[start], start + 1, m - 1); }
  }

  // ---------- trivia ----------

  lemma RowMore(s: seq<Unit>, base: nat, a: nat, b: nat)
    requires base <= a < b <= |s| && TriviaRow(s, base, a) && TriviaPiece(s, base, a, b)
    ensures TriviaRow(s, base, b)
  {
    hide TriviaPiece;
  }

  lemma BreaksJoin(s: seq<Unit>, a: nat, m: nat, b: nat)
    requires a <= m <= b <= |s|
    ensures HasBreak(s, a, b) <==> HasBreak(s, a, m) || HasBreak(s, m, b)
  {
    hide IsLineBreak;
  }

  /** The line top moves on with the breaks. */
  lemma LineTopJoin(s: seq<Unit>, base: nat, m: nat, b: nat)
    requires base <= m <= b <= |s|
    ensures LineTop(s, base, b) <==> LineTop(s, base, m) || HasBreak(s, m, b)
  {
    hide IsLineBreak, HasBreak;
    BreaksJoin(s, base, m, b);
  }

  lemma SingleLineIff(s: seq<Unit>, base: nat, a: nat)
    requires base <= a <= |s|
    ensures SingleLine(s, a, LineTop(s, base, a)) <==> LineCommentBegins(s, base, a)
  {
    hide LineTop, StartsWith;
  }

  lemma {:induction false} LineEndIs(s: seq<Unit>, a: nat, b: nat)
    requires a <= b <= |s| && !HasBreak(s, a, b) && (b < |s| ==> IsLineBreak(s[b]))
    ensures LineEnd(s, a) == b
    decreases b - a
  {
    hide IsLineBreak;
    if a < b {
      BreaksJoin(s, a, a + 1, b);
      LineEndIs(s, a + 1, b);
    }
  }

  lemma {:induction false} CommentEndIs(s: seq<Unit>, a: nat, e: nat)
    requires a <= e && Pair(s, e, STAR, SLASH) && forall k :: a <= k < e ==> !Pair(s, k, STAR, SLASH)
    ensures CommentEnd(s, a).Some? && CommentEnd(s, a).value == e
    decreases e - a
  {
    hide Pair;
    PairInside(s, e);
    if a < e { CommentEndIs(s, a + 1, e); }
  }

  lemma PairInside(s: seq<Unit>, e: nat)
    requires Pair(s, e, STAR, SLASH)
    ensures e + 1 < |s|
  {
  }

  lemma BlockIsNoLine(s: seq<Unit>, base: nat, a: nat)
    requires base <= a <= |s| && Pair(s, a, SLASH, STAR)
    ensures !LineCommentBegins(s, base, a) && !IsBlank(s[a])
  {
    hide StartsWith;
    HtmlHead(s, a);
  }

  lemma HtmlHead(s: seq<Unit>, a: nat)
    ensures StartsWith(s, OPEN_HTML, a) ==> a < |s| && s[a] == '<' as int
    ensures StartsWith(s, CLOSE_HTML, a) ==> a < |s| && s[a] == '-' as int
  {
    if StartsWith(s, OPEN_HTML, a) { assert s[a..a + 4][0] == OPEN_HTML[0]; }
    if StartsWith(s, CLOSE_HTML, a) { assert s[a..a + 3][0] == CLOSE_HTML[0]; }
  }

  /** The breaks of a block comment are those inside it. */
  lemma CommentBreaks(s: seq<Unit>, a: nat, b: nat)
    requires a + 4 <= b <= |s| && Pair(s, a, SLASH, STAR) && Pair(s, b - 2, STAR, SLASH)
    ensures HasBreak(s, a, b) <==> HasBreak(s, a + 2, b - 2)
  {
    forall k | a <= k < b && IsLineBreak(s[k]) ensures a + 2 <= k < b - 2 {}
  }

  /** The scan of trivia passes over a piece as the grammar has it. */
  lemma PassesPiece(s: seq<Unit>, eof: bool, base: nat, a: nat, b: nat)
    requires base <= a < b <= |s| && TriviaPiece(s, base, a, b)
    ensures SkipFrom(s, eof, a, HasBreak(s, base, a), LineTop(s, base, a))
         == SkipFrom(s, eof, b, HasBreak(s, base, b), LineTop(s, base, b))
  {
    hide LineTop, HasBreak, SingleLine, LineCommentBegins, CutTrivia, LineEnd, CommentEnd, Pair;
    BreaksJoin(s, base, a, b);
    LineTopJoin(s, base, a, b);
    SingleLineIff(s, base, a);
    if b == a + 1 && IsBlank(s[a]) {
      OneBreak(s, a);
    } else if LineComment(s, base, a, b) {
      BeginsNoBlank(s, base, a);
      LineEndIs(s, a, b);
    } else {
      BlockIsNoLine(s, base, a);
      CommentBreaks(s, a, b);
      CommentEndIs(s, a + 2, b - 2);
    }
  }

  lemma OneBreak(s: seq<Unit>, a: nat)
    requires a < |s|
    ensures HasBreak(s, a, a + 1) <==> IsLineBreak(s[a])
  {
  }

  lemma BeginsNoBlank(s: seq<Unit>, base: nat, a: nat)
    requires base <= a <= |s| && LineCommentBegins(s, base, a)
    ensures a < |s| && !IsBlank(s[a])
  {
    hide StartsWith;
    HtmlHead(s, a);
  }

  lemma {:induction false} PassesRow(s: seq<Unit>, eof: bool, base: nat, b: nat)
    requires base <= b <= |s| && TriviaRow(s, base, b)
    ensures SkipFrom(s, eof, base, false, base == 0 || IsLineBreak(s[base - 1]))
         == SkipFrom(s, eof, b, HasBreak(s, base, b), LineTop(s, base, b))
    decreases b
  {
    hide SkipFrom, TriviaPiece, IsLineBreak;
    if base < b {
      var m :| base <= m < b && TriviaRow(s, base, m) && TriviaPiece(s, base, m, b);
      PassesRow(s, eof, base, m);
      PassesPiece(s, eof, base, m, b);
    }
  }

  /** From a row of trivia on, the scan stops after a longer one, where no more trivia begin. */
  lemma {:induction false} StopsAfterRow(s: seq<Unit>, eof: bool, base: nat, a: nat)
    requires base <= a <= |s| && TriviaRow(s, base, a)
    requires SkipFrom(s, eof, a, HasBreak(s, base, a), LineTop(s, base, a)).At?
    ensures var r := SkipFrom(s, eof, a, HasBreak(s, base, a), LineTop(s, base, a));
            WholeTrivia(s, base, r.index) && r.newline == HasBreak(s, base, r.index)
    decreases |s| - a
  {
    hide LineTop, HasBreak, TriviaRow, TriviaPiece, SingleLine, LineCommentBegins, CutTrivia, LineEnd, CommentEnd, Pair,
         IsBlank;
    SingleLineIff(s, base, a);
    if TriviaBegins(s, base, a) && a < |s| {
      var b := PieceAt(s, eof, base, a);
      RowMore(s, base, a, b);
      PassesPiece(s, eof, base, a, b);
      StopsAfterRow(s, eof, base, b);
    }
  }

  /** Where trivia begin and the scan gets past them, there is a whole piece. */
  lemma PieceAt(s: seq<Unit>, eof: bool, base: nat, a: nat) returns (b: nat)
    requires base <= a < |s| && TriviaBegins(s, base, a)
    requires SkipFrom(s, eof, a, HasBreak(s, base, a), LineTop(s, base, a)).At?
    ensures a < b <= |s| && TriviaPiece(s, base, a, b)
  {
    hide LineTop, HasBreak, SingleLine, LineCommentBegins, CutTrivia;
    SingleLineIff(s, base, a);
    if IsBlank(s[a]) {
      b := a + 1;
    } else if LineCommentBegins(s, base, a) {
      b := LineEnd(s, a);
      OpenerIsNoBreak(s, a, LineTop(s, base, a));
      NoBreakUpTo(s, a, b);
    } else {
      b := CommentEnd(s, a + 2).value + 2;
    }
  }

  lemma NoBreakUpTo(s: seq<Unit>, a: nat, b: nat)
    requires a <= b <= |s| && forall k :: a <= k < b ==> !IsLineBreak(s[k])
    ensures !HasBreak(s, a, b)
  {
  }

  /** The scan of trivia stops exactly after all of them, and tells whether there was a line break. */
  lemma TriviaIff(s: seq<Unit>, base: nat, k: nat)
    requires base <= k <= |s|
    ensures Skip(s, true, base).At? && Skip(s, true, base).index == k <==> WholeTrivia(s, base, k)
    ensures WholeTrivia(s, base, k) ==> Skip(s, true, base) == At(k, HasBreak(s, base, k))
  {
    hide SkipFrom, TriviaBegins, IsLineBreak;
    EmptyRow(s, base);
    if Skip(s, true, base).At? { StopsAfterRow(s, true, base, base); }
    if WholeTrivia(s, base, k) {
      PassesRow(s, true, base, k);
      StopsHere(s, base, k);
    }
  }

  lemma EmptyRow(s: seq<Unit>, base: nat)
    requires base <= |s|
    ensures TriviaRow(s, base, base) && !HasBreak(s, base, base)
    ensures LineTop(s, base, base) <==> base == 0 || IsLineBreak(s[base - 1])
  {
  }

  lemma StopsHere(s: seq<Unit>, base: nat, k: nat)
    requires base <= k <= |s| && !TriviaBegins(s, base, k)
    ensures SkipFrom(s, true, k, HasBreak(s, base, k), LineTop(s, base, k)) == At(k, HasBreak(s, base, k))
  {
    hide LineTop, HasBreak, SingleLine, LineCommentBegins, CutTrivia, Pair, IsBlank;
    SingleLineIff(s, base, k);
  }

  // ---------- the token after a literal ----------

  lemma KeywordIff(s: seq<Unit>, k: nat)
    ensures Keyword(s, k) <==> WordAt(s, k, IN) || WordAt(s, k, INSTANCEOF)
  {
    hide StartsWith, IsIdentifierPart;
    WordInside(s, k, IN);
    WordInside(s, k, INSTANCEOF);
  }

  lemma WordInside(s: seq<Unit>, k: nat, word: seq<Unit>)
    ensures StartsWith(s, word, k) ==> k + |word| <= |s|
  {
  }

  lemma TokenTells(s: seq<Unit>, m: nat, k: nat)
    requires m <= k <= |s|
    ensures var statement := Conclude(m, TokenAt(s, true, k, HasBreak(s, m, k)));
            && (statement.NoStatement? <==> GoesOn(s, k))
            && (statement.Statement? ==> statement.literalEnd == m)
            && forall e :: statement == Statement(m, e)
                           <==> (k < |s| && s[k] == ';' as int && e == k + 1) || (e == m && EndsBefore(s, m, k))
  {
    hide HasBreak, WordAt, Keyword;
    KeywordIff(s, k);
    WordBegins(s, k);
  }

  lemma WordBegins(s: seq<Unit>, k: nat)
    ensures WordAt(s, k, IN) || WordAt(s, k, INSTANCEOF) ==> k < |s| && s[k] == 'i' as int
  {
    if StartsWith(s, IN, k) { assert s[k..k + 2][0] == 'i' as int; }
    if StartsWith(s, INSTANCEOF, k) { assert s[k..k + 10][0] == 'i' as int; }
  }

  // ---------- statements ----------

  /** A statement is seen exactly where a directive is, with its end; and a literal is passed by
      exactly where it begins a longer expression. */
  lemma StatementIff(s: seq<Unit>, a: nat)
    requires a < |s|
    ensures var statement := ExpressionStatement(s, true, a);
            && (forall e :: statement.Statement? && statement.statementEnd == e <==> Directive(s, a, e))
            && (statement.NoStatement? <==> (IsQuote(s[a]) ==> Longer(s, a)))
  {
    hide ReadLiteral, Skip, TokenAt, StringLiteral, WholeTrivia, GoesOn, EndsBefore;
    var statement := ExpressionStatement(s, true, a);
    if ReadLiteral(s, true, a).End? {
      var m := ReadLiteral(s, true, a).index;
      LiteralIff(s, true, a, m);
      LiteralFound(s, a, m);
      if Skip(s, true, m).At? { TokenFound(s, a, m, Skip(s, true, m).index); } else { NoTokenFound(s, a, m); }
    } else {
      NoLiteralFound(s, a);
    }
  }

  lemma LiteralFound(s: seq<Unit>, a: nat, m: nat)
    requires a < m <= |s| && ReadLiteral(s, true, a) == End(m)
    ensures IsQuote(s[a]) && forall n :: a < n <= |s| && StringLiteral(s, a, n) ==> n == m
  {
    hide ReadLiteral, StringLiteral;
    forall n | a < n <= |s| && StringLiteral(s, a, n) ensures n == m { LiteralIff(s, true, a, n); }
  }

  lemma NoLiteralFound(s: seq<Unit>, a: nat)
    requires a < |s| && !ReadLiteral(s, true, a).End?
    ensures (forall e :: !Directive(s, a, e)) && !Longer(s, a)
    ensures ReadLiteral(s, true, a).NotLiteral? <==> !IsQuote(s[a])
  {
    hide ReadLiteral, StringLiteral, WholeTrivia, GoesOn, EndsBefore;
    forall n | a < n <= |s| ensures !StringLiteral(s, a, n) { LiteralIff(s, true, a, n); }
  }

  lemma NoTokenFound(s: seq<Unit>, a: nat, m: nat)
    requires a < m <= |s| && (forall n :: a < n <= |s| && StringLiteral(s, a, n) ==> n == m)
    requires !Skip(s, true, m).At?
    ensures (forall e :: !Directive(s, a, e)) && !Longer(s, a)
  {
    hide Skip, StringLiteral, WholeTrivia, GoesOn, EndsBefore;
    forall k | m <= k <= |s| ensures !WholeTrivia(s, m, k) { TriviaIff(s, m, k); }
  }

  lemma TokenFound(s: seq<Unit>, a: nat, m: nat, k: nat)
    requires a < m <= k <= |s| && StringLiteral(s, a, m)
    requires forall n :: a < n <= |s| && StringLiteral(s, a, n) ==> n == m
    requires Skip(s, true, m).At? && Skip(s, true, m).index == k
    ensures var statement := Conclude(m, TokenAt(s, true, k, Skip(s, true, m).newline));
            && (forall e :: statement.Statement? && statement.statementEnd == e <==> Directive(s, a, e))
            && (statement.NoStatement? <==> Longer(s, a))
  {
    hide Skip, Conclude, TokenAt, StringLiteral, WholeTrivia, GoesOn, EndsBefore, Directive, Longer;
    TriviaIff(s, m, k);
    TokenTells(s, m, k);
    forall j | m <= j <= |s| && WholeTrivia(s, m, j) ensures j == k { TriviaIff(s, m, j); }
    var statement := Conclude(m, TokenAt(s, true, k, Skip(s, true, m).newline));
    forall e ensures statement.Statement? && statement.statementEnd == e <==> Directive(s, a, e) {
      OneDirective(s, a, m, k, e);
      assert statement.Statement? && statement.statementEnd == e <==> statement == Statement(m, e);
    }
    OneDirective(s, a, m, k, 0);
  }

  /** With the literal and the trivia after it known, so is the directive. */
  lemma OneDirective(s: seq<Unit>, a: nat, m: nat, k: nat, e: nat)
    requires a < m <= k <= |s| && StringLiteral(s, a, m) && WholeTrivia(s, m, k)
    requires forall n :: a < n <= |s| && StringLiteral(s, a, n) ==> n == m
    requires forall j :: m <= j <= |s| && WholeTrivia(s, m, j) ==> j == k
    ensures Directive(s, a, e) <==> (k < |s| && s[k] == ';' as int && e == k + 1) || (e == m && EndsBefore(s, m, k))
    ensures Longer(s, a) <==> GoesOn(s, k)
  {
    hide StringLiteral, WholeTrivia, GoesOn, EndsBefore;
  }

  // ---------- the answer ----------

  /** The trivia from `a` on end at one place only. */
  lemma PrologueAt(s: seq<Unit>, a: nat, k: nat, o: nat)
    requires a <= k <= |s| && WholeTrivia(s, a, k)
    ensures Prologue(s, a, o)
       <==> (o == k && CodeAt(s, k)) || exists e :: k < e <= |s| && Directive(s, k, e) && Prologue(s, e, o)
  {
    hide WholeTrivia, Directive, CodeAt;
    forall j | a <= j <= |s| && WholeTrivia(s, a, j) ensures j == k {
      TriviaIff(s, a, j);
      TriviaIff(s, a, k);
    }
  }

  lemma {:induction false} PrologueIff(s: seq<Unit>, a: nat, o: nat)
    requires a <= |s|
    ensures ParseFrom(s, true, a) == Ready(o) <==> Prologue(s, a, o)
    decreases |s| - a
  {
    hide Skip, ExpressionStatement, WholeTrivia, Directive, Longer, Prologue;
    var next := Skip(s, true, a);
    if next.Halt? {
      NoPrologue(s, a, o);
    } else {
      var k := next.index;
      TriviaIff(s, a, k);
      PrologueAt(s, a, k, o);
      if k == |s| {
        forall e ensures !Directive(s, k, e) { NothingLeft(s, k, e); }
      } else {
        StatementIff(s, k);
        var statement := ExpressionStatement(s, true, k);
        if statement.Statement? {
          var end := statement.statementEnd;
          assert Directive(s, k, end);
          PrologueIff(s, end, o);
        } else {
          forall e ensures !Directive(s, k, e) {}
        }
      }
    }
  }

  lemma NoPrologue(s: seq<Unit>, a: nat, o: nat)
    requires a <= |s| && !Skip(s, true, a).At?
    ensures !Prologue(s, a, o)
  {
    hide Skip, WholeTrivia, Directive, CodeAt;
    forall k | a <= k <= |s| ensures !WholeTrivia(s, a, k) { TriviaIff(s, a, k); }
  }

  /** At the end of the source, the answer is "ready" with an offset exactly when directives, with
      white space and comments around them, reach up to that offset and code may be put in there. */
  lemma ReadyIff(s: seq<Unit>, o: nat)
    ensures Parse(s, true) == Ready(o) <==> Prologue(s, 0, o)
  {
    hide ParseFrom, Prologue;
    PrologueIff(s, 0, o);
  }

  /** The answer "ready" on any part of a source, last or not, is the end of its prologue. */
  lemma ReadyIsPrologue(s: seq<Unit>, eof: bool, o: nat)
    requires Parse(s, eof) == Ready(o)
    ensures Prologue(s, 0, o)
  {
    hide ParseFrom, Prologue, WorkerStreaming.SpoilsAt;
    ReadyIff(s, o);
    if !eof {
      WorkerStreaming.ReadyStays(s, [], true);
      assert s + [] == s;
      WorkerStreaming.NothingSpoils(s, o);
    }
  }

  /** No directive begins at the offset: all of them are before it. */
  lemma NoDirectiveLeft(s: seq<Unit>, eof: bool, o: nat, e: nat)
    requires Parse(s, eof) == Ready(o)
    ensures !Directive(s, o, e)
  {
    hide ParseFrom, WholeTrivia, Directive, Longer, ExpressionStatement;
    ReadyIsPrologue(s, eof, o);
    CodeAtOffset(s, 0, o);
    if o < |s| { StatementIff(s, o); } else { NothingLeft(s, o, e); }
  }

  lemma NothingLeft(s: seq<Unit>, o: nat, e: nat)
    requires o >= |s|
    ensures !Directive(s, o, e)
  {
  }

  lemma {:induction false} CodeAtOffset(s: seq<Unit>, a: nat, o: nat)
    requires a <= |s| && Prologue(s, a, o)
    ensures o <= |s| && CodeAt(s, o)
    decreases |s| - a
  {
    hide WholeTrivia, Directive, CodeAt;
    var k :| a <= k <= |s| && WholeTrivia(s, a, k)
             && ((o == k && CodeAt(s, k)) || exists e :: k < e <= |s| && Directive(s, k, e) && Prologue(s, e, o));
    if !(o == k && CodeAt(s, k)) {
      var e :| k < e <= |s| && Directive(s, k, e) && Prologue(s, e, o);
      CodeAtOffset(s, e, o);
    }
  }
}
