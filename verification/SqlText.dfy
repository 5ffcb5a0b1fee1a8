/**
 What the SQL lexer makes of texts: comments, statements, words, symbols and escaped literals. The laws speak
 of the statements that reading a text gives, from any point of the main loop on.
 */
module SqlText {
  import opened Wrappers
  import opened Characters
  import opened SqlLexer
  import Decimal
  import Json

  /** The tokens of each statement. */
  function Tokens(statements: seq<Statement>): seq<seq<Token>> {
    seq(|statements|, i requires 0 <= i < |statements| => statements[i].tokens)
  }

  function TokenLists(r: Option<seq<Statement>>): Option<seq<seq<Token>>> {
    if r.None? then None else Some(Tokens(r.value))
  }

  lemma TokenListsAfter(first: seq<Statement>, r: Option<seq<Statement>>)
    ensures r.Some? ==> TokenLists(After(first, r)) == Some(Tokens(first) + Tokens(r.value))
    ensures r.None? ==> After(first, r).None?
  {
    if r.Some? {
      assert Tokens(first + r.value) == Tokens(first) + Tokens(r.value);
    }
  }

  lemma FinishedTokens(sql: string, tokens: seq<Token>)
    ensures Tokens(Finish(sql, tokens)) == if tokens == [] then [] else [tokens]
  {
  }

  /** The text of a statement read so far has no influence on tokens. */
  lemma {:induction false} TextDoesNotMatter(lower: string -> string, inWord: bool, s: string, a: string, b: string,
                                             tokens: seq<Token>)
    ensures TokenLists(ParseRest(lower, inWord, s, a, tokens)) == TokenLists(ParseRest(lower, inWord, s, b, tokens))
    decreases |s|
  {
    hide NextStep, ParseRest, Tokens, Finish, After;
    FinishedTokens(a, tokens);
    FinishedTokens(b, tokens);
    if s == "" {
      ParseNothing(lower, a, tokens);
      ParseNothing(lower, b, tokens);
    } else if |tokens| > MAX_TOKENS {
      TooManyForMore(lower, inWord, s, a, tokens);
      TooManyForMore(lower, inWord, s, b, tokens);
    } else if NextStep(lower, inWord, s).Reject? {
      RejectedHere(lower, inWord, s, a, tokens);
      RejectedHere(lower, inWord, s, b, tokens);
    } else {
      var step := NextStep(lower, inWord, s);
      var n := Used(step);
      ParseOne(lower, inWord, s, a, tokens);
      ParseOne(lower, inWord, s, b, tokens);
      match step
      case Skip(_) => TextDoesNotMatter(lower, IsWordPart(s[n - 1]), s[n..], a + s[..n], b + s[..n], tokens);
      case Emit(token, _) =>
        TextDoesNotMatter(lower, IsWordPart(s[n - 1]), s[n..], a + s[..n], b + s[..n], tokens + [token]);
      case Semicolon =>
        TokenListsAfter(Finish(a, tokens), ParseRest(lower, false, s[1..], "", []));
        TokenListsAfter(Finish(b, tokens), ParseRest(lower, false, s[1..], "", []));
    }
  }

  lemma RejectedHere(lower: string -> string, inWord: bool, s: string, sql: string, tokens: seq<Token>)
    requires s != "" && NextStep(lower, inWord, s).Reject?
    ensures ParseRest(lower, inWord, s, sql, tokens) == None
  {
    hide NextStep;
  }

  // ---------------------------------------------------------------- white space and comments

  /** One step that skips a text. */
  lemma SkipReads(lower: string -> string, inWord: bool, text: string, rest: string, sql: string, tokens: seq<Token>)
    requires text != "" && |tokens| <= MAX_TOKENS && NextStep(lower, inWord, text + rest) == Skip(|text|)
    ensures ParseRest(lower, inWord, text + rest, sql, tokens) ==
            ParseRest(lower, IsWordPart(text[|text| - 1]), rest, sql + text, tokens)
  {
    hide NextStep, ParseRest, IsWordPart;
    var s := text + rest;
    ParseOne(lower, inWord, s, sql, tokens);
    assert s[..|text|] == text && s[|text|..] == rest && s[|text| - 1] == text[|text| - 1];
  }

  /** One step that reads a text as a token. */
  lemma EmitReads(lower: string -> string, inWord: bool, text: string, rest: string, sql: string, tokens: seq<Token>,
                  token: Token)
    requires text != "" && |tokens| <= MAX_TOKENS && NextStep(lower, inWord, text + rest) == Emit(token, |text|)
    ensures ParseRest(lower, inWord, text + rest, sql, tokens) ==
            ParseRest(lower, IsWordPart(text[|text| - 1]), rest, sql + text, tokens + [token])
  {
    hide NextStep, ParseRest, IsWordPart;
    var s := text + rest;
    ParseOne(lower, inWord, s, sql, tokens);
    assert s[..|text|] == text && s[|text|..] == rest && s[|text| - 1] == text[|text| - 1];
  }

  /** White space is skipped. */
  lemma SpaceIsSkipped(lower: string -> string, inWord: bool, c: char, rest: string, sql: string, tokens: seq<Token>)
    requires IsSpace(c) && |tokens| <= MAX_TOKENS
    ensures ParseRest(lower, inWord, [c] + rest, sql, tokens) ==
            ParseRest(lower, IsWordPart(c), rest, sql + [c], tokens)
  {
    hide ParseRest, IsSpace, StringToken, SymbolToken, DollarToken;
    assert ([c] + rest)[0] == c;
    SkipReads(lower, inWord, [c], rest, sql, tokens);
  }

  predicate OnOneLine(t: string) {
    forall i | 0 <= i < |t| :: NotLineEnd(t[i])
  }

  lemma LineCommentStep(lower: string -> string, inWord: bool, t: string, rest: string)
    requires OnOneLine(t) && (rest == "" || !NotLineEnd(rest[0]))
    ensures NextStep(lower, inWord, "--" + t + rest) == Skip(2 + |t|)
  {
    hide Span, NotLineEnd, StringToken, SymbolToken, DollarToken;
    var s := "--" + t + rest;
    assert s[0] == '-' == s[1] && s[2..] == t + rest;
    SpanIs(NotLineEnd, t, rest);
  }

  /** A line comment is skipped with its line end, whatever it holds, and what follows is read as it would be
      on its own. */
  lemma LineCommentIsSkipped(lower: string -> string, inWord: bool, t: string, end: char, rest: string, sql: string,
                             tokens: seq<Token>)
    requires OnOneLine(t) && (end == '\n' || end == '\r') && |tokens| <= MAX_TOKENS
    ensures ParseRest(lower, inWord, "--" + t + [end] + rest, sql, tokens) ==
            ParseRest(lower, false, rest, sql + ("--" + t + [end]), tokens)
    ensures TokenLists(ParseRest(lower, inWord, "--" + t + [end] + rest, sql, tokens)) ==
            TokenLists(ParseRest(lower, false, rest, sql, tokens))
  {
    hide NextStep, ParseRest;
    var comment := "--" + t;
    var tail := [end] + rest;
    LineCommentStep(lower, inWord, t, tail);
    assert comment + tail == "--" + t + [end] + rest;
    SkipReads(lower, inWord, comment, tail, sql, tokens);
    SpaceIsSkipped(lower, IsWordPart(comment[|comment| - 1]), end, rest, sql + comment, tokens);
    assert sql + comment + [end] == sql + ("--" + t + [end]);
    TextDoesNotMatter(lower, false, rest, sql + (comment + [end]), sql, tokens);
  }

  /** A line comment at the end of the source is skipped. */
  lemma LastLineCommentIsSkipped(lower: string -> string, inWord: bool, t: string, sql: string, tokens: seq<Token>)
    requires OnOneLine(t) && |tokens| <= MAX_TOKENS
    ensures ParseRest(lower, inWord, "--" + t, sql, tokens) == Some(Finish(sql + ("--" + t), tokens))
  {
    hide NextStep, ParseRest;
    var comment := "--" + t;
    assert comment + "" == comment;
    LineCommentStep(lower, inWord, t, "");
    SkipReads(lower, inWord, comment, "", sql, tokens);
    ParseNothing(lower, sql + comment, tokens);
  }

  /** The contents of a block comment: openers, closers and other characters. */
  datatype Mark = Opens | Closes | Other(c: char)

  function MarkText(m: Mark): string {
    match m
    case Opens => "/*"
    case Closes => "*/"
    case Other(c) => [c]
  }

  function CommentText(ms: seq<Mark>): string {
    if ms == [] then "" else MarkText(ms[0]) + CommentText(ms[1..])
  }

  /** Every opener and closer of the text is one of its marks. */
  predicate MarksAreAll(ms: seq<Mark>) {
    if ms == [] then true
    else
      && MarksAreAll(ms[1..])
      && (ms[0].Other? ==>
            var next := CommentText(ms[1..]);
            !(ms[0].c == '/' && "*" <= next) && !(ms[0].c == '*' && "/" <= next))
  }

  /** From this depth on, the marks come to depth 0, with the last of them. */
  predicate ClosesAtEnd(ms: seq<Mark>, depth: nat) {
    if depth == 0 then ms == []
    else
      && ms != []
      && match ms[0]
         case Opens => ClosesAtEnd(ms[1..], depth + 1)
         case Closes => ClosesAtEnd(ms[1..], depth - 1)
         case Other(_) => ClosesAtEnd(ms[1..], depth)
  }

  /** From this depth on, the marks never come to depth 0. */
  predicate NeverCloses(ms: seq<Mark>, depth: nat) {
    depth > 0 && (ms == [] ||
      match ms[0]
      case Opens => NeverCloses(ms[1..], depth + 1)
      case Closes => NeverCloses(ms[1..], depth - 1)
      case Other(_) => NeverCloses(ms[1..], depth))
  }

  lemma MarkTurn(ms: seq<Mark>, rest: string, depth: nat)
    requires ms != [] && MarksAreAll(ms) && depth > 0
    requires |ms| == 1 && ms[0].Other? ==> rest == ""
    ensures var s := CommentText(ms) + rest;
            && s != "" && s[|MarkText(ms[0])|..] == CommentText(ms[1..]) + rest
            && CommentTurn(s, depth) ==
               match ms[0]
               case Opens => (2, depth + 1)
               case Closes => (2, depth - 1)
               case Other(_) => (1, depth)
  {
    hide CommentText, MarksAreAll;
    var text, next := MarkText(ms[0]), CommentText(ms[1..]);
    var s := CommentText(ms) + rest;
    FirstMark(ms);
    TextAfter(text, next, rest);
    if ms[0].Other? && |ms| > 1 {
      TextIsNotEmpty(ms[1..]);
      assert s[1] == next[0];
      assert ("*" <= next <==> next[0] == '*') && ("/" <= next <==> next[0] == '/');
    }
  }

  lemma FirstMark(ms: seq<Mark>)
    requires ms != [] && MarksAreAll(ms)
    ensures CommentText(ms) == MarkText(ms[0]) + CommentText(ms[1..])
    ensures ms[0].Other? ==>
              var next := CommentText(ms[1..]);
              !(ms[0].c == '/' && "*" <= next) && !(ms[0].c == '*' && "/" <= next)
  {
  }

  lemma TextAfter(text: string, next: string, rest: string)
    requires text != ""
    ensures var s := text + next + rest;
            && s == text + (next + rest) && s[|text|..] == next + rest && s[0] == text[0]
            && (|text| >= 2 ==> s[1] == text[1]) && (|text| == 1 && next != "" ==> s[1] == next[0])
  {
  }

  lemma TextIsNotEmpty(ms: seq<Mark>)
    requires ms != []
    ensures CommentText(ms) != ""
  {
  }

  lemma {:induction false} ClosedIsSpanned(ms: seq<Mark>, rest: string, depth: nat)
    requires MarksAreAll(ms) && ClosesAtEnd(ms, depth)
    ensures CommentSpan(CommentText(ms) + rest, depth) == Some(|CommentText(ms)|)
    decreases |ms|
  {
    hide CommentSpan, CommentTurn, MarkText;
    var s := CommentText(ms) + rest;
    CommentUsed(s, depth);
    if depth > 0 {
      LastIsCloser(ms, depth);
      MarkTurn(ms, rest, depth);
      CommentStep(s, depth);
      var (n, after) := CommentTurn(s, depth);
      MarkLength(ms[0]);
      ClosedIsSpanned(ms[1..], rest, after);
    }
  }

  lemma MarkLength(m: Mark)
    ensures |MarkText(m)| == if m.Other? then 1 else 2
  {
  }

  lemma LastIsCloser(ms: seq<Mark>, depth: nat)
    requires depth > 0 && ClosesAtEnd(ms, depth)
    ensures |ms| == 1 ==> ms[0].Closes?
  {
  }

  lemma {:induction false} UnclosedIsNotSpanned(ms: seq<Mark>, depth: nat)
    requires MarksAreAll(ms) && NeverCloses(ms, depth)
    ensures CommentSpan(CommentText(ms), depth) == None
    decreases |ms|
  {
    hide CommentSpan, CommentTurn, MarkText;
    var s := CommentText(ms);
    if ms == [] {
      CommentUsed(s, depth);
    } else {
      MarkTurn(ms, "", depth);
      assert s + "" == s && CommentText(ms[1..]) + "" == CommentText(ms[1..]);
      CommentStep(s, depth);
      var (n, after) := CommentTurn(s, depth);
      MarkLength(ms[0]);
      UnclosedIsNotSpanned(ms[1..], after);
    }
  }

  lemma BlockCommentStep(lower: string -> string, inWord: bool, body: string)
    ensures NextStep(lower, inWord, "/*" + body) ==
            var span := CommentSpan(body, 1); if span.None? then Reject else Skip(2 + span.value)
  {
    hide CommentSpan, StringToken, SymbolToken, DollarToken;
    var s := "/*" + body;
    assert s[0] == '/' && s[1] == '*' && s[2..] == body;
  }

  /** A block comment is skipped with everything nested in it, and what follows is read as it would be on its
      own. */
  lemma BlockCommentIsSkipped(lower: string -> string, inWord: bool, ms: seq<Mark>, rest: string, sql: string,
                              tokens: seq<Token>)
    requires MarksAreAll(ms) && ClosesAtEnd(ms, 1) && |tokens| <= MAX_TOKENS
    ensures var comment := "/*" + CommentText(ms);
            && ParseRest(lower, inWord, comment + rest, sql, tokens) ==
               ParseRest(lower, false, rest, sql + comment, tokens)
            && TokenLists(ParseRest(lower, inWord, comment + rest, sql, tokens)) ==
               TokenLists(ParseRest(lower, false, rest, sql, tokens))
  {
    hide NextStep, ParseRest, CommentSpan, MarksAreAll, ClosesAtEnd;
    var comment := "/*" + CommentText(ms);
    ClosedIsSpanned(ms, rest, 1);
    BlockCommentStep(lower, inWord, CommentText(ms) + rest);
    assert comment + rest == "/*" + (CommentText(ms) + rest);
    EndsInCloser(ms, 1);
    SkipReads(lower, inWord, comment, rest, sql, tokens);
    TextDoesNotMatter(lower, false, rest, sql + comment, sql, tokens);
  }

  lemma {:induction false} EndsInCloser(ms: seq<Mark>, depth: nat)
    requires depth > 0 && ClosesAtEnd(ms, depth)
    ensures var text := CommentText(ms); text != "" && text[|text| - 1] == '/'
    decreases |ms|
  {
    if |ms| > 1 {
      EndsInCloser(ms[1..], match ms[0] case Opens => depth + 1 case Closes => depth - 1 case Other(_) => depth);
    }
  }

  /** A source with a block comment that is not closed is rejected. */
  lemma UnclosedCommentIsRejected(lower: string -> string, inWord: bool, ms: seq<Mark>, sql: string,
                                  tokens: seq<Token>)
    requires MarksAreAll(ms) && NeverCloses(ms, 1)
    ensures ParseRest(lower, inWord, "/*" + CommentText(ms), sql, tokens) == None
  {
    hide NextStep, ParseRest, CommentSpan, MarksAreAll, NeverCloses;
    UnclosedIsNotSpanned(ms, 1);
    BlockCommentStep(lower, inWord, CommentText(ms));
    RejectedHere(lower, inWord, "/*" + CommentText(ms), sql, tokens);
  }

  // ---------------------------------------------------------------- words and symbols

  predicate IsWordText(w: string) {
    w != "" && IsWordStart(w[0]) && !IsSpace(w[0]) && forall i | 0 < i < |w| :: IsWordPart(w[i])
  }

  /** What follows makes a literal prefix of the word. */
  predicate IsPrefixOf(w: string, rest: string) {
    || ((w == "E" || w == "e") && "'" <= rest)
    || ((w == "U" || w == "u") && "&'" <= rest)
  }

  lemma WordStep(lower: string -> string, inWord: bool, w: string, rest: string)
    requires IsWordText(w) && (rest == "" || !IsWordPart(rest[0])) && (inWord || !IsPrefixOf(w, rest))
    ensures NextStep(lower, inWord, w + rest) == Emit(Word(lower(w), false), |w|)
  {
    hide Span, IsSpace, StringToken, SymbolToken, DollarToken, WordBody, IsWordPart, IsPrefixOf;
    var s := w + rest;
    assert s[0] == w[0] && s[1..] == w[1..] + rest && s[..|w|] == w;
    assert forall i | 0 <= i < |w| - 1 :: w[1..][i] == w[i + 1];
    SpanIs(IsWordPart, w[1..], rest);
    WordIsNoPrefix(inWord, w, rest);
    StartsNoOther(w[0]);
  }

  lemma StartsNoOther(c: char)
    requires IsWordStart(c)
    ensures c != '-' && c != '/' && c != '"' && c != '\'' && c != '$'
  {
  }

  lemma WordIsNoPrefix(inWord: bool, w: string, rest: string)
    requires IsWordText(w) && (rest == "" || !IsWordPart(rest[0])) && (inWord || !IsPrefixOf(w, rest))
    ensures var s := w + rest;
            && !(|s| >= 2 && (s[0] == 'E' || s[0] == 'e') && s[1] == '\'' && !inWord)
            && !(|s| >= 3 && (s[0] == 'U' || s[0] == 'u') && s[1] == '&' && s[2] == '\'' && !inWord)
  {
    hide IsSpace;
    var s := w + rest;
    if |w| > 1 {
      assert s[1] == w[1] && IsWordPart(w[1]);
    } else {
      assert w == [s[0]];
      assert |s| >= 2 ==> s[1] == rest[0];
      assert |s| >= 3 ==> s[2] == rest[1];
    }
  }

  /** An unquoted word is one token, its text in lower case, wherever it ends and is no literal prefix. */
  lemma WordIsOneToken(lower: string -> string, inWord: bool, w: string, rest: string, sql: string, tokens: seq<Token>)
    requires IsWordText(w) && (rest == "" || !IsWordPart(rest[0])) && (inWord || !IsPrefixOf(w, rest))
    requires |tokens| <= MAX_TOKENS
    ensures ParseRest(lower, inWord, w + rest, sql, tokens) ==
            ParseRest(lower, true, rest, sql + w, tokens + [Word(lower(w), false)])
  {
    hide NextStep, ParseRest, IsSpace, IsPrefixOf;
    WordStep(lower, inWord, w, rest);
    EmitReads(lower, inWord, w, rest, sql, tokens, Word(lower(w), false));
  }

  lemma PairStep(lower: string -> string, inWord: bool, pair: string, rest: string)
    requires pair == "||" || pair == ":="
    ensures NextStep(lower, inWord, pair + rest) == Emit(Symbol(pair), 2)
  {
    hide Span, StringToken, DollarToken, WordBody;
    assert (pair + rest)[..2] == pair;
  }

  /** The two-character symbols are one token each. */
  lemma PairIsOneSymbol(lower: string -> string, inWord: bool, pair: string, rest: string, sql: string,
                        tokens: seq<Token>)
    requires (pair == "||" || pair == ":=") && |tokens| <= MAX_TOKENS
    ensures ParseRest(lower, inWord, pair + rest, sql, tokens) ==
            ParseRest(lower, false, rest, sql + pair, tokens + [Symbol(pair)])
  {
    hide NextStep, ParseRest;
    PairStep(lower, inWord, pair, rest);
    EmitReads(lower, inWord, pair, rest, sql, tokens, Symbol(pair));
  }

  /** A character that begins nothing else: no white space, quote, dollar sign, word, semicolon, comment or pair. */
  predicate StandsAlone(c: char, rest: string) {
    && !IsSpace(c) && !IsQuote(c) && c != '$' && c != ';' && !IsWordStart(c)
    && !(c == '-' && "-" <= rest) && !(c == '/' && "*" <= rest)
    && !(c == '|' && "|" <= rest) && !(c == ':' && "=" <= rest)
  }

  lemma SymbolStep(lower: string -> string, inWord: bool, c: char, rest: string)
    requires StandsAlone(c, rest)
    ensures NextStep(lower, inWord, [c] + rest) == Emit(Symbol([c]), 1)
  {
    hide Span, IsSpace, StringToken, DollarToken, WordBody, CommentSpan;
    var s := [c] + rest;
    assert s[0] == c && (|s| >= 2 ==> s[1] == rest[0] && s[..2] == [c, rest[0]]);
    LettersStartWords(c);
  }

  lemma LettersStartWords(c: char)
    requires !IsWordStart(c)
    ensures c != 'E' && c != 'e' && c != 'U' && c != 'u'
  {
  }

  /** Any other character is a symbol of its own. */
  lemma CharacterIsOneSymbol(lower: string -> string, inWord: bool, c: char, rest: string, sql: string,
                             tokens: seq<Token>)
    requires StandsAlone(c, rest) && |tokens| <= MAX_TOKENS
    ensures ParseRest(lower, inWord, [c] + rest, sql, tokens) ==
            ParseRest(lower, IsWordPart(c), rest, sql + [c], tokens + [Symbol([c])])
  {
    hide NextStep, ParseRest, StandsAlone;
    SymbolStep(lower, inWord, c, rest);
    EmitReads(lower, inWord, [c], rest, sql, tokens, Symbol([c]));
  }

  /** A dollar quote in the middle of a source is one string token with the text between its delimiters. */
  lemma DollarQuoteInContext(lower: string -> string, inWord: bool, tag: string, v: string, rest: string, sql: string,
                             tokens: seq<Token>)
    requires ValidTag(tag) && |tokens| <= MAX_TOKENS
    requires var d := "$" + tag + "$"; NoneBefore(v + d, d, |v|)
    ensures var quoted := ("$" + tag + "$") + (v + ("$" + tag + "$"));
            ParseRest(lower, inWord, quoted + rest, sql, tokens) ==
            ParseRest(lower, true, rest, sql + quoted, tokens + [Str(v)])
  {
    hide NextStep, ParseRest, NoneBefore, ValidTag;
    var d := "$" + tag + "$";
    var quoted := d + (v + d);
    DollarQuotedIsOneToken(lower, inWord, tag, v, rest);
    assert d + (v + (d + rest)) == quoted + rest;
    assert quoted[|quoted| - 1] == '$';
    EmitReads(lower, inWord, quoted, rest, sql, tokens, Str(v));
  }

  // ---------------------------------------------------------------- statements

  lemma {:induction false} SpanEnds(f: char -> bool, a: string, x: string)
    requires Span(f, a + x) <= |a|
    ensures Span(f, a) == Span(f, a + x)
  {
    if a != "" {
      assert (a + x)[0] == a[0];
      Tails(a, x, 1);
      if f(a[0]) {
        SpanEnds(f, a[1..], x);
      }
    }
  }

  lemma {:induction false} WordBodyEnds(a: string, x: string)
    requires "" < x && x[0] != '"' && WordBody(a + x).Body? && WordBody(a + x).used <= |a|
    ensures WordBody(a) == WordBody(a + x)
    decreases |a|
  {
    var s := a + x;
    assert s[0] == a[0] && s[1] == if |a| >= 2 then a[1] else x[0];
    Tails(a, x, 1);
    if a[0] == '"' {
      if s[1] == '"' {
        Tails(a, x, 2);
        WordBodyEnds(a[2..], x);
      }
    } else {
      WordBodyEnds(a[1..], x);
    }
  }

  lemma {:induction false} StringBodyEnds(mode: Mode, a: string, x: string)
    requires "" < x && x[0] != '\'' && StringBody(mode, a + x).Body? && StringBody(mode, a + x).used <= |a|
    ensures StringBody(mode, a) == StringBody(mode, a + x)
    decreases |a|
  {
    var s := a + x;
    assert s[0] == a[0] && s[1] == if |a| >= 2 then a[1] else x[0];
    if mode != Plain && a[0] == '\\' {
      hide StringBody, EscapeAt;
      StringBodyEscape(mode, s);
      StringBodyEscape(mode, a);
      StringBodyCloses(mode, s);
      EscapeHolds(mode, a, x, "", StringBody(mode, s).used);
      assert a + "" == a;
      var n := EscapeAt(mode, s).used;
      Tails(a, x, n);
      StringBodyEnds(mode, a[n..], x);
    } else {
      hide UnicodeEscapeAt, BackslashEscapeAt;
      Tails(a, x, 1);
      if a[0] == '\'' {
        if s[1] == '\'' {
          Tails(a, x, 2);
          StringBodyEnds(mode, a[2..], x);
        }
      } else {
        StringBodyEnds(mode, a[1..], x);
      }
    }
  }

  const END := ";'"

  lemma EndStopsSpans(a: string)
    ensures Span(IsSpace, a + END) <= |a| && Span(IsTagPart, a + END) <= |a|
  {
    hide Span;
    assert a + END == (a + ";") + "'";
    SpanStops(IsSpace, a + ";", "'");
    SpanStops(IsTagPart, a + ";", "'");
  }

  lemma DelimiterEnds(a: string)
    requires a != "" && a[0] == '$'
    ensures DollarDelimiter(a) == DollarDelimiter(a + END)
  {
    hide Span;
    var s := a + END;
    assert s[0] == '$' && s[1] == if |a| >= 2 then a[1] else ';';
    if |a| >= 2 && IsTagStart(a[1]) {
      Tails(a, END, 2);
      EndStopsSpans(a[2..]);
      SpanEnds(IsTagPart, a[2..], END);
    }
  }

  lemma StartsEnds(w: string, n: nat)
    requires n <= |w|
    ensures StartsWithUescape(w[n..]) == StartsWithUescape((w + END)[n..])
    ensures StartsWithUescape(w[n..]) ==> n + 7 <= |w|
  {
    var s, t := (w + END)[n..], w[n..];
    assert forall i | 0 <= i < |w| - n :: s[i] == t[i];
    assert s[|w| - n] == ';';
    if |w| - n < 7 {
      assert !StartsWithUescape(s);
    }
  }

  lemma ClauseEnds(w: string)
    requires UescapeClause(w + END).Some? ==> UescapeClause(w + END).value.1 <= |w|
    ensures UescapeClause(w) == UescapeClause(w + END)
  {
    hide Span, StartsWithUescape, IsSpace, IsLineTerminator;
    var s := w + END;
    EndStopsSpans(w);
    SpanEnds(IsSpace, w, END);
    var n := Span(IsSpace, s);
    StartsEnds(w, n);
    if n > 0 && StartsWithUescape(s[n..]) {
      Tails(w, END, n + 7);
      EndStopsSpans(w[n + 7..]);
      SpanEnds(IsSpace, w[n + 7..], END);
      var k := n + 7 + Span(IsSpace, s[n + 7..]);
      assert forall i | 0 <= i < |w| :: s[i] == w[i];
      assert s[|w|] == ';' && s[|w| + 1] == '\'';
      EndIsNoLineEnd();
    }
  }

  lemma EndIsNoLineEnd()
    ensures !IsLineTerminator(';')
  {
  }

  lemma StringTokenEnds(mode: Mode, a: string, open: nat)
    requires 1 <= open <= |a|
    requires !StringToken(mode, a + END, open).Reject? && Used(StringToken(mode, a + END, open)) <= |a|
    ensures StringToken(mode, a, open) == StringToken(mode, a + END, open)
  {
    hide StringBody, UescapeClause, DecodeUnicode;
    var s := a + END;
    Tails(a, END, open);
    StringBodyEnds(mode, a[open..], END);
    var used := open + StringBody(mode, s[open..]).used;
    Tails(a, END, used);
    if mode == Unicode {
      ClauseEnds(a[used..]);
    }
    assert s[open..used - 1] == a[open..used - 1];
  }

  /** A step before a semicolon is the same where the source ends instead. */
  lemma StepEnds(lower: string -> string, inWord: bool, a: string)
    requires a != ""
    requires var step := NextStep(lower, inWord, a + END); !step.Reject? && Used(step) <= |a|
    ensures NextStep(lower, inWord, a) == NextStep(lower, inWord, a + END)
  {
    hide Span, CommentSpan, StringToken, WordBody, DollarDelimiter, DollarToken, SymbolToken, IsSpace, IsWordPart,
         IsTagPart, IsWordStart, NotLineEnd;
    var s := a + END;
    assert s[0] == a[0] && s[1] == if |a| >= 2 then a[1] else ';';
    assert s[2] == if |a| >= 3 then a[2] else if |a| == 2 then ';' else '\'';
    assert a + "" == a;
    if IsSpace(a[0]) {
    } else if |a| >= 2 && a[0] == '-' && a[1] == '-' {
      Tails(a, END, 2);
      SpanEnds(NotLineEnd, a[2..], END);
    } else if |a| >= 2 && a[0] == '/' && a[1] == '*' {
      Tails(a, END, 2);
      CommentAgrees(a[2..], END, "", 1);
      assert a[2..] + "" == a[2..];
    } else if a[0] == '\'' {
      StringTokenEnds(Plain, a, 1);
    } else if |a| >= 2 && (a[0] == 'E' || a[0] == 'e') && a[1] == '\'' && !inWord {
      StringTokenEnds(Backslash, a, 2);
    } else if |a| >= 3 && (a[0] == 'U' || a[0] == 'u') && a[1] == '&' && a[2] == '\'' && !inWord {
      StringTokenEnds(Unicode, a, 3);
    } else if a[0] == '"' {
      Tails(a, END, 1);
      WordBodyEnds(a[1..], END);
    } else {
      PlainStepEnds(lower, inWord, a);
    }
  }

  lemma PlainStepEnds(lower: string -> string, inWord: bool, a: string)
    requires a != "" && !IsSpace(a[0]) && !IsQuote(a[0])
    requires !(|a| >= 2 && a[0] == '-' && a[1] == '-') && !(|a| >= 2 && a[0] == '/' && a[1] == '*')
    requires !(|a| >= 2 && (a[0] == 'E' || a[0] == 'e') && a[1] == '\'' && !inWord)
    requires !(|a| >= 3 && (a[0] == 'U' || a[0] == 'u') && a[1] == '&' && a[2] == '\'' && !inWord)
    requires var step := NextStep(lower, inWord, a + END); !step.Reject? && Used(step) <= |a|
    ensures NextStep(lower, inWord, a) == NextStep(lower, inWord, a + END)
  {
    hide Span, CommentSpan, StringToken, WordBody, DollarDelimiter, DollarToken, IsSpace, IsWordPart, IsTagPart,
         IsWordStart, NotLineEnd;
    var s := a + END;
    assert s[0] == a[0] && s[1] == if |a| >= 2 then a[1] else ';';
    assert |a| >= 2 ==> s[..2] == a[..2] && s[2] == if |a| >= 3 then a[2] else ';';
    assert |a| == 1 ==> s[..2] == [a[0], ';'];
    if a[0] == '$' && DollarDelimiter(s).Some? {
      DelimiterEnds(a);
      DollarAgrees(a, END, "", DollarDelimiter(s).value);
      assert a + "" == a;
    } else {
      if a[0] == '$' {
        DelimiterEnds(a);
      }
      if IsWordStart(a[0]) {
        Tails(a, END, 1);
        SpanEnds(IsWordPart, a[1..], END);
        assert forall n | 0 <= n <= |a| :: s[..n] == a[..n];
      }
    }
  }

  /** A settled text at the end of a source: its last statement ends there. */
  lemma {:induction false} SettledEndsStatement(lower: string -> string, inWord: bool, t: string, sql: string,
                                                tokens: seq<Token>)
    requires Settled(lower, inWord, t, ';')
    ensures var c := Collect(lower, inWord, t, ';', sql, tokens);
            ParseRest(lower, inWord, t, sql, tokens) ==
            if c.None? then None else Some(c.value.done + Finish(c.value.sql, c.value.tokens))
    decreases |t|
  {
    hide NextStep, Settled, ParseRest, Collect;
    if t == "" {
      CollectNothing(lower, inWord, ';', sql, tokens);
      ParseNothing(lower, sql, tokens);
      assert [] + Finish(sql, tokens) == Finish(sql, tokens);
    } else if |tokens| > MAX_TOKENS {
      TooManyTokens(lower, inWord, t, ';', t, sql, tokens);
    } else {
      SettledStep(lower, inWord, t, ';');
      StepEnds(lower, inWord, t);
      var step := NextStep(lower, inWord, t);
      var n := Used(step);
      var after := IsWordPart(t[n - 1]);
      ParseOne(lower, inWord, t, sql, tokens);
      CollectOne(lower, inWord, t, ';', sql, tokens);
      match step
      case Skip(_) => SettledEndsStatement(lower, after, t[n..], sql + t[..n], tokens);
      case Emit(token, _) => SettledEndsStatement(lower, after, t[n..], sql + t[..n], tokens + [token]);
      case Semicolon =>
        SemicolonHere(lower, inWord, t);
        SettledEndsStatement(lower, after, t[n..], "", []);
        var c := Collect(lower, after, t[n..], ';', "", []);
        if c.Some? {
          var first := Finish(sql, tokens);
          assert first + (c.value.done + Finish(c.value.sql, c.value.tokens)) ==
                 first + c.value.done + Finish(c.value.sql, c.value.tokens);
        }
    }
  }

  lemma SemicolonStep(lower: string -> string, inWord: bool, rest: string)
    ensures NextStep(lower, inWord, ";" + rest) == Semicolon
  {
    hide Span, StringToken, DollarToken, WordBody, CommentSpan;
    var s := ";" + rest;
    assert s[0] == ';' && (|s| >= 2 ==> s[..2][0] == ';');
  }

  /** Reading a text, a semicolon and another text gives the statements of the first and then those of the
      second, if the main loop comes to the semicolon. */
  lemma SemicolonSeparates(lower: string -> string, inWord: bool, a: string, b: string, sql: string,
                           tokens: seq<Token>)
    requires Settled(lower, inWord, a, ';')
    requires var r := ParseRest(lower, inWord, a, sql, tokens);
             r.Some? ==> forall st | st in r.value :: |st.tokens| <= MAX_TOKENS
    ensures var r := ParseRest(lower, inWord, a, sql, tokens);
            ParseRest(lower, inWord, a + (";" + b), sql, tokens) ==
            if r.None? then None else After(r.value, ParseRest(lower, false, b, "", []))
  {
    hide NextStep, Settled, ParseRest, Collect, InWordAfter;
    var c := Collect(lower, inWord, a, ';', sql, tokens);
    SettledEndsStatement(lower, inWord, a, sql, tokens);
    SettledIsLocal(lower, inWord, a, ';', b, sql, tokens);
    assert [';'] + b == ";" + b;
    if c.Some? {
      var last := Finish(c.value.sql, c.value.tokens);
      LastIsSmall(c.value.done, c.value.sql, c.value.tokens);
      SemicolonStep(lower, InWordAfter(inWord, a), b);
      ParseOne(lower, InWordAfter(inWord, a), ";" + b, c.value.sql, c.value.tokens);
      assert (";" + b)[1..] == b;
      AfterTwice(c.value.done, last, ParseRest(lower, false, b, "", []));
    }
  }

  lemma LastIsSmall(done: seq<Statement>, sql: string, tokens: seq<Token>)
    requires forall st | st in done + Finish(sql, tokens) :: |st.tokens| <= MAX_TOKENS
    ensures |tokens| <= MAX_TOKENS
  {
    if tokens != [] {
      assert (done + Finish(sql, tokens))[|done|] == Statement(sql, tokens);
    }
  }

  /** A statement has no more tokens than its text has characters. */
  lemma {:induction false} TokensFit(lower: string -> string, inWord: bool, s: string, sql: string, tokens: seq<Token>)
    ensures var r := ParseRest(lower, inWord, s, sql, tokens);
            r.Some? ==> forall st | st in r.value :: |st.tokens| <= |tokens| + |s|
    decreases |s|
  {
    hide NextStep, ParseRest;
    if s == "" {
      ParseNothing(lower, sql, tokens);
    } else if |tokens| > MAX_TOKENS {
      TooManyForMore(lower, inWord, s, sql, tokens);
    } else if NextStep(lower, inWord, s).Reject? {
      RejectedHere(lower, inWord, s, sql, tokens);
    } else {
      var step := NextStep(lower, inWord, s);
      var n := Used(step);
      var after := IsWordPart(s[n - 1]);
      ParseOne(lower, inWord, s, sql, tokens);
      match step
      case Skip(_) => TokensFit(lower, after, s[n..], sql + s[..n], tokens);
      case Emit(token, _) => TokensFit(lower, after, s[n..], sql + s[..n], tokens + [token]);
      case Semicolon => TokensFit(lower, false, s[1..], "", []);
    }
  }

  /** Plain text, such as a list of words and operators, with a semicolon after it. */
  lemma PlainStatementsSeparate(lower: string -> string, a: string, b: string)
    requires IsPlain(a) && |a| <= MAX_TOKENS && |a| + 1 + |b| <= MAX_LENGTH
    ensures var r := Parse(lower, a);
            Parse(lower, a + (";" + b)) == if r.None? then None else After(r.value, Parse(lower, b))
  {
    hide IsPlain, Settled, ParseRest;
    PlainTextIsSettled(lower, false, a, ';');
    TokensFit(lower, false, a, "", []);
    SemicolonSeparates(lower, false, a, b, "", []);
  }

  // ---------------------------------------------------------------- numbers in escapes

  function HexDigit(d: nat): char
    requires d < 16
  {
    "0123456789abcdef"[d]
  }

  lemma HexDigitValue(d: nat)
    requires d < 16
    ensures Json.HexValue(HexDigit(d)) == d && IsHex(HexDigit(d)) && IsLowerHex(HexDigit(d))
    ensures HexDigit(d) != '\'' && HexDigit(d) != '\\' && HexDigit(d) != '+'
  {
  }

  /** The number with this many hexadecimal digits. */
  function HexText(n: nat, width: nat): (s: string)
    ensures |s| == width
  {
    if width == 0 then "" else HexText(n / 16, width - 1) + [HexDigit(n % 16)]
  }

  function Bound(width: nat): nat {
    if width == 0 then 1 else 16 * Bound(width - 1)
  }

  lemma {:induction false} HexReads(n: nat, width: nat)
    requires n < Bound(width)
    ensures Digits(HexText(n, width), 16) == n
  {
    if width > 0 {
      HexReads(n / 16, width - 1);
      HexDigitValue(n % 16);
      var s := HexText(n, width);
      assert s[..|s| - 1] == HexText(n / 16, width - 1);
    }
  }

  lemma {:induction false} HexIsHex(n: nat, width: nat, i: nat)
    requires i < width
    ensures var c := HexText(n, width)[i]; IsHex(c) && IsLowerHex(c) && c != '\'' && c != '\\' && c != '+'
    decreases width
  {
    HexDigitValue(n % 16);
    if i < width - 1 {
      HexIsHex(n / 16, width - 1, i);
    }
  }

  lemma {:induction false} SpanUpToAll(f: char -> bool, a: string, rest: string)
    requires forall i | 0 <= i < |a| :: f(a[i])
    ensures SpanUpTo(f, a + rest, |a|) == |a|
  {
    if a != "" {
      assert (a + rest)[0] == a[0] && (a + rest)[1..] == a[1..] + rest;
      SpanUpToAll(f, a[1..], rest);
    }
  }

  lemma {:induction false} SpanUpToMore(f: char -> bool, s: string, few: nat, many: nat)
    requires few <= many
    ensures SpanUpTo(f, s, few) <= SpanUpTo(f, s, many)
  {
    if few > 0 && s != "" && f(s[0]) {
      SpanUpToMore(f, s[1..], few - 1, many - 1);
    }
  }

  lemma HexSpan(n: nat, width: nat, max: nat, rest: string)
    requires width <= max
    ensures SpanUpTo(IsLowerHex, HexText(n, width) + rest, max) >= width
    ensures SpanUpTo(IsHex, HexText(n, width) + rest, width) == width
  {
    hide IsHex, IsLowerHex, HexText;
    var a := HexText(n, width);
    forall i | 0 <= i < |a| ensures IsHex(a[i]) && IsLowerHex(a[i]) {
      HexIsHex(n, width, i);
    }
    SpanUpToAll(IsLowerHex, a, rest);
    SpanUpToAll(IsHex, a, rest);
    SpanUpToMore(IsLowerHex, a + rest, width, max);
  }

  /** A code that is a character: no surrogate, and not above U+10FFFF. */
  predicate IsCode(n: nat) {
    n < 0xD800 || 0xE000 <= n <= 0x10FFFF
  }

  function CharOfCode(n: nat): char
    requires IsCode(n)
  {
    n as char
  }

  lemma CodeReads(n: nat, width: nat, used: nat)
    requires IsCode(n) && n < Bound(width)
    ensures CodeEscape(HexText(n, width), 16, used) == Escape([CharOfCode(n)], used)
  {
    hide Digits, HexText;
    HexReads(n, width);
  }

  lemma Bounds()
    ensures Bound(2) == 0x100 && Bound(4) == 0x1_0000 && Bound(6) == 0x100_0000 && Bound(8) == 0x1_0000_0000
  {
    assert Bound(1) == 16 && Bound(3) == 4096 && Bound(5) == 0x10_0000 && Bound(7) == 0x1000_0000;
  }

  // ---------------------------------------------------------------- E'' literals

  /** The ways to write a character in an E'' literal: as it is; a quote doubled; with a backslash, as one of the
      letters b f n r t, or as itself; or by its code in three octal, two, four or eight hexadecimal digits. */
  datatype Coded =
    | AsIs(c: char)
    | DoubledQuote
    | Letter(letter: char)
    | Itself(self: char)
    | Octal(code: nat)
    | Hex2(code: nat)
    | Hex4(code: nat)
    | Hex8(code: nat)

  predicate ValidCoded(k: Coded) {
    match k
    case AsIs(c) => c != '\'' && c != '\\'
    case DoubledQuote => true
    case Letter(c) => c == 'b' || c == 'f' || c == 'n' || c == 'r' || c == 't'
    case Itself(c) => !IsOctal(c) && c != 'b' && c != 'f' && c != 'n' && c != 'r' && c != 't' &&
                      c != 'x' && c != 'u' && c != 'U'
    case Octal(n) => n < 512
    case Hex2(n) => n < 0x100
    case Hex4(n) => n < 0x1_0000 && IsCode(n)
    case Hex8(n) => IsCode(n)
  }

  function OctalText(n: nat): string
    requires n < 512
  {
    [HexDigit(n / 64), HexDigit(n / 8 % 8), HexDigit(n % 8)]
  }

  function CodedText(k: Coded): string
    requires ValidCoded(k)
  {
    match k
    case AsIs(c) => [c]
    case DoubledQuote => "''"
    case Letter(c) => ['\\', c]
    case Itself(c) => ['\\', c]
    case Octal(n) => "\\" + OctalText(n)
    case Hex2(n) => "\\x" + HexText(n, 2)
    case Hex4(n) => "\\u" + HexText(n, 4)
    case Hex8(n) => "\\U" + HexText(n, 8)
  }

  function CodedChar(k: Coded): char
    requires ValidCoded(k)
  {
    match k
    case AsIs(c) => c
    case DoubledQuote => '\''
    case Letter(c) =>
      if c == 'b' then 8 as char else if c == 'f' then 12 as char else if c == 'n' then '\n'
      else if c == 'r' then '\r' else '\t'
    case Itself(c) => c
    case Octal(n) => CharOfCode(n)
    case Hex2(n) => CharOfCode(n)
    case Hex4(n) => CharOfCode(n)
    case Hex8(n) => CharOfCode(n)
  }

  predicate AllCoded(ks: seq<Coded>) {
    forall i | 0 <= i < |ks| :: ValidCoded(ks[i])
  }

  function EncodedText(ks: seq<Coded>): string
    requires AllCoded(ks)
  {
    if ks == [] then "" else CodedText(ks[0]) + EncodedText(ks[1..])
  }

  function EncodedValue(ks: seq<Coded>): string
    requires AllCoded(ks)
  {
    if ks == [] then "" else [CodedChar(ks[0])] + EncodedValue(ks[1..])
  }

  lemma OneMoreDigit(s: string, d: nat, base: nat)
    requires d < 16
    ensures Digits(s + [HexDigit(d)], base) == Digits(s, base) * base + d
  {
    HexDigitValue(d);
    assert (s + [HexDigit(d)])[..|s|] == s;
  }

  lemma OctalDigits(n: nat)
    requires n < 512
    ensures n / 64 < 8 && n / 8 % 8 < 8 && n % 8 < 8
    ensures (n / 64 * 8 + n / 8 % 8) * 8 + n % 8 == n
  {
    assert n / 8 / 8 == n / 64;
  }

  lemma OctalReads(n: nat, rest: string)
    requires n < 512
    ensures SpanUpTo(IsOctal, OctalText(n) + rest, 3) == 3 && Digits(OctalText(n), 8) == n
  {
    OctalDigits(n);
    OctalDigitsRead(n / 64, n / 8 % 8, n % 8, rest);
  }

  lemma OctalDigitsRead(a: nat, b: nat, c: nat, rest: string)
    requires a < 8 && b < 8 && c < 8
    ensures var text := [HexDigit(a), HexDigit(b), HexDigit(c)];
            SpanUpTo(IsOctal, text + rest, 3) == 3 && Digits(text, 8) == (a * 8 + b) * 8 + c
  {
    hide Digits, SpanUpTo, HexDigit, IsOctal;
    var text := [HexDigit(a), HexDigit(b), HexDigit(c)];
    OctalDigit(a);
    OctalDigit(b);
    OctalDigit(c);
    SpanUpToAll(IsOctal, text, rest);
    NoDigits();
    OneMoreDigit("", a, 8);
    OneMoreDigit([HexDigit(a)], b, 8);
    OneMoreDigit([HexDigit(a), HexDigit(b)], c, 8);
    assert "" + [HexDigit(a)] == [HexDigit(a)];
    assert [HexDigit(a)] + [HexDigit(b)] == [HexDigit(a), HexDigit(b)];
    assert [HexDigit(a), HexDigit(b)] + [HexDigit(c)] == text;
  }

  lemma NoDigits()
    ensures Digits("", 8) == 0
  {
  }

  lemma OctalDigit(d: nat)
    requires d < 8
    ensures IsOctal(HexDigit(d))
  {
  }

  lemma NoOctal(s: string)
    requires s != "" && !IsOctal(s[0])
    ensures SpanUpTo(IsOctal, s, 3) == 0
  {
  }

  lemma OctalCodeReads(n: nat, rest: string)
    requires n < 512
    ensures BackslashEscapeAt("\\" + OctalText(n) + rest) == Escape([CharOfCode(n)], 4)
  {
    hide SpanUpTo, Digits, OctalText;
    var s := "\\" + OctalText(n) + rest;
    OctalLength(n);
    OctalReads(n, rest);
    assert s[1..] == OctalText(n) + rest && s[1..4] == OctalText(n);
  }

  lemma OctalLength(n: nat)
    requires n < 512
    ensures |OctalText(n)| == 3
  {
  }

  /** A code after one of the letters x, u and U. */
  lemma HexCodeReads(letter: char, width: nat, n: nat, rest: string)
    requires (letter == 'x' && width == 2) || (letter == 'u' && width == 4) || (letter == 'U' && width == 8)
    requires IsCode(n) && n < Bound(width)
    ensures BackslashEscapeAt(['\\', letter] + HexText(n, width) + rest) == Escape([CharOfCode(n)], 2 + width)
  {
    hide SpanUpTo, HexText, Digits, Bound;
    var s := ['\\', letter] + HexText(n, width) + rest;
    NoOctal(s[1..]);
    HexSpan(n, width, 8, rest);
    CodeReads(n, width, 2 + width);
    assert s[2..] == HexText(n, width) + rest && s[2..2 + width] == HexText(n, width);
  }

  lemma LetterReads(c: char, rest: string)
    requires ValidCoded(Letter(c)) || ValidCoded(Itself(c))
    ensures BackslashEscapeAt(['\\', c] + rest) == Escape([ControlEscape(c)], 2)
  {
    hide SpanUpTo;
    NoOctal((['\\', c] + rest)[1..]);
  }

  /** Each way with a backslash reads back. */
  lemma CodedReads(k: Coded, rest: string)
    requires ValidCoded(k) && !k.AsIs? && !k.DoubledQuote?
    ensures BackslashEscapeAt(CodedText(k) + rest) == Escape([CodedChar(k)], |CodedText(k)|)
  {
    hide BackslashEscapeAt, HexText, Bound, OctalText;
    Bounds();
    match k
    case Letter(c) => LetterReads(c, rest);
    case Itself(c) => LetterReads(c, rest);
    case Octal(n) =>
      OctalLength(n);
      OctalCodeReads(n, rest);
    case Hex2(n) =>
      assert "\\x" == ['\\', 'x'];
      HexCodeReads('x', 2, n, rest);
    case Hex4(n) =>
      assert "\\u" == ['\\', 'u'];
      HexCodeReads('u', 4, n, rest);
    case Hex8(n) =>
      assert "\\U" == ['\\', 'U'];
      HexCodeReads('U', 8, n, rest);
  }

  /** What is left of a literal after one character. */
  lemma CodedStep(k: Coded, rest: string)
    requires ValidCoded(k)
    ensures StringBody(Backslash, CodedText(k) + rest) ==
            Before([CodedChar(k)], |CodedText(k)|, StringBody(Backslash, rest))
  {
    hide BackslashEscapeAt, UnicodeEscapeAt, HexText;
    var text := CodedText(k);
    var s := text + rest;
    assert s[|text|..] == rest && s[0] == text[0];
    if !k.AsIs? && !k.DoubledQuote? {
      CodedReads(k, rest);
    } else if k.DoubledQuote? {
      assert s[1] == '\'';
    }
  }

  lemma {:induction false} EncodedReads(ks: seq<Coded>, rest: string)
    requires AllCoded(ks) && !("'" <= rest)
    ensures StringBody(Backslash, EncodedText(ks) + ("'" + rest)) == Body(EncodedValue(ks), |EncodedText(ks)| + 1)
    decreases |ks|
  {
    hide StringBody, CodedText, CodedChar, ValidCoded;
    var end := "'" + rest;
    if ks == [] {
      assert "" + end == end;
      ClosingQuote(Backslash, rest);
    } else {
      var text, tail := CodedText(ks[0]), EncodedText(ks[1..]);
      assert text + tail + end == text + (tail + end);
      CodedStep(ks[0], tail + end);
      EncodedReads(ks[1..], rest);
    }
  }

  lemma ClosingQuote(mode: Mode, rest: string)
    requires !("'" <= rest)
    ensures StringBody(mode, "'" + rest) == Body("", 1)
  {
    var s := "'" + rest;
    if rest != "" {
      assert s[1] == rest[0] && rest[0] != '\'';
    }
  }

  /** An E'' literal reads back to the value, however each of its characters is written. */
  lemma EscapedLiteralReadsBack(lower: string -> string, prefix: char, ks: seq<Coded>, rest: string, sql: string,
                                tokens: seq<Token>)
    requires (prefix == 'E' || prefix == 'e') && AllCoded(ks) && !("'" <= rest) && |tokens| <= MAX_TOKENS
    ensures var literal := [prefix] + "'" + EncodedText(ks) + "'";
            ParseRest(lower, false, literal + rest, sql, tokens) ==
            ParseRest(lower, false, rest, sql + literal, tokens + [Str(EncodedValue(ks))])
  {
    hide NextStep, ParseRest, EncodedText, EncodedValue, StringBody;
    var literal := [prefix] + "'" + EncodedText(ks) + "'";
    EncodedReads(ks, rest);
    EscapedStep(lower, prefix, EncodedText(ks) + ("'" + rest));
    assert literal + rest == [prefix] + "'" + (EncodedText(ks) + ("'" + rest));
    EmitReads(lower, false, literal, rest, sql, tokens, Str(EncodedValue(ks)));
  }

  lemma EscapedStep(lower: string -> string, prefix: char, body: string)
    requires prefix == 'E' || prefix == 'e'
    ensures NextStep(lower, false, [prefix] + "'" + body) ==
            var b := StringBody(Backslash, body); if b.Broken? then Reject else Emit(Str(b.value), 2 + b.used)
  {
    hide StringBody, Span, CommentSpan, WordBody, DollarToken, SymbolToken, IsSpace;
    EIsNoSpace();
    LowerEIsNoSpace();
    var s := [prefix] + "'" + body;
    assert s[0] == prefix && s[1] == '\'' && s[2..] == body;
  }

  lemma LowerEIsNoSpace()
    ensures !IsSpace('e') && !IsSpace('u') && !IsSpace('U')
  {
  }

  // ---------------------------------------------------------------- U&'' literals

  /** The ways to write a character in a U&'' literal with this escape character. */
  datatype UCoded = UAsIs(c: char) | UDoubledQuote | UEscape | UHex4(code: nat) | UHex6(code: nat)

  predicate ValidUCoded(k: UCoded, escape: char) {
    match k
    case UAsIs(c) => c != '\'' && c != escape && c != '\\'
    case UDoubledQuote => true
    case UEscape => true
    case UHex4(n) => n < 0x1_0000 && IsCode(n)
    case UHex6(n) => IsCode(n)
  }

  function UCodedText(k: UCoded, escape: char): string {
    match k
    case UAsIs(c) => [c]
    case UDoubledQuote => "''"
    case UEscape => [escape, escape]
    case UHex4(n) => [escape] + HexText(n, 4)
    case UHex6(n) => [escape] + "+" + HexText(n, 6)
  }

  function UCodedChar(k: UCoded, escape: char): char
    requires ValidUCoded(k, escape)
  {
    match k
    case UAsIs(c) => c
    case UDoubledQuote => '\''
    case UEscape => escape
    case UHex4(n) => CharOfCode(n)
    case UHex6(n) => CharOfCode(n)
  }

  predicate AllUCoded(ks: seq<UCoded>, escape: char) {
    forall i | 0 <= i < |ks| :: ValidUCoded(ks[i], escape)
  }

  function UEncodedText(ks: seq<UCoded>, escape: char): string {
    if ks == [] then "" else UCodedText(ks[0], escape) + UEncodedText(ks[1..], escape)
  }

  function UEncodedValue(ks: seq<UCoded>, escape: char): string
    requires AllUCoded(ks, escape)
  {
    if ks == [] then "" else [UCodedChar(ks[0], escape)] + UEncodedValue(ks[1..], escape)
  }

  lemma FirstHex(n: nat, width: nat)
    requires width > 0
    ensures var c := HexText(n, width)[0]; IsHex(c) && c != '\'' && c != '\\' && c != '+'
  {
    HexIsHex(n, width, 0);
  }

  lemma UCodedReads(k: UCoded, rest: string)
    requires ValidUCoded(k, '\\') && !k.UAsIs? && !k.UDoubledQuote?
    ensures UnicodeEscapeAt(UCodedText(k, '\\') + rest) == Escape([UCodedChar(k, '\\')], |UCodedText(k, '\\')|)
  {
    hide SpanUpTo, HexText, Digits, Bound, IsHex;
    var text := UCodedText(k, '\\');
    var s := text + rest;
    assert s[1..] == text[1..] + rest && s[2..] == text[2..] + rest;
    Bounds();
    match k
    case UEscape => NoHex(s[1..]);
    case UHex4(n) =>
      FirstHex(n, 4);
      HexSpan(n, 4, 8, rest);
      CodeReads(n, 4, 5);
      assert text[1..] == HexText(n, 4) && s[1..5] == HexText(n, 4);
    case UHex6(n) =>
      HexSpan(n, 6, 8, rest);
      CodeReads(n, 6, 8);
      assert text[2..] == HexText(n, 6) && s[2..8] == HexText(n, 6);
  }

  lemma NoHex(s: string)
    requires s != "" && s[0] == '\\'
    ensures SpanUpTo(IsHex, s, 4) == 0
  {
  }

  lemma UCodedStep(k: UCoded, rest: string)
    requires ValidUCoded(k, '\\')
    ensures StringBody(Unicode, UCodedText(k, '\\') + rest) ==
            Before([UCodedChar(k, '\\')], |UCodedText(k, '\\')|, StringBody(Unicode, rest))
  {
    hide BackslashEscapeAt, UnicodeEscapeAt, HexText;
    var text := UCodedText(k, '\\');
    var s := text + rest;
    assert s[|text|..] == rest && s[0] == text[0];
    if !k.UAsIs? && !k.UDoubledQuote? {
      UCodedReads(k, rest);
    } else if k.UDoubledQuote? {
      assert s[1] == '\'';
    }
  }

  lemma {:induction false} UEncodedReads(ks: seq<UCoded>, rest: string)
    requires AllUCoded(ks, '\\') && !("'" <= rest)
    ensures StringBody(Unicode, UEncodedText(ks, '\\') + ("'" + rest)) ==
            Body(UEncodedValue(ks, '\\'), |UEncodedText(ks, '\\')| + 1)
    decreases |ks|
  {
    hide StringBody, UCodedText, UCodedChar, ValidUCoded;
    var end := "'" + rest;
    if ks == [] {
      assert "" + end == end;
      ClosingQuote(Unicode, rest);
    } else {
      var text, tail := UCodedText(ks[0], '\\'), UEncodedText(ks[1..], '\\');
      assert text + tail + end == text + (tail + end);
      UCodedStep(ks[0], tail + end);
      UEncodedReads(ks[1..], rest);
    }
  }

  lemma UnicodeStep(lower: string -> string, prefix: char, body: string)
    requires prefix == 'U' || prefix == 'u'
    ensures NextStep(lower, false, [prefix] + "&'" + body) == StringToken(Unicode, [prefix] + "&'" + body, 3)
  {
    hide StringToken, Span, CommentSpan, WordBody, DollarToken, SymbolToken, IsSpace;
    LowerEIsNoSpace();
    var s := [prefix] + "&'" + body;
    assert s[0] == prefix && s[1] == '&' && s[2] == '\'';
  }

  /** A U&'' literal without a UESCAPE clause reads back to the value, however its characters are written. */
  lemma UnicodeLiteralReadsBack(lower: string -> string, prefix: char, ks: seq<UCoded>, rest: string, sql: string,
                                tokens: seq<Token>)
    requires (prefix == 'U' || prefix == 'u') && AllUCoded(ks, '\\') && |tokens| <= MAX_TOKENS
    requires !("'" <= rest) && UescapeClause(rest).None?
    ensures var literal := [prefix] + "&'" + UEncodedText(ks, '\\') + "'";
            ParseRest(lower, false, literal + rest, sql, tokens) ==
            ParseRest(lower, false, rest, sql + literal, tokens + [Str(UEncodedValue(ks, '\\'))])
  {
    hide NextStep, ParseRest, UEncodedText, UEncodedValue, StringBody, UescapeClause, DecodeUnicode;
    var text := UEncodedText(ks, '\\');
    var literal := [prefix] + "&'" + text + "'";
    var body := text + ("'" + rest);
    var s := [prefix] + "&'" + body;
    UEncodedReads(ks, rest);
    UnicodeStep(lower, prefix, body);
    assert literal + rest == s && s[3..] == body && s[|literal|..] == rest;
    EmitReads(lower, false, literal, rest, sql, tokens, Str(UEncodedValue(ks, '\\')));
  }

  // ---------------------------------------------------------------- UESCAPE clauses

  /** An escape character that the standard allows: no hexadecimal digit, plus sign or quote. */
  predicate ValidEscape(c: char) {
    !IsHex(c) && c != '+' && c != '\''
  }

  lemma DecodeStep(k: UCoded, escape: char, rest: string)
    requires ValidUCoded(k, escape) && ValidEscape(escape)
    ensures DecodeUnicode(UCodedText(k, escape) + rest, escape) ==
            Then([UCodedChar(k, escape)], DecodeUnicode(rest, escape))
  {
    hide SpanUpTo, HexText, Digits, Bound, IsHex, Then;
    var text := UCodedText(k, escape);
    var s := text + rest;
    assert s[|text|..] == rest && s[0] == text[0];
    Bounds();
    match k
    case UAsIs(c) =>
    case UDoubledQuote => assert s[1] == '\'';
    case UEscape => assert s[1] == escape;
    case UHex4(n) =>
      FirstHex(n, 4);
      assert s[1..] == HexText(n, 4) + rest && s[1] == HexText(n, 4)[0];
      HexSpan(n, 4, 8, rest);
      CodeReads(n, 4, 5);
      assert s[1..5] == HexText(n, 4);
    case UHex6(n) =>
      assert s[1] == '+' && s[2..] == HexText(n, 6) + rest;
      HexSpan(n, 6, 8, rest);
      CodeReads(n, 6, 8);
      assert s[2..8] == HexText(n, 6);
  }

  lemma {:induction false} DecodeReads(ks: seq<UCoded>, escape: char)
    requires AllUCoded(ks, escape) && ValidEscape(escape)
    ensures DecodeUnicode(UEncodedText(ks, escape), escape) == Some(UEncodedValue(ks, escape))
    decreases |ks|
  {
    hide UCodedText, UCodedChar, ValidUCoded, ValidEscape;
    if ks != [] {
      hide DecodeUnicode;
      DecodeStep(ks[0], escape, UEncodedText(ks[1..], escape));
      DecodeReads(ks[1..], escape);
    }
  }

  /** Where the literal ends is found before its escapes are known: none of them is a backslash or a single quote. */
  lemma {:induction false} ForeignBodyEnds(ks: seq<UCoded>, escape: char, rest: string)
    requires AllUCoded(ks, escape) && ValidEscape(escape) && escape != '\\' && !("'" <= rest)
    ensures var r := StringBody(Unicode, UEncodedText(ks, escape) + ("'" + rest));
            r.Body? && r.used == |UEncodedText(ks, escape)| + 1
    decreases |ks|
  {
    hide StringBody, UCodedText, UCodedChar, ValidUCoded, ValidEscape;
    var end := "'" + rest;
    if ks == [] {
      assert "" + end == end;
      ClosingQuote(Unicode, rest);
    } else {
      var text, tail := UCodedText(ks[0], escape), UEncodedText(ks[1..], escape);
      assert text + tail + end == text + (tail + end);
      ForeignStep(ks[0], escape, tail + end);
      ForeignBodyEnds(ks[1..], escape, rest);
    }
  }

  lemma {:induction false} PlainCharacters(text: string, rest: string)
    requires forall i | 0 <= i < |text| :: text[i] != '\'' && text[i] != '\\'
    ensures StringBody(Unicode, text + rest) == Before(text, |text|, StringBody(Unicode, rest))
    decreases |text|
  {
    hide UnicodeEscapeAt, BackslashEscapeAt;
    var s := text + rest;
    if text == "" {
      assert s == rest;
      if StringBody(Unicode, rest).Body? {
        assert "" + StringBody(Unicode, rest).value == StringBody(Unicode, rest).value;
      }
    } else {
      assert s[0] == text[0] && s[1..] == text[1..] + rest;
      PlainCharacters(text[1..], rest);
      BeforeTwice([text[0]], 1, text[1..], |text| - 1, StringBody(Unicode, rest));
      assert [text[0]] + text[1..] == text;
    }
  }

  lemma ForeignStep(k: UCoded, escape: char, rest: string)
    requires ValidUCoded(k, escape) && ValidEscape(escape) && escape != '\\'
    ensures var text := UCodedText(k, escape);
            var r, t := StringBody(Unicode, text + rest), StringBody(Unicode, rest);
            if t.Broken? then r.Broken? else r.Body? && r.used == |text| + t.used
  {
    hide UnicodeEscapeAt, BackslashEscapeAt, HexText, StringBody;
    var text := UCodedText(k, escape);
    if k.UDoubledQuote? {
      QuotePair(rest);
    } else {
      forall i | 0 <= i < |text| ensures text[i] != '\'' && text[i] != '\\' {
        match k
        case UAsIs(_) =>
        case UEscape =>
        case UHex4(n) =>
          if i > 0 {
            HexIsHex(n, 4, i - 1);
          }
        case UHex6(n) =>
          if i > 1 {
            HexIsHex(n, 6, i - 2);
          }
      }
      PlainCharacters(text, rest);
    }
  }

  lemma QuotePair(rest: string)
    ensures StringBody(Unicode, "''" + rest) == Before("'", 2, StringBody(Unicode, rest))
  {
    assert ("''" + rest)[2..] == rest;
  }

  /** The clause, written with any white space and in any case. */
  ghost predicate IsClause(clause: string, escape: char) {
    exists a, b, word :: ClauseParts(clause, a, word, b, escape)
  }

  predicate ClauseParts(clause: string, a: string, word: string, b: string, escape: char) {
    && a != "" && b != "" && (forall i | 0 <= i < |a| :: IsSpace(a[i])) && (forall i | 0 <= i < |b| :: IsSpace(b[i]))
    && |word| == 7 && StartsWithUescape(word) && clause == a + word + b + "'" + [escape] + "'"
  }

  lemma ClauseIsRead(clause: string, escape: char, rest: string)
    requires IsClause(clause, escape) && !IsLineTerminator(escape)
    ensures UescapeClause(clause + rest) == Some((escape, |clause|))
  {
    hide Span, IsSpace, StartsWithUescape, IsLineTerminator;
    var a, b, word :| ClauseParts(clause, a, word, b, escape);
    var s := clause + rest;
    var end := "'" + [escape] + "'" + rest;
    assert s == a + (word + (b + end));
    WordStartsNoSpace(word);
    SpanIs(IsSpace, a, word + (b + end));
    assert s[|a|..] == word + (b + end);
    StartsWithMore(word, b + end);
    assert s[|a| + 7..] == b + end;
    StopIsPlain('\'');
    SpanIs(IsSpace, b, end);
  }

  lemma WordStartsNoSpace(word: string)
    requires |word| == 7 && StartsWithUescape(word)
    ensures !IsSpace(word[0])
  {
  }

  lemma StartsWithMore(word: string, rest: string)
    requires |word| == 7 && StartsWithUescape(word)
    ensures StartsWithUescape(word + rest)
  {
  }

  /** A U&'' literal with a UESCAPE clause reads back to the value that its escape character gives it. */
  lemma UescapeLiteralReadsBack(lower: string -> string, prefix: char, ks: seq<UCoded>, escape: char, clause: string,
                                rest: string, sql: string, tokens: seq<Token>)
    requires (prefix == 'U' || prefix == 'u') && AllUCoded(ks, escape) && |tokens| <= MAX_TOKENS
    requires ValidEscape(escape) && escape != '\\' && !IsLineTerminator(escape) && IsClause(clause, escape)
    ensures var literal := [prefix] + "&'" + UEncodedText(ks, escape) + "'" + clause;
            ParseRest(lower, false, literal + rest, sql, tokens) ==
            ParseRest(lower, false, rest, sql + literal, tokens + [Str(UEncodedValue(ks, escape))])
  {
    hide NextStep, ParseRest, UEncodedText, UEncodedValue, StringBody, UescapeClause, DecodeUnicode, ValidEscape,
         IsLineTerminator, IsClause;
    var text := UEncodedText(ks, escape);
    var literal := [prefix] + "&'" + text + "'" + clause;
    var body := text + ("'" + (clause + rest));
    var s := [prefix] + "&'" + body;
    ClauseEndsInQuote(clause, escape);
    ClauseStart(clause, rest, escape);
    ForeignBodyEnds(ks, escape, clause + rest);
    ClauseIsRead(clause, escape, rest);
    DecodeReads(ks, escape);
    UnicodeStep(lower, prefix, body);
    assert literal + rest == s && s[3..] == body && s[4 + |text|..] == clause + rest;
    assert s[3..3 + |text|] == text;
    EmitReads(lower, false, literal, rest, sql, tokens, Str(UEncodedValue(ks, escape)));
  }

  lemma ClauseEndsInQuote(clause: string, escape: char)
    requires IsClause(clause, escape)
    ensures clause != "" && clause[|clause| - 1] == '\''
  {
    hide IsSpace, StartsWithUescape;
  }

  lemma ClauseStart(clause: string, rest: string, escape: char)
    requires IsClause(clause, escape)
    ensures !("'" <= clause + rest)
  {
    hide StartsWithUescape;
    var a, b, word :| ClauseParts(clause, a, word, b, escape);
    assert (clause + rest)[0] == a[0] && IsSpace(a[0]);
  }

  // ---------------------------------------------------------------- the other placeholders of format

  lemma {:induction false} DecimalReads(n: nat)
    ensures Digits(Decimal.NatToString(n), 10) == n
  {
    var s := Decimal.NatToString(n);
    DecimalDigit(n % 10);
    if n < 10 {
      assert s[..|s| - 1] == "";
    } else {
      DecimalReads(n / 10);
      assert s[..|s| - 1] == Decimal.NatToString(n / 10);
    }
  }

  lemma DecimalDigit(d: nat)
    requires d < 10
    ensures Json.HexValue(Decimal.DigitChar(d)) == d
  {
  }

  /** A placeholder with a position takes the argument at that position, whatever came before it, and does not
      use up one of the others. */
  lemma PositionIsRead(n: nat, specifier: char, rest: string, args: seq<Option<string>>, next: nat)
    requires specifier == 's' || specifier == 'I' || specifier == 'L'
    ensures Render("%" + Decimal.NatToString(n) + "$" + [specifier] + rest, args, next) ==
            if n >= |args| || args[n].None? then None
            else Then(Rendering(specifier, args[n].value), Render(rest, args, next))
  {
    hide Span, Digits, Rendering, Then;
    var digits := Decimal.NatToString(n);
    var t := "%" + digits + "$" + [specifier] + rest;
    assert t[1..] == digits + ("$" + [specifier] + rest);
    SpanIs(IsDigit, digits, "$" + [specifier] + rest);
    DecimalReads(n);
    assert t[1..|digits| + 1] == digits && t[|digits| + 1] == '$' && t[|digits| + 2] == specifier;
    assert t[|digits| + 3..] == rest;
    assert PlaceholderAt(t) == Placeholder(Some(n), specifier, |digits| + 3);
  }

  /** A %s takes the next argument as it is. */
  lemma RawArgumentIsCopied(rest: string, args: seq<Option<string>>, next: nat)
    ensures Render("%s" + rest, args, next) ==
            if next >= |args| || args[next].None? then None
            else Then(args[next].value, Render(rest, args, next + 1))
  {
    hide Then;
    var t := "%s" + rest;
    assert t[2..] == rest && Span(IsDigit, t[1..]) == 0;
    assert PlaceholderAt(t) == Placeholder(None, 's', 2);
  }

  // ---------------------------------------------------------------- what a statement is

  /** No statement is empty: white space, comments and semicolons alone give none. */
  lemma {:induction false} StatementsHaveTokens(lower: string -> string, inWord: bool, s: string, sql: string,
                                                tokens: seq<Token>)
    ensures var r := ParseRest(lower, inWord, s, sql, tokens);
            r.Some? ==> forall st | st in r.value :: st.tokens != []
    decreases |s|
  {
    hide NextStep, ParseRest;
    if s == "" {
      ParseNothing(lower, sql, tokens);
    } else if |tokens| > MAX_TOKENS {
      TooManyForMore(lower, inWord, s, sql, tokens);
    } else if NextStep(lower, inWord, s).Reject? {
      RejectedHere(lower, inWord, s, sql, tokens);
    } else {
      var step := NextStep(lower, inWord, s);
      var n := Used(step);
      var after := IsWordPart(s[n - 1]);
      ParseOne(lower, inWord, s, sql, tokens);
      match step
      case Skip(_) => StatementsHaveTokens(lower, after, s[n..], sql + s[..n], tokens);
      case Emit(token, _) => StatementsHaveTokens(lower, after, s[n..], sql + s[..n], tokens + [token]);
      case Semicolon => StatementsHaveTokens(lower, false, s[1..], "", []);
    }
  }

  lemma SemicolonIsRead(lower: string -> string, inWord: bool, s: string)
    requires s != "" && NextStep(lower, inWord, s).Semicolon?
    ensures s[0] == ';'
  {
  }

  /** Text without a semicolon is one statement, with that text and all its tokens, or none if it has no token. */
  lemma {:induction false} TextIsOneStatement(lower: string -> string, inWord: bool, s: string, sql: string,
                                              tokens: seq<Token>)
    requires ';' !in s
    ensures var r := ParseRest(lower, inWord, s, sql, tokens);
            r.Some? ==>
              || (r.value == [] && tokens == [])
              || (|r.value| == 1 && r.value[0].sql == sql + s && r.value[0].tokens != [] &&
                  tokens <= r.value[0].tokens)
    decreases |s|
  {
    hide NextStep, ParseRest;
    if s == "" {
      ParseNothing(lower, sql, tokens);
      assert sql + s == sql;
    } else if |tokens| > MAX_TOKENS {
      TooManyForMore(lower, inWord, s, sql, tokens);
    } else if NextStep(lower, inWord, s).Reject? {
      RejectedHere(lower, inWord, s, sql, tokens);
    } else {
      assert s[0] in s;
      var step := NextStep(lower, inWord, s);
      var n := Used(step);
      var after := IsWordPart(s[n - 1]);
      ParseOne(lower, inWord, s, sql, tokens);
      assert sql + s[..n] + s[n..] == sql + s;
      match step
      case Skip(_) => TextIsOneStatement(lower, after, s[n..], sql + s[..n], tokens);
      case Emit(token, _) => TextIsOneStatement(lower, after, s[n..], sql + s[..n], tokens + [token]);
      case Semicolon =>
        SemicolonIsRead(lower, inWord, s);
    }
  }

  /** Longer sources than 8388608 characters are rejected, and shorter ones read; a statement with more than 100000
      tokens is rejected exactly if anything follows them, were it a space. */
  lemma LimitsAreExact(lower: string -> string, source: string, inWord: bool, sql: string, tokens: seq<Token>)
    ensures Parse(lower, source) ==
            if |source| > 8_388_608 then None else ParseRest(lower, false, source, "", [])
    ensures |tokens| > 100_000 && source != "" ==> ParseRest(lower, inWord, source, sql, tokens) == None
    ensures |tokens| <= 100_000 ==> ParseRest(lower, inWord, " ", sql, tokens) == Some(Finish(sql + " ", tokens))
  {
    hide NextStep, ParseRest;
    if |tokens| > 100_000 {
      if source != "" {
        TooManyForMore(lower, inWord, source, sql, tokens);
      }
    } else {
      SpaceIsSkipped(lower, inWord, ' ', "", sql, tokens);
      assert [' '] + "" == " " && [' '] == " ";
      ParseNothing(lower, sql + " ", tokens);
    }
  }
}
