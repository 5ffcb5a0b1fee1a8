/**
 The SQL lexer of the currency-rates preservation check, and the quoting of its format evaluator.
 The functions read the rest of the source, s, and say how many of its characters they use; the
 methods are the loops of the source over an index. lower is String.prototype.toLowerCase.
 */
module SqlLexer {
  import opened Wrappers
  import opened Characters
  import Json

  datatype Token =
    | Word(text: string, quoted: bool)
    | Str(text: string)
    | Symbol(text: string)

  datatype Statement = Statement(sql: string, tokens: seq<Token>)

  const MAX_LENGTH := 8_388_608
  const MAX_TOKENS := 100_000

  // ---------------------------------------------------------------- character classes

  predicate IsWordStart(c: char) {
    'A' <= c <= 'Z' || 'a' <= c <= 'z' || c == '_' || c >= '\U{0080}'
  }

  predicate IsWordPart(c: char) {
    IsWordStart(c) || '0' <= c <= '9' || c == '$'
  }

  predicate IsTagStart(c: char) {
    'A' <= c <= 'Z' || 'a' <= c <= 'z' || c == '_'
  }

  predicate IsTagPart(c: char) {
    IsTagStart(c) || '0' <= c <= '9'
  }

  /** Number of leading characters of a class. */
  function Span(f: char -> bool, s: string): (n: nat)
    ensures n <= |s|
  {
    if s != "" && f(s[0]) then 1 + Span(f, s[1..]) else 0
  }

  /** The same, but no more than max. */
  function SpanUpTo(f: char -> bool, s: string, max: nat): (n: nat)
    ensures n <= |s| && n <= max
  {
    if max > 0 && s != "" && f(s[0]) then 1 + SpanUpTo(f, s[1..], max - 1) else 0
  }

  // ---------------------------------------------------------------- escapes

  predicate IsHex(c: char) {
    Json.HexValue(c) >= 0
  }

  predicate IsLowerHex(c: char) {
    '0' <= c <= '9' || 'a' <= c <= 'f'
  }

  predicate IsOctal(c: char) {
    '0' <= c <= '7'
  }

  function Digits(s: string, base: nat): nat {
    if s == "" then 0
    else
      var d := Json.HexValue(s[|s| - 1]);
      Digits(s[..|s| - 1], base) * base + if d >= 0 then d else 0
  }

  /** String.fromCodePoint; a surrogate reads as U+FFFD. */
  function FromCodePoint(n: nat): Option<string> {
    if n > 0x10_FFFF then None
    else if 0xD800 <= n < 0xE000 then Some("\U{FFFD}")
    else Some([n as char])
  }

  datatype Escape = NoEscape | Escape(text: string, used: nat)

  function CodeEscape(digits: string, base: nat, used: nat): Escape {
    var c := FromCodePoint(Digits(digits, base));
    if c.None? then NoEscape else Escape(c.value, used)
  }

  function ControlEscape(c: char): char {
    if c == 'b' then 8 as char
    else if c == 'f' then 12 as char
    else if c == 'n' then '\n'
    else if c == 'r' then '\r'
    else if c == 't' then '\t'
    else c
  }

  /** \+XXXXXX, \XXXX or \\ in a U&'' string; s begins with the backslash. */
  function UnicodeEscapeAt(s: string): (r: Escape)
    ensures r.Escape? ==> 1 <= r.used <= |s|
  {
    if |s| >= 8 && s[1] == '+' && SpanUpTo(IsHex, s[2..], 6) == 6 then CodeEscape(s[2..8], 16, 8)
    else if |s| >= 5 && SpanUpTo(IsHex, s[1..], 4) == 4 then CodeEscape(s[1..5], 16, 5)
    else if |s| >= 2 && s[1] == '\\' then Escape("\\", 2)
    else NoEscape
  }

  /** The escapes of an E'' string, whose hexadecimal digits are lower case. */
  function BackslashEscapeAt(s: string): (r: Escape)
    ensures r.Escape? ==> 1 <= r.used <= |s|
  {
    if |s| < 2 then NoEscape
    else
      var octal := SpanUpTo(IsOctal, s[1..], 3);
      var hex := SpanUpTo(IsLowerHex, s[2..], 8);
      if octal > 0 then CodeEscape(s[1..1 + octal], 8, 1 + octal)
      else if s[1] == 'x' && hex >= 1 then
        var n := if hex >= 2 then 2 else 1;
        CodeEscape(s[2..2 + n], 16, 2 + n)
      else if s[1] == 'u' && hex >= 4 then CodeEscape(s[2..6], 16, 6)
      else if s[1] == 'U' && hex >= 8 then CodeEscape(s[2..10], 16, 10)
      else Escape([ControlEscape(s[1])], 2)
  }

  datatype Mode = Plain | Backslash | Unicode

  // ---------------------------------------------------------------- quoted bodies

  /** value: what the body stands for. used: characters up to and including the closing quote. */
  datatype Body = Broken | Body(value: string, used: nat)

  function Before(text: string, used: nat, b: Body): Body {
    if b.Broken? then Broken else Body(text + b.value, used + b.used)
  }

  /** A string literal after its opening quote: a doubled quote stands for one. */
  function StringBody(mode: Mode, s: string): (r: Body)
    ensures r.Body? ==> 1 <= r.used <= |s|
    decreases |s|
  {
    if s == "" then Broken
    else if s[0] == '\'' then
      if |s| >= 2 && s[1] == '\'' then Before("'", 2, StringBody(mode, s[2..])) else Body("", 1)
    else if mode != Plain && s[0] == '\\' then
      var e := if mode == Unicode then UnicodeEscapeAt(s) else BackslashEscapeAt(s);
      if e.NoEscape? then Broken else Before(e.text, e.used, StringBody(mode, s[e.used..]))
    else Before([s[0]], 1, StringBody(mode, s[1..]))
  }

  /** A quoted identifier after its opening quote. */
  function WordBody(s: string): (r: Body)
    ensures r.Body? ==> 1 <= r.used <= |s|
    decreases |s|
  {
    if s == "" then Broken
    else if s[0] == '"' then
      if |s| >= 2 && s[1] == '"' then Before("\"", 2, WordBody(s[2..])) else Body("", 1)
    else Before([s[0]], 1, WordBody(s[1..]))
  }

  lemma BeforeTwice(a: string, m: nat, b: string, n: nat, r: Body)
    ensures Before(a, m, Before(b, n, r)) == Before(a + b, m + n, r)
  {
    if r.Body? {
      assert a + (b + r.value) == a + b + r.value;
    }
  }

  method ScanString(mode: Mode, source: string, from: nat) returns (r: Body)
    requires from <= |source|
    ensures r == StringBody(mode, source[from..])
  {
    hide StringBody, UnicodeEscapeAt, BackslashEscapeAt;
    var index, value := from, "";
    while index < |source|
      invariant from <= index <= |source|
      invariant StringBody(mode, source[from..]) == Before(value, index - from, StringBody(mode, source[index..]))
      decreases |source| - index
    {
      var step := StringStep(mode, source, index);
      if step.Broken? {
        return Broken;
      }
      if step.value == "" && step.used == 0 {
        return Body(value, index + 1 - from);
      }
      BeforeTwice(value, index - from, step.value, step.used, StringBody(mode, source[index + step.used..]));
      value := value + step.value;
      index := index + step.used;
    }
    StringEnds(mode, source, index);
    return Broken;
  }

  lemma StringEnds(mode: Mode, source: string, index: nat)
    requires index == |source|
    ensures StringBody(mode, source[index..]) == Broken
  {
  }

  /** One turn of the loop over a string literal; nothing used means that the quote closes it. */
  method StringStep(mode: Mode, source: string, index: nat) returns (r: Body)
    requires index < |source|
    ensures r.Broken? ==> StringBody(mode, source[index..]) == Broken
    ensures r.Body? && r.used == 0 ==> r.value == "" && StringBody(mode, source[index..]) == Body("", 1)
    ensures r.Body? && r.used > 0 ==>
              && index + r.used <= |source|
              && StringBody(mode, source[index..]) ==
                 Before(r.value, r.used, StringBody(mode, source[index + r.used..]))
  {
    hide UnicodeEscapeAt, BackslashEscapeAt;
    var s := source[index..];
    if source[index] == '\'' && index + 1 < |source| && source[index + 1] == '\'' {
      assert s[2..] == source[index + 2..];
      return Body("'", 2);
    }
    if source[index] == '\'' {
      return Body("", 0);
    }
    if mode != Plain && source[index] == '\\' {
      var e := if mode == Unicode then UnicodeEscapeAt(s) else BackslashEscapeAt(s);
      if e.NoEscape? {
        return Broken;
      }
      assert s[e.used..] == source[index + e.used..];
      return Body(e.text, e.used);
    }
    assert s[1..] == source[index + 1..];
    return Body([source[index]], 1);
  }

  method ScanQuotedWord(source: string, from: nat) returns (r: Body)
    requires from <= |source|
    ensures r == WordBody(source[from..])
  {
    var index, value := from, "";
    while index < |source|
      invariant from <= index <= |source|
      invariant WordBody(source[from..]) == Before(value, index - from, WordBody(source[index..]))
    {
      if source[index] == '"' && index + 1 < |source| && source[index + 1] == '"' {
        assert source[index..][2..] == source[index + 2..];
        BeforeTwice(value, index - from, "\"", 2, WordBody(source[index + 2..]));
        value := value + "\"";
        index := index + 2;
      } else if source[index] == '"' {
        return Body(value, index + 1 - from);
      } else {
        assert source[index..][1..] == source[index + 1..];
        BeforeTwice(value, index - from, [source[index]], 1, WordBody(source[index + 1..]));
        value := value + [source[index]];
        index := index + 1;
      }
    }
    return Broken;
  }

  // ---------------------------------------------------------------- comments, dollar quotes, clauses

  /** Characters of a block comment after its opener, up to and including the closer; comments nest. */
  function CommentSpan(s: string, depth: nat): (r: Option<nat>)
    ensures r.Some? ==> r.value <= |s|
    decreases |s|
  {
    if depth == 0 then Some(0)
    else if s == "" then None
    else if |s| >= 2 && s[0] == '/' && s[1] == '*' then Plus(2, CommentSpan(s[2..], depth + 1))
    else if |s| >= 2 && s[0] == '*' && s[1] == '/' then Plus(2, CommentSpan(s[2..], depth - 1))
    else Plus(1, CommentSpan(s[1..], depth))
  }

  function Plus(n: nat, r: Option<nat>): Option<nat> {
    if r.None? then None else Some(n + r.value)
  }

  /** One turn of the loop over a block comment: how many characters, and the depth after them. */
  function CommentTurn(s: string, depth: nat): (r: (nat, nat))
    requires s != "" && depth > 0
    ensures 1 <= r.0 <= |s|
  {
    if |s| >= 2 && s[0] == '/' && s[1] == '*' then (2, depth + 1)
    else if |s| >= 2 && s[0] == '*' && s[1] == '/' then (2, depth - 1)
    else (1, depth)
  }

  lemma CommentTurns(source: string, index: nat, depth: nat)
    requires index < |source| && depth > 0
    ensures var (n, after) := CommentTurn(source[index..], depth);
            CommentSpan(source[index..], depth) == Plus(n, CommentSpan(source[index + n..], after))
  {
    var n := CommentTurn(source[index..], depth).0;
    assert source[index..][n..] == source[index + n..];
  }

  lemma CommentEnds()
    ensures forall depth: nat :: CommentSpan("", depth) == if depth == 0 then Some(0) else None
    ensures forall s :: CommentSpan(s, 0) == Some(0)
  {
  }

  method SkipBlockComment(source: string, from: nat) returns (r: Option<nat>)
    requires from <= |source|
    ensures r == CommentSpan(source[from..], 1)
  {
    hide CommentSpan, CommentTurn;
    var index, depth: nat := from, 1;
    CommentEnds();
    while index < |source| && depth > 0
      invariant from <= index <= |source|
      invariant CommentSpan(source[from..], 1) == Plus(index - from, CommentSpan(source[index..], depth))
      decreases |source| - index
    {
      CommentTurns(source, index, depth);
      var (n, after) := CommentTurn(source[index..], depth);
      index, depth := index + n, after;
    }
    return if depth > 0 then None else Some(index - from);
  }

  /** The delimiter of a dollar quote at the start of s, by its length. */
  function DollarDelimiter(s: string): (r: Option<nat>)
    requires s != "" && s[0] == '$'
    ensures r.Some? ==> 2 <= r.value <= |s|
  {
    var tag := if |s| >= 2 && IsTagStart(s[1]) then 1 + Span(IsTagPart, s[2..]) else 0;
    if 1 + tag < |s| && s[1 + tag] == '$' then Some(2 + tag) else None
  }

  /** The first occurrence of a text. */
  function IndexOf(s: string, text: string): (r: Option<nat>)
    ensures r.Some? ==> r.value + |text| <= |s| && text <= s[r.value..]
  {
    if text <= s then Some(0)
    else if s == "" then None
    else
      var later := IndexOf(s[1..], text);
      if later.None? then None else Some(later.value + 1)
  }

  predicate SameIgnoringCase(c: char, lower: char)
    requires 'a' <= lower <= 'z'
  {
    c == lower || c == (lower as int - 32) as char
  }

  predicate StartsWithUescape(s: string) {
    && |s| >= 7
    && SameIgnoringCase(s[0], 'u') && SameIgnoringCase(s[1], 'e') && SameIgnoringCase(s[2], 's')
    && SameIgnoringCase(s[3], 'c') && SameIgnoringCase(s[4], 'a') && SameIgnoringCase(s[5], 'p')
    && SameIgnoringCase(s[6], 'e')
  }

  predicate IsLineTerminator(c: char) {
    c == '\n' || c == '\r' || c == '\U{2028}' || c == '\U{2029}'
  }

  /** /^\s+uescape\s+'(.)'/i: the escape character and the length of the clause. */
  function UescapeClause(s: string): (r: Option<(char, nat)>)
    ensures r.Some? ==> r.value.1 <= |s|
  {
    var a := Span(IsSpace, s);
    if a == 0 || !StartsWithUescape(s[a..]) then None
    else
      var b := Span(IsSpace, s[a + 7..]);
      var k := a + 7 + b;
      if b > 0 && k + 3 <= |s| && s[k] == '\'' && !IsLineTerminator(s[k + 1]) && s[k + 2] == '\'' then
        Some((s[k + 1], k + 3))
      else None
  }

  /** The contents of a U&'' string read again with the clause's escape character. */
  function DecodeUnicode(s: string, escape: char): Option<string>
    decreases |s|
  {
    if s == "" then Some("")
    else if |s| >= 2 && s[0] == '\'' && s[1] == '\'' then Then("'", DecodeUnicode(s[2..], escape))
    else if s[0] != escape then Then([s[0]], DecodeUnicode(s[1..], escape))
    else if |s| >= 2 && s[1] == escape then Then([escape], DecodeUnicode(s[2..], escape))
    else
      var plus := |s| >= 2 && s[1] == '+';
      var length, start := if plus then 6 else 4, if plus then 2 else 1;
      if |s| < start + length || SpanUpTo(IsHex, s[start..], length) < length then None
      else
        var c := FromCodePoint(Digits(s[start..start + length], 16));
        if c.None? then None else Then(c.value, DecodeUnicode(s[start + length..], escape))
  }

  function Then(text: string, r: Option<string>): Option<string> {
    if r.None? then None else Some(text + r.value)
  }

  // ---------------------------------------------------------------- one step of the main loop

  datatype Step =
    | Reject
    | Skip(used: nat)                // white space or a comment
    | Emit(token: Token, used: nat)
    | Semicolon

  function Used(step: Step): nat
    requires !step.Reject?
  {
    match step
    case Skip(used) => used
    case Emit(_, used) => used
    case Semicolon => 1
  }

  predicate NotLineEnd(c: char) {
    c != '\r' && c != '\n'
  }

  /** A string literal whose body starts after open characters. */
  function StringToken(mode: Mode, s: string, open: nat): (r: Step)
    requires 1 <= open <= |s|
    ensures !r.Reject? ==> open < Used(r) <= |s|
  {
    var body := StringBody(mode, s[open..]);
    if body.Broken? then Reject
    else
      var used := open + body.used;
      var clause := if mode == Unicode then UescapeClause(s[used..]) else None;
      if clause.None? then Emit(Str(body.value), used)
      else
        var cooked := DecodeUnicode(s[open..used - 1], clause.value.0);
        if cooked.None? then Reject else Emit(Str(cooked.value), used + clause.value.1)
  }

  function DollarToken(s: string, delimiter: nat): (r: Step)
    requires 1 <= delimiter <= |s|
    ensures !r.Reject? ==> 1 <= Used(r) <= |s|
  {
    var end := IndexOf(s[delimiter..], s[..delimiter]);
    if end.None? then Reject
    else Emit(Str(s[delimiter..delimiter + end.value]), 2 * delimiter + end.value)
  }

  function SymbolToken(s: string): (r: Step)
    requires s != ""
    ensures !r.Reject? ==> 1 <= Used(r) <= |s|
  {
    if |s| >= 2 && (s[..2] == "||" || s[..2] == ":=") then Emit(Symbol(s[..2]), 2)
    else if s[0] == ';' then Semicolon
    else Emit(Symbol([s[0]]), 1)
  }

  /** What the main loop does at the start of s. inWord: the character before is part of a word, so an
      E or U here is no string prefix. */
  function NextStep(lower: string -> string, inWord: bool, s: string): (r: Step)
    requires s != ""
    ensures !r.Reject? ==> 1 <= Used(r) <= |s|
  {
    var c := s[0];
    var next := if |s| >= 2 then s[1] else c;
    if IsSpace(c) then Skip(1)
    else if |s| >= 2 && c == '-' && next == '-' then Skip(2 + Span(NotLineEnd, s[2..]))
    else if |s| >= 2 && c == '/' && next == '*' then
      var comment := CommentSpan(s[2..], 1);
      if comment.None? then Reject else Skip(2 + comment.value)
    else if c == '\'' then StringToken(Plain, s, 1)
    else if |s| >= 2 && (c == 'E' || c == 'e') && next == '\'' && !inWord then StringToken(Backslash, s, 2)
    else if |s| >= 3 && (c == 'U' || c == 'u') && next == '&' && s[2] == '\'' && !inWord then StringToken(Unicode, s, 3)
    else if c == '"' then
      var body := WordBody(s[1..]);
      if body.Broken? then Reject else Emit(Word(body.value, true), 1 + body.used)
    else if c == '$' && DollarDelimiter(s).Some? then DollarToken(s, DollarDelimiter(s).value)
    else if IsWordStart(c) then
      var n := 1 + Span(IsWordPart, s[1..]);
      Emit(Word(lower(s[..n]), false), n)
    else SymbolToken(s)
  }

  // ---------------------------------------------------------------- the main loop

  function Finish(sql: string, tokens: seq<Token>): seq<Statement> {
    if tokens == [] then [] else [Statement(sql, tokens)]
  }

  /** sql: the text of the statement so far; tokens: its tokens so far. */
  function ParseRest(lower: string -> string, inWord: bool, s: string, sql: string, tokens: seq<Token>)
    : Option<seq<Statement>>
    decreases |s|
  {
    if s == "" then Some(Finish(sql, tokens))
    else if |tokens| > MAX_TOKENS then None
    else
      var step := NextStep(lower, inWord, s);
      if step.Reject? then None
      else
        var n := Used(step);
        match step
        case Skip(_) => ParseRest(lower, IsWordPart(s[n - 1]), s[n..], sql + s[..n], tokens)
        case Emit(token, _) => ParseRest(lower, IsWordPart(s[n - 1]), s[n..], sql + s[..n], tokens + [token])
        case Semicolon => After(Finish(sql, tokens), ParseRest(lower, false, s[1..], "", []))
  }

  function After(first: seq<Statement>, r: Option<seq<Statement>>): Option<seq<Statement>> {
    if r.None? then None else Some(first + r.value)
  }

  function Parse(lower: string -> string, source: string): Option<seq<Statement>> {
    if |source| > MAX_LENGTH then None else ParseRest(lower, false, source, "", [])
  }

  lemma AfterTwice(a: seq<Statement>, b: seq<Statement>, r: Option<seq<Statement>>)
    ensures After(a, After(b, r)) == After(a + b, r)
  {
    if r.Some? {
      assert a + (b + r.value) == a + b + r.value;
    }
  }

  lemma AfterNothing(r: Option<seq<Statement>>)
    ensures After([], r) == r
  {
    if r.Some? {
      assert [] + r.value == r.value;
    }
  }

  /** The part of the source from index on, with what the loop has collected. */
  function ParseFrom(lower: string -> string, source: string, index: nat, start: nat, tokens: seq<Token>)
    : Option<seq<Statement>>
    requires start <= index <= |source|
  {
    ParseRest(lower, index > 0 && IsWordPart(source[index - 1]), source[index..], source[start..index], tokens)
  }

  lemma ParseFromStep(lower: string -> string, source: string, index: nat, start: nat, tokens: seq<Token>)
    requires start <= index < |source| && |tokens| <= MAX_TOKENS
    ensures var step := NextStep(lower, index > 0 && IsWordPart(source[index - 1]), source[index..]);
            ParseFrom(lower, source, index, start, tokens) ==
            match step
            case Reject => None
            case Skip(n) => ParseFrom(lower, source, index + n, start, tokens)
            case Emit(token, n) => ParseFrom(lower, source, index + n, start, tokens + [token])
            case Semicolon =>
              After(Finish(source[start..index], tokens), ParseFrom(lower, source, index + 1, index + 1, []))
  {
    hide NextStep;
    var s := source[index..];
    var step := NextStep(lower, index > 0 && IsWordPart(source[index - 1]), s);
    if !step.Reject? {
      var n := Used(step);
      assert s[n..] == source[index + n..];
      assert s[n - 1] == source[index + n - 1];
      assert source[start..index] + s[..n] == source[start..index + n];
      SemicolonHere(lower, index > 0 && IsWordPart(source[index - 1]), s);
      if step.Semicolon? {
        assert source[index + 1..index + 1] == "";
        assert !IsWordPart(source[index]);
      }
    }
  }

  lemma ParseFromEnds(lower: string -> string, source: string, index: nat, start: nat, tokens: seq<Token>)
    requires start <= index <= |source|
    ensures index == |source| ==>
              ParseFrom(lower, source, index, start, tokens) == Some(Finish(source[start..index], tokens))
    ensures index < |source| && |tokens| > MAX_TOKENS ==> ParseFrom(lower, source, index, start, tokens) == None
  {
    hide NextStep;
  }

  lemma SemicolonHere(lower: string -> string, inWord: bool, s: string)
    requires s != ""
    ensures NextStep(lower, inWord, s).Semicolon? ==> s[0] == ';'
  {
  }

  method ParseSql(lower: string -> string, source: string) returns (r: Option<seq<Statement>>)
    ensures r == Parse(lower, source)
  {
    hide NextStep, ParseRest;
    if |source| > MAX_LENGTH {
      return None;
    }
    var statements: seq<Statement> := [];
    var tokens: seq<Token> := [];
    var start: nat := 0;
    var index: nat := 0;
    assert source[0..] == source;
    AfterNothing(Parse(lower, source));
    while index < |source|
      invariant start <= index <= |source|
      invariant Parse(lower, source) == After(statements, ParseFrom(lower, source, index, start, tokens))
      decreases |source| - index
    {
      ParseFromEnds(lower, source, index, start, tokens);
      if |tokens| > MAX_TOKENS {
        return None;
      }
      var step := TakeStep(lower, source, index);
      ParseFromStep(lower, source, index, start, tokens);
      match step {
        case Reject => return None;
        case Skip(n) => index := index + n;
        case Emit(token, n) =>
          tokens := tokens + [token];
          index := index + n;
        case Semicolon =>
          AfterTwice(statements, Finish(source[start..index], tokens),
                     ParseFrom(lower, source, index + 1, index + 1, []));
          statements := statements + Finish(source[start..index], tokens);
          tokens := [];
          index := index + 1;
          start := index;
      }
    }
    ParseFromEnds(lower, source, index, start, tokens);
    return Some(statements + Finish(source[start..index], tokens));
  }

  /** The end of a line comment or a word, by its length. */
  method SkipSpan(f: char -> bool, source: string, from: nat) returns (n: nat)
    requires from <= |source|
    ensures n == Span(f, source[from..])
  {
    n := 0;
    while from + n < |source| && f(source[from + n])
      invariant from + n <= |source|
      invariant Span(f, source[from..]) == n + Span(f, source[from + n..])
    {
      assert source[from + n..][1..] == source[from + n + 1..];
      n := n + 1;
    }
  }

  method DecodeLoop(source: string, escape: char) returns (r: Option<string>)
    ensures r == DecodeUnicode(source, escape)
  {
    hide DecodeUnicode;
    var index, value := 0, "";
    assert source[0..] == source;
    ThenNothing(DecodeUnicode(source, escape));
    while index < |source|
      invariant index <= |source|
      invariant DecodeUnicode(source, escape) == Then(value, DecodeUnicode(source[index..], escape))
      decreases |source| - index
    {
      var step := DecodeTurn(source, escape, index);
      if step.NoEscape? {
        return None;
      }
      ThenTwice(value, step.text, DecodeUnicode(source[index + step.used..], escape));
      value := value + step.text;
      index := index + step.used;
    }
    DecodeEnds(source[index..], escape);
    assert value + "" == value;
    return Some(value);
  }

  lemma DecodeEnds(s: string, escape: char)
    ensures s == "" ==> DecodeUnicode(s, escape) == Some("")
  {
  }

  lemma ThenNothing(r: Option<string>)
    ensures Then("", r) == r
  {
    if r.Some? {
      assert "" + r.value == r.value;
    }
  }

  /** One turn of the loop over the contents of a U&'' string. */
  method DecodeTurn(source: string, escape: char, index: nat) returns (r: Escape)
    requires index < |source|
    ensures r.NoEscape? ==> DecodeUnicode(source[index..], escape) == None
    ensures r.Escape? ==>
              && 1 <= r.used && index + r.used <= |source|
              && DecodeUnicode(source[index..], escape) == Then(r.text, DecodeUnicode(source[index + r.used..], escape))
  {
    hide SpanUpTo, Digits, FromCodePoint;
    var s := source[index..];
    assert forall k | 0 <= k <= |s| :: s[k..] == source[index + k..];
    if |s| >= 2 && s[0] == '\'' && s[1] == '\'' {
      return Escape("'", 2);
    }
    if s[0] != escape {
      return Escape([s[0]], 1);
    }
    if |s| >= 2 && s[1] == escape {
      return Escape([escape], 2);
    }
    var plus := |s| >= 2 && s[1] == '+';
    var length, start := if plus then 6 else 4, if plus then 2 else 1;
    if |s| < start + length || SpanUpTo(IsHex, s[start..], length) < length {
      return NoEscape;
    }
    var c := FromCodePoint(Digits(s[start..start + length], 16));
    return if c.None? then NoEscape else Escape(c.value, start + length);
  }

  /** The string literal of any kind whose body starts at from, read from where it begins. */
  method TakeString(mode: Mode, source: string, index: nat, open: nat) returns (step: Step)
    requires 1 <= open && index + open <= |source|
    ensures step == StringToken(mode, source[index..], open)
  {
    hide StringBody, UescapeClause, DecodeUnicode;
    var s := source[index..];
    assert s[open..] == source[index + open..];
    var body := ScanString(mode, source, index + open);
    if body.Broken? {
      return Reject;
    }
    var used := open + body.used;
    var clause := if mode == Unicode then UescapeClause(s[used..]) else None;
    if clause.None? {
      return Emit(Str(body.value), used);
    }
    var cooked := DecodeLoop(s[open..used - 1], clause.value.0);
    return if cooked.None? then Reject else Emit(Str(cooked.value), used + clause.value.1);
  }

  /** The branches of the main loop at an index of the source. */
  method TakeStep(lower: string -> string, source: string, index: nat) returns (step: Step)
    requires index < |source|
    ensures step == NextStep(lower, index > 0 && IsWordPart(source[index - 1]), source[index..])
  {
    hide Span, CommentSpan, WordBody, StringToken, DollarDelimiter, DollarToken, IsWordPart, IsSpace;
    var s := source[index..];
    assert forall k | 0 <= k <= |s| :: s[k..] == source[index + k..];
    var inWord := index > 0 && IsWordPart(source[index - 1]);
    var c := s[0];
    if IsSpace(c) {
      return Skip(1);
    }
    if |s| >= 2 && c == '-' && s[1] == '-' {
      var n := SkipSpan(NotLineEnd, source, index + 2);
      return Skip(2 + n);
    }
    if |s| >= 2 && c == '/' && s[1] == '*' {
      var comment := SkipBlockComment(source, index + 2);
      return if comment.None? then Reject else Skip(2 + comment.value);
    }
    if c == '\'' {
      step := TakeString(Plain, source, index, 1);
      return;
    }
    if |s| >= 2 && (c == 'E' || c == 'e') && s[1] == '\'' && !inWord {
      step := TakeString(Backslash, source, index, 2);
      return;
    }
    if |s| >= 3 && (c == 'U' || c == 'u') && s[1] == '&' && s[2] == '\'' && !inWord {
      step := TakeString(Unicode, source, index, 3);
      return;
    }
    if c == '"' {
      var body := ScanQuotedWord(source, index + 1);
      return if body.Broken? then Reject else Emit(Word(body.value, true), 1 + body.used);
    }
    if c == '$' && DollarDelimiter(s).Some? {
      return DollarToken(s, DollarDelimiter(s).value);
    }
    if IsWordStart(c) {
      var n := SkipSpan(IsWordPart, source, index + 1);
      return Emit(Word(lower(s[..1 + n]), false), 1 + n);
    }
    return SymbolToken(s);
  }

  // ---------------------------------------------------------------- quoting

  /** value.replaceAll(c, cc) */
  function Doubled(c: char, v: string): string {
    if v == "" then "" else (if v[0] == c then [c, c] else [v[0]]) + Doubled(c, v[1..])
  }

  function QuoteIdentifier(v: string): string {
    "\"" + Doubled('"', v) + "\""
  }

  function QuoteLiteral(v: string): string {
    "'" + Doubled('\'', v) + "'"
  }

  /** A value as a format placeholder writes it. */
  datatype Quoted = Identifier(v: string) | Literal(v: string) {
    function Text(): string {
      match this
      case Identifier(v) => QuoteIdentifier(v)
      case Literal(v) => QuoteLiteral(v)
    }

    function Quote(): char {
      if Identifier? then '"' else '\''
    }

    function AsToken(): Token {
      match this
      case Identifier(v) => Word(v, true)
      case Literal(v) => Str(v)
    }
  }

  lemma WordBodyStep(c: char, rest: string)
    requires c != '"'
    ensures WordBody([c] + rest) == Before([c], 1, WordBody(rest))
  {
    assert ([c] + rest)[1..] == rest;
  }

  lemma WordBodyPair(rest: string)
    ensures WordBody("\"\"" + rest) == Before("\"", 2, WordBody(rest))
  {
    assert ("\"\"" + rest)[2..] == rest;
  }

  lemma {:induction false} WordBodyUndoes(v: string, post: string)
    ensures var r := WordBody(Doubled('"', v) + ("\"" + post));
            if post != "" && post[0] == '"' then r.Broken? || r.used > |Doubled('"', v)| + 1
            else r == Body(v, |Doubled('"', v)| + 1)
  {
    hide WordBody;
    if v == "" {
      assert Doubled('"', v) + ("\"" + post) == "\"" + post;
      WordBodyEnd(post);
    } else {
      var tail := Doubled('"', v[1..]) + ("\"" + post);
      WordBodyUndoes(v[1..], post);
      assert v == [v[0]] + v[1..];
      if v[0] == '"' {
        assert Doubled('"', v) + ("\"" + post) == "\"\"" + tail;
        WordBodyPair(tail);
      } else {
        assert Doubled('"', v) + ("\"" + post) == [v[0]] + tail;
        WordBodyStep(v[0], tail);
      }
    }
  }

  lemma WordBodyEnd(post: string)
    ensures var r := WordBody("\"" + post);
            if post != "" && post[0] == '"' then r.Broken? || r.used > 1 else r == Body("", 1)
  {
  }

  lemma StringBodyStep(c: char, rest: string)
    requires c != '\''
    ensures StringBody(Plain, [c] + rest) == Before([c], 1, StringBody(Plain, rest))
  {
    assert ([c] + rest)[1..] == rest;
  }

  lemma StringBodyPair(rest: string)
    ensures StringBody(Plain, "''" + rest) == Before("'", 2, StringBody(Plain, rest))
  {
    assert ("''" + rest)[2..] == rest;
  }

  lemma {:induction false} StringBodyUndoes(v: string, post: string)
    ensures var r := StringBody(Plain, Doubled('\'', v) + ("'" + post));
            if post != "" && post[0] == '\'' then r.Broken? || r.used > |Doubled('\'', v)| + 1
            else r == Body(v, |Doubled('\'', v)| + 1)
  {
    hide StringBody;
    if v == "" {
      assert Doubled('\'', v) + ("'" + post) == "'" + post;
      StringBodyEnd(post);
    } else {
      var tail := Doubled('\'', v[1..]) + ("'" + post);
      StringBodyUndoes(v[1..], post);
      assert v == [v[0]] + v[1..];
      if v[0] == '\'' {
        assert Doubled('\'', v) + ("'" + post) == "''" + tail;
        StringBodyPair(tail);
      } else {
        assert Doubled('\'', v) + ("'" + post) == [v[0]] + tail;
        StringBodyStep(v[0], tail);
      }
    }
  }

  lemma StringBodyEnd(post: string)
    ensures var r := StringBody(Plain, "'" + post);
            if post != "" && post[0] == '\'' then r.Broken? || r.used > 1 else r == Body("", 1)
  {
  }

  /** Lexing undoes quoting: where the main loop meets a quoted value, its next token is exactly that
      value, whatever the value holds, if and only if no further quote of the same kind follows. */
  lemma QuotedIsOneToken(lower: string -> string, inWord: bool, q: Quoted, post: string)
    ensures NextStep(lower, inWord, q.Text() + post) == Emit(q.AsToken(), |q.Text()|) <==>
            !(post != "" && post[0] == q.Quote())
  {
    match q
    case Identifier(v) => IdentifierIsOneToken(lower, inWord, v, post);
    case Literal(v) => LiteralIsOneToken(lower, inWord, v, post);
  }

  lemma IdentifierIsOneToken(lower: string -> string, inWord: bool, v: string, post: string)
    ensures NextStep(lower, inWord, QuoteIdentifier(v) + post) == Emit(Word(v, true), |QuoteIdentifier(v)|) <==>
            !(post != "" && post[0] == '"')
  {
    hide StringBody, WordBody, StringToken, SymbolToken, DollarToken, Doubled;
    var body := Doubled('"', v) + ("\"" + post);
    assert QuoteIdentifier(v) + post == "\"" + body;
    assert ("\"" + body)[1..] == body;
    WordBodyUndoes(v, post);
  }

  lemma LiteralIsOneToken(lower: string -> string, inWord: bool, v: string, post: string)
    ensures NextStep(lower, inWord, QuoteLiteral(v) + post) == Emit(Str(v), |QuoteLiteral(v)|) <==>
            !(post != "" && post[0] == '\'')
  {
    hide StringBody, WordBody, SymbolToken, DollarToken, Doubled;
    var body := Doubled('\'', v) + ("'" + post);
    assert QuoteLiteral(v) + post == "'" + body;
    assert ("'" + body)[1..] == body;
    StringBodyUndoes(v, post);
  }

  /** The tag of a dollar quote: empty, or like an identifier without dollar signs. */
  predicate ValidTag(tag: string) {
    tag == "" || (IsTagStart(tag[0]) && forall i | 1 <= i < |tag| :: IsTagPart(tag[i]))
  }

  lemma {:induction false} SpanIs(f: char -> bool, a: string, b: string)
    requires (forall i | 0 <= i < |a| :: f(a[i])) && (b == "" || !f(b[0]))
    ensures Span(f, a + b) == |a|
  {
    if a == "" {
      assert a + b == b;
    } else {
      assert (a + b)[1..] == a[1..] + b;
      SpanIs(f, a[1..], b);
    }
  }

  lemma TagIsFound(tag: string, rest: string)
    requires ValidTag(tag)
    ensures DollarDelimiter("$" + tag + "$" + rest) == Some(|tag| + 2)
  {
    hide Span;
    var s := "$" + tag + "$" + rest;
    assert s[1 + |tag|] == '$';
    if tag != "" {
      assert s[1] == tag[0];
      assert s[2..] == tag[1..] + ("$" + rest);
      SpanIs(IsTagPart, tag[1..], "$" + rest);
    }
  }

  /** No occurrence of a text starts before index k. */
  predicate NoneBefore(s: string, text: string, k: nat)
    requires k <= |s|
  {
    forall i | 0 <= i < k :: !(text <= s[i..])
  }

  lemma NoneBeforeTail(s: string, text: string, k: nat)
    requires 0 < k <= |s|
    ensures NoneBefore(s, text, k) <==> !(text <= s) && NoneBefore(s[1..], text, k - 1)
  {
    assert s[0..] == s;
    forall i | 1 <= i < k ensures s[i..] == s[1..][i - 1..] {
    }
    if NoneBefore(s, text, k) {
      forall i | 0 <= i < k - 1 ensures !(text <= s[1..][i..]) {
        assert s[1..][i..] == s[i + 1..];
      }
    }
  }

  lemma {:induction false} FirstOccurrence(s: string, text: string, k: nat)
    requires k + |text| <= |s| && text <= s[k..]
    ensures IndexOf(s, text) == Some(k) <==> NoneBefore(s, text, k)
    decreases k
  {
    hide NoneBefore;
    if k == 0 {
      assert s[0..] == s;
      assert NoneBefore(s, text, 0) by {
        NothingBefore(s, text);
      }
    } else {
      NoneBeforeTail(s, text, k);
      assert s[1..][k - 1..] == s[k..];
      FirstOccurrence(s[1..], text, k - 1);
    }
  }

  lemma NothingBefore(s: string, text: string)
    ensures NoneBefore(s, text, 0)
  {
  }

  /** An occurrence of the delimiter that starts in the text of a dollar quote ends in its closing delimiter. */
  lemma NoneBeforeEnd(v: string, d: string, post: string)
    ensures NoneBefore(v + (d + post), d, |v|) <==> NoneBefore(v + d, d, |v|)
  {
    forall i | 0 <= i < |v| ensures d <= (v + (d + post))[i..] <==> d <= (v + d)[i..] {
      assert (v + (d + post))[i..][..|d|] == (v + d)[i..][..|d|];
    }
  }

  /** A dollar quote is one token with exactly the text between its delimiters, whatever quotes, escapes
      or comments that text holds, if and only if the delimiter does not occur before its end. */
  lemma DollarQuotedIsOneToken(lower: string -> string, inWord: bool, tag: string, v: string, post: string)
    requires ValidTag(tag)
    ensures var d := "$" + tag + "$";
            NextStep(lower, inWord, d + (v + (d + post))) == Emit(Str(v), 2 * |d| + |v|) <==>
            NoneBefore(v + d, d, |v|)
  {
    hide ValidTag, NextStep, DollarDelimiter, DollarToken, IndexOf, NoneBefore;
    var d := "$" + tag + "$";
    var body := v + (d + post);
    assert d + body == "$" + tag + "$" + body;
    TagIsFound(tag, body);
    DollarStep(lower, inWord, d + body, |d|);
    assert body[|v|..] == d + post;
    FirstOccurrence(body, d, |v|);
    NoneBeforeEnd(v, d, post);
    DollarEnds(d, v, d + post);
  }

  lemma DollarEnds(d: string, v: string, rest: string)
    requires d != ""
    ensures var s := d + (v + rest);
            DollarToken(s, |d|) == Emit(Str(v), 2 * |d| + |v|) <==> IndexOf(v + rest, d) == Some(|v|)
  {
    hide IndexOf;
    var s := d + (v + rest);
    assert s[..|d|] == d && s[|d|..] == v + rest;
    assert s[|d|..|d| + |v|] == v;
  }

  lemma DollarStep(lower: string -> string, inWord: bool, s: string, d: nat)
    requires s != "" && s[0] == '$' && DollarDelimiter(s) == Some(d)
    ensures NextStep(lower, inWord, s) == DollarToken(s, d)
  {
    hide DollarDelimiter, DollarToken;
  }

  /** A source that is one quoted value is one statement with one token, of the value's own text. */
  lemma QuotedAlone(lower: string -> string, q: Quoted)
    requires |q.Text()| <= MAX_LENGTH
    ensures Parse(lower, q.Text()) == Some([Statement(q.Text(), [q.AsToken()])])
  {
    hide NextStep, ParseRest;
    var s := q.Text();
    QuotedIsOneToken(lower, false, q, "");
    assert s + "" == s && s[|s|..] == "" && s[..|s|] == s && "" + s == s;
    ParseEmit(lower, false, s, "", [], q.AsToken(), |s|);
    assert [] + [q.AsToken()] == [q.AsToken()];
    ParseNothing(lower, s, [q.AsToken()]);
  }

  lemma ParseNothing(lower: string -> string, sql: string, tokens: seq<Token>)
    ensures forall inWord :: ParseRest(lower, inWord, "", sql, tokens) == Some(Finish(sql, tokens))
  {
  }

  lemma ParseEmit(lower: string -> string, inWord: bool, s: string, sql: string, tokens: seq<Token>, token: Token,
                  n: nat)
    requires s != "" && |tokens| <= MAX_TOKENS && NextStep(lower, inWord, s) == Emit(token, n)
    ensures 1 <= n <= |s|
    ensures ParseRest(lower, inWord, s, sql, tokens) ==
            ParseRest(lower, IsWordPart(s[n - 1]), s[n..], sql + s[..n], tokens + [token])
  {
    hide NextStep;
  }

  /** A quoted value in the middle of a source: the statement goes on with one more token, and what
      follows is read as it would be on its own. */
  lemma QuotedInContext(lower: string -> string, inWord: bool, q: Quoted, post: string, sql: string, tokens: seq<Token>)
    requires !(post != "" && post[0] == q.Quote()) && |tokens| <= MAX_TOKENS
    ensures ParseRest(lower, inWord, q.Text() + post, sql, tokens) ==
            ParseRest(lower, false, post, sql + q.Text(), tokens + [q.AsToken()])
  {
    hide NextStep, ParseRest;
    var s := q.Text() + post;
    var n := |q.Text()|;
    QuotedIsOneToken(lower, inWord, q, post);
    ParseEmit(lower, inWord, s, sql, tokens, q.AsToken(), n);
    assert s[..n] == q.Text() && s[n..] == post;
    assert s[n - 1] == q.Quote();
  }

  // ---------------------------------------------------------------- text before a placeholder

  /** The main loop, reading s, comes to index n. */
  predicate StepsTo(lower: string -> string, inWord: bool, s: string, n: nat)
    requires n <= |s|
    decreases n
  {
    n == 0 ||
    var step := NextStep(lower, inWord, s);
    && !step.Reject? && Used(step) <= n
    && StepsTo(lower, IsWordPart(s[Used(step) - 1]), s[Used(step)..], n - Used(step))
  }

  predicate IsQuote(c: char) {
    c == '"' || c == '\''
  }

  /** What a text before it is tried with: a quote or a semicolon. */
  predicate IsStop(c: char) {
    IsQuote(c) || c == ';'
  }

  /** A lone apostrophe, as a placeholder of either kind writes it, or a semicolon with one after it. */
  function Probe(quote: char): string {
    if quote == '"' then "\"'\"" else if quote == ';' then ";'" else "''''"
  }

  /** The main loop, reading this text with a lone apostrophe as the value after it, or with a semicolon, comes
      to the value or the semicolon. */
  predicate Settled(lower: string -> string, inWord: bool, t: string, quote: char) {
    StepsTo(lower, inWord, t + Probe(quote), |t|)
  }

  lemma {:induction false} SpanAgrees(f: char -> bool, a: string, x: string, y: string)
    requires Span(f, a + x) < |a|
    ensures Span(f, a + y) == Span(f, a + x)
  {
    assert (a + x)[0] == a[0] == (a + y)[0];
    assert (a + x)[1..] == a[1..] + x && (a + y)[1..] == a[1..] + y;
    if f(a[0]) {
      SpanAgrees(f, a[1..], x, y);
    }
  }

  lemma {:induction false} SpanStops(f: char -> bool, a: string, x: string)
    requires a != "" && !f(a[|a| - 1])
    ensures Span(f, a + x) < |a|
  {
    assert (a + x)[1..] == a[1..] + x;
    if |a| > 1 {
      SpanStops(f, a[1..], x);
    }
  }

  lemma {:induction false} SpanUpToAgrees(f: char -> bool, a: string, x: string, y: string, max: nat)
    requires a != "" && !f(a[|a| - 1])
    ensures SpanUpTo(f, a + x, max) == SpanUpTo(f, a + y, max) < |a|
  {
    assert (a + x)[1..] == a[1..] + x && (a + y)[1..] == a[1..] + y;
    if |a| > 1 && max > 0 {
      SpanUpToAgrees(f, a[1..], x, y, max - 1);
    }
  }

  lemma CommentUsed(s: string, depth: nat)
    ensures depth == 0 ==> CommentSpan(s, depth) == Some(0)
    ensures depth > 0 && CommentSpan(s, depth).Some? ==> s != "" && CommentSpan(s, depth).value >= 1
  {
  }

  lemma CommentStep(s: string, depth: nat)
    requires depth > 0 && s != ""
    ensures var (n, after) := CommentTurn(s, depth); CommentSpan(s, depth) == Plus(n, CommentSpan(s[n..], after))
  {
    hide Plus;
  }

  lemma {:induction false} CommentAgrees(a: string, x: string, y: string, depth: nat)
    requires CommentSpan(a + x, depth).Some? && CommentSpan(a + x, depth).value <= |a|
    ensures CommentSpan(a + y, depth) == CommentSpan(a + x, depth)
    decreases |a|
  {
    hide CommentSpan;
    var s, t := a + x, a + y;
    CommentUsed(s, depth);
    CommentUsed(t, depth);
    if depth > 0 {
      var (n, after) := CommentTurn(s, depth);
      CommentStep(s, depth);
      CommentUsed(s[n..], after);
      assert |a| >= 2;
      assert s[0] == a[0] == t[0] && s[1] == a[1] == t[1];
      CommentStep(t, depth);
      Tails(a, x, n);
      Tails(a, y, n);
      CommentAgrees(a[n..], x, y, after);
    }
  }

  lemma {:induction false} WordBodyAgrees(a: string, x: string, y: string)
    requires WordBody(a + x).Body? && WordBody(a + x).used < |a|
    ensures WordBody(a + y) == WordBody(a + x)
    decreases |a|
  {
    var s, t := a + x, a + y;
    assert s[0] == a[0] == t[0] && s[1] == a[1] == t[1];
    assert s[1..] == a[1..] + x && t[1..] == a[1..] + y && s[2..] == a[2..] + x && t[2..] == a[2..] + y;
    if a[0] == '"' {
      if a[1] == '"' {
        WordBodyAgrees(a[2..], x, y);
      }
    } else {
      WordBodyAgrees(a[1..], x, y);
    }
  }

  function EscapeAt(mode: Mode, s: string): (r: Escape)
    ensures r.Escape? ==> 2 <= r.used <= |s|
  {
    if mode == Unicode then UnicodeEscapeAt(s) else BackslashEscapeAt(s)
  }

  lemma UnicodeEscapeAgrees(p: string, x: string, y: string)
    requires |p| >= 3 && p[|p| - 1] == '\''
    ensures UnicodeEscapeAt(p + x) == UnicodeEscapeAt(p + y)
  {
    hide CodeEscape, SpanUpTo;
    var s, t := p + x, p + y;
    assert s[1..] == p[1..] + x && t[1..] == p[1..] + y && s[2..] == p[2..] + x && t[2..] == p[2..] + y;
    SpanUpToAgrees(IsHex, p[2..], x, y, 6);
    SpanUpToAgrees(IsHex, p[1..], x, y, 4);
    if |p| >= 8 {
      assert s[2..8] == p[2..8] == t[2..8];
    }
    if |p| >= 5 {
      assert s[1..5] == p[1..5] == t[1..5];
    }
  }

  lemma BackslashEscapeAgrees(p: string, x: string, y: string)
    requires |p| >= 3 && p[|p| - 1] == '\''
    ensures BackslashEscapeAt(p + x) == BackslashEscapeAt(p + y)
  {
    hide CodeEscape, SpanUpTo, ControlEscape;
    var s, t := p + x, p + y;
    assert s[1..] == p[1..] + x && t[1..] == p[1..] + y && s[2..] == p[2..] + x && t[2..] == p[2..] + y;
    SpanUpToAgrees(IsOctal, p[1..], x, y, 3);
    SpanUpToAgrees(IsLowerHex, p[2..], x, y, 8);
    assert forall i, k | 0 <= i <= k <= |p| :: s[i..k] == p[i..k] == t[i..k];
  }

  lemma StringBodyEscape(mode: Mode, s: string)
    requires mode != Plain && s != "" && s[0] == '\\'
    ensures var e := EscapeAt(mode, s);
            StringBody(mode, s) == if e.NoEscape? then Broken else Before(e.text, e.used, StringBody(mode, s[e.used..]))
  {
    hide UnicodeEscapeAt, BackslashEscapeAt;
  }

  lemma {:induction false} StringBodyCloses(mode: Mode, s: string)
    requires StringBody(mode, s).Body?
    ensures s[StringBody(mode, s).used - 1] == '\''
    decreases |s|
  {
    hide UnicodeEscapeAt, BackslashEscapeAt;
    if s[0] == '\'' {
      if |s| >= 2 && s[1] == '\'' {
        StringBodyCloses(mode, s[2..]);
      }
    } else if mode != Plain && s[0] == '\\' {
      StringBodyEscape(mode, s);
      StringBodyCloses(mode, s[EscapeAt(mode, s).used..]);
    } else {
      StringBodyCloses(mode, s[1..]);
    }
  }

  lemma EscapeAgrees(mode: Mode, p: string, x: string, y: string)
    requires |p| >= 3 && p[|p| - 1] == '\''
    ensures EscapeAt(mode, p + x) == EscapeAt(mode, p + y)
  {
    UnicodeEscapeAgrees(p, x, y);
    BackslashEscapeAgrees(p, x, y);
  }

  /** An escape before the closing quote, which is at u - 1. */
  lemma EscapeHolds(mode: Mode, a: string, x: string, y: string, u: nat)
    requires 3 <= u <= |a| && a[u - 1] == '\''
    ensures EscapeAt(mode, a + x) == EscapeAt(mode, a + y)
  {
    hide EscapeAt;
    assert a + x == a[..u] + (a[u..] + x) && a + y == a[..u] + (a[u..] + y);
    EscapeAgrees(mode, a[..u], a[u..] + x, a[u..] + y);
  }

  lemma Tails(a: string, x: string, n: nat)
    requires n <= |a|
    ensures (a + x)[n..] == a[n..] + x
  {
  }

  lemma {:induction false} StringBodyAgrees(mode: Mode, a: string, x: string, y: string)
    requires StringBody(mode, a + x).Body? && StringBody(mode, a + x).used < |a|
    ensures StringBody(mode, a + y) == StringBody(mode, a + x)
    decreases |a|
  {
    var s, t := a + x, a + y;
    assert s[0] == a[0] == t[0] && s[1] == a[1] == t[1];
    if mode != Plain && a[0] == '\\' {
      hide StringBody, EscapeAt;
      StringBodyEscape(mode, s);
      StringBodyEscape(mode, t);
      StringBodyCloses(mode, s);
      EscapeHolds(mode, a, x, y, StringBody(mode, s).used);
      var n := EscapeAt(mode, s).used;
      Tails(a, x, n);
      Tails(a, y, n);
      StringBodyAgrees(mode, a[n..], x, y);
    } else {
      hide UnicodeEscapeAt, BackslashEscapeAt;
      Tails(a, x, 1);
      Tails(a, y, 1);
      Tails(a, x, 2);
      Tails(a, y, 2);
      if a[0] == '\'' {
        if a[1] == '\'' {
          StringBodyAgrees(mode, a[2..], x, y);
        }
      } else {
        StringBodyAgrees(mode, a[1..], x, y);
      }
    }
  }

  lemma PrefixAgrees(text: string, a: string, x: string, y: string)
    requires |text| <= |a|
    ensures text <= a + x <==> text <= a + y
  {
    assert (a + x)[..|text|] == a[..|text|] == (a + y)[..|text|];
  }

  lemma IndexStep(s: string, text: string)
    ensures IndexOf(s, text) == if text <= s then Some(0) else if s == "" then None else Plus(1, IndexOf(s[1..], text))
  {
  }

  lemma {:induction false} IndexAgrees(a: string, x: string, y: string, text: string)
    requires IndexOf(a + x, text).Some? && IndexOf(a + x, text).value + |text| <= |a|
    ensures IndexOf(a + y, text) == IndexOf(a + x, text)
  {
    hide IndexOf;
    IndexStep(a + x, text);
    IndexStep(a + y, text);
    PrefixAgrees(text, a, x, y);
    if !(text <= a + x) {
      Tails(a, x, 1);
      Tails(a, y, 1);
      IndexAgrees(a[1..], x, y, text);
    }
  }

  lemma DelimiterAgrees(a: string, x: string, y: string)
    requires |a| >= 2 && a[0] == '$' && IsStop(a[|a| - 1])
    ensures DollarDelimiter(a + x) == DollarDelimiter(a + y)
    ensures DollarDelimiter(a + x).Some? ==> DollarDelimiter(a + x).value < |a|
  {
    hide Span;
    var s, t := a + x, a + y;
    assert s[0] == a[0] == t[0] && s[1] == a[1] == t[1];
    if IsTagStart(a[1]) {
      assert s[2..] == a[2..] + x && t[2..] == a[2..] + y;
      SpanStops(IsTagPart, a[2..], x);
      SpanAgrees(IsTagPart, a[2..], x, y);
    }
  }

  lemma DollarAgrees(a: string, x: string, y: string, d: nat)
    requires 1 <= d <= |a| && !DollarToken(a + x, d).Reject? && Used(DollarToken(a + x, d)) <= |a|
    ensures DollarToken(a + y, d) == DollarToken(a + x, d)
  {
    hide IndexOf;
    var s, t := a + x, a + y;
    assert s[d..] == a[d..] + x && t[d..] == a[d..] + y && s[..d] == a[..d] == t[..d];
    IndexAgrees(a[d..], x, y, a[..d]);
    var end := IndexOf(s[d..], s[..d]).value;
    assert s[d..d + end] == a[d..d + end] == t[d..d + end];
  }

  lemma StartsAgrees(w: string, n: nat, x: string, y: string)
    requires n < |w| && IsStop(w[|w| - 1])
    ensures StartsWithUescape((w + x)[n..]) == StartsWithUescape((w + y)[n..])
    ensures StartsWithUescape((w + x)[n..]) ==> n + 7 < |w|
  {
    var s, t := (w + x)[n..], (w + y)[n..];
    assert forall i | 0 <= i < |w| - n :: s[i] == w[n + i] == t[i];
    var last := |w| - 1 - n;
    assert IsStop(s[last]) && IsStop(t[last]);
    if last < 7 {
      assert !StartsWithUescape(s) && !StartsWithUescape(t);
    }
  }

  /** What follows a U&'' literal is, or is not, its clause, whatever comes after the quote that ends w. */
  lemma UescapeAgrees(w: string, x: string, y: string)
    requires w != "" && IsStop(w[|w| - 1])
    requires |x| >= 1 && x[0] == '\'' && (w[|w| - 1] == '\'' ==> |x| >= 2 && x[1] == '\'')
    requires UescapeClause(w + x).Some? ==> UescapeClause(w + x).value.1 < |w|
    ensures UescapeClause(w + y) == UescapeClause(w + x)
  {
    hide Span, StartsWithUescape, IsSpace;
    assert !IsSpace(w[|w| - 1]) by {
      StopIsPlain(w[|w| - 1]);
    }
    var s, t := w + x, w + y;
    SpanStops(IsSpace, w, x);
    SpanAgrees(IsSpace, w, x, y);
    var n := Span(IsSpace, s);
    StartsAgrees(w, n, x, y);
    if n > 0 && StartsWithUescape(s[n..]) {
      assert s[n + 7..] == w[n + 7..] + x && t[n + 7..] == w[n + 7..] + y;
      SpanStops(IsSpace, w[n + 7..], x);
      SpanAgrees(IsSpace, w[n + 7..], x, y);
      var k := n + 7 + Span(IsSpace, s[n + 7..]);
      ClauseAgrees(w, x, y, k);
    }
  }

  lemma StopIsPlain(c: char)
    requires IsStop(c)
    ensures !IsSpace(c) && !IsWordPart(c) && !IsTagPart(c) && NotLineEnd(c)
  {
  }

  /** The quoted character of a clause, at k. */
  predicate QuotedCharacterAt(s: string, k: nat) {
    k + 3 <= |s| && s[k] == '\'' && !IsLineTerminator(s[k + 1]) && s[k + 2] == '\''
  }

  lemma ClauseAgrees(w: string, x: string, y: string, k: nat)
    requires k < |w| && IsStop(w[|w| - 1])
    requires |x| >= 1 && x[0] == '\'' && (w[|w| - 1] == '\'' ==> |x| >= 2 && x[1] == '\'')
    ensures QuotedCharacterAt(w + x, k) ==>
              k + 3 > |w| || (QuotedCharacterAt(w + y, k) && (w + y)[k + 1] == (w + x)[k + 1])
    ensures !QuotedCharacterAt(w + x, k) ==> !QuotedCharacterAt(w + y, k)
  {
    var s, t := w + x, w + y;
    assert forall i | 0 <= i < |w| :: s[i] == w[i] == t[i];
    assert s[|w|] == x[0] && (|x| >= 2 ==> s[|w| + 1] == x[1]);
    if k + 2 == |w| {
      assert s[k + 1] == w[|w| - 1];
    } else if k + 1 == |w| {
      assert s[k + 1] == x[0];
    }
  }

  lemma StringTokenAgrees(mode: Mode, a: string, x: string, y: string, open: nat)
    requires 1 <= open < |a| && IsStop(a[|a| - 1])
    requires |x| >= 1 && x[0] == '\'' && (a[|a| - 1] == '\'' ==> |x| >= 2 && x[1] == '\'')
    requires !StringToken(mode, a + x, open).Reject? && Used(StringToken(mode, a + x, open)) < |a|
    ensures StringToken(mode, a + y, open) == StringToken(mode, a + x, open)
  {
    hide StringBody, UescapeClause, DecodeUnicode;
    var s, t := a + x, a + y;
    assert s[open..] == a[open..] + x && t[open..] == a[open..] + y;
    StringBodyAgrees(mode, a[open..], x, y);
    var used := open + StringBody(mode, s[open..]).used;
    assert s[used..] == a[used..] + x && t[used..] == a[used..] + y;
    if mode == Unicode {
      UescapeAgrees(a[used..], x, y);
    }
    assert s[open..used - 1] == a[open..used - 1] == t[open..used - 1];
  }

  /** A step that ends before the value is the same whatever value and text come after it. */
  lemma StepIsLocal(lower: string -> string, inWord: bool, t: string, quote: char, rest: string)
    requires t != "" && IsStop(quote)
    requires var step := NextStep(lower, inWord, t + Probe(quote)); !step.Reject? && Used(step) <= |t|
    ensures NextStep(lower, inWord, t + ([quote] + rest)) == NextStep(lower, inWord, t + Probe(quote))
  {
    hide NextStep;
    var a := t + [quote];
    var x := Probe(quote)[1..];
    assert t + Probe(quote) == a + x && t + ([quote] + rest) == a + rest;
    StepAgrees(lower, inWord, a, x, rest);
  }

  lemma StepAgrees(lower: string -> string, inWord: bool, a: string, x: string, y: string)
    requires |a| >= 2 && IsStop(a[|a| - 1])
    requires |x| >= 1 && x[0] == '\'' && (a[|a| - 1] == '\'' ==> |x| >= 2 && x[1] == '\'')
    requires !NextStep(lower, inWord, a + x).Reject? && Used(NextStep(lower, inWord, a + x)) < |a|
    ensures NextStep(lower, inWord, a + y) == NextStep(lower, inWord, a + x)
  {
    hide Span, CommentSpan, StringToken, WordBody, DollarDelimiter, DollarToken, SymbolToken, IsSpace, IsWordPart,
         IsTagPart, IsWordStart, NotLineEnd;
    var s, t := a + x, a + y;
    assert s[0] == a[0] == t[0] && s[1] == a[1] == t[1];
    if IsSpace(a[0]) {
    } else if a[0] == '-' && a[1] == '-' {
      Tails(a, x, 2);
      Tails(a, y, 2);
      SpanAgrees(NotLineEnd, a[2..], x, y);
    } else if a[0] == '/' && a[1] == '*' {
      Tails(a, x, 2);
      Tails(a, y, 2);
      CommentAgrees(a[2..], x, y, 1);
    } else if a[0] == '"' {
      Tails(a, x, 1);
      Tails(a, y, 1);
      WordBodyAgrees(a[1..], x, y);
    } else if a[0] == '\'' {
      StringTokenAgrees(Plain, a, x, y, 1);
    } else if (a[0] == 'E' || a[0] == 'e') && a[1] == '\'' && !inWord {
      StringTokenAgrees(Backslash, a, x, y, 2);
    } else if (a[0] == 'U' || a[0] == 'u') && a[1] == '&' && s[2] == '\'' && !inWord {
      assert |a| >= 3;
      StringTokenAgrees(Unicode, a, x, y, 3);
    } else {
      PlainStepIsLocal(lower, inWord, a, x, y);
    }
  }

  /** The last three branches of the main loop. */
  lemma PlainStepIsLocal(lower: string -> string, inWord: bool, a: string, x: string, y: string)
    requires |a| >= 2 && x != "" && IsStop(a[|a| - 1]) && !IsSpace(a[0]) && !IsQuote(a[0])
    requires !(a[0] == '-' && a[1] == '-') && !(a[0] == '/' && a[1] == '*')
    requires !((a[0] == 'E' || a[0] == 'e') && a[1] == '\'' && !inWord)
    requires !((a[0] == 'U' || a[0] == 'u') && a[1] == '&' && (a + x)[2] == '\'' && !inWord)
    requires !NextStep(lower, inWord, a + x).Reject? && Used(NextStep(lower, inWord, a + x)) < |a|
    ensures NextStep(lower, inWord, a + y) == NextStep(lower, inWord, a + x)
  {
    hide Span, CommentSpan, StringToken, WordBody, DollarDelimiter, DollarToken, IsSpace, IsTagPart;
    var s, t := a + x, a + y;
    assert s[0] == a[0] == t[0] && s[1] == a[1] == t[1] && s[..2] == a[..2] == t[..2];
    assert |a| >= 3 ==> s[2] == a[2] == t[2];
    StopIsPlain(a[|a| - 1]);
    if a[0] == '$' {
      DelimiterAgrees(a, x, y);
      if DollarDelimiter(s).Some? {
        DollarAgrees(a, x, y, DollarDelimiter(s).value);
      }
    } else if IsWordStart(a[0]) {
      assert s[1..] == a[1..] + x && t[1..] == a[1..] + y;
      SpanStops(IsWordPart, a[1..], x);
      SpanAgrees(IsWordPart, a[1..], x, y);
      var n := 1 + Span(IsWordPart, s[1..]);
      assert s[..n] == a[..n] == t[..n];
    }
  }

  lemma SettledStep(lower: string -> string, inWord: bool, t: string, quote: char)
    requires t != "" && Settled(lower, inWord, t, quote)
    ensures var step := NextStep(lower, inWord, t + Probe(quote));
            && !step.Reject? && Used(step) <= |t|
            && Settled(lower, IsWordPart(t[Used(step) - 1]), t[Used(step)..], quote)
  {
    hide NextStep, IsWordPart, Probe;
    var s := t + Probe(quote);
    var n := Used(NextStep(lower, inWord, s));
    assert s[n..] == t[n..] + Probe(quote) && s[n - 1] == t[n - 1];
  }

  /** The first step of a settled text, which leaves a settled text. */
  function StepOf(lower: string -> string, inWord: bool, t: string, quote: char): (step: Step)
    requires t != "" && Settled(lower, inWord, t, quote)
    ensures step == NextStep(lower, inWord, t + Probe(quote))
    ensures !step.Reject? && 1 <= Used(step) <= |t|
    ensures Settled(lower, IsWordPart(t[Used(step) - 1]), t[Used(step)..], quote)
  {
    hide NextStep;
    hide Settled;
    SettledStep(lower, inWord, t, quote);
    NextStep(lower, inWord, t + Probe(quote))
  }

  /** Whether the character before the end of a text is part of a word. */
  function InWordAfter(inWord: bool, t: string): bool {
    if t == "" then inWord else IsWordPart(t[|t| - 1])
  }

  lemma InWordLater(inWord: bool, t: string, n: nat)
    requires 1 <= n <= |t|
    ensures InWordAfter(IsWordPart(t[n - 1]), t[n..]) == InWordAfter(inWord, t)
  {
    hide IsWordPart;
  }

  /** What the main loop has after a settled text. */
  datatype Collected = Collected(done: seq<Statement>, sql: string, tokens: seq<Token>)

  function Collect(lower: string -> string, inWord: bool, t: string, quote: char, sql: string, tokens: seq<Token>)
    : Option<Collected>
    requires Settled(lower, inWord, t, quote)
    decreases |t|
  {
    if t == "" then Some(Collected([], sql, tokens))
    else if |tokens| > MAX_TOKENS then None
    else
      var step := StepOf(lower, inWord, t, quote);
      var n := Used(step);
      var after := IsWordPart(t[n - 1]);
      match step
      case Skip(_) => Collect(lower, after, t[n..], quote, sql + t[..n], tokens)
      case Emit(token, _) => Collect(lower, after, t[n..], quote, sql + t[..n], tokens + [token])
      case Semicolon =>
        var c := Collect(lower, after, t[n..], quote, "", []);
        if c.None? then None else Some(c.value.(done := Finish(sql, tokens) + c.value.done))
  }

  /** A settled text is read the same whatever value and text follow it. */
  lemma {:induction false} SettledIsLocal(lower: string -> string, inWord: bool, t: string, quote: char, rest: string,
                                          sql: string, tokens: seq<Token>)
    requires Settled(lower, inWord, t, quote) && IsStop(quote)
    ensures var c := Collect(lower, inWord, t, quote, sql, tokens);
            ParseRest(lower, inWord, t + ([quote] + rest), sql, tokens) ==
            if c.None? then None
            else After(c.value.done,
                       ParseRest(lower, InWordAfter(inWord, t), [quote] + rest, c.value.sql, c.value.tokens))
    decreases |t|
  {
    hide NextStep, Settled, ParseRest, Collect, InWordAfter;
    var s := t + ([quote] + rest);
    if t == "" {
      CollectNothing(lower, inWord, quote, sql, tokens);
      assert s == [quote] + rest;
      AfterNothing(ParseRest(lower, inWord, s, sql, tokens));
    } else if |tokens| > MAX_TOKENS {
      TooManyTokens(lower, inWord, t, quote, s, sql, tokens);
    } else {
      SettledStep(lower, inWord, t, quote);
      StepIsLocal(lower, inWord, t, quote, rest);
      var step := NextStep(lower, inWord, t + Probe(quote));
      var n := Used(step);
      var after := IsWordPart(t[n - 1]);
      assert s[n..] == t[n..] + ([quote] + rest) && s[..n] == t[..n] && s[n - 1] == t[n - 1];
      InWordLater(inWord, t, n);
      ParseOne(lower, inWord, s, sql, tokens);
      CollectOne(lower, inWord, t, quote, sql, tokens);
      match step
      case Skip(_) => SettledIsLocal(lower, after, t[n..], quote, rest, sql + t[..n], tokens);
      case Emit(token, _) => SettledIsLocal(lower, after, t[n..], quote, rest, sql + t[..n], tokens + [token]);
      case Semicolon =>
        SemicolonHere(lower, inWord, s);
        SettledIsLocal(lower, after, t[n..], quote, rest, "", []);
        var c := Collect(lower, after, t[n..], quote, "", []);
        if c.Some? {
          AfterTwice(Finish(sql, tokens), c.value.done,
                     ParseRest(lower, InWordAfter(inWord, t), [quote] + rest, c.value.sql, c.value.tokens));
        }
    }
  }

  lemma CollectNothing(lower: string -> string, inWord: bool, quote: char, sql: string, tokens: seq<Token>)
    ensures Settled(lower, inWord, "", quote) && InWordAfter(inWord, "") == inWord
    ensures Collect(lower, inWord, "", quote, sql, tokens) == Some(Collected([], sql, tokens))
  {
    hide NextStep;
  }

  lemma TooManyTokens(lower: string -> string, inWord: bool, t: string, quote: char, s: string, sql: string,
                      tokens: seq<Token>)
    requires t != "" && Settled(lower, inWord, t, quote) && s != "" && |tokens| > MAX_TOKENS
    ensures Collect(lower, inWord, t, quote, sql, tokens) == None && ParseRest(lower, inWord, s, sql, tokens) == None
  {
    hide NextStep, Settled;
  }

  lemma ParseOne(lower: string -> string, inWord: bool, s: string, sql: string, tokens: seq<Token>)
    requires s != "" && |tokens| <= MAX_TOKENS && !NextStep(lower, inWord, s).Reject?
    ensures var step := NextStep(lower, inWord, s);
            var n := Used(step);
            var after := IsWordPart(s[n - 1]);
            ParseRest(lower, inWord, s, sql, tokens) ==
            match step
            case Skip(_) => ParseRest(lower, after, s[n..], sql + s[..n], tokens)
            case Emit(token, _) => ParseRest(lower, after, s[n..], sql + s[..n], tokens + [token])
            case Semicolon => After(Finish(sql, tokens), ParseRest(lower, false, s[1..], "", []))
  {
    hide NextStep;
  }

  lemma CollectOne(lower: string -> string, inWord: bool, t: string, quote: char, sql: string, tokens: seq<Token>)
    requires t != "" && Settled(lower, inWord, t, quote) && |tokens| <= MAX_TOKENS
    ensures var step := StepOf(lower, inWord, t, quote);
            var n := Used(step);
            var after := IsWordPart(t[n - 1]);
            Collect(lower, inWord, t, quote, sql, tokens) ==
            match step
            case Skip(_) => Collect(lower, after, t[n..], quote, sql + t[..n], tokens)
            case Emit(token, _) => Collect(lower, after, t[n..], quote, sql + t[..n], tokens + [token])
            case Semicolon =>
              var c := Collect(lower, after, t[n..], quote, "", []);
              if c.None? then None else Some(c.value.(done := Finish(sql, tokens) + c.value.done))
  {
    hide NextStep, Settled, IsWordPart, StepOf;
  }

  /** A placeholder's value, after a settled text: whatever the value holds, the statements before it are
      complete, the current one goes on with exactly one more token, and the rest is read on its own. */
  lemma PlaceholderIsOneToken(lower: string -> string, inWord: bool, pre: string, q: Quoted, post: string, sql: string,
                              tokens: seq<Token>)
    requires Settled(lower, inWord, pre, q.Quote())
    requires !(post != "" && post[0] == q.Quote())
    ensures var c := Collect(lower, inWord, pre, q.Quote(), sql, tokens);
            ParseRest(lower, inWord, pre + (q.Text() + post), sql, tokens) ==
            if c.None? || |c.value.tokens| > MAX_TOKENS then None
            else After(c.value.done,
                       ParseRest(lower, false, post, c.value.sql + q.Text(), c.value.tokens + [q.AsToken()]))
  {
    hide Settled, ParseRest, Collect, InWordAfter;
    var rest := q.Text()[1..] + post;
    QuotedHead(q, post);
    SettledIsLocal(lower, inWord, pre, q.Quote(), rest, sql, tokens);
    var c := Collect(lower, inWord, pre, q.Quote(), sql, tokens);
    if c.Some? {
      if |c.value.tokens| <= MAX_TOKENS {
        QuotedInContext(lower, InWordAfter(inWord, pre), q, post, c.value.sql, c.value.tokens);
      } else {
        TooManyForMore(lower, InWordAfter(inWord, pre), q.Text() + post, c.value.sql, c.value.tokens);
      }
    }
  }

  lemma QuotedHead(q: Quoted, post: string)
    ensures q.Text() + post == [q.Quote()] + (q.Text()[1..] + post)
  {
    hide Doubled;
  }

  lemma TooManyForMore(lower: string -> string, inWord: bool, s: string, sql: string, tokens: seq<Token>)
    requires s != "" && |tokens| > MAX_TOKENS
    ensures ParseRest(lower, inWord, s, sql, tokens) == None
  {
  }

  /** The main loop, reading the text with the value and what follows, comes to the value and reads it as
      its one token. */
  predicate MeetsValue(lower: string -> string, inWord: bool, t: string, q: Quoted, post: string) {
    var s := t + (q.Text() + post);
    && StepsTo(lower, inWord, s, |t|)
    && s[|t|..] != "" && NextStep(lower, InWordAfter(inWord, t), s[|t|..]) == Emit(q.AsToken(), |q.Text()|)
  }

  lemma {:induction false} SettledMeets(lower: string -> string, inWord: bool, t: string, quote: char, rest: string)
    requires Settled(lower, inWord, t, quote) && IsStop(quote)
    ensures StepsTo(lower, inWord, t + ([quote] + rest), |t|)
    decreases |t|
  {
    hide NextStep, Settled;
    if t != "" {
      var s := t + ([quote] + rest);
      SettledStep(lower, inWord, t, quote);
      StepIsLocal(lower, inWord, t, quote, rest);
      var n := Used(NextStep(lower, inWord, s));
      assert s[n..] == t[n..] + ([quote] + rest) && s[n - 1] == t[n - 1];
      SettledMeets(lower, IsWordPart(t[n - 1]), t[n..], quote, rest);
    }
  }

  /** The condition on the text before a placeholder is exact: it is settled if and only if every value
      there, with any text after it that does not begin with its quote, is read as its own token. */
  lemma SettledIsExact(lower: string -> string, inWord: bool, t: string, quote: char)
    requires IsQuote(quote)
    ensures Settled(lower, inWord, t, quote) <==>
            forall q: Quoted, post: string | q.Quote() == quote && !(post != "" && post[0] == quote) ::
              MeetsValue(lower, inWord, t, q, post)
  {
    hide MeetsValue, Settled;
    if Settled(lower, inWord, t, quote) {
      forall q: Quoted, post: string | q.Quote() == quote && !(post != "" && post[0] == quote)
        ensures MeetsValue(lower, inWord, t, q, post) {
        ValueIsMet(lower, inWord, t, q, post);
      }
    } else {
      var q := if quote == '"' then Identifier("'") else Literal("'");
      assert !MeetsValue(lower, inWord, t, q, "") by {
        if MeetsValue(lower, inWord, t, q, "") {
          ProbeIsMet(lower, inWord, t, q);
        }
      }
    }
  }

  lemma ValueIsMet(lower: string -> string, inWord: bool, t: string, q: Quoted, post: string)
    requires Settled(lower, inWord, t, q.Quote()) && !(post != "" && post[0] == q.Quote())
    ensures MeetsValue(lower, inWord, t, q, post)
  {
    hide NextStep, StepsTo, Settled;
    QuotedHead(q, post);
    SettledMeets(lower, inWord, t, q.Quote(), q.Text()[1..] + post);
    QuotedIsOneToken(lower, InWordAfter(inWord, t), q, post);
    assert (t + (q.Text() + post))[|t|..] == q.Text() + post;
  }

  lemma ProbeIsMet(lower: string -> string, inWord: bool, t: string, q: Quoted)
    requires q.v == "'" && MeetsValue(lower, inWord, t, q, "")
    ensures Settled(lower, inWord, t, q.Quote())
  {
    hide NextStep, StepsTo;
    ProbeText();
    assert q == Identifier("'") || q == Literal("'");
    assert t + (q.Text() + "") == t + Probe(q.Quote());
  }

  lemma ProbeText()
    ensures Identifier("'").Text() == Probe('"') && Literal("'").Text() == Probe('\'')
  {
    assert "'"[1..] == "";
  }

  /** After a lone E no value of a %L placeholder is a token of its own: the E takes it as its literal. */
  lemma PrefixTakesValue(lower: string -> string, v: string, post: string)
    ensures !Settled(lower, false, "E", '\'') && !MeetsValue(lower, false, "E", Literal(v), post)
  {
    hide StringToken, IsSpace;
    QuotedHead(Literal(v), post);
    var s := "E" + (Literal(v).Text() + post);
    var p := "E" + Probe('\'');
    assert s[0] == 'E' == p[0] && s[1] == '\'' == p[1];
    EIsNoSpace();
    assert NextStep(lower, false, s) == StringToken(Backslash, s, 2);
    assert NextStep(lower, false, p) == StringToken(Backslash, p, 2);
  }

  lemma EIsNoSpace()
    ensures !IsSpace('E')
  {
  }

  /** Text without quotes, dollar signs, hyphens and slashes. */
  predicate IsPlain(t: string) {
    forall c | c in t :: !IsQuote(c) && c != '$' && c != '-' && c != '/'
  }

  /** In front of a %L placeholder an E, e or & could make a string prefix. */
  predicate MayStandBefore(t: string, quote: char) {
    IsPlain(t) && (quote == '\'' && t != "" ==> t[|t| - 1] != 'E' && t[|t| - 1] != 'e' && t[|t| - 1] != '&')
  }

  /** Plain text is settled, such as a schema name with its dot, an opening parenthesis or an operator. */
  lemma {:induction false} PlainTextIsSettled(lower: string -> string, inWord: bool, t: string, quote: char)
    requires IsStop(quote) && MayStandBefore(t, quote)
    ensures Settled(lower, inWord, t, quote)
    decreases |t|
  {
    hide NextStep, IsPlain;
    if t != "" {
      var s := t + Probe(quote);
      PlainStep(lower, inWord, t, quote);
      var n := Used(NextStep(lower, inWord, s));
      assert s[n..] == t[n..] + Probe(quote) && s[n - 1] == t[n - 1];
      assert IsPlain(t[n..]) by {
        PlainTail(t, n);
      }
      PlainTextIsSettled(lower, IsWordPart(t[n - 1]), t[n..], quote);
    }
  }

  lemma PlainTail(t: string, n: nat)
    requires IsPlain(t) && n <= |t|
    ensures IsPlain(t[n..])
  {
    forall c | c in t[n..] ensures c in t {
    }
  }

  lemma PlainStep(lower: string -> string, inWord: bool, t: string, quote: char)
    requires IsStop(quote) && t != "" && MayStandBefore(t, quote)
    ensures var step := NextStep(lower, inWord, t + Probe(quote)); !step.Reject? && Used(step) <= |t|
  {
    hide Span, CommentSpan, StringToken, WordBody, DollarDelimiter, DollarToken, IsSpace, IsWordPart, IsWordStart;
    var s := t + Probe(quote);
    assert s[0] == t[0] && t[0] in t && s[1] == if |t| >= 2 then t[1] else quote;
    assert |t| >= 2 ==> t[1] in t && s[2] == if |t| >= 3 then t[2] else quote;
    assert |t| >= 3 ==> t[2] in t;
    StopIsPlain(quote);
    assert s[1..] == (t[1..] + [quote]) + Probe(quote)[1..];
    SpanStops(IsWordPart, t[1..] + [quote], Probe(quote)[1..]);
  }

  // ---------------------------------------------------------------- format

  datatype Placeholder = NoPlaceholder | Placeholder(position: Option<nat>, specifier: char, used: nat)

  predicate IsSpecifier(c: char) {
    c == 's' || c == 'I' || c == 'L' || c == '%'
  }

  /** /%(?:(\d+)\$)?([sIL%])/ at the start of t. */
  function PlaceholderAt(t: string): (r: Placeholder)
    ensures r.Placeholder? ==> 2 <= r.used <= |t| && IsSpecifier(r.specifier)
  {
    if t == "" || t[0] != '%' then NoPlaceholder
    else
      var d := Span(IsDigit, t[1..]);
      if d > 0 && d + 2 < |t| && t[d + 1] == '$' && IsSpecifier(t[d + 2]) then
        Placeholder(Some(Digits(t[1..d + 1], 10)), t[d + 2], d + 3)
      else if |t| >= 2 && IsSpecifier(t[1]) then Placeholder(None, t[1], 2)
      else NoPlaceholder
  }

  function Rendering(specifier: char, v: string): string {
    if specifier == 'I' then QuoteIdentifier(v) else if specifier == 'L' then QuoteLiteral(v) else v
  }

  /** The template from some point on, filled in; next is the argument for the next placeholder without
      a position. A missing argument makes the whole unknown. */
  function Render(t: string, args: seq<Option<string>>, next: nat): Option<string>
    decreases |t|
  {
    if t == "" then Some("")
    else
      var p := PlaceholderAt(t);
      if p.NoPlaceholder? then Then([t[0]], Render(t[1..], args, next))
      else if p.specifier == '%' then Then("%", Render(t[p.used..], args, next))
      else
        var k := if p.position.Some? then p.position.value else next;
        var after := if p.position.Some? then next else next + 1;
        if k >= |args| || args[k].None? then None
        else Then(Rendering(p.specifier, args[k].value), Render(t[p.used..], args, after))
  }

  /** format's value: its first argument is the template. */
  function Format(args: seq<Option<string>>): Option<string> {
    if args == [] || args[0].None? then None else Render(args[0].value, args, 1)
  }

  lemma ThenTwice(a: string, b: string, r: Option<string>)
    ensures Then(a, Then(b, r)) == Then(a + b, r)
  {
    if r.Some? {
      assert a + (b + r.value) == a + b + r.value;
    }
  }

  function SpecifierOf(q: Quoted): char {
    if q.Identifier? then 'I' else 'L'
  }

  /** A stretch of template text and the value of the %I or %L after it. */
  datatype Hole = Hole(pre: string, value: Quoted)

  /** The template with these placeholders; a percent sign of its text is doubled. */
  function Template(holes: seq<Hole>, post: string): string {
    if holes == [] then Doubled('%', post)
    else Doubled('%', holes[0].pre) + (['%', SpecifierOf(holes[0].value)] + Template(holes[1..], post))
  }

  function Filled(holes: seq<Hole>, post: string): string {
    if holes == [] then post else holes[0].pre + (holes[0].value.Text() + Filled(holes[1..], post))
  }

  function Values(holes: seq<Hole>): seq<Option<string>> {
    seq(|holes|, i requires 0 <= i < |holes| => Some(holes[i].value.v))
  }

  datatype Pieces = Pieces(holes: seq<Hole>, post: string)

  function Cons(hole: Hole, r: Option<Pieces>): Option<Pieces> {
    if r.None? then None else Some(Pieces([hole] + r.value.holes, r.value.post))
  }

  /** Any template from some point on, as its %I and %L placeholders with the text between them; a %s is
      text. pre: the text since the last placeholder. */
  function PiecesOf(t: string, args: seq<Option<string>>, next: nat, pre: string): Option<Pieces>
    decreases |t|
  {
    if t == "" then Some(Pieces([], pre))
    else
      var p := PlaceholderAt(t);
      if p.NoPlaceholder? then PiecesOf(t[1..], args, next, pre + [t[0]])
      else if p.specifier == '%' then PiecesOf(t[p.used..], args, next, pre + "%")
      else
        var k := if p.position.Some? then p.position.value else next;
        var after := if p.position.Some? then next else next + 1;
        if k >= |args| || args[k].None? then None
        else
          var v := args[k].value;
          if p.specifier == 's' then PiecesOf(t[p.used..], args, after, pre + v)
          else
            var q := if p.specifier == 'I' then Identifier(v) else Literal(v);
            Cons(Hole(pre, q), PiecesOf(t[p.used..], args, after, ""))
  }

  function FilledPieces(r: Option<Pieces>): Option<string> {
    if r.None? then None else Some(Filled(r.value.holes, r.value.post))
  }

  lemma FilledCons(hole: Hole, r: Option<Pieces>)
    ensures FilledPieces(Cons(hole, r)) == Then(hole.pre + hole.value.Text(), FilledPieces(r))
  {
    if r.Some? {
      var all := [hole] + r.value.holes;
      assert all[1..] == r.value.holes;
      assert hole.pre + hole.value.Text() + FilledPieces(r).value ==
             hole.pre + (hole.value.Text() + FilledPieces(r).value);
    }
  }

  lemma PiecesEnd(args: seq<Option<string>>, next: nat, pre: string)
    ensures Then(pre, Render("", args, next)) == FilledPieces(PiecesOf("", args, next, pre))
  {
    assert pre + "" == pre;
  }

  /** Putting the quoted values between the text gives what format gives. */
  lemma {:induction false} PiecesFillTemplate(t: string, args: seq<Option<string>>, next: nat, pre: string)
    ensures Then(pre, Render(t, args, next)) == FilledPieces(PiecesOf(t, args, next, pre))
    decreases |t|
  {
    hide FilledPieces, Cons, PlaceholderAt, Then, Doubled;
    if t == "" {
      PiecesEnd(args, next, pre);
    } else {
      var p := PlaceholderAt(t);
      if p.NoPlaceholder? {
        PiecesFillTemplate(t[1..], args, next, pre + [t[0]]);
        ThenTwice(pre, [t[0]], Render(t[1..], args, next));
      } else if p.specifier == '%' {
        PiecesFillTemplate(t[p.used..], args, next, pre + "%");
        ThenTwice(pre, "%", Render(t[p.used..], args, next));
      } else {
        var k := if p.position.Some? then p.position.value else next;
        var after := if p.position.Some? then next else next + 1;
        if k >= |args| || args[k].None? {
          NothingFilled(pre);
        } else {
          FillOne(t, args, next, pre, p.specifier, args[k].value, t[p.used..], after);
        }
      }
    }
  }

  lemma NothingFilled(pre: string)
    ensures Then(pre, None) == None && FilledPieces(None) == None
  {
  }

  lemma FillOne(t: string, args: seq<Option<string>>, next: nat, pre: string, specifier: char, v: string, rest: string,
                after: nat)
    requires |rest| < |t| && (specifier == 's' || specifier == 'I' || specifier == 'L')
    requires PiecesOf(t, args, next, pre) ==
             if specifier == 's' then PiecesOf(rest, args, after, pre + v)
             else
               Cons(Hole(pre, if specifier == 'I' then Identifier(v) else Literal(v)), PiecesOf(rest, args, after, ""))
    requires Render(t, args, next) == Then(Rendering(specifier, v), Render(rest, args, after))
    ensures Then(pre, Render(t, args, next)) == FilledPieces(PiecesOf(t, args, next, pre))
    decreases |t|, 0
  {
    hide FilledPieces, Cons, PiecesOf, Render, Doubled;
    ThenTwice(pre, Rendering(specifier, v), Render(rest, args, after));
    if specifier == 's' {
      PiecesFillTemplate(rest, args, after, pre + v);
    } else {
      var q := if specifier == 'I' then Identifier(v) else Literal(v);
      PiecesFillTemplate(rest, args, after, "");
      ThenNothing(Render(rest, args, after));
      FilledCons(Hole(pre, q), PiecesOf(rest, args, after, ""));
    }
  }

  lemma {:induction false} PiecesOfText(text: string, rest: string, args: seq<Option<string>>, next: nat, pre: string)
    ensures PiecesOf(Doubled('%', text) + rest, args, next, pre) == PiecesOf(rest, args, next, pre + text)
    decreases |text|
  {
    hide PiecesOf;
    var s := Doubled('%', text) + rest;
    if text == "" {
      assert s == rest && pre + text == pre;
    } else {
      var tail := Doubled('%', text[1..]) + rest;
      assert s == (if text[0] == '%' then "%%" else [text[0]]) + tail;
      PiecesOfOne(text[0], tail, args, next, pre);
      PiecesOfText(text[1..], rest, args, next, pre + [text[0]]);
      assert pre + [text[0]] + text[1..] == pre + text;
    }
  }

  lemma PiecesOfOne(c: char, tail: string, args: seq<Option<string>>, next: nat, pre: string)
    ensures PiecesOf((if c == '%' then "%%" else [c]) + tail, args, next, pre) == PiecesOf(tail, args, next, pre + [c])
  {
    hide PiecesOf;
    var s := (if c == '%' then "%%" else [c]) + tail;
    if c == '%' {
      assert s[2..] == tail && s[1] == '%' && Span(IsDigit, s[1..]) == 0;
      assert PlaceholderAt(s) == Placeholder(None, '%', 2);
      PiecesOfPercent(s, args, next, pre);
    } else {
      assert s[1..] == tail && PlaceholderAt(s).NoPlaceholder?;
      PiecesOfPercent(s, args, next, pre);
    }
  }

  lemma PiecesOfPercent(t: string, args: seq<Option<string>>, next: nat, pre: string)
    requires t != ""
    ensures PlaceholderAt(t).NoPlaceholder? ==>
              PiecesOf(t, args, next, pre) == PiecesOf(t[1..], args, next, pre + [t[0]])
    ensures PlaceholderAt(t) == Placeholder(None, '%', 2) ==>
              PiecesOf(t, args, next, pre) == PiecesOf(t[2..], args, next, pre + "%")
  {
    hide PlaceholderAt;
  }

  lemma PiecesOfHole(q: Quoted, rest: string, args: seq<Option<string>>, next: nat, pre: string)
    requires next < |args| && args[next] == Some(q.v)
    ensures PiecesOf(['%', SpecifierOf(q)] + rest, args, next, pre) ==
            Cons(Hole(pre, q), PiecesOf(rest, args, next + 1, ""))
  {
    var t := ['%', SpecifierOf(q)] + rest;
    assert t[2..] == rest && t[1] == SpecifierOf(q);
    assert Span(IsDigit, t[1..]) == 0;
    assert PlaceholderAt(t) == Placeholder(None, SpecifierOf(q), 2);
  }

  /** The pieces of a template written out from placeholders and text are these placeholders and this text. */
  lemma {:induction false} PiecesOfTemplate(holes: seq<Hole>, post: string, args: seq<Option<string>>, next: nat)
    requires next + |holes| == |args| && args[next..] == Values(holes)
    ensures PiecesOf(Template(holes, post), args, next, "") == Some(Pieces(holes, post))
    decreases |holes|
  {
    hide PiecesOf, Doubled;
    if holes == [] {
      assert Doubled('%', post) + "" == Doubled('%', post) && "" + post == post;
      PiecesOfText(post, "", args, next, "");
      PiecesOfNothing(args, next, post);
    } else {
      var h, rest := holes[0], Template(holes[1..], post);
      assert args[next] == args[next..][0] == Some(h.value.v);
      assert args[next + 1..] == args[next..][1..] == Values(holes[1..]);
      assert "" + h.pre == h.pre;
      PiecesOfText(h.pre, ['%', SpecifierOf(h.value)] + rest, args, next, "");
      PiecesOfHole(h.value, rest, args, next, h.pre);
      PiecesOfTemplate(holes[1..], post, args, next + 1);
      assert [h] + holes[1..] == holes;
    }
  }

  lemma PiecesOfNothing(args: seq<Option<string>>, next: nat, pre: string)
    ensures PiecesOf("", args, next, pre) == Some(Pieces([], pre))
  {
  }

  /** Each placeholder comes after settled text, and no value is followed by a quote of its own kind. */
  predicate WellPlaced(lower: string -> string, holes: seq<Hole>, post: string) {
    holes == [] ||
    var rest := Filled(holes[1..], post);
    && Settled(lower, false, holes[0].pre, holes[0].value.Quote())
    && !(rest != "" && rest[0] == holes[0].value.Quote())
    && WellPlaced(lower, holes[1..], post)
  }

  /** Reading the template's own text, with one token put in for each placeholder. */
  function ReadHoles(lower: string -> string, holes: seq<Hole>, post: string, sql: string, tokens: seq<Token>)
    : Option<seq<Statement>>
    requires WellPlaced(lower, holes, post)
    decreases |holes|
  {
    if holes == [] then ParseRest(lower, false, post, sql, tokens)
    else
      var q := holes[0].value;
      var c := Collect(lower, false, holes[0].pre, q.Quote(), sql, tokens);
      if c.None? || |c.value.tokens| > MAX_TOKENS then None
      else After(c.value.done,
                 ReadHoles(lower, holes[1..], post, c.value.sql + q.Text(), c.value.tokens + [q.AsToken()]))
  }

  lemma {:induction false} HolesAreTokens(lower: string -> string, holes: seq<Hole>, post: string, sql: string,
                                          tokens: seq<Token>)
    requires WellPlaced(lower, holes, post)
    ensures ParseRest(lower, false, Filled(holes, post), sql, tokens) == ReadHoles(lower, holes, post, sql, tokens)
    decreases |holes|
  {
    hide Settled, ParseRest, Collect;
    if holes != [] {
      var h, q := holes[0], holes[0].value;
      PlaceholderIsOneToken(lower, false, h.pre, q, Filled(holes[1..], post), sql, tokens);
      var c := Collect(lower, false, h.pre, q.Quote(), sql, tokens);
      if c.Some? && |c.value.tokens| <= MAX_TOKENS {
        HolesAreTokens(lower, holes[1..], post, c.value.sql + q.Text(), c.value.tokens + [q.AsToken()]);
      }
    }
  }

  /** Any format call, lexed again: its value is the quoted arguments of its %I and %L between the rest of the
      text, and if these are well placed, every one of them comes back as exactly one token, and the
      statements are those of that text with these tokens put in. */
  lemma FormattedValuesAreTokens(lower: string -> string, args: seq<Option<string>>)
    requires args != [] && args[0].Some?
    ensures var pieces := PiecesOf(args[0].value, args, 1, "");
            && Format(args) == FilledPieces(pieces)
            && (pieces.Some? && WellPlaced(lower, pieces.value.holes, pieces.value.post) &&
                |Format(args).value| <= MAX_LENGTH ==>
                  Parse(lower, Format(args).value) == ReadHoles(lower, pieces.value.holes, pieces.value.post, "", []))
  {
    hide ParseRest, ReadHoles, Render, PiecesOf, Filled, WellPlaced;
    PiecesFillTemplate(args[0].value, args, 1, "");
    ThenNothing(Render(args[0].value, args, 1));
    var pieces := PiecesOf(args[0].value, args, 1, "");
    if pieces.Some? && WellPlaced(lower, pieces.value.holes, pieces.value.post) {
      HolesAreTokens(lower, pieces.value.holes, pieces.value.post, "", []);
    }
  }

  /** A template whose text is plain, with some of it between any two placeholders, is such a template. */
  lemma {:induction false} PlainTemplateIsWellPlaced(lower: string -> string, holes: seq<Hole>, post: string)
    requires forall h | h in holes :: MayStandBefore(h.pre, h.value.Quote())
    requires forall i | 0 < i < |holes| :: holes[i].pre != ""
    requires post == "" || !IsQuote(post[0])
    ensures WellPlaced(lower, holes, post)
    decreases |holes|
  {
    hide Settled;
    if holes != [] {
      var h, rest := holes[0], Filled(holes[1..], post);
      PlainTextIsSettled(lower, false, h.pre, h.value.Quote());
      PlainTemplateIsWellPlaced(lower, holes[1..], post);
      if |holes| > 1 {
        assert holes[1] in holes && holes[1..][0] == holes[1];
        assert rest[0] == holes[1].pre[0] && rest[0] in holes[1].pre;
      }
    }
  }

  // ---------------------------------------------------------------- splitting arguments

  function Depth(depth: int, token: Token): int {
    if token.text == "(" then depth + 1 else if token.text == ")" then depth - 1 else depth
  }

  function DepthAfter(tokens: seq<Token>): int {
    if tokens == [] then 0 else Depth(DepthAfter(tokens[..|tokens| - 1]), tokens[|tokens| - 1])
  }

  function Extend(parts: seq<seq<Token>>, token: Token): seq<seq<Token>>
    requires parts != []
  {
    parts[..|parts| - 1] + [parts[|parts| - 1] + [token]]
  }

  /** The parts between the separators outside parentheses. */
  function Parts(tokens: seq<Token>, separator: string): (r: seq<seq<Token>>)
    ensures r != []
  {
    if tokens == [] then [[]]
    else
      var token := tokens[|tokens| - 1];
      var before := Parts(tokens[..|tokens| - 1], separator);
      if DepthAfter(tokens) == 0 && token.text == separator then before + [[]] else Extend(before, token)
  }

  lemma NoTokens(separator: string)
    ensures Parts([], separator) == [[]] && DepthAfter([]) == 0
  {
  }

  lemma OneMoreToken(tokens: seq<Token>, i: nat, separator: string)
    requires i < |tokens|
    ensures var depth := Depth(DepthAfter(tokens[..i]), tokens[i]);
            && DepthAfter(tokens[..i + 1]) == depth
            && Parts(tokens[..i + 1], separator) ==
               if depth == 0 && tokens[i].text == separator then Parts(tokens[..i], separator) + [[]]
               else Extend(Parts(tokens[..i], separator), tokens[i])
  {
    assert tokens[..i + 1][..i] == tokens[..i];
  }

  method SplitAt(tokens: seq<Token>, separator: string) returns (parts: seq<seq<Token>>)
    ensures parts == Parts(tokens, separator)
  {
    hide Parts, DepthAfter;
    parts := [[]];
    var depth := 0;
    NoTokens(separator);
    for i := 0 to |tokens|
      invariant parts == Parts(tokens[..i], separator) && depth == DepthAfter(tokens[..i])
    {
      var token := tokens[i];
      OneMoreToken(tokens, i, separator);
      if token.text == "(" {
        depth := depth + 1;
      }
      if token.text == ")" {
        depth := depth - 1;
      }
      if depth == 0 && token.text == separator {
        parts := parts + [[]];
      } else {
        parts := parts[..|parts| - 1] + [parts[|parts| - 1] + [token]];
      }
    }
    assert tokens[..|tokens|] == tokens;
  }

  function Texts(tokens: seq<Token>): seq<string> {
    seq(|tokens|, i requires 0 <= i < |tokens| => tokens[i].text)
  }

  function Joined(parts: seq<seq<Token>>, separator: string): seq<string> {
    if parts == [] then []
    else if |parts| == 1 then Texts(parts[0])
    else Joined(parts[..|parts| - 1], separator) + [separator] + Texts(parts[|parts| - 1])
  }

  lemma JoinedExtend(parts: seq<seq<Token>>, token: Token, separator: string)
    requires parts != []
    ensures Joined(Extend(parts, token), separator) == Joined(parts, separator) + [token.text]
  {
    var last := parts[|parts| - 1];
    var extended := Extend(parts, token);
    assert Texts(last + [token]) == Texts(last) + [token.text];
    if |parts| > 1 {
      assert extended[..|parts| - 1] == parts[..|parts| - 1];
      var before := Joined(parts[..|parts| - 1], separator);
      assert before + [separator] + (Texts(last) + [token.text]) == before + [separator] + Texts(last) + [token.text];
    }
  }

  /** Splitting loses no token: the parts with the separators between them are the tokens' texts. */
  lemma {:induction false} SplitRejoins(tokens: seq<Token>, separator: string)
    ensures Joined(Parts(tokens, separator), separator) == Texts(tokens)
  {
    hide Joined;
    if tokens == [] {
      JoinedOne(separator);
    } else {
      var init, token := tokens[..|tokens| - 1], tokens[|tokens| - 1];
      var before := Parts(init, separator);
      SplitRejoins(init, separator);
      assert Texts(tokens) == Texts(init) + [token.text];
      if DepthAfter(tokens) == 0 && token.text == separator {
        JoinedNew(before, separator);
      } else {
        JoinedExtend(before, token, separator);
      }
    }
  }

  lemma JoinedOne(separator: string)
    ensures Joined([[]], separator) == Texts([])
  {
  }

  lemma JoinedNew(parts: seq<seq<Token>>, separator: string)
    requires parts != []
    ensures Joined(parts + [[]], separator) == Joined(parts, separator) + [separator]
  {
    assert (parts + [[]])[..|parts|] == parts;
    assert Texts([]) == [];
    assert Joined(parts, separator) + [separator] + [] == Joined(parts, separator) + [separator];
  }

  // ---------------------------------------------------------------- splitting undoes joining

  /** The split happens at this token. */
  predicate IsSplit(tokens: seq<Token>, separator: string, k: nat)
    requires k < |tokens|
  {
    tokens[k].text == separator && DepthAfter(tokens[..k + 1]) == 0
  }

  /** No token of the argument is a separator outside parentheses. */
  predicate IsUnsplit(tokens: seq<Token>, separator: string) {
    forall k | 0 <= k < |tokens| :: !IsSplit(tokens, separator, k)
  }

  predicate IsBalanced(tokens: seq<Token>) {
    DepthAfter(tokens) == 0
  }

  lemma {:induction false} DepthAppend(a: seq<Token>, b: seq<Token>)
    ensures DepthAfter(a + b) == DepthAfter(a) + DepthAfter(b)
  {
    if b == [] {
      assert a + b == a;
    } else {
      DepthAppend(a, b[..|b| - 1]);
      assert (a + b)[..|a + b| - 1] == a + b[..|b| - 1];
    }
  }

  lemma PartsAppend(tokens: seq<Token>, token: Token, separator: string)
    ensures var all := tokens + [token];
            Parts(all, separator) ==
            if IsSplit(all, separator, |tokens|) then Parts(tokens, separator) + [[]]
            else Extend(Parts(tokens, separator), token)
  {
    var all := tokens + [token];
    assert all[..|tokens|] == tokens && all[..|tokens| + 1] == all;
  }

  lemma UnsplitAppend(tokens: seq<Token>, token: Token, separator: string)
    ensures var all := tokens + [token];
            IsUnsplit(all, separator) <==> IsUnsplit(tokens, separator) && !IsSplit(all, separator, |tokens|)
  {
    hide DepthAfter;
    var all := tokens + [token];
    forall k | 0 <= k < |tokens| ensures IsSplit(all, separator, k) <==> IsSplit(tokens, separator, k) {
      assert all[..k + 1] == tokens[..k + 1];
    }
  }

  lemma {:induction false} UnsplitIsOnePart(tokens: seq<Token>, separator: string)
    ensures IsUnsplit(tokens, separator) ==> Parts(tokens, separator) == [tokens]
    ensures !IsUnsplit(tokens, separator) ==> |Parts(tokens, separator)| >= 2
  {
    hide IsSplit, IsUnsplit, Parts;
    if tokens == [] {
      NothingToSplit(separator);
    } else {
      var init, token := tokens[..|tokens| - 1], tokens[|tokens| - 1];
      assert tokens == init + [token];
      UnsplitIsOnePart(init, separator);
      PartsAppend(init, token, separator);
      UnsplitAppend(init, token, separator);
    }
  }

  lemma NothingToSplit(separator: string)
    ensures IsUnsplit([], separator) && Parts([], separator) == [[]]
  {
  }

  /** The first part, with one token of the rest for each further part. */
  lemma {:induction false} FirstPartFits(tokens: seq<Token>, separator: string)
    ensures |Parts(tokens, separator)[0]| + |Parts(tokens, separator)| - 1 <= |tokens|
  {
    if tokens != [] {
      FirstPartFits(tokens[..|tokens| - 1], separator);
    }
  }

  /** Further tokens lengthen the first part or leave it alone, once there is a second one. */
  lemma {:induction false} FirstPartGrows(a: seq<Token>, b: seq<Token>, separator: string)
    ensures |Parts(a, separator)[0]| <= |Parts(a + b, separator)[0]|
    ensures |Parts(a, separator)| >= 2 ==>
              |Parts(a + b, separator)| >= 2 && Parts(a + b, separator)[0] == Parts(a, separator)[0]
  {
    hide Parts, IsSplit;
    if b == [] {
      assert a + b == a;
    } else {
      var init, token := b[..|b| - 1], b[|b| - 1];
      FirstPartGrows(a, init, separator);
      assert a + b == a + init + [token];
      PartsAppend(a + init, token, separator);
    }
  }

  /** After a balanced text the separator splits, and what follows is split on its own. */
  lemma {:induction false} SeparatorSplits(a: seq<Token>, b: seq<Token>, separator: string)
    requires IsBalanced(a) && separator != "(" && separator != ")"
    ensures Parts(a + [Symbol(separator)] + b, separator) == Parts(a, separator) + Parts(b, separator)
  {
    hide Parts, DepthAfter, Extend;
    var one := a + [Symbol(separator)];
    SeparatorDepth(a, separator);
    if b == [] {
      PartsAppend(a, Symbol(separator), separator);
      assert one[..|one|] == one;
      NothingToSplit(separator);
      assert one + b == one;
    } else {
      var init, token := b[..|b| - 1], b[|b| - 1];
      SeparatorSplits(a, init, separator);
      assert one + b == one + init + [token] && b == init + [token];
      PartsAppend(one + init, token, separator);
      PartsAppend(init, token, separator);
      DepthAppend(one, b);
      assert (one + b)[..|one + init| + 1] == one + b && b[..|init| + 1] == b;
      ExtendLater(Parts(a, separator), Parts(init, separator), token);
      assert Parts(a, separator) + Parts(init, separator) + [[]] ==
             Parts(a, separator) + (Parts(init, separator) + [[]]);
    }
  }

  lemma SeparatorDepth(a: seq<Token>, separator: string)
    requires separator != "(" && separator != ")"
    ensures DepthAfter(a + [Symbol(separator)]) == DepthAfter(a)
  {
    assert (a + [Symbol(separator)])[..|a|] == a;
  }

  lemma ExtendLater(first: seq<seq<Token>>, later: seq<seq<Token>>, token: Token)
    requires later != []
    ensures Extend(first + later, token) == first + Extend(later, token)
  {
    assert (first + later)[..|first + later| - 1] == first + later[..|later| - 1];
  }

  /** Arguments with the separator between them. */
  function Glued(args: seq<seq<Token>>, separator: string): seq<Token>
    requires args != []
  {
    if |args| == 1 then args[0] else args[0] + [Symbol(separator)] + Glued(args[1..], separator)
  }

  /** No argument has a separator of its own outside parentheses, and each but the last is balanced. */
  predicate SplitsCleanly(args: seq<seq<Token>>, separator: string) {
    forall i | 0 <= i < |args| :: IsUnsplit(args[i], separator) && (i < |args| - 1 ==> IsBalanced(args[i]))
  }

  lemma SplitsCleanlyTail(args: seq<seq<Token>>, separator: string)
    requires |args| > 1
    ensures SplitsCleanly(args, separator) <==>
            IsUnsplit(args[0], separator) && IsBalanced(args[0]) && SplitsCleanly(args[1..], separator)
  {
    hide IsUnsplit, IsBalanced;
    if IsUnsplit(args[0], separator) && IsBalanced(args[0]) && SplitsCleanly(args[1..], separator) {
      forall i | 0 < i < |args|
        ensures IsUnsplit(args[i], separator) && (i < |args| - 1 ==> IsBalanced(args[i])) {
        assert args[i] == args[1..][i - 1];
      }
    }
    if SplitsCleanly(args, separator) {
      forall i | 0 <= i < |args| - 1
        ensures IsUnsplit(args[1..][i], separator) && (i < |args| - 2 ==> IsBalanced(args[1..][i])) {
        assert args[i + 1] == args[1..][i];
      }
    }
  }

  /** The first part is not the first argument if that one is split or not balanced. */
  lemma FirstArgumentIsLost(a: seq<Token>, rest: seq<Token>, separator: string)
    requires separator != "(" && separator != ")" && !(IsUnsplit(a, separator) && IsBalanced(a))
    ensures Parts(a + [Symbol(separator)] + rest, separator)[0] != a
  {
    hide Parts, DepthAfter, IsUnsplit;
    UnsplitIsOnePart(a, separator);
    FirstPartFits(a, separator);
    if IsUnsplit(a, separator) {
      var one := a + [Symbol(separator)];
      PartsAppend(a, Symbol(separator), separator);
      SeparatorDepth(a, separator);
      assert one[..|a| + 1] == one;
      FirstPartGrows(one, rest, separator);
    } else {
      FirstPartGrows(a, [Symbol(separator)] + rest, separator);
      assert a + ([Symbol(separator)] + rest) == a + [Symbol(separator)] + rest;
    }
  }

  /** The split gives back exactly the arguments that were joined if and only if none of them has a separator
      of its own outside parentheses and each but the last is balanced, counting parentheses by text. */
  lemma {:induction false} SplitUndoesGlue(args: seq<seq<Token>>, separator: string)
    requires args != [] && separator != "(" && separator != ")"
    ensures Parts(Glued(args, separator), separator) == args <==> SplitsCleanly(args, separator)
    decreases |args|
  {
    hide Parts, IsUnsplit, IsBalanced, SplitsCleanly;
    var a := args[0];
    if |args| == 1 {
      UnsplitIsOnePart(a, separator);
      assert args == [a];
      OneArgument(a, separator);
    } else {
      var rest := Glued(args[1..], separator);
      SplitsCleanlyTail(args, separator);
      SplitUndoesGlue(args[1..], separator);
      if IsUnsplit(a, separator) && IsBalanced(a) {
        UnsplitIsOnePart(a, separator);
        SeparatorSplits(a, rest, separator);
        assert args == [a] + args[1..];
        assert ([a] + Parts(rest, separator))[1..] == Parts(rest, separator);
      } else {
        FirstArgumentIsLost(a, rest, separator);
      }
    }
  }

  lemma OneArgument(a: seq<Token>, separator: string)
    ensures SplitsCleanly([a], separator) <==> IsUnsplit(a, separator)
  {
    hide IsUnsplit;
    assert [a][0] == a;
  }

  /** String literals, each an argument of its own. */
  function Literals(vs: seq<string>): seq<seq<Token>> {
    seq(|vs|, i requires 0 <= i < |vs| => [Str(vs[i])])
  }

  lemma OneLiteral(v: string, separator: string)
    requires separator != "(" && separator != ")"
    ensures IsUnsplit([Str(v)], separator) <==> v != separator
    ensures IsBalanced([Str(v)]) <==> v != "(" && v != ")"
  {
    assert [Str(v)][..0] == [] && [Str(v)][..1] == [Str(v)];
    assert DepthAfter([Str(v)]) == Depth(0, Str(v));
    if v == separator {
      assert IsSplit([Str(v)], separator, 0);
    }
  }

  /** String literals as arguments come back one by one if and only if none is the separator and none before
      the last is a parenthesis: the split looks at texts only, not at what kind of token has the text. */
  lemma LiteralArguments(vs: seq<string>, separator: string)
    requires vs != [] && separator != "(" && separator != ")"
    ensures Parts(Glued(Literals(vs), separator), separator) == Literals(vs) <==>
            (forall i | 0 <= i < |vs| :: vs[i] != separator && (i < |vs| - 1 ==> vs[i] != "(" && vs[i] != ")"))
  {
    hide Parts, IsUnsplit, IsBalanced, Glued;
    SplitUndoesGlue(Literals(vs), separator);
    forall i | 0 <= i < |vs|
      ensures IsUnsplit(Literals(vs)[i], separator) <==> vs[i] != separator
      ensures IsBalanced(Literals(vs)[i]) <==> vs[i] != "(" && vs[i] != ")" {
      OneLiteral(vs[i], separator);
    }
  }

  /** format('%s%s', '(', name): the parenthesis in the literal takes the next separator into its argument,
      and the name is no argument any more. */
  lemma ParenthesisSwallowsArgument(template: string, name: Token)
    requires template != "(" && template != ")" && template != "," && name.text != "(" && name.text != ")"
    ensures Parts([Str(template), Symbol(","), Str("("), Symbol(","), name], ",") ==
            [[Str(template)], [Str("("), Symbol(","), name]]
  {
    hide Parts, DepthAfter;
    var swallowed := [Str("("), Symbol(","), name];
    OneLiteral(template, ",");
    SeparatorSplits([Str(template)], swallowed, ",");
    UnsplitIsOnePart([Str(template)], ",");
    OpenDepths(name);
    assert IsUnsplit(swallowed, ",");
    UnsplitIsOnePart(swallowed, ",");
    assert [Str(template)] + [Symbol(",")] + swallowed ==
           [Str(template), Symbol(","), Str("("), Symbol(","), name];
    assert [[Str(template)]] + [swallowed] == [[Str(template)], swallowed];
  }

  lemma OpenDepths(name: Token)
    requires name.text != "(" && name.text != ")"
    ensures var tokens := [Str("("), Symbol(","), name];
            DepthAfter(tokens[..1]) == DepthAfter(tokens[..2]) == DepthAfter(tokens[..3]) == 1
  {
    var tokens := [Str("("), Symbol(","), name];
    assert tokens[..0] == [] && tokens[..1] == [Str("(")] && tokens[..2] == [Str("("), Symbol(",")];
    assert tokens[..1][..0] == [] && tokens[..2][..1] == tokens[..1] && tokens[..3][..2] == tokens[..2];
    assert DepthAfter(tokens[..1]) == 1;
    assert DepthAfter(tokens[..2]) == 1;
    assert DepthAfter(tokens[..3]) == 1;
  }
}
