/**
 JSON texts (RFC 8259): the compact printer and the parser. A number is represented by its text. The
 printer can also write a text as it appears between POSIX single quotes, where each apostrophe
 becomes the four characters '\''.
 */
module Json {
  import opened Characters

  datatype Json =
    | Null
    | Bool(value: bool)
    | Number(text: string)
    | String(chars: string)
    | Array(items: seq<Json>)
    | Object(fields: seq<Field>)

  datatype Field = Field(name: string, content: Json)

  datatype Parsed<+T> = Fail | Got(value: T, rest: string)

  // ---------------------------------------------------------------- characters

  const HEX := "0123456789abcdef"

  /** White space between tokens. */
  predicate IsBlank(c: char) {
    c == ' ' || c == '\t' || c == '\n' || c == '\r'
  }

  function SkipBlanks(s: string): (t: string)
    ensures |t| <= |s|
    ensures t == "" || !IsBlank(t[0])
  {
    if s != "" && IsBlank(s[0]) then SkipBlanks(s[1..]) else s
  }

  function HexValue(c: char): int {
    if IsDigit(c) then c as int - '0' as int
    else if 'a' <= c <= 'f' then c as int - 'a' as int + 10
    else if 'A' <= c <= 'F' then c as int - 'A' as int + 10
    else -1
  }

  /** The character with this code; a surrogate, which is not a character on its own, reads as U+FFFD. */
  function CharOf(code: nat): char
    requires code < 0x1_0000
  {
    if 0xD800 <= code < 0xE000 then '\U{FFFD}' else code as char
  }

  /** A character inside a string literal. */
  function CharText(c: char, quoted: bool): (t: string)
    ensures 1 <= |t| <= 6
  {
    if c == '"' then "\\\""
    else if c == '\\' then "\\\\"
    else if c == '\n' then "\\n"
    else if c == '\r' then "\\r"
    else if c == '\t' then "\\t"
    else if c as int == 8 then "\\b"
    else if c as int == 12 then "\\f"
    else if c < ' ' then "\\u00" + [HEX[c as int / 16], HEX[c as int % 16]]
    else if c == '\'' && quoted then "'\\''"
    else [c]
  }

  /** One character of a string literal, written plainly or as an escape. */
  function ParseChar(s: string): (r: Parsed<char>)
    ensures r.Got? ==> |r.rest| < |s|
  {
    if s == "" then Fail
    else if s[0] != '\\' then if s[0] < ' ' then Fail else Got(s[0], s[1..])
    else if |s| < 2 then Fail
    else if s[1] == '"' || s[1] == '\\' || s[1] == '/' then Got(s[1], s[2..])
    else if s[1] == 'n' then Got('\n', s[2..])
    else if s[1] == 'r' then Got('\r', s[2..])
    else if s[1] == 't' then Got('\t', s[2..])
    else if s[1] == 'b' then Got(8 as char, s[2..])
    else if s[1] == 'f' then Got(12 as char, s[2..])
    else if s[1] == 'u' && |s| >= 6 &&
            HexValue(s[2]) >= 0 && HexValue(s[3]) >= 0 && HexValue(s[4]) >= 0 && HexValue(s[5]) >= 0 then
      Got(CharOf(4096 * HexValue(s[2]) + 256 * HexValue(s[3]) + 16 * HexValue(s[4]) + HexValue(s[5])), s[6..])
    else Fail
  }

  lemma ParseControl(c: char, rest: string)
    requires c < ' ' && |CharText(c, false)| == 6
    ensures ParseChar(CharText(c, false) + rest) == Got(c, rest)
  {
    var s := CharText(c, false) + rest;
    var hi, lo := c as int / 16, c as int % 16;
    assert HexValue('0') == 0;
    assert HexValue(HEX[hi]) == hi by {
      assert hi == 0 || hi == 1;
    }
    HexDigit(lo);
    assert s[2] == '0' && s[3] == '0' && s[4] == HEX[hi] && s[5] == HEX[lo];
    assert s[6..] == rest;
  }

  lemma HexDigit(d: nat)
    requires d < 16
    ensures HexValue(HEX[d]) == d
  {
  }

  lemma ParseCharText(c: char, rest: string)
    ensures ParseChar(CharText(c, false) + rest) == Got(c, rest)
  {
    var s := CharText(c, false) + rest;
    if |CharText(c, false)| == 6 {
      ParseControl(c, rest);
    } else if |CharText(c, false)| == 2 {
      assert s[2..] == rest;
    } else {
      assert s[1..] == rest;
    }
  }

  lemma CharIsShortest(s: string)
    requires s == "" || s[0] != '"'
    ensures var r := ParseChar(s); r.Got? ==> |CharText(r.value, false)| + |r.rest| <= |s|
  {
  }

  // ---------------------------------------------------------------- string literals

  /** What stands between the double quotes. */
  function CharsText(chars: string, quoted: bool): string {
    if chars == "" then "" else CharText(chars[0], quoted) + CharsText(chars[1..], quoted)
  }

  /** A string literal after its opening quote. */
  function ParseChars(s: string): (r: Parsed<string>)
    ensures r.Got? ==> |r.rest| < |s|
    decreases |s|
  {
    if s == "" then Fail
    else if s[0] == '"' then Got("", s[1..])
    else
      var c := ParseChar(s);
      if c.Fail? then Fail
      else
        var more := ParseChars(c.rest);
        if more.Fail? then Fail else Got([c.value] + more.value, more.rest)
  }

  lemma CharTextStarts(c: char, quoted: bool)
    ensures CharText(c, quoted)[0] != '"'
    ensures !(quoted && c == '\'') ==> CharText(c, quoted) == CharText(c, false)
    ensures quoted && c == '\'' ==> CharText(c, quoted) == "'\\''"
  {
  }

  /** Between single quotes an apostrophe ends the literal's validity: \' is no JSON escape. */
  lemma QuotedApostropheFails(tail: string)
    ensures ParseChars("'\\''" + tail).Fail?
  {
    var s := "'\\''" + tail;
    assert s[1..] == "\\''" + tail;
    assert ParseChar(s[1..]).Fail?;
  }

  lemma {:induction false} ParseCharsText(chars: string, quoted: bool, rest: string)
    ensures ParseChars(CharsText(chars, quoted) + "\"" + rest) ==
            if quoted && '\'' in chars then Fail else Got(chars, rest)
  {
    hide CharText, ParseChar;
    var s := CharsText(chars, quoted) + "\"" + rest;
    if chars == "" {
      assert s[1..] == rest;
    } else {
      var tail := CharsText(chars[1..], quoted) + "\"" + rest;
      assert s == CharText(chars[0], quoted) + tail;
      assert chars == [chars[0]] + chars[1..];
      CharTextStarts(chars[0], quoted);
      if quoted && chars[0] == '\'' {
        QuotedApostropheFails(tail);
      } else {
        ParseCharText(chars[0], tail);
        ParseCharsText(chars[1..], quoted, rest);
      }
    }
  }

  lemma {:induction false} CharsAreShortest(s: string)
    ensures var r := ParseChars(s); r.Got? ==> |CharsText(r.value, false)| + 1 + |r.rest| <= |s|
    decreases |s|
  {
    if s != "" && s[0] != '"' && ParseChar(s).Got? {
      var c := ParseChar(s);
      CharIsShortest(s);
      CharsAreShortest(c.rest);
      var r := ParseChars(s);
      if r.Got? {
        assert r.value[1..] == ParseChars(c.rest).value;
      }
    }
  }

  // ---------------------------------------------------------------- numbers

  predicate NumberChar(c: char) {
    IsDigit(c) || c == '+' || c == '-' || c == '.' || c == 'e' || c == 'E'
  }

  function DropDigits(s: string): string {
    if s != "" && IsDigit(s[0]) then DropDigits(s[1..]) else s
  }

  predicate ValidExponent(s: string) {
    var digits := if s != "" && (s[0] == '+' || s[0] == '-') then s[1..] else s;
    digits != "" && DropDigits(digits) == ""
  }

  /** The number grammar of section 6 of RFC 8259. */
  predicate ValidNumber(s: string) {
    var a := if s != "" && s[0] == '-' then s[1..] else s;
    && (forall c | c in s :: NumberChar(c))
    && a != "" && IsDigit(a[0])
    && var b := if a[0] == '0' then a[1..] else DropDigits(a);
       var c := if |b| >= 2 && b[0] == '.' && IsDigit(b[1]) then DropDigits(b[1..]) else b;
       c == "" || ((c[0] == 'e' || c[0] == 'E') && ValidExponent(c[1..]))
  }

  /** The longest prefix of number characters. */
  function NumberSpan(s: string): (n: nat)
    ensures n <= |s|
  {
    if s != "" && NumberChar(s[0]) then 1 + NumberSpan(s[1..]) else 0
  }

  lemma {:induction false} SpanStops(text: string, rest: string)
    requires forall c | c in text :: NumberChar(c)
    requires rest == "" || !NumberChar(rest[0])
    ensures NumberSpan(text + rest) == |text|
  {
    if text == "" {
      assert text + rest == rest;
    } else {
      assert (text + rest)[1..] == text[1..] + rest;
      SpanStops(text[1..], rest);
    }
  }

  // ---------------------------------------------------------------- values

  function Text(v: Json, quoted: bool): string {
    match v
    case Null => "null"
    case Bool(b) => if b then "true" else "false"
    case Number(text) => text
    case String(chars) => "\"" + CharsText(chars, quoted) + "\""
    case Array(items) => "[" + ItemsText(items, quoted) + "]"
    case Object(fields) => "{" + FieldsText(fields, quoted) + "}"
  }

  function ItemsText(items: seq<Json>, quoted: bool): string {
    if items == [] then ""
    else if |items| == 1 then Text(items[0], quoted)
    else Text(items[0], quoted) + "," + ItemsText(items[1..], quoted)
  }

  function FieldText(f: Field, quoted: bool): string {
    "\"" + CharsText(f.name, quoted) + "\":" + Text(f.content, quoted)
  }

  function FieldsText(fields: seq<Field>, quoted: bool): string {
    if fields == [] then ""
    else if |fields| == 1 then FieldText(fields[0], quoted)
    else FieldText(fields[0], quoted) + "," + FieldsText(fields[1..], quoted)
  }

  /** Every number is written as the grammar asks. */
  predicate ValidNumbers(v: Json) {
    match v
    case Number(text) => ValidNumber(text)
    case Array(items) => ValidItems(items)
    case Object(fields) => ValidFields(fields)
    case _ => true
  }

  predicate ValidItems(items: seq<Json>) {
    items == [] || (ValidNumbers(items[0]) && ValidItems(items[1..]))
  }

  predicate ValidFields(fields: seq<Field>) {
    fields == [] || (ValidNumbers(fields[0].content) && ValidFields(fields[1..]))
  }

  /** Some name or string holds an apostrophe. */
  predicate HasApostrophe(v: Json) {
    match v
    case String(chars) => '\'' in chars
    case Array(items) => ItemApostrophe(items)
    case Object(fields) => FieldApostrophe(fields)
    case _ => false
  }

  predicate ItemApostrophe(items: seq<Json>) {
    items != [] && (HasApostrophe(items[0]) || ItemApostrophe(items[1..]))
  }

  predicate FieldApostrophe(fields: seq<Field>) {
    fields != [] && ('\'' in fields[0].name || HasApostrophe(fields[0].content) || FieldApostrophe(fields[1..]))
  }

  function ParseWord(s: string): Parsed<Json> {
    if "null" <= s then Got(Null, s[4..])
    else if "true" <= s then Got(Bool(true), s[4..])
    else if "false" <= s then Got(Bool(false), s[5..])
    else
      var n := NumberSpan(s);
      if ValidNumber(s[..n]) then Got(Number(s[..n]), s[n..]) else Fail
  }

  function ParseValue(s: string): (r: Parsed<Json>)
    ensures r.Got? ==> |r.rest| < |s|
    decreases |s|, 1
  {
    var t := SkipBlanks(s);
    if t == "" then Fail
    else if t[0] == '"' then
      var chars := ParseChars(t[1..]);
      if chars.Fail? then Fail else Got(String(chars.value), chars.rest)
    else if t[0] == '[' then
      var u := SkipBlanks(t[1..]);
      if u != "" && u[0] == ']' then Got(Array([]), u[1..])
      else
        var items := ParseItems(u);
        if items.Fail? then Fail else Got(Array(items.value), items.rest)
    else if t[0] == '{' then
      var u := SkipBlanks(t[1..]);
      if u != "" && u[0] == '}' then Got(Object([]), u[1..])
      else
        var fields := ParseFields(u);
        if fields.Fail? then Fail else Got(Object(fields.value), fields.rest)
    else ParseWord(t)
  }

  /** One or more values up to the closing bracket. */
  function ParseItems(s: string): (r: Parsed<seq<Json>>)
    ensures r.Got? ==> |r.rest| < |s|
    decreases |s|, 2
  {
    var v := ParseValue(s);
    if v.Fail? then Fail
    else
      var t := SkipBlanks(v.rest);
      if t == "" then Fail
      else if t[0] == ']' then Got([v.value], t[1..])
      else if t[0] == ',' then
        var more := ParseItems(t[1..]);
        if more.Fail? then Fail else Got([v.value] + more.value, more.rest)
      else Fail
  }

  /** A name, a colon and a value. */
  function ParseField(s: string): (r: Parsed<Field>)
    ensures r.Got? ==> |r.rest| < |s|
    decreases |s|, 2
  {
    var t := SkipBlanks(s);
    if t == "" || t[0] != '"' then Fail
    else
      var name := ParseChars(t[1..]);
      if name.Fail? then Fail
      else
        var u := SkipBlanks(name.rest);
        if u == "" || u[0] != ':' then Fail
        else
          var v := ParseValue(u[1..]);
          if v.Fail? then Fail else Got(Field(name.value, v.value), v.rest)
  }

  /** One or more fields up to the closing brace. */
  function ParseFields(s: string): (r: Parsed<seq<Field>>)
    ensures r.Got? ==> |r.rest| < |s|
    decreases |s|, 3
  {
    var f := ParseField(s);
    if f.Fail? then Fail
    else
      var t := SkipBlanks(f.rest);
      if t == "" then Fail
      else if t[0] == '}' then Got([f.value], t[1..])
      else if t[0] == ',' then
        var more := ParseFields(t[1..]);
        if more.Fail? then Fail else Got([f.value] + more.value, more.rest)
      else Fail
  }

  /** A whole text that is one value, with nothing but blanks after it. */
  function Parse(s: string): Parsed<Json> {
    var v := ParseValue(s);
    if v.Got? && SkipBlanks(v.rest) == "" then Got(v.value, "") else Fail
  }

  // ---------------------------------------------------------------- round trip

  /** What may follow a value: no character that could prolong a number. */
  predicate Separated(rest: string) {
    rest == "" || !NumberChar(rest[0])
  }

  /** Reading a printed value gives it back. Between single quotes that is so exactly if no string in
      it holds an apostrophe: the backslash of '\'' is not a JSON escape. */
  lemma {:induction false} ParseText(v: Json, quoted: bool, rest: string)
    requires ValidNumbers(v) && Separated(rest)
    ensures ParseValue(Text(v, quoted) + rest) == if quoted && HasApostrophe(v) then Fail else Got(v, rest)
    decreases v, 1
  {
    match v
    case Null => ParseWordText(v, quoted, rest);
    case Bool(b) => ParseWordText(v, quoted, rest);
    case Number(text) => ParseNumberText(text, rest);
    case String(chars) => ParseStringText(chars, quoted, rest);
    case Array(items) => ParseArrayText(items, quoted, rest);
    case Object(fields) => ParseObjectText(fields, quoted, rest);
  }

  lemma ParseWordText(v: Json, quoted: bool, rest: string)
    requires v.Null? || v.Bool?
    ensures ParseValue(Text(v, quoted) + rest) == Got(v, rest)
  {
    var s := Text(v, quoted) + rest;
    assert s[|Text(v, quoted)|..] == rest;
  }

  lemma ParseStringText(chars: string, quoted: bool, rest: string)
    ensures ParseValue("\"" + CharsText(chars, quoted) + "\"" + rest) ==
            if quoted && '\'' in chars then Fail else Got(String(chars), rest)
  {
    var s := "\"" + CharsText(chars, quoted) + "\"" + rest;
    assert s[1..] == CharsText(chars, quoted) + "\"" + rest;
    ParseCharsText(chars, quoted, rest);
  }

  lemma {:induction false} ParseArrayText(items: seq<Json>, quoted: bool, rest: string)
    requires ValidItems(items)
    ensures ParseValue("[" + ItemsText(items, quoted) + "]" + rest) ==
            if quoted && ItemApostrophe(items) then Fail else Got(Array(items), rest)
    decreases items, 1
  {
    var u := ItemsText(items, quoted) + "]" + rest;
    assert "[" + ItemsText(items, quoted) + "]" + rest == "[" + u;
    if items == [] {
      assert u == "]" + rest && u[1..] == rest;
      NoBlank(u[0]);
      OpenArray(u);
    } else {
      ItemsStart(items, quoted);
      assert u[0] == ItemsText(items, quoted)[0];
      OpenArray(u);
      ParseItemsText(items, quoted, rest);
    }
  }

  lemma NoBlank(c: char)
    requires c == ']' || c == '}' || c == '"'
    ensures !IsBlank(c)
  {
  }

  lemma OpenArray(u: string)
    requires u != "" && !IsBlank(u[0])
    ensures ParseValue("[" + u) ==
            if u[0] == ']' then Got(Array([]), u[1..])
            else var items := ParseItems(u); if items.Fail? then Fail else Got(Array(items.value), items.rest)
  {
    assert ("[" + u)[1..] == u;
  }

  lemma {:induction false} ParseObjectText(fields: seq<Field>, quoted: bool, rest: string)
    requires ValidFields(fields)
    ensures ParseValue("{" + FieldsText(fields, quoted) + "}" + rest) ==
            if quoted && FieldApostrophe(fields) then Fail else Got(Object(fields), rest)
    decreases fields, 4
  {
    var u := FieldsText(fields, quoted) + "}" + rest;
    assert "{" + FieldsText(fields, quoted) + "}" + rest == "{" + u;
    if fields == [] {
      assert u == "}" + rest && u[1..] == rest;
      NoBlank(u[0]);
      OpenObject(u);
    } else {
      FieldsStart(fields, quoted);
      assert u[0] == '"';
      NoBlank(u[0]);
      OpenObject(u);
      ParseFieldsText(fields, quoted, rest);
    }
  }

  lemma OpenObject(u: string)
    requires u != "" && !IsBlank(u[0])
    ensures ParseValue("{" + u) ==
            if u[0] == '}' then Got(Object([]), u[1..])
            else var fields := ParseFields(u); if fields.Fail? then Fail else Got(Object(fields.value), fields.rest)
  {
    assert ("{" + u)[1..] == u;
  }

  predicate StartsValue(c: char) {
    !IsBlank(c) && c != ']' && c != '}' && c != ',' && c != ':'
  }

  lemma TextStarts(v: Json, quoted: bool)
    requires ValidNumbers(v)
    ensures Text(v, quoted) != "" && StartsValue(Text(v, quoted)[0])
  {
  }

  lemma ItemsStart(items: seq<Json>, quoted: bool)
    requires items != [] && ValidItems(items)
    ensures ItemsText(items, quoted) != "" && StartsValue(ItemsText(items, quoted)[0])
  {
    TextStarts(items[0], quoted);
  }

  lemma FieldsStart(fields: seq<Field>, quoted: bool)
    requires fields != []
    ensures FieldsText(fields, quoted) != "" && FieldsText(fields, quoted)[0] == '"'
  {
    assert FieldText(fields[0], quoted)[0] == '"';
  }

  lemma ParseNumberText(text: string, rest: string)
    requires ValidNumber(text) && Separated(rest)
    ensures ParseValue(text + rest) == Got(Number(text), rest)
  {
    var s := text + rest;
    SpanStops(text, rest);
    assert s[..|text|] == text && s[|text|..] == rest;
    assert s[0] == text[0];
  }

  lemma HeadAndTail<T>(s: seq<T>)
    requires s != []
    ensures s == [s[0]] + s[1..]
  {
  }

  lemma LastItem(s: string, x: Json, rest: string)
    requires ParseValue(s) == Got(x, "]" + rest)
    ensures ParseItems(s) == Got([x], rest)
  {
    hide ParseValue;
    assert ("]" + rest)[1..] == rest;
  }

  lemma NextItem(s: string, x: Json, tail: string)
    requires ParseValue(s) == Got(x, "," + tail)
    ensures ParseItems(s) == var more := ParseItems(tail);
                             if more.Fail? then Fail else Got([x] + more.value, more.rest)
  {
    hide ParseValue;
    assert ("," + tail)[1..] == tail;
  }

  lemma {:induction false} ParseItemsText(items: seq<Json>, quoted: bool, rest: string)
    requires items != [] && ValidItems(items)
    ensures ParseItems(ItemsText(items, quoted) + "]" + rest) ==
            if quoted && ItemApostrophe(items) then Fail else Got(items, rest)
    decreases items, 0
  {
    hide ParseValue, Text, HasApostrophe, ValidNumbers;
    var s := ItemsText(items, quoted) + "]" + rest;
    if |items| == 1 {
      var after := "]" + rest;
      assert s == Text(items[0], quoted) + after;
      ParseText(items[0], quoted, after);
      assert items == [items[0]];
      if ParseValue(s).Got? {
        LastItem(s, items[0], rest);
      }
    } else {
      var tail := ItemsText(items[1..], quoted) + "]" + rest;
      var after := "," + tail;
      assert s == Text(items[0], quoted) + after;
      ParseText(items[0], quoted, after);
      if ParseValue(s).Got? {
        NextItem(s, items[0], tail);
        ParseItemsText(items[1..], quoted, rest);
        HeadAndTail(items);
      }
    }
  }

  lemma {:induction false} ParseFieldText(f: Field, quoted: bool, rest: string)
    requires ValidNumbers(f.content) && Separated(rest)
    ensures ParseField(FieldText(f, quoted) + rest) ==
            if quoted && ('\'' in f.name || HasApostrophe(f.content)) then Fail else Got(f, rest)
    decreases f, 2
  {
    hide ParseChars, ParseValue, CharsText, Text, HasApostrophe, ValidNumbers;
    var s := FieldText(f, quoted) + rest;
    var value := Text(f.content, quoted) + rest;
    assert s[1..] == CharsText(f.name, quoted) + "\"" + (":" + value);
    ParseCharsText(f.name, quoted, ":" + value);
    assert (":" + value)[1..] == value;
    ParseText(f.content, quoted, rest);
  }

  lemma LastField(s: string, f: Field, rest: string)
    requires ParseField(s) == Got(f, "}" + rest)
    ensures ParseFields(s) == Got([f], rest)
  {
    hide ParseField;
    assert ("}" + rest)[1..] == rest;
  }

  lemma NextField(s: string, f: Field, tail: string)
    requires ParseField(s) == Got(f, "," + tail)
    ensures ParseFields(s) == var more := ParseFields(tail);
                              if more.Fail? then Fail else Got([f] + more.value, more.rest)
  {
    hide ParseField;
    assert ("," + tail)[1..] == tail;
  }

  lemma {:induction false} ParseFieldsText(fields: seq<Field>, quoted: bool, rest: string)
    requires fields != [] && ValidFields(fields)
    ensures ParseFields(FieldsText(fields, quoted) + "}" + rest) ==
            if quoted && FieldApostrophe(fields) then Fail else Got(fields, rest)
    decreases fields, 3
  {
    hide ParseField, FieldText, HasApostrophe, ValidNumbers;
    var s := FieldsText(fields, quoted) + "}" + rest;
    if |fields| == 1 {
      var after := "}" + rest;
      assert s == FieldText(fields[0], quoted) + after;
      ParseFieldText(fields[0], quoted, after);
      assert fields == [fields[0]];
      if ParseField(s).Got? {
        LastField(s, fields[0], rest);
      }
    } else {
      var tail := FieldsText(fields[1..], quoted) + "}" + rest;
      var after := "," + tail;
      assert s == FieldText(fields[0], quoted) + after;
      ParseFieldText(fields[0], quoted, after);
      if ParseField(s).Got? {
        NextField(s, fields[0], tail);
        ParseFieldsText(fields[1..], quoted, rest);
        HeadAndTail(fields);
      }
    }
  }

  // ---------------------------------------------------------------- the printed text is the shortest

  /** No text of a value is shorter than the printed one. */
  lemma {:induction false} TextIsShortest(s: string)
    ensures var r := ParseValue(s); r.Got? ==> |Text(r.value, false)| + |r.rest| <= |s|
    decreases |s|, 1
  {
    var t := SkipBlanks(s);
    var r := ParseValue(s);
    if r.Got? {
      if t[0] == '"' {
        CharsAreShortest(t[1..]);
      } else if t[0] == '[' {
        var u := SkipBlanks(t[1..]);
        if !(u != "" && u[0] == ']') {
          ItemsAreShortest(u);
        }
      } else if t[0] == '{' {
        var u := SkipBlanks(t[1..]);
        if !(u != "" && u[0] == '}') {
          FieldsAreShortest(u);
        }
      }
    }
  }

  lemma {:induction false} ItemsAreShortest(s: string)
    ensures var r := ParseItems(s); r.Got? ==> |ItemsText(r.value, false)| + 1 + |r.rest| <= |s|
    decreases |s|, 2
  {
    TextIsShortest(s);
    var v := ParseValue(s);
    var r := ParseItems(s);
    if r.Got? {
      var t := SkipBlanks(v.rest);
      if t[0] == ',' {
        ItemsAreShortest(t[1..]);
        assert r.value[1..] == ParseItems(t[1..]).value;
      }
    }
  }

  lemma {:induction false} FieldIsShortest(s: string)
    ensures var r := ParseField(s); r.Got? ==> |FieldText(r.value, false)| + |r.rest| <= |s|
    decreases |s|, 2
  {
    var t := SkipBlanks(s);
    if ParseField(s).Got? {
      CharsAreShortest(t[1..]);
      TextIsShortest(SkipBlanks(ParseChars(t[1..]).rest)[1..]);
    }
  }

  lemma {:induction false} FieldsAreShortest(s: string)
    ensures var r := ParseFields(s); r.Got? ==> |FieldsText(r.value, false)| + 1 + |r.rest| <= |s|
    decreases |s|, 3
  {
    FieldIsShortest(s);
    var f := ParseField(s);
    var r := ParseFields(s);
    if r.Got? {
      var t := SkipBlanks(f.rest);
      if t[0] == ',' {
        FieldsAreShortest(t[1..]);
        assert r.value[1..] == ParseFields(t[1..]).value;
      }
    }
  }

  // ---------------------------------------------------------------- parsed values

  /** A parsed value has valid numbers only, so it can be printed and read again. */
  lemma {:induction false} ParsedIsValid(s: string)
    ensures var r := ParseValue(s); r.Got? ==> ValidNumbers(r.value)
    decreases |s|, 1
  {
    hide ParseChars, ValidNumber, NumberSpan;
    var t := SkipBlanks(s);
    if ParseValue(s).Got? {
      if t[0] == '[' {
        var u := SkipBlanks(t[1..]);
        if u == "" || u[0] != ']' {
          ItemsAreValid(u);
        }
      } else if t[0] == '{' {
        var u := SkipBlanks(t[1..]);
        if u == "" || u[0] != '}' {
          FieldsAreValid(u);
        }
      }
    }
  }

  lemma {:induction false} ItemsAreValid(s: string)
    ensures var r := ParseItems(s); r.Got? ==> ValidItems(r.value)
    decreases |s|, 2
  {
    hide ParseValue, ValidNumbers;
    ParsedIsValid(s);
    var v := ParseValue(s);
    if ParseItems(s).Got? {
      var t := SkipBlanks(v.rest);
      if t[0] == ',' {
        ItemsAreValid(t[1..]);
        assert ParseItems(s).value[1..] == ParseItems(t[1..]).value;
      }
    }
  }

  lemma {:induction false} FieldsAreValid(s: string)
    ensures var r := ParseFields(s); r.Got? ==> ValidFields(r.value)
    decreases |s|, 3
  {
    hide ParseValue, ValidNumbers, ParseChars;
    FieldIsValid(s);
    var f := ParseField(s);
    if ParseFields(s).Got? {
      var t := SkipBlanks(f.rest);
      if t[0] == ',' {
        FieldsAreValid(t[1..]);
        assert ParseFields(s).value[1..] == ParseFields(t[1..]).value;
      }
    }
  }

  lemma {:induction false} FieldIsValid(s: string)
    ensures var r := ParseField(s); r.Got? ==> ValidNumbers(r.value.content)
    decreases |s|, 2
  {
    hide ParseValue, ValidNumbers, ParseChars;
    if ParseField(s).Got? {
      ParsedIsValid(SkipBlanks(ParseChars(SkipBlanks(s)[1..]).rest)[1..]);
    }
  }

  /** JSON.parse undoes JSON.stringify. */
  lemma ParseWhole(v: Json, quoted: bool)
    requires ValidNumbers(v)
    ensures Parse(Text(v, quoted)) == if quoted && HasApostrophe(v) then Fail else Got(v, "")
  {
    hide ParseValue, Text, HasApostrophe, ValidNumbers;
    ParseText(v, quoted, "");
    assert Text(v, quoted) + "" == Text(v, quoted);
  }

  // ---------------------------------------------------------------- more text after a value

  function Longer<T>(r: Parsed<T>, more: string): Parsed<T> {
    if r.Fail? then Fail else Got(r.value, r.rest + more)
  }

  lemma TailOfLonger(s: string, k: nat, more: string)
    requires k <= |s|
    ensures (s + more)[k..] == s[k..] + more && (s + more)[..k] == s[..k]
  {
  }

  lemma {:induction false} BlanksBeforeMore(s: string, more: string)
    requires SkipBlanks(s) != ""
    ensures SkipBlanks(s + more) == SkipBlanks(s) + more
  {
    if IsBlank(s[0]) {
      TailOfLonger(s, 1, more);
      BlanksBeforeMore(s[1..], more);
    }
  }

  lemma CharBeforeMore(s: string, more: string)
    requires ParseChar(s).Got?
    ensures ParseChar(s + more) == Longer(ParseChar(s), more)
  {
    TailOfLonger(s, 1, more);
    if s[0] == '\\' {
      TailOfLonger(s, 2, more);
      if s[1] == 'u' {
        TailOfLonger(s, 6, more);
      }
    }
  }

  lemma {:induction false} CharsBeforeMore(s: string, more: string)
    requires ParseChars(s).Got?
    ensures ParseChars(s + more) == Longer(ParseChars(s), more)
    decreases |s|
  {
    hide ParseChar;
    if s[0] == '"' {
      TailOfLonger(s, 1, more);
    } else {
      CharBeforeMore(s, more);
      CharsBeforeMore(ParseChar(s).rest, more);
    }
  }

  lemma {:induction false} NumberBeforeMore(s: string, more: string)
    requires NumberSpan(s) < |s|
    ensures NumberSpan(s + more) == NumberSpan(s)
  {
    if NumberChar(s[0]) {
      TailOfLonger(s, 1, more);
      NumberBeforeMore(s[1..], more);
    }
  }

  /** A number at the end of the text may go on; any other value is complete. */
  predicate Complete(r: Parsed<Json>) {
    r.Got? && (r.rest != "" || !r.value.Number?)
  }

  lemma WordBeforeMore(t: string, more: string)
    requires t != "" && Complete(ParseWord(t))
    ensures ParseWord(t + more) == Longer(ParseWord(t), more)
  {
    hide ValidNumber;
    if "null" <= t || "true" <= t {
      TailOfLonger(t, 4, more);
      assert (t + more)[0] == t[0];
    } else if "false" <= t {
      TailOfLonger(t, 5, more);
      assert (t + more)[0] == t[0];
    } else {
      var n := NumberSpan(t);
      NumberStarts(t);
      NumberBeforeMore(t, more);
      TailOfLonger(t, n, more);
      assert (t + more)[0] == t[0];
    }
  }

  lemma NumberStarts(t: string)
    requires t != "" && ValidNumber(t[..NumberSpan(t)])
    ensures t[0] != 'n' && t[0] != 't' && t[0] != 'f'
  {
  }

  /** A complete value reads the same, whatever text comes after. */
  lemma {:induction false} ValueBeforeMore(s: string, more: string)
    requires Complete(ParseValue(s))
    ensures ParseValue(s + more) == Longer(ParseValue(s), more)
    decreases |s|, 1
  {
    hide ParseWord, ParseChars, ParseItems, ParseFields, SkipBlanks;
    var t := SkipBlanks(s);
    BlanksBeforeMore(s, more);
    TailOfLonger(t, 1, more);
    if t[0] == '"' {
      CharsBeforeMore(t[1..], more);
    } else if t[0] == '[' {
      ArrayBeforeMore(t, more);
    } else if t[0] == '{' {
      ObjectBeforeMore(t, more);
    } else {
      WordBeforeMore(t, more);
    }
  }

  lemma {:induction false} ArrayBeforeMore(t: string, more: string)
    requires t != "" && t[0] == '['
    requires var u := SkipBlanks(t[1..]); (u != "" && u[0] == ']') || ParseItems(u).Got?
    ensures var u := SkipBlanks(t[1..]);
            && u != "" && SkipBlanks(t[1..] + more) == u + more && (u + more)[1..] == u[1..] + more
            && (u[0] != ']' ==> ParseItems(u + more) == Longer(ParseItems(u), more))
    decreases |t|, 0
  {
    hide SkipBlanks, ParseItems;
    var u := SkipBlanks(t[1..]);
    if u == "" {
      NoItems();
    } else {
      BlanksBeforeMore(t[1..], more);
      TailOfLonger(u, 1, more);
      if u[0] != ']' {
        ItemsBeforeMore(u, more);
      }
    }
  }

  lemma NoItems()
    ensures ParseItems("").Fail? && ParseFields("").Fail?
  {
  }

  lemma {:induction false} ObjectBeforeMore(t: string, more: string)
    requires t != "" && t[0] == '{'
    requires var u := SkipBlanks(t[1..]); (u != "" && u[0] == '}') || ParseFields(u).Got?
    ensures var u := SkipBlanks(t[1..]);
            && u != "" && SkipBlanks(t[1..] + more) == u + more && (u + more)[1..] == u[1..] + more
            && (u[0] != '}' ==> ParseFields(u + more) == Longer(ParseFields(u), more))
    decreases |t|, 0
  {
    hide SkipBlanks, ParseFields;
    var u := SkipBlanks(t[1..]);
    if u == "" {
      NoItems();
    } else {
      BlanksBeforeMore(t[1..], more);
      TailOfLonger(u, 1, more);
      if u[0] != '}' {
        FieldsBeforeMore(u, more);
      }
    }
  }

  lemma {:induction false} ItemsBeforeMore(s: string, more: string)
    requires ParseItems(s).Got?
    ensures ParseItems(s + more) == Longer(ParseItems(s), more)
    decreases |s|, 2
  {
    hide ParseValue, SkipBlanks;
    var v := ParseValue(s);
    var t := SkipBlanks(v.rest);
    NothingSkipped();
    ValueBeforeMore(s, more);
    BlanksBeforeMore(v.rest, more);
    TailOfLonger(t, 1, more);
    if t[0] == ',' {
      ItemsBeforeMore(t[1..], more);
    }
  }

  lemma NothingSkipped()
    ensures SkipBlanks("") == ""
  {
  }

  lemma {:induction false} FieldBeforeMore(s: string, more: string)
    requires ParseField(s).Got? && ParseField(s).rest != ""
    ensures ParseField(s + more) == Longer(ParseField(s), more)
    decreases |s|, 2
  {
    hide ParseValue, SkipBlanks, ParseChars;
    var t := SkipBlanks(s);
    BlanksBeforeMore(s, more);
    TailOfLonger(t, 1, more);
    CharsBeforeMore(t[1..], more);
    var u := SkipBlanks(ParseChars(t[1..]).rest);
    BlanksBeforeMore(ParseChars(t[1..]).rest, more);
    TailOfLonger(u, 1, more);
    ValueBeforeMore(u[1..], more);
  }

  lemma {:induction false} FieldsBeforeMore(s: string, more: string)
    requires ParseFields(s).Got?
    ensures ParseFields(s + more) == Longer(ParseFields(s), more)
    decreases |s|, 3
  {
    hide ParseField, SkipBlanks;
    var f := ParseField(s);
    var t := SkipBlanks(f.rest);
    NothingSkipped();
    FieldBeforeMore(s, more);
    BlanksBeforeMore(f.rest, more);
    TailOfLonger(t, 1, more);
    if t[0] == ',' {
      FieldsBeforeMore(t[1..], more);
    }
  }

  /** No text of an object or other complete value goes on to be one: with anything but blanks behind it, it is
      no JSON text. */
  lemma CompleteTextEnds(s: string, more: string)
    requires Parse(s).Got? && !Parse(s).value.Number?
    ensures Parse(s + more).Got? <==> SkipBlanks(ParseValue(s).rest + more) == ""
  {
    hide ParseValue, SkipBlanks;
    ValueBeforeMore(s, more);
  }
}
