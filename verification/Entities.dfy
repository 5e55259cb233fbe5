/**
 * Escaping and decoding of HTML entities, from pkg/common/src/proto-format.ts:
 * decoding takes back what escaping did, and what it makes of every entity as
 * it may be written.
 *
 * Decoding is two passes, numbers first, so that what a number gives may be
 * part of a name.
 */
module Entities {
  import opened Text

  /** `replaceAll` of one character by a string. */
  function ReplaceAll(s: string, from: char, to: string): string {
    if s == "" then "" else (if s[0] == from then to else [s[0]]) + ReplaceAll(s[1..], from, to)
  }

  function EscapeAttribute(v: string): string {
    ReplaceAll(ReplaceAll(ReplaceAll(ReplaceAll(v, '&', "&amp;"), '"', "&quot;"), '<', "&lt;"), '>', "&gt;")
  }

  function EscapeHtml(v: string): string {
    ReplaceAll(EscapeAttribute(v), '\'', "&#39;")
  }

  /** What a name stands for. The table is an object, so the one inherited name of small letters is found too. */
  function Named(name: string): string {
    match name
    case "amp" => "&"
    case "apos" => "'"
    case "colon" => ":"
    case "gt" => ">"
    case "lt" => "<"
    case "newline" => "\n"
    case "quot" => "\""
    case "tab" => "\t"
    case "constructor" => "function Object() { [native code] }"
    case _ => ""
  }

  function Past(s: string, n: nat): (m: nat)
    requires n <= |s|
    ensures n <= m <= |s|
  {
    if n < |s| && s[n] == ';' then n + 1 else n
  }

  /** The first pass: numbers, hexadecimal or decimal, with or without the semicolon. */
  function DecodeNumbers(s: string): string
    decreases |s|
  {
    if s == "" then ""
    else if |s| > 2 && s[..2] == "&#" && (s[2] == 'x' || s[2] == 'X') && HexRun(s[3..], |s|) > 0 then
      var n := HexRun(s[3..], |s|);
      [CharOf(Number(s[3..3 + n], 16))] + DecodeNumbers(s[Past(s, 3 + n)..])
    else if |s| > 2 && s[..2] == "&#" && DigitRun(s[2..]) > 0 then
      var n := DigitRun(s[2..]);
      [CharOf(Number(s[2..2 + n], 10))] + DecodeNumbers(s[Past(s, 2 + n)..])
    else [s[0]] + DecodeNumbers(s[1..])
  }

  /** The second pass: names; an unknown one stays as it is. */
  function DecodeNames(s: string): string
    decreases |s|
  {
    if s == "" then ""
    else if s[0] == '&' && LetterRun(s[1..]) > 0 then
      var n := LetterRun(s[1..]);
      var end := Past(s, 1 + n);
      var named := Named(Lower(s[1..1 + n]));
      (if named != "" then named else s[..end]) + DecodeNames(s[end..])
    else [s[0]] + DecodeNames(s[1..])
  }

  function DecodeHtmlEntities(s: string): string {
    DecodeNames(DecodeNumbers(s))
  }

  /** Escaping, character by character. */
  function EscapeChar(c: char): string {
    if c == '&' then "&amp;" else if c == '"' then "&quot;" else if c == '<' then "&lt;" else if c == '>' then "&gt;" else [c]
  }

  function EscapeEach(v: string): string {
    if v == "" then "" else EscapeChar(v[0]) + EscapeEach(v[1..])
  }

  lemma {:induction false} ReplaceAppend(a: string, b: string, from: char, to: string)
    ensures ReplaceAll(a + b, from, to) == ReplaceAll(a, from, to) + ReplaceAll(b, from, to)
  {
    if a == "" {
      assert a + b == b;
    } else {
      ReplaceAppend(a[1..], b, from, to);
      assert (a + b)[0] == a[0] && (a + b)[1..] == a[1..] + b;
      var x, y, z := if a[0] == from then to else [a[0]], ReplaceAll(a[1..], from, to), ReplaceAll(b, from, to);
      assert x + (y + z) == x + y + z;
    }
  }

  lemma {:induction false} ReplaceNone(s: string, from: char, to: string)
    requires from !in s
    ensures ReplaceAll(s, from, to) == s
  {
    if s != "" {
      ReplaceNone(s[1..], from, to);
      assert s == [s[0]] + s[1..];
    }
  }

  lemma ReplaceOne(c: char, from: char, to: string)
    ensures ReplaceAll([c], from, to) == if c == from then to else [c]
  {
    assert [c][1..] == "";
  }

  lemma EscapeOne(c: char)
    ensures EscapeAttribute([c]) == EscapeChar(c)
  {
    ReplaceOne(c, '&', "&amp;");
    if c == '&' {
      Untouched("&amp;");
    } else {
      ReplaceOne(c, '"', "&quot;");
      ReplaceOne(c, '<', "&lt;");
      ReplaceOne(c, '>', "&gt;");
      if c == '"' {
        Untouched("&quot;");
      } else if c == '<' {
        Untouched("&lt;");
      }
    }
  }

  lemma Untouched(s: string)
    requires '"' !in s && '<' !in s && '>' !in s
    ensures ReplaceAll(s, '"', "&quot;") == s && ReplaceAll(s, '<', "&lt;") == s && ReplaceAll(s, '>', "&gt;") == s
  {
    ReplaceNone(s, '"', "&quot;");
    ReplaceNone(s, '<', "&lt;");
    ReplaceNone(s, '>', "&gt;");
  }

  /** The four replacements one after another do what one over the characters does. */
  lemma {:induction false} EscapeIsEach(v: string)
    ensures EscapeAttribute(v) == EscapeEach(v)
  {
    if v != "" {
      EscapeIsEach(v[1..]);
      EscapeOne(v[0]);
      assert v == [v[0]] + v[1..];
      EscapeAppend([v[0]], v[1..]);
    }
  }

  lemma EscapeAppend(a: string, b: string)
    ensures EscapeAttribute(a + b) == EscapeAttribute(a) + EscapeAttribute(b)
  {
    ReplaceAppend(a, b, '&', "&amp;");
    var a1, b1 := ReplaceAll(a, '&', "&amp;"), ReplaceAll(b, '&', "&amp;");
    ReplaceAppend(a1, b1, '"', "&quot;");
    var a2, b2 := ReplaceAll(a1, '"', "&quot;"), ReplaceAll(b1, '"', "&quot;");
    ReplaceAppend(a2, b2, '<', "&lt;");
    ReplaceAppend(ReplaceAll(a2, '<', "&lt;"), ReplaceAll(b2, '<', "&lt;"), '>', "&gt;");
  }

  /** No character of markup is left by escaping. */
  lemma {:induction false} EscapedIsPlain(v: string)
    ensures forall i :: 0 <= i < |EscapeEach(v)| ==> EscapeEach(v)[i] != '<' && EscapeEach(v)[i] != '>' && EscapeEach(v)[i] != '"'
  {
    if v != "" {
      EscapedIsPlain(v[1..]);
    }
  }

  /** An escaped text, and a whole one of it, never begins a number. */
  lemma {:induction false} NoNumbers(v: string)
    ensures DecodeNumbers(EscapeEach(v)) == EscapeEach(v)
  {
    if v != "" {
      NoNumbers(v[1..]);
      PassNumbers(EscapeChar(v[0]), EscapeEach(v[1..]));
    }
  }

  lemma NotANumber(s: string)
    requires s != "" && (s[0] == '&' ==> |s| > 1 && s[1] != '#')
    ensures DecodeNumbers(s) == [s[0]] + DecodeNumbers(s[1..])
  {
    if |s| > 2 {
      assert s[..2][0] == s[0] && s[..2][1] == s[1];
    }
  }

  lemma Cons(a: string, d: string)
    requires a != ""
    ensures [a[0]] + (a[1..] + d) == a + d
  {
  }

  lemma {:induction false} PassNumbers(a: string, b: string)
    requires forall i :: 0 <= i < |a| && a[i] == '&' ==> i + 1 < |a| && a[i + 1] != '#'
    ensures DecodeNumbers(a + b) == a + DecodeNumbers(b)
  {
    if a == "" {
      assert a + b == b;
    } else {
      var s := a + b;
      assert s[0] == a[0] && s[1..] == a[1..] + b;
      assert a[0] == '&' ==> s[1] == a[1];
      NotANumber(s);
      PassNumbers(a[1..], b);
      Cons(a, DecodeNumbers(b));
    }
  }

  lemma NameEnds(name: string, b: string)
    requires name != "" && forall i :: 0 <= i < |name| ==> IsLetter(name[i])
    ensures var s := "&" + name + ";" + b; s[1..] == name + ";" + b && LetterRun(s[1..]) == |name|
  {
    var s := "&" + name + ";" + b;
    assert s[1..] == name + ";" + b;
    RunOf(name, ";" + b);
    assert name + ";" + b == name + (";" + b);
  }

  lemma {:induction false} RunOf(name: string, rest: string)
    requires (forall i :: 0 <= i < |name| ==> IsLetter(name[i])) && (rest == "" || !IsLetter(rest[0]))
    ensures LetterRun(name + rest) == |name|
  {
    if name == "" {
      assert name + rest == rest;
    } else {
      RunOf(name[1..], rest);
      assert (name + rest)[0] == name[0] && (name + rest)[1..] == name[1..] + rest;
    }
  }

  lemma NameDecodes(token: string, name: string, b: string)
    requires name != "" && IsLowerAscii(name) && (forall i :: 0 <= i < |name| ==> IsLetter(name[i]))
    requires token == "&" + name + ";" && Named(name) != ""
    ensures DecodeNames(token + b) == Named(name) + DecodeNames(b)
  {
    var s := token + b;
    NameEnds(name, b);
    LowerKeeps(name);
    assert s == "&" + name + ";" + b;
    assert s[0] == '&' && s[1..1 + |name|] == name && s[1 + |name|] == ';' && s[|name| + 2..] == b;
  }

  lemma AmpDecodes(rest: string)
    ensures DecodeNames("&amp;" + rest) == "&" + DecodeNames(rest)
  {
    assert "&amp;" == "&" + "amp" + ";";
    NameDecodes("&amp;", "amp", rest);
  }

  lemma QuotDecodes(rest: string)
    ensures DecodeNames("&quot;" + rest) == "\"" + DecodeNames(rest)
  {
    assert "&quot;" == "&" + "quot" + ";";
    NameDecodes("&quot;", "quot", rest);
  }

  lemma LtDecodes(rest: string)
    ensures DecodeNames("&lt;" + rest) == "<" + DecodeNames(rest)
  {
    assert "&lt;" == "&" + "lt" + ";";
    NameDecodes("&lt;", "lt", rest);
  }

  lemma GtDecodes(rest: string)
    ensures DecodeNames("&gt;" + rest) == ">" + DecodeNames(rest)
  {
    assert "&gt;" == "&" + "gt" + ";";
    NameDecodes("&gt;", "gt", rest);
  }

  lemma PlainDecodes(c: char, rest: string)
    requires c != '&'
    ensures DecodeNames([c] + rest) == [c] + DecodeNames(rest)
  {
    assert ([c] + rest)[1..] == rest;
  }

  lemma CharDecodes(c: char, rest: string)
    ensures DecodeNames(EscapeChar(c) + rest) == [c] + DecodeNames(rest)
  {
    if c == '&' {
      AmpDecodes(rest);
    } else if c == '"' {
      QuotDecodes(rest);
    } else if c == '<' {
      LtDecodes(rest);
    } else if c == '>' {
      GtDecodes(rest);
    } else {
      PlainDecodes(c, rest);
    }
  }

  lemma {:induction false} NamesDecode(v: string)
    ensures DecodeNames(EscapeEach(v)) == v
  {
    if v != "" {
      NamesDecode(v[1..]);
      CharDecodes(v[0], EscapeEach(v[1..]));
      assert v == [v[0]] + v[1..];
    }
  }

  /** Decoding takes back what escaping did, whatever the text. */
  lemma DecodeUndoesEscape(v: string)
    ensures DecodeHtmlEntities(EscapeAttribute(v)) == v
  {
    EscapeIsEach(v);
    NoNumbers(v);
    NamesDecode(v);
  }

  function HtmlEach(v: string): string {
    if v == "" then "" else (if v[0] == '\'' then "&#39;" else EscapeChar(v[0])) + HtmlEach(v[1..])
  }

  lemma {:induction false} HtmlIsEach(v: string)
    ensures ReplaceAll(EscapeEach(v), '\'', "&#39;") == HtmlEach(v)
  {
    if v != "" {
      HtmlIsEach(v[1..]);
      ReplaceAppend(EscapeChar(v[0]), EscapeEach(v[1..]), '\'', "&#39;");
      if v[0] == '\'' {
        ReplaceOne(v[0], '\'', "&#39;");
      } else {
        ReplaceNone(EscapeChar(v[0]), '\'', "&#39;");
      }
    }
  }

  lemma ApostropheDecodes(rest: string)
    ensures DecodeNumbers("&#39;" + rest) == "'" + DecodeNumbers(rest)
  {
    var s := "&#39;" + rest;
    assert s[..2] == "&#" && s[2..] == "39;" + rest && s[2] == '3';
    var t := s[2..];
    assert t[1..] == "9;" + rest && t[1..][1..] == ";" + rest;
    assert DigitRun(t[1..][1..]) == 0;
    assert DigitRun(t[1..]) == 1;
    assert DigitRun(t) == 2;
    assert s[2..4] == "39" && "39"[..1] == "3" && "3"[..0] == "";
    assert Number("3", 10) == 3 && Number("39", 10) == 39 && CharOf(39) == '\'';
    assert s[5..] == rest;
  }

  lemma PlainToEscaped(c: char, rest: string)
    requires c != '\''
    ensures DecodeNumbers(EscapeChar(c) + rest) == EscapeChar(c) + DecodeNumbers(rest)
  {
    PassNumbers(EscapeChar(c), rest);
  }

  lemma {:induction false} NumbersToEscaped(v: string)
    ensures DecodeNumbers(HtmlEach(v)) == EscapeEach(v)
  {
    if v != "" {
      NumbersToEscaped(v[1..]);
      if v[0] == '\'' {
        ApostropheDecodes(HtmlEach(v[1..]));
      } else {
        PlainToEscaped(v[0], HtmlEach(v[1..]));
      }
    }
  }

  /** The same for the escape that also covers the apostrophe, by a number. */
  lemma DecodeUndoesEscapeHtml(v: string)
    ensures DecodeHtmlEntities(EscapeHtml(v)) == v
  {
    EscapeIsEach(v);
    HtmlIsEach(v);
    NumbersToEscaped(v);
    NamesDecode(v);
  }

  // Entities as they are written.

  /** The character of a code point; what stands for none is the replacement character. */
  function CharFor(code: nat): char {
    if 0 < code < 0xD800 || 0xDFFF < code <= 0x10FFFF then code as char else '\U{FFFD}'
  }

  /** A semicolon, or nothing where neither it nor more of the same follows. */
  predicate Marks(mark: string, rest: string) {
    mark == ";" || (mark == "" && (rest == "" || rest[0] != ';'))
  }

  lemma PastMark(s: string, n: nat, mark: string, rest: string)
    requires n <= |s| && s[n..] == mark + rest && Marks(mark, rest)
    ensures s[Past(s, n)..] == rest
  {
    if mark == ";" {
      assert s[n] == s[n..][0] && s[n + 1..] == s[n..][1..];
    } else {
      assert mark + rest == rest;
      if n < |s| {
        assert s[n] == s[n..][0];
      }
    }
  }

  lemma HexStep(s: string, digits: string, behind: string, rest: string)
    requires |s| > 2 && s[..2] == "&#" && (s[2] == 'x' || s[2] == 'X') && s[3..] == digits + behind
    requires digits != "" && AllHex(digits) && HexRun(s[3..], |s|) == |digits|
    requires s[3..3 + |digits|] == digits && s[Past(s, 3 + |digits|)..] == rest
    ensures DecodeNumbers(s) == [CharFor(Value(digits, 16))] + DecodeNumbers(rest)
  {
    ValueIsNumber(digits, 16);
  }

  /** A number to the base 16 is decoded, with its semicolon or without. */
  lemma HexDecodes(x: char, digits: string, mark: string, rest: string)
    requires (x == 'x' || x == 'X') && digits != "" && AllHex(digits)
    requires Marks(mark, rest) && (mark == "" && rest != "" ==> !HexDigit(rest[0]))
    ensures DecodeNumbers(['&', '#', x] + (digits + (mark + rest))) == [CharFor(Value(digits, 16))] + DecodeNumbers(rest)
  {
    var behind := mark + rest;
    var s := ['&', '#', x] + (digits + behind);
    Parts(['&', '#', x], digits, behind);
    assert s[..2] == "&#" && s[2] == x;
    assert behind != "" ==> behind[0] == if mark == ";" then ';' else rest[0];
    HexRunIs(digits, behind, |s|);
    PastMark(s, 3 + |digits|, mark, rest);
    HexStep(s, digits, behind, rest);
  }

  lemma DecimalStep(s: string, digits: string, behind: string, rest: string)
    requires |s| > 2 && s[..2] == "&#" && s[2..] == digits + behind && digits != "" && s[2] == digits[0]
    requires (forall i :: 0 <= i < |digits| ==> '0' <= digits[i] <= '9') && DigitRun(s[2..]) == |digits|
    requires s[2..2 + |digits|] == digits && s[Past(s, 2 + |digits|)..] == rest
    ensures DecodeNumbers(s) == [CharFor(Value(digits, 10))] + DecodeNumbers(rest)
  {
    ValueIsNumber(digits, 10);
  }

  /** So is one to the base 10. */
  lemma DecimalDecodes(digits: string, mark: string, rest: string)
    requires digits != "" && forall i :: 0 <= i < |digits| ==> '0' <= digits[i] <= '9'
    requires Marks(mark, rest) && (mark == "" && rest != "" ==> !('0' <= rest[0] <= '9'))
    ensures DecodeNumbers(['&', '#'] + (digits + (mark + rest))) == [CharFor(Value(digits, 10))] + DecodeNumbers(rest)
  {
    var behind := mark + rest;
    var s := ['&', '#'] + (digits + behind);
    Parts(['&', '#'], digits, behind);
    assert s[..2] == "&#" && s[2] == digits[0];
    assert behind != "" ==> behind[0] == if mark == ";" then ';' else rest[0];
    DigitRunIs(digits, behind);
    PastMark(s, 2 + |digits|, mark, rest);
    DecimalStep(s, digits, behind, rest);
  }

  /** The names there are, and what they stand for. */
  function Names(): seq<(string, string)> {
    [("amp", "&"), ("apos", "'"), ("colon", ":"), ("gt", ">"), ("lt", "<"), ("newline", "\n"), ("quot", "\""), ("tab", "\t")]
  }

  lemma NamedAre(i: nat)
    requires i < |Names()|
    ensures Named(Names()[i].0) == Names()[i].1 != ""
  {
  }

  lemma NameFound(name: string, mark: string, rest: string)
    requires name != "" && forall k :: 0 <= k < |name| ==> IsLetter(name[k])
    requires Marks(mark, rest) && (mark == "" && rest != "" ==> !IsLetter(rest[0]))
    ensures var s := "&" + (name + (mark + rest));
      s[0] == '&' && LetterRun(s[1..]) == |name| && s[1..1 + |name|] == name && s[Past(s, 1 + |name|)..] == rest
  {
    var behind := mark + rest;
    assert behind != "" ==> behind[0] == if mark == ";" then ';' else rest[0];
    RunOf(name, behind);
    Parts("&", name, behind);
    PastMark("&" + (name + behind), 1 + |name|, mark, rest);
  }

  lemma NameStep(s: string, name: string, rest: string)
    requires s != "" && s[0] == '&' && name != "" && LetterRun(s[1..]) == |name| && s[1..1 + |name|] == name
    requires s[Past(s, 1 + |name|)..] == rest
    ensures DecodeNames(s) == (if Named(Lower(name)) != "" then Named(Lower(name)) else s[..Past(s, 1 + |name|)]) + DecodeNames(rest)
  {
  }

  /** A name is decoded, in small letters or capitals, with its semicolon or without. */
  lemma NameStands(i: nat, name: string, mark: string, rest: string)
    requires i < |Names()| && Spells(name, Names()[i].0)
    requires Marks(mark, rest) && (mark == "" && rest != "" ==> !IsLetter(rest[0]))
    ensures DecodeNames("&" + (name + (mark + rest))) == Names()[i].1 + DecodeNames(rest)
  {
    NameIsWord(i, name);
    SpelledIsLower(name, Names()[i].0);
    NamedAre(i);
    NameFound(name, mark, rest);
    NameStep("&" + (name + (mark + rest)), name, rest);
  }

  lemma NameIsWord(i: nat, name: string)
    requires i < |Names()| && Spells(name, Names()[i].0)
    ensures name != "" && IsLowerAscii(Names()[i].0) && forall k :: 0 <= k < |name| ==> IsLetter(name[k])
  {
    var word := Names()[i].0;
    assert forall k :: 0 <= k < |word| ==> 'a' <= word[k] <= 'z';
  }

  /** Any other name stays as it is. */
  lemma OtherNameStays(name: string, mark: string, rest: string)
    requires name != "" && (forall k :: 0 <= k < |name| ==> IsLetter(name[k])) && Lower(name) != "constructor"
    requires Lower(name) !in ["amp", "apos", "colon", "gt", "lt", "newline", "quot", "tab"]
    requires Marks(mark, rest) && (mark == "" && rest != "" ==> !IsLetter(rest[0]))
    ensures DecodeNames("&" + (name + (mark + rest))) == "&" + name + mark + DecodeNames(rest)
  {
    NameFound(name, mark, rest);
    NameStep("&" + (name + (mark + rest)), name, rest);
    OtherIsUnnamed(Lower(name));
    WholeEntity(name, mark, rest);
  }

  lemma OtherIsUnnamed(name: string)
    requires name !in ["amp", "apos", "colon", "gt", "lt", "newline", "quot", "tab"] && name != "constructor"
    ensures Named(name) == ""
  {
  }

  lemma WholeEntity(name: string, mark: string, rest: string)
    requires Marks(mark, rest)
    ensures var s := "&" + (name + (mark + rest)); s[..Past(s, 1 + |name|)] == "&" + name + mark
  {
    var s := "&" + (name + (mark + rest));
    Parts("&", name, mark + rest);
    if mark == "" {
      assert mark + rest == rest;
    }
    assert 1 + |name| < |s| ==> s[1 + |name|] == (mark + rest)[0];
  }

  lemma {:induction false} PlainNumbersStay(text: string, rest: string)
    requires '&' !in text
    ensures DecodeNumbers(text + rest) == text + DecodeNumbers(rest)
    decreases |text|
  {
    if text == "" {
      assert text + rest == rest;
    } else {
      assert text[0] in text && (text + rest)[0] == text[0] && (text + rest)[1..] == text[1..] + rest;
      NotANumber(text + rest);
      PlainNumbersStay(text[1..], rest);
      Cons(text, DecodeNumbers(rest));
    }
  }

  lemma {:induction false} PlainNamesStay(text: string, rest: string)
    requires '&' !in text
    ensures DecodeNames(text + rest) == text + DecodeNames(rest)
    decreases |text|
  {
    if text == "" {
      assert text + rest == rest;
    } else {
      assert text[0] in text && text + rest == [text[0]] + (text[1..] + rest);
      PlainDecodes(text[0], text[1..] + rest);
      PlainNamesStay(text[1..], rest);
      Cons(text, DecodeNames(rest));
    }
  }

  /** Text without the sign of an entity stays. */
  lemma PlainStays(text: string, rest: string)
    requires '&' !in text
    ensures DecodeNumbers(text + rest) == text + DecodeNumbers(rest) && DecodeNames(text + rest) == text + DecodeNames(rest)
  {
    PlainNumbersStay(text, rest);
    PlainNamesStay(text, rest);
  }
}
