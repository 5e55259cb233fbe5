/**
 * The scanners of the sanitizer as they run: an index that moves, and what is
 * pushed to the output.
 *
 * Each method is proved to compute the function of the same step, in Attributes
 * and Html, on the text from the index on.
 */
module HtmlScanner {
  import opened Options
  import opened Text
  import opened Entities
  import opened Attributes
  import opened Html

  lemma Tail(s: string, from: nat, k: nat)
    requires from + k <= |s|
    ensures s[from..][k..] == s[from + k..] && s[from..][..k] == s[from..from + k]
  {
  }

  function NextQuote(c: char, quote: Option<char>): Option<char> {
    if quote.Some? then if c == quote.value then None else quote
    else if IsQuote(c) then Some(c) else None
  }

  lemma TagEndStep(s: string, quote: Option<char>, n: nat)
    requires s != ""
    ensures quote.None? && s[0] == '>' ==> Shifted(TagEnd(s, quote), n) == Some(n)
    ensures quote.Some? || s[0] != '>' ==>
      Shifted(TagEnd(s, quote), n) == Shifted(TagEnd(s[1..], NextQuote(s[0], quote)), n + 1)
  {
  }

  method FindTagEnd(html: string, start: nat) returns (end: Option<nat>)
    requires start < |html|
    ensures end == Shifted(TagEnd(html[start + 1..], None), start + 1)
  {
    var quote: Option<char> := None;
    for index := start + 1 to |html|
      invariant Shifted(TagEnd(html[start + 1..], None), start + 1) == Shifted(TagEnd(html[index..], quote), index)
    {
      var c := html[index];
      TagEndStep(html[index..], quote, index);
      Tail(html, index, 1);
      if quote.Some? {
        if c == quote.value {
          quote := None;
        }
      } else if IsQuote(c) {
        quote := Some(c);
      } else if c == '>' {
        return Some(index);
      }
    }
    return None;
  }

  method PassSlashes(s: string, from: nat) returns (to: nat)
    requires from <= |s|
    ensures to == from + SlashRun(s[from..])
  {
    to := from;
    while to < |s| && (IsSpace(s[to]) || s[to] == '/')
      invariant from <= to <= |s| && SlashRun(s[from..]) == to - from + SlashRun(s[to..])
    {
      Tail(s, to, 1);
      to := to + 1;
    }
  }

  method PassName(s: string, from: nat) returns (to: nat)
    requires from <= |s|
    ensures to == from + NameRun(s[from..])
  {
    to := from;
    while to < |s| && NameChar(s[to])
      invariant from <= to <= |s| && NameRun(s[from..]) == to - from + NameRun(s[to..])
    {
      Tail(s, to, 1);
      to := to + 1;
    }
  }

  method PassSpace(s: string, from: nat) returns (to: nat)
    requires from <= |s|
    ensures to == from + SpaceRun(s[from..]) && s[to..] == TrimStart(s[from..])
  {
    to := from;
    while to < |s| && IsSpace(s[to])
      invariant from <= to <= |s| && SpaceRun(s[from..]) == to - from + SpaceRun(s[to..])
    {
      Tail(s, to, 1);
      to := to + 1;
    }
    Tail(s, from, to - from);
  }

  method PassValue(s: string, from: nat) returns (to: nat)
    requires from <= |s|
    ensures to == from + ValueRun(s[from..])
  {
    to := from;
    while to < |s| && !IsSpace(s[to]) && s[to] != '>'
      invariant from <= to <= |s| && ValueRun(s[from..]) == to - from + ValueRun(s[to..])
    {
      Tail(s, to, 1);
      to := to + 1;
    }
  }

  method PassQuoted(s: string, from: nat, quote: char) returns (to: nat)
    requires from <= |s|
    ensures to == from + QuoteRun(s[from..], quote)
  {
    to := from;
    while to < |s| && s[to] != quote
      invariant from <= to <= |s| && QuoteRun(s[from..], quote) == to - from + QuoteRun(s[to..], quote)
    {
      Tail(s, to, 1);
      to := to + 1;
    }
  }

  /** The value at the index, quoted or bare, and the index behind it. */
  method ReadValue(s: string, from: nat) returns (value: string, next: nat)
    requires from <= |s|
    ensures from <= next <= |s| && ValueAt(s[from..]) == (value, s[next..])
  {
    ghost var t := s[from..];
    if from < |s| && IsQuote(s[from]) {
      Tail(s, from, 1);
      var end := PassQuoted(s, from + 1, s[from]);
      value := s[from + 1..end];
      assert value == t[1..end - from];
      Tail(s, from, end - from);
      next := if end < |s| then end + 1 else end;
      Tail(s, from, next - from);
    } else {
      next := PassValue(s, from);
      value := s[from..next];
      Tail(s, from, next - from);
    }
  }

  method ReadBehindName(s: string, name: string, from: nat) returns (attribute: Attribute, next: nat)
    requires from <= |s|
    ensures from <= next <= |s| && AttributeFrom(name, s[from..]) == (attribute, s[next..])
  {
    if from < |s| && s[from] == '=' {
      Tail(s, from, 1);
      var start := PassSpace(s, from + 1);
      var value;
      value, next := ReadValue(s, start);
      attribute := Attribute(name, value, true);
    } else {
      attribute, next := Attribute(name, "", false), from;
    }
  }

  lemma AttributeIs(t: string, n: nat, name: string, rest: string)
    requires 0 < n <= |t| && name == Lower(t[..n]) && rest == TrimStart(t[n..])
    ensures AttributeAt(t, n) == AttributeFrom(name, rest)
  {
  }

  method ReadAttribute(s: string, start: nat, end: nat) returns (attribute: Attribute, next: nat)
    requires start < end <= |s|
    ensures start < next <= |s| && AttributeAt(s[start..], end - start) == (attribute, s[next..])
  {
    Tail(s, start, end - start);
    var name := Lower(s[start..end]);
    var from := PassSpace(s, end);
    AttributeIs(s[start..], end - start, name, s[from..]);
    attribute, next := ReadBehindName(s, name, from);
  }

  /** One turn of reading: an attribute or nothing, and what is left. */
  function ReadTurn(rest: string): (turn: (seq<Attribute>, string))
    requires rest != ""
    ensures |turn.1| < |rest|
  {
    var s := rest[SlashRun(rest)..];
    if s == "" then ([], "")
    else if NameRun(s) == 0 then ([], s[1..])
    else
      var r := AttributeAt(s, NameRun(s));
      ([r.0], r.1)
  }

  lemma ParseTurn(rest: string)
    requires rest != ""
    ensures Parse(rest) == ReadTurn(rest).0 + Parse(ReadTurn(rest).1)
  {
    var s := rest[SlashRun(rest)..];
    if s != "" {
      if NameRun(s) == 0 {
        assert Parse(rest) == Parse(s[1..]);
      } else {
        var r := AttributeAt(s, NameRun(s));
        assert Parse(rest) == [r.0] + Parse(r.1);
      }
    }
  }

  lemma TurnEnds(rest: string)
    requires rest != "" && rest[SlashRun(rest)..] == ""
    ensures ReadTurn(rest) == ([], "")
  {
  }

  lemma TurnPasses(rest: string, s: string)
    requires rest != "" && s == rest[SlashRun(rest)..] && s != "" && NameRun(s) == 0
    ensures ReadTurn(rest) == ([], s[1..])
  {
  }

  lemma TurnFinds(rest: string, s: string, a: Attribute, behind: string)
    requires rest != "" && s == rest[SlashRun(rest)..] && s != "" && NameRun(s) > 0 && AttributeAt(s, NameRun(s)) == (a, behind)
    ensures ReadTurn(rest) == ([a], behind)
  {
  }

  /** From the index: an attribute, or nothing, and where reading goes on. */
  method NextAttribute(source: string, index: nat) returns (found: seq<Attribute>, next: nat)
    requires index < |source|
    ensures index < next <= |source| && ReadTurn(source[index..]) == (found, source[next..])
  {
    ghost var rest := source[index..];
    var start := PassSlashes(source, index);
    Tail(source, index, start - index);
    if start >= |source| {
      TurnEnds(rest);
      return [], |source|;
    }
    ghost var s := source[start..];
    var end := PassName(source, start);
    if end == start {
      Tail(source, start, 1);
      TurnPasses(rest, s);
      return [], start + 1;
    }
    var attribute;
    attribute, next := ReadAttribute(source, start, end);
    TurnFinds(rest, s, attribute, source[next..]);
    found := [attribute];
  }

  method ParseAttributes(source: string) returns (attributes: seq<Attribute>)
    ensures attributes == Parse(source)
  {
    attributes := [];
    var index := 0;
    while index < |source|
      invariant 0 <= index <= |source|
      invariant attributes + Parse(source[index..]) == Parse(source)
      decreases |source| - index
    {
      var found, next := NextAttribute(source, index);
      ParseTurn(source[index..]);
      Regrouped(attributes, found, Parse(source[next..]));
      attributes := attributes + found;
      index := next;
    }
  }

  lemma Regrouped<T>(a: seq<T>, b: seq<T>, c: seq<T>)
    ensures a + (b + c) == a + b + c
  {
  }

  function Join(parts: seq<string>): string {
    if parts == [] then ""
    else if |parts| == 1 then parts[0]
    else parts[0] + " " + Join(parts[1..])
  }

  function Rendered(kept: seq<Kept>): seq<string> {
    if kept == [] then [] else [RenderOne(kept[0])] + Rendered(kept[1..])
  }

  lemma {:induction false} JoinIsRendered(kept: seq<Kept>)
    ensures RenderAll(kept) == if kept == [] then "" else " " + Join(Rendered(kept))
    ensures Rendered(kept) == [] <==> kept == []
  {
    if kept != [] {
      JoinIsRendered(kept[1..]);
      var all := Rendered(kept);
      assert all[0] == RenderOne(kept[0]) && all[1..] == Rendered(kept[1..]);
      if kept[1..] == [] {
        assert |all| == 1;
      } else {
        assert |all| > 1;
        Spaced(all[0], Join(all[1..]));
      }
    }
  }

  lemma Spaced(one: string, more: string)
    ensures " " + (one + " " + more) == " " + one + (" " + more)
  {
  }

  lemma {:induction false} RenderedGrows(a: seq<Kept>, b: seq<Kept>)
    ensures Rendered(a + b) == Rendered(a) + Rendered(b)
  {
    if a == [] {
      assert a + b == b;
    } else {
      RenderedGrows(a[1..], b);
      Behead(a, b);
      Regrouped([RenderOne(a[0])], Rendered(a[1..]), Rendered(b));
    }
  }

  lemma Behead<T>(a: seq<T>, b: seq<T>)
    requires a != []
    ensures a + b != [] && (a + b)[0] == a[0] && (a + b)[1..] == a[1..] + b
  {
  }

  /** The attribute as it is written out, if it is. */
  method WriteAttribute(rules: Rules, tag: string, a: Attribute) returns (part: Option<string>)
    ensures part == (if KeepOne(rules, tag, a).None? then None else Some(RenderOne(KeepOne(rules, tag, a).value)))
  {
    if a.name in rules.tables.flags {
      return Some(a.name);
    }
    var value := DecodeHtmlEntities(a.value);
    if a.name == "style" {
      var styled := rules.style(value);
      if styled.None? {
        return None;
      }
      value := styled.value;
    }
    if a.name in rules.tables.urls {
      var linked := SanitizeUrl(value, tag, a.name, rules.policy);
      if linked.None? {
        return None;
      }
      value := linked.value;
    }
    if tag == "input" && a.name == "type" && Lower(value) == "image" {
      return None;
    }
    return Some(a.name + "=\"" + EscapeAttribute(if a.hasValue then value else "") + "\"");
  }

  /** One attribute: refused, seen before, or written out. */
  method TakeAttribute(rules: Rules, tag: string, a: Attribute, seen: set<string>, ghost rest: seq<Attribute>)
    returns (parts: seq<string>, now: set<string>, ghost kept: seq<Kept>)
    ensures Keep(rules, tag, [a] + rest, seen) == kept + Keep(rules, tag, rest, now) && parts == Rendered(kept)
  {
    parts, now, kept := [], seen, [];
    assert ([a] + rest)[1..] == rest;
    if a.name in seen || Active(a.name) || !AllowedAttribute(rules.tables, tag, a.name) {
      return;
    }
    now := seen + {a.name};
    var part := WriteAttribute(rules, tag, a);
    if part.Some? {
      parts, kept := [part.value], [KeepOne(rules, tag, a).value];
      assert kept[1..] == [];
    }
  }

  /** What the attributes that are kept are written as, in order. */
  method WriteAttributes(rules: Rules, tag: string, source: string) returns (output: seq<string>)
    ensures output == Rendered(Sanitized(rules, tag, source))
  {
    output := [];
    var seen: set<string> := {};
    var attributes := ParseAttributes(source);
    ghost var kept: seq<Kept> := [];
    for k := 0 to |attributes|
      invariant output == Rendered(kept)
      invariant kept + Keep(rules, tag, attributes[k..], seen) == Sanitized(rules, tag, source)
    {
      ghost var rest := attributes[k + 1..];
      assert attributes[k..] == [attributes[k]] + rest;
      var parts, now, more := TakeAttribute(rules, tag, attributes[k], seen, rest);
      Regrouped(kept, more, Keep(rules, tag, rest, now));
      RenderedGrows(kept, more);
      output, seen, kept := output + parts, now, kept + more;
    }
    assert kept == Sanitized(rules, tag, source);
  }

  method SanitizeAttributes(rules: Rules, tag: string, source: string) returns (written: string)
    ensures written == RenderAll(Sanitized(rules, tag, source))
  {
    var output := WriteAttributes(rules, tag, source);
    JoinIsRendered(Sanitized(rules, tag, source));
    written := if |output| > 0 then " " + Join(output) else "";
  }

  method SkipBlockedElement(html: string, tag: string, tagEnd: nat) returns (index: nat)
    requires tagEnd < |html|
    ensures index == SkipBlocked(html, tag, tagEnd)
  {
    LowerNotShorter(html);
    var closing := Find(Lower(html)[tagEnd + 1..], "</" + tag);
    if closing.None? {
      return |html|;
    }
    var start := tagEnd + 1 + closing.value;
    if start >= |html| {
      return |html|;
    }
    var end := FindTagEnd(html, start);
    return if end.None? then |html| else end.value + 1;
  }

  function ClosingText(rules: Rules, tag: string): string {
    if tag in rules.tables.allowed && tag !in rules.tables.empty then "</" + tag + ">" else ""
  }

  function OpeningText(rules: Rules, tag: string, source: string): string {
    Render(Open(tag, Sanitized(rules, tag, source)))
  }

  /** What goes out for an opening tag, and where the scan goes on. */
  function OpeningOut(rules: Rules, html: string, start: nat, token: string, n: nat): (string, nat)
    requires 1 + n < |token| && start + |token| <= |html|
  {
    var tag := Lower(token[1..1 + n]);
    if tag in rules.tables.dropped then ("", SkipBlocked(html, tag, start + |token| - 1))
    else if tag !in rules.tables.allowed then ("", start + |token|)
    else (OpeningText(rules, tag, AttributeSource(token, n)), start + |token|)
  }

  function TokenOut(rules: Rules, html: string, start: nat, token: string): (string, nat)
    requires |token| > 1 && start + |token| <= |html|
  {
    var closing, opening := ClosingName(token), OpeningSize(token);
    if closing.Some? then (ClosingText(rules, closing.value), start + |token|)
    else if opening.None? then ("&lt;", start + 1)
    else OpeningOut(rules, html, start, token, opening.value)
  }

  /** The same at an opening bracket. */
  function TagOut(rules: Rules, html: string, start: nat): (string, nat)
    requires start < |html|
  {
    var s := html[start..];
    if StartsWith(s, "<!--") then ("", CommentEnd(html, start))
    else
      var end := TagEnd(s[1..], None);
      if end.None? then ("&lt;", start + 1) else TokenOut(rules, html, start, s[..end.value + 2])
  }

  lemma OpeningDropped(rules: Rules, html: string, start: nat, token: string, n: nat)
    requires 1 + n < |token| && start + |token| <= |html|
    requires Lower(token[1..1 + n]) in rules.tables.dropped || Lower(token[1..1 + n]) !in rules.tables.allowed
    ensures var out := OpeningOut(rules, html, start, token, n);
      && start < out.1 <= |html| && out.0 == ""
      && ScanOpening(rules, html, start, token, n) == Scan(rules, html, out.1)
  {
  }

  lemma OpeningKept(rules: Rules, html: string, start: nat, token: string, n: nat)
    requires 1 + n < |token| && start + |token| <= |html|
    requires Lower(token[1..1 + n]) !in rules.tables.dropped && Lower(token[1..1 + n]) in rules.tables.allowed
    ensures var out, tag := OpeningOut(rules, html, start, token, n), Lower(token[1..1 + n]);
      var p := Open(tag, Sanitized(rules, tag, AttributeSource(token, n)));
      && out == (Render(p), start + |token|)
      && ScanOpening(rules, html, start, token, n) == [p] + Scan(rules, html, out.1)
  {
  }

  lemma OpeningGoesOut(rules: Rules, html: string, start: nat, token: string, n: nat)
    requires 1 + n < |token| && start + |token| <= |html|
    ensures var out := OpeningOut(rules, html, start, token, n);
      && start < out.1 <= |html|
      && RenderPieces(ScanOpening(rules, html, start, token, n)) == out.0 + RenderPieces(Scan(rules, html, out.1))
  {
    var tag := Lower(token[1..1 + n]);
    if tag in rules.tables.dropped || tag !in rules.tables.allowed {
      OpeningDropped(rules, html, start, token, n);
    } else {
      OpeningKept(rules, html, start, token, n);
      PiecesTag(Open(tag, Sanitized(rules, tag, AttributeSource(token, n))), Scan(rules, html, start + |token|));
    }
  }

  lemma ClosingGoesOut(rules: Rules, tag: string, rest: seq<Piece>)
    ensures RenderPieces(ClosingPieces(rules, tag) + rest) == ClosingText(rules, tag) + RenderPieces(rest)
  {
    if ClosingText(rules, tag) != "" {
      PiecesTag(Close(tag), rest);
    } else {
      assert ClosingPieces(rules, tag) + rest == rest;
    }
  }

  lemma TokenCloses(rules: Rules, html: string, start: nat, token: string)
    requires |token| > 1 && start + |token| <= |html| && ClosingName(token).Some?
    ensures var tag := ClosingName(token).value;
      && TokenOut(rules, html, start, token) == (ClosingText(rules, tag), start + |token|)
      && ScanToken(rules, html, start, token) == ClosingPieces(rules, tag) + Scan(rules, html, start + |token|)
  {
  }

  lemma TokenStrays(rules: Rules, html: string, start: nat, token: string)
    requires |token| > 1 && start + |token| <= |html| && ClosingName(token).None? && OpeningSize(token).None?
    ensures TokenOut(rules, html, start, token) == ("&lt;", start + 1)
    ensures ScanToken(rules, html, start, token) == [Plain("&lt;")] + Scan(rules, html, start + 1)
  {
  }

  lemma TokenOpens(rules: Rules, html: string, start: nat, token: string)
    requires |token| > 1 && start + |token| <= |html| && ClosingName(token).None? && OpeningSize(token).Some?
    ensures var n := OpeningSize(token).value;
      && TokenOut(rules, html, start, token) == OpeningOut(rules, html, start, token, n)
      && ScanToken(rules, html, start, token) == ScanOpening(rules, html, start, token, n)
  {
  }

  lemma TokenGoesOut(rules: Rules, html: string, start: nat, token: string)
    requires |token| > 1 && start + |token| <= |html|
    ensures var out := TokenOut(rules, html, start, token);
      && start < out.1 <= |html|
      && RenderPieces(ScanToken(rules, html, start, token)) == out.0 + RenderPieces(Scan(rules, html, out.1))
  {
    if ClosingName(token).Some? {
      TokenCloses(rules, html, start, token);
      ClosingGoesOut(rules, ClosingName(token).value, Scan(rules, html, start + |token|));
    } else if OpeningSize(token).None? {
      TokenStrays(rules, html, start, token);
      PiecesPlain("&lt;", Scan(rules, html, start + 1));
    } else {
      TokenOpens(rules, html, start, token);
      OpeningGoesOut(rules, html, start, token, OpeningSize(token).value);
    }
  }

  lemma TagGoesOut(rules: Rules, html: string, start: nat)
    requires start < |html|
    ensures var out := TagOut(rules, html, start);
      && start < out.1 <= |html|
      && RenderPieces(ScanTag(rules, html, start)) == out.0 + RenderPieces(Scan(rules, html, out.1))
  {
    var s := html[start..];
    if !StartsWith(s, "<!--") {
      var end := TagEnd(s[1..], None);
      if end.None? {
        PiecesPlain("&lt;", Scan(rules, html, start + 1));
      } else {
        TokenGoesOut(rules, html, start, s[..end.value + 2]);
      }
    }
  }

  method TakeOpening(rules: Rules, html: string, start: nat, token: string, n: nat) returns (piece: string, next: nat)
    requires 1 + n < |token| && start + |token| <= |html|
    ensures (piece, next) == OpeningOut(rules, html, start, token, n)
  {
    var tag := Lower(token[1..1 + n]);
    piece, next := "", start + |token|;
    if tag in rules.tables.dropped {
      next := SkipBlockedElement(html, tag, start + |token| - 1);
    } else if tag in rules.tables.allowed {
      var attributes := SanitizeAttributes(rules, tag, AttributeSource(token, n));
      piece := "<" + tag + attributes + ">";
    }
  }

  /** A token with its brackets: what goes out for it, and where the scan goes on. */
  method TakeToken(rules: Rules, html: string, start: nat, token: string) returns (piece: string, next: nat)
    requires |token| > 1 && start + |token| <= |html|
    ensures (piece, next) == TokenOut(rules, html, start, token)
  {
    var closing := ClosingName(token);
    if closing.Some? {
      piece := "";
      if closing.value in rules.tables.allowed && closing.value !in rules.tables.empty {
        piece := "</" + closing.value + ">";
      }
      return piece, start + |token|;
    }
    var opening := OpeningSize(token);
    if opening.None? {
      return "&lt;", start + 1;
    }
    piece, next := TakeOpening(rules, html, start, token, opening.value);
  }

  /** At an opening bracket: a comment, a stray bracket, or a token. */
  method TakeTag(rules: Rules, html: string, start: nat) returns (piece: string, next: nat)
    requires start < |html|
    ensures (piece, next) == TagOut(rules, html, start)
  {
    Tail(html, start, 1);
    if StartsWith(html[start..], "<!--") {
      Tail(html, start, 4);
      var at := Find(html[start + 4..], "-->");
      return "", if at.None? then |html| else start + 4 + at.value + 3;
    }
    var end := FindTagEnd(html, start);
    if end.None? {
      return "&lt;", start + 1;
    }
    Tail(html, start, end.value + 1 - start);
    piece, next := TakeToken(rules, html, start, html[start..end.value + 1]);
  }

  method SanitizeVariationHtml(rules: Rules, html: string) returns (output: string)
    ensures output == Sanitize(rules, html)
  {
    output := "";
    var index := 0;
    while index < |html|
      invariant 0 <= index <= |html|
      invariant output + RenderPieces(Scan(rules, html, index)) == Sanitize(rules, html)
      decreases |html| - index
    {
      var text := html[index..][..TextRun(html[index..])];
      var start := index + |text|;
      RunScanned(rules, html, index, text, start);
      Regrouped(output, text, RenderPieces(Behind(rules, html, start)));
      output := output + text;
      if start == |html| {
        return;
      }
      TagGoesOut(rules, html, start);
      var piece, next := TakeTag(rules, html, start);
      Regrouped(output, piece, RenderPieces(Scan(rules, html, next)));
      output := output + piece;
      index := next;
    }
  }
}
