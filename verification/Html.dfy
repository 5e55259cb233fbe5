/**
 * The HTML sanitizer of pkg/common/src/proto-format.ts: what it makes of a text,
 * piece by piece, and what a second run makes of its output.
 */
module Html {
  import opened Options
  import opened Text
  import opened Entities
  import opened Attributes

  datatype Piece = Plain(text: string) | Open(tag: string, kept: seq<Kept>) | Close(tag: string)

  /** Up to the end of a tag: the first closing bracket outside quotes. */
  function TagEnd(s: string, quote: Option<char>): (end: Option<nat>)
    ensures end.Some? ==> end.value < |s| && s[end.value] == '>'
  {
    if s == "" then None
    else if quote.None? && s[0] == '>' then Some(0)
    else
      var next := if quote.Some? then if s[0] == quote.value then None else quote
                  else if IsQuote(s[0]) then Some(s[0]) else None;
      var rest := TagEnd(s[1..], next);
      if rest.None? then None else Some(1 + rest.value)
  }

  function TextRun(s: string): (n: nat)
    ensures n <= |s| && (n < |s| ==> s[n] == '<')
  {
    if s == "" || s[0] == '<' then 0 else 1 + TextRun(s[1..])
  }

  lemma {:induction false} RunIsPlain(s: string)
    ensures '<' !in s[..TextRun(s)]
  {
    if s != "" && s[0] != '<' {
      RunIsPlain(s[1..]);
      assert s[..TextRun(s)] == [s[0]] + s[1..][..TextRun(s[1..])];
    }
  }

  predicate StartsWith(s: string, word: string) {
    |s| >= |word| && s[..|word|] == word
  }

  function Find(s: string, word: string): (at: Option<nat>)
    ensures at.Some? ==> at.value + |word| <= |s|
  {
    if StartsWith(s, word) then Some(0)
    else if s == "" then None
    else
      var rest := Find(s[1..], word);
      if rest.None? then None else Some(1 + rest.value)
  }

  predicate TagChar(c: char) {
    IsLetter(c) || IsDigit(c) || c == ':' || c == '-'
  }

  function TagRun(s: string): (n: nat)
    ensures n <= |s|
  {
    if s == "" || !TagChar(s[0]) then 0 else 1 + TagRun(s[1..])
  }

  /** The name of a closing tag, if the token is one. */
  function ClosingName(token: string): Option<string> {
    if |token| > 3 && token[..2] == "</" && IsLetter(token[2]) then
      var n := TagRun(token[2..]);
      if 2 + n + SpaceRun(token[2 + n..]) == |token| - 1 && token[|token| - 1] == '>' then Some(Lower(token[2..2 + n]))
      else None
    else None
  }

  /** The length of the name of an opening tag, if the token is one. */
  function OpeningSize(token: string): (n: Option<nat>)
    ensures n.Some? ==> 1 + n.value < |token|
  {
    if |token| > 2 && IsLetter(token[1]) then
      var n := TagRun(token[1..]);
      if 1 + n < |token| && (IsSpace(token[1 + n]) || token[1 + n] == '/' || token[1 + n] == '>') then Some(n) else None
    else None
  }

  predicate SelfClosing(token: string)
    requires token != ""
  {
    var inner := TrimEnd(token[..|token| - 1]);
    inner != "" && inner[|inner| - 1] == '/'
  }

  /** The source of the attributes: behind the name, before the end, the last sign of a self-closing tag left off. */
  function AttributeSource(token: string, n: nat): string
    requires 1 + n < |token|
  {
    var end := |token| - (if SelfClosing(token) then 2 else 1);
    if end < 1 + n then "" else token[1 + n..end]
  }

  lemma {:induction false} LowerNotShorter(s: string)
    ensures |Lower(s)| >= |s|
  {
    if s != "" {
      LowerNotShorter(s[1..]);
    }
  }

  /**
   * Behind a dropped element. The closing tag is looked for in the lower-case
   * text, and its position there is used in the text itself.
   */
  function SkipBlocked(html: string, tag: string, tagEnd: nat): (index: nat)
    requires tagEnd < |html|
    ensures tagEnd < index <= |html|
  {
    LowerNotShorter(html);
    var at := Find(Lower(html)[tagEnd + 1..], "</" + tag);
    if at.None? then |html|
    else
      var start := tagEnd + 1 + at.value;
      if start >= |html| then |html|
      else
        var end := TagEnd(html[start + 1..], None);
        if end.None? then |html| else start + 1 + end.value + 1
  }

  /** Behind a comment, which goes on to the end if it is not closed. */
  function CommentEnd(html: string, start: nat): (index: nat)
    requires start < |html| && StartsWith(html[start..], "<!--")
    ensures start < index <= |html|
  {
    var at := Find(html[start + 4..], "-->");
    if at.None? then |html| else start + 4 + at.value + 3
  }

  function Scan(rules: Rules, html: string, index: nat): seq<Piece>
    requires index <= |html|
    decreases |html| - index, 2
  {
    if index == |html| then []
    else
      var n := TextRun(html[index..]);
      if index + n == |html| then [Plain(html[index..])]
      else [Plain(html[index..][..n])] + ScanTag(rules, html, index + n)
  }

  function ScanTag(rules: Rules, html: string, start: nat): seq<Piece>
    requires start < |html|
    decreases |html| - start, 1
  {
    var s := html[start..];
    if StartsWith(s, "<!--") then Scan(rules, html, CommentEnd(html, start))
    else
      var end := TagEnd(s[1..], None);
      if end.None? then [Plain("&lt;")] + Scan(rules, html, start + 1)
      else ScanToken(rules, html, start, s[..end.value + 2])
  }

  function ScanToken(rules: Rules, html: string, start: nat, token: string): seq<Piece>
    requires |token| > 1 && start + |token| <= |html|
    decreases |html| - start, 0, 1
  {
    var closing, opening := ClosingName(token), OpeningSize(token);
    if closing.Some? then ClosingPieces(rules, closing.value) + Scan(rules, html, start + |token|)
    else if opening.None? then [Plain("&lt;")] + Scan(rules, html, start + 1)
    else ScanOpening(rules, html, start, token, opening.value)
  }

  function ClosingPieces(rules: Rules, tag: string): seq<Piece> {
    if tag in rules.tables.allowed && tag !in rules.tables.empty then [Close(tag)] else []
  }

  function ScanOpening(rules: Rules, html: string, start: nat, token: string, n: nat): seq<Piece>
    requires 1 + n < |token| && start + |token| <= |html|
    decreases |html| - start, 0, 0
  {
    var next := start + |token|;
    var tag := Lower(token[1..1 + n]);
    if tag in rules.tables.dropped then Scan(rules, html, SkipBlocked(html, tag, next - 1))
    else if tag !in rules.tables.allowed then Scan(rules, html, next)
    else [Open(tag, Sanitized(rules, tag, AttributeSource(token, n)))] + Scan(rules, html, next)
  }

  function Render(p: Piece): string {
    match p
    case Plain(text) => text
    case Open(tag, kept) => "<" + tag + RenderAll(kept) + ">"
    case Close(tag) => "</" + tag + ">"
  }

  function RenderPieces(ps: seq<Piece>): string {
    if ps == [] then "" else Render(ps[0]) + RenderPieces(ps[1..])
  }

  function TagsOf(ps: seq<Piece>): seq<Piece> {
    if ps == [] then [] else (if ps[0].Plain? then [] else [ps[0]]) + TagsOf(ps[1..])
  }

  function Sanitize(rules: Rules, html: string): string {
    RenderPieces(Scan(rules, html, 0))
  }

  // What comes out.

  predicate TagWord(tag: string) {
    tag != "" && 'a' <= tag[0] <= 'z' && IsLowerAscii(tag) && forall i :: 0 <= i < |tag| ==> TagChar(tag[i])
  }

  ghost predicate GoodTables(t: Tables) {
    GoodAttributeTables(t) && (forall tag :: tag in t.allowed ==> TagWord(tag) && tag !in t.dropped)
  }

  /** A piece of the output: text without an opening bracket, or a whole allowed tag with attributes that cleaning gave. */
  ghost predicate GoodPiece(rules: Rules, p: Piece) {
    match p
    case Plain(text) => '<' !in text
    case Open(tag, kept) =>
      tag in rules.tables.allowed && tag !in rules.tables.dropped && exists source :: kept == Sanitized(rules, tag, source)
    case Close(tag) => tag in rules.tables.allowed && tag !in rules.tables.empty
  }

  /** Such attributes are allowed for the tag, never active, and each there once. */
  lemma GoodAttributes(rules: Rules, p: Piece)
    requires GoodPiece(rules, p) && p.Open?
    ensures DistinctNames(p.kept)
    ensures forall i :: 0 <= i < |p.kept| ==> !Active(p.kept[i].name) && AllowedAttribute(rules.tables, p.tag, p.kept[i].name)
  {
    var source :| p.kept == Sanitized(rules, p.tag, source);
    KeepShape(rules, p.tag, Parse(source), {});
  }

  ghost predicate GoodPieces(rules: Rules, ps: seq<Piece>) {
    forall i :: 0 <= i < |ps| ==> GoodPiece(rules, ps[i])
  }

  lemma PieceFirst(rules: Rules, p: Piece, rest: seq<Piece>)
    requires GoodPiece(rules, p) && GoodPieces(rules, rest)
    ensures GoodPieces(rules, [p] + rest)
  {
  }

  lemma {:induction false} ScanShape(rules: Rules, html: string, index: nat)
    requires index <= |html|
    ensures GoodPieces(rules, Scan(rules, html, index))
    decreases |html| - index, 2
  {
    if index < |html| {
      var n := TextRun(html[index..]);
      RunIsPlain(html[index..]);
      if index + n < |html| {
        TagShape(rules, html, index + n);
        PieceFirst(rules, Plain(html[index..][..n]), ScanTag(rules, html, index + n));
      } else {
        assert html[index..][..n] == html[index..];
      }
    }
  }

  lemma {:induction false} TagShape(rules: Rules, html: string, start: nat)
    requires start < |html|
    ensures GoodPieces(rules, ScanTag(rules, html, start))
    decreases |html| - start, 1
  {
    var s := html[start..];
    if StartsWith(s, "<!--") {
      ScanShape(rules, html, CommentEnd(html, start));
    } else {
      var end := TagEnd(s[1..], None);
      if end.None? {
        ScanShape(rules, html, start + 1);
        PieceFirst(rules, Plain("&lt;"), Scan(rules, html, start + 1));
      } else {
        TokenShape(rules, html, start, s[..end.value + 2]);
      }
    }
  }

  lemma {:induction false} TokenShape(rules: Rules, html: string, start: nat, token: string)
    requires |token| > 1 && start + |token| <= |html|
    ensures GoodPieces(rules, ScanToken(rules, html, start, token))
    decreases |html| - start, 0, 1
  {
    var closing, opening := ClosingName(token), OpeningSize(token);
    if closing.Some? {
      ScanShape(rules, html, start + |token|);
    } else if opening.None? {
      ScanShape(rules, html, start + 1);
      PieceFirst(rules, Plain("&lt;"), Scan(rules, html, start + 1));
    } else {
      OpeningShape(rules, html, start, token, opening.value);
    }
  }

  lemma {:induction false} OpeningShape(rules: Rules, html: string, start: nat, token: string, n: nat)
    requires 1 + n < |token| && start + |token| <= |html|
    ensures GoodPieces(rules, ScanOpening(rules, html, start, token, n))
    decreases |html| - start, 0, 0
  {
    var next := start + |token|;
    var tag := Lower(token[1..1 + n]);
    if tag in rules.tables.dropped {
      ScanShape(rules, html, SkipBlocked(html, tag, next - 1));
    } else {
      ScanShape(rules, html, next);
      if tag in rules.tables.allowed {
        OpenShape(rules, tag, AttributeSource(token, n), Scan(rules, html, next));
      }
    }
  }

  lemma OpenShape(rules: Rules, tag: string, source: string, rest: seq<Piece>)
    requires tag in rules.tables.allowed && tag !in rules.tables.dropped && GoodPieces(rules, rest)
    ensures GoodPieces(rules, [Open(tag, Sanitized(rules, tag, source))] + rest)
  {
    assert GoodPiece(rules, Open(tag, Sanitized(rules, tag, source)));
    PieceFirst(rules, Open(tag, Sanitized(rules, tag, source)), rest);
  }

  /** Cleaning the written attributes of each tag again would give them again. */
  ghost predicate Resting(rules: Rules, p: Piece) {
    p.Open? ==> Sanitized(rules, p.tag, RenderAll(p.kept)) == p.kept
  }

  ghost predicate StylesRest(rules: Rules, p: Piece) {
    p.Open? ==> forall k :: k in p.kept ==> StyleRests(rules, k)
  }

  lemma CleanedRests(rules: Rules, p: Piece)
    requires GoodTables(rules.tables) && GoodPiece(rules, p) && StylesRest(rules, p)
    ensures Resting(rules, p)
  {
    if p.Open? {
      var source :| p.kept == Sanitized(rules, p.tag, source);
      SanitizedAgain(rules, p.tag, source);
    }
  }

  // Where the brackets are.

  lemma OneIsPlain(k: Kept)
    requires SafeName(k.name)
    ensures '<' !in RenderOne(k)
    ensures |RenderOne(k)| > 0 && !IsSpace(RenderOne(k)[|RenderOne(k)| - 1]) && RenderOne(k)[|RenderOne(k)| - 1] != '/'
  {
    if k.Pair? {
      EscapeIsEach(k.value);
      EscapedIsPlain(k.value);
    }
  }

  ghost predicate SafeKept(kept: seq<Kept>) {
    forall i :: 0 <= i < |kept| ==> SafeName(kept[i].name)
  }

  lemma GoodIsSafe(rules: Rules, p: Piece)
    requires GoodTables(rules.tables) && GoodPiece(rules, p) && p.Open?
    ensures SafeKept(p.kept) && TagWord(p.tag)
  {
    GoodAttributes(rules, p);
    forall i | 0 <= i < |p.kept| ensures SafeName(p.kept[i].name) {
      AllowedIsSafe(rules.tables, p.tag, p.kept[i].name);
    }
  }

  lemma {:induction false} AttributesArePlain(kept: seq<Kept>)
    requires SafeKept(kept)
    ensures '<' !in RenderAll(kept)
    ensures kept != [] ==>
      |RenderAll(kept)| > 0 && !IsSpace(RenderAll(kept)[|RenderAll(kept)| - 1]) && RenderAll(kept)[|RenderAll(kept)| - 1] != '/'
  {
    if kept != [] {
      OneIsPlain(kept[0]);
      AttributesArePlain(kept[1..]);
    }
  }

  lemma TagBracket(rules: Rules, p: Piece, i: nat)
    requires GoodTables(rules.tables) && GoodPiece(rules, p) && i < |Render(p)| && Render(p)[i] == '<'
    ensures !p.Plain? && i == 0
  {
    match p {
      case Plain(text) =>
      case Open(tag, kept) =>
        GoodIsSafe(rules, p);
        AttributesArePlain(kept);
        if i > 0 {
          BracketInside(tag, RenderAll(kept), i);
        }
      case Close(tag) =>
        assert TagWord(tag);
    }
  }

  lemma BracketInside(tag: string, attributes: string, i: nat)
    requires TagWord(tag) && '<' !in attributes && 0 < i < |"<" + tag + attributes + ">"|
    ensures ("<" + tag + attributes + ">")[i] != '<'
  {
    var s := "<" + tag + attributes + ">";
    if i <= |tag| {
      assert s[i] == tag[i - 1];
    } else if i <= |tag| + |attributes| {
      assert s[i] == attributes[i - 1 - |tag|];
    }
  }

  /** The whole of a tag stands at a place of the text. */
  predicate TagAt(html: string, i: nat, p: Piece) {
    !p.Plain? && i + |Render(p)| <= |html| && html[i..i + |Render(p)|] == Render(p)
  }

  function Texts(ps: seq<Piece>): (texts: seq<string>)
    ensures |texts| == |ps| && forall k :: 0 <= k < |ps| ==> texts[k] == Render(ps[k])
  {
    seq(|ps|, k requires 0 <= k < |ps| => Render(ps[k]))
  }

  function Flat(texts: seq<string>): string {
    if texts == [] then "" else texts[0] + Flat(texts[1..])
  }

  lemma {:induction false} RenderIsFlat(ps: seq<Piece>)
    ensures RenderPieces(ps) == Flat(Texts(ps))
  {
    if ps != [] {
      RenderIsFlat(ps[1..]);
      assert Texts(ps)[1..] == Texts(ps[1..]);
    }
  }

  /** Where a character of several texts in a row comes from: the text, and the place in it. */
  lemma {:induction false} PartAt(texts: seq<string>, i: nat) returns (k: nat, at: nat)
    requires i < |Flat(texts)|
    ensures k < |texts| && at < |texts[k]| && at <= i && i - at + |texts[k]| <= |Flat(texts)|
    ensures Flat(texts)[i - at..i - at + |texts[k]|] == texts[k]
    decreases |texts|
  {
    var n, rest := |texts[0]|, Flat(texts[1..]);
    if i < n {
      k, at := 0, i;
      assert (texts[0] + rest)[0..n] == texts[0];
    } else {
      k, at := PartAt(texts[1..], i - n);
      var from := i - n - at;
      BehindFirst(texts[0], rest, from, from + |texts[1..][k]|);
      k := k + 1;
    }
  }

  lemma BehindFirst(a: string, b: string, from: nat, to: nat)
    requires from <= to <= |b|
    ensures (a + b)[|a| + from..|a| + to] == b[from..to]
  {
  }

  /** Every opening bracket of the output begins one whole tag of the scan, allowed, with allowed attributes only. */
  lemma OutputShape(rules: Rules, html: string, i: nat) returns (p: Piece)
    requires GoodTables(rules.tables) && i < |Sanitize(rules, html)| && Sanitize(rules, html)[i] == '<'
    ensures p in Scan(rules, html, 0) && GoodPiece(rules, p) && TagAt(Sanitize(rules, html), i, p)
  {
    var ps := Scan(rules, html, 0);
    ScanShape(rules, html, 0);
    RenderIsFlat(ps);
    var k, at := PartAt(Texts(ps), i);
    p := ps[k];
    BracketLeads(rules, p, Flat(Texts(ps)), i, at);
  }

  lemma BracketLeads(rules: Rules, p: Piece, html: string, i: nat, at: nat)
    requires GoodTables(rules.tables) && GoodPiece(rules, p) && i < |html| && html[i] == '<'
    requires at <= i && at < |Render(p)| && i - at + |Render(p)| <= |html| && html[i - at..i - at + |Render(p)|] == Render(p)
    ensures TagAt(html, i, p)
  {
    assert Render(p)[at] == html[i - at..i - at + |Render(p)|][at] == html[i];
    TagBracket(rules, p, at);
  }

  // Scanned again.

  predicate NoTagEnd(s: string) {
    forall i :: 0 <= i < |s| ==> s[i] != '>' && !IsQuote(s[i])
  }

  function Shifted(end: Option<nat>, n: nat): Option<nat> {
    if end.None? then None else Some(n + end.value)
  }

  lemma {:induction false} TagEndOver(word: string, rest: string)
    requires NoTagEnd(word)
    ensures TagEnd(word + rest, None) == Shifted(TagEnd(rest, None), |word|)
  {
    if word == "" {
      assert word + rest == rest;
    } else {
      TagEndOver(word[1..], rest);
      assert (word + rest)[0] == word[0] && (word + rest)[1..] == word[1..] + rest;
    }
  }

  lemma InStringStep(s: string, t: string)
    requires s != "" && s[0] != '"' && s[1..] == t
    ensures TagEnd(s, Some('"')) == Shifted(TagEnd(t, Some('"')), 1)
  {
  }

  lemma {:induction false} TagEndInString(value: string, rest: string)
    requires forall i :: 0 <= i < |value| ==> value[i] != '"'
    ensures TagEnd(value + ("\"" + rest), Some('"')) == Shifted(TagEnd(rest, None), |value| + 1)
  {
    var tail := "\"" + rest;
    if value == "" {
      assert value + tail == tail && tail[1..] == rest;
    } else {
      TagEndInString(value[1..], rest);
      assert (value + tail)[1..] == value[1..] + tail;
      InStringStep(value + tail, value[1..] + tail);
    }
  }

  /** The search for the end of a tag goes over the whole word. */
  ghost predicate Skips(word: string, rest: string) {
    TagEnd(word + rest, None) == Shifted(TagEnd(rest, None), |word|)
  }

  lemma SkipsBoth(a: string, b: string, rest: string)
    requires Skips(a, b + rest) && Skips(b, rest)
    ensures Skips(a + b, rest)
  {
    assert a + (b + rest) == a + b + rest;
  }

  lemma SkipsQuoted(value: string, rest: string)
    requires forall i :: 0 <= i < |value| ==> value[i] != '"'
    ensures Skips("\"" + value + "\"", rest)
  {
    var body := value + ("\"" + rest);
    var s := "\"" + value + "\"" + rest;
    TagEndInString(value, rest);
    assert s[0] == '"' && s[1..] == body;
  }

  lemma SkipsOne(k: Kept, rest: string)
    requires SafeName(k.name)
    ensures Skips(RenderOne(k), rest)
  {
    match k {
      case Flag(name) => TagEndOver(name, rest);
      case Pair(name, value) =>
        var esc := EscapeAttribute(value);
        EscapeIsEach(value);
        EscapedIsPlain(value);
        SkipsPair(name, esc, rest);
    }
  }

  lemma SkipsPair(name: string, esc: string, rest: string)
    requires SafeName(name) && forall i :: 0 <= i < |esc| ==> esc[i] != '"'
    ensures Skips(name + "=\"" + esc + "\"", rest)
  {
    var quoted := "\"" + esc + "\"";
    SkipsQuoted(esc, rest);
    TagEndOver("=", quoted + rest);
    SkipsBoth("=", quoted, rest);
    TagEndOver(name, ("=" + quoted) + rest);
    SkipsBoth(name, "=" + quoted, rest);
    assert name + ("=" + quoted) == name + "=\"" + esc + "\"";
  }

  lemma {:induction false} SkipsAll(kept: seq<Kept>, rest: string)
    requires SafeKept(kept)
    ensures Skips(RenderAll(kept), rest)
  {
    if kept == [] {
      assert RenderAll(kept) + rest == rest;
    } else {
      var one, more := RenderOne(kept[0]), RenderAll(kept[1..]);
      SkipsAll(kept[1..], rest);
      SkipsOne(kept[0], more + rest);
      SkipsBoth(one, more, rest);
      TagEndOver(" ", (one + more) + rest);
      SkipsBoth(" ", one + more, rest);
      assert " " + (one + more) == RenderAll(kept);
    }
  }

  lemma {:induction false} TagRunOf(tag: string, rest: string)
    requires (forall i :: 0 <= i < |tag| ==> TagChar(tag[i])) && (rest == "" || !TagChar(rest[0]))
    ensures TagRun(tag + rest) == |tag|
  {
    if tag == "" {
      assert tag + rest == rest;
    } else {
      TagRunOf(tag[1..], rest);
      assert (tag + rest)[0] == tag[0] && (tag + rest)[1..] == tag[1..] + rest;
    }
  }

  lemma EndHere(rest: string)
    ensures TagEnd(">" + rest, None) == Some(0)
  {
  }

  lemma SkipsToEnd(word: string, rest: string)
    requires Skips(word, ">" + rest)
    ensures TagEnd(word + (">" + rest), None) == Some(|word|)
  {
    EndHere(rest);
  }

  lemma SkipsTag(tag: string, kept: seq<Kept>, rest: string)
    requires TagWord(tag) && SafeKept(kept)
    ensures Skips(tag + RenderAll(kept), rest)
  {
    SkipsAll(kept, rest);
    TagEndOver(tag, RenderAll(kept) + rest);
    SkipsBoth(tag, RenderAll(kept), rest);
  }

  lemma NotSelfClosing(tag: string, attributes: string)
    requires TagWord(tag)
    requires attributes != "" ==> !IsSpace(attributes[|attributes| - 1]) && attributes[|attributes| - 1] != '/'
    ensures !SelfClosing("<" + tag + attributes + ">")
  {
    var token := "<" + tag + attributes + ">";
    var inner := token[..|token| - 1];
    assert inner == "<" + tag + attributes;
    var last := inner[|inner| - 1];
    assert last == if attributes == "" then tag[|tag| - 1] else attributes[|attributes| - 1];
    assert !IsSpace(last) && last != '/';
    assert TrimEnd(inner) == inner;
  }

  lemma OpenName(tag: string, attributes: string)
    requires TagWord(tag) && (attributes == "" || attributes[0] == ' ')
    ensures var token := "<" + tag + attributes + ">";
      && ClosingName(token) == None && OpeningSize(token) == Some(|tag|) && token[1..1 + |tag|] == tag
  {
    var token, tail := "<" + tag + attributes + ">", attributes + ">";
    assert token[1..] == tag + tail && token[1] == tag[0] && token[1 + |tag|] == tail[0];
    assert token[..2][1] == tag[0];
    TagRunOf(tag, tail);
  }

  lemma OpenSource(tag: string, attributes: string)
    requires TagWord(tag)
    requires attributes != "" ==> !IsSpace(attributes[|attributes| - 1]) && attributes[|attributes| - 1] != '/'
    ensures AttributeSource("<" + tag + attributes + ">", |tag|) == attributes
  {
    var token := "<" + tag + attributes + ">";
    NotSelfClosing(tag, attributes);
    assert token[1 + |tag|..|token| - 1] == attributes;
  }

  /** The token of a written tag is taken apart into its name and its attributes. */
  lemma OpenToken(tag: string, kept: seq<Kept>)
    requires TagWord(tag) && SafeKept(kept)
    ensures var token := "<" + tag + RenderAll(kept) + ">";
      && ClosingName(token) == None && OpeningSize(token) == Some(|tag|)
      && Lower(token[1..1 + |tag|]) == tag && AttributeSource(token, |tag|) == RenderAll(kept)
  {
    AttributesArePlain(kept);
    RenderStart(kept);
    LowerKeeps(tag);
    OpenName(tag, RenderAll(kept));
    OpenSource(tag, RenderAll(kept));
  }

  lemma CloseToken(tag: string)
    requires TagWord(tag)
    ensures ClosingName("</" + tag + ">") == Some(tag)
  {
    var token := "</" + tag + ">";
    LowerKeeps(tag);
    assert token[..2] == "</" && token[2] == tag[0] && token[2..] == tag + ">" && token[2..2 + |tag|] == tag;
    TagRunOf(tag, ">");
    assert token[2 + |tag|..] == ">";
  }

  /** A whole tag at the index is the token that is looked at. */
  lemma TokenFound(rules: Rules, html: string, index: nat, token: string, rest: string)
    requires index < |html| && html[index..] == token + rest && |token| > 2 && token[0] == '<' && token[1] != '!'
    requires TagEnd((token + rest)[1..], None) == Some(|token| - 2)
    ensures index + |token| <= |html| && ScanTag(rules, html, index) == ScanToken(rules, html, index, token)
  {
    var s := html[index..];
    assert s[1] == token[1];
    assert |s| >= 4 ==> s[..4][1] == s[1];
    assert s[..|token|] == token;
  }

  lemma OpenFound(rules: Rules, html: string, index: nat, tag: string, attributes: string, rest: string)
    requires TagWord(tag) && Skips(tag + attributes, ">" + rest)
    requires index < |html| && html[index..] == "<" + tag + attributes + ">" + rest
    ensures var token := "<" + tag + attributes + ">";
      index + |token| <= |html| && ScanTag(rules, html, index) == ScanToken(rules, html, index, token)
  {
    var token, inner := "<" + tag + attributes + ">", tag + attributes;
    SkipsToEnd(inner, rest);
    assert (token + rest)[1..] == inner + (">" + rest) && token[1] == tag[0];
    TokenFound(rules, html, index, token, rest);
  }

  lemma OpenScanned(rules: Rules, html: string, index: nat, p: Piece, rest: string)
    requires GoodTables(rules.tables) && GoodPiece(rules, p) && p.Open? && Resting(rules, p)
    requires index < |html| && html[index..] == Render(p) + rest
    ensures index + |Render(p)| <= |html|
    ensures ScanTag(rules, html, index) == [p] + Scan(rules, html, index + |Render(p)|)
  {
    GoodIsSafe(rules, p);
    SkipsTag(p.tag, p.kept, ">" + rest);
    OpenFound(rules, html, index, p.tag, RenderAll(p.kept), rest);
    OpenToken(p.tag, p.kept);
    OpenTokenScanned(rules, html, index, p);
  }

  lemma OpenTokenScanned(rules: Rules, html: string, index: nat, p: Piece)
    requires p.Open? && Resting(rules, p) && p.tag in rules.tables.allowed && p.tag !in rules.tables.dropped
    requires index + |Render(p)| <= |html|
    requires var token := Render(p);
      && ClosingName(token) == None && OpeningSize(token) == Some(|p.tag|)
      && Lower(token[1..1 + |p.tag|]) == p.tag && AttributeSource(token, |p.tag|) == RenderAll(p.kept)
    ensures ScanToken(rules, html, index, Render(p)) == [p] + Scan(rules, html, index + |Render(p)|)
  {
    var token := Render(p);
    assert ScanToken(rules, html, index, token) == ScanOpening(rules, html, index, token, |p.tag|);
  }

  lemma CloseFound(rules: Rules, html: string, index: nat, tag: string, rest: string)
    requires TagWord(tag) && index < |html| && html[index..] == "</" + tag + ">" + rest
    ensures var token := "</" + tag + ">";
      index + |token| <= |html| && ScanTag(rules, html, index) == ScanToken(rules, html, index, token)
  {
    var token, inner := "</" + tag + ">", "/" + tag;
    TagEndOver(inner, ">" + rest);
    SkipsToEnd(inner, rest);
    assert (token + rest)[1..] == inner + (">" + rest) && token[1] == '/';
    TokenFound(rules, html, index, token, rest);
  }

  lemma CloseScanned(rules: Rules, html: string, index: nat, p: Piece, rest: string)
    requires GoodTables(rules.tables) && GoodPiece(rules, p) && p.Close?
    requires index < |html| && html[index..] == Render(p) + rest
    ensures index + |Render(p)| <= |html|
    ensures ScanTag(rules, html, index) == [p] + Scan(rules, html, index + |Render(p)|)
  {
    assert TagWord(p.tag);
    CloseFound(rules, html, index, p.tag, rest);
    CloseToken(p.tag);
    CloseTokenScanned(rules, html, index, p);
  }

  lemma CloseTokenScanned(rules: Rules, html: string, index: nat, p: Piece)
    requires p.Close? && p.tag in rules.tables.allowed && p.tag !in rules.tables.empty
    requires index + |Render(p)| <= |html| && ClosingName(Render(p)) == Some(p.tag)
    ensures ScanToken(rules, html, index, Render(p)) == [p] + Scan(rules, html, index + |Render(p)|)
  {
  }

  lemma PiecesPlain(text: string, rest: seq<Piece>)
    ensures RenderPieces([Plain(text)] + rest) == text + RenderPieces(rest) && TagsOf([Plain(text)] + rest) == TagsOf(rest)
  {
    assert ([Plain(text)] + rest)[1..] == rest;
  }

  lemma PiecesTag(p: Piece, rest: seq<Piece>)
    requires !p.Plain?
    ensures RenderPieces([p] + rest) == Render(p) + RenderPieces(rest) && TagsOf([p] + rest) == [p] + TagsOf(rest)
  {
    assert ([p] + rest)[1..] == rest;
  }

  function Behind(rules: Rules, html: string, index: nat): seq<Piece>
    requires index <= |html|
  {
    if index == |html| then [] else ScanTag(rules, html, index)
  }

  lemma ScanIs(rules: Rules, html: string, index: nat, text: string, next: nat)
    requires index < |html| && text == html[index..][..TextRun(html[index..])] && next == index + |text|
    ensures Scan(rules, html, index) == [Plain(text)] + Behind(rules, html, next)
  {
    if next == |html| {
      assert text == html[index..];
    }
  }

  /** The text before the next bracket goes out as it is. */
  lemma RunScanned(rules: Rules, html: string, index: nat, text: string, next: nat)
    requires index <= |html| && text == html[index..][..TextRun(html[index..])] && next == index + |text|
    ensures RenderPieces(Scan(rules, html, index)) == text + RenderPieces(Behind(rules, html, next))
    ensures TagsOf(Scan(rules, html, index)) == TagsOf(Behind(rules, html, next))
  {
    if index < |html| {
      ScanIs(rules, html, index, text, next);
      PiecesPlain(text, Behind(rules, html, next));
    }
  }

  lemma CharRun(html: string, index: nat)
    requires index < |html| && html[index] != '<'
    ensures var n := TextRun(html[index + 1..]);
      TextRun(html[index..]) == 1 + n && html[index..][..1 + n] == [html[index]] + html[index + 1..][..n]
  {
    assert html[index..][0] == html[index] && html[index..][1..] == html[index + 1..];
  }

  /** One character of text is one character of output. */
  lemma CharScanned(rules: Rules, html: string, index: nat)
    requires index < |html| && html[index] != '<'
    ensures RenderPieces(Scan(rules, html, index)) == [html[index]] + RenderPieces(Scan(rules, html, index + 1))
    ensures TagsOf(Scan(rules, html, index)) == TagsOf(Scan(rules, html, index + 1))
  {
    CharRun(html, index);
    var text := html[index + 1..][..TextRun(html[index + 1..])];
    var next := index + 1 + |text|;
    RunScanned(rules, html, index, [html[index]] + text, next);
    RunScanned(rules, html, index + 1, text, next);
    Regroup(html[index], text, Behind(rules, html, next), Scan(rules, html, index), Scan(rules, html, index + 1));
  }

  lemma Regroup(c: char, text: string, behind: seq<Piece>, a: seq<Piece>, b: seq<Piece>)
    requires RenderPieces(a) == [c] + text + RenderPieces(behind) && RenderPieces(b) == text + RenderPieces(behind)
    ensures RenderPieces(a) == [c] + RenderPieces(b)
  {
  }

  function TextSize(ps: seq<Piece>): nat {
    if ps == [] then 0 else (if ps[0].Plain? then |ps[0].text| else 0) + TextSize(ps[1..])
  }

  ghost predicate Ready(rules: Rules, ps: seq<Piece>) {
    GoodTables(rules.tables) && GoodPieces(rules, ps) && forall i :: 0 <= i < |ps| ==> Resting(rules, ps[i])
  }

  ghost predicate ScansTo(rules: Rules, html: string, index: nat, ps: seq<Piece>)
    requires index <= |html|
  {
    RenderPieces(Scan(rules, html, index)) == RenderPieces(ps) && TagsOf(Scan(rules, html, index)) == TagsOf(ps)
  }

  lemma TagScanned(rules: Rules, html: string, index: nat, p: Piece, rest: string)
    requires GoodTables(rules.tables) && GoodPiece(rules, p) && !p.Plain? && Resting(rules, p)
    requires index <= |html| && html[index..] == Render(p) + rest
    ensures index < |html| && index + |Render(p)| <= |html| && html[index + |Render(p)|..] == rest
    ensures ScanTag(rules, html, index) == [p] + Scan(rules, html, index + |Render(p)|)
  {
    assert html[index..][0] == '<';
    if p.Open? {
      OpenScanned(rules, html, index, p, rest);
    } else {
      CloseScanned(rules, html, index, p, rest);
    }
    assert html[index + |Render(p)|..] == html[index..][|Render(p)|..];
  }

  lemma TagFirst(rules: Rules, html: string, index: nat, p: Piece, ps: seq<Piece>)
    requires GoodTables(rules.tables) && GoodPiece(rules, p) && !p.Plain? && Resting(rules, p)
    requires index <= |html| && html[index..] == Render(p) + RenderPieces(ps)
    ensures index + |Render(p)| <= |html| && html[index + |Render(p)|..] == RenderPieces(ps)
    ensures ScansTo(rules, html, index + |Render(p)|, ps) ==> ScansTo(rules, html, index, [p] + ps)
  {
    TagScanned(rules, html, index, p, RenderPieces(ps));
    assert html[index..][0] == '<';
    assert TextRun(html[index..]) == 0;
    RunScanned(rules, html, index, "", index);
    PiecesTag(p, Scan(rules, html, index + |Render(p)|));
    PiecesTag(p, ps);
  }

  lemma CharFirst(rules: Rules, html: string, index: nat, text: string, ps: seq<Piece>)
    requires text != "" && '<' !in text && index <= |html| && html[index..] == text + RenderPieces(ps)
    ensures index < |html| && html[index + 1..] == RenderPieces([Plain(text[1..])] + ps)
    ensures ScansTo(rules, html, index + 1, [Plain(text[1..])] + ps) ==> ScansTo(rules, html, index, [Plain(text)] + ps)
  {
    assert html[index..][0] == text[0] && text[0] in text;
    assert html[index + 1..] == html[index..][1..] == text[1..] + RenderPieces(ps);
    PiecesPlain(text[1..], ps);
    PiecesPlain(text, ps);
    CharScanned(rules, html, index);
    Cons(text, RenderPieces(ps));
  }

  lemma ReadyFewer(rules: Rules, text: string, ps: seq<Piece>)
    requires Ready(rules, [Plain(text)] + ps) && text != ""
    ensures Ready(rules, [Plain(text[1..])] + ps) && '<' !in text
  {
    var all, fewer := [Plain(text)] + ps, [Plain(text[1..])] + ps;
    assert GoodPiece(rules, all[0]);
    forall i | 0 <= i < |fewer| ensures GoodPiece(rules, fewer[i]) && Resting(rules, fewer[i]) {
      if i > 0 {
        assert fewer[i] == all[i];
      }
    }
  }

  /** A text written from good pieces that rest is scanned as the same text and the same tags. */
  lemma {:induction false} Rescan(rules: Rules, html: string, index: nat, ps: seq<Piece>)
    requires Ready(rules, ps) && index <= |html| && html[index..] == RenderPieces(ps)
    ensures ScansTo(rules, html, index, ps)
    decreases |ps|, TextSize(ps)
  {
    if ps == [] {
      assert index == |html|;
    } else {
      var p, more := ps[0], ps[1..];
      assert ps == [p] + more;
      if !p.Plain? {
        TagFirst(rules, html, index, p, more);
        Rescan(rules, html, index + |Render(p)|, more);
      } else {
        PiecesPlain(p.text, more);
        if p.text == "" {
          Rescan(rules, html, index, more);
          EmptyFirst(rules, html, index, more);
        } else {
          ReadyFewer(rules, p.text, more);
          CharFirst(rules, html, index, p.text, more);
          FewerSize(p.text, more);
          Rescan(rules, html, index + 1, [Plain(p.text[1..])] + more);
        }
      }
    }
  }

  lemma EmptyFirst(rules: Rules, html: string, index: nat, ps: seq<Piece>)
    requires index <= |html| && ScansTo(rules, html, index, ps)
    ensures ScansTo(rules, html, index, [Plain("")] + ps)
  {
    PiecesPlain("", ps);
  }

  lemma FewerSize(text: string, ps: seq<Piece>)
    requires text != ""
    ensures TextSize([Plain(text[1..])] + ps) < TextSize([Plain(text)] + ps)
  {
    assert ([Plain(text[1..])] + ps)[1..] == ps && ([Plain(text)] + ps)[1..] == ps;
  }

  /**
   * Cleaning twice is cleaning once, and a second scan meets exactly the tags
   * the first put out, whenever the style cleaner leaves the styles that
   * survived alone: in particular when none did.
   */
  lemma SanitizeAgain(rules: Rules, html: string)
    requires GoodTables(rules.tables)
    requires forall p :: p in Scan(rules, html, 0) ==> StylesRest(rules, p)
    ensures Sanitize(rules, Sanitize(rules, html)) == Sanitize(rules, html)
    ensures TagsOf(Scan(rules, Sanitize(rules, html), 0)) == TagsOf(Scan(rules, html, 0))
  {
    var ps := Scan(rules, html, 0);
    ScanShape(rules, html, 0);
    forall i | 0 <= i < |ps| ensures Resting(rules, ps[i]) {
      assert ps[i] in ps;
      CleanedRests(rules, ps[i]);
    }
    assert Sanitize(rules, html)[0..] == RenderPieces(ps);
    Rescan(rules, Sanitize(rules, html), 0, ps);
  }

  predicate HasNoStyle(p: Piece) {
    p.Open? ==> forall k :: k in p.kept ==> k.name != "style"
  }

  lemma SanitizeAgainWithoutStyles(rules: Rules, html: string)
    requires GoodTables(rules.tables) && forall p :: p in Scan(rules, html, 0) ==> HasNoStyle(p)
    ensures Sanitize(rules, Sanitize(rules, html)) == Sanitize(rules, html)
    ensures TagsOf(Scan(rules, Sanitize(rules, html), 0)) == TagsOf(Scan(rules, html, 0))
  {
    forall p | p in Scan(rules, html, 0) ensures StylesRest(rules, p) {
      assert HasNoStyle(p);
    }
    SanitizeAgain(rules, html);
  }
}
