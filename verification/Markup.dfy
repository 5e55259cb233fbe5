/**
 * What the sanitizer makes of a document as it is written: text, stray brackets,
 * comments, tags with their attributes, and elements that go with their contents.
 */
module Markup {
  import opened Options
  import opened Text
  import opened Attributes
  import opened Html
  import opened WrittenTags

  datatype Part =
    | Words(text: string)
    | Stray(next: char)
    | Comment(text: string)
    | Tag(name: string, attributes: seq<Spelled>, closing: bool)
    | End(name: string, blanks: string)
    | Element(name: string, attributes: seq<Spelled>, body: string, blanks: string)

  function TagText(name: string, attributes: seq<Spelled>, closing: bool): string {
    "<" + (name + (WrittenAll(attributes) + if closing then "/>" else ">"))
  }

  function EndText(name: string, blanks: string): string {
    "</" + (name + (blanks + ">"))
  }

  function TextOf(p: Part): string {
    match p
    case Words(text) => text
    case Stray(next) => "<" + [next]
    case Comment(text) => "<!--" + (text + "-->")
    case Tag(name, attributes, closing) => TagText(name, attributes, closing)
    case End(name, blanks) => EndText(name, blanks)
    case Element(name, attributes, body, blanks) => TagText(name, attributes, false) + (body + EndText(name, blanks))
  }

  function Document(parts: seq<Part>): string {
    if parts == [] then "" else TextOf(parts[0]) + Document(parts[1..])
  }

  predicate NameOfTag(name: string) {
    name != "" && IsLetter(name[0]) && forall i :: 0 <= i < |name| ==> IsLetter(name[i]) || '0' <= name[i] <= '9' || name[i] in [':', '-']
  }

  /** The sign at the end of a bare value would close the tag. */
  predicate EndsOpen(attributes: seq<Spelled>) {
    attributes != [] && attributes[|attributes| - 1].form.Bare? ==>
      var value := attributes[|attributes| - 1].value; value != "" && value[|value| - 1] != '/'
  }

  /** The word is nowhere in the text, nor does it begin there when it stands behind it. */
  predicate NotWithin(text: string, word: string) {
    text == "" || (!StartsWith(text + word, word) && NotWithin(text[1..], word))
  }

  predicate WellWritten(t: Tables, p: Part) {
    match p
    case Words(text) => '<' !in text
    case Stray(next) => !IsLetter(next) && next !in ['/', '!', '<']
    case Comment(text) => NotWithin(text, "-->")
    case Tag(name, attributes, closing) =>
      NameOfTag(name) && Lower(name) !in t.dropped && AllWellSpelled(attributes, "") && (closing || EndsOpen(attributes))
    case End(name, blanks) => NameOfTag(name) && Blank(blanks)
    case Element(name, attributes, body, blanks) =>
      && NameOfTag(name) && Lower(name) in t.dropped && AllWellSpelled(attributes, "") && EndsOpen(attributes)
      && NotWithin(Lower(body), "</" + Lower(name)) && Blank(blanks)
  }

  predicate AllWellWritten(t: Tables, parts: seq<Part>) {
    forall i :: 0 <= i < |parts| ==> WellWritten(t, parts[i])
  }

  /**
   * What comes out for a part: text as it is, the bracket of a stray one escaped,
   * an allowed tag with the attributes that stay; nothing for a comment, for a
   * tag that is not allowed, and for an element that goes with its contents.
   */
  function PiecesOf(rules: Rules, p: Part): seq<Piece> {
    match p
    case Words(text) => [Plain(text)]
    case Stray(next) => [Plain("&lt;"), Plain([next])]
    case Comment(_) => []
    case Tag(name, attributes, _) =>
      if Lower(name) in rules.tables.allowed then [Open(Lower(name), Keep(rules, Lower(name), AllMeant(attributes), {}))] else []
    case End(name, _) =>
      if Lower(name) in rules.tables.allowed && Lower(name) !in rules.tables.empty then [Close(Lower(name))] else []
    case Element(_, _, _, _) => []
  }

  function AllPieces(rules: Rules, parts: seq<Part>): seq<Piece> {
    if parts == [] then [] else PiecesOf(rules, parts[0]) + AllPieces(rules, parts[1..])
  }

  // ----- Pieces in a row -----

  lemma Behead<T>(a: seq<T>, b: seq<T>)
    requires a != []
    ensures a + b != [] && (a + b)[0] == a[0] && (a + b)[1..] == a[1..] + b
  {
  }

  lemma RenderFirst(p: Piece, rest: seq<Piece>)
    ensures RenderPieces([p] + rest) == Render(p) + RenderPieces(rest)
  {
    assert ([p] + rest)[1..] == rest;
  }

  lemma {:induction false} RendersJoin(a: seq<Piece>, b: seq<Piece>)
    ensures RenderPieces(a + b) == RenderPieces(a) + RenderPieces(b)
  {
    if a == [] {
      assert a + b == b;
    } else {
      var more := a[1..];
      RendersJoin(more, b);
      Behead(a, b);
      assert a + b == [a[0]] + (more + b) && a == [a[0]] + more;
      RenderFirst(a[0], more + b);
      RenderFirst(a[0], more);
      Joined(Render(a[0]), RenderPieces(more), RenderPieces(b));
    }
  }

  lemma {:induction false} TagsJoin(a: seq<Piece>, b: seq<Piece>)
    ensures TagsOf(a + b) == TagsOf(a) + TagsOf(b)
  {
    if a == [] {
      assert a + b == b;
    } else {
      TagsJoin(a[1..], b);
      Behead(a, b);
    }
  }

  /** Text and tags of one row of pieces are those of two others, one behind the other. */
  ghost predicate Follows(all: seq<Piece>, ps: seq<Piece>, rest: seq<Piece>) {
    RenderPieces(all) == RenderPieces(ps) + RenderPieces(rest) && TagsOf(all) == TagsOf(ps) + TagsOf(rest)
  }

  lemma FollowsItself(ps: seq<Piece>, rest: seq<Piece>)
    ensures Follows(ps + rest, ps, rest)
  {
    RendersJoin(ps, rest);
    TagsJoin(ps, rest);
  }

  lemma FollowsBoth(all: seq<Piece>, ps: seq<Piece>, mid: seq<Piece>, qs: seq<Piece>, rest: seq<Piece>)
    requires Follows(all, ps, mid) && Follows(mid, qs, rest)
    ensures Follows(all, ps + qs, rest)
  {
    FollowsItself(ps, qs);
    Chain(RenderPieces(all), RenderPieces(ps), RenderPieces(mid), RenderPieces(qs), RenderPieces(rest));
    Chain(TagsOf(all), TagsOf(ps), TagsOf(mid), TagsOf(qs), TagsOf(rest));
  }

  lemma Chain<T>(all: seq<T>, a: seq<T>, mid: seq<T>, b: seq<T>, rest: seq<T>)
    requires all == a + mid && mid == b + rest
    ensures all == a + b + rest
  {
  }

  /** Pieces come out at an index, and what comes out behind is scanned from the next. */
  ghost predicate Gives(rules: Rules, html: string, index: nat, ps: seq<Piece>, next: nat) {
    index <= next <= |html| && Follows(Scan(rules, html, index), ps, Scan(rules, html, next))
  }

  lemma GivesOn(rules: Rules, html: string, index: nat, ps: seq<Piece>, next: nat, more: seq<Piece>)
    requires Gives(rules, html, index, ps, next) && ScansTo(rules, html, next, more)
    ensures ScansTo(rules, html, index, ps + more)
  {
    FollowsItself(ps, more);
  }

  lemma GivesBoth(rules: Rules, html: string, index: nat, ps: seq<Piece>, mid: nat, qs: seq<Piece>, next: nat)
    requires Gives(rules, html, index, ps, mid) && Gives(rules, html, mid, qs, next)
    ensures Gives(rules, html, index, ps + qs, next)
  {
    FollowsBoth(Scan(rules, html, index), ps, Scan(rules, html, mid), qs, Scan(rules, html, next));
  }

  /** The same at a bracket, where no text goes out before. */
  ghost predicate Comes(rules: Rules, html: string, index: nat, ps: seq<Piece>, next: nat) {
    index < next <= |html| && html[index] == '<' && ScanTag(rules, html, index) == ps + Scan(rules, html, next)
  }

  /** Nothing goes out at a bracket. */
  ghost predicate Vanishes(rules: Rules, html: string, index: nat, next: nat) {
    index < next <= |html| && html[index] == '<' && ScanTag(rules, html, index) == Scan(rules, html, next)
  }

  lemma VanishingComes(rules: Rules, html: string, index: nat, next: nat)
    requires Vanishes(rules, html, index, next)
    ensures Comes(rules, html, index, [], next)
  {
    assert [] + Scan(rules, html, next) == Scan(rules, html, next);
  }

  lemma AtBracket(rules: Rules, html: string, index: nat, ps: seq<Piece>, next: nat)
    requires Comes(rules, html, index, ps, next)
    ensures Gives(rules, html, index, ps, next)
  {
    assert html[index..][0] == '<' && TextRun(html[index..]) == 0;
    RunScanned(rules, html, index, "", index);
    FollowsItself(ps, Scan(rules, html, next));
  }

  lemma CharGives(rules: Rules, html: string, index: nat)
    requires index < |html| && html[index] != '<'
    ensures Gives(rules, html, index, [Plain([html[index]])], index + 1)
  {
    CharScanned(rules, html, index);
    OneText([html[index]]);
  }

  lemma FollowsText(all: seq<Piece>, c: char, text: string, mid: seq<Piece>, rest: seq<Piece>)
    requires Follows(all, [Plain([c])], mid) && Follows(mid, [Plain(text)], rest)
    ensures Follows(all, [Plain([c] + text)], rest)
  {
    OneText([c]);
    OneText(text);
    OneText([c] + text);
    Joined([c], text, RenderPieces(rest));
  }

  lemma NothingGives(rules: Rules, html: string, index: nat)
    requires index <= |html|
    ensures Gives(rules, html, index, [Plain("")], index)
  {
    OneText("");
  }

  lemma {:induction false} WordsGive(rules: Rules, html: string, index: nat, next: nat)
    requires index <= next <= |html| && forall i :: index <= i < next ==> html[i] != '<'
    ensures Gives(rules, html, index, [Plain(html[index..next])], next)
    decreases next - index
  {
    if index == next {
      NothingGives(rules, html, index);
    } else {
      CharGives(rules, html, index);
      WordsGive(rules, html, index + 1, next);
      GivesText(rules, html, index, html[index..next], next);
    }
  }

  lemma GivesText(rules: Rules, html: string, index: nat, text: string, next: nat)
    requires text != "" && index + 1 <= next <= |html|
    requires Gives(rules, html, index, [Plain([text[0]])], index + 1) && Gives(rules, html, index + 1, [Plain(text[1..])], next)
    ensures Gives(rules, html, index, [Plain(text)], next)
  {
    assert text == [text[0]] + text[1..];
    FollowsText(Scan(rules, html, index), text[0], text[1..], Scan(rules, html, index + 1), Scan(rules, html, next));
  }

  lemma OneText(text: string)
    ensures RenderPieces([Plain(text)]) == text && TagsOf([Plain(text)]) == []
  {
    assert [Plain(text)][1..] == [];
  }

  // ----- Stray brackets and comments -----

  lemma StrayTag(rules: Rules, html: string, index: nat)
    requires index + 1 < |html| && html[index] == '<' && !IsLetter(html[index + 1]) && html[index + 1] !in ['/', '!', '<']
    ensures Comes(rules, html, index, [Plain("&lt;")], index + 1)
  {
    var s := html[index..];
    assert s[0] == '<' && s[1] == html[index + 1];
    assert |s| >= 4 ==> s[..4][1] == s[1];
    var end := TagEnd(s[1..], None);
    if end.Some? {
      var token := s[..end.value + 2];
      assert token[1] == s[1] && token[..2][1] == s[1];
      assert ClosingName(token) == None && OpeningSize(token) == None;
    }
  }

  lemma StrayGives(rules: Rules, html: string, index: nat)
    requires index + 1 < |html| && html[index] == '<' && !IsLetter(html[index + 1]) && html[index + 1] !in ['/', '!', '<']
    ensures Gives(rules, html, index, [Plain("&lt;"), Plain([html[index + 1]])], index + 2)
  {
    StrayTag(rules, html, index);
    AtBracket(rules, html, index, [Plain("&lt;")], index + 1);
    CharGives(rules, html, index + 1);
    GivesPair(rules, html, index, Plain("&lt;"), index + 1, Plain([html[index + 1]]), index + 2);
  }

  lemma GivesPair(rules: Rules, html: string, index: nat, p: Piece, mid: nat, q: Piece, next: nat)
    requires Gives(rules, html, index, [p], mid) && Gives(rules, html, mid, [q], next)
    ensures Gives(rules, html, index, [p, q], next)
  {
    GivesBoth(rules, html, index, [p], mid, [q], next);
    assert [p] + [q] == [p, q];
  }

  lemma StartsAlike(a: string, b: string, word: string, rest: string)
    requires |a| >= |word| && b == a + rest
    ensures StartsWith(a, word) <==> StartsWith(b, word)
  {
    assert b[..|word|] == a[..|word|];
  }

  /** A word that is not within a text before it is found behind it. */
  lemma {:induction false} FindBehind(text: string, word: string, rest: string)
    requires NotWithin(text, word) && word != ""
    ensures Find(text + (word + rest), word) == Some(|text|)
  {
    var s := text + (word + rest);
    if text == "" {
      assert s == word + rest;
    } else {
      assert s == text + word + rest;
      StartsAlike(text + word, s, word, rest);
      FindBehind(text[1..], word, rest);
      assert s[1..] == text[1..] + (word + rest);
    }
  }

  lemma CommentEnds(html: string, index: nat, behind: string, at: nat)
    requires index <= |html| && html[index..] == "<!--" + behind && Find(behind, "-->") == Some(at)
    ensures index < |html| && html[index] == '<' && StartsWith(html[index..], "<!--") && CommentEnd(html, index) == index + at + 7
  {
    assert html[index] == html[index..][0];
    assert html[index..][..4] == "<!--" && html[index + 4..] == html[index..][4..] == behind;
  }

  lemma CommentTag(rules: Rules, html: string, index: nat)
    requires index < |html| && StartsWith(html[index..], "<!--")
    ensures ScanTag(rules, html, index) == Scan(rules, html, CommentEnd(html, index))
  {
  }

  // ----- The end of a tag -----

  lemma QuoteStep(q: char, rest: string)
    ensures TagEnd([q] + rest, Some(q)) == Shifted(TagEnd(rest, None), 1)
  {
    assert ([q] + rest)[1..] == rest;
  }

  lemma StringStep(q: char, c: char, t: string)
    requires c != q
    ensures TagEnd([c] + t, Some(q)) == Shifted(TagEnd(t, Some(q)), 1)
  {
    assert ([c] + t)[1..] == t;
  }

  lemma {:induction false} EndInQuotes(q: char, value: string, rest: string)
    requires q !in value
    ensures TagEnd(value + ([q] + rest), Some(q)) == Shifted(TagEnd(rest, None), |value| + 1)
  {
    var tail := [q] + rest;
    if value == "" {
      assert value + tail == tail;
      QuoteStep(q, rest);
    } else {
      EndInQuotes(q, value[1..], rest);
      assert value[0] in value && value + tail == [value[0]] + (value[1..] + tail);
      StringStep(q, value[0], value[1..] + tail);
    }
  }

  lemma SkipsQuotes(q: char, value: string, rest: string)
    requires (q == '"' || q == '\'') && q !in value
    ensures Skips([q] + (value + [q]), rest)
  {
    EndInQuotes(q, value, rest);
    var s := [q] + (value + [q]) + rest;
    assert s[0] == q && s[1..] == value + ([q] + rest);
  }

  lemma SkipsPlain(word: string, rest: string)
    requires NoTagEnd(word)
    ensures Skips(word, rest)
  {
    TagEndOver(word, rest);
  }

  lemma SkipsValue(a: Spelled, rest: string)
    requires WellSpelled(a)
    ensures Skips(ValuePart(a), rest)
  {
    match a.form {
      case Alone => SkipsPlain("", rest);
      case Bare => SkipsPlain(a.before + ("=" + (a.after + a.value)), rest);
      case Quoted(q) =>
        var quoted := [q] + (a.value + [q]);
        SkipsQuotes(q, a.value, rest);
        SkipsPlain(a.before + ("=" + a.after), quoted + rest);
        SkipsBoth(a.before + ("=" + a.after), quoted, rest);
        assert a.before + ("=" + a.after) + quoted == ValuePart(a);
    }
  }

  lemma SkipsWrittenOne(a: Spelled, rest: string)
    requires WellSpelled(a)
    ensures Skips(Written(a), rest)
  {
    SkipsValue(a, rest);
    SkipsPlain(a.gap + a.name, ValuePart(a) + rest);
    SkipsBoth(a.gap + a.name, ValuePart(a), rest);
    assert a.gap + a.name + ValuePart(a) == Written(a);
  }

  lemma {:induction false} SkipsWritten(written: seq<Spelled>, rest: string)
    requires AllWellSpelled(written, "")
    ensures Skips(WrittenAll(written), rest)
  {
    if written == [] {
      SkipsPlain("", rest);
    } else {
      SkipsWritten(written[1..], rest);
      SkipsWrittenOne(written[0], WrittenAll(written[1..]) + rest);
      SkipsBoth(Written(written[0]), WrittenAll(written[1..]), rest);
    }
  }

  // ----- Tags -----

  lemma NameIsPlain(name: string)
    requires NameOfTag(name)
    ensures NoTagEnd(name) && forall i :: 0 <= i < |name| ==> TagChar(name[i])
  {
  }

  /** What stands between the brackets of a tag. */
  function InnerOf(name: string, attributes: seq<Spelled>, closing: bool): string {
    name + (WrittenAll(attributes) + if closing then "/" else "")
  }

  lemma TagShape(name: string, attributes: seq<Spelled>, closing: bool)
    ensures TagText(name, attributes, closing) == "<" + (InnerOf(name, attributes, closing) + ">")
  {
  }

  lemma SkipsInner(name: string, attributes: seq<Spelled>, closing: bool, rest: string)
    requires NameOfTag(name) && AllWellSpelled(attributes, "")
    ensures Skips(InnerOf(name, attributes, closing), rest)
  {
    var sign := if closing then "/" else "";
    NameIsPlain(name);
    SkipsPlain(sign, rest);
    SkipsWritten(attributes, sign + rest);
    SkipsBoth(WrittenAll(attributes), sign, rest);
    SkipsPlain(name, WrittenAll(attributes) + sign + rest);
    SkipsBoth(name, WrittenAll(attributes) + sign, rest);
  }

  /** A token between brackets is found whole. */
  lemma InnerFound(rules: Rules, html: string, index: nat, inner: string, rest: string)
    requires |inner| > 0 && inner[0] != '!' && Skips(inner, ">" + rest)
    requires index < |html| && html[index..] == "<" + (inner + ">") + rest
    ensures var token := "<" + (inner + ">");
      && index + |token| <= |html| && html[index] == '<'
      && ScanTag(rules, html, index) == ScanToken(rules, html, index, token)
  {
    var token := "<" + (inner + ">");
    SkipsToEnd(inner, rest);
    assert (token + rest)[1..] == inner + (">" + rest) && token[1] == inner[0];
    assert html[index] == html[index..][0];
    TokenFound(rules, html, index, token, rest);
  }

  lemma AttributesStart(attributes: seq<Spelled>, end: string)
    requires AllWellSpelled(attributes, "") && end != "" && (end[0] == '/' || end[0] == '>')
    ensures WrittenAll(attributes) + end != ""
    ensures var c := (WrittenAll(attributes) + end)[0]; !TagChar(c) && (IsSpace(c) || c == '/' || c == '>')
  {
    if attributes == [] {
      assert WrittenAll(attributes) + end == end;
    } else {
      assert (WrittenAll(attributes) + end)[0] == attributes[0].gap[0];
    }
  }

  lemma TokenName(name: string, behind: string)
    requires NameOfTag(name) && behind != "" && !TagChar(behind[0]) && (IsSpace(behind[0]) || behind[0] == '/' || behind[0] == '>')
    ensures var token := "<" + (name + behind);
      ClosingName(token) == None && OpeningSize(token) == Some(|name|) && token[1..1 + |name|] == name
  {
    var token := "<" + (name + behind);
    NameIsPlain(name);
    TagRunOf(name, behind);
    Parts("<", name, behind);
    assert token[1] == name[0] && token[..2][1] == name[0] && token[1 + |name|] == behind[0];
  }

  lemma OneEnd(a: Spelled)
    requires WellSpelled(a) && (a.form.Bare? ==> a.value[|a.value| - 1] != '/')
    ensures var c := Written(a)[|Written(a)| - 1]; !IsSpace(c) && c != '/'
  {
    var last := if a.form.Alone? then a.name[|a.name| - 1] else if a.form.Bare? then a.value[|a.value| - 1] else a.form.quote;
    assert Written(a)[|Written(a)| - 1] == last;
  }

  lemma {:induction false} WrittenEnd(attributes: seq<Spelled>)
    requires AllWellSpelled(attributes, "") && EndsOpen(attributes) && attributes != []
    ensures WrittenAll(attributes) != ""
    ensures var c := WrittenAll(attributes)[|WrittenAll(attributes)| - 1]; !IsSpace(c) && c != '/'
  {
    var a, more := attributes[0], attributes[1..];
    if more != [] {
      assert more[|more| - 1] == attributes[|attributes| - 1];
      WrittenEnd(more);
      LastBehind(Written(a), WrittenAll(more));
    } else {
      OneEnd(a);
      assert WrittenAll(more) == "";
      assert WrittenAll(attributes) == Written(a);
    }
  }

  lemma LastBehind(a: string, b: string)
    requires b != ""
    ensures (a + b)[|a + b| - 1] == b[|b| - 1]
  {
  }

  lemma NotClosed(token: string, inner: string)
    requires token == inner + ">" && inner != "" && !IsSpace(inner[|inner| - 1]) && inner[|inner| - 1] != '/'
    ensures !SelfClosing(token)
  {
    assert token[..|token| - 1] == inner && TrimEnd(inner) == inner;
  }

  lemma OpenEnds(name: string, attributes: seq<Spelled>)
    requires NameOfTag(name) && AllWellSpelled(attributes, "") && EndsOpen(attributes)
    ensures !SelfClosing("<" + (name + (WrittenAll(attributes) + ">")))
  {
    var source := WrittenAll(attributes);
    var inner := "<" + (name + source);
    if attributes != [] {
      WrittenEnd(attributes);
    }
    assert inner[|inner| - 1] == if source == "" then name[|name| - 1] else source[|source| - 1];
    NotClosed("<" + (name + (source + ">")), inner);
  }

  lemma ClosedEnds(name: string, source: string)
    ensures SelfClosing("<" + (name + (source + "/>")))
  {
    var token := "<" + (name + (source + "/>"));
    var inner := token[..|token| - 1];
    assert inner[|inner| - 1] == '/';
    assert TrimEnd(inner) == inner;
  }

  lemma Between(name: string, source: string, end: string)
    ensures var token := "<" + (name + (source + end));
      |token| == 1 + |name| + |source| + |end| && token[1 + |name|..|token| - |end|] == source
  {
  }

  lemma TokenSource(name: string, attributes: seq<Spelled>, closing: bool)
    requires NameOfTag(name) && AllWellSpelled(attributes, "") && (closing || EndsOpen(attributes))
    ensures |TagText(name, attributes, closing)| > 1 + |name|
    ensures AttributeSource(TagText(name, attributes, closing), |name|) == WrittenAll(attributes)
  {
    Between(name, WrittenAll(attributes), if closing then "/>" else ">");
    if closing {
      ClosedEnds(name, WrittenAll(attributes));
    } else {
      OpenEnds(name, attributes);
    }
  }

  /** The token of a tag says its name. */
  lemma TokenSays(name: string, attributes: seq<Spelled>, closing: bool)
    requires NameOfTag(name) && AllWellSpelled(attributes, "")
    ensures var token := TagText(name, attributes, closing);
      ClosingName(token) == None && OpeningSize(token) == Some(|name|) && token[1..1 + |name|] == name
  {
    var end := if closing then "/>" else ">";
    AttributesStart(attributes, end);
    TokenName(name, WrittenAll(attributes) + end);
  }

  /** The pieces of an opening tag with that source of attributes. */
  function OpeningPieces(rules: Rules, tag: string, source: string): seq<Piece> {
    if tag in rules.tables.allowed then [Open(tag, Sanitized(rules, tag, source))] else []
  }

  lemma PiecesMeant(rules: Rules, name: string, attributes: seq<Spelled>, closing: bool)
    requires AllWellSpelled(attributes, "")
    ensures OpeningPieces(rules, Lower(name), WrittenAll(attributes)) == PiecesOf(rules, Tag(name, attributes, closing))
  {
    SourceMeant(rules, Lower(name), attributes, WrittenAll(attributes));
  }

  lemma SourceMeant(rules: Rules, tag: string, attributes: seq<Spelled>, source: string)
    requires AllWellSpelled(attributes, "") && source == WrittenAll(attributes) + ""
    ensures Sanitized(rules, tag, source) == Keep(rules, tag, AllMeant(attributes), {})
  {
    WrittenReads(attributes, "");
  }

  lemma TagFound(rules: Rules, html: string, index: nat, name: string, attributes: seq<Spelled>, closing: bool, rest: string)
    requires NameOfTag(name) && AllWellSpelled(attributes, "") && (closing || EndsOpen(attributes))
    requires index <= |html| && html[index..] == TagText(name, attributes, closing) + rest
    ensures var token := TagText(name, attributes, closing);
      && index < index + |token| <= |html| && html[index] == '<' && 1 + |name| < |token|
      && ScanTag(rules, html, index) == ScanOpening(rules, html, index, token, |name|)
  {
    var token := TagText(name, attributes, closing);
    TagShape(name, attributes, closing);
    SkipsInner(name, attributes, closing, ">" + rest);
    InnerFound(rules, html, index, InnerOf(name, attributes, closing), rest);
    TokenSays(name, attributes, closing);
    TokenSource(name, attributes, closing);
    OpensAt(rules, html, index, token, |name|);
  }

  lemma OpensAt(rules: Rules, html: string, index: nat, token: string, n: nat)
    requires |token| > 1 && index + |token| <= |html| && ClosingName(token) == None && OpeningSize(token) == Some(n)
    ensures ScanToken(rules, html, index, token) == ScanOpening(rules, html, index, token, n)
  {
  }

  lemma OpeningStays(rules: Rules, html: string, index: nat, token: string, n: nat, tag: string, source: string)
    requires 1 + n < |token| && index + |token| <= |html|
    requires Lower(token[1..1 + n]) == tag && tag !in rules.tables.dropped && AttributeSource(token, n) == source
    ensures ScanOpening(rules, html, index, token, n) == OpeningPieces(rules, tag, source) + Scan(rules, html, index + |token|)
  {
    if tag !in rules.tables.allowed {
      assert [] + Scan(rules, html, index + |token|) == Scan(rules, html, index + |token|);
    }
  }

  // ----- Closing tags -----

  lemma EndToken(name: string, blanks: string)
    requires NameOfTag(name) && Blank(blanks)
    ensures ClosingName(EndText(name, blanks)) == Some(Lower(name))
  {
    var token, behind := EndText(name, blanks), blanks + ">";
    NameIsPlain(name);
    assert token[..2] == "</" && token[2..] == name + behind && token[2] == name[0];
    TagRunOf(name, behind);
    assert token[2..2 + |name|] == name && token[2 + |name|..] == behind;
    SpacesRun(blanks, ">");
  }

  lemma {:induction false} SpacesRun(blanks: string, rest: string)
    requires Blank(blanks) && (rest == "" || !IsSpace(rest[0]))
    ensures SpaceRun(blanks + rest) == |blanks|
  {
    if blanks == "" {
      assert blanks + rest == rest;
    } else {
      assert (blanks + rest)[0] == blanks[0] && (blanks + rest)[1..] == blanks[1..] + rest;
      SpacesRun(blanks[1..], rest);
    }
  }

  lemma ClosesAt(rules: Rules, html: string, index: nat, token: string, tag: string)
    requires |token| > 1 && index + |token| <= |html| && ClosingName(token) == Some(tag)
    ensures ScanToken(rules, html, index, token) == ClosingPieces(rules, tag) + Scan(rules, html, index + |token|)
  {
  }

  // ----- Elements that go with their contents -----

  /** No letter whose small form is longer. */
  predicate Steady(s: string) {
    '\U{0130}' !in s
  }

  lemma {:induction false} LowerSteady(s: string)
    requires Steady(s)
    ensures |Lower(s)| == |s|
  {
    if s != "" {
      assert s[0] in s;
      LowerSteady(s[1..]);
    }
  }

  lemma LowerFrom(s: string, i: nat)
    requires Steady(s) && i <= |s|
    ensures |Lower(s)| == |s| && Lower(s)[i..] == Lower(s[i..])
  {
    LowerSteady(s);
    LowerSteady(s[..i]);
    LowerAppend(s[..i], s[i..]);
    assert s == s[..i] + s[i..];
  }

  lemma LowerEnd(name: string, blanks: string, rest: string)
    ensures Lower(EndText(name, blanks) + rest) == "</" + Lower(name) + Lower(blanks + ">" + rest)
  {
    var behind := blanks + ">" + rest;
    assert EndText(name, blanks) + rest == "</" + (name + behind);
    LowerAppend("</", name + behind);
    LowerAppend(name, behind);
    assert "</"[1..] == "/" && "/"[1..] == "";
    assert Lower("/") == "/" && Lower("</") == "</";
    Joined("</", Lower(name), Lower(behind));
  }

  /** The closing tag of an element is found behind its body. */
  lemma ClosingFound(body: string, name: string, blanks: string, rest: string)
    requires Steady(body) && NotWithin(Lower(body), "</" + Lower(name))
    ensures Find(Lower(body + (EndText(name, blanks) + rest)), "</" + Lower(name)) == Some(|body|)
  {
    var word, behind := "</" + Lower(name), Lower(blanks + ">" + rest);
    LowerSteady(body);
    LowerAppend(body, EndText(name, blanks) + rest);
    LowerEnd(name, blanks, rest);
    FindBehind(Lower(body), word, behind);
  }

  lemma EndOfEnd(name: string, blanks: string, rest: string)
    requires NameOfTag(name) && Blank(blanks)
    ensures TagEnd((EndText(name, blanks) + rest)[1..], None) == Some(|EndText(name, blanks)| - 2)
  {
    var inner := "/" + (name + blanks);
    NameIsPlain(name);
    SkipsPlain(inner, ">" + rest);
    SkipsToEnd(inner, rest);
    assert (EndText(name, blanks) + rest)[1..] == inner + (">" + rest);
  }

  lemma SteadyWithin(html: string, from: nat, body: string, behind: string)
    requires Steady(html) && from <= |html| && html[from..] == body + behind
    ensures Steady(body) && from + |body| <= |html| && html[from + |body|..] == behind
  {
    forall i | 0 <= i < |body|
      ensures body[i] != '\U{0130}'
    {
      assert html[from + i] == html[from..][i] == body[i] && html[from + i] in html;
    }
    assert html[from + |body|..] == html[from..][|body|..];
  }

  /** From the end of the opening tag on, the closing tag is found after n characters, and is of that size. */
  ghost predicate ClosesAfter(html: string, from: nat, tag: string, n: nat, size: nat) {
    && from + n < |html| <= |Lower(html)| && from <= |html| && size > 1
    && Find(Lower(html)[from..], "</" + tag) == Some(n) && TagEnd(html[from + n + 1..], None) == Some(size - 2)
  }

  lemma ClosesAs(html: string, from: nat, tag: string, text: string, n: nat, size: nat)
    requires Steady(html) && from <= |html| && html[from..] == text && n < |text| && size > 1
    requires Find(Lower(text), "</" + tag) == Some(n) && TagEnd(text[n + 1..], None) == Some(size - 2)
    ensures ClosesAfter(html, from, tag, n, size)
  {
    LowerFrom(html, from);
    assert html[from + n + 1..] == html[from..][n + 1..];
  }

  lemma SkipIs(html: string, tag: string, from: nat, n: nat, size: nat)
    requires 0 < from && ClosesAfter(html, from, tag, n, size)
    ensures SkipBlocked(html, tag, from - 1) == from + n + size
  {
  }

  lemma ElementTaken(rules: Rules, html: string, index: nat, token: string, name: string, next: nat)
    requires 1 + |name| < |token| && index + |token| <= |html| && html[index] == '<'
    requires ScanTag(rules, html, index) == ScanOpening(rules, html, index, token, |name|)
    requires token[1..1 + |name|] == name && Lower(name) in rules.tables.dropped
    requires SkipBlocked(html, Lower(name), index + |token| - 1) == next
    ensures Vanishes(rules, html, index, next)
  {
  }

  /** Where the closing tag of an element is, and how long it is, in the text behind its opening tag. */
  lemma ClosingStands(text: string, body: string, end: string, rest: string, word: string) returns (n: nat, size: nat)
    requires text == body + (end + rest) && |end| > 1
    requires Find(Lower(text), word) == Some(|body|) && TagEnd((end + rest)[1..], None) == Some(|end| - 2)
    ensures n < |text| && size > 1 && n + size <= |text| && text[n + size..] == rest
    ensures Find(Lower(text), word) == Some(n) && TagEnd(text[n + 1..], None) == Some(size - 2)
  {
    Beyond(body, end + rest);
    RestBehind(body, end, rest);
    n, size := |body|, |end|;
  }

  lemma Beyond(a: string, b: string)
    requires b != ""
    ensures (a + b)[|a| + 1..] == b[1..]
  {
  }

  lemma RestBehind(a: string, b: string, rest: string)
    ensures (a + (b + rest))[|a| + |b|..] == rest
  {
  }

  lemma ElementCloses(html: string, from: nat, text: string, tag: string, n: nat, size: nat)
    requires Steady(html) && 0 < from <= |html| && html[from..] == text && n < |text| && size > 1
    requires Find(Lower(text), "</" + tag) == Some(n) && TagEnd(text[n + 1..], None) == Some(size - 2)
    ensures SkipBlocked(html, tag, from - 1) == from + n + size
  {
    ClosesAs(html, from, tag, text, n, size);
    SkipIs(html, tag, from, n, size);
  }

  lemma ElementSkips(html: string, from: nat, name: string, body: string, blanks: string, rest: string) returns (next: nat)
    requires Steady(html) && NameOfTag(name) && Blank(blanks) && NotWithin(Lower(body), "</" + Lower(name))
    requires 0 < from <= |html| && html[from..] == body + (EndText(name, blanks) + rest)
    ensures next <= |html| && html[next..] == rest && SkipBlocked(html, Lower(name), from - 1) == next
  {
    SteadyWithin(html, from, body, EndText(name, blanks) + rest);
    var n, size := ElementEnds(body, name, blanks, rest, html[from..]);
    next := SkipsTo(html, from, html[from..], Lower(name), n, size, rest);
  }

  lemma SkipsTo(html: string, from: nat, text: string, tag: string, n: nat, size: nat, rest: string) returns (next: nat)
    requires Steady(html) && 0 < from <= |html| && html[from..] == text && n < |text| && size > 1
    requires Find(Lower(text), "</" + tag) == Some(n) && TagEnd(text[n + 1..], None) == Some(size - 2)
    requires n + size <= |text| && text[n + size..] == rest
    ensures next <= |html| && html[next..] == rest && SkipBlocked(html, tag, from - 1) == next
  {
    ElementCloses(html, from, text, tag, n, size);
    next := from + n + size;
    Deeper(html, from, n + size);
  }

  lemma ElementEnds(body: string, name: string, blanks: string, rest: string, text: string) returns (n: nat, size: nat)
    requires Steady(body) && NameOfTag(name) && Blank(blanks) && NotWithin(Lower(body), "</" + Lower(name))
    requires text == body + (EndText(name, blanks) + rest)
    ensures n < |text| && size > 1 && n + size <= |text| && text[n + size..] == rest
    ensures Find(Lower(text), "</" + Lower(name)) == Some(n) && TagEnd(text[n + 1..], None) == Some(size - 2)
  {
    ClosingFound(body, name, blanks, rest);
    EndOfEnd(name, blanks, rest);
    n, size := ClosingStands(text, body, EndText(name, blanks), rest, "</" + Lower(name));
  }

  lemma Deeper(html: string, from: nat, k: nat)
    requires from + k <= |html|
    ensures html[from + k..] == html[from..][k..]
  {
  }

  lemma BodyVanishes(rules: Rules, html: string, index: nat, token: string, name: string, body: string, blanks: string, rest: string)
      returns (next: nat)
    requires Steady(html) && NameOfTag(name) && Lower(name) in rules.tables.dropped
    requires Blank(blanks) && NotWithin(Lower(body), "</" + Lower(name))
    requires 1 + |name| < |token| && token[1..1 + |name|] == name && index + |token| <= |html| && html[index] == '<'
    requires html[index + |token|..] == body + (EndText(name, blanks) + rest)
    requires ScanTag(rules, html, index) == ScanOpening(rules, html, index, token, |name|)
    ensures next <= |html| && html[next..] == rest && Vanishes(rules, html, index, next)
  {
    next := ElementSkips(html, index + |token|, name, body, blanks, rest);
    ElementTaken(rules, html, index, token, name, next);
  }

  // ----- A part, and a document -----

  lemma Standing(html: string, index: nat, text: string, rest: string)
    requires index <= |html| && html[index..] == text + rest
    ensures index + |text| <= |html| && html[index + |text|..] == rest
  {
    Deeper(html, index, |text|);
  }

  /** What a part gives at its place, and where the rest stands. */
  lemma WordsPart(rules: Rules, html: string, index: nat, text: string, rest: string) returns (next: nat)
    requires '<' !in text && index <= |html| && html[index..] == text + rest
    ensures next <= |html| && html[next..] == rest && Gives(rules, html, index, [Plain(text)], next)
  {
    next := index + |text|;
    Standing(html, index, text, rest);
    forall i | index <= i < next
      ensures html[i] != '<'
    {
      assert html[i] == html[index..][i - index] == text[i - index] && text[i - index] in text;
    }
    assert html[index..next] == html[index..][..|text|] == text;
    WordsGive(rules, html, index, next);
  }

  lemma StrayPart(rules: Rules, html: string, index: nat, c: char, rest: string) returns (next: nat)
    requires !IsLetter(c) && c !in ['/', '!', '<'] && index <= |html| && html[index..] == "<" + [c] + rest
    ensures next <= |html| && html[next..] == rest && Gives(rules, html, index, [Plain("&lt;"), Plain([c])], next)
  {
    next := index + 2;
    Standing(html, index, "<" + [c], rest);
    assert html[index] == html[index..][0] && html[index + 1] == html[index..][1];
    StrayGives(rules, html, index);
  }

  lemma CommentBody(text: string, behind: string, rest: string) returns (at: nat)
    requires NotWithin(text, "-->") && behind == text + ("-->" + rest)
    ensures at + 3 <= |behind| && behind[at + 3..] == rest && Find(behind, "-->") == Some(at)
  {
    at := |text|;
    FindBehind(text, "-->", rest);
    RestBehind(text, "-->", rest);
  }

  lemma CommentStands(html: string, index: nat, behind: string, at: nat, rest: string) returns (next: nat)
    requires index <= |html| && html[index..] == "<!--" + behind
    requires at + 3 <= |behind| && behind[at + 3..] == rest && Find(behind, "-->") == Some(at)
    ensures index < next <= |html| && html[next..] == rest && html[index] == '<'
    ensures StartsWith(html[index..], "<!--") && CommentEnd(html, index) == next
  {
    Standing(html, index, "<!--", behind);
    next := index + at + 7;
    Deeper(html, index + 4, at + 3);
    CommentEnds(html, index, behind, at);
  }

  lemma CommentPart(rules: Rules, html: string, index: nat, text: string, rest: string) returns (next: nat)
    requires NotWithin(text, "-->") && index <= |html| && html[index..] == "<!--" + (text + ("-->" + rest))
    ensures next <= |html| && html[next..] == rest && Vanishes(rules, html, index, next)
  {
    var at := CommentBody(text, text + ("-->" + rest), rest);
    next := CommentStands(html, index, text + ("-->" + rest), at, rest);
    CommentTag(rules, html, index);
  }

  lemma TagOpens(rules: Rules, html: string, index: nat, name: string, attributes: seq<Spelled>, closing: bool, text: string)
      returns (token: string)
    requires NameOfTag(name) && AllWellSpelled(attributes, "") && (closing || EndsOpen(attributes))
    requires index <= |html| && html[index..] == TagText(name, attributes, closing) + text
    ensures index + |token| <= |html| && html[index] == '<' && 1 + |name| < |token|
    ensures html[index + |token|..] == text && token[1..1 + |name|] == name && AttributeSource(token, |name|) == WrittenAll(attributes)
    ensures ScanTag(rules, html, index) == ScanOpening(rules, html, index, token, |name|)
  {
    token := TagText(name, attributes, closing);
    TagFound(rules, html, index, name, attributes, closing, text);
    TokenSays(name, attributes, closing);
    TokenSource(name, attributes, closing);
    Standing(html, index, token, text);
  }

  lemma TagTaken(rules: Rules, html: string, index: nat, token: string, name: string, source: string, rest: string) returns (next: nat)
    requires 1 + |name| < |token| && token[1..1 + |name|] == name && Lower(name) !in rules.tables.dropped
    requires AttributeSource(token, |name|) == source && index + |token| <= |html| && html[index] == '<'
    requires html[index + |token|..] == rest
    requires ScanTag(rules, html, index) == ScanOpening(rules, html, index, token, |name|)
    ensures next <= |html| && html[next..] == rest && Comes(rules, html, index, OpeningPieces(rules, Lower(name), source), next)
  {
    next := index + |token|;
    TagStays(rules, html, index, token, name, source);
  }

  lemma TagStays(rules: Rules, html: string, index: nat, token: string, name: string, source: string)
    requires 1 + |name| < |token| && token[1..1 + |name|] == name && Lower(name) !in rules.tables.dropped
    requires AttributeSource(token, |name|) == source && index + |token| <= |html| && html[index] == '<'
    requires ScanTag(rules, html, index) == ScanOpening(rules, html, index, token, |name|)
    ensures Comes(rules, html, index, OpeningPieces(rules, Lower(name), source), index + |token|)
  {
    OpeningStays(rules, html, index, token, |name|, Lower(name), source);
  }

  lemma TagPart(rules: Rules, html: string, index: nat, name: string, attributes: seq<Spelled>, closing: bool, rest: string)
      returns (next: nat)
    requires NameOfTag(name) && Lower(name) !in rules.tables.dropped
    requires AllWellSpelled(attributes, "") && (closing || EndsOpen(attributes))
    requires index <= |html| && html[index..] == TagText(name, attributes, closing) + rest
    ensures next <= |html| && html[next..] == rest
    ensures Comes(rules, html, index, OpeningPieces(rules, Lower(name), WrittenAll(attributes)), next)
  {
    var token := TagOpens(rules, html, index, name, attributes, closing, rest);
    next := TagTaken(rules, html, index, token, name, WrittenAll(attributes), rest);
  }

  lemma EndCloses(rules: Rules, html: string, index: nat, name: string, blanks: string, rest: string) returns (token: string)
    requires NameOfTag(name) && Blank(blanks) && index <= |html| && html[index..] == EndText(name, blanks) + rest
    ensures index + |token| <= |html| && |token| > 1 && html[index] == '<' && html[index + |token|..] == rest
    ensures ClosingName(token) == Some(Lower(name)) && ScanTag(rules, html, index) == ScanToken(rules, html, index, token)
  {
    token := EndText(name, blanks);
    var inner := "/" + (name + blanks);
    NameIsPlain(name);
    SkipsPlain(inner, ">" + rest);
    assert token == "<" + (inner + ">");
    InnerFound(rules, html, index, inner, rest);
    EndToken(name, blanks);
    Standing(html, index, token, rest);
  }

  lemma EndTaken(rules: Rules, html: string, index: nat, token: string, tag: string, rest: string) returns (next: nat)
    requires |token| > 1 && index + |token| <= |html| && html[index] == '<' && html[index + |token|..] == rest
    requires ClosingName(token) == Some(tag) && ScanTag(rules, html, index) == ScanToken(rules, html, index, token)
    ensures next <= |html| && html[next..] == rest && Comes(rules, html, index, ClosingPieces(rules, tag), next)
  {
    next := index + |token|;
    EndStays(rules, html, index, token, tag);
  }

  lemma EndStays(rules: Rules, html: string, index: nat, token: string, tag: string)
    requires |token| > 1 && index + |token| <= |html| && html[index] == '<'
    requires ClosingName(token) == Some(tag) && ScanTag(rules, html, index) == ScanToken(rules, html, index, token)
    ensures Comes(rules, html, index, ClosingPieces(rules, tag), index + |token|)
  {
    ClosesAt(rules, html, index, token, tag);
  }

  lemma EndPart(rules: Rules, html: string, index: nat, name: string, blanks: string, rest: string) returns (next: nat)
    requires NameOfTag(name) && Blank(blanks) && index <= |html| && html[index..] == EndText(name, blanks) + rest
    ensures next <= |html| && html[next..] == rest && Comes(rules, html, index, ClosingPieces(rules, Lower(name)), next)
  {
    var token := EndCloses(rules, html, index, name, blanks, rest);
    next := EndTaken(rules, html, index, token, Lower(name), rest);
  }

  lemma ElementPart(rules: Rules, html: string, index: nat, name: string, attributes: seq<Spelled>, body: string, blanks: string, rest: string)
      returns (next: nat)
    requires WellWritten(rules.tables, Element(name, attributes, body, blanks)) && Steady(html) && index <= |html|
    requires html[index..] == TagText(name, attributes, false) + (body + (EndText(name, blanks) + rest))
    ensures next <= |html| && html[next..] == rest && Vanishes(rules, html, index, next)
  {
    var token := TagOpens(rules, html, index, name, attributes, false, body + (EndText(name, blanks) + rest));
    next := BodyVanishes(rules, html, index, token, name, body, blanks, rest);
  }

  lemma Vanished(rules: Rules, html: string, index: nat, next: nat)
    requires Vanishes(rules, html, index, next)
    ensures Gives(rules, html, index, [], next)
  {
    VanishingComes(rules, html, index, next);
    AtBracket(rules, html, index, [], next);
  }

  /** A part at its place gives its pieces, and the scan goes on where the rest stands. */
  lemma PartGives(rules: Rules, html: string, index: nat, p: Part, rest: string) returns (next: nat)
    requires WellWritten(rules.tables, p) && (p.Element? ==> Steady(html)) && index <= |html| && html[index..] == TextOf(p) + rest
    ensures next <= |html| && html[next..] == rest && Gives(rules, html, index, PiecesOf(rules, p), next)
  {
    match p {
      case Words(text) =>
        next := WordsPart(rules, html, index, text, rest);
      case Stray(c) =>
        next := StrayPart(rules, html, index, c, rest);
      case Comment(text) =>
        Joined("<!--", text + "-->", rest);
        Joined(text, "-->", rest);
        next := CommentPart(rules, html, index, text, rest);
        Vanished(rules, html, index, next);
      case Tag(name, attributes, closing) =>
        next := TagPart(rules, html, index, name, attributes, closing, rest);
        PiecesMeant(rules, name, attributes, closing);
        AtBracket(rules, html, index, PiecesOf(rules, p), next);
      case End(name, blanks) =>
        next := EndPart(rules, html, index, name, blanks, rest);
        AtBracket(rules, html, index, PiecesOf(rules, p), next);
      case Element(name, attributes, body, blanks) =>
        Joined(TagText(name, attributes, false), body + EndText(name, blanks), rest);
        Joined(body, EndText(name, blanks), rest);
        next := ElementPart(rules, html, index, name, attributes, body, blanks, rest);
        Vanished(rules, html, index, next);
    }
  }

  predicate HasElement(parts: seq<Part>) {
    exists i :: 0 <= i < |parts| && parts[i].Element?
  }

  lemma NothingLeft(rules: Rules, html: string, index: nat)
    requires index <= |html| && html[index..] == ""
    ensures ScansTo(rules, html, index, [])
  {
    assert index == |html|;
  }

  lemma {:induction false} DocumentScans(rules: Rules, html: string, index: nat, parts: seq<Part>)
    requires AllWellWritten(rules.tables, parts) && (HasElement(parts) ==> Steady(html))
    requires index <= |html| && html[index..] == Document(parts)
    ensures ScansTo(rules, html, index, AllPieces(rules, parts))
    decreases |parts|
  {
    if parts == [] {
      NothingLeft(rules, html, index);
    } else {
      assert forall i :: 0 <= i < |parts[1..]| ==> parts[1..][i] == parts[i + 1];
      var next := PartGives(rules, html, index, parts[0], Document(parts[1..]));
      DocumentScans(rules, html, next, parts[1..]);
      GivesOn(rules, html, index, PiecesOf(rules, parts[0]), next, AllPieces(rules, parts[1..]));
    }
  }

  /**
   * What the sanitizer makes of a document, part by part: its text, its allowed
   * tags with the attributes that stay as they are meant, however those are
   * written; no comment, no other tag, and nothing of an element that goes. With
   * such an element, no letter is one whose small form is longer.
   */
  lemma DocumentSanitized(rules: Rules, parts: seq<Part>)
    requires AllWellWritten(rules.tables, parts) && (HasElement(parts) ==> Steady(Document(parts)))
    ensures Sanitize(rules, Document(parts)) == RenderPieces(AllPieces(rules, parts))
    ensures TagsOf(Scan(rules, Document(parts), 0)) == TagsOf(AllPieces(rules, parts))
  {
    assert Document(parts)[0..] == Document(parts);
    DocumentScans(rules, Document(parts), 0, parts);
  }

  // ----- A letter whose small form is longer -----

  predicate Dotted(s: string) {
    forall i :: 0 <= i < |s| ==> s[i] == '\U{0130}'
  }

  lemma {:induction false} DottedLower(s: string)
    requires Dotted(s)
    ensures |Lower(s)| == 2 * |s| && (s != "" ==> Lower(s)[2 * |s| - 1] == '\U{0307}')
  {
    if s != "" {
      DottedLower(s[1..]);
    }
  }

  /** Behind dotted capitals, one place further on than half of their small form. */
  lemma BehindDotted(capitals: string, behind: string)
    requires Dotted(capitals) && capitals != "" && IsLowerAscii(behind)
    ensures |Lower(capitals + behind)| == 2 * |capitals| + |behind|
    ensures Lower(capitals + behind)[2 * |capitals| - 1..] == ['\U{0307}'] + behind
  {
    LowerAppend(capitals, behind);
    LowerKeeps(behind);
    DottedLower(capitals);
    LastOf(Lower(capitals), behind);
  }

  lemma LastOf(a: string, b: string)
    requires a != ""
    ensures (a + b)[|a| - 1..] == [a[|a| - 1]] + b
  {
  }

  lemma {:induction false} NoBracketNotWithin(text: string, word: string)
    requires '<' !in text && word != "" && word[0] == '<'
    ensures NotWithin(text, word)
  {
    if text != "" {
      assert text[0] in text && (text + word)[0] == text[0];
      if |text + word| >= |word| {
        assert (text + word)[..|word|][0] == text[0];
      }
      NoBracketNotWithin(text[1..], word);
    }
  }

  lemma NotWithinOpening(c: char, name: string, word: string)
    requires c != '<' && name != "" && '<' !in name && |word| > 1 && word[0] == '<' && word[1] != name[0]
    ensures NotWithin([c] + ("<" + name), word)
  {
    var text, opening := [c] + ("<" + name), "<" + name;
    assert text[1..] == opening && opening[1..] == name;
    assert (text + word)[..|word|][0] == c;
    assert (opening + word)[..|word|][1] == name[0];
    NoBracketNotWithin(name, word);
  }

  /**
   * The input on which it matters: as many dotted capitals as the opening tag is
   * long, and one more, stand in front of an empty element. The closing tag is
   * looked for that far too far on, so that the search for its end begins one
   * character behind the element, and not in it: what is skipped depends on the
   * text behind.
   */
  lemma DottedCapitalsMove(capitals: string, name: string, word: string, rest: string)
    requires NameOfTag(name) && IsLowerAscii(name) && IsLowerAscii(rest) && word == "</" + name
    requires Dotted(capitals) && |capitals| == |name| + 3 && rest != ""
    ensures var html := capitals + (("<" + (name + ">")) + (word + (">" + rest)));
      var from := |capitals| + |name| + 2;
      var behind := TagEnd(rest[1..], None);
      && from + |name| + 3 < |html| && html[from + |name| + 3..] == rest
      && SkipBlocked(html, name, from - 1) == if behind.None? then |html| else from + |name| + 3 + behind.value + 2
  {
    var opening, closing := "<" + (name + ">"), word + (">" + rest);
    var html, from := capitals + (opening + closing), |capitals| + |name| + 2;
    DottedFinds(capitals, name, word, rest);
    DottedRest(capitals, name, word, rest);
    SkipFound(html, name, from, |name| + 3, rest);
  }

  lemma DottedFindsIn(capitals: string, opening: string, word: string, behind: string)
    requires Dotted(capitals) && |capitals| == |opening| + 1 && IsLowerAscii(opening + (word + behind))
    requires word != "" && NotWithin(['\U{0307}'] + opening, word)
    ensures var html := capitals + (opening + (word + behind));
      |Lower(html)| >= |html| && Find(Lower(html)[|capitals| + |opening|..], word) == Some(|opening| + 1)
  {
    BehindDotted(capitals, opening + (word + behind));
    FindBehind(['\U{0307}'] + opening, word, behind);
    Joined(['\U{0307}'], opening, word + behind);
  }

  lemma DottedFinds(capitals: string, name: string, word: string, rest: string)
    requires NameOfTag(name) && IsLowerAscii(name) && IsLowerAscii(rest) && word == "</" + name
    requires Dotted(capitals) && |capitals| == |name| + 3
    ensures var html := capitals + (("<" + (name + ">")) + (word + (">" + rest)));
      |Lower(html)| >= |html| && Find(Lower(html)[|capitals| + |name| + 2..], word) == Some(|name| + 3)
  {
    NameIsPlain(name);
    NotWithinOpening('\U{0307}', name + ">", word);
    AllSmall(name, word, rest);
    DottedFindsIn(capitals, "<" + (name + ">"), word, ">" + rest);
  }

  lemma AllSmall(name: string, word: string, rest: string)
    requires IsLowerAscii(name) && IsLowerAscii(rest) && word == "</" + name
    ensures IsLowerAscii(("<" + (name + ">")) + (word + (">" + rest)))
  {
  }

  lemma DottedRest(capitals: string, name: string, word: string, rest: string)
    requires |word| == |name| + 2
    ensures var html := capitals + (("<" + (name + ">")) + (word + (">" + rest)));
      html[|capitals| + |name| + 2 + |name| + 3..] == rest
  {
    var tag, closing := "<" + (name + ">"), word + ">";
    Joined(word, ">", rest);
    RestBehind(capitals + tag, closing, rest);
    Joined(capitals, tag, closing + rest);
  }

  lemma SkipFound(html: string, tag: string, from: nat, n: nat, rest: string)
    requires 0 < from && |Lower(html)| >= |html| && from <= |html|
    requires Find(Lower(html)[from..], "</" + tag) == Some(n) && from + n < |html| && html[from + n..] == rest
    ensures var behind := TagEnd(rest[1..], None);
      SkipBlocked(html, tag, from - 1) == if behind.None? then |html| else from + n + behind.value + 2
  {
    assert html[from + n + 1..] == rest[1..];
  }
}
