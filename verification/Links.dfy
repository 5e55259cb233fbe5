/**
 * Which attributes of a tag stay, and which links: said of the attributes as
 * they stand in the source, beside the scanner that chooses them.
 */
module Links {
  import opened Options
  import opened Text
  import opened Entities
  import opened Attributes
  import opened Html

  /** The characters left out before a scheme is looked for: controls and the blank. */
  predicate Unseen(c: char) {
    c <= ' ' || '\U{007F}' <= c <= '\U{009F}'
  }

  function Visible(s: string): string {
    if s == "" then "" else if Unseen(s[0]) then Visible(s[1..]) else [s[0]] + Visible(s[1..])
  }

  lemma {:induction false} ProbeIsVisible(s: string)
    ensures Probe(s) == Visible(s)
  {
    if s != "" {
      ProbeIsVisible(s[1..]);
    }
  }

  predicate SpelledStart(s: string, word: string) {
    |s| >= |word| && Spells(s[..|word|], word)
  }

  lemma BeginsIsSpelled(s: string, word: string)
    requires forall i :: 0 <= i < |word| ==> !('A' <= word[i] <= 'Z')
    ensures Begins(s, word) <==> SpelledStart(s, word)
  {
    if |s| >= |word| {
      var t := s[..|word|];
      forall i | 0 <= i < |word|
        ensures t[i] == s[i]
        ensures Fold(s[i]) == word[i] <==> s[i] == word[i] || ('a' <= word[i] <= 'z' && s[i] as int + 32 == word[i] as int)
      {
      }
    }
  }

  // ----- A link -----

  predicate InScheme(c: char) {
    'a' <= c <= 'z' || 'A' <= c <= 'Z' || '0' <= c <= '9' || c in "+.-"
  }

  /** A letter and scheme characters as far as a colon. */
  predicate NamesScheme(v: string, n: nat) {
    0 < n < |v| && v[n] == ':' && !('0' <= v[0] <= '9') && v[0] !in "+.-" && forall i :: 0 <= i < n ==> InScheme(v[i])
  }

  /** It names no scheme, or that of the web. */
  ghost predicate OfTheWeb(v: string) {
    forall n: nat :: NamesScheme(v, n) ==> Spells(v[..n], "http") || Spells(v[..n], "https")
  }

  function ImageStarts(): seq<string> {
    ["data:image/png,", "data:image/jpg,", "data:image/jpeg,", "data:image/gif,", "data:image/webp,",
     "data:image/png;base64,", "data:image/jpg;base64,", "data:image/jpeg;base64,", "data:image/gif;base64,", "data:image/webp;base64,"]
  }

  /** An image that is its own data. */
  predicate DataOfImage(v: string) {
    exists start :: start in ImageStarts() && SpelledStart(v, start)
  }

  /** What a link may be, its controls and blanks left out: an image's data in an image, a place in the page, or an address of the web. */
  ghost predicate LinkAllowed(v: string, tag: string, name: string, policy: Policy) {
    || (tag == "img" && name == "src" && DataOfImage(v))
    || (policy.NetworkFree? && name == "href" && v != "" && v[0] == '#')
    || (policy.General? && OfTheWeb(v))
  }

  lemma {:induction false} SchemeRunIs(s: string)
    ensures forall i :: 0 <= i < SchemeRun(s) ==> InScheme(s[i])
    ensures SchemeRun(s) < |s| ==> !InScheme(s[SchemeRun(s)])
  {
    if s != "" && SchemeChar(s[0]) {
      SchemeRunIs(s[1..]);
    }
  }

  /** A named scheme ends where the run of its characters does. */
  lemma SchemeEnds(v: string, n: nat)
    requires NamesScheme(v, n)
    ensures n == SchemeRun(v) && SchemeOf(v) == Some(Lower(v[..n]))
  {
    SchemeRunIs(v);
    assert !InScheme(':');
    assert IsLetter(v[0]);
  }

  lemma WebSchemeIff(v: string)
    ensures OfTheWeb(v) <==> SchemeOf(v).None? || SchemeOf(v).value == "http" || SchemeOf(v).value == "https"
  {
    SchemeRunIs(v);
    forall n: nat | NamesScheme(v, n)
      ensures SchemeOf(v) == Some(Lower(v[..n]))
      ensures Lower(v[..n]) == "http" <==> Spells(v[..n], "http")
      ensures Lower(v[..n]) == "https" <==> Spells(v[..n], "https")
    {
      SchemeEnds(v, n);
      LowerIsSpelled(v[..n], "http");
      LowerIsSpelled(v[..n], "https");
    }
    if SchemeOf(v).Some? {
      assert NamesScheme(v, SchemeRun(v));
    }
  }

  lemma DataNamesScheme(v: string)
    requires SpelledStart(v, "data:")
    ensures !OfTheWeb(v)
  {
    var start := v[..5];
    assert Spells(start, "data:");
    assert forall i :: 0 <= i < 5 ==> v[i] == start[i];
    assert NamesScheme(v, 4);
    assert v[..4][0] == v[0];
    assert !Spells(v[..4], "http") && !Spells(v[..4], "https");
  }

  function ImageStart(kind: string, coding: string): string {
    "data:image/" + kind + coding + ","
  }

  lemma ImageStartsAre()
    ensures ImageStart("png", "") == "data:image/png," && ImageStart("png", ";base64") == "data:image/png;base64,"
    ensures ImageStart("jpg", "") == "data:image/jpg," && ImageStart("jpg", ";base64") == "data:image/jpg;base64,"
    ensures ImageStart("jpeg", "") == "data:image/jpeg," && ImageStart("jpeg", ";base64") == "data:image/jpeg;base64,"
    ensures ImageStart("gif", "") == "data:image/gif," && ImageStart("gif", ";base64") == "data:image/gif;base64,"
    ensures ImageStart("webp", "") == "data:image/webp," && ImageStart("webp", ";base64") == "data:image/webp;base64,"
  {
  }

  /** One of the ten starts. */
  predicate IsImageStart(start: string) {
    exists kind, coding :: kind in ["png", "jpg", "jpeg", "gif", "webp"] && coding in ["", ";base64"] && start == ImageStart(kind, coding)
  }

  lemma ImageStartIff(start: string)
    ensures start in ImageStarts() <==> IsImageStart(start)
  {
    ImageStartsAre();
  }

  lemma ImageDataIff(v: string)
    ensures ImageData(v) <==> DataOfImage(v)
  {
    forall start | start in ImageStarts()
      ensures Begins(v, start) <==> SpelledStart(v, start)
    {
      BeginsIsSpelled(v, start);
    }
    if ImageData(v) {
      var kind, coding :| kind in ["png", "jpg", "jpeg", "gif", "webp"] && coding in ["", ";base64"]
        && Begins(v, "data:image/" + kind + coding + ",");
      ImageStartIff(ImageStart(kind, coding));
    }
    if DataOfImage(v) {
      var start :| start in ImageStarts() && SpelledStart(v, start);
      ImageStartIff(start);
      var kind, coding :| kind in ["png", "jpg", "jpeg", "gif", "webp"] && coding in ["", ";base64"] && start == ImageStart(kind, coding);
      assert Begins(v, "data:image/" + kind + coding + ",");
    }
  }

  lemma ImageStartIsData(start: string)
    requires start in ImageStarts()
    ensures |start| >= 5 && start[0] == 'd' && start[1] == 'a' && start[2] == 't' && start[3] == 'a' && start[4] == ':'
  {
  }

  lemma ImageIsData(v: string)
    requires DataOfImage(v)
    ensures SpelledStart(v, "data:")
  {
    var start :| start in ImageStarts() && SpelledStart(v, start);
    ImageStartIsData(start);
    StartOfStart(v, start, "data:");
  }

  lemma StartOfStart(v: string, start: string, word: string)
    requires SpelledStart(v, start) && |word| <= |start| && forall i :: 0 <= i < |word| ==> start[i] == word[i]
    ensures SpelledStart(v, word)
  {
    var long, short := v[..|start|], v[..|word|];
    assert forall i :: 0 <= i < |word| ==> short[i] == long[i] && start[i] == word[i];
  }

  /** A link stays if and only if it is allowed, and it stays trimmed. */
  lemma LinkStaysIff(value: string, tag: string, name: string, policy: Policy)
    ensures var u := SanitizeUrl(value, tag, name, policy);
      && (u.Some? <==> LinkAllowed(Visible(Trim(value)), tag, name, policy))
      && (u.Some? ==> u.value == Trim(value))
  {
    var v := Visible(Trim(value));
    ProbeIsVisible(Trim(value));
    BeginsIsSpelled(v, "data:");
    ImageDataIff(v);
    WebSchemeIff(v);
    if SpelledStart(v, "data:") {
      DataNamesScheme(v);
      assert v[0] == v[..5][0];
    }
    if DataOfImage(v) {
      ImageIsData(v);
    }
  }

  // ----- An attribute -----

  /** No handler of an event, and none of the three that load or run something. */
  predicate Inert(name: string) {
    !(|name| >= 2 && name[0] == 'o' && name[1] == 'n') && name !in ["formaction", "srcdoc", "xlink:href"]
  }

  /** The name after `aria-` or `data-`. */
  predicate NamedAfter(name: string, rest: string) {
    && rest != "" && (name == "aria-" + rest || name == "data-" + rest)
    && forall i :: 0 <= i < |rest| ==> 'a' <= rest[i] <= 'z' || '0' <= rest[i] <= '9' || rest[i] in "_.:-"
  }

  /** Listed for every tag or for this one, or named after `aria-` or `data-`. */
  ghost predicate Listed(t: Tables, tag: string, name: string) {
    || name in t.everywhere
    || (tag in t.ofTag && name in t.ofTag[tag])
    || exists rest :: NamedAfter(name, rest)
  }

  lemma InertIff(name: string)
    ensures Inert(name) <==> !Active(name)
  {
    if |name| >= 2 {
      assert name[..2] == "on" <==> name[0] == 'o' && name[1] == 'n';
    }
  }

  lemma NamedIff(name: string)
    ensures DataName(name) <==> exists rest :: NamedAfter(name, rest)
  {
    if DataName(name) {
      var rest := name[5..];
      assert name == name[..5] + rest;
      forall i | 0 <= i < |rest|
        ensures 'a' <= rest[i] <= 'z' || '0' <= rest[i] <= '9' || rest[i] in "_.:-"
      {
        assert rest[i] == name[i + 5] && DataNameChar(name[i + 5]);
      }
      assert NamedAfter(name, rest);
    }
    if rest :| NamedAfter(name, rest) {
      assert name[..5] == "aria-" || name[..5] == "data-";
      forall i | 5 <= i < |name|
        ensures DataNameChar(name[i])
      {
        assert name[i] == rest[i - 5];
      }
    }
  }

  lemma ListedIff(t: Tables, tag: string, name: string)
    ensures Listed(t, tag, name) <==> AllowedAttribute(t, tag, name)
  {
    NamedIff(name);
  }

  /** The value of an attribute: decoded, a style cleaned, a link trimmed. */
  function ValueOf(rules: Rules, a: Attribute): Option<string> {
    var decoded := DecodeHtmlEntities(a.value);
    if a.name == "style" && rules.style(decoded).None? then None
    else
      var value := if a.name == "style" then rules.style(decoded).value else decoded;
      Some(if a.name in rules.tables.urls then Trim(value) else value)
  }

  /** It may be written: a link is allowed, and no input is an image. */
  ghost predicate Writable(rules: Rules, tag: string, name: string, value: string) {
    && (name in rules.tables.urls ==> LinkAllowed(Visible(value), tag, name, rules.policy))
    && !(tag == "input" && name == "type" && Spells(value, "image"))
  }

  /** What an attribute of a tag becomes: a bare name if it is a flag, else its value if that may be written. */
  ghost predicate Becomes(rules: Rules, tag: string, a: Attribute, k: Kept) {
    if a.name in rules.tables.flags then k == Flag(a.name)
    else
      var value := ValueOf(rules, a);
      value.Some? && Writable(rules, tag, a.name, value.value) && k == Pair(a.name, if a.hasValue then value.value else "")
  }

  lemma BecomesIff(rules: Rules, tag: string, a: Attribute, k: Kept)
    ensures KeepOne(rules, tag, a) == Some(k) <==> Becomes(rules, tag, a, k)
  {
    if a.name !in rules.tables.flags {
      var decoded := DecodeHtmlEntities(a.value);
      var styled := if a.name == "style" then rules.style(decoded) else Some(decoded);
      if styled.Some? {
        LinkStaysIff(styled.value, tag, a.name, rules.policy);
        LowerIsSpelled(ValueOf(rules, a).value, "image");
      }
    }
  }

  // ----- All the attributes of a tag -----

  /** The first attribute of its name. */
  predicate First(attributes: seq<Attribute>, i: nat)
    requires i < |attributes|
  {
    forall j :: 0 <= j < i ==> attributes[j].name != attributes[i].name
  }

  /** Attribute i is the first of its name, one that may stay, and becomes k. */
  ghost predicate Gives(rules: Rules, tag: string, attributes: seq<Attribute>, i: nat, k: Kept)
    requires i < |attributes|
  {
    var a := attributes[i];
    First(attributes, i) && Inert(a.name) && Listed(rules.tables, tag, a.name) && Becomes(rules, tag, a, k)
  }

  lemma {:induction false} KeptBy(rules: Rules, tag: string, attributes: seq<Attribute>, seen: set<string>, k: Kept) returns (i: nat)
    requires k in Keep(rules, tag, attributes, seen)
    ensures i < |attributes| && attributes[i].name !in seen && Gives(rules, tag, attributes, i, k)
    decreases |attributes|
  {
    var a, more := attributes[0], attributes[1..];
    ListedIff(rules.tables, tag, a.name);
    InertIff(a.name);
    BecomesIff(rules, tag, a, k);
    if Passes(rules, tag, seen, a.name) && KeepOne(rules, tag, a) == Some(k) {
      return 0;
    }
    var next := if Passes(rules, tag, seen, a.name) then seen + {a.name} else seen;
    var j := KeptBy(rules, tag, more, next, k);
    assert more[j] == attributes[j + 1];
    FirstAmong(attributes, j + 1);
    i := j + 1;
  }

  lemma FirstAmong(attributes: seq<Attribute>, i: nat)
    requires 0 < i < |attributes|
    ensures First(attributes, i) <==> attributes[0].name != attributes[i].name && First(attributes[1..], i - 1)
  {
    assert forall j :: 1 <= j < |attributes| ==> attributes[j] == attributes[1..][j - 1];
  }

  lemma {:induction false} GivenIsKept(rules: Rules, tag: string, attributes: seq<Attribute>, seen: set<string>, i: nat, k: Kept)
    requires i < |attributes| && attributes[i].name !in seen && Gives(rules, tag, attributes, i, k)
    ensures k in Keep(rules, tag, attributes, seen)
    decreases |attributes|
  {
    var a, more := attributes[0], attributes[1..];
    ListedIff(rules.tables, tag, attributes[i].name);
    InertIff(attributes[i].name);
    if i == 0 {
      BecomesIff(rules, tag, a, k);
    } else {
      FirstAmong(attributes, i);
      GivenIsKept(rules, tag, more, if Passes(rules, tag, seen, a.name) then seen + {a.name} else seen, i - 1, k);
    }
  }

  /** What stays of a tag's attributes is what the first one of each name that may stay becomes, and nothing else. */
  lemma WhatIsKept(rules: Rules, tag: string, attributes: seq<Attribute>, k: Kept)
    ensures k in Keep(rules, tag, attributes, {}) <==>
      exists i: nat :: i < |attributes| && Gives(rules, tag, attributes, i, k)
  {
    if k in Keep(rules, tag, attributes, {}) {
      var i := KeptBy(rules, tag, attributes, {}, k);
      assert Gives(rules, tag, attributes, i, k);
    }
    if i: nat :| i < |attributes| && Gives(rules, tag, attributes, i, k) {
      GivenIsKept(rules, tag, attributes, {}, i, k);
    }
  }

  /**
   * In every tag that the sanitizer puts out: no attribute is a handler or one
   * that loads something by itself, each is listed for the tag, every link is
   * allowed, and no input is an image.
   */
  lemma TagsAreSafe(rules: Rules, html: string, p: Piece, k: Kept)
    requires GoodTables(rules.tables) && p in Scan(rules, html, 0) && p.Open? && k in p.kept
    ensures Inert(k.name) && Listed(rules.tables, p.tag, k.name)
    ensures k.Pair? ==> Writable(rules, p.tag, k.name, k.value)
  {
    ScanShape(rules, html, 0);
    assert GoodPiece(rules, p);
    var source :| p.kept == Sanitized(rules, p.tag, source);
    WhatIsKept(rules, p.tag, Parse(source), k);
    ParsedValues(source);
    var i: nat :| i < |Parse(source)| && Gives(rules, p.tag, Parse(source), i, k);
    GivenIsWritable(rules, p.tag, Parse(source)[i], k);
  }

  lemma GivenIsWritable(rules: Rules, tag: string, a: Attribute, k: Kept)
    requires GoodTables(rules.tables) && (a.hasValue || a.value == "") && Becomes(rules, tag, a, k)
    ensures k.name == a.name && (k.Pair? ==> Writable(rules, tag, k.name, k.value))
  {
    if k.Pair? && !a.hasValue {
      assert DecodeHtmlEntities("") == "" && Trim("") == "" && !Spells("", "image");
    }
  }
}
