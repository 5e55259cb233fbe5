/**
 * The attributes of a tag, from pkg/common/src/proto-format.ts: reading them,
 * choosing the allowed ones, and writing those out.
 */
module Attributes {
  import opened Options
  import opened Text
  import opened Entities

  /** The lists of lines 22-199. */
  datatype Tables = Tables(
    allowed: set<string>, empty: set<string>, dropped: set<string>, everywhere: set<string>,
    ofTag: map<string, set<string>>, flags: set<string>, urls: set<string>)

  datatype Policy = General | NetworkFree

  /** What a run of the sanitizer is given: the lists, the policy, and the cleaner of a style attribute. */
  datatype Rules = Rules(tables: Tables, policy: Policy, style: string -> Option<string>)

  datatype Attribute = Attribute(name: string, value: string, hasValue: bool)

  /** An attribute to write out: a bare name, or a name and a decoded value. */
  datatype Kept = Flag(name: string) | Pair(name: string, value: string)

  predicate DataNameChar(c: char) {
    'a' <= c <= 'z' || IsDigit(c) || c == '_' || c == '.' || c == ':' || c == '-'
  }

  /** `aria-` or `data-` and at least one more character. */
  predicate DataName(name: string) {
    |name| > 5 && (name[..5] == "aria-" || name[..5] == "data-")
    && forall i :: 5 <= i < |name| ==> DataNameChar(name[i])
  }

  predicate AllowedAttribute(t: Tables, tag: string, name: string) {
    name in t.everywhere || (tag in t.ofTag && name in t.ofTag[tag]) || DataName(name)
  }

  predicate Active(name: string) {
    (|name| >= 2 && name[..2] == "on") || name == "formaction" || name == "srcdoc" || name == "xlink:href"
  }

  // Links.

  /** The characters a browser would see of a scheme: no controls, no blanks. */
  function Probe(s: string): string {
    if s == "" then ""
    else
      var n := s[0] as int;
      (if n > 0x20 && (n < 0x7F || n > 0x9F) then [s[0]] else "") + Probe(s[1..])
  }

  function Fold(c: char): char {
    if 'A' <= c <= 'Z' then (c as int + 32) as char else c
  }

  /** Begins with the word, its letters in either case. */
  predicate Begins(s: string, word: string) {
    |s| >= |word| && forall i :: 0 <= i < |word| ==> Fold(s[i]) == word[i]
  }

  predicate ImageData(probe: string) {
    exists kind, coding ::
      kind in ["png", "jpg", "jpeg", "gif", "webp"] && coding in ["", ";base64"]
      && Begins(probe, "data:image/" + kind + coding + ",")
  }

  predicate SchemeChar(c: char) {
    IsLetter(c) || IsDigit(c) || c == '+' || c == '.' || c == '-'
  }

  function SchemeRun(s: string): (n: nat)
    ensures n <= |s|
  {
    if s == "" || !SchemeChar(s[0]) then 0 else 1 + SchemeRun(s[1..])
  }

  /** The scheme before the first colon, if there is one. */
  function SchemeOf(probe: string): Option<string> {
    var n := SchemeRun(probe);
    if n > 0 && IsLetter(probe[0]) && n < |probe| && probe[n] == ':' then Some(Lower(probe[..n])) else None
  }

  predicate GoodLink(trimmed: string, tag: string, name: string, policy: Policy) {
    var probe := Probe(trimmed);
    if Begins(probe, "data:") then tag == "img" && name == "src" && ImageData(probe)
    else if policy.NetworkFree? then name == "href" && probe != "" && probe[0] == '#'
    else
      var scheme := SchemeOf(probe);
      scheme.None? || scheme.value == "http" || scheme.value == "https"
  }

  function SanitizeUrl(value: string, tag: string, name: string, policy: Policy): Option<string> {
    var trimmed := Trim(value);
    if GoodLink(trimmed, tag, name, policy) then Some(trimmed) else None
  }

  /** A link that passes is trimmed, and passes again as it is. */
  lemma LinkPassesAgain(value: string, tag: string, name: string, policy: Policy)
    ensures var u := SanitizeUrl(value, tag, name, policy); u.Some? ==> SanitizeUrl(u.value, tag, name, policy) == u
  {
    TrimAgain(value);
  }

  // Reading the source of a tag.

  predicate NameChar(c: char) {
    !IsSpace(c) && c != '=' && c != '/' && c != '>'
  }

  function SlashRun(s: string): (n: nat)
    ensures n <= |s|
  {
    if s == "" || !(IsSpace(s[0]) || s[0] == '/') then 0 else 1 + SlashRun(s[1..])
  }

  function NameRun(s: string): (n: nat)
    ensures n <= |s|
  {
    if s == "" || !NameChar(s[0]) then 0 else 1 + NameRun(s[1..])
  }

  function ValueRun(s: string): (n: nat)
    ensures n <= |s|
  {
    if s == "" || IsSpace(s[0]) || s[0] == '>' then 0 else 1 + ValueRun(s[1..])
  }

  function QuoteRun(s: string, quote: char): (n: nat)
    ensures n <= |s|
  {
    if s == "" || s[0] == quote then 0 else 1 + QuoteRun(s[1..], quote)
  }

  /** A value behind the sign, and what is left. */
  function ValueAt(s: string): (r: (string, string))
    ensures |r.1| <= |s|
  {
    if s != "" && IsQuote(s[0]) then
      var n := 1 + QuoteRun(s[1..], s[0]);
      (s[1..n], if n < |s| then s[n + 1..] else "")
    else (s[..ValueRun(s)], s[ValueRun(s)..])
  }

  /** Behind the name and the white space after it: a value or none. */
  function AttributeFrom(name: string, rest: string): (r: (Attribute, string))
    ensures |r.1| <= |rest|
  {
    if rest != "" && rest[0] == '=' then
      var v := ValueAt(TrimStart(rest[1..]));
      (Attribute(name, v.0, true), v.1)
    else (Attribute(name, "", false), rest)
  }

  function AttributeAt(s: string, n: nat): (r: (Attribute, string))
    requires 0 < n <= |s|
    ensures |r.1| < |s|
  {
    AttributeFrom(Lower(s[..n]), TrimStart(s[n..]))
  }

  function Parse(source: string): seq<Attribute>
    decreases |source|
  {
    var s := source[SlashRun(source)..];
    if s == "" then []
    else
      var n := NameRun(s);
      if n == 0 then Parse(s[1..])
      else
        var r := AttributeAt(s, n);
        [r.0] + Parse(r.1)
  }

  // Choosing.

  /** What becomes of an attribute that is allowed and not seen before. */
  function KeepOne(rules: Rules, tag: string, a: Attribute): Option<Kept> {
    if a.name in rules.tables.flags then Some(Flag(a.name))
    else
      var styled := if a.name == "style" then rules.style(DecodeHtmlEntities(a.value)) else Some(DecodeHtmlEntities(a.value));
      var linked := if styled.Some? && a.name in rules.tables.urls then SanitizeUrl(styled.value, tag, a.name, rules.policy) else styled;
      if linked.None? || (tag == "input" && a.name == "type" && Lower(linked.value) == "image") then None
      else Some(Pair(a.name, if a.hasValue then linked.value else ""))
  }

  predicate Passes(rules: Rules, tag: string, seen: set<string>, name: string) {
    name !in seen && !Active(name) && AllowedAttribute(rules.tables, tag, name)
  }

  function Keep(rules: Rules, tag: string, attributes: seq<Attribute>, seen: set<string>): seq<Kept> {
    if attributes == [] then []
    else
      var a := attributes[0];
      if !Passes(rules, tag, seen, a.name) then Keep(rules, tag, attributes[1..], seen)
      else
        var kept := KeepOne(rules, tag, a);
        (if kept.Some? then [kept.value] else []) + Keep(rules, tag, attributes[1..], seen + {a.name})
  }

  // Writing.

  function RenderOne(k: Kept): string {
    match k
    case Flag(name) => name
    case Pair(name, value) => name + "=\"" + EscapeAttribute(value) + "\""
  }

  function RenderAll(kept: seq<Kept>): string {
    if kept == [] then "" else " " + RenderOne(kept[0]) + RenderAll(kept[1..])
  }

  // Written out and read again.

  /** A name that reading takes as it is, and that ends neither a tag nor a string. */
  predicate SafeName(name: string) {
    name != "" && IsLowerAscii(name) && forall i :: 0 <= i < |name| ==> NameChar(name[i]) && !IsQuote(name[i]) && name[i] != '<'
  }

  predicate SafeNames(names: set<string>) {
    forall name :: name in names ==> SafeName(name)
  }

  /** What the lists must be for the theorems: small letters and digits, no tag both allowed and dropped. */
  ghost predicate GoodAttributeTables(t: Tables) {
    && SafeNames(t.everywhere) && (forall tag :: tag in t.ofTag ==> SafeNames(t.ofTag[tag]))
    && "style" !in t.urls && "style" !in t.flags
  }

  lemma AllowedIsSafe(t: Tables, tag: string, name: string)
    requires GoodAttributeTables(t) && AllowedAttribute(t, tag, name)
    ensures SafeName(name)
  {
    if name !in t.everywhere && !(tag in t.ofTag && name in t.ofTag[tag]) {
      forall i | 0 <= i < |name| ensures name[i] < '\U{0080}' && !('A' <= name[i] <= 'Z') && NameChar(name[i]) && !IsQuote(name[i]) && name[i] != '<' {
        if i < 5 {
          assert name[i] == name[..5][i];
        }
      }
    }
  }

  /** The attribute that reading makes of a kept one. */
  function AttributeOf(k: Kept): Attribute {
    match k
    case Flag(name) => Attribute(name, "", false)
    case Pair(name, value) => Attribute(name, EscapeAttribute(value), true)
  }

  function AttributesOf(kept: seq<Kept>): seq<Attribute> {
    if kept == [] then [] else [AttributeOf(kept[0])] + AttributesOf(kept[1..])
  }

  lemma ParseSpace(s: string)
    ensures Parse(" " + s) == Parse(s)
  {
    var t := " " + s;
    assert t[1..] == s;
    assert t[SlashRun(t)..] == s[SlashRun(s)..];
  }

  lemma {:induction false} NameRunOf(name: string, rest: string)
    requires (forall i :: 0 <= i < |name| ==> NameChar(name[i])) && (rest == "" || !NameChar(rest[0]))
    ensures NameRun(name + rest) == |name|
  {
    if name == "" {
      assert name + rest == rest;
    } else {
      NameRunOf(name[1..], rest);
      assert (name + rest)[0] == name[0] && (name + rest)[1..] == name[1..] + rest;
    }
  }

  lemma {:induction false} QuoteRunOf(value: string, quote: char, rest: string)
    requires forall i :: 0 <= i < |value| ==> value[i] != quote
    ensures QuoteRun(value + ([quote] + rest), quote) == |value|
  {
    if value == "" {
      assert value + ([quote] + rest) == [quote] + rest;
    } else {
      QuoteRunOf(value[1..], quote, rest);
      assert (value + ([quote] + rest))[0] == value[0] && (value + ([quote] + rest))[1..] == value[1..] + ([quote] + rest);
    }
  }

  lemma QuotedAt(value: string, rest: string)
    requires forall i :: 0 <= i < |value| ==> value[i] != '"'
    ensures ValueAt("\"" + (value + ("\"" + rest))) == (value, rest)
  {
    var s := "\"" + (value + ("\"" + rest));
    QuoteRunOf(value, '"', rest);
    assert s[1..] == value + ("\"" + rest) && s[0] == '"';
    assert s[1..1 + |value|] == value && s[|value| + 2..] == rest;
  }

  lemma NamedAt(name: string, tail: string)
    requires SafeName(name) && (tail == "" || !NameChar(tail[0]))
    ensures NameRun(name + tail) == |name| && SlashRun(name + tail) == 0
    ensures (name + tail)[|name|..] == tail && Lower((name + tail)[..|name|]) == name
  {
    NameRunOf(name, tail);
    LowerKeeps(name);
    assert (name + tail)[..|name|] == name;
    assert NameChar(name[0]) && (name + tail)[0] == name[0];
  }

  lemma PairReads(name: string, value: string, rest: string)
    requires SafeName(name) && forall i :: 0 <= i < |value| ==> value[i] != '"'
    ensures Parse(name + ("=" + ("\"" + (value + ("\"" + rest))))) == [Attribute(name, value, true)] + Parse(rest)
  {
    var quoted := "\"" + (value + ("\"" + rest));
    var tail := "=" + quoted;
    var s := name + tail;
    NamedAt(name, tail);
    QuotedAt(value, rest);
    assert s[0..] == s && tail[0..] == tail && tail[1..] == quoted && quoted[0..] == quoted;
    assert SpaceRun(tail) == 0 && SpaceRun(quoted) == 0;
    assert AttributeAt(s, |name|) == (Attribute(name, value, true), rest);
  }

  lemma FlagReads(name: string, rest: string)
    requires SafeName(name) && (rest == "" || (|rest| > 1 && rest[0] == ' ' && NameChar(rest[1])))
    ensures Parse(name + rest) == [Attribute(name, "", false)] + Parse(rest)
  {
    var s := name + rest;
    NamedAt(name, rest);
    assert s[0..] == s;
    if rest == "" {
      assert AttributeAt(s, |name|) == (Attribute(name, "", false), "");
    } else {
      var next := rest[1..];
      assert SpaceRun(next) == 0 && SpaceRun(rest) == 1;
      assert AttributeAt(s, |name|) == (Attribute(name, "", false), next);
      ParseSpace(next);
      assert rest == " " + next;
    }
  }

  /** The attributes written out begin with a blank and a name, if there are any. */
  lemma RenderStart(kept: seq<Kept>)
    requires forall i :: 0 <= i < |kept| ==> SafeName(kept[i].name)
    ensures kept == [] || (|RenderAll(kept)| > 1 && RenderAll(kept)[0] == ' ' && NameChar(RenderAll(kept)[1]))
  {
    if kept != [] {
      var name, one := kept[0].name, RenderOne(kept[0]);
      assert SafeName(name) && |one| >= |name| && one[0] == name[0];
      assert RenderAll(kept)[1] == one[0];
    }
  }

  lemma PairShape(name: string, value: string, rest: string)
    ensures name + "=\"" + value + "\"" + rest == name + ("=" + ("\"" + (value + ("\"" + rest))))
  {
  }

  lemma OneReads(k: Kept, rest: string)
    requires SafeName(k.name) && (rest == "" || (|rest| > 1 && rest[0] == ' ' && NameChar(rest[1])))
    ensures Parse(RenderOne(k) + rest) == [AttributeOf(k)] + Parse(rest)
  {
    match k {
      case Flag(name) => FlagReads(name, rest);
      case Pair(name, value) =>
        var esc := EscapeAttribute(value);
        EscapeIsEach(value);
        EscapedIsPlain(value);
        PairShape(name, esc, rest);
        PairReads(name, esc, rest);
    }
  }

  /** Attributes written out are read as what they were. */
  lemma {:induction false} ParseRendered(kept: seq<Kept>)
    requires forall i :: 0 <= i < |kept| ==> SafeName(kept[i].name)
    ensures Parse(RenderAll(kept)) == AttributesOf(kept)
  {
    if kept != [] {
      var rest := RenderAll(kept[1..]);
      ParseRendered(kept[1..]);
      RenderStart(kept[1..]);
      OneReads(kept[0], rest);
      ParseSpace(RenderOne(kept[0]) + rest);
      assert RenderAll(kept) == " " + (RenderOne(kept[0]) + rest);
    }
  }

  // Chosen again.

  /** A kept attribute that its own reading would give again. */
  predicate Settled(rules: Rules, tag: string, k: Kept) {
    !Active(k.name) && AllowedAttribute(rules.tables, tag, k.name) && KeepOne(rules, tag, AttributeOf(k)) == Some(k)
  }

  /** A style that the cleaner would leave alone. */
  predicate StyleRests(rules: Rules, k: Kept) {
    k.Pair? && k.name == "style" ==> rules.style(k.value) == Some(k.value)
  }

  lemma KeptSettles(rules: Rules, tag: string, a: Attribute)
    requires GoodAttributeTables(rules.tables) && (a.hasValue || a.value == "")
    requires KeepOne(rules, tag, a).Some? && StyleRests(rules, KeepOne(rules, tag, a).value)
    ensures KeepOne(rules, tag, AttributeOf(KeepOne(rules, tag, a).value)) == KeepOne(rules, tag, a)
  {
    var k := KeepOne(rules, tag, a).value;
    if k.Pair? {
      DecodeUndoesEscape(k.value);
      if a.hasValue {
        if a.name in rules.tables.urls {
          LinkPassesAgain(DecodeHtmlEntities(a.value), tag, a.name, rules.policy);
        }
      } else {
        assert DecodeHtmlEntities("") == "";
        assert Trim("") == "";
        assert Lower("") == "";
      }
    }
  }

  predicate DistinctNames(kept: seq<Kept>) {
    forall i, j :: 0 <= i < j < |kept| ==> kept[i].name != kept[j].name
  }

  /** What is kept is allowed, in the order of reading, each name once. */
  lemma {:induction false} KeepShape(rules: Rules, tag: string, attributes: seq<Attribute>, seen: set<string>)
    ensures var kept := Keep(rules, tag, attributes, seen);
      && DistinctNames(kept)
      && forall i :: 0 <= i < |kept| ==> kept[i].name !in seen && !Active(kept[i].name) && AllowedAttribute(rules.tables, tag, kept[i].name)
    decreases |attributes|
  {
    if attributes != [] {
      var a := attributes[0];
      if Passes(rules, tag, seen, a.name) {
        KeepShape(rules, tag, attributes[1..], seen + {a.name});
      } else {
        KeepShape(rules, tag, attributes[1..], seen);
      }
    }
  }

  lemma {:induction false} KeepSettles(rules: Rules, tag: string, attributes: seq<Attribute>, seen: set<string>)
    requires GoodAttributeTables(rules.tables)
    requires forall i :: 0 <= i < |attributes| ==> attributes[i].hasValue || attributes[i].value == ""
    requires forall k :: k in Keep(rules, tag, attributes, seen) ==> StyleRests(rules, k)
    ensures forall k :: k in Keep(rules, tag, attributes, seen) ==> Settled(rules, tag, k)
    decreases |attributes|
  {
    if attributes != [] {
      var a := attributes[0];
      if Passes(rules, tag, seen, a.name) {
        var rest := Keep(rules, tag, attributes[1..], seen + {a.name});
        assert forall k :: k in rest ==> k in Keep(rules, tag, attributes, seen);
        KeepSettles(rules, tag, attributes[1..], seen + {a.name});
        if KeepOne(rules, tag, a).Some? {
          assert KeepOne(rules, tag, a).value in Keep(rules, tag, attributes, seen);
          KeptSettles(rules, tag, a);
        }
      } else {
        KeepSettles(rules, tag, attributes[1..], seen);
      }
    }
  }

  lemma KeepFirst(rules: Rules, tag: string, k: Kept, rest: seq<Attribute>, seen: set<string>)
    requires k.name !in seen && Settled(rules, tag, k)
    ensures Keep(rules, tag, [AttributeOf(k)] + rest, seen) == [k] + Keep(rules, tag, rest, seen + {k.name})
  {
    var all := [AttributeOf(k)] + rest;
    assert all[1..] == rest && all[0].name == k.name;
  }

  /** Settled attributes with different names are all kept again, as they are. */
  lemma {:induction false} KeepAgain(rules: Rules, tag: string, kept: seq<Kept>, seen: set<string>)
    requires DistinctNames(kept)
    requires forall i :: 0 <= i < |kept| ==> kept[i].name !in seen && Settled(rules, tag, kept[i])
    ensures Keep(rules, tag, AttributesOf(kept), seen) == kept
    decreases |kept|
  {
    if kept != [] {
      KeepAgain(rules, tag, kept[1..], seen + {kept[0].name});
      KeepFirst(rules, tag, kept[0], AttributesOf(kept[1..]), seen);
      assert kept == [kept[0]] + kept[1..];
    }
  }

  lemma {:induction false} ParsedValues(source: string)
    ensures forall i :: 0 <= i < |Parse(source)| ==> Parse(source)[i].hasValue || Parse(source)[i].value == ""
    decreases |source|
  {
    var s := source[SlashRun(source)..];
    if s != "" {
      var n := NameRun(s);
      if n == 0 {
        ParsedValues(s[1..]);
      } else {
        ParsedValues(AttributeAt(s, n).1);
      }
    }
  }

  function Sanitized(rules: Rules, tag: string, source: string): seq<Kept> {
    Keep(rules, tag, Parse(source), {})
  }

  /** The attributes of a tag, cleaned, written out, and cleaned again, stay. */
  lemma SanitizedAgain(rules: Rules, tag: string, source: string)
    requires GoodAttributeTables(rules.tables)
    requires forall k :: k in Sanitized(rules, tag, source) ==> StyleRests(rules, k)
    ensures Sanitized(rules, tag, RenderAll(Sanitized(rules, tag, source))) == Sanitized(rules, tag, source)
  {
    var kept := Sanitized(rules, tag, source);
    ParsedValues(source);
    KeepShape(rules, tag, Parse(source), {});
    KeepSettles(rules, tag, Parse(source), {});
    forall i | 0 <= i < |kept| ensures SafeName(kept[i].name) && Settled(rules, tag, kept[i]) {
      AllowedIsSafe(rules.tables, tag, kept[i].name);
      assert kept[i] in kept;
    }
    ParseRendered(kept);
    KeepAgain(rules, tag, kept, {});
  }
}
