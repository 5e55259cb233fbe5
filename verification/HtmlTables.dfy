/**
 * The lists of pkg/common/src/proto-format.ts, lines 22-199, and that they are
 * fit for the theorems about the sanitizer: the names of tags and attributes
 * are plain words of small letters, which the scanner reads whole; no tag is
 * both allowed and dropped with its contents; and `style` is neither a link
 * nor a bare flag.
 *
 * The lists are cut into short ones, each looked at by a lemma of its own.
 */
module HtmlTables {
  import opened Options
  import opened Text
  import opened Attributes
  import opened Html

  function AllowedFirst(): seq<string> {
    ["a", "abbr", "article", "aside", "b", "blockquote", "br", "button",
     "caption", "code", "col", "colgroup", "dd", "del", "details", "div",
     "dl", "dt", "em", "fieldset", "figcaption", "figure", "footer", "form"]
  }

  function AllowedSecond(): seq<string> {
    ["h1", "h2", "h3", "h4", "h5", "h6", "header", "hr",
     "i", "img", "input", "label", "legend", "li", "main", "mark",
     "nav", "ol", "optgroup", "option", "p", "pre", "progress", "q"]
  }

  function AllowedThird(): seq<string> {
    ["s", "section", "select", "small", "span", "strong", "sub", "summary",
     "sup", "table", "tbody", "td", "textarea", "tfoot", "th", "thead",
     "time", "tr", "u", "ul"]
  }

  function Dropped(): seq<string> {
    ["embed", "iframe", "math", "noscript", "object", "script", "style", "svg", "template"]
  }

  function Everywhere(): seq<string> {
    ["class", "dir", "hidden", "id", "lang", "role", "style", "tabindex", "title"]
  }

  function ForInput(): seq<string> {
    ["accept", "autocomplete", "checked", "disabled", "max", "maxlength",
     "min", "minlength", "multiple", "name", "pattern", "placeholder",
     "readonly", "required", "step", "type", "value"]
  }

  function ForTextarea(): seq<string> {
    ["autocomplete", "cols", "disabled", "maxlength", "minlength", "name",
     "placeholder", "readonly", "required", "rows", "wrap"]
  }

  function ForTagA(tag: string): seq<string> {
    match tag
    case "a" => ["download", "href", "rel", "target"]
    case "blockquote" => ["cite"]
    case "button" => ["disabled", "name", "type", "value"]
    case "col" => ["span"]
    case "del" => ["cite", "datetime"]
    case _ => []
  }

  function ForTagB(tag: string): seq<string> {
    match tag
    case "details" => ["open"]
    case "img" => ["alt", "decoding", "height", "loading", "src", "width"]
    case "label" => ["for"]
    case "li" => ["value"]
    case "ol" => ["reversed", "start", "type"]
    case _ => []
  }

  function ForTagC(tag: string): seq<string> {
    match tag
    case "optgroup" => ["disabled", "label"]
    case "option" => ["disabled", "label", "selected", "value"]
    case "progress" => ["max", "value"]
    case "q" => ["cite"]
    case "select" => ["disabled", "multiple", "name", "required", "size"]
    case _ => []
  }

  function ForTagD(tag: string): seq<string> {
    match tag
    case "td" => ["colspan", "headers", "rowspan"]
    case "th" => ["abbr", "colspan", "headers", "rowspan", "scope"]
    case "time" => ["datetime"]
    case _ => []
  }

  /** The attributes of one tag beside the ones every tag may have. */
  function ForTag(tag: string): seq<string> {
    if tag == "input" then ForInput()
    else if tag == "textarea" then ForTextarea()
    else ForTagA(tag) + ForTagB(tag) + ForTagC(tag) + ForTagD(tag)
  }

  function TagsWithMore(): seq<string> {
    ["a", "blockquote", "button", "col", "del", "details", "img", "input", "label", "li",
     "ol", "optgroup", "option", "progress", "q", "select", "td", "textarea", "th", "time"]
  }

  function Flags(): seq<string> {
    ["checked", "disabled", "hidden", "multiple", "open", "readonly", "required", "reversed", "selected"]
  }

  function Urls(): seq<string> {
    ["cite", "href", "src"]
  }

  function SetOf(names: seq<string>): set<string> {
    set name | name in names
  }

  function Standard(): Tables {
    Tables(
      SetOf(Allowed()),
      SetOf(["br", "col", "hr", "img", "input"]),
      SetOf(Dropped()),
      SetOf(Everywhere()),
      map tag | tag in TagsWithMore() :: SetOf(ForTag(tag)),
      SetOf(Flags()),
      SetOf(Urls()))
  }

  /** Small letters and digits, beginning with a letter: fit for a tag and for an attribute. */
  predicate PlainWord(s: string) {
    s != "" && 'a' <= s[0] <= 'z' && forall i :: 0 <= i < |s| ==> 'a' <= s[i] <= 'z' || IsDigit(s[i])
  }

  lemma WordIsFit(name: string)
    requires PlainWord(name)
    ensures TagWord(name) && SafeName(name)
  {
  }

  predicate PlainWords(names: seq<string>) {
    forall i :: 0 <= i < |names| ==> PlainWord(names[i])
  }

  predicate NoneDropped(names: seq<string>) {
    forall i :: 0 <= i < |names| ==> names[i] !in Dropped()
  }

  lemma FirstPlain()
    ensures PlainWords(AllowedFirst())
  {
  }

  lemma FirstKept()
    ensures NoneDropped(AllowedFirst())
  {
  }

  lemma SecondPlain()
    ensures PlainWords(AllowedSecond())
  {
  }

  lemma SecondKept()
    ensures NoneDropped(AllowedSecond())
  {
  }

  lemma ThirdPlain()
    ensures PlainWords(AllowedThird())
  {
  }

  lemma ThirdKept()
    ensures NoneDropped(AllowedThird())
  {
  }

  lemma EverywherePlain()
    ensures PlainWords(Everywhere())
  {
  }

  lemma InputPlain()
    ensures PlainWords(ForInput())
  {
  }

  lemma TextareaPlain()
    ensures PlainWords(ForTextarea())
  {
  }

  lemma ForTagAPlain(tag: string)
    ensures PlainWords(ForTagA(tag))
  {
  }

  lemma ForTagBPlain(tag: string)
    ensures PlainWords(ForTagB(tag))
  {
  }

  lemma ForTagCPlain(tag: string)
    ensures PlainWords(ForTagC(tag))
  {
  }

  lemma ForTagDPlain(tag: string)
    ensures PlainWords(ForTagD(tag))
  {
  }

  lemma TagPlain(tag: string)
    ensures PlainWords(ForTag(tag))
  {
    InputPlain();
    TextareaPlain();
    ForTagAPlain(tag);
    ForTagBPlain(tag);
    ForTagCPlain(tag);
    ForTagDPlain(tag);
  }

  lemma PlainSet(names: seq<string>)
    requires PlainWords(names)
    ensures forall name :: name in SetOf(names) ==> TagWord(name) && SafeName(name)
  {
    forall name | name in SetOf(names) ensures TagWord(name) && SafeName(name) {
      WordIsFit(name);
    }
  }

  predicate FitTags(names: seq<string>) {
    PlainWords(names) && NoneDropped(names)
  }

  lemma BothFit(a: seq<string>, b: seq<string>)
    requires FitTags(a) && FitTags(b)
    ensures FitTags(a + b)
  {
  }

  function Allowed(): seq<string> {
    AllowedFirst() + AllowedSecond() + AllowedThird()
  }

  lemma AllowedFit()
    ensures FitTags(Allowed())
  {
    FirstPlain();
    FirstKept();
    SecondPlain();
    SecondKept();
    ThirdPlain();
    ThirdKept();
    BothFit(AllowedFirst(), AllowedSecond());
    BothFit(AllowedFirst() + AllowedSecond(), AllowedThird());
  }

  lemma StyleIsNeither()
    ensures "style" !in Urls() && "style" !in Flags()
  {
  }

  /** The lists as they stand are fit for the theorems about the sanitizer. */
  lemma StandardIsGood()
    ensures GoodTables(Standard())
  {
    StyleIsNeither();
    EverywherePlain();
    PlainSet(Everywhere());
    forall tag | tag in Standard().ofTag ensures SafeNames(Standard().ofTag[tag]) {
      TagPlain(tag);
      PlainSet(ForTag(tag));
    }
    AllowedFit();
    forall tag | tag in Standard().allowed ensures TagWord(tag) && tag !in Standard().dropped {
      FitTag(tag);
    }
  }

  lemma FitTag(tag: string)
    requires tag in Allowed()
    ensures TagWord(tag) && tag !in Dropped()
  {
    AllowedFit();
    var i :| 0 <= i < |Allowed()| && Allowed()[i] == tag;
    WordIsFit(tag);
  }

  /** With those lists, cleaning twice is cleaning once when no style survives, under either policy. */
  lemma StandardSanitizeAgain(policy: Policy, style: string -> Option<string>, html: string)
    requires forall p :: p in Scan(Rules(Standard(), policy, style), html, 0) ==> HasNoStyle(p)
    ensures var rules := Rules(Standard(), policy, style);
      Sanitize(rules, Sanitize(rules, html)) == Sanitize(rules, html)
  {
    StandardIsGood();
    SanitizeAgainWithoutStyles(Rules(Standard(), policy, style), html);
  }
}
