/** Attributes of a tag as they may be written, in any quotes or none, and how the scanner reads them. */
module WrittenTags {
  import opened Options
  import opened Text
  import opened Attributes

  datatype Form = Alone | Bare | Quoted(quote: char)

  /** An attribute as it stands in a tag: a gap, a name, and perhaps a sign between blanks and a value. */
  datatype Spelled = Spelled(gap: string, name: string, before: string, after: string, form: Form, value: string)

  predicate GapChar(c: char) {
    IsSpace(c) || c == '/'
  }

  predicate IsGap(s: string) {
    forall i :: 0 <= i < |s| ==> GapChar(s[i])
  }

  function ValuePart(a: Spelled): string {
    match a.form
    case Alone => ""
    case Bare => a.before + ("=" + (a.after + a.value))
    case Quoted(q) => a.before + ("=" + (a.after + ([q] + (a.value + [q]))))
  }

  function Written(a: Spelled): string {
    a.gap + (a.name + ValuePart(a))
  }

  function WrittenAll(written: seq<Spelled>): string {
    if written == [] then "" else Written(written[0]) + WrittenAll(written[1..])
  }

  predicate WellSpelled(a: Spelled) {
    && a.gap != "" && IsGap(a.gap) && Blank(a.before) && Blank(a.after)
    && a.name != "" && (forall i :: 0 <= i < |a.name| ==> !IsSpace(a.name[i]) && a.name[i] !in ['=', '/', '>', '"', '\''])
    && match a.form
       case Alone => a.value == ""
       case Bare => a.value != "" && forall i :: 0 <= i < |a.value| ==> !IsSpace(a.value[i]) && a.value[i] !in ['>', '"', '\'']
       case Quoted(q) => (q == '"' || q == '\'') && q !in a.value
  }

  /** Well spelled, with a blank behind each bare value that something follows. */
  predicate AllWellSpelled(written: seq<Spelled>, tail: string) {
    written == []
    || (&& WellSpelled(written[0]) && AllWellSpelled(written[1..], tail)
        && var behind := WrittenAll(written[1..]) + tail;
           written[0].form.Bare? && behind != "" ==> IsSpace(behind[0]))
  }

  /** What is meant: the name in small letters, and the value as it stands. */
  function Meant(a: Spelled): Attribute {
    Attribute(Lower(a.name), a.value, !a.form.Alone?)
  }

  function AllMeant(written: seq<Spelled>): seq<Attribute> {
    if written == [] then [] else [Meant(written[0])] + AllMeant(written[1..])
  }

  lemma {:induction false} SlashRunOver(gap: string, rest: string)
    requires IsGap(gap)
    ensures SlashRun(gap + rest) == |gap| + SlashRun(rest) && (gap + rest)[SlashRun(gap + rest)..] == rest[SlashRun(rest)..]
  {
    if gap == "" {
      assert gap + rest == rest;
    } else {
      assert (gap + rest)[0] == gap[0] && (gap + rest)[1..] == gap[1..] + rest;
      SlashRunOver(gap[1..], rest);
    }
  }

  /** A gap in front of attributes is passed over. */
  lemma GapPassed(gap: string, rest: string)
    requires IsGap(gap)
    ensures Parse(gap + rest) == Parse(rest)
  {
    SlashRunOver(gap, rest);
  }

  lemma {:induction false} SpacesPassed(blanks: string, rest: string)
    requires Blank(blanks) && (rest == "" || !IsSpace(rest[0]))
    ensures TrimStart(blanks + rest) == rest
  {
    if blanks == "" {
      assert blanks + rest == rest && SpaceRun(rest) == 0 && rest[0..] == rest;
    } else {
      assert (blanks + rest)[0] == blanks[0] && (blanks + rest)[1..] == blanks[1..] + rest;
      SpacesPassed(blanks[1..], rest);
      assert (blanks + rest)[SpaceRun(blanks + rest)..] == (blanks[1..] + rest)[SpaceRun(blanks[1..] + rest)..];
    }
  }

  lemma TrimmedParses(rest: string)
    ensures Parse(TrimStart(rest)) == Parse(rest)
  {
    SpaceRunIsBlank(rest);
    var blanks := rest[..SpaceRun(rest)];
    assert rest == blanks + TrimStart(rest);
    assert IsGap(blanks);
    GapPassed(blanks, TrimStart(rest));
  }

  lemma {:induction false} ValueRunOf(value: string, rest: string)
    requires (forall i :: 0 <= i < |value| ==> !IsSpace(value[i]) && value[i] != '>') && (rest == "" || IsSpace(rest[0]))
    ensures ValueRun(value + rest) == |value|
  {
    if value == "" {
      assert value + rest == rest;
    } else {
      assert (value + rest)[0] == value[0] && (value + rest)[1..] == value[1..] + rest;
      ValueRunOf(value[1..], rest);
    }
  }

  lemma BareAt(value: string, rest: string)
    requires value != "" && (forall i :: 0 <= i < |value| ==> !IsSpace(value[i]) && value[i] !in ['>', '"', '\''])
    requires rest == "" || IsSpace(rest[0])
    ensures ValueAt(value + rest) == (value, rest)
  {
    ValueRunOf(value, rest);
    assert (value + rest)[0] == value[0];
    assert (value + rest)[..|value|] == value && (value + rest)[|value|..] == rest;
  }

  lemma InQuotesAt(q: char, value: string, rest: string)
    requires (q == '"' || q == '\'') && q !in value
    ensures ValueAt([q] + (value + ([q] + rest))) == (value, rest)
  {
    var s := [q] + (value + ([q] + rest));
    QuoteRunOf(value, q, rest);
    assert s[0] == q && s[1..] == value + ([q] + rest);
    assert s[1..1 + |value|] == value && s[|value| + 2..] == rest;
  }

  /** Behind a sign and blanks, a value is read as it stands. */
  lemma SignedFrom(name: string, before: string, after: string, marked: string, value: string, rest: string)
    requires Blank(before) && Blank(after) && marked != "" && !IsSpace(marked[0]) && ValueAt(marked) == (value, rest)
    ensures AttributeFrom(name, TrimStart(before + ("=" + (after + marked)))) == (Attribute(name, value, true), rest)
  {
    var signed := "=" + (after + marked);
    SpacesPassed(before, signed);
    SpacesPassed(after, marked);
    assert signed[0] == '=' && signed[1..] == after + marked;
  }

  lemma ValueShape(a: Spelled, rest: string)
    ensures a.form.Bare? ==> ValuePart(a) + rest == a.before + ("=" + (a.after + (a.value + rest)))
    ensures a.form.Quoted? ==>
      ValuePart(a) + rest == a.before + ("=" + (a.after + ([a.form.quote] + (a.value + ([a.form.quote] + rest)))))
  {
  }

  lemma AttributeRead(a: Spelled, rest: string)
    requires WellSpelled(a) && (a.form.Bare? && rest != "" ==> IsSpace(rest[0]))
    requires a.form.Alone? ==> TrimStart(rest) == "" || TrimStart(rest)[0] != '='
    ensures AttributeFrom(Lower(a.name), TrimStart(ValuePart(a) + rest))
         == (Meant(a), if a.form.Alone? then TrimStart(rest) else rest)
  {
    ValueShape(a, rest);
    match a.form {
      case Alone =>
        assert ValuePart(a) + rest == rest;
      case Bare =>
        BareAt(a.value, rest);
        assert (a.value + rest)[0] == a.value[0];
        SignedFrom(Lower(a.name), a.before, a.after, a.value + rest, a.value, rest);
      case Quoted(q) =>
        InQuotesAt(q, a.value, rest);
        SignedFrom(Lower(a.name), a.before, a.after, [q] + (a.value + ([q] + rest)), a.value, rest);
    }
  }

  lemma TailStart(a: Spelled, rest: string)
    requires WellSpelled(a) && (rest == "" || GapChar(rest[0]))
    ensures var tail := ValuePart(a) + rest; tail == "" || !NameChar(tail[0])
  {
    var tail := ValuePart(a) + rest;
    if !a.form.Alone? {
      assert tail[0] == if a.before != "" then a.before[0] else '=';
    }
  }

  /** One attribute is read, and then what is behind it. */
  lemma OneRead(a: Spelled, rest: string)
    requires WellSpelled(a) && (rest == "" || GapChar(rest[0])) && (a.form.Bare? && rest != "" ==> IsSpace(rest[0]))
    requires a.form.Alone? ==> TrimStart(rest) == "" || TrimStart(rest)[0] != '='
    ensures Parse(Written(a) + rest) == [Meant(a)] + Parse(rest)
  {
    var tail := ValuePart(a) + rest;
    var s := a.name + tail;
    TailStart(a, rest);
    NameRunOf(a.name, tail);
    AttributeRead(a, rest);
    TrimmedParses(rest);
    NamedParse(s, a.name, tail, Meant(a), if a.form.Alone? then TrimStart(rest) else rest);
    GapPassed(a.gap, s);
    WrittenShape(a, rest);
  }

  lemma WrittenShape(a: Spelled, rest: string)
    ensures Written(a) + rest == a.gap + (a.name + (ValuePart(a) + rest))
  {
  }

  lemma NamedParse(s: string, name: string, tail: string, a: Attribute, rest: string)
    requires s == name + tail && name != "" && !GapChar(name[0]) && NameRun(s) == |name|
    requires AttributeFrom(Lower(name), TrimStart(tail)) == (a, rest)
    ensures Parse(s) == [a] + Parse(rest)
  {
    assert s[0] == name[0] && SlashRun(s) == 0 && s[0..] == s;
    assert s[..|name|] == name && s[|name|..] == tail;
  }

  lemma {:induction false} GapIsNotSign(gap: string, rest: string)
    requires IsGap(gap) && (rest == "" || (!IsSpace(rest[0]) && rest[0] != '='))
    ensures TrimStart(gap + rest) == "" || TrimStart(gap + rest)[0] != '='
  {
    if gap == "" {
      assert gap + rest == rest && rest[0..] == rest;
    } else {
      var s := gap + rest;
      assert s[0] == gap[0] && s[1..] == gap[1..] + rest;
      if IsSpace(gap[0]) {
        GapIsNotSign(gap[1..], rest);
        assert TrimStart(s) == TrimStart(s[1..]);
      } else {
        assert s[0..] == s;
      }
    }
  }

  /** What is behind an attribute begins with a gap, and not with a sign. */
  lemma BehindStart(more: seq<Spelled>, tail: string)
    requires AllWellSpelled(more, tail) && IsGap(tail)
    ensures var behind := WrittenAll(more) + tail;
      && (behind == "" || GapChar(behind[0]))
      && (TrimStart(behind) == "" || TrimStart(behind)[0] != '=')
  {
    if more == [] {
      assert WrittenAll(more) + tail == tail + "";
      GapIsNotSign(tail, "");
    } else {
      var a := more[0];
      var rest := a.name + (ValuePart(a) + (WrittenAll(more[1..]) + tail));
      WrittenShape(a, WrittenAll(more[1..]) + tail);
      Joined(Written(a), WrittenAll(more[1..]), tail);
      GapIsNotSign(a.gap, rest);
    }
  }

  /** Attributes are read as they are meant, however they are written. */
  lemma {:induction false} WrittenReads(written: seq<Spelled>, tail: string)
    requires AllWellSpelled(written, tail) && IsGap(tail)
    ensures Parse(WrittenAll(written) + tail) == AllMeant(written)
  {
    if written == [] {
      assert WrittenAll(written) + tail == tail + "";
      GapPassed(tail, "");
    } else {
      var behind := WrittenAll(written[1..]) + tail;
      BehindStart(written[1..], tail);
      WrittenReads(written[1..], tail);
      OneRead(written[0], behind);
      Joined(Written(written[0]), WrittenAll(written[1..]), tail);
    }
  }
}
