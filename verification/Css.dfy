/**
 * The CSS scanners of pkg/common/src/proto-format.ts: identifiers with escapes,
 * function bodies, and the removal of calls that could reach the network. The
 * functions work on the text still to be read; the methods move an index.
 */
module Css {
  import opened Options
  import opened Text

  /** The names of the functions that can reach the network or run code. */
  function Blocked(): seq<string> {
    ["url", "image-set", "-webkit-image-set", "expression"]
  }

  predicate Includes(names: seq<string>, name: string) {
    names != [] && (names[0] == name || Includes(names[1..], name))
  }

  lemma {:induction false} IncludesIff(names: seq<string>, name: string)
    ensures Includes(names, name) <==> name in names
  {
    if names != [] {
      IncludesIff(names[1..], name);
      assert name in names <==> name == names[0] || name in names[1..];
    }
  }

  predicate InIdentifier(c: char) {
    IsLetter(c) || IsDigit(c) || c == '-' || c == '_' || c > '\U{007F}'
  }

  predicate StartsIdentifier(c: char) {
    IsLetter(c) || c == '-' || c == '_' || c == '\\'
  }

  /** What an identifier says, and how many characters it takes. */
  datatype Identifier = Identifier(decoded: string, size: nat)

  /** One step of reading: the character it gives and the characters it takes; no step ends the identifier. */
  function Step(s: string): (step: Option<(char, nat)>)
    ensures step.Some? ==> 0 < step.value.1 <= |s|
  {
    if s == "" then None
    else if InIdentifier(s[0]) then Some((s[0], 1))
    else if s[0] != '\\' then None
    else
      var n := HexRun(s[1..], 6);
      if n > 0 then
        var end := 1 + n;
        Some((CharOf(Number(s[1..end], 16)), if end < |s| && IsSpace(s[end]) then end + 1 else end))
      else if |s| > 1 then Some((s[1], 2))
      else Some((REPLACEMENT, 1))
  }

  function Read(s: string): (id: Identifier)
    ensures id.size <= |s|
    decreases |s|
  {
    var step := Step(s);
    if step.None? then Identifier("", 0)
    else
      var rest := Read(s[step.value.1..]);
      Identifier([step.value.0] + rest.decoded, step.value.1 + rest.size)
  }

  /** From the opening parenthesis, how many characters to behind the closing one; all, if it is missing. */
  function CallSize(s: string, depth: int, quote: Option<char>): (n: nat)
    ensures n <= |s| && (s != "" ==> n > 0)
    decreases |s|
  {
    if s == "" then 0
    else if quote.Some? then
      if s[0] == '\\' then if |s| > 1 then 2 + CallSize(s[2..], depth, quote) else 1
      else 1 + CallSize(s[1..], depth, if s[0] == quote.value then None else quote)
    else if IsQuote(s[0]) then 1 + CallSize(s[1..], depth, Some(s[0]))
    else if s[0] == '(' then 1 + CallSize(s[1..], depth + 1, None)
    else if s[0] == ')' then if depth == 1 then 1 else 1 + CallSize(s[1..], depth - 1, None)
    else 1 + CallSize(s[1..], depth, None)
  }

  /** Where the parenthesis of a call would be, after the name and white space. */
  function OpeningOf(s: string, size: nat): (n: nat)
    requires size <= |s|
    ensures size <= n <= |s|
  {
    size + SpaceRun(s[size..])
  }

  predicate CallsNetwork(s: string, id: Identifier)
    requires id.size <= |s|
  {
    OpeningOf(s, id.size) < |s| && s[OpeningOf(s, id.size)] == '(' && Includes(Blocked(), Lower(id.decoded))
  }

  function AfterOpening(s: string, opening: nat): (rest: string)
    requires opening < |s|
    ensures |rest| < |s|
  {
    s[opening + CallSize(s[opening..], 0, None)..]
  }

  function Opening(s: string): (n: nat)
    ensures Read(s).size <= n <= |s|
  {
    OpeningOf(s, Read(s).size)
  }

  predicate IsCall(s: string) {
    CallsNetwork(s, Read(s))
  }

  /** What follows the call. */
  function AfterCall(s: string): (rest: string)
    requires Opening(s) < |s|
    ensures |rest| < |s|
  {
    AfterOpening(s, Opening(s))
  }

  /** A raw identifier that ends in a backslash ends in the replacement character instead. */
  function Mended(raw: string): string {
    if raw != "" && raw[|raw| - 1] == '\\' then raw[..|raw| - 1] + [REPLACEMENT] else raw
  }

  lemma ReadProgress(s: string)
    requires s != "" && StartsIdentifier(s[0])
    ensures Read(s).size > 0
  {
  }

  function Strip(s: string, quote: Option<char>): string
    decreases |s|
  {
    if s == "" then ""
    else if quote.Some? then
      if s[0] == '\\' then if |s| > 1 then s[..2] + Strip(s[2..], quote) else s
      else [s[0]] + Strip(s[1..], if s[0] == quote.value then None else quote)
    else if IsQuote(s[0]) then [s[0]] + Strip(s[1..], Some(s[0]))
    else if StartsIdentifier(s[0]) then
      ReadProgress(s);
      var size := Read(s).size;
      if IsCall(s) then "none" + Strip(AfterCall(s), None)
      else Mended(s[..size]) + Strip(s[size..], None)
    else [s[0]] + Strip(s[1..], None)
  }

  /** The same scanner comes upon a call to remove. */
  predicate HasCall(s: string, quote: Option<char>)
    decreases |s|
  {
    s != "" &&
    if quote.Some? then
      if s[0] == '\\' then |s| > 1 && HasCall(s[2..], quote)
      else HasCall(s[1..], if s[0] == quote.value then None else quote)
    else if IsQuote(s[0]) then HasCall(s[1..], Some(s[0]))
    else if StartsIdentifier(s[0]) then
      ReadProgress(s);
      IsCall(s) || HasCall(s[Read(s).size..], None)
    else HasCall(s[1..], None)
  }

  lemma ReadStep(s: string, c: char, k: nat, t: string)
    requires Step(s) == Some((c, k)) && s[k..] == t
    ensures Read(s) == Identifier([c] + Read(t).decoded, k + Read(t).size)
  {
  }

  // Reading looks no further than the character behind the identifier.

  predicate Outside(s: string) {
    s == "" || (!InIdentifier(s[0]) && s[0] != '\\')
  }

  lemma {:induction false} ReadStops(s: string)
    ensures Outside(s[Read(s).size..])
    decreases |s|
  {
    var step := Step(s);
    if step.Some? {
      ReadStops(s[step.value.1..]);
      assert s[step.value.1..][Read(s[step.value.1..]).size..] == s[Read(s).size..];
    }
  }

  /** Two texts begin alike, as far as reading an escape before them can see. */
  predicate Alike(a: string, b: string) {
    (a == "" <==> b == "") && (a != "" ==> IsHex(a[0]) == IsHex(b[0]) && IsSpace(a[0]) == IsSpace(b[0]))
  }

  lemma {:induction false} HexLocal(raw: string, a: string, b: string, max: nat)
    requires Alike(a, b) && HexRun(raw + a, max) <= |raw|
    ensures HexRun(raw + b, max) == HexRun(raw + a, max)
  {
    if raw == "" {
      assert raw + a == a && raw + b == b;
    } else if max > 0 && IsHex(raw[0]) {
      assert (raw + a)[1..] == raw[1..] + a && (raw + b)[1..] == raw[1..] + b;
      HexLocal(raw[1..], a, b, max - 1);
    }
  }

  lemma StepLocal(raw: string, a: string, b: string)
    requires raw != "" && Alike(a, b) && Step(raw + a).Some? && Step(raw + a).value.1 <= |raw|
    ensures Step(raw + b) == Step(raw + a)
  {
    if raw[0] == '\\' {
      var s, t := raw + a, raw + b;
      assert s[1..] == raw[1..] + a && t[1..] == raw[1..] + b;
      if HexRun(s[1..], 6) > 0 {
        var end := 1 + HexRun(s[1..], 6);
        HexLocal(raw[1..], a, b, 6);
        assert s[1..end] == raw[1..end] == t[1..end];
      } else {
        HexLocal(raw[1..], a, b, 6);
      }
    }
  }

  lemma Dropped(raw: string, a: string, k: nat)
    ensures k <= |raw| ==> (raw + a)[k..] == raw[k..] + a
  {
  }

  /** What is read of an identifier depends on it and on the next character alone. */
  lemma {:induction false} ReadLocal(raw: string, a: string, b: string)
    requires Read(raw + a).size == |raw| && Alike(a, b) && Outside(b)
    ensures Read(raw + b) == Read(raw + a)
    decreases |raw|
  {
    if raw == "" {
      assert raw + a == a && raw + b == b;
    } else {
      var c, k := Step(raw + a).value.0, Step(raw + a).value.1;
      Dropped(raw, a, k);
      Dropped(raw, b, k);
      ReadStep(raw + a, c, k, raw[k..] + a);
      StepLocal(raw, a, b);
      ReadLocal(raw[k..], a, b);
      ReadStep(raw + b, c, k, raw[k..] + b);
    }
  }

  lemma MendedSplits(raw: string, k: nat)
    requires k < |raw|
    ensures Mended(raw) == raw[..k] + Mended(raw[k..])
  {
    var rest := raw[k..];
    assert rest[|rest| - 1] == raw[|raw| - 1];
    if raw[|raw| - 1] == '\\' {
      assert rest[..|rest| - 1] == raw[k..|raw| - 1];
      assert raw[..k] + raw[k..|raw| - 1] == raw[..|raw| - 1];
    } else {
      assert raw == raw[..k] + rest;
    }
  }

  lemma MendedLast(raw: string, a: string, b: string)
    requires raw != "" && raw[|raw| - 1] == '\\' && Step(raw + a).Some? && Step(raw + a).value.1 == |raw|
    requires Alike(a, b) && Outside(b)
    ensures Step(Mended(raw) + b) == Some((REPLACEMENT, |raw|))
  {
    var t := Mended(raw) + b;
    assert raw[0] == '\\';
    if |raw| > 1 {
      var n := HexRun((raw + a)[1..], 6);
      assert n == 0 by {
        if n > 0 {
          HexAll((raw + a)[1..], 6, n - 1);
        }
      }
      assert t[1..][0] == REPLACEMENT;
    }
  }

  lemma {:induction false} HexAll(s: string, max: nat, i: nat)
    requires i < HexRun(s, max)
    ensures IsHex(s[i])
  {
    if i > 0 {
      HexAll(s[1..], max - 1, i - 1);
    }
  }

  lemma MendedStep(raw: string, a: string, b: string, k: nat)
    requires 0 < k < |raw| && raw[|raw| - 1] == '\\' && Step(raw + a).Some? && Step(raw + a).value.1 == k
    requires Alike(a, b)
    ensures Step(Mended(raw) + b) == Step(raw + a) && (Mended(raw) + b)[k..] == Mended(raw[k..]) + b
  {
    var pre, rest := raw[..k], raw[k..];
    MendedSplits(raw, k);
    assert raw + a == pre + (rest + a);
    assert Mended(raw) + b == pre + (Mended(rest) + b);
    assert Alike(rest + a, Mended(rest) + b) by {
      assert rest[|rest| - 1] == '\\';
    }
    StepLocal(pre, rest + a, Mended(rest) + b);
  }

  /** A mended identifier is read to its end again, and says something that ends in the replacement. */
  lemma {:induction false} MendedReads(raw: string, a: string, b: string)
    requires Read(raw + a).size == |raw| && raw != "" && raw[|raw| - 1] == '\\' && Alike(a, b) && Outside(b)
    ensures var id := Read(Mended(raw) + b);
      id.size == |raw| && id.decoded != "" && id.decoded[|id.decoded| - 1] == REPLACEMENT
    decreases |raw|
  {
    var k := Step(raw + a).value.1;
    assert (raw + a)[k..] == raw[k..] + a;
    if k == |raw| {
      MendedLast(raw, a, b);
      assert (Mended(raw) + b)[k..] == b;
    } else {
      var c, rest := Step(raw + a).value.0, raw[k..];
      assert rest[|rest| - 1] == '\\';
      ReadStep(raw + a, c, k, rest + a);
      MendedReads(rest, a, b);
      MendedStep(raw, a, b, k);
      ReadStep(Mended(raw) + b, c, k, Mended(rest) + b);
    }
  }

  // What a scan of the stripped text meets.

  /** The scanner finds nothing to remove, and changes nothing. */
  ghost predicate Clean(o: string, quote: Option<char>) {
    !HasCall(o, quote) && Strip(o, quote) == o
  }

  /** Clean also from behind the identifier characters it begins with: a scanner that joins them to a word before is safe. */
  ghost predicate CleanBeyond(o: string) {
    var e := Read(o).size;
    Clean(o[e..], None) && Mended(o[..e]) == o[..e]
  }

  predicate NextOpens(t: string) {
    SpaceRun(t) < |t| && t[SpaceRun(t)] == '('
  }

  lemma CallIff(s: string)
    ensures IsCall(s) <==> NextOpens(s[Read(s).size..]) && Includes(Blocked(), Lower(Read(s).decoded))
  {
  }

  lemma MendedStart(raw: string)
    requires raw != ""
    ensures Mended(raw) != "" && (Mended(raw)[0] == raw[0] || Mended(raw)[0] == REPLACEMENT)
    ensures Mended(Mended(raw)) == Mended(raw)
  {
  }

  lemma WordStart(s: string)
    requires s != "" && StartsIdentifier(s[0])
    ensures Strip(s, None) != "" && !IsSpace(Strip(s, None)[0]) && Strip(s, None)[0] != '('
  {
    ReadProgress(s);
    if !IsCall(s) {
      MendedStart(s[..Read(s).size]);
    }
  }

  /** The stripped text begins as the text did, where it matters to a word before it. */
  lemma StripStart(s: string)
    ensures s == "" <==> Strip(s, None) == ""
    ensures s != "" && !StartsIdentifier(s[0]) ==> Strip(s, None)[0] == s[0]
    ensures s != "" && StartsIdentifier(s[0]) ==> !IsSpace(Strip(s, None)[0]) && Strip(s, None)[0] != '('
  {
    if s != "" && StartsIdentifier(s[0]) {
      WordStart(s);
    }
  }

  lemma OpensBehindSpace(c: char, t: string)
    requires IsSpace(c)
    ensures NextOpens([c] + t) <==> NextOpens(t)
  {
    assert ([c] + t)[1..] == t;
  }

  lemma {:induction false} SameOpening(t: string)
    ensures NextOpens(Strip(t, None)) == NextOpens(t)
    decreases |t|
  {
    StripStart(t);
    if t != "" && IsSpace(t[0]) && !StartsIdentifier(t[0]) && !IsQuote(t[0]) {
      SameOpening(t[1..]);
      OpensBehindSpace(t[0], t[1..]);
      OpensBehindSpace(t[0], Strip(t[1..], None));
      assert t == [t[0]] + t[1..];
    }
  }

  lemma {:induction false} LowerLast(s: string)
    requires s != "" && s[|s| - 1] == REPLACEMENT
    ensures Lower(s) != "" && Lower(s)[|Lower(s)| - 1] == REPLACEMENT
  {
    LowerAppend(s[..|s| - 1], [REPLACEMENT]);
    assert s == s[..|s| - 1] + [REPLACEMENT];
    assert [REPLACEMENT][1..] == "";
  }

  lemma NotBlocked(name: string)
    requires name != "" && name[|name| - 1] == REPLACEMENT
    ensures !Includes(Blocked(), name)
  {
    IncludesIff(Blocked(), name);
  }

  lemma NoBlockedN(name: string)
    requires name != "" && name[0] == 'n'
    ensures !Includes(Blocked(), name)
  {
    IncludesIff(Blocked(), name);
  }

  lemma NoneIsNotBlocked(rest: string)
    ensures !Includes(Blocked(), Lower("none" + rest))
  {
    assert ("none" + rest)[0] == 'n';
    assert Lower("none" + rest)[0] == 'n';
    NoBlockedN(Lower("none" + rest));
  }

  lemma PlainWordStays(raw: string, t: string)
    requires raw != "" && raw[|raw| - 1] != '\\' && Read(raw + t).size == |raw| && Outside(t) && !IsCall(raw + t)
    ensures var o := raw + Strip(t, None); Read(o) == Read(raw + t) && !IsCall(o)
  {
    var o := raw + Strip(t, None);
    StripStart(t);
    ReadLocal(raw, t, Strip(t, None));
    SameOpening(t);
    assert (raw + t)[|raw|..] == t && o[|raw|..] == Strip(t, None);
    CallIff(raw + t);
    CallIff(o);
  }

  lemma MendedWordStays(raw: string, t: string)
    requires raw != "" && raw[|raw| - 1] == '\\' && Read(raw + t).size == |raw| && Outside(t)
    ensures var o := Mended(raw) + Strip(t, None); Read(o).size == |raw| && !IsCall(o)
  {
    var o := Mended(raw) + Strip(t, None);
    StripStart(t);
    MendedReads(raw, t, Strip(t, None));
    NoCall(o);
  }

  lemma NoCall(o: string)
    requires Read(o).decoded != "" && Read(o).decoded[|Read(o).decoded| - 1] == REPLACEMENT
    ensures !IsCall(o)
  {
    LowerLast(Read(o).decoded);
    NotBlocked(Lower(Read(o).decoded));
  }

  /** A word that was not a call is none after the text behind it has been stripped. */
  lemma WordStays(raw: string, t: string)
    requires raw != "" && Read(raw + t).size == |raw| && Outside(t) && !IsCall(raw + t)
    ensures var o := Mended(raw) + Strip(t, None);
      Read(o).size == |raw| && !IsCall(o)
  {
    if raw[|raw| - 1] == '\\' {
      MendedWordStays(raw, t);
    } else {
      PlainWordStays(raw, t);
    }
  }

  /** A word that is no call, mended, before a clean text: the whole is clean. */
  lemma WordScan(o: string, n: nat)
    requires o != "" && StartsIdentifier(o[0]) && Read(o).size == n > 0 && !IsCall(o)
    requires Mended(o[..n]) == o[..n] && Clean(o[n..], None)
    ensures Clean(o, None) && CleanBeyond(o)
  {
    assert o == o[..n] + o[n..];
  }

  lemma WordCleanOf(raw: string, t: string)
    requires raw != "" && Read(raw + t).size == |raw| && Outside(t) && !IsCall(raw + t)
    requires StartsIdentifier(Mended(raw)[0]) && Clean(Strip(t, None), None)
    ensures Clean(Mended(raw) + Strip(t, None), None) && CleanBeyond(Mended(raw) + Strip(t, None))
  {
    var o := Mended(raw) + Strip(t, None);
    WordStays(raw, t);
    MendedStart(raw);
    assert o[..|raw|] == Mended(raw) && o[|raw|..] == Strip(t, None);
    WordScan(o, |raw|);
  }

  lemma WordClean(raw: string, t: string)
    requires raw != "" && StartsIdentifier(raw[0]) && Read(raw + t).size == |raw| && Outside(t) && !IsCall(raw + t)
    requires Clean(Strip(t, None), None)
    ensures Clean(Mended(raw) + Strip(t, None), None) && CleanBeyond(Mended(raw) + Strip(t, None))
  {
    MendedStart(raw);
    if StartsIdentifier(Mended(raw)[0]) {
      WordCleanOf(raw, t);
    } else {
      LoneBackslash(raw, t);
      ReplacementClean();
      assert Mended(raw) + Strip(t, None) == [REPLACEMENT];
    }
  }

  lemma ReplacementClean()
    ensures Clean([REPLACEMENT], None) && CleanBeyond([REPLACEMENT])
  {
    var o := [REPLACEMENT];
    assert o[1..] == "" && Step(o) == Some((REPLACEMENT, 1)) && Read(o).size == 1;
    assert o[..1] == o;
  }

  /** Only a lone backslash at the end is turned into no word at all. */
  lemma LoneBackslash(raw: string, t: string)
    requires raw != "" && StartsIdentifier(raw[0]) && Read(raw + t).size == |raw| && !StartsIdentifier(Mended(raw)[0])
    ensures t == "" && Mended(raw) == [REPLACEMENT]
  {
    assert |raw| == 1 && raw[0] == '\\';
    assert Step(raw + t).value.1 == 1;
  }

  lemma NoneMended(x: string)
    requires Mended(x) == x
    ensures Mended("none" + x) == "none" + x
  {
    if x != "" {
      MendedSplits("none" + x, 4);
      assert ("none" + x)[4..] == x && ("none" + x)[..4] == "none";
    }
  }

  lemma CallClean(rest: string)
    requires CleanBeyond(rest)
    ensures Clean("none" + rest, None) && CleanBeyond("none" + rest)
  {
    var o, e := "none" + rest, Read(rest).size;
    NoneRead(rest);
    NoneMended(rest[..e]);
    assert o[4 + e..] == rest[e..] && o[..4 + e] == "none" + rest[..e];
    NoneIsNotBlocked(Read(rest).decoded);
    CallIff(o);
    WordScan(o, 4 + e);
  }

  lemma LetterRead(c: char, rest: string)
    requires InIdentifier(c)
    ensures Read([c] + rest) == Identifier([c] + Read(rest).decoded, 1 + Read(rest).size)
  {
    assert ([c] + rest)[1..] == rest;
  }

  lemma NoneRead(rest: string)
    ensures Read("none" + rest) == Identifier("none" + Read(rest).decoded, 4 + Read(rest).size)
  {
    var d := Read(rest).decoded;
    var s1, s2, s3 := ['e'] + rest, ['n'] + (['e'] + rest), ['o'] + (['n'] + (['e'] + rest));
    LetterRead('e', rest);
    LetterRead('n', s1);
    LetterRead('o', s2);
    LetterRead('n', s3);
    NoneSpelled(rest);
    NoneSpelled(d);
  }

  lemma NoneSpelled(rest: string)
    ensures ['n'] + (['o'] + (['n'] + (['e'] + rest))) == "none" + rest
  {
  }

  lemma CharScan(c: char, rest: string)
    requires !IsQuote(c) && !StartsIdentifier(c) && Clean(rest, None)
    ensures Clean([c] + rest, None)
  {
    assert ([c] + rest)[1..] == rest;
  }

  lemma CharBeyond(c: char, rest: string)
    requires InIdentifier(c) && CleanBeyond(rest)
    ensures CleanBeyond([c] + rest)
  {
    var o, e := [c] + rest, Read(rest).size;
    LetterRead(c, rest);
    assert o[1 + e..] == rest[e..] && o[..1 + e] == [c] + rest[..e];
    if e > 0 {
      MendedSplits([c] + rest[..e], 1);
      assert ([c] + rest[..e])[1..] == rest[..e] && ([c] + rest[..e])[..1] == [c];
    }
  }

  lemma OutsideBeyond(o: string)
    requires Outside(o) && Clean(o, None)
    ensures CleanBeyond(o)
  {
    assert o[0..] == o;
  }

  lemma CharClean(c: char, rest: string)
    requires !IsQuote(c) && !StartsIdentifier(c) && Clean(rest, None) && CleanBeyond(rest)
    ensures Clean([c] + rest, None) && CleanBeyond([c] + rest)
  {
    CharScan(c, rest);
    if InIdentifier(c) {
      CharBeyond(c, rest);
    } else {
      OutsideBeyond([c] + rest);
    }
  }

  /** Nothing to remove is left, and a second run changes nothing, in and out of a string. */
  lemma {:induction false} StripClean(s: string, quote: Option<char>)
    ensures Clean(Strip(s, quote), quote)
    ensures quote == None ==> CleanBeyond(Strip(s, None))
    decreases |s|, 1
  {
    var o := Strip(s, quote);
    if s == "" {
    } else if quote.Some? {
      QuotedClean(s, quote);
    } else if IsQuote(s[0]) {
      StripClean(s[1..], Some(s[0]));
      assert o[1..] == Strip(s[1..], Some(s[0]));
      assert Read(o).size == 0 && o[0..] == o;
    } else if StartsIdentifier(s[0]) {
      ReadProgress(s);
      if IsCall(s) {
        StripClean(AfterCall(s), None);
        CallClean(Strip(AfterCall(s), None));
      } else {
        var raw, t := s[..Read(s).size], s[Read(s).size..];
        assert s == raw + t;
        ReadStops(s);
        StripClean(t, None);
        WordClean(raw, t);
      }
    } else {
      StripClean(s[1..], None);
      CharClean(s[0], Strip(s[1..], None));
    }
  }

  lemma {:induction false} QuotedClean(s: string, quote: Option<char>)
    requires s != "" && quote.Some?
    ensures Clean(Strip(s, quote), quote)
    decreases |s|, 0
  {
    var o := Strip(s, quote);
    if s[0] == '\\' {
      if |s| > 1 {
        StripClean(s[2..], quote);
        assert o[..2] == s[..2] && o[2..] == Strip(s[2..], quote) && o[0] == s[0];
      }
    } else {
      StripClean(s[1..], if s[0] == quote.value then None else quote);
      assert o[1..] == Strip(s[1..], if s[0] == quote.value then None else quote);
    }
  }

  /** The scanner comes upon a word that ends in a backslash. */
  predicate HasBackslashEnd(s: string, quote: Option<char>)
    decreases |s|
  {
    s != "" &&
    if quote.Some? then
      if s[0] == '\\' then |s| > 1 && HasBackslashEnd(s[2..], quote)
      else HasBackslashEnd(s[1..], if s[0] == quote.value then None else quote)
    else if IsQuote(s[0]) then HasBackslashEnd(s[1..], Some(s[0]))
    else if StartsIdentifier(s[0]) then
      ReadProgress(s);
      var size := Read(s).size;
      if IsCall(s) then HasBackslashEnd(AfterCall(s), None)
      else s[size - 1] == '\\' || HasBackslashEnd(s[size..], None)
    else HasBackslashEnd(s[1..], None)
  }

  lemma CallStart(s: string)
    requires s != "" && StartsIdentifier(s[0]) && IsCall(s)
    ensures s[0] != 'n'
  {
    if s[0] == 'n' {
      var d := Read(s).decoded;
      assert Step(s) == Some(('n', 1)) && d[0] == 'n';
      assert Lower(d)[0] == 'n';
      NoBlockedN(Lower(d));
    }
  }

  lemma Unprefixed(a: string, x: string, y: string)
    ensures a + x == a + y <==> x == y
  {
    assert (a + x)[|a|..] == x && (a + y)[|a|..] == y;
  }

  /** A text is left as it is exactly when it holds no call to remove and no word that ends in a backslash. */
  lemma {:induction false} UnchangedIff(s: string, quote: Option<char>)
    ensures Strip(s, quote) == s <==> !HasCall(s, quote) && !HasBackslashEnd(s, quote)
    decreases |s|
  {
    if s == "" {
    } else if quote.Some? && s[0] == '\\' {
      if |s| > 1 {
        UnchangedIff(s[2..], quote);
        Unprefixed(s[..2], Strip(s[2..], quote), s[2..]);
        assert s == s[..2] + s[2..];
      }
    } else if quote.None? && StartsIdentifier(s[0]) {
      UnchangedWord(s);
    } else {
      var next := if quote.Some? then if s[0] == quote.value then None else quote
                  else if IsQuote(s[0]) then Some(s[0]) else None;
      UnchangedIff(s[1..], next);
      Unprefixed([s[0]], Strip(s[1..], next), s[1..]);
      assert s == [s[0]] + s[1..];
    }
  }

  /** What the scanner does at a word that is no call. */
  lemma AtWord(raw: string, t: string)
    requires raw != "" && StartsIdentifier(raw[0]) && Read(raw + t).size == |raw| && !IsCall(raw + t)
    ensures Strip(raw + t, None) == Mended(raw) + Strip(t, None)
    ensures HasCall(raw + t, None) <==> HasCall(t, None)
    ensures HasBackslashEnd(raw + t, None) <==> raw[|raw| - 1] == '\\' || HasBackslashEnd(t, None)
  {
    var s := raw + t;
    assert s[..|raw|] == raw && s[|raw|..] == t && s[|raw| - 1] == raw[|raw| - 1];
  }

  lemma UnchangedWord(s: string)
    requires s != "" && StartsIdentifier(s[0])
    ensures Strip(s, None) == s <==> !HasCall(s, None) && !HasBackslashEnd(s, None)
    decreases |s|, 0
  {
    ReadProgress(s);
    if IsCall(s) {
      CallChanges(s);
    } else {
      var raw, t := s[..Read(s).size], s[Read(s).size..];
      assert s == raw + t;
      UnchangedIff(t, None);
      MendedChanges(raw, t);
      AtWord(raw, t);
    }
  }

  lemma CallChanges(s: string)
    requires s != "" && StartsIdentifier(s[0]) && IsCall(s)
    ensures Strip(s, None) != s
  {
    CallStart(s);
    assert Strip(s, None)[0] == 'n';
  }

  lemma MendedChanges(raw: string, t: string)
    requires raw != ""
    ensures Mended(raw) + Strip(t, None) == raw + t <==> raw[|raw| - 1] != '\\' && Strip(t, None) == t
  {
    if raw[|raw| - 1] == '\\' {
      assert (Mended(raw) + Strip(t, None))[|raw| - 1] == REPLACEMENT && (raw + t)[|raw| - 1] == '\\';
    } else {
      Unprefixed(raw, Strip(t, None), t);
    }
  }

  /** However it is escaped, no call that could reach the network survives; a second run changes nothing. */
  lemma ClosedAndIdempotent(css: string)
    ensures !HasCall(Strip(css, None), None)
    ensures Strip(Strip(css, None), None) == Strip(css, None)
  {
    StripClean(css, None);
  }

  // The scanners as they run.

  /** One step of reading, on the index; no step leaves it where it is. */
  method ReadOne(css: string, index: nat) returns (c: char, next: nat)
    requires index < |css|
    ensures index <= next <= |css|
    ensures Step(css[index..]) == if next == index then None else Some((c, next - index))
  {
    ghost var s := css[index..];
    c, next := css[index], index + 1;
    if InIdentifier(c) {
      return;
    }
    if c != '\\' {
      next := index;
      return;
    }
    var n := HexRun(css[index + 1..], 6);
    assert css[index + 1..] == s[1..];
    if n > 0 {
      next := index + 1 + n;
      assert css[index + 1..next] == s[1..1 + n];
      c := CharOf(Number(css[index + 1..next], 16));
      if next < |css| && IsSpace(css[next]) {
        next := next + 1;
      }
    } else if index + 1 < |css| {
      c, next := css[index + 1], index + 2;
    } else {
      c := REPLACEMENT;
    }
  }

  /** One turn of reading: what is read from here is one character more than what is read from the next index. */
  method ReadTurn(css: string, index: nat) returns (c: char, next: nat)
    requires index < |css|
    ensures index <= next <= |css|
    ensures next == index ==> Read(css[index..]) == Identifier("", 0)
    ensures next > index ==> Read(css[index..]).decoded == [c] + Read(css[next..]).decoded
    ensures next > index ==> Read(css[index..]).size == next - index + Read(css[next..]).size
  {
    c, next := ReadOne(css, index);
    if next > index {
      Sliced(css, index, next - index);
      ReadStep(css[index..], c, next - index, css[next..]);
    }
  }

  method ReadCssIdentifier(css: string, start: nat) returns (decoded: string, end: nat)
    requires start <= |css|
    ensures start <= end <= |css| && Read(css[start..]) == Identifier(decoded, end - start)
  {
    decoded, end := "", start;
    ghost var rest := Read(css[start..]);
    while end < |css|
      invariant start <= end <= |css| && rest == Read(css[end..])
      invariant Read(css[start..]) == Identifier(decoded + rest.decoded, end - start + rest.size)
      decreases |css| - end
    {
      var c, next := ReadTurn(css, end);
      if next == end {
        break;
      }
      rest := Read(css[next..]);
      Grow(decoded, [c], rest.decoded);
      decoded, end := decoded + [c], next;
    }
  }

  method FindCssFunctionEnd(css: string, opening: nat) returns (end: nat)
    requires opening <= |css|
    ensures end == opening + CallSize(css[opening..], 0, None)
  {
    var depth: int, quote: Option<char> := 0, None;
    var index := opening;
    while index < |css|
      invariant opening <= index
      invariant index <= |css| ==> CallSize(css[opening..], 0, None) == index - opening + CallSize(css[index..], depth, quote)
      invariant index > |css| ==> CallSize(css[opening..], 0, None) == |css| - opening
      decreases |css| - index
    {
      var c := css[index];
      assert css[index..][1..] == css[index + 1..];
      if quote.Some? {
        if c == '\\' {
          index := index + 1;
          if index < |css| {
            assert css[index - 1..][2..] == css[index + 1..];
          }
        } else if c == quote.value {
          quote := None;
        }
        index := index + 1;
        continue;
      }
      if IsQuote(c) {
        quote := Some(c);
      } else if c == '(' {
        depth := depth + 1;
      } else if c == ')' {
        depth := depth - 1;
        if depth == 0 {
          return index + 1;
        }
      }
      index := index + 1;
    }
    return |css|;
  }

  method SkipSpace(css: string, from: nat) returns (to: nat)
    requires from <= |css|
    ensures to == from + SpaceRun(css[from..])
  {
    to := from;
    while to < |css| && IsSpace(css[to])
      invariant from <= to <= |css|
      invariant SpaceRun(css[from..]) == to - from + SpaceRun(css[to..])
    {
      assert css[to..][1..] == css[to + 1..];
      to := to + 1;
    }
  }

  lemma Sliced(css: string, cursor: nat, k: nat)
    requires cursor + k <= |css|
    ensures css[cursor..][k..] == css[cursor + k..] && css[cursor..][..k] == css[cursor..cursor + k]
  {
  }

  /** At an identifier: what is put out for it, or for the call it begins, and what is left to scan. */
  function PieceOf(s: string, id: Identifier): string
    requires id.size <= |s|
  {
    if CallsNetwork(s, id) then "none" else Mended(s[..id.size])
  }

  function RestOf(s: string, id: Identifier): string
    requires id.size <= |s|
  {
    if CallsNetwork(s, id) then AfterOpening(s, OpeningOf(s, id.size)) else s[id.size..]
  }

  lemma WordStrip(s: string)
    requires s != "" && StartsIdentifier(s[0])
    ensures Read(s).size > 0 && |RestOf(s, Read(s))| < |s|
    ensures Strip(s, None) == PieceOf(s, Read(s)) + Strip(RestOf(s, Read(s)), None)
  {
    ReadProgress(s);
  }

  lemma OpeningAt(css: string, cursor: nat, size: nat, opening: nat)
    requires cursor + size <= |css| && opening == cursor + size + SpaceRun(css[cursor + size..])
    ensures opening <= |css| && opening - cursor == OpeningOf(css[cursor..], size)
    ensures css[cursor..][size..] == css[cursor + size..] && css[cursor..][..size] == css[cursor..cursor + size]
    ensures opening < |css| ==> AfterOpening(css[cursor..], opening - cursor) == css[opening + CallSize(css[opening..], 0, None)..]
  {
    Sliced(css, cursor, size);
    Sliced(css, cursor, opening - cursor);
    if opening < |css| {
      Sliced(css, cursor, opening - cursor + CallSize(css[opening..], 0, None));
    }
  }

  method FindOpening(css: string, cursor: nat, size: nat) returns (opening: nat)
    requires cursor + size <= |css|
    ensures cursor + size <= opening <= |css| && opening - cursor == OpeningOf(css[cursor..], size)
    ensures opening < |css| ==> css[cursor..][opening - cursor] == css[opening]
    ensures opening < |css| ==> AfterOpening(css[cursor..], opening - cursor) == css[opening + CallSize(css[opening..], 0, None)..]
  {
    opening := SkipSpace(css, cursor + size);
    OpeningAt(css, cursor, size, opening);
  }

  method MendRaw(raw: string) returns (mended: string)
    requires raw != ""
    ensures mended == Mended(raw)
  {
    mended := if raw[|raw| - 1] == '\\' then raw[..|raw| - 1] + [REPLACEMENT] else raw;
  }

  /** What an identifier at the cursor is put out as, and where the scan goes on. */
  method StripWord(css: string, cursor: nat, id: Identifier) returns (piece: string, next: nat)
    requires cursor + id.size <= |css| && id.size > 0
    ensures next <= |css| && piece == PieceOf(css[cursor..], id) && css[next..] == RestOf(css[cursor..], id)
  {
    var opening := FindOpening(css, cursor, id.size);
    if opening < |css| && css[opening] == '(' && Includes(Blocked(), Lower(id.decoded)) {
      next := FindCssFunctionEnd(css, opening);
      return "none", next;
    }
    Sliced(css, cursor, id.size);
    piece := MendRaw(css[cursor..cursor + id.size]);
    next := cursor + id.size;
  }

  lemma Grow(output: string, piece: string, rest: string)
    ensures output + (piece + rest) == output + piece + rest
  {
  }

  method StripNetworkCssFunctions(css: string) returns (output: string)
    ensures output == Strip(css, None)
  {
    output := "";
    var cursor, quote: Option<char> := 0, None;
    while cursor < |css|
      invariant 0 <= cursor
      invariant output + Strip(if cursor <= |css| then css[cursor..] else "", quote) == Strip(css, None)
      decreases |css| - cursor
    {
      var c := css[cursor];
      ghost var s := css[cursor..];
      assert s[1..] == css[cursor + 1..];
      if quote.Some? {
        if c == '\\' {
          var piece := if cursor + 1 < |css| then [c, css[cursor + 1]] else [c];
          assert cursor + 1 < |css| ==> s[2..] == css[cursor + 2..] && s[..2] == piece;
          Grow(output, piece, Strip(if cursor + 2 <= |css| then css[cursor + 2..] else "", quote));
          output := output + piece;
          cursor := cursor + 2;
          continue;
        }
        if c == quote.value {
          quote := None;
        }
        Grow(output, [c], Strip(s[1..], quote));
        output := output + [c];
        cursor := cursor + 1;
        continue;
      }
      if IsQuote(c) {
        quote := Some(c);
      } else if StartsIdentifier(c) {
        WordStrip(s);
        var decoded, end := ReadCssIdentifier(css, cursor);
        var piece, next := StripWord(css, cursor, Identifier(decoded, end - cursor));
        Grow(output, piece, Strip(css[next..], None));
        output := output + piece;
        cursor := next;
        continue;
      }
      Grow(output, [c], Strip(s[1..], quote));
      output := output + [c];
      cursor := cursor + 1;
    }
  }
}
