/** Where a call in a style ends, and that a call that can reach the network goes, however its name is spelled. */
module CssCalls {
  import opened Options
  import opened Text
  import opened Css

  // ----- The end of a call -----

  /** A text with blanks for its strings, an escape in a string taking two characters. */
  function Masked(s: string, quote: Option<char>): (m: string)
    ensures |m| == |s|
  {
    if s == "" then ""
    else if quote.Some? then
      if s[0] == '\\' then if |s| > 1 then "  " + Masked(s[2..], quote) else " "
      else " " + Masked(s[1..], if s[0] == quote.value then None else quote)
    else if s[0] == '"' || s[0] == '\'' then " " + Masked(s[1..], Some(s[0]))
    else [s[0]] + Masked(s[1..], None)
  }

  /** How many parentheses are open after k characters. */
  function Level(m: string, k: nat): int
    requires k <= |m|
  {
    if k == 0 then 0
    else Level(m, k - 1) + (if m[k - 1] == '(' then 1 else if m[k - 1] == ')' then -1 else 0)
  }

  function Turn(c: char): int {
    if c == '(' then 1 else if c == ')' then -1 else 0
  }

  lemma {:induction false} LevelBehind(a: string, m: string, k: nat)
    requires k <= |m|
    ensures Level(a + m, |a| + k) == Level(a + m, |a|) + Level(m, k)
  {
    if k > 0 {
      LevelBehind(a, m, k - 1);
      assert (a + m)[|a| + (k - 1)] == m[k - 1];
    }
  }

  lemma {:induction false} LevelWithin(a: string, m: string, k: nat)
    requires k <= |a|
    ensures Level(a + m, k) == Level(a, k)
  {
    if k > 0 {
      LevelWithin(a, m, k - 1);
      assert (a + m)[k - 1] == a[k - 1];
    }
  }

  /** From a depth, the text returns to depth 0 after n characters and not before; or it ends there and never does. */
  ghost predicate Returns(m: string, depth: int, n: nat) {
    && n <= |m|
    && (forall k :: 0 <= k < n ==> depth + Level(m, k) != 0)
    && (depth + Level(m, n) == 0 || n == |m|)
  }

  lemma ReturnsBehind(a: string, m: string, depth: int, n: nat)
    requires Returns(m, depth + Level(a, |a|), n)
    requires forall k :: 0 <= k <= |a| ==> depth + Level(a, k) != 0
    ensures Returns(a + m, depth, |a| + n)
  {
    LevelWithin(a, m, |a|);
    forall k | 0 <= k < |a| + n
      ensures depth + Level(a + m, k) != 0
    {
      if k <= |a| {
        LevelWithin(a, m, k);
      } else {
        LevelBehind(a, m, k - |a|);
      }
    }
    LevelBehind(a, m, n);
  }

  /** One masked character, and what is behind it. */
  lemma ReturnsNext(c: char, m: string, depth: int, n: nat)
    requires depth > 0 && depth + Turn(c) > 0 && Returns(m, depth + Turn(c), n)
    ensures Returns([c] + m, depth, 1 + n)
  {
    assert Level([c], 1) == Turn(c);
    ReturnsBehind([c], m, depth, n);
  }

  lemma ReturnsNow(m: string)
    ensures Returns([')'] + m, 1, 1)
  {
    assert Level([')'] + m, 1) == -1 && Level([')'] + m, 0) == 0;
  }

  lemma InString(s: string, depth: int, quote: char)
    requires depth > 0 && s != "" && s[0] != '\\'
    requires var next := if s[0] == quote then None else Some(quote);
      Returns(Masked(s[1..], next), depth, CallSize(s[1..], depth, next))
    ensures Returns(Masked(s, Some(quote)), depth, CallSize(s, depth, Some(quote)))
  {
    var next := if s[0] == quote then None else Some(quote);
    ReturnsNext(' ', Masked(s[1..], next), depth, CallSize(s[1..], depth, next));
  }

  lemma AtEscape(s: string, depth: int, quote: char)
    requires depth > 0 && s != "" && s[0] == '\\'
    requires |s| > 1 ==> Returns(Masked(s[2..], Some(quote)), depth, CallSize(s[2..], depth, Some(quote)))
    ensures Returns(Masked(s, Some(quote)), depth, CallSize(s, depth, Some(quote)))
  {
    if |s| > 1 {
      assert Level("  ", 1) == 0 && Level("  ", 2) == 0;
      ReturnsBehind("  ", Masked(s[2..], Some(quote)), depth, CallSize(s[2..], depth, Some(quote)));
    } else {
      assert s == "\\" && Masked(s, Some(quote)) == " ";
    }
  }

  lemma AtQuote(s: string, depth: int)
    requires depth > 0 && s != "" && IsQuote(s[0])
    requires Returns(Masked(s[1..], Some(s[0])), depth, CallSize(s[1..], depth, Some(s[0])))
    ensures Returns(Masked(s, None), depth, CallSize(s, depth, None))
  {
    ReturnsNext(' ', Masked(s[1..], Some(s[0])), depth, CallSize(s[1..], depth, Some(s[0])));
  }

  lemma AtOther(s: string, depth: int)
    requires depth > 0 && s != "" && !IsQuote(s[0])
    requires !(s[0] == ')' && depth == 1) ==> Returns(Masked(s[1..], None), depth + Turn(s[0]), CallSize(s[1..], depth + Turn(s[0]), None))
    ensures Returns(Masked(s, None), depth, CallSize(s, depth, None))
  {
    if s[0] == ')' && depth == 1 {
      ReturnsNow(Masked(s[1..], None));
    } else {
      ReturnsNext(s[0], Masked(s[1..], None), depth, CallSize(s[1..], depth + Turn(s[0]), None));
    }
  }

  lemma {:induction false} CallReturns(s: string, depth: int, quote: Option<char>)
    requires depth > 0
    ensures Returns(Masked(s, quote), depth, CallSize(s, depth, quote))
    decreases |s|
  {
    if s == "" {
    } else if quote.Some? {
      if s[0] == '\\' {
        if |s| > 1 {
          CallReturns(s[2..], depth, quote);
        }
        AtEscape(s, depth, quote.value);
      } else {
        CallReturns(s[1..], depth, if s[0] == quote.value then None else quote);
        InString(s, depth, quote.value);
      }
    } else if IsQuote(s[0]) {
      CallReturns(s[1..], depth, Some(s[0]));
      AtQuote(s, depth);
    } else {
      if !(s[0] == ')' && depth == 1) {
        CallReturns(s[1..], depth + Turn(s[0]), None);
      }
      AtOther(s, depth);
    }
  }

  /** After n characters, and not before, the parentheses of a text that opens with one are equal in number; or they never are. */
  ghost predicate EvensAt(m: string, n: nat) {
    && 0 < n <= |m|
    && (forall k :: 0 < k < n ==> Level(m, k) != 0)
    && (Level(m, n) == 0 || n == |m|)
  }

  lemma BehindOpening(m: string, n: nat)
    requires Returns(m, 1, n)
    ensures EvensAt(['('] + m, 1 + n)
  {
    assert Level(['('], 1) == 1;
    forall k | 0 <= k <= |m|
      ensures Level(['('] + m, 1 + k) == 1 + Level(m, k)
    {
      LevelWithin(['('], m, 1);
      LevelBehind(['('], m, k);
    }
    forall k | 0 < k < 1 + n
      ensures Level(['('] + m, k) != 0
    {
      assert Level(['('] + m, 1 + (k - 1)) == 1 + Level(m, k - 1);
    }
  }

  /**
   * A call ends with the first character, after its opening parenthesis, where
   * as many parentheses have closed as opened, outside strings; with the text if
   * there is none.
   */
  lemma CallEndsFirst(s: string)
    requires s != "" && s[0] == '('
    ensures EvensAt(Masked(s, None), CallSize(s, 0, None))
  {
    CallReturns(s[1..], 1, None);
    BehindOpening(Masked(s[1..], None), CallSize(s[1..], 1, None));
    assert Masked(s, None) == ['('] + Masked(s[1..], None);
    assert CallSize(s, 0, None) == 1 + CallSize(s[1..], 1, None);
  }

  lemma OneEnd(m: string, n: nat, k: nat)
    requires EvensAt(m, n) && 0 < k <= |m| && Level(m, k) == 0 && forall j :: 0 < j < k ==> Level(m, j) != 0
    ensures n == k
  {
  }

  // ----- A call as it is written -----

  /** Read from in or out of a string, the text ends outside one. */
  predicate EndsOutside(s: string, quote: Option<char>)
    decreases |s|
  {
    if s == "" then quote.None?
    else if quote.Some? then
      if s[0] == '\\' then |s| > 1 && EndsOutside(s[2..], quote)
      else EndsOutside(s[1..], if s[0] == quote.value then None else quote)
    else EndsOutside(s[1..], if s[0] == '"' || s[0] == '\'' then Some(s[0]) else None)
  }

  lemma {:induction false} MaskedBefore(a: string, b: string, quote: Option<char>)
    requires EndsOutside(a, quote)
    ensures Masked(a + b, quote) == Masked(a, quote) + Masked(b, None)
    decreases |a|
  {
    if a == "" {
      assert a + b == b;
    } else if quote.Some? && a[0] == '\\' {
      assert (a + b)[2..] == a[2..] + b;
      MaskedBefore(a[2..], b, quote);
    } else {
      assert (a + b)[1..] == a[1..] + b;
      MaskedBefore(a[1..], b,
                   if quote.Some? then if a[0] == quote.value then None else quote
                   else if a[0] == '"' || a[0] == '\'' then Some(a[0]) else None);
    }
  }

  /** Closed strings, and outside them no more parentheses closed than opened at any place, and as many at the end. */
  ghost predicate Balanced(body: string) {
    && EndsOutside(body, None)
    && (forall k :: 0 <= k <= |body| ==> Level(Masked(body, None), k) >= 0)
    && Level(Masked(body, None), |body|) == 0
  }

  lemma EnclosedLevels(mask: string, rest: string, k: nat)
    requires k <= |mask| + 2
    requires (forall j :: 0 <= j <= |mask| ==> Level(mask, j) >= 0) && Level(mask, |mask|) == 0
    ensures var m := ['('] + (mask + ([')'] + rest));
      if 0 < k <= |mask| + 1 then Level(m, k) > 0 else Level(m, k) == 0
  {
    var inner := mask + ([')'] + rest);
    if k > 0 {
      LevelBehind(['('], inner, k - 1);
      LevelWithin(['('], inner, 1);
      assert Level(['('], 1) == 1;
      if k <= |mask| + 1 {
        LevelWithin(mask, [')'] + rest, k - 1);
      } else {
        LevelWithin(mask, [')'] + rest, |mask|);
        assert inner[|mask|] == ')';
      }
    }
  }

  lemma MaskedCall(body: string, t: string)
    requires EndsOutside(body, None)
    ensures Masked("(" + (body + (")" + t)), None) == ['('] + (Masked(body, None) + ([')'] + Masked(t, None)))
  {
    var inner, behind := body + (")" + t), ")" + t;
    assert ("(" + inner)[0] == '(' && ("(" + inner)[1..] == inner;
    assert behind[0] == ')' && behind[1..] == t;
    MaskedBefore(body, behind, None);
  }

  /** A call with a balanced body ends behind its closing parenthesis. */
  lemma BalancedCall(body: string, t: string)
    requires Balanced(body)
    ensures CallSize("(" + (body + (")" + t)), 0, None) == |body| + 2
  {
    var s, mask := "(" + (body + (")" + t)), Masked(body, None);
    var m := ['('] + (mask + ([')'] + Masked(t, None)));
    MaskedCall(body, t);
    CallEndsFirst(s);
    forall k | 0 < k <= |mask| + 2
      ensures k <= |mask| + 1 ==> Level(m, k) > 0
      ensures k == |mask| + 2 ==> Level(m, k) == 0
    {
      EnclosedLevels(mask, Masked(t, None), k);
    }
    OneEnd(m, CallSize(s, 0, None), |mask| + 2);
  }

  // ----- A name as it is spelled -----

  /** A character of a name: as it is, behind a backslash, or by its code point and at most one blank. */
  datatype Sign = Bare(c: char) | Quoted(c: char) | Coded(c: char, digits: string, blank: string)

  function Signed(g: Sign): string {
    match g
    case Bare(c) => [c]
    case Quoted(c) => ['\\', c]
    case Coded(_, digits, blank) => ['\\'] + digits + blank
  }

  function Written(gs: seq<Sign>): string {
    if gs == [] then "" else Signed(gs[0]) + Written(gs[1..])
  }

  function Said(gs: seq<Sign>): string {
    if gs == [] then "" else [gs[0].c] + Said(gs[1..])
  }

  /** The sign stands for its character, with the text behind it: a code without a blank ends by itself. */
  predicate Stands(g: Sign, behind: string) {
    match g
    case Bare(c) => 'a' <= c <= 'z' || 'A' <= c <= 'Z' || '0' <= c <= '9' || c == '-' || c == '_' || c > '\U{007F}'
    case Quoted(c) => !HexDigit(c)
    case Coded(c, digits, blank) =>
      && 0 < |digits| <= 6 && AllHex(digits) && 0 < c as int == Value(digits, 16)
      && if blank != "" then |blank| == 1 && IsSpace(blank[0])
         else behind == "" || (!IsSpace(behind[0]) && (|digits| == 6 || !HexDigit(behind[0])))
  }

  predicate AllStand(gs: seq<Sign>, behind: string) {
    gs == [] || (Stands(gs[0], Written(gs[1..]) + behind) && AllStand(gs[1..], behind))
  }

  lemma CodeStep(s: string, digits: string, rest: string, c: char)
    requires 0 < |digits| <= 6 && AllHex(digits) && 0 < c as int == Value(digits, 16)
    requires s == ['\\'] + (digits + rest) && (|digits| == 6 || rest == "" || !HexDigit(rest[0]))
    ensures Step(s) == Some((c, 1 + |digits| + if rest != "" && IsSpace(rest[0]) then 1 else 0))
  {
    var end := 1 + |digits|;
    HexRunIs(digits, rest, 6);
    ValueIsNumber(digits, 16);
    assert s[1..] == digits + rest;
    assert s[1..end] == digits;
    assert end < |s| ==> s[end] == rest[0];
  }

  lemma CodedStep(g: Sign, behind: string)
    requires g.Coded? && Stands(g, behind)
    ensures Step(Signed(g) + behind) == Some((g.c, |Signed(g)|))
  {
    assert Signed(g) + behind == ['\\'] + (g.digits + (g.blank + behind));
    if g.blank != "" {
      assert (g.blank + behind)[0] == g.blank[0] && !HexDigit(g.blank[0]);
    } else {
      assert g.blank + behind == behind;
    }
    CodeStep(Signed(g) + behind, g.digits, g.blank + behind, g.c);
  }

  lemma SignStep(g: Sign, behind: string)
    requires Stands(g, behind)
    ensures Step(Signed(g) + behind) == Some((g.c, |Signed(g)|)) && (Signed(g) + behind)[|Signed(g)|..] == behind
  {
    if g.Coded? {
      CodedStep(g, behind);
    } else if g.Quoted? {
      var s := Signed(g) + behind;
      assert s[0] == '\\' && s[1] == g.c && s[1..][0] == g.c;
    }
  }

  lemma SignReads(g: Sign, word: string, behind: string, said: string)
    requires Stands(g, word + behind) && Read(word + behind) == Identifier(said, |word|)
    ensures Read(Signed(g) + word + behind) == Identifier([g.c] + said, |Signed(g) + word|)
  {
    SignStep(g, word + behind);
    Joined(Signed(g), word, behind);
    ReadStep(Signed(g) + (word + behind), g.c, |Signed(g)|, word + behind);
  }

  /** However a name is spelled, it is read as what it says, and to its end. */
  lemma {:induction false} SpellingReads(gs: seq<Sign>, behind: string)
    requires AllStand(gs, behind) && Outside(behind)
    ensures Read(Written(gs) + behind) == Identifier(Said(gs), |Written(gs)|)
    decreases |gs|
  {
    if gs == [] {
      assert Written(gs) + behind == behind;
    } else {
      SpellingReads(gs[1..], behind);
      SignReads(gs[0], Written(gs[1..]), behind, Said(gs[1..]));
    }
  }

  // ----- A call that can reach the network -----

  predicate ReachesNetwork(name: string) {
    Lower(name) in ["url", "image-set", "-webkit-image-set", "expression"]
  }

  /** In capitals too. */
  lemma SpelledReaches(name: string)
    requires Spells(name, "url") || Spells(name, "image-set") || Spells(name, "-webkit-image-set") || Spells(name, "expression")
    ensures ReachesNetwork(name)
  {
    if Spells(name, "url") {
      SpelledIsLower(name, "url");
    } else if Spells(name, "image-set") {
      SpelledIsLower(name, "image-set");
    } else if Spells(name, "-webkit-image-set") {
      SpelledIsLower(name, "-webkit-image-set");
    } else {
      SpelledIsLower(name, "expression");
    }
  }

  lemma ReachesIffBlocked(name: string)
    ensures ReachesNetwork(name) <==> Includes(Blocked(), Lower(name))
  {
    IncludesIff(Blocked(), Lower(name));
  }

  lemma NetworkNameStart(name: string)
    requires ReachesNetwork(name)
    ensures name != "" && (IsLetter(name[0]) || name[0] == '-')
  {
    var low := Lower(name);
    assert low == LowerChar(name[0]) + Lower(name[1..]);
    assert low[0] in ['u', 'i', '-', 'e'] && low[1] in ['r', 'm', 'w', 'x'];
  }

  lemma {:induction false} SpaceRunOver(blanks: string, behind: string)
    requires Blank(blanks) && (behind == "" || !IsSpace(behind[0]))
    ensures SpaceRun(blanks + behind) == |blanks|
  {
    if blanks == "" {
      assert blanks + behind == behind;
    } else {
      assert (blanks + behind)[1..] == blanks[1..] + behind;
      SpaceRunOver(blanks[1..], behind);
    }
  }

  /**
   * However its name is spelled, and whatever blanks are behind it, a call that
   * can reach the network goes with its whole body, calls and strings within
   * it included, and what stands behind it is scanned on.
   */
  lemma NetworkCallGoes(gs: seq<Sign>, blanks: string, body: string, t: string)
    requires ReachesNetwork(Said(gs)) && Balanced(body)
    requires Blank(blanks) && (blanks != "" ==> blanks[0] <= '\U{007F}')
    requires AllStand(gs, blanks + ("(" + (body + (")" + t))))
    ensures Strip(Written(gs) + (blanks + ("(" + (body + (")" + t)))), None) == "none" + Strip(t, None)
  {
    var call := "(" + (body + (")" + t));
    BalancedCall(body, t);
    assert call[0] == '(' && call[|body| + 2..] == t;
    NamedCallGoes(gs, blanks, call, |body| + 2);
  }

  lemma NamedCallGoes(gs: seq<Sign>, blanks: string, call: string, n: nat)
    requires ReachesNetwork(Said(gs)) && Blank(blanks) && (blanks != "" ==> blanks[0] <= '\U{007F}')
    requires AllStand(gs, blanks + call) && call != "" && call[0] == '(' && CallSize(call, 0, None) == n
    ensures Strip(Written(gs) + (blanks + call), None) == "none" + Strip(call[n..], None)
  {
    var behind := blanks + call;
    assert behind[0] == if blanks == "" then '(' else blanks[0];
    SpellingReads(gs, behind);
    SpaceRunOver(blanks, call);
    NetworkNameStart(Said(gs));
    WrittenStart(gs, behind);
    WordCallGoes(Written(gs) + behind, Written(gs), Said(gs), blanks, call, n);
  }

  lemma WordCallGoes(s: string, word: string, name: string, blanks: string, call: string, n: nat)
    requires word != "" && StartsIdentifier(word[0]) && ReachesNetwork(name)
    requires s == word + (blanks + call) && Read(s) == Identifier(name, |word|) && SpaceRun(blanks + call) == |blanks|
    requires call != "" && call[0] == '(' && CallSize(call, 0, None) == n
    ensures Strip(s, None) == "none" + Strip(call[n..], None)
  {
    Parted(s, word, blanks, call);
    CallGoes(s, name, |word|, |blanks|, call, n);
  }

  lemma WrittenStart(gs: seq<Sign>, behind: string)
    requires AllStand(gs, behind) && Said(gs) != "" && (IsLetter(Said(gs)[0]) || Said(gs)[0] == '-')
    ensures Written(gs) != "" && StartsIdentifier(Written(gs)[0])
  {
    assert gs != [] && Said(gs)[0] == gs[0].c && Signed(gs[0]) != "";
    assert Written(gs)[0] == Signed(gs[0])[0];
  }

  lemma CallGoes(s: string, name: string, size: nat, blanks: nat, call: string, n: nat)
    requires s != "" && StartsIdentifier(s[0]) && ReachesNetwork(name) && Read(s) == Identifier(name, size)
    requires size + blanks < |s| && SpaceRun(s[size..]) == blanks && s[size + blanks..] == call
    requires call[0] == '(' && CallSize(call, 0, None) == n
    ensures Strip(s, None) == "none" + Strip(call[n..], None)
  {
    assert s[size..][blanks] == call[0];
    IsCallBy(s, name, s[size..]);
    BehindFound(s, size, size + blanks, call, n);
    CallStripped(s, call[n..]);
  }

  lemma IsCallBy(s: string, name: string, behind: string)
    requires Read(s).decoded == name && Read(s).size <= |s| && s[Read(s).size..] == behind
    requires NextOpens(behind) && ReachesNetwork(name)
    ensures IsCall(s)
  {
    ReachesIffBlocked(name);
    CallIff(s);
  }

  lemma Parted(s: string, word: string, blanks: string, call: string)
    requires s == word + (blanks + call)
    ensures s[|word|..] == blanks + call && s[|word| + |blanks|..] == call && (word != "" ==> s[0] == word[0])
  {
  }

  lemma BehindFound(s: string, size: nat, opening: nat, call: string, n: nat)
    requires Read(s).size == size <= |s| && SpaceRun(s[size..]) == opening - size && opening < |s| && s[opening..] == call
    requires CallSize(call, 0, None) == n
    ensures Opening(s) == opening && AfterCall(s) == call[n..]
  {
    assert s[opening + n..] == s[opening..][n..];
  }

  lemma CallStripped(s: string, rest: string)
    requires s != "" && StartsIdentifier(s[0]) && IsCall(s) && AfterCall(s) == rest
    ensures Strip(s, None) == "none" + Strip(rest, None)
  {
  }

  /** Any other name stays as it is spelled, but for a backslash at its end, and what stands behind it is scanned on. */
  lemma OtherNameStays(gs: seq<Sign>, behind: string)
    requires AllStand(gs, behind) && Outside(behind) && !ReachesNetwork(Said(gs))
    requires Written(gs) != "" && StartsIdentifier(Written(gs)[0])
    ensures Strip(Written(gs) + behind, None) == Mended(Written(gs)) + Strip(behind, None)
  {
    SpellingReads(gs, behind);
    ReachesIffBlocked(Said(gs));
    NotCalled(Written(gs) + behind, Said(gs));
    AtWord(Written(gs), behind);
  }

  lemma NotCalled(s: string, name: string)
    requires Read(s).decoded == name && !Includes(Blocked(), Lower(name))
    ensures !IsCall(s)
  {
    CallIff(s);
  }

  // ----- A string as it is written -----

  /** The inside of a string: the quote occurs in it behind a backslash only. */
  predicate Inside(s: string, quote: char)
    decreases |s|
  {
    s == "" || (if s[0] == '\\' then |s| > 1 && Inside(s[2..], quote) else s[0] != quote && Inside(s[1..], quote))
  }

  lemma {:induction false} InsideStays(s: string, quote: char, t: string)
    requires Inside(s, quote) && quote != '\\'
    ensures Strip(s + ([quote] + t), Some(quote)) == s + ([quote] + Strip(t, None))
    decreases |s|
  {
    var all := s + ([quote] + t);
    if s == "" {
      assert all == [quote] + t && all[1..] == t;
    } else if s[0] == '\\' {
      assert all[2..] == s[2..] + ([quote] + t) && all[..2] == s[..2];
      InsideStays(s[2..], quote, t);
      assert s == s[..2] + s[2..];
    } else {
      assert all[1..] == s[1..] + ([quote] + t);
      InsideStays(s[1..], quote, t);
      assert s == [s[0]] + s[1..];
    }
  }

  /** A string stays, whatever it says, and what stands behind it is scanned on. */
  lemma StringStays(s: string, quote: char, t: string)
    requires (quote == '"' || quote == '\'') && Inside(s, quote)
    ensures Strip([quote] + (s + ([quote] + t)), None) == [quote] + (s + ([quote] + Strip(t, None)))
  {
    InsideStays(s, quote, t);
    assert ([quote] + (s + ([quote] + t)))[1..] == s + ([quote] + t);
  }
}
