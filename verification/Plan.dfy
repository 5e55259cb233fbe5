/**
 * The tokens of a plan line, from pkg/common/src/plan-format.ts: the timing of a
 * step and its action, written and read. Numbers are whole milliseconds, and
 * their decimals are exact.
 */
module Plan {
  import opened Options
  import opened Text

  datatype Action = Click | Fill(value: string)

  datatype Advance = Ms(n: nat) | Next | OnClick

  // Numbers.

  function DigitOf(d: nat): char
    requires d < 10
  {
    (d + '0' as nat) as char
  }

  function Digits(n: nat): (s: string)
    ensures s != ""
  {
    if n < 10 then [DigitOf(n)] else Digits(n / 10) + [DigitOf(n % 10)]
  }

  predicate AllDigits(s: string) {
    s != "" && forall i :: 0 <= i < |s| ==> IsDigit(s[i])
  }

  lemma {:induction false} DigitsRead(n: nat)
    ensures AllDigits(Digits(n)) && Number(Digits(n), 10) == n
  {
    if n >= 10 {
      DigitsRead(n / 10);
      var s := Digits(n);
      assert s[..|s| - 1] == Digits(n / 10);
    } else {
      assert [DigitOf(n)][..0] == "";
    }
  }

  // Timing.

  /** At least four digits. */
  function Padded(digits: string): (s: string)
    ensures |s| >= 4
    decreases 4 - |digits|
  {
    if |digits| < 4 then Padded("0" + digits) else digits
  }

  function DropZeros(digits: string): (s: string)
    ensures |s| <= |digits|
  {
    if digits != "" && digits[|digits| - 1] == '0' then DropZeros(digits[..|digits| - 1]) else digits
  }

  /** A thousandth of the number that the digits spell: the point goes in before the last three. */
  function Shifted(digits: string): string
    requires |digits| >= 4
  {
    digits[..|digits| - 3] + Tail(DropZeros(digits[|digits| - 3..]))
  }

  function Tail(fraction: string): string {
    if fraction == "" then "" else "." + fraction
  }

  function FormatAdvance(a: Option<Advance>): string {
    match a
    case None => ""
    case Some(Ms(n)) => Shifted(Padded(Digits(n))) + "s"
    case Some(Next) => "next"
    case Some(OnClick) => "click"
  }

  /** A decimal times a thousand, rounded half up: the point moves three digits on, and the fourth one rounds. */
  function Millis(whole: string, fraction: string): nat {
    Number(whole + (fraction + "000")[..3], 10) + if |fraction| > 3 && fraction[3] >= '5' then 1 else 0
  }

  /** Seconds: digits, perhaps a point and digits, and the letter. */
  function ParseSeconds(t: string): Option<nat> {
    if t == "" || t[|t| - 1] != 's' then None
    else
      var body := t[..|t| - 1];
      var n := DigitRun(body);
      if n == 0 then None
      else if n == |body| then Some(Millis(body, ""))
      else if body[n] == '.' && AllDigits(body[n + 1..]) then Some(Millis(body[..n], body[n + 1..]))
      else None
  }

  function ParseAdvance(token: string): Option<Advance> {
    var t := Trim(token);
    if t == "click" then Some(OnClick)
    else if t == "next" then Some(Next)
    else if ParseSeconds(t).Some? then Some(Ms(ParseSeconds(t).value))
    else if |t| > 2 && t[|t| - 2..] == "ms" && AllDigits(t[..|t| - 2]) then Some(Ms(Number(t[..|t| - 2], 10)))
    else if AllDigits(t) then Some(Ms(Number(t, 10)))
    else None
  }

  lemma {:induction false} ZeroInFront(s: string)
    requires AllDigits(s)
    ensures AllDigits("0" + s) && Number("0" + s, 10) == Number(s, 10)
  {
    var n := |s| - 1;
    assert ("0" + s)[..|s|] == "0" + s[..n] && ("0" + s)[|s|] == s[n];
    if n > 0 {
      ZeroInFront(s[..n]);
    } else {
      assert s[..n] == "" && "0" + "" == "0" && "0"[..0] == "";
    }
  }

  lemma {:induction false} PaddedRead(s: string)
    requires AllDigits(s)
    ensures AllDigits(Padded(s)) && Number(Padded(s), 10) == Number(s, 10)
    decreases 4 - |s|
  {
    if |s| < 4 {
      ZeroInFront(s);
      PaddedRead("0" + s);
    }
  }

  /** Zeros dropped from three digits are the ones that filling up gives back. */
  lemma ZerosComeBack(s: string)
    requires |s| == 3
    ensures var d := DropZeros(s); (d + "000")[..3] == s && (AllDigits(s) && d != "" ==> AllDigits(d))
  {
    if s[2] != '0' {
      assert DropZeros(s) == s;
    } else if s[1] != '0' {
      assert DropZeros(s) == DropZeros(s[..2]) == s[..2];
    } else if s[0] != '0' {
      assert s[..2][..1] == s[..1];
      assert DropZeros(s) == DropZeros(s[..2]) == DropZeros(s[..1]) == s[..1];
    } else {
      assert s == "000" && s[..2][..1] == s[..1] && s[..1][..0] == "";
      assert DropZeros(s) == DropZeros(s[..2]) == DropZeros(s[..1]) == DropZeros("");
    }
  }

  lemma SplitSeconds(whole: string, fraction: string)
    requires AllDigits(whole) && (fraction == "" || AllDigits(fraction))
    ensures ParseSeconds(whole + Tail(fraction) + "s") == Some(Millis(whole, fraction))
  {
    var tail := Tail(fraction);
    var t := whole + tail + "s";
    assert t[..|t| - 1] == whole + tail;
    DigitRunIs(whole, tail);
    if fraction == "" {
      assert whole + tail == whole;
    } else {
      assert (whole + tail)[..|whole|] == whole && (whole + tail)[|whole| + 1..] == fraction;
    }
  }

  lemma ShiftedBack(whole: string, last: string)
    requires |last| == 3
    ensures Millis(whole, DropZeros(last)) == Number(whole + last, 10)
  {
    ZerosComeBack(last);
  }

  lemma SecondsRead(whole: string, last: string)
    requires AllDigits(whole) && AllDigits(last) && |last| == 3
    ensures ParseSeconds(whole + Tail(DropZeros(last)) + "s") == Some(Number(whole + last, 10))
  {
    ZerosComeBack(last);
    SplitSeconds(whole, DropZeros(last));
    ShiftedBack(whole, last);
  }

  lemma NothingToTrim(s: string)
    requires s != "" ==> !IsSpace(s[0]) && !IsSpace(s[|s| - 1])
    ensures Trim(s) == s
  {
    if s != "" {
      assert SpaceRun(s) == 0 && s[0..] == s;
    }
  }

  lemma DigitsSplit(s: string, k: nat)
    requires AllDigits(s) && 0 < k < |s|
    ensures AllDigits(s[..k]) && AllDigits(s[k..]) && s[..k] + s[k..] == s
  {
  }

  lemma TokenRead(t: string, n: nat)
    requires t != "" && IsDigit(t[0]) && ParseSeconds(t) == Some(n)
    ensures ParseAdvance(t) == Some(Ms(n))
  {
    NothingToTrim(t);
    assert t != "click" && t != "next";
  }

  lemma MsRoundTrip(n: nat)
    ensures ParseAdvance(FormatAdvance(Some(Ms(n)))) == Some(Ms(n))
  {
    var digits := Padded(Digits(n));
    var whole, last := digits[..|digits| - 3], digits[|digits| - 3..];
    DigitsRead(n);
    PaddedRead(Digits(n));
    DigitsSplit(digits, |digits| - 3);
    SecondsRead(whole, last);
    TokenRead(whole + Tail(DropZeros(last)) + "s", n);
  }

  /** Reading takes back what writing the timing did, for every number of milliseconds. */
  lemma AdvanceRoundTrip(a: Option<Advance>)
    ensures ParseAdvance(FormatAdvance(a)) == a
  {
    match a {
      case None => NothingToTrim("");
      case Some(Next) => NothingToTrim("next");
      case Some(OnClick) => NothingToTrim("click");
      case Some(Ms(n)) => MsRoundTrip(n);
    }
  }

  // Every timing there is.

  function Power(k: nat): (p: nat)
    ensures p > 0
  {
    if k == 0 then 1 else 10 * Power(k - 1)
  }

  /** The number that decimal digits stand for. */
  function Decimal(digits: string): nat
    requires forall i :: 0 <= i < |digits| ==> '0' <= digits[i] <= '9'
  {
    Value(digits, 10)
  }

  lemma {:induction false} NumberJoin(a: string, b: string)
    ensures Number(a + b, 10) == Number(a, 10) * Power(|b|) + Number(b, 10)
  {
    if b == "" {
      assert a + b == a;
    } else {
      var n := |b| - 1;
      NumberJoin(a, b[..n]);
      assert (a + b)[..|a + b| - 1] == a + b[..n] && (a + b)[|a + b| - 1] == b[n];
      assert 10 * (Number(a, 10) * Power(n) + Number(b[..n], 10)) == Number(a, 10) * Power(|b|) + 10 * Number(b[..n], 10) by {
        Tenfold(Number(a, 10), Power(n));
      }
    }
  }

  lemma Tenfold(x: nat, y: nat)
    ensures 10 * (x * y) == x * (10 * y)
  {
  }

  lemma {:induction false} NumberBelow(s: string)
    requires forall i :: 0 <= i < |s| ==> IsDigit(s[i])
    ensures Number(s, 10) < Power(|s|)
  {
    if s != "" {
      NumberBelow(s[..|s| - 1]);
    }
  }

  /** Thousandths of w + f / 10^k, rounded half up. */
  function Rounded(w: nat, f: nat, k: nat): int {
    1000 * w + (2000 * f + Power(k)) / (2 * Power(k))
  }

  lemma AtMostTimes(a: int, b: int, d: nat)
    requires a <= b
    ensures a * d <= b * d
  {
  }

  lemma DivideOut(q: nat, d: nat, r: nat)
    requires r < d
    ensures (q * d + r) / d == q
  {
    var x := (q * d + r) / d;
    if x < q {
      AtMostTimes(x + 1, q, d);
    } else if x > q {
      AtMostTimes(q + 1, x, d);
    }
  }

  lemma RoundedShort(w: nat, f: nat, k: nat)
    requires 1 <= k <= 3
    ensures Rounded(w, f, k) == 1000 * w + f * Power(3 - k)
  {
    Powers();
  }

  /** With three digits a, one digit d, and a rest r behind them. */
  lemma RoundedLong(w: nat, a: nat, d: nat, r: nat, k: nat)
    requires k >= 4 && d < 10 && r < Power(k - 4)
    ensures Rounded(w, (a * 10 + d) * Power(k - 4) + r, k) == 1000 * w + a + if d >= 5 then 1 else 0
  {
    var q := Power(k - 4);
    assert Power(k - 3) == 10 * q && Power(k - 2) == 100 * q && Power(k - 1) == 1000 * q && Power(k) == 10000 * q;
    LongSum(a, d, q, r);
    RoundedRest(a, d, q, r);
  }

  lemma LongSum(a: nat, d: nat, q: nat, r: nat)
    ensures 2000 * ((a * 10 + d) * q + r) + 10000 * q == a * (20000 * q) + (2000 * (d * q + r) + 10000 * q)
  {
  }

  lemma RoundedRest(a: nat, d: nat, q: nat, r: nat)
    requires d < 10 && r < q
    ensures (a * (20000 * q) + (2000 * (d * q + r) + 10000 * q)) / (20000 * q) == a + if d >= 5 then 1 else 0
  {
    var rest := 2000 * (d * q + r) + 10000 * q;
    if d >= 5 {
      AtMostTimes(5, d, q);
      AtMostTimes(d, 9, q);
      assert a * (20000 * q) + rest == (a + 1) * (20000 * q) + (rest - 20000 * q);
      DivideOut(a + 1, 20000 * q, rest - 20000 * q);
    } else {
      AtMostTimes(0, d, q);
      AtMostTimes(d, 4, q);
      DivideOut(a, 20000 * q, rest);
    }
  }

  lemma JoinThree(whole: string, three: string)
    requires |three| == 3
    ensures Number(whole + three, 10) == 1000 * Number(whole, 10) + Number(three, 10)
  {
    NumberJoin(whole, three);
    Powers();
    ThousandTimes(Number(whole, 10), Power(|three|));
  }

  lemma ThousandTimes(x: nat, p: nat)
    requires p == 1000
    ensures x * p == 1000 * x
  {
  }

  lemma FilledUp(whole: string, fraction: string, zeros: string)
    requires |zeros| + |fraction| == 3 && forall i :: 0 <= i < |zeros| ==> zeros[i] == '0'
    ensures Number(whole + (fraction + zeros), 10) == 1000 * Number(whole, 10) + Number(fraction, 10) * Power(|zeros|)
  {
    JoinThree(whole, fraction + zeros);
    NumberJoin(fraction, zeros);
    ZerosAre(zeros);
  }

  lemma MillisShort(whole: string, fraction: string)
    requires AllDigits(whole) && AllDigits(fraction) && |fraction| <= 3
    ensures Millis(whole, fraction) == Rounded(Number(whole, 10), Number(fraction, 10), |fraction|)
  {
    var zeros := "000"[..3 - |fraction|];
    assert (fraction + "000")[..3] == fraction + zeros;
    FilledUp(whole, fraction, zeros);
    RoundedShort(Number(whole, 10), Number(fraction, 10), |fraction|);
  }

  lemma {:induction false} ZerosAre(zeros: string)
    requires forall i :: 0 <= i < |zeros| ==> zeros[i] == '0'
    ensures Number(zeros, 10) == 0
  {
    if zeros != "" {
      ZerosAre(zeros[..|zeros| - 1]);
    }
  }

  /** The number of a fraction of more than three digits: the fourth, and a rest behind it. */
  lemma FractionNumber(fraction: string) returns (d: nat, r: nat)
    requires AllDigits(fraction) && |fraction| > 3
    ensures d < 10 && (d >= 5 <==> fraction[3] >= '5') && r < Power(|fraction| - 4)
    ensures Number(fraction, 10) == (Number(fraction[..3], 10) * 10 + d) * Power(|fraction| - 4) + r
  {
    var first, digit, rest := fraction[..3], fraction[3..4], fraction[4..];
    assert fraction == (first + digit) + rest;
    NumberJoin(first + digit, rest);
    NumberJoin(first, digit);
    NumberBelow(rest);
    assert digit[..0] == "" && Number(digit, 10) == DigitValue(fraction[3]);
    Powers();
    d, r := DigitValue(fraction[3]), Number(rest, 10);
  }

  lemma Powers()
    ensures Power(0) == 1 && Power(1) == 10 && Power(2) == 100 && Power(3) == 1000
  {
  }

  lemma ThreeBehind(whole: string, fraction: string)
    requires |fraction| > 3
    ensures Number(whole + (fraction + "000")[..3], 10) == 1000 * Number(whole, 10) + Number(fraction[..3], 10)
  {
    assert (fraction + "000")[..3] == fraction[..3];
    JoinThree(whole, fraction[..3]);
  }

  lemma MillisAre(whole: string, fraction: string, first: nat)
    requires |fraction| > 3 && first == Number(fraction[..3], 10)
    ensures Millis(whole, fraction) == 1000 * Number(whole, 10) + first + if fraction[3] >= '5' then 1 else 0
  {
    ThreeBehind(whole, fraction);
  }

  lemma RoundedIs(w: nat, fraction: string, first: nat)
    requires AllDigits(fraction) && |fraction| > 3 && first == Number(fraction[..3], 10)
    ensures Rounded(w, Number(fraction, 10), |fraction|) == 1000 * w + first + if fraction[3] >= '5' then 1 else 0
  {
    var d, r := FractionNumber(fraction);
    RoundedLong(w, first, d, r, |fraction|);
  }

  lemma MillisLong(whole: string, fraction: string)
    requires AllDigits(whole) && AllDigits(fraction) && |fraction| > 3
    ensures Millis(whole, fraction) == Rounded(Number(whole, 10), Number(fraction, 10), |fraction|)
  {
    var first := Number(fraction[..3], 10);
    MillisAre(whole, fraction, first);
    RoundedIs(Number(whole, 10), fraction, first);
  }

  lemma DigitsAreHex(s: string)
    requires forall i :: 0 <= i < |s| ==> IsDigit(s[i])
    ensures AllHex(s) && Number(s, 10) == Value(s, 10)
  {
    ValueIsNumber(s, 10);
  }

  /** Seconds with a fraction are rounded to the nearest millisecond. */
  lemma FractionForm(whole: string, fraction: string)
    requires AllDigits(whole) && AllDigits(fraction)
    ensures var a := ParseAdvance(whole + ("." + fraction) + "s");
      a.Some? && a.value.Ms? && a.value.n == Rounded(Decimal(whole), Decimal(fraction), |fraction|)
  {
    DigitsAreHex(whole);
    DigitsAreHex(fraction);
    SplitSeconds(whole, fraction);
    if |fraction| <= 3 {
      MillisShort(whole, fraction);
    } else {
      MillisLong(whole, fraction);
    }
    TokenRead(whole + ("." + fraction) + "s", Millis(whole, fraction));
  }

  /** Whole seconds, milliseconds, and a bare number, which counts milliseconds too. */
  lemma NumberForms(digits: string)
    requires AllDigits(digits)
    ensures ParseAdvance(digits + "s") == Some(Ms(1000 * Decimal(digits)))
    ensures ParseAdvance(digits + "ms") == Some(Ms(Decimal(digits)))
    ensures ParseAdvance(digits) == Some(Ms(Decimal(digits)))
  {
    DigitsAreHex(digits);
    WholeSeconds(digits);
    MillisecondsRead(digits);
    BareRead(digits);
  }

  lemma Thousandfold(digits: string)
    ensures Number(digits + "000", 10) == 1000 * Number(digits, 10)
  {
    JoinThree(digits, "000");
    ZerosAre("000");
  }

  lemma NoFraction(digits: string)
    ensures Millis(digits, "") == 1000 * Number(digits, 10)
  {
    assert ("" + "000")[..3] == "000";
    Thousandfold(digits);
  }

  lemma WholeSeconds(digits: string)
    requires AllDigits(digits)
    ensures ParseAdvance(digits + "s") == Some(Ms(1000 * Number(digits, 10)))
  {
    NoFraction(digits);
    SplitSeconds(digits, "");
    assert digits + "" == digits;
    TokenRead(digits + "s", 1000 * Number(digits, 10));
  }

  lemma MillisecondsRead(digits: string)
    requires AllDigits(digits)
    ensures ParseAdvance(digits + "ms") == Some(Ms(Number(digits, 10)))
  {
    var t := digits + "ms";
    NothingToTrim(t);
    DigitRunIs(digits, "m");
    assert t[..|t| - 1] == digits + "m" && (digits + "m")[|digits|] == 'm';
    assert ParseSeconds(t) == None;
    assert t[|t| - 2..] == "ms" && t[..|t| - 2] == digits;
  }

  lemma BareRead(digits: string)
    requires AllDigits(digits)
    ensures ParseAdvance(digits) == Some(Ms(Number(digits, 10)))
  {
    NothingToTrim(digits);
    var last := digits[|digits| - 1];
    assert IsDigit(last) && last != 's';
    assert ParseSeconds(digits) == None;
    if |digits| > 2 {
      assert digits[|digits| - 2..][1] == last;
    }
  }

  /** Blanks around a token do not matter. */
  lemma BlanksAround(before: string, t: string, behind: string)
    requires Blank(before) && Blank(behind) && (t != "" ==> !IsSpace(t[0]) && !IsSpace(t[|t| - 1]))
    ensures ParseAdvance(before + t + behind) == ParseAdvance(t)
  {
    TrimAround(before, t, behind);
    NothingToTrim(t);
  }

  lemma {:induction false} TrimBefore(before: string, s: string)
    requires Blank(before)
    ensures TrimStart(before + s) == TrimStart(s)
  {
    if before == "" {
      assert before + s == s;
    } else {
      assert (before + s)[0] == before[0] && (before + s)[1..] == before[1..] + s;
      TrimBefore(before[1..], s);
    }
  }

  lemma {:induction false} TrimBehind(s: string, behind: string)
    requires Blank(behind)
    ensures TrimEnd(s + behind) == TrimEnd(s)
  {
    if behind == "" {
      assert s + behind == s;
    } else {
      var n := |behind| - 1;
      assert (s + behind)[|s + behind| - 1] == behind[n] && (s + behind)[..|s + behind| - 1] == s + behind[..n];
      TrimBehind(s, behind[..n]);
    }
  }

  lemma TrimAround(before: string, t: string, behind: string)
    requires Blank(before) && Blank(behind) && (t != "" ==> !IsSpace(t[0]) && !IsSpace(t[|t| - 1]))
    ensures Trim(before + t + behind) == t
  {
    Joined(before, t, behind);
    TrimBefore(before, t + behind);
    if t == "" {
      assert t + behind == behind;
      TrimBefore(behind, "");
      assert behind + "" == behind;
    } else {
      assert (t + behind)[0] == t[0] && SpaceRun(t + behind) == 0 && (t + behind)[0..] == t + behind;
      TrimBehind(t, behind);
    }
  }

  /** One of two words, or a number in one of the four forms. */
  ghost predicate IsTiming(t: string) {
    || t == "click" || t == "next" || AllDigits(t)
    || (exists digits :: AllDigits(digits) && (t == digits + "s" || t == digits + "ms"))
    || (exists whole, fraction :: AllDigits(whole) && AllDigits(fraction) && t == whole + ("." + fraction) + "s")
  }

  lemma TimingRead(t: string)
    requires IsTiming(t)
    ensures ParseAdvance(t).Some?
  {
    if t == "click" || t == "next" {
      NothingToTrim(t);
    } else if AllDigits(t) {
      NumberForms(t);
    } else if digits :| AllDigits(digits) && (t == digits + "s" || t == digits + "ms") {
      NumberForms(digits);
    } else {
      var whole, fraction :| AllDigits(whole) && AllDigits(fraction) && t == whole + ("." + fraction) + "s";
      FractionForm(whole, fraction);
    }
  }

  /** A token is read as a timing if and only if it is one, but for white space around it. */
  lemma TimingIff(token: string)
    ensures ParseAdvance(token).Some? <==> IsTiming(Trim(token))
  {
    var t := Trim(token);
    TrimAgain(token);
    if IsTiming(t) {
      TimingRead(t);
    }
    if ParseSeconds(t).Some? {
      SecondsShape(t);
    }
    if |t| > 2 && t[|t| - 2..] == "ms" && AllDigits(t[..|t| - 2]) {
      assert t == t[..|t| - 2] + "ms";
    }
  }

  lemma {:induction false} DigitRunDigits(s: string)
    ensures forall i :: 0 <= i < DigitRun(s) ==> IsDigit(s[i])
  {
    if s != "" && IsDigit(s[0]) {
      DigitRunDigits(s[1..]);
    }
  }

  lemma SecondsShape(t: string)
    requires ParseSeconds(t).Some?
    ensures (exists digits :: AllDigits(digits) && (t == digits + "s" || t == digits + "ms"))
      || (exists whole, fraction :: AllDigits(whole) && AllDigits(fraction) && t == whole + ("." + fraction) + "s")
  {
    var body := t[..|t| - 1];
    var n := DigitRun(body);
    DigitRunDigits(body);
    assert t == body + "s";
    if n == |body| {
      assert AllDigits(body);
    } else {
      assert AllDigits(body[..n]) && body == body[..n] + ("." + body[n + 1..]);
    }
  }

  // Actions.

  function Escaped(value: string): string {
    if value == "" then ""
    else (if value[0] == '"' || value[0] == '\\' then ['\\', value[0]] else [value[0]]) + Escaped(value[1..])
  }

  function FormatAction(a: Option<Action>): string {
    match a
    case None => ""
    case Some(Click) => "@click"
    case Some(Fill(value)) => "@type=\"" + Escaped(value) + "\""
  }

  predicate IsLineEnd(c: char) {
    c == '\n' || c == '\r' || c == '\U{2028}' || c == '\U{2029}'
  }

  /** How far the body of a quoted value goes: plain characters, and escaped ones on the same line. */
  function BodyRun(s: string): (n: nat)
    ensures n <= |s|
    decreases |s|
  {
    if s == "" || s[0] == '"' then 0
    else if s[0] == '\\' then if |s| > 1 && !IsLineEnd(s[1]) then 2 + BodyRun(s[2..]) else 0
    else 1 + BodyRun(s[1..])
  }

  function Unescaped(s: string): string
    decreases |s|
  {
    if s == "" then ""
    else if |s| > 1 && s[0] == '\\' && (s[1] == '"' || s[1] == '\\') then [s[1]] + Unescaped(s[2..])
    else [s[0]] + Unescaped(s[1..])
  }

  const TYPE := "@type=\""

  /** The body of the first token that is closed by a quote. */
  function FindFill(meta: string): Option<string> {
    if |meta| < |TYPE| then None
    else
      var rest := meta[|TYPE|..];
      var n := BodyRun(rest);
      if meta[..|TYPE|] == TYPE && n < |rest| && rest[n] == '"' then Some(rest[..n]) else FindFill(meta[1..])
  }

  predicate IsWord(c: char) {
    IsLetter(c) || IsDigit(c) || c == '_'
  }

  predicate HasClick(meta: string) {
    |meta| >= 6 && ((meta[..6] == "@click" && (|meta| == 6 || !IsWord(meta[6]))) || HasClick(meta[1..]))
  }

  function ParseAction(meta: string): Option<Action> {
    var fill := FindFill(meta);
    if fill.Some? then Some(Fill(Unescaped(fill.value)))
    else if HasClick(meta) then Some(Click)
    else None
  }

  lemma BodyStep(one: string, more: string)
    requires (one != "" && |one| == 1 && one[0] != '"' && one[0] != '\\')
          || (|one| == 2 && one[0] == '\\' && (one[1] == '"' || one[1] == '\\'))
    ensures BodyRun(one + more) == |one| + BodyRun(more)
  {
    assert (one + more)[|one|..] == more && (one + more)[0] == one[0] && |one + more| >= |one|;
  }

  lemma {:induction false} BodyRuns(value: string, tail: string)
    requires tail != "" && tail[0] == '"'
    ensures BodyRun(Escaped(value) + tail) == |Escaped(value)|
  {
    if value == "" {
      assert Escaped(value) + tail == tail;
    } else {
      var one := if value[0] == '"' || value[0] == '\\' then ['\\', value[0]] else [value[0]];
      BodyRuns(value[1..], tail);
      BodyStep(one, Escaped(value[1..]) + tail);
      assert Escaped(value) + tail == one + (Escaped(value[1..]) + tail);
    }
  }

  lemma {:induction false} EscapeUndone(value: string)
    ensures Unescaped(Escaped(value)) == value
  {
    if value != "" {
      EscapeUndone(value[1..]);
      var s := Escaped(value);
      if value[0] == '"' || value[0] == '\\' {
        assert s[0] == '\\' && s[1] == value[0] && s[2..] == Escaped(value[1..]);
      } else {
        assert s[0] == value[0] && s[1..] == Escaped(value[1..]);
      }
      assert value == [value[0]] + value[1..];
    }
  }

  /** Reading takes back what writing the action did, whatever text is typed. */
  lemma ActionRoundTrip(a: Option<Action>)
    ensures ParseAction(FormatAction(a)) == a
  {
    match a {
      case None =>
      case Some(Click) => assert |"@click"| < |TYPE|;
      case Some(Fill(value)) =>
        var body := Escaped(value);
        var meta := TYPE + body + "\"";
        BodyRuns(value, "\"");
        assert meta[|TYPE|..] == body + "\"" && meta[..|TYPE|] == TYPE;
        assert (body + "\"")[..|body|] == body;
        EscapeUndone(value);
    }
  }

  // Actions among other text.

  lemma {:induction false} NoSignNoAction(meta: string)
    requires '@' !in meta
    ensures FindFill(meta) == None && !HasClick(meta)
  {
    if meta != "" {
      assert meta[0] in meta;
      NoSignNoAction(meta[1..]);
      if |meta| >= 6 {
        assert meta[..6][0] == meta[0];
      }
      if |meta| >= |TYPE| {
        assert meta[..|TYPE|][0] == meta[0];
      }
    }
  }

  lemma NotHere(c: char, meta: string)
    requires c != '@'
    ensures FindFill([c] + meta) == FindFill(meta) && (HasClick([c] + meta) <==> HasClick(meta))
  {
    var s := [c] + meta;
    assert s[0] == c && s[1..] == meta;
    if |s| >= |TYPE| {
      assert s[..|TYPE|][0] == c;
    } else {
      TooShort(meta);
    }
    if |s| >= 6 {
      assert s[..6][0] == c;
    } else {
      NoClickIn(meta);
    }
  }

  lemma TooShort(meta: string)
    requires |meta| < |TYPE|
    ensures FindFill(meta) == None
  {
  }

  lemma NoClickIn(meta: string)
    requires |meta| < 6
    ensures !HasClick(meta)
  {
  }

  lemma {:induction false} FoundBehind(before: string, meta: string)
    requires '@' !in before
    ensures FindFill(before + meta) == FindFill(meta) && (HasClick(before + meta) <==> HasClick(meta))
  {
    if before == "" {
      assert before + meta == meta;
    } else {
      assert before[0] in before && before + meta == [before[0]] + (before[1..] + meta);
      NotHere(before[0], before[1..] + meta);
      FoundBehind(before[1..], meta);
    }
  }

  lemma FillHere(body: string, behind: string)
    requires BodyRun(body + ("\"" + behind)) == |body|
    ensures FindFill(TYPE + (body + ("\"" + behind))) == Some(body)
  {
    var meta, rest := TYPE + (body + ("\"" + behind)), body + ("\"" + behind);
    assert meta[|TYPE|..] == rest && meta[..|TYPE|] == TYPE;
    assert rest[|body|] == '"' && rest[..|body|] == body;
  }

  /** The text to type is found behind any text without the sign, whatever comes behind it. */
  lemma FillAnywhere(before: string, value: string, behind: string)
    requires '@' !in before
    ensures ParseAction(before + (TYPE + (Escaped(value) + ("\"" + behind)))) == Some(Fill(value))
  {
    BodyRuns(value, "\"" + behind);
    FillHere(Escaped(value), behind);
    FoundBehind(before, TYPE + (Escaped(value) + ("\"" + behind)));
    EscapeUndone(value);
  }

  lemma ClickHere(behind: string)
    requires '@' !in behind
    ensures HasClick("@click" + behind) <==> behind == "" || !IsWord(behind[0])
    ensures FindFill("@click" + behind) == None
  {
    var meta := "@click" + behind;
    assert meta[..6] == "@click" && meta[1..] == "click" + behind;
    if behind != "" {
      assert meta[6] == behind[0];
    }
    assert '@' !in "click" + behind;
    NoSignNoAction("click" + behind);
    if |meta| >= |TYPE| {
      assert meta[..|TYPE|][1] == 'c' && TYPE[1] == 't';
    }
  }

  predicate GoesOn(c: char) {
    'a' <= c <= 'z' || 'A' <= c <= 'Z' || '0' <= c <= '9' || c == '_'
  }

  /** A click is found among text without the sign, unless a letter, a digit or an underscore goes on with its word. */
  lemma ClickAnywhere(before: string, behind: string)
    requires '@' !in before && '@' !in behind
    ensures ParseAction(before + ("@click" + behind)) == if behind == "" || !GoesOn(behind[0]) then Some(Click) else None
  {
    FoundBehind(before, "@click" + behind);
    ClickHere(behind);
  }

  lemma {:induction false} BodyStops(value: string, tail: string)
    requires tail != "" && BodyRun(tail) == 0
    ensures BodyRun(Escaped(value) + tail) == |Escaped(value)|
  {
    if value == "" {
      assert Escaped(value) + tail == tail;
    } else {
      var one := if value[0] == '"' || value[0] == '\\' then ['\\', value[0]] else [value[0]];
      BodyStops(value[1..], tail);
      BodyStep(one, Escaped(value[1..]) + tail);
      Joined(one, Escaped(value[1..]), tail);
    }
  }

  /** A backslash before the end of a line does not hide it: the text is not closed, and no action is read. */
  lemma LineEndBreaks(value: string, c: char, behind: string)
    requires c in ['\n', '\r', '\U{2028}', '\U{2029}'] && '@' !in Escaped(value) && '@' !in behind
    ensures ParseAction(TYPE + (Escaped(value) + (['\\', c] + behind))) == None
  {
    var tail := ['\\', c] + behind;
    var rest := Escaped(value) + tail;
    var meta := TYPE + rest;
    assert tail[0] == '\\' && tail[1] == c && BodyRun(tail) == 0;
    BodyStops(value, tail);
    assert rest[|Escaped(value)|] == '\\';
    assert meta[|TYPE|..] == rest && meta[..|TYPE|] == TYPE;
    var later := "type=\"" + rest;
    assert meta[1..] == later && '@' !in later;
    NoSignNoAction(later);
    assert meta[..6][1] == 't' && "@click"[1] == 'c';
  }
}
