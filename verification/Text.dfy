/**
 * Characters and texts as the expressions of pkg/common/src/proto-format.ts use
 * them: classes of characters, small letters, trimming, runs of digits, letters
 * and white space, and the numbers that digits stand for.
 *
 * A text is a sequence of characters; no half of a surrogate pair stands alone.
 */
module Text {
  /** The class `\s`. */
  predicate IsSpace(c: char) {
    var n := c as int;
    || 9 <= n <= 13 || n == 32 || n == 0xA0 || n == 0x1680 || 0x2000 <= n <= 0x200A
    || n == 0x2028 || n == 0x2029 || n == 0x202F || n == 0x205F || n == 0x3000 || n == 0xFEFF
  }

  predicate IsDigit(c: char) {
    '0' <= c <= '9'
  }

  predicate IsLetter(c: char) {
    'a' <= c <= 'z' || 'A' <= c <= 'Z'
  }

  predicate IsHex(c: char) {
    IsDigit(c) || 'a' <= c <= 'f' || 'A' <= c <= 'F'
  }

  function DigitValue(c: char): nat {
    if IsDigit(c) then c as int - '0' as int
    else if 'a' <= c <= 'f' then c as int - 'a' as int + 10
    else if 'A' <= c <= 'F' then c as int - 'A' as int + 10
    else 0
  }

  /** The number that digits spell. */
  function Number(digits: string, base: nat): nat {
    if digits == "" then 0
    else base * Number(digits[..|digits| - 1], base) + DigitValue(digits[|digits| - 1])
  }

  const REPLACEMENT := '\U{FFFD}'

  /** The character of a code point, or the replacement for one that has none. */
  function CharOf(code: nat): char {
    if 0 < code < 0xD800 || 0xE000 <= code < 0x110000 then code as char else REPLACEMENT
  }

  /**
   * Lower case, as far as it can meet ASCII: the dotted capital I gives two
   * characters, and the Kelvin sign gives a k. Other letters beyond ASCII never
   * become ASCII, and are kept.
   */
  function LowerChar(c: char): string {
    if 'A' <= c <= 'Z' then [(c as int + 32) as char]
    else if c == '\U{212A}' then "k"
    else if c == '\U{0130}' then ['i', '\U{0307}']
    else [c]
  }

  function Lower(s: string): string {
    if s == "" then "" else LowerChar(s[0]) + Lower(s[1..])
  }

  predicate IsLowerAscii(s: string) {
    forall i :: 0 <= i < |s| ==> s[i] < '\U{0080}' && !('A' <= s[i] <= 'Z')
  }

  lemma {:induction false} LowerKeeps(s: string)
    requires IsLowerAscii(s)
    ensures Lower(s) == s
  {
    if s != "" {
      LowerKeeps(s[1..]);
      assert s == [s[0]] + s[1..];
    }
  }

  lemma {:induction false} LowerAppend(a: string, b: string)
    ensures Lower(a + b) == Lower(a) + Lower(b)
  {
    if a == "" {
      assert a + b == b;
    } else {
      LowerAppend(a[1..], b);
      assert (a + b)[0] == a[0] && (a + b)[1..] == a[1..] + b;
      var x, y, z := LowerChar(a[0]), Lower(a[1..]), Lower(b);
      assert x + (y + z) == x + y + z;
    }
  }

  /** How many characters from the start are letters, and how many are digits to the base. */
  function LetterRun(s: string): (n: nat)
    ensures n <= |s|
  {
    if s == "" || !IsLetter(s[0]) then 0 else 1 + LetterRun(s[1..])
  }

  function HexRun(s: string, max: nat): (n: nat)
    ensures n <= |s|
  {
    if max == 0 || s == "" || !IsHex(s[0]) then 0 else 1 + HexRun(s[1..], max - 1)
  }

  function DigitRun(s: string): (n: nat)
    ensures n <= |s|
  {
    if s == "" || !IsDigit(s[0]) then 0 else 1 + DigitRun(s[1..])
  }

  function SpaceRun(s: string): (n: nat)
    ensures n <= |s|
  {
    if s == "" || !IsSpace(s[0]) then 0 else 1 + SpaceRun(s[1..])
  }

  predicate IsQuote(c: char) {
    c == '"' || c == '\''
  }

  function TrimStart(s: string): string {
    s[SpaceRun(s)..]
  }

  function TrimEnd(s: string): (t: string)
    ensures |t| <= |s|
  {
    if s != "" && IsSpace(s[|s| - 1]) then TrimEnd(s[..|s| - 1]) else s
  }

  function Trim(s: string): (t: string)
    ensures |t| <= |s|
  {
    TrimEnd(TrimStart(s))
  }

  lemma {:induction false} TrimEndAgain(s: string)
    ensures TrimEnd(TrimEnd(s)) == TrimEnd(s)
    ensures TrimEnd(s) != "" ==> s != "" && TrimEnd(s)[0] == s[0]
  {
    if s != "" && IsSpace(s[|s| - 1]) {
      TrimEndAgain(s[..|s| - 1]);
    }
  }

  lemma {:induction false} TrimStartStops(s: string)
    ensures TrimStart(s) != "" ==> !IsSpace(TrimStart(s)[0])
  {
    if s != "" && IsSpace(s[0]) {
      TrimStartStops(s[1..]);
      assert s[1..][SpaceRun(s[1..])..] == s[SpaceRun(s)..];
    }
  }

  lemma TrimAgain(s: string)
    ensures Trim(Trim(s)) == Trim(s)
  {
    TrimStartStops(s);
    TrimEndAgain(TrimStart(s));
    var t := Trim(s);
    if t != "" {
      assert SpaceRun(t) == 0;
    }
    assert TrimStart(t) == t;
  }

  predicate Blank(s: string) {
    forall i :: 0 <= i < |s| ==> IsSpace(s[i])
  }

  lemma {:induction false} TrimEndIs(s: string) returns (behind: string)
    ensures s == TrimEnd(s) + behind && Blank(behind)
    ensures TrimEnd(s) != "" ==> !IsSpace(TrimEnd(s)[|TrimEnd(s)| - 1])
  {
    behind := "";
    if s != "" && IsSpace(s[|s| - 1]) {
      behind := TrimEndIs(s[..|s| - 1]);
      behind := behind + [s[|s| - 1]];
    }
  }

  lemma {:induction false} SpaceRunIsBlank(s: string)
    ensures Blank(s[..SpaceRun(s)])
  {
    if s != "" && IsSpace(s[0]) {
      SpaceRunIsBlank(s[1..]);
      assert s[..SpaceRun(s)] == [s[0]] + s[1..][..SpaceRun(s[1..])];
    }
  }

  /** Trimming takes the white space from both ends, and nothing else. */
  lemma TrimIs(s: string) returns (before: string, behind: string)
    ensures s == before + Trim(s) + behind && Blank(before) && Blank(behind)
    ensures Trim(s) != "" ==> !IsSpace(Trim(s)[0]) && !IsSpace(Trim(s)[|Trim(s)| - 1])
  {
    before := s[..SpaceRun(s)];
    SpaceRunIsBlank(s);
    TrimStartStops(s);
    TrimEndAgain(TrimStart(s));
    behind := TrimEndIs(TrimStart(s));
    assert s == before + TrimStart(s);
    Joined(before, Trim(s), behind);
  }

  lemma Joined(a: string, b: string, c: string)
    ensures a + b + c == a + (b + c)
  {
  }

  /** Three parts of a text, one behind the other. */
  lemma Parts(a: string, b: string, c: string)
    ensures var s := a + (b + c);
      && s[..|a|] == a && s[|a|..] == b + c && s[|a|..|a| + |b|] == b && s[|a| + |b|..] == c
  {
  }

  /** The word, each of its letters small or capital. */
  predicate Spells(s: string, word: string) {
    |s| == |word| && forall i :: 0 <= i < |s| ==> s[i] == word[i] || ('a' <= word[i] <= 'z' && s[i] as int + 32 == word[i] as int)
  }

  lemma {:induction false} LowerIsSpelled(s: string, word: string)
    requires forall i :: 0 <= i < |word| ==> 'a' <= word[i] <= 'z' && word[i] != 'k'
    ensures Lower(s) == word <==> Spells(s, word)
  {
    if s != "" {
      if |word| > 0 {
        LowerIsSpelled(s[1..], word[1..]);
        assert word == [word[0]] + word[1..];
      }
      var first := LowerChar(s[0]);
      if s[0] != '\U{0130}' {
        assert |first| == 1 && Lower(s)[0] == first[0] && Lower(s)[1..] == Lower(s[1..]);
      } else {
        assert Lower(s)[1] == '\U{0307}';
      }
      SpellsFirst(s, word);
    }
  }

  lemma SpellsFirst(s: string, word: string)
    requires s != ""
    ensures Spells(s, word) <==> word != "" && Spells(s[..1], word[..1]) && Spells(s[1..], word[1..])
  {
    if |s| == |word| {
      assert forall i :: 1 <= i < |s| ==> s[1..][i - 1] == s[i] && word[1..][i - 1] == word[i];
    }
  }

  /** A word spelled with capitals is the word in small letters. */
  lemma {:induction false} SpelledIsLower(s: string, word: string)
    requires Spells(s, word) && IsLowerAscii(word)
    ensures Lower(s) == word
  {
    if s != "" {
      SpellsFirst(s, word);
      SpelledIsLower(s[1..], word[1..]);
      assert word == [word[0]] + word[1..];
    }
  }

  // Digits.

  predicate HexDigit(c: char) {
    '0' <= c <= '9' || 'a' <= c <= 'f' || 'A' <= c <= 'F'
  }

  predicate AllHex(digits: string) {
    forall i :: 0 <= i < |digits| ==> HexDigit(digits[i])
  }

  function Worth(c: char): nat
    requires HexDigit(c)
  {
    if c <= '9' then c as int - '0' as int else if c <= 'F' then c as int - 'A' as int + 10 else c as int - 'a' as int + 10
  }

  /** The number that digits stand for. */
  function Value(digits: string, base: nat): nat
    requires AllHex(digits)
  {
    if digits == "" then 0 else base * Value(digits[..|digits| - 1], base) + Worth(digits[|digits| - 1])
  }

  lemma {:induction false} ValueIsNumber(digits: string, base: nat)
    requires AllHex(digits)
    ensures Number(digits, base) == Value(digits, base)
  {
    if digits != "" {
      ValueIsNumber(digits[..|digits| - 1], base);
    }
  }

  lemma {:induction false} HexRunIs(digits: string, behind: string, max: nat)
    requires |digits| <= max && AllHex(digits)
    requires |digits| == max || behind == "" || !HexDigit(behind[0])
    ensures HexRun(digits + behind, max) == |digits|
  {
    if digits == "" {
      assert digits + behind == behind;
    } else {
      assert (digits + behind)[0] == digits[0] && (digits + behind)[1..] == digits[1..] + behind;
      HexRunIs(digits[1..], behind, max - 1);
    }
  }

  lemma {:induction false} DigitRunIs(digits: string, behind: string)
    requires (forall i :: 0 <= i < |digits| ==> '0' <= digits[i] <= '9') && (behind == "" || !('0' <= behind[0] <= '9'))
    ensures DigitRun(digits + behind) == |digits|
  {
    if digits == "" {
      assert digits + behind == behind;
    } else {
      assert (digits + behind)[0] == digits[0] && (digits + behind)[1..] == digits[1..] + behind;
      DigitRunIs(digits[1..], behind);
    }
  }
}
