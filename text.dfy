/** The string operations the game uses: Python's `str.replace` and the decimal
    rendering of an integer inside an f-string. */
module Text {

  /** Python's `s.replace(pat, rep)`: every leftmost, non-overlapping occurrence
      of pat, scanning left to right, is replaced by rep. */
  function ReplaceAll(s: string, pat: string, rep: string): string
    requires |pat| > 0
    decreases |s|
  {
    if |s| < |pat| then s
    else if s[..|pat|] == pat then rep + ReplaceAll(s[|pat|..], pat, rep)
    else [s[0]] + ReplaceAll(s[1..], pat, rep)
  }

  /** The characters of s other than c, in order: a reference definition. */
  function Without(s: string, c: char): (r: string)
    ensures c !in r
    ensures |r| <= |s|
    decreases |s|
  {
    if |s| == 0 then ""
    else if s[0] == c then Without(s[1..], c)
    else [s[0]] + Without(s[1..], c)
  }

  /** Replacing a one-character pattern by nothing deletes that character. */
  lemma {:induction false} ReplaceByNothingDeletes(s: string, c: char)
    ensures ReplaceAll(s, [c], "") == Without(s, c)
    decreases |s|
  {
    if |s| > 0 {
      ReplaceByNothingDeletes(s[1..], c);
      assert s[..1] == [s[0]];
    }
  }

  /** A pattern whose first character does not occur leaves s unchanged. */
  lemma {:induction false} ReplaceAbsentIsIdentity(s: string, pat: string, rep: string)
    requires |pat| > 0 && pat[0] !in s
    ensures ReplaceAll(s, pat, rep) == s
    decreases |s|
  {
    if |s| >= |pat| {
      assert s[..|pat|][0] == s[0];
      assert s[..|pat|] != pat;
      ReplaceAbsentIsIdentity(s[1..], pat, rep);
      assert s == [s[0]] + s[1..];
    }
  }

  /** The rewrite from a sympy formula to its LaTeX display text:
      `s.replace('*', '').replace('**', '^')`. Because the first replace already
      removes every '*', the second never finds "**": the result is s without
      its '*' characters. */
  function LatexOf(s: string): (r: string)
    ensures r == Without(s, '*')
    ensures '*' !in r
  {
    ReplaceByNothingDeletes(s, '*');
    var starless := ReplaceAll(s, "*", "");
    ReplaceAbsentIsIdentity(starless, "**", "^");
    ReplaceAll(starless, "**", "^")
  }

  /** `s.replace('*', '')`, the rewrite used where the second replace is absent. */
  function DeleteStars(s: string): (r: string)
    ensures r == Without(s, '*')
  {
    ReplaceByNothingDeletes(s, '*');
    ReplaceAll(s, "*", "")
  }

  predicate IsDigit(c: char) {
    '0' <= c <= '9'
  }

  /** The number a string of decimal digits denotes, most significant first. */
  function DigitsValue(s: string): int {
    if |s| == 0 then 0
    else 10 * DigitsValue(s[..|s| - 1]) + (s[|s| - 1] as int - '0' as int)
  }

  /** The digit character for d, one of '0' to '9'. */
  function DigitChar(d: nat): (c: char)
    requires d < 10
    ensures IsDigit(c) && c as int - '0' as int == d
  {
    "0123456789"[d]
  }

  /** Decimal digits of n, most significant first, no leading zeros. */
  function NatToString(n: nat): (r: string)
    ensures |r| >= 1
    ensures forall k :: 0 <= k < |r| ==> IsDigit(r[k])
    ensures n > 0 ==> r[0] != '0'
    ensures n == 0 <==> r == "0"
    decreases n
  {
    if n < 10 then [DigitChar(n)]
    else NatToString(n / 10) + [DigitChar(n % 10)]
  }

  /** The rendered digits denote n. */
  lemma {:induction false} NatToStringDenotes(n: nat)
    ensures DigitsValue(NatToString(n)) == n
    decreases n
  {
    var r := NatToString(n);
    if n < 10 {
      assert DigitsValue(r) == 10 * DigitsValue([]) + n;
    } else {
      NatToStringDenotes(n / 10);
      assert r[..|r| - 1] == NatToString(n / 10);
    }
  }

  /** `str(i)` / `f"{i}"` for a Python int: a minus sign before the digits of a negative value. */
  function IntToString(i: int): (r: string)
    ensures '*' !in r
    ensures |r| >= 1 && (i < 0 <==> r[0] == '-')
    ensures r == "0" <==> i == 0
  {
    if i < 0 then "-" + NatToString(-i) else NatToString(i)
  }

  /** The rendering denotes i: the digits give i itself, or -i after the minus sign. */
  lemma IntToStringDenotes(i: int)
    ensures i >= 0 ==> DigitsValue(IntToString(i)) == i
    ensures i < 0 ==> DigitsValue(IntToString(i)[1..]) == -i
  {
    if i < 0 {
      NatToStringDenotes(-i);
      assert IntToString(i)[1..] == NatToString(-i);
    } else {
      NatToStringDenotes(i);
    }
  }
}
