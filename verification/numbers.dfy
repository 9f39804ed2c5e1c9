/** Integer text: `int.TryParse` (default `NumberStyles.Integer`, invariant
    culture) and `int.ToString()`, both over 32-bit `int`. */
module Numbers {
  import opened Wrappers

  const MinInt32: int := -0x8000_0000
  const MaxInt32: int := 0x7FFF_FFFF

  predicate IsDigit(c: char)
  {
    '0' <= c <= '9'
  }

  predicate AllDigits(s: string)
  {
    forall i :: 0 <= i < |s| ==> IsDigit(s[i])
  }

  /** The value of a string of decimal digits, most significant first. */
  function DigitsValue(s: string): (v: nat)
    requires AllDigits(s)
  {
    if |s| == 0 then 0
    else DigitsValue(s[..|s| - 1]) * 10 + (s[|s| - 1] as int - '0' as int)
  }

  predicate IsSign(c: char)
  {
    c == '+' || c == '-'
  }

  /** The white space the number parser skips: the space and the ASCII
      control characters U+0009-U+000D. */
  predicate IsNumberWhite(c: char)
  {
    c == ' ' || ('\t' <= c <= '\r')
  }

  /** `s` without its leading number white space. */
  function SkipLeadingWhite(s: string): string
  {
    if |s| > 0 && IsNumberWhite(s[0]) then SkipLeadingWhite(s[1..]) else s
  }

  /** `s` without its trailing run of U+0000 characters. */
  function DropTrailingNuls(s: string): string
  {
    if |s| > 0 && s[|s| - 1] == '\0' then DropTrailingNuls(s[..|s| - 1]) else s
  }

  /** `s` without its trailing number white space. */
  function DropTrailingWhite(s: string): string
  {
    if |s| > 0 && IsNumberWhite(s[|s| - 1]) then DropTrailingWhite(s[..|s| - 1]) else s
  }

  /** The part of `s` the parser reads as a number: what lies between
      leading white space and trailing white space followed by a run of
      U+0000 characters, the padding the parser skips. */
  function NumberPart(s: string): string
  {
    DropTrailingWhite(DropTrailingNuls(SkipLeadingWhite(s)))
  }

  /** An optional sign, then one or more ASCII digits. Leading zeros are
      allowed. */
  predicate SignedDigits(t: string)
  {
    && |t| > 0
    && (if IsSign(t[0]) then |t| > 1 && AllDigits(t[1..]) else AllDigits(t))
  }

  /** The value of signed digits, before any range check. */
  function SignedValue(t: string): int
    requires SignedDigits(t)
  {
    if t[0] == '-' then 0 - DigitsValue(t[1..]) as int
    else if t[0] == '+' then DigitsValue(t[1..])
    else DigitsValue(t)
  }

  /** The integer syntax `int.TryParse` accepts under the default
      `NumberStyles.Integer`: signed digits, with number white space allowed
      before them, and after them number white space followed by any run of
      U+0000 characters. */
  predicate IntSyntax(s: string)
  {
    SignedDigits(NumberPart(s))
  }

  /** The value such text denotes, before any range check. */
  function SyntaxValue(s: string): int
    requires IntSyntax(s)
  {
    SignedValue(NumberPart(s))
  }

  /** `int.TryParse(s, out v)`: succeeds exactly on well-formed text whose
      value fits in 32 bits, and then yields that value. */
  function ParseInt32(s: string): (r: Option<int>)
    ensures r.Some? <==> IntSyntax(s) && MinInt32 <= SyntaxValue(s) <= MaxInt32
    ensures r.Some? ==> r.value == SyntaxValue(s)
  {
    var t := NumberPart(s);
    if |t| == 0 then None
    else
      var digits := if t[0] == '+' || t[0] == '-' then t[1..] else t;
      if |digits| == 0 || !AllDigits(digits) then None
      else
        var v: int := if t[0] == '-' then 0 - DigitsValue(digits) as int else DigitsValue(digits);
        if MinInt32 <= v <= MaxInt32 then Some(v) else None
  }

  /** Text without padding at either end is read as it stands. */
  lemma NumberPartUnpadded(s: string)
    requires |s| > 0 && !IsNumberWhite(s[0])
    requires s[|s| - 1] != '\0' && !IsNumberWhite(s[|s| - 1])
    ensures NumberPart(s) == s
  {
  }

  /** Leading zeros do not change the value of a digit string. */
  lemma {:induction false} LeadingZeros(z: string, d: string)
    requires forall i :: 0 <= i < |z| ==> z[i] == '0'
    requires AllDigits(d)
    ensures AllDigits(z + d) && DigitsValue(z + d) == DigitsValue(d)
  {
    if |d| == 0 {
      assert z + d == z;
      ZerosValue(z);
    } else {
      var s := z + d;
      assert s[..|s| - 1] == z + d[..|d| - 1];
      assert s[|s| - 1] == d[|d| - 1];
      LeadingZeros(z, d[..|d| - 1]);
    }
  }

  lemma {:induction false} ZerosValue(z: string)
    requires forall i :: 0 <= i < |z| ==> z[i] == '0'
    ensures AllDigits(z) && DigitsValue(z) == 0
  {
    if |z| > 0 {
      ZerosValue(z[..|z| - 1]);
    }
  }

  /** Text `int.TryParse` accepts beyond what `int.ToString` writes: a plus
      sign and leading zeros. */
  lemma ParseExamples()
    ensures ParseInt32("+5") == Some(5)
    ensures ParseInt32("007") == Some(7)
    ensures ParseInt32("-0") == Some(0)
    ensures ParseInt32("+") == None
    ensures ParseInt32("1a") == None
  {
    NumberPartUnpadded("+5");
    NumberPartUnpadded("007");
    NumberPartUnpadded("-0");
    NumberPartUnpadded("+");
    NumberPartUnpadded("1a");
    assert "+5"[1..] == "5";
    assert "-0"[1..] == "0";
    LeadingZeros("00", "7");
    assert "00" + "7" == "007";
    assert "1a"[1] == 'a';
  }

  lemma {:induction false} SkipLeadingWhiteOf(pre: string, x: string)
    requires forall k :: 0 <= k < |pre| ==> IsNumberWhite(pre[k])
    requires |x| > 0 ==> !IsNumberWhite(x[0])
    ensures SkipLeadingWhite(pre + x) == x
    decreases |pre|
  {
    if |pre| == 0 {
      assert pre + x == x;
    } else {
      assert (pre + x)[1..] == pre[1..] + x;
      SkipLeadingWhiteOf(pre[1..], x);
    }
  }

  lemma {:induction false} DropTrailingNulsOf(x: string, nuls: string)
    requires forall k :: 0 <= k < |nuls| ==> nuls[k] == '\0'
    requires |x| > 0 ==> x[|x| - 1] != '\0'
    ensures DropTrailingNuls(x + nuls) == x
    decreases |nuls|
  {
    if |nuls| == 0 {
      assert x + nuls == x;
    } else {
      var shorter := nuls[..|nuls| - 1];
      assert (x + nuls)[..|x + nuls| - 1] == x + shorter;
      DropTrailingNulsOf(x, shorter);
    }
  }

  lemma {:induction false} DropTrailingWhiteOf(x: string, white: string)
    requires forall k :: 0 <= k < |white| ==> IsNumberWhite(white[k])
    requires |x| > 0 ==> !IsNumberWhite(x[|x| - 1])
    ensures DropTrailingWhite(x + white) == x
    decreases |white|
  {
    if |white| == 0 {
      assert x + white == x;
    } else {
      var shorter := white[..|white| - 1];
      assert (x + white)[..|x + white| - 1] == x + shorter;
      DropTrailingWhiteOf(x, shorter);
    }
  }

  /** Padding does not change what is parsed: white space before the
      number, and white space followed by U+0000 characters after it. */
  lemma PaddedNumber(pre: string, core: string, white: string, nuls: string)
    requires forall k :: 0 <= k < |pre| ==> IsNumberWhite(pre[k])
    requires forall k :: 0 <= k < |white| ==> IsNumberWhite(white[k])
    requires forall k :: 0 <= k < |nuls| ==> nuls[k] == '\0'
    requires |core| > 0 && !IsNumberWhite(core[0])
    requires core[|core| - 1] != '\0' && !IsNumberWhite(core[|core| - 1])
    ensures NumberPart(pre + core + white + nuls) == core
    ensures ParseInt32(pre + core + white + nuls) == ParseInt32(core)
  {
    var padded := pre + core + white + nuls;
    assert padded == pre + (core + white + nuls);
    SkipLeadingWhiteOf(pre, core + white + nuls);
    assert core + white + nuls == (core + white) + nuls;
    DropTrailingNulsOf(core + white, nuls);
    DropTrailingWhiteOf(core, white);
    NumberPartUnpadded(core);
  }

  /** Instances of the padding rule. */
  lemma PaddingExamples()
    ensures ParseInt32(" 7\t") == Some(7)
    ensures ParseInt32("1 \0\0") == Some(1)
  {
    PaddedNumber(" ", "7", "\t", "");
    assert " " + "7" + "\t" + "" == " 7\t";
    PaddedNumber("", "1", " ", "\0\0");
    assert "" + "1" + " " + "\0\0" == "1 \0\0";
    NumberPartUnpadded("7");
    NumberPartUnpadded("1");
  }

  /** U+0000 may only end the text: before white space it is refused. */
  lemma NulBeforeWhiteRefused()
    ensures ParseInt32("1\0 ") == None
  {
    SkipLeadingWhiteOf("", "1\0 ");
    assert "" + "1\0 " == "1\0 ";
    DropTrailingNulsOf("1\0 ", "");
    assert "1\0 " + "" == "1\0 ";
    DropTrailingWhiteOf("1\0", " ");
    assert "1\0" + " " == "1\0 ";
    assert "1\0"[1] == '\0';
  }

  /** The decimal digits of `n`, without leading zeros. */
  function NatToString(n: nat): (s: string)
    ensures |s| > 0 && AllDigits(s)
    ensures DigitsValue(s) == n
    decreases n
  {
    var d := ['0' + (n % 10) as char];
    if n < 10 then d
    else
      var s := NatToString(n / 10) + d;
      assert s[..|s| - 1] == NatToString(n / 10);
      s
  }

  /** `int.ToString()` in the invariant culture: a minus sign for a
      negative number, then the digits of its magnitude. */
  function IntToString(n: int): (s: string)
    ensures n >= 0 ==> AllDigits(s) && DigitsValue(s) == n
    ensures n < 0 ==> |s| > 1 && s[0] == '-' && AllDigits(s[1..]) && DigitsValue(s[1..]) == -n
  {
    if n < 0 then "-" + NatToString(-n) else NatToString(n)
  }

  /** `int.TryParse` reads back what `int.ToString` writes. */
  lemma ParseIntToString(n: int)
    requires MinInt32 <= n <= MaxInt32
    ensures ParseInt32(IntToString(n)) == Some(n)
  {
    var s := IntToString(n);
    assert IsDigit(s[|s| - 1]);
    NumberPartUnpadded(s);
    if n < 0 {
      assert s[1..] == NatToString(-n);
    }
  }
}
