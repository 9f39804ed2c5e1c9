/** The string operations of .NET that the core relies on:
    `StringComparison.OrdinalIgnoreCase`, `char.IsWhiteSpace`,
    `string.IsNullOrWhiteSpace`, `string.Trim` and
    `string.Split(sep, RemoveEmptyEntries | TrimEntries)`. */
module Text {
  import opened Wrappers

  /** Case folding of one character for ordinal case-insensitive comparison:
      lower-case ASCII letters map to upper case, everything else to itself. */
  function FoldChar(c: char): char
  {
    if 'a' <= c <= 'z' then (c as int - 32) as char else c
  }

  /** Case folding of a whole string, character by character. */
  function Fold(s: string): (r: string)
    ensures |r| == |s|
    ensures forall i :: 0 <= i < |s| ==> r[i] == FoldChar(s[i])
  {
    seq(|s|, i requires 0 <= i < |s| => FoldChar(s[i]))
  }

  /** `string.Equals(a, b, StringComparison.OrdinalIgnoreCase)`: equality of
      the folded strings. Every case-insensitive lookup of the core goes
      through this one predicate. */
  predicate EqualsIgnoreCase(a: string, b: string)
  {
    Fold(a) == Fold(b)
  }

  /** Two characters that ordinal case-insensitive comparison does not tell
      apart: the same character, or an ASCII letter and that letter in the
      other case. */
  predicate SameIgnoringCase(x: char, y: char)
  {
    || x == y
    || ('A' <= x <= 'Z' && y as int == x as int + 32)
    || ('A' <= y <= 'Z' && x as int == y as int + 32)
  }

  /** Folding identifies exactly the characters that differ only in case. */
  lemma FoldCharSame(x: char, y: char)
    ensures FoldChar(x) == FoldChar(y) <==> SameIgnoringCase(x, y)
  {
  }

  /** Ordinal case-insensitive equality, character by character: the strings
      have the same length and each pair of characters is the same up to the
      case of an ASCII letter. */
  lemma EqualsIgnoreCaseIff(a: string, b: string)
    ensures EqualsIgnoreCase(a, b) <==> |a| == |b| && forall i :: 0 <= i < |a| ==> SameIgnoringCase(a[i], b[i])
  {
    if |a| == |b| {
      forall i | 0 <= i < |a|
        ensures Fold(a)[i] == Fold(b)[i] <==> SameIgnoringCase(a[i], b[i])
      {
        FoldCharSame(a[i], b[i]);
      }
      if forall i :: 0 <= i < |a| ==> SameIgnoringCase(a[i], b[i]) {
        assert Fold(a) == Fold(b);
      }
    } else {
      assert |Fold(a)| != |Fold(b)|;
    }
  }

  /** Folding is idempotent, so folded strings are their own representatives. */
  lemma FoldIdempotent(s: string)
    ensures Fold(Fold(s)) == Fold(s)
  {
  }

  /** Case-insensitive equality only compares strings of the same length and
      never distinguishes an ASCII letter from its other case. */
  lemma EqualsIgnoreCaseLetters(a: string, b: string)
    requires |a| == |b|
    requires forall i :: 0 <= i < |a| ==> a[i] == b[i] || FoldChar(a[i]) == FoldChar(b[i])
    ensures EqualsIgnoreCase(a, b)
  {
  }

  /** `char.IsWhiteSpace`: the Unicode space separators plus the line and
      paragraph separators and the control characters U+0009-U+000D and U+0085. */
  predicate IsWhiteSpace(c: char)
  {
    || c == ' '
    || ('\t' <= c <= '\r')
    || c == '\U{0085}'
    || c == '\U{00A0}'
    || c == '\U{1680}'
    || ('\U{2000}' <= c <= '\U{200A}')
    || c == '\U{2028}'
    || c == '\U{2029}'
    || c == '\U{202F}'
    || c == '\U{205F}'
    || c == '\U{3000}'
  }

  /** The 25 characters `char.IsWhiteSpace` accepts, listed one by one. */
  const WhiteSpaceChars: set<char> := {
    '\t', '\n', '\U{000B}', '\U{000C}', '\r', ' ', '\U{0085}', '\U{00A0}', '\U{1680}',
    '\U{2000}', '\U{2001}', '\U{2002}', '\U{2003}', '\U{2004}', '\U{2005}', '\U{2006}',
    '\U{2007}', '\U{2008}', '\U{2009}', '\U{200A}', '\U{2028}', '\U{2029}', '\U{202F}',
    '\U{205F}', '\U{3000}'}

  /** The ranges of `IsWhiteSpace` cover exactly the listed characters. */
  lemma WhiteSpaceTable(c: char)
    ensures IsWhiteSpace(c) <==> c in WhiteSpaceChars
  {
  }

  /** Every character of `s` is white space (vacuously true of ""). */
  predicate IsBlank(s: string)
  {
    forall i :: 0 <= i < |s| ==> IsWhiteSpace(s[i])
  }

  /** `string.IsNullOrWhiteSpace`. */
  predicate IsNullOrWhiteSpace(s: Option<string>)
  {
    s.None? || IsBlank(s.value)
  }

  /** `IsNullOrWhiteSpace` holds exactly of `null` and of the strings that
      trim to nothing. */
  lemma NullOrWhiteSpaceTrims(s: Option<string>)
    ensures IsNullOrWhiteSpace(s) <==> s.None? || Trim(s.value) == ""
  {
  }

  /** A string with no white space at either end. */
  predicate IsTrimmed(s: string)
  {
    |s| > 0 ==> !IsWhiteSpace(s[0]) && !IsWhiteSpace(s[|s| - 1])
  }

  /** `TrimStart()`: the longest suffix of `s` that does not start with white
      space; everything dropped is white space. */
  function TrimStart(s: string): (r: string)
    ensures |r| <= |s| && r == s[|s| - |r|..]
    ensures forall k :: 0 <= k < |s| - |r| ==> IsWhiteSpace(s[k])
    ensures |r| > 0 ==> !IsWhiteSpace(r[0])
  {
    if |s| > 0 && IsWhiteSpace(s[0]) then
      var r := TrimStart(s[1..]);
      assert s[1..][|s| - 1 - |r|..] == s[|s| - |r|..];
      assert forall k :: 1 <= k < |s| - |r| ==> s[k] == s[1..][k - 1];
      r
    else s
  }

  /** `TrimEnd()`: the longest prefix of `s` that does not end with white
      space; everything dropped is white space. */
  function TrimEnd(s: string): (r: string)
    ensures |r| <= |s| && r == s[..|r|]
    ensures forall k :: |r| <= k < |s| ==> IsWhiteSpace(s[k])
    ensures |r| > 0 ==> !IsWhiteSpace(r[|r| - 1])
  {
    if |s| > 0 && IsWhiteSpace(s[|s| - 1]) then
      var r := TrimEnd(s[..|s| - 1]);
      assert s[..|s| - 1][..|r|] == s[..|r|];
      assert forall k :: |r| <= k < |s| - 1 ==> s[k] == s[..|s| - 1][k];
      r
    else s
  }

  /** `Trim()`: white space removed from both ends. The result is a slice
      of `s` with only white space before and after it (`TrimSlice`), has no
      white space at either end, and is empty exactly when `s` is blank. */
  function Trim(s: string): (r: string)
    ensures IsTrimmed(r)
    ensures |r| == 0 <==> IsBlank(s)
  {
    var t := TrimStart(s);
    BlankTrimStart(s);
    TrimEndKeepsNonBlank(t);
    TrimEnd(t)
  }

  /** `r` sits in `s` at offset `i` with only white space before and after
      it. */
  predicate BlankAround(s: string, i: nat, r: string)
  {
    && i + |r| <= |s| && s[i..i + |r|] == r
    && IsBlank(s[..i]) && IsBlank(s[i + |r|..])
  }

  /** Where `Trim`'s result sits in `s`: at some offset `i`, with only white
      space before it and after it. */
  lemma TrimSlice(s: string) returns (i: nat)
    ensures BlankAround(s, i, Trim(s))
  {
    i := |s| - |TrimStart(s)|;
    TrimStartSlice(s, i);
    TrimEndSlice(s, i, Trim(s));
  }

  /** `TrimStart` drops `i` characters, all white space, and `Trim` trims
      the end of what is left. */
  lemma TrimStartSlice(s: string, i: nat)
    requires i == |s| - |TrimStart(s)|
    ensures i <= |s| && Trim(s) == TrimEnd(s[i..]) && IsBlank(s[..i])
  {
    BlankBefore(s, i);
  }

  /** What `TrimEnd` keeps of the suffix `s[i..]` sits at its start, and the
      rest of it is white space; with a blank prefix `s[..i]`, it is
      surrounded by white space. */
  lemma TrimEndSlice(s: string, i: nat, r: string)
    requires i <= |s| && r == TrimEnd(s[i..]) && IsBlank(s[..i])
    ensures BlankAround(s, i, r)
  {
    var t := s[i..];
    assert s[i..][..|r|] == s[i..i + |r|];
    BlankAfter(t, |r|);
    assert t[|r|..] == s[i + |r|..];
  }

  /** What `TrimStart` drops is a blank prefix. */
  lemma BlankBefore(s: string, i: nat)
    requires i == |s| - |TrimStart(s)|
    ensures IsBlank(s[..i])
  {
    forall k | 0 <= k < i
      ensures IsWhiteSpace(s[..i][k])
    {
      assert s[..i][k] == s[k];
    }
  }

  /** What `TrimEnd` drops is a blank suffix. */
  lemma BlankAfter(t: string, n: nat)
    requires n == |TrimEnd(t)|
    ensures IsBlank(t[n..])
  {
    forall k | 0 <= k < |t| - n
      ensures IsWhiteSpace(t[n..][k])
    {
      assert t[n..][k] == t[n + k];
    }
  }

  /** Trim's result is the only trimmed string that white space on both
      sides can surround: whatever blank ends are stripped, `Trim` returns
      the middle. */
  lemma TrimUnique(a: string, r: string, b: string)
    requires IsBlank(a) && IsBlank(b) && IsTrimmed(r)
    ensures Trim(a + r + b) == r
  {
    if |r| == 0 {
      assert a + r + b == a + b;
      assert IsBlank(a + b) by {
        forall k | 0 <= k < |a + b|
          ensures IsWhiteSpace((a + b)[k])
        {
          if k >= |a| {
            assert (a + b)[k] == b[k - |a|];
          }
        }
      }
    } else {
      assert a + r + b == a + (r + b);
      assert (r + b)[0] == r[0];
      TrimStartBlankPrefix(a, r + b);
      TrimEndBlankSuffix(r, b);
    }
  }

  /** `TrimStart` strips a blank prefix and stops at the first non-blank. */
  lemma {:induction false} TrimStartBlankPrefix(a: string, t: string)
    requires IsBlank(a) && (|t| == 0 || !IsWhiteSpace(t[0]))
    ensures TrimStart(a + t) == t
  {
    if |a| == 0 {
      assert a + t == t;
    } else {
      assert (a + t)[0] == a[0];
      assert (a + t)[1..] == a[1..] + t;
      TrimStartBlankPrefix(a[1..], t);
    }
  }

  /** `TrimEnd` strips a blank suffix and stops at the last non-blank. */
  lemma {:induction false} TrimEndBlankSuffix(t: string, b: string)
    requires IsBlank(b) && (|t| == 0 || !IsWhiteSpace(t[|t| - 1]))
    ensures TrimEnd(t + b) == t
  {
    if |b| == 0 {
      assert t + b == t;
    } else {
      var s := t + b;
      assert s[|s| - 1] == b[|b| - 1];
      assert s[..|s| - 1] == t + b[..|b| - 1];
      TrimEndBlankSuffix(t, b[..|b| - 1]);
    }
  }

  /** Trimming only removes characters: a character absent from `s` is absent
      from `Trim(s)`. */
  lemma TrimAvoids(s: string, c: char)
    requires c !in s
    ensures c !in Trim(s)
  {
    var t := TrimStart(s);
    assert c !in t;
    assert c !in TrimEnd(t);
  }

  /** `TrimEnd` keeps a string that starts with a non-white-space character
      non-empty. */
  lemma TrimEndKeepsNonBlank(t: string)
    ensures |t| > 0 && !IsWhiteSpace(t[0]) ==> |TrimEnd(t)| > 0
  {
  }

  /** `TrimStart` empties exactly the blank strings. */
  lemma BlankTrimStart(s: string)
    ensures |TrimStart(s)| == 0 <==> IsBlank(s)
  {
    var t := TrimStart(s);
    if |t| > 0 {
      assert t[0] == s[|s| - |t|];
    }
  }

  /** Trimming is the identity on a trimmed string, so trimming twice is
      trimming once. */
  lemma TrimIdempotent(s: string)
    requires IsTrimmed(s)
    ensures Trim(s) == s
  {
    assert TrimStart(s) == s;
  }

  /** The characters of `s` that `sep` splits it into: the pieces joined with
      `sep` give back `s`, and no piece contains `sep`. This is `Split(sep)`
      with no options. */
  function SplitOn(s: string, sep: char): (r: seq<string>)
    ensures |r| >= 1
    ensures forall i :: 0 <= i < |r| ==> sep !in r[i]
    ensures Join(r, sep) == s
  {
    if |s| == 0 then [""]
    else
      var rest := SplitOn(s[1..], sep);
      if s[0] == sep then
        assert [""] + rest == [""] + [rest[0]] + rest[1..];
        [""] + rest
      else
        var r := [[s[0]] + rest[0]] + rest[1..];
        assert r[1..] == rest[1..];
        r
  }

  /** The pieces of a split, rejoined with the separator between them. */
  function Join(pieces: seq<string>, sep: char): string
    requires |pieces| >= 1
  {
    if |pieces| == 1 then pieces[0] else pieces[0] + [sep] + Join(pieces[1..], sep)
  }

  /** No string of `pieces` contains `c`. */
  predicate Avoids(pieces: seq<string>, c: char)
  {
    forall i :: 0 <= i < |pieces| ==> c !in pieces[i]
  }

  /** Every piece trimmed, and the pieces left empty by trimming dropped. */
  function NonEmptyTrimmed(pieces: seq<string>): (r: seq<string>)
    ensures |r| <= |pieces|
    ensures forall i :: 0 <= i < |r| ==> |r[i]| > 0 && IsTrimmed(r[i])
    ensures |pieces| == 1 ==> r == if IsBlank(pieces[0]) then [] else [Trim(pieces[0])]
  {
    if |pieces| == 0 then []
    else
      var t := Trim(pieces[0]);
      var rest := NonEmptyTrimmed(pieces[1..]);
      if |t| == 0 then rest
      else
        ConsTokens(t, rest);
        [t] + rest
  }

  /** Entries are trimmed and dropped one by one: the entries of a
      concatenation are the entries of its parts, in order. */
  lemma {:induction false} NonEmptyTrimmedConcat(a: seq<string>, b: seq<string>)
    ensures NonEmptyTrimmed(a + b) == NonEmptyTrimmed(a) + NonEmptyTrimmed(b)
  {
    if |a| == 0 {
      assert a + b == b;
    } else {
      assert (a + b)[0] == a[0];
      assert (a + b)[1..] == a[1..] + b;
      NonEmptyTrimmedConcat(a[1..], b);
    }
  }

  /** A non-empty trimmed string in front of such strings. */
  lemma ConsTokens(t: string, rest: seq<string>)
    requires |t| > 0 && IsTrimmed(t)
    requires forall i :: 0 <= i < |rest| ==> |rest[i]| > 0 && IsTrimmed(rest[i])
    ensures forall i :: 0 <= i < |[t] + rest| ==> |([t] + rest)[i]| > 0 && IsTrimmed(([t] + rest)[i])
  {
    forall i | 0 <= i < |[t] + rest|
      ensures |([t] + rest)[i]| > 0 && IsTrimmed(([t] + rest)[i])
    {
      if i > 0 {
        assert ([t] + rest)[i] == rest[i - 1];
      }
    }
  }

  /** A string without `c` in front of strings without `c`. */
  lemma ConsAvoids(t: string, rest: seq<string>, c: char)
    requires c !in t && Avoids(rest, c)
    ensures Avoids([t] + rest, c)
  {
    forall i | 0 <= i < |[t] + rest|
      ensures c !in ([t] + rest)[i]
    {
      if i > 0 {
        assert ([t] + rest)[i] == rest[i - 1];
      }
    }
  }

  /** Trimming and dropping pieces introduces no new character. */
  lemma {:induction false} NonEmptyTrimmedAvoids(pieces: seq<string>, c: char)
    requires Avoids(pieces, c)
    ensures Avoids(NonEmptyTrimmed(pieces), c)
  {
    if |pieces| > 0 {
      assert Avoids(pieces[1..], c);
      NonEmptyTrimmedAvoids(pieces[1..], c);
      var t := Trim(pieces[0]);
      var rest := NonEmptyTrimmed(pieces[1..]);
      if |t| > 0 {
        TrimAvoids(pieces[0], c);
        ConsAvoids(t, rest, c);
      }
    }
  }

  /** `s.Split(sep, RemoveEmptyEntries | TrimEntries)`: the trimmed,
      non-empty pieces of `s` between separators, in order. */
  function Tokens(s: string, sep: char): (r: seq<string>)
    ensures forall i :: 0 <= i < |r| ==> |r[i]| > 0 && IsTrimmed(r[i]) && sep !in r[i]
    ensures sep !in s ==> r == if IsBlank(s) then [] else [Trim(s)]
  {
    var pieces := SplitOn(s, sep);
    NonEmptyTrimmedAvoids(pieces, sep);
    assert sep !in s ==> pieces == [s] by {
      if sep !in s {
        SplitOnNoSep(s, sep);
      }
    }
    NonEmptyTrimmed(pieces)
  }

  /** A separator ends the piece before it: the pieces of `a`, then those
      of `b`. */
  lemma {:induction false} SplitOnConcat(a: string, b: string, sep: char)
    ensures SplitOn(a + [sep] + b, sep) == SplitOn(a, sep) + SplitOn(b, sep)
  {
    var s := a + [sep] + b;
    if |a| == 0 {
      assert s == [sep] + b;
      SplitOnCons(sep, b, sep);
    } else {
      var x := a[1..];
      var rest := x + [sep] + b;
      assert s == [a[0]] + rest;
      assert a == [a[0]] + x;
      SplitOnConcat(x, b, sep);
      SplitOnCons(a[0], rest, sep);
      SplitOnCons(a[0], x, sep);
      ConsStep(a[0], sep, SplitOn(rest, sep), SplitOn(x, sep), SplitOn(b, sep));
    }
  }

  /** A leading character acts on the first pieces of a split alone, so
      it commutes with appending further pieces. */
  lemma ConsStep(c: char, sep: char, r: seq<string>, x: seq<string>, y: seq<string>)
    requires |x| >= 1 && r == x + y
    ensures (if c == sep then [""] + r else [[c] + r[0]] + r[1..])
         == (if c == sep then [""] + x else [[c] + x[0]] + x[1..]) + y
  {
    assert r[1..] == x[1..] + y;
  }

  /** How a leading character extends the split of the rest. */
  lemma SplitOnCons(c: char, t: string, sep: char)
    ensures SplitOn([c] + t, sep) ==
              if c == sep then [""] + SplitOn(t, sep)
              else [[c] + SplitOn(t, sep)[0]] + SplitOn(t, sep)[1..]
  {
    assert ([c] + t)[0] == c;
    assert ([c] + t)[1..] == t;
  }

  /** The tokens of text joined at a separator are the tokens of either
      side, in order. */
  lemma TokensConcat(a: string, b: string, sep: char)
    ensures Tokens(a + [sep] + b, sep) == Tokens(a, sep) + Tokens(b, sep)
  {
    SplitOnConcat(a, b, sep);
    NonEmptyTrimmedConcat(SplitOn(a, sep), SplitOn(b, sep));
  }

  /** A string without the separator splits into itself alone. */
  lemma {:induction false} SplitOnNoSep(s: string, sep: char)
    requires sep !in s
    ensures SplitOn(s, sep) == [s]
  {
    if |s| > 0 {
      SplitOnNoSep(s[1..], sep);
      assert [s[0]] + s[1..] == s;
    }
  }

  /** Splitting at the first separator: what comes before it is the first
      piece, and the rest splits on its own. */
  lemma {:induction false} SplitOnSep(a: string, b: string, sep: char)
    requires sep !in a
    ensures SplitOn(a + [sep] + b, sep) == [a] + SplitOn(b, sep)
  {
    var s := a + [sep] + b;
    if |a| == 0 {
      assert s[1..] == b;
    } else {
      assert s[1..] == a[1..] + [sep] + b;
      SplitOnSep(a[1..], b, sep);
      assert [a[0]] + a[1..] == a;
    }
  }

  /** A trimmed, non-empty string without the separator is its only token. */
  lemma SingleToken(s: string, sep: char)
    requires |s| > 0 && IsTrimmed(s) && sep !in s
    ensures Tokens(s, sep) == [s]
  {
    SplitOnNoSep(s, sep);
    TrimIdempotent(s);
    assert NonEmptyTrimmed([s]) == [s] + NonEmptyTrimmed([s][1..]);
  }

  /** Two trimmed, non-empty, separator-free strings joined by the separator
      are its two tokens. */
  lemma TwoTokens(a: string, b: string, sep: char)
    requires |a| > 0 && IsTrimmed(a) && sep !in a
    requires |b| > 0 && IsTrimmed(b) && sep !in b
    ensures Tokens(a + [sep] + b, sep) == [a, b]
  {
    SplitOnSep(a, b, sep);
    SplitOnNoSep(b, sep);
    TrimIdempotent(a);
    TrimIdempotent(b);
    var pieces := [a] + [b];
    assert SplitOn(a + [sep] + b, sep) == pieces;
    assert pieces[1..] == [b];
    assert [b][1..] == [];
    assert NonEmptyTrimmed([b]) == [b];
    assert NonEmptyTrimmed(pieces) == [a] + NonEmptyTrimmed([b]);
  }
}
