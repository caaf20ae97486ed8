/** The java.lang.String operations the generator relies on, with the Java edge cases
    written out: `split` drops trailing empty pieces, `replace` with an empty target
    interleaves, `trim` removes every character up to U+0020, and `Integer.parseInt`
    accepts a sign, reads the decimal digits of every script, and rejects anything
    outside the 32-bit range. */
module Text {
  import opened Base

  predicate StartsWith(s: string, p: string) {
    |p| <= |s| && s[..|p|] == p
  }

  predicate EndsWith(s: string, p: string) {
    |p| <= |s| && s[|s| - |p|..] == p
  }

  /** `sub` occurs in `s` starting at position `i`. */
  predicate OccursAt(s: string, sub: string, i: int) {
    0 <= i && i + |sub| <= |s| && s[i..i + |sub|] == sub
  }

  predicate Contains(s: string, sub: string) {
    exists i :: 0 <= i <= |s| && OccursAt(s, sub, i)
  }

  predicate IsDigit(c: char) { '0' <= c <= '9' }

  predicate AllDigits(s: string) {
    forall i :: 0 <= i < |s| ==> IsDigit(s[i])
  }

  function DigitChar(d: nat): (c: char)
    requires d < 10
    ensures IsDigit(c) && c as int - '0' as int == d
  {
    ('0' as int + d) as char
  }

  /** Decimal rendering of a natural number, as `String.valueOf` prints it. */
  function NatToString(n: nat): (s: string)
    ensures |s| >= 1 && AllDigits(s)
    ensures n >= 10 ==> |s| >= 2
    decreases n
  {
    if n < 10 then [DigitChar(n)] else NatToString(n / 10) + [DigitChar(n % 10)]
  }

  /** Decimal rendering of a Java int (`Integer.toString`). */
  function IntToString(i: int): (s: string)
    ensures |s| >= 1
    ensures i >= 0 <==> AllDigits(s)
  {
    if i >= 0 then NatToString(i)
    else
      var s := "-" + NatToString(-i);
      assert !IsDigit(s[0]);
      s
  }

  lemma {:induction false} NatToStringInjective(a: nat, b: nat)
    requires NatToString(a) == NatToString(b)
    ensures a == b
    decreases a
  {
    var sa, sb := NatToString(a), NatToString(b);
    if a < 10 && b < 10 {
      assert sa[0] == DigitChar(a) && sb[0] == DigitChar(b);
    } else if a >= 10 && b >= 10 {
      assert sa[|sa| - 1] == DigitChar(a % 10);
      assert sb[|sb| - 1] == DigitChar(b % 10);
      assert NatToString(a / 10) == sa[..|sa| - 1] == sb[..|sb| - 1] == NatToString(b / 10);
      NatToStringInjective(a / 10, b / 10);
    } else {
      assert false;
    }
  }

  /** `s1 + sep + s2 + sep + ...`, as `String.join` builds it. */
  function Join(parts: seq<string>, sep: string): (r: string)
    ensures |parts| == 1 ==> r == parts[0]
  {
    if |parts| == 0 then ""
    else if |parts| == 1 then parts[0]
    else parts[0] + sep + Join(parts[1..], sep)
  }

  lemma JoinCons(a: string, rest: seq<string>, sep: string)
    requires |rest| > 0
    ensures Join([a] + rest, sep) == a + sep + Join(rest, sep)
  {
    assert ([a] + rest)[1..] == rest;
  }

  /** ASCII upper-casing (`toUpperCase` restricted to the letters a-z). */
  function Upper(s: string): (r: string)
    ensures |r| == |s|
    ensures forall i :: 0 <= i < |s| ==> r[i] == UpperChar(s[i])
  {
    if |s| == 0 then "" else [UpperChar(s[0])] + Upper(s[1..])
  }

  function UpperChar(c: char): char {
    if 'a' <= c <= 'z' then (c as int - 32) as char else c
  }

  lemma UpperIdempotent(s: string)
    ensures Upper(Upper(s)) == Upper(s)
  {
    assert forall i :: 0 <= i < |s| ==> UpperChar(UpperChar(s[i])) == UpperChar(s[i]);
  }

  /** Characters `String.trim` removes: everything up to and including the space. */
  predicate IsTrimmed(c: char) { c <= ' ' }

  function TrimStart(s: string): (r: string)
    ensures |r| <= |s| && s[|s| - |r|..] == r
    ensures |r| > 0 ==> !IsTrimmed(r[0])
    ensures forall i :: 0 <= i < |s| - |r| ==> IsTrimmed(s[i])
  {
    if |s| > 0 && IsTrimmed(s[0]) then TrimStart(s[1..]) else s
  }

  function TrimEnd(s: string): (r: string)
    ensures |r| <= |s| && s[..|r|] == r
    ensures |r| > 0 ==> !IsTrimmed(r[|r| - 1])
    ensures forall i :: |r| <= i < |s| ==> IsTrimmed(s[i])
  {
    if |s| > 0 && IsTrimmed(s[|s| - 1]) then TrimEnd(s[..|s| - 1]) else s
  }

  function Trim(s: string): (r: string)
    ensures |r| <= |s|
    ensures |r| > 0 ==> !IsTrimmed(r[0]) && !IsTrimmed(r[|r| - 1])
    ensures Contains(s, r)
  {
    var t := TrimStart(s);
    var r := TrimEnd(t);
    assert OccursAt(s, r, |s| - |t|);
    r
  }

  /** Index of the first `c` in `s`, or `|s|` when there is none. */
  function IndexOf(s: string, c: char): (r: nat)
    ensures r <= |s|
    ensures r < |s| ==> s[r] == c
    ensures forall j :: 0 <= j < r ==> s[j] != c
    ensures r == |s| <==> c !in s
  {
    if |s| == 0 then 0 else if s[0] == c then 0 else 1 + IndexOf(s[1..], c)
  }

  /** The pieces between the separators, empty pieces included. */
  function Pieces(s: string, c: char): (r: seq<string>)
    ensures |r| >= 1
    ensures forall i :: 0 <= i < |r| ==> c !in r[i]
    ensures r[0] == s[..IndexOf(s, c)]
    decreases |s|
  {
    var i := IndexOf(s, c);
    if i == |s| then [s] else [s[..i]] + Pieces(s[i + 1..], c)
  }

  lemma PiecesUnfold(s: string, c: char)
    requires IndexOf(s, c) < |s|
    ensures Pieces(s, c) == [s[..IndexOf(s, c)]] + Pieces(s[IndexOf(s, c) + 1..], c)
  {
  }

  lemma SplitAround(s: string, i: nat)
    requires i < |s|
    ensures s == s[..i] + [s[i]] + s[i + 1..]
  {
  }

  lemma {:induction false} JoinPieces(s: string, c: char)
    ensures Join(Pieces(s, c), [c]) == s
    decreases |s|
  {
    var i := IndexOf(s, c);
    if i < |s| {
      var rest := Pieces(s[i + 1..], c);
      PiecesUnfold(s, c);
      JoinCons(s[..i], rest, [c]);
      JoinPieces(s[i + 1..], c);
      SplitAround(s, i);
    }
  }

  function DropTrailingEmpty(ps: seq<string>): (r: seq<string>)
    ensures |r| <= |ps| && r == ps[..|r|]
    ensures |r| > 0 ==> r[|r| - 1] != ""
    ensures forall i :: |r| <= i < |ps| ==> ps[i] == ""
  {
    if |ps| == 0 then []
    else if ps[|ps| - 1] == "" then DropTrailingEmpty(ps[..|ps| - 1])
    else ps
  }

  /** `s.split(c)` for a one-character literal pattern: an input without a match is
      returned whole (so "" gives [""]), otherwise trailing empty pieces are removed,
      which leaves nothing at all when every piece is empty. */
  function Split(s: string, c: char): (r: seq<string>)
    ensures forall i :: 0 <= i < |r| ==> c !in r[i]
    ensures |r| > 0 ==> r[0] == s[..IndexOf(s, c)]
    ensures |r| == 0 <==> s != "" && forall i :: 0 <= i < |s| ==> s[i] == c
  {
    if s == "" then [""]
    else
      SplitEmptyIff(s, c);
      DropTrailingEmpty(Pieces(s, c))
  }

  lemma SplitEmptyIff(s: string, c: char)
    requires s != ""
    ensures |DropTrailingEmpty(Pieces(s, c))| == 0 <==> forall i :: 0 <= i < |s| ==> s[i] == c
  {
    var ps := Pieces(s, c);
    if |DropTrailingEmpty(ps)| == 0 {
      AllSeparators(s, c);
    }
    if forall i :: 0 <= i < |s| ==> s[i] == c {
      OnlySeparators(s, c);
      DropAllEmpty(ps);
    }
  }

  lemma {:induction false} DropAllEmpty(ps: seq<string>)
    requires forall i :: 0 <= i < |ps| ==> ps[i] == ""
    ensures DropTrailingEmpty(ps) == []
  {
    if |ps| > 0 {
      DropAllEmpty(ps[..|ps| - 1]);
    }
  }

  lemma AllSeparators(s: string, c: char)
    requires s != ""
    requires forall i :: 0 <= i < |Pieces(s, c)| ==> Pieces(s, c)[i] == ""
    ensures forall i :: 0 <= i < |s| ==> s[i] == c
  {
    JoinPieces(s, c);
    JoinOfEmpties(Pieces(s, c), c);
  }

  lemma {:induction false} JoinOfEmpties(ps: seq<string>, c: char)
    requires forall i :: 0 <= i < |ps| ==> ps[i] == ""
    ensures forall i :: 0 <= i < |Join(ps, [c])| ==> Join(ps, [c])[i] == c
  {
    if |ps| > 1 {
      JoinOfEmpties(ps[1..], c);
    }
  }

  lemma {:induction false} OnlySeparators(s: string, c: char)
    requires forall i :: 0 <= i < |s| ==> s[i] == c
    ensures forall i :: 0 <= i < |Pieces(s, c)| ==> Pieces(s, c)[i] == ""
    decreases |s|
  {
    var i := IndexOf(s, c);
    if i < |s| {
      assert i == 0;
      OnlySeparators(s[1..], c);
    }
  }

  /** `s.replace(target, v)`: every occurrence of a non-empty target, scanned left to
      right without overlaps, becomes `v`; an empty target puts `v` before every
      character and at the end. */
  function Replace(s: string, target: string, v: string): (r: string)
    decreases |s|
  {
    if |target| == 0 then v + (if |s| == 0 then "" else [s[0]] + Replace(s[1..], target, v))
    else if |s| < |target| then s
    else if s[..|target|] == target then v + Replace(s[|target|..], target, v)
    else [s[0]] + Replace(s[1..], target, v)
  }

  lemma {:induction false} ReplaceAbsent(s: string, target: string, v: string)
    requires |target| > 0 && !Contains(s, target)
    ensures Replace(s, target, v) == s
    decreases |s|
  {
    if |s| >= |target| {
      assert !OccursAt(s, target, 0);
      assert !Contains(s[1..], target) by {
        forall i | OccursAt(s[1..], target, i)
          ensures OccursAt(s, target, i + 1)
        {
          assert s[1..][i..i + |target|] == s[i + 1..i + 1 + |target|];
        }
      }
      ReplaceAbsent(s[1..], target, v);
    }
  }

  lemma {:induction false} ReplaceSelf(s: string, target: string)
    requires |target| > 0
    ensures Replace(s, target, target) == s
    decreases |s|
  {
    if |s| >= |target| {
      if s[..|target|] == target {
        ReplaceSelf(s[|target|..], target);
        assert s == s[..|target|] + s[|target|..];
      } else {
        ReplaceSelf(s[1..], target);
      }
    }
  }

  /** A character outside a non-empty target survives the replacement. */
  lemma {:induction false} ReplaceKeepsChar(s: string, target: string, v: string, c: char)
    requires |target| > 0 && c in s && c !in target
    ensures c in Replace(s, target, v)
    decreases |s|
  {
    if |s| >= |target| {
      if s[..|target|] == target {
        var i :| 0 <= i < |s| && s[i] == c;
        if i < |target| {
          assert false;
        }
        assert s[|target|..][i - |target|] == c;
        ReplaceKeepsChar(s[|target|..], target, v, c);
      } else if s[0] != c {
        var i :| 0 <= i < |s| && s[i] == c;
        assert s[1..][i - 1] == c;
        ReplaceKeepsChar(s[1..], target, v, c);
      }
    }
  }

  /** The zeros of the blocks of Unicode decimal digits in the Basic Multilingual Plane. */
  const BlockZeros: set<int> := {
    0x0030, 0x0660, 0x06F0, 0x07C0, 0x0966, 0x09E6, 0x0A66, 0x0AE6, 0x0B66, 0x0BE6,
    0x0C66, 0x0CE6, 0x0D66, 0x0DE6, 0x0E50, 0x0ED0, 0x0F20, 0x1040, 0x1090, 0x17E0,
    0x1810, 0x1946, 0x19D0, 0x1A80, 0x1A90, 0x1B50, 0x1BB0, 0x1C40, 0x1C50, 0xA620,
    0xA8D0, 0xA900, 0xA9D0, 0xA9F0, 0xAA50, 0xABF0, 0xFF10}

  /** The zero of the block of Unicode decimal digits (general category Nd) that holds
      code point `c`, or -1. The blocks are those of the Basic Multilingual Plane, in
      code point order; `parseInt` reads UTF-16 units, so no character outside the
      plane is a digit to it. */
  function BlockZero(c: int): (z: int)
    ensures z == -1 || (z in BlockZeros && z <= c < z + 10)
  {
    if c < 0x0030 then -1
    else if c < 0x003A then 0x0030
    else if c < 0x0660 then -1
    else if c < 0x066A then 0x0660
    else if c < 0x06F0 then -1
    else if c < 0x06FA then 0x06F0
    else if c < 0x07C0 then -1
    else if c < 0x07CA then 0x07C0
    else if c < 0x0966 then -1
    else if c < 0x0970 then 0x0966
    else if c < 0x09E6 then -1
    else if c < 0x09F0 then 0x09E6
    else if c < 0x0A66 then -1
    else if c < 0x0A70 then 0x0A66
    else if c < 0x0AE6 then -1
    else if c < 0x0AF0 then 0x0AE6
    else if c < 0x0B66 then -1
    else if c < 0x0B70 then 0x0B66
    else if c < 0x0BE6 then -1
    else if c < 0x0BF0 then 0x0BE6
    else if c < 0x0C66 then -1
    else if c < 0x0C70 then 0x0C66
    else if c < 0x0CE6 then -1
    else if c < 0x0CF0 then 0x0CE6
    else if c < 0x0D66 then -1
    else if c < 0x0D70 then 0x0D66
    else if c < 0x0DE6 then -1
    else if c < 0x0DF0 then 0x0DE6
    else if c < 0x0E50 then -1
    else if c < 0x0E5A then 0x0E50
    else if c < 0x0ED0 then -1
    else if c < 0x0EDA then 0x0ED0
    else if c < 0x0F20 then -1
    else if c < 0x0F2A then 0x0F20
    else if c < 0x1040 then -1
    else if c < 0x104A then 0x1040
    else if c < 0x1090 then -1
    else if c < 0x109A then 0x1090
    else if c < 0x17E0 then -1
    else if c < 0x17EA then 0x17E0
    else if c < 0x1810 then -1
    else if c < 0x181A then 0x1810
    else if c < 0x1946 then -1
    else if c < 0x1950 then 0x1946
    else if c < 0x19D0 then -1
    else if c < 0x19DA then 0x19D0
    else if c < 0x1A80 then -1
    else if c < 0x1A8A then 0x1A80
    else if c < 0x1A90 then -1
    else if c < 0x1A9A then 0x1A90
    else if c < 0x1B50 then -1
    else if c < 0x1B5A then 0x1B50
    else if c < 0x1BB0 then -1
    else if c < 0x1BBA then 0x1BB0
    else if c < 0x1C40 then -1
    else if c < 0x1C4A then 0x1C40
    else if c < 0x1C50 then -1
    else if c < 0x1C5A then 0x1C50
    else if c < 0xA620 then -1
    else if c < 0xA62A then 0xA620
    else if c < 0xA8D0 then -1
    else if c < 0xA8DA then 0xA8D0
    else if c < 0xA900 then -1
    else if c < 0xA90A then 0xA900
    else if c < 0xA9D0 then -1
    else if c < 0xA9DA then 0xA9D0
    else if c < 0xA9F0 then -1
    else if c < 0xA9FA then 0xA9F0
    else if c < 0xAA50 then -1
    else if c < 0xAA5A then 0xAA50
    else if c < 0xABF0 then -1
    else if c < 0xABFA then 0xABF0
    else if c < 0xFF10 then -1
    else if c < 0xFF1A then 0xFF10
    else -1
  }

  /** `Character.digit(c, 10)`: the decimal value of `c`, or -1 when it is no digit. */
  function DecimalDigit(c: char): (d: int)
    ensures -1 <= d <= 9
    ensures d >= 0 ==> d == c as int - BlockZero(c as int)
    ensures IsDigit(c) ==> d == c as int - '0' as int
  {
    var z := BlockZero(c as int);
    if z < 0 then -1 else c as int - z
  }

  /** Every character of a listed block reads as its distance from the block's zero. */
  lemma BlockDigits(z: int, d: int)
    requires z in BlockZeros && 0 <= d < 10
    ensures DecimalDigit((z + d) as char) == d
  {
  }

  predicate AllDecimal(s: string) {
    forall i :: 0 <= i < |s| ==> DecimalDigit(s[i]) >= 0
  }

  lemma AsciiIsDecimal(s: string)
    requires AllDigits(s)
    ensures AllDecimal(s)
  {
  }

  /** `Integer.parseInt`: an optional ASCII sign followed by at least one decimal digit
      of any script, inside the 32-bit range. */
  function ParseInt(s: string): (r: Result<int>)
    ensures r.Success? ==> -0x8000_0000 <= r.value < 0x8000_0000
    ensures s == "" ==> r.Failure?
  {
    if |s| == 0 then Failure(BadNumber)
    else if s[0] == '-' || s[0] == '+' then
      if |s| == 1 || !AllDecimal(s[1..]) then Failure(BadNumber)
      else
        var m := DigitsValue(s[1..]);
        var v: int := if s[0] == '-' then 0 - (m as int) else m as int;
        if -0x8000_0000 <= v < 0x8000_0000 then Success(v) else Failure(BadNumber)
    else if !AllDecimal(s) then Failure(BadNumber)
    else
      var v := DigitsValue(s);
      if v < 0x8000_0000 then Success(v) else Failure(BadNumber)
  }

  /** The value of a string of decimal digits, most significant first. */
  function DigitsValue(s: string): nat
    requires AllDecimal(s)
  {
    if |s| == 0 then 0 else DigitsValue(s[..|s| - 1]) * 10 + DecimalDigit(s[|s| - 1])
  }

  /** `parseInt` reads digits of every script: full-width `１` followed by
      Arabic-Indic `٣` is 13, while the superscript `²` is no digit. */
  lemma ScriptDigitsParse()
    ensures ParseInt("\U{FF11}\U{0663}") == Success(13)
    ensures ParseInt("-\U{0966}") == Success(0)
    ensures ParseInt("\U{00B2}").Failure?
  {
    var s := "\U{FF11}\U{0663}";
    assert AllDecimal(s);
    assert DigitsValue(s[..1]) == 1 by { assert s[..1][..0] == ""; }
    assert "-\U{0966}"[1..] == "\U{0966}";
    assert DigitsValue("\U{0966}") == 0 by { assert "\U{0966}"[..0] == ""; }
  }

  lemma {:induction false} DigitsValueOfNatToString(n: nat)
    ensures AllDecimal(NatToString(n)) && DigitsValue(NatToString(n)) == n
    decreases n
  {
    AsciiIsDecimal(NatToString(n));
    if n >= 10 {
      DigitsValueOfNatToString(n / 10);
      var s := NatToString(n);
      assert s[..|s| - 1] == NatToString(n / 10);
    }
  }

  /** Every 32-bit integer survives printing and parsing back. */
  lemma ParseIntRoundTrip(i: int)
    requires -0x8000_0000 <= i < 0x8000_0000
    ensures ParseInt(IntToString(i)) == Success(i)
  {
    AsciiIsDecimal(NatToString(if i >= 0 then i else -i));
    if i >= 0 {
      DigitsValueOfNatToString(i);
      assert NatToString(i)[0] != '-' && NatToString(i)[0] != '+';
    } else {
      DigitsValueOfNatToString(-i);
      assert IntToString(i)[1..] == NatToString(-i);
    }
  }

  predicate IsInt(s: string) { ParseInt(s).Success? }
}
