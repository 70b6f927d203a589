/**
 * String helpers shared by the pages: decimal rendering of ids and clock
 * readings, `padStart`, and `split`/`pop` as used to take a file extension.
 * Strings are `seq<char>`; `p <= s` is Dafny's "p is a prefix of s".
 */
module Text {

  predicate IsDigit(c: char) {
    '0' <= c <= '9'
  }

  predicate AllDigits(s: string) {
    forall i :: 0 <= i < |s| ==> IsDigit(s[i])
  }

  function DigitChar(d: nat): (c: char)
    requires d < 10
    ensures IsDigit(c)
  {
    (('0' as int) + d) as char
  }

  function DigitValue(c: char): (d: nat)
    requires IsDigit(c)
    ensures d < 10
    ensures DigitChar(d) == c
  {
    (c as int) - ('0' as int)
  }

  /** `String(n)` for a non-negative integer: base 10, no sign, no leading zeros. */
  function Decimal(n: nat): (r: string)
    ensures |r| >= 1
    ensures AllDigits(r)
    ensures r[0] == '0' ==> n == 0
  {
    if n < 10 then [DigitChar(n)] else Decimal(n / 10) + [DigitChar(n % 10)]
  }

  /** Reads a string of digits as a base-10 number; leading zeros are allowed. */
  function ParseDecimal(s: string): nat
    requires AllDigits(s)
  {
    if s == [] then 0 else ParseDecimal(s[..|s| - 1]) * 10 + DigitValue(s[|s| - 1])
  }

  /** Reading back a rendered number gives the number: `Decimal` loses nothing. */
  lemma {:induction false} ParseDecimalOfDecimal(n: nat)
    ensures ParseDecimal(Decimal(n)) == n
  {
    if n >= 10 {
      var s := Decimal(n);
      assert s[..|s| - 1] == Decimal(n / 10);
      ParseDecimalOfDecimal(n / 10);
    }
  }

  lemma DecimalInjective(a: nat, b: nat)
    ensures Decimal(a) == Decimal(b) ==> a == b
  {
    ParseDecimalOfDecimal(a);
    ParseDecimalOfDecimal(b);
  }

  /** Leading zeros do not change the value read. */
  lemma {:induction false} ParseDecimalSkipsZeros(z: string, s: string)
    requires forall i :: 0 <= i < |z| ==> z[i] == '0'
    requires AllDigits(s)
    ensures AllDigits(z + s)
    ensures ParseDecimal(z + s) == ParseDecimal(s)
  {
    if s == [] {
      assert z + s == z;
      ZerosReadAsZero(z);
    } else {
      var t := z + s;
      assert t[..|t| - 1] == z + s[..|s| - 1];
      ParseDecimalSkipsZeros(z, s[..|s| - 1]);
    }
  }

  lemma {:induction false} ZerosReadAsZero(z: string)
    requires forall i :: 0 <= i < |z| ==> z[i] == '0'
    ensures AllDigits(z)
    ensures ParseDecimal(z) == 0
  {
    if z != [] {
      ZerosReadAsZero(z[..|z| - 1]);
    }
  }

  /** The length of the longest all-digit prefix of `s`. */
  function DigitRun(s: string): (n: nat)
    ensures n <= |s|
    ensures AllDigits(s[..n])
    ensures n < |s| ==> !IsDigit(s[n])
  {
    if s == [] || !IsDigit(s[0]) then 0
    else
      var n := 1 + DigitRun(s[1..]);
      assert s[..n] == [s[0]] + s[1..][..n - 1];
      n
  }

  /** Digits followed by a non-digit: the digit run ends exactly at the separator. */
  lemma {:induction false} DigitRunAtSeparator(x: string, c: char, u: string)
    requires AllDigits(x) && !IsDigit(c)
    ensures DigitRun(x + [c] + u) == |x|
  {
    if x != [] {
      assert (x + [c] + u)[1..] == x[1..] + [c] + u;
      DigitRunAtSeparator(x[1..], c, u);
    }
  }

  /**
   * A string of digits, a non-digit separator, and a rest: such a string is
   * cut in only one way, so equal strings have equal parts.
   */
  lemma DigitsThenSeparator(x: string, u: string, y: string, v: string, c: char)
    requires AllDigits(x) && AllDigits(y) && !IsDigit(c)
    requires x + [c] + u == y + [c] + v
    ensures x == y && u == v
  {
    var s := x + [c] + u;
    DigitRunAtSeparator(x, c, u);
    DigitRunAtSeparator(y, c, v);
    assert x == s[..|x|] && u == s[|x| + 1..];
  }

  function Repeat(c: char, n: nat): (r: string)
    ensures |r| == n
    ensures forall i :: 0 <= i < n ==> r[i] == c
  {
    if n == 0 then [] else [c] + Repeat(c, n - 1)
  }

  /** JavaScript's `s.padStart(width, fill)` for a one-character fill string. */
  function PadStart(s: string, width: nat, fill: char): (r: string)
    ensures |r| == if |s| >= width then |s| else width
    ensures r[|r| - |s|..] == s
    ensures forall i :: 0 <= i < |r| - |s| ==> r[i] == fill
  {
    if |s| >= width then s else Repeat(fill, width - |s|) + s
  }

  /**
   * JavaScript's `s.split(sep)` for a one-character separator: the pieces
   * between separators, in order, with empty pieces kept, and never fewer
   * than one piece.
   */
  function Split(s: string, sep: char): (r: seq<string>)
    ensures |r| >= 1
    ensures forall k :: 0 <= k < |r| ==> sep !in r[k]
    ensures sep !in s ==> r == [s]
    ensures sep in s ==> |r| >= 2
  {
    if s == [] then [[]]
    else if s[0] == sep then [[]] + Split(s[1..], sep)
    else
      var rest := Split(s[1..], sep);
      assert s == [s[0]] + s[1..];
      [[s[0]] + rest[0]] + rest[1..]
  }

  /** `pieces.join(sep)`, the inverse of `Split`. */
  function Join(pieces: seq<string>, sep: char): string
    requires |pieces| >= 1
  {
    if |pieces| == 1 then pieces[0] else pieces[0] + [sep] + Join(pieces[1..], sep)
  }

  /** Splitting and joining on the same separator gives back the string. */
  lemma {:induction false} JoinSplit(s: string, sep: char)
    ensures Join(Split(s, sep), sep) == s
  {
    if s != [] {
      JoinSplit(s[1..], sep);
      JoinSplitStep(s, sep);
    }
  }

  /** The step of `JoinSplit`: the round trip on the tail gives it on the whole string. */
  lemma JoinSplitStep(s: string, sep: char)
    requires s != [] && Join(Split(s[1..], sep), sep) == s[1..]
    ensures Join(Split(s, sep), sep) == s
  {
    var rest := Split(s[1..], sep);
    if s[0] == sep {
      JoinSep(rest, sep);
      assert s == [sep] + s[1..];
    } else if |rest| == 1 {
      assert Split(s, sep) == [[s[0]] + rest[0]];
    } else {
      JoinCons(s[0], rest, sep);
    }
  }

  lemma JoinSep(rest: seq<string>, sep: char)
    requires |rest| >= 1
    ensures Join([[]] + rest, sep) == [sep] + Join(rest, sep)
  {
    var r := [[]] + rest;
    assert r[1..] == rest;
  }

  lemma JoinCons(c: char, rest: seq<string>, sep: char)
    requires |rest| >= 2
    ensures Join([[c] + rest[0]] + rest[1..], sep) == [c] + Join(rest, sep)
  {
    var r := [[c] + rest[0]] + rest[1..];
    assert r[1..] == rest[1..];
  }

  /** `r` ends `s` and, unless it is all of `s`, follows a separator. */
  predicate SuffixAfterSep(s: string, r: string, sep: char) {
    |r| <= |s| && s[|s| - |r|..] == r && (|r| < |s| ==> s[|s| - |r| - 1] == sep)
  }

  /** The last piece of `Split(s, sep)` is the longest separator-free suffix of `s`. */
  lemma {:induction false} LastPieceIsSuffix(s: string, sep: char)
    ensures SuffixAfterSep(s, Split(s, sep)[|Split(s, sep)| - 1], sep)
  {
    if s != [] {
      LastPieceIsSuffix(s[1..], sep);
      LastPieceStep(s, sep);
    }
  }

  /** The step of `LastPieceIsSuffix`: the whole string's last piece is the tail's, or the whole string. */
  lemma LastPieceStep(s: string, sep: char)
    requires s != []
    requires SuffixAfterSep(s[1..], Split(s[1..], sep)[|Split(s[1..], sep)| - 1], sep)
    ensures SuffixAfterSep(s, Split(s, sep)[|Split(s, sep)| - 1], sep)
  {
    var rest := Split(s[1..], sep);
    var t := rest[|rest| - 1];
    if s[0] != sep && |rest| == 1 {
      assert rest == [s[1..]];
      assert Split(s, sep) == [s];
    } else {
      assert Split(s, sep)[|Split(s, sep)| - 1] == t;
      if s[0] != sep {
        assert sep in s[1..];
        assert t != s[1..];
      }
      SuffixOfTail(s, t, sep);
    }
  }

  /** A suffix of the tail, shorter than the tail or after a leading separator, is one of the whole string. */
  lemma SuffixOfTail(s: string, t: string, sep: char)
    requires s != [] && SuffixAfterSep(s[1..], t, sep)
    requires t != s[1..] || s[0] == sep
    ensures SuffixAfterSep(s, t, sep)
  {
    assert s[1..][|s| - 1 - |t|..] == s[|s| - |t|..];
    if |t| < |s| - 1 {
      assert s[1..][|s| - 1 - |t| - 1] == s[|s| - |t| - 1];
    }
  }

  /** A concatenation starts with its first part and ends with its second. */
  lemma Concat(a: string, b: string)
    ensures a <= a + b && (a + b)[|a|..] == b
  {
  }

  /** A path `folder`, `middle`, '.', `ext` starts with the folder and ends with '.' and `ext`. */
  lemma DottedPath(folder: string, middle: string, ext: string)
    ensures var p := folder + middle + ("." + ext);
      folder <= p && |p| > |ext| && p[|p| - |ext| - 1..] == "." + ext
  {
    Concat(folder, middle);
    Concat(folder + middle, "." + ext);
  }

  /**
   * `name.split('.').pop()`: the text after the last '.', or the whole name
   * when it has no '.'; it never contains a '.'.
   */
  function Extension(name: string): (ext: string)
    ensures '.' !in ext
    ensures |ext| <= |name| && name[|name| - |ext|..] == ext
    ensures |ext| < |name| ==> name[|name| - |ext| - 1] == '.'
    ensures '.' !in name ==> ext == name
  {
    LastPieceIsSuffix(name, '.');
    var pieces := Split(name, '.');
    pieces[|pieces| - 1]
  }
}
