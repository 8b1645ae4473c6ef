/** The Ruby string operations the framework relies on, on ASCII text:
    character classes, `Integer#to_s`, `String#to_i`, `String#split`,
    `String#strip`, `String#tr` and `String#downcase`. */
module Strings {

  predicate IsUpper(c: char) { 'A' <= c <= 'Z' }
  predicate IsLower(c: char) { 'a' <= c <= 'z' }
  predicate IsDigit(c: char) { '0' <= c <= '9' }

  /** The characters Ruby's `strip` removes: the ASCII blanks and NUL. */
  predicate IsSpace(c: char) {
    c == ' ' || c == '\t' || c == '\n' || c == '\U{B}' || c == '\U{C}' || c == '\r' || c == '\0'
  }

  /** The characters `to_i` skips before a number: the ASCII blanks, NUL
      not among them. */
  predicate IsBlank(c: char) {
    IsSpace(c) && c != '\0'
  }

  predicate NoUpper(s: string) {
    forall i :: 0 <= i < |s| ==> !IsUpper(s[i])
  }

  predicate NoChar(s: string, c: char) {
    forall i :: 0 <= i < |s| ==> s[i] != c
  }

  predicate AllDigits(s: string) {
    forall i :: 0 <= i < |s| ==> IsDigit(s[i])
  }

  function DigitValue(c: char): (d: nat)
    requires IsDigit(c)
    ensures d < 10
  {
    (c as int) - ('0' as int)
  }

  function DigitChar(d: nat): (c: char)
    requires d < 10
    ensures IsDigit(c) && DigitValue(c) == d
  {
    (('0' as int) + d) as char
  }

  /** Concatenation is associative; stated once so that proofs about
      rewritten strings can regroup pieces without re-deriving it. */
  lemma AppendAssoc<T>(x: seq<T>, y: seq<T>, z: seq<T>)
    ensures x + (y + z) == (x + y) + z
  {
  }

  // ---------------------------------------------------------------------
  // Integer#to_s and String#to_i

  /** `n.to_s` for a non-negative integer: its decimal digits. */
  function NatToString(n: nat): (s: string)
    ensures 1 <= |s|
    ensures AllDigits(s)
    ensures |s| > 1 ==> s[0] != '0'
  {
    if n < 10 then [DigitChar(n)] else NatToString(n / 10) + [DigitChar(n % 10)]
  }

  /** The number a string of decimal digits denotes. */
  function DecimalValue(ds: string): nat
    requires AllDigits(ds)
  {
    if ds == [] then 0 else DecimalValue(ds[..|ds| - 1]) * 10 + DigitValue(ds[|ds| - 1])
  }

  lemma {:induction false} DecimalValueOfNatToString(n: nat)
    ensures DecimalValue(NatToString(n)) == n
  {
    if n >= 10 {
      var s := NatToString(n / 10);
      assert (s + [DigitChar(n % 10)])[..|s|] == s;
      DecimalValueOfNatToString(n / 10);
    }
  }

  /** Distinct integers print differently. */
  lemma NatToStringInjective(m: nat, n: nat)
    requires NatToString(m) == NatToString(n)
    ensures m == n
  {
    DecimalValueOfNatToString(m);
    DecimalValueOfNatToString(n);
  }

  function LeadingSpaceCount(s: string): (n: nat)
    ensures n <= |s|
    ensures forall k :: 0 <= k < n ==> IsSpace(s[k])
    ensures n == |s| || !IsSpace(s[n])
  {
    if s == [] || !IsSpace(s[0]) then 0 else 1 + LeadingSpaceCount(s[1..])
  }

  function LeadingBlankCount(s: string): (n: nat)
    ensures n <= |s|
    ensures forall k :: 0 <= k < n ==> IsBlank(s[k])
    ensures n == |s| || !IsBlank(s[n])
  {
    if s == [] || !IsBlank(s[0]) then 0 else 1 + LeadingBlankCount(s[1..])
  }

  /** The digits of the longest prefix of `t` that reads as an integer
      literal: digits, with single underscores allowed between two digits
      (`"1_000"` gives `"1000"`). */
  function LeadingDigits(t: string): (ds: string)
    ensures AllDigits(ds)
    ensures ds == [] <==> (t == [] || !IsDigit(t[0]))
  {
    if t == [] || !IsDigit(t[0]) then [] else [t[0]] + MoreDigits(t[1..])
  }

  function MoreDigits(t: string): (ds: string)
    ensures AllDigits(ds)
  {
    if t != [] && IsDigit(t[0]) then [t[0]] + MoreDigits(t[1..])
    else if |t| > 1 && t[0] == '_' && IsDigit(t[1]) then [t[1]] + MoreDigits(t[2..])
    else []
  }

  /** Whether `t` opens with the decimal radix prefix `0d` or `0D` and a
      digit right after it. */
  predicate RadixPrefixed(t: string) {
    |t| >= 3 && t[0] == '0' && (t[1] == 'd' || t[1] == 'D') && IsDigit(t[2])
  }

  /** The unsigned number at the start of `t`, after an optional `0d`/`0D`
      prefix. */
  function Magnitude(t: string): nat {
    if RadixPrefixed(t) then DecimalValue(LeadingDigits(t[2..])) else DecimalValue(LeadingDigits(t))
  }

  /** `s.to_i`: skip leading blanks, read an optional sign, an optional
      `0d`/`0D` radix prefix and the digits that follow; a string that does
      not start with a number gives 0. */
  function ToI(s: string): (r: int)
    ensures (s == [] || (!IsBlank(s[0]) && !IsDigit(s[0]) && s[0] != '-' && s[0] != '+')) ==> r == 0
  {
    var t := s[LeadingBlankCount(s)..];
    if t != [] && t[0] == '-' then 0 - Magnitude(t[1..])
    else if t != [] && t[0] == '+' then Magnitude(t[1..])
    else Magnitude(t)
  }

  lemma {:induction false} MoreDigitsOfDigits(s: string)
    requires AllDigits(s)
    ensures MoreDigits(s) == s
  {
    if s != [] {
      MoreDigitsOfDigits(s[1..]);
    }
  }

  /** Reading back a printed count gives the count: `n.to_s.to_i == n`. */
  lemma ToIOfNatToString(n: nat)
    ensures ToI(NatToString(n)) == n
  {
    var s := NatToString(n);
    assert LeadingBlankCount(s) == 0;
    assert s[0..] == s;
    MoreDigitsOfDigits(s[1..]);
    assert LeadingDigits(s) == s;
    assert !RadixPrefixed(s);
    DecimalValueOfNatToString(n);
  }

  /** Past a `0d` or `0D` prefix, a printed count reads as the count. */
  lemma MagnitudeOfRadixPrefixed(c: char, n: nat)
    requires c == 'd' || c == 'D'
    ensures Magnitude(['0', c] + NatToString(n)) == n
  {
    var s := NatToString(n);
    MoreDigitsOfDigits(s[1..]);
    assert LeadingDigits(s) == s;
    DecimalValueOfNatToString(n);
    var t := ['0', c] + s;
    assert RadixPrefixed(t) && t[2..] == s;
  }

  /** The `0d`/`0D` radix prefix is read past, before or after a sign:
      `"0d#{n}".to_i == n` and `"-0D#{n}".to_i == -n`. */
  lemma ToIOfRadixPrefixed(n: nat)
    ensures ToI("0d" + NatToString(n)) == n
    ensures ToI("-0D" + NatToString(n)) == -(n as int)
  {
    var s := NatToString(n);
    MagnitudeOfRadixPrefixed('d', n);
    MagnitudeOfRadixPrefixed('D', n);
    var p := "0d" + s;
    assert LeadingBlankCount(p) == 0;
    assert p[0..] == p;
    var q := "-0D" + s;
    assert LeadingBlankCount(q) == 0;
    assert q[0..] == q && q[1..] == ['0', 'D'] + s;
  }

  // ---------------------------------------------------------------------
  // String#split with a literal separator

  /** Every piece of `s` between occurrences of `sep`, scanning left to
      right, trailing empty pieces included. */
  function Pieces(s: string, sep: string): (r: seq<string>)
    requires sep != []
    ensures |r| >= 1
    decreases |s|
  {
    if |s| < |sep| then [s]
    else if s[..|sep|] == sep then [""] + Pieces(s[|sep|..], sep)
    else
      var rest := Pieces(s[1..], sep);
      [[s[0]] + rest[0]] + rest[1..]
  }

  /** The inverse of `Pieces`: glue the pieces back with `sep` between them. */
  function Join(parts: seq<string>, sep: string): string
    requires |parts| >= 1
  {
    if |parts| == 1 then parts[0] else parts[0] + sep + Join(parts[1..], sep)
  }

  lemma {:induction false} JoinPieces(s: string, sep: string)
    requires sep != []
    ensures Join(Pieces(s, sep), sep) == s
    decreases |s|
  {
    if |s| < |sep| {
    } else if s[..|sep|] == sep {
      var rest := Pieces(s[|sep|..], sep);
      JoinPieces(s[|sep|..], sep);
      assert ([""] + rest)[1..] == rest;
      assert Join(Pieces(s, sep), sep) == "" + sep + Join(rest, sep);
      assert s == sep + s[|sep|..];
    } else {
      var rest := Pieces(s[1..], sep);
      JoinPieces(s[1..], sep);
      JoinPrepend(s[0], rest, sep);
      assert s == [s[0]] + s[1..];
    }
  }

  /** A character glued to the front of the first piece comes first in the
      joined string. */
  lemma JoinPrepend(c: char, parts: seq<string>, sep: string)
    requires |parts| >= 1
    ensures Join([[c] + parts[0]] + parts[1..], sep) == [c] + Join(parts, sep)
  {
    if |parts| > 1 {
      var q := [[c] + parts[0]] + parts[1..];
      assert q[1..] == parts[1..];
      var tail := Join(parts[1..], sep);
      AppendAssoc([c], parts[0], sep);
      AppendAssoc([c], parts[0] + sep, tail);
    }
  }

  function DropTrailingEmpty(parts: seq<string>): (r: seq<string>)
    ensures |r| <= |parts| && r == parts[..|r|]
    ensures r != [] ==> r[|r| - 1] != ""
    ensures forall k :: |r| <= k < |parts| ==> parts[k] == ""
  {
    if parts != [] && parts[|parts| - 1] == "" then DropTrailingEmpty(parts[..|parts| - 1]) else parts
  }

  /** `s.split(sep)`: the pieces between separators, trailing empty pieces
      removed (so `"".split(",")` is `[]`). */
  function Split(s: string, sep: string): (r: seq<string>)
    requires sep != []
  {
    DropTrailingEmpty(Pieces(s, sep))
  }

  /** What `split` drops is empty, so gluing the full piece list back gives
      the original string. */
  lemma SplitIsPrefixOfPieces(s: string, sep: string)
    requires sep != []
    ensures Split(s, sep) == Pieces(s, sep)[..|Split(s, sep)|]
    ensures forall k :: |Split(s, sep)| <= k < |Pieces(s, sep)| ==> Pieces(s, sep)[k] == ""
    ensures Join(Pieces(s, sep), sep) == s
  {
    JoinPieces(s, sep);
  }

  /** A string without the separator is one piece. */
  lemma {:induction false} PiecesWithoutSeparator(s: string, c: char)
    requires NoChar(s, c)
    ensures Pieces(s, [c]) == [s]
    decreases |s|
  {
    if |s| >= 1 {
      assert s[..1][0] == s[0] != c;
      PiecesWithoutSeparator(s[1..], c);
      assert [s[0]] + s[1..] == s;
    }
  }

  // ---------------------------------------------------------------------
  // String#strip

  function TrailingSpaceCount(s: string): (n: nat)
    ensures n <= |s|
    ensures forall k :: |s| - n <= k < |s| ==> IsSpace(s[k])
    ensures n == |s| || !IsSpace(s[|s| - 1 - n])
  {
    if s == [] || !IsSpace(s[|s| - 1]) then 0 else 1 + TrailingSpaceCount(s[..|s| - 1])
  }

  /** `s.strip`: `s` without its leading and trailing blanks. */
  function Strip(s: string): (r: string)
    ensures r == [] || (!IsSpace(r[0]) && !IsSpace(r[|r| - 1]))
    ensures |r| <= |s|
    ensures s != [] && !IsSpace(s[0]) && !IsSpace(s[|s| - 1]) ==> r == s
  {
    var t := s[LeadingSpaceCount(s)..];
    t[..|t| - TrailingSpaceCount(t)]
  }

  lemma StripIdempotent(s: string)
    ensures Strip(Strip(s)) == Strip(s)
  {
  }

  // ---------------------------------------------------------------------
  // String#tr with single characters, String#downcase

  function ReplaceChar(s: string, from: char, to: char): (r: string)
    ensures |r| == |s|
    ensures forall i :: 0 <= i < |s| ==> r[i] == if s[i] == from then to else s[i]
  {
    seq(|s|, i requires 0 <= i < |s| => if s[i] == from then to else s[i])
  }

  function LowerChar(c: char): (d: char)
    ensures !IsUpper(d)
    ensures !IsUpper(c) ==> d == c
  {
    if IsUpper(c) then (c as int + 32) as char else c
  }

  /** `s.downcase` on ASCII letters. */
  function Downcase(s: string): (r: string)
    ensures |r| == |s| && NoUpper(r)
    ensures forall i :: 0 <= i < |s| ==> r[i] == LowerChar(s[i])
  {
    seq(|s|, i requires 0 <= i < |s| => LowerChar(s[i]))
  }
}
