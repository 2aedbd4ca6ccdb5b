/** Splitting and joining of text, and decimal notation. */
module Text {

  /** The pieces of `s` between separators; an empty text has one empty piece. */
  function Split(s: string, separator: char -> bool): (parts: seq<string>)
    ensures |parts| > 0
  {
    if s == "" then [""]
    else
      var rest := Split(s[1..], separator);
      if separator(s[0]) then [""] + rest else [[s[0]] + rest[0]] + rest[1..]
  }

  lemma {:induction false} SplitParts(s: string, separator: char -> bool)
    ensures forall k, i :: 0 <= k < |Split(s, separator)| && 0 <= i < |Split(s, separator)[k]| ==>
      !separator(Split(s, separator)[k][i])
  {
    if s != "" {
      SplitParts(s[1..], separator);
    }
  }

  lemma {:induction false} SplitWord(s: string, separator: char -> bool)
    requires forall i :: 0 <= i < |s| ==> !separator(s[i])
    ensures Split(s, separator) == [s]
  {
    if s != "" {
      SplitWord(s[1..], separator);
      assert [s[0]] + s[1..] == s;
    }
  }

  lemma {:induction false} SplitAfter(first: string, c: char, rest: string, separator: char -> bool)
    requires separator(c) && forall i :: 0 <= i < |first| ==> !separator(first[i])
    ensures Split(first + [c] + rest, separator) == [first] + Split(rest, separator)
  {
    var s := first + [c] + rest;
    if first == "" {
      assert s[1..] == rest;
    } else {
      SplitAfter(first[1..], c, rest, separator);
      assert s[1..] == first[1..] + [c] + rest;
      assert [first[0]] + first[1..] == first;
    }
  }

  function Joined(parts: seq<string>, c: char): string
    requires |parts| > 0
  {
    if |parts| == 1 then parts[0] else parts[0] + [c] + Joined(parts[1..], c)
  }

  /** Joining what was split at a character gives the text back. */
  lemma {:induction false} JoinedParts(s: string, separator: char -> bool, c: char)
    requires forall d :: separator(d) <==> d == c
    ensures Joined(Split(s, separator), c) == s
  {
    if s != "" {
      JoinedParts(s[1..], separator, c);
      var parts, rest := Split(s, separator), Split(s[1..], separator);
      assert [s[0]] + s[1..] == s;
      if separator(s[0]) {
        assert parts[1..] == rest;
      } else if |rest| > 1 {
        assert parts[1..] == rest[1..];
        assert parts[0] + [c] + Joined(rest[1..], c) == [s[0]] + (rest[0] + [c] + Joined(rest[1..], c));
      }
    }
  }

  /** Unicode white space. */
  predicate IsSpace(c: char) {
    '\t' <= c <= '\r' || c == ' ' || c == '\U{85}' || c == '\U{a0}' || c == '\U{1680}'
    || '\U{2000}' <= c <= '\U{200a}' || c == '\U{2028}' || c == '\U{2029}' || c == '\U{202f}'
    || c == '\U{205f}' || c == '\U{3000}'
  }

  predicate IsDigit(c: char) { '0' <= c <= '9' }

  predicate AllDigits(s: string) { forall i :: 0 <= i < |s| ==> IsDigit(s[i]) }

  function DigitChar(n: nat): (c: char)
    requires n < 10
    ensures IsDigit(c)
  {
    '0' + n as char
  }

  /** The value of a run of decimal digits. */
  function ParseNat(s: string): nat
    requires AllDigits(s)
  {
    if s == "" then 0 else 10 * ParseNat(s[..|s| - 1]) + (s[|s| - 1] - '0') as nat
  }

  /** Decimal notation without leading zeros. */
  function Decimal(n: nat): (s: string)
    ensures AllDigits(s) && |s| > 0
    ensures ParseNat(s) == n
  {
    if n < 10 then [DigitChar(n)]
    else
      var s := Decimal(n / 10) + [DigitChar(n % 10)];
      assert s[..|s| - 1] == Decimal(n / 10);
      s
  }

  /** Exactly `width` digits: the last ones of `n`. */
  function Digits(n: nat, width: nat): (s: string)
    ensures |s| == width && AllDigits(s)
  {
    if width == 0 then "" else Digits(n / 10, width - 1) + [DigitChar(n % 10)]
  }

  function Power10(width: nat): (p: nat)
    ensures p >= 1
  {
    if width == 0 then 1 else 10 * Power10(width - 1)
  }

  lemma {:induction false} ParseDigits(n: nat, width: nat)
    requires n < Power10(width)
    ensures ParseNat(Digits(n, width)) == n
  {
    if width > 0 {
      ParseDigits(n / 10, width - 1);
      assert Digits(n, width)[..width - 1] == Digits(n / 10, width - 1);
    }
  }

  lemma {:induction false} DigitsOfParsed(s: string)
    requires AllDigits(s)
    ensures ParseNat(s) < Power10(|s|) && Digits(ParseNat(s), |s|) == s
  {
    if s != "" {
      var front := s[..|s| - 1];
      DigitsOfParsed(front);
      assert ParseNat(s) / 10 == ParseNat(front);
      assert s == front + [s[|s| - 1]];
    }
  }

  function Zeros(n: nat): (s: string)
    ensures |s| == n
  {
    seq(n, _ => '0')
  }

  /** Decimal notation padded with zeros to at least `width` characters, the sign included. */
  function Padded(n: int, width: nat): string {
    var s := Decimal(if n < 0 then -n else n);
    var size := |s| + (if n < 0 then 1 else 0);
    (if n < 0 then "-" else "") + Zeros(if size < width then width - size else 0) + s
  }

  lemma {:induction false} DecimalLength(n: nat, width: nat)
    requires width > 0
    ensures |Decimal(n)| <= width <==> n < Power10(width)
  {
    if n >= 10 {
      if width > 1 { DecimalLength(n / 10, width - 1); }
    }
  }

  lemma PaddedStep(n: nat, width: nat)
    requires width > 1 && |Decimal(n)| <= width && |Decimal(n / 10)| <= width - 1
    ensures Padded(n, width) == Padded(n / 10, width - 1) + [DigitChar(n % 10)]
  {
    PaddedNat(n, width);
    PaddedNat(n / 10, width - 1);
    if n < 10 {
      assert Decimal(n / 10) == "0" && Decimal(n) == [DigitChar(n % 10)];
      assert Zeros(width - 2) + "0" == Zeros(width - 1);
    } else {
      var zeros := Zeros(width - |Decimal(n)|);
      assert zeros + (Decimal(n / 10) + [DigitChar(n % 10)]) == zeros + Decimal(n / 10) + [DigitChar(n % 10)];
    }
  }

  lemma PaddedNat(n: nat, width: nat)
    requires |Decimal(n)| <= width
    ensures Padded(n, width) == Zeros(width - |Decimal(n)|) + Decimal(n)
  {
    var zeros := Zeros(width - |Decimal(n)|);
    assert "" + zeros + Decimal(n) == zeros + Decimal(n);
  }

  lemma {:induction false} PaddedIsDigits(n: nat, width: nat)
    requires width > 0 && n < Power10(width)
    ensures Padded(n, width) == Digits(n, width)
  {
    DecimalLength(n, width);
    if width > 1 {
      PaddedIsDigits(n / 10, width - 1);
      DecimalLength(n / 10, width - 1);
      PaddedStep(n, width);
    } else {
      assert Zeros(0) + Decimal(n) == Decimal(n);
      assert Digits(n / 10, 0) == "";
    }
  }
}
