/** Python's `str` of an integer and `int` of an ASCII text: the form in which an amount of
    money crosses the wire. */
module Digits {
  import opened Models

  predicate IsDigit(c: char) {
    '0' <= c <= '9'
  }

  /** ASCII white space, as Python sees it. */
  predicate IsSpace(c: char) {
    9 <= c as int <= 13 || 28 <= c as int <= 32
  }

  function DigitOf(d: nat): (c: char)
    requires d < 10
    ensures IsDigit(c) && ValueOf(c) == d
  {
    '0' + d as char
  }

  function ValueOf(c: char): nat
    requires IsDigit(c)
  {
    (c - '0') as nat
  }

  function PrintNat(n: nat): (s: string)
    ensures s != "" && forall c :: c in s ==> IsDigit(c)
  {
    if n < 10 then [DigitOf(n)] else PrintNat(n / 10) + [DigitOf(n % 10)]
  }

  /** `str(n)` */
  function PrintInt(n: int): (s: string)
    ensures s != ""
  {
    if n < 0 then "-" + PrintNat(-n) else PrintNat(n)
  }

  /** Digits, with single underscores allowed between them. */
  function ParseDigits(s: string): Option<nat> {
    if s == "" || !IsDigit(s[|s| - 1]) then None
    else
      var d, init := ValueOf(s[|s| - 1]), s[..|s| - 1];
      if init == "" then Some(d)
      else
        match ParseDigits(if init[|init| - 1] == '_' then init[..|init| - 1] else init)
        case None => None
        case Some(v) => Some(10 * v + d)
  }

  function StripLeft(s: string): string {
    if s != "" && IsSpace(s[0]) then StripLeft(s[1..]) else s
  }

  function StripRight(s: string): string {
    if s != "" && IsSpace(s[|s| - 1]) then StripRight(s[..|s| - 1]) else s
  }

  /** `int(s)`: nothing when it raises. */
  function ParseInt(s: string): Option<int> {
    ParseSigned(StripRight(StripLeft(s)))
  }

  function ParseSigned(t: string): Option<int> {
    if t == "" then None
    else
      var v := ParseDigits(if t[0] == '-' || t[0] == '+' then t[1..] else t);
      if v.None? then None
      else if t[0] == '-' then Some(0 - v.value)
      else Some(v.value)
  }

  // ----- round trips -----

  lemma {:induction false} ParsePrintNat(n: nat)
    ensures ParseDigits(PrintNat(n)) == Some(n)
  {
    if 10 <= n {
      var s, init := PrintNat(n), PrintNat(n / 10);
      assert s[..|s| - 1] == init;
      assert init[|init| - 1] in init;
      ParsePrintNat(n / 10);
    }
  }

  lemma NothingToStrip(s: string)
    requires s != "" && !IsSpace(s[0]) && !IsSpace(s[|s| - 1])
    ensures ParseInt(s) == ParseSigned(s)
  {
  }

  lemma ParseSignedPrint(n: int)
    ensures ParseSigned(PrintInt(n)) == Some(n)
  {
    if n < 0 {
      ParsePrintNat(-n);
      assert PrintInt(n)[1..] == PrintNat(-n);
    } else {
      ParsePrintNat(n);
      assert PrintNat(n)[0] in PrintNat(n);
    }
  }

  lemma PrintedIsTight(n: int)
    ensures var s := PrintInt(n); !IsSpace(s[0]) && !IsSpace(s[|s| - 1])
  {
    var digits := PrintNat(if n < 0 then -n else n);
    assert digits[0] in digits && digits[|digits| - 1] in digits;
  }

  /** Nothing is lost between printing and parsing, so different amounts print differently. */
  lemma ParsePrint(n: int)
    ensures ParseInt(PrintInt(n)) == Some(n)
  {
    PrintedIsTight(n);
    NothingToStrip(PrintInt(n));
    ParseSignedPrint(n);
  }

  /** The texts that `str` produces: no sign but a minus before a positive number, no
      leading zero, nothing else around or between the digits. */
  predicate CanonicalNat(s: string) {
    && s != ""
    && (forall c :: c in s ==> IsDigit(c))
    && (s[0] == '0' ==> |s| == 1)
  }

  predicate Canonical(s: string) {
    if s != "" && s[0] == '-' then CanonicalNat(s[1..]) && s[1] != '0' else CanonicalNat(s)
  }

  lemma {:induction false} PrintNatIsCanonical(n: nat)
    ensures CanonicalNat(PrintNat(n)) && (PrintNat(n)[0] == '0' ==> n == 0)
  {
    if 10 <= n {
      PrintNatIsCanonical(n / 10);
      assert PrintNat(n)[0] == PrintNat(n / 10)[0];
    }
  }

  lemma {:induction false} PrintParseNat(s: string)
    requires CanonicalNat(s)
    ensures ParseDigits(s).Some? && PrintNat(ParseDigits(s).value) == s
    ensures s[0] != '0' ==> 0 < ParseDigits(s).value
  {
    assert IsDigit(s[|s| - 1]) && IsDigit(s[0]);
    if 1 < |s| {
      var init := s[..|s| - 1];
      assert IsDigit(init[|init| - 1]);
      assert init[0] == s[0];
      PrintParseNat(init);
      PrintedDigitByDigit(ParseDigits(init).value, s[|s| - 1]);
      assert s == init + [s[|s| - 1]];
    }
  }

  lemma PrintedDigitByDigit(n: nat, c: char)
    requires 0 < n && IsDigit(c)
    ensures PrintNat(10 * n + ValueOf(c)) == PrintNat(n) + [c]
  {
  }

  lemma PrintIsCanonical(n: int)
    ensures Canonical(PrintInt(n))
  {
    if n < 0 {
      PrintNatIsCanonical(-n);
      assert PrintInt(n)[1..] == PrintNat(-n);
    } else {
      PrintNatIsCanonical(n);
      assert PrintNat(n)[0] in PrintNat(n);
    }
  }

  /** A text survives parsing and printing again exactly when it is canonical. */
  lemma PrintParseExactly(s: string)
    ensures Canonical(s) <==> ParseInt(s).Some? && PrintInt(ParseInt(s).value) == s
  {
    if Canonical(s) {
      var digits := if s[0] == '-' then s[1..] else s;
      PrintParseNat(digits);
      var v: int := ParseDigits(digits).value;
      var n: int := if s[0] == '-' then -v else v;
      assert PrintInt(n) == s;
      ParsePrint(n);
    }
    if ParseInt(s).Some? {
      PrintIsCanonical(ParseInt(s).value);
    }
  }

  // ----- other spellings -----

  lemma SpacesAre(c: char)
    ensures IsSpace(c) <==> c as int in {9, 10, 11, 12, 13, 28, 29, 30, 31, 32}
  {
  }

  /** White space around a number is ignored, and so is a plus sign before it. */
  lemma OtherSpellingsParse(n: nat, c: char)
    requires IsSpace(c)
    ensures ParseInt([c] + PrintNat(n) + [c]) == Some(n)
    ensures ParseInt("+" + PrintNat(n)) == Some(n)
  {
    var s := PrintNat(n);
    PrintedIsTight(n);
    StripsBoth(s, c);
    ParseSignedPrint(n);
    assert PrintInt(n) == s;
    NothingToStrip("+" + s);
    ParsePrintNat(n);
    PlusIsDropped(s);
  }

  lemma PlusIsDropped(s: string)
    requires ParseDigits(s).Some?
    ensures ParseSigned("+" + s) == Some(ParseDigits(s).value)
  {
    assert ("+" + s)[1..] == s;
  }

  lemma StripsBoth(s: string, c: char)
    requires s != "" && !IsSpace(s[0]) && !IsSpace(s[|s| - 1]) && IsSpace(c)
    ensures StripRight(StripLeft([c] + s + [c])) == s
  {
    assert ([c] + s + [c])[1..] == s + [c];
    assert StripLeft(s + [c]) == s + [c];
    StripsLast(s, c);
  }

  lemma StripsLast(s: string, c: char)
    requires s != "" && !IsSpace(s[|s| - 1]) && IsSpace(c)
    ensures StripRight(s + [c]) == s
  {
    assert (s + [c])[..|s|] == s;
  }

  /** Single underscores may stand between digits; not two together, nor at an end. */
  lemma UnderscoresParse(a: nat, d: nat)
    requires d < 10
    ensures ParseDigits(PrintNat(a) + "_" + [DigitOf(d)]) == Some(10 * a + d)
    ensures ParseDigits(PrintNat(a) + "__" + [DigitOf(d)]) == None
    ensures ParseDigits(PrintNat(a) + "_") == None && ParseDigits("_" + [DigitOf(d)]) == None
    ensures ParseDigits("") == None
  {
    var s := PrintNat(a);
    ParsePrintNat(a);
    assert s[|s| - 1] in s;
    var one, two := s + "_" + [DigitOf(d)], s + "__" + [DigitOf(d)];
    assert one[..|one| - 1] == s + "_" && (s + "_")[..|s|] == s;
    assert two[..|two| - 1] == s + "__" && (s + "__")[..|s| + 1] == s + "_";
    assert ParseDigits(s + "_") == None;
    assert ("_" + [DigitOf(d)])[..1] == "_";
  }
}
