/** The two pieces of the C library the generator leans on: `atoi`, which
    turns the `--length` operand into a number, and reading a NUL-terminated
    buffer back as a string, which is what `printf("%s")` sees. */
module CStrings {

  predicate IsDigit(c: char)
  {
    '0' <= c <= '9'
  }

  /** The characters C's `isspace` accepts in the "C" locale. */
  predicate IsSpace(c: char)
  {
    c == ' ' || c == '\t' || c == '\n' || c == '\r' || c == 11 as char || c == 12 as char
  }

  predicate AllDigits(s: string)
  {
    forall i :: 0 <= i < |s| ==> IsDigit(s[i])
  }

  function DigitValue(c: char): nat
    requires IsDigit(c)
  {
    c as int - '0' as int
  }

  function DigitChar(d: nat): (c: char)
    requires d < 10
    ensures IsDigit(c) && DigitValue(c) == d
  {
    ('0' as int + d) as char
  }

  /** The number a run of decimal digits denotes, most significant first. */
  function DigitsValue(s: string): nat
    requires AllDigits(s)
  {
    if |s| == 0 then 0 else DigitsValue(s[..|s| - 1]) * 10 + DigitValue(s[|s| - 1])
  }

  /** The longest prefix of `s` made of digits. */
  function LeadingDigits(s: string): (r: string)
    ensures r <= s && AllDigits(r)
    ensures |r| == |s| || !IsDigit(s[|r|])
  {
    if |s| > 0 && IsDigit(s[0]) then [s[0]] + LeadingDigits(s[1..]) else []
  }

  /** `s` without its leading white space. */
  function SkipSpace(s: string): (r: string)
    ensures |r| <= |s| && r == s[|s| - |r|..]
    ensures |r| == 0 || !IsSpace(r[0])
  {
    if |s| > 0 && IsSpace(s[0]) then SkipSpace(s[1..]) else s
  }

  /** C's `atoi`: optional white space, an optional sign, then as many
      decimal digits as follow; text without such digits yields 0. */
  function Atoi(s: string): (r: int)
    ensures r != 0 ==> exists i :: 0 <= i < |s| && IsDigit(s[i])
    ensures r < 0 ==> '-' in s
  {
    var t := SkipSpace(s);
    assert forall i :: 0 <= i < |t| ==> t[i] == s[|s| - |t| + i];
    if |t| > 0 && t[0] == '-' then -(DigitsValue(LeadingDigits(t[1..])) as int)
    else if |t| > 0 && t[0] == '+' then DigitsValue(LeadingDigits(t[1..]))
    else DigitsValue(LeadingDigits(t))
  }

  /** The shortest decimal spelling of `n`. */
  function Decimal(n: nat): (r: string)
    ensures |r| > 0 && AllDigits(r)
  {
    if n < 10 then [DigitChar(n)] else Decimal(n / 10) + [DigitChar(n % 10)]
  }

  lemma {:induction false} DigitsValueOfDecimal(n: nat)
    ensures DigitsValue(Decimal(n)) == n
  {
    if n >= 10 {
      var s := Decimal(n);
      assert s[..|s| - 1] == Decimal(n / 10);
      DigitsValueOfDecimal(n / 10);
    }
  }

  /** `atoi` reads back the shortest decimal spelling of every natural
      number. */
  lemma {:induction false} AtoiOfDecimal(n: nat)
    ensures Atoi(Decimal(n)) == n
  {
    var s := Decimal(n);
    assert IsDigit(s[0]);
    assert !IsSpace(s[0]) && s[0] != '-' && s[0] != '+';
    assert SkipSpace(s) == s;
    LeadingDigitsOfDigits(s);
    DigitsValueOfDecimal(n);
    assert Atoi(s) == DigitsValue(LeadingDigits(s));
  }

  lemma {:induction false} LeadingDigitsOfDigits(s: string)
    requires AllDigits(s)
    ensures LeadingDigits(s) == s
  {
    if |s| > 0 {
      LeadingDigitsOfDigits(s[1..]);
    }
  }

  /** Text with no digit in it, such as a flag given where a number was
      expected, makes `atoi` return 0. */
  lemma {:induction false} AtoiOfNonNumeric(s: string)
    requires forall i :: 0 <= i < |s| ==> !IsDigit(s[i])
    ensures Atoi(s) == 0
  {
  }

  /** The string `printf("%s")` prints from a buffer: everything before the
      first NUL, or the whole buffer if there is none. */
  function CString(buf: seq<char>): (r: string)
    ensures r <= buf && '\0' !in r
    ensures |r| == |buf| || buf[|r|] == '\0'
  {
    if |buf| == 0 || buf[0] == '\0' then [] else [buf[0]] + CString(buf[1..])
  }

  /** A terminated string is read back exactly, whatever follows it. */
  lemma {:induction false} CStringOfTerminated(s: string, rest: seq<char>)
    requires '\0' !in s
    ensures CString(s + ['\0'] + rest) == s
  {
    if |s| > 0 {
      assert (s + ['\0'] + rest)[1..] == s[1..] + ['\0'] + rest;
      CStringOfTerminated(s[1..], rest);
    }
  }
}
