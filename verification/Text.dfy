/** The text conversions that configuration fields go through: trimming, lower case, decimal integers. */
module Text {
  import opened Wrappers

  const MAX_INT := 0x7FFF_FFFF_FFFF_FFFF
  const MIN_INT := -MAX_INT - 1

  /** White space in the sense of Unicode. */
  predicate IsSpace(c: char) {
    || c in {' ', '\t', '\n', '\r', '\U{000B}', '\U{000C}', '\U{0085}', '\U{00A0}'}
    || c in {'\U{1680}', '\U{2028}', '\U{2029}', '\U{202F}', '\U{205F}', '\U{3000}'}
    || '\U{2000}' <= c <= '\U{200A}'
  }

  /**
   Lower case as far as the result is ASCII: besides the capitals, the dotted
   capital I and the Kelvin sign. No accepted word has any other letter.
   */
  function LowerChar(c: char): char {
    if 'A' <= c <= 'Z' then (c as int - 'A' as int + 'a' as int) as char
    else if c == '\U{0130}' then 'i'
    else if c == '\U{212A}' then 'k'
    else c
  }

  function Lower(s: string): string {
    seq(|s|, i requires 0 <= i < |s| => LowerChar(s[i]))
  }

  function TrimLeft(s: string): string {
    if s != "" && IsSpace(s[0]) then TrimLeft(s[1..]) else s
  }

  function TrimRight(s: string): string {
    if s != "" && IsSpace(s[|s| - 1]) then TrimRight(s[..|s| - 1]) else s
  }

  function Trim(s: string): string {
    TrimRight(TrimLeft(s))
  }

  function Normalise(s: string): string {
    Lower(Trim(s))
  }

  /** Neither white space nor capitals. */
  predicate Plain(s: string) {
    forall c | c in s :: !IsSpace(c) && LowerChar(c) == c
  }

  lemma PlainIsNormal(s: string)
    requires Plain(s)
    ensures Normalise(s) == s
  {
    assert TrimLeft(s) == s;
    assert TrimRight(s) == s;
    assert forall i | 0 <= i < |s| :: s[i] in s;
    assert Lower(s) == s;
  }

  // ---- what trimming and lower case do ------------------------------------------------

  ghost predicate Blank(s: string) {
    forall i | 0 <= i < |s| :: IsSpace(s[i])
  }

  /** No white space at either end. */
  predicate Tight(s: string) {
    s == "" || (!IsSpace(s[0]) && !IsSpace(s[|s| - 1]))
  }

  lemma {:induction false} LeftTrimmed(s: string) returns (i: nat)
    ensures i <= |s| && TrimLeft(s) == s[i..] && Blank(s[..i]) && (i == |s| || !IsSpace(s[i]))
  {
    i := 0;
    if s != "" && IsSpace(s[0]) {
      i := LeftTrimmed(s[1..]);
      assert s[1..][i..] == s[i + 1..] && s[..i + 1] == [s[0]] + s[1..][..i];
      i := i + 1;
    }
  }

  lemma {:induction false} RightTrimmed(s: string) returns (j: nat)
    ensures j <= |s| && TrimRight(s) == s[..j] && Blank(s[j..]) && (j == 0 || !IsSpace(s[j - 1]))
  {
    j := |s|;
    if s != "" && IsSpace(s[j - 1]) {
      var n := |s| - 1;
      var front := s[..n];
      j := RightTrimmed(front);
      assert front[..j] == s[..j];
      forall i | 0 <= i < |s| - j ensures IsSpace(s[j..][i]) {
        assert i < n - j ==> front[j..][i] == s[j..][i];
      }
    } else {
      assert s[..j] == s;
    }
  }

  /** Trimming takes a part out of the middle: white space at both ends goes, and nothing else. */
  lemma TrimTakesMiddle(s: string) returns (i: nat, j: nat)
    ensures i <= j <= |s| && Trim(s) == s[i..j]
    ensures Blank(s[..i]) && Blank(s[j..]) && Tight(s[i..j])
  {
    i := LeftTrimmed(s);
    var rest := s[i..];
    var l := RightTrimmed(rest);
    j := i + l;
    assert rest[..l] == s[i..j] && rest[l..] == s[j..];
  }

  lemma {:induction false} LeftPadding(pad: string, s: string)
    requires Blank(pad) && (s == "" || !IsSpace(s[0]))
    ensures TrimLeft(pad + s) == s
  {
    if pad == "" {
      assert pad + s == s;
    } else {
      LeftPadding(pad[1..], s);
      assert (pad + s)[1..] == pad[1..] + s;
    }
  }

  lemma {:induction false} RightPadding(s: string, pad: string)
    requires Blank(pad) && (s == "" || !IsSpace(s[|s| - 1]))
    ensures TrimRight(s + pad) == s
  {
    if pad == "" {
      assert s + pad == s;
    } else {
      RightPadding(s, pad[..|pad| - 1]);
      assert (s + pad)[..|s + pad| - 1] == s + pad[..|pad| - 1];
    }
  }

  /** Whatever white space surrounds it, a text without any at its ends is what trimming gives. */
  lemma TrimRemovesPadding(left: string, s: string, right: string)
    requires Blank(left) && Blank(right) && Tight(s)
    ensures Trim(left + s + right) == s
  {
    if s == "" {
      assert Blank(left + right);
      LeftPadding(left + right, "");
      assert left + s + right == (left + right) + "";
    } else {
      LeftPadding(left, s + right);
      assert left + s + right == left + (s + right);
      RightPadding(s, right);
    }
  }

  /** `t` is `s` with some of its letters as capitals. */
  ghost predicate Spells(t: string, s: string) {
    |t| == |s| && forall i | 0 <= i < |s| :: t[i] == s[i] || ('a' <= s[i] <= 'z' && t[i] as int == s[i] as int - 'a' as int + 'A' as int)
  }

  /** Neither capitals nor surrounding white space matter. */
  lemma NormaliseForgives(left: string, t: string, right: string, s: string)
    requires Blank(left) && Blank(right) && Plain(s) && Spells(t, s)
    ensures Normalise(left + t + right) == s
  {
    forall i | 0 <= i < |s| ensures !IsSpace(t[i]) && LowerChar(t[i]) == s[i] {
      assert s[i] in s;
    }
    TrimRemovesPadding(left, t, right);
    assert Lower(t) == s;
  }

  // ---- decimal integers ------------------------------------------------------------

  predicate IsDigit(c: char) {
    '0' <= c <= '9'
  }

  predicate AllDigits(s: string) {
    forall c | c in s :: IsDigit(c)
  }

  function DigitChar(d: nat): (c: char)
    requires d < 10
    ensures IsDigit(c)
  {
    ('0' as int + d) as char
  }

  function Value(s: string): nat
    requires AllDigits(s)
  {
    if s == "" then 0
    else
      assert s[|s| - 1] in s;
      10 * Value(s[..|s| - 1]) + (s[|s| - 1] as int - '0' as int)
  }

  function Digits(n: nat): (s: string)
    ensures s != "" && AllDigits(s)
  {
    if n < 10 then [DigitChar(n)] else Digits(n / 10) + [DigitChar(n % 10)]
  }

  lemma {:induction false} ValueOfDigits(n: nat)
    ensures Value(Digits(n)) == n
  {
    if n < 10 {
      var s := [DigitChar(n)];
      assert s[..0] == "" && s[0] == DigitChar(n);
    } else {
      ValueOfDigits(n / 10);
      var s := Digits(n);
      assert s[..|s| - 1] == Digits(n / 10);
    }
  }

  /** Decimal notation of an integer. */
  function Show(n: int): string {
    if n < 0 then "-" + Digits(-n) else Digits(n)
  }

  /** Reads an optional sign and at least one digit; nothing else, and nothing outside 64 bits. */
  function Atoi(s: string): Option<int> {
    var signed := s != "" && (s[0] == '-' || s[0] == '+');
    var body := if signed then s[1..] else s;
    if body == "" || !AllDigits(body) then None
    else
      var v: int := if signed && s[0] == '-' then 0 - Value(body) else Value(body);
      if MIN_INT <= v <= MAX_INT then Some(v) else None
  }

  lemma AtoiOfShow(n: int)
    ensures Atoi(Show(n)) == if MIN_INT <= n <= MAX_INT then Some(n) else None
  {
    var s := Show(n);
    if n < 0 {
      ValueOfDigits(-n);
      assert s[0] == '-' && s[1..] == Digits(-n);
    } else {
      ValueOfDigits(n);
      assert s[0] in s;
      assert IsDigit(s[0]) && s == Digits(n);
    }
  }

  lemma ShowIsPlain(n: int)
    ensures Plain(Show(n)) && Show(n) != ""
  {
    var s := Show(n);
    forall c | c in s ensures !IsSpace(c) && LowerChar(c) == c {
      var d := if n < 0 then Digits(-n) else Digits(n);
      assert c == '-' || c in d;
    }
  }

  /** A sign may be given for positive numbers too. */
  lemma AtoiOfPositive(n: nat)
    ensures Atoi("+" + Digits(n)) == if n <= MAX_INT then Some(n) else None
  {
    ValueOfDigits(n);
    assert ("+" + Digits(n))[1..] == Digits(n);
  }

  /** Different numbers are written differently. */
  lemma ShowIsInjective(m: nat, n: nat)
    requires Show(m) == Show(n)
    ensures m == n
  {
    ValueOfDigits(m);
    ValueOfDigits(n);
  }

  lemma DecimalNotation()
    ensures Show(0) == "0" && Show(-7) == "-7" && Show(120) == "120"
    ensures Atoi("") == None && Atoi("-") == None && Atoi("1x") == None && Atoi("007") == Some(7)
  {
    assert Digits(12) == "12" && Digits(120) == "120";
    assert "1x"[1] in "1x";
    assert "007"[..2] == "00" && "00"[..1] == "0" && "0"[..0] == "";
    assert Value("00") == 0;
  }
}
