/** Decimal rendering of integers, trimming, lower-casing and the separator arguments that string keys rest on. */
module Text {
  function Digit(n: nat): char
    requires n < 10
  {
    '0' + n as char
  }

  predicate IsDigit(c: char) { '0' <= c <= '9' }

  function Natural(n: nat): string {
    if n < 10 then [Digit(n)] else Natural(n / 10) + [Digit(n % 10)]
  }

  /** Base-ten rendering with a leading minus sign for negative numbers. */
  function Decimal(n: int): string {
    if n < 0 then "-" + Natural(-n) else Natural(n)
  }

  lemma {:induction false} NaturalDigits(n: nat)
    ensures Natural(n) != [] && forall c :: c in Natural(n) ==> IsDigit(c)
  {
    if n >= 10 {
      NaturalDigits(n / 10);
    }
  }

  lemma {:induction false} NaturalInjective(m: nat, n: nat)
    requires Natural(m) == Natural(n)
    ensures m == n
  {
    NaturalDigits(m / 10);
    NaturalDigits(n / 10);
    var a, b := Natural(m), Natural(n);
    assert a[|a| - 1] == Digit(m % 10) && b[|b| - 1] == Digit(n % 10);
    if m >= 10 && n >= 10 {
      assert a[..|a| - 1] == Natural(m / 10) && b[..|b| - 1] == Natural(n / 10);
      NaturalInjective(m / 10, n / 10);
    }
  }

  lemma DecimalShape(n: int)
    ensures Decimal(n) != [] && ':' !in Decimal(n)
  {
    NaturalDigits(if n < 0 then -n else n);
  }

  lemma DecimalInjective(m: int, n: int)
    requires Decimal(m) == Decimal(n)
    ensures m == n
  {
    NaturalDigits(if m < 0 then -m else m);
    NaturalDigits(if n < 0 then -n else n);
    var a, b := Decimal(m), Decimal(n);
    assert m < 0 ==> a[0] == '-' && a[1..] == Natural(-m);
    assert n < 0 ==> b[0] == '-' && b[1..] == Natural(-n);
    assert m >= 0 ==> a[0] in Natural(m);
    assert n >= 0 ==> b[0] in Natural(n);
    NaturalInjective(if m < 0 then -m else m, if n < 0 then -n else n);
  }

  /** What a row of digits is worth. */
  function Worth(digits: string): int {
    if digits == "" then 0 else 10 * Worth(digits[..|digits| - 1]) + (digits[|digits| - 1] as int - '0' as int)
  }

  /** The digits are worth the number, and no number above nine begins with a zero. */
  lemma {:induction false} NaturalWorth(n: nat)
    ensures Worth(Natural(n)) == n && (n > 9 ==> Natural(n)[0] != '0')
  {
    if n >= 10 {
      NaturalWorth(n / 10);
      NaturalDigits(n / 10);
      assert Natural(n)[..|Natural(n)| - 1] == Natural(n / 10);
      assert Natural(n)[0] == Natural(n / 10)[0];
    }
  }

  /** A text in base ten is worth its number, after a minus sign when that is negative. */
  lemma DecimalWorth(n: int)
    ensures n >= 0 ==> Worth(Decimal(n)) == n
    ensures n < 0 ==> Decimal(n)[0] == '-' && Worth(Decimal(n)[1..]) == -n
  {
    NaturalWorth(if n < 0 then -n else n);
    assert n < 0 ==> Decimal(n)[1..] == Natural(-n);
  }

  /** Two texts cut at their first colon agree on both halves. */
  lemma {:induction false} FirstColon(a: string, x: string, b: string, y: string)
    requires ':' !in a && ':' !in b
    requires a + ":" + x == b + ":" + y
    ensures a == b && x == y
  {
    assert a != [] ==> (a + ":" + x)[0] == a[0] && a[0] in a;
    assert b != [] ==> (b + ":" + y)[0] == b[0] && b[0] in b;
    assert a == [] ==> (a + ":" + x)[0] == ':' && (a + ":" + x)[1..] == x;
    assert b == [] ==> (b + ":" + y)[0] == ':' && (b + ":" + y)[1..] == y;
    if a != [] {
      assert (a + ":" + x)[1..] == a[1..] + ":" + x && (b + ":" + y)[1..] == b[1..] + ":" + y;
      FirstColon(a[1..], x, b[1..], y);
    }
  }

  // ---------------------------------------------------------------- trimming

  predicate IsSpace(c: char) { c == ' ' || '\t' <= c <= '\r' }

  function TrimLeft(s: string): string {
    if s != [] && IsSpace(s[0]) then TrimLeft(s[1..]) else s
  }

  function TrimRight(s: string): string {
    if s != [] && IsSpace(s[|s| - 1]) then TrimRight(s[..|s| - 1]) else s
  }

  function Trim(s: string): string {
    TrimRight(TrimLeft(s))
  }

  /** Neither end is blank. */
  predicate Trimmed(s: string) {
    s != [] ==> !IsSpace(s[0]) && !IsSpace(s[|s| - 1])
  }

  lemma {:induction false} TrimLeftShape(s: string)
    ensures TrimLeft(s) != [] ==> !IsSpace(TrimLeft(s)[0])
  {
    if s != [] && IsSpace(s[0]) { TrimLeftShape(s[1..]); }
  }

  lemma {:induction false} TrimRightShape(s: string)
    ensures TrimRight(s) <= s && (TrimRight(s) != [] ==> !IsSpace(TrimRight(s)[|TrimRight(s)| - 1]))
  {
    if s != [] && IsSpace(s[|s| - 1]) { TrimRightShape(s[..|s| - 1]); }
  }

  lemma TrimShape(s: string)
    ensures Trimmed(Trim(s)) && (Trimmed(s) ==> Trim(s) == s)
  {
    TrimLeftShape(s);
    TrimRightShape(TrimLeft(s));
  }

  /** Every character is a space, a tab or a line end. */
  predicate Blank(s: string) {
    forall i :: 0 <= i < |s| ==> s[i] in {' ', '\t', '\n', '\U{000B}', '\U{000C}', '\r'}
  }

  lemma {:induction false} TrimLeftCuts(s: string)
    ensures |TrimLeft(s)| <= |s| && TrimLeft(s) == s[|s| - |TrimLeft(s)|..] && Blank(s[..|s| - |TrimLeft(s)|])
  {
    if s != [] && IsSpace(s[0]) {
      TrimLeftCuts(s[1..]);
      var n := |s| - |TrimLeft(s)|;
      assert s[..n] == [s[0]] + s[1..][..n - 1] && s[n..] == s[1..][n - 1..];
    }
  }

  lemma {:induction false} TrimRightCuts(s: string)
    ensures TrimRight(s) <= s && Blank(s[|TrimRight(s)|..])
  {
    if s != [] && IsSpace(s[|s| - 1]) {
      TrimRightCuts(s[..|s| - 1]);
      var n := |TrimRight(s)|;
      assert s[n..] == s[..|s| - 1][n..] + [s[|s| - 1]];
    }
  }

  /** Trimming cuts blanks off both ends and nothing else. */
  lemma TrimCutsBlanks(s: string)
    ensures exists before, after :: Blank(before) && Blank(after) && s == before + Trim(s) + after
    ensures Trim(s) != "" ==> !Blank([Trim(s)[0]]) && !Blank([Trim(s)[|Trim(s)| - 1]])
  {
    var left, n := TrimLeft(s), |s| - |TrimLeft(s)|;
    TrimLeftCuts(s);
    TrimRightCuts(left);
    assert s == s[..n] + Trim(s) + left[|Trim(s)|..];
    TrimShape(s);
    if Trim(s) != "" {
      assert !Blank([Trim(s)[0]]) by { assert [Trim(s)[0]][0] == Trim(s)[0]; }
      assert !Blank([Trim(s)[|Trim(s)| - 1]]) by { assert [Trim(s)[|Trim(s)| - 1]][0] == Trim(s)[|Trim(s)| - 1]; }
    }
  }

  // ---------------------------------------------------------------- lower case

  function LowerChar(c: char): char {
    if 'A' <= c <= 'Z' then c - 'A' + 'a' else c
  }

  function Lower(s: string): string {
    seq(|s|, i requires 0 <= i < |s| => LowerChar(s[i]))
  }

  /** The letters from A to Z move by 32, and no other character changes. */
  lemma LowerMovesCapitals(s: string, i: nat)
    requires i < |s|
    ensures |Lower(s)| == |s|
    ensures Lower(s)[i] as int == s[i] as int + if 65 <= s[i] as int <= 90 then 32 else 0
  {
  }

  lemma LowerKeeps(s: string)
    ensures Lower(Lower(s)) == Lower(s) && (Trimmed(s) ==> Trimmed(Lower(s)))
  {
    assert forall c :: IsSpace(LowerChar(c)) <==> IsSpace(c);
  }

  /** Trimming and lower-casing twice is the same as once. */
  lemma NormalizeTwice(s: string)
    ensures Lower(Trim(Lower(Trim(s)))) == Lower(Trim(s))
  {
    TrimShape(s);
    LowerKeeps(Trim(s));
    TrimShape(Lower(Trim(s)));
  }
}
