/** Names of renamed variables: `i` becomes `i__v1`, `i__v2` and so on. No two versions coincide. */
module VersionNames {

  function Digit(n: nat): char
    requires n < 10
  {
    ('0' as int + n) as char
  }

  // A number in decimal.
  function Decimal(n: nat): (s: string)
    ensures |s| >= 1 && 'v' !in s && (n < 10 <==> |s| == 1)
  {
    if n < 10 then [Digit(n)] else Decimal(n / 10) + [Digit(n % 10)]
  }

  function Version(name: string, n: nat): string {
    name + "__v" + Decimal(n)
  }

  lemma {:induction false} DecimalIsInjective(m: nat, n: nat)
    requires Decimal(m) == Decimal(n)
    ensures m == n
  {
    var s, t := Decimal(m), Decimal(n);
    if m < 10 {
      assert s[0] == t[0];
    } else {
      assert s[..|s| - 1] == Decimal(m / 10) && s[|s| - 1] == Digit(m % 10);
      assert t[..|t| - 1] == Decimal(n / 10) && t[|t| - 1] == Digit(n % 10);
      DecimalIsInjective(m / 10, n / 10);
    }
  }

  // -------- What a version name says

  predicate IsDigit(c: char) {
    '0' <= c <= '9'
  }

  function DigitValue(c: char): nat
    requires IsDigit(c)
  {
    c as int - '0' as int
  }

  // The number a string of digits stands for.
  function ValueOf(s: string): nat
    requires forall c :: c in s ==> IsDigit(c)
  {
    if s == [] then 0
    else
      assert s[|s| - 1] in s;
      10 * ValueOf(s[..|s| - 1]) + DigitValue(s[|s| - 1])
  }

  // The string is the number in decimal, without leading zeros.
  predicate IsNumeral(s: string, n: nat) {
    s != [] && (forall c :: c in s ==> IsDigit(c)) && ValueOf(s) == n && (s[0] == '0' ==> |s| == 1)
  }

  // The name, two underscores, a v and the number.
  ghost predicate IsVersion(s: string, name: string, n: nat) {
    exists d :: IsNumeral(d, n) && s == name + ['_', '_', 'v'] + d
  }

  lemma {:induction false} DecimalIsNumeral(n: nat)
    ensures IsNumeral(Decimal(n), n) && (n > 0 ==> Decimal(n)[0] != '0')
  {
    if n < 10 {
      assert Decimal(n)[..0] == [];
    } else {
      DecimalIsNumeral(n / 10);
      var s := Decimal(n);
      assert s[..|s| - 1] == Decimal(n / 10) && s[|s| - 1] == Digit(n % 10);
      assert s[0] == Decimal(n / 10)[0];
    }
  }

  lemma VersionReads(name: string, n: nat)
    ensures IsVersion(Version(name, n), name, n)
  {
    DecimalIsNumeral(n);
    assert "__v" == ['_', '_', 'v'];
  }

  // -------- Versions differ

  // Position `p` has the last 'v'.
  predicate IsLastV(s: string, p: nat) {
    p < |s| && s[p] == 'v' && forall k :: p < k < |s| ==> s[k] != 'v'
  }

  lemma VersionLastV(name: string, n: nat)
    ensures IsLastV(Version(name, n), |name| + 2)
  {
    var s, p := Version(name, n), |name| + 2;
    forall k | p < k < |s|
      ensures s[k] != 'v'
    {
      assert s[k] == Decimal(n)[k - p - 1];
    }
  }

  // The digits after the last 'v' are the number, what stands before `__v` is the name.
  lemma VersionIsInjective(name: string, m: nat, other: string, n: nat)
    requires Version(name, m) == Version(other, n)
    ensures name == other && m == n
  {
    var s, t := Version(name, m), Version(other, n);
    VersionLastV(name, m);
    VersionLastV(other, n);
    var p := |name| + 2;
    assert p == |other| + 2;
    assert s[p + 1..] == Decimal(m) && t[p + 1..] == Decimal(n);
    assert s[..|name|] == name && t[..|other|] == other;
    DecimalIsInjective(m, n);
  }

  lemma VersionIsNew(name: string, n: nat)
    ensures Version(name, n) != name
  {
    assert |Version(name, n)| > |name|;
  }
}
