/**
 * The few JavaScript built-ins the modelled components rely on, with the
 * semantics the ECMAScript language gives them.
 */
module JsLib {

  /** `s.startsWith(prefix)`. */
  predicate StartsWith(s: string, prefix: string) {
    |prefix| <= |s| && s[..|prefix|] == prefix
  }

  /** `t` occurs in `s` starting at position `i`. */
  ghost predicate OccursAt(s: string, t: string, i: int) {
    0 <= i && i + |t| <= |s| && s[i..i + |t|] == t
  }

  /** `s.includes(t)`: some position of `s` starts an occurrence of `t`. */
  function Includes(s: string, t: string): (r: bool)
    ensures r <==> exists i :: OccursAt(s, t, i)
    decreases |s|
  {
    if StartsWith(s, t) then
      assert OccursAt(s, t, 0);
      true
    else if |s| <= |t| then
      assert forall i :: !OccursAt(s, t, i);
      false
    else
      var r := Includes(s[1..], t);
      assert forall i :: OccursAt(s, t, i) && i > 0 ==> OccursAt(s[1..], t, i - 1) by {
        forall i | OccursAt(s, t, i) && i > 0 ensures OccursAt(s[1..], t, i - 1) {
          assert s[1..][i - 1..i - 1 + |t|] == s[i..i + |t|];
        }
      }
      assert forall j :: OccursAt(s[1..], t, j) ==> OccursAt(s, t, j + 1) by {
        forall j | OccursAt(s[1..], t, j) ensures OccursAt(s, t, j + 1) {
          assert s[1..][j..j + |t|] == s[j + 1..j + 1 + |t|];
        }
      }
      assert !OccursAt(s, t, 0);
      r
  }

  /**
   * `a % n` for a positive `n`: JavaScript's remainder truncates toward zero,
   * so it takes the sign of `a` (Dafny's `%` is Euclidean).
   */
  function Remainder(a: int, n: int): (r: int)
    requires n > 0
    ensures a >= 0 ==> 0 <= r < n
    ensures a < 0 ==> -n < r <= 0
    ensures a >= 0 ==> r == a % n
    ensures a < 0 ==> r == -((-a) % n)
  {
    if a >= 0 then a % n else -((-a) % n)
  }

  /** The character of decimal digit `d`. */
  function DigitChar(d: int): (c: char)
    requires 0 <= d < 10
    ensures '0' <= c <= '9'
  {
    (('0' as int) + d) as char
  }

  /** The value of the decimal digit `c`. */
  function DigitValue(c: char): int {
    (c as int) - ('0' as int)
  }

  /** `n.toString()` for a non-negative integer `n`: its decimal digits. */
  function Decimal(n: nat): (r: string)
    ensures |r| >= 1
    ensures forall k :: 0 <= k < |r| ==> '0' <= r[k] <= '9'
    ensures n > 0 ==> r[0] != '0'
    decreases n
  {
    if n < 10 then [DigitChar(n)] else Decimal(n / 10) + [DigitChar(n % 10)]
  }

  /** The number a string of decimal digits denotes (most significant first). */
  function ParseDecimal(s: string): int
    decreases |s|
  {
    if s == [] then 0 else 10 * ParseDecimal(s[..|s| - 1]) + DigitValue(s[|s| - 1])
  }

  /** Reading back the digits `Decimal` writes gives the number. */
  lemma {:induction false} ParseDecimalOfDecimal(n: nat)
    ensures ParseDecimal(Decimal(n)) == n
    decreases n
  {
    if n >= 10 {
      var s := Decimal(n);
      assert s[..|s| - 1] == Decimal(n / 10);
      ParseDecimalOfDecimal(n / 10);
    } else {
      assert Decimal(n)[..0] == [];
    }
  }

  /** Distinct numbers have distinct decimal strings. */
  lemma DecimalInjective(m: nat, n: nat)
    requires Decimal(m) == Decimal(n)
    ensures m == n
  {
    ParseDecimalOfDecimal(m);
    ParseDecimalOfDecimal(n);
  }

  /** `a.indexOf(x)`: the first position holding `x`, or -1 when there is none. */
  function IndexOf<T(==)>(a: seq<T>, x: T): (r: int)
    ensures -1 <= r < |a|
    ensures r == -1 <==> x !in a
    ensures r >= 0 ==> a[r] == x && x !in a[..r]
    decreases |a|
  {
    if a == [] then -1
    else if a[0] == x then 0
    else
      var k := IndexOf(a[1..], x);
      assert a == [a[0]] + a[1..];
      if k == -1 then -1
      else
        assert a[..k + 1] == [a[0]] + a[1..][..k];
        k + 1
  }
}
