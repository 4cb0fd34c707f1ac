/**
 * Text that the cache layer builds from integers: Python's `str()` of an
 * `int` (what `"{}".format(i)` produces), `os.path.join`, and the fact that
 * fields written with a non-digit separator after them can be read back.
 */
module Naming {

  predicate IsDigit(c: char) {
    '0' <= c <= '9'
  }

  function DigitChar(d: nat): (c: char)
    requires d < 10
    ensures IsDigit(c) && c as int - '0' as int == d
  {
    (d + '0' as int) as char
  }

  /** Decimal digits of `n`, most significant first, without leading zeros. */
  function NatToString(n: nat): (s: string)
    ensures 1 <= |s|
    ensures forall k :: 0 <= k < |s| ==> IsDigit(s[k])
    ensures n >= 10 ==> 2 <= |s|
    decreases n
  {
    if n < 10 then [DigitChar(n)] else NatToString(n / 10) + [DigitChar(n % 10)]
  }

  /** Python's `str(i)`: a minus sign for negative values, then the digits of `|i|`. */
  function IntToString(i: int): (s: string)
    ensures 1 <= |s|
    ensures s[0] == '-' <==> i < 0
    ensures s[0] != '-' ==> IsDigit(s[0])
    ensures forall k :: 1 <= k < |s| ==> IsDigit(s[k])
  {
    if i < 0 then "-" + NatToString(-i) else NatToString(i)
  }

  /** One formatted field followed by its separator: `"{}<sep>".format(i) + rest`. */
  function Field(i: int, sep: char, rest: string): (s: string) {
    IntToString(i) + [sep] + rest
  }

  /** `os.path.join(dir, name)` on POSIX for a single component. */
  function Join(dir: string, name: string): (p: string)
    ensures |name| <= |p| && p[|p| - |name|..] == name
    ensures (|name| == 0 || name[0] != '/') ==> dir <= p
  {
    if |name| > 0 && name[0] == '/' then name
    else if dir == [] || dir[|dir| - 1] == '/' then dir + name
    else dir + "/" + name
  }

  lemma {:induction false} NatToStringInjective(a: nat, b: nat)
    requires NatToString(a) == NatToString(b)
    ensures a == b
    decreases a
  {
    var sa, sb := NatToString(a), NatToString(b);
    if a < 10 && b < 10 {
      assert DigitChar(a) == sa[0] == sb[0] == DigitChar(b);
    } else if a < 10 || b < 10 {
      // one has a single digit, the other at least two
      assert false;
    } else {
      var pa, pb := NatToString(a / 10), NatToString(b / 10);
      assert sa == pa + [DigitChar(a % 10)];
      assert sb == pb + [DigitChar(b % 10)];
      assert DigitChar(a % 10) == sa[|sa| - 1] == sb[|sb| - 1] == DigitChar(b % 10);
      assert pa == sa[..|sa| - 1] == sb[..|sb| - 1] == pb;
      NatToStringInjective(a / 10, b / 10);
    }
  }

  /** Distinct integers print differently. */
  lemma IntToStringInjective(a: int, b: int)
    requires IntToString(a) == IntToString(b)
    ensures a == b
  {
    var sa, sb := IntToString(a), IntToString(b);
    if a < 0 && b < 0 {
      assert NatToString(-a) == sa[1..] == sb[1..] == NatToString(-b);
      NatToStringInjective(-a, -b);
    } else if a >= 0 && b >= 0 {
      NatToStringInjective(a, b);
    }
  }

  /**
   * A printed integer followed by any non-digit separator can be split off
   * unambiguously: the field ends at the first non-digit after its first
   * character (which may be a minus sign).
   */
  lemma FieldSplit(a: int, c1: char, s: string, b: int, c2: char, t: string)
    requires !IsDigit(c1) && !IsDigit(c2)
    requires Field(a, c1, s) == Field(b, c2, t)
    ensures a == b && c1 == c2 && s == t
  {
    var sa, sb := IntToString(a), IntToString(b);
    var x := Field(a, c1, s);
    assert x == sa + [c1] + s && x == sb + [c2] + t;
    ScanStopsAtSeparator(sa, c1, s, 1);
    ScanStopsAtSeparator(sb, c2, t, 1);
    assert sa == x[..|sa|] == sb;
    IntToStringInjective(a, b);
    assert c1 == x[|sa|] == c2;
    assert s == x[|sa| + 1..] == t;
  }

  /** Position of the first non-digit at or after `k` (or the end of `x`). */
  function FirstNonDigitFrom(x: string, k: nat): (n: nat)
    requires k <= |x|
    decreases |x| - k
  {
    if k == |x| || !IsDigit(x[k]) then k else FirstNonDigitFrom(x, k + 1)
  }

  /** In a field followed by a non-digit separator, the scan from `k` stops at the separator. */
  lemma {:induction false} ScanStopsAtSeparator(sa: string, c: char, s: string, k: nat)
    requires 1 <= k <= |sa| && !IsDigit(c)
    requires forall i :: 1 <= i < |sa| ==> IsDigit(sa[i])
    ensures FirstNonDigitFrom(sa + [c] + s, k) == |sa|
    decreases |sa| - k
  {
    var x := sa + [c] + s;
    if k < |sa| {
      assert x[k] == sa[k];
      ScanStopsAtSeparator(sa, c, s, k + 1);
    } else {
      assert x[k] == c;
    }
  }

  /** Joining onto the same directory keeps relative names apart. */
  lemma JoinInjective(dir: string, n1: string, n2: string)
    requires |n1| > 0 && n1[0] != '/' && |n2| > 0 && n2[0] != '/'
    requires Join(dir, n1) == Join(dir, n2)
    ensures n1 == n2
  {
    var sep := if dir == [] || dir[|dir| - 1] == '/' then "" else "/";
    var p := dir + sep;
    assert Join(dir, n1) == p + n1 && Join(dir, n2) == p + n2;
    assert n1 == (p + n1)[|p|..] == (p + n2)[|p|..] == n2;
  }
}
