/** waitForNodeUpgrade: waiting until the text of the node's version starts with the text of the target. */
module VersionWait {
  import opened Types

  // ---- decimal text ------------------------------------------------------------------------

  function Digit(d: nat): char
    requires d < 10
  {
    (48 + d) as char
  }

  function Dec(n: nat): (s: string)
    ensures |s| > 0 && forall i :: 0 <= i < |s| ==> '0' <= s[i] <= '9'
  {
    if n < 10 then [Digit(n)] else Dec(n / 10) + [Digit(n % 10)]
  }

  /** The number that a text of digits reads as. */
  function Reads(s: string): int {
    if |s| == 0 then 0 else 10 * Reads(s[..|s| - 1]) + (s[|s| - 1] as int - '0' as int)
  }

  lemma {:induction false} DecReads(n: nat)
    ensures Reads(Dec(n)) == n
  {
    var s := Dec(n);
    if n < 10 {
      assert s[..0] == "";
    } else {
      DecReads(n / 10);
      assert s[..|s| - 1] == Dec(n / 10);
    }
  }

  function Pow10(k: nat): (p: nat)
    ensures p > 0
  {
    if k == 0 then 1 else 10 * Pow10(k - 1)
  }

  /** Cut the last k digits off. */
  function Cut(n: nat, k: nat): nat {
    if k == 0 then n else Cut(n / 10, k - 1)
  }

  lemma MultipleIsLarge(b: int, d: int)
    requires b > 0 && d != 0
    ensures b * d >= b || b * d <= -b
  {
  }

  lemma QuotientIsUnique(a: nat, b: nat, q: nat, r: nat)
    requires b > 0 && a == b * q + r && r < b
    ensures a / b == q
  {
    var q', r' := a / b, a % b;
    assert b * (q' - q) == b * q' - b * q == r - r';
    if q' != q {
      MultipleIsLarge(b, q' - q);
    }
  }

  lemma DivTwice(a: nat, b: nat)
    requires b > 0
    ensures a / 10 / b == a / (10 * b)
  {
    var q := a / 10 / b;
    var r := 10 * (a / 10 % b) + a % 10;
    assert a / 10 == b * q + a / 10 % b;
    assert a == 10 * (b * q + a / 10 % b) + a % 10;
    assert 10 * (b * q) == (10 * b) * q;
    QuotientIsUnique(a, 10 * b, q, r);
  }

  lemma {:induction false} CutDivides(n: nat, k: nat)
    ensures Cut(n, k) == n / Pow10(k)
  {
    if k == 0 {
    } else {
      CutDivides(n / 10, k - 1);
      DivTwice(n, Pow10(k - 1));
    }
  }

  lemma {:induction false} DecInjective(a: nat, b: nat)
    requires Dec(a) == Dec(b)
    ensures a == b
  {
    var s, t := Dec(a), Dec(b);
    assert s[|s| - 1] == t[|t| - 1] && s[..|s| - 1] == t[..|t| - 1];
    if a >= 10 && b >= 10 {
      assert Dec(a / 10) == s[..|s| - 1] && Dec(b / 10) == t[..|t| - 1];
      DecInjective(a / 10, b / 10);
    }
  }

  lemma {:induction false} CutIsPrefix(n: nat, k: nat)
    requires k < |Dec(n)|
    ensures Dec(Cut(n, k)) == Dec(n)[..|Dec(n)| - k]
  {
    if k == 0 {
      assert Dec(n)[..|Dec(n)|] == Dec(n);
    } else {
      CutIsPrefix(n / 10, k - 1);
      assert Dec(n)[..|Dec(n)| - 1] == Dec(n / 10);
    }
  }

  /** t is n without its last k digits, for some k that leaves a digit. */
  predicate Truncates(n: nat, t: nat) {
    exists k :: 0 <= k < |Dec(n)| && t == n / Pow10(k)
  }

  lemma DecPrefixIff(n: nat, t: nat)
    ensures Dec(t) <= Dec(n) <==> Truncates(n, t)
  {
    if Dec(t) <= Dec(n) {
      var k := |Dec(n)| - |Dec(t)|;
      CutIsPrefix(n, k);
      DecInjective(t, Cut(n, k));
      CutDivides(n, k);
    }
    if k :| 0 <= k < |Dec(n)| && t == n / Pow10(k) {
      CutDivides(n, k);
      CutIsPrefix(n, k);
    }
  }

  // ---- the test ----------------------------------------------------------------------------

  /** semver.MajorMinor as text. */
  function MajorMinorText(v: Version): string {
    match v
    case Semver(major, minor, _) => "v" + Dec(major) + "." + Dec(minor)
    case Malformed(_) => ""
  }

  predicate LooksUpgraded(current: Version, target: Version) {
    MajorMinorText(target) <= MajorMinorText(current)
  }

  lemma DotEndsDigits(a: string, b: string, x: string, y: string)
    requires forall i :: 0 <= i < |a| ==> a[i] != '.'
    requires forall i :: 0 <= i < |b| ==> b[i] != '.'
    ensures a + "." + x <= b + "." + y <==> a == b && x <= y
  {
    var s, t := a + "." + x, b + "." + y;
    if s <= t {
      assert s[|a|] == '.' && t[|b|] == '.';
      assert |a| == |b|;
      assert a == s[..|a|] == t[..|a|] == b;
      assert x == s[|a| + 1..] && y == t[|a| + 1..];
      assert forall i :: 0 <= i < |x| ==> x[i] == s[|a| + 1 + i] == t[|a| + 1 + i] == y[i];
    }
    if a == b && x <= y {
      assert t == s + y[|x|..];
    }
  }

  lemma SharedHead(v: string, x: string, y: string)
    ensures v + x <= v + y <==> x <= y
  {
    var s, t := v + x, v + y;
    if s <= t {
      assert forall i :: 0 <= i < |x| ==> x[i] == s[|v| + i] == t[|v| + i] == y[i];
    }
    if x <= y {
      assert t == s + y[|x|..];
    }
  }

  lemma TextPrefix(current: Version, target: Version)
    requires current.Semver? && target.Semver?
    ensures LooksUpgraded(current, target) <==> current.major == target.major && Dec(target.minor) <= Dec(current.minor)
  {
    var cm, tm := Dec(current.major), Dec(target.major);
    var c, t := cm + "." + Dec(current.minor), tm + "." + Dec(target.minor);
    assert MajorMinorText(current) == "v" + c && MajorMinorText(target) == "v" + t;
    SharedHead("v", t, c);
    DotEndsDigits(tm, cm, Dec(target.minor), Dec(current.minor));
    if cm == tm {
      DecInjective(current.major, target.major);
    }
  }

  /** The test passes for every node when the target is malformed. Otherwise it passes exactly when the node's version
      is well formed, the majors agree and the target's minor is the node's with digits cut off. */
  lemma LooksUpgradedIff(current: Version, target: Version)
    ensures LooksUpgraded(current, target) <==>
              || target.Malformed?
              || (&& current.Semver? && current.major == target.major
                  && Truncates(current.minor, target.minor))
    ensures current.Semver? && target.Semver? && |Dec(current.minor)| == |Dec(target.minor)| ==>
              (LooksUpgraded(current, target) <==> current.major == target.major && current.minor == target.minor)
  {
    if current.Semver? && target.Semver? {
      TextPrefix(current, target);
      DecPrefixIff(current.minor, target.minor);
      if |Dec(current.minor)| == |Dec(target.minor)| && Dec(target.minor) <= Dec(current.minor) {
        DecInjective(current.minor, target.minor);
      }
    }
  }

  /** A node still at 1.25 already looks upgraded when the target is 1.2. */
  lemma FalsePositive()
    ensures LooksUpgraded(Semver(1, 25, ".3"), Semver(1, 2, ".0"))
  {
    assert 25 / Pow10(1) == 2 && |Dec(25)| == 2;
    assert Truncates(25, 2);
    LooksUpgradedIff(Semver(1, 25, ".3"), Semver(1, 2, ".0"));
  }

  // ---- the loop ----------------------------------------------------------------------------

  const ATTEMPTS := 60

  predicate Waits(seen: Option<Version>, target: Version) {
    seen.Some? && !LooksUpgraded(seen.value, target)
  }

  /** `lookups(i)` is what the i-th lookup of the node's version answers, None being an error. The wait ends at the
      first answer that is not to be waited on, at the latest after 60, and fails only if that is an error. */
  method WaitForNodeUpgrade(lookups: nat -> Option<Version>, target: Version) returns (failed: bool, made: nat)
    ensures made <= 60
    ensures forall i :: 0 <= i < made - 1 ==> lookups(i).Some? && !LooksUpgraded(lookups(i).value, target)
    ensures made < 60 ==> made > 0 && (lookups(made - 1).None? || LooksUpgraded(lookups(made - 1).value, target))
    ensures failed <==> made > 0 && lookups(made - 1).None?
  {
    made := 0;
    var attempts := ATTEMPTS;
    while attempts > 0
      invariant 0 <= attempts <= ATTEMPTS && made == ATTEMPTS - attempts
      invariant forall i :: 0 <= i < made ==> Waits(lookups(i), target)
    {
      var node := lookups(made);
      made := made + 1;
      if node.None? {
        return true, made;
      }
      if MajorMinorText(target) <= MajorMinorText(node.value) {
        return false, made;
      }
      attempts := attempts - 1;
    }
    return false, made;
  }
}
