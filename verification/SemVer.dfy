/** Precedence of release versions. `Compare` is what the script computes; `PreLower` and `Lower` state section 11 of
    Semantic Versioning 2.0.0 on its own. They agree on identifiers without leading zeros (section 9). */
module SemVer {
  import opened Prelude

  predicate IsDigit(c: char) {
    '0' <= c <= '9'
  }

  predicate IsNumeric(s: string) {
    s != "" && forall i | 0 <= i < |s| :: IsDigit(s[i])
  }

  function Digit(c: char): int {
    c as int - '0' as int
  }

  /** The value of a string of digits. */
  function Value(s: string): int {
    if s == "" then 0 else 10 * Value(s[..|s| - 1]) + Digit(s[|s| - 1])
  }

  predicate LeadingZero(s: string) {
    IsNumeric(s) && |s| > 1 && s[0] == '0'
  }

  /** Order by character code, a proper prefix first. */
  predicate LexLess(a: string, b: string) {
    b != "" && (a == "" || a[0] < b[0] || (a[0] == b[0] && LexLess(a[1..], b[1..])))
  }

  // ---------------------------------------------------------------------------------------------
  // Section 11

  /** Identifiers: numbers by value, below all others, which go by character code. */
  predicate IdentLower(a: string, b: string) {
    if IsNumeric(a) && IsNumeric(b) then Value(a) < Value(b)
    else if IsNumeric(a) != IsNumeric(b) then IsNumeric(a)
    else LexLess(a, b)
  }

  /** `l` and `r` first differ at field `k`, where `l` is lower or has run out of fields. */
  predicate LowerAt(l: seq<string>, r: seq<string>, k: nat) {
    && k <= |l| && k < |r| && l[..k] == r[..k]
    && (k < |l| ==> l[k] != r[k] && IdentLower(l[k], r[k]))
  }

  predicate PreLower(l: seq<string>, r: seq<string>) {
    exists k | 0 <= k < |r| :: LowerAt(l, r, k)
  }

  datatype Core = Core(major: int, minor: int, patch: int)

  predicate CoreLess(a: Core, b: Core) {
    a.major < b.major || (a.major == b.major && (a.minor < b.minor || (a.minor == b.minor && a.patch < b.patch)))
  }

  datatype Version = Version(core: Core, prerelease: Option<seq<string>>)

  /** A prerelease is below its release. */
  predicate Lower(a: Version, b: Version) {
    || CoreLess(a.core, b.core)
    || (a.core == b.core && a.prerelease.Some?
        && (b.prerelease.None? || PreLower(a.prerelease.value, b.prerelease.value)))
  }

  predicate ValidIdents(ids: seq<string>) {
    forall i | 0 <= i < |ids| :: !LeadingZero(ids[i])
  }

  predicate ValidVersion(v: Version) {
    v.prerelease.Some? ==> ValidIdents(v.prerelease.value)
  }

  // ---------------------------------------------------------------------------------------------
  // The code

  function CompareIdent(a: string, b: string): int
    requires a != b
  {
    if IsNumeric(a) && IsNumeric(b) then (if Value(a) < Value(b) then -1 else 1)
    else if IsNumeric(a) != IsNumeric(b) then (if IsNumeric(a) then -1 else 1)
    else if LexLess(a, b) then -1 else 1
  }

  /** The first differing field decides, then the number of fields. */
  function Compare(l: seq<string>, r: seq<string>): int {
    if l == [] || r == [] then (if |l| == |r| then 0 else if |l| < |r| then -1 else 1)
    else if l[0] == r[0] then Compare(l[1..], r[1..])
    else CompareIdent(l[0], r[0])
  }

  method ComparePrerelease(left: seq<string>, right: seq<string>) returns (c: int)
    ensures c == Compare(left, right)
    ensures ValidIdents(left) && ValidIdents(right) ==>
              && (c < 0 <==> PreLower(left, right))
              && (c == 0 <==> left == right)
              && (c > 0 <==> PreLower(right, left))
  {
    CompareIsSection11(left, right);
    var n := if |left| < |right| then |left| else |right|;
    for index := 0 to n
      invariant Compare(left, right) == Compare(left[index..], right[index..])
    {
      if left[index] != right[index] {
        return CompareIdent(left[index], right[index]);
      }
    }
    return if |left| == |right| then 0 else if |left| < |right| then -1 else 1;
  }

  /** `Version.__lt__`. */
  method LessThan(a: Version, b: Version) returns (less: bool)
    requires ValidVersion(a) && ValidVersion(b)
    ensures less <==> Lower(a, b)
  {
    if a.core != b.core {
      return CoreLess(a.core, b.core);
    }
    if a.prerelease.None? {
      return false;
    }
    if b.prerelease.None? {
      return true;
    }
    var c := ComparePrerelease(a.prerelease.value, b.prerelease.value);
    return c < 0;
  }

  // ---------------------------------------------------------------------------------------------
  // Decimal numerals without leading zeros are determined by their value

  lemma {:induction false} ValuePositive(s: string)
    requires IsNumeric(s)
    ensures Value(s) >= 0 && (s[0] != '0' ==> Value(s) > 0)
  {
    if |s| > 1 {
      ValuePositive(s[..|s| - 1]);
    } else {
      assert s[..0] == "" && Value(s[..0]) == 0;
    }
  }

  lemma {:induction false} ValueInjective(a: string, b: string)
    requires IsNumeric(a) && IsNumeric(b) && !LeadingZero(a) && !LeadingZero(b)
    requires Value(a) == Value(b)
    ensures a == b
    decreases |a|
  {
    var m, n := |a| - 1, |b| - 1;
    assert a == a[..m] + [a[m]] && b == b[..n] + [b[n]];
    assert IsDigit(a[m]) && IsDigit(b[n]);
    assert Value(a[..m]) == Value(b[..n]) && a[m] == b[n];
    if m > 0 {
      ValuePositive(a[..m]);
    }
    if n > 0 {
      ValuePositive(b[..n]);
    }
    if m > 0 && n > 0 {
      ValueInjective(a[..m], b[..n]);
    } else {
      assert Value("") == 0;
      assert m == 0 ==> a[..m] == "";
      assert n == 0 ==> b[..n] == "";
    }
  }

  // ---------------------------------------------------------------------------------------------
  // The code agrees with section 11

  lemma {:induction false} LexTotal(a: string, b: string)
    ensures LexLess(a, b) <==> !LexLess(b, a) && a != b
  {
    if a != "" && b != "" && a[0] == b[0] {
      LexTotal(a[1..], b[1..]);
      assert a == [a[0]] + a[1..] && b == [b[0]] + b[1..];
    }
  }

  lemma {:induction false} LexTransitive(a: string, b: string, c: string)
    requires LexLess(a, b) && LexLess(b, c)
    ensures LexLess(a, c)
  {
    if a != "" && a[0] == b[0] == c[0] {
      LexTransitive(a[1..], b[1..], c[1..]);
    }
  }

  lemma IdentTotal(a: string, b: string)
    requires !LeadingZero(a) && !LeadingZero(b)
    ensures IdentLower(a, b) <==> !IdentLower(b, a) && a != b
    ensures a != b ==> (CompareIdent(a, b) < 0 <==> IdentLower(a, b))
  {
    LexTotal(a, b);
    if IsNumeric(a) && IsNumeric(b) && Value(a) == Value(b) {
      ValueInjective(a, b);
    }
  }

  lemma IdentTransitive(a: string, b: string, c: string)
    requires IdentLower(a, b) && IdentLower(b, c)
    ensures IdentLower(a, c)
  {
    if !IsNumeric(a) {
      LexTransitive(a, b, c);
    }
  }

  /** Precedence of the tails is precedence of the whole below an equal first field. */
  lemma PreLowerTail(l: seq<string>, r: seq<string>)
    requires l != [] && r != [] && l[0] == r[0]
    ensures PreLower(l, r) <==> PreLower(l[1..], r[1..])
  {
    hide IdentLower;
    if k :| 0 <= k < |r| && LowerAt(l, r, k) {
      assert k > 0;
      assert l[1..][..k - 1] == l[..k][1..] && r[1..][..k - 1] == r[..k][1..];
      assert LowerAt(l[1..], r[1..], k - 1);
    }
    if k :| 0 <= k < |r| - 1 && LowerAt(l[1..], r[1..], k) {
      assert l[..k + 1] == [l[0]] + l[1..][..k] && r[..k + 1] == [r[0]] + r[1..][..k];
      assert LowerAt(l, r, k + 1);
    }
  }

  lemma SharedHead(l: seq<string>, r: seq<string>, k: nat)
    requires LowerAt(l, r, k)
    ensures k == 0 || (l != [] && r != [] && l[0] == r[0])
  {
    if k > 0 {
      assert l[..k][0] == r[..k][0];
    }
  }

  lemma PreLowerHead(l: seq<string>, r: seq<string>)
    requires l == [] || r == [] || l[0] != r[0]
    ensures PreLower(l, r) <==> r != [] && (l == [] || IdentLower(l[0], r[0]))
  {
    hide IdentLower;
    if k :| 0 <= k < |r| && LowerAt(l, r, k) {
      SharedHead(l, r, k);
    }
    if r != [] && (l == [] || IdentLower(l[0], r[0])) {
      assert LowerAt(l, r, 0);
    }
  }

  lemma {:induction false} CompareIsSection11(l: seq<string>, r: seq<string>)
    ensures ValidIdents(l) && ValidIdents(r) ==>
              && (Compare(l, r) < 0 <==> PreLower(l, r))
              && (Compare(l, r) == 0 <==> l == r)
              && (Compare(l, r) > 0 <==> PreLower(r, l))
  {
    hide IdentLower, CompareIdent, PreLower, LeadingZero;
    if l != [] && r != [] && l[0] == r[0] {
      CompareIsSection11(l[1..], r[1..]);
      PreLowerTail(l, r);
      PreLowerTail(r, l);
      assert l == [l[0]] + l[1..] && r == [r[0]] + r[1..];
    } else {
      PreLowerHead(l, r);
      PreLowerHead(r, l);
      if l != [] && r != [] && ValidIdents(l) && ValidIdents(r) {
        IdentTotal(l[0], r[0]);
        assert CompareIdent(l[0], r[0]) != 0 by { CompareIdentIsNotZero(l[0], r[0]); }
      }
    }
  }

  lemma CompareIdentIsNotZero(a: string, b: string)
    requires a != b
    ensures CompareIdent(a, b) != 0
  {
  }

  /** With leading zeros the comparison is no order: each of "01" and "1" counts as above the other. */
  lemma LeadingZerosBreakTheOrder()
    ensures Compare(["01"], ["1"]) == 1 && Compare(["1"], ["01"]) == 1
  {
    assert "01"[..1] == "0" && "0"[..0] == "" && "1"[..0] == "";
    assert Value("0") == 0 && Value("1") == 1;
    assert Value("01") == 1;
  }

  // ---------------------------------------------------------------------------------------------
  // A strict total order

  lemma {:induction false} PreTransitive(a: seq<string>, b: seq<string>, c: seq<string>)
    requires PreLower(a, b) && PreLower(b, c)
    ensures PreLower(a, c)
  {
    hide IdentLower, PreLower;
    if a != [] && b != [] && c != [] && a[0] == b[0] == c[0] {
      PreLowerTail(a, b);
      PreLowerTail(b, c);
      PreLowerTail(a, c);
      PreTransitive(a[1..], b[1..], c[1..]);
    } else {
      HeadDecides(a, b);
      HeadDecides(b, c);
      if a != [] && a[0] != b[0] && b[0] != c[0] {
        IdentTransitive(a[0], b[0], c[0]);
      }
      if a != [] && a[0] == c[0] {
        IdentIrreflexive(a[0]);
      }
      PreLowerHead(a, c);
    }
  }

  lemma IdentIrreflexive(a: string)
    ensures !IdentLower(a, a)
  {
    LexTotal(a, a);
  }

  lemma HeadDecides(a: seq<string>, b: seq<string>)
    requires PreLower(a, b)
    ensures b != [] && (a == [] || a[0] == b[0] || IdentLower(a[0], b[0]))
  {
    if a == [] || b == [] || a[0] != b[0] {
      PreLowerHead(a, b);
    }
  }

  /** Versions without leading zeros are strictly and totally ordered: exactly one of lower, equal and higher. */
  lemma PrecedenceIsTotal(a: Version, b: Version)
    requires ValidVersion(a) && ValidVersion(b)
    ensures Lower(a, b) <==> !Lower(b, a) && a != b
  {
    hide PreLower;
    if a.prerelease.Some? && b.prerelease.Some? {
      CompareIsSection11(a.prerelease.value, b.prerelease.value);
    }
  }

  lemma PrecedenceIsTransitive(a: Version, b: Version, c: Version)
    requires Lower(a, b) && Lower(b, c)
    ensures Lower(a, c)
  {
    hide PreLower;
    if a.core == b.core == c.core && c.prerelease.Some? {
      PreTransitive(a.prerelease.value, b.prerelease.value, c.prerelease.value);
    }
  }

  // ---------------------------------------------------------------------------------------------
  // What the order is, said otherwise

  lemma EmptyIsZero()
    ensures Value("") == 0 && Power(0) == 1
  {
  }

  lemma Regroup(x: int, p: int, y: int, z: int)
    ensures 10 * (x * p + y) + z == x * (10 * p) + (10 * y + z)
  {
  }

  lemma {:induction false} ValueOfTail(s: string)
    requires IsNumeric(s)
    ensures Value(s) == Digit(s[0]) * Power(|s| - 1) + Value(s[1..])
    ensures 0 <= Value(s) < Power(|s|)
  {
    var n := |s| - 1;
    if n == 0 {
      assert s[..0] == "" && s[1..] == "";
      assert Value(s[..0]) == 0;
      assert Power(1) == 10 * Power(0);
    } else {
      ValueOfTail(s[..n]);
      assert s[..n][1..] == s[1..][..n - 1] && s[1..][n - 1] == s[n] && s[..n][0] == s[0];
      assert IsDigit(s[n]);
      calc {
        Value(s);
        10 * (Digit(s[0]) * Power(n - 1) + Value(s[..n][1..])) + Digit(s[n]);
        { Regroup(Digit(s[0]), Power(n - 1), Value(s[..n][1..]), Digit(s[n])); }
        Digit(s[0]) * (10 * Power(n - 1)) + (10 * Value(s[1..][..n - 1]) + Digit(s[n]));
        Digit(s[0]) * Power(n) + Value(s[1..]);
      }
    }
  }

  function Power(n: nat): (p: nat)
    ensures p > 0
  {
    if n == 0 then 1 else 10 * Power(n - 1)
  }

  lemma {:induction false} SameLengthByCharacter(a: string, b: string)
    requires IsNumeric(a) && IsNumeric(b) && |a| == |b|
    ensures Value(a) < Value(b) <==> LexLess(a, b)
  {
    hide Value, Power;
    ValueOfTail(a);
    ValueOfTail(b);
    if |a| > 1 {
      ValueOfTail(a[1..]);
      ValueOfTail(b[1..]);
      SameLengthByCharacter(a[1..], b[1..]);
    } else {
      assert a[1..] == "" && b[1..] == "";
      EmptyIsZero();
    }
    Leading(Digit(a[0]), Digit(b[0]), Power(|a| - 1), Value(a[1..]), Value(b[1..]));
  }

  lemma Leading(x: int, y: int, p: nat, r: int, s: int)
    requires 0 <= r < p && 0 <= s < p
    ensures x < y ==> x * p + r < y * p + s
    ensures y < x ==> y * p + s < x * p + r
  {
    if x < y {
      assert (x + 1) * p <= y * p;
    } else if y < x {
      assert (y + 1) * p <= x * p;
    }
  }

  /** Numerals without leading zeros: the shorter is the lower, and equally long ones go by character code. */
  lemma ValueIsShortlex(a: string, b: string)
    requires IsNumeric(a) && IsNumeric(b) && !LeadingZero(a) && !LeadingZero(b)
    ensures Value(a) < Value(b) <==> |a| < |b| || (|a| == |b| && LexLess(a, b))
  {
    if |a| == |b| {
      SameLengthByCharacter(a, b);
    } else if |a| < |b| {
      LongerIsHigher(a, b);
    } else {
      LongerIsHigher(b, a);
    }
  }

  lemma LongerIsHigher(a: string, b: string)
    requires IsNumeric(a) && IsNumeric(b) && !LeadingZero(b) && |a| < |b|
    ensures Value(a) < Value(b)
  {
    hide Value, Power;
    ValueOfTail(a);
    ValueOfTail(b);
    PowerGrows(|a|, |b| - 1);
    assert IsDigit(b[0]) && b[0] != '0';
    if b[1..] == "" {
      EmptyIsZero();
    } else {
      ValueOfTail(b[1..]);
    }
    AtLeastOnce(Digit(b[0]), Power(|b| - 1));
  }

  lemma AtLeastOnce(x: int, p: nat)
    requires x >= 1
    ensures x * p >= p
  {
  }

  lemma {:induction false} PowerGrows(m: nat, n: nat)
    requires m <= n
    ensures Power(m) <= Power(n)
  {
    if m < n {
      PowerGrows(m, n - 1);
    }
  }

  /** Cores are ordered like numbers whose digits are major, minor and patch. */
  lemma CoreLessIsNumeric(a: Core, b: Core, base: nat)
    requires 0 <= a.minor < base && 0 <= a.patch < base && 0 <= b.minor < base && 0 <= b.patch < base
    ensures CoreLess(a, b) <==>
              (a.major * base + a.minor) * base + a.patch < (b.major * base + b.minor) * base + b.patch
  {
    Leading(a.major, b.major, base, a.minor, b.minor);
    Leading(a.major * base + a.minor, b.major * base + b.minor, base, a.patch, b.patch);
  }

  function Release(major: int, minor: int, patch: int): Version {
    Version(Core(major, minor, patch), None)
  }

  function Prerelease(ids: seq<string>): Version {
    Version(Core(1, 0, 0), Some(ids))
  }

  lemma LowerFrom(l: seq<string>, r: seq<string>, k: nat)
    requires k < |r| && LowerAt(l, r, k)
    ensures Lower(Prerelease(l), Prerelease(r))
  {
  }

  /** The two chains of section 11. */
  lemma SectionElevenExamples()
    ensures Lower(Release(1, 0, 0), Release(2, 0, 0)) && Lower(Release(2, 0, 0), Release(2, 1, 0))
            && Lower(Release(2, 1, 0), Release(2, 1, 1))
    ensures Lower(Prerelease(["alpha"]), Prerelease(["alpha", "1"]))
            && Lower(Prerelease(["alpha", "1"]), Prerelease(["alpha", "beta"]))
            && Lower(Prerelease(["alpha", "beta"]), Prerelease(["beta"]))
            && Lower(Prerelease(["beta"]), Prerelease(["beta", "2"]))
            && Lower(Prerelease(["beta", "2"]), Prerelease(["beta", "11"]))
            && Lower(Prerelease(["beta", "11"]), Prerelease(["rc", "1"]))
            && Lower(Prerelease(["rc", "1"]), Release(1, 0, 0))
  {
    hide PreLower, Value;
    assert Value("2") < Value("11") && IsNumeric("2") && IsNumeric("11") && !LeadingZero("2") by {
      ValueIsShortlex("2", "11");
    }
    assert !IsDigit("alpha"[0]) && !IsDigit("beta"[0]) && !IsDigit("rc"[0]);
    LowerFrom(["alpha"], ["alpha", "1"], 1);
    LowerFrom(["alpha", "1"], ["alpha", "beta"], 1);
    LowerFrom(["alpha", "beta"], ["beta"], 0);
    LowerFrom(["beta"], ["beta", "2"], 1);
    LowerFrom(["beta", "2"], ["beta", "11"], 1);
    LowerFrom(["beta", "11"], ["rc", "1"], 0);
  }
}
