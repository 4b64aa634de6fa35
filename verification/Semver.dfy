// Versions and their two orders: precedence as section 11 of Semantic Versioning 2.0.0 defines it,
// and the build-id order of pkg/lib/semver/semver.go that breaks its ties.
module Semver {
  import opened Common

  /** One dot-separated prerelease identifier. */
  datatype Identifier = Numeric(n: nat) | Alphanumeric(text: string)

  datatype Version = Version(major: nat, minor: nat, patch: nat, pre: seq<Identifier>, build: seq<string>)

  /** A version column or field, represented by what parsing it gives; parsing and printing are inverse. */
  datatype VersionText = NoVersion | Text(version: Version) | Malformed(raw: string)

  const UINT64_LIMIT: nat := 0x1_0000_0000_0000_0000

  // ---- Precedence (section 11) -----------------------------------------------------------------

  function CompareNat(a: nat, b: nat): int {
    if a < b then -1 else if a > b then 1 else 0
  }

  /** Numeric identifiers sort below alphanumeric ones. */
  function CompareIdentifiers(a: Identifier, b: Identifier): (c: int)
    ensures -1 <= c <= 1
    ensures c == 0 <==> a == b
  {
    match (a, b)
    case (Numeric(m), Numeric(n)) => CompareNat(m, n)
    case (Numeric(_), Alphanumeric(_)) => -1
    case (Alphanumeric(_), Numeric(_)) => 1
    case (Alphanumeric(s), Alphanumeric(t)) => CompareStrings(s, t)
  }

  /** Field by field; when one list is a proper prefix of the other, the longer one is greater. */
  function CompareLists(a: seq<Identifier>, b: seq<Identifier>): (c: int)
    ensures -1 <= c <= 1
    ensures c == 0 <==> a == b
  {
    if a == [] then (if b == [] then 0 else -1)
    else if b == [] then 1
    else
      var c := CompareIdentifiers(a[0], b[0]);
      if c != 0 then c
      else
        assert a[1..] == b[1..] ==> a == [a[0]] + a[1..] == [b[0]] + b[1..] == b;
        CompareLists(a[1..], b[1..])
  }

  /** A version without prerelease identifiers is greater than the same version with some. */
  function ComparePre(a: seq<Identifier>, b: seq<Identifier>): int {
    if a == [] && b == [] then 0
    else if a == [] then 1
    else if b == [] then -1
    else CompareLists(a, b)
  }

  function Compare(a: Version, b: Version): int {
    if a.major != b.major then CompareNat(a.major, b.major)
    else if a.minor != b.minor then CompareNat(a.minor, b.minor)
    else if a.patch != b.patch then CompareNat(a.patch, b.patch)
    else ComparePre(a.pre, b.pre)
  }

  predicate Below(a: Version, b: Version) {
    Compare(a, b) < 0
  }

  // ---- Build identifiers as prerelease identifiers ---------------------------------------------

  predicate IsDigit(c: char) {
    '0' <= c <= '9'
  }

  predicate IsAlphanumeric(c: char) {
    IsDigit(c) || 'a' <= c <= 'z' || 'A' <= c <= 'Z' || c == '-'
  }

  function Decimal(digits: string): nat
    requires forall c | c in digits :: IsDigit(c)
  {
    if digits == [] then 0
    else
      var last := digits[|digits| - 1];
      assert IsDigit(last);
      10 * Decimal(digits[..|digits| - 1]) + (last as int - '0' as int)
  }

  /** NewPRVersion: refuses the empty text, leading zeroes, values over 64 bits and foreign characters. */
  function ParseIdentifier(s: string): Option<Identifier> {
    if s == [] then None
    else if forall c | c in s :: IsDigit(c) then
      if |s| > 1 && s[0] == '0' then None
      else if Decimal(s) < UINT64_LIMIT then Some(Numeric(Decimal(s)))
      else None
    else if forall c | c in s :: IsAlphanumeric(c) then Some(Alphanumeric(s))
    else None
  }

  predicate Convertible(build: seq<string>) {
    forall i | 0 <= i < |build| :: ParseIdentifier(build[i]).Some?
  }

  function Identifiers(build: seq<string>): (ids: seq<Identifier>)
    requires Convertible(build)
    ensures |ids| == |build|
    ensures forall i | 0 <= i < |build| :: ids[i] == ParseIdentifier(build[i]).value
  {
    seq(|build|, i requires 0 <= i < |build| => ParseIdentifier(build[i]).value)
  }

  /** The version whose precedence stands for the build id: major is 1 as soon as there is one. */
  function BuildVersion(build: seq<string>): Version
    requires Convertible(build)
  {
    Version(if build == [] then 0 else 1, 0, 0, Identifiers(build), [])
  }

  method BuildAsPrerelease(v: Version) returns (r: Option<Version>)
    ensures r.Some? <==> Convertible(v.build)
    ensures r.Some? ==> r.value == BuildVersion(v.build)
  {
    var pre: seq<Identifier> := [];
    for i := 0 to |v.build|
      invariant Convertible(v.build[..i])
      invariant pre == Identifiers(v.build[..i])
    {
      var p := ParseIdentifier(v.build[i]);
      if p.None? {
        return None;
      }
      pre := pre + [p.value];
    }
    assert v.build[..|v.build|] == v.build;
    r := Some(Version(if |pre| > 0 then 1 else 0, 0, 0, pre, []));
  }

  /** None stands for the conversion error. */
  function BuildIdCompare(a: Version, b: Version): Option<int> {
    if Compare(a, b) != 0 then Some(Compare(a, b))
    else if !Convertible(a.build) || !Convertible(b.build) then None
    else Some(Compare(BuildVersion(a.build), BuildVersion(b.build)))
  }

  method CompareBuildIds(a: Version, b: Version) returns (r: Option<int>)
    ensures r == BuildIdCompare(a, b)
  {
    if Compare(a, b) != 0 {
      return Some(Compare(a, b));
    }
    var aPre := BuildAsPrerelease(a);
    if aPre.None? {
      return None;
    }
    var bPre := BuildAsPrerelease(b);
    if bPre.None? {
      return None;
    }
    r := Some(Compare(aPre.value, bPre.value));
  }

  predicate Newer(a: Version, b: Version) {
    BuildIdCompare(a, b) == Some(1)
  }

  // ---- Precedence is a total preorder ----------------------------------------------------------

  lemma CompareIdentifiersFlip(a: Identifier, b: Identifier)
    ensures CompareIdentifiers(b, a) == -CompareIdentifiers(a, b)
  {
    if a.Alphanumeric? && b.Alphanumeric? {
      CompareStringsFlip(a.text, b.text);
    }
  }

  lemma CompareIdentifiersTransitive(a: Identifier, b: Identifier, c: Identifier)
    requires CompareIdentifiers(a, b) <= 0 && CompareIdentifiers(b, c) <= 0
    ensures CompareIdentifiers(a, c) <= 0
    ensures CompareIdentifiers(a, b) < 0 || CompareIdentifiers(b, c) < 0 ==> CompareIdentifiers(a, c) < 0
  {
    if a.Alphanumeric? && b.Alphanumeric? && c.Alphanumeric? {
      CompareStringsTransitive(a.text, b.text, c.text);
    }
  }

  lemma {:induction false} CompareListsFlip(a: seq<Identifier>, b: seq<Identifier>)
    ensures CompareLists(b, a) == -CompareLists(a, b)
  {
    if a != [] && b != [] {
      CompareIdentifiersFlip(a[0], b[0]);
      CompareListsFlip(a[1..], b[1..]);
    }
  }

  lemma {:induction false} CompareListsTransitive(a: seq<Identifier>, b: seq<Identifier>, c: seq<Identifier>)
    requires CompareLists(a, b) <= 0 && CompareLists(b, c) <= 0
    ensures CompareLists(a, c) <= 0
    ensures CompareLists(a, b) < 0 || CompareLists(b, c) < 0 ==> CompareLists(a, c) < 0
  {
    if a != [] && b != [] && c != [] {
      CompareIdentifiersTransitive(a[0], b[0], c[0]);
      if a[0] == b[0] == c[0] {
        CompareListsTransitive(a[1..], b[1..], c[1..]);
      }
    }
  }

  /** Swapping the versions negates the answer, and the answer is zero exactly on equal precedence. */
  lemma CompareFlip(a: Version, b: Version)
    ensures Compare(b, a) == -Compare(a, b)
    ensures -1 <= Compare(a, b) <= 1
    ensures Compare(a, b) == 0 <==>
            a.major == b.major && a.minor == b.minor && a.patch == b.patch && a.pre == b.pre
  {
    CompareListsFlip(a.pre, b.pre);
  }

  lemma CompareTransitive(a: Version, b: Version, c: Version)
    requires Compare(a, b) <= 0 && Compare(b, c) <= 0
    ensures Compare(a, c) <= 0
    ensures Compare(a, b) < 0 || Compare(b, c) < 0 ==> Compare(a, c) < 0
  {
    CompareFlip(a, b);
    CompareFlip(b, c);
    if a.pre != [] && b.pre != [] && c.pre != [] && CompareLists(a.pre, b.pre) <= 0 && CompareLists(b.pre, c.pre) <= 0 {
      CompareListsTransitive(a.pre, b.pre, c.pre);
    }
  }

  // ---- Precedence by the first difference ------------------------------------------------------

  /** Numerically, numeric before alphanumeric, or in character order. */
  ghost predicate IdentifierBefore(a: Identifier, b: Identifier) {
    match (a, b)
    case (Numeric(m), Numeric(n)) => m < n
    case (Numeric(_), Alphanumeric(_)) => true
    case (Alphanumeric(_), Numeric(_)) => false
    case (Alphanumeric(s), Alphanumeric(t)) => ComesBefore(s, t)
  }

  /** A proper prefix, or the smaller identifier at the first place where the lists differ. */
  ghost predicate ListBefore(a: seq<Identifier>, b: seq<Identifier>) {
    a < b || exists k: nat :: DiffersAt(a, b, k) && IdentifierBefore(a[k], b[k])
  }

  /** Section 11: major, minor and patch numerically, then a prerelease before none, then the identifiers. */
  ghost predicate Precedes(a: Version, b: Version) {
    || a.major < b.major
    || (a.major == b.major && a.minor < b.minor)
    || (a.major == b.major && a.minor == b.minor && a.patch < b.patch)
    || (a.major == b.major && a.minor == b.minor && a.patch == b.patch &&
        a.pre != [] && (b.pre == [] || ListBefore(a.pre, b.pre)))
  }

  lemma IdentifierIff(a: Identifier, b: Identifier)
    ensures CompareIdentifiers(a, b) < 0 <==> IdentifierBefore(a, b)
  {
    if a.Alphanumeric? && b.Alphanumeric? {
      CompareStringsIff(a.text, b.text);
    }
  }

  lemma {:induction false} CompareListsAt(a: seq<Identifier>, b: seq<Identifier>, k: nat)
    requires DiffersAt(a, b, k)
    ensures CompareLists(a, b) == CompareIdentifiers(a[k], b[k])
  {
    if k > 0 {
      assert a[0] == a[..k][0] == b[..k][0] == b[0];
      assert a[1..][..k - 1] == a[..k][1..] == b[..k][1..] == b[1..][..k - 1];
      CompareListsAt(a[1..], b[1..], k - 1);
    }
  }

  lemma {:induction false} CompareListsPrefix(a: seq<Identifier>, b: seq<Identifier>)
    requires a < b
    ensures CompareLists(a, b) == -1
  {
    if a != [] {
      CompareListsPrefix(a[1..], b[1..]);
    }
  }

  lemma ListIff(a: seq<Identifier>, b: seq<Identifier>)
    ensures CompareLists(a, b) < 0 <==> ListBefore(a, b)
  {
    CompareListsFlip(a, b);
    var k := PrefixOrDiffer(a, b);
    if DiffersAt(a, b, k) {
      CompareListsAt(a, b, k);
      IdentifierIff(a[k], b[k]);
      forall j: nat | DiffersAt(a, b, j)
        ensures j == k
      {
        OneDifference(a, b, j, k);
      }
      OneDifference(a, b, k, k);
    } else if a < b {
      CompareListsPrefix(a, b);
    } else {
      if b < a {
        CompareListsPrefix(b, a);
      }
      forall j: nat | DiffersAt(a, b, j)
        ensures false
      {
        OneDifference(a, b, j, j);
      }
    }
  }

  /** The comparison is negative exactly if the first version precedes the second one. */
  lemma PrecedenceIff(a: Version, b: Version)
    ensures Compare(a, b) < 0 <==> Precedes(a, b)
    ensures Compare(a, b) > 0 <==> Precedes(b, a)
  {
    CompareFlip(a, b);
    ListIff(a.pre, b.pre);
    ListIff(b.pre, a.pre);
  }

  // ---- The build-id order ----------------------------------------------------------------------

  lemma {:induction false} DecimalBounds(s: string)
    requires s != [] && forall c | c in s :: IsDigit(c)
    requires s[0] != '0'
    ensures Pow10(|s| - 1) <= Decimal(s) < Pow10(|s|)
  {
    var front := s[..|s| - 1];
    assert s[|s| - 1] in s && s[0] in s;
    if front != [] {
      assert front[0] == s[0];
      DecimalBounds(front);
    }
  }

  function Pow10(n: nat): nat {
    if n == 0 then 1 else 10 * Pow10(n - 1)
  }

  lemma {:induction false} Pow10Increases(m: nat, n: nat)
    requires m <= n
    ensures 1 <= Pow10(m) <= Pow10(n)
    decreases n
  {
    if m < n {
      Pow10Increases(m, n - 1);
    } else if m > 0 {
      Pow10Increases(m - 1, n - 1);
    }
  }

  lemma {:induction false} DecimalInjective(s: string, t: string)
    requires |s| == |t| && (forall c | c in s :: IsDigit(c)) && (forall c | c in t :: IsDigit(c))
    requires Decimal(s) == Decimal(t)
    ensures s == t
  {
    if s != [] {
      var k := |s| - 1;
      assert s[k] in s && t[k] in t;
      DecimalInjective(s[..k], t[..k]);
      assert s == s[..k] + [s[k]] && t == t[..k] + [t[k]];
    }
  }

  /** A valid identifier: letters, digits and hyphens; a number without leading zeros that fits 64 bits. */
  lemma ParseIdentifierIff(s: string)
    ensures ParseIdentifier(s).Some? <==>
              && s != [] && (forall c | c in s :: '0' <= c <= '9' || 'a' <= c <= 'z' || 'A' <= c <= 'Z' || c == '-')
              && ((forall c | c in s :: '0' <= c <= '9') ==>
                    (|s| == 1 || s[0] != '0') && ValueBelow(s, 18446744073709551616))
    ensures ParseIdentifier(s).Some? ==>
              (ParseIdentifier(s).value.Numeric? <==> forall c | c in s :: '0' <= c <= '9')
  {
  }

  ghost predicate ValueBelow(digits: string, limit: nat) {
    (forall c | c in digits :: IsDigit(c)) && Decimal(digits) < limit
  }

  /** The first digit of a number counts its value times a power of ten. */
  lemma {:induction false} DecimalFromFront(digits: string)
    requires digits != [] && forall c | c in digits :: IsDigit(c)
    ensures Decimal(digits) == Digit(digits[0]) * Pow10(|digits| - 1) + Decimal(digits[1..])
  {
    assert digits[0] in digits;
    var n := |digits| - 1;
    if n == 0 {
      assert Decimal(digits[..0]) == 0;
    } else {
      var front, rest := digits[..n], digits[1..];
      DecimalFromFront(front);
      assert rest[..n - 1] == front[1..] && rest[n - 1] == digits[n] && front[0] == digits[0];
      TenTimes(Digit(digits[0]), n);
    }
  }

  lemma TenTimes(d: nat, n: nat)
    requires n > 0
    ensures 10 * (d * Pow10(n - 1)) == d * Pow10(n)
  {
  }

  ghost function Digit(c: char): nat {
    if '0' <= c <= '9' then c as int - '0' as int else 0
  }

  /** Two texts that convert to the same identifier are the same text. */
  lemma ParseIdentifierInjective(s: string, t: string)
    requires ParseIdentifier(s).Some? && ParseIdentifier(s) == ParseIdentifier(t)
    ensures s == t
  {
    if ParseIdentifier(s).value.Numeric? {
      if s[0] != '0' {
        DecimalBounds(s);
      } else {
        assert |s| == 1 && s[..0] == [] && Decimal(s) == 0;
      }
      if t[0] != '0' {
        DecimalBounds(t);
      } else {
        assert |t| == 1 && t[..0] == [] && Decimal(t) == 0;
      }
      Pow10Increases(0, |s| - 1);
      Pow10Increases(0, |t| - 1);
      if |s| < |t| {
        Pow10Increases(|s|, |t| - 1);
      } else if |t| < |s| {
        Pow10Increases(|t|, |s| - 1);
      } else {
        DecimalInjective(s, t);
      }
    }
  }

  lemma BuildVersionInjective(a: seq<string>, b: seq<string>)
    requires Convertible(a) && Convertible(b)
    requires Identifiers(a) == Identifiers(b)
    ensures a == b
  {
    assert |a| == |Identifiers(a)| == |Identifiers(b)| == |b|;
    forall i | 0 <= i < |a|
      ensures a[i] == b[i]
    {
      assert Identifiers(a)[i] == Identifiers(b)[i];
      ParseIdentifierInjective(a[i], b[i]);
    }
  }

  /**
    The comparison fails exactly when precedence cannot tell the versions apart and a build id does
    not convert; otherwise it is antisymmetric, refines precedence and is zero on equal versions only.
  */
  lemma BuildIdOrder(a: Version, b: Version)
    ensures BuildIdCompare(a, b).None? <==>
            Compare(a, b) == 0 && !(Convertible(a.build) && Convertible(b.build))
    ensures BuildIdCompare(a, b).None? <==> BuildIdCompare(b, a).None?
    ensures BuildIdCompare(a, b).Some? ==>
              && -1 <= BuildIdCompare(a, b).value <= 1
              && BuildIdCompare(b, a).value == -BuildIdCompare(a, b).value
              && (BuildIdCompare(a, b).value == 0 <==> a == b)
    ensures Compare(a, b) != 0 ==> BuildIdCompare(a, b) == Some(Compare(a, b))
    ensures Compare(a, b) == 0 && a.build == [] && b.build != [] && Convertible(b.build) ==> Newer(b, a)
  {
    CompareFlip(a, b);
    if Compare(a, b) == 0 && Convertible(a.build) && Convertible(b.build) {
      CompareFlip(BuildVersion(a.build), BuildVersion(b.build));
      if Identifiers(a.build) == Identifiers(b.build) {
        BuildVersionInjective(a.build, b.build);
      }
    }
  }

  /** No build id before any, else by the first differing identifier. */
  ghost predicate BuildBefore(a: seq<string>, b: seq<string>)
    requires Convertible(a) && Convertible(b)
  {
    b != [] && (a == [] || ListBefore(Identifiers(a), Identifiers(b)))
  }

  /** Newer means a later precedence, or the same one and a later build id. */
  lemma NewerIff(a: Version, b: Version)
    ensures Newer(a, b) <==>
              || Precedes(b, a)
              || (!Precedes(a, b) && Convertible(a.build) && Convertible(b.build) && BuildBefore(b.build, a.build))
  {
    PrecedenceIff(a, b);
    CompareFlip(a, b);
    BuildIdOrder(a, b);
    if Convertible(a.build) && Convertible(b.build) {
      PrecedenceIff(BuildVersion(a.build), BuildVersion(b.build));
      CompareFlip(BuildVersion(a.build), BuildVersion(b.build));
    }
  }

  /** Being newer is transitive, also between versions whose own build ids do not convert. */
  lemma NewerTransitive(a: Version, b: Version, c: Version)
    requires Newer(a, b) && Newer(b, c)
    ensures Newer(a, c)
  {
    BuildIdOrder(a, b);
    BuildIdOrder(b, c);
    CompareFlip(a, b);
    CompareFlip(b, c);
    CompareFlip(a, c);
    CompareTransitive(c, b, a);
    if Compare(a, b) == 0 && Compare(b, c) == 0 {
      var x, y, z := BuildVersion(a.build), BuildVersion(b.build), BuildVersion(c.build);
      CompareFlip(x, y);
      CompareFlip(y, z);
      CompareFlip(x, z);
      CompareTransitive(z, y, x);
    }
  }

  /** On versions whose build ids convert the order is total. */
  lemma BuildIdTotal(a: Version, b: Version)
    requires Convertible(a.build) && Convertible(b.build)
    ensures Newer(a, b) || Newer(b, a) || a == b
    ensures !(Newer(a, b) && Newer(b, a))
  {
    BuildIdOrder(a, b);
  }
}
