/**
 Version precedence, section 11 of Semantic Versioning 2.0.0. The sources only ever ask two
 questions of a pair of versions, Equal and GreaterThan; both are read off Compare. Parsing of
 version strings and of constraints stays abstract, see Libraries.
 */
module Semver {

  /** A dot-separated pre-release identifier: digits only, or alphanumeric. */
  datatype Identifier = Numeric(value: nat) | Alphanumeric(text: string)

  datatype Version = Version(
    major: nat, minor: nat, patch: nat,
    prerelease: seq<Identifier>,
    build: string)

  function CompareInt(a: int, b: int): int {
    if a < b then -1 else if a == b then 0 else 1
  }

  function CompareChar(a: char, b: char): int {
    CompareInt(a as int, b as int)
  }

  /** Field-by-field comparison of two lists; a proper prefix comes first. */
  function CompareLists<T>(cmp: (T, T) -> int, a: seq<T>, b: seq<T>): int {
    if a == [] || b == [] then CompareInt(|a|, |b|)
    else if cmp(a[0], b[0]) != 0 then cmp(a[0], b[0])
    else CompareLists(cmp, a[1..], b[1..])
  }

  function CompareText(a: string, b: string): int {
    CompareLists(CompareChar, a, b)
  }

  /** Numeric identifiers compare as numbers and stay below alphanumeric ones. */
  function CompareIdentifier(a: Identifier, b: Identifier): int {
    match (a, b)
    case (Numeric(m), Numeric(n)) => CompareInt(m, n)
    case (Numeric(_), Alphanumeric(_)) => -1
    case (Alphanumeric(_), Numeric(_)) => 1
    case (Alphanumeric(s), Alphanumeric(t)) => CompareText(s, t)
  }

  /** A version without pre-release identifiers is above the same version with some. */
  function ComparePrerelease(a: seq<Identifier>, b: seq<Identifier>): int {
    if a == [] || b == [] then CompareInt(|b|, |a|)
    else CompareLists(CompareIdentifier, a, b)
  }

  /** Negative, zero or positive as a is below, level with or above b. */
  function Compare(a: Version, b: Version): int {
    if a.major != b.major then CompareInt(a.major, b.major)
    else if a.minor != b.minor then CompareInt(a.minor, b.minor)
    else if a.patch != b.patch then CompareInt(a.patch, b.patch)
    else ComparePrerelease(a.prerelease, b.prerelease)
  }

  predicate Equal(a: Version, b: Version) { Compare(a, b) == 0 }

  predicate GreaterThan(a: Version, b: Version) { Compare(a, b) > 0 }

  // ---------------------------------------------------------------- orders

  /** cmp is the sign of a total order on T. */
  ghost predicate IsTotalOrder<T(!new)>(cmp: (T, T) -> int) {
    && (forall x, y :: cmp(x, y) == 0 <==> x == y)
    && (forall x, y :: cmp(x, y) < 0 <==> cmp(y, x) > 0)
    && (forall x, y, z :: cmp(x, y) < 0 && cmp(y, z) < 0 ==> cmp(x, z) < 0)
  }

  lemma {:induction false} ListsZero<T(!new)>(cmp: (T, T) -> int, a: seq<T>, b: seq<T>)
    requires IsTotalOrder(cmp)
    ensures CompareLists(cmp, a, b) == 0 <==> a == b
  {
    if a != [] && b != [] {
      ListsZero(cmp, a[1..], b[1..]);
      assert a == [a[0]] + a[1..] && b == [b[0]] + b[1..];
    }
  }

  lemma {:induction false} ListsFlip<T(!new)>(cmp: (T, T) -> int, a: seq<T>, b: seq<T>)
    requires IsTotalOrder(cmp)
    ensures CompareLists(cmp, a, b) < 0 <==> CompareLists(cmp, b, a) > 0
  {
    if a != [] && b != [] {
      assert cmp(a[0], b[0]) == 0 <==> cmp(b[0], a[0]) == 0;
      ListsFlip(cmp, a[1..], b[1..]);
    }
  }

  lemma {:induction false} ListsTransitive<T(!new)>(cmp: (T, T) -> int, a: seq<T>, b: seq<T>, c: seq<T>)
    requires IsTotalOrder(cmp)
    requires CompareLists(cmp, a, b) < 0 && CompareLists(cmp, b, c) < 0
    ensures CompareLists(cmp, a, c) < 0
  {
    if a != [] && b != [] && c != [] {
      if cmp(a[0], b[0]) == 0 && cmp(b[0], c[0]) == 0 {
        assert a[0] == b[0] == c[0];
        ListsTransitive(cmp, a[1..], b[1..], c[1..]);
      }
    }
  }

  lemma TextIsOrdered()
    ensures IsTotalOrder(CompareText)
  {
    assert IsTotalOrder(CompareChar);
    forall a, b ensures CompareText(a, b) == 0 <==> a == b { ListsZero(CompareChar, a, b); }
    forall a, b ensures CompareText(a, b) < 0 <==> CompareText(b, a) > 0 { ListsFlip(CompareChar, a, b); }
    forall a, b, c | CompareText(a, b) < 0 && CompareText(b, c) < 0 ensures CompareText(a, c) < 0 {
      ListsTransitive(CompareChar, a, b, c);
    }
  }

  lemma IdentifiersAreOrdered()
    ensures IsTotalOrder(CompareIdentifier)
  {
    TextIsOrdered();
  }

  /** Pre-release lists of any length are totally ordered, the empty list on top. */
  lemma PrereleaseIsOrdered()
    ensures IsTotalOrder(ComparePrerelease)
  {
    IdentifiersAreOrdered();
    forall a, b ensures ComparePrerelease(a, b) == 0 <==> a == b { ListsZero(CompareIdentifier, a, b); }
    forall a, b ensures ComparePrerelease(a, b) < 0 <==> ComparePrerelease(b, a) > 0 {
      ListsFlip(CompareIdentifier, a, b);
    }
    forall a, b, c | ComparePrerelease(a, b) < 0 && ComparePrerelease(b, c) < 0
      ensures ComparePrerelease(a, c) < 0
    {
      if a != [] && b != [] && c != [] {
        ListsTransitive(CompareIdentifier, a, b, c);
      }
    }
  }

  /** A version with its build metadata dropped (section 10: build metadata has no precedence). */
  function WithoutBuild(v: Version): Version { v.(build := "") }

  /** Precedence is a total preorder whose ties are exactly the pairs that differ in build metadata only. */
  lemma PrecedenceIsTotalPreorder(a: Version, b: Version, c: Version)
    ensures Equal(a, b) <==> WithoutBuild(a) == WithoutBuild(b)
    ensures Compare(a, b) < 0 <==> Compare(b, a) > 0
    ensures Compare(a, b) <= 0 && Compare(b, c) <= 0 ==> Compare(a, c) <= 0
    ensures Compare(a, b) < 0 && Compare(b, c) <= 0 ==> Compare(a, c) < 0
    ensures Compare(a, b) <= 0 && Compare(b, c) < 0 ==> Compare(a, c) < 0
  {
    PrereleaseIsOrdered();
    var p, q, r := a.prerelease, b.prerelease, c.prerelease;
    assert ComparePrerelease(p, q) == 0 <==> p == q;
    assert ComparePrerelease(q, r) == 0 <==> q == r;
    assert ComparePrerelease(p, q) < 0 <==> ComparePrerelease(q, p) > 0;
    assert ComparePrerelease(p, q) < 0 && ComparePrerelease(q, r) < 0 ==> ComparePrerelease(p, r) < 0;
  }

  // ------------------------------------------- section 11, stated declaratively

  /** Section 11.4: the first identifier that differs decides; failing that, fewer identifiers is lower. */
  ghost predicate ListBelow<T>(below: (T, T) -> bool, a: seq<T>, b: seq<T>) {
    exists i :: 0 <= i <= |a| && i <= |b| && a[..i] == b[..i] && DecidedAt(below, a, b, i)
  }

  predicate DecidedAt<T>(below: (T, T) -> bool, a: seq<T>, b: seq<T>, i: nat)
    requires i <= |a| && i <= |b|
  {
    if i == |a| then i < |b| else i < |b| && below(a[i], b[i])
  }

  lemma PrefixHeads<T>(a: seq<T>, b: seq<T>, i: nat)
    requires i <= |a| && i <= |b| && a[..i] == b[..i]
    ensures i > 0 ==> a[0] == b[0]
  {
    if i > 0 {
      assert a[0] == a[..i][0] && b[0] == b[..i][0];
    }
  }

  lemma {:induction false} ListsMeetSpec<T(!new)>(cmp: (T, T) -> int, below: (T, T) -> bool, a: seq<T>, b: seq<T>)
    requires IsTotalOrder(cmp)
    requires forall x, y :: below(x, y) <==> cmp(x, y) < 0
    ensures CompareLists(cmp, a, b) < 0 <==> ListBelow(below, a, b)
  {
    if a == [] || b == [] {
      if |a| < |b| {
        assert a[..0] == b[..0] && DecidedAt(below, a, b, 0);
      }
    } else if cmp(a[0], b[0]) != 0 {
      if cmp(a[0], b[0]) < 0 {
        assert a[..0] == b[..0] && DecidedAt(below, a, b, 0);
      }
      if i :| 0 <= i <= |a| && i <= |b| && a[..i] == b[..i] && DecidedAt(below, a, b, i) {
        PrefixHeads(a, b, i);
      }
    } else {
      var s, t := a[1..], b[1..];
      ListsMeetSpec(cmp, below, s, t);
      assert a[0] == b[0];
      if ListBelow(below, s, t) {
        var i :| 0 <= i <= |s| && i <= |t| && s[..i] == t[..i] && DecidedAt(below, s, t, i);
        assert a[..i + 1] == [a[0]] + s[..i] && b[..i + 1] == [b[0]] + t[..i];
        assert DecidedAt(below, a, b, i + 1);
      }
      if i :| 0 <= i <= |a| && i <= |b| && a[..i] == b[..i] && DecidedAt(below, a, b, i) {
        assert i > 0 by { assert !below(a[0], b[0]); }
        assert s[..i - 1] == a[..i][1..] && t[..i - 1] == b[..i][1..];
        assert DecidedAt(below, s, t, i - 1);
      }
    }
  }

  predicate CharBelow(a: char, b: char) { a as int < b as int }

  /** Section 11.4.1 to 11.4.3: numbers by value, text in ASCII order, numbers below text. */
  ghost predicate IdentifierBelow(a: Identifier, b: Identifier) {
    match (a, b)
    case (Numeric(m), Numeric(n)) => m < n
    case (Numeric(_), Alphanumeric(_)) => true
    case (Alphanumeric(_), Numeric(_)) => false
    case (Alphanumeric(s), Alphanumeric(t)) => ListBelow(CharBelow, s, t)
  }

  lemma IdentifiersMeetSpec(a: Identifier, b: Identifier)
    ensures CompareIdentifier(a, b) < 0 <==> IdentifierBelow(a, b)
  {
    if a.Alphanumeric? && b.Alphanumeric? {
      assert IsTotalOrder(CompareChar);
      ListsMeetSpec(CompareChar, CharBelow, a.text, b.text);
    }
  }

  /** Section 11.2 to 11.4 in one sentence each, without reference to Compare. */
  ghost predicate Below(a: Version, b: Version) {
    || a.major < b.major
    || (a.major == b.major && a.minor < b.minor)
    || (a.major == b.major && a.minor == b.minor && a.patch < b.patch)
    || (&& a.major == b.major && a.minor == b.minor && a.patch == b.patch
        && a.prerelease != []
        && (b.prerelease == [] || ListBelow(IdentifierBelow, a.prerelease, b.prerelease)))
  }

  lemma GreaterThanMeetsSection11(a: Version, b: Version)
    ensures GreaterThan(a, b) <==> Below(b, a)
  {
    PrecedenceIsTotalPreorder(a, b, a);
    IdentifiersAreOrdered();
    forall x, y ensures IdentifierBelow(x, y) <==> CompareIdentifier(x, y) < 0 {
      IdentifiersMeetSpec(x, y);
    }
    ListsMeetSpec(CompareIdentifier, IdentifierBelow, b.prerelease, a.prerelease);
    PrereleaseIsOrdered();
  }
}
