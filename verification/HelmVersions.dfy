/** Choosing the latest chart version that satisfies a constraint. */
module HelmVersions {
  import opened Basics
  import opened Libraries
  import opened Semver

  type Constraint = Version -> bool

  /** s parses and satisfies the constraint. */
  predicate Candidate(lib: Lib, constraint: Constraint, s: string) {
    Parse(lib, s).Some? && constraint(Parse(lib, s).value)
  }

  /** Some listed version is a candidate. */
  predicate HasCandidate(lib: Lib, versions: seq<string>, constraint: Constraint) {
    exists i :: 0 <= i < |versions| && Candidate(lib, constraint, versions[i])
  }

  /** A listed candidate that no listed candidate exceeds. */
  predicate IsLatest(lib: Lib, versions: seq<string>, constraint: Constraint, latest: string) {
    && latest in versions
    && Candidate(lib, constraint, latest)
    && (forall i :: 0 <= i < |versions| && Candidate(lib, constraint, versions[i]) ==> !Above(lib, versions[i], latest))
  }

  function Selection(lib: Lib, versions: seq<string>, constraint: Constraint): seq<Parsed> {
    if versions == [] then []
    else
      var last := versions[|versions| - 1];
      Selection(lib, versions[..|versions| - 1], constraint)
        + (if Candidate(lib, constraint, last) then [Parsed(last, Parse(lib, last).value)] else [])
  }

  lemma {:induction false} SelectionMembers(lib: Lib, versions: seq<string>, constraint: Constraint, p: Parsed)
    ensures p in Selection(lib, versions, constraint)
       <==> p.original in versions && Candidate(lib, constraint, p.original) && NewVersion(lib, p.original) == Some(p)
  {
    if versions != [] {
      var front, last := versions[..|versions| - 1], versions[|versions| - 1];
      assert versions == front + [last];
      SelectionMembers(lib, front, constraint, p);
    }
  }

  /** Descending: no later element is above an earlier one. Ties may stand in any order. */
  predicate Descending(s: seq<Parsed>) {
    forall i, j :: 0 <= i < j < |s| ==> !GreaterThan(s[j].version, s[i].version)
  }

  lemma NotAboveTransitive(a: Version, b: Version, c: Version)
    requires !GreaterThan(a, b) && !GreaterThan(b, c)
    ensures !GreaterThan(a, c)
  {
    PrecedenceIsTotalPreorder(a, b, c);
  }

  lemma AboveIsNotBelow(a: Version, b: Version)
    requires GreaterThan(a, b)
    ensures !GreaterThan(b, a)
  {
    PrecedenceIsTotalPreorder(b, a, b);
  }

  /** Descending up to i, but for the element at j, of which only what follows it is known. */
  predicate DescendingBut(s: seq<Parsed>, i: nat, j: nat)
    requires i < |s|
  {
    forall p, q :: 0 <= p < q <= i && q != j ==> !GreaterThan(s[q].version, s[p].version)
  }

  function Swapped(s: seq<Parsed>, j: nat): (r: seq<Parsed>)
    requires 0 < j < |s|
    ensures |r| == |s| && multiset(r) == multiset(s)
  {
    s[j := s[j - 1]][j - 1 := s[j]]
  }

  lemma SwapDescends(s: seq<Parsed>, i: nat, j: nat)
    requires 0 < j <= i < |s| && DescendingBut(s, i, j) && GreaterThan(s[j].version, s[j - 1].version)
    ensures DescendingBut(Swapped(s, j), i, j - 1)
  {
    AboveIsNotBelow(s[j].version, s[j - 1].version);
  }

  lemma InsertedDescends(s: seq<Parsed>, i: nat, j: nat)
    requires j <= i < |s| && DescendingBut(s, i, j)
    requires j > 0 ==> !GreaterThan(s[j].version, s[j - 1].version)
    ensures Descending(s[..i + 1])
  {
    forall p | 0 <= p < j ensures !GreaterThan(s[j].version, s[p].version) {
      if p < j - 1 {
        NotAboveTransitive(s[j].version, s[j - 1].version, s[p].version);
      }
    }
  }

  /** sort.Slice with GreaterThan as its less function: sorts in place, order of ties unspecified. */
  method SortDescending(a: array<Parsed>)
    modifies a
    ensures multiset(a[..]) == multiset(old(a[..]))
    ensures Descending(a[..])
  {
    for i := 0 to a.Length
      invariant multiset(a[..]) == multiset(old(a[..]))
      invariant Descending(a[..i])
    {
      var j := i;
      while j > 0 && GreaterThan(a[j].version, a[j - 1].version)
        invariant 0 <= j <= i
        invariant multiset(a[..]) == multiset(old(a[..]))
        invariant DescendingBut(a[..], i, j)
      {
        ghost var before := a[..];
        SwapDescends(before, i, j);
        a[j], a[j - 1] := a[j - 1], a[j];
        assert a[..] == Swapped(before, j);
        j := j - 1;
      }
      InsertedDescends(a[..], i, j);
      assert a[..i + 1] == a[..][..i + 1];
    }
    assert a[..a.Length] == a[..];
  }

  method GetLatestVersion(lib: Lib, versions: seq<string>, constraint: Constraint) returns (latest: string)
    requires HasCandidate(lib, versions, constraint)
    ensures IsLatest(lib, versions, constraint, latest)
  {
    var semvers: seq<Parsed> := [];
    for i := 0 to |versions|
      invariant semvers == Selection(lib, versions[..i], constraint)
    {
      assert versions[..i + 1][..i] == versions[..i];
      var semv := NewVersion(lib, versions[i]);
      if semv.None? {
        continue;
      }
      if constraint(semv.value.version) {
        semvers := semvers + [semv.value];
      }
    }
    assert versions[..|versions|] == versions;
    latest := First(lib, versions, constraint, semvers);
  }

  /** Sort the selection and take its first element. */
  method First(lib: Lib, versions: seq<string>, constraint: Constraint, semvers: seq<Parsed>) returns (latest: string)
    requires HasCandidate(lib, versions, constraint)
    requires semvers == Selection(lib, versions, constraint)
    ensures IsLatest(lib, versions, constraint, latest)
  {
    var a := new Parsed[|semvers|](i requires 0 <= i < |semvers| => semvers[i]);
    assert a[..] == semvers;
    SortDescending(a);
    ghost var sorted := a[..];
    MultisetMembers(sorted, semvers);
    forall i | 0 <= i < |versions| && Candidate(lib, constraint, versions[i])
      ensures Parsed(versions[i], Parse(lib, versions[i]).value) in sorted
    {
      SelectionMembers(lib, versions, constraint, Parsed(versions[i], Parse(lib, versions[i]).value));
    }
    assert |sorted| > 0;
    assert sorted[0] in sorted;
    SelectionMembers(lib, versions, constraint, sorted[0]);
    latest := a[0].original;
    FirstIsLatest(lib, versions, constraint, sorted);
  }

  lemma FirstIsLatest(lib: Lib, versions: seq<string>, constraint: Constraint, sorted: seq<Parsed>)
    requires |sorted| > 0 && Descending(sorted)
    requires sorted[0].original in versions && Candidate(lib, constraint, sorted[0].original)
    requires NewVersion(lib, sorted[0].original) == Some(sorted[0])
    requires forall i :: 0 <= i < |versions| && Candidate(lib, constraint, versions[i]) ==>
      Parsed(versions[i], Parse(lib, versions[i]).value) in sorted
    ensures IsLatest(lib, versions, constraint, sorted[0].original)
  {
    forall i | 0 <= i < |versions| && Candidate(lib, constraint, versions[i])
      ensures !Above(lib, versions[i], sorted[0].original)
    {
      var p := Parsed(versions[i], Parse(lib, versions[i]).value);
      var k :| 0 <= k < |sorted| && sorted[k] == p;
      if k == 0 {
        AboveIrreflexive(lib, versions[i], versions[i]);
      }
    }
  }

  /** The sorted selection is empty, so that taking its first element panics, exactly when there is no candidate. */
  lemma EmptySelectionExactly(lib: Lib, versions: seq<string>, constraint: Constraint)
    ensures Selection(lib, versions, constraint) == [] <==> !HasCandidate(lib, versions, constraint)
  {
    if HasCandidate(lib, versions, constraint) {
      var i :| 0 <= i < |versions| && Candidate(lib, constraint, versions[i]);
      SelectionMembers(lib, versions, constraint, Parsed(versions[i], Parse(lib, versions[i]).value));
    }
    if Selection(lib, versions, constraint) != [] {
      var p := Selection(lib, versions, constraint)[0];
      SelectionMembers(lib, versions, constraint, p);
      var i :| 0 <= i < |versions| && versions[i] == p.original;
      assert Candidate(lib, constraint, versions[i]);
    }
  }

  /** Two latest versions are level: a tie decides between strings of equal precedence only. */
  lemma LatestAreLevel(lib: Lib, versions: seq<string>, constraint: Constraint, a: string, b: string)
    requires IsLatest(lib, versions, constraint, a) && IsLatest(lib, versions, constraint, b)
    ensures Equal(Parse(lib, a).value, Parse(lib, b).value)
  {
    var i :| 0 <= i < |versions| && versions[i] == a;
    var j :| 0 <= j < |versions| && versions[j] == b;
    PrecedenceIsTotalPreorder(Parse(lib, a).value, Parse(lib, b).value, Parse(lib, a).value);
  }
}
