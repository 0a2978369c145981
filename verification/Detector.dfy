/** Breaking-change detection between an installed CRD and an incoming one. */
module Detector {
  import opened Basics
  import opened Api
  import opened Libraries

  // --------------------------------------------------------- one schema pair

  function Describe(lib: Lib, c: Change): string {
    if c.original != "" || c.updated != ""
    then c.property + ": " + lib.quote(c.original) + " -> " + lib.quote(c.updated)
    else c.property
  }

  function BreakingEntries(entries: seq<Change>): seq<Change> {
    if entries == [] then []
    else
      var last := entries[|entries| - 1];
      BreakingEntries(entries[..|entries| - 1]) + (if last.breaking then [last] else [])
  }

  function Descriptions(lib: Lib, entries: seq<Change>): (r: seq<string>) {
    seq(|entries|, i requires 0 <= i < |entries| => Describe(lib, entries[i]))
  }

  /** The breaking differences of two schemas; None when the comparison itself fails. */
  function SchemaChanges(lib: Lib, oldSchema: Schema, newSchema: Schema): Option<seq<string>> {
    match lib.diff(oldSchema, newSchema)
    case DiffFailed => None
    case NoReport => Some([])
    case Report(total, entries) =>
      Some(if total == 0 then [] else Descriptions(lib, BreakingEntries(entries)))
  }

  method CompareSchemas(lib: Lib, oldSchema: Schema, newSchema: Schema) returns (r: Option<seq<string>>)
    ensures r == SchemaChanges(lib, oldSchema, newSchema)
  {
    var report := lib.diff(oldSchema, newSchema);
    if report.DiffFailed? {
      return None;
    }
    if report.NoReport? || report.totalBreaking == 0 {
      return Some([]);
    }
    var descriptions: seq<string> := [];
    for i := 0 to |report.entries|
      invariant descriptions == Descriptions(lib, BreakingEntries(report.entries[..i]))
    {
      var c := report.entries[i];
      assert report.entries[..i + 1][..i] == report.entries[..i];
      if !c.breaking {
        continue;
      }
      descriptions := descriptions + [Describe(lib, c)];
    }
    assert report.entries[..|report.entries|] == report.entries;
    return Some(descriptions);
  }

  /** The new schema is acceptable: the comparison works and its report names no breaking entry. */
  predicate Compatible(lib: Lib, oldSchema: Schema, newSchema: Schema) {
    || oldSchema == newSchema
    || (var d := lib.diff(oldSchema, newSchema);
        || d.NoReport?
        || (d.Report? && (d.totalBreaking == 0 || forall c :: c in d.entries ==> !c.breaking)))
  }

  lemma {:induction false} NoBreakingEntries(entries: seq<Change>)
    ensures BreakingEntries(entries) == [] <==> forall c :: c in entries ==> !c.breaking
  {
    if entries != [] {
      var front, last := entries[..|entries| - 1], entries[|entries| - 1];
      NoBreakingEntries(front);
      assert entries == front + [last];
    }
  }

  // ------------------------------------------------------------- one CRD pair

  /** The map from version name to schema; a repeated name keeps its last schema. */
  function NewSchemas(versions: seq<CrdVersion>): (m: map<string, Schema>)
    ensures m.Keys == SchemaNames(versions)
  {
    if versions == [] then map[]
    else
      var front, last := versions[..|versions| - 1], versions[|versions| - 1];
      assert versions == front + [last];
      var m := NewSchemas(front);
      if last.HasSchema() then m[last.name := last.Schema()] else m
  }

  function Prefixed(prefix: string, changes: seq<string>): (r: seq<string>)
    ensures |r| == |changes|
  {
    seq(|changes|, i requires 0 <= i < |changes| => prefix + changes[i])
  }

  function Removed(lib: Lib, name: string): string { "version " + lib.quote(name) + " removed" }

  function Heading(name: string): string { "version " + name + ": " }

  /** What one old version adds to the result; None when its comparison fails. */
  function Contribution(lib: Lib, schemas: map<string, Schema>, v: CrdVersion): Option<seq<string>> {
    if !v.HasSchema() then Some([])
    else if v.name !in schemas then Some([Removed(lib, v.name)])
    else if v.Schema() == schemas[v.name] then Some([])
    else match SchemaChanges(lib, v.Schema(), schemas[v.name])
      case None => None
      case Some(changes) => Some(Prefixed(Heading(v.name), changes))
  }

  /** The contributions of all old versions in their order. */
  function Contributions(lib: Lib, schemas: map<string, Schema>, olds: seq<CrdVersion>): (r: seq<seq<string>>)
    requires forall v :: v in olds ==> Contribution(lib, schemas, v).Some?
    ensures |r| == |olds|
  {
    seq(|olds|, i requires 0 <= i < |olds| => Contribution(lib, schemas, olds[i]).value)
  }

  function Detect(lib: Lib, olds: seq<CrdVersion>, news: seq<CrdVersion>): Option<seq<string>> {
    var schemas := NewSchemas(news);
    if forall v :: v in olds ==> Contribution(lib, schemas, v).Some?
    then Some(Flatten(Contributions(lib, schemas, olds)))
    else None
  }

  lemma ContributionsSnoc(lib: Lib, schemas: map<string, Schema>, front: seq<CrdVersion>, last: CrdVersion)
    requires forall v :: v in front + [last] ==> Contribution(lib, schemas, v).Some?
    ensures forall v :: v in front ==> Contribution(lib, schemas, v).Some?
    ensures Flatten(Contributions(lib, schemas, front + [last]))
         == Flatten(Contributions(lib, schemas, front)) + Contribution(lib, schemas, last).value
  {
    assert forall v :: v in front ==> v in front + [last];
    assert last in front + [last];
    var a, b := Contributions(lib, schemas, front), [Contribution(lib, schemas, last).value];
    assert Contributions(lib, schemas, front + [last]) == a + b;
    FlattenAppend(a, b);
    assert Flatten(b) == b[0] + Flatten(b[1..]);
  }

  /** One more old version done: its contribution goes to the end of the result. */
  lemma OneMore(lib: Lib, schemas: map<string, Schema>, olds: seq<CrdVersion>, i: nat, added: seq<string>)
    requires i < |olds| && Contribution(lib, schemas, olds[i]) == Some(added)
    requires forall v :: v in olds[..i] ==> Contribution(lib, schemas, v).Some?
    ensures forall v :: v in olds[..i + 1] ==> Contribution(lib, schemas, v).Some?
    ensures Flatten(Contributions(lib, schemas, olds[..i + 1]))
         == Flatten(Contributions(lib, schemas, olds[..i])) + added
  {
    assert olds[..i + 1] == olds[..i] + [olds[i]];
    ContributionsSnoc(lib, schemas, olds[..i], olds[i]);
  }

  lemma FailedComparison(lib: Lib, olds: seq<CrdVersion>, news: seq<CrdVersion>, v: CrdVersion)
    requires v in olds && Contribution(lib, NewSchemas(news), v).None?
    ensures Detect(lib, olds, news).None?
  {
  }

  lemma PrefixedNext(prefix: string, changes: seq<string>, j: nat, before: seq<string>)
    requires j < |changes|
    ensures before + Prefixed(prefix, changes[..j + 1])
         == before + Prefixed(prefix, changes[..j]) + [prefix + changes[j]]
  {
    assert Prefixed(prefix, changes[..j + 1]) == Prefixed(prefix, changes[..j]) + [prefix + changes[j]];
  }

  method DetectBreakingChanges(lib: Lib, olds: seq<CrdVersion>, news: seq<CrdVersion>) returns (r: Option<seq<string>>)
    ensures r == Detect(lib, olds, news)
  {
    var breaking: seq<string> := [];
    var newVersions: map<string, Schema> := map[];
    for i := 0 to |news|
      invariant newVersions == NewSchemas(news[..i])
    {
      assert news[..i + 1][..i] == news[..i];
      if news[i].HasSchema() {
        newVersions := newVersions[news[i].name := news[i].Schema()];
      }
    }
    assert news[..|news|] == news;

    for i := 0 to |olds|
      invariant forall v :: v in olds[..i] ==> Contribution(lib, newVersions, v).Some?
      invariant breaking == Flatten(Contributions(lib, newVersions, olds[..i]))
    {
      var oldVer := olds[i];
      ghost var before := breaking;
      if !oldVer.HasSchema() {
        OneMore(lib, newVersions, olds, i, []);
        continue;
      }
      if oldVer.name !in newVersions {
        breaking := breaking + [Removed(lib, oldVer.name)];
        OneMore(lib, newVersions, olds, i, [Removed(lib, oldVer.name)]);
        continue;
      }
      if oldVer.Schema() == newVersions[oldVer.name] {
        OneMore(lib, newVersions, olds, i, []);
        continue;
      }
      var changes := CompareSchemas(lib, oldVer.Schema(), newVersions[oldVer.name]);
      if changes.None? {
        FailedComparison(lib, olds, news, oldVer);
        return None;
      }
      var prefix := Heading(oldVer.name);
      for j := 0 to |changes.value|
        invariant breaking == before + Prefixed(prefix, changes.value[..j])
      {
        PrefixedNext(prefix, changes.value, j, before);
        breaking := breaking + [prefix + changes.value[j]];
      }
      assert changes.value[..|changes.value|] == changes.value;
      OneMore(lib, newVersions, olds, i, Prefixed(prefix, changes.value));
    }
    assert olds[..|olds|] == olds;
    return Some(breaking);
  }

  // --------------------------------------------------------- what it decides

  /** The schema kept for a name is that of the last new version of this name that has one. */
  lemma {:induction false} LastSchemaWins(versions: seq<CrdVersion>, name: string) returns (i: nat)
    requires name in NewSchemas(versions)
    ensures i < |versions| && versions[i].HasSchema() && versions[i].name == name
    ensures NewSchemas(versions)[name] == versions[i].Schema()
    ensures forall j :: i < j < |versions| && versions[j].name == name ==> !versions[j].HasSchema()
  {
    var n := |versions| - 1;
    var front, last := versions[..n], versions[n];
    assert versions == front + [last];
    if last.HasSchema() && last.name == name {
      i := n;
    } else {
      assert NewSchemas(versions)
          == if last.HasSchema() then NewSchemas(front)[last.name := last.Schema()] else NewSchemas(front);
      i := LastSchemaWins(front, name);
      assert versions[i] == front[i];
    }
  }

  /** The text for a change: the property, and both values, quoted, old before new, if there is any. */
  predicate DescribesChange(lib: Lib, c: Change, text: string) {
    if c.original == "" && c.updated == "" then text == c.property
    else text == c.property + ": " + lib.quote(c.original) + " -> " + lib.quote(c.updated)
  }

  /** e is what a schema-bearing old version gives rise to: its removal, or one breaking entry of its comparison. */
  predicate Explains(lib: Lib, schemas: map<string, Schema>, v: CrdVersion, e: string)
    requires v.HasSchema()
  {
    if v.name !in schemas then e == "version " + lib.quote(v.name) + " removed"
    else
      var d, heading := lib.diff(v.Schema(), schemas[v.name]), "version " + v.name + ": ";
      && v.Schema() != schemas[v.name] && d.Report? && d.totalBreaking > 0
      && exists c :: c in d.entries && c.breaking
           && heading <= e && DescribesChange(lib, c, e[|heading|..])
  }

  lemma {:induction false} BreakingMembers(entries: seq<Change>, c: Change)
    ensures c in BreakingEntries(entries) <==> c in entries && c.breaking
  {
    if entries != [] {
      var front, last := entries[..|entries| - 1], entries[|entries| - 1];
      assert entries == front + [last];
      BreakingMembers(front, c);
    }
  }

  lemma HeadingSplits(heading: string, text: string, e: string)
    ensures e == heading + text <==> heading <= e && e[|heading|..] == text
  {
  }

  lemma DescribedMembers(lib: Lib, heading: string, entries: seq<Change>, e: string)
    ensures e in Prefixed(heading, Descriptions(lib, BreakingEntries(entries)))
       <==> exists c :: c in entries && c.breaking && heading <= e && DescribesChange(lib, c, e[|heading|..])
  {
    forall c ensures e == heading + Describe(lib, c) <==> heading <= e && DescribesChange(lib, c, e[|heading|..]) {
      HeadingSplits(heading, Describe(lib, c), e);
    }
    var all := BreakingEntries(entries);
    var shown := Prefixed(heading, Descriptions(lib, all));
    assert |shown| == |all| && forall i :: 0 <= i < |all| ==> shown[i] == heading + Describe(lib, all[i]);
    if e in shown {
      var i :| 0 <= i < |shown| && shown[i] == e;
      BreakingMembers(entries, all[i]);
    }
    if c :| c in entries && c.breaking && heading <= e && DescribesChange(lib, c, e[|heading|..]) {
      BreakingMembers(entries, c);
      var i :| 0 <= i < |all| && all[i] == c;
      assert shown[i] == e;
    }
  }

  lemma ContributionMembers(lib: Lib, schemas: map<string, Schema>, v: CrdVersion, e: string)
    requires Contribution(lib, schemas, v).Some?
    ensures e in Contribution(lib, schemas, v).value <==> v.HasSchema() && Explains(lib, schemas, v, e)
  {
    if v.HasSchema() && v.name in schemas && v.Schema() != schemas[v.name] {
      var d := lib.diff(v.Schema(), schemas[v.name]);
      if d.Report? && d.totalBreaking > 0 {
        DescribedMembers(lib, Heading(v.name), d.entries, e);
      }
    }
  }

  /** The report of a list of old versions is that of its parts in their order; none if one of them fails. */
  lemma ReportsInOrder(lib: Lib, a: seq<CrdVersion>, b: seq<CrdVersion>, news: seq<CrdVersion>)
    ensures var first, second := Detect(lib, a, news), Detect(lib, b, news);
      Detect(lib, a + b, news)
      == if first.Some? && second.Some? then Some(first.value + second.value) else None
  {
    var schemas := NewSchemas(news);
    assert forall v :: v in a + b <==> v in a || v in b;
    if forall v :: v in a + b ==> Contribution(lib, schemas, v).Some? {
      var ca, cb := Contributions(lib, schemas, a), Contributions(lib, schemas, b);
      assert Contributions(lib, schemas, a + b) == ca + cb;
      FlattenAppend(ca, cb);
    }
  }

  /** A report that is made has exactly the entries that some schema-bearing old version gives rise to. */
  lemma ReportsExactly(lib: Lib, olds: seq<CrdVersion>, news: seq<CrdVersion>, e: string)
    ensures Detect(lib, olds, news).Some? ==>
      (e in Detect(lib, olds, news).value
       <==> exists v :: v in olds && v.HasSchema() && Explains(lib, NewSchemas(news), v, e))
  {
    var schemas := NewSchemas(news);
    if Detect(lib, olds, news).Some? {
      var all := Contributions(lib, schemas, olds);
      FlattenMembers(all, e);
      forall v | v in olds
        ensures e in Contribution(lib, schemas, v).value <==> v.HasSchema() && Explains(lib, schemas, v, e)
      {
        ContributionMembers(lib, schemas, v, e);
      }
      if v :| v in olds && v.HasSchema() && Explains(lib, schemas, v, e) {
        var i :| 0 <= i < |olds| && olds[i] == v;
        assert e in all[i];
      }
      if i :| 0 <= i < |all| && e in all[i] {
        assert olds[i] in olds && olds[i].HasSchema() && Explains(lib, schemas, olds[i], e);
      }
    }
  }

  predicate DistinctNames(versions: seq<CrdVersion>) {
    forall i, j :: 0 <= i < j < |versions| ==> versions[i].name != versions[j].name
  }

  /** Some comparison that has to be made fails. */
  predicate ComparisonFails(lib: Lib, schemas: map<string, Schema>, v: CrdVersion) {
    && v.HasSchema() && v.name in schemas && v.Schema() != schemas[v.name]
    && lib.diff(v.Schema(), schemas[v.name]).DiffFailed?
  }

  /** Detection fails exactly when a comparison of two differing same-named schemas fails. */
  lemma DetectFailsExactly(lib: Lib, olds: seq<CrdVersion>, news: seq<CrdVersion>)
    ensures Detect(lib, olds, news).None?
       <==> exists v :: v in olds && ComparisonFails(lib, NewSchemas(news), v)
  {
    var schemas := NewSchemas(news);
    assert forall v :: Contribution(lib, schemas, v).None? <==> ComparisonFails(lib, schemas, v);
  }

  lemma ContributionEmptyExactly(lib: Lib, schemas: map<string, Schema>, v: CrdVersion)
    ensures Contribution(lib, schemas, v) == Some([])
       <==> (v.HasSchema() ==> v.name in schemas && Compatible(lib, v.Schema(), schemas[v.name]))
  {
    if v.HasSchema() && v.name in schemas {
      var d := lib.diff(v.Schema(), schemas[v.name]);
      if d.Report? {
        NoBreakingEntries(d.entries);
      }
    }
  }

  /**
   Nothing is reported exactly when every schema-bearing old version still has a schema under its
   name, and that schema is equal or compares without a breaking entry.
   */
  lemma DetectsNothingExactly(lib: Lib, olds: seq<CrdVersion>, news: seq<CrdVersion>)
    ensures Detect(lib, olds, news) == Some([])
       <==> forall v :: v in olds && v.HasSchema() ==>
              v.name in NewSchemas(news) && Compatible(lib, v.Schema(), NewSchemas(news)[v.name])
  {
    var schemas := NewSchemas(news);
    forall v ensures Contribution(lib, schemas, v) == Some([])
        <==> (v.HasSchema() ==> v.name in schemas && Compatible(lib, v.Schema(), schemas[v.name]))
    {
      ContributionEmptyExactly(lib, schemas, v);
    }
    if forall v :: v in olds ==> Contribution(lib, schemas, v).Some? {
      var cs := Contributions(lib, schemas, olds);
      FlattenEmpty(cs);
      assert forall i :: 0 <= i < |olds| ==> cs[i] == Contribution(lib, schemas, olds[i]).value;
      if Flatten(cs) == [] {
        forall v | v in olds ensures Contribution(lib, schemas, v) == Some([]) {
          var i :| 0 <= i < |olds| && olds[i] == v;
          assert cs[i] == [];
        }
      }
    }
  }

  /** Soundness: when nothing is reported, no schema-bearing version name is lost. */
  lemma NothingReportedLosesNoVersion(lib: Lib, olds: seq<CrdVersion>, news: seq<CrdVersion>)
    requires Detect(lib, olds, news) == Some([])
    ensures SchemaNames(olds) <= SchemaNames(news)
  {
    DetectsNothingExactly(lib, olds, news);
  }

  lemma {:induction false} NewSchemasLookup(versions: seq<CrdVersion>, i: nat)
    requires i < |versions| && versions[i].HasSchema() && DistinctNames(versions)
    ensures versions[i].name in NewSchemas(versions) && NewSchemas(versions)[versions[i].name] == versions[i].Schema()
  {
    if i < |versions| - 1 {
      NewSchemasLookup(versions[..|versions| - 1], i);
    }
  }

  /** Comparing a CRD with itself reports nothing when its version names are distinct. */
  lemma SelfComparisonIsClean(lib: Lib, versions: seq<CrdVersion>)
    requires DistinctNames(versions)
    ensures Detect(lib, versions, versions) == Some([])
  {
    forall v | v in versions && v.HasSchema()
      ensures v.name in NewSchemas(versions) && NewSchemas(versions)[v.name] == v.Schema()
    {
      var i :| 0 <= i < |versions| && versions[i] == v;
      NewSchemasLookup(versions, i);
    }
    DetectsNothingExactly(lib, versions, versions);
  }

  /** With distinct names, the schema map depends only on which versions there are, not on their order. */
  lemma PermutedSchemas(a: seq<CrdVersion>, b: seq<CrdVersion>)
    requires DistinctNames(a) && DistinctNames(b) && multiset(a) == multiset(b)
    ensures NewSchemas(a) == NewSchemas(b)
  {
    MultisetMembers(a, b);
    forall n | n in SchemaNames(a) ensures NewSchemas(a)[n] == NewSchemas(b)[n] {
      var v :| v in a && v.HasSchema() && v.name == n;
      var i :| 0 <= i < |a| && a[i] == v;
      var j :| 0 <= j < |b| && b[j] == v;
      NewSchemasLookup(a, i);
      NewSchemasLookup(b, j);
    }
  }

  /** The order of the incoming versions does not matter. */
  lemma DetectIgnoresNewOrder(lib: Lib, olds: seq<CrdVersion>, a: seq<CrdVersion>, b: seq<CrdVersion>)
    requires DistinctNames(a) && DistinctNames(b) && multiset(a) == multiset(b)
    ensures Detect(lib, olds, a) == Detect(lib, olds, b)
  {
    PermutedSchemas(a, b);
  }

  lemma {:induction false} SchemasOfExtended(news: seq<CrdVersion>, extra: seq<CrdVersion>, name: string)
    requires name !in SchemaNames(extra)
    ensures name in NewSchemas(news + extra) <==> name in NewSchemas(news)
    ensures name in NewSchemas(news) ==> NewSchemas(news + extra)[name] == NewSchemas(news)[name]
  {
    if extra == [] {
      assert news + extra == news;
    } else {
      var front := extra[..|extra| - 1];
      assert (news + extra)[..|news + extra| - 1] == news + front;
      assert forall v :: v in front ==> v in extra;
      assert extra[|extra| - 1] in extra;
      SchemasOfExtended(news, front, name);
    }
  }

  /** Versions added under names the installed CRD does not have change nothing. */
  lemma AddedVersionsAddNothing(lib: Lib, olds: seq<CrdVersion>, news: seq<CrdVersion>, extra: seq<CrdVersion>)
    requires forall v, w :: v in olds && w in extra ==> v.name != w.name
    ensures Detect(lib, olds, news + extra) == Detect(lib, olds, news)
  {
    var before, after := NewSchemas(news), NewSchemas(news + extra);
    forall v | v in olds ensures Contribution(lib, after, v) == Contribution(lib, before, v) {
      SchemasOfExtended(news, extra, v.name);
    }
    if forall v :: v in olds ==> Contribution(lib, before, v).Some? {
      assert Contributions(lib, after, olds) == Contributions(lib, before, olds);
    }
  }
}
