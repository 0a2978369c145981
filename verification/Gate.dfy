/**
 The two checks between reading a manifest and applying it, and the label loop before them.
 `failAt` is the position of the object whose marshalling, decoding or lookup fails, if any does.
 */
module Gate {
  import opened Basics
  import opened Api
  import opened Libraries
  import opened Detector

  // ------------------------------------------------------------- labelling

  function Labelled(o: Object, owner: string): Object {
    o.(labels := map[OWNER_LABEL := owner])
  }

  function LabelAll(objects: seq<Object>, owner: string): (r: seq<Object>)
    ensures |r| == |objects|
  {
    seq(|objects|, i requires 0 <= i < |objects| => Labelled(objects[i], owner))
  }

  // ------------------------------------------------------ breaking changes

  /** What one object adds: nothing when its CRD is not installed in the local cluster. */
  function ObjectChanges(lib: Lib, cluster: Cluster, o: Object): Option<seq<string>> {
    var key := CrdKey(Local, o.name);
    if key !in cluster then Some([]) else Detect(lib, cluster[key].versions, o.versions)
  }

  function AllChanges(lib: Lib, cluster: Cluster, objects: seq<Object>): (r: seq<seq<string>>)
    requires forall o :: o in objects ==> ObjectChanges(lib, cluster, o).Some?
    ensures |r| == |objects|
  {
    seq(|objects|, i requires 0 <= i < |objects| => ObjectChanges(lib, cluster, objects[i]).value)
  }

  function DetectAll(lib: Lib, cluster: Cluster, objects: seq<Object>, failAt: Option<nat>): Option<seq<string>> {
    if failAt.Some? && failAt.value < |objects| then None
    else if forall o :: o in objects ==> ObjectChanges(lib, cluster, o).Some?
    then Some(Flatten(AllChanges(lib, cluster, objects)))
    else None
  }

  lemma AllChangesConcat(lib: Lib, cluster: Cluster, a: seq<Object>, b: seq<Object>)
    requires forall o :: o in a + b ==> ObjectChanges(lib, cluster, o).Some?
    ensures forall o :: o in a || o in b ==> ObjectChanges(lib, cluster, o).Some?
    ensures Flatten(AllChanges(lib, cluster, a + b))
         == Flatten(AllChanges(lib, cluster, a)) + Flatten(AllChanges(lib, cluster, b))
  {
    assert forall o :: o in a || o in b ==> o in a + b;
    var ca, cb := AllChanges(lib, cluster, a), AllChanges(lib, cluster, b);
    assert AllChanges(lib, cluster, a + b) == ca + cb;
    FlattenAppend(ca, cb);
  }

  lemma SingleChange(lib: Lib, cluster: Cluster, o: Object)
    requires ObjectChanges(lib, cluster, o).Some?
    ensures Flatten(AllChanges(lib, cluster, [o])) == ObjectChanges(lib, cluster, o).value
  {
    var c := AllChanges(lib, cluster, [o]);
    assert Flatten(c) == c[0] + Flatten(c[1..]);
  }

  method DetectObjectChanges(lib: Lib, cluster: Cluster, objects: seq<Object>, failAt: Option<nat>)
    returns (r: Option<seq<string>>)
    ensures r == DetectAll(lib, cluster, objects, failAt)
  {
    var allBreaking: seq<string> := [];
    for i := 0 to |objects|
      invariant failAt.Some? ==> i <= failAt.value
      invariant forall o :: o in objects[..i] ==> ObjectChanges(lib, cluster, o).Some?
      invariant allBreaking == Flatten(AllChanges(lib, cluster, objects[..i]))
    {
      var o := objects[i];
      if failAt == Some(i) {
        return None;
      }
      assert objects[..i + 1] == objects[..i] + [o];
      assert o in objects;
      if ObjectChanges(lib, cluster, o).Some? {
        AllChangesConcat(lib, cluster, objects[..i], [o]);
        SingleChange(lib, cluster, o);
      }
      var key := CrdKey(Local, o.name);
      if key !in cluster {
        continue;
      }
      var changes := DetectBreakingChanges(lib, cluster[key].versions, o.versions);
      if changes.None? {
        return None;
      }
      allBreaking := allBreaking + changes.value;
    }
    assert objects[..|objects|] == objects;
    return Some(allBreaking);
  }

  /** e is the report of a schema-bearing version of an installed CRD against what the batch brings. */
  predicate Reported(lib: Lib, cluster: Cluster, objects: seq<Object>, e: string) {
    exists o, v :: o in objects && CrdKey(Local, o.name) in cluster && v in cluster[CrdKey(Local, o.name)].versions
      && v.HasSchema() && Explains(lib, NewSchemas(o.versions), v, e)
  }

  /** Detection that succeeds lists exactly what is to be reported of the CRDs installed in the local cluster. */
  lemma BatchReportsExactly(lib: Lib, cluster: Cluster, objects: seq<Object>, failAt: Option<nat>, e: string)
    ensures DetectAll(lib, cluster, objects, failAt).Some? ==>
      (e in DetectAll(lib, cluster, objects, failAt).value <==> Reported(lib, cluster, objects, e))
  {
    if DetectAll(lib, cluster, objects, failAt).Some? {
      var all := AllChanges(lib, cluster, objects);
      FlattenMembers(all, e);
      forall o | o in objects
        ensures e in ObjectChanges(lib, cluster, o).value <==> Reported(lib, cluster, [o], e)
      {
        ObjectReportsExactly(lib, cluster, o, e);
      }
      if i :| 0 <= i < |all| && e in all[i] {
        assert objects[i] in objects && Reported(lib, cluster, [objects[i]], e);
      }
      if o :| o in objects && Reported(lib, cluster, [o], e) {
        var i :| 0 <= i < |objects| && objects[i] == o;
        assert e in all[i];
      }
      ReportedOfOne(lib, cluster, objects, e);
    }
  }

  lemma ObjectReportsExactly(lib: Lib, cluster: Cluster, o: Object, e: string)
    requires ObjectChanges(lib, cluster, o).Some?
    ensures e in ObjectChanges(lib, cluster, o).value <==> Reported(lib, cluster, [o], e)
  {
    assert forall p :: p in [o] <==> p == o;
    if CrdKey(Local, o.name) in cluster {
      ReportsExactly(lib, cluster[CrdKey(Local, o.name)].versions, o.versions, e);
    }
  }

  lemma ReportedOfOne(lib: Lib, cluster: Cluster, objects: seq<Object>, e: string)
    ensures Reported(lib, cluster, objects, e) <==> exists o :: o in objects && Reported(lib, cluster, [o], e)
  {
    assert forall o, p: Object :: p in [o] <==> p == o;
    if Reported(lib, cluster, objects, e) {
      var o, v :| o in objects && CrdKey(Local, o.name) in cluster && v in cluster[CrdKey(Local, o.name)].versions
        && v.HasSchema() && Explains(lib, NewSchemas(o.versions), v, e);
      assert o in [o];
      assert Reported(lib, cluster, [o], e);
    }
  }

  /** The report of a batch is that of its parts in their order. */
  lemma BatchReportsInOrder(lib: Lib, cluster: Cluster, a: seq<Object>, b: seq<Object>)
    ensures var first, second := DetectAll(lib, cluster, a, None), DetectAll(lib, cluster, b, None);
      DetectAll(lib, cluster, a + b, None)
      == if first.Some? && second.Some? then Some(first.value + second.value) else None
  {
    assert forall o :: o in a + b <==> o in a || o in b;
    if forall o :: o in a + b ==> ObjectChanges(lib, cluster, o).Some? {
      AllChangesConcat(lib, cluster, a, b);
    }
  }

  /**
   Detection of a batch fails exactly when an object of it cannot be read or looked up, or the comparison
   of an installed version with what the batch brings fails. It never takes a failure for a change.
   */
  lemma BatchFailsExactly(lib: Lib, cluster: Cluster, objects: seq<Object>, failAt: Option<nat>)
    ensures DetectAll(lib, cluster, objects, failAt).None?
       <==> || (failAt.Some? && failAt.value < |objects|)
            || (exists o, v :: o in objects && CrdKey(Local, o.name) in cluster
                  && v in cluster[CrdKey(Local, o.name)].versions
                  && ComparisonFails(lib, NewSchemas(o.versions), v))
  {
    forall o | o in objects && CrdKey(Local, o.name) in cluster
      ensures ObjectChanges(lib, cluster, o).None?
         <==> exists v :: v in cluster[CrdKey(Local, o.name)].versions
                && ComparisonFails(lib, NewSchemas(o.versions), v)
    {
      DetectFailsExactly(lib, cluster[CrdKey(Local, o.name)].versions, o.versions);
    }
  }

  /** An object whose CRD is not installed, or whose incoming versions report nothing. */
  predicate Clean(lib: Lib, cluster: Cluster, o: Object) {
    CrdKey(Local, o.name) in cluster ==> Detect(lib, cluster[CrdKey(Local, o.name)].versions, o.versions) == Some([])
  }

  /** The batch reports nothing exactly when every object in it is clean. */
  lemma BatchIsCleanExactly(lib: Lib, cluster: Cluster, objects: seq<Object>, failAt: Option<nat>)
    requires failAt.Some? ==> failAt.value >= |objects|
    ensures DetectAll(lib, cluster, objects, failAt) == Some([])
       <==> forall o :: o in objects ==> Clean(lib, cluster, o)
  {
    assert forall o :: Clean(lib, cluster, o) <==> ObjectChanges(lib, cluster, o) == Some([]);
    if forall o :: o in objects ==> ObjectChanges(lib, cluster, o).Some? {
      var cs := AllChanges(lib, cluster, objects);
      FlattenEmpty(cs);
      assert forall i :: 0 <= i < |objects| ==> cs[i] == ObjectChanges(lib, cluster, objects[i]).value;
      if Flatten(cs) == [] {
        forall o | o in objects ensures ObjectChanges(lib, cluster, o) == Some([]) {
          var i :| 0 <= i < |objects| && objects[i] == o;
          assert cs[i] == [];
        }
      }
    }
  }

  /** A clean batch keeps every schema-bearing version name of every CRD it would overwrite. */
  lemma CleanBatchKeepsVersions(lib: Lib, cluster: Cluster, objects: seq<Object>, failAt: Option<nat>, o: Object)
    requires DetectAll(lib, cluster, objects, failAt) == Some([])
    requires o in objects && CrdKey(Local, o.name) in cluster
    ensures SchemaNames(cluster[CrdKey(Local, o.name)].versions) <= SchemaNames(o.versions)
  {
    BatchIsCleanExactly(lib, cluster, objects, failAt);
    assert Clean(lib, cluster, o);
    NothingReportedLosesNoVersion(lib, cluster[CrdKey(Local, o.name)].versions, o.versions);
  }

  /** CRDs that are not installed contribute nothing, wherever they stand in the batch. */
  lemma UninstalledObjectsAddNothing(lib: Lib, cluster: Cluster, a: seq<Object>, o: Object, b: seq<Object>)
    requires CrdKey(Local, o.name) !in cluster
    ensures DetectAll(lib, cluster, a + [o] + b, None) == DetectAll(lib, cluster, a + b, None)
  {
    var big, small := a + [o] + b, a + b;
    assert forall x :: x in big <==> x in small || x == o;
    if forall x :: x in small ==> ObjectChanges(lib, cluster, x).Some? {
      AllChangesConcat(lib, cluster, a + [o], b);
      AllChangesConcat(lib, cluster, a, [o]);
      AllChangesConcat(lib, cluster, a, b);
      SingleChange(lib, cluster, o);
      var before := Flatten(AllChanges(lib, cluster, a));
      assert before + [] == before;
    }
  }

  /** Detection never looks at a remote cluster, whatever the Bootstrap's target is. */
  lemma DetectionIsLocal(lib: Lib, c: Cluster, d: Cluster, objects: seq<Object>, failAt: Option<nat>)
    requires forall k :: k in c && k.target.Local? ==> k in d && d[k] == c[k]
    requires forall k :: k in d && k.target.Local? ==> k in c
    ensures DetectAll(lib, c, objects, failAt) == DetectAll(lib, d, objects, failAt)
  {
    assert forall o :: ObjectChanges(lib, c, o) == ObjectChanges(lib, d, o);
    if forall o :: o in objects ==> ObjectChanges(lib, c, o).Some? {
      assert AllChanges(lib, c, objects) == AllChanges(lib, d, objects);
    }
  }

  // ------------------------------------------------------------- validation

  /** Panics stands for the nil dereference on a version without a `schema` field. */
  datatype Verdict = Valid | Invalid | Panics

  function CheckVersion(lib: Lib, template: map<string, Json>, kind: string, v: CrdVersion): Verdict {
    if v.schema.None? then Panics
    else match lib.newValidator(v.schema.value.openAPI)
      case None => Invalid
      case Some(accepts) => if kind in template && !accepts(template[kind]) then Invalid else Valid
  }

  function CheckVersions(lib: Lib, template: map<string, Json>, kind: string, versions: seq<CrdVersion>): Verdict {
    if versions == [] then Valid
    else
      var first := CheckVersion(lib, template, kind, versions[0]);
      if first.Valid? then CheckVersions(lib, template, kind, versions[1..]) else first
  }

  function CheckObjects(lib: Lib, template: map<string, Json>, objects: seq<Object>, failAt: Option<nat>): Verdict {
    if objects == [] then Valid
    else if failAt == Some(0) then Invalid
    else
      var first := CheckVersions(lib, template, objects[0].crdKind, objects[0].versions);
      if first.Valid?
      then CheckObjects(lib, template, objects[1..], if failAt.Some? then Some(failAt.value - 1) else None)
      else first
  }

  function Validate(lib: Lib, template: Option<map<string, Json>>, objects: seq<Object>, failAt: Option<nat>): Verdict {
    match template
    case None => Valid
    case Some(t) => CheckObjects(lib, t, objects, failAt)
  }

  method ValidateObjects(lib: Lib, template: Option<map<string, Json>>, objects: seq<Object>, failAt: Option<nat>)
    returns (r: Verdict)
    ensures r == Validate(lib, template, objects, failAt)
  {
    if template.None? {
      return Valid;
    }
    var t := template.value;
    for i := 0 to |objects|
      invariant failAt.Some? ==> i <= failAt.value
      invariant Validate(lib, template, objects, failAt)
             == CheckObjects(lib, t, objects[i..], if failAt.Some? then Some(failAt.value - i) else None)
    {
      if failAt == Some(i) {
        return Invalid;
      }
      var o := objects[i];
      assert objects[i..][1..] == objects[i + 1..];
      for j := 0 to |o.versions|
        invariant CheckVersions(lib, t, o.crdKind, o.versions) == CheckVersions(lib, t, o.crdKind, o.versions[j..])
      {
        var v := o.versions[j];
        assert o.versions[j..][1..] == o.versions[j + 1..];
        if v.schema.None? {
          return Panics;
        }
        var eval := lib.newValidator(v.schema.value.openAPI);
        if eval.None? {
          return Invalid;
        }
        if o.crdKind in t && !eval.value(t[o.crdKind]) {
          return Invalid;
        }
      }
    }
    return Valid;
  }

  /** A version whose validator builds and accepts the template of its kind, if there is one. */
  predicate Accepted(lib: Lib, template: map<string, Json>, kind: string, v: CrdVersion) {
    && v.schema.Some?
    && lib.newValidator(v.schema.value.openAPI).Some?
    && (kind in template ==> lib.newValidator(v.schema.value.openAPI).value(template[kind]))
  }

  lemma {:induction false} VersionsValidExactly(lib: Lib, template: map<string, Json>, kind: string,
                                                versions: seq<CrdVersion>)
    ensures CheckVersions(lib, template, kind, versions).Valid?
       <==> forall v :: v in versions ==> Accepted(lib, template, kind, v)
  {
    if versions != [] {
      VersionsValidExactly(lib, template, kind, versions[1..]);
      assert CheckVersion(lib, template, kind, versions[0]).Valid? <==> Accepted(lib, template, kind, versions[0]);
      assert forall v :: v in versions <==> v == versions[0] || v in versions[1..];
    }
  }

  lemma {:induction false} ObjectsValidExactly(lib: Lib, template: map<string, Json>, objects: seq<Object>)
    ensures CheckObjects(lib, template, objects, None).Valid?
       <==> forall o, v :: o in objects && v in o.versions ==> Accepted(lib, template, o.crdKind, v)
  {
    if objects != [] {
      ObjectsValidExactly(lib, template, objects[1..]);
      VersionsValidExactly(lib, template, objects[0].crdKind, objects[0].versions);
      assert forall o :: o in objects <==> o == objects[0] || o in objects[1..];
    }
  }

  /** Validation passes exactly when there is no template or every version of every object is accepted. */
  lemma ValidExactly(lib: Lib, template: Option<map<string, Json>>, objects: seq<Object>)
    ensures Validate(lib, template, objects, None).Valid?
       <==> (template.Some? ==>
              forall o, v :: o in objects && v in o.versions ==> Accepted(lib, template.value, o.crdKind, v))
  {
    if template.Some? {
      ObjectsValidExactly(lib, template.value, objects);
    }
  }

  /** The version at j has no schema field, and every version before it is accepted. */
  predicate FaultAt(lib: Lib, template: map<string, Json>, kind: string, versions: seq<CrdVersion>, j: nat) {
    && j < |versions| && versions[j].schema.None?
    && forall k :: 0 <= k < j ==> Accepted(lib, template, kind, versions[k])
  }

  lemma {:induction false} VersionsPanicExactly(lib: Lib, template: map<string, Json>, kind: string,
                                                versions: seq<CrdVersion>)
    ensures CheckVersions(lib, template, kind, versions).Panics?
       <==> exists j :: 0 <= j < |versions| && FaultAt(lib, template, kind, versions, j)
  {
    if versions != [] {
      var rest := versions[1..];
      VersionsPanicExactly(lib, template, kind, rest);
      assert CheckVersion(lib, template, kind, versions[0]).Valid? <==> Accepted(lib, template, kind, versions[0]);
      if versions[0].schema.None? {
        assert FaultAt(lib, template, kind, versions, 0);
      } else if Accepted(lib, template, kind, versions[0]) {
        if j :| 0 <= j < |rest| && FaultAt(lib, template, kind, rest, j) {
          assert forall k :: 1 <= k < j + 1 ==> versions[k] == rest[k - 1];
          assert FaultAt(lib, template, kind, versions, j + 1);
        }
        if j :| 0 <= j < |versions| && FaultAt(lib, template, kind, versions, j) {
          assert j > 0 && forall k :: 0 <= k < j - 1 ==> rest[k] == versions[k + 1];
          assert FaultAt(lib, template, kind, rest, j - 1);
        }
      }
    }
  }

  /** The object at i has a version that panics, and every object before it is valid. */
  predicate FaultyAt(lib: Lib, template: map<string, Json>, objects: seq<Object>, i: nat) {
    && i < |objects|
    && (exists j :: 0 <= j < |objects[i].versions|
          && FaultAt(lib, template, objects[i].crdKind, objects[i].versions, j))
    && forall h, v :: 0 <= h < i && v in objects[h].versions ==> Accepted(lib, template, objects[h].crdKind, v)
  }

  lemma {:induction false} ObjectsPanicExactly(lib: Lib, template: map<string, Json>, objects: seq<Object>)
    ensures CheckObjects(lib, template, objects, None).Panics?
       <==> exists i :: 0 <= i < |objects| && FaultyAt(lib, template, objects, i)
  {
    if objects != [] {
      var head, rest := objects[0], objects[1..];
      ObjectsPanicExactly(lib, template, rest);
      VersionsPanicExactly(lib, template, head.crdKind, head.versions);
      VersionsValidExactly(lib, template, head.crdKind, head.versions);
      if CheckVersions(lib, template, head.crdKind, head.versions).Panics? {
        assert FaultyAt(lib, template, objects, 0);
      }
      if CheckVersions(lib, template, head.crdKind, head.versions).Valid? {
        if i :| 0 <= i < |rest| && FaultyAt(lib, template, rest, i) {
          assert objects[i + 1] == rest[i] && forall h :: 1 <= h < i + 1 ==> objects[h] == rest[h - 1];
          assert FaultyAt(lib, template, objects, i + 1);
        }
      }
      if i :| 0 <= i < |objects| && FaultyAt(lib, template, objects, i) {
        if i > 0 {
          assert objects[i] == rest[i - 1] && forall h :: 0 <= h < i - 1 ==> rest[h] == objects[h + 1];
          assert FaultyAt(lib, template, rest, i - 1);
        }
      }
    }
  }

  /**
   Validation panics exactly when there is a template, and some version without a schema field is
   reached: all versions before it, in its object and in the objects before, are accepted.
   */
  lemma PanicsExactly(lib: Lib, template: Option<map<string, Json>>, objects: seq<Object>)
    ensures Validate(lib, template, objects, None).Panics?
       <==> template.Some? && exists i :: 0 <= i < |objects| && FaultyAt(lib, template.value, objects, i)
  {
    if template.Some? {
      ObjectsPanicExactly(lib, template.value, objects);
    }
  }

  lemma {:induction false} ObjectFailureInvalidates(lib: Lib, template: map<string, Json>, objects: seq<Object>, k: nat)
    ensures CheckObjects(lib, template, objects, Some(k))
         == if k >= |objects| then CheckObjects(lib, template, objects, None)
            else if CheckObjects(lib, template, objects[..k], None).Valid? then Invalid
            else CheckObjects(lib, template, objects[..k], None)
  {
    if objects != [] && k > 0 {
      ObjectFailureInvalidates(lib, template, objects[1..], k - 1);
      if k <= |objects| {
        assert objects[..k][1..] == objects[1..][..k - 1];
      }
    }
  }

  /**
   An object that cannot be marshalled or decoded makes the batch invalid, unless an object before it has
   already decided; one past the end of the batch plays no part, and without a template none does.
   */
  lemma FailureInvalidates(lib: Lib, template: Option<map<string, Json>>, objects: seq<Object>, k: nat)
    ensures Validate(lib, template, objects, Some(k))
         == if template.None? || k >= |objects| then Validate(lib, template, objects, None)
            else if Validate(lib, template, objects[..k], None).Valid? then Invalid
            else Validate(lib, template, objects[..k], None)
  {
    if template.Some? {
      ObjectFailureInvalidates(lib, template.value, objects, k);
    }
  }
}
