/** No schema-bearing version of an installed CRD is lost while breaking changes are enforced. */
module VersionSafety {
  import opened Basics
  import opened Api
  import opened Libraries
  import opened Detector
  import opened Gate
  import opened Machine

  /** A reconcile that writes to this target does not ignore breaking changes. */
  predicate Enforcing(s: State, target: Target) {
    s.run.Applying? && TargetOf(s.run.ctx.obj.spec) == target ==> !s.run.ctx.obj.spec.ignoreBreakingChanges
  }

  /**
   What the gate, which looks at the local cluster only, can know of this CRD: it carries no
   schema-bearing version, or the local CRD of the same name carries all of them.
   */
  predicate Mirrored(cluster: Cluster, k: CrdKey) {
    k in cluster && SchemaNames(cluster[k].versions) != {} ==>
      var twin := CrdKey(Local, k.name);
      twin in cluster && SchemaNames(cluster[k].versions) <= SchemaNames(cluster[twin].versions)
  }

  /** Breaking changes are enforced for the target of k, and k is mirrored when a batch for its target is judged. */
  predicate Watched(s: State, k: CrdKey) {
    && Enforcing(s, k.target)
    && (s.run.Judging? && TargetOf(s.run.ctx.obj.spec) == k.target ==> Mirrored(s.cluster, k))
  }

  /** k carries these versions, and so does whatever is about to be written over it. */
  predicate Keeps(s: State, k: CrdKey, names: set<string>) {
    && k in s.cluster && names <= SchemaNames(s.cluster[k].versions)
    && (s.run.Applying? && TargetOf(s.run.ctx.obj.spec) == k.target ==>
          forall o :: o in s.run.pending && o.name == k.name ==> names <= SchemaNames(o.versions))
  }

  lemma CleanBatchKeepsMirrored(lib: Lib, cluster: Cluster, objects: seq<Object>, d: Option<nat>, k: CrdKey, o: Object)
    requires DetectAll(lib, cluster, objects, d) == Some([]) && o in objects && o.name == k.name
    requires k in cluster && Mirrored(cluster, k)
    ensures SchemaNames(cluster[k].versions) <= SchemaNames(o.versions)
  {
    if SchemaNames(cluster[k].versions) != {} {
      CleanBatchKeepsVersions(lib, cluster, objects, d, o);
    }
  }

  lemma JudgeKeeps(setup: Setup, s: State, d: Option<nat>, v: Option<nat>, k: CrdKey, names: set<string>)
    requires s.run.Judging? && Keeps(s, k, names) && Watched(s, k) && Enforcing(JudgeStep(setup, s, d, v), k.target)
    ensures Keeps(JudgeStep(setup, s, d, v), k, names)
  {
    var objects := s.run.batch.objects;
    var detected := DetectAll(setup.lib, s.cluster, objects, d);
    var verdict := Validate(setup.lib, s.run.ctx.obj.spec.template, objects, v);
    var next := Ruling(s.run.ctx, s.run.batch, detected, verdict);
    if next.Applying? && TargetOf(next.ctx.obj.spec) == k.target {
      assert detected == Some([]);
      forall o | o in objects && o.name == k.name ensures names <= SchemaNames(o.versions) {
        CleanBatchKeepsMirrored(setup.lib, s.cluster, objects, d, k, o);
      }
    }
  }

  lemma ApplyOneKeeps(s: State, index: nat, k: CrdKey, names: set<string>)
    requires s.run.Applying? && Keeps(s, k, names)
    ensures Keeps(ApplyOneStep(s, index), k, names)
  {
    if index < |s.run.pending| {
      assert forall o :: o in Without(s.run.pending, index) ==> o in s.run.pending;
    }
  }

  lemma StepKeeps(setup: Setup, s: State, c: Choice, k: CrdKey, names: set<string>)
    requires Keeps(s, k, names) && Watched(s, k)
    requires k in Step(setup, s, c).cluster && Watched(Step(setup, s, c), k)
    ensures Keeps(Step(setup, s, c), k, names)
  {
    match c
    case Judge(d, v) => if s.run.Judging? { JudgeKeeps(setup, s, d, v, k, names); }
    case ApplyOne(index) => if s.run.Applying? { ApplyOneKeeps(s, index, k, names); }
    case Outside(move) => OutsideKeepsRun(s, move);
    case Check(reach, pick) => if s.run.Checking? { CheckFrame(setup, s, reach, pick); }
    case Fetch(temp, reach) => if s.run.Fetching? { FetchFrame(setup, s, temp, reach); }
    case Read(manager, readable) => if s.run.Reading? { ReadFrame(setup, s, manager, readable); }
    case ApplyEnd(ok, ready) =>
    case _ =>
  }

  lemma {:induction false} ExecKeeps(setup: Setup, s: State, cs: seq<Choice>, k: CrdKey, names: set<string>)
    requires Keeps(s, k, names)
    requires forall i :: 0 <= i <= |cs| ==> k in At(setup, s, cs, i).cluster && Watched(At(setup, s, cs, i), k)
    ensures Keeps(Exec(setup, s, cs), k, names)
  {
    assert cs[..|cs|] == cs;
    if cs != [] {
      var front := cs[..|cs| - 1];
      assert forall i :: 0 <= i <= |front| ==> front[..i] == cs[..i];
      assert forall i :: 0 <= i <= |front| ==> At(setup, s, front, i) == At(setup, s, cs, i);
      ExecKeeps(setup, s, front, k, names);
      assert Exec(setup, s, front) == At(setup, s, cs, |front|);
      assert Exec(setup, s, cs) == At(setup, s, cs, |cs|);
      StepKeeps(setup, Exec(setup, s, front), cs[|cs| - 1], k, names);
    }
  }

  /**
   Over every run, in whatever cluster: an installed CRD that is not pruned keeps every schema-bearing
   version name, as long as breaking changes are enforced for its target, and it is mirrored in the
   local cluster whenever a batch for its target is judged.
   */
  lemma MirroredVersionsNeverShrink(setup: Setup, s: State, cs: seq<Choice>, k: CrdKey)
    requires !s.run.Applying? && k in s.cluster
    requires forall i :: 0 <= i <= |cs| ==> k in At(setup, s, cs, i).cluster && Watched(At(setup, s, cs, i), k)
    ensures k in Exec(setup, s, cs).cluster
    ensures SchemaNames(s.cluster[k].versions) <= SchemaNames(Exec(setup, s, cs).cluster[k].versions)
  {
    ExecKeeps(setup, s, cs, k, SchemaNames(s.cluster[k].versions));
  }

  /**
   Over every run, by any number of Bootstraps that share CRD names, with failures at any step and
   applies that stop half-way: from any state in which no apply is under way to any later state, an
   installed local CRD keeps every schema-bearing version name, as long as it is not pruned in
   between and no reconcile that ignores breaking changes writes to the local cluster.
   */
  lemma VersionsNeverShrink(setup: Setup, s: State, cs: seq<Choice>, k: CrdKey)
    requires !s.run.Applying? && k.target.Local? && k in s.cluster
    requires forall i :: 0 <= i <= |cs| ==> k in At(setup, s, cs, i).cluster && Enforcing(At(setup, s, cs, i), Local)
    ensures k in Exec(setup, s, cs).cluster
    ensures SchemaNames(s.cluster[k].versions) <= SchemaNames(Exec(setup, s, cs).cluster[k].versions)
  {
    assert forall cluster :: Mirrored(cluster, k);
    MirroredVersionsNeverShrink(setup, s, cs, k);
  }

  // ------------------------------------------------ instants within one apply

  /** Objects of one name agree on their schema-bearing version names. */
  predicate TwinsAgree(objects: seq<Object>) {
    forall p, q :: p in objects && q in objects && p.name == q.name ==>
      SchemaNames(p.versions) == SchemaNames(q.versions)
  }

  /** Every pending object covers what it would overwrite. */
  predicate Covers(s: State)
    requires s.run.Applying?
  {
    forall o :: o in s.run.pending ==>
      var at := CrdKey(TargetOf(s.run.ctx.obj.spec), o.name);
      at in s.cluster ==> SchemaNames(s.cluster[at].versions) <= SchemaNames(o.versions)
  }

  predicate ShrinksAt(a: State, b: State, k: CrdKey) {
    k in a.cluster && k in b.cluster && !(SchemaNames(a.cluster[k].versions) <= SchemaNames(b.cluster[k].versions))
  }

  predicate Writes(cs: seq<Choice>) { forall c :: c in cs ==> c.ApplyOne? }

  /** Whatever the order in which the pending objects are written, no single write loses a version. */
  ghost predicate EveryWriteSafe(setup: Setup, s: State) {
    forall cs, index: nat, k :: Writes(cs) ==> !ShrinksAt(Exec(setup, s, cs), Exec(setup, s, cs + [ApplyOne(index)]), k)
  }

  lemma WriteIsSafe(s: State, index: nat, k: CrdKey)
    requires s.run.Applying? && Covers(s) && TwinsAgree(s.run.pending)
    ensures !ShrinksAt(s, ApplyOneStep(s, index), k)
    ensures Covers(ApplyOneStep(s, index)) && TwinsAgree(ApplyOneStep(s, index).run.pending)
  {
    if index < |s.run.pending| {
      assert s.run.pending[index] in s.run.pending;
      assert forall o :: o in Without(s.run.pending, index) ==> o in s.run.pending;
    }
  }

  lemma {:induction false} WritesKeepAgreement(setup: Setup, s: State, cs: seq<Choice>)
    requires s.run.Applying? && Covers(s) && TwinsAgree(s.run.pending) && Writes(cs)
    ensures var t := Exec(setup, s, cs); t.run.Applying? && Covers(t) && TwinsAgree(t.run.pending)
  {
    if cs != [] {
      var front, last := cs[..|cs| - 1], cs[|cs| - 1];
      assert last in cs && forall c :: c in front ==> c in cs;
      WritesKeepAgreement(setup, s, front);
      WriteIsSafe(Exec(setup, s, front), last.index, CrdKey(Local, ""));
    }
  }

  /** Writing p and then q of the same name loses whatever p has and q lacks. */
  lemma TwoWrites(setup: Setup, s: State, i: nat, j: nat)
    requires s.run.Applying? && i < |s.run.pending| && j < |s.run.pending| && i != j
    requires s.run.pending[i].name == s.run.pending[j].name
    requires !(SchemaNames(s.run.pending[i].versions) <= SchemaNames(s.run.pending[j].versions))
    ensures !EveryWriteSafe(setup, s)
  {
    var cs := [ApplyOne(i)];
    var second := if j < i then j else j - 1;
    ExecSnoc(setup, s, [], ApplyOne(i));
    assert [] + cs == cs;
    ExecSnoc(setup, s, cs, ApplyOne(second));
    var a := Exec(setup, s, cs);
    assert a.run.pending[second] == s.run.pending[j];
    var k := CrdKey(TargetOf(s.run.ctx.obj.spec), s.run.pending[i].name);
    assert ShrinksAt(a, Exec(setup, s, cs + [ApplyOne(second)]), k);
    assert Writes(cs);
  }

  /**
   A batch that covers the cluster can be written in every order, stopped anywhere, without ever
   losing a version even for an instant, exactly when its objects of the same name agree on their
   versions. A manifest that lists one CRD twice with different versions does lose some.
   */
  lemma InstantSafetyExactly(setup: Setup, s: State)
    requires s.run.Applying? && Covers(s)
    ensures EveryWriteSafe(setup, s) <==> TwinsAgree(s.run.pending)
  {
    if TwinsAgree(s.run.pending) {
      forall cs, index: nat, k | Writes(cs)
        ensures !ShrinksAt(Exec(setup, s, cs), Exec(setup, s, cs + [ApplyOne(index)]), k)
      {
        WritesKeepAgreement(setup, s, cs);
        ExecSnoc(setup, s, cs, ApplyOne(index));
        WriteIsSafe(Exec(setup, s, cs), index, k);
      }
    } else {
      var p, q :| p in s.run.pending && q in s.run.pending && p.name == q.name
        && SchemaNames(p.versions) != SchemaNames(q.versions);
      var i :| 0 <= i < |s.run.pending| && s.run.pending[i] == p;
      var j :| 0 <= j < |s.run.pending| && s.run.pending[j] == q;
      if SchemaNames(p.versions) <= SchemaNames(q.versions) {
        TwoWrites(setup, s, j, i);
      } else {
        TwoWrites(setup, s, i, j);
      }
    }
  }

  /** A batch that enforcement lets through to the local cluster covers it. */
  lemma EnforcedBatchCovers(setup: Setup, s: State, d: Option<nat>, v: Option<nat>)
    requires s.run.Judging? && Enforcing(JudgeStep(setup, s, d, v), Local)
    requires JudgeStep(setup, s, d, v).run.Applying? && TargetOf(s.run.ctx.obj.spec).Local?
    ensures Covers(JudgeStep(setup, s, d, v))
  {
    var objects := s.run.batch.objects;
    forall o | o in objects && CrdKey(Local, o.name) in s.cluster
      ensures SchemaNames(s.cluster[CrdKey(Local, o.name)].versions) <= SchemaNames(o.versions)
    {
      CleanBatchKeepsVersions(setup.lib, s.cluster, objects, d, o);
    }
  }

  // -------------------------------------------------------- remote clusters

  /** What the gates decide does not depend on any remote cluster. */
  lemma RemoteClusterIsNotJudged(setup: Setup, s: State, remote: Cluster, d: Option<nat>, v: Option<nat>)
    requires s.run.Judging?
    requires forall k :: k in s.cluster && k.target.Local? ==> k in remote && remote[k] == s.cluster[k]
    requires forall k :: k in remote && k.target.Local? ==> k in s.cluster
    ensures JudgeStep(setup, s.(cluster := remote), d, v).run == JudgeStep(setup, s, d, v).run
  {
    DetectionIsLocal(setup.lib, s.cluster, remote, s.run.batch.objects, d);
  }

  /** Every batch that is found clean carries the versions of k, wherever it names k. */
  ghost predicate GateProtects(lib: Lib, cluster: Cluster, k: CrdKey)
    requires k in cluster
  {
    forall objects: seq<Object>, o: Object ::
      DetectAll(lib, cluster, objects, None) == Some([]) && o in objects && o.name == k.name ==>
      SchemaNames(cluster[k].versions) <= SchemaNames(o.versions)
  }

  lemma CleanBatchThatLoses(lib: Lib, cluster: Cluster, k: CrdKey, o: Object)
    requires k in cluster && o.name == k.name && Clean(lib, cluster, o)
    requires !(SchemaNames(cluster[k].versions) <= SchemaNames(o.versions))
    ensures !GateProtects(lib, cluster, k)
  {
    BatchIsCleanExactly(lib, cluster, [o], None);
    assert o in [o];
  }

  /**
   When exactly enforcing breaking changes protects a CRD, of whatever cluster, from every batch: when
   it is mirrored. For a local CRD that is always so; a remote one that the local cluster lacks, or has
   with fewer versions, is open to a batch that the gate finds clean. The API server keeps the version
   names of a CRD distinct.
   */
  lemma GateProtectsExactly(lib: Lib, cluster: Cluster, k: CrdKey)
    requires k in cluster
    requires var twin := CrdKey(Local, k.name); twin in cluster ==> DistinctNames(cluster[twin].versions)
    ensures GateProtects(lib, cluster, k) <==> Mirrored(cluster, k)
  {
    var twin := CrdKey(Local, k.name);
    if Mirrored(cluster, k) {
      forall objects: seq<Object>, o: Object
        | DetectAll(lib, cluster, objects, None) == Some([]) && o in objects && o.name == k.name
        ensures SchemaNames(cluster[k].versions) <= SchemaNames(o.versions)
      {
        CleanBatchKeepsMirrored(lib, cluster, objects, None, k, o);
      }
    } else if twin in cluster {
      SelfComparisonIsClean(lib, cluster[twin].versions);
      CleanBatchThatLoses(lib, cluster, k, Object(CRD_KIND, k.name, map[], "", cluster[twin].versions));
    } else {
      CleanBatchThatLoses(lib, cluster, k, Object(CRD_KIND, k.name, map[], "", []));
    }
  }
}
