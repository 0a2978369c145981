/**
 The promises that the code does not keep, each broken by one run from a fresh start. The general
 conditions are in the other modules; here are inputs that meet them.
 */
module Scenarios {
  import opened Basics
  import opened Api
  import opened Libraries
  import opened Semver
  import opened Detector
  import opened Gate
  import opened Manifest
  import opened Sources
  import opened Machine
  import opened Progress
  import Counters
  import Ownership
  import Quiescence
  import Reachable
  import RollForward
  import VersionSafety

  // ------------------------------------------------- one delivery, in general

  /** The single CRD is not installed or compares clean, and nothing is templated. */
  predicate Passes(setup: Setup, s: State, key: Key, o: Object)
    requires key in s.store
  {
    && s.store[key].spec.template.None?
    && DetectAll(setup.lib, s.cluster, LabelAll([o], key.name), None) == Some([])
  }

  /** What is stored after a delivery of one CRD whose patch lands. */
  function Stored(b: Bootstrap, revision: string, name: string, ok: bool): Bootstrap {
    var counted := BumpAll(b.status.counters, [name]);
    b.(finalizer := true,
       status := if ok then Status(ReadyTrue, counted, revision, revision, [])
                 else Status(ReadyFalse(ApplyingCRDSFailed), Aliased(b.status.counters, counted), revision,
                             b.status.applied, []))
  }

  function FromGates(ok: bool, patch: bool): seq<Choice> {
    [Judge(None, None), ApplyOne(0), ApplyEnd(ok, true), Patch(patch)]
  }

  function WholeReconcile(key: Key, ok: bool, patch: bool): seq<Choice> {
    Opens(key, "") + FromGates(ok, patch)
  }

  function InstalledBy(key: Key, o: Object): Installed { Installed(map[OWNER_LABEL := key.name], o.versions) }

  /** What the part of a reconcile from the gates on does, that applies one CRD. */
  lemma DeliversFromGates(setup: Setup, s: State, key: Key, revision: string, content: string, o: Object, ok: bool,
                          patch: bool)
    requires key in s.store && !s.store[key].deleting && Passes(setup, s, key, o)
    ensures var t := Exec(setup, s.(run := ReadRun(key, s.store[key], revision, content, [o])), FromGates(ok, patch));
      var b := s.store[key];
      var at := CrdKey(TargetOf(b.spec), o.name);
      && t.run.Idle? && t.upstream == s.upstream && t.cluster == s.cluster[at := InstalledBy(key, o)]
      && t.store == (if patch then s.store[key := Stored(b, revision, o.name, ok)] else s.store)
      && t.history.writer == s.history.writer[at := key]
      && RecordsOf(t.history, key) == RecordsOf(s.history, key) + [Record([o.name], ok, patch)]
  {
    var b, labelled := s.store[key], LabelAll([o], key.name);
    assert labelled == [Labelled(o, key.name)];
    assert Names(labelled) == [o.name];
    var s4 := s.(run := ReadRun(key, b, revision, content, [o]));
    ExecFour(setup, s4, Judge(None, None), ApplyOne(0), ApplyEnd(ok, true), Patch(patch));
    var s5 := Step(setup, s4, Judge(None, None));
    LetsThrough(setup, s4);
    var s6 := Step(setup, s5, ApplyOne(0));
    WritesTheOne(setup, s5, o, key);
    var s7 := Step(setup, s6, ApplyEnd(ok, true));
    EndsLike(setup, s6, ok);
    EndsWith(setup, s7, key, b, revision, o.name, ok, patch);
  }

  /** A whole reconcile that applies one CRD, and then fails or not, and whose patch lands or not. */
  lemma Delivers(setup: Setup, s: State, key: Key, revision: string, content: string, o: Object, ok: bool, patch: bool)
    requires Served(setup, s, key, "", revision, content, [o]) && Passes(setup, s, key, o)
    ensures var t, b := Exec(setup, s, WholeReconcile(key, ok, patch)), s.store[key];
      var at := CrdKey(TargetOf(b.spec), o.name);
      && t.run.Idle? && t.upstream == s.upstream && t.cluster == s.cluster[at := InstalledBy(key, o)]
      && t.store == (if patch then s.store[key := Stored(b, revision, o.name, ok)] else s.store)
      && t.history.writer == s.history.writer[at := key]
      && RecordsOf(t.history, key) == RecordsOf(s.history, key) + [Record([o.name], ok, patch)]
  {
    OpensToJudging(setup, s, key, "", revision, content, [o]);
    ExecConcat(setup, s, Opens(key, ""), FromGates(ok, patch));
    DeliversFromGates(setup, s, key, revision, content, o, ok, patch);
  }

  /** The same for a Bootstrap that is alone in the store, with an empty history. */
  lemma DeliversAlone(setup: Setup, s: State, key: Key, b: Bootstrap, o: Object)
    requires s.store == map[key := b] && s.history == History(map[], {}, {}, map[])
    requires Served(setup, s, key, "", "1", "c", [o]) && Passes(setup, s, key, o)
    ensures var t := Exec(setup, s, WholeReconcile(key, true, true));
      var at := CrdKey(TargetOf(b.spec), o.name);
      && t.run.Idle? && t.store == map[key := Stored(b, "1", o.name, true)]
      && t.cluster == s.cluster[at := InstalledBy(key, o)] && t.history.writer == map[at := key]
  {
    Delivers(setup, s, key, "1", "c", o, true, true);
  }

  lemma LetsThrough(setup: Setup, s: State)
    requires s.run.Judging? && s.run.ctx.obj.spec.template.None?
    requires DetectAll(setup.lib, s.cluster, s.run.batch.objects, None) == Some([])
    ensures var c := s.run.ctx;
      Step(setup, s, Judge(None, None))
      == s.(run := Applying(c.(obj := c.obj.(status := c.obj.status.(breaking := []))),
                            s.run.batch, s.run.batch.objects))
  {
  }

  lemma EndsLike(setup: Setup, s: State, ok: bool)
    requires s.run.Applying? && s.run.pending == []
    ensures Step(setup, s, ApplyEnd(ok, true)) == s.(run := Ending(s.run.ctx, s.run.batch, ok, true))
  {
  }

  lemma WritesTheOne(setup: Setup, s: State, o: Object, key: Key)
    requires s.run.Applying? && s.run.pending == [Labelled(o, key.name)] && s.run.ctx.key == key
    ensures var t, at := Step(setup, s, ApplyOne(0)), CrdKey(TargetOf(s.run.ctx.obj.spec), o.name);
      && t.run == s.run.(pending := []) && t.store == s.store && t.upstream == s.upstream
      && t.cluster == s.cluster[at := InstalledBy(key, o)] && t.history.writer == s.history.writer[at := key]
      && t.history.records == s.history.records
  {
    assert Without(s.run.pending, 0) == [];
  }

  lemma EndsWith(setup: Setup, s: State, key: Key, b: Bootstrap, revision: string, name: string, ok: bool, patch: bool)
    requires s.run.Finishing? && s.run.ctx.key == key && s.run.ctx.before == b
    requires key in s.store && s.store[key] == b && !b.deleting
    requires s.run.ctx.obj == Stored(b, revision, name, ok)
    requires NewRecords(s.run.ended, patch) == [Record([name], ok, patch)]
    ensures var t := Step(setup, s, Patch(patch));
      && t.run.Idle? && t.upstream == s.upstream && t.cluster == s.cluster && t.history.writer == s.history.writer
      && t.store == (if patch then s.store[key := Stored(b, revision, name, ok)] else s.store)
      && RecordsOf(t.history, key) == RecordsOf(s.history, key) + [Record([name], ok, patch)]
  {
    if patch {
      MergeWritesObject(s, s.run.ctx);
    }
  }

  // -------------------------------------------------------- the fresh starts

  const KEY := Key("here", "sample")
  const NAMESAKE := Key("there", "sample")
  const CONFIG := Key("here", "crds")
  const SCHEMA := Some(Validation(Some("object")))

  function ParseDigit(s: string): Option<Version> {
    if s == "1" then Some(Version(1, 0, 0, [], "")) else if s == "2" then Some(Version(2, 0, 0, [], "")) else None
  }

  /** Libraries that accept everything but one schema, over this table of documents. */
  function LibOf(table: string -> Option<seq<Object>>): Lib {
    Lib(ParseDigit, s => Some(v => true), (a, b) => NoReport, s => s, s => s, table,
        s => if s == Some("broken") then None else Some(j => true))
  }

  function SetupOf(table: string -> Option<seq<Object>>): Setup { Setup(LibOf(table), MANAGER_CHAIN) }

  function Crd(versions: seq<CrdVersion>): Object { Object(CRD_KIND, "crd", map[], "Kind", versions) }

  const CRD_AT := CrdKey(Local, "crd")

  const FROM_CONFIG := SourceSpec(None, None, None, Some(CONFIG), None)

  function SpecOf(template: Option<map<string, Json>>, prune: bool): Spec {
    Spec(FROM_CONFIG, "", "", template, false, prune, false, None)
  }

  const NOTHING := Upstream(map[], map[], map[], map[], map[], map[], map[], map[], map[])

  function Config(revision: string, content: string): Upstream {
    NOTHING.(configMaps := map[CONFIG := map[VERSION_KEY := revision, CRD_KEY := content]])
  }

  function NewBootstrap(spec: Spec): Bootstrap { Bootstrap(spec, EMPTY_STATUS, false, false, false) }

  function Fresh(store: map<Key, Bootstrap>, cluster: Cluster, up: Upstream): State {
    State(store, cluster, up, Idle, History(map[], {}, {}, map[]))
  }

  /** A text of one character is one document. */
  lemma ReadsOne(lib: Lib, c: string, objects: seq<Object>)
    requires |c| == 1 && c != "\n" && lib.parseDocument(c) == Some(objects)
    requires forall o :: o in objects ==> o.kind == CRD_KIND
    ensures Crds(lib, c) == Some(objects)
  {
    BodyStep(c);
    assert LineLength(c) == 1 && c[..1] == c && c[1..] == "";
    assert Body(c) == c + Body("") == c + "" == c;
    assert c[|c|..] == "";
    assert Documents(c) == [c] + Marked("") == [c];
    assert [c][1..] == [];
    assert Decode(lib, [c]) == Some(objects + []);
    assert objects + [] == objects;
    KeepsAll(objects);
  }

  lemma {:induction false} KeepsAll(objects: seq<Object>)
    requires forall o :: o in objects ==> o.kind == CRD_KIND
    ensures KeepCrds(objects) == objects
  {
    if objects != [] {
      var front, last := objects[..|objects| - 1], objects[|objects| - 1];
      assert objects == front + [last];
      assert last in objects && forall o :: o in front ==> o in objects;
      KeepsAll(front);
      assert KeepCrds(objects) == KeepCrds(front) + [last];
    }
  }

  /** A ConfigMap with a first or a second version of one document is served. */
  lemma ConfigIsServed(table: string -> Option<seq<Object>>, s: State, key: Key, revision: string, content: string,
                       objects: seq<Object>)
    requires s.run.Idle? && key in s.store && !s.store[key].deleting && s.upstream == Config(revision, content)
    requires s.store[key].spec.source == FROM_CONFIG
    requires || (revision == "1" && s.store[key].status.applied == "")
             || (revision == "2" && s.store[key].status.applied in {"", "1"})
    requires |content| == 1 && content != "\n" && table(content) == Some(objects)
    requires forall o :: o in objects ==> o.kind == CRD_KIND
    ensures Served(SetupOf(table), s, key, "", revision, content, objects)
  {
    var setup, spec := SetupOf(table), s.store[key].spec;
    ReadsOne(setup.lib, content, objects);
    assert Handles(ConfigMap, spec.source) && !Handles(Helm, spec.source);
    assert forall j :: Rank(j) < Rank(ConfigMap) ==> j == Helm;
    ManagerServesFirst(setup.lib, s.upstream, spec, s.store[key].status.applied, Reached, "", revision);
  }

  // ----------------------------------------------------------- the counters

  function PlainTable(d: string): Option<seq<Object>> { if d == "c" then Some([Crd([])]) else None }

  const ONE := Fresh(map[KEY := NewBootstrap(SpecOf(None, false))], map[], Config("1", "c"))

  lemma PlainPasses(s: State, key: Key)
    requires key in s.store && s.store[key].spec.template.None?
    requires CRD_AT in s.cluster ==> s.cluster[CRD_AT].versions == []
    ensures Passes(SetupOf(PlainTable), s, key, Crd([]))
  {
    var lib, labelled := LibOf(PlainTable), LabelAll([Crd([])], key.name);
    assert labelled == [Labelled(Crd([]), key.name)];
    if CRD_AT in s.cluster {
      DetectsNothingExactly(lib, [], []);
    }
    forall o | o in labelled ensures Clean(lib, s.cluster, o) {
    }
    BatchIsCleanExactly(lib, s.cluster, labelled, None);
  }

  const ONCE := Stored(NewBootstrap(SpecOf(None, false)), "1", "crd", true)

  lemma BumpedTwice()
    ensures BumpAll(map[], ["crd"]) == map["crd" := 1] && BumpAll(map["crd" := 1], ["crd"]) == map["crd" := 2]
  {
    assert ["crd"][..0] == [];
  }

  /** A Bootstrap with the ConfigMap and nothing else about it. */
  predicate Newcomer(s: State) {
    && s.run.Idle? && KEY in s.store && s.store[KEY] == NewBootstrap(SpecOf(None, false))
    && s.cluster == map[] && s.upstream == Config("1", "c") && s.history == History(map[], {}, {}, map[])
  }

  lemma NewcomerIsServed(s: State)
    requires Newcomer(s)
    ensures Served(SetupOf(PlainTable), s, KEY, "", "1", "c", [Crd([])]) && Passes(SetupOf(PlainTable), s, KEY, Crd([]))
  {
    ConfigIsServed(PlainTable, s, KEY, "1", "c", [Crd([])]);
    PlainPasses(s, KEY);
  }

  lemma FirstDelivery(s: State, patch: bool)
    requires Newcomer(s)
    ensures var t := Exec(SetupOf(PlainTable), s, WholeReconcile(KEY, true, patch));
      && t.run.Idle? && t.upstream == s.upstream && t.cluster == map[CRD_AT := InstalledBy(KEY, Crd([]))]
      && t.store == (if patch then s.store[KEY := ONCE] else s.store)
      && CRD_AT in t.history.writer && t.history.writer[CRD_AT] == KEY
      && RecordsOf(t.history, KEY) == [Record(["crd"], true, patch)]
  {
    NewcomerIsServed(s);
    Delivers(SetupOf(PlainTable), s, KEY, "1", "c", Crd([]), true, patch);
  }

  /** A success whose patch is lost is applied, but not counted. */
  lemma CounterFallsShort()
    ensures Reachable.Beginning(ONE)
    ensures var t := Exec(SetupOf(PlainTable), ONE, WholeReconcile(KEY, true, false));
      && CRD_AT in t.cluster && Counters.Applied(RecordsOf(t.history, KEY), "crd") == 1
      && KEY in t.store && Count(t.store[KEY].status.counters, "crd") == 0
  {
    FirstDelivery(ONE, false);
    AppliedOnce([], Record(["crd"], true, false));
  }

  lemma AppliedOnce(records: seq<Record>, r: Record)
    requires r.names == ["crd"]
    ensures Counters.Applied(records + [r], "crd") == Counters.Applied(records, "crd") + (if r.done then 1 else 0)
  {
    assert (records + [r])[..|records|] == records;
    assert Occurrences(["crd"], "crd") == 1;
  }

  lemma SecondIsServed(s: State)
    requires s.run.Idle? && s.store == map[KEY := ONCE] && s.upstream == Config("2", "c")
    requires ONCE.status == Status(ReadyTrue, map["crd" := 1], "1", "1", [])
    requires CRD_AT in s.cluster && s.cluster[CRD_AT].versions == []
    ensures Served(SetupOf(PlainTable), s, KEY, "", "2", "c", [Crd([])]) && Passes(SetupOf(PlainTable), s, KEY, Crd([]))
  {
    ConfigIsServed(PlainTable, s, KEY, "2", "c", [Crd([])]);
    PlainPasses(s, KEY);
  }

  lemma SecondCounts(s: State)
    requires s.run.Idle? && s.store == map[KEY := ONCE] && s.upstream == Config("2", "c")
    requires ONCE.status == Status(ReadyTrue, map["crd" := 1], "1", "1", [])
    requires CRD_AT in s.cluster && s.cluster[CRD_AT].versions == []
    requires RecordsOf(s.history, KEY) == [Record(["crd"], true, true)]
    ensures var t := Exec(SetupOf(PlainTable), s, WholeReconcile(KEY, false, true));
      && RecordsOf(t.history, KEY) == [Record(["crd"], true, true), Record(["crd"], false, true)]
      && KEY in t.store && t.store[KEY].status.counters == map["crd" := 2]
  {
    SecondIsServed(s);
    Delivers(SetupOf(PlainTable), s, KEY, "2", "c", Crd([]), false, true);
    BumpedTwice();
  }

  /** A failure after a success is counted like one. */
  lemma CounterExceeds()
    ensures Reachable.Beginning(ONE)
    ensures var first, second := WholeReconcile(KEY, true, true), WholeReconcile(KEY, false, true);
      var cs := first + [Outside(Publish(Config("2", "c")))] + second;
      var t := Exec(SetupOf(PlainTable), ONE, cs);
      && Counters.Applied(RecordsOf(t.history, KEY), "crd") == 1
      && KEY in t.store && Count(t.store[KEY].status.counters, "crd") == 2
  {
    var setup, publish := SetupOf(PlainTable), Outside(Publish(Config("2", "c")));
    var first, second := WholeReconcile(KEY, true, true), WholeReconcile(KEY, false, true);
    FirstDelivery(ONE, true);
    BumpedTwice();
    ExecSnoc(setup, ONE, first, publish);
    ExecConcat(setup, ONE, first + [publish], second);
    SecondCounts(Exec(setup, ONE, first + [publish]));
    AppliedOnceOfTwo();
  }

  lemma AppliedOnceOfTwo()
    ensures Counters.Applied([Record(["crd"], true, true), Record(["crd"], false, true)], "crd") == 1
  {
    AppliedOnce([], Record(["crd"], true, true));
    AppliedOnce([Record(["crd"], true, true)], Record(["crd"], false, true));
    assert [Record(["crd"], true, true)] + [Record(["crd"], false, true)]
        == [Record(["crd"], true, true), Record(["crd"], false, true)];
  }

  // ------------------------------------------------------------- the orphan

  lemma OneGetsThrough()
    ensures var t := Exec(SetupOf(PlainTable), ONE, Opens(KEY, "") + [Judge(None, None)]);
      t.run.Applying? && t.run.pending == LabelAll([Crd([])], KEY.name) && t.run.ctx.key == KEY
      && t.run.ctx.obj.spec == SpecOf(None, false) && t.store == ONE.store
  {
    var setup := SetupOf(PlainTable);
    NewcomerIsServed(ONE);
    OpensToJudging(setup, ONE, KEY, "", "1", "c", [Crd([])]);
    ExecSnoc(setup, ONE, Opens(KEY, ""), Judge(None, None));
    LetsThrough(setup, Exec(setup, ONE, Opens(KEY, "")));
  }

  function DeletedEarly(): seq<Choice> {
    [ApplyOne(0), Outside(RequestDelete(KEY)), Outside(DropForeign(KEY)), ApplyEnd(true, true)] + [Patch(true)]
  }

  /** Deleted between its first write and its first patch: the Bootstrap is gone, and its CRD stays under its name. */
  lemma FirstWriteIsOrphaned()
    ensures Reachable.Beginning(ONE)
    ensures var t := Exec(SetupOf(PlainTable), ONE, Opens(KEY, "") + [Judge(None, None)] + DeletedEarly());
      && KEY !in t.store && CRD_AT in Owned(t.cluster, KEY.name)
      && CRD_AT in t.history.writer && t.history.writer[CRD_AT] == KEY
  {
    var setup, opening := SetupOf(PlainTable), Opens(KEY, "") + [Judge(None, None)];
    OneGetsThrough();
    ExecKeepsCoherent(setup, ONE, opening);
    Ownership.EarlyDeletionOrphans(setup, Exec(setup, ONE, opening), 0, true, true, true);
    ExecConcat(setup, ONE, opening, DeletedEarly());
  }

  // ------------------------------------------------------- the stale reason

  /** First a version without the installed schema; then one that has it, and beside it one with no schema field. */
  function StaleTable(d: string): Option<seq<Object>> {
    if d == "x" then Some([Crd([])])
    else if d == "y" then Some([Crd([CrdVersion("v1", SCHEMA), CrdVersion("v2", None)])])
    else None
  }

  const STALE := Fresh(map[KEY := NewBootstrap(SpecOf(Some(map[]), false))],
                       map[CRD_AT := Installed(map[], [CrdVersion("v1", SCHEMA)])], Config("1", "x"))

  /** A reconcile that the gates end, and whose patch lands. */
  function Stopping(key: Key): seq<Choice> { Opens(key, "") + [Judge(None, None), Patch(true)] }

  lemma Stops(setup: Setup, s: State, key: Key, revision: string, content: string, o: Object, status: Status)
    requires Served(setup, s, key, "", revision, content, [o])
    requires var r := ReadRun(key, s.store[key], revision, content, [o]);
      var end := JudgeStep(setup, s.(run := r), None, None).run;
      end.Finishing? && end.ctx == r.ctx.(obj := r.ctx.obj.(status := status))
    ensures var t := Exec(setup, s, Stopping(key));
      t.run.Idle? && t.upstream == s.upstream && t.cluster == s.cluster
      && t.store == s.store[key := s.store[key].(finalizer := true, status := status)]
  {
    OpensToJudging(setup, s, key, "", revision, content, [o]);
    var s4 := s.(run := ReadRun(key, s.store[key], revision, content, [o]));
    var s5 := Step(setup, s4, Judge(None, None));
    ExecConcat(setup, s, Opens(key, ""), [Judge(None, None), Patch(true)]);
    ExecOne(setup, s4, Judge(None, None));
    ExecSnoc(setup, s4, [Judge(None, None)], Patch(true));
    assert [Judge(None, None)] + [Patch(true)] == [Judge(None, None), Patch(true)];
    assert s5 == JudgeStep(setup, s4, None, None);
    StopIsStored(s5, key, s.store[key], status);
    assert Step(setup, s5, Patch(true)) == FinishStep(s5, true);
  }

  lemma StopIsStored(s: State, key: Key, b: Bootstrap, status: Status)
    requires s.run.Finishing? && s.run.ctx == Ctx(key, b, b.(finalizer := true, status := status))
    requires key in s.store && s.store[key] == b && !b.deleting
    ensures var t := FinishStep(s, true);
      t.run.Idle? && t.upstream == s.upstream && t.cluster == s.cluster
      && t.store == s.store[key := b.(finalizer := true, status := status)]
  {
    MergeWritesObject(s, s.run.ctx);
  }

  const BLOCKED := Status(ReadyFalse(BreakingChangeDetected), map[], "1", "", ["version v1 removed"])
  const LEFT_OVER := Status(ReadyFalse(BreakingChangeDetected), map[], "2", "", [])

  lemma FirstIsBlocked()
    ensures var b := STALE.store[KEY];
      var r := ReadRun(KEY, b, "1", "x", [Crd([])]);
      var end := JudgeStep(SetupOf(StaleTable), STALE.(run := r), None, None).run;
      end.Finishing? && end.ctx == r.ctx.(obj := r.ctx.obj.(status := BLOCKED))
  {
    var lib, labelled := LibOf(StaleTable), LabelAll([Crd([])], KEY.name);
    assert labelled == [Labelled(Crd([]), KEY.name)];
    var olds := [CrdVersion("v1", SCHEMA)];
    RemovedIsReported(lib, olds[0]);
    AllOfOne(lib, STALE.cluster, labelled[0]);
    assert "version " + "v1" + " removed" == "version v1 removed";
  }

  lemma RemovedIsReported(lib: Lib, v: CrdVersion)
    requires v.HasSchema()
    ensures Detect(lib, [v], []) == Some([Removed(lib, v.name)])
  {
    var schemas, olds := NewSchemas([]), [v];
    assert Contribution(lib, schemas, v) == Some([Removed(lib, v.name)]);
    forall x | x in olds ensures Contribution(lib, schemas, x).Some? {
      assert x == v;
    }
    var all := Contributions(lib, schemas, olds);
    assert all == [[Removed(lib, v.name)]];
    assert Flatten(all) == all[0] + Flatten(all[1..]) == [Removed(lib, v.name)];
    assert Detect(lib, olds, []) == Some(Flatten(all));
  }

  lemma AllOfOne(lib: Lib, cluster: Cluster, o: Object)
    requires ObjectChanges(lib, cluster, o).Some?
    ensures DetectAll(lib, cluster, [o], None) == ObjectChanges(lib, cluster, o)
  {
    SingleChange(lib, cluster, o);
  }

  lemma SecondPanics(s: State)
    requires s.run.Idle? && s.cluster == STALE.cluster && s.upstream == Config("2", "y")
    requires s.store == map[KEY := STALE.store[KEY].(finalizer := true, status := BLOCKED)]
    ensures var versions := [CrdVersion("v1", SCHEMA), CrdVersion("v2", None)];
      var r := ReadRun(KEY, s.store[KEY], "2", "y", [Crd(versions)]);
      var end := JudgeStep(SetupOf(StaleTable), s.(run := r), None, None).run;
      end.Finishing? && end.ctx == r.ctx.(obj := r.ctx.obj.(status := LEFT_OVER))
  {
    var versions := [CrdVersion("v1", SCHEMA), CrdVersion("v2", None)];
    var lib, labelled := LibOf(StaleTable), LabelAll([Crd(versions)], KEY.name);
    assert labelled == [Labelled(Crd(versions), KEY.name)];
    SameSchemaIsClean(lib, versions);
    AllOfOne(lib, s.cluster, labelled[0]);
    assert versions[1..] == [CrdVersion("v2", None)];
    assert CheckVersions(lib, map[], "Kind", versions[1..]).Panics?;
    assert CheckVersions(lib, map[], "Kind", versions).Panics?;
    assert Validate(lib, Some(map[]), labelled, None).Panics?;
  }

  lemma SameSchemaIsClean(lib: Lib, versions: seq<CrdVersion>)
    requires versions == [CrdVersion("v1", SCHEMA), CrdVersion("v2", None)]
    ensures Detect(lib, [CrdVersion("v1", SCHEMA)], versions) == Some([])
  {
    assert versions[..1] == [versions[0]];
    assert [versions[0]][..0] == [];
    assert NewSchemas([versions[0]]) == map["v1" := "object"];
    assert NewSchemas(versions) == map["v1" := "object"];
    DetectsNothingExactly(lib, [CrdVersion("v1", SCHEMA)], versions);
  }

  /** Blocked once, and then a panic in validation: the reason stays, beside an empty list. */
  lemma ReasonGoesStale()
    ensures Reachable.Beginning(STALE)
    ensures var cs := Stopping(KEY) + [Outside(Publish(Config("2", "y")))] + Stopping(KEY);
      var t := Exec(SetupOf(StaleTable), STALE, cs);
      && KEY in t.store && t.store[KEY].status == LEFT_OVER
      && !RollForward.Reasoned(LibOf(StaleTable), t.store[KEY].status)
  {
    var setup, publish := SetupOf(StaleTable), Outside(Publish(Config("2", "y")));
    FirstStops();
    ExecSnoc(setup, STALE, Stopping(KEY), publish);
    ExecConcat(setup, STALE, Stopping(KEY) + [publish], Stopping(KEY));
    SecondIsStale(Exec(setup, STALE, Stopping(KEY) + [publish]));
  }

  lemma FirstStops()
    ensures var t := Exec(SetupOf(StaleTable), STALE, Stopping(KEY));
      && t.run.Idle? && t.cluster == STALE.cluster
      && t.store == map[KEY := STALE.store[KEY].(finalizer := true, status := BLOCKED)]
  {
    ConfigIsServed(StaleTable, STALE, KEY, "1", "x", [Crd([])]);
    FirstIsBlocked();
    Stops(SetupOf(StaleTable), STALE, KEY, "1", "x", Crd([]), BLOCKED);
  }

  lemma SecondIsStale(s: State)
    requires s.run.Idle? && s.cluster == STALE.cluster && s.upstream == Config("2", "y")
    requires s.store == map[KEY := STALE.store[KEY].(finalizer := true, status := BLOCKED)]
    ensures var t := Exec(SetupOf(StaleTable), s, Stopping(KEY)); KEY in t.store && t.store[KEY].status == LEFT_OVER
  {
    var o := Crd([CrdVersion("v1", SCHEMA), CrdVersion("v2", None)]);
    ConfigIsServed(StaleTable, s, KEY, "2", "y", [o]);
    SecondPanics(s);
    Stops(SetupOf(StaleTable), s, KEY, "2", "y", o, LEFT_OVER);
  }

  // -------------------------------------------------------------- the twins

  const TWINS := [Crd([CrdVersion("v1", SCHEMA)]), Crd([])]

  function TwinTable(d: string): Option<seq<Object>> { if d == "t" then Some(TWINS) else None }

  const TWO := Fresh(map[KEY := NewBootstrap(SpecOf(None, false))], map[], Config("1", "t"))

  function Judged(): seq<Choice> { Opens(KEY, "") + [Judge(None, None)] }

  lemma TwinsPass()
    ensures var t := Exec(SetupOf(TwinTable), TWO, Judged());
      t.run.Applying? && t.run.pending == LabelAll(TWINS, KEY.name) && t.cluster == map[]
      && t.run.ctx.obj.spec == SpecOf(None, false)
  {
    var setup, labelled := SetupOf(TwinTable), LabelAll(TWINS, KEY.name);
    ConfigIsServed(TwinTable, TWO, KEY, "1", "t", TWINS);
    OpensToJudging(setup, TWO, KEY, "", "1", "t", TWINS);
    ExecSnoc(setup, TWO, Opens(KEY, ""), Judge(None, None));
    BatchIsCleanExactly(setup.lib, map[], labelled, None);
    LetsThrough(setup, Exec(setup, TWO, Opens(KEY, "")));
  }

  /**
   A manifest that lists a CRD twice passes the gate, which is enforced throughout, and the second
   write takes away the version that the first one brought.
   */
  lemma TwinsLoseVersion()
    ensures Reachable.Beginning(TWO)
    ensures var a := Exec(SetupOf(TwinTable), TWO, Judged() + [ApplyOne(0)]);
      var b := Exec(SetupOf(TwinTable), TWO, Judged() + [ApplyOne(0)] + [ApplyOne(0)]);
      VersionSafety.Enforcing(a, Local) && VersionSafety.Enforcing(b, Local) && VersionSafety.ShrinksAt(a, b, CRD_AT)
  {
    TwinsPass();
    ExecSnoc(SetupOf(TwinTable), TWO, Judged(), ApplyOne(0));
    ExecSnoc(SetupOf(TwinTable), TWO, Judged() + [ApplyOne(0)], ApplyOne(0));
    SecondTwinShrinks(SetupOf(TwinTable), Exec(SetupOf(TwinTable), TWO, Judged()));
  }

  lemma SecondTwinShrinks(setup: Setup, s: State)
    requires s.run.Applying? && s.run.pending == LabelAll(TWINS, KEY.name) && s.run.ctx.obj.spec == SpecOf(None, false)
    ensures var a := Step(setup, s, ApplyOne(0));
      var b := Step(setup, a, ApplyOne(0));
      VersionSafety.Enforcing(a, Local) && VersionSafety.Enforcing(b, Local) && VersionSafety.ShrinksAt(a, b, CRD_AT)
  {
    var pending := s.run.pending;
    assert Without(pending, 0) == [pending[1]];
    assert CrdVersion("v1", SCHEMA) in TWINS[0].versions;
    assert "v1" in SchemaNames(TWINS[0].versions);
    assert SchemaNames(TWINS[1].versions) == {};
  }

  // ---------------------------------------------------------- the namesakes

  const PRUNER := NewBootstrap(SpecOf(None, true)).(spec := SpecOf(None, true).(
    source := SourceSpec(None, None, None, Some(Key("there", "missing")), None)))

  const PAIR := Fresh(map[KEY := NewBootstrap(SpecOf(None, false)), NAMESAKE := PRUNER], map[], Config("1", "c"))

  /** The namesake gets its finalizer, is asked to go, and prunes. */
  function Pruned(): seq<Choice> {
    [Start(NAMESAKE), Check(Reached, ""), Patch(true), Outside(RequestDelete(NAMESAKE))]
    + [Start(NAMESAKE), List(true, ["crd"]), DeleteOne(true), Patch(true)]
  }

  lemma NothingForPruner(up: Upstream)
    requires up == Config("1", "c")
    ensures HasUpdate(LibOf(PlainTable), MANAGER_CHAIN, up, PRUNER.spec, "", Reached, "") == Rejected
    ensures PickFits(LibOf(PlainTable), MANAGER_CHAIN, up, PRUNER.spec, "")
  {
    assert Handles(ConfigMap, PRUNER.spec.source) && !Handles(Helm, PRUNER.spec.source);
    assert forall j :: Rank(j) < Rank(ConfigMap) ==> j == Helm;
    ManagerServesFirst(LibOf(PlainTable), up, PRUNER.spec, "", Reached, "", "");
  }

  /** A reconcile that gets no answer only stores the finalizer. */
  lemma FinalizerOnly(setup: Setup, s: State, key: Key)
    requires s.run.Idle? && key in s.store && !s.store[key].deleting
    requires PickFits(setup.lib, setup.chain, s.upstream, s.store[key].spec, "")
    requires HasUpdate(setup.lib, setup.chain, s.upstream, s.store[key].spec, s.store[key].status.applied, Reached, "")
          == Rejected
    ensures var t := Step(setup, Step(setup, Step(setup, s, Start(key)), Check(Reached, "")), Patch(true));
      && t == s.(store := s.store[key := s.store[key].(finalizer := true)], history := t.history)
      && t.history.writer == s.history.writer
  {
    var b := s.store[key];
    var c := Ctx(key, b, b.(finalizer := true));
    var s1 := s.(run := Checking(c));
    assert Step(setup, s, Start(key)) == s1;
    var s2 := s.(run := Finishing(c, Early));
    assert Step(setup, s1, Check(Reached, "")) == s2;
    assert Step(setup, s2, Patch(true)) == FinishStep(s2, true);
    MergeWritesObject(s2, c);
  }

  lemma NamesakeIsStored(s: State)
    requires s.run.Idle? && NAMESAKE in s.store && s.store[NAMESAKE] == PRUNER && s.upstream == Config("1", "c")
    ensures var t := Exec(SetupOf(PlainTable), s,
                          [Start(NAMESAKE), Check(Reached, ""), Patch(true), Outside(RequestDelete(NAMESAKE))]);
      && t == s.(store := s.store[NAMESAKE := PRUNER.(finalizer := true, deleting := true)], history := t.history)
      && t.history.writer == s.history.writer
  {
    ExecFour(SetupOf(PlainTable), s,
             Start(NAMESAKE), Check(Reached, ""), Patch(true), Outside(RequestDelete(NAMESAKE)));
    NothingForPruner(s.upstream);
    FinalizerOnly(SetupOf(PlainTable), s, NAMESAKE);
  }

  lemma NamesakeDeletes(s: State)
    requires s.run.Idle? && NAMESAKE in s.store && s.store[NAMESAKE] == PRUNER.(finalizer := true, deleting := true)
    requires s.cluster == map[CRD_AT := InstalledBy(KEY, Crd([]))]
    ensures var t := Exec(SetupOf(PlainTable), s, [Start(NAMESAKE), List(true, ["crd"]), DeleteOne(true), Patch(true)]);
      t.run.Idle? && t.cluster == map[] && t.store == s.store - {NAMESAKE}
  {
    var setup, b := SetupOf(PlainTable), s.store[NAMESAKE];
    ExecFour(setup, s, Start(NAMESAKE), List(true, ["crd"]), DeleteOne(true), Patch(true));
    var c := Ctx(NAMESAKE, b, b);
    var s1 := s.(run := Listing(c));
    assert Step(setup, s, Start(NAMESAKE)) == s1;
    assert Owned(s.cluster, NAMESAKE.name) == {CRD_AT};
    assert LocalKeys(["crd"]) == {CRD_AT} by { assert "crd" in ["crd"]; }
    var s2 := s.(run := Pruning(c, ["crd"]));
    assert Step(setup, s1, List(true, ["crd"])) == s2;
    var s3 := Step(setup, s2, DeleteOne(true));
    assert ["crd"][1..] == [];
    assert s3.run == Releasing(c.(obj := b.(finalizer := false))) && s3.cluster == map[] && s3.store == s.store;
    assert Step(setup, s3, Patch(true)) == ReleaseStep(s3, true);
  }

  /** A Bootstrap that never wrote anything prunes the CRD of its namesake, which is stored and stays. */
  lemma NamesakePrunes()
    ensures Reachable.Beginning(PAIR)
    ensures var first := WholeReconcile(KEY, true, true);
      var a, t := Exec(SetupOf(PlainTable), PAIR, first), Exec(SetupOf(PlainTable), PAIR, first + Pruned());
      && CRD_AT in a.cluster && CRD_AT in a.history.writer && a.history.writer[CRD_AT] == KEY
      && CRD_AT !in t.cluster && NAMESAKE !in t.store && KEY in t.store && !t.store[KEY].deleting
  {
    var setup, first := SetupOf(PlainTable), WholeReconcile(KEY, true, true);
    FirstDelivery(PAIR, true);
    var a := Exec(setup, PAIR, first);
    var opening := [Start(NAMESAKE), Check(Reached, ""), Patch(true), Outside(RequestDelete(NAMESAKE))];
    NamesakeIsStored(a);
    NamesakeDeletes(Exec(setup, a, opening));
    ExecConcat(setup, a, opening, [Start(NAMESAKE), List(true, ["crd"]), DeleteOne(true), Patch(true)]);
    ExecConcat(setup, PAIR, first, Pruned());
  }

  // ------------------------------------------------------------ the panic

  const PROJECT := Release("owner", "repo", "file")

  const PROJECT_SPEC := SpecOf(None, false).(source := SourceSpec(None, Some(PROJECT), None, None, None))

  /** A project with one release, whose file is there. */
  const RELEASED := NOTHING.(gitlabTags := map[PROJECT := "1"],
                             gitlabReleases := map[(PROJECT, "1") := [Asset("file", "url")]],
                             gitlabFiles := map["url" := "c"])

  /** A second tag, whose release is not found. */
  const UNRELEASED := RELEASED.(gitlabTags := map[PROJECT := "2"])

  const LAB := Fresh(map[KEY := NewBootstrap(PROJECT_SPEC)], map[], RELEASED)

  lemma LabServes(up: Upstream, applied: string, revision: string)
    ensures PickFits(LibOf(PlainTable), MANAGER_CHAIN, up, PROJECT_SPEC, "")
    ensures HasUpdate(LibOf(PlainTable), MANAGER_CHAIN, up, PROJECT_SPEC, applied, Reached, "")
         == GitLabAnswer(LibOf(PlainTable), up, PROJECT, "", applied)
    ensures FetchCRD(MANAGER_CHAIN, up, PROJECT_SPEC, revision, Reached) == GitLabContent(up, PROJECT, revision)
  {
    assert Handles(GitLab, PROJECT_SPEC.source);
    assert forall j :: Rank(j) < Rank(GitLab) ==> j == Helm || j == ConfigMap;
    ManagerServesFirst(LibOf(PlainTable), up, PROJECT_SPEC, applied, Reached, "", revision);
  }

  lemma LabIsServed()
    ensures Served(SetupOf(PlainTable), LAB, KEY, "", "1", "c", [Crd([])])
  {
    LabServes(RELEASED, "", "1");
    ReadsOne(LibOf(PlainTable), "c", [Crd([])]);
    assert GitLabContent(RELEASED, PROJECT, "1") == Content("c");
  }

  lemma LabPasses()
    ensures Passes(SetupOf(PlainTable), LAB, KEY, Crd([]))
  {
    var labelled := LabelAll([Crd([])], KEY.name);
    assert labelled == [Labelled(Crd([]), KEY.name)];
    BatchIsCleanExactly(LibOf(PlainTable), map[], labelled, None);
  }

  const HELD := Stored(NewBootstrap(PROJECT_SPEC), "1", "crd", true)

  lemma LabDelivers()
    ensures var t := Exec(SetupOf(PlainTable), LAB, WholeReconcile(KEY, true, true));
      t.run.Idle? && t.store == map[KEY := HELD]
  {
    LabIsServed();
    LabPasses();
    DeliversAlone(SetupOf(PlainTable), LAB, KEY, NewBootstrap(PROJECT_SPEC), Crd([]));
  }

  lemma HeldStatus()
    ensures HELD.status == Status(ReadyTrue, map["crd" := 1], "1", "1", [])
    ensures HELD.finalizer && !HELD.deleting && HELD.spec == PROJECT_SPEC
  {
    BumpedTwice();
  }

  function Panicking(): seq<Choice> { [Start(KEY), Check(Reached, ""), Fetch(true, Reached), Patch(true)] }

  /** A reconcile whose fetch panics stores the attempt, and nothing else. */
  lemma FetchPanics(setup: Setup, s: State, key: Key, revision: string)
    requires s.run.Idle? && key in s.store && !s.store[key].deleting && s.store[key].finalizer
    requires PickFits(setup.lib, setup.chain, s.upstream, s.store[key].spec, "")
    requires HasUpdate(setup.lib, setup.chain, s.upstream, s.store[key].spec, s.store[key].status.applied, Reached, "")
          == Answered(true, revision)
    requires FetchCRD(setup.chain, s.upstream, s.store[key].spec, revision, Reached) == FetchPanic
    ensures var t := Exec(setup, s, [Start(key), Check(Reached, ""), Fetch(true, Reached), Patch(true)]);
      t.store == s.store[key := s.store[key].(status := s.store[key].status.(attempted := revision))]
  {
    var b := s.store[key];
    ExecFour(setup, s, Start(key), Check(Reached, ""), Fetch(true, Reached), Patch(true));
    var c := Ctx(key, b, b);
    var s1 := s.(run := Checking(c));
    assert b.(finalizer := true) == b;
    assert Step(setup, s, Start(key)) == s1;
    var d := c.(obj := b.(status := b.status.(attempted := revision)));
    var s2 := s.(run := Fetching(d, revision));
    assert Step(setup, s1, Check(Reached, "")) == s2;
    var s3 := s.(run := Finishing(d, Early));
    assert Step(setup, s2, Fetch(true, Reached)) == s3;
    assert Step(setup, s3, Patch(true)) == FinishStep(s3, true);
    MergeWritesObject(s3, d);
  }

  lemma LabPanics(s: State)
    requires s.run.Idle? && s.upstream == UNRELEASED && KEY in s.store && s.store[KEY].spec == PROJECT_SPEC
    requires !s.store[KEY].deleting && s.store[KEY].finalizer && s.store[KEY].status.applied == "1"
    ensures var t := Exec(SetupOf(PlainTable), s, Panicking());
      t.store == s.store[KEY := s.store[KEY].(status := s.store[KEY].status.(attempted := "2"))]
  {
    LabServes(UNRELEASED, "1", "2");
    FetchPanics(SetupOf(PlainTable), s, KEY, "2");
  }

  /** A release that GitLab does not find: the reconcile panics, and Ready stays true from the success before it. */
  lemma ReadyStaysTrue()
    ensures Reachable.Beginning(LAB)
    ensures var cs := WholeReconcile(KEY, true, true) + [Outside(Publish(UNRELEASED))] + Panicking();
      var t := Exec(SetupOf(PlainTable), LAB, cs);
      KEY in t.store && t.store[KEY].status == Status(ReadyTrue, map["crd" := 1], "2", "1", [])
  {
    var setup, first, publish := SetupOf(PlainTable), WholeReconcile(KEY, true, true), Outside(Publish(UNRELEASED));
    LabDelivers();
    HeldStatus();
    ExecSnoc(setup, LAB, first, publish);
    ExecConcat(setup, LAB, first + [publish], Panicking());
    LabPanics(Exec(setup, LAB, first + [publish]));
  }

  // ------------------------------------------------------ failed validation

  /** One CRD whose schema makes no validator. */
  function BrokenTable(d: string): Option<seq<Object>> {
    if d == "b" then Some([BROKEN]) else None
  }

  const BROKEN := Crd([CrdVersion("v1", Some(Validation(Some("broken"))))])

  const INVALID := Fresh(map[KEY := NewBootstrap(SpecOf(Some(map[]), false))], map[], Config("1", "b"))

  const REFUSED := Status(ReadyFalse(CRDValidationFailed), map[], "1", "", [])

  lemma ValidationRefuses()
    ensures var b := INVALID.store[KEY];
      var r := ReadRun(KEY, b, "1", "b", [BROKEN]);
      var end := JudgeStep(SetupOf(BrokenTable), INVALID.(run := r), None, None).run;
      end.Finishing? && end.ctx == r.ctx.(obj := r.ctx.obj.(status := REFUSED))
  {
    var lib, labelled := LibOf(BrokenTable), LabelAll([BROKEN], KEY.name);
    assert labelled == [Labelled(BROKEN, KEY.name)];
    AllOfOne(lib, map[], labelled[0]);
    assert CheckVersions(lib, map[], "Kind", BROKEN.versions).Invalid?;
    assert Validate(lib, Some(map[]), labelled, None).Invalid?;
  }

  lemma RefusalIsStored()
    ensures var t := Exec(SetupOf(BrokenTable), INVALID, Stopping(KEY));
      && t.run.Idle? && t.upstream == INVALID.upstream
      && t.store == map[KEY := INVALID.store[KEY].(finalizer := true, status := REFUSED)]
  {
    ConfigIsServed(BrokenTable, INVALID, KEY, "1", "b", [BROKEN]);
    ValidationRefuses();
    Stops(SetupOf(BrokenTable), INVALID, KEY, "1", "b", BROKEN, REFUSED);
  }

  /** Validation fails, the failure is stored, and the next reconcile is back at the gates with nobody's help. */
  lemma ValidationIsRetried()
    ensures Reachable.Beginning(INVALID) && Quiescence.Quiet(Stopping(KEY) + Opens(KEY, ""))
    ensures var t := Exec(SetupOf(BrokenTable), INVALID, Stopping(KEY));
      KEY in t.store && t.store[KEY].status == REFUSED
    ensures var t := Exec(SetupOf(BrokenTable), INVALID, Stopping(KEY) + Opens(KEY, ""));
      t.run.Judging? && t.run.ctx.key == KEY && t.run.batch.revision == "1"
  {
    RefusalIsStored();
    ExecConcat(SetupOf(BrokenTable), INVALID, Stopping(KEY), Opens(KEY, ""));
    BackAtGates(Exec(SetupOf(BrokenTable), INVALID, Stopping(KEY)));
  }

  lemma BackAtGates(s: State)
    requires s.run.Idle? && s.upstream == Config("1", "b")
    requires s.store == map[KEY := INVALID.store[KEY].(finalizer := true, status := REFUSED)]
    ensures var t := Exec(SetupOf(BrokenTable), s, Opens(KEY, ""));
      t.run.Judging? && t.run.ctx.key == KEY && t.run.batch.revision == "1"
  {
    ConfigIsServed(BrokenTable, s, KEY, "1", "b", [BROKEN]);
    OpensToJudging(SetupOf(BrokenTable), s, KEY, "", "1", "b", [BROKEN]);
  }

  // ----------------------------------------------------- the remote cluster

  const AWAY := CrdKey(Remote("kubeconfig"), "crd")

  function RemoteSpec(prune: bool): Spec { SpecOf(None, prune).(kubeConfig := Some("kubeconfig")) }

  const FAR := Fresh(map[KEY := NewBootstrap(RemoteSpec(false))],
                     map[AWAY := Installed(map[], [CrdVersion("v1", SCHEMA)])], Config("1", "c"))

  lemma RemoteGetsThrough()
    ensures var t := Exec(SetupOf(PlainTable), FAR, Opens(KEY, "") + [Judge(None, None)]);
      t.run.Applying? && t.run.pending == LabelAll([Crd([])], KEY.name) && t.run.ctx.obj.spec == RemoteSpec(false)
      && t.cluster == FAR.cluster
  {
    var setup := SetupOf(PlainTable);
    ConfigIsServed(PlainTable, FAR, KEY, "1", "c", [Crd([])]);
    PlainPasses(FAR, KEY);
    OpensToJudging(setup, FAR, KEY, "", "1", "c", [Crd([])]);
    ExecSnoc(setup, FAR, Opens(KEY, ""), Judge(None, None));
    LetsThrough(setup, Exec(setup, FAR, Opens(KEY, "")));
  }

  /** Breaking changes are enforced, and still the remote CRD loses the version it had: its local twin is missing. */
  lemma RemoteLosesVersion()
    ensures Reachable.Beginning(FAR) && !VersionSafety.Mirrored(FAR.cluster, AWAY)
    ensures var a := Exec(SetupOf(PlainTable), FAR, Opens(KEY, "") + [Judge(None, None)]);
      var b := Exec(SetupOf(PlainTable), FAR, Opens(KEY, "") + [Judge(None, None)] + [ApplyOne(0)]);
      && VersionSafety.Enforcing(a, AWAY.target) && VersionSafety.Enforcing(b, AWAY.target)
      && VersionSafety.ShrinksAt(a, b, AWAY)
  {
    RemoteGetsThrough();
    ExecSnoc(SetupOf(PlainTable), FAR, Opens(KEY, "") + [Judge(None, None)], ApplyOne(0));
    var lost := CrdVersion("v1", SCHEMA);
    assert lost in FAR.cluster[AWAY].versions;
    assert "v1" in SchemaNames(FAR.cluster[AWAY].versions);
    assert SchemaNames(Crd([]).versions) == {};
  }

  const DEPARTING := Fresh(map[KEY := NewBootstrap(RemoteSpec(true))], map[], Config("1", "c"))

  function Departs(): seq<Choice> { [Outside(RequestDelete(KEY)), Start(KEY), List(true, []), Patch(true)] }

  lemma NothingLocalIsListed(setup: Setup, s: State)
    requires s.run.Idle? && KEY in s.store && s.store == map[KEY := s.store[KEY]]
    requires s.store[KEY].finalizer && !s.store[KEY].foreign && s.store[KEY].spec.prune
    requires forall k :: k in s.cluster ==> !k.target.Local?
    ensures var t := Exec(setup, s, Departs());
      && t.run.Idle? && t.store == map[] && t.cluster == s.cluster && t.history.writer == s.history.writer
  {
    ExecFour(setup, s, Outside(RequestDelete(KEY)), Start(KEY), List(true, []), Patch(true));
    var b := s.store[KEY].(deleting := true);
    var c := Ctx(KEY, b, b);
    var s1 := s.(store := map[KEY := b]);
    assert Step(setup, s, Outside(RequestDelete(KEY))) == s1;
    var s2 := s1.(run := Listing(c));
    assert Step(setup, s1, Start(KEY)) == s2;
    assert Owned(s.cluster, KEY.name) == {} == LocalKeys([]);
    var s3 := s1.(run := Releasing(c.(obj := b.(finalizer := false))));
    assert Step(setup, s2, List(true, [])) == s3;
    assert Step(setup, s3, Patch(true)) == ReleaseStep(s3, true);
  }

  lemma DepartingIsServed()
    ensures Served(SetupOf(PlainTable), DEPARTING, KEY, "", "1", "c", [Crd([])])
    ensures Passes(SetupOf(PlainTable), DEPARTING, KEY, Crd([]))
  {
    ConfigIsServed(PlainTable, DEPARTING, KEY, "1", "c", [Crd([])]);
    PlainPasses(DEPARTING, KEY);
  }

  lemma RemoteDelivers()
    ensures var t := Exec(SetupOf(PlainTable), DEPARTING, WholeReconcile(KEY, true, true));
      && t.run.Idle? && t.store == map[KEY := Stored(NewBootstrap(RemoteSpec(true)), "1", "crd", true)]
      && t.cluster == map[AWAY := InstalledBy(KEY, Crd([]))]
      && AWAY in t.history.writer && t.history.writer[AWAY] == KEY
  {
    DepartingIsServed();
    DeliversAlone(SetupOf(PlainTable), DEPARTING, KEY, NewBootstrap(RemoteSpec(true)), Crd([]));
  }

  /** A pruning deletion completes, and the CRD in the remote cluster stays, with the label of its writer. */
  lemma RemoteIsNotPruned()
    ensures Reachable.Beginning(DEPARTING)
    ensures var t := Exec(SetupOf(PlainTable), DEPARTING, WholeReconcile(KEY, true, true) + Departs());
      && t.run.Idle? && KEY !in t.store
      && AWAY in t.cluster && t.cluster[AWAY] == InstalledBy(KEY, Crd([]))
      && AWAY in t.history.writer && t.history.writer[AWAY] == KEY
  {
    RemoteDelivers();
    ExecConcat(SetupOf(PlainTable), DEPARTING, WholeReconcile(KEY, true, true), Departs());
    NothingLocalIsListed(SetupOf(PlainTable), Exec(SetupOf(PlainTable), DEPARTING, WholeReconcile(KEY, true, true)));
  }

  // ------------------------------------------------- the digest and the URL

  const PINNED := SpecOf(None, false).(source := SourceSpec(None, None, None, None, Some("address")), digest := "x")

  /** The libraries of these runs take every text for its own digest. */
  function Page(text: string): Upstream { NOTHING.(urls := map["address" := text]) }

  const WEB := Fresh(map[KEY := NewBootstrap(PINNED)], map[], Page("x"))

  /** The page changes between HasUpdate and FetchCRD. */
  function OpensAcross(): seq<Choice> {
    [Start(KEY), Check(Reached, ""), Outside(Publish(Page("c"))), Fetch(true, Reached)] + [Read(true, true)]
  }

  lemma PageIsServed(up: Upstream, text: string, revision: string)
    requires up == Page(text)
    ensures PickFits(LibOf(PlainTable), MANAGER_CHAIN, up, PINNED, "")
    ensures HasUpdate(LibOf(PlainTable), MANAGER_CHAIN, up, PINNED, "", Reached, "")
         == UrlAnswer(LibOf(PlainTable), text, "x", "")
    ensures FetchCRD(MANAGER_CHAIN, up, PINNED, revision, Reached) == Content(text)
  {
    assert Handles(Url, PINNED.source) && !Handles(Helm, PINNED.source);
    assert forall j :: Rank(j) < Rank(Url) ==> j == Helm || j == ConfigMap || j == GitLab || j == GitHub;
    ManagerServesFirst(LibOf(PlainTable), up, PINNED, "", Reached, "", revision);
  }

  lemma FetchesLate(setup: Setup, s: State, late: Upstream, revision: string, content: string, objects: seq<Object>)
    requires s.run.Idle? && KEY in s.store && !s.store[KEY].deleting && late == Page("c")
    requires PickFits(setup.lib, setup.chain, s.upstream, s.store[KEY].spec, "")
    requires HasUpdate(setup.lib, setup.chain, s.upstream, s.store[KEY].spec, s.store[KEY].status.applied, Reached, "")
          == Answered(true, revision)
    requires FetchCRD(setup.chain, late, s.store[KEY].spec, revision, Reached) == Content(content)
    requires Crds(setup.lib, content) == Some(objects)
    ensures Exec(setup, s, OpensAcross())
         == s.(upstream := late, run := ReadRun(KEY, s.store[KEY], revision, content, objects))
  {
    var b, publish := s.store[KEY], Outside(Publish(late));
    ExecFour(setup, s, Start(KEY), Check(Reached, ""), publish, Fetch(true, Reached));
    ExecSnoc(setup, s, [Start(KEY), Check(Reached, ""), publish, Fetch(true, Reached)], Read(true, true));
    var c := Ctx(KEY, b, b.(finalizer := true));
    var s1 := s.(run := Checking(c));
    assert Step(setup, s, Start(KEY)) == s1;
    var d := c.(obj := c.obj.(status := c.obj.status.(attempted := revision)));
    var s2 := s.(run := Fetching(d, revision));
    assert Step(setup, s1, Check(Reached, "")) == s2;
    var s3 := s2.(upstream := late);
    assert Step(setup, s2, publish) == s3;
    var s4 := s3.(run := Reading(d, revision, content));
    assert Step(setup, s3, Fetch(true, Reached)) == s4;
    assert Step(setup, s4, Read(true, true)) == s3.(run := Loading(setup.lib, d, revision, content, true, true));
  }

  lemma PageIsFetchedLate()
    ensures Exec(SetupOf(PlainTable), WEB, OpensAcross())
         == WEB.(upstream := Page("c"), run := ReadRun(KEY, WEB.store[KEY], "x", "c", [Crd([])]))
  {
    PageIsServed(WEB.upstream, "x", "x");
    PageIsServed(Page("c"), "c", "x");
    ReadsOne(LibOf(PlainTable), "c", [Crd([])]);
    FetchesLate(SetupOf(PlainTable), WEB, Page("c"), "x", "c", [Crd([])]);
  }

  /** A digest is required, and a content with another digest is applied and recorded under it. */
  lemma OtherDigestIsApplied()
    ensures Reachable.Beginning(WEB) && WEB.store[KEY].spec.digest == "x"
    ensures var m := Exec(SetupOf(PlainTable), WEB, OpensAcross());
      m.run.Judging? && m.run.batch.content == "c" && LibOf(PlainTable).digest(m.run.batch.content) != "x"
    ensures var t := Exec(SetupOf(PlainTable), WEB, OpensAcross() + FromGates(true, true));
      && KEY in t.store && t.store[KEY].status.applied == "x" && t.store[KEY].status.ready == ReadyTrue
      && CRD_AT in t.cluster && t.cluster[CRD_AT] == InstalledBy(KEY, Crd([]))
  {
    var late := WEB.(upstream := Page("c"));
    PageIsFetchedLate();
    PagePasses(late);
    ExecConcat(SetupOf(PlainTable), WEB, OpensAcross(), FromGates(true, true));
    DeliversFromGates(SetupOf(PlainTable), late, KEY, "x", "c", Crd([]), true, true);
  }

  lemma PagePasses(s: State)
    requires KEY in s.store && s.store[KEY].spec.template.None? && s.cluster == map[]
    ensures Passes(SetupOf(PlainTable), s, KEY, Crd([]))
  {
    PlainPasses(s, KEY);
  }
}
