/** What a reconcile in which no call fails achieves: the counterpart of the safety properties. */
module Progress {
  import opened Basics
  import opened Api
  import opened Gate
  import opened Manifest
  import opened Sources
  import opened Machine
  import Conditions
  import Delivery
  import Quiescence

  // ------------------------------------------------------- up to the gates

  /** An update is offered, can be fetched, and holds these CRDs. */
  predicate Served(setup: Setup, s: State, key: Key, pick: string, revision: string, content: string,
                   objects: seq<Object>) {
    && s.run.Idle? && key in s.store && !s.store[key].deleting
    && var b := s.store[key];
    && PickFits(setup.lib, setup.chain, s.upstream, b.spec, pick)
    && HasUpdate(setup.lib, setup.chain, s.upstream, b.spec, b.status.applied, Reached, pick)
       == Answered(true, revision)
    && FetchCRD(setup.chain, s.upstream, b.spec, revision, Reached) == Content(content)
    && Crds(setup.lib, content) == Some(objects)
  }

  /** The object after the attempt is recorded and the CRDs are counted. */
  function Attempted(b: Bootstrap, revision: string, names: seq<string>): Bootstrap {
    b.(finalizer := true,
       status := b.status.(attempted := revision,
                           counters := Aliased(b.status.counters, BumpAll(b.status.counters, names))))
  }

  function ReadRun(key: Key, b: Bootstrap, revision: string, content: string, objects: seq<Object>): Run {
    var labelled := LabelAll(objects, key.name);
    Judging(Ctx(key, b, Attempted(b, revision, Names(labelled))),
            Batch(revision, content, labelled, BumpAll(b.status.counters, Names(labelled))))
  }

  /** From the start of a reconcile to the gates. */
  function Opens(key: Key, pick: string): seq<Choice> {
    [Start(key), Check(Reached, pick), Fetch(true, Reached), Read(true, true)]
  }

  lemma OpensToJudging(setup: Setup, s: State, key: Key, pick: string, revision: string, content: string,
                       objects: seq<Object>)
    requires Served(setup, s, key, pick, revision, content, objects)
    ensures Exec(setup, s, Opens(key, pick)) == s.(run := ReadRun(key, s.store[key], revision, content, objects))
  {
    ExecFour(setup, s, Start(key), Check(Reached, pick), Fetch(true, Reached), Read(true, true));
    var b := s.store[key];
    var c := Ctx(key, b, b.(finalizer := true));
    var s1 := s.(run := Checking(c));
    assert Step(setup, s, Start(key)) == s1;
    var d := c.(obj := c.obj.(status := c.obj.status.(attempted := revision)));
    var s2 := s.(run := Fetching(d, revision));
    assert Step(setup, s1, Check(Reached, pick)) == s2;
    var s3 := s.(run := Reading(d, revision, content));
    assert Step(setup, s2, Fetch(true, Reached)) == s3;
    assert Step(setup, s3, Read(true, true)) == s.(run := Loading(setup.lib, d, revision, content, true, true));
  }

  // ------------------------------------------------------- through the gates

  /** Both gates let the batch through. */
  predicate GatesOpen(setup: Setup, s: State, key: Key, objects: seq<Object>)
    requires key in s.store
  {
    var spec, labelled := s.store[key].spec, LabelAll(objects, key.name);
    var detected := DetectAll(setup.lib, s.cluster, labelled, None);
    var verdict := Validate(setup.lib, spec.template, labelled, None);
    && detected.Some? && (detected.value == [] || spec.ignoreBreakingChanges)
    && (verdict.Valid? || (verdict.Invalid? && spec.continueOnValidationError))
  }

  /** The list of breaking changes that the reconcile leaves: what is detected now, or what was there if that fails. */
  function Surfaced(setup: Setup, s: State, key: Key, objects: seq<Object>): seq<string>
    requires key in s.store
  {
    match DetectAll(setup.lib, s.cluster, LabelAll(objects, key.name), None)
    case None => s.store[key].status.breaking
    case Some(changes) => changes
  }

  lemma JudgesThrough(setup: Setup, s: State, key: Key, revision: string, content: string, objects: seq<Object>)
    requires key in s.store
    ensures var a := s.(run := ReadRun(key, s.store[key], revision, content, objects));
      var b := Step(setup, a, Judge(None, None));
      && b == s.(run := b.run) && b.run.ctx.before == s.store[key] && b.run.ctx.key == key
      && b.run.ctx.obj.status.attempted == revision
      && b.run.ctx.obj.status.breaking == Surfaced(setup, s, key, objects)
      && (if GatesOpen(setup, s, key, objects)
          then b.run.Applying? && b.run.batch == a.run.batch && b.run.pending == a.run.batch.objects
          else b.run == Finishing(b.run.ctx, Stopped(a.run.batch)))
  {
    var a := s.(run := ReadRun(key, s.store[key], revision, content, objects));
    assert Step(setup, a, Judge(None, None)) == JudgeStep(setup, a, None, None);
    Conditions.RulingHolds(a.run.ctx, a.run.batch, DetectAll(setup.lib, s.cluster, a.run.batch.objects, None),
                           Validate(setup.lib, s.store[key].spec.template, a.run.batch.objects, None));
    RulesThrough(a.run.ctx, a.run.batch, DetectAll(setup.lib, s.cluster, a.run.batch.objects, None),
                 Validate(setup.lib, s.store[key].spec.template, a.run.batch.objects, None));
  }

  lemma RulesThrough(c: Ctx, batch: Batch, detected: Option<seq<string>>, verdict: Verdict)
    ensures var r := Ruling(c, batch, detected, verdict);
      && !r.Idle? && r.ctx.before == c.before && r.ctx.key == c.key
      && (if && detected.Some? && (detected.value == [] || c.obj.spec.ignoreBreakingChanges)
             && (verdict.Valid? || (verdict.Invalid? && c.obj.spec.continueOnValidationError))
          then r == Applying(r.ctx, batch, batch.objects)
          else r == Finishing(r.ctx, Stopped(batch)))
  {
  }

  // ------------------------------------------------------------- the writes

  function Writes(n: nat): seq<Choice> { seq(n, i => ApplyOne(0)) }

  /** Every pending object is written, and nothing but the clusters and the history changes. */
  lemma {:induction false} WritesThrough(setup: Setup, s: State)
    requires s.run.Applying?
    ensures var t := Exec(setup, s, Writes(|s.run.pending|));
      t.run == s.run.(pending := []) && t.store == s.store && t.upstream == s.upstream
    decreases |s.run.pending|
  {
    var n := |s.run.pending|;
    if n == 0 {
      assert Writes(0) == [];
      assert s.run.pending == [];
    } else {
      var t := Step(setup, s, ApplyOne(0));
      assert Writes(n) == [ApplyOne(0)] + Writes(n - 1);
      ExecConcat(setup, s, [ApplyOne(0)], Writes(n - 1));
      ExecOne(setup, s, ApplyOne(0));
      OneWritten(setup, s);
      WritesThrough(setup, t);
    }
  }

  lemma OneWritten(setup: Setup, s: State)
    requires s.run.Applying? && s.run.pending != []
    ensures var t := Step(setup, s, ApplyOne(0));
      && t.run == s.run.(pending := Without(s.run.pending, 0)) && |t.run.pending| == |s.run.pending| - 1
      && t.store == s.store && t.upstream == s.upstream
  {
  }

  lemma {:induction false} WritesAreIdle(setup: Setup, s: State, n: nat)
    requires s.run.Finishing?
    ensures Exec(setup, s, Writes(n)) == s
  {
    if n == 0 {
      assert Writes(0) == [];
    } else {
      assert Writes(n)[..n - 1] == Writes(n - 1);
      WritesAreIdle(setup, s, n - 1);
    }
  }

  // ------------------------------------------------------ the whole reconcile

  /** A reconcile up to its patch, in which no call fails; n is the number of its CRDs. */
  function Faultless(key: Key, pick: string, n: nat): seq<Choice> {
    Opens(key, pick) + [Judge(None, None)] + Writes(n) + [ApplyEnd(true, true)]
  }

  lemma FaultlessIsQuiet(key: Key, pick: string, n: nat)
    ensures Quiescence.Quiet(Faultless(key, pick, n))
  {
  }

  lemma FaultlessSteps(setup: Setup, s: State, key: Key, pick: string, revision: string, content: string,
                       objects: seq<Object>) returns (b: State, d: State)
    requires Served(setup, s, key, pick, revision, content, objects)
    ensures b == Step(setup, s.(run := ReadRun(key, s.store[key], revision, content, objects)), Judge(None, None))
    ensures d == Exec(setup, b, Writes(|objects|))
    ensures Exec(setup, s, Faultless(key, pick, |objects|)) == Step(setup, d, ApplyEnd(true, true))
  {
    var n := |objects|;
    OpensToJudging(setup, s, key, pick, revision, content, objects);
    b := Exec(setup, s, Opens(key, pick) + [Judge(None, None)]);
    ExecSnoc(setup, s, Opens(key, pick), Judge(None, None));
    d := Exec(setup, b, Writes(n));
    ExecConcat(setup, s, Opens(key, pick) + [Judge(None, None)], Writes(n));
    ExecSnoc(setup, s, Opens(key, pick) + [Judge(None, None)] + Writes(n), ApplyEnd(true, true));
  }

  /** Where such a reconcile stands before its patch: done if the gates are open, stopped if not. */
  lemma FaultlessEnds(setup: Setup, s: State, key: Key, pick: string, revision: string, content: string,
                      objects: seq<Object>)
    requires Served(setup, s, key, pick, revision, content, objects)
    ensures var e := Exec(setup, s, Faultless(key, pick, |objects|));
      && e.run.Finishing? && e.run.ctx.key == key && e.run.ctx.before == s.store[key]
      && e.store == s.store && e.upstream == s.upstream
      && e.run.ctx.obj.status.attempted == revision
      && e.run.ctx.obj.status.breaking == Surfaced(setup, s, key, objects)
      && (if GatesOpen(setup, s, key, objects)
          then e.run.ended.Done? && e.run.ended.batch.objects == LabelAll(objects, key.name)
               && e.run.ended.batch.revision == revision && e.run.ctx.obj.status.ready == ReadyTrue
          else e.run.ended.Stopped? && e.cluster == s.cluster)
  {
    var b, d := FaultlessSteps(setup, s, key, pick, revision, content, objects);
    JudgesThrough(setup, s, key, revision, content, objects);
    if GatesOpen(setup, s, key, objects) {
      WritesThrough(setup, b);
      EndsDone(setup, d);
    } else {
      WritesAreIdle(setup, b, |objects|);
      EndsNot(setup, b);
    }
  }

  lemma EndsDone(setup: Setup, s: State)
    requires s.run.Applying? && s.run.pending == []
    ensures var t := Step(setup, s, ApplyEnd(true, true));
      t == s.(run := Finishing(t.run.ctx, Done(s.run.batch))) && t.run.ctx.obj.status.ready == ReadyTrue
      && t.run.ctx.key == s.run.ctx.key && t.run.ctx.before == s.run.ctx.before
      && t.run.ctx.obj.status.breaking == s.run.ctx.obj.status.breaking
      && t.run.ctx.obj.status.attempted == s.run.ctx.obj.status.attempted
  {
  }

  lemma EndsNot(setup: Setup, s: State)
    requires s.run.Finishing?
    ensures Step(setup, s, ApplyEnd(true, true)) == s
  {
  }

  predicate AllHeld(cluster: Cluster, target: Target, objects: seq<Object>) {
    forall o :: o in objects ==> Delivery.Holds(cluster, CrdKey(target, o.name), objects)
  }

  lemma DoneIsStored(setup: Setup, e: State)
    requires Coherent(setup, e) && Quiescence.Tracking(setup, e) && Delivery.Arriving(e)
    requires Quiescence.Records(e, Patch(true))
    ensures var key, t := e.run.ctx.key, Step(setup, e, Patch(true));
      && t.run.Idle? && key in e.store && key in t.store
      && t.store[key].status.applied == e.run.ended.batch.revision
      && t.store[key].status == e.run.ctx.obj.status
      && AllHeld(t.cluster, TargetOf(e.run.ctx.before.spec), e.run.ended.batch.objects)
      && Quiescence.Pending(setup, t)
           == (if Pinned(setup.chain, e.store[key].spec) then Quiescence.Pending(setup, e)
               else Quiescence.Pending(setup, e) - {key})
  {
    Quiescence.SuccessSettlesExactly(setup, e);
    Quiescence.RecordedStore(setup, e);
    Delivery.PatchKeepsCluster(setup, e, true);
  }

  lemma SameStorePending(setup: Setup, s: State, e: State)
    requires e.store == s.store && e.upstream == s.upstream
    ensures Quiescence.Pending(setup, e) == Quiescence.Pending(setup, s)
  {
    assert forall k :: Quiescence.PendingAt(setup, e, k) <==> Quiescence.PendingAt(setup, s, k);
  }

  /**
   A due Bootstrap makes progress: when its content can be fetched and read and no call fails, one
   reconcile ends with nothing in flight, and its status has the offered revision as attempted, and lists
   exactly the changes to be reported, ignored or not. If both gates are open, the offered revision is applied and
   Ready is true, every CRD is held, and the Bootstrap is no longer due, unless its digest is pinned.
   If they are not, no cluster has changed, and exactly the same Bootstraps are due.
   */
  lemma DueCompletes(setup: Setup, s: State, key: Key, pick: string, revision: string, content: string,
                     objects: seq<Object>)
    requires Served(setup, s, key, pick, revision, content, objects)
    ensures key in Quiescence.Pending(setup, s)
    ensures var t := Exec(setup, s, Faultless(key, pick, |objects|) + [Patch(true)]);
      && t.run.Idle? && key in t.store
      && t.store[key].status.attempted == revision
      && t.store[key].status.breaking == Surfaced(setup, s, key, objects)
      && (if GatesOpen(setup, s, key, objects)
          then && t.store[key].status.applied == revision && t.store[key].status.ready == ReadyTrue
               && AllHeld(t.cluster, TargetOf(s.store[key].spec), LabelAll(objects, key.name))
               && Quiescence.Pending(setup, t)
                    == (if Pinned(setup.chain, s.store[key].spec) then Quiescence.Pending(setup, s)
                        else Quiescence.Pending(setup, s) - {key})
          else t.cluster == s.cluster && Quiescence.Pending(setup, t) == Quiescence.Pending(setup, s))
  {
    var cs := Faultless(key, pick, |objects|);
    var e := Exec(setup, s, cs);
    assert Quiescence.PendingAt(setup, s, key);
    FaultlessEnds(setup, s, key, pick, revision, content, objects);
    FaultlessIsQuiet(key, pick, |objects|);
    Quiescence.QuietKeepsTracking(setup, s, cs);
    Delivery.ExecKeepsArriving(setup, s, cs);
    ExecSnoc(setup, s, cs, Patch(true));
    SameStorePending(setup, s, e);
    if GatesOpen(setup, s, key, objects) {
      DoneIsStored(setup, e);
    } else {
      Quiescence.OtherPatchKeepsPending(setup, e, true);
      StoppedEnds(setup, e);
      Conditions.PatchStores(setup, e);
    }
  }

  /** Of the changes found, the status that is left lists exactly those of the CRDs installed in the local cluster. */
  lemma SurfacedExactly(setup: Setup, s: State, key: Key, objects: seq<Object>, x: string)
    requires key in s.store && DetectAll(setup.lib, s.cluster, LabelAll(objects, key.name), None).Some?
    ensures x in Surfaced(setup, s, key, objects) <==> Reported(setup.lib, s.cluster, LabelAll(objects, key.name), x)
  {
    BatchReportsExactly(setup.lib, s.cluster, LabelAll(objects, key.name), None, x);
  }

  lemma StoppedEnds(setup: Setup, e: State)
    requires e.run.Finishing?
    ensures var t := Step(setup, e, Patch(true)); t.run.Idle? && t.cluster == e.cluster
  {
  }

  // ------------------------------------------------------ failed validation

  /** Detection lets the batch through, and validation fails with an error that is not ignored. */
  predicate FailsValidation(setup: Setup, s: State, d: Option<nat>, v: Option<nat>) {
    s.run.Judging? && var objects, spec := s.run.batch.objects, s.run.ctx.obj.spec;
    var detected := DetectAll(setup.lib, s.cluster, objects, d);
    && detected.Some? && (detected.value == [] || spec.ignoreBreakingChanges)
    && Validate(setup.lib, spec.template, objects, v).Invalid? && !spec.continueOnValidationError
  }

  /** Within one reconcile no success is recorded. */
  lemma {:induction false} NoSuccessWithin(setup: Setup, s: State, cs: seq<Choice>, key: Key)
    requires Conditions.Within(setup, s, cs, key)
    ensures Quiescence.Successes(setup, s, cs) == 0
  {
    var front, last := cs[..|cs| - 1], cs[|cs| - 1];
    assert cs[..|cs|] == cs;
    assert Exec(setup, s, cs) == At(setup, s, cs, |cs|);
    if front == [] {
      assert Exec(setup, s, front) == s;
    } else {
      assert forall j :: 0 <= j <= |front| ==> front[..j] == cs[..j];
      assert forall j :: 1 <= j <= |front| ==> At(setup, s, front, j) == At(setup, s, cs, j);
      NoSuccessWithin(setup, s, front, key);
      RecordEnds(setup, Exec(setup, s, front), last);
    }
  }

  lemma RecordEnds(setup: Setup, s: State, c: Choice)
    ensures Quiescence.Records(s, c) ==> Step(setup, s, c).run.Idle?
  {
  }

  lemma ValidationEnds(setup: Setup, s: State, d: Option<nat>, v: Option<nat>)
    requires FailsValidation(setup, s, d, v)
    ensures var t := Step(setup, s, Judge(d, v));
      && t == s.(run := Finishing(t.run.ctx, Stopped(s.run.batch)))
      && t.run.ctx.obj.status.ready == ReadyFalse(CRDValidationFailed)
  {
  }

  /** What is being judged was offered, and is still due while nobody else acts. */
  lemma JudgedIsDue(setup: Setup, s: State)
    requires Coherent(setup, s) && Quiescence.Tracking(setup, s) && s.run.Judging?
    ensures Quiescence.PendingAt(setup, s, s.run.ctx.key)
  {
    var c := s.run.ctx;
    var pick :| PickFits(setup.lib, setup.chain, s.upstream, c.before.spec, pick)
      && HasUpdate(setup.lib, setup.chain, s.upstream, c.before.spec, c.before.status.applied, Reached, pick)
         == Answered(true, s.run.batch.revision);
  }

  lemma FailedJudgement(setup: Setup, m: State, d: Option<nat>, v: Option<nat>, patch: bool)
    requires Coherent(setup, m) && FailsValidation(setup, m, d, v)
    ensures var t := Step(setup, Step(setup, m, Judge(d, v)), Patch(patch));
      t.run.Idle? && t.cluster == m.cluster && Quiescence.Pending(setup, t) == Quiescence.Pending(setup, m)
  {
    ValidationEnds(setup, m, d, v);
    StepKeepsCoherent(setup, m, Judge(d, v));
    FailureEnds(setup, m, Step(setup, m, Judge(d, v)), patch);
  }

  lemma FailureEnds(setup: Setup, m: State, e: State, patch: bool)
    requires Coherent(setup, e) && e.store == m.store && e.upstream == m.upstream
    requires e.run.Finishing? && e.run.ended.Stopped?
    ensures var t := Step(setup, e, Patch(patch));
      t.run.Idle? && t.cluster == e.cluster && Quiescence.Pending(setup, t) == Quiescence.Pending(setup, m)
  {
    Quiescence.OtherPatchKeepsPending(setup, e, patch);
    SameStorePending(setup, m, e);
    Delivery.PatchKeepsCluster(setup, e, patch);
  }

  /**
   A failed validation stops nothing: when validation ends a reconcile of a Bootstrap, and nobody but the
   controller acts, that Bootstrap is due again, as it was before, whether the patch lands or is lost; and
   so is every other one that was due.
   */
  lemma FailedValidationIsRetried(setup: Setup, s: State, cs: seq<Choice>, key: Key, d: Option<nat>, v: Option<nat>,
                                  patch: bool)
    requires Coherent(setup, s) && Quiescence.Quiet(cs) && Conditions.Within(setup, s, cs, key)
    requires FailsValidation(setup, Exec(setup, s, cs), d, v)
    ensures var m, t := Exec(setup, s, cs), Exec(setup, s, cs + [Judge(d, v)] + [Patch(patch)]);
      && t.run.Idle? && t.cluster == m.cluster && m.run.ctx.key == key
      && key in Quiescence.Pending(setup, t) && Quiescence.Pending(setup, t) == Quiescence.Pending(setup, s)
  {
    var m := Exec(setup, s, cs);
    var i := Conditions.HowItEnded(setup, s, cs, key);
    NoSuccessWithin(setup, s, cs, key);
    Quiescence.FailuresAreRetried(setup, s, cs);
    Quiescence.QuietKeepsTracking(setup, s, cs);
    JudgedIsDue(setup, m);
    ExecSnoc(setup, s, cs, Judge(d, v));
    ExecSnoc(setup, s, cs + [Judge(d, v)], Patch(patch));
    FailedJudgement(setup, m, d, v, patch);
  }
}
