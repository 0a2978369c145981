/** What reaches the cluster: which content, on which conditions, and nothing besides. */
module Delivery {
  import opened Basics
  import opened Api
  import opened Libraries
  import opened Gate
  import opened Manifest
  import opened Sources
  import opened Machine
  import Answers

  // ------------------------------------------------------------- the gate

  /** Every version of every object has a working validator that accepts the template of its kind. */
  predicate AllAccepted(lib: Lib, template: Option<map<string, Json>>, objects: seq<Object>) {
    template.Some? ==> forall o, v :: o in objects && v in o.versions ==> Accepted(lib, template.value, o.crdKind, v)
  }

  /**
   When exactly a reconcile whose lookups succeed gets to apply: no schema comparison fails; every
   object is clean, or breaking changes are ignored; and every version is accepted, or the failure
   is an error rather than a panic and validation errors are ignored.
   */
  lemma ApplyIsReachedExactly(setup: Setup, s: State)
    requires s.run.Judging?
    ensures var spec, objects := s.run.ctx.obj.spec, s.run.batch.objects;
      JudgeStep(setup, s, None, None).run.Applying?
      <==> && (forall o :: o in objects ==> ObjectChanges(setup.lib, s.cluster, o).Some?)
           && ((forall o :: o in objects ==> Clean(setup.lib, s.cluster, o)) || spec.ignoreBreakingChanges)
           && (AllAccepted(setup.lib, spec.template, objects)
               || (spec.continueOnValidationError && Validate(setup.lib, spec.template, objects, None).Invalid?))
  {
    var spec, objects := s.run.ctx.obj.spec, s.run.batch.objects;
    BatchIsCleanExactly(setup.lib, s.cluster, objects, None);
    ValidExactly(setup.lib, spec.template, objects);
    RulingAppliesExactly(s.run.ctx, s.run.batch, DetectAll(setup.lib, s.cluster, objects, None),
                         Validate(setup.lib, spec.template, objects, None));
  }

  lemma RulingAppliesExactly(c: Ctx, batch: Batch, detected: Option<seq<string>>, verdict: Verdict)
    ensures Ruling(c, batch, detected, verdict).Applying?
       <==> && detected.Some? && (detected.value == [] || c.obj.spec.ignoreBreakingChanges)
            && (verdict.Valid? || (verdict.Invalid? && c.obj.spec.continueOnValidationError))
  {
  }

  // ------------------------------------------------------------- the frame

  /**
   A step changes a cluster at one place at most, and only in these two ways: an apply overwrites the
   CRD named by an object of CRD kind in the manifest that was fetched, in the target of the
   Bootstrap, labelled with its name; or a prune deletes a local CRD that carries the name of the
   Bootstrap being deleted.
   */
  lemma ChangesComeFromManifest(setup: Setup, s: State, c: Choice, k: CrdKey)
    requires Coherent(setup, s)
    requires var t := Step(setup, s, c);
      (k in s.cluster) != (k in t.cluster) || (k in s.cluster && s.cluster[k] != t.cluster[k])
    ensures var t := Step(setup, s, c);
      || (s.run.Pruning? && k in Owned(s.cluster, s.run.ctx.key.name) && k !in t.cluster)
      || (&& s.run.Applying? && Crds(setup.lib, s.run.batch.content).Some?
          && exists o :: o in Crds(setup.lib, s.run.batch.content).value && o.kind == CRD_KIND
               && k == CrdKey(TargetOf(s.run.ctx.before.spec), o.name)
               && k in t.cluster && t.cluster[k] == Installed(map[OWNER_LABEL := s.run.ctx.key.name], o.versions))
  {
    if c.ApplyOne? && s.run.Applying? {
      var o := s.run.pending[c.index];
      assert o in s.run.batch.objects;
      var read := Crds(setup.lib, s.run.batch.content).value;
      var i :| 0 <= i < |read| && Labelled(read[i], s.run.ctx.key.name) == o;
      ReadsExactlyTheCrds(setup.lib, s.run.batch.content, read[i]);
      assert read[i] in read;
    } else if c.DeleteOne? && s.run.Pruning? {
      assert CrdKey(Local, s.run.items[0]) in LocalKeys(s.run.items);
    } else if !c.Patch? && !c.Outside? {
      OnlyPatchesTouchStore(setup, s, c);
    }
  }

  predicate WritesCluster(s: State) { s.run.Applying? || s.run.Pruning? }

  /** The reconcile is neither applying nor done applying. */
  predicate Elsewhere(run: Run) { !run.Applying? && !(run.Finishing? && run.ended.Done?) }

  lemma OtherStepsStayElsewhere(setup: Setup, s: State, c: Choice)
    requires c.Start? || c.Fetch? || c.Read? || c.List? || c.DeleteOne?
    ensures var t := Step(setup, s, c); t == s || Elsewhere(t.run)
  {
    if c.Read? && s.run.Reading? {
      ReadFrame(setup, s, c.manager, c.readable);
    }
  }

  lemma JudgeShape(c: Ctx, batch: Batch, detected: Option<seq<string>>, verdict: Verdict)
    ensures var r := Ruling(c, batch, detected, verdict); r.Applying? || r == Finishing(r.ctx, Stopped(batch))
  {
  }

  /** A reconcile that is not done holds the applied revision that is stored. */
  lemma AppliedIsHeld(setup: Setup, s: State)
    requires Coherent(setup, s) && Elsewhere(s.run) && (s.run.Finishing? || s.run.Releasing?)
    ensures var c := s.run.ctx; c.key in s.store ==> c.obj.status.applied == s.store[c.key].status.applied
  {
  }

  lemma PatchedKeepsApplied(s: State, key: Key)
    requires !s.run.Idle? && s.run.ctx.key in s.store && key in s.store && key in Patched(s)
    requires s.run.ctx.obj.status.applied == s.store[s.run.ctx.key].status.applied
    ensures Patched(s)[key].status.applied == s.store[key].status.applied
  {
  }

  lemma PatchKeepsCluster(setup: Setup, s: State, ok: bool)
    ensures var t := Step(setup, s, Patch(ok)); t.cluster == s.cluster && (t == s || t.run.Idle?)
  {
  }

  lemma PatchKeepsApplied(setup: Setup, s: State, ok: bool, key: Key)
    requires Coherent(setup, s) && Elsewhere(s.run)
    requires key in s.store && key in Step(setup, s, Patch(ok)).store
    ensures Step(setup, s, Patch(ok)).store[key].status.applied == s.store[key].status.applied
  {
    PatchWrites(setup, s, ok);
    if s.run.Finishing? || s.run.Releasing? {
      AppliedIsHeld(setup, s);
      if s.run.ctx.key in s.store && key in Patched(s) {
        PatchedKeepsApplied(s, key);
      }
    }
  }

  lemma StepFrame(setup: Setup, s: State, c: Choice, key: Key)
    requires Coherent(setup, s) && Elsewhere(s.run) && !s.run.Pruning?
    ensures var t := Step(setup, s, c);
      && t.cluster == s.cluster && (Elsewhere(t.run) || t.run.Applying?)
      && (key in s.store && key in t.store ==> t.store[key].status.applied == s.store[key].status.applied)
  {
    match c
    case Patch(ok) =>
      PatchKeepsCluster(setup, s, ok);
      if key in s.store && key in Step(setup, s, c).store {
        PatchKeepsApplied(setup, s, ok, key);
      }
    case Outside(move) =>
      OutsideKeepsRun(s, move);
      if key in s.store && key in OutsideStep(s, move).store {
        OutsideKeepsStatus(s, move, key);
      }
    case Check(reach, pick) => if s.run.Checking? { CheckFrame(setup, s, reach, pick); }
    case Judge(d, v) => if s.run.Judging? { JudgeFrame(setup, s, d, v); }
    case ApplyOne(index) =>
    case ApplyEnd(ok, ready) =>
    case DeleteOne(ok) =>
    case _ =>
      OnlyPatchesTouchStore(setup, s, c);
      OtherStepsStayElsewhere(setup, s, c);
  }

  lemma JudgeFrame(setup: Setup, s: State, d: Option<nat>, v: Option<nat>)
    requires s.run.Judging?
    ensures var t := JudgeStep(setup, s, d, v); t == s.(run := t.run) && (Elsewhere(t.run) || t.run.Applying?)
  {
    JudgeShape(s.run.ctx, s.run.batch, DetectAll(setup.lib, s.cluster, s.run.batch.objects, d),
               Validate(setup.lib, s.run.ctx.obj.spec.template, s.run.batch.objects, v));
  }

  /**
   Failing before the apply changes nothing: over any stretch of steps in which no reconcile gets as
   far as applying or pruning, all clusters and all applied revisions stay as they were.
   */
  lemma {:induction false} FailingEarlyChangesNothing(setup: Setup, s: State, cs: seq<Choice>, key: Key)
    requires Coherent(setup, s) && s.run.Idle?
    requires forall i :: 0 <= i <= |cs| ==> !WritesCluster(At(setup, s, cs, i)) && key in At(setup, s, cs, i).store
    ensures Exec(setup, s, cs).cluster == s.cluster
    ensures key in s.store && key in Exec(setup, s, cs).store
    ensures Exec(setup, s, cs).store[key].status.applied == s.store[key].status.applied
    ensures !(Exec(setup, s, cs).run.Finishing? && Exec(setup, s, cs).run.ended.Done?)
  {
    assert cs[..|cs|] == cs && cs[..0] == [];
    assert key in At(setup, s, cs, 0).store && key in At(setup, s, cs, |cs|).store;
    if cs != [] {
      var front := cs[..|cs| - 1];
      assert forall i :: 0 <= i <= |front| ==> front[..i] == cs[..i];
      assert forall i :: 0 <= i <= |front| ==> At(setup, s, front, i) == At(setup, s, cs, i);
      FailingEarlyChangesNothing(setup, s, front, key);
      ExecKeepsCoherent(setup, s, front);
      assert Exec(setup, s, front) == At(setup, s, cs, |front|);
      assert Exec(setup, s, cs) == At(setup, s, cs, |cs|);
      StepFrame(setup, Exec(setup, s, front), cs[|cs| - 1], key);
    }
  }

  // --------------------------------------------------- all of the batch arrives

  /** The CRD holds what some object of the batch says. */
  predicate Holds(cluster: Cluster, k: CrdKey, objects: seq<Object>) {
    k in cluster && exists p :: p in objects && p.name == k.name && cluster[k] == Installed(p.labels, p.versions)
  }

  predicate Arriving(s: State) {
    match s.run
    case Applying(c, b, pending) =>
      forall o :: o in b.objects ==>
        o in pending || Holds(s.cluster, CrdKey(TargetOf(c.before.spec), o.name), b.objects)
    case Finishing(c, Done(b)) =>
      forall o :: o in b.objects ==> Holds(s.cluster, CrdKey(TargetOf(c.before.spec), o.name), b.objects)
    case _ => true
  }

  lemma ApplyOneArrives(setup: Setup, s: State, index: nat)
    requires Coherent(setup, s) && Arriving(s) && s.run.Applying?
    ensures Arriving(ApplyOneStep(s, index))
  {
    if index < |s.run.pending| {
      var c, b, o := s.run.ctx, s.run.batch, s.run.pending[index];
      var t := ApplyOneStep(s, index);
      var at := CrdKey(TargetOf(c.before.spec), o.name);
      assert o in s.run.pending;
      assert Holds(t.cluster, at, b.objects);
      forall p | p in b.objects
        ensures p in t.run.pending || Holds(t.cluster, CrdKey(TargetOf(c.before.spec), p.name), b.objects)
      {
        var there := CrdKey(TargetOf(c.before.spec), p.name);
        WithoutKeepsOthers(s.run.pending, index, p);
        if p !in s.run.pending && there != at {
          assert Holds(s.cluster, there, b.objects);
        }
      }
    }
  }

  lemma WithoutKeepsOthers<T>(xs: seq<T>, i: nat, x: T)
    requires i < |xs|
    ensures x in xs && x != xs[i] ==> x in Without(xs, i)
  {
    if x in xs && x != xs[i] {
      var j :| 0 <= j < |xs| && xs[j] == x;
      if j < i {
        assert Without(xs, i)[j] == x;
      } else {
        assert Without(xs, i)[j - 1] == x;
      }
    }
  }

  lemma ApplyStarts(c: Ctx, batch: Batch, detected: Option<seq<string>>, verdict: Verdict)
    ensures var r := Ruling(c, batch, detected, verdict);
      r.Applying? ==> r.batch == batch && r.pending == batch.objects && r.ctx.before == c.before
  {
  }

  lemma ApplyEndArrives(setup: Setup, s: State, ok: bool, ready: bool)
    requires Coherent(setup, s) && Arriving(s) && s.run.Applying?
    ensures Arriving(ApplyEndStep(s, ok, ready))
  {
  }

  lemma JudgeArrives(setup: Setup, s: State, d: Option<nat>, v: Option<nat>)
    requires s.run.Judging?
    ensures Arriving(JudgeStep(setup, s, d, v))
  {
    var detected := DetectAll(setup.lib, s.cluster, s.run.batch.objects, d);
    var verdict := Validate(setup.lib, s.run.ctx.obj.spec.template, s.run.batch.objects, v);
    JudgeShape(s.run.ctx, s.run.batch, detected, verdict);
    ApplyStarts(s.run.ctx, s.run.batch, detected, verdict);
  }

  lemma StepKeepsArriving(setup: Setup, s: State, c: Choice)
    requires Coherent(setup, s) && Arriving(s)
    ensures Arriving(Step(setup, s, c))
  {
    match c
    case ApplyOne(index) => if s.run.Applying? { ApplyOneArrives(setup, s, index); }
    case ApplyEnd(ok, ready) => if s.run.Applying? { ApplyEndArrives(setup, s, ok, ready); }
    case Check(reach, pick) => if s.run.Checking? { CheckFrame(setup, s, reach, pick); }
    case Judge(d, v) => if s.run.Judging? { JudgeArrives(setup, s, d, v); }
    case Outside(move) => OutsideKeepsRun(s, move);
    case Patch(ok) => PatchWrites(setup, s, ok);
    case _ => OtherStepsStayElsewhere(setup, s, c);
  }

  // --------------------------------------------------- revision and content

  /** The content the reconcile in flight works on, once it has one. */
  function Carried(run: Run): Option<(string, string)> {
    match run
    case Reading(_, revision, content) => Some((revision, content))
    case Judging(_, b) => Some((b.revision, b.content))
    case Applying(_, b, _) => Some((b.revision, b.content))
    case Finishing(_, Stopped(b)) => Some((b.revision, b.content))
    case Finishing(_, Done(b)) => Some((b.revision, b.content))
    case _ => None
  }

  /** The reconcile goes on with the same pre-image and the same content. */
  predicate CarriesOn(s: State, t: State) {
    Carried(s.run).Some? && Carried(t.run) == Carried(s.run) && t.run.ctx.before == s.run.ctx.before
  }

  predicate FetchesNow(setup: Setup, s: State, t: State) {
    && s.run.Fetching? && t.run.Reading? && t.run.ctx.before == s.run.ctx.before && t.run.revision == s.run.revision
    && FetchCRD(setup.chain, s.upstream, s.run.ctx.before.spec, t.run.revision, Reached) == Content(t.run.content)
  }

  lemma JudgeCarries(setup: Setup, s: State, d: Option<nat>, v: Option<nat>)
    requires s.run.Judging?
    ensures CarriesOn(s, JudgeStep(setup, s, d, v))
  {
    var detected := DetectAll(setup.lib, s.cluster, s.run.batch.objects, d);
    var verdict := Validate(setup.lib, s.run.ctx.obj.spec.template, s.run.batch.objects, v);
    JudgeShape(s.run.ctx, s.run.batch, detected, verdict);
    ApplyStarts(s.run.ctx, s.run.batch, detected, verdict);
    RulingStays(s.run.ctx, s.run.batch, detected, verdict);
  }

  lemma ReadCarries(setup: Setup, s: State, manager: bool, readable: bool)
    requires s.run.Reading? && Carried(ReadStep(setup, s, manager, readable).run).Some?
    ensures CarriesOn(s, ReadStep(setup, s, manager, readable))
  {
  }

  lemma ApplyCarries(setup: Setup, s: State, c: Choice)
    requires s.run.Applying? && (c.ApplyOne? || c.ApplyEnd?)
    ensures CarriesOn(s, Step(setup, s, c))
  {
  }

  lemma PatchCarries(setup: Setup, s: State, ok: bool)
    requires Coherent(setup, s) && Carried(Step(setup, s, Patch(ok)).run).Some?
    ensures CarriesOn(s, Step(setup, s, Patch(ok)))
  {
    PatchWrites(setup, s, ok);
  }

  lemma OutsideCarries(s: State, m: Move)
    requires Carried(OutsideStep(s, m).run).Some?
    ensures CarriesOn(s, OutsideStep(s, m))
  {
  }

  /** A step that carries content either fetched it now or carried it before. */
  lemma CarriedStep(setup: Setup, s: State, c: Choice)
    requires Coherent(setup, s) && Carried(Step(setup, s, c).run).Some?
    ensures CarriesOn(s, Step(setup, s, c)) || FetchesNow(setup, s, Step(setup, s, c))
  {
    match c
    case Check(reach, pick) => if s.run.Checking? { CheckFrame(setup, s, reach, pick); }
    case Judge(d, v) => if s.run.Judging? { JudgeCarries(setup, s, d, v); }
    case Fetch(temp, reach) => if s.run.Fetching? { FetchCarries(setup, s, temp, reach); }
    case Read(manager, readable) => if s.run.Reading? { ReadCarries(setup, s, manager, readable); }
    case Outside(move) => OutsideCarries(s, move);
    case Patch(ok) => PatchCarries(setup, s, ok);
    case ApplyOne(index) => if s.run.Applying? { ApplyCarries(setup, s, c); }
    case ApplyEnd(ok, ready) => if s.run.Applying? { ApplyCarries(setup, s, c); }
    case Start(key) =>
    case List(ok, items) =>
    case DeleteOne(ok) =>
  }

  lemma FetchCarries(setup: Setup, s: State, temp: bool, reach: Reach)
    requires Coherent(setup, s) && s.run.Fetching? && FetchStep(setup, s, temp, reach).run.Reading?
    ensures var t := FetchStep(setup, s, temp, reach);
      && t.run.ctx == s.run.ctx && t.run.revision == s.run.revision
      && FetchCRD(setup.chain, s.upstream, s.run.ctx.before.spec, t.run.revision, Reached) == Content(t.run.content)
  {
    if !reach.Reached? {
      UnreachableFetchesNothing(setup.chain, s.upstream, s.run.ctx.obj.spec, s.run.revision, reach);
    }
  }

  lemma UnreachableFetchesNothing(chain: Chain, up: Upstream, spec: Spec, revision: string, reach: Reach)
    requires !reach.Reached?
    ensures !FetchCRD(chain, up, spec, revision, reach).Content?
    decreases chain
  {
    if !Handles(chain.kind, spec.source) && chain.next.Some? {
      UnreachableFetchesNothing(chain.next.value, up, spec, revision, reach);
    }
  }

  /** The fetch that step j made is the one whose content the run still carries. */
  ghost predicate FetchedAt(setup: Setup, s: State, cs: seq<Choice>, j: nat) {
    var end := Exec(setup, s, cs);
    && j < |cs| && Carried(end.run).Some?
    && At(setup, s, cs, j).run.Fetching? && At(setup, s, cs, j).run.revision == Carried(end.run).value.0
    && At(setup, s, cs, j).run.ctx.before == end.run.ctx.before
    && FetchCRD(setup.chain, At(setup, s, cs, j).upstream, end.run.ctx.before.spec,
                Carried(end.run).value.0, Reached) == Content(Carried(end.run).value.1)
    && (forall i :: j < i <= |cs| ==> Carried(At(setup, s, cs, i).run) == Carried(end.run))
  }

  /** What was fetched at step j and is carried on by one more step was fetched at step j. */
  lemma FetchedStays(setup: Setup, s: State, cs: seq<Choice>, c: Choice, j: nat)
    requires FetchedAt(setup, s, cs, j) && CarriesOn(Exec(setup, s, cs), Exec(setup, s, cs + [c]))
    ensures FetchedAt(setup, s, cs + [c], j)
  {
    var all := cs + [c];
    assert all[..j] == cs[..j];
    assert all[..|all|] == all;
    forall i | j < i <= |all| ensures Carried(At(setup, s, all, i).run) == Carried(Exec(setup, s, all).run) {
      if i < |all| {
        assert all[..i] == cs[..i];
        assert At(setup, s, all, i) == At(setup, s, cs, i);
      }
    }
  }

  lemma FetchedNow(setup: Setup, s: State, cs: seq<Choice>, c: Choice)
    requires FetchesNow(setup, Exec(setup, s, cs), Exec(setup, s, cs + [c]))
    ensures FetchedAt(setup, s, cs + [c], |cs|)
  {
    var all := cs + [c];
    assert all[..|cs|] == cs && all[..|all|] == all;
  }

  lemma {:induction false} CarriedWasFetched(setup: Setup, s: State, cs: seq<Choice>) returns (j: nat)
    requires Coherent(setup, s) && s.run.Idle?
    requires Carried(Exec(setup, s, cs).run).Some?
    ensures FetchedAt(setup, s, cs, j)
  {
    var front, last := cs[..|cs| - 1], cs[|cs| - 1];
    assert cs == front + [last];
    ExecKeepsCoherent(setup, s, front);
    CarriedStep(setup, Exec(setup, s, front), last);
    if CarriesOn(Exec(setup, s, front), Exec(setup, s, cs)) {
      j := CarriedWasFetched(setup, s, front);
      FetchedStays(setup, s, front, last, j);
    } else {
      j := |front|;
      FetchedNow(setup, s, front, last);
    }
  }

  /**
   Revision and content agree, whatever is edited or published between HasUpdate and FetchCRD: when a
   reconcile ends as having applied revision r, its content is what the source at which the chain ends
   had under r, read by a step of that very reconcile; its objects are the CRDs of that content; and the
   cluster holds one of them under each of their names. Only a URL has no revisions to go by.
   */
  lemma RevisionMatchesContent(setup: Setup, s: State, cs: seq<Choice>) returns (j: nat, k: Kind)
    requires Coherent(setup, s) && s.run.Idle?
    requires Exec(setup, s, cs).run.Finishing? && Exec(setup, s, cs).run.ended.Done?
    ensures var m := Exec(setup, s, cs);
      var key, b, spec := m.run.ctx.key, m.run.ended.batch, m.run.ctx.before.spec;
      && b.revision == m.run.ctx.obj.status.applied
      && FetchedAt(setup, s, cs, j) && FirstSet(Kinds(setup.chain), spec.source, k)
      && Answers.Publishes(At(setup, s, cs, j).upstream, k, spec, b.revision, b.content)
      && Crds(setup.lib, b.content).Some?
      && b.objects == LabelAll(Crds(setup.lib, b.content).value, key.name)
      && (forall o :: o in b.objects ==> Holds(m.cluster, CrdKey(TargetOf(spec), o.name), b.objects))
  {
    var m := Exec(setup, s, cs);
    j := CarriedWasFetched(setup, s, cs);
    ExecKeepsCoherent(setup, s, cs);
    ExecKeepsArriving(setup, s, cs);
    k := Answers.FetchedFromOne(setup.lib, setup.chain, At(setup, s, cs, j).upstream, m.run.ctx.before.spec,
                                m.run.ended.batch.revision, m.run.ended.batch.content);
  }

  lemma {:induction false} ExecKeepsArriving(setup: Setup, s: State, cs: seq<Choice>)
    requires Coherent(setup, s) && Arriving(s)
    ensures Arriving(Exec(setup, s, cs))
  {
    if cs != [] {
      ExecKeepsArriving(setup, s, cs[..|cs| - 1]);
      ExecKeepsCoherent(setup, s, cs[..|cs| - 1]);
      StepKeepsArriving(setup, Exec(setup, s, cs[..|cs| - 1]), cs[|cs| - 1]);
    }
  }
}
