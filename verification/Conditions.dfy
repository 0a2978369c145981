/** What the stored Ready condition tells about the reconcile that stored it. */
module Conditions {
  import opened Basics
  import opened Api
  import opened Gate
  import opened Manifest
  import opened Sources
  import opened Machine
  import Delivery

  /** The reconcile is under way: it may still apply something. */
  predicate Underway(run: Run) {
    run.Checking? || run.Fetching? || run.Reading? || run.Judging? || run.Applying?
  }

  function AnswerAt(setup: Setup, s: State, reach: Reach, pick: string): Answer
    requires s.run.Checking?
  {
    var o := s.run.ctx.obj;
    HasUpdate(setup.lib, setup.chain, s.upstream, o.spec, o.status.applied, reach, pick)
  }

  /** Detection is made and finds nothing, or what it finds is ignored. */
  predicate DetectionPasses(setup: Setup, s: State, d: Option<nat>)
    requires s.run.Judging?
  {
    var detected := DetectAll(setup.lib, s.cluster, s.run.batch.objects, d);
    detected.Some? && (detected.value == [] || s.run.ctx.obj.spec.ignoreBreakingChanges)
  }

  /** HasUpdate fails or panics, or FetchCRD or validation panics: then no condition is set at all. */
  predicate Silent(setup: Setup, s: State, c: Choice) {
    match c
    case Check(reach, pick) => s.run.Checking? && !AnswerAt(setup, s, reach, pick).Answered?
    case Fetch(temp, reach) =>
      s.run.Fetching? && temp
      && FetchCRD(setup.chain, s.upstream, s.run.ctx.obj.spec, s.run.revision, reach) == FetchPanic
    case Judge(d, v) =>
      && s.run.Judging? && DetectionPasses(setup, s, d)
      && Validate(setup.lib, s.run.ctx.obj.spec.template, s.run.batch.objects, v).Panics?
    case _ => false
  }

  /** The source answers that there is nothing to do, or everything is written and seen ready. */
  predicate Succeeds(setup: Setup, s: State, c: Choice) {
    match c
    case Check(reach, pick) =>
      s.run.Checking? && AnswerAt(setup, s, reach, pick).Answered? && !AnswerAt(setup, s, reach, pick).update
    case ApplyEnd(ok, ready) => s.run.Applying? && s.run.pending == [] && ok && ready
    case _ => false
  }

  /** What has to be the case in this step for the reason to be given. */
  predicate Causes(setup: Setup, s: State, c: Choice, reason: Reason) {
    match reason
    case TempFolderFailedToCreate => s.run.Fetching? && c.Fetch? && !c.temp
    case CRDFetchFailed =>
      && s.run.Fetching? && c.Fetch? && c.temp
      && FetchCRD(setup.chain, s.upstream, s.run.ctx.obj.spec, s.run.revision, c.reach) == FetchError
    case ResourceManagerCreateFailed => s.run.Reading? && c.Read? && !c.manager
    case ReadingObjectsToApplyFailed =>
      && s.run.Reading? && c.Read? && c.manager
      && (!c.readable || exists d :: d in Documents(s.run.content) && setup.lib.parseDocument(d).None?)
    case BreakingChangeDetectionFailed =>
      s.run.Judging? && c.Judge? && DetectAll(setup.lib, s.cluster, s.run.batch.objects, c.detectFailAt).None?
    case BreakingChangeDetected =>
      && s.run.Judging? && c.Judge? && !s.run.ctx.obj.spec.ignoreBreakingChanges
      && var detected := DetectAll(setup.lib, s.cluster, s.run.batch.objects, c.detectFailAt);
      detected.Some? && detected.value != []
    case CRDValidationFailed =>
      && s.run.Judging? && c.Judge? && DetectionPasses(setup, s, c.detectFailAt)
      && !s.run.ctx.obj.spec.continueOnValidationError
      && Validate(setup.lib, s.run.ctx.obj.spec.template, s.run.batch.objects, c.validateFailAt).Invalid?
    case ApplyingCRDSFailed => s.run.Applying? && c.ApplyEnd? && !c.ok
    case WaitingOnObjectsFailed => s.run.Applying? && c.ApplyEnd? && c.ok && s.run.pending == [] && !c.ready
  }

  /** The condition that a reconcile ending with this step should leave: success, or the one reason that has a cause. */
  predicate Tells(setup: Setup, s: State, c: Choice, ready: Ready) {
    if Succeeds(setup, s, c) then ready == ReadyTrue else ready.ReadyFalse? && Causes(setup, s, c, ready.reason)
  }

  /** No step is a cause for two reasons, or for one and for success. */
  lemma CauseIsUnique(setup: Setup, s: State, c: Choice, p: Reason, q: Reason)
    requires Causes(setup, s, c, p)
    ensures Causes(setup, s, c, q) ==> p == q
    ensures !Succeeds(setup, s, c)
  {
  }

  // ------------------------------------------------------------- one step

  /** In memory: what the last step before the patch leaves. */
  predicate Leaves(setup: Setup, s: State, c: Choice, end: Run)
    requires Underway(s.run) && end.Finishing?
  {
    var ready := end.ctx.obj.status.ready;
    if Silent(setup, s, c) then ready == s.run.ctx.obj.status.ready else Tells(setup, s, c, ready)
  }

  /** Still at some stage of the same reconcile, and the condition not touched yet. */
  predicate Continues(was: Run, run: Run)
    requires Underway(was)
  {
    && Underway(run) && run.ctx.key == was.ctx.key && run.ctx.before == was.ctx.before
    && run.ctx.obj.status.ready == was.ctx.obj.status.ready
  }

  lemma CheckTells(setup: Setup, s: State, reach: Reach, pick: string)
    requires s.run.Checking?
    ensures var run := CheckStep(setup, s, reach, pick).run;
      if run.Finishing? then Leaves(setup, s, Check(reach, pick), run) else Continues(s.run, run)
  {
  }

  lemma FetchTells(setup: Setup, s: State, temp: bool, reach: Reach)
    requires s.run.Fetching?
    ensures var run := FetchStep(setup, s, temp, reach).run;
      if run.Finishing? then Leaves(setup, s, Fetch(temp, reach), run) else Continues(s.run, run)
  {
  }

  lemma ReadTells(setup: Setup, s: State, manager: bool, readable: bool)
    requires s.run.Reading?
    ensures var run := ReadStep(setup, s, manager, readable).run;
      if run.Finishing? then Leaves(setup, s, Read(manager, readable), run) else Continues(s.run, run)
  {
    ReadsExactlyTheCrds(setup.lib, s.run.content, Object("", "", map[], "", []));
  }

  lemma JudgeTells(setup: Setup, s: State, d: Option<nat>, v: Option<nat>)
    requires s.run.Judging?
    ensures var run := JudgeStep(setup, s, d, v).run;
      if run.Finishing? then Leaves(setup, s, Judge(d, v), run) else Continues(s.run, run)
  {
  }

  lemma ApplyTells(setup: Setup, s: State, ok: bool, ready: bool)
    requires s.run.Applying?
    ensures var run := ApplyEndStep(s, ok, ready).run;
      if run.Finishing? then Leaves(setup, s, ApplyEnd(ok, ready), run) else Continues(s.run, run)
  {
  }

  lemma StageStep(setup: Setup, s: State, c: Choice)
    requires Underway(s.run)
    ensures var run := Step(setup, s, c).run;
      if run.Finishing? then Leaves(setup, s, c, run) else Continues(s.run, run)
  {
    match c
    case Outside(move) => OutsideKeepsRun(s, move);
    case Check(reach, pick) => if s.run.Checking? { CheckTells(setup, s, reach, pick); }
    case Fetch(temp, reach) => if s.run.Fetching? { FetchTells(setup, s, temp, reach); }
    case Read(manager, readable) => if s.run.Reading? { ReadTells(setup, s, manager, readable); }
    case Judge(d, v) => if s.run.Judging? { JudgeTells(setup, s, d, v); }
    case ApplyEnd(ok, ready) => if s.run.Applying? { ApplyTells(setup, s, ok, ready); }
    case _ =>
  }

  /** What has ended waits for its patch, and a deletion never ends like this. */
  lemma EndedStays(setup: Setup, s: State, c: Choice)
    requires !s.run.Idle? && !Underway(s.run)
    ensures var run := Step(setup, s, c).run; run.Idle? || run == s.run || (Deleting(s.run) && Deleting(run))
  {
    if c.Outside? {
      OutsideKeepsRun(s, c.move);
    }
  }

  // --------------------------------------------------------- one reconcile

  /** A run that starts a reconcile of this Bootstrap and is still in it at every later step. */
  predicate Within(setup: Setup, s: State, cs: seq<Choice>, key: Key) {
    && s.run.Idle? && |cs| > 0 && cs[0] == Start(key)
    && forall i :: 1 <= i <= |cs| ==> !At(setup, s, cs, i).run.Idle?
  }

  /** The reconcile ended with step i: until then the condition was the stored one, from then on nothing changes. */
  predicate EndedAt(setup: Setup, s: State, cs: seq<Choice>, key: Key, i: nat) {
    && 1 <= i < |cs| && key in s.store
    && var m := At(setup, s, cs, i);
    && Underway(m.run) && m.run.ctx.key == key && m.run.ctx.before == s.store[key]
    && m.run.ctx.obj.status.ready == s.store[key].status.ready
    && At(setup, s, cs, i + 1).run == Exec(setup, s, cs).run
    && Exec(setup, s, cs).run.Finishing? && Leaves(setup, m, cs[i], Exec(setup, s, cs).run)
  }

  /** Before the end: at some stage, with the stored condition in memory; or a deletion. */
  predicate StillAt(s: State, run: Run, key: Key) {
    || Deleting(run)
    || (&& Underway(run) && key in s.store && run.ctx.key == key && run.ctx.before == s.store[key]
        && run.ctx.obj.status.ready == s.store[key].status.ready)
  }

  lemma StartStands(s: State, key: Key)
    requires s.run.Idle? && !StartStep(s, key).run.Idle?
    ensures StillAt(s, StartStep(s, key).run, key)
  {
  }

  lemma EndedOnce(setup: Setup, s: State, cs: seq<Choice>, c: Choice, key: Key, i: nat)
    requires EndedAt(setup, s, cs, key, i) && Exec(setup, s, cs + [c]).run == Exec(setup, s, cs).run
    ensures EndedAt(setup, s, cs + [c], key, i)
  {
    assert (cs + [c])[..i] == cs[..i] && (cs + [c])[..i + 1] == cs[..i + 1];
  }

  lemma EndsNow(setup: Setup, s: State, cs: seq<Choice>, c: Choice, key: Key)
    requires |cs| >= 1 && StillAt(s, Exec(setup, s, cs).run, key) && Underway(Exec(setup, s, cs).run)
    requires Step(setup, Exec(setup, s, cs), c).run.Finishing?
    ensures EndedAt(setup, s, cs + [c], key, |cs|)
  {
    var all := cs + [c];
    assert all[..|cs|] == cs && all[..|cs| + 1] == all;
    ExecSnoc(setup, s, cs, c);
    StageStep(setup, Exec(setup, s, cs), c);
  }

  lemma {:induction false} HowItEnded(setup: Setup, s: State, cs: seq<Choice>, key: Key) returns (i: nat)
    requires Within(setup, s, cs, key)
    ensures var run := Exec(setup, s, cs).run;
      if run.Finishing? then EndedAt(setup, s, cs, key, i) else StillAt(s, run, key)
  {
    i := 0;
    var front, last := cs[..|cs| - 1], cs[|cs| - 1];
    assert cs == front + [last] && cs[..|cs|] == cs;
    assert Exec(setup, s, cs) == At(setup, s, cs, |cs|);
    if front == [] {
      assert cs == [Start(key)];
      ExecOne(setup, s, Start(key));
      StartStands(s, key);
    } else {
      assert forall j :: 0 <= j <= |front| ==> front[..j] == cs[..j];
      assert forall j :: 1 <= j <= |front| ==> At(setup, s, front, j) == At(setup, s, cs, j);
      i := HowItEnded(setup, s, front, key);
      var m := Exec(setup, s, front);
      assert m == At(setup, s, front, |front|) by { assert front[..|front|] == front; }
      if Underway(m.run) {
        StageStep(setup, m, last);
        if Step(setup, m, last).run.Finishing? {
          EndsNow(setup, s, front, last, key);
          i := |front|;
        }
      } else {
        EndedStays(setup, m, last);
        if m.run.Finishing? {
          EndedOnce(setup, s, front, last, key, i);
        }
      }
    }
  }

  lemma EndKeepsFinalizer(setup: Setup, s: State)
    requires Coherent(setup, s) && s.run.Finishing?
    ensures s.run.ctx.obj.finalizer && Undisturbed(s, s.run.ctx)
  {
  }

  /** A patch that lands stores the condition that is in memory. */
  lemma LandedIsStored(s: State)
    requires s.run.Finishing? && Lands(s, s.run.ctx) && s.run.ctx.obj.finalizer && Undisturbed(s, s.run.ctx)
    ensures var t, c := FinishStep(s, true), s.run.ctx;
      && c.key in t.store && t.store[c.key].status == c.obj.status && t.cluster == s.cluster
  {
    MergeWritesObject(s, s.run.ctx);
  }

  lemma PatchStores(setup: Setup, s: State)
    requires Coherent(setup, s) && s.run.Finishing? && Lands(s, s.run.ctx)
    ensures var t, c := Step(setup, s, Patch(true)), s.run.ctx;
      && c.key in t.store && t.store[c.key].status == c.obj.status && t.cluster == s.cluster
  {
    EndKeepsFinalizer(setup, s);
    LandedIsStored(s);
    assert Step(setup, s, Patch(true)) == FinishStep(s, true);
  }

  lemma SameSince(setup: Setup, s: State, cs: seq<Choice>, key: Key, i: nat)
    requires Coherent(setup, s) && EndedAt(setup, s, cs, key, i)
    ensures var run := Exec(setup, s, cs).run; run.ctx.key == key && run.ctx.before == s.store[key]
  {
    assert cs[..i + 1][..i] == cs[..i];
    SameReconcile(setup, At(setup, s, cs, i), cs[i]);
  }

  lemma DoneHasArrived(setup: Setup, s: State, target: Target)
    requires s.run.Finishing? && Delivery.Arriving(s) && TargetOf(s.run.ctx.before.spec) == target
    ensures s.run.ended.Done? ==> forall o :: o in s.run.ended.batch.objects ==>
      Delivery.Holds(s.cluster, CrdKey(target, o.name), s.run.ended.batch.objects)
  {
  }

  lemma LeftAtEnd(setup: Setup, s: State, cs: seq<Choice>, key: Key, i: nat)
    requires EndedAt(setup, s, cs, key, i)
    ensures var ready := Exec(setup, s, cs).run.ctx.obj.status.ready;
      if Silent(setup, At(setup, s, cs, i), cs[i]) then ready == s.store[key].status.ready
      else Tells(setup, At(setup, s, cs, i), cs[i], ready)
  {
  }

  /**
   The stored condition, over a whole reconcile, from its start to the patch that lands, with others
   acting in between: it is true exactly when the source said that there is nothing to do, or
   everything was written and seen ready, and then the cluster holds a CRD of the batch under each of
   its names; otherwise it is false with the one reason that step i, which ended the reconcile, is a
   cause for. Only when HasUpdate fails, or something panics, it is what it was before.
   */
  lemma ReadyTellsOutcome(setup: Setup, s: State, cs: seq<Choice>, key: Key) returns (i: nat)
    requires Coherent(setup, s) && Within(setup, s, cs, key)
    requires var m := Exec(setup, s, cs); m.run.Finishing? && Lands(m, m.run.ctx)
    ensures EndedAt(setup, s, cs, key, i)
    ensures var m, t := Exec(setup, s, cs), Exec(setup, s, cs + [Patch(true)]);
      && key in t.store
      && (if Silent(setup, At(setup, s, cs, i), cs[i]) then t.store[key].status.ready == s.store[key].status.ready
          else Tells(setup, At(setup, s, cs, i), cs[i], t.store[key].status.ready))
      && (m.run.ended.Done? ==> forall o :: o in m.run.ended.batch.objects ==>
            Delivery.Holds(t.cluster, CrdKey(TargetOf(s.store[key].spec), o.name), m.run.ended.batch.objects))
  {
    i := HowItEnded(setup, s, cs, key);
    ExecSnoc(setup, s, cs, Patch(true));
    ExecKeepsCoherent(setup, s, cs);
    PatchStores(setup, Exec(setup, s, cs));
    LeftAtEnd(setup, s, cs, key, i);
    Delivery.ExecKeepsArriving(setup, s, cs);
    SameSince(setup, s, cs, key, i);
    DoneHasArrived(setup, Exec(setup, s, cs), TargetOf(s.store[key].spec));
  }

  // ------------------------------------- the list of changes and the attempt

  /** This step detects what breaking changes there are. */
  predicate DetectsNow(setup: Setup, s: State, c: Choice) {
    c.Judge? && s.run.Judging? && DetectAll(setup.lib, s.cluster, s.run.batch.objects, c.detectFailAt).Some?
  }

  /** This step is offered an update. */
  predicate OfferedNow(setup: Setup, s: State, c: Choice) {
    && c.Check? && s.run.Checking?
    && (c.reach.Reached? ==> PickFits(setup.lib, setup.chain, s.upstream, s.run.ctx.obj.spec, c.pick))
    && Offers(AnswerAt(setup, s, c.reach, c.pick))
  }

  /** The list after a step: what was detected, if this step detects; e is in it exactly when it is to be reported. */
  predicate Lists(setup: Setup, s: State, c: Choice, list: seq<string>) {
    if DetectsNow(setup, s, c)
    then list == DetectAll(setup.lib, s.cluster, s.run.batch.objects, c.detectFailAt).value
    else !s.run.Idle? && list == s.run.ctx.obj.status.breaking
  }

  /** The attempted revision after a step: the one that is offered, if this step is offered one. */
  predicate Attempts(setup: Setup, s: State, c: Choice, attempted: string) {
    if OfferedNow(setup, s, c) then attempted == AnswerAt(setup, s, c.reach, c.pick).revision
    else !s.run.Idle? && attempted == s.run.ctx.obj.status.attempted
  }

  predicate Holds(setup: Setup, s: State, c: Choice, run: Run) {
    run.Idle? || (&& Lists(setup, s, c, run.ctx.obj.status.breaking)
                  && Attempts(setup, s, c, run.ctx.obj.status.attempted))
  }

  lemma CheckHolds(setup: Setup, s: State, reach: Reach, pick: string)
    requires s.run.Checking?
    ensures Holds(setup, s, Check(reach, pick), CheckStep(setup, s, reach, pick).run)
  {
  }

  lemma FetchHolds(setup: Setup, s: State, temp: bool, reach: Reach)
    requires s.run.Fetching?
    ensures Holds(setup, s, Fetch(temp, reach), FetchStep(setup, s, temp, reach).run)
  {
  }

  lemma ReadHolds(setup: Setup, s: State, manager: bool, readable: bool)
    requires s.run.Reading?
    ensures Holds(setup, s, Read(manager, readable), ReadStep(setup, s, manager, readable).run)
  {
  }

  /** At every outcome of the gates, the apply included, the list is what was detected. */
  lemma JudgeHolds(setup: Setup, s: State, d: Option<nat>, v: Option<nat>)
    requires s.run.Judging?
    ensures Holds(setup, s, Judge(d, v), JudgeStep(setup, s, d, v).run)
  {
    RulingHolds(s.run.ctx, s.run.batch, DetectAll(setup.lib, s.cluster, s.run.batch.objects, d),
                Validate(setup.lib, s.run.ctx.obj.spec.template, s.run.batch.objects, v));
  }

  lemma RulingHolds(c: Ctx, batch: Batch, detected: Option<seq<string>>, verdict: Verdict)
    ensures var r := Ruling(c, batch, detected, verdict);
      && !r.Idle? && r.ctx.obj.status.attempted == c.obj.status.attempted
      && r.ctx.obj.status.breaking == if detected.Some? then detected.value else c.obj.status.breaking
  {
  }

  /**
   After detection has been made, and whatever the gates then decide, the status lists exactly what is to
   be reported of the CRDs that are installed in the local cluster, also when the batch goes on to apply.
   */
  lemma DetectedIsListed(setup: Setup, s: State, d: Option<nat>, v: Option<nat>, e: string)
    requires DetectsNow(setup, s, Judge(d, v))
    ensures var run := JudgeStep(setup, s, d, v).run;
      && !run.Idle?
      && (e in run.ctx.obj.status.breaking <==> Reported(setup.lib, s.cluster, s.run.batch.objects, e))
  {
    var detected := DetectAll(setup.lib, s.cluster, s.run.batch.objects, d);
    RulingHolds(s.run.ctx, s.run.batch, detected,
                Validate(setup.lib, s.run.ctx.obj.spec.template, s.run.batch.objects, v));
    BatchReportsExactly(setup.lib, s.cluster, s.run.batch.objects, d, e);
  }

  lemma ApplyHolds(setup: Setup, s: State, c: Choice)
    requires s.run.Applying? && (c.ApplyOne? || c.ApplyEnd?)
    ensures Holds(setup, s, c, Step(setup, s, c).run)
  {
  }

  lemma DeletionHolds(setup: Setup, s: State, c: Choice)
    requires !s.run.Idle? && (c.Start? || c.List? || c.DeleteOne? || c.Patch?)
    ensures Holds(setup, s, c, Step(setup, s, c).run)
  {
  }

  lemma StepHolds(setup: Setup, s: State, c: Choice)
    requires !s.run.Idle?
    ensures Holds(setup, s, c, Step(setup, s, c).run)
  {
    match c
    case Outside(move) => OutsideKeepsRun(s, move);
    case Check(reach, pick) => if s.run.Checking? { CheckHolds(setup, s, reach, pick); }
    case Fetch(temp, reach) => if s.run.Fetching? { FetchHolds(setup, s, temp, reach); }
    case Read(manager, readable) => if s.run.Reading? { ReadHolds(setup, s, manager, readable); }
    case Judge(d, v) => if s.run.Judging? { JudgeHolds(setup, s, d, v); }
    case ApplyOne(index) => if s.run.Applying? { ApplyHolds(setup, s, c); }
    case ApplyEnd(ok, ready) => if s.run.Applying? { ApplyHolds(setup, s, c); }
    case _ => DeletionHolds(setup, s, c);
  }

  /** The list that a run ends with: what its last detection found, or what it began with if there was none. */
  function ListAfter(setup: Setup, s: State, cs: seq<Choice>, list: seq<string>): seq<string> {
    if cs == [] then list
    else
      var front, c := cs[..|cs| - 1], cs[|cs| - 1];
      var m := Exec(setup, s, front);
      if DetectsNow(setup, m, c) then DetectAll(setup.lib, m.cluster, m.run.batch.objects, c.detectFailAt).value
      else ListAfter(setup, s, front, list)
  }

  /** The attempt that a run ends with: the revision it was offered last, or what it began with if there was none. */
  function AttemptAfter(setup: Setup, s: State, cs: seq<Choice>, attempted: string): string {
    if cs == [] then attempted
    else
      var front, c := cs[..|cs| - 1], cs[|cs| - 1];
      var m := Exec(setup, s, front);
      if OfferedNow(setup, m, c) then AnswerAt(setup, m, c.reach, c.pick).revision
      else AttemptAfter(setup, s, front, attempted)
  }

  lemma {:induction false} HeldWithin(setup: Setup, s: State, cs: seq<Choice>, key: Key)
    requires Within(setup, s, cs, key) && key in s.store
    ensures !Exec(setup, s, cs).run.Idle?
    ensures var held := Exec(setup, s, cs).run.ctx.obj.status;
      && held.breaking == ListAfter(setup, s, cs, s.store[key].status.breaking)
      && held.attempted == AttemptAfter(setup, s, cs, s.store[key].status.attempted)
  {
    var front, last := cs[..|cs| - 1], cs[|cs| - 1];
    assert cs[..|cs|] == cs;
    assert Exec(setup, s, cs) == At(setup, s, cs, |cs|);
    if front == [] {
      assert Exec(setup, s, front) == s;
      StartHolds(s, key);
    } else {
      assert forall j :: 0 <= j <= |front| ==> front[..j] == cs[..j];
      assert forall j :: 1 <= j <= |front| ==> At(setup, s, front, j) == At(setup, s, cs, j);
      HeldWithin(setup, s, front, key);
      assert Exec(setup, s, front) == At(setup, s, cs, |front|);
      StepHolds(setup, Exec(setup, s, front), last);
    }
  }

  lemma StartHolds(s: State, key: Key)
    requires s.run.Idle? && key in s.store && !StartStep(s, key).run.Idle?
    ensures var held := StartStep(s, key).run.ctx.obj.status; held == s.store[key].status
  {
  }

  lemma WithinIsStored(setup: Setup, s: State, cs: seq<Choice>, key: Key)
    requires Within(setup, s, cs, key)
    ensures key in s.store
  {
    assert cs[..1] == [Start(key)];
    assert !At(setup, s, cs, 1).run.Idle?;
    ExecOne(setup, s, Start(key));
  }

  /**
   What is surfaced in the stored status, over a whole reconcile, from its start to the patch that lands:
   the breaking changes that its detection found, whether or not they were ignored and whatever came
   after, or the list as it was, if it got to no detection; and the revision it was offered, applied or
   not, or the attempt as it was, if it was offered none.
   */
  lemma StatusSurfaces(setup: Setup, s: State, cs: seq<Choice>, key: Key)
    requires Coherent(setup, s) && Within(setup, s, cs, key)
    requires var m := Exec(setup, s, cs); m.run.Finishing? && Lands(m, m.run.ctx)
    ensures var t := Exec(setup, s, cs + [Patch(true)]);
      && key in s.store && key in t.store
      && t.store[key].status.breaking == ListAfter(setup, s, cs, s.store[key].status.breaking)
      && t.store[key].status.attempted == AttemptAfter(setup, s, cs, s.store[key].status.attempted)
  {
    var i := HowItEnded(setup, s, cs, key);
    WithinIsStored(setup, s, cs, key);
    HeldWithin(setup, s, cs, key);
    ExecKeepsCoherent(setup, s, cs);
    PatchStores(setup, Exec(setup, s, cs));
    SameSince(setup, s, cs, key, i);
    ExecSnoc(setup, s, cs, Patch(true));
  }

  // --------------------------------------------------------------- blocked

  /** The reconcile ended, blaming breaking changes, with a list of them. */
  predicate Blocked(run: Run) {
    && run.Finishing? && run.ctx.obj.status.ready == ReadyFalse(BreakingChangeDetected)
    && run.ctx.obj.status.breaking != []
  }

  /**
   Exactly when a batch whose lookups succeed is blocked for breaking changes: every comparison works,
   some object is not clean, and breaking changes are not ignored. Where they are ignored, the reason
   can only be left over from before, when validation panics.
   */
  lemma BreakingChangesBlockExactly(setup: Setup, s: State)
    requires s.run.Judging?
    ensures var objects, o := s.run.batch.objects, s.run.ctx.obj;
      Blocked(JudgeStep(setup, s, None, None).run)
      <==> && (forall o :: o in objects ==> ObjectChanges(setup.lib, s.cluster, o).Some?)
           && (exists o :: o in objects && !Clean(setup.lib, s.cluster, o))
           && (|| !o.spec.ignoreBreakingChanges
               || (&& o.status.ready == ReadyFalse(BreakingChangeDetected)
                   && Validate(setup.lib, o.spec.template, objects, None).Panics?))
  {
    var objects, o := s.run.batch.objects, s.run.ctx.obj;
    BatchIsCleanExactly(setup.lib, s.cluster, objects, None);
    RulingBlocksExactly(s.run.ctx, s.run.batch, DetectAll(setup.lib, s.cluster, objects, None),
                        Validate(setup.lib, o.spec.template, objects, None));
  }

  lemma RulingBlocksExactly(c: Ctx, batch: Batch, detected: Option<seq<string>>, verdict: Verdict)
    ensures Blocked(Ruling(c, batch, detected, verdict))
       <==> && detected.Some? && detected.value != []
            && (|| !c.obj.spec.ignoreBreakingChanges
                || (c.obj.status.ready == ReadyFalse(BreakingChangeDetected) && verdict.Panics?))
  {
  }
}
