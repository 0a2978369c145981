/** Revisions only roll forward, and what the status says about them stays true. */
module RollForward {
  import opened Basics
  import opened Api
  import opened Libraries
  import opened Gate
  import opened Sources
  import opened Machine

  /** The revision parses and is strictly above what was applied, if anything was. */
  predicate Ahead(lib: Lib, revision: string, applied: string) {
    Parse(lib, revision).Some? && (applied == "" || Above(lib, revision, applied))
  }

  /** From one stored value of the applied revision to a later one. */
  predicate RolledForward(lib: Lib, earlier: string, later: string) {
    earlier == later || Ahead(lib, later, earlier)
  }

  /** a is not above b in precedence; both parse. */
  predicate NotAbove(lib: Lib, a: string, b: string) {
    Parse(lib, a).Some? && Parse(lib, b).Some? && !Above(lib, a, b)
  }

  /** The applied revision is empty or not above the attempted one. */
  predicate Levelled(lib: Lib, status: Status) {
    status.applied == "" || NotAbove(lib, status.applied, status.attempted)
  }

  /**
   While Ready is false for a detected breaking change, the changes are listed and the attempted
   revision is strictly above the applied one.
   */
  predicate Reasoned(lib: Lib, status: Status) {
    status.ready == ReadyFalse(BreakingChangeDetected) ==>
      status.breaking != [] && Ahead(lib, status.attempted, status.applied)
  }

  /** An update that is under way: above what was applied, and accepted by the constraint in force. */
  predicate Chosen(lib: Lib, c: Ctx, revision: string) {
    Ahead(lib, revision, c.before.status.applied) && Satisfies(lib, revision, c.before.spec.semver)
  }

  /** A reconcile in flight works with a versioned source, and what it chose is above what was applied. */
  predicate SoundRun(setup: Setup, run: Run)
    requires !run.Idle?
  {
    && (!Deleting(run) ==> Versioned(setup.chain, run.ctx.obj.spec) && Levelled(setup.lib, run.ctx.obj.status))
    && match run
       case Fetching(c, r) => Chosen(setup.lib, c, r)
       case Reading(c, r, _) => Chosen(setup.lib, c, r)
       case Judging(c, b) => Chosen(setup.lib, c, b.revision)
       case Applying(c, b, _) => Chosen(setup.lib, c, b.revision)
       case Finishing(c, Done(b)) => Chosen(setup.lib, c, b.revision)
       case _ => true
  }

  /** One Bootstrap as it is stored, and its reconcile if it is in flight. Other Bootstraps are of no concern. */
  predicate Sound(setup: Setup, s: State, key: Key) {
    && (key in s.store ==> Versioned(setup.chain, s.store[key].spec) && Levelled(setup.lib, s.store[key].status))
    && (InFlight(s, key) ==> SoundRun(setup, s.run))
  }

  /**
   Specs that others write for this Bootstrap name a versioned source; its sources and constraints may
   change freely, and so may everything about other Bootstraps.
   */
  predicate VersionedChoice(setup: Setup, c: Choice, key: Key) {
    match c
    case Outside(CreateBootstrap(k, spec, _)) => k == key ==> Versioned(setup.chain, spec)
    case Outside(EditSpec(k, spec)) => k == key ==> Versioned(setup.chain, spec)
    case _ => true
  }

  lemma AheadIsNotBehind(lib: Lib, revision: string, applied: string)
    requires Ahead(lib, revision, applied)
    ensures applied == "" || NotAbove(lib, applied, revision)
    ensures NotAbove(lib, revision, revision)
  {
    AboveIrreflexive(lib, revision, applied);
  }

  lemma CheckKeepsSound(setup: Setup, s: State, reach: Reach, pick: string)
    requires s.run.Checking? && Coherent(setup, s) && SoundRun(setup, s.run)
    ensures SoundRun(setup, CheckStep(setup, s, reach, pick).run)
  {
    var c := s.run.ctx;
    var answer := HasUpdate(setup.lib, setup.chain, s.upstream, c.obj.spec, c.obj.status.applied, reach, pick);
    if Offers(answer) {
      OfferIsForward(setup.lib, setup.chain, s.upstream, c.obj.spec, c.obj.status.applied, reach, pick);
      AheadIsNotBehind(setup.lib, answer.revision, c.obj.status.applied);
    }
    HeedingIsSound(setup, c, answer);
  }

  lemma HeedingIsSound(setup: Setup, c: Ctx, answer: Answer)
    requires Versioned(setup.chain, c.obj.spec) && Levelled(setup.lib, c.obj.status)
    requires Offers(answer) ==> Chosen(setup.lib, c, answer.revision)
    requires Offers(answer) && c.obj.status.applied != "" ==> NotAbove(setup.lib, c.obj.status.applied, answer.revision)
    ensures SoundRun(setup, Heeding(c, answer))
  {
  }

  lemma JudgeKeepsSound(setup: Setup, s: State, d: Option<nat>, v: Option<nat>)
    requires s.run.Judging? && SoundRun(setup, s.run)
    ensures SoundRun(setup, JudgeStep(setup, s, d, v).run)
  {
    var detected := DetectAll(setup.lib, s.cluster, s.run.batch.objects, d);
    var verdict := Validate(setup.lib, s.run.ctx.obj.spec.template, s.run.batch.objects, v);
    RulingKeepsRevisions(s.run.ctx, s.run.batch, detected, verdict);
    RulingStays(s.run.ctx, s.run.batch, detected, verdict);
  }

  lemma RulingKeepsRevisions(c: Ctx, batch: Batch, detected: Option<seq<string>>, verdict: Verdict)
    ensures var r := Ruling(c, batch, detected, verdict);
      && r.ctx.obj.spec == c.obj.spec
      && r.ctx.obj.status.attempted == c.obj.status.attempted && r.ctx.obj.status.applied == c.obj.status.applied
      && (r.Applying? ==> r.batch == batch) && (r.Finishing? ==> r.ended == Stopped(batch))
  {
  }

  lemma EndKeepsSound(setup: Setup, s: State, ok: bool, ready: bool)
    requires s.run.Applying? && Coherent(setup, s) && SoundRun(setup, s.run)
    ensures SoundRun(setup, ApplyEndStep(s, ok, ready).run)
  {
    AheadIsNotBehind(setup.lib, s.run.batch.revision, s.run.ctx.before.status.applied);
  }

  lemma ReadKeepsSound(setup: Setup, s: State, manager: bool, readable: bool)
    requires s.run.Reading? && SoundRun(setup, s.run)
    ensures SoundRun(setup, ReadStep(setup, s, manager, readable).run)
  {
  }

  lemma FetchKeepsSound(setup: Setup, s: State, temp: bool, reach: Reach)
    requires s.run.Fetching? && SoundRun(setup, s.run)
    ensures SoundRun(setup, FetchStep(setup, s, temp, reach).run)
  {
  }

  lemma DeletionKeepsSound(setup: Setup, s: State, ok: bool, items: seq<string>)
    ensures s.run.Listing? ==> var run := ListStep(s, ok, items).run; !run.Idle? ==> SoundRun(setup, run)
    ensures s.run.Pruning? ==> var run := DeleteStep(s, ok).run; !run.Idle? ==> SoundRun(setup, run)
  {
  }

  lemma ApplyKeepsSound(setup: Setup, s: State, index: nat)
    requires s.run.Applying? && SoundRun(setup, s.run)
    ensures SoundRun(setup, ApplyOneStep(s, index).run)
  {
  }

  lemma PatchEnds(setup: Setup, s: State, ok: bool)
    requires !s.run.Idle?
    ensures var t := Step(setup, s, Patch(ok)); t == s || t.run.Idle?
  {
  }

  /** The reconcile in flight stays sound, until it is over. */
  lemma StepKeepsSoundRun(setup: Setup, s: State, c: Choice)
    requires Coherent(setup, s) && !s.run.Idle? && SoundRun(setup, s.run)
    ensures var t := Step(setup, s, c); t.run.Idle? || SoundRun(setup, t.run)
  {
    match c
    case Outside(move) => OutsideKeepsRun(s, move);
    case Check(reach, pick) => if s.run.Checking? { CheckKeepsSound(setup, s, reach, pick); }
    case Judge(d, v) => if s.run.Judging? { JudgeKeepsSound(setup, s, d, v); }
    case ApplyOne(index) => if s.run.Applying? { ApplyKeepsSound(setup, s, index); }
    case ApplyEnd(ok, ready) => if s.run.Applying? { EndKeepsSound(setup, s, ok, ready); }
    case Patch(ok) => PatchEnds(setup, s, ok);
    case Start(key) =>
    case Fetch(temp, reach) => if s.run.Fetching? { FetchKeepsSound(setup, s, temp, reach); }
    case Read(manager, readable) => if s.run.Reading? { ReadKeepsSound(setup, s, manager, readable); }
    case List(ok, items) => DeletionKeepsSound(setup, s, ok, items);
    case DeleteOne(ok) => DeletionKeepsSound(setup, s, ok, []);
  }

  lemma StartIsSound(setup: Setup, s: State, k: Key, key: Key)
    requires s.run.Idle? && Sound(setup, s, key)
    ensures Sound(setup, StartStep(s, k), key)
  {
  }

  lemma PatchKeepsSound(setup: Setup, s: State, ok: bool, key: Key)
    requires Coherent(setup, s) && Sound(setup, s, key)
    ensures Sound(setup, Step(setup, s, Patch(ok)), key)
  {
    PatchWrites(setup, s, ok);
  }

  lemma OutsideKeepsSound(setup: Setup, s: State, m: Move, key: Key)
    requires Sound(setup, s, key) && VersionedChoice(setup, Outside(m), key)
    ensures Sound(setup, OutsideStep(s, m), key)
  {
  }

  lemma StepKeepsSound(setup: Setup, s: State, c: Choice, key: Key)
    requires Coherent(setup, s) && Sound(setup, s, key) && VersionedChoice(setup, c, key)
    ensures Sound(setup, Step(setup, s, c), key)
  {
    if c.Outside? {
      OutsideKeepsSound(setup, s, c.move, key);
    } else if c.Patch? {
      PatchKeepsSound(setup, s, c.ok, key);
    } else {
      OnlyPatchesTouchStore(setup, s, c);
      if !s.run.Idle? {
        SameReconcile(setup, s, c);
        if s.run.ctx.key == key {
          StepKeepsSoundRun(setup, s, c);
        }
      } else if c.Start? {
        StartIsSound(setup, s, c.key, key);
      }
    }
  }

  /**
   Over every run, for every Bootstrap with a versioned source: its constraint and source may be edited
   at any time, others may do whatever they like, steps may fail at any point, patches may be lost, and
   still its stored status never has the applied revision above the attempted one.
   */
  lemma {:induction false} AppliedStaysBelowAttempted(setup: Setup, s: State, cs: seq<Choice>, key: Key)
    requires Coherent(setup, s) && Sound(setup, s, key)
    requires forall c :: c in cs ==> VersionedChoice(setup, c, key)
    ensures Sound(setup, Exec(setup, s, cs), key)
    ensures key in Exec(setup, s, cs).store ==> Levelled(setup.lib, Exec(setup, s, cs).store[key].status)
  {
    if cs != [] {
      var front := cs[..|cs| - 1];
      assert forall c :: c in front ==> c in cs;
      AppliedStaysBelowAttempted(setup, s, front, key);
      ExecKeepsCoherent(setup, s, front);
      StepKeepsSound(setup, Exec(setup, s, front), cs[|cs| - 1], key);
    }
  }

  /**
   The applied revision changes only when a successful reconcile is recorded, to the revision that
   reconcile attempted; that one is strictly above the old value, and the constraint that was in
   force when HasUpdate ran accepts it.
   */
  lemma AppliedChangesForward(setup: Setup, s: State, c: Choice, key: Key)
    requires Coherent(setup, s) && Sound(setup, s, key) && key in s.store
    ensures var t := Step(setup, s, c);
      key in t.store && t.store[key].status.applied != s.store[key].status.applied ==>
        && s.run.Finishing? && s.run.ended.Done? && s.run.ctx.key == key && c == Patch(true)
        && t.store[key].status.applied == s.run.ended.batch.revision
        && Ahead(setup.lib, t.store[key].status.applied, s.store[key].status.applied)
        && Satisfies(setup.lib, t.store[key].status.applied, s.run.ctx.before.spec.semver)
  {
    match c
    case Patch(ok) => PatchWrites(setup, s, ok);
    case Outside(move) => if key in OutsideStep(s, move).store { OutsideKeepsStatus(s, move, key); }
    case _ => OnlyPatchesTouchStore(setup, s, c);
  }

  lemma RolledForwardTransitive(lib: Lib, a: string, b: string, c: string)
    requires RolledForward(lib, a, b) && RolledForward(lib, b, c)
    ensures RolledForward(lib, a, c)
  {
    if a != b && b != c && a != "" {
      AboveTransitive(lib, c, b, a);
    }
  }

  /**
   Roll-forward only: while a Bootstrap stays stored, its applied revision at any later time is the
   same string or strictly above in precedence, through edits of its constraint and its source,
   withdrawn upstream versions and failures anywhere.
   */
  lemma {:induction false} OnlyRollsForward(setup: Setup, s: State, cs: seq<Choice>, key: Key)
    requires Coherent(setup, s) && Sound(setup, s, key)
    requires forall c :: c in cs ==> VersionedChoice(setup, c, key)
    requires forall i :: 0 <= i <= |cs| ==> key in At(setup, s, cs, i).store
    ensures key in s.store && key in Exec(setup, s, cs).store
    ensures RolledForward(setup.lib, s.store[key].status.applied, Exec(setup, s, cs).store[key].status.applied)
  {
    assert cs[..|cs|] == cs && cs[..0] == [];
    assert key in At(setup, s, cs, 0).store && key in At(setup, s, cs, |cs|).store;
    if cs != [] {
      var front, last := cs[..|cs| - 1], cs[|cs| - 1];
      assert last in cs && forall c :: c in front ==> c in cs;
      assert forall i :: 0 <= i <= |front| ==> front[..i] == cs[..i];
      assert forall i :: 0 <= i <= |front| ==> At(setup, s, front, i) == At(setup, s, cs, i);
      OnlyRollsForward(setup, s, front, key);
      AppliedStaysBelowAttempted(setup, s, front, key);
      ExecKeepsCoherent(setup, s, front);
      var m := Exec(setup, s, front);
      var before, after := m.store[key].status.applied, Exec(setup, s, cs).store[key].status.applied;
      if before != after {
        AppliedChangesForward(setup, m, last, key);
      }
      RolledForwardTransitive(setup.lib, s.store[key].status.applied, before, after);
    }
  }

  // ------------------------------------------------- the reason of Ready

  /**
   When exactly a ruling that ends the reconcile leaves a well-founded reason: unless validation
   panics after detection found nothing, while the reason is still BreakingChangeDetected from an
   earlier reconcile. Then the deferred patch stores that reason beside an empty list.
   */
  lemma RulingIsReasonedExactly(lib: Lib, c: Ctx, batch: Batch, detected: Option<seq<string>>, verdict: Verdict)
    requires Ahead(lib, c.obj.status.attempted, c.obj.status.applied)
    requires Ruling(c, batch, detected, verdict).Finishing?
    ensures Reasoned(lib, Ruling(c, batch, detected, verdict).ctx.obj.status)
       <==> !(detected == Some([]) && verdict.Panics? && c.obj.status.ready == ReadyFalse(BreakingChangeDetected))
  {
  }

  /**
   The step that leaves a stale reason: validation panics after an empty report, in a reconcile of this
   Bootstrap that started with BreakingChangeDetected in its status.
   */
  predicate GoesStale(setup: Setup, s: State, c: Choice, key: Key) {
    && c.Judge? && s.run.Judging? && s.run.ctx.key == key
    && s.run.ctx.obj.status.ready == ReadyFalse(BreakingChangeDetected)
    && DetectAll(setup.lib, s.cluster, s.run.batch.objects, c.detectFailAt) == Some([])
    && Validate(setup.lib, s.run.ctx.obj.spec.template, s.run.batch.objects, c.validateFailAt).Panics?
  }

  predicate ReasonedStore(lib: Lib, s: State, key: Key) { key in s.store ==> Reasoned(lib, s.store[key].status) }

  /** In memory the reason may be stale only between the ruling and the end of the apply. */
  predicate ReasonedRun(lib: Lib, run: Run)
    requires !run.Idle?
  {
    !run.Applying? ==> Reasoned(lib, run.ctx.obj.status)
  }

  predicate Founded(lib: Lib, s: State, key: Key) {
    ReasonedStore(lib, s, key) && (InFlight(s, key) ==> ReasonedRun(lib, s.run))
  }

  lemma JudgeKeepsReasoned(setup: Setup, s: State, d: Option<nat>, v: Option<nat>)
    requires Coherent(setup, s) && s.run.Judging? && SoundRun(setup, s.run)
    requires !GoesStale(setup, s, Judge(d, v), s.run.ctx.key)
    ensures ReasonedRun(setup.lib, JudgeStep(setup, s, d, v).run)
  {
    var c, objects := s.run.ctx, s.run.batch.objects;
    var verdict := Validate(setup.lib, c.obj.spec.template, objects, v);
    var detected := DetectAll(setup.lib, s.cluster, objects, d);
    if Ruling(c, s.run.batch, detected, verdict).Finishing? {
      RulingIsReasonedExactly(setup.lib, c, s.run.batch, detected, verdict);
    }
    RulingStays(c, s.run.batch, detected, verdict);
  }

  lemma CheckKeepsReasoned(setup: Setup, s: State, reach: Reach, pick: string)
    requires Coherent(setup, s) && s.run.Checking? && SoundRun(setup, s.run) && ReasonedRun(setup.lib, s.run)
    ensures ReasonedRun(setup.lib, CheckStep(setup, s, reach, pick).run)
  {
    CheckKeepsSound(setup, s, reach, pick);
  }

  lemma FetchKeepsReasoned(setup: Setup, s: State, temp: bool, reach: Reach)
    requires s.run.Fetching? && ReasonedRun(setup.lib, s.run)
    ensures ReasonedRun(setup.lib, FetchStep(setup, s, temp, reach).run)
  {
  }

  lemma ReadKeepsReasoned(setup: Setup, s: State, manager: bool, readable: bool)
    requires s.run.Reading? && ReasonedRun(setup.lib, s.run)
    ensures ReasonedRun(setup.lib, ReadStep(setup, s, manager, readable).run)
  {
  }

  lemma EndKeepsReasoned(lib: Lib, s: State, ok: bool, ready: bool)
    requires s.run.Applying?
    ensures ReasonedRun(lib, ApplyEndStep(s, ok, ready).run)
  {
  }

  lemma DeletionKeepsReasoned(lib: Lib, s: State, ok: bool, items: seq<string>)
    requires !s.run.Idle? && ReasonedRun(lib, s.run)
    ensures s.run.Listing? ==> var run := ListStep(s, ok, items).run; !run.Idle? ==> ReasonedRun(lib, run)
    ensures s.run.Pruning? ==> var run := DeleteStep(s, ok).run; !run.Idle? ==> ReasonedRun(lib, run)
  {
  }

  lemma StepKeepsReasonedRun(setup: Setup, s: State, c: Choice)
    requires Coherent(setup, s) && !s.run.Idle? && SoundRun(setup, s.run) && ReasonedRun(setup.lib, s.run)
    requires !GoesStale(setup, s, c, s.run.ctx.key)
    ensures var t := Step(setup, s, c); t.run.Idle? || ReasonedRun(setup.lib, t.run)
  {
    match c
    case Outside(move) => OutsideKeepsRun(s, move);
    case Start(key) =>
    case Check(reach, pick) => if s.run.Checking? { CheckKeepsReasoned(setup, s, reach, pick); }
    case Fetch(temp, reach) => if s.run.Fetching? { FetchKeepsReasoned(setup, s, temp, reach); }
    case Read(manager, readable) => if s.run.Reading? { ReadKeepsReasoned(setup, s, manager, readable); }
    case Judge(d, v) => if s.run.Judging? { JudgeKeepsReasoned(setup, s, d, v); }
    case ApplyOne(index) =>
    case ApplyEnd(ok, ready) => if s.run.Applying? { EndKeepsReasoned(setup.lib, s, ok, ready); }
    case Patch(ok) => PatchEnds(setup, s, ok);
    case List(ok, items) => DeletionKeepsReasoned(setup.lib, s, ok, items);
    case DeleteOne(ok) => DeletionKeepsReasoned(setup.lib, s, ok, []);
  }

  lemma StartIsFounded(lib: Lib, s: State, k: Key, key: Key)
    requires s.run.Idle? && Founded(lib, s, key)
    ensures Founded(lib, StartStep(s, k), key)
  {
  }

  lemma OutsideKeepsFounded(lib: Lib, s: State, m: Move, key: Key)
    requires Founded(lib, s, key)
    ensures Founded(lib, OutsideStep(s, m), key)
  {
  }

  lemma PatchKeepsFounded(setup: Setup, s: State, ok: bool, key: Key)
    requires Coherent(setup, s) && Founded(setup.lib, s, key)
    ensures Founded(setup.lib, Step(setup, s, Patch(ok)), key)
  {
    PatchWrites(setup, s, ok);
  }

  lemma StepKeepsFounded(setup: Setup, s: State, c: Choice, key: Key)
    requires Coherent(setup, s) && Sound(setup, s, key) && Founded(setup.lib, s, key) && !GoesStale(setup, s, c, key)
    ensures Founded(setup.lib, Step(setup, s, c), key)
  {
    if c.Outside? {
      OutsideKeepsFounded(setup.lib, s, c.move, key);
    } else if c.Patch? {
      PatchKeepsFounded(setup, s, c.ok, key);
    } else {
      OnlyPatchesTouchStore(setup, s, c);
      if !s.run.Idle? {
        SameReconcile(setup, s, c);
        if s.run.ctx.key == key {
          StepKeepsReasonedRun(setup, s, c);
        }
      } else if c.Start? {
        StartIsFounded(setup.lib, s, c.key, key);
      }
    }
  }

  /**
   Over every run, for every Bootstrap with a versioned source: unless one of its own reconciles goes
   stale, a stored BreakingChangeDetected goes with a list of the changes, and with an attempted
   revision strictly above the applied one.
   */
  lemma {:induction false} ReasonsStayFounded(setup: Setup, s: State, cs: seq<Choice>, key: Key)
    requires Coherent(setup, s) && Sound(setup, s, key) && Founded(setup.lib, s, key)
    requires forall c :: c in cs ==> VersionedChoice(setup, c, key)
    requires forall i :: 0 <= i < |cs| ==> !GoesStale(setup, At(setup, s, cs, i), cs[i], key)
    ensures Founded(setup.lib, Exec(setup, s, cs), key)
  {
    if cs != [] {
      var front := cs[..|cs| - 1];
      assert forall c :: c in front ==> c in cs;
      assert forall i :: 0 <= i <= |front| ==> front[..i] == cs[..i];
      assert forall i :: 0 <= i < |front| ==> At(setup, s, front, i) == At(setup, s, cs, i);
      ReasonsStayFounded(setup, s, front, key);
      AppliedStaysBelowAttempted(setup, s, front, key);
      ExecKeepsCoherent(setup, s, front);
      assert Exec(setup, s, front) == At(setup, s, cs, |front|);
      StepKeepsFounded(setup, Exec(setup, s, front), cs[|cs| - 1], key);
    }
  }
}
