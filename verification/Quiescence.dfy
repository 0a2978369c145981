/** With specs and sources left alone, the controller does a bounded amount of work and then rests. */
module Quiescence {
  import opened Basics
  import opened Api
  import opened Libraries
  import opened Semver
  import opened Gate
  import opened Sources
  import opened Machine

  /** Nobody but the controller acts. */
  predicate Quiet(cs: seq<Choice>) { forall c :: c in cs ==> !c.Outside? }

  /** The Bootstrap's HasUpdate would say yes. */
  ghost predicate PendingAt(setup: Setup, s: State, key: Key) {
    && key in s.store && !s.store[key].deleting
    && Due(setup.lib, setup.chain, s.upstream, s.store[key].spec, s.store[key].status.applied)
  }

  ghost function Pending(setup: Setup, s: State): set<Key> {
    set key | key in s.store && PendingAt(setup, s, key)
  }

  /** The patch that records a successful reconcile. */
  predicate Records(s: State, c: Choice) {
    c == Patch(true) && s.run.Finishing? && s.run.ended.Done? && Lands(s, s.run.ctx)
  }

  function Successes(setup: Setup, s: State, cs: seq<Choice>): nat {
    if cs == [] then 0
    else
      var front, last := cs[..|cs| - 1], cs[|cs| - 1];
      Successes(setup, s, front) + (if Records(Exec(setup, s, front), last) then 1 else 0)
  }

  /** The source offered this revision to the object as it still is in the store. */
  ghost predicate Offered(setup: Setup, s: State, c: Ctx, revision: string) {
    exists pick :: PickFits(setup.lib, setup.chain, s.upstream, c.before.spec, pick)
      && HasUpdate(setup.lib, setup.chain, s.upstream, c.before.spec, c.before.status.applied, Reached, pick)
         == Answered(true, revision)
  }

  predicate Current(s: State, c: Ctx) {
    c.key in s.store && s.store[c.key].spec == c.before.spec && !s.store[c.key].deleting
  }

  /** While nobody else acts, what the reconcile in flight read is still so. */
  ghost predicate Tracking(setup: Setup, s: State) {
    && (!s.run.Idle? && !Deleting(s.run) ==> Current(s, s.run.ctx))
    && match s.run
       case Fetching(c, r) => Offered(setup, s, c, r)
       case Reading(c, r, _) => Offered(setup, s, c, r)
       case Judging(c, b) => Offered(setup, s, c, b.revision)
       case Applying(c, b, _) => Offered(setup, s, c, b.revision)
       case Finishing(c, Done(b)) => Offered(setup, s, c, b.revision)
       case _ => true
  }

  predicate NoPins(setup: Setup, s: State) {
    forall key :: key in s.store ==> !Pinned(setup.chain, s.store[key].spec)
  }

  lemma CheckKeepsTracking(setup: Setup, s: State, reach: Reach, pick: string)
    requires Coherent(setup, s) && Tracking(setup, s) && s.run.Checking?
    ensures Tracking(setup, CheckStep(setup, s, reach, pick))
  {
    CheckFrame(setup, s, reach, pick);
    var t := CheckStep(setup, s, reach, pick);
    var c := s.run.ctx;
    var answer := HasUpdate(setup.lib, setup.chain, s.upstream, c.obj.spec, c.obj.status.applied, reach, pick);
    if t.run.Fetching? {
      if !reach.Reached? {
        UnreachableOffersNothing(setup.lib, setup.chain, s.upstream, c.obj.spec, c.obj.status.applied, reach, pick);
      }
      assert reach.Reached? && answer == Answered(true, t.run.revision);
      assert Offered(setup, s, c, t.run.revision);
    }
  }

  lemma UnreachableOffersNothing(lib: Lib, chain: Chain, up: Upstream, spec: Spec, applied: string, reach: Reach,
                                 pick: string)
    requires !reach.Reached?
    ensures !HasUpdate(lib, chain, up, spec, applied, reach, pick).Answered?
    decreases chain
  {
    if !Handles(chain.kind, spec.source) && chain.next.Some? {
      UnreachableOffersNothing(lib, chain.next.value, up, spec, applied, reach, pick);
    }
  }

  lemma JudgeKeepsTracking(setup: Setup, s: State, detected: Option<seq<string>>, verdict: Verdict)
    requires Tracking(setup, s) && s.run.Judging?
    ensures Tracking(setup, s.(run := Ruling(s.run.ctx, s.run.batch, detected, verdict)))
  {
    RulingStays(s.run.ctx, s.run.batch, detected, verdict);
  }

  lemma ReadKeepsTracking(setup: Setup, s: State, manager: bool, readable: bool)
    requires Tracking(setup, s) && s.run.Reading?
    ensures Tracking(setup, ReadStep(setup, s, manager, readable))
  {
  }

  lemma ApplyKeepsTracking(setup: Setup, s: State, c: Choice)
    requires Tracking(setup, s) && s.run.Applying? && (c.ApplyOne? || c.ApplyEnd?)
    ensures Tracking(setup, Step(setup, s, c))
  {
  }

  lemma StartKeepsTracking(setup: Setup, s: State, key: Key)
    requires s.run.Idle?
    ensures Tracking(setup, StartStep(s, key))
  {
  }

  lemma FetchKeepsTracking(setup: Setup, s: State, temp: bool, reach: Reach)
    requires Tracking(setup, s) && s.run.Fetching?
    ensures Tracking(setup, FetchStep(setup, s, temp, reach))
  {
  }

  lemma DeletionKeepsTracking(setup: Setup, s: State, ok: bool, items: seq<string>)
    requires Tracking(setup, s)
    ensures s.run.Listing? ==> Tracking(setup, ListStep(s, ok, items))
    ensures s.run.Pruning? ==> Tracking(setup, DeleteStep(s, ok))
  {
  }

  lemma PatchKeepsTracking(setup: Setup, s: State, ok: bool)
    requires Coherent(setup, s) && Tracking(setup, s)
    ensures Tracking(setup, Step(setup, s, Patch(ok)))
  {
    PatchWrites(setup, s, ok);
  }

  lemma StepKeepsTracking(setup: Setup, s: State, c: Choice)
    requires Coherent(setup, s) && Tracking(setup, s) && !c.Outside?
    ensures Tracking(setup, Step(setup, s, c))
  {
    match c
    case Check(reach, pick) => if s.run.Checking? { CheckKeepsTracking(setup, s, reach, pick); }
    case Judge(d, v) =>
      if s.run.Judging? {
        JudgeKeepsTracking(setup, s, DetectAll(setup.lib, s.cluster, s.run.batch.objects, d),
                           Validate(setup.lib, s.run.ctx.obj.spec.template, s.run.batch.objects, v));
      }
    case Patch(ok) => PatchKeepsTracking(setup, s, ok);
    case Read(manager, readable) => if s.run.Reading? { ReadKeepsTracking(setup, s, manager, readable); }
    case ApplyOne(index) => if s.run.Applying? { ApplyKeepsTracking(setup, s, c); }
    case ApplyEnd(ok, ready) => if s.run.Applying? { ApplyKeepsTracking(setup, s, c); }
    case Start(key) => if s.run.Idle? { StartKeepsTracking(setup, s, key); }
    case Fetch(temp, reach) => if s.run.Fetching? { FetchKeepsTracking(setup, s, temp, reach); }
    case List(ok, items) => DeletionKeepsTracking(setup, s, ok, items);
    case DeleteOne(ok) => DeletionKeepsTracking(setup, s, ok, []);
  }

  /** A patch that records nothing leaves what is pending alone. */
  lemma OtherPatchKeepsPending(setup: Setup, s: State, ok: bool)
    requires Coherent(setup, s) && !Records(s, Patch(ok))
    ensures Pending(setup, Step(setup, s, Patch(ok))) == Pending(setup, s)
  {
    PatchWrites(setup, s, ok);
    var t := Step(setup, s, Patch(ok));
    forall key ensures PendingAt(setup, t, key) <==> PendingAt(setup, s, key) {
    }
  }

  /**
   Recording a success takes exactly that Bootstrap off the pending ones, unless its URL source is
   pinned to a digest: then it stays pending for ever.
   */
  lemma SuccessSettlesExactly(setup: Setup, s: State)
    requires Coherent(setup, s) && Tracking(setup, s) && Records(s, Patch(true))
    ensures var key := s.run.ctx.key;
      && key in Pending(setup, s)
      && Pending(setup, Step(setup, s, Patch(true)))
           == (if Pinned(setup.chain, s.store[key].spec) then Pending(setup, s) else Pending(setup, s) - {key})
  {
    var key, t := s.run.ctx.key, Step(setup, s, Patch(true));
    RecordedStore(setup, s);
    RecordedIsDueExactly(setup, s);
    OneEntryChanged(setup, s, t, key);
  }

  /** Where only one entry of the store has changed, only that Bootstrap can start or stop being pending. */
  lemma OneEntryChanged(setup: Setup, s: State, t: State, key: Key)
    requires t.upstream == s.upstream && key in s.store && key in t.store && t.store == s.store[key := t.store[key]]
    requires PendingAt(setup, s, key)
    ensures key in Pending(setup, s)
    ensures Pending(setup, t) == if PendingAt(setup, t, key) then Pending(setup, s) else Pending(setup, s) - {key}
  {
    forall other | other != key ensures PendingAt(setup, t, other) <==> PendingAt(setup, s, other) {
    }
  }

  lemma RecordedStore(setup: Setup, s: State)
    requires Coherent(setup, s) && Tracking(setup, s) && Records(s, Patch(true))
    ensures var c, t := s.run.ctx, Step(setup, s, Patch(true));
      && t.upstream == s.upstream && c.key in s.store
      && t.store == s.store[c.key := s.store[c.key].(status := c.obj.status, finalizer := c.obj.finalizer)]
  {
    MergeWritesObject(s, s.run.ctx);
  }

  lemma RecordedIsDueExactly(setup: Setup, s: State)
    requires Coherent(setup, s) && Tracking(setup, s) && Records(s, Patch(true))
    ensures var c := s.run.ctx;
      && PendingAt(setup, s, c.key)
      && Due(setup.lib, setup.chain, s.upstream, c.before.spec, c.obj.status.applied)
         == Pinned(setup.chain, c.before.spec)
  {
    var c := s.run.ctx;
    var pick :| PickFits(setup.lib, setup.chain, s.upstream, c.before.spec, pick)
      && HasUpdate(setup.lib, setup.chain, s.upstream, c.before.spec, c.before.status.applied, Reached, pick)
         == Answered(true, s.run.ended.batch.revision);
    AppliedSettlesExactly(setup.lib, setup.chain, s.upstream, c.before.spec, c.before.status.applied, pick);
  }

  lemma StepConservesPending(setup: Setup, s: State, c: Choice)
    requires Coherent(setup, s) && !c.Outside?
    ensures !Records(s, c) ==> Pending(setup, Step(setup, s, c)) == Pending(setup, s)
  {
    if !Records(s, c) {
      if c.Patch? {
        OtherPatchKeepsPending(setup, s, c.ok);
      } else {
        OnlyPatchesTouchStore(setup, s, c);
        var t := Step(setup, s, c);
        assert forall key :: PendingAt(setup, t, key) <==> PendingAt(setup, s, key);
      }
    }
  }

  lemma {:induction false} QuietKeepsTracking(setup: Setup, s: State, cs: seq<Choice>)
    requires Coherent(setup, s) && Tracking(setup, s) && Quiet(cs)
    ensures Coherent(setup, Exec(setup, s, cs)) && Tracking(setup, Exec(setup, s, cs))
  {
    if cs != [] {
      var front, last := cs[..|cs| - 1], cs[|cs| - 1];
      assert last in cs && forall c :: c in front ==> c in cs;
      QuietKeepsTracking(setup, s, front);
      StepKeepsCoherent(setup, Exec(setup, s, front), last);
      StepKeepsTracking(setup, Exec(setup, s, front), last);
    }
  }

  lemma {:induction false} QuietKeepsPins(setup: Setup, s: State, cs: seq<Choice>)
    requires Coherent(setup, s) && NoPins(setup, s) && Quiet(cs)
    ensures NoPins(setup, Exec(setup, s, cs))
  {
    if cs != [] {
      var front, last := cs[..|cs| - 1], cs[|cs| - 1];
      assert last in cs && forall c :: c in front ==> c in cs;
      QuietKeepsPins(setup, s, front);
      ExecKeepsCoherent(setup, s, front);
      if last.Patch? {
        PatchWrites(setup, Exec(setup, s, front), last.ok);
      } else {
        OnlyPatchesTouchStore(setup, Exec(setup, s, front), last);
      }
    }
  }

  lemma StepUsesPending(setup: Setup, s: State, c: Choice)
    requires Coherent(setup, s) && Tracking(setup, s) && NoPins(setup, s) && !c.Outside?
    ensures var t := Step(setup, s, c);
      && Pending(setup, t) <= Pending(setup, s)
      && |Pending(setup, t)| + (if Records(s, c) then 1 else 0) == |Pending(setup, s)|
  {
    if Records(s, c) {
      SuccessSettlesExactly(setup, s);
    } else {
      StepConservesPending(setup, s, c);
    }
  }

  /**
   Conservation: with specs and sources unchanged and no digest pinned, recorded successes and
   pending Bootstraps always add up to the Bootstraps that were pending at the start. Each success
   lowers the pending ones by exactly one, nothing else changes them, and so no more successes can
   ever be recorded than there were Bootstraps pending. A reconcile may be in flight at the start, if
   what it read is still so.
   */
  lemma {:induction false} SuccessesUsePending(setup: Setup, s: State, cs: seq<Choice>)
    requires Coherent(setup, s) && Tracking(setup, s) && NoPins(setup, s) && Quiet(cs)
    ensures Successes(setup, s, cs) + |Pending(setup, Exec(setup, s, cs))| == |Pending(setup, s)|
    ensures Pending(setup, Exec(setup, s, cs)) <= Pending(setup, s)
  {
    if cs != [] {
      var front, last := cs[..|cs| - 1], cs[|cs| - 1];
      assert last in cs && forall c :: c in front ==> c in cs;
      SuccessesUsePending(setup, s, front);
      QuietKeepsTracking(setup, s, front);
      QuietKeepsPins(setup, s, front);
      StepUsesPending(setup, Exec(setup, s, front), last);
    }
  }

  /** The success of a reconcile in flight since before the quiet adds at most one to the pending ones. */
  lemma RecordedAddsAtMostOne(setup: Setup, s: State)
    requires Coherent(setup, s) && Records(s, Patch(true))
    ensures var t := Step(setup, s, Patch(true));
      t.run.Idle? && |Pending(setup, t)| <= |Pending(setup, s)| + 1
  {
    var key, t := s.run.ctx.key, Step(setup, s, Patch(true));
    MergeWritesObject(s, s.run.ctx);
    forall other | other != key ensures PendingAt(setup, t, other) <==> PendingAt(setup, s, other) {
    }
    assert Pending(setup, t) <= Pending(setup, s) + {key};
    SubsetIsSmaller(Pending(setup, t), Pending(setup, s) + {key});
  }

  lemma {:induction false} SubsetIsSmaller(a: set<Key>, b: set<Key>)
    requires a <= b
    ensures |a| <= |b|
  {
    assert b == a + (b - a);
  }

  /** Where the quiet has led: no success yet and the same pending, or on track with a balance. */
  ghost predicate WithinBound(setup: Setup, s: State, successes: nat, start: set<Key>) {
    || (successes == 0 && Pending(setup, s) == start)
    || (Tracking(setup, s) && successes + |Pending(setup, s)| <= |start| + 2)
  }

  lemma StepStaysWithinBound(setup: Setup, s: State, c: Choice, successes: nat, start: set<Key>)
    requires Coherent(setup, s) && NoPins(setup, s) && !c.Outside? && WithinBound(setup, s, successes, start)
    ensures WithinBound(setup, Step(setup, s, c), successes + (if Records(s, c) then 1 else 0), start)
  {
    if Records(s, c) {
      if Tracking(setup, s) {
        StepUsesPending(setup, s, c);
        StepKeepsTracking(setup, s, c);
      } else {
        RecordedAddsAtMostOne(setup, s);
      }
    } else {
      StepConservesPending(setup, s, c);
      if Tracking(setup, s) {
        StepKeepsTracking(setup, s, c);
      }
    }
  }

  /**
   From any coherent state at all, in the middle of a reconcile whose reading is out of date or not: the
   quiet that follows records at most two successes more than there are Bootstraps pending, the one in
   flight and the one that this may have made pending.
   */
  lemma {:induction false} SuccessesAreBounded(setup: Setup, s: State, cs: seq<Choice>)
    requires Coherent(setup, s) && NoPins(setup, s) && Quiet(cs)
    ensures WithinBound(setup, Exec(setup, s, cs), Successes(setup, s, cs), Pending(setup, s))
    ensures Successes(setup, s, cs) <= |Pending(setup, s)| + 2
  {
    if cs != [] {
      var front, last := cs[..|cs| - 1], cs[|cs| - 1];
      assert last in cs && forall c :: c in front ==> c in cs;
      SuccessesAreBounded(setup, s, front);
      ExecKeepsCoherent(setup, s, front);
      QuietKeepsPins(setup, s, front);
      StepStaysWithinBound(setup, Exec(setup, s, front), last, Successes(setup, s, front), Pending(setup, s));
    }
  }

  /** A reconcile that is not recorded as a success leaves its Bootstrap exactly as due as it was. */
  lemma {:induction false} FailuresAreRetried(setup: Setup, s: State, cs: seq<Choice>)
    requires Coherent(setup, s) && Quiet(cs) && Successes(setup, s, cs) == 0
    ensures Pending(setup, Exec(setup, s, cs)) == Pending(setup, s)
  {
    if cs != [] {
      var front, last := cs[..|cs| - 1], cs[|cs| - 1];
      assert last in cs && forall c :: c in front ==> c in cs;
      FailuresAreRetried(setup, s, front);
      ExecKeepsCoherent(setup, s, front);
      StepConservesPending(setup, Exec(setup, s, front), last);
    }
  }

  // -------------------------------------------------------- the same again

  lemma QuietStepKeepsApplied(setup: Setup, s: State, c: Choice, key: Key)
    requires Coherent(setup, s) && !c.Outside? && !Records(s, c) && key in Step(setup, s, c).store
    ensures var t := Step(setup, s, c);
      && key in s.store && t.upstream == s.upstream
      && t.store[key].spec == s.store[key].spec && t.store[key].status.applied == s.store[key].status.applied
  {
    if c.Patch? {
      PatchWrites(setup, s, c.ok);
    } else {
      OnlyPatchesTouchStore(setup, s, c);
    }
  }

  /** Without a recorded success, a quiet run keeps every spec, every applied revision and all sources. */
  lemma {:induction false} QuietKeepsApplied(setup: Setup, s: State, cs: seq<Choice>, key: Key)
    requires Coherent(setup, s) && Quiet(cs) && Successes(setup, s, cs) == 0 && key in Exec(setup, s, cs).store
    ensures var t := Exec(setup, s, cs);
      && key in s.store && t.upstream == s.upstream
      && t.store[key].spec == s.store[key].spec && t.store[key].status.applied == s.store[key].status.applied
  {
    if cs != [] {
      var front, last := cs[..|cs| - 1], cs[|cs| - 1];
      assert last in cs && forall c :: c in front ==> c in cs;
      ExecKeepsCoherent(setup, s, front);
      QuietStepKeepsApplied(setup, Exec(setup, s, front), last, key);
      QuietKeepsApplied(setup, s, front, key);
    }
  }

  /** What a reconcile that is checking asks its sources. */
  function Asked(setup: Setup, s: State, pick: string): Answer
    requires s.run.Checking?
  {
    var o := s.run.ctx.obj;
    HasUpdate(setup.lib, setup.chain, s.upstream, o.spec, o.status.applied, Reached, pick)
  }

  predicate Picks(setup: Setup, s: State, pick: string)
    requires s.run.Checking?
  {
    PickFits(setup.lib, setup.chain, s.upstream, s.run.ctx.obj.spec, pick)
  }

  lemma CheckingIsCurrent(setup: Setup, s: State)
    requires Coherent(setup, s) && Tracking(setup, s) && s.run.Checking?
    ensures var c := s.run.ctx;
      c.key in s.store && c.obj.spec == s.store[c.key].spec && c.obj.status.applied == s.store[c.key].status.applied
  {
  }

  /**
   Retried with the same revision: when a check was offered an update, and since then nobody but the
   controller has acted and no success was recorded, a later check of the same Bootstrap is offered an
   update too, to the same revision or one of equal precedence.
   */
  lemma SameOfferAgain(setup: Setup, s: State, cs: seq<Choice>, p: string, q: string)
    requires Coherent(setup, s) && Tracking(setup, s) && Quiet(cs) && Successes(setup, s, cs) == 0
    requires s.run.Checking? && Picks(setup, s, p) && Offers(Asked(setup, s, p))
    requires var m := Exec(setup, s, cs); m.run.Checking? && m.run.ctx.key == s.run.ctx.key && Picks(setup, m, q)
    ensures var before, again := Asked(setup, s, p), Asked(setup, Exec(setup, s, cs), q);
      && Offers(again)
      && (again.revision == before.revision
          || (&& Parse(setup.lib, before.revision).Some? && Parse(setup.lib, again.revision).Some?
              && Equal(Parse(setup.lib, before.revision).value, Parse(setup.lib, again.revision).value)))
  {
    var m, o := Exec(setup, s, cs), s.run.ctx.obj;
    QuietKeepsTracking(setup, s, cs);
    CheckingIsCurrent(setup, s);
    CheckingIsCurrent(setup, m);
    QuietKeepsApplied(setup, s, cs, s.run.ctx.key);
    OfferIsStable(setup.lib, setup.chain, s.upstream, o.spec, o.status.applied, p, q);
  }

  // ------------------------------------------------------------------ rest

  /** Only reconciles that find nothing to do. */
  predicate Resting(s: State) {
    s.run.Idle? || (s.run.Checking? && Current(s, s.run.ctx)) || (s.run.Finishing? && s.run.ended.Early?)
  }

  lemma RestingStep(setup: Setup, s: State, c: Choice)
    requires Coherent(setup, s) && Resting(s) && !c.Outside?
    requires Pending(setup, s) == {}
    requires forall key :: key in s.store ==> !s.store[key].deleting
    ensures var t := Step(setup, s, c);
      && Resting(t) && t.cluster == s.cluster && t.upstream == s.upstream && t.store.Keys == s.store.Keys
      && (forall key :: key in s.store ==>
            && t.store[key].spec == s.store[key].spec && !t.store[key].deleting
            && t.store[key].status.applied == s.store[key].status.applied)
  {
    match c
    case Check(reach, pick) =>
      if s.run.Checking? {
        CheckFrame(setup, s, reach, pick);
        RestingCheck(setup, s, reach, pick);
      }
    case Start(key) => if s.run.Idle? { RestingStart(s, key); }
    case Patch(ok) => RestingPatch(setup, s, ok);
    case _ =>
  }

  lemma RestingStart(s: State, key: Key)
    requires s.run.Idle? && forall k :: k in s.store ==> !s.store[k].deleting
    ensures var t := StartStep(s, key); Resting(t) && t == s.(run := t.run)
  {
  }

  lemma RestingPatch(setup: Setup, s: State, ok: bool)
    requires Coherent(setup, s) && Resting(s)
    requires forall key :: key in s.store ==> !s.store[key].deleting
    ensures var t := Step(setup, s, Patch(ok));
      && Resting(t) && t.cluster == s.cluster && t.upstream == s.upstream && t.store.Keys == s.store.Keys
      && (forall key :: key in s.store ==>
            && t.store[key].spec == s.store[key].spec && !t.store[key].deleting
            && t.store[key].status.applied == s.store[key].status.applied)
  {
    PatchWrites(setup, s, ok);
  }

  lemma RestingCheck(setup: Setup, s: State, reach: Reach, pick: string)
    requires Coherent(setup, s) && s.run.Checking? && Current(s, s.run.ctx) && Pending(setup, s) == {}
    ensures Resting(CheckStep(setup, s, reach, pick))
  {
    var c := s.run.ctx;
    assert PendingAt(setup, s, c.key) ==> c.key in Pending(setup, s);
    if !reach.Reached? {
        UnreachableOffersNothing(setup.lib, setup.chain, s.upstream, c.obj.spec, c.obj.status.applied, reach, pick);
      }
    if reach.Reached? && PickFits(setup.lib, setup.chain, s.upstream, c.obj.spec, pick) {
      assert !Offers(HasUpdate(setup.lib, setup.chain, s.upstream, c.obj.spec, c.obj.status.applied, Reached, pick));
    }
  }

  /**
   Quiescence: once nothing is pending and nothing is being deleted, every further reconcile leaves
   the clusters and every applied revision as they are, and so does one that is still checking or has
   ended early.
   */
  lemma {:induction false} NothingPendingIsRest(setup: Setup, s: State, cs: seq<Choice>)
    requires Coherent(setup, s) && Resting(s) && Quiet(cs)
    requires Pending(setup, s) == {}
    requires forall key :: key in s.store ==> !s.store[key].deleting
    ensures var t := Exec(setup, s, cs);
      && Resting(t) && t.cluster == s.cluster && t.upstream == s.upstream && t.store.Keys == s.store.Keys
      && (forall key :: key in s.store ==>
            && t.store[key].spec == s.store[key].spec && !t.store[key].deleting
            && t.store[key].status.applied == s.store[key].status.applied)
  {
    if cs != [] {
      var front, last := cs[..|cs| - 1], cs[|cs| - 1];
      assert last in cs && forall c :: c in front ==> c in cs;
      NothingPendingIsRest(setup, s, front);
      ExecKeepsCoherent(setup, s, front);
      var m := Exec(setup, s, front);
      assert Pending(setup, m) == {} by {
        forall key | key in m.store ensures !PendingAt(setup, m, key) {
          assert key !in Pending(setup, s);
        }
      }
      RestingStep(setup, m, last);
    }
  }
}
