/** Owner labels, pruning on deletion, and the finalizer that guards it. */
module Ownership {
  import opened Api
  import opened Machine

  // ---------------------------------------------------------------- labels

  /**
   Every CRD the controller wrote carries the name of the Bootstrap whose apply last reached it, and
   only that label.
   */
  predicate Stamped(s: State) {
    forall k :: k in s.history.writer ==>
      k in s.cluster && s.cluster[k].labels == map[OWNER_LABEL := s.history.writer[k].name]
  }

  lemma PendingIsLabelled(setup: Setup, s: State, o: Object)
    requires Coherent(setup, s) && s.run.Applying? && o in s.run.pending
    ensures o.labels == map[OWNER_LABEL := s.run.ctx.key.name]
  {
    assert o in s.run.batch.objects;
  }

  /** Only applying and pruning write to a cluster. */
  lemma OnlyWritesTouchCluster(setup: Setup, s: State, c: Choice)
    requires !(c.ApplyOne? && s.run.Applying?) && !(c.DeleteOne? && s.run.Pruning?)
    ensures Step(setup, s, c).cluster == s.cluster && Step(setup, s, c).history.writer == s.history.writer
  {
    if !c.Patch? && !c.Outside? {
      OnlyPatchesTouchStore(setup, s, c);
    }
  }

  lemma ApplyKeepsStamped(setup: Setup, s: State, index: nat)
    requires Coherent(setup, s) && Stamped(s) && s.run.Applying?
    ensures Stamped(ApplyOneStep(s, index))
  {
    if index < |s.run.pending| {
      PendingIsLabelled(setup, s, s.run.pending[index]);
    }
  }

  lemma StepKeepsStamped(setup: Setup, s: State, c: Choice)
    requires Coherent(setup, s) && Stamped(s)
    ensures Stamped(Step(setup, s, c))
  {
    if c.ApplyOne? && s.run.Applying? {
      ApplyKeepsStamped(setup, s, c.index);
    } else if !(c.DeleteOne? && s.run.Pruning?) {
      OnlyWritesTouchCluster(setup, s, c);
    }
  }

  // ---------------------------------------------------- one deletion attempt

  /** a with some of the CRDs owned under this name taken away. */
  predicate Trimmed(a: Cluster, b: Cluster, name: string) {
    && (forall k :: k in b ==> k in a && b[k] == a[k])
    && (forall k :: k in a && k !in b ==> k in Owned(a, name))
  }

  predicate Unwinding(s: State, key: Key) {
    (s.run.Listing? || s.run.Pruning? || s.run.Releasing?) && s.run.ctx.key == key && s.run.ctx.before.spec.prune
  }

  predicate Guarded(s: State, key: Key) { key in s.store && s.store[key].finalizer }

  /** A deletion step takes away at most one CRD, and that one is owned. */
  lemma DeletionTrims(setup: Setup, a: Cluster, s: State, key: Key, c: Choice)
    requires Coherent(setup, s) && Unwinding(s, key) && Trimmed(a, s.cluster, key.name)
    ensures Trimmed(a, Step(setup, s, c).cluster, key.name)
  {
    if c.DeleteOne? && s.run.Pruning? {
      var gone := CrdKey(Local, s.run.items[0]);
      assert gone in LocalKeys(s.run.items);
      assert gone in Owned(a, key.name);
    } else {
      OnlyWritesTouchCluster(setup, s, c);
    }
  }

  lemma UnwindingStep(setup: Setup, a: Cluster, s: State, key: Key, c: Choice)
    requires Coherent(setup, s) && Unwinding(s, key) && Trimmed(a, s.cluster, key.name) && Guarded(s, key)
    ensures var t := Step(setup, s, c);
      && Coherent(setup, t) && Trimmed(a, t.cluster, key.name)
      && (Unwinding(t, key) || t.run.Idle?)
      && (!Guarded(t, key) ==> t.run.Idle? && Owned(t.cluster, key.name) == {})
  {
    StepKeepsCoherent(setup, s, c);
    SameReconcile(setup, s, c);
    DeletionTrims(setup, a, s, key, c);
    if !Guarded(Step(setup, s, c), key) {
      FinalizerPersists(setup, s, c, key);
      ReleaseEnds(setup, s, c.ok);
    }
  }

  lemma ReleaseEnds(setup: Setup, s: State, ok: bool)
    requires s.run.Releasing?
    ensures Step(setup, s, Patch(ok)).run.Idle?
  {
  }

  /** While its deletion is under way, a Bootstrap is stored with its finalizer. */
  lemma UnwindingIsGuarded(setup: Setup, s: State, key: Key)
    requires Coherent(setup, s) && Unwinding(s, key)
    ensures Guarded(s, key)
  {
  }

  /** A reconcile of a Bootstrap that is being deleted with prune set, taken as far as it got. */
  lemma {:induction false} UnwindingRun(setup: Setup, s: State, key: Key, cs: seq<Choice>)
    requires Coherent(setup, s) && Unwinding(s, key)
    requires forall i :: 0 <= i < |cs| ==> !At(setup, s, cs, i).run.Idle?
    ensures var t := Exec(setup, s, cs);
      && Coherent(setup, t) && Trimmed(s.cluster, t.cluster, key.name)
      && (Unwinding(t, key) || t.run.Idle?)
      && (!Guarded(t, key) ==> t.run.Idle? && Owned(t.cluster, key.name) == {})
  {
    if cs != [] {
      var front := cs[..|cs| - 1];
      assert forall i :: 0 <= i <= |front| ==> front[..i] == cs[..i];
      assert forall i :: 0 <= i < |front| ==> At(setup, s, front, i) == At(setup, s, cs, i);
      UnwindingRun(setup, s, key, front);
      assert Exec(setup, s, front) == At(setup, s, cs, |front|);
      UnwindingIsGuarded(setup, Exec(setup, s, front), key);
      UnwindingStep(setup, s.cluster, Exec(setup, s, front), key, cs[|cs| - 1]);
    }
  }

  predicate MayPrune(s: State, key: Key) {
    && s.run.Idle? && key in s.store
    && s.store[key].deleting && s.store[key].finalizer && s.store[key].spec.prune
  }

  /**
   Deleting is restartable. Whatever happens during an attempt, and wherever it fails, only CRDs
   owned under the Bootstrap's name disappear, the finalizer stays stored as long as one of them is
   left, and when the finalizer is gone exactly the owned ones are gone.
   */
  lemma DeletionIsExact(setup: Setup, s: State, key: Key, cs: seq<Choice>)
    requires MayPrune(s, key)
    requires forall i :: 0 <= i < |cs| ==> !At(setup, StartStep(s, key), cs, i).run.Idle?
    ensures var t := Exec(setup, StartStep(s, key), cs);
      && Trimmed(s.cluster, t.cluster, key.name)
      && Owned(t.cluster, key.name) <= Owned(s.cluster, key.name)
      && (Owned(t.cluster, key.name) != {} ==> Guarded(t, key))
      && (!Guarded(t, key) ==>
            forall k :: k in t.cluster <==> k in s.cluster && k !in Owned(s.cluster, key.name))
  {
    UnwindingRun(setup, StartStep(s, key), key, cs);
    var t := Exec(setup, StartStep(s, key), cs);
    if !Guarded(t, key) {
      forall k | k in s.cluster && k in Owned(s.cluster, key.name) ensures k !in t.cluster {
        assert k in t.cluster ==> k in Owned(t.cluster, key.name);
      }
    }
  }

  /**
   Prune is exact: once the deletion has completed, a local CRD that the controller had written is
   still there exactly when it was last written by a Bootstrap of a different name. A CRD of another
   Bootstrap is lost exactly when that Bootstrap has the same name in another namespace; CRDs in
   remote clusters always stay.
   */
  lemma PruneIsExact(setup: Setup, s: State, key: Key, cs: seq<Choice>, k: CrdKey)
    requires MayPrune(s, key) && Stamped(s) && k in s.history.writer
    requires forall i :: 0 <= i < |cs| ==> !At(setup, StartStep(s, key), cs, i).run.Idle?
    requires !Guarded(Exec(setup, StartStep(s, key), cs), key)
    ensures k in Exec(setup, StartStep(s, key), cs).cluster
       <==> !(k.target.Local? && s.history.writer[k].name == key.name)
  {
    DeletionIsExact(setup, s, key, cs);
  }

  /**
   Each successful deletion of an item takes exactly one CRD from the owned set, so attempts cannot go
   on for ever.
   */
  lemma EachDeleteLowersOwned(setup: Setup, s: State)
    requires Coherent(setup, s) && s.run.Pruning?
    ensures var t, name := Step(setup, s, DeleteOne(true)), s.run.ctx.key.name;
      |Owned(t.cluster, name)| == |Owned(s.cluster, name)| - 1
  {
    var gone := CrdKey(Local, s.run.items[0]);
    assert gone in LocalKeys(s.run.items);
    assert Owned(s.cluster - {gone}, s.run.ctx.key.name) == Owned(s.cluster, s.run.ctx.key.name) - {gone};
  }

  /** The choices of an attempt in which nothing fails. */
  function Deletes(n: nat): seq<Choice> { seq(n, i => DeleteOne(true)) }

  lemma {:induction false} DeletesRunThrough(setup: Setup, s: State, key: Key)
    requires Coherent(setup, s) && s.run.Pruning? && s.run.ctx.key == key
    ensures var t := Exec(setup, s, Deletes(|s.run.items|));
      Coherent(setup, t) && t.run.Releasing? && t.run.ctx.key == key && t.store == s.store
    decreases |s.run.items|
  {
    var n := |s.run.items|;
    var t := Step(setup, s, DeleteOne(true));
    StepKeepsCoherent(setup, s, DeleteOne(true));
    assert Deletes(n) == [DeleteOne(true)] + Deletes(n - 1);
    ExecConcat(setup, s, [DeleteOne(true)], Deletes(n - 1));
    assert [DeleteOne(true)][..0] == [];
    assert Exec(setup, s, [DeleteOne(true)]) == t;
    if n > 1 {
      DeletesRunThrough(setup, t, key);
    } else {
      assert Deletes(0) == [];
    }
  }

  /** An attempt in which no call fails completes: it takes one step for each owned CRD and drops the finalizer. */
  lemma DeletionCompletes(setup: Setup, s: State, key: Key, items: seq<string>)
    requires MayPrune(s, key) && IsListing(items, s.cluster, key.name)
    ensures var t := Exec(setup, s, [Start(key), List(true, items)] + Deletes(|items|) + [Patch(true)]);
      t.run.Idle? && !Guarded(t, key)
  {
    var opening := [Start(key), List(true, items)];
    var a := Step(setup, s, Start(key));
    var b := Step(setup, a, List(true, items));
    assert opening[..1] == [Start(key)] && [Start(key)][..0] == [];
    assert Exec(setup, s, [Start(key)]) == a;
    assert Exec(setup, s, opening) == b;
    StepKeepsCoherent(setup, s, Start(key));
    StepKeepsCoherent(setup, a, List(true, items));
    var d := Exec(setup, b, Deletes(|items|));
    if items == [] {
      assert Deletes(0) == [];
    } else {
      DeletesRunThrough(setup, b, key);
    }
    assert d.run.Releasing? && d.run.ctx.key == key && Coherent(setup, d);
    ExecConcat(setup, s, opening, Deletes(|items|));
    ExecSnoc(setup, s, opening + Deletes(|items|), Patch(true));
    MergeWritesObject(d, d.run.ctx);
  }

  // ------------------------------------------------------- without pruning

  /** A deletion that only lets go: prune is not set. */
  predicate MayLetGo(s: State, key: Key) {
    && s.run.Idle? && key in s.store
    && s.store[key].deleting && s.store[key].finalizer && !s.store[key].spec.prune
  }

  /**
   Without prune a deletion is one reconcile: no CRD is touched in any cluster, the finalizer is gone
   once the patch lands, and the Bootstrap with it, unless others hold it by finalizers of their own. If
   the patch is lost, everything is as before, and can be tried again.
   */
  lemma LettingGoCompletes(setup: Setup, s: State, key: Key, ok: bool)
    requires MayLetGo(s, key)
    ensures var t := Exec(setup, s, [Start(key), Patch(ok)]);
      && t.run.Idle? && t.cluster == s.cluster && t.history.writer == s.history.writer
      && (if ok
          then !Guarded(t, key) && (key in t.store <==> s.store[key].foreign)
               && (forall other :: other != key ==> (other in t.store <==> other in s.store))
               && (forall other :: other in t.store && other != key ==> t.store[other] == s.store[other])
          else t == s)
  {
    var b := s.store[key];
    var c := Ctx(key, b, b.(finalizer := false));
    var s1 := s.(run := Releasing(c));
    ExecOne(setup, s, Start(key));
    assert Step(setup, s, Start(key)) == s1;
    ExecSnoc(setup, s, [Start(key)], Patch(ok));
    assert [Start(key)] + [Patch(ok)] == [Start(key), Patch(ok)];
    assert Step(setup, s1, Patch(ok)) == ReleaseStep(s1, ok);
    LetGo(s1, ok);
  }

  lemma LetGo(s: State, ok: bool)
    requires s.run.Releasing? && Undisturbed(s, s.run.ctx) && s.run.ctx.key in s.store
    requires s.store[s.run.ctx.key].deleting && s.run.ctx.obj == s.run.ctx.before.(finalizer := false)
    ensures var key, t := s.run.ctx.key, ReleaseStep(s, ok);
      && t.run.Idle? && t.cluster == s.cluster && t.history.writer == s.history.writer
      && (if ok
          then t.store == if s.store[key].foreign then s.store[key := s.store[key].(finalizer := false)]
                          else s.store - {key}
          else t == s.(run := Idle))
  {
    if ok {
      MergeWritesObject(s, s.run.ctx);
    }
  }

  // ----------------------------------------------------------- across attempts

  /** Within the store a name belongs to one namespace only. */
  predicate OnlyBearer(s: State, key: Key) {
    forall other :: other in s.store && other.name == key.name ==> other == key
  }

  /** The Bootstrap is being deleted and no reconcile in flight could write under its name. */
  predicate Winding(s: State, key: Key) {
    && key in s.store && s.store[key].deleting
    && (!s.run.Idle? && s.run.ctx.key.name == key.name ==> s.run.Listing? || s.run.Pruning? || s.run.Releasing?)
  }

  lemma WindingStep(setup: Setup, s: State, key: Key, c: Choice)
    requires Coherent(setup, s) && Winding(s, key) && OnlyBearer(s, key)
    requires key in Step(setup, s, c).store
    ensures var t := Step(setup, s, c);
      Winding(t, key) && Owned(t.cluster, key.name) <= Owned(s.cluster, key.name)
  {
    DeletingPersists(setup, s, c, key);
    WindingRunStep(setup, s, key, c);
    if c.ApplyOne? && s.run.Applying? {
      if c.index < |s.run.pending| {
        PendingIsLabelled(setup, s, s.run.pending[c.index]);
      }
    } else if !(c.DeleteOne? && s.run.Pruning?) {
      OnlyWritesTouchCluster(setup, s, c);
    }
  }

  lemma DeletingPersists(setup: Setup, s: State, c: Choice, key: Key)
    requires Coherent(setup, s) && key in s.store && s.store[key].deleting && key in Step(setup, s, c).store
    ensures Step(setup, s, c).store[key].deleting
  {
    match c
    case Check(reach, pick) => OnlyPatchesTouchStore(setup, s, c);
    case _ =>
  }

  lemma WindingRunStep(setup: Setup, s: State, key: Key, c: Choice)
    requires Winding(s, key) && OnlyBearer(s, key)
    ensures var t := Step(setup, s, c); !t.run.Idle? && t.run.ctx.key.name == key.name ==> Deleting(t.run)
  {
    if !s.run.Idle? {
      SameReconcile(setup, s, c);
    }
  }

  /**
   From the moment a Bootstrap is marked for deletion and no reconcile is in flight, the set of CRDs
   owned under its name never grows again, over all later attempts and everything between them, as
   long as no other stored Bootstrap has its name.
   */
  lemma {:induction false} OwnedOnlyShrinks(setup: Setup, s: State, key: Key, cs: seq<Choice>)
    requires Coherent(setup, s) && Winding(s, key)
    requires forall i :: 0 <= i <= |cs| ==>
      key in At(setup, s, cs, i).store && OnlyBearer(At(setup, s, cs, i), key)
    ensures Winding(Exec(setup, s, cs), key)
    ensures Owned(Exec(setup, s, cs).cluster, key.name) <= Owned(s.cluster, key.name)
  {
    assert cs[..|cs|] == cs;
    if cs != [] {
      var front := cs[..|cs| - 1];
      assert forall i :: 0 <= i <= |front| ==> front[..i] == cs[..i];
      assert forall i :: 0 <= i <= |front| ==> At(setup, s, front, i) == At(setup, s, cs, i);
      OwnedOnlyShrinks(setup, s, key, front);
      ExecKeepsCoherent(setup, s, front);
      assert Exec(setup, s, front) == At(setup, s, cs, |front|);
      assert Exec(setup, s, cs) == At(setup, s, cs, |cs|);
      WindingStep(setup, Exec(setup, s, front), key, cs[|cs| - 1]);
    }
  }

  // --------------------------------------------------------------- orphans

  /** Every local CRD the controller wrote has its writer stored with the finalizer, but for the two exceptions. */
  predicate Sheltered(s: State) {
    forall k :: k in s.history.writer && k.target.Local? ==>
      var o := s.history.writer[k];
      Guarded(s, o) || o in s.history.exposed || k in s.history.released
  }

  /** A stored finalizer goes only by the last patch of a deletion, and with prune set only after every owned CRD. */
  lemma FinalizerPersists(setup: Setup, s: State, c: Choice, key: Key)
    requires Coherent(setup, s) && Guarded(s, key) && !Guarded(Step(setup, s, c), key)
    ensures s.run.Releasing? && s.run.ctx.key == key && c == Patch(true) && s.store[key].deleting
    ensures s.run.ctx.before.spec.prune ==> Owned(Step(setup, s, c).cluster, key.name) == {}
  {
    match c
    case Outside(move) =>
    case Patch(ok) =>
    case Check(reach, pick) => OnlyPatchesTouchStore(setup, s, c);
    case _ =>
  }

  lemma OutsideKeepsSheltered(setup: Setup, s: State, m: Move)
    requires Sheltered(s)
    ensures Sheltered(OutsideStep(s, m))
  {
    forall key | Guarded(s, key) ensures Guarded(OutsideStep(s, m), key) {
    }
  }

  lemma WrittenIsOwned(s: State, k: CrdKey)
    requires Stamped(s) && k in s.history.writer && k.target.Local?
    ensures k in Owned(s.cluster, s.history.writer[k].name)
  {
  }

  lemma PatchKeepsSheltered(setup: Setup, s: State, ok: bool)
    requires Coherent(setup, s) && Stamped(s) && Sheltered(s)
    ensures Sheltered(Step(setup, s, Patch(ok)))
  {
    var t := Step(setup, s, Patch(ok));
    if s.run.Finishing? && ok && Lands(s, s.run.ctx) {
      assert Guarded(t, s.run.ctx.key);
      forall key | Guarded(s, key) ensures Guarded(t, key) {
      }
    } else if s.run.Releasing? && ok && Lands(s, s.run.ctx) {
      var c := s.run.ctx;
      forall k | k in s.history.writer && k.target.Local?
        ensures var o := s.history.writer[k]; Guarded(t, o) || o in t.history.exposed || k in t.history.released
      {
        WrittenIsOwned(s, k);
      }
    }
  }

  lemma ApplyKeepsSheltered(s: State, index: nat)
    requires s.run.Applying? && Sheltered(s)
    ensures Sheltered(ApplyOneStep(s, index))
  {
  }

  lemma DeleteKeepsSheltered(s: State, ok: bool)
    requires s.run.Pruning? && Sheltered(s)
    ensures Sheltered(DeleteStep(s, ok))
  {
  }

  lemma StepKeepsSheltered(setup: Setup, s: State, c: Choice)
    requires Coherent(setup, s) && Stamped(s) && Sheltered(s)
    ensures Sheltered(Step(setup, s, c))
  {
    match c
    case Outside(move) => OutsideKeepsSheltered(setup, s, move);
    case Patch(ok) => PatchKeepsSheltered(setup, s, ok);
    case ApplyOne(index) => if s.run.Applying? { ApplyKeepsSheltered(s, index); }
    case DeleteOne(ok) => if s.run.Pruning? { DeleteKeepsSheltered(s, ok); }
    case _ => OnlyPatchesTouchStore(setup, s, c);
  }

  /**
   No orphans: over every run, each local CRD the controller wrote still has its last writer stored
   with the finalizer in place, unless the CRD was left behind with prune unset and not written since, or
   its writer wrote while no finalizer of its own was stored and no patch of its reconciles has landed
   since.
   */
  lemma {:induction false} NoOrphans(setup: Setup, s: State, cs: seq<Choice>)
    requires Coherent(setup, s) && Stamped(s) && Sheltered(s)
    ensures Stamped(Exec(setup, s, cs)) && Sheltered(Exec(setup, s, cs))
  {
    if cs != [] {
      var front := cs[..|cs| - 1];
      NoOrphans(setup, s, front);
      ExecKeepsCoherent(setup, s, front);
      StepKeepsStamped(setup, Exec(setup, s, front), cs[|cs| - 1]);
      StepKeepsSheltered(setup, Exec(setup, s, front), cs[|cs| - 1]);
    }
  }

  lemma WriteIsOwned(setup: Setup, s: State, index: nat)
    requires Coherent(setup, s) && s.run.Applying? && index < |s.run.pending| && TargetOf(s.run.ctx.obj.spec).Local?
    ensures var t, k := ApplyOneStep(s, index), CrdKey(Local, s.run.pending[index].name);
      && t.store == s.store && t.run.Applying? && t.run.ctx == s.run.ctx
      && k in Owned(t.cluster, s.run.ctx.key.name) && k in t.history.writer && t.history.writer[k] == s.run.ctx.key
  {
    PendingIsLabelled(setup, s, s.run.pending[index]);
  }

  lemma EndFrame(setup: Setup, s: State, ok: bool, ready: bool)
    requires s.run.Applying?
    ensures var t := ApplyEndStep(s, ok, ready);
      && t == s.(run := t.run) && (t == s || t.run.Finishing?) && t.run.ctx.key == s.run.ctx.key
  {
  }

  /** A patch of a Bootstrap that is gone stores nothing. */
  lemma LostPatchStoresNothing(setup: Setup, s: State, ok: bool)
    requires (s.run.Finishing? || s.run.Applying?) && s.run.ctx.key !in s.store
    ensures var t := Step(setup, s, Patch(ok));
      t.store == s.store && t.cluster == s.cluster && t.history.writer == s.history.writer
  {
  }

  /**
   The exception for a first reconcile is real. The finalizer is persisted only by the final patch,
   so a Bootstrap whose deletion is requested between an apply and that patch is gone as soon as the
   finalizers of others are, whatever its prune setting, and the CRD it wrote stays behind under its
   label.
   */
  lemma EarlyDeletionOrphans(setup: Setup, s: State, index: nat, ok: bool, ready: bool, patch: bool)
    requires Coherent(setup, s) && s.run.Applying? && index < |s.run.pending|
    requires TargetOf(s.run.ctx.obj.spec).Local?
    requires var key := s.run.ctx.key; key in s.store && !s.store[key].finalizer
    ensures var key, k := s.run.ctx.key, CrdKey(Local, s.run.pending[index].name);
      var request, release := Outside(RequestDelete(key)), Outside(DropForeign(key));
      var t := Exec(setup, s, [ApplyOne(index), request, release, ApplyEnd(ok, ready)] + [Patch(patch)]);
      key !in t.store && k in Owned(t.cluster, key.name) && k in t.history.writer && t.history.writer[k] == key
  {
    var key, o := s.run.ctx.key, s.run.pending[index];
    var request, release := Outside(RequestDelete(key)), Outside(DropForeign(key));
    var a := Step(setup, s, ApplyOne(index));
    var b := Step(setup, Step(setup, a, request), release);
    var d := Step(setup, b, ApplyEnd(ok, ready));
    ExecFour(setup, s, ApplyOne(index), request, release, ApplyEnd(ok, ready));
    ExecSnoc(setup, s, [ApplyOne(index), request, release, ApplyEnd(ok, ready)], Patch(patch));
    WriteIsOwned(setup, s, index);
    RequestedIsGone(setup, a, key);
    EndFrame(setup, b, ok, ready);
    LostPatchStoresNothing(setup, d, patch);
  }

  /** Without a stored finalizer, a Bootstrap that is asked to go is gone once the finalizers of others are. */
  lemma RequestedIsGone(setup: Setup, s: State, key: Key)
    requires key in s.store && !s.store[key].finalizer
    ensures var t := Step(setup, Step(setup, s, Outside(RequestDelete(key))), Outside(DropForeign(key)));
      t == s.(store := s.store - {key})
  {
    assert s.store[key := s.store[key].(deleting := true)] - {key} == s.store - {key};
  }

  // ------------------------------------- the finalizer at the delete request

  /** Nobody creates a Bootstrap of this name and namespace anew. */
  predicate NotRecreated(cs: seq<Choice>, key: Key) {
    forall c :: c in cs ==> !(c.Outside? && c.move.CreateBootstrap? && c.move.key == key)
  }

  /** The Bootstrap is gone, and a CRD that it was the last to write is still there, though it was not let go. */
  predicate Orphaned(s: State, key: Key, k: CrdKey) {
    && key !in s.store && k in s.cluster
    && k in s.history.writer && s.history.writer[k] == key && k !in s.history.released
  }

  /** The local CRDs that this Bootstrap was the last to write are left behind on purpose. */
  predicate AllReleased(s: State, key: Key) {
    forall k :: k in s.history.writer && k.target.Local? && s.history.writer[k] == key ==> k in s.history.released
  }

  /** Being deleted under its finalizer, or let go for good with nothing forgotten. */
  predicate Departing(s: State, key: Key) {
    && (key in s.store ==> s.store[key].deleting)
    && (Guarded(s, key) || (!InFlight(s, key) && AllReleased(s, key)))
  }

  lemma ReleasedAtEnd(setup: Setup, s: State, key: Key)
    requires Coherent(setup, s) && Stamped(s) && s.run.Releasing? && s.run.ctx.key == key
    requires Guarded(s, key) && !Guarded(Step(setup, s, Patch(true)), key)
    requires s.run.ctx.before.spec.prune ==> Owned(Step(setup, s, Patch(true)).cluster, key.name) == {}
    ensures var t := Step(setup, s, Patch(true)); t.run.Idle? && AllReleased(t, key)
  {
    var t := Step(setup, s, Patch(true));
    assert t == ReleaseStep(s, true);
    forall k | k in s.history.writer && k.target.Local? && s.history.writer[k] == key ensures k in t.history.released {
      WrittenIsOwned(s, k);
    }
  }

  /** Once it is let go and being deleted, no reconcile of it starts, and none of another Bootstrap undoes that. */
  lemma LetGoStays(setup: Setup, s: State, c: Choice, key: Key)
    requires Coherent(setup, s) && !Guarded(s, key) && Departing(s, key) && NotRecreated([c], key)
    ensures var t := Step(setup, s, c);
      !Guarded(t, key) && (key in t.store ==> t.store[key].deleting) && !InFlight(t, key)
  {
    assert c in [c];
    match c
    case Outside(move) => OutsideKeepsRun(s, move);
    case Patch(ok) => PatchWrites(setup, s, ok);
    case Start(k) => OnlyPatchesTouchStore(setup, s, c);
    case _ =>
      OnlyPatchesTouchStore(setup, s, c);
      if !s.run.Idle? {
        SameReconcile(setup, s, c);
      }
  }

  lemma ReleasedStays(setup: Setup, s: State, c: Choice, key: Key)
    requires !InFlight(s, key) && AllReleased(s, key)
    ensures AllReleased(Step(setup, s, c), key)
  {
    match c
    case Outside(move) =>
    case Patch(ok) =>
    case ApplyOne(index) =>
    case DeleteOne(ok) =>
    case _ => OnlyPatchesTouchStore(setup, s, c);
  }

  lemma StepKeepsDeparting(setup: Setup, s: State, c: Choice, key: Key)
    requires Coherent(setup, s) && Stamped(s) && Departing(s, key) && NotRecreated([c], key)
    ensures Departing(Step(setup, s, c), key)
  {
    if !Guarded(s, key) {
      LetGoStays(setup, s, c, key);
      ReleasedStays(setup, s, c, key);
    } else {
      if key in Step(setup, s, c).store {
        DeletingPersists(setup, s, c, key);
      }
      if !Guarded(Step(setup, s, c), key) {
        FinalizerPersists(setup, s, c, key);
        ReleasedAtEnd(setup, s, key);
      }
    }
  }

  lemma {:induction false} ExecKeepsDeparting(setup: Setup, s: State, cs: seq<Choice>, key: Key)
    requires Coherent(setup, s) && Stamped(s) && Sheltered(s) && Departing(s, key) && NotRecreated(cs, key)
    ensures Departing(Exec(setup, s, cs), key)
  {
    if cs != [] {
      var front, last := cs[..|cs| - 1], cs[|cs| - 1];
      assert last in cs && forall c :: c in front ==> c in cs;
      ExecKeepsDeparting(setup, s, front, key);
      ExecKeepsCoherent(setup, s, front);
      NoOrphans(setup, s, front);
      StepKeepsDeparting(setup, Exec(setup, s, front), last, key);
    }
  }

  /** Some run after the delete request orphans the CRD. */
  ghost predicate CanBeOrphaned(setup: Setup, s: State, key: Key, k: CrdKey) {
    exists cs :: NotRecreated(cs, key) && Orphaned(Exec(setup, OutsideStep(s, RequestDelete(key)), cs), key, k)
  }

  /**
   The finalizer that is stored when the deletion is requested decides: a local CRD that the Bootstrap
   was the last to write can be orphaned by what follows, in whatever order and with whatever failures,
   if and only if the finalizer was not stored by then.
   */
  lemma OrphanedExactly(setup: Setup, s: State, key: Key, k: CrdKey)
    requires Coherent(setup, s) && Stamped(s) && Sheltered(s) && key in s.store
    requires k.target.Local? && k in s.history.writer && s.history.writer[k] == key && k !in s.history.released
    ensures CanBeOrphaned(setup, s, key, k) <==> !s.store[key].finalizer
  {
    var requested := OutsideStep(s, RequestDelete(key));
    if s.store[key].finalizer {
      StepKeepsCoherent(setup, s, Outside(RequestDelete(key)));
      OutsideKeepsSheltered(setup, s, RequestDelete(key));
      StepKeepsStamped(setup, s, Outside(RequestDelete(key)));
      assert Departing(requested, key);
      forall cs | NotRecreated(cs, key) ensures !Orphaned(Exec(setup, requested, cs), key, k) {
        ExecKeepsDeparting(setup, requested, cs, key);
      }
    } else {
      var cs := [Outside(DropForeign(key))];
      ExecOne(setup, requested, cs[0]);
      RequestedIsGone(setup, s, key);
      assert NotRecreated(cs, key) && Orphaned(Exec(setup, requested, cs), key, k);
    }
  }
}
