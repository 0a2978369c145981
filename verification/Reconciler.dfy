/**
 The reconciler as imperative code over the API server's store, the clusters and the sources, verified
 against the state machine: one call leaves the world exactly where the machine's run leaves it.
 */
module Reconciler {
  import opened Basics
  import opened Api
  import opened Libraries
  import opened Gate
  import opened Manifest
  import opened Sources
  import opened Machine
  import opened Objects

  /**
   What happens around one call: what others do at each pause, and how each I/O call turns out.
   `writes` and `deletes` say after how many objects the apply and the prune loop fail, if they do.
   */
  datatype Script = Script(
    beforeCheck: seq<Move>, beforeFetch: seq<Move>, beforeRead: seq<Move>,
    beforeApply: seq<Move>, beforePatch: seq<Move>,
    checkReach: Reach, temp: bool, fetchReach: Reach, manager: bool, readable: bool,
    detectFailAt: Option<nat>, validateFailAt: Option<nat>,
    writes: Option<nat>, ready: bool, patch: bool,
    list: bool, deletes: Option<nat>)

  /** The choice goes as the script says. */
  predicate Obeys(c: Choice, script: Script) {
    match c
    case Outside(m) =>
      || m in script.beforeCheck || m in script.beforeFetch || m in script.beforeRead
      || m in script.beforeApply || m in script.beforePatch
    case Start(_) => false
    case Check(reach, _) => reach == script.checkReach
    case Fetch(temp, reach) => temp == script.temp && reach == script.fetchReach
    case Read(manager, readable) => manager == script.manager && readable == script.readable
    case Judge(d, v) => d == script.detectFailAt && v == script.validateFailAt
    case ApplyOne(index) => index == 0
    case ApplyEnd(ok, ready) => ok == script.writes.None? && ready == script.ready
    case Patch(ok) => ok == script.patch
    case List(ok, _) => ok == script.list
    case DeleteOne(ok) => !ok ==> script.deletes.Some?
  }

  predicate Obedient(trace: seq<Choice>, script: Script) { forall c :: c in trace ==> Obeys(c, script) }

  lemma Joined(a: seq<Choice>, b: seq<Choice>, script: Script)
    requires Obedient(a, script) && Obedient(b, script)
    ensures Obedient(a + b, script)
  {
  }

  function Outsides(moves: seq<Move>): (r: seq<Choice>)
    ensures |r| == |moves|
  {
    seq(|moves|, i requires 0 <= i < |moves| => Outside(moves[i]))
  }

  class BootstrapReconciler {
    const setup: Setup
    var store: map<Key, Bootstrap>
    var cluster: Cluster
    var upstream: Upstream
    ghost var history: History

    constructor (setup: Setup, store: map<Key, Bootstrap>, cluster: Cluster, upstream: Upstream)
      ensures this.setup == setup
      ensures World() == State(store, cluster, upstream, Idle, History(map[], {}, {}, map[]))
    {
      this.setup, this.store, this.cluster, this.upstream := setup, store, cluster, upstream;
      history := History(map[], {}, {}, map[]);
    }

    /** The machine state while a reconcile is in this phase. */
    ghost function During(run: Run): State
      reads this
    {
      State(store, cluster, upstream, run, history)
    }

    ghost function World(): State
      reads this
    {
      During(Idle)
    }

    // -------------------------------------------------------------- others

    /** What others do while the reconcile of `busy` is in flight. */
    method Others(moves: seq<Move>, busy: Key, ghost run: Run)
      requires !run.Idle? && run.ctx.key == busy
      modifies this
      ensures During(run) == Exec(setup, old(During(run)), Outsides(moves))
    {
      ghost var start := During(run);
      for i := 0 to |moves|
        invariant During(run) == Exec(setup, start, Outsides(moves[..i]))
      {
        assert Outsides(moves[..i + 1]) == Outsides(moves[..i]) + [Outside(moves[i])];
        ExecSnoc(setup, start, Outsides(moves[..i]), Outside(moves[i]));
        Other(moves[i], busy, run);
      }
      assert moves[..|moves|] == moves;
    }

    method Other(move: Move, busy: Key, ghost run: Run)
      requires !run.Idle? && run.ctx.key == busy
      modifies this
      ensures During(run) == OutsideStep(old(During(run)), move)
    {
      match move
      case Publish(up) => upstream := up;
      case CreateBootstrap(key, spec, foreign) =>
        if key !in store && key != busy {
          store := store[key := Bootstrap(spec, EMPTY_STATUS, false, foreign, false)];
          history := history.(records := history.records[key := []]);
        }
      case EditSpec(key, spec) =>
        if key in store {
          store := store[key := store[key].(spec := spec)];
        }
      case RequestDelete(key) =>
        if key in store {
          store := Put(store, key, store[key].(deleting := true));
        }
      case DropForeign(key) =>
        if key in store {
          store := Put(store, key, store[key].(foreign := false));
        }
    }

    // --------------------------------------------------------------- phases

    /** The reconcile's context as its two objects in memory say it. */
    ghost function Holding(key: Key, before: BootstrapObject, obj: BootstrapObject): Ctx
      reads before, before.counters, obj, obj.counters
    {
      Ctx(key, before.Value(), obj.Value())
    }

    /** Recording the attempt, or that there is nothing to do. */
    static method Heed(obj: BootstrapObject, answer: Answer, ghost key: Key, ghost before: Bootstrap)
      returns (due: bool, revision: string)
      modifies obj
      ensures obj.counters == old(obj.counters)
      ensures Heeding(Ctx(key, before, old(obj.Value())), answer)
           == if due then Fetching(Ctx(key, before, obj.Value()), revision)
              else Finishing(Ctx(key, before, obj.Value()), Early)
    {
      if !answer.Answered? {
        return false, "";
      }
      if !answer.update {
        obj.ready := ReadyTrue;
        return false, "";
      }
      obj.attempted := answer.revision;
      return true, answer.revision;
    }

    /** HasUpdate. */
    method Ask(key: Key, spec: Spec, applied: string, script: Script, ghost run: Run)
      returns (answer: Answer, ghost trace: seq<Choice>)
      requires run.Checking? && run.ctx.key == key && run.ctx.obj.spec == spec && run.ctx.obj.status.applied == applied
      modifies this
      ensures During(Heeding(run.ctx, answer)) == Exec(setup, old(During(run)), trace)
      ensures Obedient(trace, script)
    {
      ghost var start := During(run);
      Others(script.beforeCheck, key, run);
      answer := CheckForUpdate(setup.lib, setup.chain, upstream, spec, applied, script.checkReach);
      ghost var pick :| Gives(setup.lib, setup.chain, upstream, spec, applied, script.checkReach, pick, answer);
      trace := Outsides(script.beforeCheck) + [Check(script.checkReach, pick)];
      ExecSnoc(setup, start, Outsides(script.beforeCheck), Check(script.checkReach, pick));
      AnswerIsTaken(During(run), script.checkReach, pick, answer);
    }

    /** The machine takes an answer that its sources give. */
    lemma AnswerIsTaken(s: State, reach: Reach, pick: string, answer: Answer)
      requires s.run.Checking?
      requires var o := s.run.ctx.obj;
        Gives(setup.lib, setup.chain, s.upstream, o.spec, o.status.applied, reach, pick, answer)
      ensures Step(setup, s, Check(reach, pick)) == s.(run := Heeding(s.run.ctx, answer))
    {
    }

    /** HasUpdate, and recording the attempt. */
    method CheckPhase(key: Key, before: BootstrapObject, obj: BootstrapObject, script: Script)
      returns (due: bool, revision: string, ghost next: Run, ghost trace: seq<Choice>)
      requires Apart(before, obj)
      modifies this, obj
      ensures before.Value() == old(before.Value()) && obj.counters == old(obj.counters) && Apart(before, obj)
      ensures obj.Decoded() == old(obj.Decoded())
      ensures During(next) == Exec(setup, old(During(Checking(Holding(key, before, obj)))), trace)
      ensures next == if due then Fetching(Holding(key, before, obj), revision)
                      else Finishing(Holding(key, before, obj), Early)
      ensures Obedient(trace, script)
    {
      var answer: Answer;
      answer, trace := Ask(key, obj.spec, obj.applied, script, Checking(Holding(key, before, obj)));
      due, revision := Heed(obj, answer, key, before.Value());
      next := if due then Fetching(Holding(key, before, obj), revision)
              else Finishing(Holding(key, before, obj), Early);
    }

    /** The temporary directory and FetchCRD. */
    method FetchPhase(key: Key, before: BootstrapObject, obj: BootstrapObject, revision: string, script: Script)
      returns (content: Option<string>, ghost next: Run, ghost trace: seq<Choice>)
      requires Apart(before, obj)
      modifies this, obj
      ensures before.Value() == old(before.Value()) && obj.counters == old(obj.counters) && Apart(before, obj)
      ensures obj.Decoded() == old(obj.Decoded())
      ensures During(next) == Exec(setup, old(During(Fetching(Holding(key, before, obj), revision))), trace)
      ensures next == if content.Some? then Reading(Holding(key, before, obj), revision, content.value)
                      else Finishing(Holding(key, before, obj), Early)
      ensures Obedient(trace, script)
    {
      ghost var run := Fetching(Holding(key, before, obj), revision);
      ghost var start := During(run);
      Others(script.beforeFetch, key, run);
      var fetched := FetchError;
      if script.temp {
        fetched := FetchContent(setup.chain, upstream, obj.spec, revision, script.fetchReach);
      }
      trace := Outsides(script.beforeFetch) + [Fetch(script.temp, script.fetchReach)];
      ExecSnoc(setup, start, Outsides(script.beforeFetch), Fetch(script.temp, script.fetchReach));
      FetchIsTaken(During(run), script.temp, script.fetchReach, fetched);
      content := Open(obj, script.temp, fetched, key, before.Value(), revision);
      next := if content.Some? then Reading(Holding(key, before, obj), revision, content.value)
              else Finishing(Holding(key, before, obj), Early);
    }

    /** The machine takes what its sources let it fetch. */
    lemma FetchIsTaken(s: State, temp: bool, reach: Reach, fetched: Fetched)
      requires s.run.Fetching?
      requires temp ==> fetched == FetchCRD(setup.chain, s.upstream, s.run.ctx.obj.spec, s.run.revision, reach)
      ensures Step(setup, s, Fetch(temp, reach)) == s.(run := Opening(s.run.ctx, s.run.revision, temp, fetched))
    {
    }

    /** What becomes of the fetch. A panic unwinds at once and leaves the condition as it is. */
    static method Open(obj: BootstrapObject, temp: bool, fetched: Fetched,
                       ghost key: Key, ghost before: Bootstrap, ghost revision: string)
      returns (content: Option<string>)
      modifies obj
      ensures obj.counters == old(obj.counters)
      ensures Opening(Ctx(key, before, old(obj.Value())), revision, temp, fetched)
           == if content.Some? then Reading(Ctx(key, before, obj.Value()), revision, content.value)
              else Finishing(Ctx(key, before, obj.Value()), Early)
    {
      if !temp {
        obj.ready := ReadyFalse(TempFolderFailedToCreate);
        return None;
      }
      if fetched.FetchPanic? {
        return None;
      }
      if fetched.FetchError? {
        obj.ready := ReadyFalse(CRDFetchFailed);
        return None;
      }
      return Some(fetched.text);
    }

    /** The label loop: each object gets the owner label, and each increments its entry of the map. */
    static method Label(objects: seq<Object>, owner: string, counts: Counters) returns (labelled: seq<Object>)
      modifies counts
      ensures labelled == LabelAll(objects, owner)
      ensures counts.m == BumpAll(old(counts.m), Names(labelled))
    {
      labelled := [];
      ghost var m := counts.m;
      for i := 0 to |objects|
        invariant labelled == LabelAll(objects[..i], owner)
        invariant counts.m == BumpAll(m, Names(labelled))
      {
        var o := Labelled(objects[i], owner);
        ghost var done := labelled;
        labelled := labelled + [o];
        assert Names(labelled)[..i] == Names(done);
        counts.Increment(o.name);
      }
      assert objects[..|objects|] == objects;
    }

    /** The resource manager, readObjects, and the label loop over an aliased or a new map. */
    static method Load(lib: Lib, obj: BootstrapObject, owner: string, content: string, script: Script,
                       ghost before: Bootstrap, ghost revision: string, ghost key: Key)
      returns (objects: Option<seq<Object>>, counts: Counters)
      requires obj.Decoded() && key.name == owner
      modifies obj, obj.counters
      ensures obj.counters == old(obj.counters)
      ensures if obj.counters == null then fresh(counts) else counts == obj.counters
      ensures Loading(lib, Ctx(key, before, old(obj.Value())), revision, content, script.manager, script.readable)
           == if objects.Some?
              then Judging(Ctx(key, before, obj.Value()), Batch(revision, content, objects.value, counts.m))
              else Finishing(Ctx(key, before, obj.Value()), Early)
    {
      objects := None;
      if obj.counters == null {
        counts := new Counters(map[]);
      } else {
        counts := obj.counters;
      }
      if !script.manager {
        obj.ready := ReadyFalse(ResourceManagerCreateFailed);
        return;
      }
      var read: Option<seq<Object>> := None;
      if script.readable {
        read := ReadObjects(lib, content);
      }
      if read.None? {
        obj.ready := ReadyFalse(ReadingObjectsToApplyFailed);
        return;
      }
      var labelled := Label(read.value, owner, counts);
      objects := Some(labelled);
    }

    /** Reading what was fetched, after whatever others do first. */
    method ReadPhase(key: Key, before: BootstrapObject, obj: BootstrapObject, revision: string, content: string,
                     script: Script)
      returns (objects: Option<seq<Object>>, counts: Counters, ghost next: Run, ghost trace: seq<Choice>)
      requires Apart(before, obj) && obj.Decoded()
      modifies this, obj, obj.counters
      ensures before.Value() == old(before.Value()) && obj.counters == old(obj.counters) && Apart(before, obj)
      ensures if obj.counters == null then fresh(counts) else counts == obj.counters
      ensures During(next) == Exec(setup, old(During(Reading(Holding(key, before, obj), revision, content))), trace)
      ensures next == if objects.Some?
                      then Judging(Holding(key, before, obj), Batch(revision, content, objects.value, counts.m))
                      else Finishing(Holding(key, before, obj), Early)
      ensures Obedient(trace, script)
    {
      ghost var run := Reading(Holding(key, before, obj), revision, content);
      ghost var start := During(run);
      Others(script.beforeRead, key, run);
      ghost var c := Read(script.manager, script.readable);
      trace := Outsides(script.beforeRead) + [c];
      ExecSnoc(setup, start, Outsides(script.beforeRead), c);
      objects, counts := Load(setup.lib, obj, key.name, content, script, before.Value(), revision, key);
      next := if objects.Some?
              then Judging(Holding(key, before, obj), Batch(revision, content, objects.value, counts.m))
              else Finishing(Holding(key, before, obj), Early);
    }

    /** detectBreakingChanges and validateObjects, and the two gates on what they find. */
    method JudgePhase(key: Key, before: BootstrapObject, obj: BootstrapObject, ghost batch: Batch,
                      objects: seq<Object>, script: Script)
      returns (go: bool, ghost next: Run, ghost trace: seq<Choice>)
      requires Apart(before, obj) && batch.objects == objects
      modifies this, obj
      ensures before.Value() == old(before.Value()) && obj.counters == old(obj.counters) && Apart(before, obj)
      ensures During(next) == Exec(setup, old(During(Judging(Holding(key, before, obj), batch))), trace)
      ensures next == if go then Applying(Holding(key, before, obj), batch, objects)
                      else Finishing(Holding(key, before, obj), Stopped(batch))
      ensures Obedient(trace, script)
    {
      ghost var run := Judging(Holding(key, before, obj), batch);
      ghost var start := During(run);
      ghost var c := Judge(script.detectFailAt, script.validateFailAt);
      trace := [c];
      ExecOne(setup, start, c);
      var changes := DetectObjectChanges(setup.lib, cluster, objects, script.detectFailAt);
      var verdict := ValidateObjects(setup.lib, obj.spec.template, objects, script.validateFailAt);
      go := Rule(obj, changes, verdict, key, before.Value(), batch);
      next := if go then Applying(Holding(key, before, obj), batch, objects)
              else Finishing(Holding(key, before, obj), Stopped(batch));
      assert next == Ruling(run.ctx, batch, changes, verdict);
    }

    static method Rule(obj: BootstrapObject, changes: Option<seq<string>>, verdict: Verdict,
                       ghost key: Key, ghost before: Bootstrap, ghost batch: Batch)
      returns (go: bool)
      modifies obj
      ensures obj.counters == old(obj.counters)
      ensures Ruling(Ctx(key, before, old(obj.Value())), batch, changes, verdict)
           == if go then Applying(Ctx(key, before, obj.Value()), batch, batch.objects)
              else Finishing(Ctx(key, before, obj.Value()), Stopped(batch))
    {
      if changes.None? {
        obj.ready := ReadyFalse(BreakingChangeDetectionFailed);
        return false;
      }
      obj.breaking := changes.value;
      if |changes.value| > 0 {
        if !obj.spec.ignoreBreakingChanges {
          obj.ready := ReadyFalse(BreakingChangeDetected);
          return false;
        }
      }
      if verdict.Panics? {
        return false;
      }
      if verdict.Invalid? {
        if !obj.spec.continueOnValidationError {
          obj.ready := ReadyFalse(CRDValidationFailed);
          return false;
        }
      }
      return true;
    }

    /** ApplyAllStaged: one write for each object, until one fails. */
    method ApplyAll(key: Key, target: Target, objects: seq<Object>, script: Script, ghost ctx: Ctx, ghost batch: Batch)
      returns (ok: bool, ghost next: Run, ghost trace: seq<Choice>)
      requires ctx.key == key && TargetOf(ctx.obj.spec) == target
      modifies this
      ensures During(next) == Exec(setup, old(During(Applying(ctx, batch, objects))), trace)
      ensures next.Applying? && next.ctx == ctx && next.batch == batch
      ensures ok <==> script.writes.None?
      ensures ok ==> next.pending == []
      ensures Obedient(trace, script)
    {
      ghost var start := During(Applying(ctx, batch, objects));
      trace := [];
      var n := if script.writes.Some? && script.writes.value < |objects| then script.writes.value else |objects|;
      for i := 0 to n
        invariant During(Applying(ctx, batch, objects[i..])) == Exec(setup, start, trace)
        invariant Obedient(trace, script)
      {
        var o := objects[i];
        var at := CrdKey(target, o.name);
        ExecSnoc(setup, start, trace, ApplyOne(0));
        trace := trace + [ApplyOne(0)];
        assert Without(objects[i..], 0) == objects[i + 1..];
        assert objects[i..][0] == o;
        cluster := cluster[at := Installed(o.labels, o.versions)];
        history := history.(
          writer := history.writer[at := key],
          released := history.released - {at},
          exposed := if key in store && store[key].finalizer then history.exposed else history.exposed + {key});
      }
      ok := script.writes.None?;
      next := Applying(ctx, batch, objects[n..]);
    }

    /** Waiting, and recording the success. */
    static method Conclude(obj: BootstrapObject, counts: Counters, revision: string, ok: bool, ready: bool,
                           ghost key: Key, ghost before: Bootstrap, ghost batch: Batch)
      requires batch.counted == counts.m && batch.revision == revision
      modifies obj
      ensures obj.counters == old(obj.counters) || obj.counters == counts
      ensures var next := Ending(Ctx(key, before, old(obj.Value())), batch, ok, ready);
        next.Finishing? && next.ctx == Ctx(key, before, obj.Value())
    {
      if !ok {
        obj.ready := ReadyFalse(ApplyingCRDSFailed);
        return;
      }
      if !ready {
        obj.ready := ReadyFalse(WaitingOnObjectsFailed);
        return;
      }
      obj.counters := counts;
      obj.applied := revision;
      obj.ready := ReadyTrue;
    }

    /** Apply, wait, and record the success. */
    method ApplyPhase(key: Key, before: BootstrapObject, obj: BootstrapObject, ghost batch: Batch, objects: seq<Object>,
                      counts: Counters, revision: string, script: Script)
      returns (ghost next: Run, ghost trace: seq<Choice>)
      requires Apart(before, obj) && batch.objects == objects && batch.counted == counts.m && batch.revision == revision
      requires before.counters != counts && (obj.counters != null ==> obj.counters == counts)
      modifies this, obj
      ensures before.Value() == old(before.Value()) && Apart(before, obj)
      ensures During(next) == Exec(setup, old(During(Applying(Holding(key, before, obj), batch, objects))), trace)
      ensures next.Finishing? && next.ctx == Holding(key, before, obj)
      ensures Obedient(trace, script)
    {
      ghost var ctx := Holding(key, before, obj);
      ghost var start := During(Applying(ctx, batch, objects));
      Others(script.beforeApply, key, Applying(ctx, batch, objects));
      ghost var run;
      ghost var writes;
      var ok: bool;
      ok, run, writes := ApplyAll(key, TargetOf(obj.spec), objects, script, ctx, batch);
      trace := Extend(start, Outsides(script.beforeApply), writes, script);
      ExecSnoc(setup, start, trace, ApplyEnd(ok, script.ready));
      Joined(trace, [ApplyEnd(ok, script.ready)], script);
      trace := trace + [ApplyEnd(ok, script.ready)];
      Conclude(obj, counts, revision, ok, script.ready, key, before.Value(), batch);
      next := Ending(ctx, batch, ok, script.ready);
    }

    /** Everything between the pre-image and the deferred patch; each early return ends it. */
    method Attempt(key: Key, before: BootstrapObject, obj: BootstrapObject, script: Script)
      returns (ghost next: Run, ghost trace: seq<Choice>)
      requires Apart(before, obj) && obj.Decoded()
      modifies this, obj, obj.counters
      ensures before.Value() == old(before.Value()) && Apart(before, obj)
      ensures During(next) == Exec(setup, old(During(Checking(Holding(key, before, obj)))), trace)
      ensures next.Finishing? && next.ctx == Holding(key, before, obj)
      ensures Obedient(trace, script)
    {
      ghost var start := During(Checking(Holding(key, before, obj)));
      var due: bool, revision: string;
      due, revision, next, trace := CheckPhase(key, before, obj, script);
      if !due {
        return;
      }
      ghost var more;
      next, more := Deliver(key, before, obj, revision, script);
      trace := Extend(start, trace, more, script);
    }

    /** An update is due: fetch, read, judge and apply it. */
    method Deliver(key: Key, before: BootstrapObject, obj: BootstrapObject, revision: string, script: Script)
      returns (ghost next: Run, ghost trace: seq<Choice>)
      requires Apart(before, obj) && obj.Decoded()
      modifies this, obj, obj.counters
      ensures before.Value() == old(before.Value()) && Apart(before, obj)
      ensures During(next) == Exec(setup, old(During(Fetching(Holding(key, before, obj), revision))), trace)
      ensures next.Finishing? && next.ctx == Holding(key, before, obj)
      ensures Obedient(trace, script)
    {
      ghost var start := During(Fetching(Holding(key, before, obj), revision));
      ghost var more;
      var content: Option<string>;
      content, next, trace := FetchPhase(key, before, obj, revision, script);
      if content.None? {
        return;
      }
      var objects: Option<seq<Object>>, counts: Counters;
      objects, counts, next, more := ReadPhase(key, before, obj, revision, content.value, script);
      trace := Extend(start, trace, more, script);
      if objects.None? {
        return;
      }
      next, more := Install(key, before, obj, next.batch, objects.value, counts, revision, script);
      trace := Extend(start, trace, more, script);
    }

    /** The gates, and the apply if both let the batch through. */
    method Install(key: Key, before: BootstrapObject, obj: BootstrapObject, ghost batch: Batch, objects: seq<Object>,
                   counts: Counters, revision: string, script: Script)
      returns (ghost next: Run, ghost trace: seq<Choice>)
      requires Apart(before, obj) && batch.objects == objects && batch.counted == counts.m && batch.revision == revision
      requires before.counters != counts && (obj.counters != null ==> obj.counters == counts)
      modifies this, obj
      ensures before.Value() == old(before.Value()) && Apart(before, obj)
      ensures During(next) == Exec(setup, old(During(Judging(Holding(key, before, obj), batch))), trace)
      ensures next.Finishing? && next.ctx == Holding(key, before, obj)
      ensures Obedient(trace, script)
    {
      ghost var start := During(Judging(Holding(key, before, obj), batch));
      ghost var more;
      var go: bool;
      go, next, trace := JudgePhase(key, before, obj, batch, objects, script);
      if !go {
        return;
      }
      next, more := ApplyPhase(key, before, obj, batch, objects, counts, revision, script);
      trace := Extend(start, trace, more, script);
    }

    /** Joins the choices of two consecutive phases. */
    ghost method Extend(start: State, trace: seq<Choice>, more: seq<Choice>, script: Script) returns (all: seq<Choice>)
      requires Obedient(trace, script) && Obedient(more, script)
      ensures all == trace + more && Obedient(all, script)
      ensures Exec(setup, start, all) == Exec(setup, Exec(setup, start, trace), more)
    {
      all := trace + more;
      Joined(trace, more, script);
      ExecConcat(setup, start, trace, more);
    }

    /** The serial patcher: writes what differs between the pre-image and the object. */
    method PatchObject(key: Key, before: BootstrapObject, obj: BootstrapObject, ok: bool, ghost run: Run)
      requires (run.Finishing? || run.Releasing?) && run.ctx == Holding(key, before, obj)
      modifies this
      ensures World() == Step(setup, old(During(run)), Patch(ok))
    {
      var landed := ok && key in store && !(obj.finalizer && !before.finalizer && store[key].deleting);
      if landed {
        store := Put(store, key, Merge(store[key], before.Value(), obj.Value()));
      }
      if run.Finishing? {
        ghost var exposed := if landed then history.exposed - {key} else history.exposed;
        history := Recorded(history.(exposed := exposed), key, run.ended, landed);
      } else if landed && !run.ctx.before.spec.prune {
        history := history.(released := history.released + WrittenBy(history, key));
      }
    }

    // ------------------------------------------------------------- deletion

    /** The owned CRDs, in whatever order the listing has them. */
    method ListOwned(name: string) returns (items: seq<string>)
      ensures IsListing(items, cluster, name)
    {
      items := [];
      var left := Owned(cluster, name);
      while left != {}
        invariant left <= Owned(cluster, name)
        invariant Distinct(items)
        invariant LocalKeys(items) == Owned(cluster, name) - left
        decreases left
      {
        var k :| k in left;
        assert k == CrdKey(Local, k.name);
        assert k.name in items ==> k in LocalKeys(items);
        ghost var before := items;
        items := items + [k.name];
        assert LocalKeys(items) == LocalKeys(before) + {k};
        left := left - {k};
      }
    }

    /** The loop over the listed CRDs; stops at the first one that cannot be deleted. */
    method DeleteItems(items: seq<string>, script: Script, ghost ctx: Ctx) returns (ok: bool, ghost trace: seq<Choice>)
      modifies this
      ensures store == old(store)
      ensures During(if ok then AfterDeletes(ctx, []) else Idle)
           == Exec(setup, old(During(AfterDeletes(ctx, items))), trace)
      ensures Obedient(trace, script)
    {
      ghost var start := During(AfterDeletes(ctx, items));
      trace := [];
      for i := 0 to |items|
        invariant store == old(store)
        invariant During(AfterDeletes(ctx, items[i..])) == Exec(setup, start, trace)
        invariant Obedient(trace, script)
      {
        ok := script.deletes != Some(i);
        ExecSnoc(setup, start, trace, DeleteOne(ok));
        assert items[i..][0] == items[i] && items[i..][1..] == items[i + 1..];
        trace := trace + [DeleteOne(ok)];
        if !ok {
          return;
        }
        cluster := cluster - {CrdKey(Local, items[i])};
        history := history.(
          writer := history.writer - {CrdKey(Local, items[i])},
          released := history.released - {CrdKey(Local, items[i])});
      }
      ok := true;
    }

    /** Listing and deleting what is owned. */
    method PruneOwned(key: Key, script: Script, ghost ctx: Ctx) returns (ok: bool, ghost trace: seq<Choice>)
      requires ctx.key == key
      modifies this
      ensures store == old(store)
      ensures During(if ok then AfterDeletes(ctx, []) else Idle) == Exec(setup, old(During(Listing(ctx))), trace)
      ensures Obedient(trace, script)
    {
      ghost var start := During(Listing(ctx));
      if !script.list {
        trace := [List(false, [])];
        ExecOne(setup, start, List(false, []));
        return false, trace;
      }
      var items := ListOwned(key.name);
      ghost var first := [List(true, items)];
      ExecOne(setup, start, List(true, items));
      ghost var deletes;
      ok, deletes := DeleteItems(items, script, ctx);
      trace := Extend(start, first, deletes, script);
    }

    /** reconcileDelete: prune what is owned if the spec says so, then let the finalizer go. */
    method ReconcileDelete(key: Key, obj: BootstrapObject, script: Script) returns (ghost trace: seq<Choice>)
      requires key in store && obj.Value() == store[key] && obj.deleting && obj.finalizer
      modifies this, obj
      ensures World() == Exec(setup, StartStep(old(World()), key), trace)
      ensures Obedient(trace, script)
    {
      ghost var b, start := store[key], StartStep(World(), key);
      var before := obj.DeepCopy();
      ghost var ctx := Ctx(key, b, b);
      assert start == During(if b.spec.prune then Listing(ctx) else AfterDeletes(ctx, []));
      trace := [];
      if obj.spec.prune {
        var ok: bool;
        ok, trace := PruneOwned(key, script, ctx);
        if !ok {
          return;
        }
      }
      ghost var more := Release(key, before, obj, script, b);
      trace := Extend(start, trace, more, script);
    }

    /** Removing the finalizer in memory, and the patch. */
    method Release(key: Key, before: BootstrapObject, obj: BootstrapObject, script: Script, ghost b: Bootstrap)
      returns (ghost trace: seq<Choice>)
      requires Apart(before, obj) && before.Value() == obj.Value() == b
      modifies this, obj
      ensures World() == Exec(setup, old(During(AfterDeletes(Ctx(key, b, b), []))), trace)
      ensures Obedient(trace, script)
    {
      ghost var start := During(AfterDeletes(Ctx(key, b, b), []));
      obj.finalizer := false;
      trace := [Patch(script.patch)];
      ExecOne(setup, start, Patch(script.patch));
      PatchObject(key, before, obj, script.patch, start.run);
    }

    // ------------------------------------------------------------ reconcile

    /** The part of Reconcile for a Bootstrap that stays: the attempt, and the deferred patch at its end. */
    method ReconcileForward(key: Key, obj: BootstrapObject, script: Script) returns (ghost trace: seq<Choice>)
      requires key in store && obj.Value() == store[key] && !obj.deleting && obj.Decoded()
      modifies this, obj, obj.counters
      ensures World() == Exec(setup, StartStep(old(World()), key), trace)
      ensures Obedient(trace, script)
    {
      ghost var start := StartStep(World(), key);
      var before := obj.DeepCopy();
      obj.finalizer := true;
      assert start == During(Checking(Holding(key, before, obj)));
      ghost var run;
      run, trace := Attempt(key, before, obj, script);
      ghost var more := DeferredPatch(key, before, obj, script, run);
      trace := Extend(start, trace, more, script);
    }

    /** The deferred call, on every exit. */
    method DeferredPatch(key: Key, before: BootstrapObject, obj: BootstrapObject, script: Script, ghost run: Run)
      returns (ghost trace: seq<Choice>)
      requires run.Finishing? && run.ctx == Holding(key, before, obj)
      modifies this
      ensures World() == Exec(setup, old(During(run)), trace)
      ensures Obedient(trace, script)
    {
      ghost var start := During(run);
      Others(script.beforePatch, key, run);
      trace := Outsides(script.beforePatch) + [Patch(script.patch)];
      ExecSnoc(setup, start, Outsides(script.beforePatch), Patch(script.patch));
      PatchObject(key, before, obj, script.patch, run);
    }

    /**
     Reconcile. `trace` is what happened, as a run of the state machine: it starts this Bootstrap's
     reconcile, every I/O call in it turns out as the script says, nothing else is started, and
     executing it from the world as it was gives the world as it is, with no reconcile in flight.
     */
    method Reconcile(key: Key, script: Script) returns (ghost trace: seq<Choice>)
      modifies this
      ensures |trace| > 0 && trace[0] == Start(key) && Obedient(trace[1..], script)
      ensures World() == Exec(setup, old(World()), trace)
    {
      ghost var start := World();
      trace := [Start(key)];
      ExecOne(setup, start, Start(key));
      if key !in store {
        return;
      }
      var obj := new BootstrapObject(store[key]);
      ghost var tail: seq<Choice>;
      if obj.deleting {
        if !obj.finalizer {
          return;
        }
        tail := ReconcileDelete(key, obj, script);
        ExecConcat(setup, start, [Start(key)], tail);
        trace := [Start(key)] + tail;
        return;
      }
      tail := ReconcileForward(key, obj, script);
      ExecConcat(setup, start, [Start(key)], tail);
      trace := [Start(key)] + tail;
    }
  }
}
