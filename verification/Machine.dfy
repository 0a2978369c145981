/**
 The controller as a state machine. One reconcile is in flight at a time; between any two of its
 steps others may publish new sources, edit specs, create Bootstraps or ask for their deletion. Each
 choice says which step is taken and how its I/O turns out; a choice that does not fit the phase
 leaves the state alone, so a run is any sequence of choices.
 */
module Machine {
  import opened Basics
  import opened Api
  import opened Libraries
  import opened Gate
  import opened Manifest
  import opened Sources

  /** How the reconciler is wired up: its libraries and its chain of sources. */
  datatype Setup = Setup(lib: Lib, chain: Chain)

  // ----------------------------------------------------------------- state

  /** What a reconcile holds: the pre-image for the patch, and the object it works on. */
  datatype Ctx = Ctx(key: Key, before: Bootstrap, obj: Bootstrap)

  /** The content of one fetch, its labelled CRDs, and the counters with each of them added. */
  datatype Batch = Batch(revision: string, content: string, objects: seq<Object>, counted: map<string, nat>)

  /** How far a reconcile got: before labelling, after it but without success, or to success. */
  datatype Ended = Early | Stopped(batch: Batch) | Done(batch: Batch)

  datatype Run =
    | Idle
    | Checking(ctx: Ctx)
    | Fetching(ctx: Ctx, revision: string)
    | Reading(ctx: Ctx, revision: string, content: string)
    | Judging(ctx: Ctx, batch: Batch)
    | Applying(ctx: Ctx, batch: Batch, pending: seq<Object>)
    | Finishing(ctx: Ctx, ended: Ended)
    | Listing(ctx: Ctx)
    | Pruning(ctx: Ctx, items: seq<string>)
    | Releasing(ctx: Ctx)

  /** A reconcile that labelled these CRDs: whether it was done, and whether its final patch landed. */
  datatype Record = Record(names: seq<string>, done: bool, landed: bool)

  /**
   History, for stating properties only. `writer`: the Bootstrap whose apply last reached a CRD.
   `exposed`: Bootstraps that wrote while no finalizer of theirs was stored, and whose final patch
   has not landed since. `released`: CRDs left behind by a Bootstrap that was let go with prune unset,
   until they are written again. `records`: the reconciles of a stored Bootstrap that got to labelling.
   */
  datatype History = History(
    writer: map<CrdKey, Key>,
    exposed: set<Key>,
    released: set<CrdKey>,
    records: map<Key, seq<Record>>)

  datatype State = State(
    store: map<Key, Bootstrap>,
    cluster: Cluster,
    upstream: Upstream,
    run: Run,
    history: History)

  /** The CRDs that this Bootstrap was the last to write. */
  function WrittenBy(h: History, key: Key): set<CrdKey> {
    set k | k in h.writer && h.writer[k] == key
  }

  function RecordsOf(h: History, key: Key): seq<Record> {
    if key in h.records then h.records[key] else []
  }

  // --------------------------------------------------------------- choices

  datatype Move =
    | Publish(upstream: Upstream)
    | CreateBootstrap(key: Key, spec: Spec, foreign: bool)
    | EditSpec(key: Key, spec: Spec)
    | RequestDelete(key: Key)
    | DropForeign(key: Key)

  datatype Choice =
    | Outside(move: Move)
    | Start(key: Key)
    | Check(reach: Reach, pick: string)
    | Fetch(temp: bool, reach: Reach)
    | Read(manager: bool, readable: bool)
    | Judge(detectFailAt: Option<nat>, validateFailAt: Option<nat>)
    | ApplyOne(index: nat)
    | ApplyEnd(ok: bool, ready: bool)
    | Patch(ok: bool)
    | List(ok: bool, items: seq<string>)
    | DeleteOne(ok: bool)

  // ---------------------------------------------------------------- others

  /** Stores a Bootstrap; one that is being deleted goes away with its last finalizer. */
  function Put(store: map<Key, Bootstrap>, key: Key, b: Bootstrap): map<Key, Bootstrap> {
    if b.deleting && !b.finalizer && !b.foreign then store - {key} else store[key := b]
  }

  predicate InFlight(s: State, key: Key) { !s.run.Idle? && s.run.ctx.key == key }

  function OutsideStep(s: State, m: Move): State {
    match m
    case Publish(up) => s.(upstream := up)
    case CreateBootstrap(key, spec, foreign) =>
      if key in s.store || InFlight(s, key) then s
      else s.(store := s.store[key := Bootstrap(spec, EMPTY_STATUS, false, foreign, false)],
              history := s.history.(records := s.history.records[key := []]))
    case EditSpec(key, spec) =>
      if key in s.store then s.(store := s.store[key := s.store[key].(spec := spec)]) else s
    case RequestDelete(key) =>
      if key in s.store then s.(store := Put(s.store, key, s.store[key].(deleting := true))) else s
    case DropForeign(key) =>
      if key in s.store then s.(store := Put(s.store, key, s.store[key].(foreign := false))) else s
  }

  // -------------------------------------------------------------- reconcile

  function MarkFalse(c: Ctx, reason: Reason): Ctx {
    c.(obj := c.obj.(status := c.obj.status.(ready := ReadyFalse(reason))))
  }

  function MarkTrue(c: Ctx): Ctx {
    c.(obj := c.obj.(status := c.obj.status.(ready := ReadyTrue)))
  }

  function StartStep(s: State, key: Key): State {
    if key !in s.store then s
    else
      var b := s.store[key];
      if !b.deleting then s.(run := Checking(Ctx(key, b, b.(finalizer := true))))
      else if !b.finalizer then s
      else if b.spec.prune then s.(run := Listing(Ctx(key, b, b)))
      else s.(run := Releasing(Ctx(key, b, b.(finalizer := false))))
  }

  /** Where a reconcile goes on an answer of its source; a failure to answer sets no condition. */
  function Heeding(c: Ctx, answer: Answer): Run {
    if !answer.Answered? then Finishing(c, Early)
    else if !answer.update then Finishing(MarkTrue(c), Early)
    else Fetching(c.(obj := c.obj.(status := c.obj.status.(attempted := answer.revision))), answer.revision)
  }

  function CheckStep(setup: Setup, s: State, reach: Reach, pick: string): State
    requires s.run.Checking?
  {
    var c := s.run.ctx;
    if reach.Reached? && !PickFits(setup.lib, setup.chain, s.upstream, c.obj.spec, pick) then s
    else
      var answer := HasUpdate(setup.lib, setup.chain, s.upstream, c.obj.spec, c.obj.status.applied, reach, pick);
      s.(run := Heeding(c, answer))
  }

  /** Where a reconcile goes with a directory and with what was fetched; a panic sets no condition. */
  function Opening(c: Ctx, revision: string, temp: bool, fetched: Fetched): Run {
    if !temp then Finishing(MarkFalse(c, TempFolderFailedToCreate), Early)
    else match fetched
      case FetchError => Finishing(MarkFalse(c, CRDFetchFailed), Early)
      case FetchPanic => Finishing(c, Early)
      case Content(text) => Reading(c, revision, text)
  }

  function FetchStep(setup: Setup, s: State, temp: bool, reach: Reach): State
    requires s.run.Fetching?
  {
    var c := s.run.ctx;
    s.(run := Opening(c, s.run.revision, temp, FetchCRD(setup.chain, s.upstream, c.obj.spec, s.run.revision, reach)))
  }

  /** The counters of the object in memory: a non-nil map is the very map that is being incremented. */
  function Aliased(before: map<string, nat>, counted: map<string, nat>): map<string, nat> {
    if before == map[] then map[] else counted
  }

  /** Where a reconcile goes with fetched content: its CRDs are labelled and counted. */
  function Loading(lib: Lib, c: Ctx, revision: string, content: string, manager: bool, readable: bool): Run {
    if !manager then Finishing(MarkFalse(c, ResourceManagerCreateFailed), Early)
    else if !readable || Crds(lib, content).None?
    then Finishing(MarkFalse(c, ReadingObjectsToApplyFailed), Early)
    else
      var objects := LabelAll(Crds(lib, content).value, c.key.name);
      var counters := c.obj.status.counters;
      var counted := BumpAll(counters, Names(objects));
      var labelled := c.obj.(status := c.obj.status.(counters := Aliased(counters, counted)));
      Judging(c.(obj := labelled), Batch(revision, content, objects, counted))
  }

  function ReadStep(setup: Setup, s: State, manager: bool, readable: bool): State
    requires s.run.Reading?
  {
    s.(run := Loading(setup.lib, s.run.ctx, s.run.revision, s.run.content, manager, readable))
  }

  /** Where a reconcile goes on what detection and validation found; a panic sets no condition. */
  function Ruling(c: Ctx, batch: Batch, detected: Option<seq<string>>, verdict: Verdict): Run {
    match detected
    case None => Finishing(MarkFalse(c, BreakingChangeDetectionFailed), Stopped(batch))
    case Some(changes) =>
      var d := c.(obj := c.obj.(status := c.obj.status.(breaking := changes)));
      if changes != [] && !c.obj.spec.ignoreBreakingChanges
      then Finishing(MarkFalse(d, BreakingChangeDetected), Stopped(batch))
      else if verdict.Panics? then Finishing(d, Stopped(batch))
      else if verdict.Invalid? && !c.obj.spec.continueOnValidationError
      then Finishing(MarkFalse(d, CRDValidationFailed), Stopped(batch))
      else Applying(d, batch, batch.objects)
  }

  function JudgeStep(setup: Setup, s: State, detectFailAt: Option<nat>, validateFailAt: Option<nat>): State
    requires s.run.Judging?
  {
    var objects := s.run.batch.objects;
    s.(run := Ruling(s.run.ctx, s.run.batch,
                     DetectAll(setup.lib, s.cluster, objects, detectFailAt),
                     Validate(setup.lib, s.run.ctx.obj.spec.template, objects, validateFailAt)))
  }

  function ApplyOneStep(s: State, index: nat): State
    requires s.run.Applying?
  {
    if index >= |s.run.pending| then s
    else
      var c, o := s.run.ctx, s.run.pending[index];
      var at := CrdKey(TargetOf(c.obj.spec), o.name);
      var guarded := c.key in s.store && s.store[c.key].finalizer;
      s.(cluster := s.cluster[at := Installed(o.labels, o.versions)],
         run := s.run.(pending := Without(s.run.pending, index)),
         history := s.history.(
           writer := s.history.writer[at := c.key],
           released := s.history.released - {at},
           exposed := if guarded then s.history.exposed else s.history.exposed + {c.key}))
  }

  /** Where a reconcile goes after its apply; only one that wrote everything and saw it ready is done. */
  function Ending(c: Ctx, batch: Batch, ok: bool, ready: bool): Run {
    if !ok then Finishing(MarkFalse(c, ApplyingCRDSFailed), Stopped(batch))
    else if !ready then Finishing(MarkFalse(c, WaitingOnObjectsFailed), Stopped(batch))
    else
      var success := c.obj.(status := c.obj.status.(counters := batch.counted, applied := batch.revision));
      Finishing(MarkTrue(c.(obj := success)), Done(batch))
  }

  function ApplyEndStep(s: State, ok: bool, ready: bool): State
    requires s.run.Applying?
  {
    if ok && s.run.pending != [] then s else s.(run := Ending(s.run.ctx, s.run.batch, ok, ready))
  }

  // ----------------------------------------------------------------- patch

  function Pick<T(==)>(stored: T, before: T, after: T): T {
    if before == after then stored else after
  }

  /** A patch writes what differs between pre-image and object, and leaves the rest as stored. */
  function Merge(stored: Bootstrap, before: Bootstrap, after: Bootstrap): Bootstrap {
    stored.(
      finalizer := Pick(stored.finalizer, before.finalizer, after.finalizer),
      status := Status(
        Pick(stored.status.ready, before.status.ready, after.status.ready),
        Pick(stored.status.counters, before.status.counters, after.status.counters),
        Pick(stored.status.attempted, before.status.attempted, after.status.attempted),
        Pick(stored.status.applied, before.status.applied, after.status.applied),
        Pick(stored.status.breaking, before.status.breaking, after.status.breaking)))
  }

  /** A patch needs a stored object, and may not add a finalizer to one that is being deleted. */
  predicate Lands(s: State, c: Ctx) {
    && c.key in s.store
    && !(c.obj.finalizer && !c.before.finalizer && s.store[c.key].deleting)
  }

  function NewRecords(ended: Ended, landed: bool): seq<Record> {
    match ended
    case Early => []
    case Stopped(batch) => [Record(Names(batch.objects), false, landed)]
    case Done(batch) => [Record(Names(batch.objects), true, landed)]
  }

  /** The history with the reconcile that ended recorded. */
  function Recorded(h: History, key: Key, ended: Ended, landed: bool): History {
    h.(records := h.records[key := RecordsOf(h, key) + NewRecords(ended, landed)])
  }

  function FinishStep(s: State, ok: bool): State
    requires s.run.Finishing?
  {
    var c := s.run.ctx;
    if !ok || !Lands(s, c) then s.(run := Idle, history := Recorded(s.history, c.key, s.run.ended, false))
    else s.(
      store := Put(s.store, c.key, Merge(s.store[c.key], c.before, c.obj)),
      run := Idle,
      history := Recorded(s.history.(exposed := s.history.exposed - {c.key}), c.key, s.run.ended, true))
  }

  // -------------------------------------------------------------- deletion

  predicate Distinct(items: seq<string>) {
    forall i, j :: 0 <= i < j < |items| ==> items[i] != items[j]
  }

  function LocalKeys(items: seq<string>): set<CrdKey> {
    set i | i in items :: CrdKey(Local, i)
  }

  /** A listing of the local CRDs that carry this owner name, in any order. */
  predicate IsListing(items: seq<string>, cluster: Cluster, name: string) {
    Distinct(items) && LocalKeys(items) == Owned(cluster, name)
  }

  /** Once nothing is left to delete, the finalizer goes. */
  function AfterDeletes(c: Ctx, items: seq<string>): Run {
    if items == [] then Releasing(c.(obj := c.obj.(finalizer := false))) else Pruning(c, items)
  }

  function ListStep(s: State, ok: bool, items: seq<string>): State
    requires s.run.Listing?
  {
    if !ok then s.(run := Idle)
    else if !IsListing(items, s.cluster, s.run.ctx.key.name) then s
    else s.(run := AfterDeletes(s.run.ctx, items))
  }

  function DeleteStep(s: State, ok: bool): State
    requires s.run.Pruning?
  {
    if s.run.items == [] then s
    else if !ok then s.(run := Idle)
    else
      var gone := CrdKey(Local, s.run.items[0]);
      s.(cluster := s.cluster - {gone},
         run := AfterDeletes(s.run.ctx, s.run.items[1..]),
         history := s.history.(writer := s.history.writer - {gone}, released := s.history.released - {gone}))
  }

  function ReleaseStep(s: State, ok: bool): State
    requires s.run.Releasing?
  {
    var c := s.run.ctx;
    if !ok || !Lands(s, c) then s.(run := Idle)
    else s.(
      store := Put(s.store, c.key, Merge(s.store[c.key], c.before, c.obj)),
      run := Idle,
      history := s.history.(
        released := if c.before.spec.prune then s.history.released
                    else s.history.released + WrittenBy(s.history, c.key)))
  }

  // ------------------------------------------------------------------ runs

  function Step(setup: Setup, s: State, c: Choice): State {
    match c
    case Outside(move) => OutsideStep(s, move)
    case Start(key) => if s.run.Idle? then StartStep(s, key) else s
    case Check(reach, pick) => if s.run.Checking? then CheckStep(setup, s, reach, pick) else s
    case Fetch(temp, reach) => if s.run.Fetching? then FetchStep(setup, s, temp, reach) else s
    case Read(manager, readable) => if s.run.Reading? then ReadStep(setup, s, manager, readable) else s
    case Judge(d, v) => if s.run.Judging? then JudgeStep(setup, s, d, v) else s
    case ApplyOne(index) => if s.run.Applying? then ApplyOneStep(s, index) else s
    case ApplyEnd(ok, ready) => if s.run.Applying? then ApplyEndStep(s, ok, ready) else s
    case Patch(ok) =>
      if s.run.Finishing? then FinishStep(s, ok) else if s.run.Releasing? then ReleaseStep(s, ok) else s
    case List(ok, items) => if s.run.Listing? then ListStep(s, ok, items) else s
    case DeleteOne(ok) => if s.run.Pruning? then DeleteStep(s, ok) else s
  }

  /** The state after a sequence of choices. */
  function Exec(setup: Setup, s: State, cs: seq<Choice>): State {
    if cs == [] then s else Step(setup, Exec(setup, s, cs[..|cs| - 1]), cs[|cs| - 1])
  }

  lemma ExecSnoc(setup: Setup, s: State, cs: seq<Choice>, c: Choice)
    ensures Exec(setup, s, cs + [c]) == Step(setup, Exec(setup, s, cs), c)
  {
    assert (cs + [c])[..|cs|] == cs;
  }

  lemma {:induction false} ExecConcat(setup: Setup, s: State, a: seq<Choice>, b: seq<Choice>)
    ensures Exec(setup, s, a + b) == Exec(setup, Exec(setup, s, a), b)
  {
    if b == [] {
      assert a + b == a;
    } else {
      var front, last := b[..|b| - 1], b[|b| - 1];
      assert a + b == (a + front) + [last];
      ExecConcat(setup, s, a, front);
      ExecSnoc(setup, s, a + front, last);
    }
  }

  /** The state after the first i choices. */
  function At(setup: Setup, s: State, cs: seq<Choice>, i: nat): State
    requires i <= |cs|
  {
    Exec(setup, s, cs[..i])
  }

  lemma ExecOne(setup: Setup, s: State, c: Choice)
    ensures Exec(setup, s, [c]) == Step(setup, s, c)
  {
    assert [c][..0] == [];
  }

  lemma ExecFour(setup: Setup, s: State, a: Choice, b: Choice, c: Choice, d: Choice)
    ensures Exec(setup, s, [a, b, c, d]) == Step(setup, Step(setup, Step(setup, Step(setup, s, a), b), c), d)
  {
    ExecOne(setup, s, a);
    ExecSnoc(setup, s, [a], b);
    assert [a] + [b] == [a, b];
    ExecSnoc(setup, s, [a, b], c);
    assert [a, b] + [c] == [a, b, c];
    ExecSnoc(setup, s, [a, b, c], d);
    assert [a, b, c] + [d] == [a, b, c, d];
  }

  /** Others touch neither the clusters nor the reconcile in flight, and write no status. */
  lemma OutsideKeepsRun(s: State, m: Move)
    ensures OutsideStep(s, m).run == s.run && OutsideStep(s, m).cluster == s.cluster
  {
  }

  lemma OutsideKeepsStatus(s: State, m: Move, key: Key)
    requires key in s.store && key in OutsideStep(s, m).store
    ensures OutsideStep(s, m).store[key].status == s.store[key].status
  {
  }

  /** The controller writes Bootstraps only by patching. */
  lemma OnlyPatchesTouchStore(setup: Setup, s: State, c: Choice)
    requires !c.Patch? && !c.Outside?
    ensures Step(setup, s, c).store == s.store
    ensures !c.ApplyOne? && !c.DeleteOne? ==>
      Step(setup, s, c).cluster == s.cluster && Step(setup, s, c).history == s.history
    ensures Step(setup, s, c).history.records == s.history.records
    ensures Step(setup, s, c).upstream == s.upstream
  {
    match c
    case Check(reach, pick) => if s.run.Checking? { CheckFrame(setup, s, reach, pick); }
    case Fetch(temp, reach) => if s.run.Fetching? { FetchFrame(setup, s, temp, reach); }
    case Read(manager, readable) => if s.run.Reading? { ReadFrame(setup, s, manager, readable); }
    case Judge(d, v) =>
    case _ =>
  }

  lemma CheckFrame(setup: Setup, s: State, reach: Reach, pick: string)
    requires s.run.Checking?
    ensures var t := CheckStep(setup, s, reach, pick);
      && t == s.(run := t.run)
      && (t.run.Checking? || t.run.Fetching? || (t.run.Finishing? && t.run.ended.Early?))
  {
  }

  lemma FetchFrame(setup: Setup, s: State, temp: bool, reach: Reach)
    requires s.run.Fetching?
    ensures var t := FetchStep(setup, s, temp, reach);
      t == s.(run := t.run) && (t.run.Reading? || (t.run.Finishing? && t.run.ended.Early?))
  {
  }

  lemma ReadFrame(setup: Setup, s: State, manager: bool, readable: bool)
    requires s.run.Reading?
    ensures var t := ReadStep(setup, s, manager, readable);
      t == s.(run := t.run) && (t.run.Judging? || (t.run.Finishing? && t.run.ended.Early?))
  {
  }

  predicate Deleting(run: Run) { run.Listing? || run.Pruning? || run.Releasing? }

  lemma RulingStays(c: Ctx, batch: Batch, detected: Option<seq<string>>, verdict: Verdict)
    ensures var r := Ruling(c, batch, detected, verdict);
      (r.Finishing? || r.Applying?) && r.ctx.key == c.key && r.ctx.before == c.before
  {
  }

  /** The run is over, or it is still the same reconcile. */
  predicate StillRunning(was: Run, run: Run)
    requires !was.Idle?
  {
    run.Idle? || (run.ctx.key == was.ctx.key && run.ctx.before == was.ctx.before && (Deleting(run) <==> Deleting(was)))
  }

  lemma CheckStays(setup: Setup, s: State, reach: Reach, pick: string)
    requires s.run.Checking?
    ensures StillRunning(s.run, CheckStep(setup, s, reach, pick).run)
  {
  }

  lemma FetchStays(setup: Setup, s: State, temp: bool, reach: Reach)
    requires s.run.Fetching?
    ensures StillRunning(s.run, FetchStep(setup, s, temp, reach).run)
  {
  }

  lemma ReadStays(setup: Setup, s: State, manager: bool, readable: bool)
    requires s.run.Reading?
    ensures StillRunning(s.run, ReadStep(setup, s, manager, readable).run)
  {
  }

  lemma JudgeStays(setup: Setup, s: State, d: Option<nat>, v: Option<nat>)
    requires s.run.Judging?
    ensures StillRunning(s.run, JudgeStep(setup, s, d, v).run)
  {
    RulingStays(s.run.ctx, s.run.batch, DetectAll(setup.lib, s.cluster, s.run.batch.objects, d),
                Validate(setup.lib, s.run.ctx.obj.spec.template, s.run.batch.objects, v));
  }

  /** Within one reconcile the Bootstrap stays the same, and so does whether it is a deletion. */
  lemma SameReconcile(setup: Setup, s: State, c: Choice)
    requires !s.run.Idle?
    ensures StillRunning(s.run, Step(setup, s, c).run)
  {
    match c
    case Outside(move) => OutsideKeepsRun(s, move);
    case Check(reach, pick) => if s.run.Checking? { CheckStays(setup, s, reach, pick); }
    case Fetch(temp, reach) => if s.run.Fetching? { FetchStays(setup, s, temp, reach); }
    case Read(manager, readable) => if s.run.Reading? { ReadStays(setup, s, manager, readable); }
    case Judge(d, v) => if s.run.Judging? { JudgeStays(setup, s, d, v); }
    case _ =>
  }

  // ------------------------------------------------------------- coherence

  /** The stored object has not changed under the reconcile where only the controller writes. */
  predicate Undisturbed(s: State, c: Ctx) {
    c.key in s.store ==> s.store[c.key].status == c.before.status && s.store[c.key].finalizer == c.before.finalizer
  }

  predicate Forward(s: State, c: Ctx) {
    Undisturbed(s, c) && !c.before.deleting && c.obj.finalizer && c.obj.spec == c.before.spec
  }

  predicate Backward(s: State, c: Ctx) {
    Undisturbed(s, c) && c.before.deleting && c.before.finalizer && c.key in s.store && s.store[c.key].deleting
  }

  /** The batch is what the manifest holds, labelled, with one increment for each object. */
  predicate Delivered(setup: Setup, c: Ctx, b: Batch) {
    && Crds(setup.lib, b.content).Some?
    && b.objects == LabelAll(Crds(setup.lib, b.content).value, c.key.name)
    && b.counted == BumpAll(c.before.status.counters, Names(b.objects))
  }

  predicate Attempting(c: Ctx, revision: string) {
    c.obj.status.attempted == revision && c.obj.status.applied == c.before.status.applied
  }

  predicate Labelling(setup: Setup, c: Ctx, b: Batch) {
    && Attempting(c, b.revision) && Delivered(setup, c, b)
    && c.obj.status.counters == Aliased(c.before.status.counters, b.counted)
  }

  /** What is known of the run in flight in every reachable state. */
  predicate Coherent(setup: Setup, s: State) {
    match s.run
    case Idle => true
    case Checking(c) => Forward(s, c) && c.obj.status == c.before.status
    case Fetching(c, r) => Forward(s, c) && Attempting(c, r) && c.obj.status.counters == c.before.status.counters
    case Reading(c, r, _) => Forward(s, c) && Attempting(c, r) && c.obj.status.counters == c.before.status.counters
    case Judging(c, b) => Forward(s, c) && Labelling(setup, c, b)
    case Applying(c, b, pending) =>
      Forward(s, c) && Labelling(setup, c, b) && forall o :: o in pending ==> o in b.objects
    case Finishing(c, ended) => Forward(s, c) && (
        match ended
        case Early =>
          c.obj.status.applied == c.before.status.applied && c.obj.status.counters == c.before.status.counters
        case Stopped(b) => Labelling(setup, c, b)
        case Done(b) =>
          && Delivered(setup, c, b)
          && c.obj.status.applied == c.obj.status.attempted == b.revision
          && c.obj.status.counters == b.counted)
    case Listing(c) => Backward(s, c) && c.obj == c.before && c.before.spec.prune
    case Pruning(c, items) =>
      && Backward(s, c) && c.obj == c.before && c.before.spec.prune
      && items != [] && IsListing(items, s.cluster, c.key.name)
    case Releasing(c) =>
      && Backward(s, c) && c.obj == c.before.(finalizer := false)
      && (c.before.spec.prune ==> Owned(s.cluster, c.key.name) == {})
  }

  lemma OutsideKeepsCoherent(setup: Setup, s: State, m: Move)
    requires Coherent(setup, s)
    ensures Coherent(setup, OutsideStep(s, m))
  {
  }

  lemma DeletingHeadKeepsListing(items: seq<string>, cluster: Cluster, name: string)
    requires items != [] && IsListing(items, cluster, name)
    ensures IsListing(items[1..], cluster - {CrdKey(Local, items[0])}, name)
  {
    var gone := CrdKey(Local, items[0]);
    assert forall i :: i in items <==> i == items[0] || i in items[1..];
    assert items[0] !in items[1..];
    assert LocalKeys(items[1..]) == LocalKeys(items) - {gone};
    assert Owned(cluster - {gone}, name) == Owned(cluster, name) - {gone};
  }

  lemma NothingListed(cluster: Cluster, name: string)
    requires IsListing([], cluster, name)
    ensures Owned(cluster, name) == {}
  {
    assert LocalKeys([]) == {};
  }

  lemma AfterDeletesIsCoherent(setup: Setup, s: State, c: Ctx, items: seq<string>)
    requires Backward(s, c) && c.obj == c.before && c.before.spec.prune
    requires IsListing(items, s.cluster, c.key.name)
    requires s.run == AfterDeletes(c, items)
    ensures Coherent(setup, s)
  {
    if items == [] {
      NothingListed(s.cluster, c.key.name);
    }
  }

  lemma StartKeepsCoherent(setup: Setup, s: State, key: Key)
    requires s.run.Idle?
    ensures Coherent(setup, StartStep(s, key))
  {
  }

  lemma CheckKeepsCoherent(setup: Setup, s: State, reach: Reach, pick: string)
    requires s.run.Checking? && Coherent(setup, s)
    ensures Coherent(setup, CheckStep(setup, s, reach, pick))
  {
  }

  lemma FetchKeepsCoherent(setup: Setup, s: State, temp: bool, reach: Reach)
    requires s.run.Fetching? && Coherent(setup, s)
    ensures Coherent(setup, FetchStep(setup, s, temp, reach))
  {
  }

  lemma ReadKeepsCoherent(setup: Setup, s: State, manager: bool, readable: bool)
    requires s.run.Reading? && Coherent(setup, s)
    ensures Coherent(setup, ReadStep(setup, s, manager, readable))
  {
  }

  lemma JudgeKeepsCoherent(setup: Setup, s: State, d: Option<nat>, v: Option<nat>)
    requires s.run.Judging? && Coherent(setup, s)
    ensures Coherent(setup, JudgeStep(setup, s, d, v))
  {
    var objects := s.run.batch.objects;
    RulingIsCoherent(setup, s,
      DetectAll(setup.lib, s.cluster, objects, d), Validate(setup.lib, s.run.ctx.obj.spec.template, objects, v));
  }

  lemma RulingIsCoherent(setup: Setup, s: State, detected: Option<seq<string>>, verdict: Verdict)
    requires s.run.Judging? && Coherent(setup, s)
    ensures Coherent(setup, s.(run := Ruling(s.run.ctx, s.run.batch, detected, verdict)))
  {
  }

  lemma ApplyOneKeepsCoherent(setup: Setup, s: State, index: nat)
    requires s.run.Applying? && Coherent(setup, s)
    ensures Coherent(setup, ApplyOneStep(s, index))
  {
    if index < |s.run.pending| {
      assert forall o :: o in Without(s.run.pending, index) ==> o in s.run.pending;
    }
  }

  lemma ApplyEndKeepsCoherent(setup: Setup, s: State, ok: bool, ready: bool)
    requires s.run.Applying? && Coherent(setup, s)
    ensures Coherent(setup, ApplyEndStep(s, ok, ready))
  {
  }

  lemma DeletionStepKeepsCoherent(setup: Setup, s: State, c: Choice)
    requires Coherent(setup, s) && (c.List? || c.DeleteOne? || c.Patch?)
    ensures Coherent(setup, Step(setup, s, c))
  {
    if c.List? && s.run.Listing? && c.ok && IsListing(c.items, s.cluster, s.run.ctx.key.name) {
      AfterDeletesIsCoherent(setup, Step(setup, s, c), s.run.ctx, c.items);
    }
    if c.DeleteOne? && s.run.Pruning? && c.ok {
      DeletingHeadKeepsListing(s.run.items, s.cluster, s.run.ctx.key.name);
      AfterDeletesIsCoherent(setup, Step(setup, s, c), s.run.ctx, s.run.items[1..]);
    }
  }

  lemma StepKeepsCoherent(setup: Setup, s: State, c: Choice)
    requires Coherent(setup, s)
    ensures Coherent(setup, Step(setup, s, c))
  {
    match c
    case Outside(move) => OutsideKeepsCoherent(setup, s, move);
    case Start(key) => if s.run.Idle? { StartKeepsCoherent(setup, s, key); }
    case Check(reach, pick) => if s.run.Checking? { CheckKeepsCoherent(setup, s, reach, pick); }
    case Fetch(temp, reach) => if s.run.Fetching? { FetchKeepsCoherent(setup, s, temp, reach); }
    case Read(manager, readable) => if s.run.Reading? { ReadKeepsCoherent(setup, s, manager, readable); }
    case Judge(d, v) => if s.run.Judging? { JudgeKeepsCoherent(setup, s, d, v); }
    case ApplyOne(index) => if s.run.Applying? { ApplyOneKeepsCoherent(setup, s, index); }
    case ApplyEnd(ok, ready) => if s.run.Applying? { ApplyEndKeepsCoherent(setup, s, ok, ready); }
    case _ => DeletionStepKeepsCoherent(setup, s, c);
  }

  lemma {:induction false} ExecKeepsCoherent(setup: Setup, s: State, cs: seq<Choice>)
    requires Coherent(setup, s)
    ensures Coherent(setup, Exec(setup, s, cs))
  {
    if cs != [] {
      ExecKeepsCoherent(setup, s, cs[..|cs| - 1]);
      StepKeepsCoherent(setup, Exec(setup, s, cs[..|cs| - 1]), cs[|cs| - 1]);
    }
  }

  /** With nothing disturbed, the patch writes the object's status and finalizer as they are in memory. */
  lemma MergeWritesObject(s: State, c: Ctx)
    requires Undisturbed(s, c) && c.key in s.store
    ensures Merge(s.store[c.key], c.before, c.obj)
         == s.store[c.key].(status := c.obj.status, finalizer := c.obj.finalizer)
  {
  }

  function Patched(s: State): map<Key, Bootstrap>
    requires !s.run.Idle? && s.run.ctx.key in s.store
  {
    var c := s.run.ctx;
    Put(s.store, c.key, s.store[c.key].(status := c.obj.status, finalizer := c.obj.finalizer))
  }

  lemma FinishWrites(setup: Setup, s: State, ok: bool)
    requires Coherent(setup, s) && s.run.Finishing?
    ensures var t := FinishStep(s, ok);
      t.run.Idle? && (t.store == s.store || (ok && s.run.ctx.key in s.store && t.store == Patched(s)))
  {
    if ok && Lands(s, s.run.ctx) {
      MergeWritesObject(s, s.run.ctx);
    }
  }

  lemma ReleaseWrites(setup: Setup, s: State, ok: bool)
    requires Coherent(setup, s) && s.run.Releasing?
    ensures var t := ReleaseStep(s, ok);
      t.run.Idle? && (t.store == s.store || (ok && s.run.ctx.key in s.store && t.store == Patched(s)))
  {
    if ok && Lands(s, s.run.ctx) {
      MergeWritesObject(s, s.run.ctx);
    }
  }

  /** What a patch does to the store. */
  lemma PatchWrites(setup: Setup, s: State, ok: bool)
    requires Coherent(setup, s)
    ensures var t := Step(setup, s, Patch(ok));
      || t == s
      || (&& (s.run.Finishing? || s.run.Releasing?) && t.run.Idle?
          && (t.store == s.store || (ok && s.run.ctx.key in s.store && t.store == Patched(s))))
  {
    if s.run.Finishing? {
      FinishWrites(setup, s, ok);
    } else if s.run.Releasing? {
      ReleaseWrites(setup, s, ok);
    }
  }
}
