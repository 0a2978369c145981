/** The invariants together, from the very beginning: a controller that has not yet reconciled anything. */
module Reachable {
  import opened Api
  import opened Sources
  import opened Machine
  import Ownership
  import RollForward
  import Counters
  import Delivery
  import Reconciler

  /** No reconcile has run yet: empty statuses, no finalizer, no history; any CRDs may be installed already. */
  predicate Beginning(s: State) {
    && s.run.Idle? && s.history == History(map[], {}, {}, map[])
    && forall key :: key in s.store ==> s.store[key].status == EMPTY_STATUS && !s.store[key].finalizer
  }

  /**
   In every state any run can reach from the beginning, whatever the interleaving and the failures:
   what is known of the run in flight holds; every CRD the controller wrote carries the name of its
   last writer; none of them is orphaned but for the two known exceptions; and every counter is the
   tally of the recorded reconciles.
   */
  lemma ReachableStatesAreGood(setup: Setup, s: State, cs: seq<Choice>)
    requires Beginning(s)
    ensures var t := Exec(setup, s, cs);
      && Coherent(setup, t) && Ownership.Stamped(t) && Ownership.Sheltered(t)
      && Counters.Accounted(t) && Delivery.Arriving(t)
  {
    ExecKeepsCoherent(setup, s, cs);
    Ownership.NoOrphans(setup, s, cs);
    Counters.CountersAreTallies(setup, s, cs);
    Delivery.ExecKeepsArriving(setup, s, cs);
  }

  /**
   The status invariants hold in every reachable state for each Bootstrap that has had versioned
   sources only, whatever sources the others have; the one about the reason as long as none of its own
   reconciles went stale.
   */
  lemma ReachableStatusesAreSound(setup: Setup, s: State, cs: seq<Choice>, key: Key)
    requires Beginning(s) && (key in s.store ==> Versioned(setup.chain, s.store[key].spec))
    requires forall c :: c in cs ==> RollForward.VersionedChoice(setup, c, key)
    ensures RollForward.Sound(setup, Exec(setup, s, cs), key)
    ensures (forall i :: 0 <= i < |cs| ==> !RollForward.GoesStale(setup, At(setup, s, cs, i), cs[i], key)) ==>
      RollForward.Founded(setup.lib, Exec(setup, s, cs), key)
  {
    RollForward.AppliedStaysBelowAttempted(setup, s, cs, key);
    if forall i :: 0 <= i < |cs| ==> !RollForward.GoesStale(setup, At(setup, s, cs, i), cs[i], key) {
      RollForward.ReasonsStayFounded(setup, s, cs, key);
    }
  }

  datatype Request = Request(key: Key, script: Reconciler.Script)

  /**
   The controller's work queue: one reconcile after the other, for any requests in any order. From a
   fresh reconciler the whole service is one run of the machine, so every property above holds of it.
   */
  method Serve(r: Reconciler.BootstrapReconciler, queue: seq<Request>) returns (ghost trace: seq<Choice>)
    requires Beginning(r.World())
    modifies r
    ensures r.World() == Exec(r.setup, old(r.World()), trace)
    ensures Ownership.Stamped(r.World()) && Ownership.Sheltered(r.World()) && Counters.Accounted(r.World())
  {
    ghost var start := r.World();
    trace := [];
    for i := 0 to |queue|
      invariant r.World() == Exec(r.setup, start, trace)
    {
      ghost var more := r.Reconcile(queue[i].key, queue[i].script);
      ExecConcat(r.setup, start, trace, more);
      trace := trace + more;
    }
    ReachableStatesAreGood(r.setup, start, trace);
  }
}
