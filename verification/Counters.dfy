/** What the per-CRD counters in the status count. */
module Counters {
  import opened Basics
  import opened Api
  import opened Machine

  /**
   The counters that these reconciles leave stored. One whose final patch was lost leaves nothing. A
   successful one adds its batch. A failed one adds its batch too, if the map was non-nil: then it had
   been incremented in place.
   */
  function Tally(records: seq<Record>): map<string, nat> {
    if records == [] then map[]
    else
      var before, last := Tally(records[..|records| - 1]), records[|records| - 1];
      if last.landed && (last.done || before != map[]) then BumpAll(before, last.names) else before
  }

  lemma TallySnoc(records: seq<Record>, r: Record)
    ensures Tally(records + [r])
         == if r.landed && (r.done || Tally(records) != map[]) then BumpAll(Tally(records), r.names) else Tally(records)
  {
    assert (records + [r])[..|records|] == records;
  }

  /** Stored counters are the tally of the recorded reconciles. */
  predicate Accounted(s: State) {
    forall key :: key in s.store ==> s.store[key].status.counters == Tally(RecordsOf(s.history, key))
  }

  lemma OutsideKeepsAccounted(s: State, m: Move)
    requires Accounted(s)
    ensures Accounted(OutsideStep(s, m))
  {
  }

  lemma RecordedTally(h: History, key: Key, ended: Ended, landed: bool)
    ensures var past, now := Tally(RecordsOf(h, key)), Tally(RecordsOf(Recorded(h, key, ended, landed), key));
      match ended
      case Early => now == past
      case Stopped(b) => now == if landed && past != map[] then BumpAll(past, Names(b.objects)) else past
      case Done(b) => now == if landed then BumpAll(past, Names(b.objects)) else past
  {
    var past := RecordsOf(h, key);
    match ended
    case Early => assert past + [] == past;
    case Stopped(b) => TallySnoc(past, Record(Names(b.objects), false, landed));
    case Done(b) => TallySnoc(past, Record(Names(b.objects), true, landed));
  }

  lemma FinishKeepsAccounted(setup: Setup, s: State, ok: bool)
    requires Coherent(setup, s) && Accounted(s) && s.run.Finishing?
    ensures Accounted(FinishStep(s, ok))
  {
    var c := s.run.ctx;
    var landed := ok && Lands(s, c);
    if landed {
      MergeWritesObject(s, c);
      RecordedTally(s.history.(exposed := s.history.exposed - {c.key}), c.key, s.run.ended, true);
    } else {
      RecordedTally(s.history, c.key, s.run.ended, false);
    }
  }

  lemma ReleaseKeepsAccounted(setup: Setup, s: State, ok: bool)
    requires Coherent(setup, s) && Accounted(s) && s.run.Releasing?
    ensures Accounted(ReleaseStep(s, ok))
  {
    ReleaseWrites(setup, s, ok);
  }

  lemma StepKeepsAccounted(setup: Setup, s: State, c: Choice)
    requires Coherent(setup, s) && Accounted(s)
    ensures Accounted(Step(setup, s, c))
  {
    match c
    case Outside(move) => OutsideKeepsAccounted(s, move);
    case Patch(ok) =>
      if s.run.Finishing? {
        FinishKeepsAccounted(setup, s, ok);
      } else if s.run.Releasing? {
        ReleaseKeepsAccounted(setup, s, ok);
      }
    case _ => OnlyPatchesTouchStore(setup, s, c);
  }

  /** Over every run, the stored counters of every Bootstrap are the tally of its recorded reconciles. */
  lemma {:induction false} CountersAreTallies(setup: Setup, s: State, cs: seq<Choice>)
    requires Coherent(setup, s) && Accounted(s)
    ensures Accounted(Exec(setup, s, cs))
  {
    if cs != [] {
      var front := cs[..|cs| - 1];
      CountersAreTallies(setup, s, front);
      ExecKeepsCoherent(setup, s, front);
      StepKeepsAccounted(setup, Exec(setup, s, front), cs[|cs| - 1]);
    }
  }

  // ------------------------------------------------------ what a tally counts

  /** How often x was applied successfully, recorded in the status or not. */
  function Applied(records: seq<Record>, x: string): nat {
    if records == [] then 0
    else
      var last := records[|records| - 1];
      Applied(records[..|records| - 1], x) + (if last.done then Occurrences(last.names, x) else 0)
  }

  /** How often x stands in the batches of successful reconciles whose final patch was lost. */
  function Lost(records: seq<Record>, x: string): nat {
    if records == [] then 0
    else
      var last := records[|records| - 1];
      Lost(records[..|records| - 1], x) + (if last.done && !last.landed then Occurrences(last.names, x) else 0)
  }

  /** Some success with a CRD in its batch has been stored, so the map is no longer nil. */
  predicate CountedBefore(records: seq<Record>, i: nat)
    requires i <= |records|
  {
    exists j :: 0 <= j < i && records[j].landed && records[j].done && records[j].names != []
  }

  /** How often x stands in the batches of failed reconciles that incremented the stored map in place. */
  function Overcounted(records: seq<Record>, x: string): nat {
    if records == [] then 0
    else
      var n := |records| - 1;
      var last := records[n];
      Overcounted(records[..n], x)
        + (if last.landed && !last.done && CountedBefore(records, n) then Occurrences(last.names, x) else 0)
  }

  lemma {:induction false} TallyEmptyExactly(records: seq<Record>)
    ensures Tally(records) == map[] <==> !CountedBefore(records, |records|)
  {
    if records != [] {
      var n := |records| - 1;
      var front, last := records[..n], records[n];
      TallyEmptyExactly(front);
      CountedInFront(records, n);
      BumpAllCounts(Tally(front), last.names, "");
      var bumped := BumpAll(Tally(front), last.names);
      assert last.names != [] ==> last.names[0] in bumped;
      assert Tally(front) != map[] ==> bumped != map[] by {
        if Tally(front) != map[] {
          var k :| k in Tally(front);
          assert k in bumped;
        }
      }
      if last.names == [] {
        assert bumped == Tally(front);
      }
    }
  }

  lemma CountedInFront(records: seq<Record>, n: nat)
    requires n < |records|
    ensures CountedBefore(records, n) <==> CountedBefore(records[..n], n)
    ensures CountedBefore(records, n + 1)
       <==> CountedBefore(records, n) || (records[n].landed && records[n].done && records[n].names != [])
  {
    assert forall j :: 0 <= j < n ==> records[..n][j] == records[j];
  }

  /**
   The balance of a counter. The field is documented as the number of times the CRD was applied. It
   falls short of that by the successes whose patch was lost, and exceeds it by the failures that
   followed a stored success.
   */
  lemma {:induction false} CounterBalance(records: seq<Record>, x: string)
    ensures Count(Tally(records), x) + Lost(records, x) == Applied(records, x) + Overcounted(records, x)
  {
    if records != [] {
      var n := |records| - 1;
      var front, last := records[..n], records[n];
      CounterBalance(front, x);
      BumpAllCounts(Tally(front), last.names, x);
      TallyEmptyExactly(front);
      CountedInFront(records, n);
    }
  }

  /** A success of x that was lost. */
  predicate LosesAt(records: seq<Record>, i: nat, x: string) {
    i < |records| && records[i].done && !records[i].landed && x in records[i].names
  }

  /** A failure that counted x. */
  predicate OvercountsAt(records: seq<Record>, i: nat, x: string) {
    i < |records| && records[i].landed && !records[i].done && x in records[i].names && CountedBefore(records, i)
  }

  lemma {:induction false} LostExactly(records: seq<Record>, x: string)
    ensures Lost(records, x) == 0 <==> forall i :: 0 <= i < |records| ==> !LosesAt(records, i, x)
  {
    if records != [] {
      var n := |records| - 1;
      LostExactly(records[..n], x);
      assert forall i :: 0 <= i < n ==> (LosesAt(records, i, x) <==> LosesAt(records[..n], i, x));
      assert Occurrences(records[n].names, x) > 0 <==> x in records[n].names;
      assert LosesAt(records, n, x) <==> records[n].done && !records[n].landed && x in records[n].names;
    }
  }

  lemma {:induction false} OvercountedExactly(records: seq<Record>, x: string)
    ensures Overcounted(records, x) == 0 <==> forall i :: 0 <= i < |records| ==> !OvercountsAt(records, i, x)
  {
    if records != [] {
      var n := |records| - 1;
      OvercountedExactly(records[..n], x);
      forall i | 0 <= i < n ensures OvercountsAt(records, i, x) <==> OvercountsAt(records[..n], i, x) {
        assert forall j :: 0 <= j < i ==> records[..n][j] == records[j];
      }
      assert Occurrences(records[n].names, x) > 0 <==> x in records[n].names;
      assert OvercountsAt(records, n, x)
        <==> records[n].landed && !records[n].done && x in records[n].names && CountedBefore(records, n);
    }
  }

  /**
   When exactly a counter is at least, and when exactly it is, the number of successful applies. With
   no success of this CRD lost it is never below; with no patch lost, it is exact if and only if no
   failed reconcile of this CRD followed a stored success.
   */
  lemma CounterExactly(records: seq<Record>, x: string)
    ensures Count(Tally(records), x) >= Applied(records, x) <==> Lost(records, x) <= Overcounted(records, x)
    ensures Count(Tally(records), x) == Applied(records, x) <==> Lost(records, x) == Overcounted(records, x)
    ensures (forall i :: 0 <= i < |records| ==> !LosesAt(records, i, x)) ==>
      && Count(Tally(records), x) >= Applied(records, x)
      && (Count(Tally(records), x) == Applied(records, x)
          <==> forall i :: 0 <= i < |records| ==> !OvercountsAt(records, i, x))
  {
    CounterBalance(records, x);
    LostExactly(records, x);
    OvercountedExactly(records, x);
  }

  lemma {:induction false} CountersOnlyGrow(records: seq<Record>, more: seq<Record>, x: string)
    ensures Count(Tally(records), x) <= Count(Tally(records + more), x)
  {
    if more == [] {
      assert records + more == records;
    } else {
      var front, last := more[..|more| - 1], more[|more| - 1];
      assert records + more == (records + front) + [last];
      CountersOnlyGrow(records, front, x);
      TallySnoc(records + front, last);
      BumpAllCounts(Tally(records + front), last.names, x);
    }
  }

  /** Over every run, while a Bootstrap stays stored none of its counters decreases. */
  lemma {:induction false} StoredCountersNeverDecrease(setup: Setup, s: State, cs: seq<Choice>, key: Key, x: string)
    requires Coherent(setup, s) && Accounted(s)
    requires forall i :: 0 <= i <= |cs| ==> key in At(setup, s, cs, i).store
    ensures key in s.store && key in Exec(setup, s, cs).store
    ensures Count(s.store[key].status.counters, x) <= Count(Exec(setup, s, cs).store[key].status.counters, x)
  {
    RecordsOnlyGrow(setup, s, cs, key);
    CountersAreTallies(setup, s, cs);
    var more := RecordsOf(Exec(setup, s, cs).history, key)[|RecordsOf(s.history, key)|..];
    CountersOnlyGrow(RecordsOf(s.history, key), more, x);
  }

  lemma RecordsStep(setup: Setup, s: State, c: Choice, key: Key)
    requires key in s.store
    ensures RecordsOf(s.history, key) <= RecordsOf(Step(setup, s, c).history, key)
  {
    match c
    case Outside(move) =>
    case Patch(ok) =>
    case _ => OnlyPatchesTouchStore(setup, s, c);
  }

  lemma {:induction false} RecordsOnlyGrow(setup: Setup, s: State, cs: seq<Choice>, key: Key)
    requires forall i :: 0 <= i <= |cs| ==> key in At(setup, s, cs, i).store
    ensures key in s.store && key in Exec(setup, s, cs).store
    ensures RecordsOf(s.history, key) <= RecordsOf(Exec(setup, s, cs).history, key)
    ensures RecordsOf(Exec(setup, s, cs).history, key)
         == RecordsOf(s.history, key) + RecordsOf(Exec(setup, s, cs).history, key)[|RecordsOf(s.history, key)|..]
  {
    assert cs[..|cs|] == cs && cs[..0] == [];
    assert key in At(setup, s, cs, 0).store && key in At(setup, s, cs, |cs|).store;
    if cs != [] {
      var front := cs[..|cs| - 1];
      assert forall i :: 0 <= i <= |front| ==> front[..i] == cs[..i];
      assert forall i :: 0 <= i <= |front| ==> At(setup, s, front, i) == At(setup, s, cs, i);
      RecordsOnlyGrow(setup, s, front, key);
      RecordsStep(setup, Exec(setup, s, front), cs[|cs| - 1], key);
    }
  }
}
