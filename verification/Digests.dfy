/** The revision that a reconcile works on was offered to it, and what this says of a URL and its digest. */
module Digests {
  import opened Basics
  import opened Api
  import opened Sources
  import opened Machine
  import Answers
  import Delivery

  /** The revision that the reconcile in flight works on, once it has one. */
  function Aimed(run: Run): Option<string> {
    match run
    case Fetching(_, revision) => Some(revision)
    case Reading(_, revision, _) => Some(revision)
    case Judging(_, b) => Some(b.revision)
    case Applying(_, b, _) => Some(b.revision)
    case Finishing(_, Stopped(b)) => Some(b.revision)
    case Finishing(_, Done(b)) => Some(b.revision)
    case _ => None
  }

  /** The reconcile goes on with the same pre-image and the same revision. */
  predicate AimsOn(s: Run, t: Run) {
    Aimed(s).Some? && Aimed(t) == Aimed(s) && t.ctx.before == s.ctx.before
  }

  /** This check is answered with an update to the revision that the reconcile then works on. */
  predicate OfferedNow(setup: Setup, s: State, c: Choice, t: Run) {
    && c.Check? && s.run.Checking? && Aimed(t).Some? && t.ctx.before == s.run.ctx.before
    && (c.reach.Reached? ==> PickFits(setup.lib, setup.chain, s.upstream, t.ctx.before.spec, c.pick))
    && HasUpdate(setup.lib, setup.chain, s.upstream, t.ctx.before.spec, t.ctx.before.status.applied, c.reach, c.pick)
       == Answered(true, Aimed(t).value)
  }

  lemma CheckAims(setup: Setup, s: State, reach: Reach, pick: string)
    requires Coherent(setup, s) && s.run.Checking? && Aimed(CheckStep(setup, s, reach, pick).run).Some?
    ensures OfferedNow(setup, s, Check(reach, pick), CheckStep(setup, s, reach, pick).run)
  {
  }

  lemma FetchAims(setup: Setup, s: State, temp: bool, reach: Reach)
    requires s.run.Fetching? && Aimed(FetchStep(setup, s, temp, reach).run).Some?
    ensures AimsOn(s.run, FetchStep(setup, s, temp, reach).run)
  {
  }

  lemma ReadAims(setup: Setup, s: State, manager: bool, readable: bool)
    requires s.run.Reading? && Aimed(ReadStep(setup, s, manager, readable).run).Some?
    ensures AimsOn(s.run, ReadStep(setup, s, manager, readable).run)
  {
  }

  lemma JudgeAims(setup: Setup, s: State, d: Option<nat>, v: Option<nat>)
    requires s.run.Judging?
    ensures AimsOn(s.run, JudgeStep(setup, s, d, v).run)
  {
    Delivery.JudgeCarries(setup, s, d, v);
  }

  lemma ApplyAims(setup: Setup, s: State, c: Choice)
    requires s.run.Applying? && (c.ApplyOne? || c.ApplyEnd?)
    ensures AimsOn(s.run, Step(setup, s, c).run)
  {
    Delivery.ApplyCarries(setup, s, c);
  }

  lemma PatchAims(setup: Setup, s: State, ok: bool)
    requires Aimed(Step(setup, s, Patch(ok)).run).Some?
    ensures AimsOn(s.run, Step(setup, s, Patch(ok)).run)
  {
  }

  lemma AimedStep(setup: Setup, s: State, c: Choice)
    requires Coherent(setup, s) && Aimed(Step(setup, s, c).run).Some?
    ensures AimsOn(s.run, Step(setup, s, c).run) || OfferedNow(setup, s, c, Step(setup, s, c).run)
  {
    match c
    case Outside(move) => OutsideKeepsRun(s, move);
    case Check(reach, pick) => if s.run.Checking? { CheckAims(setup, s, reach, pick); }
    case Fetch(temp, reach) => if s.run.Fetching? { FetchAims(setup, s, temp, reach); }
    case Read(manager, readable) => if s.run.Reading? { ReadAims(setup, s, manager, readable); }
    case Judge(d, v) => if s.run.Judging? { JudgeAims(setup, s, d, v); }
    case ApplyOne(index) => if s.run.Applying? { ApplyAims(setup, s, c); }
    case ApplyEnd(ok, ready) => if s.run.Applying? { ApplyAims(setup, s, c); }
    case Patch(ok) => PatchAims(setup, s, ok);
    case Start(key) =>
    case List(ok, items) =>
    case DeleteOne(ok) =>
  }

  /** The check at step i is the one whose offer the run still works on. */
  predicate OfferedAt(setup: Setup, s: State, cs: seq<Choice>, i: nat) {
    i < |cs| && OfferedNow(setup, At(setup, s, cs, i), cs[i], Exec(setup, s, cs).run)
  }

  lemma OfferStays(setup: Setup, s: State, cs: seq<Choice>, c: Choice, i: nat)
    requires OfferedAt(setup, s, cs, i) && AimsOn(Exec(setup, s, cs).run, Exec(setup, s, cs + [c]).run)
    ensures OfferedAt(setup, s, cs + [c], i)
  {
    assert (cs + [c])[..i] == cs[..i];
  }

  lemma OfferIsNow(setup: Setup, s: State, cs: seq<Choice>, c: Choice)
    requires OfferedNow(setup, Exec(setup, s, cs), c, Exec(setup, s, cs + [c]).run)
    ensures OfferedAt(setup, s, cs + [c], |cs|)
  {
    assert (cs + [c])[..|cs|] == cs;
  }

  /** Whatever revision a reconcile works on was offered by its source, to a check of this very reconcile. */
  lemma {:induction false} AimedWasOffered(setup: Setup, s: State, cs: seq<Choice>) returns (i: nat)
    requires Coherent(setup, s) && s.run.Idle? && Aimed(Exec(setup, s, cs).run).Some?
    ensures OfferedAt(setup, s, cs, i)
  {
    var front, last := cs[..|cs| - 1], cs[|cs| - 1];
    assert cs == front + [last];
    ExecKeepsCoherent(setup, s, front);
    AimedStep(setup, Exec(setup, s, front), last);
    if AimsOn(Exec(setup, s, front).run, Exec(setup, s, cs).run) {
      i := AimedWasOffered(setup, s, front);
      OfferStays(setup, s, front, last, i);
    } else {
      i := |front|;
      OfferIsNow(setup, s, front, last);
    }
  }

  /** What the URL of this Bootstrap held before step i. */
  function HeldAt(setup: Setup, s: State, cs: seq<Choice>, i: nat, url: string): Option<string>
    requires i <= |cs|
  {
    Lookup(At(setup, s, cs, i).upstream.urls, url)
  }

  lemma OfferedDigest(setup: Setup, s: State, cs: seq<Choice>, i: nat, url: string)
    requires OfferedAt(setup, s, cs, i)
    requires var spec := Exec(setup, s, cs).run.ctx.before.spec;
      FirstSet(Kinds(setup.chain), spec.source, Url) && spec.source.url == Some(url)
    ensures HeldAt(setup, s, cs, i, url).Some?
    ensures Aimed(Exec(setup, s, cs).run).value == setup.lib.digest(HeldAt(setup, s, cs, i, url).value)
    ensures var digest := Exec(setup, s, cs).run.ctx.before.spec.digest;
      digest != "" ==> Aimed(Exec(setup, s, cs).run).value == digest
  {
    var b, c := Exec(setup, s, cs).run.ctx.before, cs[i];
    Answers.UrlAnswersExactly(setup.lib, setup.chain, At(setup, s, cs, i).upstream, b.spec, b.status.applied,
                              c.reach, c.pick);
  }

  /** At(i) of a prefix is At(i) of the whole. */
  lemma PrefixAt(setup: Setup, s: State, cs: seq<Choice>, i: nat, j: nat)
    requires i <= j <= |cs|
    ensures At(setup, s, cs[..j], i) == At(setup, s, cs, i)
  {
    assert cs[..j][..i] == cs[..i];
  }

  /**
   A URL and its digest: when a reconcile is done, the revision it records, which is the required digest
   if there is one, is the digest of what the URL held when HasUpdate looked at it, at step i; and what it
   has applied is what the URL held when FetchCRD did, at a later step j. So the digest matches the content
   applied if and only if these two have the same digest, and FetchCRD does not look.
   */
  lemma DigestMatchesExactly(setup: Setup, s: State, cs: seq<Choice>, url: string) returns (i: nat, j: nat)
    requires Coherent(setup, s) && s.run.Idle?
    requires var m := Exec(setup, s, cs);
      && m.run.Finishing? && m.run.ended.Done?
      && FirstSet(Kinds(setup.chain), m.run.ctx.before.spec.source, Url)
      && m.run.ctx.before.spec.source.url == Some(url)
    ensures i < j < |cs| && HeldAt(setup, s, cs, i, url).Some? && HeldAt(setup, s, cs, j, url).Some?
    ensures var b := Exec(setup, s, cs).run.ended.batch;
      var digest := Exec(setup, s, cs).run.ctx.before.spec.digest;
      var seen, taken := HeldAt(setup, s, cs, i, url).value, HeldAt(setup, s, cs, j, url).value;
      && b.revision == setup.lib.digest(seen) && (digest != "" ==> b.revision == digest)
      && b.content == taken
      && (setup.lib.digest(b.content) == b.revision <==> setup.lib.digest(seen) == setup.lib.digest(taken))
  {
    var m := Exec(setup, s, cs);
    var spec := m.run.ctx.before.spec;
    j := Delivery.CarriedWasFetched(setup, s, cs);
    Answers.FetchesExactly(setup.lib, setup.chain, At(setup, s, cs, j).upstream, spec, m.run.ended.batch.revision,
                           Reached, Url, m.run.ended.batch.content);
    i := AimedWasOffered(setup, s, cs[..j]);
    OfferedDigest(setup, s, cs[..j], i, url);
    PrefixAt(setup, s, cs, i, j);
  }
}
