/** Bootstraps in memory: mutable objects whose counter map is a reference, and the deep copy of one. */
module Objects {
  import opened Api

  /** A Go map: a reference that several holders may share. */
  class Counters {
    var m: map<string, nat>

    constructor (m: map<string, nat>)
      ensures this.m == m
    {
      this.m := m;
    }

    method Increment(name: string)
      modifies this
      ensures m == Bump(old(m), name)
    {
      m := m[name := (if name in m then m[name] else 0) + 1];
    }
  }

  class BootstrapObject {
    var spec: Spec
    var finalizer: bool
    var foreign: bool
    var deleting: bool
    var ready: Ready
    var counters: Counters?
    var attempted: string
    var applied: string
    var breaking: seq<string>

    /** What the object says, as a value. */
    function Value(): Bootstrap
      reads this, counters
    {
      Bootstrap(spec, Status(ready, if counters == null then map[] else counters.m, attempted, applied, breaking),
                finalizer, foreign, deleting)
    }

    /** As decoded from storage: an empty map is not stored, so it comes back as nil. */
    predicate Decoded()
      reads this, counters
    {
      counters != null ==> counters.m != map[]
    }

    constructor (b: Bootstrap)
      ensures Value() == b && Decoded()
      ensures counters != null ==> fresh(counters)
    {
      spec, finalizer, foreign, deleting := b.spec, b.finalizer, b.foreign, b.deleting;
      ready, attempted, applied, breaking := b.status.ready, b.status.attempted, b.status.applied, b.status.breaking;
      if b.status.counters == map[] {
        counters := null;
      } else {
        var c := new Counters(b.status.counters);
        counters := c;
      }
    }

    /**
     DeepCopyInto: first every field as it is, the reference to the map included, and then a map of
     its own, filled entry by entry. The copy says the same and shares no map with the original.
     */
    method DeepCopyInto(out: BootstrapObject)
      requires out != this
      modifies out
      ensures out.Value() == old(Value())
      ensures (out.counters == null) == (counters == null)
      ensures out.counters != null ==> fresh(out.counters)
      ensures Decoded() ==> out.Decoded()
    {
      out.spec, out.finalizer, out.foreign, out.deleting := spec, finalizer, foreign, deleting;
      out.ready, out.counters, out.attempted, out.applied := ready, counters, attempted, applied;
      out.breaking := breaking;
      if counters != null {
        var copy := new Counters(map[]);
        var keys := counters.m.Keys;
        while keys != {}
          modifies copy
          invariant keys <= counters.m.Keys
          invariant copy.m.Keys == counters.m.Keys - keys
          invariant forall k :: k in copy.m ==> copy.m[k] == counters.m[k]
          decreases keys
        {
          var k :| k in keys;
          copy.m := copy.m[k := counters.m[k]];
          keys := keys - {k};
        }
        assert copy.m == counters.m;
        out.counters := copy;
      }
    }

    method DeepCopy() returns (out: BootstrapObject)
      ensures fresh(out) && out.Value() == Value()
      ensures out.counters != null ==> fresh(out.counters)
      ensures Decoded() ==> out.Decoded()
    {
      out := new BootstrapObject(Bootstrap(spec, EMPTY_STATUS, finalizer, foreign, deleting));
      DeepCopyInto(out);
    }
  }

  /** Two objects that share no memory: writing to one leaves what the other says alone. */
  predicate Apart(a: BootstrapObject, b: BootstrapObject)
    reads a, b
  {
    a != b && (a.counters != null && b.counters != null ==> a.counters != b.counters)
  }
}
