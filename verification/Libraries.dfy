/**
 The library functions the controller calls but does not define, as one record of arbitrary
 deterministic functions. Every theorem holds for every such record.
 */
module Libraries {
  import opened Basics
  import opened Api
  import opened Semver

  /** One entry of an OpenAPI document comparison. */
  datatype Change = Change(property: string, original: string, updated: string, breaking: bool)

  /**
   What comparing two schemas yields: a failure, a nil report, or a report whose total of breaking
   changes and whose list of entries are computed independently of each other.
   */
  datatype Diff = DiffFailed | NoReport | Report(totalBreaking: nat, entries: seq<Change>)

  datatype Lib = Lib(
    parseVersion: string -> Option<Version>,
    parseConstraint: string -> Option<Version -> bool>,
    diff: (Schema, Schema) -> Diff,
    quote: string -> string,
    digest: string -> string,
    parseDocument: string -> Option<seq<Object>>,
    newValidator: Option<Schema> -> Option<Json -> bool>)

  /** The version a string stands for; the empty string is none. */
  function Parse(lib: Lib, s: string): Option<Version> {
    if s == "" then None else lib.parseVersion(s)
  }

  /** semver.NewVersion keeps the string it parsed; Original() gives it back. */
  datatype Parsed = Parsed(original: string, version: Version)

  function NewVersion(lib: Lib, s: string): Option<Parsed> {
    match Parse(lib, s)
    case None => None
    case Some(v) => Some(Parsed(s, v))
  }

  /** a parses, b parses, and a is strictly above b. */
  predicate Above(lib: Lib, a: string, b: string) {
    && Parse(lib, a).Some? && Parse(lib, b).Some?
    && GreaterThan(Parse(lib, a).value, Parse(lib, b).value)
  }

  /** The constraint parses, the version parses, and the version satisfies it. */
  predicate Satisfies(lib: Lib, version: string, constraint: string) {
    && Parse(lib, version).Some? && lib.parseConstraint(constraint).Some?
    && lib.parseConstraint(constraint).value(Parse(lib, version).value)
  }

  lemma AboveTransitive(lib: Lib, a: string, b: string, c: string)
    requires Above(lib, a, b) && Above(lib, b, c)
    ensures Above(lib, a, c)
  {
    var x, y, z := Parse(lib, a).value, Parse(lib, b).value, Parse(lib, c).value;
    PrecedenceIsTotalPreorder(y, x, z);
    PrecedenceIsTotalPreorder(z, y, x);
    PrecedenceIsTotalPreorder(z, x, y);
  }

  lemma AboveIrreflexive(lib: Lib, a: string, b: string)
    ensures Above(lib, a, b) ==> !Above(lib, b, a)
    ensures !Above(lib, a, a)
  {
    if Above(lib, a, b) {
      PrecedenceIsTotalPreorder(Parse(lib, a).value, Parse(lib, b).value, Parse(lib, a).value);
    }
    if Above(lib, a, a) {
      PrecedenceIsTotalPreorder(Parse(lib, a).value, Parse(lib, a).value, Parse(lib, a).value);
    }
  }
}
