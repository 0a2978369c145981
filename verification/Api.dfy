/**
 The values the controller handles: Bootstraps as the API server stores them, CRD objects as they
 appear in a manifest, and what the cluster holds.
 */
module Api {
  import opened Basics

  const OWNER_LABEL := "delivery.crd-bootstrap.owned"
  const CRD_KIND := "CustomResourceDefinition"
  const VERSION_KEY := "version"
  const CRD_KEY := "crd.yaml"

  /** A namespaced name. */
  datatype Key = Key(namespace: string, name: string)

  // ------------------------------------------------------------------ CRDs

  /** An OpenAPI v3 schema or a JSON value, uninterpreted. */
  type Schema = string
  type Json = string

  /** The `schema` field of a CRD version; the schema below it may itself be missing. */
  datatype Validation = Validation(openAPI: Option<Schema>)

  datatype CrdVersion = CrdVersion(name: string, schema: Option<Validation>)
  {
    predicate HasSchema() { schema.Some? && schema.value.openAPI.Some? }

    function Schema(): Schema
      requires HasSchema()
    {
      schema.value.openAPI.value
    }
  }

  /** One object of a manifest; crdKind and versions are what `spec` holds when it is a CRD. */
  datatype Object = Object(
    kind: string,
    name: string,
    labels: map<string, string>,
    crdKind: string,
    versions: seq<CrdVersion>)

  /** The cluster a CRD lives in: the controller's own, or one reached through a kubeconfig. */
  datatype Target = Local | Remote(kubeConfig: string)

  datatype CrdKey = CrdKey(target: Target, name: string)

  datatype Installed = Installed(labels: map<string, string>, versions: seq<CrdVersion>)

  type Cluster = map<CrdKey, Installed>

  /** The names of the versions that carry a schema. */
  function SchemaNames(versions: seq<CrdVersion>): set<string> {
    set v | v in versions && v.HasSchema() :: v.name
  }

  // ------------------------------------------------------------ Bootstraps

  datatype Release = Release(owner: string, repo: string, manifest: string)
  datatype Chart = Chart(reference: string, name: string)

  datatype SourceSpec = SourceSpec(
    github: Option<Release>,
    gitlab: Option<Release>,
    helm: Option<Chart>,
    configMap: Option<Key>,
    url: Option<string>)

  datatype Spec = Spec(
    source: SourceSpec,
    semver: string,
    digest: string,
    template: Option<map<string, Json>>,
    continueOnValidationError: bool,
    prune: bool,
    ignoreBreakingChanges: bool,
    kubeConfig: Option<string>)

  datatype Reason =
    | TempFolderFailedToCreate
    | CRDFetchFailed
    | ResourceManagerCreateFailed
    | ReadingObjectsToApplyFailed
    | BreakingChangeDetectionFailed
    | BreakingChangeDetected
    | CRDValidationFailed
    | ApplyingCRDSFailed
    | WaitingOnObjectsFailed

  /** The Ready condition. */
  datatype Ready = NotSet | ReadyTrue | ReadyFalse(reason: Reason)

  /** An empty `counters` stands for the nil map: the field is omitted from storage when empty. */
  datatype Status = Status(
    ready: Ready,
    counters: map<string, nat>,
    attempted: string,
    applied: string,
    breaking: seq<string>)

  /** `finalizer` is the controller's own finalizer, `foreign` says that others are present. */
  datatype Bootstrap = Bootstrap(
    spec: Spec,
    status: Status,
    finalizer: bool,
    foreign: bool,
    deleting: bool)

  const EMPTY_STATUS := Status(NotSet, map[], "", "", [])

  function Count(m: map<string, nat>, name: string): nat {
    if name in m then m[name] else 0
  }

  /** One in-place increment, `applied[name]++`. */
  function Bump(m: map<string, nat>, name: string): map<string, nat> {
    m[name := Count(m, name) + 1]
  }

  function BumpAll(m: map<string, nat>, names: seq<string>): map<string, nat> {
    if names == [] then m
    else Bump(BumpAll(m, names[..|names| - 1]), names[|names| - 1])
  }

  lemma {:induction false} BumpAllCounts(m: map<string, nat>, names: seq<string>, x: string)
    ensures Count(BumpAll(m, names), x) == Count(m, x) + Occurrences(names, x)
    ensures BumpAll(m, names).Keys == m.Keys + (set n | n in names)
  {
    if names != [] {
      var front, last := names[..|names| - 1], names[|names| - 1];
      assert names == front + [last];
      BumpAllCounts(m, front, x);
    }
  }

  /** Where the CRDs of a Bootstrap go. */
  function TargetOf(spec: Spec): Target {
    match spec.kubeConfig
    case None => Local
    case Some(k) => Remote(k)
  }

  /** The local CRDs that carry the owner label with this Bootstrap name. */
  function Owned(cluster: Cluster, name: string): set<CrdKey> {
    set k | k in cluster && k.target.Local?
      && OWNER_LABEL in cluster[k].labels && cluster[k].labels[OWNER_LABEL] == name
  }

  function Names(objects: seq<Object>): (r: seq<string>)
    ensures |r| == |objects|
  {
    seq(|objects|, i requires 0 <= i < |objects| => objects[i].name)
  }
}
