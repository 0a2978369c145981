/**
 The five sources and the chain that links them: is there an update, and what does it contain.
 Everything outside the controller that they read is one Upstream value; `reach` says how the calls
 of the handler turn out.
 */
module Sources {
  import opened Basics
  import opened Api
  import opened Libraries
  import opened Semver
  import opened HelmVersions
  import HelmBundle

  /** A link of a GitLab release. */
  datatype Asset = Asset(name: string, url: string)

  /** What there is to read; a key that is missing is answered with a status outside 2xx. */
  datatype Upstream = Upstream(
    charts: map<Chart, seq<string>>,
    unpacked: map<(Chart, string), HelmBundle.Node>,
    configMaps: map<Key, map<string, string>>,
    gitlabTags: map<Release, string>,
    gitlabReleases: map<(Release, string), seq<Asset>>,
    gitlabFiles: map<string, string>,
    githubTags: map<Release, string>,
    githubAssets: map<(Release, string), string>,
    urls: map<string, string>)

  /**
   Refused: an HTTP request fails or is answered with a status outside 2xx. Failed: any other call
   fails, a file or cluster call, the construction of a client, decoding a response.
   */
  datatype Reach = Reached | Failed | Refused

  /** Rejected: an error that the read values cause. Unreachable: an I/O error. Panicked: a run-time panic. */
  datatype Answer = Answered(update: bool, revision: string) | Rejected | Unreachable | Panicked

  // ------------------------------------------------------------- the chain

  datatype Kind = Helm | ConfigMap | GitLab | GitHub | Url

  datatype Chain = Link(kind: Kind, next: Option<Chain>)

  /** The chain the manager builds. */
  const MANAGER_CHAIN :=
    Link(Helm, Some(Link(ConfigMap, Some(Link(GitLab, Some(Link(GitHub, Some(Link(Url, None)))))))))

  predicate Handles(kind: Kind, source: SourceSpec) {
    match kind
    case Helm => source.helm.Some?
    case ConfigMap => source.configMap.Some?
    case GitLab => source.gitlab.Some?
    case GitHub => source.github.Some?
    case Url => source.url.Some?
  }

  function Kinds(chain: Chain): seq<Kind> {
    [chain.kind] + match chain.next case None => [] case Some(next) => Kinds(next)
  }

  /** k stands at position i, its field is set, and no earlier field is. */
  predicate FirstAt(kinds: seq<Kind>, source: SourceSpec, k: Kind, i: nat) {
    i < |kinds| && kinds[i] == k && Handles(k, source) && forall j :: 0 <= j < i ==> !Handles(kinds[j], source)
  }

  /** k is the first kind of the list whose field of the source is set. */
  predicate FirstSet(kinds: seq<Kind>, source: SourceSpec, k: Kind) {
    exists i :: 0 <= i < |kinds| && FirstAt(kinds, source, k, i)
  }

  // --------------------------------------------------------- has an update

  /** The decision the four semver sources share. */
  function Decide(lib: Lib, latest: string, semver: string, applied: string): Answer {
    match NewVersion(lib, latest)
    case None => Rejected
    case Some(candidate) =>
      match lib.parseConstraint(semver)
      case None => Rejected
      case Some(check) =>
        if !check(candidate.version) then Answered(false, applied)
        else if applied == "" then Answered(true, latest)
        else match NewVersion(lib, applied)
          case None => Rejected
          case Some(last) =>
            if Equal(last.version, candidate.version) || GreaterThan(last.version, candidate.version)
            then Answered(false, applied)
            else Answered(true, latest)
  }

  /** `pick` is what sorting the listed versions puts first; ties leave it open. */
  function HelmAnswer(lib: Lib, up: Upstream, chart: Chart, semver: string, applied: string, pick: string): Answer {
    if chart !in up.charts then Rejected
    else match lib.parseConstraint(semver)
      case None => Rejected
      case Some(check) =>
        if !HasCandidate(lib, up.charts[chart], check) then Panicked
        else Decide(lib, pick, semver, applied)
  }

  function UrlAnswer(lib: Lib, content: string, digest: string, applied: string): Answer {
    var sum := lib.digest(content);
    if digest != "" then (if digest == sum then Answered(true, digest) else Answered(false, ""))
    else if applied == sum then Answered(false, applied)
    else Answered(true, sum)
  }

  function TagAnswer(lib: Lib, tags: map<Release, string>, release: Release, semver: string, applied: string): Answer {
    if release !in tags || tags[release] == "" then Rejected
    else Decide(lib, tags[release], semver, applied)
  }

  function ConfigMapAnswer(lib: Lib, up: Upstream, name: Key, semver: string, applied: string): Answer {
    if name !in up.configMaps || VERSION_KEY !in up.configMaps[name] then Rejected
    else Decide(lib, up.configMaps[name][VERSION_KEY], semver, applied)
  }

  /** A project that GitLab does not know is refused, and the nil body of the response is closed. */
  function GitLabAnswer(lib: Lib, up: Upstream, release: Release, semver: string, applied: string): Answer {
    if release !in up.gitlabTags then Panicked else TagAnswer(lib, up.gitlabTags, release, semver, applied)
  }

  /** The answer of the handler `kind` itself. */
  function HandlerAnswer(lib: Lib, kind: Kind, up: Upstream, spec: Spec, applied: string, reach: Reach,
                         pick: string): Answer
    requires Handles(kind, spec.source)
  {
    if !reach.Reached? then (if kind == GitLab && reach.Refused? then Panicked else Unreachable)
    else match kind
      case Helm => HelmAnswer(lib, up, spec.source.helm.value, spec.semver, applied, pick)
      case ConfigMap => ConfigMapAnswer(lib, up, spec.source.configMap.value, spec.semver, applied)
      case GitLab => GitLabAnswer(lib, up, spec.source.gitlab.value, spec.semver, applied)
      case GitHub => TagAnswer(lib, up.githubTags, spec.source.github.value, spec.semver, applied)
      case Url =>
        var url := spec.source.url.value;
        if url !in up.urls then Rejected else UrlAnswer(lib, up.urls[url], spec.digest, applied)
  }

  function HasUpdate(lib: Lib, chain: Chain, up: Upstream, spec: Spec, applied: string, reach: Reach,
                     pick: string): Answer
    decreases chain
  {
    if Handles(chain.kind, spec.source) then HandlerAnswer(lib, chain.kind, up, spec, applied, reach, pick)
    else match chain.next
      case None => Rejected
      case Some(next) => HasUpdate(lib, next, up, spec, applied, reach, pick)
  }

  /** Whatever sorting may put first: a latest candidate, when there is a non-empty selection to sort. */
  predicate HelmPickFits(lib: Lib, up: Upstream, chart: Chart, semver: string, pick: string) {
    chart in up.charts && lib.parseConstraint(semver).Some?
      && HasCandidate(lib, up.charts[chart], lib.parseConstraint(semver).value)
    ==> IsLatest(lib, up.charts[chart], lib.parseConstraint(semver).value, pick)
  }

  /** The same for a chain, which sorts only when it ends at the Helm handler. */
  predicate PickFits(lib: Lib, chain: Chain, up: Upstream, spec: Spec, pick: string) {
    FirstSet(Kinds(chain), spec.source, Helm) && spec.source.helm.Some?
    ==> HelmPickFits(lib, up, spec.source.helm.value, spec.semver, pick)
  }

  // --------------------------------------------------------------- fetching

  datatype Fetched = Content(text: string) | FetchError | FetchPanic

  function Found(content: Option<string>): Fetched {
    match content
    case None => FetchError
    case Some(text) => Content(text)
  }

  function Lookup<K(==)>(m: map<K, string>, key: K): Option<string> {
    if key in m then Some(m[key]) else None
  }

  /** The URL of the first link with this name; empty when there is none. */
  function AssetURL(links: seq<Asset>, manifest: string): string {
    if links == [] then "" else if links[0].name == manifest then links[0].url else AssetURL(links[1..], manifest)
  }

  /** Two requests, for the release and for the linked file; a refused one panics where its nil body is closed. */
  function GitLabContent(up: Upstream, release: Release, revision: string): Fetched {
    if (release, revision) !in up.gitlabReleases then FetchPanic
    else
      var url := AssetURL(up.gitlabReleases[(release, revision)], release.manifest);
      if url == "" then FetchError else if url !in up.gitlabFiles then FetchPanic else Content(up.gitlabFiles[url])
  }

  function ConfigMapContent(up: Upstream, name: Key, revision: string): Fetched {
    if name !in up.configMaps then FetchError
    else
      var data := up.configMaps[name];
      if VERSION_KEY !in data || data[VERSION_KEY] != revision then FetchError else Found(Lookup(data, CRD_KEY))
  }

  function HelmContent(up: Upstream, chart: Chart, revision: string): Fetched {
    if (chart, revision) !in up.unpacked then FetchError
    else Content(HelmBundle.BundleText(up.unpacked[(chart, revision)]))
  }

  /** What the handler `kind` itself fetches. */
  function HandlerContent(kind: Kind, up: Upstream, spec: Spec, revision: string, reach: Reach): Fetched
    requires Handles(kind, spec.source)
  {
    if !reach.Reached? then (if kind == GitLab && reach.Refused? then FetchPanic else FetchError)
    else match kind
      case Helm => HelmContent(up, spec.source.helm.value, revision)
      case ConfigMap => ConfigMapContent(up, spec.source.configMap.value, revision)
      case GitLab => GitLabContent(up, spec.source.gitlab.value, revision)
      case GitHub => Found(Lookup(up.githubAssets, (spec.source.github.value, revision)))
      case Url => Found(Lookup(up.urls, spec.source.url.value))
  }

  function FetchCRD(chain: Chain, up: Upstream, spec: Spec, revision: string, reach: Reach): Fetched
    decreases chain
  {
    if Handles(chain.kind, spec.source) then HandlerContent(chain.kind, up, spec, revision, reach)
    else match chain.next
      case None => FetchError
      case Some(next) => FetchCRD(next, up, spec, revision, reach)
  }

  // -------------------------------------------------------- the Go methods

  /** Helm's answer may be this one, namely when this version is picked. */
  predicate HelmGives(lib: Lib, up: Upstream, spec: Spec, applied: string, reach: Reach, pick: string, a: Answer)
    requires spec.source.helm.Some?
  {
    && (reach.Reached? ==> HelmPickFits(lib, up, spec.source.helm.value, spec.semver, pick))
    && a == HandlerAnswer(lib, Helm, up, spec, applied, reach, pick)
  }

  /** The chain's answer may be this one. */
  predicate Gives(lib: Lib, chain: Chain, up: Upstream, spec: Spec, applied: string, reach: Reach, pick: string,
                  a: Answer) {
    && (reach.Reached? ==> PickFits(lib, chain, up, spec, pick))
    && a == HasUpdate(lib, chain, up, spec, applied, reach, pick)
  }

  /** helm's HasUpdate: list, select and sort, then decide. Ties leave open which latest version is picked. */
  method HelmHasUpdate(lib: Lib, up: Upstream, spec: Spec, applied: string, reach: Reach) returns (a: Answer)
    requires spec.source.helm.Some?
    ensures exists pick :: HelmGives(lib, up, spec, applied, reach, pick, a)
  {
    if !reach.Reached? {
      assert HelmGives(lib, up, spec, applied, reach, "", Unreachable);
      return Unreachable;
    }
    var chart := spec.source.helm.value;
    var constraint := lib.parseConstraint(spec.semver);
    if chart !in up.charts || constraint.None? {
      assert HelmGives(lib, up, spec, applied, reach, "", Rejected);
      return Rejected;
    }
    if !HasCandidate(lib, up.charts[chart], constraint.value) {
      assert HelmGives(lib, up, spec, applied, reach, "", Panicked);
      return Panicked;
    }
    var latestRemoteVersion := GetLatestVersion(lib, up.charts[chart], constraint.value);
    assert HelmGives(lib, up, spec, applied, reach, latestRemoteVersion,
                     Decide(lib, latestRemoteVersion, spec.semver, applied));
    var latest := NewVersion(lib, latestRemoteVersion);
    if latest.None? {
      return Rejected;
    }
    if constraint.value(latest.value.version) {
      if applied != "" {
        var last := NewVersion(lib, applied);
        if last.None? {
          return Rejected;
        }
        if Equal(last.value.version, latest.value.version) || GreaterThan(last.value.version, latest.value.version) {
          return Answered(false, applied);
        }
      }
      return Answered(true, latestRemoteVersion);
    }
    return Answered(false, applied);
  }

  lemma FirstOfTail(head: Kind, tail: seq<Kind>, source: SourceSpec, k: Kind)
    requires !Handles(head, source)
    ensures FirstSet([head] + tail, source, k) <==> FirstSet(tail, source, k)
  {
    var all := [head] + tail;
    if FirstSet(all, source, k) {
      var i :| 0 <= i < |all| && FirstAt(all, source, k, i);
      assert forall j :: 0 <= j < i - 1 ==> tail[j] == all[j + 1];
      assert FirstAt(tail, source, k, i - 1);
    }
    if FirstSet(tail, source, k) {
      var i :| 0 <= i < |tail| && FirstAt(tail, source, k, i);
      assert FirstAt(all, source, k, i + 1);
    }
  }

  lemma KindsTail(chain: Chain, source: SourceSpec, k: Kind)
    requires !Handles(chain.kind, source)
    ensures FirstSet(Kinds(chain), source, k) <==> chain.next.Some? && FirstSet(Kinds(chain.next.value), source, k)
  {
    if chain.next.Some? {
      FirstOfTail(chain.kind, Kinds(chain.next.value), source, k);
    } else {
      assert Kinds(chain) == [chain.kind];
    }
  }

  lemma PickOfTail(lib: Lib, chain: Chain, up: Upstream, spec: Spec, pick: string)
    requires !Handles(chain.kind, spec.source) && chain.next.Some?
    ensures PickFits(lib, chain, up, spec, pick) <==> PickFits(lib, chain.next.value, up, spec, pick)
  {
    KindsTail(chain, spec.source, Helm);
  }

  /** HasUpdate through the chain: handle it here or pass it on. */
  method CheckForUpdate(lib: Lib, chain: Chain, up: Upstream, spec: Spec, applied: string, reach: Reach)
    returns (a: Answer)
    ensures exists pick :: Gives(lib, chain, up, spec, applied, reach, pick, a)
    decreases chain
  {
    ghost var pick := "";
    if !Handles(chain.kind, spec.source) {
      if chain.next.None? {
        KindsTail(chain, spec.source, Helm);
        a := Rejected;
      } else {
        a := CheckForUpdate(lib, chain.next.value, up, spec, applied, reach);
        pick :| Gives(lib, chain.next.value, up, spec, applied, reach, pick, a);
        PickOfTail(lib, chain, up, spec, pick);
      }
    } else if chain.kind == Helm {
      a := HelmHasUpdate(lib, up, spec, applied, reach);
      pick :| HelmGives(lib, up, spec, applied, reach, pick, a);
    } else {
      a := HandlerAnswer(lib, chain.kind, up, spec, applied, reach, "");
      assert !FirstSet(Kinds(chain), spec.source, Helm) by {
        assert Kinds(chain)[0] == chain.kind;
      }
    }
    assert Gives(lib, chain, up, spec, applied, reach, pick, a);
  }

  /** The loop over the links of a release. */
  method FindAsset(links: seq<Asset>, manifest: string) returns (assetURL: string)
    ensures assetURL == AssetURL(links, manifest)
  {
    assetURL := "";
    for i := 0 to |links|
      invariant assetURL == ""
      invariant AssetURL(links, manifest) == AssetURL(links[i..], manifest)
    {
      assert links[i..][1..] == links[i + 1..];
      if links[i].name == manifest {
        assetURL := links[i].url;
        return;
      }
    }
  }

  /** gitlab's fetch: ask for the release, find the link, ask for the file. */
  method GitLabFetch(up: Upstream, release: Release, revision: string) returns (f: Fetched)
    ensures f == GitLabContent(up, release, revision)
  {
    if (release, revision) !in up.gitlabReleases {
      return FetchPanic;
    }
    var assetURL := FindAsset(up.gitlabReleases[(release, revision)], release.manifest);
    if assetURL == "" {
      return FetchError;
    }
    if assetURL !in up.gitlabFiles {
      return FetchPanic;
    }
    return Content(up.gitlabFiles[assetURL]);
  }

  /** FetchCRD through the chain; Helm writes its bundle file, GitLab follows a link. */
  method FetchContent(chain: Chain, up: Upstream, spec: Spec, revision: string, reach: Reach) returns (f: Fetched)
    ensures f == FetchCRD(chain, up, spec, revision, reach)
    decreases chain
  {
    if !Handles(chain.kind, spec.source) {
      if chain.next.None? {
        return FetchError;
      }
      f := FetchContent(chain.next.value, up, spec, revision, reach);
    } else if chain.kind == Helm && reach.Reached? && (spec.source.helm.value, revision) in up.unpacked {
      var text := HelmBundle.CreateCrdYaml(up.unpacked[(spec.source.helm.value, revision)]);
      f := Content(text);
    } else if chain.kind == GitLab && reach.Reached? {
      f := GitLabFetch(up, spec.source.gitlab.value, revision);
    } else {
      f := HandlerContent(chain.kind, up, spec, revision, reach);
    }
  }

  // ------------------------------------------------------- chain agreement

  /**
   HasUpdate and FetchCRD end at the same handler, the first of the chain whose field is set; when
   none is set both return an error. Chains of any length.
   */
  lemma {:induction false} ChainAgreement(lib: Lib, chain: Chain, up: Upstream, spec: Spec, applied: string,
                                          reach: Reach, pick: string, revision: string)
    ensures forall k :: FirstSet(Kinds(chain), spec.source, k) ==>
      && HasUpdate(lib, chain, up, spec, applied, reach, pick) == HandlerAnswer(lib, k, up, spec, applied, reach, pick)
      && FetchCRD(chain, up, spec, revision, reach) == HandlerContent(k, up, spec, revision, reach)
    ensures (forall k :: k in Kinds(chain) ==> !Handles(k, spec.source)) ==>
      && HasUpdate(lib, chain, up, spec, applied, reach, pick) == Rejected
      && FetchCRD(chain, up, spec, revision, reach) == FetchError
    decreases chain
  {
    assert Kinds(chain)[0] == chain.kind;
    if Handles(chain.kind, spec.source) {
      forall k | FirstSet(Kinds(chain), spec.source, k) ensures k == chain.kind {
      }
    } else {
      forall k ensures FirstSet(Kinds(chain), spec.source, k)
          <==> chain.next.Some? && FirstSet(Kinds(chain.next.value), spec.source, k)
      {
        KindsTail(chain, spec.source, k);
      }
      if chain.next.Some? {
        ChainAgreement(lib, chain.next.value, up, spec, applied, reach, pick, revision);
        assert forall k :: k in Kinds(chain.next.value) ==> k in Kinds(chain);
      }
    }
  }

  /** Some field is set exactly when there is a first handler, and it is unique. */
  lemma {:induction false} FirstHandlerExists(chain: Chain, source: SourceSpec) returns (handler: Option<Kind>)
    ensures handler.None? <==> forall k :: k in Kinds(chain) ==> !Handles(k, source)
    ensures forall k :: FirstSet(Kinds(chain), source, k) <==> handler == Some(k)
    decreases chain
  {
    var all := Kinds(chain);
    assert all[0] == chain.kind;
    if Handles(chain.kind, source) {
      handler := Some(chain.kind);
      assert FirstAt(all, source, chain.kind, 0);
      assert chain.kind in all;
    } else {
      forall k ensures FirstSet(all, source, k)
          <==> chain.next.Some? && FirstSet(Kinds(chain.next.value), source, k)
      {
        KindsTail(chain, source, k);
      }
      if chain.next.None? {
        handler := None;
      } else {
        handler := FirstHandlerExists(chain.next.value, source);
        assert forall k :: k in all <==> k == chain.kind || k in Kinds(chain.next.value);
      }
    }
  }

  /** The place of a source in the manager's order. */
  function Rank(k: Kind): nat {
    match k
    case Helm => 0
    case ConfigMap => 1
    case GitLab => 2
    case GitHub => 3
    case Url => 4
  }

  lemma ManagerKinds()
    ensures Kinds(MANAGER_CHAIN) == [Helm, ConfigMap, GitLab, GitHub, Url]
  {
    assert Kinds(Link(Url, None)) == [Url];
    assert Kinds(Link(GitHub, Some(Link(Url, None)))) == [GitHub, Url];
    assert Kinds(Link(GitLab, Some(Link(GitHub, Some(Link(Url, None)))))) == [GitLab, GitHub, Url];
  }

  /**
   Of the sources that a spec sets, the manager asks and fetches from one only, the first in the order
   Helm, ConfigMap, GitLab, GitHub, URL, and every other one is ignored. It fails when none is set.
   */
  lemma ManagerServesFirst(lib: Lib, up: Upstream, spec: Spec, applied: string, reach: Reach, pick: string,
                           revision: string)
    ensures forall k :: Handles(k, spec.source) && (forall j :: Rank(j) < Rank(k) ==> !Handles(j, spec.source)) ==>
      && HasUpdate(lib, MANAGER_CHAIN, up, spec, applied, reach, pick)
         == HandlerAnswer(lib, k, up, spec, applied, reach, pick)
      && FetchCRD(MANAGER_CHAIN, up, spec, revision, reach) == HandlerContent(k, up, spec, revision, reach)
    ensures (forall k :: !Handles(k, spec.source)) ==>
      && HasUpdate(lib, MANAGER_CHAIN, up, spec, applied, reach, pick) == Rejected
      && FetchCRD(MANAGER_CHAIN, up, spec, revision, reach) == FetchError
  {
    ManagerKinds();
    ChainAgreement(lib, MANAGER_CHAIN, up, spec, applied, reach, pick, revision);
    forall k | Handles(k, spec.source) && (forall j :: Rank(j) < Rank(k) ==> !Handles(j, spec.source))
      ensures FirstSet(Kinds(MANAGER_CHAIN), spec.source, k)
    {
      assert forall i :: 0 <= i < 5 ==> Rank(Kinds(MANAGER_CHAIN)[i]) == i;
      assert FirstAt(Kinds(MANAGER_CHAIN), spec.source, k, Rank(k));
    }
  }

  /** A link that FindAsset can find: it has the name of the manifest, and no link before it has. */
  predicate FirstLink(links: seq<Asset>, manifest: string, i: nat) {
    i < |links| && links[i].name == manifest && forall j :: 0 <= j < i ==> links[j].name != manifest
  }

  lemma {:induction false} AssetIsFirstLink(links: seq<Asset>, manifest: string)
    ensures forall i: nat :: FirstLink(links, manifest, i) ==> AssetURL(links, manifest) == links[i].url
    ensures (forall i :: 0 <= i < |links| ==> links[i].name != manifest) ==> AssetURL(links, manifest) == ""
    ensures AssetURL(links, manifest) != "" ==> exists i: nat :: FirstLink(links, manifest, i)
  {
    if links != [] && links[0].name == manifest {
      assert FirstLink(links, manifest, 0);
    }
    if links != [] && links[0].name != manifest {
      var rest := links[1..];
      AssetIsFirstLink(rest, manifest);
      forall i: nat | FirstLink(links, manifest, i) ensures FirstLink(rest, manifest, i - 1) {
        assert forall j :: 0 <= j < i - 1 ==> rest[j] == links[j + 1];
      }
      if i: nat :| FirstLink(rest, manifest, i) {
        assert forall j :: 0 < j <= i ==> links[j] == rest[j - 1];
        assert FirstLink(links, manifest, i + 1);
      }
    }
  }

  /** The first link with the name of the manifest leads to a file that is not there. */
  predicate DeadLink(up: Upstream, links: seq<Asset>, manifest: string) {
    exists i :: 0 <= i < |links| && FirstLink(links, manifest, i)
      && links[i].url != "" && links[i].url !in up.gitlabFiles
  }

  /**
   A chain that ends at GitLab panics exactly when an HTTP request is refused, because the network
   says so, or the project or the release is unknown, or the link of the manifest is dead. The body
   of a refused request is nil, and it is closed before the error is looked at.
   */
  lemma GitLabPanicsExactly(lib: Lib, chain: Chain, up: Upstream, spec: Spec, applied: string, reach: Reach,
                            pick: string, revision: string)
    requires FirstSet(Kinds(chain), spec.source, GitLab)
    ensures var release := spec.source.gitlab.value;
      HasUpdate(lib, chain, up, spec, applied, reach, pick) == Panicked
      <==> reach.Refused? || (reach.Reached? && release !in up.gitlabTags)
    ensures var release := spec.source.gitlab.value;
      FetchCRD(chain, up, spec, revision, reach) == FetchPanic
      <==> reach.Refused? || (reach.Reached? &&
             ((release, revision) in up.gitlabReleases ==>
               DeadLink(up, up.gitlabReleases[(release, revision)], release.manifest)))
  {
    ChainAgreement(lib, chain, up, spec, applied, reach, pick, revision);
    var release := spec.source.gitlab.value;
    if (release, revision) in up.gitlabReleases {
      var links := up.gitlabReleases[(release, revision)];
      AssetIsFirstLink(links, release.manifest);
      if AssetURL(links, release.manifest) != "" {
        var i: nat :| FirstLink(links, release.manifest, i);
      }
    }
  }

  // -------------------------------------------------- what an update means

  /** The Bootstrap is served by a source with versions, not by the URL source. */
  predicate Versioned(chain: Chain, spec: Spec) {
    !FirstSet(Kinds(chain), spec.source, Url)
  }

  /** A digest is required of the URL content. */
  predicate Pinned(chain: Chain, spec: Spec) {
    FirstSet(Kinds(chain), spec.source, Url) && spec.digest != ""
  }

  lemma DecideMeaning(lib: Lib, latest: string, semver: string, applied: string)
    ensures Decide(lib, latest, semver, applied) == Answered(true, latest)
       <==> Satisfies(lib, latest, semver) && (applied == "" || Above(lib, latest, applied))
    ensures Decide(lib, latest, semver, applied).Answered? && Decide(lib, latest, semver, applied).update
       ==> Decide(lib, latest, semver, applied).revision == latest
  {
    if Parse(lib, latest).Some? && Parse(lib, applied).Some? {
      var a, b := Parse(lib, latest).value, Parse(lib, applied).value;
      PrecedenceIsTotalPreorder(a, b, a);
      PrecedenceIsTotalPreorder(b, a, b);
    }
  }

  predicate Offers(a: Answer) { a.Answered? && a.update }

  /**
   Roll-forward at the source: whatever a versioned source offers parses, satisfies the constraint,
   and is strictly above the last applied revision if there is one.
   */
  lemma OfferIsForward(lib: Lib, chain: Chain, up: Upstream, spec: Spec, applied: string, reach: Reach, pick: string)
    requires Versioned(chain, spec)
    requires Offers(HasUpdate(lib, chain, up, spec, applied, reach, pick))
    ensures var r := HasUpdate(lib, chain, up, spec, applied, reach, pick).revision;
      Satisfies(lib, r, spec.semver) && (applied == "" || Above(lib, r, applied))
  {
    var handler := FirstHandlerExists(chain, spec.source);
    ChainAgreement(lib, chain, up, spec, applied, reach, pick, "");
    if handler.Some? {
      assert FirstSet(Kinds(chain), spec.source, handler.value);
      match handler.value
      case Helm => DecideMeaning(lib, pick, spec.semver, applied);
      case ConfigMap =>
        DecideMeaning(lib, up.configMaps[spec.source.configMap.value][VERSION_KEY], spec.semver, applied);
      case GitLab => DecideMeaning(lib, up.gitlabTags[spec.source.gitlab.value], spec.semver, applied);
      case GitHub => DecideMeaning(lib, up.githubTags[spec.source.github.value], spec.semver, applied);
    }
  }

  /** Some listed version satisfies the constraint and is strictly above what is applied. */
  predicate HasNewer(lib: Lib, versions: seq<string>, semver: string, applied: string) {
    exists i :: 0 <= i < |versions| && Satisfies(lib, versions[i], semver) && Above(lib, versions[i], applied)
  }

  /**
   Helm's decision: once some listed version satisfies the constraint, and the last applied revision
   is empty or parses, there is an update exactly when nothing is applied yet or some listed
   satisfying version is strictly above what is applied. The parse and the constraint check that
   follow the selection never reject what was selected.
   */
  lemma HelmDecidesExactly(lib: Lib, versions: seq<string>, semver: string, applied: string, pick: string)
    requires lib.parseConstraint(semver).Some? && HasCandidate(lib, versions, lib.parseConstraint(semver).value)
    requires IsLatest(lib, versions, lib.parseConstraint(semver).value, pick)
    requires applied == "" || Parse(lib, applied).Some?
    ensures Decide(lib, pick, semver, applied)
         == (if applied == "" || HasNewer(lib, versions, semver, applied)
             then Answered(true, pick) else Answered(false, applied))
  {
    DecideMeaning(lib, pick, semver, applied);
    var k :| 0 <= k < |versions| && versions[k] == pick;
    assert Satisfies(lib, versions[k], semver);
    if applied != "" {
      forall i | 0 <= i < |versions| && Satisfies(lib, versions[i], semver) && Above(lib, versions[i], applied)
        ensures Above(lib, pick, applied)
      {
        assert !Above(lib, versions[i], pick);
        PrecedenceIsTotalPreorder(
          Parse(lib, applied).value, Parse(lib, versions[i]).value, Parse(lib, pick).value);
        PrecedenceIsTotalPreorder(
          Parse(lib, pick).value, Parse(lib, applied).value, Parse(lib, versions[i]).value);
        PrecedenceIsTotalPreorder(
          Parse(lib, versions[i]).value, Parse(lib, pick).value, Parse(lib, applied).value);
      }
    }
  }

  /**
   Helm's HasUpdate panics exactly when the chart is listed, the constraint parses, and nothing listed
   satisfies it.
   */
  lemma HelmPanicsExactly(lib: Lib, up: Upstream, spec: Spec, applied: string, pick: string)
    requires spec.source.helm.Some?
    ensures HandlerAnswer(lib, Helm, up, spec, applied, Reached, pick) == Panicked
       <==> (&& spec.source.helm.value in up.charts
             && lib.parseConstraint(spec.semver).Some?
             && Selection(lib, up.charts[spec.source.helm.value], lib.parseConstraint(spec.semver).value) == [])
  {
    if spec.source.helm.value in up.charts && lib.parseConstraint(spec.semver).Some? {
      EmptySelectionExactly(lib, up.charts[spec.source.helm.value], lib.parseConstraint(spec.semver).value);
    }
  }

  // ------------------------------------------------------------ settling

  /** An update is available. */
  ghost predicate Due(lib: Lib, chain: Chain, up: Upstream, spec: Spec, applied: string) {
    exists pick :: PickFits(lib, chain, up, spec, pick)
      && Offers(HasUpdate(lib, chain, up, spec, applied, Reached, pick))
  }

  lemma LevelVersionsDecideAlike(lib: Lib, a: string, b: string, semver: string, applied: string)
    requires Satisfies(lib, a, semver) && Satisfies(lib, b, semver)
    requires Equal(Parse(lib, a).value, Parse(lib, b).value)
    ensures Offers(Decide(lib, a, semver, applied)) <==> Offers(Decide(lib, b, semver, applied))
  {
    if Parse(lib, applied).Some? {
      var x, y, l := Parse(lib, a).value, Parse(lib, b).value, Parse(lib, applied).value;
      PrecedenceIsTotalPreorder(x, y, l);
      PrecedenceIsTotalPreorder(y, x, l);
      PrecedenceIsTotalPreorder(l, x, y);
      PrecedenceIsTotalPreorder(l, y, x);
    }
  }

  /** Asking twice with nothing changed gives the same decision, and revisions that are equal or level. */
  lemma OfferIsStable(lib: Lib, chain: Chain, up: Upstream, spec: Spec, applied: string, p: string, q: string)
    requires PickFits(lib, chain, up, spec, p) && PickFits(lib, chain, up, spec, q)
    requires Offers(HasUpdate(lib, chain, up, spec, applied, Reached, p))
    ensures Offers(HasUpdate(lib, chain, up, spec, applied, Reached, q))
    ensures var r := HasUpdate(lib, chain, up, spec, applied, Reached, p).revision;
      var s := HasUpdate(lib, chain, up, spec, applied, Reached, q).revision;
      r == s || (&& Parse(lib, r).Some? && Parse(lib, s).Some?
                 && Equal(Parse(lib, r).value, Parse(lib, s).value))
  {
    var handler := FirstHandlerExists(chain, spec.source);
    ChainAgreement(lib, chain, up, spec, applied, Reached, p, "");
    ChainAgreement(lib, chain, up, spec, applied, Reached, q, "");
    if handler == Some(Helm) {
      assert FirstSet(Kinds(chain), spec.source, Helm);
      LatestAreLevel(lib, up.charts[spec.source.helm.value], lib.parseConstraint(spec.semver).value, p, q);
      LevelVersionsDecideAlike(lib, p, q, spec.semver, applied);
      DecideMeaning(lib, p, spec.semver, applied);
      DecideMeaning(lib, q, spec.semver, applied);
    } else if handler.Some? {
      assert FirstSet(Kinds(chain), spec.source, handler.value);
    }
  }

  lemma AppliedSettlesDecision(lib: Lib, latest: string, semver: string, applied: string, later: string)
    requires Offers(Decide(lib, applied, semver, latest))
    requires Parse(lib, later).Some? && Equal(Parse(lib, later).value, Parse(lib, applied).value)
    ensures !Offers(Decide(lib, later, semver, applied))
  {
    DecideMeaning(lib, applied, semver, latest);
    DecideMeaning(lib, later, semver, applied);
    PrecedenceIsTotalPreorder(Parse(lib, later).value, Parse(lib, applied).value, Parse(lib, later).value);
  }

  /**
   Once an offered revision is recorded as applied, with the sources and the spec unchanged the same
   source offers nothing more, except a URL source whose digest is pinned: that one always does.
   */
  lemma AppliedSettlesExactly(lib: Lib, chain: Chain, up: Upstream, spec: Spec, applied: string, pick: string)
    requires PickFits(lib, chain, up, spec, pick)
    requires Offers(HasUpdate(lib, chain, up, spec, applied, Reached, pick))
    ensures var r := HasUpdate(lib, chain, up, spec, applied, Reached, pick).revision;
      Due(lib, chain, up, spec, r) <==> Pinned(chain, spec)
  {
    var r := HasUpdate(lib, chain, up, spec, applied, Reached, pick).revision;
    var handler := FirstHandlerExists(chain, spec.source);
    ChainAgreement(lib, chain, up, spec, applied, Reached, pick, "");
    forall q | PickFits(lib, chain, up, spec, q)
      ensures Offers(HasUpdate(lib, chain, up, spec, r, Reached, q)) <==> Pinned(chain, spec)
    {
      ChainAgreement(lib, chain, up, spec, r, Reached, q, "");
      assert FirstSet(Kinds(chain), spec.source, handler.value);
      match handler.value
      case Helm =>
        LatestAreLevel(lib, up.charts[spec.source.helm.value], lib.parseConstraint(spec.semver).value, q, pick);
        DecideMeaning(lib, pick, spec.semver, applied);
        AppliedSettlesDecision(lib, applied, spec.semver, pick, q);
      case ConfigMap =>
        var latest := up.configMaps[spec.source.configMap.value][VERSION_KEY];
        SameVersionSettles(lib, latest, spec.semver, applied);
      case GitLab => SameVersionSettles(lib, up.gitlabTags[spec.source.gitlab.value], spec.semver, applied);
      case GitHub => SameVersionSettles(lib, up.githubTags[spec.source.github.value], spec.semver, applied);
      case Url =>
    }
    assert PickFits(lib, chain, up, spec, pick);
  }

  lemma SameVersionSettles(lib: Lib, latest: string, semver: string, applied: string)
    requires Offers(Decide(lib, latest, semver, applied))
    ensures Decide(lib, latest, semver, applied).revision == latest
    ensures !Offers(Decide(lib, latest, semver, latest))
  {
    DecideMeaning(lib, latest, semver, applied);
    var v := Parse(lib, latest).value;
    PrecedenceIsTotalPreorder(v, v, v);
    AppliedSettlesDecision(lib, applied, semver, latest, latest);
  }

  // ------------------------------------------------- ConfigMap and its revision

  /** One ConfigMap snapshot carries both the revision and the content. */
  predicate Snapshot(up: Upstream, name: Key, revision: string, content: string) {
    && name in up.configMaps
    && VERSION_KEY in up.configMaps[name] && up.configMaps[name][VERSION_KEY] == revision
    && CRD_KEY in up.configMaps[name] && up.configMaps[name][CRD_KEY] == content
  }

  /** Fetching from a ConfigMap succeeds exactly on a snapshot whose version key is the requested revision. */
  lemma ConfigMapFetchesSnapshot(chain: Chain, up: Upstream, spec: Spec, revision: string, content: string)
    requires FirstSet(Kinds(chain), spec.source, ConfigMap)
    ensures FetchCRD(chain, up, spec, revision, Reached) == Content(content)
       <==> Snapshot(up, spec.source.configMap.value, revision, content)
  {
    var lib := Lib(s => None, s => None, (a, b) => NoReport, s => s, s => s, s => None, s => None);
    ChainAgreement(lib, chain, up, spec, "", Reached, "", revision);
  }
}
