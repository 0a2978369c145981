/**
 What each source answers and what it fetches, told from what it lists, for the source at which a chain
 of any length ends.
 */
module Answers {
  import opened Basics
  import opened Api
  import opened Libraries
  import opened Semver
  import opened HelmVersions
  import opened Manifest
  import opened Sources
  import HelmBundle

  // ------------------------------------------------- one version to decide on

  /**
   Nothing can be decided: the version or the constraint does not parse, or what is applied does not and
   is needed.
   */
  predicate Undecidable(lib: Lib, latest: string, semver: string, applied: string) {
    || Parse(lib, latest).None? || lib.parseConstraint(semver).None?
    || (Satisfies(lib, latest, semver) && applied != "" && Parse(lib, applied).None?)
  }

  /** The version satisfies the constraint, and nothing is applied yet or something strictly below it. */
  predicate IsDue(lib: Lib, latest: string, semver: string, applied: string) {
    Satisfies(lib, latest, semver) && (applied == "" || Above(lib, latest, applied))
  }

  predicate Decided(lib: Lib, latest: string, semver: string, applied: string, a: Answer) {
    if Undecidable(lib, latest, semver, applied) then a == Rejected
    else if IsDue(lib, latest, semver, applied) then a == Answered(true, latest)
    else a == Answered(false, applied)
  }

  lemma DecidesExactly(lib: Lib, latest: string, semver: string, applied: string)
    ensures Decided(lib, latest, semver, applied, Decide(lib, latest, semver, applied))
  {
    DecideMeaning(lib, latest, semver, applied);
  }

  // --------------------------------------------------------------- HasUpdate

  /**
   Helm: an error when a call fails, the chart is not listed or the constraint does not parse; a panic
   when no listed version is a candidate; else an update exactly when nothing is applied or some listed
   version satisfies the constraint and is strictly above what is applied. The revision offered is a
   listed candidate that no other exceeds.
   */
  lemma HelmAnswersExactly(lib: Lib, chain: Chain, up: Upstream, spec: Spec, applied: string, reach: Reach,
                           pick: string)
    requires FirstSet(Kinds(chain), spec.source, Helm) && (reach.Reached? ==> PickFits(lib, chain, up, spec, pick))
    ensures var a, chart := HasUpdate(lib, chain, up, spec, applied, reach, pick), spec.source.helm.value;
      if !reach.Reached? then a == Unreachable
      else if chart !in up.charts || lib.parseConstraint(spec.semver).None? then a == Rejected
      else
        var versions, check := up.charts[chart], lib.parseConstraint(spec.semver).value;
        if !HasCandidate(lib, versions, check) then a == Panicked
        else if applied != "" && Parse(lib, applied).None? then a == Rejected
        else if applied == "" || HasNewer(lib, versions, spec.semver, applied)
        then a.Answered? && a.update && IsLatest(lib, versions, check, a.revision)
        else a == Answered(false, applied)
  {
    ChainAgreement(lib, chain, up, spec, applied, reach, pick, "");
    var chart := spec.source.helm.value;
    if reach.Reached? && chart in up.charts && lib.parseConstraint(spec.semver).Some? {
      var versions, check := up.charts[chart], lib.parseConstraint(spec.semver).value;
      if HasCandidate(lib, versions, check) {
        DecidesExactly(lib, pick, spec.semver, applied);
        if applied == "" || Parse(lib, applied).Some? {
          HelmDecidesExactly(lib, versions, spec.semver, applied, pick);
        }
      }
    }
  }

  /** A ConfigMap: decided on the version it holds; an error when a call fails, or it or its version key is missing. */
  lemma ConfigMapAnswersExactly(lib: Lib, chain: Chain, up: Upstream, spec: Spec, applied: string, reach: Reach,
                                pick: string)
    requires FirstSet(Kinds(chain), spec.source, ConfigMap)
    ensures var a, name := HasUpdate(lib, chain, up, spec, applied, reach, pick), spec.source.configMap.value;
      if !reach.Reached? then a == Unreachable
      else if name !in up.configMaps || "version" !in up.configMaps[name] then a == Rejected
      else Decided(lib, up.configMaps[name]["version"], spec.semver, applied, a)
  {
    ChainAgreement(lib, chain, up, spec, applied, reach, pick, "");
    var name := spec.source.configMap.value;
    if name in up.configMaps && VERSION_KEY in up.configMaps[name] {
      DecidesExactly(lib, up.configMaps[name][VERSION_KEY], spec.semver, applied);
    }
  }

  /** GitHub: decided on the tag of the latest release; an error when a call fails, or there is no tag. */
  lemma GitHubAnswersExactly(lib: Lib, chain: Chain, up: Upstream, spec: Spec, applied: string, reach: Reach,
                             pick: string)
    requires FirstSet(Kinds(chain), spec.source, GitHub)
    ensures var a, release := HasUpdate(lib, chain, up, spec, applied, reach, pick), spec.source.github.value;
      if !reach.Reached? then a == Unreachable
      else if release !in up.githubTags || up.githubTags[release] == "" then a == Rejected
      else Decided(lib, up.githubTags[release], spec.semver, applied, a)
  {
    ChainAgreement(lib, chain, up, spec, applied, reach, pick, "");
    if spec.source.github.value in up.githubTags {
      DecidesExactly(lib, up.githubTags[spec.source.github.value], spec.semver, applied);
    }
  }

  /** GitLab: the same, but a refused request and an unknown project panic. */
  lemma GitLabAnswersExactly(lib: Lib, chain: Chain, up: Upstream, spec: Spec, applied: string, reach: Reach,
                             pick: string)
    requires FirstSet(Kinds(chain), spec.source, GitLab)
    ensures var a, release := HasUpdate(lib, chain, up, spec, applied, reach, pick), spec.source.gitlab.value;
      if reach.Refused? then a == Panicked
      else if reach.Failed? then a == Unreachable
      else if release !in up.gitlabTags then a == Panicked
      else if up.gitlabTags[release] == "" then a == Rejected
      else Decided(lib, up.gitlabTags[release], spec.semver, applied, a)
  {
    ChainAgreement(lib, chain, up, spec, applied, reach, pick, "");
    if spec.source.gitlab.value in up.gitlabTags {
      DecidesExactly(lib, up.gitlabTags[spec.source.gitlab.value], spec.semver, applied);
    }
  }

  /** The digest of what the URL holds is what is asked for, or nothing is asked for and it is not yet applied. */
  predicate DigestIsDue(lib: Lib, content: string, digest: string, applied: string) {
    || (digest != "" && lib.digest(content) == digest)
    || (digest == "" && lib.digest(content) != applied)
  }

  /**
   A URL: an update exactly when there is something at the URL, and its digest is the required one, or
   none is required and it is not the one applied last. The revision offered is that digest.
   */
  lemma UrlAnswersExactly(lib: Lib, chain: Chain, up: Upstream, spec: Spec, applied: string, reach: Reach, pick: string)
    requires FirstSet(Kinds(chain), spec.source, Url)
    ensures var a, url := HasUpdate(lib, chain, up, spec, applied, reach, pick), spec.source.url.value;
      && (Offers(a) <==> reach.Reached? && url in up.urls && DigestIsDue(lib, up.urls[url], spec.digest, applied))
      && (Offers(a) ==> a.revision == lib.digest(up.urls[url]))
      && (a == Unreachable <==> !reach.Reached?)
      && (a == Rejected <==> reach.Reached? && url !in up.urls)
      && (a.Answered? && !a.update ==> a.revision == if spec.digest == "" then applied else "")
      && a != Panicked
  {
    ChainAgreement(lib, chain, up, spec, applied, reach, pick, "");
  }

  // ---------------------------------------------------------------- FetchCRD

  /** What the source has under this revision; a URL has one content only, under whatever revision. */
  predicate Publishes(up: Upstream, k: Kind, spec: Spec, revision: string, text: string)
    requires Handles(k, spec.source)
  {
    match k
    case Helm =>
      var at := (spec.source.helm.value, revision);
      at in up.unpacked && var root := up.unpacked[at];
      text == Stream(HelmBundle.Contents(HelmBundle.Bundle(root, [root.name])))
    case ConfigMap => Snapshot(up, spec.source.configMap.value, revision, text)
    case GitLab =>
      var release := spec.source.gitlab.value;
      (release, revision) in up.gitlabReleases && var links := up.gitlabReleases[(release, revision)];
      exists i :: 0 <= i < |links| && FirstLink(links, release.manifest, i)
        && links[i].url != "" && links[i].url in up.gitlabFiles && up.gitlabFiles[links[i].url] == text
    case GitHub =>
      var at := (spec.source.github.value, revision); at in up.githubAssets && up.githubAssets[at] == text
    case Url => spec.source.url.value in up.urls && up.urls[spec.source.url.value] == text
  }

  lemma GitLabFetchesExactly(up: Upstream, release: Release, revision: string, text: string)
    ensures GitLabContent(up, release, revision) == Content(text)
       <==> (release, revision) in up.gitlabReleases && var links := up.gitlabReleases[(release, revision)];
            exists i :: 0 <= i < |links| && FirstLink(links, release.manifest, i)
              && links[i].url != "" && links[i].url in up.gitlabFiles && up.gitlabFiles[links[i].url] == text
  {
    if (release, revision) in up.gitlabReleases {
      var links := up.gitlabReleases[(release, revision)];
      AssetIsFirstLink(links, release.manifest);
      if AssetURL(links, release.manifest) != "" {
        var i: nat :| FirstLink(links, release.manifest, i);
      }
    }
  }

  /**
   Every source fetches a content exactly when its calls succeed and it has that content under the
   revision that is asked for, not under the one that is the latest by now.
   */
  lemma FetchesExactly(lib: Lib, chain: Chain, up: Upstream, spec: Spec, revision: string, reach: Reach, k: Kind,
                       text: string)
    requires FirstSet(Kinds(chain), spec.source, k)
    ensures FetchCRD(chain, up, spec, revision, reach) == Content(text)
       <==> reach.Reached? && Publishes(up, k, spec, revision, text)
  {
    ChainAgreement(lib, chain, up, spec, "", reach, "", revision);
    if k == GitLab {
      GitLabFetchesExactly(up, spec.source.gitlab.value, revision, text);
    }
  }

  /** Whatever is fetched comes from the one source that the chain ends at. */
  lemma FetchedFromOne(lib: Lib, chain: Chain, up: Upstream, spec: Spec, revision: string, text: string)
    returns (k: Kind)
    requires FetchCRD(chain, up, spec, revision, Reached) == Content(text)
    ensures FirstSet(Kinds(chain), spec.source, k) && Publishes(up, k, spec, revision, text)
  {
    var handler := FirstHandlerExists(chain, spec.source);
    ChainAgreement(lib, chain, up, spec, "", Reached, "", revision);
    assert handler.Some?;
    k := handler.value;
    FetchesExactly(lib, chain, up, spec, revision, Reached, k, text);
  }
}
