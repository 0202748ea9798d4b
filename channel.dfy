/**
 * The channel selection policy of checkVersionNpm (lib/npmHandler.js:89-129)
 * restated independently: the channels in the order they are looked at, the
 * first one inside the declared range, the last one above it. The lemmas tie
 * NpmStep to these definitions.
 */
module ChannelPolicy {
  import opened Wrappers
  import opened Semver
  import opened Outcomes

  /** The channel versions looked at, in order: a truthy `latest`, then a truthy `beta` when `useBeta`. */
  function Channels(tags: DistTags, useBeta: bool): (cs: seq<string>)
    ensures forall c :: c in cs ==> c != ""
    ensures |cs| <= 2
  {
    (if Truthy(tags.latest) then [tags.latest.value] else [])
    + (if useBeta && Truthy(tags.beta) then [tags.beta.value] else [])
  }

  /** The first channel version inside the range: the wanted version. */
  function FirstSatisfying(cs: seq<string>, range: string, sv: Comparator): (r: Option<string>)
    ensures r.Some? ==> r.value in cs && sv.satisfies(r.value, range)
    ensures r.None? ==> forall c :: c in cs ==> !sv.satisfies(c, range)
  {
    if cs == [] then None
    else if sv.satisfies(cs[0], range) then Some(cs[0])
    else FirstSatisfying(cs[1..], range, sv)
  }

  /** The last channel version above the whole range: the update outside the range. */
  function LastAbove(cs: seq<string>, range: string, sv: Comparator): (r: Option<string>)
    ensures r.Some? ==> r.value in cs && sv.gtr(r.value, range) == Some(true)
    ensures r.None? ==> forall c :: c in cs ==> sv.gtr(c, range) != Some(true)
  {
    if cs == [] then None
    else
      var later := LastAbove(cs[1..], range, sv);
      if later.Some? then later
      else if sv.gtr(cs[0], range) == Some(true) then Some(cs[0])
      else None
  }

  /** The registry answer for `o` carries dist-tags. */
  predicate Answered(o: Outcome, registry: map<string, RegistryJson>) {
    o.name in registry && registry[o.name].distTags.Some?
  }

  /** No semver.gtr call on a channel of `o` throws. */
  predicate RangeComparable(o: Outcome, registry: map<string, RegistryJson>, useBeta: bool, sv: Comparator)
    requires Answered(o, registry)
  {
    forall c :: c in Channels(registry[o.name].distTags.value, useBeta) ==> sv.gtr(c, o.versionRange).Some?
  }

  /**
   * When no `semver.gtr` call on a channel throws, `npmVersion` and
   * `outdated` are written exactly when some channel satisfies the range and
   * a local version is set; the version written is
   * the first satisfying channel (so `latest` wins a tie with `beta`), and
   * `outdated` is whether it is greater than the local version.
   */
  lemma NpmVersionIsFirstSatisfyingChannel(o: Outcome, registry: map<string, RegistryJson>, useBeta: bool, sv: Comparator)
    requires Answered(o, registry) && RangeComparable(o, registry, useBeta, sv)
    ensures var wanted := FirstSatisfying(Channels(registry[o.name].distTags.value, useBeta), o.versionRange, sv);
            var r := NpmStep(o, registry, useBeta, sv);
            && r.npmVersion == (if wanted.Some? && Truthy(o.localVersion) then wanted else o.npmVersion)
            && r.outdated == (if wanted.Some? && Truthy(o.localVersion) && sv.gt(wanted.value, o.localVersion.value).Some?
                              then sv.gt(wanted.value, o.localVersion.value) else o.outdated)
  {
  }

  /**
   * When no `semver.gtr` call on a channel throws and semver is consistent on
   * the channel versions (none both inside and above the range), `updateVersion` ends as the last channel above the
   * range, so a `beta` above the range overwrites one set from `latest`;
   * `updateAvailable` is set with it, and neither is touched otherwise.
   */
  lemma UpdateVersionIsLastChannelAboveRange(o: Outcome, registry: map<string, RegistryJson>, useBeta: bool, sv: Comparator)
    requires Answered(o, registry) && RangeComparable(o, registry, useBeta, sv)
    requires forall c :: c in Channels(registry[o.name].distTags.value, useBeta) ==>
      !(sv.satisfies(c, o.versionRange) && sv.gtr(c, o.versionRange) == Some(true))
    ensures var above := LastAbove(Channels(registry[o.name].distTags.value, useBeta), o.versionRange, sv);
            var r := NpmStep(o, registry, useBeta, sv);
            && r.updateVersion == (if above.Some? then above else o.updateVersion)
            && r.updateAvailable == (if above.Some? then Some(true) else o.updateAvailable)
  {
    var tags := registry[o.name].distTags.value;
    var cs := Channels(tags, useBeta);
    if |cs| == 2 {
      assert cs == [tags.latest.value, tags.beta.value];
    }
  }

  /**
   * On every input, thrown comparisons included: `npmVersion` and `outdated`
   * change only to the first channel inside the range and its comparison
   * with a set local version, and `updateVersion`/`updateAvailable` change
   * only to a channel above the range, with the flag set.
   */
  lemma NpmStepWritesOnlyPolicyValues(o: Outcome, registry: map<string, RegistryJson>, useBeta: bool, sv: Comparator)
    ensures var r := NpmStep(o, registry, useBeta, sv);
            r.npmVersion != o.npmVersion || r.outdated != o.outdated ==>
              && Answered(o, registry) && Truthy(o.localVersion)
              && r.npmVersion == FirstSatisfying(Channels(registry[o.name].distTags.value, useBeta), o.versionRange, sv)
              && r.npmVersion.Some?
              && (r.outdated == o.outdated || r.outdated == sv.gt(r.npmVersion.value, o.localVersion.value))
    ensures var r := NpmStep(o, registry, useBeta, sv);
            r.updateVersion != o.updateVersion || r.updateAvailable != o.updateAvailable ==>
              && Answered(o, registry)
              && r.updateAvailable == Some(true) && r.updateVersion.Some?
              && r.updateVersion.value in Channels(registry[o.name].distTags.value, useBeta)
              && sv.gtr(r.updateVersion.value, o.versionRange) == Some(true)
  {
    if Answered(o, registry) {
      var tags := registry[o.name].distTags.value;
      var cs := Channels(tags, useBeta);
      if Truthy(tags.latest) {
        assert cs[0] == tags.latest.value;
      }
      if useBeta && Truthy(tags.beta) {
        assert cs[|cs| - 1] == tags.beta.value;
      }
    }
  }

  /**
   * The channel versions are recorded as read: a truthy `latest` goes to
   * `npmVersionLatest`, and a truthy `beta` under `useBeta` goes to
   * `npmVersionBeta` unless the `latest` stage threw (`gtr` on a `latest`
   * outside the range).
   */
  lemma ChannelVersionsRecorded(o: Outcome, registry: map<string, RegistryJson>, useBeta: bool, sv: Comparator)
    requires Answered(o, registry)
    ensures var tags := registry[o.name].distTags.value;
            var r := NpmStep(o, registry, useBeta, sv);
            r.npmVersionLatest == (if Truthy(tags.latest) then tags.latest else o.npmVersionLatest)
    ensures var tags := registry[o.name].distTags.value;
            var r := NpmStep(o, registry, useBeta, sv);
            var latestThrew := Truthy(tags.latest) && !sv.satisfies(tags.latest.value, o.versionRange)
                               && sv.gtr(tags.latest.value, o.versionRange).None?;
            r.npmVersionBeta == (if useBeta && Truthy(tags.beta) && !latestThrew then tags.beta else o.npmVersionBeta)
  {
  }

  /** Without `useBeta` the `beta` tag is ignored entirely: `npmVersionBeta` is untouched and its value changes nothing. */
  lemma BetaIgnoredWithoutUseBeta(o: Outcome, registry: map<string, RegistryJson>, beta: Option<string>, sv: Comparator)
    requires Answered(o, registry)
    ensures NpmStep(o, registry, false, sv).npmVersionBeta == o.npmVersionBeta
    ensures var tags := registry[o.name].distTags.value;
            NpmStep(o, registry[o.name := RegistryJson(Some(tags.(beta := beta)))], false, sv)
            == NpmStep(o, registry, false, sv)
  {
  }

  /** Nothing is compared against a local version that is not set: `npmVersion` and `outdated` stay as they were. */
  lemma NothingComparedWithoutLocalVersion(o: Outcome, registry: map<string, RegistryJson>, useBeta: bool, sv: Comparator)
    requires !Truthy(o.localVersion)
    ensures NpmStep(o, registry, useBeta, sv).npmVersion == o.npmVersion
    ensures NpmStep(o, registry, useBeta, sv).outdated == o.outdated
  {
  }

  /**
   * A dependency without an installed copy keeps `localOutdated` unset and
   * never gets `npmVersion` or `outdated`, whatever the registry says.
   */
  lemma NotInstalledIsNeverCompared(name: string, range: string, installed: map<string, LocalJson>,
                                    registry: map<string, RegistryJson>, useBeta: bool, sv: Comparator)
    requires name !in installed
    ensures var r := NpmStep(LocalStep(Declared(name, range), installed, sv), registry, useBeta, sv);
            r.localOutdated.None? && r.npmVersion.None? && r.outdated.None?
  {
    NothingComparedWithoutLocalVersion(Declared(name, range), registry, useBeta, sv);
  }

  /**
   * `outdated` and `updateAvailable` are not exclusive: a `latest` inside
   * the range and newer than the local copy, with a `beta` above the range,
   * sets both.
   */
  lemma OutdatedAndUpdateCanCoexist(o: Outcome, latest: string, beta: string, sv: Comparator)
    requires Truthy(o.localVersion) && latest != "" && beta != ""
    requires sv.satisfies(latest, o.versionRange)
    requires sv.gtr(beta, o.versionRange) == Some(true)
    requires sv.gt(latest, o.localVersion.value) == Some(true)
    ensures var registry := map[o.name := RegistryJson(Some(DistTags(Some(latest), Some(beta))))];
            var r := NpmStep(o, registry, true, sv);
            r.outdated == Some(true) && r.npmVersion == Some(latest)
            && r.updateAvailable == Some(true) && r.updateVersion == Some(beta)
  {
  }

  /**
   * In strict mode, where assigning `wantedAvailable` to a string throws, a
   * `latest` inside the range and newer than the installed copy is lost: the
   * record keeps only `npmVersionLatest` and is never marked outdated, while
   * with the assignment ignored it is.
   */
  lemma StrictModeLosesWantedVersion(name: string, range: string, local: string, latest: string, sv: Comparator)
    requires local != "" && latest != ""
    requires sv.satisfies(latest, range) && sv.gt(latest, local) == Some(true)
    ensures var o := Declared(name, range).(localVersion := Some(local), localOutdated := Some(false));
            var registry := map[name := RegistryJson(Some(DistTags(Some(latest), None)))];
            && NpmStep(o, registry, false, sv).outdated == Some(true)
            && NpmStep(o, registry, false, sv).npmVersion == Some(latest)
            && NpmStepStrict(o, registry, false, sv) == o.(npmVersionLatest := Some(latest))
  {
  }
}
