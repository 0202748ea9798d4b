/**
 * The per-dependency record that lib/npmHandler.js builds up stage by stage,
 * seen as a value, and the pure stage functions that say what each stage does
 * to it. The class HandlerResult in module Handler updates the same fields in
 * place and is proved against these functions.
 */
module Outcomes {
  import opened Wrappers
  import opened Semver

  /** JavaScript truthiness of a string that may be undefined. */
  predicate Truthy(s: Option<string>) {
    s.Some? && s.value != ""
  }

  /** JavaScript truthiness of a boolean that may be undefined. */
  predicate IsTrue(b: Option<bool>) {
    b == Some(true)
  }

  /** One `handlerResult` object; None is a property that was never assigned. */
  datatype Outcome = Outcome(
    name: string,
    versionRange: string,
    localVersion: Option<string>,
    localOutdated: Option<bool>,
    npmVersionLatest: Option<string>,
    npmVersionBeta: Option<string>,
    npmVersion: Option<string>,
    outdated: Option<bool>,
    updateVersion: Option<string>,
    updateAvailable: Option<bool>)

  /** The object literal `{name, versionRange}` that extraction creates. */
  function Declared(name: string, versionRange: string): (o: Outcome)
    ensures o.name == name && o.versionRange == versionRange
    ensures o.localVersion.None? && o.localOutdated.None?
    ensures o.npmVersion.None? && o.outdated.None? && o.updateAvailable.None?
  {
    Outcome(name, versionRange, None, None, None, None, None, None, None, None)
  }

  /**
   * The parsed project manifest: each dependency object as its (name, range)
   * entries in key order; an absent object is an empty sequence.
   */
  datatype PackageJson = PackageJson(
    dependencies: seq<(string, string)>,
    devDependencies: seq<(string, string)>)

  /** One record per entry of one dependency object, in entry order. */
  function Declarations(entries: seq<(string, string)>): (r: seq<Outcome>)
    ensures |r| == |entries|
    ensures forall i :: 0 <= i < |entries| ==> r[i] == Declared(entries[i].0, entries[i].1)
  {
    if entries == [] then []
    else [Declared(entries[0].0, entries[0].1)] + Declarations(entries[1..])
  }

  /**
   * getDependencies: the `dependencies` records followed by the
   * `devDependencies` records, with no deduplication and no option that
   * drops the development dependencies.
   */
  function Dependencies(pkg: PackageJson): (r: seq<Outcome>)
    ensures |r| == |pkg.dependencies| + |pkg.devDependencies|
    ensures forall i :: 0 <= i < |pkg.dependencies| ==>
      r[i] == Declared(pkg.dependencies[i].0, pkg.dependencies[i].1)
    ensures forall j :: 0 <= j < |pkg.devDependencies| ==>
      r[|pkg.dependencies| + j] == Declared(pkg.devDependencies[j].0, pkg.devDependencies[j].1)
  {
    Declarations(pkg.dependencies) + Declarations(pkg.devDependencies)
  }

  /** The installed `node_modules/<name>/package.json`; `version` may be missing. */
  datatype LocalJson = LocalJson(version: Option<string>)

  /** semver.satisfies on a version that may be undefined (undefined never satisfies). */
  predicate SatisfiesLocal(sv: Comparator, version: Option<string>, range: string) {
    version.Some? && sv.satisfies(version.value, range)
  }

  /**
   * checkVersionLocal for one record. `installed` holds the truthy results of
   * reading and parsing the dependency's own manifest; a name that is absent
   * stands for a missing file, a read error, empty content or bad JSON.
   */
  function LocalStep(o: Outcome, installed: map<string, LocalJson>, sv: Comparator): (r: Outcome)
    ensures o.name !in installed ==> r == o
    ensures o.name in installed ==>
      && r.localVersion == installed[o.name].version
      && r.localOutdated == Some(!SatisfiesLocal(sv, installed[o.name].version, o.versionRange))
      && r == o.(localVersion := r.localVersion, localOutdated := r.localOutdated)
  {
    if o.name in installed then
      var version := installed[o.name].version;
      o.(localVersion := version, localOutdated := Some(!SatisfiesLocal(sv, version, o.versionRange)))
    else
      o
  }

  /** checkVersionLocal over the whole list: same length, same order. */
  function CheckLocal(os: seq<Outcome>, installed: map<string, LocalJson>, sv: Comparator): (r: seq<Outcome>)
    ensures |r| == |os|
    ensures forall i :: 0 <= i < |os| ==> r[i] == LocalStep(os[i], installed, sv)
  {
    if os == [] then []
    else [LocalStep(os[0], installed, sv)] + CheckLocal(os[1..], installed, sv)
  }

  /** The `dist-tags` object of a registry answer. */
  datatype DistTags = DistTags(latest: Option<string>, beta: Option<string>)

  /** A registry answer; `distTags` is None when it has no `dist-tags`. */
  datatype RegistryJson = RegistryJson(distTags: Option<DistTags>)

  /**
   * Where checkVersionNpm stands after a statement: still running with the
   * record and the local `npmVersion` candidate, or thrown, in which case the
   * catch handler returns the record as it was at the throw.
   */
  datatype Progress =
    | Running(o: Outcome, candidate: Option<string>)
    | Thrown(o: Outcome)

  /**
   * The `latest` channel. `strict` says whether `npmVersion.wantedAvailable =
   * true` (a property assignment to a string) throws, as it does in strict
   * mode, or is silently ignored.
   */
  function LatestChannel(o: Outcome, latest: Option<string>, sv: Comparator, strict: bool): (p: Progress)
    ensures p.o.name == o.name && p.o.versionRange == o.versionRange
    ensures p.o.localVersion == o.localVersion && p.o.localOutdated == o.localOutdated
    ensures p.o.npmVersion == o.npmVersion && p.o.outdated == o.outdated
    ensures p.o.npmVersionBeta == o.npmVersionBeta
  {
    if !Truthy(latest) then Running(o, None)
    else
      var o1 := o.(npmVersionLatest := latest);
      if sv.satisfies(latest.value, o.versionRange) then
        if strict then Thrown(o1) else Running(o1, latest)
      else
        match sv.gtr(latest.value, o.versionRange)
        case None => Thrown(o1)
        case Some(above) =>
          if above then Running(o1.(updateVersion := latest, updateAvailable := Some(true)), None)
          else Running(o1, None)
  }

  /** The `beta` channel; `beta` is None when `options.useBeta` is falsy. */
  function BetaChannel(p: Progress, beta: Option<string>, sv: Comparator, strict: bool): (q: Progress)
    ensures q.o.name == p.o.name && q.o.versionRange == p.o.versionRange
    ensures q.o.localVersion == p.o.localVersion && q.o.localOutdated == p.o.localOutdated
    ensures q.o.npmVersion == p.o.npmVersion && q.o.outdated == p.o.outdated
    ensures q.o.npmVersionLatest == p.o.npmVersionLatest
  {
    match p
    case Thrown(_) => p
    case Running(o, candidate) =>
      if !Truthy(beta) then p
      else
        var o1 := o.(npmVersionBeta := beta);
        if !Truthy(candidate) && sv.satisfies(beta.value, o.versionRange) then
          if strict then Thrown(o1) else Running(o1, beta)
        else
          match sv.gtr(beta.value, o.versionRange)
          case None => Thrown(o1)
          case Some(above) =>
            if above then Running(o1.(updateVersion := beta, updateAvailable := Some(true)), candidate)
            else Running(o1, candidate)
  }

  /** The final comparison against the installed version. */
  function Compare(p: Progress, sv: Comparator): (r: Outcome)
    ensures r.name == p.o.name && r.versionRange == p.o.versionRange
    ensures r.localVersion == p.o.localVersion && r.localOutdated == p.o.localOutdated
    ensures r.npmVersionLatest == p.o.npmVersionLatest && r.npmVersionBeta == p.o.npmVersionBeta
    ensures r.updateVersion == p.o.updateVersion && r.updateAvailable == p.o.updateAvailable
  {
    match p
    case Thrown(o) => o
    case Running(o, candidate) =>
      if Truthy(candidate) && Truthy(o.localVersion) then
        var o1 := o.(npmVersion := candidate);
        match sv.gt(candidate.value, o.localVersion.value)
        case None => o1
        case Some(newer) => o1.(outdated := Some(newer))
      else o
  }

  /** checkVersionNpm for one record, with the string-property assignment's behaviour as a parameter. */
  function NpmStepIn(o: Outcome, registry: map<string, RegistryJson>, useBeta: bool, sv: Comparator, strict: bool): (r: Outcome)
    ensures r.name == o.name && r.versionRange == o.versionRange
    ensures r.localVersion == o.localVersion && r.localOutdated == o.localOutdated
  {
    if o.name !in registry || registry[o.name].distTags.None? then o
    else
      var tags := registry[o.name].distTags.value;
      var afterLatest := LatestChannel(o, tags.latest, sv, strict);
      var afterBeta := BetaChannel(afterLatest, if useBeta then tags.beta else None, sv, strict);
      Compare(afterBeta, sv)
  }

  /**
   * checkVersionNpm for one record, the assignments of `wantedAvailable` to a
   * string being no-ops. `registry` holds the answers that were fetched and
   * parsed; a name that is absent stands for a rejected fetch or a falsy body.
   * A missing answer or one without `dist-tags` leaves the record as it was.
   */
  function NpmStep(o: Outcome, registry: map<string, RegistryJson>, useBeta: bool, sv: Comparator): (r: Outcome)
    ensures o.name !in registry || registry[o.name].distTags.None? ==> r == o
    ensures r.name == o.name && r.versionRange == o.versionRange
    ensures r.localVersion == o.localVersion && r.localOutdated == o.localOutdated
  {
    NpmStepIn(o, registry, useBeta, sv, false)
  }

  /** checkVersionNpm for one record as written, in strict mode, where those assignments throw. */
  function NpmStepStrict(o: Outcome, registry: map<string, RegistryJson>, useBeta: bool, sv: Comparator): (r: Outcome)
    ensures r.npmVersion == o.npmVersion && r.outdated == o.outdated
  {
    NpmStepIn(o, registry, useBeta, sv, true)
  }

  /** checkVersionNpm over the whole list: same length, same order. */
  function CheckNpm(os: seq<Outcome>, registry: map<string, RegistryJson>, useBeta: bool, sv: Comparator): (r: seq<Outcome>)
    ensures |r| == |os|
    ensures forall i :: 0 <= i < |os| ==> r[i] == NpmStep(os[i], registry, useBeta, sv)
  {
    if os == [] then []
    else [NpmStep(os[0], registry, useBeta, sv)] + CheckNpm(os[1..], registry, useBeta, sv)
  }
}
