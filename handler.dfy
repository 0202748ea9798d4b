/**
 * lib/npmHandler.js: one handler per watched package.json. The records are
 * objects whose fields the stages set in place; each method is proved against
 * the pure stage function of module Outcomes that says what it does.
 */
module Handler {
  import opened Wrappers
  import opened Semver
  import opened Outcomes
  import opened Notifications

  /** The handler's options; only `useBeta` is read. */
  datatype Options = Options(useBeta: bool)

  /** `options || {}`: undefined settings read as an empty object, whose `useBeta` is falsy. */
  function OptionsOrEmpty(options: Option<Options>): (r: Options)
    ensures options.None? ==> !r.useBeta
  {
    if options.Some? then options.value else Options(false)
  }

  /** One `handlerResult` object, mutated by the stages. */
  class HandlerResult {
    const name: string
    const versionRange: string
    var localVersion: Option<string>
    var localOutdated: Option<bool>
    var npmVersionLatest: Option<string>
    var npmVersionBeta: Option<string>
    var npmVersion: Option<string>
    var outdated: Option<bool>
    var updateVersion: Option<string>
    var updateAvailable: Option<bool>

    /** The record's fields as a value. */
    function View(): Outcome
      reads this
    {
      Outcome(name, versionRange, localVersion, localOutdated, npmVersionLatest, npmVersionBeta,
              npmVersion, outdated, updateVersion, updateAvailable)
    }

    /** The object literal `{name, versionRange}`. */
    constructor (name: string, versionRange: string)
      ensures View() == Declared(name, versionRange)
    {
      this.name := name;
      this.versionRange := versionRange;
      localVersion, localOutdated := None, None;
      npmVersionLatest, npmVersionBeta, npmVersion := None, None, None;
      outdated, updateVersion, updateAvailable := None, None, None;
    }

    /** checkVersionLocal's callback for this record; `installed` holds the truthy `toJson` results by name. */
    method CheckLocal(installed: map<string, LocalJson>, sv: Comparator)
      modifies this
      ensures View() == LocalStep(old(View()), installed, sv)
    {
      if name in installed {
        var localJson := installed[name];
        localVersion := localJson.version;
        localOutdated := Some(!SatisfiesLocal(sv, localJson.version, versionRange));
      }
    }

    /**
     * checkVersionNpm's callback for this record. A semver call that throws
     * ends it early: the catch handler returns the record as it stands.
     */
    method CheckNpm(registry: map<string, RegistryJson>, useBeta: bool, sv: Comparator)
      modifies this
      ensures View() == NpmStep(old(View()), registry, useBeta, sv)
    {
      if name !in registry || registry[name].distTags.None? {
        return;
      }
      var distTags := registry[name].distTags.value;
      var wanted: Option<string> := None;
      if Truthy(distTags.latest) {
        npmVersionLatest := distTags.latest;
        if sv.satisfies(npmVersionLatest.value, versionRange) {
          wanted := npmVersionLatest;
          // `wanted.wantedAvailable = true` sets a property on a string: no effect
        } else {
          var above := sv.gtr(npmVersionLatest.value, versionRange);
          if above.None? {
            return;
          }
          if above.value {
            updateVersion := npmVersionLatest;
            updateAvailable := Some(true);
          }
        }
      }
      if useBeta && Truthy(distTags.beta) {
        npmVersionBeta := distTags.beta;
        if !Truthy(wanted) && sv.satisfies(npmVersionBeta.value, versionRange) {
          wanted := npmVersionBeta;
        } else {
          var above := sv.gtr(npmVersionBeta.value, versionRange);
          if above.None? {
            return;
          }
          if above.value {
            updateVersion := npmVersionBeta;
            updateAvailable := Some(true);
          }
        }
      }
      if Truthy(wanted) && Truthy(localVersion) {
        npmVersion := wanted;
        var newer := sv.gt(wanted.value, localVersion.value);
        if newer.None? {
          return;
        }
        outdated := newer;
      }
    }
  }

  /** No record occurs twice in the list. */
  predicate Distinct(rs: seq<HandlerResult>) {
    forall i, j :: 0 <= i < j < |rs| ==> rs[i] != rs[j]
  }

  /** The records' current values, in order. */
  function Views(rs: seq<HandlerResult>): (os: seq<Outcome>)
    reads rs
    ensures |os| == |rs|
    ensures forall i :: 0 <= i < |rs| ==> os[i] == rs[i].View()
  {
    if rs == [] then [] else [rs[0].View()] + Views(rs[1..])
  }

  /** One new record per entry, in entry order (the `lodash.map` calls of getDependencies). */
  method NewRecords(entries: seq<(string, string)>) returns (rs: seq<HandlerResult>)
    ensures Distinct(rs) && forall i :: 0 <= i < |rs| ==> fresh(rs[i])
    ensures Views(rs) == Declarations(entries)
  {
    rs := [];
    for k := 0 to |entries|
      invariant |rs| == k && Distinct(rs)
      invariant forall i :: 0 <= i < k ==> fresh(rs[i])
      invariant forall i :: 0 <= i < k ==> rs[i].View() == Declared(entries[i].0, entries[i].1)
    {
      var r := new HandlerResult(entries[k].0, entries[k].1);
      rs := rs + [r];
    }
  }

  /** getDependencies: new records for `dependencies`, then for `devDependencies`. */
  method GetDependencies(packageJson: PackageJson) returns (results: seq<HandlerResult>)
    ensures Distinct(results) && forall i :: 0 <= i < |results| ==> fresh(results[i])
    ensures Views(results) == Dependencies(packageJson)
  {
    var deps := NewRecords(packageJson.dependencies);
    var devDeps := NewRecords(packageJson.devDependencies);
    results := deps + devDeps;
    ViewsConcat(deps, devDeps);
  }

  /** The values of two record lists put together. */
  lemma ViewsConcat(a: seq<HandlerResult>, b: seq<HandlerResult>)
    ensures Views(a + b) == Views(a) + Views(b)
  {
  }

  /** checkVersionLocal: each record updated in place, in order. */
  method CheckVersionLocal(results: seq<HandlerResult>, installed: map<string, LocalJson>, sv: Comparator)
    requires Distinct(results)
    modifies results
    ensures Views(results) == CheckLocal(old(Views(results)), installed, sv)
  {
    for k := 0 to |results|
      invariant forall i :: 0 <= i < k ==> results[i].View() == LocalStep(old(results[i].View()), installed, sv)
      invariant forall i :: k <= i < |results| ==> results[i].View() == old(results[i].View())
    {
      results[k].CheckLocal(installed, sv);
    }
  }

  /** checkVersionNpm: each record updated in place, in order. */
  method CheckVersionNpm(results: seq<HandlerResult>, registry: map<string, RegistryJson>, useBeta: bool, sv: Comparator)
    requires Distinct(results)
    modifies results
    ensures Views(results) == CheckNpm(old(Views(results)), registry, useBeta, sv)
  {
    for k := 0 to |results|
      invariant forall i :: 0 <= i < k ==> results[i].View() == NpmStep(old(results[i].View()), registry, useBeta, sv)
      invariant forall i :: k <= i < |results| ==> results[i].View() == old(results[i].View())
    {
      results[k].CheckNpm(registry, useBeta, sv);
    }
  }

  /**
   * The body of notifyResults' loop for one record: its message by priority,
   * and whether it turns the notification into a warning.
   */
  method RecordMessage(r: HandlerResult) returns (message: Option<string>, warn: bool)
    ensures message == Message(r.View())
    ensures warn <==> IsTrue(r.View().localOutdated)
  {
    message := None;
    warn := false;
    if IsTrue(r.localOutdated) {
      warn := true;
      message := Some(r.name + " needs update");
    } else if IsTrue(r.outdated) {
      message := Some(r.name + " outdated: " + Interpolate(r.localVersion) + " => " + Interpolate(r.npmVersion));
    } else if IsTrue(r.updateAvailable) {
      message := Some(r.name + " updated: " + Interpolate(r.localVersion) + " => " + Interpolate(r.updateVersion));
    }
  }

  /**
   * notifyResults: the loop that accumulates the message text and the
   * warning flag; the Atom call it ends with is the returned notification.
   */
  method NotifyResults(packagePath: string, results: seq<HandlerResult>) returns (n: Option<Notification>)
    ensures n == Notify(packagePath, Views(results))
  {
    ghost var os := Views(results);
    var notificationMessage := "";
    var useWarning := false;
    for i := 0 to |results|
      invariant notificationMessage == JoinLines(Messages(os[..i]))
      invariant useWarning == AnyLocalOutdated(os[..i])
    {
      var message, warn := RecordMessage(results[i]);
      if warn {
        useWarning := true;
      }
      AppendMessage(os[..i], os[i]);
      assert os[..i + 1] == os[..i] + [os[i]];
      if message.Some? {
        if notificationMessage != "" {
          notificationMessage := notificationMessage + "\n" + message.value;
        } else {
          notificationMessage := message.value;
        }
      }
    }
    assert os[..|results|] == os;
    JoinLinesEmpty(Messages(os));
    if notificationMessage != "" {
      n := Some(Notification(if useWarning then Warning else Info, packagePath, notificationMessage));
    } else {
      n := None;
    }
  }

  /**
   * check() once the manifest has been read: None when `toJson` gave null,
   * where `packageJson.dependencies` throws inside the promise and nothing
   * is reported.
   */
  function Check(packagePath: string, packageJson: Option<PackageJson>, installed: map<string, LocalJson>,
                 registry: map<string, RegistryJson>, useBeta: bool, sv: Comparator): Option<Notification>
  {
    match packageJson
    case None => None
    case Some(pkg) => Notify(packagePath, CheckNpm(CheckLocal(Dependencies(pkg), installed, sv), registry, useBeta, sv))
  }

  /**
   * A development dependency whose installed copy is outside its range is
   * reported, as a warning, whatever the options.
   */
  lemma DevDependencyOutOfRangeIsReported(packagePath: string, pkg: PackageJson, j: int, installed: map<string, LocalJson>,
                                          registry: map<string, RegistryJson>, useBeta: bool, sv: Comparator)
    requires 0 <= j < |pkg.devDependencies|
    requires pkg.devDependencies[j].0 in installed
    requires !SatisfiesLocal(sv, installed[pkg.devDependencies[j].0].version, pkg.devDependencies[j].1)
    ensures var n := Check(packagePath, Some(pkg), installed, registry, useBeta, sv);
            n.Some? && n.value.severity == Warning
  {
    var ds := Dependencies(pkg);
    var ls := CheckLocal(ds, installed, sv);
    var os := CheckNpm(ls, registry, useBeta, sv);
    var i := |pkg.dependencies| + j;
    assert ds[i] == Declared(pkg.devDependencies[j].0, pkg.devDependencies[j].1);
    assert ls[i] == LocalStep(ds[i], installed, sv);
    assert ls[i].localOutdated == Some(true);
    assert os[i] == NpmStep(ls[i], registry, useBeta, sv);
    assert IsTrue(os[i].localOutdated);
    assert AnyLocalOutdated(os);
    NotifySeverity(packagePath, os);
  }

  /** The handler for one package.json. */
  class NpmHandler {
    const packagePath: string
    const options: Options
    /** `this.watcher !== null`: the fs.watch subscription is open. */
    var watching: bool
    /** How often `this.watcher.close()` has been called. */
    ghost var closeCalls: nat

    /** `options || {}`, then fs.watch; the initial check() is the CheckVersion method. */
    constructor (packagePath: string, options: Option<Options>)
      ensures this.packagePath == packagePath
      ensures this.options == OptionsOrEmpty(options)
      ensures watching && closeCalls == 0
    {
      this.packagePath := packagePath;
      this.options := OptionsOrEmpty(options);
      watching := true;
      closeCalls := 0;
    }

    /** checkVersion: the three stages over fresh records, then the notification. */
    method CheckVersion(packageJson: Option<PackageJson>, installed: map<string, LocalJson>,
                        registry: map<string, RegistryJson>, sv: Comparator) returns (n: Option<Notification>)
      ensures n == Check(packagePath, packageJson, installed, registry, options.useBeta, sv)
    {
      if packageJson.None? {
        return None;
      }
      var results := GetDependencies(packageJson.value);
      CheckVersionLocal(results, installed, sv);
      CheckVersionNpm(results, registry, options.useBeta, sv);
      n := NotifyResults(packagePath, results);
    }

    /** dispose: close the watcher if there is one, then drop it. */
    method Dispose()
      modifies this
      ensures !watching
      ensures closeCalls == old(closeCalls) + (if old(watching) then 1 else 0)
    {
      if watching {
        closeCalls := closeCalls + 1;
      }
      watching := false;
    }
  }

  /** Disposing twice closes the watcher at most once. */
  method DisposeIsIdempotent(h: NpmHandler)
    modifies h
    ensures !h.watching
    ensures h.closeCalls == old(h.closeCalls) + (if old(h.watching) then 1 else 0)
  {
    h.Dispose();
    h.Dispose();
  }
}
