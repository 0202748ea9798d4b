# atom-npm-outdated: the dependency check, modelled in Dafny

The Atom package `npm-outdated` watches the `package.json` of every open
project. For each one it lists the declared dependencies, looks up the
installed copy of each under `node_modules`, fetches its `dist-tags` from the
npm registry, and shows one notification that names the dependencies whose
installed copy is outside its range, that have a newer version inside the
range, or that have a version above the range.

This project models that pipeline (`lib/npmHandler.js`) and the bookkeeping
that keeps one handler per project path (`lib/init.js`):

- `wrappers.dfy`, module `Wrappers`: `Option`, standing for a JavaScript
  value that may be `undefined` or `null`.
- `semver.dfy`, module `Semver`: the three `semver` calls as a `Comparator`
  value passed in. Their results are arbitrary, except that `satisfies`
  always answers. `gtr` and `gt` may throw, shown as `None`.
- `outcome.dfy`, module `Outcomes`: the per-dependency record as a value
  (`Outcome`) and pure functions for each stage. `Dependencies` models
  `getDependencies`, `LocalStep`/`CheckLocal` model `checkVersionLocal`, and
  `NpmStep`/`CheckNpm` model `checkVersionNpm`, including its early exits
  when a `semver` call throws inside the promise chain.
- `channel.dfy`, module `ChannelPolicy`: an independent definition of the
  channel policy, with the lemmas that tie `NpmStep` to it. The channels are
  `latest`, then `beta` when `useBeta` is set. The wanted version is the
  first channel inside the range. The update is the last channel above it.
- `notify.dfy`, module `Notifications`: what `notifyResults` reports, as a
  value. It picks at most one message per record, by priority. It joins the
  messages with newlines, with a `SplitLines` inverse, and picks warning or
  info severity.
- `handler.dfy`, module `Handler`: the classes. The fields of
  `HandlerResult` are set in place by `CheckLocal`/`CheckNpm`. Each of those
  methods is proved to do exactly what `LocalStep`/`NpmStep` say. The stage
  methods loop over the record list, and `NotifyResults` is the
  accumulating loop of `notifyResults`. `NpmHandler` has
  `CheckVersion` (the whole pipeline, proved equal to `Check`) and
  `Dispose`.
- `outdated.dfy`, module `Outdated`: the class `NpmOutdated`, its dictionary
  from project path to handler (`null` entries included), `CreateWatcher`,
  `HandleProjectPaths` and `DisposeNpmHandlers`. It also holds a value
  model of `handleProjectPaths` as written, for the second finding below.

Inputs that come from I/O are parameters:
- the parsed project manifest is `Option<PackageJson>`;
- each installed manifest is an entry of `installed: map<string, LocalJson>`.
  A missing name means `toJson` gave a falsy value;
- each registry answer is an entry of `registry: map<string, RegistryJson>`.
  A missing name means a rejected fetch or a falsy body;
- the set of existing files is `existing: set<string>`.

Behaviour worth knowing:
- A dependency that is not installed keeps `localOutdated` unset, so it is
  never reported as needing an update. See
  `ChannelPolicy.NotInstalledIsNeverCompared`.
- `outdated` and `updateAvailable` can both be set on one record. See
  `ChannelPolicy.OutdatedAndUpdateCanCoexist`. The notification's priority
  order then shows only the `outdated` message.
- The registry is asked for every dependency, installed or not.
- Development dependencies are always checked. There is no option to skip
  them, and no debouncing of file events.
- A version above the range sets `updateVersion`/`updateAvailable`, not
  `npmVersion`. `npmVersion` is only ever a version inside the range.

Assumptions:
- `for…of` over the plain object `this.npmHandlers` (lib/init.js:39, :109,
  :118) throws in JavaScript. `DisposeNpmHandlers` reads it as iteration over
  the dictionary's handlers and skips `null` entries.
- `this.prevProjectPaths` is the empty list before the first call. As
  written it is `undefined`; see the findings.
- The assignment `npmVersion.wantedAvailable = true` to a string is treated
  as a no-op, which is what non-strict code does. The strict-mode behaviour
  is modelled as well; see the findings.

## Model

| member | source | states |
|---|---|---|
| Outcomes.Declarations | lib/npmHandler.js:59-64 | one `{name, versionRange}` record per entry of a dependency object, in entry order, nothing else set |
| Outcomes.Dependencies | lib/npmHandler.js:58-74 | the `dependencies` records followed by the `devDependencies` records: length is the sum, no deduplication, development entries always included |
| Outcomes.LocalStep | lib/npmHandler.js:78-85 | with an installed manifest, `localVersion` becomes its version and `localOutdated` becomes "not satisfies"; without one the record is unchanged |
| Outcomes.CheckLocal | lib/npmHandler.js:76-87 | the local check keeps the list's length and order and applies `LocalStep` to every record |
| Outcomes.LatestChannel | lib/npmHandler.js:96-105 | the `latest` channel touches neither the local fields nor `npmVersion`, `outdated` or `npmVersionBeta` |
| Outcomes.BetaChannel | lib/npmHandler.js:106-115 | the `beta` channel touches neither the local fields nor `npmVersion`, `outdated` or `npmVersionLatest` |
| Outcomes.Compare | lib/npmHandler.js:117-120 | the final comparison writes only `npmVersion` and `outdated` |
| Outcomes.NpmStep | lib/npmHandler.js:90-127 | a missing answer, a rejected fetch or an answer without `dist-tags` leaves the record as it was; name, range and local fields are never changed |
| Outcomes.NpmStepStrict | lib/npmHandler.js:96-110 | with the string-property assignments throwing, `npmVersion` and `outdated` are never written |
| Outcomes.CheckNpm | lib/npmHandler.js:89-129 | the registry check keeps the list's length and order and applies `NpmStep` to every record |
| ChannelPolicy.NpmVersionIsFirstSatisfyingChannel | lib/npmHandler.js:96-120 | when no `gtr` call on a channel throws (`RangeComparable`), `npmVersion` is written iff some channel satisfies the range and `localVersion` is set; it is the first satisfying channel (`latest` before `beta`), and `outdated` is `gt(npmVersion, localVersion)` |
| ChannelPolicy.UpdateVersionIsLastChannelAboveRange | lib/npmHandler.js:101-114 | when no `gtr` call on a channel throws (`RangeComparable`) and no channel is both inside and above the range, `updateVersion` is the last channel above the range (a `beta` above it overwrites `latest`), set together with `updateAvailable`, and untouched otherwise |
| ChannelPolicy.NpmStepWritesOnlyPolicyValues | lib/npmHandler.js:96-120 | on every input, thrown comparisons included, `npmVersion`/`outdated` change only to the first channel inside the range and its `gt` against a set local version, and `updateVersion`/`updateAvailable` change only to a channel above the range with the flag true |
| ChannelPolicy.ChannelVersionsRecorded | lib/npmHandler.js:96-107 | a truthy `latest` is recorded in `npmVersionLatest`; a truthy `beta` under `useBeta` is recorded in `npmVersionBeta` unless `gtr` threw on `latest`; otherwise both stay as they were |
| ChannelPolicy.BetaIgnoredWithoutUseBeta | lib/npmHandler.js:106-115 | without `useBeta`, `npmVersionBeta` is untouched and the `beta` tag's value changes nothing |
| ChannelPolicy.NothingComparedWithoutLocalVersion | lib/npmHandler.js:117-120 | without a local version, `npmVersion` and `outdated` are never written |
| ChannelPolicy.NotInstalledIsNeverCompared | lib/npmHandler.js:76-120 | a dependency with no installed manifest ends with `localOutdated`, `npmVersion` and `outdated` all unset |
| ChannelPolicy.OutdatedAndUpdateCanCoexist | lib/npmHandler.js:98-119 | a satisfying, newer `latest` and a `beta` above the range set both `outdated` and `updateAvailable` |
| ChannelPolicy.StrictModeLosesWantedVersion | lib/npmHandler.js:98-100 | with a satisfying, newer `latest`, the no-op reading marks the record outdated, while the strict-mode one keeps only `npmVersionLatest` |
| Notifications.Message | lib/npmHandler.js:140-148 | a record has a message iff one of `localOutdated`, `outdated`, `updateAvailable` is true; the message is never empty |
| Notifications.Messages | lib/npmHandler.js:139-157 | no more messages than records, each non-empty |
| Notifications.MessagesOfRecords | lib/npmHandler.js:139-157 | every record with a message contributes it, and every message comes from some record |
| Notifications.MessagesSnoc | lib/npmHandler.js:139-157 | one more record adds its message, if it has one, after the others: record order, at most one message per record |
| Notifications.NotifySeverity | lib/npmHandler.js:137-169 | nothing is shown iff no record has a message; a shown notification is a warning iff some record has `localOutdated` |
| Notifications.NotifyLines | lib/npmHandler.js:149-156 | the detail text splits at newlines into exactly the records' messages in record order, so there is no leading separator; the title is the package.json path |
| Handler.HandlerResult.constructor | lib/npmHandler.js:60-63 | a new record holds only `name` and `versionRange` |
| Handler.HandlerResult.CheckLocal | lib/npmHandler.js:79-84 | updates the record in place exactly as `LocalStep` says |
| Handler.HandlerResult.CheckNpm | lib/npmHandler.js:91-127 | updates the record in place exactly as `NpmStep` says, stopping where a semver call throws |
| Handler.NewRecords | lib/npmHandler.js:59-72 | new, distinct records whose values are `Declarations` of the entries |
| Handler.GetDependencies | lib/npmHandler.js:58-74 | new, distinct records whose values are `Dependencies` of the manifest |
| Handler.CheckVersionLocal | lib/npmHandler.js:76-87 | the records' values become `CheckLocal` of their old values |
| Handler.CheckVersionNpm | lib/npmHandler.js:89-129 | the records' values become `CheckNpm` of their old values |
| Handler.RecordMessage | lib/npmHandler.js:140-148 | one record's message is `Message` of its value, and it asks for a warning iff its `localOutdated` is true |
| Handler.NotifyResults | lib/npmHandler.js:136-170 | the accumulated text and warning flag give exactly `Notify` of the records |
| Handler.DevDependencyOutOfRangeIsReported | lib/npmHandler.js:65-72 | a development dependency installed outside its range always produces a warning |
| Handler.OptionsOrEmpty | lib/npmHandler.js:11 | undefined options read as options without `useBeta` |
| Handler.NpmHandler.constructor | lib/npmHandler.js:10-18 | the handler keeps its path and options and has an open watcher that has never been closed |
| Handler.NpmHandler.CheckVersion | lib/npmHandler.js:20-55 | the whole pipeline returns `Check`: nothing for a null manifest, otherwise `Notify` of the three stages |
| Handler.NpmHandler.Dispose | lib/npmHandler.js:172-177 | the watcher is gone afterwards, and `close` was called once if there was one, never otherwise |
| Handler.DisposeIsIdempotent | lib/npmHandler.js:172-177 | two `dispose` calls close the watcher at most once |
| Outdated.Pull | lib/init.js:77 | removes every occurrence of the value and nothing else |
| Outdated.NpmOutdated.constructor | lib/init.js:18-29 | an empty dictionary and an empty previous-path list |
| Outdated.NpmOutdated.CreateWatcher | lib/init.js:96-103 | a new handler for `<path>/package.json` iff that file exists, null otherwise |
| Outdated.NpmOutdated.AttachNewPaths | lib/init.js:73-78 | every path gets an entry; live handlers are kept, others replaced by `createWatcher`'s result; those paths leave the previous list |
| Outdated.NpmOutdated.DisposeStalePaths | lib/init.js:80-86 | exactly the listed paths with a live handler are disposed and deleted |
| Outdated.NpmOutdated.HandleProjectPaths | lib/init.js:72-89 | current paths hold their old live handler or a new one (null entries retried); exactly the dropped previous paths with a live handler are disposed and deleted; every other handler is untouched; `prevProjectPaths` is the new list |
| Outdated.NpmOutdated.DisposeNpmHandlers | lib/init.js:117-122 | every handler is disposed once and the dictionary is emptied |
| Outdated.AttachAsWritten | lib/init.js:73-78 | as written, the first loop keeps every live entry and gives every path an entry |
| Outdated.PullAll | lib/init.js:77 | removes exactly the values of the current list |
| Outdated.DeleteAsWritten | lib/init.js:80-86 | as written, the second loop deletes exactly the listed live entries |
| Outdated.HandleProjectPathsAsWritten | lib/init.js:72-89 | as written, an undefined previous list stays undefined |
| Outdated.AsWrittenNeverDisposes | lib/init.js:77-88 | as written, from an undefined previous list, no series of calls ever deletes a live handler |
| Outdated.AsWrittenDisposesOnceListDefined | lib/init.js:77-86 | as written, once the previous list is defined, a listed path that is no longer open loses its handler |
| Outdated.AsWrittenKeepsClosedProject | lib/init.js:72-89 | as written, opening then closing a project leaves its handler live |
| Outdated.ClosedProjectIsDisposed | lib/init.js:72-89 | with the previous list starting empty, the same two calls dispose the handler once and delete its entry |

## Left out

- File I/O: `fs.watch`, `fs.existsSync`, `fs.readFile` and `JSON.parse`. Their results are inputs.
- The network fetch to the npm registry (lib/npmHandler.js:131-134). Its result is an input.
- What `semver.satisfies`, `gtr` and `gt` compute. They come from a library whose code is not part of this model.
- Promise scheduling and `Promise.all`. The stages run as sequential loops over the records. The records are distinct, so the order of the callbacks does not matter.
- The `check()` that the handler constructor and `fs.watch` trigger. `NpmHandler.CheckVersion` models one run of it.
- The Atom APIs: `atom.notifications`, `atom.config.observe`, `atom.commands`, `atom.project` and `CompositeDisposable` (lib/init.js:33-66, 124-130). These cover `activate`, `deactivate`, `checkNpmHandlers` and the settings observer. The notification call is the return value of `NotifyResults`.
- `updateSettings` (lib/init.js:40). It is never defined on the handler.
- Path normalisation by `path.join`, and `npmFolder`. Paths are joined with `"/"`, and installed manifests are looked up by dependency name.
- Aliasing of the caller's project-path array. `lodash.pull` removes the still-open paths, in place, from the array passed in by the previous call, leaving only the dropped paths in it. The model keeps its own copy of the list.
- JSON values of unexpected types, for example a numeric `version` or a non-string range. Versions and ranges are strings.
- Semver.Comparator: `satisfies` always answers. If a `semver` release threw on an unparseable version at lib/npmHandler.js:82, the `Promise.all` at :77 would reject and nothing would be reported for the whole manifest; the model does not capture that.
- Installed manifests and registry answers are keyed by dependency name. A dependency declared in both `dependencies` and `devDependencies` gets the same answer for both records, while the code reads and fetches once per record and one fetch may fail while the other succeeds.
- ChannelPolicy.NpmVersionIsFirstSatisfyingChannel: the "iff" is proved only when no `gtr` call on a channel throws (`RangeComparable`). When `gtr` throws on `latest`, the catch at lib/npmHandler.js:124 returns the record before a satisfying `beta` is looked at. When `latest` satisfies and, under `useBeta`, `gtr` throws on `beta`, the catch returns before :117-120, and the wanted `latest` is never written to `npmVersion`. For those inputs `ChannelPolicy.NpmStepWritesOnlyPolicyValues` states only the "written only when" direction.
- ChannelPolicy.UpdateVersionIsLastChannelAboveRange: it is proved only under `RangeComparable`, and only when no channel is both inside and above the range. When `gtr` throws on `latest`, a `beta` above the range is never recorded. For all inputs `ChannelPolicy.NpmStepWritesOnlyPolicyValues` states only that a changed `updateVersion` is a channel above the range.
- Outdated.NpmOutdated.DisposeNpmHandlers: it skips `null` entries, where the assumed iteration over values would throw on `null.dispose()`.

## Findings

| source | as written | input that shows it | evidently intended | confidence | as-written member | corrected member |
|---|---|---|---|---|---|---|
| lib/npmHandler.js:98-110 | `npmVersion.wantedAvailable = true` assigns a property to a primitive string; in strict mode this throws, the catch at :124 returns the record, and `npmVersion`/`outdated` are never written | installed 4.0.0, range `^4.0.0`, `latest` 4.1.0: the record keeps only `npmVersionLatest` and nothing is reported | a no-op marker: the wanted version is compared against the installed one | not executed; holds only if the transpiled module runs in strict mode | Outcomes.NpmStepStrict with ChannelPolicy.StrictModeLosesWantedVersion | Outcomes.NpmStep with ChannelPolicy.NpmVersionIsFirstSatisfyingChannel |
| lib/init.js:77-88 | `this.prevProjectPaths` is `undefined` at the first call; `for…of` over it throws after the first loop, so the assignment at :88 never runs and it stays `undefined`. As written, `activate()` fails earlier still: `atom.config.observe` runs its callback at once, and the `for…of` over the plain object at :39 throws, so :45 is never reached. Only under the iteration-over-values reading of :39 does the first call at :45 run; its TypeError then also stops the path subscription at :46 and the commands at :48-65 from being registered | open project `/a` with a package.json, then close it: its handler is never disposed | the previous list starts empty, and dropped projects have their handlers disposed and deleted | not executed | Outdated.HandleProjectPathsAsWritten with Outdated.AsWrittenNeverDisposes and Outdated.AsWrittenKeepsClosedProject | Outdated.NpmOutdated.HandleProjectPaths with Outdated.ClosedProjectIsDisposed |
