/**
 * lib/init.js: the package object that keeps one NpmHandler per open project
 * path, in the dictionary `npmHandlers`. Whether `<path>/package.json` exists
 * is an input (`existing`, a set of file paths).
 */
module Outdated {
  import opened Wrappers
  import opened Handler

  /** path.join(projectPath, 'package.json'), without path normalisation. */
  function PackageJsonPath(projectPath: string): string {
    projectPath + "/package.json"
  }

  /** The entry for `p` holds a handler (a truthy value). */
  predicate Live(m: map<string, NpmHandler?>, p: string) {
    p in m && m[p] != null
  }

  /** `p` was a project path, is one no longer, and still has a handler. */
  predicate Dropped(m: map<string, NpmHandler?>, prev: seq<string>, projectPaths: seq<string>, p: string) {
    p in prev && p !in projectPaths && Live(m, p)
  }

  /** No handler is stored under two paths. */
  ghost predicate Injective(m: map<string, NpmHandler?>) {
    forall p, q :: Live(m, p) && Live(m, q) && p != q ==> m[p] != m[q]
  }

  /** lodash.pull on one value: every occurrence removed, every other value kept. */
  function Pull(s: seq<string>, x: string): (r: seq<string>)
    ensures forall y :: y in r <==> y in s && y != x
  {
    if s == [] then []
    else (if s[0] == x then [] else [s[0]]) + Pull(s[1..], x)
  }

  /** `h` is what createWatcher returns for `projectPath`. */
  ghost predicate Created(h: NpmHandler?, projectPath: string, existing: set<string>, settings: Option<Options>)
    reads h
  {
    && (h != null <==> PackageJsonPath(projectPath) in existing)
    && (h != null ==>
          && h.packagePath == PackageJsonPath(projectPath)
          && h.options == OptionsOrEmpty(settings)
          && h.watching && h.closeCalls == 0)
  }

  class NpmOutdated {
    var npmHandlers: map<string, NpmHandler?>
    /** The project paths of the previous call; the empty list before the first. */
    var prevProjectPaths: seq<string>
    /** The `npm-outdated` settings; None until the configuration is observed. */
    var settings: Option<Options>

    /** The handlers in the dictionary. */
    function Handlers(): set<NpmHandler>
      reads this
    {
      set h: NpmHandler | h in npmHandlers.Values
    }

    ghost predicate Valid()
      reads this
    {
      Injective(npmHandlers)
    }

    constructor ()
      ensures Valid()
      ensures npmHandlers == map[] && prevProjectPaths == [] && settings.None?
    {
      npmHandlers := map[];
      prevProjectPaths := [];
      settings := None;
    }

    /** createWatcher: a new handler when `<projectPath>/package.json` exists, null otherwise. */
    method CreateWatcher(projectPath: string, existing: set<string>) returns (h: NpmHandler?)
      ensures Created(h, projectPath, existing, settings)
      ensures h != null ==> fresh(h)
    {
      var packagePath := PackageJsonPath(projectPath);
      if packagePath in existing {
        h := new NpmHandler(packagePath, settings);
      } else {
        h := null;
      }
    }

    /**
     * handleProjectPaths: every path of `projectPaths` without a handler gets
     * createWatcher's result (a null result is kept and retried next time);
     * every previous path that is gone and has a handler has it disposed and
     * deleted; nothing else changes.
     */
    method HandleProjectPaths(projectPaths: seq<string>, existing: set<string>)
      requires Valid()
      modifies this, Handlers()
      ensures Valid()
      ensures prevProjectPaths == projectPaths && settings == old(settings)
      ensures forall p :: p in projectPaths ==> p in npmHandlers
      ensures forall p :: p in projectPaths && Live(old(npmHandlers), p) ==> npmHandlers[p] == old(npmHandlers)[p]
      ensures forall p :: p in projectPaths && !Live(old(npmHandlers), p) ==>
        Created(npmHandlers[p], p, existing, settings) && (npmHandlers[p] != null ==> fresh(npmHandlers[p]))
      ensures forall p :: p !in projectPaths ==>
        (p in npmHandlers <==> p in old(npmHandlers) && !Dropped(old(npmHandlers), old(prevProjectPaths), projectPaths, p))
      ensures forall p :: p !in projectPaths && p in npmHandlers ==> npmHandlers[p] == old(npmHandlers)[p]
      ensures forall p :: Dropped(old(npmHandlers), old(prevProjectPaths), projectPaths, p) ==>
        && !old(npmHandlers)[p].watching
        && old(npmHandlers)[p].closeCalls == old(npmHandlers[p].closeCalls) + (if old(npmHandlers[p].watching) then 1 else 0)
      ensures forall p :: Live(old(npmHandlers), p) && !Dropped(old(npmHandlers), old(prevProjectPaths), projectPaths, p) ==>
        && old(npmHandlers)[p].watching == old(npmHandlers[p].watching)
        && old(npmHandlers)[p].closeCalls == old(npmHandlers[p].closeCalls)
    {
      AttachNewPaths(projectPaths, existing);
      DisposeStalePaths();
      prevProjectPaths := projectPaths;
    }

    /**
     * The first loop of handleProjectPaths: a handler for each path that has
     * none, and each path pulled from the previous list.
     */
    method AttachNewPaths(projectPaths: seq<string>, existing: set<string>)
      requires Valid()
      modifies this
      ensures Valid() && settings == old(settings)
      ensures forall x :: x in prevProjectPaths <==> x in old(prevProjectPaths) && x !in projectPaths
      ensures forall p :: p in projectPaths ==> p in npmHandlers
      ensures forall p :: p in projectPaths && Live(old(npmHandlers), p) ==> npmHandlers[p] == old(npmHandlers)[p]
      ensures forall p :: p in projectPaths && !Live(old(npmHandlers), p) ==>
        Created(npmHandlers[p], p, existing, settings) && (npmHandlers[p] != null ==> fresh(npmHandlers[p]))
      ensures forall p :: p !in projectPaths ==>
        (p in npmHandlers <==> p in old(npmHandlers)) && (p in npmHandlers ==> npmHandlers[p] == old(npmHandlers)[p])
    {
      for i := 0 to |projectPaths|
        invariant Valid()
        invariant settings == old(settings)
        invariant forall x :: x in prevProjectPaths <==> x in old(prevProjectPaths) && x !in projectPaths[..i]
        invariant forall p :: p in projectPaths[..i] ==> p in npmHandlers
        invariant forall p :: p in projectPaths[..i] && Live(old(npmHandlers), p) ==> npmHandlers[p] == old(npmHandlers)[p]
        invariant forall p :: p in projectPaths[..i] && !Live(old(npmHandlers), p) ==>
          Created(npmHandlers[p], p, existing, settings) && (npmHandlers[p] != null ==> fresh(npmHandlers[p]))
        invariant forall p :: p !in projectPaths[..i] ==>
          (p in npmHandlers <==> p in old(npmHandlers)) && (p in npmHandlers ==> npmHandlers[p] == old(npmHandlers)[p])
      {
        var projectPath := projectPaths[i];
        assert projectPaths[..i + 1] == projectPaths[..i] + [projectPath];
        if !Live(npmHandlers, projectPath) {
          var h := CreateWatcher(projectPath, existing);
          npmHandlers := npmHandlers[projectPath := h];
        }
        prevProjectPaths := Pull(prevProjectPaths, projectPath);
      }
      assert projectPaths[..|projectPaths|] == projectPaths;
    }

    /**
     * The second loop of handleProjectPaths: each path left in the previous
     * list that has a handler gets it disposed and deleted.
     */
    method DisposeStalePaths()
      requires Valid()
      modifies this, Handlers()
      ensures Valid() && settings == old(settings) && prevProjectPaths == old(prevProjectPaths)
      ensures forall p :: p in npmHandlers <==> p in old(npmHandlers) && !(p in prevProjectPaths && Live(old(npmHandlers), p))
      ensures forall p :: p in npmHandlers ==> npmHandlers[p] == old(npmHandlers)[p]
      ensures forall p :: Live(old(npmHandlers), p) && p in prevProjectPaths ==>
        && !old(npmHandlers)[p].watching
        && old(npmHandlers)[p].closeCalls == old(npmHandlers[p].closeCalls) + (if old(npmHandlers[p].watching) then 1 else 0)
      ensures forall p :: Live(old(npmHandlers), p) && p !in prevProjectPaths ==>
        && old(npmHandlers)[p].watching == old(npmHandlers[p].watching)
        && old(npmHandlers)[p].closeCalls == old(npmHandlers[p].closeCalls)
    {
      for k := 0 to |prevProjectPaths|
        invariant Valid()
        invariant settings == old(settings) && prevProjectPaths == old(prevProjectPaths)
        invariant forall p :: p in npmHandlers <==> p in old(npmHandlers) && !(p in prevProjectPaths[..k] && Live(old(npmHandlers), p))
        invariant forall p :: p in npmHandlers ==> npmHandlers[p] == old(npmHandlers)[p]
        invariant forall p :: Live(old(npmHandlers), p) && p in prevProjectPaths[..k] ==>
          && !old(npmHandlers)[p].watching
          && old(npmHandlers)[p].closeCalls == old(npmHandlers[p].closeCalls) + (if old(npmHandlers[p].watching) then 1 else 0)
        invariant forall p :: Live(old(npmHandlers), p) && p !in prevProjectPaths[..k] ==>
          && old(npmHandlers)[p].watching == old(npmHandlers[p].watching)
          && old(npmHandlers)[p].closeCalls == old(npmHandlers[p].closeCalls)
      {
        var projectPath := prevProjectPaths[k];
        assert prevProjectPaths[..k + 1] == prevProjectPaths[..k] + [projectPath];
        if Live(npmHandlers, projectPath) {
          var npmHandler := npmHandlers[projectPath];
          npmHandler.Dispose();
          npmHandlers := npmHandlers - {projectPath};
        }
      }
      assert prevProjectPaths[..|prevProjectPaths|] == prevProjectPaths;
    }

    /**
     * disposeNpmHandlers: every handler in the dictionary is disposed, then
     * the dictionary is emptied. `for…of` over the dictionary is read as
     * iteration over its handlers.
     */
    method DisposeNpmHandlers()
      requires Valid()
      modifies this, Handlers()
      ensures Valid() && npmHandlers == map[]
      ensures prevProjectPaths == old(prevProjectPaths) && settings == old(settings)
      ensures forall p :: Live(old(npmHandlers), p) ==>
        && !old(npmHandlers)[p].watching
        && old(npmHandlers)[p].closeCalls == old(npmHandlers[p].closeCalls) + (if old(npmHandlers[p].watching) then 1 else 0)
    {
      var paths := npmHandlers.Keys;
      while paths != {}
        invariant paths <= npmHandlers.Keys
        invariant npmHandlers == old(npmHandlers) && Valid()
        invariant prevProjectPaths == old(prevProjectPaths) && settings == old(settings)
        invariant forall p :: Live(npmHandlers, p) && p !in paths ==>
          && !npmHandlers[p].watching
          && npmHandlers[p].closeCalls == old(npmHandlers[p].closeCalls) + (if old(npmHandlers[p].watching) then 1 else 0)
        invariant forall p :: Live(npmHandlers, p) && p in paths ==>
          npmHandlers[p].watching == old(npmHandlers[p].watching) && npmHandlers[p].closeCalls == old(npmHandlers[p].closeCalls)
        decreases paths
      {
        var p :| p in paths;
        var npmHandler := npmHandlers[p];
        if npmHandler != null {
          npmHandler.Dispose();
        }
        paths := paths - {p};
      }
      npmHandlers := map[];
    }
  }

  /**
   * The dictionary as handleProjectPaths sees it (whether each entry holds a
   * handler) and `this.prevProjectPaths`, None while it is undefined.
   */
  datatype PathsState = PathsState(live: map<string, bool>, prev: Option<seq<string>>)

  /** The first loop as written: a handler is created for each path without a truthy entry. */
  function AttachAsWritten(live: map<string, bool>, projectPaths: seq<string>, existing: set<string>): (r: map<string, bool>)
    ensures forall p :: p in live ==> p in r
    ensures forall p :: p in live && live[p] ==> p in r && r[p]
    ensures forall p :: p in projectPaths ==> p in r
    decreases |projectPaths|
  {
    if projectPaths == [] then live
    else
      var p := projectPaths[0];
      var next := if p in live && live[p] then live else live[p := PackageJsonPath(p) in existing];
      AttachAsWritten(next, projectPaths[1..], existing)
  }

  /** lodash.pull of every value of `values`. */
  function PullAll(s: seq<string>, values: seq<string>): (r: seq<string>)
    ensures forall y :: y in r <==> y in s && y !in values
    decreases |values|
  {
    if values == [] then s else PullAll(Pull(s, values[0]), values[1..])
  }

  /** The second loop as written: each listed path with a handler is deleted. */
  function DeleteAsWritten(live: map<string, bool>, stale: seq<string>): (r: map<string, bool>)
    ensures forall p :: p in r <==> p in live && !(p in stale && live[p])
  {
    if stale == [] then live
    else
      var p := stale[0];
      DeleteAsWritten(if p in live && live[p] then live - {p} else live, stale[1..])
  }

  /**
   * handleProjectPaths as written. While `prevProjectPaths` is undefined,
   * lodash.pull leaves it undefined and `for…of` over it throws a TypeError
   * after the first loop, so the assignment at the end is never reached.
   */
  function HandleProjectPathsAsWritten(s: PathsState, projectPaths: seq<string>, existing: set<string>): (r: PathsState)
    ensures s.prev.None? ==> r.prev.None?
    ensures s.prev.Some? ==> r.prev == Some(projectPaths)
  {
    var live := AttachAsWritten(s.live, projectPaths, existing);
    match s.prev
    case None => PathsState(live, None)
    case Some(prev) => PathsState(DeleteAsWritten(live, PullAll(prev, projectPaths)), Some(projectPaths))
  }

  /** A series of handleProjectPaths calls as written. */
  function CallsAsWritten(s: PathsState, calls: seq<seq<string>>, existing: set<string>): PathsState
    decreases |calls|
  {
    if calls == [] then s
    else CallsAsWritten(HandleProjectPathsAsWritten(s, calls[0], existing), calls[1..], existing)
  }

  /**
   * As written, starting from an undefined `prevProjectPaths`, no series of
   * calls ever defines it, and no handler is ever disposed or deleted.
   */
  lemma {:induction false} AsWrittenNeverDisposes(s: PathsState, calls: seq<seq<string>>, existing: set<string>)
    decreases |calls|
    requires s.prev.None?
    ensures CallsAsWritten(s, calls, existing).prev.None?
    ensures forall p :: p in s.live && s.live[p] ==>
      p in CallsAsWritten(s, calls, existing).live && CallsAsWritten(s, calls, existing).live[p]
  {
    if calls != [] {
      AsWrittenNeverDisposes(HandleProjectPathsAsWritten(s, calls[0], existing), calls[1..], existing);
    }
  }

  /** Opening a project with a package.json and closing it again leaves its handler live, as written. */
  lemma AsWrittenKeepsClosedProject()
    ensures var s := CallsAsWritten(PathsState(map[], None), [["/a"], []], {"/a/package.json"});
            "/a" in s.live && s.live["/a"]
  {
    var s0 := PathsState(map[], None);
    var existing := {"/a/package.json"};
    assert PackageJsonPath("/a") == "/a/package.json" by {
      assert "/a" + "/package.json" == "/a/package.json";
    }
    assert AttachAsWritten(map[], ["/a"], existing) == AttachAsWritten(map["/a" := true], [], existing);
    var s1 := HandleProjectPathsAsWritten(s0, ["/a"], existing);
    assert s1.live["/a"];
    assert [["/a"], []][1..] == [[]];
    AsWrittenNeverDisposes(s1, [[]], existing);
  }

  /**
   * Once `prevProjectPaths` holds a list, the loops as written do dispose:
   * a listed path that is no longer open and holds a handler loses it.
   */
  lemma AsWrittenDisposesOnceListDefined(s: PathsState, projectPaths: seq<string>, existing: set<string>, p: string)
    requires s.prev.Some? && p in s.prev.value && p !in projectPaths
    requires p in s.live && s.live[p]
    ensures p !in HandleProjectPathsAsWritten(s, projectPaths, existing).live
  {
  }

  /** The same two calls on the model with an initially empty previous list: the handler is disposed and deleted. */
  method ClosedProjectIsDisposed() returns (h: NpmHandler?, outdated: NpmOutdated)
    ensures h != null && !h.watching && h.closeCalls == 1
    ensures "/a" !in outdated.npmHandlers
  {
    var existing := {"/a/package.json"};
    assert PackageJsonPath("/a") == "/a/package.json" by {
      assert "/a" + "/package.json" == "/a/package.json";
    }
    outdated := new NpmOutdated();
    outdated.HandleProjectPaths(["/a"], existing);
    h := outdated.npmHandlers["/a"];
    assert Live(outdated.npmHandlers, "/a") && outdated.prevProjectPaths == ["/a"];
    outdated.HandleProjectPaths([], existing);
  }
}
