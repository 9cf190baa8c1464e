/** The import walker of scripts/validate-module-imports.ts: it finds exactly the files reachable from its root. */
module ImportClosure {
  import opened Wrappers

  /** What stands at an existing path: something that cannot be read, or a file with its relative imports. */
  datatype Entry = Unreadable(message: string) | Source(imports: seq<string>)

  /**
   * The existing paths, `path.resolve(path.dirname(file), importPath)` as `resolve(file, importPath)`,
   * and `path.relative(distDir, _)` as `relative`.
   */
  datatype FileSystem = FileSystem(
    files: map<string, Entry>, resolve: (string, string) -> string, relative: string -> string)

  datatype DependencyInfo = DependencyInfo(
    found: bool, imports: seq<string>, missingImports: Option<seq<string>>, error: Option<string>, missing: bool)

  // ---------------------------------------------------------------- one file

  predicate EndsWith(s: string, suffix: string) {
    |suffix| <= |s| && s[|s| - |suffix|..] == suffix
  }

  /** `replace(/\.ts$/, '.js')`. */
  function SwapExtension(path: string): string {
    if EndsWith(path, ".ts") then path[..|path| - 3] + ".js" else path
  }

  /** The file that an import written in `file` stands for, if there is one. */
  function Target(fs: FileSystem, file: string, importPath: string): (r: Option<string>)
    ensures r.Some? ==> r.value in fs.files
  {
    if !EndsWith(importPath, ".js") && !EndsWith(importPath, ".ts") then
      var tsPath := fs.resolve(file, importPath + ".ts");
      var jsPath := fs.resolve(file, importPath + ".js");
      if tsPath in fs.files then Some(tsPath) else if jsPath in fs.files then Some(jsPath) else None
    else
      var path := fs.resolve(file, importPath);
      var altPath := SwapExtension(path);
      if path in fs.files then Some(path) else if altPath in fs.files then Some(altPath) else None
  }

  /** The path is written with the extension of a source or of a compiled file. */
  ghost predicate HasExtension(path: string) {
    exists stem: string :: path == stem + ".ts" || path == stem + ".js"
  }

  /**
   What an import may stand for.  Without an extension: the source file, or the compiled file when there is no
   source file.  With one: the path as written, or, if nothing stands there, the compiled file beside a source.
   */
  ghost predicate StandsFor(fs: FileSystem, file: string, importPath: string, to: string) {
    && to in fs.files
    && if !HasExtension(importPath) then
         || to == fs.resolve(file, importPath + ".ts")
         || (to == fs.resolve(file, importPath + ".js") && fs.resolve(file, importPath + ".ts") !in fs.files)
       else
         var path := fs.resolve(file, importPath);
         || to == path
         || (path !in fs.files && exists stem: string :: path == stem + ".ts" && to == stem + ".js")
  }

  lemma EndsWithIff(s: string, suffix: string)
    ensures EndsWith(s, suffix) <==> exists stem: string :: s == stem + suffix
  {
    if EndsWith(s, suffix) {
      assert s == s[..|s| - |suffix|] + suffix;
    }
    if stem: string :| s == stem + suffix {
      assert s[|s| - |suffix|..] == suffix;
    }
  }

  /** The resolution finds exactly what the import stands for. */
  lemma TargetIff(fs: FileSystem, file: string, importPath: string, to: string)
    ensures Target(fs, file, importPath) == Some(to) <==> StandsFor(fs, file, importPath, to)
  {
    EndsWithIff(importPath, ".ts");
    EndsWithIff(importPath, ".js");
    EndsWithIff(fs.resolve(file, importPath), ".ts");
    assert HasExtension(importPath) <==> EndsWith(importPath, ".ts") || EndsWith(importPath, ".js");
    var path := fs.resolve(file, importPath);
    forall stem: string | path == stem + ".ts" ensures path[..|path| - 3] == stem {}
  }

  function Imports(fs: FileSystem, file: string): seq<string> {
    if file in fs.files && fs.files[file].Source? then fs.files[file].imports else []
  }

  /** There is an import in `file` that resolves to `to`. */
  ghost predicate Edge(fs: FileSystem, file: string, to: string) {
    exists i :: 0 <= i < |Imports(fs, file)| && Target(fs, file, Imports(fs, file)[i]) == Some(to)
  }

  function Resolved(fs: FileSystem, file: string, imports: seq<string>): seq<string> {
    if imports == [] then []
    else
      var last := Target(fs, file, imports[|imports| - 1]);
      Resolved(fs, file, imports[..|imports| - 1]) + (if last.Some? then [fs.relative(last.value)] else [])
  }

  function Missing(fs: FileSystem, file: string, imports: seq<string>): seq<string> {
    if imports == [] then []
    else
      var last := imports[|imports| - 1];
      Missing(fs, file, imports[..|imports| - 1]) + (if Target(fs, file, last).Some? then [] else [last])
  }

  /** The record that the walk owes to a file, whatever route leads to it. */
  function Info(fs: FileSystem, file: string): DependencyInfo {
    if file !in fs.files then DependencyInfo(false, [], None, None, true)
    else match fs.files[file]
      case Unreadable(message) => DependencyInfo(true, [], None, Some(message), false)
      case Source(imports) =>
        var missing := Missing(fs, file, imports);
        DependencyInfo(true, Resolved(fs, file, imports), if |missing| > 0 then Some(missing) else None, None, false)
  }

  lemma MissingTarget(fs: FileSystem, file: string, importPath: string)
    ensures Target(fs, file, importPath).None? <==> forall to: string :: !StandsFor(fs, file, importPath, to)
  {
    hide Target, StandsFor;
    forall to: string ensures Target(fs, file, importPath) == Some(to) <==> StandsFor(fs, file, importPath, to) {
      TargetIff(fs, file, importPath, to);
    }
    if Target(fs, file, importPath).Some? {
      assert StandsFor(fs, file, importPath, Target(fs, file, importPath).value);
    }
  }

  lemma {:induction false} MissingUntargeted(fs: FileSystem, file: string, imports: seq<string>, importPath: string)
    ensures importPath in Missing(fs, file, imports) <==> importPath in imports && Target(fs, file, importPath).None?
  {
    if imports != [] {
      var front, last := imports[..|imports| - 1], imports[|imports| - 1];
      assert imports == front + [last];
      MissingUntargeted(fs, file, front, importPath);
    }
  }

  /** A missing import is listed exactly when nothing stands at any of the paths tried for it. */
  lemma MissingIff(fs: FileSystem, file: string, imports: seq<string>, importPath: string)
    ensures importPath in Missing(fs, file, imports)
            <==> importPath in imports && forall to: string :: !StandsFor(fs, file, importPath, to)
  {
    hide Target, StandsFor;
    MissingUntargeted(fs, file, imports, importPath);
    MissingTarget(fs, file, importPath);
  }

  lemma {:induction false} ResolvedTargets(fs: FileSystem, file: string, imports: seq<string>, name: string)
    ensures name in Resolved(fs, file, imports) <==>
            exists i :: 0 <= i < |imports| && Target(fs, file, imports[i]).Some?
                        && fs.relative(Target(fs, file, imports[i]).value) == name
  {
    if imports != [] {
      var front, last := imports[..|imports| - 1], imports[|imports| - 1];
      assert imports == front + [last];
      ResolvedTargets(fs, file, front, name);
      if i :| 0 <= i < |front| && Target(fs, file, front[i]).Some?
              && fs.relative(Target(fs, file, front[i]).value) == name {
        assert imports[i] == front[i];
      }
      assert imports[|imports| - 1] == last;
    }
  }

  /** The imports listed for a file name exactly what its imports stand for. */
  lemma ResolvedIff(fs: FileSystem, file: string, imports: seq<string>, name: string)
    ensures name in Resolved(fs, file, imports)
            <==> exists i, to: string :: 0 <= i < |imports| && StandsFor(fs, file, imports[i], to) && fs.relative(to) == name
  {
    hide Target, StandsFor;
    ResolvedTargets(fs, file, imports, name);
    forall i, to: string | 0 <= i < |imports|
      ensures Target(fs, file, imports[i]) == Some(to) <==> StandsFor(fs, file, imports[i], to)
    {
      TargetIff(fs, file, imports[i], to);
    }
    if i :| 0 <= i < |imports| && Target(fs, file, imports[i]).Some? && fs.relative(Target(fs, file, imports[i]).value) == name {
      assert StandsFor(fs, file, imports[i], Target(fs, file, imports[i]).value);
    }
    if i, to: string :| 0 <= i < |imports| && StandsFor(fs, file, imports[i], to) && fs.relative(to) == name {
      assert Target(fs, file, imports[i]) == Some(to);
    }
  }

  // ---------------------------------------------------------------- reachability

  ghost predicate IsPath(fs: FileSystem, path: seq<string>) {
    forall i :: 0 <= i < |path| - 1 ==> Edge(fs, path[i], path[i + 1])
  }

  /** `path` leads from `root` to `file` along resolved imports. */
  ghost predicate Leads(fs: FileSystem, root: string, file: string, path: seq<string>) {
    path != [] && path[0] == root && path[|path| - 1] == file && IsPath(fs, path)
  }

  ghost predicate Reachable(fs: FileSystem, root: string, file: string) {
    exists path :: Leads(fs, root, file, path)
  }

  lemma RootIsReachable(fs: FileSystem, root: string)
    ensures Reachable(fs, root, root)
  {
    assert Leads(fs, root, root, [root]);
  }

  lemma EdgeThenReachable(fs: FileSystem, root: string, next: string, file: string)
    requires Edge(fs, root, next) && Reachable(fs, next, file)
    ensures Reachable(fs, root, file)
  {
    hide Edge;
    var path :| Leads(fs, next, file, path);
    var longer := [root] + path;
    forall i | 0 <= i < |longer| - 1 ensures Edge(fs, longer[i], longer[i + 1]) {
      if i > 0 {
        assert longer[i] == path[i - 1] && longer[i + 1] == path[i - 1 + 1];
      }
    }
    assert Leads(fs, root, file, longer);
  }

  ghost predicate ClosedUnderImports(fs: FileSystem, s: set<string>) {
    forall u, v :: u in s && Edge(fs, u, v) ==> v in s
  }

  /** Nothing reachable lies outside a set that holds the root and every target of its members. */
  lemma {:induction false} ClosedSetHoldsPath(fs: FileSystem, s: set<string>, path: seq<string>)
    requires ClosedUnderImports(fs, s) && path != [] && path[0] in s && IsPath(fs, path)
    ensures path[|path| - 1] in s
    decreases |path|
  {
    hide Edge;
    if |path| > 1 {
      assert Edge(fs, path[0], path[0 + 1]);
      var rest := path[1..];
      forall i | 0 <= i < |rest| - 1 ensures Edge(fs, rest[i], rest[i + 1]) {
        assert Edge(fs, path[i + 1], path[i + 1 + 1]);
      }
      ClosedSetHoldsPath(fs, s, rest);
    }
  }

  /** Every reachable file other than the root exists. */
  lemma OnlyRootCanBeMissing(fs: FileSystem, root: string, file: string)
    requires Reachable(fs, root, file) && file != root
    ensures file in fs.files
  {
    var path :| Leads(fs, root, file, path);
    assert Edge(fs, path[|path| - 2], path[|path| - 2 + 1]);
  }

  // ---------------------------------------------------------------- the walk

  class DependencyWalk {
    const fs: FileSystem
    var visited: set<string>
    var results: map<string, DependencyInfo>

    constructor (fs: FileSystem)
      ensures this.fs == fs && visited == {} && results == map[]
    {
      this.fs := fs;
      visited, results := {}, map[];
    }

    /**
     * `resolveDependencies`. The files visited during the call are reachable from `file`, their
     * imports have all been visited, and exactly they get a result; older results stay as they are.
     */
    method ResolveDependencies(file: string)
      requires results.Keys <= visited
      modifies this
      ensures old(visited) + {file} <= visited
      ensures results.Keys == old(results.Keys) + (visited - old(visited))
      ensures forall v :: v in old(results) ==> results[v] == old(results[v])
      ensures forall v :: v in visited - old(visited) ==> results[v] == Info(fs, v) && Reachable(fs, file, v)
      ensures forall u, v :: u in visited - old(visited) && Edge(fs, u, v) ==> v in visited
      decreases fs.files.Keys + {file} - visited
    {
      hide Edge, Reachable, Target;
      if file in visited {
        return;
      }
      RootIsReachable(fs, file);
      visited := visited + {file};
      if file !in fs.files {
        NoImportsNoEdges(fs, file);
        results := results[file := DependencyInfo(false, [], None, None, true)];
        return;
      }
      if fs.files[file].Unreadable? {
        NoImportsNoEdges(fs, file);
        results := results[file := DependencyInfo(true, [], None, Some(fs.files[file].message), false)];
        return;
      }
      var imports := fs.files[file].imports;
      var resolvedImports: seq<string>, missingImports: seq<string> := [], [];
      var i := 0;
      while i < |imports|
        invariant 0 <= i <= |imports|
        invariant resolvedImports == Resolved(fs, file, imports[..i])
        invariant missingImports == Missing(fs, file, imports[..i])
        invariant old(visited) + {file} <= visited && results.Keys == old(results.Keys) + (visited - old(visited) - {file})
        invariant forall v :: v in old(results) ==> results[v] == old(results[v])
        invariant forall v :: v in visited - old(visited) - {file} ==> results[v] == Info(fs, v) && Reachable(fs, file, v)
        invariant forall u, v :: u in visited - old(visited) - {file} && Edge(fs, u, v) ==> v in visited
        invariant forall k :: 0 <= k < i && Target(fs, file, imports[k]).Some? ==> Target(fs, file, imports[k]).value in visited
      {
        hide Resolved, Missing, Info;
        label before:
        var found := Target(fs, file, imports[i]);
        OneMoreImport(fs, file, imports, i);
        match found {
          case None =>
            missingImports := missingImports + [imports[i]];
          case Some(target) =>
            resolvedImports := resolvedImports + [fs.relative(target)];
            ImportIsEdge(fs, file, i);
            ResolveDependencies(target);
            forall v | v in visited - old@before(visited) ensures Reachable(fs, file, v) {
              EdgeThenReachable(fs, file, target, v);
            }
        }
        i := i + 1;
      }
      assert imports[..i] == imports;
      forall v | Edge(fs, file, v) ensures v in visited {
        var k := EdgeIsImport(fs, file, v);
      }
      results := results[file := DependencyInfo(
                           true, resolvedImports, if |missingImports| > 0 then Some(missingImports) else None, None, false)];
    }
  }

  lemma NoImportsNoEdges(fs: FileSystem, file: string)
    requires Imports(fs, file) == []
    ensures forall v :: !Edge(fs, file, v)
  {
  }

  lemma OneMoreImport(fs: FileSystem, file: string, imports: seq<string>, i: nat)
    requires i < |imports|
    ensures var t := Target(fs, file, imports[i]);
            && Resolved(fs, file, imports[..i + 1])
               == Resolved(fs, file, imports[..i]) + (if t.Some? then [fs.relative(t.value)] else [])
            && Missing(fs, file, imports[..i + 1])
               == Missing(fs, file, imports[..i]) + (if t.Some? then [] else [imports[i]])
  {
    assert imports[..i + 1][..i] == imports[..i];
  }

  lemma ImportIsEdge(fs: FileSystem, file: string, i: nat)
    requires i < |Imports(fs, file)| && Target(fs, file, Imports(fs, file)[i]).Some?
    ensures Edge(fs, file, Target(fs, file, Imports(fs, file)[i]).value)
  {
  }

  lemma EdgeIsImport(fs: FileSystem, file: string, v: string) returns (i: nat)
    requires Edge(fs, file, v)
    ensures i < |Imports(fs, file)| && Target(fs, file, Imports(fs, file)[i]) == Some(v)
  {
    i :| 0 <= i < |Imports(fs, file)| && Target(fs, file, Imports(fs, file)[i]) == Some(v);
  }

  /** The whole walk from fresh state: the results are exactly the reachable files, each with its own record. */
  method Closure(fs: FileSystem, root: string) returns (results: map<string, DependencyInfo>)
    ensures forall v :: v in results <==> Reachable(fs, root, v)
    ensures forall v :: v in results ==> results[v] == Info(fs, v)
  {
    hide Edge, Info;
    var walk := new DependencyWalk(fs);
    walk.ResolveDependencies(root);
    results := walk.results;
    forall v | Reachable(fs, root, v) ensures v in results {
      var path :| Leads(fs, root, v, path);
      ClosedSetHoldsPath(fs, walk.visited, path);
    }
  }

  // ---------------------------------------------------------------- the verdict on one binary

  ghost predicate HasMissingImport(fs: FileSystem, file: string) {
    exists i :: 0 <= i < |Imports(fs, file)| && Target(fs, file, Imports(fs, file)[i]).None?
  }

  lemma InfoTellsMissing(fs: FileSystem, file: string)
    requires file in fs.files
    ensures Info(fs, file).found
    ensures Info(fs, file).missingImports.Some? <==> HasMissingImport(fs, file)
    ensures Info(fs, file).missingImports.Some? ==> |Info(fs, file).missingImports.value| > 0
  {
    var imports := Imports(fs, file);
    var missing := Missing(fs, file, imports);
    if i :| 0 <= i < |imports| && Target(fs, file, imports[i]).None? {
      MissingUntargeted(fs, file, imports, imports[i]);
    }
    if missing != [] {
      assert missing[0] in missing;
      MissingUntargeted(fs, file, imports, missing[0]);
      var i :| 0 <= i < |imports| && imports[i] == missing[0];
    }
  }

  /**
   * The body of `main`'s loop for one binary. It passes over the entry file's own record, so a binary
   * whose entry file exists fails exactly when some OTHER reachable file has a missing import.
   */
  method BinaryHasErrors(fs: FileSystem, source: string) returns (bad: bool)
    ensures bad <==> source !in fs.files
                     || exists file :: Reachable(fs, source, file) && file != source && HasMissingImport(fs, file)
  {
    hide Reachable, HasMissingImport, Info;
    if source !in fs.files {
      return true;
    }
    var dependencies := Closure(fs, source);
    var todo := dependencies.Keys;
    bad := false;
    while todo != {}
      invariant todo <= dependencies.Keys
      invariant bad <==> exists file :: file in dependencies.Keys - todo && file != source && HasMissingImport(fs, file)
      decreases |todo|
    {
      var dep :| dep in todo;
      todo := todo - {dep};
      if dep != source {
        OnlyRootCanBeMissing(fs, source, dep);
        InfoTellsMissing(fs, dep);
        if !dependencies[dep].found || (dependencies[dep].missingImports.Some? && |dependencies[dep].missingImports.value| > 0) {
          bad := true;
        }
      }
    }
  }

  /** So a binary whose own import is missing can pass: the entry file's list is never looked at. */
  lemma EntryImportsUnchecked(resolve: (string, string) -> string, relative: string -> string)
    requires resolve("/src/a.ts", "./gone.js") == "/src/gone.js"
    ensures var fs := FileSystem(map["/src/a.ts" := Source(["./gone.js"])], resolve, relative);
            && HasMissingImport(fs, "/src/a.ts")
            && forall file :: Reachable(fs, "/src/a.ts", file) ==> file == "/src/a.ts"
  {
    var fs := FileSystem(map["/src/a.ts" := Source(["./gone.js"])], resolve, relative);
    var src, imp, gone := "/src/a.ts", "./gone.js", "/src/gone.js";
    assert Imports(fs, src)[0] == imp;
    assert imp[|imp| - 3..] == ".js" && gone[|gone| - 3..] == ".js";
    assert Target(fs, src, imp) == None;
    forall file | Reachable(fs, src, file) ensures file == src {
      var path :| Leads(fs, src, file, path);
      ClosedSetHoldsPath(fs, {src}, path);
    }
  }
}
