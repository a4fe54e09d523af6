/** The memoised search for the Python files a fuzzer depends on. Modules are identified with their file paths, and
    imports are a finite graph. */
module ImportClosure {

  type Path = string

  /** What a module attribute turns out to be. */
  datatype Attr =
    | NotModule
    | Builtin
    | Unlocatable
    | Outside
    | Submodule(path: Path)

  datatype Error = TooDeep | NoFile

  datatype Outcome = Deps(paths: set<Path>) | Fail(error: Error)

  type Graph = map<Path, seq<Attr>>

  const MAX_DEPTH: nat := 10

  /** Every submodule that a module imports is itself a loaded module. */
  ghost predicate Closed(g: Graph) {
    forall m, k :: m in g && 0 <= k < |g[m]| && g[m][k].Submodule? ==> g[m][k].path in g
  }

  ghost predicate Imports(g: Graph, a: Path, b: Path) {
    a in g && exists k :: 0 <= k < |g[a]| && g[a][k] == Submodule(b)
  }

  /** A chain of imports. */
  ghost predicate Walk(g: Graph, w: seq<Path>) {
    |w| > 0 && w[0] in g && forall i :: 0 <= i < |w| - 1 ==> Imports(g, w[i], w[i + 1])
  }

  ghost predicate Connects(g: Graph, w: seq<Path>, a: Path, b: Path) {
    Walk(g, w) && w[0] == a && w[|w| - 1] == b
  }

  ghost predicate Reaches(g: Graph, a: Path, b: Path) {
    exists w :: Connects(g, w, a, b)
  }

  /** The module itself and everything reachable through imports, and nothing else. */
  ghost predicate Closure(g: Graph, m: Path, paths: set<Path>) {
    forall b :: b in paths <==> Reaches(g, m, b)
  }

  /** Every import chain from m has at most h imports. */
  ghost predicate HasHeight(g: Graph, m: Path, h: nat)
    decreases h
  {
    m in g && forall c :: Imports(g, m, c) ==> h > 0 && HasHeight(g, c, h - 1)
  }

  /** No module reachable from m has an attribute whose file cannot be found. */
  ghost predicate Locatable(g: Graph, m: Path) {
    forall b :: Reaches(g, m, b) ==> b in g && Unlocatable !in g[b]
  }

  ghost predicate OnCycle(g: Graph, c: Path) {
    exists w :: |w| > 1 && Connects(g, w, c, c)
  }

  lemma {:induction false} ReachesItself(g: Graph, m: Path)
    requires m in g
    ensures Reaches(g, m, m)
  {
    assert Connects(g, [m], m, m);
  }

  lemma {:induction false} ReachesThrough(g: Graph, a: Path, c: Path, b: Path)
    requires Imports(g, a, c) && Reaches(g, c, b)
    ensures Reaches(g, a, b)
  {
    var w :| Connects(g, w, c, b);
    var v := [a] + w;
    assert forall i :: 0 < i < |v| ==> v[i] == w[i - 1];
    assert Connects(g, v, a, b);
  }

  /** Reachability one import at a time. */
  lemma {:induction false} FirstImport(g: Graph, a: Path, b: Path) returns (c: Path)
    requires Closed(g) && Reaches(g, a, b) && a != b
    ensures Imports(g, a, c) && Reaches(g, c, b)
  {
    var w :| Connects(g, w, a, b);
    c := w[1];
    var v := w[1..];
    assert Imports(g, w[0], w[1]);
    forall i | 0 <= i < |v| - 1 ensures Imports(g, v[i], v[i + 1]) {
      assert Imports(g, w[i + 1], w[i + 1 + 1]);
    }
    assert Connects(g, v, c, b);
  }

  lemma {:induction false} HeightGrows(g: Graph, m: Path, h: nat, k: nat)
    requires HasHeight(g, m, h) && h <= k
    ensures HasHeight(g, m, k)
    decreases h
  {
    forall c | Imports(g, m, c) ensures k > 0 && HasHeight(g, c, k - 1) {
      HeightGrows(g, c, h - 1, k - 1);
    }
  }

  /** A chain of imports uses up height. */
  lemma {:induction false} HeightAlong(g: Graph, w: seq<Path>, h: nat)
    requires Walk(g, w) && HasHeight(g, w[0], h)
    ensures |w| - 1 <= h && HasHeight(g, w[|w| - 1], h - (|w| - 1))
    decreases |w|
  {
    if |w| <= 1 {
    } else {
      assert Imports(g, w[0], w[1]);
      var v := w[1..];
      forall i | 0 <= i < |v| - 1 ensures Imports(g, v[i], v[i + 1]) {
        assert Imports(g, w[i + 1], w[i + 1 + 1]);
      }
      HeightAlong(g, v, h - 1);
    }
  }

  lemma {:induction false} HeightHasNoCycle(g: Graph, c: Path, w: seq<Path>, h: nat)
    requires |w| > 1 && Connects(g, w, c, c) && HasHeight(g, c, h)
    ensures false
    decreases h
  {
    HeightAlong(g, w, h);
    HeightHasNoCycle(g, c, w, h - (|w| - 1));
  }

  /** A module with bounded import chains reaches no import cycle. */
  lemma {:induction false} HeightReachesNoCycle(g: Graph, m: Path, h: nat, c: Path)
    requires HasHeight(g, m, h) && Reaches(g, m, c)
    ensures !OnCycle(g, c)
  {
    var w :| Connects(g, w, m, c);
    HeightAlong(g, w, h);
    if OnCycle(g, c) {
      var v :| |v| > 1 && Connects(g, v, c, c);
      HeightHasNoCycle(g, c, v, h - (|w| - 1));
    }
  }

  /** What is known of a module whose search came to an end. */
  ghost predicate Settled(g: Graph, m: Path, paths: set<Path>) {
    m in g && Closure(g, m, paths) && Locatable(g, m) && exists h :: HasHeight(g, m, h)
  }

  /** The paths collected from the first i attributes. */
  ghost predicate Collected(g: Graph, m: Path, i: nat, paths: set<Path>)
    requires m in g && i <= |g[m]|
  {
    forall b :: b in paths <==> b == m || exists k :: 0 <= k < i && ReachedBy(g, g[m][k], b)
  }

  ghost predicate ReachedBy(g: Graph, attr: Attr, b: Path) {
    attr.Submodule? && Reaches(g, attr.path, b)
  }

  lemma {:induction false} CollectedStep(g: Graph, m: Path, i: nat, before: set<Path>, after: set<Path>)
    requires m in g && i < |g[m]| && Collected(g, m, i, before)
    requires forall b :: b in after <==> b in before || ReachedBy(g, g[m][i], b)
    ensures Collected(g, m, i + 1, after)
  {
    forall b ensures b in after <==> b == m || exists k :: 0 <= k < i + 1 && ReachedBy(g, g[m][k], b) {
      if exists k :: 0 <= k < i + 1 && ReachedBy(g, g[m][k], b) {
        var k :| 0 <= k < i + 1 && ReachedBy(g, g[m][k], b);
        assert k < i || ReachedBy(g, g[m][i], b);
      }
    }
  }

  /** Once all attributes are collected, the set is the closure. */
  lemma {:induction false} CollectedAll(g: Graph, m: Path, paths: set<Path>)
    requires Closed(g) && m in g && Collected(g, m, |g[m]|, paths)
    ensures Closure(g, m, paths)
  {
    ReachesItself(g, m);
    forall b ensures b in paths <==> Reaches(g, m, b) {
      if b in paths && b != m {
        var k :| 0 <= k < |g[m]| && ReachedBy(g, g[m][k], b);
        assert Imports(g, m, g[m][k].path);
        ReachesThrough(g, m, g[m][k].path, b);
      }
      if Reaches(g, m, b) && b != m {
        var c := FirstImport(g, m, b);
        var k :| 0 <= k < |g[m]| && g[m][k] == Submodule(c);
        assert ReachedBy(g, g[m][k], b);
      }
    }
  }

  /** What the finished searches of the imports say about the importing module. */
  ghost predicate Checked(g: Graph, attr: Attr, h: nat) {
    attr != Unlocatable && (attr.Submodule? ==> Locatable(g, attr.path) && HasHeight(g, attr.path, h))
  }

  lemma {:induction false} AllChecked(g: Graph, m: Path, h: nat)
    requires Closed(g) && m in g && forall k :: 0 <= k < |g[m]| ==> Checked(g, g[m][k], h)
    ensures Locatable(g, m) && HasHeight(g, m, h + 1)
  {
    forall b | Reaches(g, m, b) ensures b in g && Unlocatable !in g[b] {
      if b != m {
        var c := FirstImport(g, m, b);
        var k :| 0 <= k < |g[m]| && g[m][k] == Submodule(c);
        assert Checked(g, g[m][k], h);
      }
    }
    forall c | Imports(g, m, c) ensures HasHeight(g, c, h) {
      var k :| 0 <= k < |g[m]| && g[m][k] == Submodule(c);
      assert Checked(g, g[m][k], h);
    }
  }

  lemma {:induction false} CheckedGrows(g: Graph, attr: Attr, h: nat, k: nat)
    requires Checked(g, attr, h) && h <= k
    ensures Checked(g, attr, k)
  {
    if attr.Submodule? {
      HeightGrows(g, attr.path, h, k);
    }
  }

  lemma {:induction false} LocatableImport(g: Graph, m: Path, c: Path)
    requires Locatable(g, m) && Imports(g, m, c)
    ensures Locatable(g, c)
  {
    forall b | Reaches(g, c, b) ensures b in g && Unlocatable !in g[b] {
      ReachesThrough(g, m, c, b);
    }
  }

  function Room(depth: nat): nat {
    if depth > MAX_DEPTH then 0 else MAX_DEPTH + 1 - depth
  }

  class DependencyFinder {
    const g: Graph
    var cache: map<Path, set<Path>>

    /** Every cached set is complete. */
    ghost predicate Valid()
      reads this
    {
      Closed(g) && forall p :: p in cache ==> Settled(g, p, cache[p])
    }

    constructor (g: Graph)
      requires Closed(g)
      ensures this.g == g && Valid() && cache == map[]
    {
      this.g := g;
      cache := map[];
    }

    ghost predicate Extends(before: map<Path, set<Path>>)
      reads this
    {
      forall p :: p in before ==> p in cache && cache[p] == before[p]
    }

    /** The files that module m depends on. A search that ends normally returns and caches the closure, and only
        modules without reachable import cycles or unlocatable imports get that far. A module whose import chains
        fit into the remaining depth fails only for an unlocatable import. A failing search leaves the cache valid:
        only complete sets were added. */
    method GetPythonDependencies(m: Path, depth: nat) returns (o: Outcome)
      requires Valid() && m in g
      modifies this
      ensures Valid() && Extends(old(cache))
      ensures o.Deps? ==> depth <= MAX_DEPTH && m in cache && cache[m] == o.paths && Settled(g, m, o.paths)
      ensures depth <= MAX_DEPTH && HasHeight(g, m, MAX_DEPTH - depth) ==> (o.Deps? <==> Locatable(g, m))
      ensures o == Fail(TooDeep) && depth <= MAX_DEPTH ==> !HasHeight(g, m, MAX_DEPTH - depth)
      ensures o == Fail(NoFile) ==> !Locatable(g, m)
      decreases Room(depth), 1
    {
      if depth > MAX_DEPTH {
        return Fail(TooDeep);
      }
      if m in cache {
        return Deps(cache[m]);
      }
      o := CollectImports(m, depth);
      if o.Deps? {
        cache := cache[m := o.paths];
      }
    }

    /** The loop over the attributes of a module that is not cached yet. */
    method CollectImports(m: Path, depth: nat) returns (o: Outcome)
      requires Valid() && m in g && depth <= MAX_DEPTH
      modifies this
      ensures Valid() && Extends(old(cache))
      ensures o.Deps? ==> Settled(g, m, o.paths)
      ensures HasHeight(g, m, MAX_DEPTH - depth) ==> (o.Deps? <==> Locatable(g, m))
      ensures o == Fail(TooDeep) ==> !HasHeight(g, m, MAX_DEPTH - depth)
      ensures o == Fail(NoFile) ==> !Locatable(g, m)
      decreases Room(depth), 0
    {
      var dependencies := {m};
      var attrs := g[m];
      ghost var h: nat := 0;
      for i := 0 to |attrs|
        invariant Valid() && Extends(old(cache))
        invariant Collected(g, m, i, dependencies)
        invariant forall k :: 0 <= k < i ==> Checked(g, attrs[k], h)
      {
        match attrs[i]
        case NotModule | Builtin | Outside =>
          CollectedStep(g, m, i, dependencies, dependencies);
        case Unlocatable =>
          ReachesItself(g, m);
          assert Unlocatable in g[m];
          return Fail(NoFile);
        case Submodule(path) =>
          assert Imports(g, m, path);
          var inner := GetPythonDependencies(path, depth + 1);
          if inner.Fail? {
            ImportFailed(g, m, path, depth);
            return inner;
          }
          ReachesItself(g, path);
          CollectedStep(g, m, i, dependencies, dependencies + {path} + inner.paths);
          dependencies := dependencies + {path} + inner.paths;
          ghost var height: nat :| HasHeight(g, path, height);
          ghost var top: nat := if h < height then height else h;
          forall k | 0 <= k < i ensures Checked(g, attrs[k], top) {
            CheckedGrows(g, attrs[k], h, top);
          }
          HeightGrows(g, path, height, top);
          h := top;
      }
      CollectedAll(g, m, dependencies);
      AllChecked(g, m, h);
      return Deps(dependencies);
    }

    /** The Python files and the docker files of a fuzzer. */
    method GetFuzzerDependencies(f: Fuzzer) returns (o: Outcome)
      requires Valid() && f.main in g
      modifies this
      ensures Valid() && Extends(old(cache))
      ensures o.Deps? ==> forall b :: b in o.paths <==> DependsOn(g, f, b)
      ensures o.Deps? ==> forall c :: Reaches(g, f.main, c) ==> !OnCycle(g, c)
      ensures HasHeight(g, f.main, MAX_DEPTH) ==> (o.Deps? <==> Locatable(g, f.main))
    {
      o := GetPythonDependencies(f.main, 0);
      if o.Deps? {
        forall c | Reaches(g, f.main, c) ensures !OnCycle(g, c) {
          var h: nat :| HasHeight(g, f.main, h);
          HeightReachesNoCycle(g, f.main, h, c);
        }
        return Deps(o.paths + f.dockerfiles);
      }
    }

    /** The fuzzers that depend on a changed file, in their order; an error in any search is raised. */
    method GetFilesDependentFuzzers(files: set<Path>, fuzzers: seq<Fuzzer>) returns (names: seq<string>, failed: bool)
      requires Valid() && forall k :: 0 <= k < |fuzzers| ==> fuzzers[k].main in g
      modifies this
      ensures Valid() && Extends(old(cache))
      ensures !failed ==> names == Dependent(g, files, fuzzers)
      ensures (forall k :: 0 <= k < |fuzzers| ==> Searchable(g, fuzzers[k].main)) ==> !failed
    {
      hide Settled, Closed, HasHeight, Locatable, DependsOn;
      names, failed := [], false;
      for i := 0 to |fuzzers|
        invariant Valid() && Extends(old(cache)) && !failed
        invariant names == Dependent(g, files, fuzzers[..i])
      {
        var o := GetFuzzerDependencies(fuzzers[i]);
        if o.Fail? {
          assert !Searchable(g, fuzzers[i].main);
          return [], true;
        }
        assert fuzzers[..i + 1][..i] == fuzzers[..i];
        if o.paths * files != {} {
          var b :| b in o.paths * files;
          assert b in files && DependsOn(g, fuzzers[i], b);
          names := names + [fuzzers[i].name];
        } else {
          assert forall b :: b in files ==> b !in o.paths * files;
        }
      }
      assert fuzzers[..|fuzzers|] == fuzzers;
    }
  }

  datatype Fuzzer = Fuzzer(name: string, main: Path, dockerfiles: set<Path>)

  ghost predicate DependsOn(g: Graph, f: Fuzzer, b: Path) {
    Reaches(g, f.main, b) || b in f.dockerfiles
  }

  /** The search of a module with short import chains and locatable imports. */
  ghost predicate Searchable(g: Graph, m: Path) {
    HasHeight(g, m, MAX_DEPTH) && Locatable(g, m)
  }

  ghost function Dependent(g: Graph, files: set<Path>, fuzzers: seq<Fuzzer>): seq<string> {
    if |fuzzers| == 0 then []
    else
      var last := fuzzers[|fuzzers| - 1];
      Dependent(g, files, fuzzers[..|fuzzers| - 1])
      + (if exists b :: b in files && DependsOn(g, last, b) then [last.name] else [])
  }

  lemma {:induction false} ImportFailed(g: Graph, m: Path, path: Path, depth: nat)
    requires Imports(g, m, path) && depth <= MAX_DEPTH
    ensures HasHeight(g, m, MAX_DEPTH - depth) ==> depth < MAX_DEPTH && HasHeight(g, path, MAX_DEPTH - (depth + 1))
    ensures Locatable(g, m) ==> Locatable(g, path)
  {
    if Locatable(g, m) {
      LocatableImport(g, m, path);
    }
  }
}
