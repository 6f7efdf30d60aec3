/** Scenario composition: depth-first import resolution with a cache and cycle
    detection (src/experiment/scenario_resolver.cpp, resolve_definition).  What a
    file contributes and how a namespaced import is merged are parameters. */
module ImportResolution {
  import opened Optional
  import opened Walks

  datatype Import = Import(path: string, prefix: Option<string>)

  datatype File<T> = File(content: T, imports: seq<Import>)

  /** The readable files by canonical path; the canonical path an import in a
      file refers to; prefixing and merging an imported fragment, which fails on
      conflicts. */
  datatype Project<!T> = Project(files: map<string, File<T>>, locate: (string, string) -> string,
                                 merge: (T, T, Option<string>) -> Option<T>)

  datatype Error = Circular(path: string) | Unreadable(path: string) | Conflict(path: string)

  datatype Result<T> = Ok(value: T) | Err(error: Error)

  /** The outcome of a recursion of bounded depth. */
  datatype Outcome<T> = Done(value: T) | Failed(error: Error) | TooDeep

  function Child<T>(pr: Project<T>, path: string, k: nat): string
    requires path in pr.files && k < |pr.files[path].imports|
  {
    pr.locate(path, pr.files[path].imports[k].path)
  }

  // ------------------------------------------- the plain recursive unfolding

  /** Resolution without cache and without cycle detection, to depth n. */
  function Unfold<T>(pr: Project<T>, path: string, n: nat): Outcome<T>
    decreases n, 0
  {
    if n == 0 then TooDeep
    else if path !in pr.files then Failed(Unreadable(path))
    else Fold(pr, path, |pr.files[path].imports|, n - 1)
  }

  /** The file merged with its first k imports. */
  function Fold<T>(pr: Project<T>, path: string, k: nat, n: nat): Outcome<T>
    requires path in pr.files && k <= |pr.files[path].imports|
    decreases n, k
  {
    if k == 0 then Done(pr.files[path].content)
    else Add(pr, path, k - 1, Fold(pr, path, k - 1, n), Unfold(pr, Child(pr, path, k - 1), n))
  }

  function Add<T>(pr: Project<T>, path: string, k: nat, before: Outcome<T>, child: Outcome<T>): Outcome<T>
    requires path in pr.files && k < |pr.files[path].imports|
  {
    if !before.Done? then before
    else if !child.Done? then child
    else
      match pr.merge(before.value, child.value, pr.files[path].imports[k].prefix)
      case Some(merged) => Done(merged)
      case None => Failed(Conflict(path))
  }

  lemma {:induction false} UnfoldIsStable<T>(pr: Project<T>, path: string, n: nat, m: nat)
    requires !Unfold(pr, path, n).TooDeep? && n <= m
    ensures Unfold(pr, path, m) == Unfold(pr, path, n)
    decreases n, 0
  {
    if path in pr.files {
      FoldIsStable(pr, path, |pr.files[path].imports|, n - 1, m - 1);
    }
  }

  lemma {:induction false} FoldIsStable<T>(pr: Project<T>, path: string, k: nat, n: nat, m: nat)
    requires path in pr.files && k <= |pr.files[path].imports|
    requires !Fold(pr, path, k, n).TooDeep? && n <= m
    ensures Fold(pr, path, k, m) == Fold(pr, path, k, n)
    decreases n, k
  {
    if k > 0 {
      FoldIsStable(pr, path, k - 1, n, m);
      if Fold(pr, path, k - 1, n).Done? {
        UnfoldIsStable(pr, Child(pr, path, k - 1), n, m);
      }
    }
  }

  /** The plain recursion comes to an end, with this outcome. */
  ghost predicate Ends<T(!new)>(pr: Project<T>, path: string, r: Outcome<T>)
  {
    !r.TooDeep? && exists n: nat :: Unfold(pr, path, n) == r
  }

  /** The plain recursion never comes to an end. */
  ghost predicate Diverges<T>(pr: Project<T>, path: string)
  {
    forall n: nat :: Unfold(pr, path, n).TooDeep?
  }

  lemma EndsIsUnique<T(!new)>(pr: Project<T>, path: string, r: Outcome<T>, s: Outcome<T>)
    requires Ends(pr, path, r) && Ends(pr, path, s)
    ensures r == s && !Diverges(pr, path)
  {
    var n :| Unfold(pr, path, n) == r;
    var m :| Unfold(pr, path, m) == s;
    if n <= m {
      UnfoldIsStable(pr, path, n, m);
    } else {
      UnfoldIsStable(pr, path, m, n);
    }
  }

  // ------------------------------------------------------------ import graph

  ghost function Imports<T>(pr: Project<T>): set<(string, string)>
  {
    set p, k | p in pr.files && 0 <= k < |pr.files[p].imports| :: (p, Child(pr, p, k))
  }

  /** A cycle of imports can be reached. */
  ghost predicate CycleBelow<T>(pr: Project<T>, path: string)
  {
    exists c :: Reaches(Imports(pr), path, c) && ReachesPlus(Imports(pr), c, c)
  }

  lemma ImportIsEdge<T>(pr: Project<T>, path: string, k: nat)
    requires path in pr.files && k < |pr.files[path].imports|
    ensures (path, Child(pr, path, k)) in Imports(pr)
  {
  }

  lemma {:induction false} FoldDone<T>(pr: Project<T>, path: string, k: nat, n: nat, j: nat)
    requires path in pr.files && j < k <= |pr.files[path].imports| && Fold(pr, path, k, n).Done?
    ensures Unfold(pr, Child(pr, path, j), n).Done?
    decreases k
  {
    if j < k - 1 {
      FoldDone(pr, path, k - 1, n, j);
    }
  }

  /** What a finished file imports is finished one level earlier. */
  lemma {:induction false} WalkIsDone<T>(pr: Project<T>, p: seq<string>, n: nat, i: nat)
    requires IsWalk(Imports(pr), p) && Unfold(pr, p[0], n).Done? && i < |p|
    ensures i < n && Unfold(pr, p[i], n - i).Done?
  {
    if i > 0 {
      WalkIsDone(pr, p, n, i - 1);
      assert (p[i - 1], p[i]) in Imports(pr);
      var k :| p[i - 1] in pr.files && 0 <= k < |pr.files[p[i - 1]].imports| && p[i] == Child(pr, p[i - 1], k);
      FoldDone(pr, p[i - 1], |pr.files[p[i - 1]].imports|, n - i, k);
    }
  }

  lemma {:induction false} NotOnCycle<T(!new)>(pr: Project<T>, c: string, n: nat)
    requires Unfold(pr, c, n).Done?
    ensures !ReachesPlus(Imports(pr), c, c)
  {
    if ReachesPlus(Imports(pr), c, c) {
      var p :| WalkBetween(Imports(pr), p, c, c) && |p| > 1;
      WalkIsDone(pr, p, n, |p| - 1);
      NotOnCycle(pr, c, n - (|p| - 1));
    }
  }

  /** A finished unfolding rules out cycles. */
  lemma DoneMeansNoCycle<T(!new)>(pr: Project<T>, path: string, n: nat)
    requires Unfold(pr, path, n).Done?
    ensures !CycleBelow(pr, path)
  {
    forall c | Reaches(Imports(pr), path, c)
      ensures !ReachesPlus(Imports(pr), c, c)
    {
      var p :| WalkBetween(Imports(pr), p, path, c);
      WalkIsDone(pr, p, n, |p| - 1);
      NotOnCycle(pr, c, n - (|p| - 1));
    }
  }

  /** Every import names a readable file, and merging never conflicts. */
  ghost predicate Harmonious<T(!new)>(pr: Project<T>)
  {
    && (forall p, k :: p in pr.files && 0 <= k < |pr.files[p].imports| ==> Child(pr, p, k) in pr.files)
    && (forall a, b, x :: pr.merge(a, b, x).Some?)
  }

  lemma {:induction false} HarmoniousNeverFails<T(!new)>(pr: Project<T>, path: string, n: nat)
    requires Harmonious(pr) && path in pr.files
    ensures !Unfold(pr, path, n).Failed?
    decreases n, 0
  {
    if n > 0 {
      FoldNeverFails(pr, path, |pr.files[path].imports|, n - 1);
    }
  }

  lemma {:induction false} FoldNeverFails<T(!new)>(pr: Project<T>, path: string, k: nat, n: nat)
    requires Harmonious(pr) && path in pr.files && k <= |pr.files[path].imports|
    ensures !Fold(pr, path, k, n).Failed?
    decreases n, k
  {
    if k > 0 {
      FoldNeverFails(pr, path, k - 1, n);
      HarmoniousNeverFails(pr, Child(pr, path, k - 1), n);
    }
  }

  // ------------------------------------------------------ divergence by cycle

  /** If the recursion on b is too deep at some depth, so is that on a, d
      levels further up. */
  ghost predicate Leads<T>(pr: Project<T>, a: string, b: string, d: nat)
  {
    forall n: nat :: Unfold(pr, b, n).TooDeep? ==> Unfold(pr, a, n + d).TooDeep?
  }

  lemma LeadsJoin<T>(pr: Project<T>, a: string, b: string, c: string, d: nat, e: nat)
    requires Leads(pr, a, b, d) && Leads(pr, b, c, e)
    ensures Leads(pr, a, c, d + e)
  {
    forall n: nat | Unfold(pr, c, n).TooDeep?
      ensures Unfold(pr, a, n + (d + e)).TooDeep?
    {
      assert Unfold(pr, b, n + e).TooDeep?;
      assert n + e + d == n + (d + e);
    }
  }

  /** A recursion that leads back to itself never ends. */
  lemma {:induction false} LoopDiverges<T>(pr: Project<T>, a: string, d: nat, n: nat)
    requires Leads(pr, a, a, d) && d > 0
    ensures Unfold(pr, a, n).TooDeep?
  {
    if n > 0 {
      if n <= d {
        assert Unfold(pr, a, 0).TooDeep?;
        assert Unfold(pr, a, 0 + d).TooDeep? && 0 + d == d;
      } else {
        LoopDiverges(pr, a, d, n - d);
        assert Unfold(pr, a, n - d + d).TooDeep?;
      }
      if !Unfold(pr, a, n).TooDeep? {
        UnfoldIsStable(pr, a, n, if n <= d then d else n);
      }
    }
  }

  ghost predicate FoldEnds<T(!new)>(pr: Project<T>, path: string, k: nat, acc: T)
    requires path in pr.files && k <= |pr.files[path].imports|
  {
    exists n: nat :: Fold(pr, path, k, n) == Done(acc)
  }

  /** With the first k imports done, the file hangs on import k. */
  lemma HangsOn<T(!new)>(pr: Project<T>, path: string, k: nat, acc: T)
    requires path in pr.files && k < |pr.files[path].imports| && FoldEnds(pr, path, k, acc)
    ensures Leads(pr, path, Child(pr, path, k), 1)
  {
    var m :| Fold(pr, path, k, m) == Done(acc);
    forall n: nat | Unfold(pr, Child(pr, path, k), n).TooDeep?
      ensures Unfold(pr, path, n + 1).TooDeep?
    {
      if !Fold(pr, path, k, n).TooDeep? {
        if n <= m {
          FoldIsStable(pr, path, k, n, m);
        } else {
          FoldIsStable(pr, path, k, m, n);
        }
      }
      assert Fold(pr, path, k + 1, n).TooDeep?;
      FoldStays(pr, path, k + 1, |pr.files[path].imports|, n);
    }
  }

  /** An outcome other than success decides the fold. */
  lemma {:induction false} FoldStays<T>(pr: Project<T>, path: string, j: nat, k: nat, n: nat)
    requires path in pr.files && j <= k <= |pr.files[path].imports| && !Fold(pr, path, j, n).Done?
    ensures Fold(pr, path, k, n) == Fold(pr, path, j, n)
  {
    if j < k {
      FoldStays(pr, path, j, k - 1, n);
    }
  }

  /** A failing import, or a failing merge, fails the file. */
  lemma FailsOn<T(!new)>(pr: Project<T>, path: string, k: nat, acc: T, child: Outcome<T>)
    requires path in pr.files && k < |pr.files[path].imports| && FoldEnds(pr, path, k, acc)
    requires Ends(pr, Child(pr, path, k), child)
    ensures var r := Add(pr, path, k, Done(acc), child);
            && (r.Done? ==> FoldEnds(pr, path, k + 1, r.value))
            && (r.Failed? ==> Ends(pr, path, r))
  {
    var m :| Fold(pr, path, k, m) == Done(acc);
    var l :| Unfold(pr, Child(pr, path, k), l) == child;
    var n := if m < l then l else m;
    FoldIsStable(pr, path, k, m, n);
    UnfoldIsStable(pr, Child(pr, path, k), l, n);
    var r := Add(pr, path, k, Done(acc), child);
    assert Fold(pr, path, k + 1, n) == r;
    if r.Failed? {
      FoldStays(pr, path, k + 1, |pr.files[path].imports|, n);
      assert Unfold(pr, path, n + 1) == r;
    }
  }

  lemma AllFolded<T(!new)>(pr: Project<T>, path: string, acc: T)
    requires path in pr.files && FoldEnds(pr, path, |pr.files[path].imports|, acc)
    ensures Ends(pr, path, Done(acc))
  {
    var n: nat :| Fold(pr, path, |pr.files[path].imports|, n) == Done(acc);
    assert Unfold(pr, path, n + 1) == Done(acc);
  }

  // ------------------------------------------------------- the real resolver

  class Resolver<!T(!new)> {
    const project: Project<T>
    var visiting: set<string>
    var cache: map<string, T>
    var resolvedFiles: seq<string>

    constructor (pr: Project<T>)
      ensures project == pr && visiting == {} && cache == map[] && resolvedFiles == [] && Valid()
    {
      project, visiting, cache, resolvedFiles := pr, {}, map[], [];
    }

    ghost predicate Valid()
      reads this
    {
      && visiting !! cache.Keys
      && (forall i, j :: 0 <= i < j < |resolvedFiles| ==> resolvedFiles[i] != resolvedFiles[j])
      && (forall p :: p in resolvedFiles <==> p in visiting || p in cache)
      && (forall p :: p in cache ==> p in project.files && Ends(project, p, Done(cache[p])))
      && (forall e :: e in Imports(project) && e.0 in cache ==> e.1 in cache)
    }

    /** What is known when a circular import has been found below `path`: the
        plain recursion hangs, or it leads back to a file being visited. */
    ghost predicate Hangs(path: string, back: string, d: nat, above: set<string>)
      reads this
    {
      || (Diverges(project, path) && CycleBelow(project, path))
      || (back in above && Leads(project, path, back, d) && Reaches(Imports(project), path, back))
    }

    lemma HangsFurtherUp(path: string, k: nat, acc: T, back: string, d: nat, above: set<string>)
      requires path in project.files && k < |project.files[path].imports| && FoldEnds(project, path, k, acc)
      requires Hangs(Child(project, path, k), back, d, above + {path})
      ensures Hangs(path, back, d + 1, above)
    {
      hide FoldEnds;
      var child := Child(project, path, k);
      HangsOn(project, path, k, acc);
      ImportIsEdge(project, path, k);
      EdgeReaches(Imports(project), path, child);
      if Diverges(project, child) && CycleBelow(project, child) {
        DivergesUp(path, child);
        CycleUp(path, child);
      } else {
        LeadsJoin(project, path, child, back, 1, d);
        ReachesTransitive(Imports(project), path, child, back);
        if back == path {
          forall n: nat
            ensures Unfold(project, path, n).TooDeep?
          {
            LoopDiverges(project, path, 1 + d, n);
          }
          ReachesSelf(Imports(project), path);
        }
      }
    }

    lemma DivergesUp(path: string, child: string)
      requires Diverges(project, child) && Leads(project, path, child, 1)
      ensures Diverges(project, path)
    {
      forall n: nat
        ensures Unfold(project, path, n).TooDeep?
      {
        if n > 0 {
          assert Unfold(project, child, n - 1).TooDeep?;
          assert n - 1 + 1 == n;
        }
      }
    }

    lemma CycleUp(path: string, child: string)
      requires CycleBelow(project, child) && Reaches(Imports(project), path, child)
      ensures CycleBelow(project, path)
    {
      var c :| Reaches(Imports(project), child, c) && ReachesPlus(Imports(project), c, c);
      ReachesTransitive(Imports(project), path, child, c);
    }

    method Enter(path: string)
      requires Valid() && path !in visiting && path !in cache
      modifies `visiting, `resolvedFiles
      ensures Valid() && visiting == old(visiting) + {path}
    {
      visiting := visiting + {path};
      resolvedFiles := resolvedFiles + [path];
    }

    method Leave(path: string, authoring: T)
      requires Valid() && path in visiting && path in project.files && Ends(project, path, Done(authoring))
      requires forall j :: 0 <= j < |project.files[path].imports| ==> Child(project, path, j) in cache
      modifies `visiting, `cache
      ensures Valid() && visiting == old(visiting) - {path} && cache == old(cache)[path := authoring]
    {
      ClosedWith(path, cache);
      visiting := visiting - {path};
      cache := cache[path := authoring];
    }

    /** Resolves one file and everything it imports. */
    method ResolveDefinition(path: string) returns (r: Result<T>, ghost back: string, ghost d: nat)
      requires Valid() && visiting <= project.files.Keys
      modifies this
      decreases project.files.Keys - visiting
      ensures r.Ok? ==> Valid() && visiting == old(visiting) && path in cache && cache[path] == r.value
      ensures r.Ok? ==> Ends(project, path, Done(r.value)) && old(cache).Keys <= cache.Keys
      ensures r.Ok? ==> forall q :: q in cache && q !in old(cache) ==> Reaches(Imports(project), path, q)
      ensures r.Err? && r.error.Circular? ==> Hangs(path, back, d, old(visiting))
      ensures r.Err? && !r.error.Circular? ==> Ends(project, path, Failed(r.error))
    {
      hide Imports, Ends, Diverges, CycleBelow, Leads, FoldEnds, Reaches, Valid;
      back, d := path, 0;
      if path in visiting {
        LeadsToItself(path);
        return Err(Circular(path)), path, 0;
      }
      if path in cache {
        CacheIsRight(path);
        return Ok(cache[path]), path, 0;
      }
      Enter(path);
      if path !in project.files {
        NotReadable(path);
        return Err(Unreadable(path)), path, 0;
      }
      var imports := project.files[path].imports;
      var authoring := project.files[path].content;
      FoldStarts(path);
      for k := 0 to |imports|
        invariant Valid() && visiting == old(visiting) + {path} && old(cache).Keys <= cache.Keys
        invariant FoldEnds(project, path, k, authoring)
        invariant forall j :: 0 <= j < k ==> Child(project, path, j) in cache
        invariant forall q :: q in cache && q !in old(cache) ==> Reaches(Imports(project), path, q)
      {
        var child := Child(project, path, k);
        ghost var known := cache;
        var resolved, b, e := ResolveDefinition(child);
        if resolved.Err? {
          if resolved.error.Circular? {
            HangsFurtherUp(path, k, authoring, b, e, old(visiting));
          } else {
            FailsOn(project, path, k, authoring, Failed(resolved.error));
          }
          return Err(resolved.error), b, e + 1;
        }
        FailsOn(project, path, k, authoring, Done(resolved.value));
        ReachesThrough(path, k, known, cache);
        match project.merge(authoring, resolved.value, imports[k].prefix)
        case None => return Err(Conflict(path)), path, 0;
        case Some(merged) => authoring := merged;
      }
      AllFolded(project, path, authoring);
      ReachesSelf(Imports(project), path);
      Leave(path, authoring);
      r := Ok(authoring);
    }

    lemma CacheIsRight(path: string)
      requires Valid() && path in cache
      ensures Ends(project, path, Done(cache[path]))
    {
    }

    lemma LeadsToItself(path: string)
      ensures Leads(project, path, path, 0) && Reaches(Imports(project), path, path)
    {
      ReachesSelf(Imports(project), path);
      forall n: nat | Unfold(project, path, n).TooDeep?
        ensures Unfold(project, path, n + 0).TooDeep?
      {
        assert n + 0 == n;
      }
    }

    lemma NotReadable(path: string)
      requires path !in project.files
      ensures Ends(project, path, Failed(Unreadable(path)))
    {
      assert Unfold(project, path, 1) == Failed(Unreadable(path));
    }

    lemma FoldStarts(path: string)
      requires path in project.files
      ensures FoldEnds(project, path, 0, project.files[path].content)
    {
      assert Fold(project, path, 0, 0) == Done(project.files[path].content);
    }

    lemma ReachesThrough(path: string, k: nat, before: map<string, T>, after: map<string, T>)
      requires path in project.files && k < |project.files[path].imports|
      requires forall q :: q in after && q !in before ==> Reaches(Imports(project), Child(project, path, k), q)
      ensures forall q :: q in after && q !in before ==> Reaches(Imports(project), path, q)
    {
      ImportIsEdge(project, path, k);
      EdgeReaches(Imports(project), path, Child(project, path, k));
      forall q | q in after && q !in before
        ensures Reaches(Imports(project), path, q)
      {
        ReachesTransitive(Imports(project), path, Child(project, path, k), q);
      }
    }

    lemma ClosedWith(path: string, done: map<string, T>)
      requires path in project.files
      requires forall e :: e in Imports(project) && e.0 in done ==> e.1 in done
      requires forall j :: 0 <= j < |project.files[path].imports| ==> Child(project, path, j) in done
      ensures forall e :: e in Imports(project) && (e.0 in done || e.0 == path) ==> e.1 in done
    {
    }
  }

  /** A scenario resolves exactly when the plain recursion over its imports ends
      in success, and to the same result; then no cycle is reachable and every
      reachable file is listed exactly once.  A circular import is reported
      exactly when the plain recursion would never end. */
  method ResolveScenario<T(!new)>(pr: Project<T>, path: string) returns (r: Result<T>, files: seq<string>)
    ensures r.Ok? <==> exists v :: Ends(pr, path, Done(v))
    ensures r.Ok? ==> Ends(pr, path, Done(r.value)) && !CycleBelow(pr, path)
    ensures r.Ok? ==> forall i, j :: 0 <= i < j < |files| ==> files[i] != files[j]
    ensures r.Ok? ==> forall q :: q in files <==> Reaches(Imports(pr), path, q)
    ensures r.Err? && r.error.Circular? <==> Diverges(pr, path)
    ensures Diverges(pr, path) ==> CycleBelow(pr, path)
    ensures r.Err? && !r.error.Circular? ==> Ends(pr, path, Failed(r.error))
    ensures Harmonious(pr) && path in pr.files ==> (r.Err? <==> CycleBelow(pr, path))
  {
    hide Imports, Unfold, Reaches, Leads, CycleBelow, Harmonious;
    var resolver := new Resolver(pr);
    ghost var back, d;
    r, back, d := resolver.ResolveDefinition(path);
    files := resolver.resolvedFiles;
    OutcomeIsOne(pr, path, r);
    if r.Ok? {
      SuccessHasNoCycle(pr, path, r.value);
      CacheIsReachable(pr, path, resolver.cache.Keys);
    } else if Harmonious(pr) && path in pr.files {
      HarmoniousOnlyLoops(pr, path, r.error);
    }
  }

  lemma OutcomeIsOne<T(!new)>(pr: Project<T>, path: string, r: Result<T>)
    requires r.Ok? ==> Ends(pr, path, Done(r.value))
    requires r.Err? && !r.error.Circular? ==> Ends(pr, path, Failed(r.error))
    requires r.Err? && r.error.Circular? ==> Diverges(pr, path)
    ensures r.Ok? <==> exists v :: Ends(pr, path, Done(v))
    ensures r.Err? && r.error.Circular? <==> Diverges(pr, path)
  {
    if r.Err? && exists v :: Ends(pr, path, Done(v)) {
      var v :| Ends(pr, path, Done(v));
      EndsIsUnique(pr, path, Done(v), if r.error.Circular? then Done(v) else Failed(r.error));
    }
    if Diverges(pr, path) && (r.Ok? || !r.error.Circular?) {
      var o := if r.Ok? then Done(r.value) else Failed(r.error);
      EndsIsUnique(pr, path, o, o);
    }
  }

  lemma SuccessHasNoCycle<T(!new)>(pr: Project<T>, path: string, v: T)
    requires Ends(pr, path, Done(v))
    ensures !CycleBelow(pr, path)
  {
    var n :| Unfold(pr, path, n) == Done(v);
    DoneMeansNoCycle(pr, path, n);
  }

  lemma CacheIsReachable<T(!new)>(pr: Project<T>, path: string, files: set<string>)
    requires path in files && forall e :: e in Imports(pr) && e.0 in files ==> e.1 in files
    requires forall q :: q in files ==> Reaches(Imports(pr), path, q)
    ensures forall q :: q in files <==> Reaches(Imports(pr), path, q)
  {
    forall q | Reaches(Imports(pr), path, q)
      ensures q in files
    {
      ReachStaysInside(Imports(pr), files, path, q);
    }
  }

  lemma HarmoniousOnlyLoops<T(!new)>(pr: Project<T>, path: string, error: Error)
    requires Harmonious(pr) && path in pr.files
    ensures !Ends(pr, path, Failed(error))
  {
    forall n: nat
      ensures Unfold(pr, path, n) != Failed(error)
    {
      HarmoniousNeverFails(pr, path, n);
    }
  }
}
