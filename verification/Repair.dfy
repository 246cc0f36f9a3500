/** Planning and creating the local state directories (src/project_maya/repair.py). */
module Repair {
  import opened Sequences
  import opened FileTree

  /** Paths are relative to the parent of the data directory, whose name is `name`. */
  datatype Category =
    | Filesystem | Memory | Governance | Tasks | Connectors | Analytics | Metabase | Documents | Update | Backup
    | Migration | Logs | Cache

  /** An action on a target: none, or a directory planned or created. */
  datatype Kind = Nothing | PlannedDirectory | CreatedDirectory

  datatype Action = Action(path: Path, kind: Kind, category: Category)

  datatype Failure = RootNotDirectory | ParentMissing | TargetNotDirectory(path: Path) | CannotCreate(path: Path)

  /** A required directory with the required directories in it. */
  datatype Area = Area(name: string, subs: seq<string>)

  const REQUIRED_AREAS: seq<Area> := [
    Area("memory", ["registry", "vector", "holographic", "context"]),
    Area("governance", ["policies", "audit"]),
    Area("tasks", []),
    Area("integrations", ["google", "slack", "telegram"]),
    Area("analytics", ["exports"]),
    Area("metabase", ["provisioning"]),
    Area("documents", ["outputs", "cache"]),
    Area("updates", []), Area("backups", []), Area("migrations", []), Area("logs", []), Area("cache", [])]

  function Sub(area: string): string -> Path
  {
    sub => [area, sub]
  }

  /** An area and what is in it. */
  function Block(a: Area): seq<Path>
  {
    [[a.name]] + Map(a.subs, Sub(a.name))
  }

  /** The paths of the areas in the order of the list, each area before what is in it. */
  function PathsOf(areas: seq<Area>): seq<Path>
  {
    if areas == [] then []
    else PathsOf(areas[..|areas| - 1]) + Block(areas[|areas| - 1])
  }

  /** `_repair_category`. */
  function CategoryOf(name: string, target: Path): Category
  {
    if target == [name] || |target| < 2 || target[0] != name then Filesystem
    else match target[1]
      case "memory" => Memory
      case "governance" => Governance
      case "tasks" => Tasks
      case "integrations" => Connectors
      case "analytics" => Analytics
      case "metabase" => Metabase
      case "documents" => Documents
      case "updates" => Update
      case "backups" => Backup
      case "migrations" => Migration
      case "logs" => Logs
      case "cache" => Cache
      case _ => Filesystem
  }

  /* ----- visiting the targets ----- */

  datatype Result = Result(tree: Tree, actions: seq<Action>, failure: Option<Failure>)

  /** What happens at one target. */
  function Visit(name: string, apply: bool, r: Result, target: Path): Result
  {
    if r.failure != None then r
    else if target in r.tree.files then r.(failure := Some(TargetNotDirectory(target)))
    else if target in r.tree.dirs then
      r.(actions := r.actions + [Action(target, Nothing, CategoryOf(name, target))])
    else
      var planned := r.actions + [Action(target, if apply then CreatedDirectory else PlannedDirectory,
                                         CategoryOf(name, target))];
      if !apply then r.(actions := planned)
      else match MakeDirs(r.tree, target)
        case None => r.(actions := planned, failure := Some(CannotCreate(target)))
        case Some(t) => r.(tree := t, actions := planned)
  }

  function VisitAll(name: string, apply: bool, t: Tree, targets: seq<Path>): Result
  {
    if targets == [] then Result(t, [], None)
    else Visit(name, apply, VisitAll(name, apply, t, targets[..|targets| - 1]), targets[|targets| - 1])
  }

  /** The data directory, then every required directory in it. */
  function Targets(name: string, areas: seq<Area>): seq<Path>
  {
    [[name]] + Map(PathsOf(areas), Under(name))
  }

  function Under(name: string): Path -> Path
  {
    (p: Path) => [name] + p
  }

  /** `_ensure_repairable_root`. */
  function RootFailure(name: string, t: Tree): Option<Failure>
  {
    if [name] in t.files then Some(RootNotDirectory)
    else if [] !in t.dirs then Some(ParentMissing)
    else None
  }

  function RepairState(name: string, apply: bool, t: Tree): Result
  {
    if RootFailure(name, t) != None then Result(t, [], RootFailure(name, t))
    else VisitAll(name, apply, t, Targets(name, REQUIRED_AREAS))
  }

  class LocalState {
    var tree: Tree

    constructor (tree: Tree)
      ensures this.tree == tree
    {
      this.tree := tree;
    }

    /** The loop over the targets. */
    method VisitTargets(name: string, apply: bool, targets: seq<Path>)
      returns (actions: seq<Action>, failure: Option<Failure>)
      modifies this
      ensures Result(tree, actions, failure) == VisitAll(name, apply, old(tree), targets)
    {
      actions, failure := [], None;
      for i := 0 to |targets|
        invariant failure == None
        invariant Result(tree, actions, None) == VisitAll(name, apply, old(tree), targets[..i])
      {
        PrefixStep(targets, i);
        var target := targets[i];
        if target in tree.files {
          failure := Some(TargetNotDirectory(target));
          FailureStays(name, apply, old(tree), targets, i + 1);
          return;
        }
        if target in tree.dirs {
          actions := actions + [Action(target, Nothing, CategoryOf(name, target))];
          continue;
        }
        actions := actions + [Action(target, if apply then CreatedDirectory else PlannedDirectory,
                                     CategoryOf(name, target))];
        if apply {
          var made := MakeDirs(tree, target);
          if made == None {
            failure := Some(CannotCreate(target));
            FailureStays(name, apply, old(tree), targets, i + 1);
            return;
          }
          tree := made.value;
        }
      }
      assert targets[..|targets|] == targets;
    }

    /** `repair_local_state`. */
    method RepairLocalState(name: string, apply: bool) returns (actions: seq<Action>, failure: Option<Failure>)
      modifies this
      ensures Result(tree, actions, failure) == RepairState(name, apply, old(tree))
    {
      failure := RootFailure(name, tree);
      if failure != None {
        return [], failure;
      }
      actions, failure := VisitTargets(name, apply, Targets(name, REQUIRED_AREAS));
    }
  }

  lemma {:induction false} FailureStays(name: string, apply: bool, t: Tree, targets: seq<Path>, n: nat)
    requires n <= |targets| && VisitAll(name, apply, t, targets[..n]).failure != None
    ensures VisitAll(name, apply, t, targets) == VisitAll(name, apply, t, targets[..n])
  {
    if n == |targets| {
      assert targets[..n] == targets;
    } else {
      var init := targets[..|targets| - 1];
      assert init[..n] == targets[..n];
      FailureStays(name, apply, t, init, n);
    }
  }

  /* ----- a dry run predicts the apply ----- */

  predicate Distinct<T(==)>(xs: seq<T>)
  {
    forall i, j :: 0 <= i < j < |xs| ==> xs[i] != xs[j]
  }

  predicate HasParent(targets: seq<Path>, j: nat)
    requires j < |targets|
  {
    var p := targets[j];
    p != [] && (|p| == 1 || p[..|p| - 1] in targets[..j])
  }

  /** No target twice, and the parent of a target is the root or an earlier target. */
  predicate ParentsFirst(targets: seq<Path>)
  {
    Distinct(targets) && forall j :: 0 <= j < |targets| ==> HasParent(targets, j)
  }

  /** The same visit, apart from whether a directory was planned or created. */
  predicate SameVisit(dry: Action, applied: Action)
  {
    && dry.path == applied.path && dry.category == applied.category
    && applied.kind == if dry.kind == PlannedDirectory then CreatedDirectory else dry.kind
  }

  predicate SameVisits(dry: seq<Action>, applied: seq<Action>)
  {
    |dry| == |applied| && forall i :: 0 <= i < |dry| ==> SameVisit(dry[i], applied[i])
  }

  /** Applying adds exactly the targets that were missing. */
  ghost predicate Created(before: Tree, after: Tree, targets: seq<Path>)
  {
    && after.files == before.files
    && (forall p :: p in after.dirs <==> p in before.dirs || (p in targets && p !in before.files))
  }

  lemma {:induction false} DryRunPredicts(name: string, t: Tree, targets: seq<Path>)
    requires Valid(t) && [] in t.dirs && ParentsFirst(targets)
    ensures var dry, applied := VisitAll(name, false, t, targets), VisitAll(name, true, t, targets);
      && dry.tree == t
      && dry.failure == applied.failure
      && (dry.failure != None ==> dry.failure.value.TargetNotDirectory?)
      && SameVisits(dry.actions, applied.actions)
      && (applied.failure == None ==> Valid(applied.tree) && Created(t, applied.tree, targets))
      && (applied.failure == None ==> forall p :: p in targets ==> p !in t.files)
  {
    if targets != [] {
      var init, last := targets[..|targets| - 1], targets[|targets| - 1];
      assert targets == init + [last];
      assert ParentsFirst(init) by {
        forall j | 0 <= j < |init| ensures HasParent(init, j) {
          assert HasParent(targets, j) && init[..j] == targets[..j];
        }
      }
      DryRunPredicts(name, t, init);
      var applied := VisitAll(name, true, t, init);
      if applied.failure == None {
        LastIsNew(t, applied.tree, targets);
        if !Exists(t, last) {
          MakeLeaf(applied.tree, last);
        }
      }
    }
  }

  /** The last target exists after the earlier ones were made exactly if it existed before, and its parent
      is a directory. */
  lemma LastIsNew(t: Tree, made: Tree, targets: seq<Path>)
    requires Valid(t) && [] in t.dirs && ParentsFirst(targets) && targets != []
    requires Created(t, made, targets[..|targets| - 1])
    requires forall p :: p in targets[..|targets| - 1] ==> p !in t.files
    ensures var last := targets[|targets| - 1];
      && (last in made.files <==> last in t.files) && (last in made.dirs <==> last in t.dirs)
      && last != [] && last[..|last| - 1] in made.dirs
  {
    var n := |targets| - 1;
    var last := targets[n];
    assert last !in targets[..n];
    assert HasParent(targets, n);
    if |last| == 1 {
      assert last[..0] == [];
    }
  }

  /** Below an existing directory `mkdir` adds just the one directory. */
  lemma MakeLeaf(t: Tree, p: Path)
    requires Valid(t) && p != [] && p[..|p| - 1] in t.dirs && !Exists(t, p)
    ensures MakeDirs(t, p) == Some(t.(dirs := t.dirs + {p})) && Valid(t.(dirs := t.dirs + {p}))
  {
    ParentAncestors(p);
    assert Ancestors(p) <= t.dirs;
    assert !FileAbove(t, p);
    assert t.dirs + Ancestors(p) + {p} == t.dirs + {p};
    forall f | f in t.files ensures f !in t.dirs + {p} && Ancestors(f) <= t.dirs + {p} {
    }
  }

  lemma {:induction false} NothingToDo(name: string, apply: bool, t: Tree, targets: seq<Path>)
    requires forall p :: p in targets ==> p in t.dirs && p !in t.files
    ensures var r := VisitAll(name, apply, t, targets);
      r.failure == None && r.tree == t && forall a :: a in r.actions ==> a.kind == Nothing
  {
    if targets != [] {
      assert targets == targets[..|targets| - 1] + [targets[|targets| - 1]];
      NothingToDo(name, apply, t, targets[..|targets| - 1]);
    }
  }

  /** What a dry run reports: for each target whether it is there already or would be created, up to the first
      that is a file. */
  lemma {:induction false} DryRunReport(name: string, t: Tree, targets: seq<Path>)
    ensures var dry := VisitAll(name, false, t, targets);
      && dry.tree == t
      && (dry.failure == None <==> forall p :: p in targets ==> p !in t.files)
      && |dry.actions| <= |targets| && (dry.failure == None ==> |dry.actions| == |targets|)
      && (dry.failure != None ==>
            |dry.actions| < |targets| && targets[|dry.actions|] in t.files
            && dry.failure == Some(TargetNotDirectory(targets[|dry.actions|])))
      && forall i :: 0 <= i < |dry.actions| ==>
           dry.actions[i] == Action(targets[i], if targets[i] in t.dirs then Nothing else PlannedDirectory,
                                    CategoryOf(name, targets[i]))
  {
    if targets != [] {
      DryRunReport(name, t, targets[..|targets| - 1]);
      MembersOfInit(targets);
    }
  }

  /* ----- the required directories ----- */

  /** No area is listed twice, and nothing twice in one area. */
  predicate WellFormed(areas: seq<Area>)
  {
    && (forall i, j :: 0 <= i < j < |areas| ==> areas[i].name != areas[j].name)
    && (forall a :: a in areas ==> Distinct(a.subs))
  }

  lemma {:induction false} FirstPartIsArea(areas: seq<Area>, p: Path)
    requires p in PathsOf(areas)
    ensures p != [] && exists a :: a in areas && a.name == p[0]
  {
    var init, last := areas[..|areas| - 1], areas[|areas| - 1];
    if p in PathsOf(init) {
      FirstPartIsArea(init, p);
    } else {
      assert last in areas;
    }
  }

  lemma DistinctAppend<T>(xs: seq<T>, ys: seq<T>)
    requires Distinct(xs) && Distinct(ys) && forall x :: x in xs ==> x !in ys
    ensures Distinct(xs + ys)
  {
    forall i, j | 0 <= i < j < |xs + ys| ensures (xs + ys)[i] != (xs + ys)[j] {
      if i < |xs| <= j {
        assert xs[i] in xs && ys[j - |xs|] in ys;
      }
    }
  }

  lemma AreaDistinct(a: Area)
    requires Distinct(a.subs)
    ensures Distinct(Block(a))
  {
    var subs := Map(a.subs, Sub(a.name));
    forall i, j | 0 <= i < j < |subs| ensures subs[i] != subs[j] {
      assert subs[i][1] == a.subs[i] && subs[j][1] == a.subs[j];
    }
    forall p | p in subs ensures p != [a.name] {
      assert |p| == 2;
    }
    DistinctAppend([[a.name]], subs);
  }

  /** Nothing is listed twice. */
  lemma {:induction false} PathsDistinct(areas: seq<Area>)
    requires WellFormed(areas)
    ensures Distinct(PathsOf(areas))
  {
    if areas != [] {
      var init, last := areas[..|areas| - 1], areas[|areas| - 1];
      PathsDistinct(init);
      AreaDistinct(last);
      var block := Block(last);
      forall p | p in PathsOf(init) ensures p !in block {
        FirstPartIsArea(init, p);
        var a :| a in init && a.name == p[0];
        assert forall q :: q in block ==> q[0] == last.name;
      }
      DistinctAppend(PathsOf(init), block);
    }
  }

  /** Every directory is listed after the one it is in. */
  lemma {:induction false} PathsHaveParents(areas: seq<Area>, j: nat)
    requires j < |PathsOf(areas)|
    ensures HasParent(PathsOf(areas), j)
  {
    var init, last := PathsOf(areas[..|areas| - 1]), areas[|areas| - 1];
    if j < |init| {
      PathsHaveParents(areas[..|areas| - 1], j);
      assert PathsOf(areas)[..j] == init[..j];
    } else if j > |init| {
      var p := PathsOf(areas)[j];
      assert p == [last.name, last.subs[j - |init| - 1]];
      assert p[..1] == [last.name] == PathsOf(areas)[|init|];
      assert PathsOf(areas)[|init|] in PathsOf(areas)[..j];
    }
  }

  lemma TargetsAreParentsFirst(name: string, areas: seq<Area>)
    requires WellFormed(areas)
    ensures ParentsFirst(Targets(name, areas))
  {
    PathsDistinct(areas);
    var ps, ts := PathsOf(areas), Targets(name, areas);
    forall i, j | 0 <= i < j < |ts| ensures ts[i] != ts[j] {
      FirstPartIsArea(areas, ps[j - 1]);
      assert ts[j][1..] == ps[j - 1];
      assert ts[i][1..] == if i == 0 then [] else ps[i - 1];
    }
    forall j | 0 <= j < |ts| ensures HasParent(ts, j) {
      if j > 0 {
        PathsHaveParents(areas, j - 1);
        ParentBelow(name, ps, j - 1);
      }
    }
  }

  lemma ParentBelow(name: string, ps: seq<Path>, j: nat)
    requires j < |ps| && HasParent(ps, j)
    ensures HasParent([[name]] + Map(ps, Under(name)), j + 1)
  {
    var ts, p := [[name]] + Map(ps, Under(name)), ps[j];
    ParentUnder(name, p);
    if |p| == 1 {
      InPrefix(ts, 0, j + 1);
    } else {
      var i :| 0 <= i < j && ps[i] == p[..|p| - 1];
      InPrefix(ts, i + 1, j + 1);
    }
  }

  lemma ParentUnder(name: string, p: Path)
    requires p != []
    ensures ([name] + p)[..|p|] == [name] + p[..|p| - 1]
    ensures |p| == 1 ==> [name] + p[..|p| - 1] == [name]
  {
  }

  lemma InPrefix<T>(xs: seq<T>, i: nat, j: nat)
    requires i < j <= |xs|
    ensures xs[i] in xs[..j]
  {
    assert xs[..j][i] == xs[i];
  }

  /** The list of the code: no area and nothing in an area repeats. */
  lemma RequiredAreasWellFormed()
    ensures WellFormed(REQUIRED_AREAS)
  {
    forall i, j | 0 <= i < j < |REQUIRED_AREAS| ensures REQUIRED_AREAS[i].name != REQUIRED_AREAS[j].name {
      AreaNamesDiffer(i, j);
    }
    forall a | a in REQUIRED_AREAS ensures Distinct(a.subs) {
      var i :| 0 <= i < |REQUIRED_AREAS| && a == REQUIRED_AREAS[i];
      SubsDistinct(i);
    }
  }

  /** Already the length and the first letter tell two areas apart. */
  lemma AreaNamesDiffer(i: nat, j: nat)
    requires i < j < |REQUIRED_AREAS|
    ensures REQUIRED_AREAS[i].name != REQUIRED_AREAS[j].name
  {
    var a, b := REQUIRED_AREAS[i].name, REQUIRED_AREAS[j].name;
    assert |a| != |b| || a[0] != b[0];
  }

  /** And already the first letter two directories in one area. */
  lemma SubsDistinct(i: nat)
    requires i < |REQUIRED_AREAS|
    ensures Distinct(REQUIRED_AREAS[i].subs)
  {
    var subs := REQUIRED_AREAS[i].subs;
    forall j, k | 0 <= j < k < |subs| ensures subs[j] != subs[k] {
      assert subs[j][0] != subs[k][0];
    }
  }

  /** The required directories one by one. */
  const REQUIRED_DIRECTORIES: seq<Path> := [
    ["memory"], ["memory", "registry"], ["memory", "vector"], ["memory", "holographic"], ["memory", "context"],
    ["governance"], ["governance", "policies"], ["governance", "audit"], ["tasks"],
    ["integrations"], ["integrations", "google"], ["integrations", "slack"], ["integrations", "telegram"],
    ["analytics"], ["analytics", "exports"], ["metabase"], ["metabase", "provisioning"],
    ["documents"], ["documents", "outputs"], ["documents", "cache"],
    ["updates"], ["backups"], ["migrations"], ["logs"], ["cache"]]

  lemma PathsLast(areas: seq<Area>, a: Area)
    ensures PathsOf(areas + [a]) == PathsOf(areas) + Block(a)
  {
    assert (areas + [a])[..|areas|] == areas;
  }

  const STARTS: seq<nat> := [0, 5, 8, 9, 13, 15, 17, 20, 21, 22, 23, 24, 25]

  lemma BlockSizes(n: nat)
    requires n < |REQUIRED_AREAS|
    ensures STARTS[n] + 1 + |REQUIRED_AREAS[n].subs| == STARTS[n + 1] <= |REQUIRED_DIRECTORIES|
  {
  }

  lemma BlockHead(n: nat)
    requires n < |REQUIRED_AREAS|
    ensures REQUIRED_DIRECTORIES[STARTS[n]] == [REQUIRED_AREAS[n].name]
  {
  }

  lemma BlockSub(n: nat, k: nat)
    requires n < |REQUIRED_AREAS| && k < |REQUIRED_AREAS[n].subs|
    ensures STARTS[n] + 1 + k < |REQUIRED_DIRECTORIES|
    ensures REQUIRED_DIRECTORIES[STARTS[n] + 1 + k] == [REQUIRED_AREAS[n].name, REQUIRED_AREAS[n].subs[k]]
  {
    BlockSizes(n);
  }

  lemma BlockIsSlice(paths: seq<Path>, start: nat, a: Area)
    requires start + 1 + |a.subs| <= |paths| && paths[start] == [a.name]
    requires forall k :: 0 <= k < |a.subs| ==> paths[start + 1 + k] == [a.name, a.subs[k]]
    ensures paths[..start] + Block(a) == paths[..start + 1 + |a.subs|]
  {
    var block := Block(a);
    assert |block| == 1 + |a.subs|;
    forall k | 0 <= k < |block| ensures block[k] == paths[start + k] {
      if k > 0 {
        assert block[k] == [a.name, a.subs[k - 1]] == paths[start + 1 + (k - 1)];
      }
    }
    assert paths[..start + 1 + |a.subs|] == paths[..start] + paths[start..start + 1 + |a.subs|];
  }

  /** Area `n` and what is in it stand in `paths` from position `starts[n]` on. */
  predicate LaidOut(areas: seq<Area>, paths: seq<Path>, starts: seq<nat>, n: nat)
    requires n < |areas| && |starts| == |areas| + 1
  {
    && starts[n] + 1 + |areas[n].subs| == starts[n + 1] <= |paths|
    && paths[starts[n]] == [areas[n].name]
    && forall k :: 0 <= k < |areas[n].subs| ==> paths[starts[n] + 1 + k] == [areas[n].name, areas[n].subs[k]]
  }

  lemma {:induction false} PathsUpTo(areas: seq<Area>, paths: seq<Path>, starts: seq<nat>, n: nat)
    requires |starts| == |areas| + 1 && starts[0] == 0 && n <= |areas|
    requires forall m :: 0 <= m < |areas| ==> LaidOut(areas, paths, starts, m)
    ensures starts[n] <= |paths| && PathsOf(areas[..n]) == paths[..starts[n]]
  {
    if n > 0 {
      PathsUpTo(areas, paths, starts, n - 1);
      assert LaidOut(areas, paths, starts, n - 1);
      PrefixStep(areas, n - 1);
      PathsLast(areas[..n - 1], areas[n - 1]);
      BlockIsSlice(paths, starts[n - 1], areas[n - 1]);
    }
  }

  lemma RequiredLaidOut(n: nat)
    requires n < |REQUIRED_AREAS|
    ensures LaidOut(REQUIRED_AREAS, REQUIRED_DIRECTORIES, STARTS, n)
  {
    BlockSizes(n);
    BlockHead(n);
    forall k | 0 <= k < |REQUIRED_AREAS[n].subs|
      ensures REQUIRED_DIRECTORIES[STARTS[n] + 1 + k] == [REQUIRED_AREAS[n].name, REQUIRED_AREAS[n].subs[k]]
    {
      BlockSub(n, k);
    }
  }

  /** The areas give exactly the listed directories, in their order. */
  lemma RequiredDirectoriesListed()
    ensures PathsOf(REQUIRED_AREAS) == REQUIRED_DIRECTORIES
  {
    forall n | 0 <= n < |REQUIRED_AREAS| ensures LaidOut(REQUIRED_AREAS, REQUIRED_DIRECTORIES, STARTS, n) {
      RequiredLaidOut(n);
    }
    PathsUpTo(REQUIRED_AREAS, REQUIRED_DIRECTORIES, STARTS, |REQUIRED_AREAS|);
    assert REQUIRED_AREAS[..|REQUIRED_AREAS|] == REQUIRED_AREAS;
    assert STARTS[12] == 25 && REQUIRED_DIRECTORIES[..25] == REQUIRED_DIRECTORIES;
  }

  /* ----- categories ----- */

  /** A directory has the category of the area it is in; the data directory itself and anything unknown count
      as file system. */
  lemma CategoryByArea(name: string, area: string, rest: Path)
    ensures CategoryOf(name, [name, area] + rest) == CategoryOf(name, [name, area])
    ensures CategoryOf(name, [name]) == Filesystem
    ensures forall other :: other != name ==> CategoryOf(name, [other, area] + rest) == Filesystem
  {
    assert ([name, area] + rest)[0] == name && ([name, area] + rest)[1] == area;
    forall other | other != name ensures CategoryOf(name, [other, area] + rest) == Filesystem {
      assert ([other, area] + rest)[0] == other;
    }
  }

  const AREA_CATEGORIES: seq<Category> := [
    Memory, Governance, Tasks, Connectors, Analytics, Metabase, Documents, Update, Backup, Migration, Logs, Cache]

  /** Each required area has a category of its own. */
  lemma CategoryOfArea(name: string, n: nat)
    requires n < |REQUIRED_AREAS|
    ensures CategoryOf(name, [name, REQUIRED_AREAS[n].name]) == AREA_CATEGORIES[n]
  {
    if n < 6 {
      CategoryOfEarlyArea(name, n);
    } else {
      CategoryOfLateArea(name, n);
    }
  }

  lemma CategoryOfEarlyArea(name: string, n: nat)
    requires n < 6
    ensures CategoryOf(name, [name, REQUIRED_AREAS[n].name]) == AREA_CATEGORIES[n]
  {
  }

  lemma CategoryOfLateArea(name: string, n: nat)
    requires 6 <= n < |REQUIRED_AREAS|
    ensures CategoryOf(name, [name, REQUIRED_AREAS[n].name]) == AREA_CATEGORIES[n]
  {
  }

  lemma CategoriesDiffer(n: nat, m: nat)
    requires n < m < |AREA_CATEGORIES|
    ensures AREA_CATEGORIES[n] != AREA_CATEGORIES[m] && AREA_CATEGORIES[n] != Filesystem
  {
  }

  /** So a visit of a required directory is reported under its area, and only there. */
  lemma RequiredCategory(name: string, n: nat, rest: Path)
    requires n < |REQUIRED_AREAS|
    ensures CategoryOf(name, [name, REQUIRED_AREAS[n].name] + rest) == AREA_CATEGORIES[n]
  {
    CategoryByArea(name, REQUIRED_AREAS[n].name, rest);
    CategoryOfArea(name, n);
  }

  /** A repair does not start where the data directory is a file or its parent is missing. */
  lemma RepairStartsIff(name: string, apply: bool, t: Tree)
    ensures [name] in t.files ==> RepairState(name, apply, t) == Result(t, [], Some(RootNotDirectory))
    ensures [name] !in t.files && [] !in t.dirs ==> RepairState(name, apply, t) == Result(t, [], Some(ParentMissing))
    ensures [name] !in t.files && [] in t.dirs ==>
      RepairState(name, apply, t) == VisitAll(name, apply, t, [[name]] + Map(REQUIRED_DIRECTORIES, Under(name)))
  {
    RequiredDirectoriesListed();
  }

  /** A dry run of the repair visits the same targets with the same category as the apply, plans exactly what
      the apply creates, and fails at the same target; after a successful apply a rerun finds nothing to do. */
  lemma RepairDryRunPredicts(name: string, t: Tree)
    requires Valid(t)
    ensures var dry, applied := RepairState(name, false, t), RepairState(name, true, t);
      && dry.tree == t && dry.failure == applied.failure && SameVisits(dry.actions, applied.actions)
      && (applied.failure == None ==>
            && Created(t, applied.tree, Targets(name, REQUIRED_AREAS))
            && var again := RepairState(name, true, applied.tree);
               && again.failure == None && again.tree == applied.tree
               && forall a :: a in again.actions ==> a.kind == Nothing)
  {
    if RootFailure(name, t) == None {
      var targets := Targets(name, REQUIRED_AREAS);
      RequiredAreasWellFormed();
      TargetsAreParentsFirst(name, REQUIRED_AREAS);
      DryRunPredicts(name, t, targets);
      var applied := RepairState(name, true, t);
      if applied.failure == None {
        NothingToDo(name, true, applied.tree, targets);
      }
    }
  }
}
