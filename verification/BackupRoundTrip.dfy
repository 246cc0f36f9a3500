/** What a restored backup contains: creation against inspection, planning and restoring. */
module BackupRoundTrip {
  import opened Sequences
  import opened FileTree
  import opened Backup
  import S = StableSort
  import Text

  /** A path as listing a directory yields it. */
  predicate Proper(p: Path)
  {
    p != [] && forall part :: part in p ==> IsPart(part) && part != ".."
  }

  predicate AllProper(items: seq<Item>)
  {
    forall i :: i in items ==> Proper(i.path)
  }

  predicate DistinctPaths(items: seq<Item>)
  {
    forall j, k :: 0 <= j < k < |items| ==> items[j].path != items[k].path
  }

  /* ----- names ----- */

  lemma {:induction false} JoinEnd(words: seq<string>)
    requires words != [] && forall w :: w in words ==> IsPart(w)
    ensures Text.Join("/", words) != "" && !IsDirectoryEntry(Text.Join("/", words))
  {
    assert IsPart(words[0]);
    var w := words[0];
    assert w[|w| - 1] in w;
    if |words| > 1 {
      JoinEnd(words[1..]);
    }
  }

  lemma PrefixKept(a: string, b: string)
    ensures a <= a + b && (a + b)[|a|..] == b
    ensures b != "" ==> (a + b)[|a + b| - 1] == b[|b| - 1]
  {
  }

  lemma PrefixesDiffer(name: string)
    requires IsDataName(name)
    ensures name != CONFIG_NAME && name != MANIFEST_NAME
  {
    assert name[5] == DATA_PREFIX[5] == 'd';
    assert CONFIG_NAME[5] == 'c' && MANIFEST_NAME[5] == 'b';
  }

  /** The name a file gets in the archive is recognised, accepted, and read back as the file's path. */
  lemma NameOfFile(p: Path)
    requires Proper(p)
    ensures IsDataName(DataName(p)) && !IsDirectoryEntry(DataName(p))
    ensures DataName(p) != CONFIG_NAME && DataName(p) != MANIFEST_NAME
    ensures !IsAbsolute(Relative(DataName(p))) && PathParts(Relative(DataName(p))) == p
    ensures SafeRelative(Relative(DataName(p)))
  {
    JoinEnd(p);
    PrefixKept(DATA_PREFIX, AsPosix(p));
    PrefixesDiffer(DataName(p));
    PosixRoundTrip(p);
  }

  function NameOfItem(i: Item): string
  {
    DataName(i.path)
  }

  /* ----- an archive being written ----- */

  function Members(items: seq<Item>): Archive
  {
    Map(items, DataEntry)
  }

  lemma MapInit<T, U>(xs: seq<T>, f: T -> U)
    requires xs != []
    ensures Map(xs, f) == Map(xs[..|xs| - 1], f) + [f(xs[|xs| - 1])]
  {
    MapLast(xs[..|xs| - 1], xs[|xs| - 1], f);
    assert xs == xs[..|xs| - 1] + [xs[|xs| - 1]];
  }

  lemma AppendStep<T>(head: seq<T>, xs: seq<T>, ys: seq<T>, x: T)
    requires ys == xs + [x]
    ensures head + ys == (head + xs) + [x]
  {
  }

  lemma NotDirectories()
    ensures !IsDirectoryEntry(CONFIG_NAME) && !IsDirectoryEntry(MANIFEST_NAME) && CONFIG_NAME != MANIFEST_NAME
  {
    assert CONFIG_NAME[|CONFIG_NAME| - 1] == 'n' && MANIFEST_NAME[|MANIFEST_NAME| - 1] == 'n';
    assert CONFIG_NAME[5] == 'c' && MANIFEST_NAME[5] == 'b';
  }

  /** One more member. */
  lemma NamesStep(archive: Archive, e: Entry, names: seq<string>)
    requires MemberNames(archive) == Good(names) && !IsDirectoryEntry(e.name) && e.name != CONFIG_NAME
    ensures e.name == MANIFEST_NAME ==> MemberNames(archive + [e]) == Good(names)
    ensures e.name != MANIFEST_NAME && IsDataName(e.name) && SafeRelative(Relative(e.name)) ==>
      MemberNames(archive + [e]) == Good(names + [e.name])
  {
    assert (archive + [e])[..|archive|] == archive;
  }

  lemma {:induction false} MembersAccepted(head: Archive, names: seq<string>, items: seq<Item>)
    requires AllProper(items) && MemberNames(head) == Good(names)
    ensures MemberNames(head + Members(items)) == Good(names + Map(items, NameOfItem))
  {
    if items == [] {
      assert head + [] == head && names + [] == names;
    } else {
      var init, last := items[..|items| - 1], items[|items| - 1];
      MembersAccepted(head, names, init);
      NameOfFile(last.path);
      NamesStep(head + Members(init), DataEntry(last), names + Map(init, NameOfItem));
      MapInit(items, DataEntry);
      MapInit(items, NameOfItem);
      AppendStep(head, Members(init), Members(items), DataEntry(last));
      AppendStep(names, Map(init, NameOfItem), Map(items, NameOfItem), NameOfItem(last));
    }
  }

  /** A member is found under its name as long as no later one carries the name. */
  lemma ContentStep(archive: Archive, e: Entry, name: string)
    ensures ContentOf(archive + [e], name) == if e.name == name then e.content else ContentOf(archive, name)
  {
    assert (archive + [e])[..|archive|] == archive;
  }

  lemma {:induction false} OtherContent(head: Archive, items: seq<Item>, name: string)
    requires forall i :: i in items ==> NameOfItem(i) != name
    ensures ContentOf(head + Members(items), name) == ContentOf(head, name)
  {
    if items == [] {
      assert head + [] == head;
    } else {
      var init, last := items[..|items| - 1], items[|items| - 1];
      OtherContent(head, init, name);
      MapInit(items, DataEntry);
      AppendStep(head, Members(init), Members(items), DataEntry(last));
      assert last in items;
      ContentStep(head + Members(init), DataEntry(last), name);
    }
  }

  lemma {:induction false} FileContent(head: Archive, items: seq<Item>, i: Item)
    requires AllProper(items) && DistinctPaths(items) && i in items
    ensures ContentOf(head + Members(items), NameOfItem(i)) == i.content
  {
    var init, last := items[..|items| - 1], items[|items| - 1];
    MapInit(items, DataEntry);
    AppendStep(head, Members(init), Members(items), DataEntry(last));
    ContentStep(head + Members(init), DataEntry(last), NameOfItem(i));
    DropLast(items, i);
    if NameOfItem(i) == NameOfItem(last) {
      SameName(items, i, last);
    } else {
      FileContent(head, init, i);
    }
  }

  lemma DropLast(items: seq<Item>, i: Item)
    requires AllProper(items) && DistinctPaths(items) && i in items
    ensures var init := items[..|items| - 1];
      AllProper(init) && DistinctPaths(init) && (i == items[|items| - 1] || i in init)
  {
  }

  lemma SamePath(items: seq<Item>, i: Item, j: Item)
    requires DistinctPaths(items) && i in items && j in items && i.path == j.path
    ensures i == j
  {
  }

  /** Different files have different names. */
  lemma SameName(items: seq<Item>, i: Item, j: Item)
    requires AllProper(items) && DistinctPaths(items) && i in items && j in items && NameOfItem(i) == NameOfItem(j)
    ensures i == j
  {
    NameOfFile(i.path);
    NameOfFile(j.path);
  }

  /* ----- a finished archive is accepted ----- */

  lemma TargetStep(root: Path, names: seq<string>, name: string, paths: seq<Path>, p: Path)
    requires forall n :: n in names + [name] ==> n == CONFIG_NAME || IsDataName(n)
    requires Targets(root, names) == Good(paths) && RestoreTarget(root, name) == Good(p)
    ensures Targets(root, names + [name]) == Good(paths + [p])
  {
    assert (names + [name])[..|names|] == names;
  }

  lemma {:induction false} MemberTargets(root: Path, names: seq<string>, paths: seq<Path>, items: seq<Item>)
    requires AllProper(items)
    requires forall n :: n in names ==> n == CONFIG_NAME || IsDataName(n)
    requires Targets(root, names) == Good(paths)
    ensures forall n :: n in names + Map(items, NameOfItem) ==> n == CONFIG_NAME || IsDataName(n)
    ensures Targets(root, names + Map(items, NameOfItem)) == Good(paths + Map(items, PathOf))
  {
    if items == [] {
      assert names + [] == names && paths + [] == paths;
    } else {
      var init, last := items[..|items| - 1], items[|items| - 1];
      MemberTargets(root, names, paths, init);
      NameOfFile(last.path);
      MapInit(items, NameOfItem);
      MapInit(items, PathOf);
      AppendStep(names, Map(init, NameOfItem), Map(items, NameOfItem), NameOfItem(last));
      AppendStep(paths, Map(init, PathOf), Map(items, PathOf), last.path);
      TargetStep(root, names + Map(init, NameOfItem), NameOfItem(last), paths + Map(init, PathOf), last.path);
    }
  }

  lemma ConfigStep(archive: Archive, e: Entry, names: seq<string>)
    requires MemberNames(archive) == Good(names) && e.name == CONFIG_NAME
    ensures MemberNames(archive + [e]) == Good(names + [CONFIG_NAME])
  {
    NotDirectories();
    assert (archive + [e])[..|archive|] == archive;
  }

  lemma EmptyFirst<T>(x: T)
    ensures [] + [x] == [x]
  {
  }

  lemma StartOfArchive(config: Bytes, root: Path)
    ensures MemberNames([Entry(CONFIG_NAME, config)]) == Good([CONFIG_NAME])
    ensures Targets(root, [CONFIG_NAME]) == Good([CONFIG_PATH])
  {
    ConfigStep([], Entry(CONFIG_NAME, config), []);
    TargetStep(root, [], CONFIG_NAME, [], CONFIG_PATH);
    EmptyFirst(Entry(CONFIG_NAME, config));
    EmptyFirst(CONFIG_NAME);
    EmptyFirst(CONFIG_PATH);
  }

  function NamesOf(items: seq<Item>): seq<string>
  {
    [CONFIG_NAME] + Map(items, NameOfItem)
  }

  function PathsOf(items: seq<Item>): seq<Path>
  {
    [CONFIG_PATH] + Map(items, PathOf)
  }

  lemma CreatedMembers(codec: Codec, config: Bytes, createdAt: string, instanceId: string, items: seq<Item>)
    requires AllProper(items) && Faithful(codec)
    ensures RestoreMembers(Created(codec, config, createdAt, instanceId, items)) == Good(NamesOf(items))
    ensures ReadManifest(codec, Created(codec, config, createdAt, instanceId, items))
         == Good(ManifestFor(createdAt, instanceId, items))
  {
    var head, m := [Entry(CONFIG_NAME, config)], ManifestFor(createdAt, instanceId, items);
    var last := Entry(MANIFEST_NAME, codec.encode(m));
    var archive := head + Members(items) + [last];
    assert archive == Created(codec, config, createdAt, instanceId, items);
    StartOfArchive(config, []);
    MembersAccepted(head, [CONFIG_NAME], items);
    NotDirectories();
    NamesStep(head + Members(items), last, NamesOf(items));
    ContentStep(head + Members(items), last, MANIFEST_NAME);
    assert NamesOf(items)[0] == CONFIG_NAME;
    assert archive[|archive| - 1] == last;
    assert HasName(archive, MANIFEST_NAME);
  }

  /** Every archive that is written passes inspection, whose member count is one below the manifest's, and
      is planned for every destination: the configuration and each file at its own path. */
  lemma CreatedIsAccepted(codec: Codec, root: Path, config: Bytes, createdAt: string, instanceId: string,
                          items: seq<Item>)
    requires AllProper(items) && Faithful(codec)
    ensures var archive := Created(codec, config, createdAt, instanceId, items);
      && Inspect(codec, archive).Good?
      && Inspect(codec, archive).value.1 == ManifestFor(createdAt, instanceId, items)
      && Inspect(codec, archive).value.1.files == Inspect(codec, archive).value.0 + 1
      && RestorePlan(codec, root, archive) == Good(Plan(PathsOf(items), NamesOf(items)))
  {
    CreatedMembers(codec, config, createdAt, instanceId, items);
    StartOfArchive(config, root);
    MemberTargets(root, [CONFIG_NAME], [CONFIG_PATH], items);
  }

  lemma CreatedContents(codec: Codec, config: Bytes, createdAt: string, instanceId: string, items: seq<Item>)
    requires AllProper(items) && DistinctPaths(items)
    ensures var archive := Created(codec, config, createdAt, instanceId, items);
      && ContentOf(archive, CONFIG_NAME) == config
      && forall i :: i in items ==> ContentOf(archive, NameOfItem(i)) == i.content
  {
    var head := [Entry(CONFIG_NAME, config)];
    var last := Entry(MANIFEST_NAME, codec.encode(ManifestFor(createdAt, instanceId, items)));
    NotDirectories();
    ContentStep(head + Members(items), last, CONFIG_NAME);
    forall i | i in items ensures NameOfItem(i) != CONFIG_NAME { NameOfFile(i.path); }
    OtherContent(head, items, CONFIG_NAME);
    ContentStep([], head[0], CONFIG_NAME);
    assert [] + head == head;
    forall i | i in items ensures ContentOf(head + Members(items) + [last], NameOfItem(i)) == i.content {
      NameOfFile(i.path);
      ContentStep(head + Members(items), last, NameOfItem(i));
      FileContent(head, items, i);
    }
  }

  /** What a restore of the archive writes, in order. */
  lemma CreatedPlan(codec: Codec, root: Path, config: Bytes, createdAt: string, instanceId: string, items: seq<Item>)
    requires AllProper(items) && DistinctPaths(items) && Faithful(codec)
    ensures var archive := Created(codec, config, createdAt, instanceId, items);
      RestorePlan(codec, root, archive).Good?
      && Planned(codec, root, archive) == [Item(CONFIG_PATH, config)] + items
  {
    CreatedIsAccepted(codec, root, config, createdAt, instanceId, items);
    CreatedContents(codec, config, createdAt, instanceId, items);
    PlannedItems(Created(codec, config, createdAt, instanceId, items), CONFIG_NAME, CONFIG_PATH, items);
  }

  /** With the name and path of the configuration left open. */
  lemma PlannedItems(archive: Archive, name: string, path: Path, items: seq<Item>)
    requires forall i :: i in items ==> ContentOf(archive, NameOfItem(i)) == i.content
    ensures var plan := Plan([path] + Map(items, PathOf), [name] + Map(items, NameOfItem));
      PlanItems(archive, plan) == [Item(path, ContentOf(archive, name))] + items
  {
    var names, paths := [name] + Map(items, NameOfItem), [path] + Map(items, PathOf);
    var all := [Item(path, ContentOf(archive, name))] + items;
    forall k | 0 <= k < |all| ensures paths[k] == all[k].path && ContentOf(archive, names[k]) == all[k].content {
      if k > 0 {
        assert names[k] == NameOfItem(items[k - 1]) && items[k - 1] in items;
      }
    }
    ReadAsPlanned(archive, names, paths, all);
  }

  lemma ReadAsPlanned(archive: Archive, names: seq<string>, paths: seq<Path>, items: seq<Item>)
    requires |names| == |paths| == |items|
    requires forall k :: 0 <= k < |items| ==>
      paths[k] == items[k].path && ContentOf(archive, names[k]) == items[k].content
    ensures PlanItems(archive, Plan(paths, names)) == items
  {
  }

  /* ----- the data directory ----- */

  /** The regular files of a tree in any order. */
  ghost predicate Lists(found: seq<Item>, t: Tree)
  {
    DistinctPaths(found) && forall i: Item :: i in found <==> i.path in t.files && t.files[i.path] == i.content
  }

  lemma {:induction false} PathLeAntisymmetric(a: Path, b: Path)
    requires PathLe(a, b) && PathLe(b, a)
    ensures a == b
  {
    if a != [] {
      Text.StrLeTotal(a[0], b[0]);
      PathLeAntisymmetric(a[1..], b[1..]);
      assert a == [a[0]] + a[1..] && b == [b[0]] + b[1..];
    }
  }

  function At(p: Path): Item -> bool
  {
    S.Ties(PathOf, PathLe, p)
  }

  lemma AtPath(p: Path, i: Item)
    ensures At(p)(i) <==> i.path == p
  {
    PathLeTotal(p, p);
    assert At(p)(i) <==> PathLe(p, PathOf(i)) && PathLe(PathOf(i), p);
    if At(p)(i) {
      PathLeAntisymmetric(p, i.path);
    }
  }

  lemma {:induction false} AtMostOne(items: seq<Item>, p: Path)
    requires DistinctPaths(items)
    ensures |Filter(items, At(p))| <= 1
  {
    if items != [] {
      AtMostOne(items[1..], p);
      AtPath(p, items[0]);
      if items[0].path == p {
        forall i | i in items[1..] ensures !At(p)(i) { AtPath(p, i); }
        FilterNone(items[1..], At(p));
      }
    }
  }

  lemma TwoAt(items: seq<Item>, j: nat, k: nat)
    requires j < k < |items| && items[j].path == items[k].path
    ensures |Filter(items, At(items[j].path))| >= 2
  {
    var p := items[j].path;
    AtPath(p, items[j]);
    AtPath(p, items[k]);
    TwoKept(items, At(p), j, k);
  }

  lemma AtMostOneIsDistinct(items: seq<Item>)
    requires forall p :: |Filter(items, At(p))| <= 1
    ensures DistinctPaths(items)
  {
    forall j, k | 0 <= j < k < |items| ensures items[j].path != items[k].path {
      if items[j].path == items[k].path {
        TwoAt(items, j, k);
      }
    }
  }

  lemma {:induction false} FilterShorter<T>(xs: seq<T>, p: T -> bool)
    ensures |Filter(xs, p)| <= |xs|
  {
    if xs != [] {
      FilterShorter(xs[1..], p);
    }
  }

  lemma ArchivedDistinct(found: seq<Item>, snapshot: Bytes)
    requires DistinctPaths(found)
    ensures DistinctPaths(Archived(found, snapshot))
  {
    PathOrder();
    var sorted := S.Sort(found, PathOf, PathLe);
    var kept := Filter(sorted, Included);
    forall p ensures |Filter(kept, At(p))| <= 1 {
      AtMostOne(found, p);
      S.SortStable(found, PathOf, PathLe, p);
      FilterSwap(sorted, Included, At(p));
      FilterShorter(Filter(sorted, At(p)), Included);
    }
    AtMostOneIsDistinct(kept);
  }

  /** Exactly the files that are not excluded are archived, the database as its snapshot. */
  lemma ArchivedExact(found: seq<Item>, snapshot: Bytes, i: Item)
    ensures i in Archived(found, snapshot) <==>
      exists j :: j in found && !Excluded(j.path) && i == Snapshotted(snapshot)(j)
  {
    PathOrder();
    var sorted := S.Sort(found, PathOf, PathLe);
    var kept := Filter(sorted, Included);
    forall j ensures j in kept <==> j in found && !Excluded(j.path) {
      FilterMember(sorted, Included, j);
      S.SortMember(found, PathOf, PathLe, j);
    }
    MapMember(kept, Snapshotted(snapshot), i);
  }

  lemma MapMember<T, U>(xs: seq<T>, f: T -> U, y: U)
    ensures y in Map(xs, f) <==> exists x :: x in xs && y == f(x)
  {
    var ys := Map(xs, f);
    if y in ys {
      var k :| 0 <= k < |ys| && ys[k] == y;
      assert xs[k] in xs && y == f(xs[k]);
    }
    if x :| x in xs && y == f(x) {
      var k :| 0 <= k < |xs| && xs[k] == x;
      assert ys[k] == y;
    }
  }

  /** The archive does not depend on the order in which the file system lists the files. */
  lemma ListingOrderIrrelevant(found: seq<Item>, other: seq<Item>, t: Tree, snapshot: Bytes)
    requires Lists(found, t) && Lists(other, t)
    ensures Archived(found, snapshot) == Archived(other, snapshot)
  {
    PathOrder();
    var sorted := S.Sort(other, PathOf, PathLe);
    S.SortSorted(other, PathOf, PathLe);
    forall p ensures Filter(found, S.Ties(PathOf, PathLe, p)) == Filter(sorted, S.Ties(PathOf, PathLe, p)) {
      SameTies(found, other, p);
    }
    S.SortDetermined(found, sorted, PathOf, PathLe);
  }

  lemma SameTies(found: seq<Item>, other: seq<Item>, p: Path)
    requires DistinctPaths(found) && DistinctPaths(other) && forall i: Item :: i in found <==> i in other
    ensures Filter(found, S.Ties(PathOf, PathLe, p)) == Filter(S.Sort(other, PathOf, PathLe), S.Ties(PathOf, PathLe, p))
  {
    PathOrder();
    S.SortStable(other, PathOf, PathLe, p);
    SameAt(found, other, p);
  }

  lemma SameAt(found: seq<Item>, other: seq<Item>, p: Path)
    requires DistinctPaths(found) && DistinctPaths(other) && forall i: Item :: i in found <==> i in other
    ensures Filter(found, At(p)) == Filter(other, At(p))
  {
    AtMostOne(found, p);
    AtMostOne(other, p);
    forall i ensures i in Filter(found, At(p)) <==> i in Filter(other, At(p)) {
      FilterMember(found, At(p), i);
      FilterMember(other, At(p), i);
    }
    SameShort(Filter(found, At(p)), Filter(other, At(p)));
  }

  lemma SameShort<T>(xs: seq<T>, ys: seq<T>)
    requires |xs| <= 1 && |ys| <= 1 && forall x :: x in xs <==> x in ys
    ensures xs == ys
  {
    if xs != [] {
      assert xs[0] in xs;
    }
    if ys != [] {
      assert ys[0] in ys;
    }
  }

  /* ----- the round trip ----- */

  predicate Taken(items: seq<Item>)
  {
    exists i :: i in items && i.path == CONFIG_PATH
  }

  /** The configuration gives way to an archived file at its path. */
  function Restored(config: Bytes, items: seq<Item>): set<Item>
  {
    (set i | i in items) + if Taken(items) then {} else {Item(CONFIG_PATH, config)}
  }

  lemma {:induction false} LastWinsOfDistinct(head: Item, items: seq<Item>)
    requires DistinctPaths(items)
    ensures forall i :: i in LastWins([head] + items) <==>
      i in items || (i == head && forall j :: j in items ==> j.path != head.path)
  {
    if items == [] {
      EmptyFirst(head);
      assert ([head] + items)[..0] == [];
    } else {
      var init, last := items[..|items| - 1], items[|items| - 1];
      LastWinsOfDistinct(head, init);
      assert ([head] + items)[..|items|] == [head] + init;
      forall i ensures i in items <==> i in init || i == last {}
      forall i | i in init ensures i.path != last.path {}
    }
  }

  /** Whether an archived file lies above or below the place of the configuration. */
  predicate Clashes(items: seq<Item>)
  {
    exists i :: i in items && (IsAncestor(i.path, CONFIG_PATH) || IsAncestor(CONFIG_PATH, i.path))
  }

  lemma ConsistentIff(config: Bytes, items: seq<Item>)
    requires AllProper(items) && DistinctPaths(items)
    requires forall i, j :: i in items && j in items ==> !IsAncestor(i.path, j.path)
    ensures Consistent(Restored(config, items)) <==> !Clashes(items)
  {
    var all, c := Restored(config, items), Item(CONFIG_PATH, config);
    forall i | i in items && (IsAncestor(i.path, CONFIG_PATH) || IsAncestor(CONFIG_PATH, i.path))
      ensures !Consistent(all)
    {
      assert i in all;
      if !Taken(items) {
        assert c in all;
      }
    }
    if !Clashes(items) {
      forall i, j | i in all && j in all
        ensures i.path != [] && (i.path == j.path ==> i.content == j.content) && !IsAncestor(i.path, j.path)
      {
        if i in items && j in items && i.path == j.path {
          SamePath(items, i, j);
        }
      }
    }
  }

  /** Restoring a written archive into an empty directory plans without conflict; it succeeds exactly when no
      archived file lies above or below the place of the configuration, and then leaves just the archived
      files, the configuration where none of them took its place, and the directories above them. */
  lemma RestoreOfCreated(codec: Codec, root: Path, config: Bytes, createdAt: string, instanceId: string,
                         items: seq<Item>, overwrite: bool)
    requires AllProper(items) && DistinctPaths(items) && Faithful(codec)
    requires forall i, j :: i in items && j in items ==> !IsAncestor(i.path, j.path)
    ensures var archive := Created(codec, config, createdAt, instanceId, items);
      && PlanRestore(codec, root, archive, EMPTY, overwrite) == Good(Report(|items| + 1, true, 0, false))
      && var written := PlaceAll(EMPTY, Planned(codec, root, archive));
         && (written.ok <==> !Clashes(items))
         && (written.ok ==> Holds(written.tree, Restored(config, items)))
  {
    PlanIntoEmpty(codec, root, config, createdAt, instanceId, items, overwrite);
    CreatedPlan(codec, root, config, createdAt, instanceId, items);
    PlacedAfterConfig(config, items);
  }

  lemma PlanIntoEmpty(codec: Codec, root: Path, config: Bytes, createdAt: string, instanceId: string,
                      items: seq<Item>, overwrite: bool)
    requires AllProper(items) && Faithful(codec)
    ensures PlanRestore(codec, root, Created(codec, config, createdAt, instanceId, items), EMPTY, overwrite)
         == Good(Report(|items| + 1, true, 0, false))
  {
    CreatedIsAccepted(codec, root, config, createdAt, instanceId, items);
    NoPathIsRoot(items);
    NoConflicts(PathsOf(items), overwrite);
  }

  lemma NoPathIsRoot(items: seq<Item>)
    requires AllProper(items)
    ensures forall p :: p in PathsOf(items) ==> p != []
  {
  }

  lemma PlacedAfterConfig(config: Bytes, items: seq<Item>)
    requires AllProper(items) && DistinctPaths(items)
    requires forall i, j :: i in items && j in items ==> !IsAncestor(i.path, j.path)
    ensures var written := PlaceAll(EMPTY, [Item(CONFIG_PATH, config)] + items);
      && (written.ok <==> !Clashes(items))
      && (written.ok ==> Holds(written.tree, Restored(config, items)))
  {
    var c := Item(CONFIG_PATH, config);
    PlaceAllIff([c] + items);
    LastWinsOfDistinct(c, items);
    assert LastWins([c] + items) == Restored(config, items);
    ConsistentIff(config, items);
  }

  lemma {:induction false} NoConflicts(paths: seq<Path>, overwrite: bool)
    requires forall p :: p in paths ==> p != []
    ensures ConflictCount(EMPTY, paths, overwrite) == 0
  {
    if paths != [] && !overwrite {
      assert paths[|paths| - 1] in paths && !Exists(EMPTY, paths[|paths| - 1]);
      var init := paths[..|paths| - 1];
      forall p | p in init ensures p != [] { assert p in paths; }
      NoConflicts(init, false);
    }
  }

  /** The files of a data directory as they should be found after backup and restore. */
  function Expected(t: Tree, snapshot: Bytes, config: Bytes): map<Path, Bytes>
  {
    map[CONFIG_PATH := config]
    + map p | p in t.files && !Excluded(p) :: if p == MEMORY_DATABASE then snapshot else t.files[p]
  }

  predicate ConfigClash(t: Tree)
  {
    exists p :: p in t.files && !Excluded(p) && (IsAncestor(p, CONFIG_PATH) || IsAncestor(CONFIG_PATH, p))
  }

  /** Backup of a data directory, then restore into an empty one. */
  lemma BackupThenRestore(codec: Codec, root: Path, source: Tree, found: seq<Item>, snapshot: Bytes, config: Bytes,
                          createdAt: string, instanceId: string)
    requires Faithful(codec) && Valid(source) && Lists(found, source) && AllProper(found)
    ensures var archive := Created(codec, config, createdAt, instanceId, Archived(found, snapshot));
      && RestorePlan(codec, root, archive).Good?
      && var written := PlaceAll(EMPTY, Planned(codec, root, archive));
         && (written.ok <==> !ConfigClash(source))
         && (written.ok ==> written.tree.files == Expected(source, snapshot, config))
         && (written.ok ==> forall d :: d in written.tree.dirs <==>
               d == [] || exists p :: p in written.tree.files && IsAncestor(d, p))
  {
    var items := Archived(found, snapshot);
    ArchivedIsSound(source, found, snapshot);
    RestoreOfCreated(codec, root, config, createdAt, instanceId, items, false);
    CreatedPlan(codec, root, config, createdAt, instanceId, items);
    ClashesIff(source, found, snapshot);
    var archive := Created(codec, config, createdAt, instanceId, items);
    var written := PlaceAll(EMPTY, Planned(codec, root, archive));
    if written.ok {
      RestoredFiles(source, found, snapshot, config, written.tree);
      HoldingDirs(written.tree, Restored(config, items));
    }
  }

  lemma ArchivedFile(t: Tree, found: seq<Item>, snapshot: Bytes, i: Item)
    requires Lists(found, t)
    ensures i in Archived(found, snapshot) <==>
      i.path in t.files && !Excluded(i.path)
      && i.content == if i.path == MEMORY_DATABASE then snapshot else t.files[i.path]
  {
    ArchivedExact(found, snapshot, i);
    if i.path in t.files && !Excluded(i.path) {
      var j := Item(i.path, t.files[i.path]);
      assert j in found;
      assert Snapshotted(snapshot)(j).path == j.path;
    }
  }

  lemma ArchivedIsSound(t: Tree, found: seq<Item>, snapshot: Bytes)
    requires Valid(t) && Lists(found, t) && AllProper(found)
    ensures AllProper(Archived(found, snapshot)) && DistinctPaths(Archived(found, snapshot))
    ensures forall i, j :: i in Archived(found, snapshot) && j in Archived(found, snapshot) ==>
      !IsAncestor(i.path, j.path)
  {
    ArchivedDistinct(found, snapshot);
    forall i | i in Archived(found, snapshot) ensures Proper(i.path) && i.path in t.files {
      ArchivedFile(t, found, snapshot, i);
      assert Item(i.path, t.files[i.path]) in found;
    }
    forall i, j | i in Archived(found, snapshot) && j in Archived(found, snapshot) ensures !IsAncestor(i.path, j.path) {
      AncestorsExact(j.path, i.path);
    }
  }

  lemma ClashesIff(t: Tree, found: seq<Item>, snapshot: Bytes)
    requires Lists(found, t)
    ensures Clashes(Archived(found, snapshot)) <==> ConfigClash(t)
  {
    forall i | i in Archived(found, snapshot) ensures i.path in t.files && !Excluded(i.path) {
      ArchivedFile(t, found, snapshot, i);
    }
    forall p | p in t.files && !Excluded(p) ensures exists i :: i in Archived(found, snapshot) && i.path == p {
      var i := Item(p, if p == MEMORY_DATABASE then snapshot else t.files[p]);
      ArchivedFile(t, found, snapshot, i);
      assert i in Archived(found, snapshot);
    }
  }

  lemma RestoredFiles(t: Tree, found: seq<Item>, snapshot: Bytes, config: Bytes, u: Tree)
    requires Lists(found, t) && Holds(u, Restored(config, Archived(found, snapshot)))
    ensures u.files == Expected(t, snapshot, config)
  {
    var items, want := Archived(found, snapshot), Expected(t, snapshot, config);
    forall p: Path ensures (p in u.files <==> p in want) && (p in want ==> p in u.files && u.files[p] == want[p]) {
      if p in u.files {
        ExpectedIff(t, found, snapshot, config, Item(p, u.files[p]));
        assert Item(p, u.files[p]) in Restored(config, items);
      }
      if p in want {
        ExpectedIff(t, found, snapshot, config, Item(p, want[p]));
        assert Item(p, want[p]) in Restored(config, items);
      }
    }
  }

  lemma ExpectedIff(t: Tree, found: seq<Item>, snapshot: Bytes, config: Bytes, i: Item)
    requires Lists(found, t)
    ensures i in Restored(config, Archived(found, snapshot)) <==>
      i.path in Expected(t, snapshot, config) && Expected(t, snapshot, config)[i.path] == i.content
  {
    var items := Archived(found, snapshot);
    ArchivedFile(t, found, snapshot, i);
    if i.path == CONFIG_PATH && CONFIG_PATH in t.files && !Excluded(CONFIG_PATH) {
      var j := Item(CONFIG_PATH, if CONFIG_PATH == MEMORY_DATABASE then snapshot else t.files[CONFIG_PATH]);
      ArchivedFile(t, found, snapshot, j);
      assert Taken(items);
    }
    if Taken(items) {
      var j :| j in items && j.path == CONFIG_PATH;
      ArchivedFile(t, found, snapshot, j);
    }
  }

  lemma HoldingDirs(t: Tree, items: set<Item>)
    requires Holds(t, items)
    ensures forall d :: d in t.dirs <==> d == [] || exists p :: p in t.files && IsAncestor(d, p)
  {
    forall d: Path ensures d in t.dirs <==> d == [] || exists p :: p in t.files && IsAncestor(d, p) {
      if i :| i in items && IsAncestor(d, i.path) {
        assert Item(i.path, i.content) in items && i.path in t.files;
      }
      if p :| p in t.files && IsAncestor(d, p) {
        assert Item(p, t.files[p]) in items && IsAncestor(d, Item(p, t.files[p]).path);
      }
    }
  }

  /* ----- what is archived, in terms of the files ----- */

  /** Left out are earlier backups, two generated areas, and the two sidecars of the memory database. */
  lemma ExcludedIff(p: Path)
    ensures Excluded(p) <==>
      || (|p| > 0 && p[0] == "backups")
      || (|p| > 1 && p[0] == "analytics" && p[1] == "sources")
      || (|p| > 1 && p[0] == "metabase" && p[1] == "application")
      || (|p| == 2 && p[0] == "memory" && (p[1] == "memory.sqlite3-wal" || p[1] == "memory.sqlite3-shm"))
  {
  }

  /** A file is archived with its own bytes, the memory database with those of the snapshot. */
  lemma ArchivedByFields(t: Tree, found: seq<Item>, snapshot: Bytes, i: Item)
    requires Lists(found, t)
    ensures i in Archived(found, snapshot) <==>
      && i.path in t.files && !Excluded(i.path)
      && i.content == (if i.path == ["memory", "memory.sqlite3"] then snapshot else t.files[i.path])
  {
    ArchivedFile(t, found, snapshot, i);
  }

  /** The manifest counts all members of the archive and names the first parts of the archived paths. */
  lemma ManifestByFields(codec: Codec, config: Bytes, createdAt: string, instanceId: string, items: seq<Item>)
    requires Faithful(codec) && AllProper(items)
    ensures var archive := Created(codec, config, createdAt, instanceId, items);
      && Inspect(codec, archive).Good?
      && var m := Inspect(codec, archive).value.1;
         && m.files == |archive| && m.createdAt == createdAt && m.instanceId == instanceId
         && forall root :: root in m.includedRoots <==> exists i :: i in items && i.path[0] == root
  {
    CreatedIsAccepted(codec, [], config, createdAt, instanceId, items);
  }

  /** A data directory whose only file is called `config` can be backed up but not restored. */
  lemma FileNamedConfigBlocksRestore(codec: Codec, root: Path, content: Bytes, config: Bytes, createdAt: string,
                                     instanceId: string)
    requires Faithful(codec)
    ensures var archive := Created(codec, config, createdAt, instanceId, Archived([Item(["config"], content)], []));
      RestorePlan(codec, root, archive).Good? && !PlaceAll(EMPTY, Planned(codec, root, archive)).ok
  {
    var p: Path := ["config"];
    var source, found := Tree(map[p := content], {[]}), [Item(p, content)];
    OnlyTheRootAbove("config");
    assert CONFIG_PATH[..1] == p;
    NotExcluded(p);
    BackupThenRestore(codec, root, source, found, [], config, createdAt, instanceId);
  }

  lemma OnlyTheRootAbove(part: string)
    ensures Ancestors([part]) == {[]} && Ancestors([]) == {}
  {
    forall a ensures a in Ancestors([part]) <==> a == [] {
      AncestorsExact([part], a);
    }
  }

  lemma NotExcluded(p: Path)
    requires p == ["config"]
    ensures !Excluded(p) && Proper(p)
  {
    assert |p[0]| == 6;
  }
}
