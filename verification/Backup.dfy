/** Local backup archives: creation, inspection, planning and restoring (src/project_maya/backup.py). */
module Backup {
  import opened Sequences
  import opened FileTree
  import S = StableSort
  import Text

  const CONFIG_NAME := "maya-config.json"
  const MANIFEST_NAME := "maya-backup-manifest.json"
  const DATA_PREFIX := "maya-data/"
  const CONFIG_PATH: Path := ["config", "maya-config.json"]
  const MEMORY_DATABASE: Path := ["memory", "memory.sqlite3"]

  datatype Manifest = Manifest(createdAt: string, instanceId: string, files: nat, includedRoots: set<string>)

  /** JSON text of a manifest, and back. */
  datatype Codec = Codec(encode: Manifest -> Bytes, decode: Bytes -> Option<Manifest>)

  ghost predicate Faithful(codec: Codec)
  {
    forall m :: codec.decode(codec.encode(m)) == Some(m)
  }

  /** A zip member. */
  datatype Entry = Entry(name: string, content: Bytes)

  type Archive = seq<Entry>

  /* ----- what is archived ----- */

  predicate Sidecar(p: Path)
  {
    p == ["memory", "memory.sqlite3-wal"] || p == ["memory", "memory.sqlite3-shm"]
  }

  predicate Excluded(p: Path)
  {
    ["backups"] <= p || ["analytics", "sources"] <= p || ["metabase", "application"] <= p || Sidecar(p)
  }

  predicate Included(i: Item)
  {
    !Excluded(i.path)
  }

  /** Order of paths: part by part. */
  predicate PathLe(a: Path, b: Path)
  {
    a == [] || (b != [] && (if a[0] != b[0] then Text.StrLe(a[0], b[0]) else PathLe(a[1..], b[1..])))
  }

  lemma {:induction false} PathLeTotal(a: Path, b: Path)
    ensures PathLe(a, b) || PathLe(b, a)
  {
    if a != [] && b != [] {
      Text.StrLeTotal(a[0], b[0]);
      PathLeTotal(a[1..], b[1..]);
    }
  }

  lemma {:induction false} PathLeTransitive(a: Path, b: Path, c: Path)
    requires PathLe(a, b) && PathLe(b, c)
    ensures PathLe(a, c)
  {
    if a != [] {
      if a[0] == b[0] == c[0] {
        PathLeTransitive(a[1..], b[1..], c[1..]);
      } else if a[0] != b[0] && b[0] != c[0] {
        Text.StrLeTransitive(a[0], b[0], c[0]);
        Text.StrLeTotal(a[0], b[0]);
      }
    }
  }

  lemma PathOrder()
    ensures S.TotalPreorder(PathLe)
  {
    forall a, b ensures PathLe(a, b) || PathLe(b, a) { PathLeTotal(a, b); }
    forall a, b, c | PathLe(a, b) && PathLe(b, c) ensures PathLe(a, c) { PathLeTransitive(a, b, c); }
  }

  function PathOf(i: Item): Path
  {
    i.path
  }

  /** The memory database is archived as a consistent snapshot instead of its raw file. */
  function Snapshotted(snapshot: Bytes): Item -> Item
  {
    (i: Item) => if i.path == MEMORY_DATABASE then Item(i.path, snapshot) else i
  }

  /** The archived files of a data directory in which `found` lists the regular files. */
  function Archived(found: seq<Item>, snapshot: Bytes): seq<Item>
  {
    Map(Filter(S.Sort(found, PathOf, PathLe), Included), Snapshotted(snapshot))
  }

  function DataName(p: Path): string
  {
    DATA_PREFIX + AsPosix(p)
  }

  function DataEntry(i: Item): Entry
  {
    Entry(DataName(i.path), i.content)
  }

  function Roots(items: seq<Item>): set<string>
  {
    set i | i in items && i.path != [] :: i.path[0]
  }

  function ManifestFor(createdAt: string, instanceId: string, items: seq<Item>): Manifest
  {
    Manifest(createdAt, instanceId, |items| + 2, Roots(items))
  }

  function Created(codec: Codec, config: Bytes, createdAt: string, instanceId: string, items: seq<Item>): Archive
  {
    [Entry(CONFIG_NAME, config)] + Map(items, DataEntry)
    + [Entry(MANIFEST_NAME, codec.encode(ManifestFor(createdAt, instanceId, items)))]
  }

  datatype CreateResult = Backup(archive: Archive, files: nat, manifest: Manifest)
                        | NoDataDirectory | DestinationExists | CreationFailed

  /** `create_local_backup`; `snapshot` is None when the database snapshot fails its integrity check. */
  method CreateLocalBackup(codec: Codec, dataDirExists: bool, destinationExists: bool, config: Bytes,
                           createdAt: string, instanceId: string, found: seq<Item>, snapshot: Option<Bytes>)
    returns (result: CreateResult)
    ensures result ==
      if !dataDirExists then NoDataDirectory
      else if destinationExists then DestinationExists
      else if snapshot == None && (exists i :: i in found && i.path == MEMORY_DATABASE) then CreationFailed
      else
        var items := Archived(found, if snapshot == None then [] else snapshot.value);
        Backup(Created(codec, config, createdAt, instanceId, items), |items| + 2,
               ManifestFor(createdAt, instanceId, items))
  {
    if !dataDirExists {
      return NoDataDirectory;
    }
    if destinationExists {
      return DestinationExists;
    }
    var paths := Filter(S.Sort(found, PathOf, PathLe), Included);
    FoundDatabase(found);
    var ok, archive, items, files := AddFiles(config, paths, snapshot);
    if !ok {
      return CreationFailed;
    }
    var manifest := ManifestFor(createdAt, instanceId, items);
    archive, files := archive + [Entry(MANIFEST_NAME, codec.encode(manifest))], files + 1;
    result := Backup(archive, files, manifest);
  }

  /** The loop of the creation: the configuration first, then every file. */
  method AddFiles(config: Bytes, paths: seq<Item>, snapshot: Option<Bytes>)
    returns (ok: bool, archive: Archive, items: seq<Item>, files: nat)
    ensures ok <==> snapshot != None || forall i :: i in paths ==> i.path != MEMORY_DATABASE
    ensures ok ==> items == Map(paths, Snapshotted(if snapshot == None then [] else snapshot.value))
    ensures ok ==> archive == [Entry(CONFIG_NAME, config)] + Map(items, DataEntry) && files == |items| + 1
  {
    ghost var snap := Snapshotted(if snapshot == None then [] else snapshot.value);
    archive, items, files := [Entry(CONFIG_NAME, config)], [], 1;
    ghost var head := archive;
    for k := 0 to |paths|
      invariant Added(head, paths[..k], snap, archive, items, files)
      invariant snapshot == None ==> forall i :: i in paths[..k] ==> i.path != MEMORY_DATABASE
    {
      PrefixStep(paths, k);
      var item := paths[k];
      if item.path == MEMORY_DATABASE {
        if snapshot == None {
          return false, archive, items, files;
        }
        item := Item(item.path, snapshot.value);
      }
      AddedOneMore(head, paths[..k], snap, archive, items, files, paths[k]);
      archive, items, files := archive + [DataEntry(item)], items + [item], files + 1;
    }
    assert paths[..|paths|] == paths;
    ok := true;
  }

  /** What the loop has written when the files in `done` are behind it. */
  predicate Added(head: Archive, done: seq<Item>, snap: Item -> Item, archive: Archive, items: seq<Item>, files: nat)
  {
    items == Map(done, snap) && archive == head + Map(items, DataEntry) && files == |items| + 1
  }

  lemma AddedOneMore(head: Archive, done: seq<Item>, snap: Item -> Item, archive: Archive, items: seq<Item>,
                     files: nat, i: Item)
    requires Added(head, done, snap, archive, items, files)
    ensures Added(head, done + [i], snap, archive + [DataEntry(snap(i))], items + [snap(i)], files + 1)
  {
    MapLast(done, i, snap);
    MapLast(items, snap(i), DataEntry);
  }

  lemma DatabaseIncluded()
    ensures !Excluded(MEMORY_DATABASE)
  {
    assert MEMORY_DATABASE[0] == "memory" && MEMORY_DATABASE[1] == "memory.sqlite3";
    assert |MEMORY_DATABASE[1]| == 14;
  }

  lemma FoundDatabase(found: seq<Item>)
    ensures (exists i :: i in found && i.path == MEMORY_DATABASE)
       <==> (exists i :: i in Filter(S.Sort(found, PathOf, PathLe), Included) && i.path == MEMORY_DATABASE)
  {
    PathOrder();
    DatabaseIncluded();
    var paths := Filter(S.Sort(found, PathOf, PathLe), Included);
    forall i: Item | i.path == MEMORY_DATABASE ensures i in found <==> i in paths {
      S.SortMember(found, PathOf, PathLe, i);
      FilterMember(S.Sort(found, PathOf, PathLe), Included, i);
    }
  }

  /* ----- reading an archive ----- */

  datatype Failure = Unsupported | Unsafe | NoConfig | NoManifest | BadManifest | Escapes | Conflicts | WriteFailed

  predicate IsDirectoryEntry(name: string)
  {
    name != "" && name[|name| - 1] == '/'
  }

  predicate IsDataName(name: string)
  {
    DATA_PREFIX <= name
  }

  function Relative(name: string): string
    requires IsDataName(name)
  {
    name[|DATA_PREFIX|..]
  }

  /** `_validate_relative_archive_name`; an absolute name has its root as a part. */
  predicate SafeRelative(rel: string)
  {
    (IsAbsolute(rel) || PathParts(rel) != []) && ".." !in PathParts(rel)
  }

  datatype Checked<+T> = Good(value: T) | Bad(failure: Failure)

  /** The loop of `_restore_members`: the names to restore, in archive order. */
  function MemberNames(archive: Archive): Checked<seq<string>>
  {
    if archive == [] then Good([])
    else match MemberNames(archive[..|archive| - 1])
      case Bad(f) => Bad(f)
      case Good(names) =>
        var name := archive[|archive| - 1].name;
        if IsDirectoryEntry(name) then Good(names)
        else if name == CONFIG_NAME then Good(names + [name])
        else if name == MANIFEST_NAME then Good(names)
        else if !IsDataName(name) then Bad(Unsupported)
        else if !SafeRelative(Relative(name)) then Bad(Unsafe)
        else Good(names + [name])
  }

  predicate HasName(archive: Archive, name: string)
  {
    exists k :: 0 <= k < |archive| && archive[k].name == name
  }

  function RestoreMembers(archive: Archive): Checked<seq<string>>
  {
    match MemberNames(archive)
    case Bad(f) => Bad(f)
    case Good(names) =>
      if CONFIG_NAME !in names then Bad(NoConfig)
      else if !HasName(archive, MANIFEST_NAME) then Bad(NoManifest)
      else Good(names)
  }

  /** `archive.read(name)`: of several members with one name the last is read. */
  function ContentOf(archive: Archive, name: string): Bytes
  {
    if archive == [] then []
    else if archive[|archive| - 1].name == name then archive[|archive| - 1].content
    else ContentOf(archive[..|archive| - 1], name)
  }

  function ReadManifest(codec: Codec, archive: Archive): Checked<Manifest>
  {
    if !HasName(archive, MANIFEST_NAME) then Bad(NoManifest)
    else match codec.decode(ContentOf(archive, MANIFEST_NAME))
      case None => Bad(BadManifest)
      case Some(m) => Good(m)
  }

  /** `_restore_target` relative to the destination `root`; an absolute name must lie inside it. */
  function RestoreTarget(root: Path, name: string): Checked<Path>
    requires name == CONFIG_NAME || IsDataName(name)
  {
    if name == CONFIG_NAME then Good(CONFIG_PATH)
    else
      var parts := PathParts(Relative(name));
      if !IsAbsolute(Relative(name)) then Good(parts)
      else if root <= parts then Good(parts[|root|..])
      else Bad(Escapes)
  }

  function Targets(root: Path, names: seq<string>): Checked<seq<Path>>
    requires forall n :: n in names ==> n == CONFIG_NAME || IsDataName(n)
  {
    if names == [] then Good([])
    else match Targets(root, names[..|names| - 1])
      case Bad(f) => Bad(f)
      case Good(paths) =>
        match RestoreTarget(root, names[|names| - 1]) case Bad(f) => Bad(f) case Good(p) => Good(paths + [p])
  }

  lemma {:induction false} NamesAreRestorable(archive: Archive)
    requires MemberNames(archive).Good?
    ensures forall n :: n in MemberNames(archive).value ==> n == CONFIG_NAME || IsDataName(n)
  {
    if archive != [] {
      NamesAreRestorable(archive[..|archive| - 1]);
    }
  }

  datatype Plan = Plan(paths: seq<Path>, names: seq<string>)

  /** The validation that plan and restore share. */
  function RestorePlan(codec: Codec, root: Path, archive: Archive): Checked<Plan>
  {
    match RestoreMembers(archive)
    case Bad(f) => Bad(f)
    case Good(names) =>
      match ReadManifest(codec, archive)
      case Bad(f) => Bad(f)
      case Good(_) =>
        NamesAreRestorable(archive);
        match Targets(root, names) case Bad(f) => Bad(f) case Good(paths) => Good(Plan(paths, names))
  }

  /** A path that leads from a directory to something in it or to the directory itself. */
  predicate StaysInside(p: Path)
  {
    forall part :: part in p ==> IsPart(part) && part != ".."
  }

  lemma PartsOfName(name: string)
    ensures forall part :: part in PathParts(name) ==> IsPart(part)
  {
    Text.SplitGivesTokens(name, Text.IsSlash);
    forall part | part in PathParts(name) ensures IsPart(part) {
      FilterMember(Text.Split(name, Text.IsSlash), NotDot, part);
    }
  }

  lemma ConfigStaysInside()
    ensures StaysInside(CONFIG_PATH)
  {
    assert IsPart("config");
    assert IsPart("maya-config.json");
    assert |".."| == 2;
  }

  lemma {:induction false} AcceptedNames(archive: Archive, name: string)
    requires MemberNames(archive).Good? && name in MemberNames(archive).value
    ensures name == CONFIG_NAME || (IsDataName(name) && SafeRelative(Relative(name)))
  {
    if name !in MemberNames(archive[..|archive| - 1]).value {
      assert name == archive[|archive| - 1].name;
    } else {
      AcceptedNames(archive[..|archive| - 1], name);
    }
  }

  lemma TargetStaysInside(root: Path, name: string)
    requires name == CONFIG_NAME || (IsDataName(name) && SafeRelative(Relative(name)))
    requires RestoreTarget(root, name).Good?
    ensures StaysInside(RestoreTarget(root, name).value)
  {
    if name == CONFIG_NAME {
      ConfigStaysInside();
    } else {
      PartsOfName(Relative(name));
    }
  }

  lemma {:induction false} TargetsStayInside(root: Path, names: seq<string>, p: Path)
    requires forall n :: n in names ==> n == CONFIG_NAME || (IsDataName(n) && SafeRelative(Relative(n)))
    requires Targets(root, names).Good? && p in Targets(root, names).value
    ensures StaysInside(p)
  {
    var init, last := names[..|names| - 1], names[|names| - 1];
    assert last in names;
    if p in Targets(root, init).value {
      TargetsStayInside(root, init, p);
    } else {
      TargetStaysInside(root, last);
    }
  }

  /** Whatever is in an archive, a restore that is planned writes only below its destination. */
  lemma PlanStaysInside(codec: Codec, root: Path, archive: Archive)
    requires RestorePlan(codec, root, archive).Good?
    ensures forall p :: p in RestorePlan(codec, root, archive).value.paths ==> StaysInside(p)
  {
    var names := RestoreMembers(archive).value;
    NamesAreRestorable(archive);
    forall n | n in names ensures n == CONFIG_NAME || (IsDataName(n) && SafeRelative(Relative(n))) {
      AcceptedNames(archive, n);
    }
    forall p | p in RestorePlan(codec, root, archive).value.paths ensures StaysInside(p) {
      TargetsStayInside(root, names, p);
    }
  }

  /** How many planned paths exist already, 0 when overwriting is allowed. */
  function ConflictCount(t: Tree, paths: seq<Path>, allowOverwrite: bool): nat
  {
    if paths == [] || allowOverwrite then 0
    else ConflictCount(t, paths[..|paths| - 1], false) + if Exists(t, paths[|paths| - 1]) then 1 else 0
  }

  datatype Report = Report(files: nat, dryRun: bool, conflicts: nat, overwriteRequired: bool)

  /** `plan_restore_backup`. */
  function PlanRestore(codec: Codec, root: Path, archive: Archive, t: Tree, allowOverwrite: bool): Checked<Report>
  {
    match RestorePlan(codec, root, archive)
    case Bad(f) => Bad(f)
    case Good(plan) =>
      var n := ConflictCount(t, plan.paths, allowOverwrite);
      Good(Report(|plan.paths|, true, n, n > 0))
  }

  /** `inspect_backup_archive`: the number of members and the manifest. */
  function Inspect(codec: Codec, archive: Archive): Checked<(nat, Manifest)>
  {
    match RestoreMembers(archive)
    case Bad(f) => Bad(f)
    case Good(names) =>
      match ReadManifest(codec, archive) case Bad(f) => Bad(f) case Good(m) => Good((|names|, m))
  }

  /* ----- what an archive must look like ----- */

  /** A member a restore understands: a directory, one of the two files, or a data file with a safe name. */
  predicate Understood(name: string)
  {
    || (name != "" && name[|name| - 1] == '/')
    || name == "maya-config.json" || name == "maya-backup-manifest.json"
    || ("maya-data/" <= name && LeadsDown(name[10..]))
  }

  /** A name that leads somewhere and never up: it is absolute or has a piece that is not a dot, and no piece is
      two dots. */
  predicate LeadsDown(rel: string)
  {
    var pieces := Text.Split(rel, Text.IsSlash);
    ((rel != "" && rel[0] == '/') || exists w :: w in pieces && w != ".") && ".." !in pieces
  }

  lemma SafeIff(rel: string)
    ensures SafeRelative(rel) <==> LeadsDown(rel)
  {
    var pieces := Text.Split(rel, Text.IsSlash);
    forall w ensures w in PathParts(rel) <==> w in pieces && w != "." {
      FilterMember(pieces, NotDot, w);
    }
    if PathParts(rel) != [] {
      assert PathParts(rel)[0] in PathParts(rel);
    }
    assert ".." != ".";
  }

  lemma {:induction false} NamesIff(archive: Archive)
    ensures MemberNames(archive).Good? <==> forall e :: e in archive ==> Understood(e.name)
  {
    if archive != [] {
      NamesIff(archive[..|archive| - 1]);
      MembersOfInit(archive);
      var name := archive[|archive| - 1].name;
      if IsDataName(name) {
        SafeIff(Relative(name));
      }
    }
  }

  /** The restored names are those of the members that are neither directories nor the manifest. */
  lemma {:induction false} RestoredNames(archive: Archive, name: string)
    requires MemberNames(archive).Good?
    ensures name in MemberNames(archive).value <==>
      && (exists e :: e in archive && e.name == name)
      && !(name != "" && name[|name| - 1] == '/') && name != "maya-backup-manifest.json"
  {
    if archive != [] {
      RestoredNames(archive[..|archive| - 1], name);
      MembersOfInit(archive);
      ManifestIsNoConfig();
    }
  }

  lemma ManifestIsNoConfig()
    ensures MANIFEST_NAME != CONFIG_NAME
  {
    assert MANIFEST_NAME[5] == 'b' && CONFIG_NAME[5] == 'c';
  }

  /** Inspection accepts an archive exactly when all members are understood, the configuration and the manifest
      are there, and the manifest can be read. */
  lemma InspectIff(codec: Codec, archive: Archive)
    ensures Inspect(codec, archive).Good? <==>
      && (forall e :: e in archive ==> Understood(e.name))
      && (exists e :: e in archive && e.name == "maya-config.json")
      && (exists e :: e in archive && e.name == "maya-backup-manifest.json")
      && codec.decode(ContentOf(archive, "maya-backup-manifest.json")) != None
  {
    NamesIff(archive);
    ConfigIsNoDirectory();
    if MemberNames(archive).Good? {
      RestoredNames(archive, CONFIG_NAME);
    }
    HasNameIff(archive, MANIFEST_NAME);
  }

  lemma HasNameIff(archive: Archive, name: string)
    ensures HasName(archive, name) <==> exists e :: e in archive && e.name == name
  {
    if e :| e in archive && e.name == name {
      var k :| 0 <= k < |archive| && archive[k] == e;
    }
  }

  lemma ConfigIsNoDirectory()
    ensures CONFIG_NAME[|CONFIG_NAME| - 1] != '/' && CONFIG_NAME != MANIFEST_NAME
  {
    ManifestIsNoConfig();
    assert CONFIG_NAME[|CONFIG_NAME| - 1] == 'n';
  }

  /** Of several members with one name the last is read. */
  lemma {:induction false} LastContent(archive: Archive, k: nat)
    requires k < |archive| && forall j :: k < j < |archive| ==> archive[j].name != archive[k].name
    ensures ContentOf(archive, archive[k].name) == archive[k].content
  {
    if k < |archive| - 1 {
      var init := archive[..|archive| - 1];
      LastContent(init, k);
    }
  }

  /** Where a name is restored: the configuration at its own place, a relative name below the destination, an
      absolute one where it says, which must be inside the destination. */
  lemma RestoreTargetIff(root: Path, name: string, p: Path)
    requires name == CONFIG_NAME || IsDataName(name)
    ensures RestoreTarget(root, name) == Good(p) <==>
      if name == "maya-config.json" then p == ["config", "maya-config.json"]
      else if IsAbsolute(name[10..]) then root + p == PathParts(name[10..])
      else p == PathParts(name[10..])
  {
    if name != CONFIG_NAME && IsAbsolute(Relative(name)) {
      var parts := PathParts(Relative(name));
      if root <= parts {
        assert parts == root + parts[|root|..];
      }
      if root + p == parts {
        assert parts[|root|..] == p;
      }
    }
  }

  lemma {:induction false} TargetsAt(root: Path, names: seq<string>, k: nat)
    requires forall n :: n in names ==> n == CONFIG_NAME || IsDataName(n)
    requires Targets(root, names).Good? && k < |names|
    ensures |Targets(root, names).value| == |names|
    ensures RestoreTarget(root, names[k]) == Good(Targets(root, names).value[k])
  {
    OneTargetEach(root, names);
    if k < |names| - 1 {
      TargetsAt(root, names[..|names| - 1], k);
      OneTargetEach(root, names[..|names| - 1]);
    }
  }

  /* ----- conflicts ----- */

  /** The positions of planned paths that exist. */
  function Existing(t: Tree, paths: seq<Path>): set<nat>
  {
    set k: nat | k < |paths| && (paths[k] in t.files || paths[k] in t.dirs)
  }

  lemma {:induction false} ConflictsCounted(t: Tree, paths: seq<Path>)
    ensures ConflictCount(t, paths, false) == |Existing(t, paths)|
  {
    if paths == [] {
      assert Existing(t, paths) == {};
    } else {
      var n := |paths| - 1;
      ConflictsCounted(t, paths[..n]);
      assert n !in Existing(t, paths[..n]);
      assert Existing(t, paths) == Existing(t, paths[..n]) + if Exists(t, paths[n]) then {n} else {};
    }
  }

  /** What a plan reports: one file for each planned path; with permission to overwrite no conflict, without
      one conflict for each planned path that is a file or a directory already. */
  lemma PlanReport(codec: Codec, root: Path, archive: Archive, t: Tree, allowOverwrite: bool)
    requires RestorePlan(codec, root, archive).Good?
    ensures PlanRestore(codec, root, archive, t, allowOverwrite).Good?
    ensures var (paths, report) :=
        (RestorePlan(codec, root, archive).value.paths, PlanRestore(codec, root, archive, t, allowOverwrite).value);
      && report.files == |paths| && report.dryRun
      && report.conflicts == (if allowOverwrite then 0 else |Existing(t, paths)|)
      && (report.overwriteRequired <==> report.conflicts > 0)
      && (report.conflicts > 0 <==> !allowOverwrite && exists p :: p in paths && (p in t.files || p in t.dirs))
  {
    var paths := RestorePlan(codec, root, archive).value.paths;
    ConflictsCounted(t, paths);
    if p :| p in paths && (p in t.files || p in t.dirs) {
      var k: nat :| k < |paths| && paths[k] == p;
      assert k in Existing(t, paths);
    } else {
      assert Existing(t, paths) == {};
    }
    if |Existing(t, paths)| > 0 {
      var k :| k in Existing(t, paths);
      assert paths[k] in paths;
    }
  }

  /** An absolute data name that does not lead below the destination. */
  predicate LeadsElsewhere(root: Path, name: string)
  {
    "maya-data/" <= name && IsAbsolute(name[10..]) && !(root <= PathParts(name[10..]))
  }

  lemma DataNamesDiffer(name: string)
    requires IsDataName(name)
    ensures name != CONFIG_NAME && name != MANIFEST_NAME
  {
    assert name[5] == DATA_PREFIX[5] == 'd';
    assert CONFIG_NAME[5] == 'c' && MANIFEST_NAME[5] == 'b';
  }

  lemma TargetGoodIff(root: Path, name: string)
    requires name == CONFIG_NAME || IsDataName(name)
    ensures RestoreTarget(root, name).Good? <==> !LeadsElsewhere(root, name)
  {
    if IsDataName(name) {
      DataNamesDiffer(name);
    }
  }

  lemma {:induction false} TargetsGoodIff(root: Path, names: seq<string>)
    requires forall n :: n in names ==> n == CONFIG_NAME || IsDataName(n)
    ensures Targets(root, names).Good? <==> forall n :: n in names ==> !LeadsElsewhere(root, n)
  {
    if names != [] {
      TargetsGoodIff(root, names[..|names| - 1]);
      MembersOfInit(names);
      TargetGoodIff(root, names[|names| - 1]);
    }
  }

  lemma RestoredIff(archive: Archive, root: Path)
    requires MemberNames(archive).Good?
    ensures (forall n :: n in MemberNames(archive).value ==> !LeadsElsewhere(root, n)) <==>
      forall e :: e in archive && !IsDirectoryEntry(e.name) ==> !LeadsElsewhere(root, e.name)
  {
    forall n ensures n in MemberNames(archive).value <==>
      (exists e :: e in archive && e.name == n) && !IsDirectoryEntry(n) && n != MANIFEST_NAME
    {
      RestoredNames(archive, n);
    }
    ManifestLeadsNowhere(root);
  }

  lemma ManifestLeadsNowhere(root: Path)
    ensures !LeadsElsewhere(root, MANIFEST_NAME)
  {
    if IsDataName(MANIFEST_NAME) {
      DataNamesDiffer(MANIFEST_NAME);
    }
  }

  /** A plan is accepted exactly when inspection accepts the archive and no file in it leads elsewhere, whatever
      the destination holds. */
  lemma PlanIff(codec: Codec, root: Path, archive: Archive, t: Tree, allowOverwrite: bool)
    ensures PlanRestore(codec, root, archive, t, allowOverwrite).Good? <==>
      && Inspect(codec, archive).Good?
      && forall e :: e in archive && !IsDirectoryEntry(e.name) ==> !LeadsElsewhere(root, e.name)
  {
    if MemberNames(archive).Good? {
      NamesAreRestorable(archive);
      TargetsGoodIff(root, MemberNames(archive).value);
      RestoredIff(archive, root);
    }
  }

  /* ----- restoring ----- */

  /** Writes items one after the other, later ones over earlier ones; stops at the first that cannot be. */
  datatype Written = Written(tree: Tree, ok: bool)

  function PlaceAll(t: Tree, items: seq<Item>): Written
  {
    if items == [] then Written(t, true)
    else
      var before, last := PlaceAll(t, items[..|items| - 1]), items[|items| - 1];
      if !before.ok then before
      else match PlaceFile(before.tree, last.path, last.content)
        case None => Written(before.tree, false)
        case Some(u) => Written(u, true)
  }

  function PlanItems(archive: Archive, plan: Plan): seq<Item>
    requires |plan.paths| == |plan.names|
  {
    seq(|plan.paths|, k requires 0 <= k < |plan.paths| => Item(plan.paths[k], ContentOf(archive, plan.names[k])))
  }

  lemma {:induction false} OneTargetEach(root: Path, names: seq<string>)
    requires forall n :: n in names ==> n == CONFIG_NAME || IsDataName(n)
    requires Targets(root, names).Good?
    ensures |Targets(root, names).value| == |names|
  {
    if names != [] {
      OneTargetEach(root, names[..|names| - 1]);
    }
  }

  lemma PlanIsPaired(codec: Codec, root: Path, archive: Archive)
    requires RestorePlan(codec, root, archive).Good?
    ensures |RestorePlan(codec, root, archive).value.paths| == |RestorePlan(codec, root, archive).value.names|
  {
    NamesAreRestorable(archive);
    OneTargetEach(root, RestoreMembers(archive).value);
  }

  /** What a valid archive puts below the destination. */
  function Planned(codec: Codec, root: Path, archive: Archive): seq<Item>
    requires RestorePlan(codec, root, archive).Good?
  {
    PlanIsPaired(codec, root, archive);
    PlanItems(archive, RestorePlan(codec, root, archive).value)
  }

  /** Writing keeps every file whose path is not written, even when it stops half-way. */
  lemma {:induction false} UnplannedStay(t: Tree, items: seq<Item>, p: Path)
    requires p in t.files && forall i :: i in items ==> i.path != p
    ensures p in PlaceAll(t, items).tree.files && PlaceAll(t, items).tree.files[p] == t.files[p]
  {
    if items != [] {
      MembersOfInit(items);
      UnplannedStay(t, items[..|items| - 1], p);
    }
  }

  lemma PlannedPaths(codec: Codec, root: Path, archive: Archive)
    requires RestorePlan(codec, root, archive).Good?
    ensures forall i :: i in Planned(codec, root, archive) ==> i.path in RestorePlan(codec, root, archive).value.paths
  {
    PlanIsPaired(codec, root, archive);
  }

  /** A restore that finds no planned path in place keeps every file there is. */
  lemma FilesSurvive(codec: Codec, root: Path, archive: Archive, t: Tree)
    requires RestorePlan(codec, root, archive).Good?
    requires PlanRestore(codec, root, archive, t, false).value.conflicts == 0
    ensures forall p :: p in t.files ==>
      && p in PlaceAll(t, Planned(codec, root, archive)).tree.files
      && PlaceAll(t, Planned(codec, root, archive)).tree.files[p] == t.files[p]
  {
    PlanReport(codec, root, archive, t, false);
    PlannedPaths(codec, root, archive);
    forall p | p in t.files
      ensures p in PlaceAll(t, Planned(codec, root, archive)).tree.files
      ensures PlaceAll(t, Planned(codec, root, archive)).tree.files[p] == t.files[p]
    {
      UnplannedStay(t, Planned(codec, root, archive), p);
    }
  }

  class Destination {
    /** The tree below the destination directory. */
    var tree: Tree

    constructor (tree: Tree)
      ensures this.tree == tree
    {
      this.tree := tree;
    }

    /** `restore_local_backup`: nothing is written unless the plan is valid, has no conflict and is to be
        applied. */
    method RestoreLocalBackup(codec: Codec, root: Path, archive: Archive, apply: bool, allowOverwrite: bool)
      returns (result: Checked<Report>)
      modifies this
      ensures var plan := PlanRestore(codec, root, archive, old(tree), allowOverwrite);
        if plan.Bad? then result == Bad(plan.failure) && tree == old(tree)
        else if plan.value.conflicts > 0 then result == Bad(Conflicts) && tree == old(tree)
        else if !apply then result == plan && tree == old(tree)
        else
          var written := PlaceAll(old(tree), Planned(codec, root, archive));
          && tree == written.tree
          && result == (if written.ok then Good(plan.value.(dryRun := false)) else Bad(WriteFailed))
      ensures !allowOverwrite ==>
        forall p :: p in old(tree).files ==> p in tree.files && tree.files[p] == old(tree).files[p]
      ensures apply && !allowOverwrite && result.Good? ==>
        forall p :: p in RestorePlan(codec, root, archive).value.paths ==> p !in old(tree).files && p !in old(tree).dirs
    {
      var checked := RestorePlan(codec, root, archive);
      if checked.Bad? {
        return Bad(checked.failure);
      }
      var plan := checked.value;
      PlanIsPaired(codec, root, archive);
      var conflicts := ConflictCount(tree, plan.paths, allowOverwrite);
      if conflicts > 0 {
        return Bad(Conflicts);
      }
      if !apply {
        return Good(Report(|plan.paths|, true, 0, false));
      }
      if !allowOverwrite {
        PlanReport(codec, root, archive, tree, false);
        FilesSurvive(codec, root, archive, tree);
      }
      var ok := WritePlan(archive, plan);
      result := if ok then Good(Report(|plan.paths|, false, 0, false)) else Bad(WriteFailed);
    }

    method WritePlan(archive: Archive, plan: Plan) returns (ok: bool)
      requires |plan.paths| == |plan.names|
      modifies this
      ensures Written(tree, ok) == PlaceAll(old(tree), PlanItems(archive, plan))
    {
      ghost var items := PlanItems(archive, plan);
      for k := 0 to |plan.paths|
        invariant Written(tree, true) == PlaceAll(old(tree), items[..k])
      {
        PrefixStep(items, k);
        var placed := PlaceFile(tree, plan.paths[k], ContentOf(archive, plan.names[k]));
        if placed == None {
          FailureStays(old(tree), items, k + 1);
          return false;
        }
        tree := placed.value;
      }
      assert items[..|items|] == items;
      ok := true;
    }
  }

  lemma {:induction false} FailureStays(t: Tree, items: seq<Item>, n: nat)
    requires n <= |items| && !PlaceAll(t, items[..n]).ok
    ensures PlaceAll(t, items) == PlaceAll(t, items[..n])
  {
    if n == |items| {
      assert items[..n] == items;
    } else {
      var init := items[..|items| - 1];
      assert init[..n] == items[..n];
      FailureStays(t, init, n);
    }
  }

  /* ----- writing into an empty destination ----- */

  /** What is left when later items replace earlier ones with their path. */
  function LastWins(items: seq<Item>): set<Item>
  {
    if items == [] then {} else Replaced(LastWins(items[..|items| - 1]), items[|items| - 1])
  }

  lemma {:induction false} LastWinsUnique(items: seq<Item>, i: Item, j: Item)
    requires i in LastWins(items) && j in LastWins(items) && i.path == j.path
    ensures i == j
  {
    if i != items[|items| - 1] && j != items[|items| - 1] {
      LastWinsUnique(items[..|items| - 1], i, j);
    }
  }

  /** A path once written stays. */
  lemma {:induction false} PathStays(items: seq<Item>, n: nat, i: Item) returns (j: Item)
    requires n <= |items| && i in LastWins(items[..n])
    ensures j in LastWins(items) && j.path == i.path
  {
    if n == |items| {
      assert items[..n] == items;
      j := i;
    } else {
      var init := items[..|items| - 1];
      assert init[..n] == items[..n];
      j := PathStays(init, n, i);
      if j.path == items[|items| - 1].path {
        j := items[|items| - 1];
      }
    }
  }

  lemma PrefixConsistent(items: seq<Item>, n: nat)
    requires n <= |items| && Consistent(LastWins(items))
    ensures Consistent(LastWins(items[..n]))
  {
    var few := LastWins(items[..n]);
    forall i, j | i in few && j in few
      ensures (i.path == j.path ==> i.content == j.content) && !IsAncestor(i.path, j.path) && i.path != []
    {
      var a := PathStays(items, n, i);
      var b := PathStays(items, n, j);
      if i.path == j.path {
        LastWinsUnique(items[..n], i, j);
      }
    }
  }

  /** Writing into an empty destination succeeds exactly when what remains of the items can stand in one
      tree, and then that is the tree. */
  lemma {:induction false} PlaceAllIff(items: seq<Item>)
    ensures PlaceAll(EMPTY, items).ok <==> Consistent(LastWins(items))
    ensures PlaceAll(EMPTY, items).ok ==> Holds(PlaceAll(EMPTY, items).tree, LastWins(items))
  {
    if items == [] {
      EmptyHolds();
    } else {
      var init, last := items[..|items| - 1], items[|items| - 1];
      PlaceAllIff(init);
      if PlaceAll(EMPTY, init).ok {
        PlaceItem(PlaceAll(EMPTY, init).tree, LastWins(init), last);
      } else if Consistent(LastWins(items)) {
        PrefixConsistent(items, |init|);
      }
    }
  }
}
