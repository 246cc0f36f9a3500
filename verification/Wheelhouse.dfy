/** Unpacking wheels into the managed site-packages directory (scripts/build_phase6_release.py). */
module Wheelhouse {
  import opened Sequences
  import opened FileTree
  import S = StableSort
  import Text

  datatype Member = Member(filename: string, content: Bytes)

  datatype Wheel = Wheel(name: string, sha256: string, members: seq<Member>)

  /* ----- where a member goes ----- */

  datatype Target = Unsafe | Skipped | At(path: Path)

  function LowerChar(c: char): char
  {
    if 'A' <= c <= 'Z' then c - 'A' + 'a' else c
  }

  function Lower(s: string): string
  {
    Map(s, LowerChar)
  }

  /** Two texts have the same lower case exactly when they differ in the case of Latin letters only. */
  lemma LowerIff(s: string, t: string)
    ensures Lower(s) == Lower(t) <==>
      |s| == |t| && forall i :: 0 <= i < |s| ==>
        || s[i] == t[i]
        || ('A' <= s[i] <= 'Z' && t[i] as int == s[i] as int + 32)
        || ('A' <= t[i] <= 'Z' && s[i] as int == t[i] as int + 32)
  {
    if |s| == |t| && Lower(s) == Lower(t) {
      forall i | 0 <= i < |s| ensures LowerChar(s[i]) == LowerChar(t[i]) {
        assert Lower(s)[i] == Lower(t)[i];
      }
    }
    assert |Lower(s)| == |s| && |Lower(t)| == |t|;
  }

  function LastDot(name: string): int
  {
    if name == "" then -1 else if name[|name| - 1] == '.' then |name| - 1 else LastDot(name[..|name| - 1])
  }

  /** `Path.suffix` of a file name. */
  function Suffix(name: string): string
  {
    if 0 < LastDot(name) < |name| - 1 then name[LastDot(name)..] else ""
  }

  predicate ForbiddenDirectory(part: string)
  {
    Lower(part) in {"__pycache__", ".pytest_cache", "test", "tests"}
  }

  predicate ForbiddenSuffix(name: string)
  {
    Lower(Suffix(name)) in {".pyc", ".pyo"}
  }

  /** `_is_forbidden_runtime_path`. */
  predicate Forbidden(p: Path)
  {
    p != [] && ((exists k :: 0 <= k < |p| - 1 && ForbiddenDirectory(p[k])) || ForbiddenSuffix(p[|p| - 1]))
  }

  predicate IsDataPart(part: string)
  {
    |part| >= 5 && part[|part| - 5..] == ".data"
  }

  /** The first `.data` part that another part follows, `|p|` if there is none. */
  function DataIndex(p: Path, from: nat): (i: nat)
    requires from <= |p|
    ensures from <= i <= |p| && (i < |p| ==> i + 2 <= |p|)
    decreases |p| - from
  {
    if from == |p| then from
    else if IsDataPart(p[from]) && from + 2 <= |p| then from
    else DataIndex(p, from + 1)
  }

  /** `_wheel_install_relative_path`. */
  function InstallTarget(name: string): Target
  {
    var p := PathParts(name);
    if IsAbsolute(name) || ".." in p then Unsafe
    else
      var i := DataIndex(p, 0);
      if i == |p| then (if Forbidden(p) then Skipped else At(p))
      else if p[i + 1] in {"purelib", "platlib"} then
        (if p[i + 2..] == [] || Forbidden(p[i + 2..]) then Skipped else At(p[i + 2..]))
      else Skipped
  }

  predicate IsDirectoryEntry(name: string)
  {
    name != "" && name[|name| - 1] == '/'
  }

  function TargetOf(m: Member): Target
  {
    if IsDirectoryEntry(m.filename) then Skipped else InstallTarget(m.filename)
  }

  lemma {:induction false} FirstDataPart(p: Path, from: nat, i: nat)
    requires from <= i && i + 2 <= |p| && IsDataPart(p[i]) && forall j :: from <= j < i ==> !IsDataPart(p[j])
    ensures DataIndex(p, from) == i
    decreases i - from
  {
    if from < i {
      FirstDataPart(p, from + 1, i);
    }
  }

  ghost predicate EndsInData(part: string)
  {
    exists stem: string :: part == stem + ".data"
  }

  lemma DataPartIff(part: string)
    ensures IsDataPart(part) <==> EndsInData(part)
  {
    if IsDataPart(part) {
      assert part == part[..|part| - 5] + ".data";
    }
  }

  /** A member below a `.data` directory: in `purelib` and `platlib` the rest of its path is installed, unless it
      is forbidden or empty; whatever else is there is passed over. */
  lemma DataMember(name: string, before: Path, data: string, area: string, rest: Path)
    requires !IsAbsolute(name) && PathParts(name) == before + [data, area] + rest && ".." !in PathParts(name)
    requires EndsInData(data) && forall part :: part in before ==> !EndsInData(part)
    ensures InstallTarget(name) ==
      if (area == "purelib" || area == "platlib") && rest != [] && !Forbidden(rest) then At(rest) else Skipped
  {
    var p := before + [data, area] + rest;
    forall j | 0 <= j < |before| ensures !IsDataPart(p[j]) {
      assert p[j] in before;
      DataPartIff(p[j]);
    }
    DataPartIff(data);
    FirstDataPart(p, 0, |before|);
    assert p[|before| + 2..] == rest;
  }

  /** Any other member is installed as it is unless it is forbidden; a last part that ends in `.data` is none. */
  lemma OrdinaryMember(name: string)
    requires !IsAbsolute(name) && ".." !in PathParts(name)
    requires forall i :: 0 <= i < |PathParts(name)| - 1 ==> !EndsInData(PathParts(name)[i])
    ensures InstallTarget(name) == if Forbidden(PathParts(name)) then Skipped else At(PathParts(name))
  {
    var p := PathParts(name);
    forall i | 0 <= i < |p| - 1 ensures !IsDataPart(p[i]) {
      DataPartIff(p[i]);
    }
    NoDataPart(p, 0);
  }

  lemma {:induction false} NoDataPart(p: Path, from: nat)
    requires from <= |p| && forall i :: 0 <= i < |p| - 1 ==> !IsDataPart(p[i])
    ensures DataIndex(p, from) == |p|
    decreases |p| - from
  {
    if from < |p| {
      NoDataPart(p, from + 1);
    }
  }

  /** Names that are absolute or climb are refused, and no others. */
  lemma UnsafeIff(m: Member)
    ensures TargetOf(m) == Unsafe <==>
      && !(m.filename != "" && m.filename[|m.filename| - 1] == '/')
      && (IsAbsolute(m.filename) || ".." in PathParts(m.filename))
  {
  }

  /** Forbidden are files below a cache or test directory, in any case, and compiled files. */
  lemma ForbiddenIff(before: Path, name: string)
    ensures Forbidden(before + [name]) <==>
      || (exists d :: d in before && Lower(d) in {"__pycache__", ".pytest_cache", "test", "tests"})
      || (|name| > 4 && Lower(name[|name| - 4..]) in {".pyc", ".pyo"})
  {
    var p := before + [name];
    forall k | 0 <= k < |before| ensures p[k] == before[k] && p[k] in before {
    }
    CompiledIff(name);
    if d :| d in before && ForbiddenDirectory(d) {
      var k :| 0 <= k < |before| && before[k] == d;
      assert ForbiddenDirectory(p[k]);
    }
  }

  lemma CompiledIff(name: string)
    ensures ForbiddenSuffix(name) <==> |name| > 4 && Lower(name[|name| - 4..]) in {".pyc", ".pyo"}
  {
    LastDotIs(name);
    if |name| > 4 && Lower(name[|name| - 4..]) in {".pyc", ".pyo"} {
      ExtensionDot(name, |name| - 4);
    }
    assert Lower("") == "";
  }

  lemma ExtensionDot(name: string, d: nat)
    requires d + 4 == |name| && Lower(name[d..]) in {".pyc", ".pyo"}
    ensures LastDot(name) == d
  {
    LastDotIs(name);
    CompiledExtension(name[d..]);
    assert forall i :: d <= i < |name| ==> name[i] == name[d..][i - d];
  }

  lemma CompiledExtension(ext: string)
    requires Lower(ext) in {".pyc", ".pyo"}
    ensures |ext| == 4 && ext[0] == '.' && forall i :: 1 <= i < 4 ==> ext[i] != '.'
  {
    assert |Lower(ext)| == |ext| == 4;
    assert forall i :: 0 <= i < 4 ==> Lower(ext)[i] == LowerChar(ext[i]);
  }

  /** The last dot, if any. */
  lemma {:induction false} LastDotIs(name: string)
    ensures -1 <= LastDot(name) < |name|
    ensures LastDot(name) >= 0 ==> name[LastDot(name)] == '.'
    ensures forall i :: LastDot(name) < i < |name| ==> name[i] != '.'
  {
    if name != "" && name[|name| - 1] != '.' {
      LastDotIs(name[..|name| - 1]);
    }
  }

  /** What is installed lies inside site-packages, below the member's own path, and is not forbidden. */
  lemma InstalledPathsAreProper(m: Member)
    requires TargetOf(m).At?
    ensures ".." !in TargetOf(m).path && !Forbidden(TargetOf(m).path) && !IsAbsolute(m.filename)
    ensures exists k :: 0 <= k <= |PathParts(m.filename)| && TargetOf(m).path == PathParts(m.filename)[k..]
  {
    var p := PathParts(m.filename);
    var i := DataIndex(p, 0);
    var k := if i == |p| then 0 else i + 2;
    assert p[0..] == p;
    assert TargetOf(m).path == p[k..];
  }

  /* ----- installing members one after the other ----- */

  datatype Failure = UnsafeMember | Conflict(path: Path) | CannotWrite(path: Path)

  datatype Progress = Progress(tree: Tree, failure: Option<Failure>)

  /** Installs one member; a file that is there already must have the same content. */
  function Install(target: Member -> Target, t: Tree, m: Member): Progress
  {
    match target(m)
    case Unsafe => Progress(t, Some(UnsafeMember))
    case Skipped => Progress(t, None)
    case At(p) =>
      if p in t.files && t.files[p] != m.content then Progress(t, Some(Conflict(p)))
      else match PlaceFile(t, p, m.content)
        case None => Progress(t, Some(CannotWrite(p)))
        case Some(u) => Progress(u, None)
  }

  /** Installs members until one fails. */
  function InstallAll(target: Member -> Target, t: Tree, ms: seq<Member>): Progress
  {
    if ms == [] then Progress(t, None)
    else
      var before := InstallAll(target, t, ms[..|ms| - 1]);
      if before.failure != None then before else Install(target, before.tree, ms[|ms| - 1])
  }

  function Items(target: Member -> Target, ms: seq<Member>): set<Item>
  {
    set m | m in ms && target(m).At? :: Item(target(m).path, m.content)
  }

  predicate AllSafe(target: Member -> Target, ms: seq<Member>)
  {
    forall m :: m in ms ==> target(m) != Unsafe
  }

  lemma ItemsLast(target: Member -> Target, ms: seq<Member>, m: Member)
    ensures Items(target, ms + [m]) ==
      Items(target, ms) + if target(m).At? then {Item(target(m).path, m.content)} else {}
    ensures AllSafe(target, ms + [m]) <==> AllSafe(target, ms) && target(m) != Unsafe
  {
    assert m in ms + [m];
    assert forall x :: x in ms ==> x in ms + [m];
  }

  lemma InstallStep(target: Member -> Target, t: Tree, items: set<Item>, m: Member)
    requires Holds(t, items) && Consistent(items) && target(m).At?
    ensures var item := Item(target(m).path, m.content); var after := Install(target, t, m);
      && (after.failure == None <==> Consistent(items + {item}))
      && (after.failure == None ==> Holds(after.tree, items + {item}))
  {
    var item := Item(target(m).path, m.content);
    PlaceItem(t, items, item);
    if item.path in t.files && t.files[item.path] != m.content {
      assert Item(item.path, t.files[item.path]) in items + {item} && item in items + {item};
    } else {
      forall i | i in items && i.path == item.path ensures i == item {
        assert Item(i.path, i.content) in items;
      }
      ReplacedBySame(items, item);
    }
  }

  /** Starting from an empty directory, installation succeeds exactly when no member is unsafe and the
      installable files can stand in one tree: equal contents wherever two share a path, and none above
      another.  The result then is the union of them all. */
  lemma {:induction false} InstallSucceedsIff(target: Member -> Target, ms: seq<Member>)
    ensures var p := InstallAll(target, EMPTY, ms);
      && (p.failure == None <==> AllSafe(target, ms) && Consistent(Items(target, ms)))
      && (p.failure == None ==> Holds(p.tree, Items(target, ms)))
  {
    if ms == [] {
      EmptyHolds();
      assert Items(target, ms) == {};
    } else {
      var init, last := ms[..|ms| - 1], ms[|ms| - 1];
      assert ms == init + [last];
      InstallSucceedsIff(target, init);
      ItemsLast(target, init, last);
      var before := InstallAll(target, EMPTY, init);
      if before.failure == None && target(last).At? {
        InstallStep(target, before.tree, Items(target, init), last);
      }
      if Consistent(Items(target, ms)) {
        FewerStayConsistent(Items(target, init), Items(target, ms));
      }
    }
  }

  lemma FewerStayConsistent(few: set<Item>, many: set<Item>)
    requires few <= many && Consistent(many)
    ensures Consistent(few)
  {
  }

  /** Neither success nor the resulting tree depends on the order of the members, nor on repetitions. */
  lemma InstallOrderIrrelevant(target: Member -> Target, ms: seq<Member>, ns: seq<Member>)
    requires forall m :: m in ms <==> m in ns
    ensures var p, q := InstallAll(target, EMPTY, ms), InstallAll(target, EMPTY, ns);
      && (p.failure == None <==> q.failure == None)
      && (p.failure == None ==> p.tree == q.tree)
  {
    InstallSucceedsIff(target, ms);
    InstallSucceedsIff(target, ns);
    assert Items(target, ms) == Items(target, ns);
    var p, q := InstallAll(target, EMPTY, ms), InstallAll(target, EMPTY, ns);
    if p.failure == None {
      HoldsUnique(p.tree, q.tree, Items(target, ms));
    }
  }

  /* ----- the wheelhouse ----- */

  function WheelName(w: Wheel): string
  {
    w.name
  }

  function FileName(m: Member): string
  {
    m.filename
  }

  function SortedMembers(w: Wheel): seq<Member>
  {
    S.Sort(w.members, FileName, Text.StrLe)
  }

  function SortedWheels(ws: seq<Wheel>): seq<Wheel>
  {
    S.Sort(ws, WheelName, Text.StrLe)
  }

  /** All members in the order in which they are installed. */
  function Sequence(ws: seq<Wheel>): seq<Member>
  {
    if ws == [] then [] else Sequence(ws[..|ws| - 1]) + SortedMembers(ws[|ws| - 1])
  }

  predicate Installable(m: Member)
  {
    TargetOf(m).At?
  }

  datatype Installed = Installed(name: string, sha256: string, filesInstalled: nat)

  function Report(w: Wheel): Installed
  {
    Installed(w.name, w.sha256, |Filter(w.members, Installable)|)
  }

  datatype Outcome = Materialized(wheels: seq<Installed>) | NoWheels | Failed(failure: Failure)

  lemma NameOrder()
    ensures S.TotalPreorder(Text.StrLe)
  {
    forall a, b ensures Text.StrLe(a, b) || Text.StrLe(b, a) { Text.StrLeTotal(a, b); }
    forall a, b, c | Text.StrLe(a, b) && Text.StrLe(b, c) ensures Text.StrLe(a, c) { Text.StrLeTransitive(a, b, c); }
  }

  /** Sorting the members does not change how many of them are installed. */
  lemma CountIgnoresOrder(w: Wheel)
    ensures |Filter(SortedMembers(w), Installable)| == |Filter(w.members, Installable)|
  {
    NameOrder();
    S.SortSorted(w.members, FileName, Text.StrLe);
    FilterIgnoresOrder(SortedMembers(w), w.members, Installable);
    assert |multiset(Filter(SortedMembers(w), Installable))| == |multiset(Filter(w.members, Installable))|;
  }

  lemma {:induction false} InstallAllAppend(target: Member -> Target, t: Tree, ms: seq<Member>, ns: seq<Member>)
    ensures InstallAll(target, t, ms + ns) ==
      if InstallAll(target, t, ms).failure != None then InstallAll(target, t, ms)
      else InstallAll(target, InstallAll(target, t, ms).tree, ns)
  {
    if ns == [] {
      assert ms + ns == ms;
    } else {
      assert (ms + ns)[..|ms + ns| - 1] == ms + ns[..|ns| - 1];
      InstallAllAppend(target, t, ms, ns[..|ns| - 1]);
    }
  }

  lemma {:induction false} SequenceMembers(ws: seq<Wheel>, m: Member)
    ensures m in Sequence(ws) <==> exists w :: w in ws && m in w.members
  {
    if ws != [] {
      var init, last := ws[..|ws| - 1], ws[|ws| - 1];
      SequenceMembers(init, m);
      NameOrder();
      S.SortMember(last.members, FileName, Text.StrLe, m);
      assert ws == init + [last];
      assert m in Sequence(ws) <==> m in Sequence(init) || m in SortedMembers(last);
    }
  }

  /** Whether a collection of wheels materialises, and as what, depends only on which wheels there are. */
  lemma WheelOrderIrrelevant(ws: seq<Wheel>, vs: seq<Wheel>)
    requires multiset(ws) == multiset(vs)
    ensures var p, q := InstallAll(TargetOf, EMPTY, Sequence(ws)), InstallAll(TargetOf, EMPTY, Sequence(vs));
      && (p.failure == None <==> q.failure == None)
      && (p.failure == None ==> p.tree == q.tree)
  {
    forall m ensures m in Sequence(ws) <==> m in Sequence(vs) {
      SequenceMembers(ws, m);
      SequenceMembers(vs, m);
      assert forall w :: w in ws <==> w in multiset(ws);
      assert forall w :: w in vs <==> w in multiset(vs);
    }
    InstallOrderIrrelevant(TargetOf, Sequence(ws), Sequence(vs));
  }

  /** The members of a wheelhouse can stand in one tree. */
  ghost predicate Mergeable(ws: seq<Wheel>)
  {
    && (forall w, m :: w in ws && m in w.members ==> TargetOf(m) != Unsafe)
    && Consistent(set w, m | w in ws && m in w.members && TargetOf(m).At? :: Item(TargetOf(m).path, m.content))
  }

  class SitePackages {
    var tree: Tree

    constructor ()
      ensures tree == EMPTY
    {
      tree := EMPTY;
    }

    method InstallMember(m: Member) returns (failure: Option<Failure>, written: bool)
      modifies this
      ensures Progress(tree, failure) == Install(TargetOf, old(tree), m)
      ensures failure == None ==> (written <==> Installable(m))
    {
      written := false;
      var target := TargetOf(m);
      match target {
        case Unsafe => return Some(UnsafeMember), false;
        case Skipped => return None, false;
        case At(p) =>
          if p in tree.files && tree.files[p] != m.content {
            return Some(Conflict(p)), false;
          }
          var placed := PlaceFile(tree, p, m.content);
          if placed == None {
            return Some(CannotWrite(p)), false;
          }
          tree := placed.value;
          return None, true;
      }
    }

    method InstallWheel(w: Wheel) returns (failure: Option<Failure>, count: nat)
      modifies this
      ensures Progress(tree, failure) == InstallAll(TargetOf, old(tree), SortedMembers(w))
      ensures failure == None ==> count == |Filter(w.members, Installable)|
    {
      failure, count := None, 0;
      var members := SortedMembers(w);
      for i := 0 to |members|
        invariant failure == None
        invariant Progress(tree, None) == InstallAll(TargetOf, old(tree), members[..i])
        invariant count == |Filter(members[..i], Installable)|
      {
        PrefixStep(members, i);
        FilterLast(members[..i], members[i], Installable);
        var written;
        failure, written := InstallMember(members[i]);
        if failure != None {
          FailureStays(TargetOf, old(tree), members, i + 1);
          return;
        }
        if written {
          count := count + 1;
        }
      }
      assert members[..|members|] == members;
      CountIgnoresOrder(w);
    }

    /** `_materialize_python_wheelhouse`: a failure leaves what was installed before it. */
    method MaterializeWheelhouse(wheels: seq<Wheel>) returns (outcome: Outcome)
      modifies this
      ensures var p := InstallAll(TargetOf, old(tree), Sequence(SortedWheels(wheels)));
        && tree == p.tree
        && outcome == if p.failure != None then Failed(p.failure.value)
                      else if wheels == [] then NoWheels
                      else Materialized(Map(SortedWheels(wheels), Report))
    {
      var sorted := SortedWheels(wheels);
      NameOrder();
      S.SortSorted(wheels, WheelName, Text.StrLe);
      var installed: seq<Installed> := [];
      for i := 0 to |sorted|
        invariant installed == Map(sorted[..i], Report)
        invariant Progress(tree, None) == InstallAll(TargetOf, old(tree), Sequence(sorted[..i]))
      {
        PrefixStep(sorted, i);
        MapLast(sorted[..i], sorted[i], Report);
        InstallAllAppend(TargetOf, old(tree), Sequence(sorted[..i]), SortedMembers(sorted[i]));
        var failure, count := InstallWheel(sorted[i]);
        if failure != None {
          SequenceFailureStays(old(tree), sorted, i + 1);
          return Failed(failure.value);
        }
        installed := installed + [Installed(sorted[i].name, sorted[i].sha256, count)];
      }
      assert sorted[..|sorted|] == sorted;
      outcome := if installed != [] then Materialized(installed) else NoWheels;
    }
  }

  lemma FailureStays(target: Member -> Target, t: Tree, ms: seq<Member>, n: nat)
    requires n <= |ms| && InstallAll(target, t, ms[..n]).failure != None
    ensures InstallAll(target, t, ms) == InstallAll(target, t, ms[..n])
  {
    InstallAllAppend(target, t, ms[..n], ms[n..]);
    assert ms == ms[..n] + ms[n..];
  }

  lemma {:induction false} SequenceFailureStays(t: Tree, ws: seq<Wheel>, n: nat)
    requires n <= |ws| && InstallAll(TargetOf, t, Sequence(ws[..n])).failure != None
    ensures InstallAll(TargetOf, t, Sequence(ws)) == InstallAll(TargetOf, t, Sequence(ws[..n]))
  {
    if n == |ws| {
      assert ws[..n] == ws;
    } else {
      var init := ws[..|ws| - 1];
      assert init[..n] == ws[..n];
      SequenceFailureStays(t, init, n);
      InstallAllAppend(TargetOf, t, Sequence(init), SortedMembers(ws[|ws| - 1]));
    }
  }

  /** Materialising into an empty directory succeeds exactly for a mergeable wheelhouse, and then the tree is
      the union of all installable members, whatever the order of the wheels. */
  lemma WheelhouseMergesIff(ws: seq<Wheel>)
    ensures var p := InstallAll(TargetOf, EMPTY, Sequence(SortedWheels(ws)));
      && (p.failure == None <==> Mergeable(ws))
      && (p.failure == None ==> Holds(p.tree,
            set w, m | w in ws && m in w.members && TargetOf(m).At? :: Item(TargetOf(m).path, m.content)))
  {
    var ms := Sequence(SortedWheels(ws));
    InstallSucceedsIff(TargetOf, ms);
    var all := set w, m | w in ws && m in w.members && TargetOf(m).At? :: Item(TargetOf(m).path, m.content);
    forall m ensures m in ms <==> exists w :: w in ws && m in w.members {
      MemberOfSorted(ws, m);
    }
    assert Items(TargetOf, ms) == all;
  }

  lemma MemberOfSorted(ws: seq<Wheel>, m: Member)
    ensures m in Sequence(SortedWheels(ws)) <==> exists w :: w in ws && m in w.members
  {
    SequenceMembers(SortedWheels(ws), m);
    NameOrder();
    forall w ensures w in SortedWheels(ws) <==> w in ws {
      S.SortMember(ws, WheelName, Text.StrLe, w);
    }
  }

  lemma NoneBelowAnother(ws: seq<Wheel>, w: Wheel, m: Member, n: Member)
    requires w in ws && m in w.members && n in w.members && TargetOf(m).At? && TargetOf(n).At?
    requires IsAncestor(TargetOf(m).path, TargetOf(n).path)
    ensures !Mergeable(ws)
  {
    var all := set v, k | v in ws && k in v.members && TargetOf(k).At? :: Item(TargetOf(k).path, k.content);
    var i, j := Item(TargetOf(m).path, m.content), Item(TargetOf(n).path, n.content);
    assert i in all && j in all;
    assert IsAncestor(i.path, j.path);
  }

  /** A file `a` and a file below `a` cannot both be installed, whatever they contain. */
  lemma FileBelowFile(x: Bytes, y: Bytes)
    ensures var w := Wheel("w", "", [Member("a", x), Member("a/b", y)]);
      && TargetOf(w.members[0]) == At(["a"]) && TargetOf(w.members[1]) == At(["a", "b"])
      && InstallAll(TargetOf, EMPTY, Sequence(SortedWheels([w]))).failure != None
  {
    var m, n := Member("a", x), Member("a/b", y);
    PlainTargets();
    var w := Wheel("w", "", [m, n]);
    assert ["a", "b"][..1] == ["a"];
    assert m == w.members[0] && n == w.members[1];
    NoneBelowAnother([w], w, m, n);
    WheelhouseMergesIff([w]);
  }

  lemma PlainTargets()
    ensures InstallTarget("a") == At(["a"]) && InstallTarget("a/b") == At(["a", "b"])
  {
    PosixNames();
    PlainTarget(["a"]);
    PlainTarget(["a", "b"]);
  }

  lemma PosixNames()
    ensures AsPosix(["a"]) == "a" && AsPosix(["a", "b"]) == "a/b"
  {
    PosixOfTwo("a", "b");
    assert "a" + "/" + "b" == "a/b";
  }

  lemma PosixOfTwo(a: string, b: string)
    ensures AsPosix([a]) == a && AsPosix([a, b]) == a + "/" + b
  {
    assert [a, b][1..] == [b];
    assert Text.Join("/", [b]) == b;
    assert Text.Join("/", [a, b]) == a + "/" + Text.Join("/", [a, b][1..]);
  }

  predicate PlainPart(part: string)
  {
    |part| == 1 && part[0] != '.' && part[0] != '/'
  }

  /** A path of single letters is installed as it is. */
  lemma PlainTarget(p: Path)
    requires p != [] && forall part :: part in p ==> PlainPart(part)
    ensures InstallTarget(AsPosix(p)) == At(p)
  {
    PosixRoundTrip(p);
    NotForbidden(p);
    forall i | 0 <= i < |p| ensures !IsDataPart(p[i]) {
      assert p[i] in p;
    }
    NoDataPart(p, 0);
  }

  lemma NotForbidden(p: Path)
    requires p != [] && forall part :: part in p ==> PlainPart(part)
    ensures !Forbidden(p) && ".." !in p
  {
    forall k | 0 <= k < |p| ensures !ForbiddenDirectory(p[k]) && !ForbiddenSuffix(p[k]) {
      assert PlainPart(p[k]);
      ShortPart(p[k]);
    }
    assert |".."| == 2;
  }

  lemma ShortPart(part: string)
    requires |part| == 1
    ensures !ForbiddenDirectory(part) && !ForbiddenSuffix(part)
  {
    assert |Lower(part)| == 1;
    assert Suffix(part) == "" && Lower("") == "";
  }

  /** Wheels are taken by name, and each is reported under its name and digest with its installable members. */
  lemma ReportsByName(ws: seq<Wheel>)
    ensures var sorted, reports := SortedWheels(ws), Map(SortedWheels(ws), Report);
      && multiset(sorted) == multiset(ws)
      && (forall i, j :: 0 <= i < j < |sorted| ==> Text.StrLe(sorted[i].name, sorted[j].name))
      && forall i :: 0 <= i < |sorted| ==>
           && reports[i].name == sorted[i].name && reports[i].sha256 == sorted[i].sha256
           && reports[i].filesInstalled == |Filter(sorted[i].members, Installable)|
  {
    NameOrder();
    S.SortSorted(ws, WheelName, Text.StrLe);
    var sorted := SortedWheels(ws);
    forall i, j | 0 <= i < j < |sorted| ensures Text.StrLe(sorted[i].name, sorted[j].name) {
      assert Text.StrLe(WheelName(sorted[i]), WheelName(sorted[j]));
    }
  }
}
