/** A directory tree without links: files with their contents and directories, both named by the parts of
    their path below a common root. */
module FileTree {
  import opened Sequences
  import Text

  type Bytes = seq<bv8>
  type Path = seq<string>

  datatype Tree = Tree(files: map<Path, Bytes>, dirs: set<Path>)

  /** The directories a path lies in, the root among them. */
  function Ancestors(p: Path): set<Path>
  {
    set n | 0 <= n < |p| :: p[..n]
  }

  predicate IsAncestor(a: Path, p: Path)
  {
    |a| < |p| && a == p[..|a|]
  }

  lemma AncestorsExact(p: Path, a: Path)
    ensures a in Ancestors(p) <==> IsAncestor(a, p)
  {
    if IsAncestor(a, p) {
      assert p[..|a|] in Ancestors(p);
    }
  }

  /** Whatever exists lies in existing directories, and nothing is both a file and a directory. */
  predicate Valid(t: Tree)
  {
    && (forall p :: p in t.files ==> p !in t.dirs && Ancestors(p) <= t.dirs)
    && (forall p :: p in t.dirs ==> Ancestors(p) <= t.dirs)
  }

  predicate Exists(t: Tree, p: Path)
  {
    p in t.files || p in t.dirs
  }

  predicate FileAbove(t: Tree, p: Path)
  {
    exists a :: a in Ancestors(p) && a in t.files
  }

  /** `path.mkdir(parents=True, exist_ok=True)`, None when a file is in the way. */
  function MakeDirs(t: Tree, p: Path): Option<Tree>
  {
    if p in t.files || FileAbove(t, p) then None else Some(t.(dirs := t.dirs + Ancestors(p) + {p}))
  }

  /** `path.write_bytes(content)` in an existing directory, None when the path is a directory. */
  function WriteFile(t: Tree, p: Path, content: Bytes): Option<Tree>
  {
    if p in t.dirs then None else Some(t.(files := t.files[p := content]))
  }

  /** Making the parent directories and writing the file; the root itself cannot be written. */
  function PlaceFile(t: Tree, p: Path, content: Bytes): Option<Tree>
  {
    if p == [] then None
    else match MakeDirs(t, p[..|p| - 1])
      case None => None
      case Some(made) => WriteFile(made, p, content)
  }

  lemma ParentAncestors(p: Path)
    requires p != []
    ensures Ancestors(p) == Ancestors(p[..|p| - 1]) + {p[..|p| - 1]}
  {
    forall a ensures a in Ancestors(p) <==> a in Ancestors(p[..|p| - 1]) + {p[..|p| - 1]} {
      AncestorsExact(p, a);
      AncestorsExact(p[..|p| - 1], a);
      if |a| < |p| - 1 {
        assert p[..|p| - 1][..|a|] == p[..|a|];
      }
    }
  }

  /** Placing a file fails exactly when a file lies above it or a directory is in its place. */
  lemma PlaceFileIff(t: Tree, p: Path, content: Bytes)
    requires Valid(t) && [] in t.dirs
    ensures PlaceFile(t, p, content) != None <==> !FileAbove(t, p) && p !in t.dirs
    ensures PlaceFile(t, p, content) != None ==>
      PlaceFile(t, p, content).value == Tree(t.files[p := content], t.dirs + Ancestors(p))
  {
    if p != [] {
      ParentAncestors(p);
      var parent := p[..|p| - 1];
      assert FileAbove(t, p) <==> parent in t.files || FileAbove(t, parent);
      AncestorsExact(parent, p);
      assert p != parent && p !in Ancestors(parent);
    }
  }

  /* ----- the tree that a set of files makes ----- */

  datatype Item = Item(path: Path, content: Bytes)

  /** Items that can be in one tree: one content for each path, and no file above another. */
  predicate Consistent(items: set<Item>)
  {
    && (forall i :: i in items ==> i.path != [])
    && (forall i, j :: i in items && j in items ==>
          && (i.path == j.path ==> i.content == j.content)
          && !IsAncestor(i.path, j.path))
  }

  /** The tree holds exactly the items and the directories above them. */
  ghost predicate Holds(t: Tree, items: set<Item>)
  {
    && (forall p: Path, c: Bytes :: p in t.files && t.files[p] == c <==> Item(p, c) in items)
    && (forall d: Path :: d in t.dirs <==> d == [] || exists i :: i in items && IsAncestor(d, i.path))
  }

  const EMPTY := Tree(map[], {[]})

  lemma EmptyHolds()
    ensures Holds(EMPTY, {}) && Valid(EMPTY)
  {
    assert Ancestors([]) == {};
  }

  /** A set of items determines its tree. */
  lemma HoldsUnique(t: Tree, u: Tree, items: set<Item>)
    requires Holds(t, items) && Holds(u, items)
    ensures t == u
  {
    forall p ensures p in t.files <==> p in u.files {
      if p in t.files { assert Item(p, t.files[p]) in items; }
      if p in u.files { assert Item(p, u.files[p]) in items; }
    }
    forall p | p in t.files ensures t.files[p] == u.files[p] {
      assert Item(p, t.files[p]) in items;
    }
    assert t.files == u.files;
    assert t.dirs == u.dirs;
  }

  lemma AncestorTransitive(a: Path, b: Path, c: Path)
    requires IsAncestor(a, b) && IsAncestor(b, c)
    ensures IsAncestor(a, c)
  {
    assert c[..|b|][..|a|] == c[..|a|];
  }

  lemma HoldsIsValid(t: Tree, items: set<Item>)
    requires Holds(t, items) && Consistent(items)
    ensures Valid(t) && [] in t.dirs
  {
    forall p | p in t.files ensures p !in t.dirs && Ancestors(p) <= t.dirs {
      assert Item(p, t.files[p]) in items;
      forall a | a in Ancestors(p) ensures a in t.dirs {
        AncestorsExact(p, a);
        assert IsAncestor(a, Item(p, t.files[p]).path);
      }
    }
    forall d | d in t.dirs ensures Ancestors(d) <= t.dirs {
      forall a | a in Ancestors(d) ensures a in t.dirs {
        AncestorsExact(d, a);
        if d != [] {
          var i :| i in items && IsAncestor(d, i.path);
          AncestorTransitive(a, d, i.path);
        }
      }
    }
  }

  /** The items once `item` took the place of whatever was at its path. */
  function Replaced(items: set<Item>, item: Item): set<Item>
  {
    (set i | i in items && i.path != item.path) + {item}
  }

  lemma ReplacedBySame(items: set<Item>, item: Item)
    requires forall i :: i in items && i.path == item.path ==> i == item
    ensures Replaced(items, item) == items + {item}
  {
  }

  lemma FileAboveIff(t: Tree, items: set<Item>, p: Path)
    requires Holds(t, items)
    ensures FileAbove(t, p) <==> exists i :: i in items && IsAncestor(i.path, p)
  {
    if FileAbove(t, p) {
      var a :| a in Ancestors(p) && a in t.files;
      AncestorsExact(p, a);
      assert Item(a, t.files[a]) in items && IsAncestor(Item(a, t.files[a]).path, p);
    }
    if i :| i in items && IsAncestor(i.path, p) {
      AncestorsExact(p, i.path);
      assert i.path in t.files by { assert Item(i.path, i.content) in items; }
    }
  }

  /** An item can be placed, over an older one at its path if there is one, exactly when the items are then
      consistent; and the tree then holds them. */
  lemma PlaceItem(t: Tree, items: set<Item>, item: Item)
    requires Holds(t, items) && Consistent(items)
    ensures PlaceFile(t, item.path, item.content) != None <==> Consistent(Replaced(items, item))
    ensures PlaceFile(t, item.path, item.content) != None ==>
      Holds(PlaceFile(t, item.path, item.content).value, Replaced(items, item))
  {
    HoldsIsValid(t, items);
    PlaceFileIff(t, item.path, item.content);
    FileAboveIff(t, items, item.path);
    var p, after := item.path, Replaced(items, item);
    if !FileAbove(t, p) && p !in t.dirs {
      assert p != [];
      PlacedHolds(t, items, item);
    } else if p != [] {
      var i :| i in items && (IsAncestor(i.path, p) || IsAncestor(p, i.path));
      assert i in after && item in after;
    } else {
      assert item in after;
    }
  }

  lemma PlacedHolds(t: Tree, items: set<Item>, item: Item)
    requires Holds(t, items)
    ensures Holds(Tree(t.files[item.path := item.content], t.dirs + Ancestors(item.path)), Replaced(items, item))
  {
    var u, after := Tree(t.files[item.path := item.content], t.dirs + Ancestors(item.path)), Replaced(items, item);
    forall p: Path, c: Bytes ensures p in u.files && u.files[p] == c <==> Item(p, c) in after {
      if p == item.path {
        assert Item(p, c) == item <==> c == item.content;
      } else {
        assert p in t.files && t.files[p] == c <==> Item(p, c) in items;
      }
    }
    forall d: Path ensures d in u.dirs <==> d == [] || exists i :: i in after && IsAncestor(d, i.path) {
      AncestorsExact(item.path, d);
      assert item in after;
      if d in t.dirs && d != [] {
        var i :| i in items && IsAncestor(d, i.path);
        assert i in after || i.path == item.path;
      }
    }
  }

  /* ----- paths as text ----- */

  predicate NotDot(part: string)
  {
    part != "."
  }

  /** `Path(name).parts` of a relative name: empty parts and single dots vanish. */
  function PathParts(name: string): Path
  {
    Filter(Text.Split(name, Text.IsSlash), NotDot)
  }

  predicate IsAbsolute(name: string)
  {
    name != "" && name[0] == '/'
  }

  /** A part that survives being written with slashes and read back. */
  predicate IsPart(part: string)
  {
    Text.IsToken(part, Text.IsSlash) && part != "."
  }

  /** `path.as_posix()`. */
  function AsPosix(p: Path): string
  {
    Text.Join("/", p)
  }

  lemma PosixRoundTrip(p: Path)
    requires forall part :: part in p ==> IsPart(part)
    ensures PathParts(AsPosix(p)) == p
    ensures !IsAbsolute(AsPosix(p))
  {
    assert ['/'] == "/";
    Text.SplitOfJoin('/', p, Text.IsSlash);
    FilterAll(p, NotDot);
    if p != [] {
      assert IsPart(p[0]);
      assert p[0][0] in p[0];
    }
  }

  /** A name is read part by part: what stands between slashes, except single dots. */
  lemma PartsOfJoined(a: string, b: string)
    ensures PathParts(a + "/" + b) == PathParts(a) + PathParts(b)
  {
    assert "/" == ['/'];
    Text.SplitAcross(a, '/', b, Text.IsSlash);
    FilterAppend(Text.Split(a, Text.IsSlash), Text.Split(b, Text.IsSlash), NotDot);
  }

  lemma PartsOfOne(part: string)
    requires Text.IsToken(part, Text.IsSlash)
    ensures PathParts(part) == if part == "." then [] else [part]
    ensures PathParts("") == []
  {
    Text.SplitRun(part, "", Text.IsSlash);
    assert part + "" == part;
    var none: seq<string> := [];
    assert Text.Split("", Text.IsSlash) == none && [part] + none == [part];
    assert Text.Split(part, Text.IsSlash) == [part];
    FilterLast(none, part, NotDot);
    assert none + [part] == [part] && Filter(none, NotDot) == none;
  }
}
