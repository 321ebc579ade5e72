/**
 The two directory walks: ScanDir, which skips excluded directories (internal/sync/client.go), and
 DirStore.Manifest, which looks into every directory (internal/sync/server.go).
 */
module Walk {
  import opened Listing
  import opened Sequences
  import opened FileIndex
  import opened SyncServer
  import Paths

  // A directory tree; the entries of a directory in the lexical order WalkDir visits them.
  datatype Node = File(content: Content) | Dir(entries: Forest)
  datatype Forest = Nil | Cons(name: string, node: Node, rest: Forest)

  // strings.TrimPrefix(p, root + "/")
  function Rel(root: string, p: string): string {
    if root + "/" <= p then p[|root| + 1..] else p
  }

  predicate IsTemp(p: string) {
    Paths.TEMP_PREFIX <= Paths.Base(p)
  }

  function Entry(rel: Path, content: Content): Item<Row> {
    Item(rel, Row(|content|, Sha(content), 0, false))
  }

  // ---------- ScanDir ----------

  function ScanNode(root: string, p: string, node: Node): seq<Item<Row>>
    decreases node
  {
    var rel := Rel(root, p);
    match node
    case File(content) => if Paths.DefaultExcluded(rel) || IsTemp(p) then [] else [Entry(rel, content)]
    case Dir(entries) =>
      if rel != "" && Paths.DefaultExcluded(rel + "/") then [] else ScanEntries(root, p, entries)
  }

  function ScanEntries(root: string, dir: string, entries: Forest): seq<Item<Row>>
    decreases entries
  {
    match entries
    case Nil => []
    case Cons(name, node, rest) => ScanNode(root, dir + "/" + name, node) + ScanEntries(root, dir, rest)
  }

  function ScanDir(root: string, entries: Forest): seq<Item<Row>> {
    ScanNode(root, root, Dir(entries))
  }

  // ---------- DirStore.Manifest ----------

  function ListNode(root: string, p: string, node: Node): seq<Item<Row>>
    decreases node
  {
    var rel := Rel(root, p);
    match node
    case File(content) => if IsTemp(p) || Paths.DefaultExcluded(rel) then [] else [Entry(rel, content)]
    case Dir(entries) => ListEntries(root, p, entries)
  }

  function ListEntries(root: string, dir: string, entries: Forest): seq<Item<Row>>
    decreases entries
  {
    match entries
    case Nil => []
    case Cons(name, node, rest) => ListNode(root, dir + "/" + name, node) + ListEntries(root, dir, rest)
  }

  function DirManifest(root: string, entries: Forest): seq<Item<Row>> {
    ListNode(root, root, Dir(entries))
  }

  /** The walks as the program runs them: a callback that appends to `out`. */
  class Walker {
    const root: string
    var out: seq<Item<Row>>

    constructor (root: string)
      ensures this.root == root && out == []
    {
      this.root, out := root, [];
    }

    method Scan(p: string, node: Node)
      modifies this
      ensures out == old(out) + ScanNode(root, p, node)
      decreases node
    {
      var rel := Rel(root, p);
      match node {
        case File(content) =>
          if Paths.DefaultExcluded(rel) || IsTemp(p) {
            return;
          }
          out := out + [Entry(rel, content)];
        case Dir(entries) =>
          if rel != "" && Paths.DefaultExcluded(rel + "/") {
            return;
          }
          ScanChildren(p, entries);
      }
    }

    method ScanChildren(dir: string, entries: Forest)
      modifies this
      ensures out == old(out) + ScanEntries(root, dir, entries)
      decreases entries
    {
      match entries {
        case Nil =>
        case Cons(name, node, rest) =>
          Scan(dir + "/" + name, node);
          ScanChildren(dir, rest);
      }
    }

    method List(p: string, node: Node)
      modifies this
      ensures out == old(out) + ListNode(root, p, node)
      decreases node
    {
      match node {
        case File(content) =>
          var rel := Rel(root, p);
          if IsTemp(p) || Paths.DefaultExcluded(rel) {
            return;
          }
          out := out + [Entry(rel, content)];
        case Dir(entries) =>
          ListChildren(p, entries);
      }
    }

    method ListChildren(dir: string, entries: Forest)
      modifies this
      ensures out == old(out) + ListEntries(root, dir, entries)
      decreases entries
    {
      match entries {
        case Nil =>
        case Cons(name, node, rest) =>
          List(dir + "/" + name, node);
          ListChildren(dir, rest);
      }
    }
  }

  // ---------- The walks agree ----------

  // A root in the form WalkDir's filepath.Join keeps: cleaned, and not the root of the file system.
  predicate IsRoot(root: string) {
    Paths.Clean(root) == root && root != "/"
  }

  lemma RelBelow(root: string, x: string)
    ensures Rel(root, root + "/" + x) == x
  {
  }

  // Nothing below an excluded directory is listed.
  lemma {:induction false} NothingBelowExcluded(root: string, x: string, entries: Forest)
    requires Paths.DefaultExcluded(x + "/")
    ensures ListEntries(root, root + "/" + x, entries) == []
    decreases entries
  {
    match entries
    case Nil =>
    case Cons(name, node, rest) =>
      var y := x + "/" + name;
      Deeper(root, x, name);
      RelBelow(root, y);
      if node.Dir? {
        NothingBelowExcluded(root, y, node.entries);
      }
      NothingBelowExcluded(root, x, rest);
  }

  lemma Deeper(root: string, x: string, name: string)
    requires Paths.DefaultExcluded(x + "/")
    ensures root + "/" + x + "/" + name == root + "/" + (x + "/" + name)
    ensures Paths.DefaultExcluded(x + "/" + name) && Paths.DefaultExcluded(x + "/" + name + "/")
  {
    Paths.ExclusionIsDownwardClosed(x, name);
    Paths.ExclusionIsDownwardClosed(x, name + "/");
    BelowRoot(root, x, name);
  }

  lemma BelowRoot(root: string, x: string, name: string)
    ensures root + "/" + x + "/" + name == root + "/" + (x + "/" + name)
    ensures x + "/" + (name + "/") == x + "/" + name + "/"
  {
    Associative(x + "/", name, "/");
  }

  lemma {:induction false} BelowAgree(root: string, x: string, node: Node)
    ensures ScanNode(root, root + "/" + x, node) == ListNode(root, root + "/" + x, node)
    decreases node
  {
    RelBelow(root, x);
    match node
    case File(_) =>
    case Dir(entries) =>
      if Paths.DefaultExcluded(x + "/") {
        NothingBelowExcluded(root, x, entries);
      }
      EntriesAgree(root, root + "/" + x, x + "/", entries);
  }

  // `prefix` is the part of dir + "/" below the root.
  lemma {:induction false} EntriesAgree(root: string, dir: string, prefix: string, entries: Forest)
    requires dir + "/" == root + "/" + prefix
    ensures ScanEntries(root, dir, entries) == ListEntries(root, dir, entries)
    decreases entries
  {
    match entries
    case Nil =>
    case Cons(name, node, rest) =>
      assert dir + "/" + name == root + "/" + (prefix + name);
      BelowAgree(root, prefix + name, node);
      EntriesAgree(root, dir, prefix, rest);
  }

  // ---------- The flat view ----------

  // Every file with its path below the root, in walk order.
  function Files(x: string, node: Node): seq<Item<Content>>
    decreases node
  {
    match node
    case File(content) => [Item(x, content)]
    case Dir(entries) => FilesIn(x + "/", entries)
  }

  function FilesIn(prefix: string, entries: Forest): seq<Item<Content>>
    decreases entries
  {
    match entries
    case Nil => []
    case Cons(name, node, rest) => Files(prefix + name, node) + FilesIn(prefix, rest)
  }

  // The tree as the flat file map the server model uses.
  function Flat(entries: Forest): map<Path, Content> {
    ToMap(FilesIn("", entries))
  }

  function Listed(files: seq<Item<Content>>): seq<Item<Row>> {
    if files == [] then []
    else ListedOne(files[0]) + Listed(files[1..])
  }

  function ListedOne(f: Item<Content>): seq<Item<Row>> {
    if Paths.Scannable(f.path) then [Entry(f.path, f.val)] else []
  }

  // Names without slashes, none twice in a directory.
  predicate WellNamed(node: Node) {
    node.Dir? ==> WellNamedEntries(node.entries)
  }

  predicate WellNamedEntries(entries: Forest) {
    match entries
    case Nil => true
    case Cons(name, node, rest) =>
      '/' !in name && WellNamed(node) && WellNamedEntries(rest) && !HasName(rest, name)
  }

  predicate HasName(entries: Forest, name: string) {
    entries.Cons? && (entries.name == name || HasName(entries.rest, name))
  }

  lemma {:induction false} ListedConcat(a: seq<Item<Content>>, b: seq<Item<Content>>)
    ensures Listed(a + b) == Listed(a) + Listed(b)
  {
    if a == [] {
      EmptyIsUnit(b);
      EmptyIsUnit(Listed(b));
    } else {
      CutFirst(a, b, 1);
      ListedConcat(a[1..], b);
      Associative(ListedOne(a[0]), Listed(a[1..]), Listed(b));
    }
  }

  lemma BaseBelow(root: string, x: string)
    ensures Paths.Base(root + "/" + x) == Paths.Base(x)
  {
    Paths.SplitConcat(root, x);
  }

  // The full walk is the list of all files, filtered by Scannable.
  lemma {:induction false} ListIsFiltered(root: string, x: string, node: Node)
    ensures ListNode(root, root + "/" + x, node) == Listed(Files(x, node))
    decreases node
  {
    RelBelow(root, x);
    BaseBelow(root, x);
    match node
    case File(content) => assert Listed([]) == [] && Files(x, node)[1..] == [];
    case Dir(entries) => ListEntriesIsFiltered(root, root + "/" + x, x + "/", entries);
  }

  lemma {:induction false} ListEntriesIsFiltered(root: string, dir: string, prefix: string, entries: Forest)
    requires dir + "/" == root + "/" + prefix
    ensures ListEntries(root, dir, entries) == Listed(FilesIn(prefix, entries))
    decreases entries
  {
    match entries
    case Nil =>
    case Cons(name, node, rest) =>
      assert dir + "/" + name == root + "/" + (prefix + name);
      ListIsFiltered(root, prefix + name, node);
      ListEntriesIsFiltered(root, dir, prefix, rest);
      ListedConcat(Files(prefix + name, node), FilesIn(prefix, rest));
  }

  lemma {:induction false} NothingListed(files: seq<Item<Content>>)
    ensures Listed(files) == [] <==> forall f | f in files :: !Paths.Scannable(f.path)
  {
    if files != [] {
      NothingListed(files[1..]);
      assert forall f :: f in files <==> f == files[0] || f in files[1..];
    }
  }

  lemma EntriesBelow(root: string, entries: Forest)
    ensures Rel(root, root) == root
    ensures ScanEntries(root, root, entries) == ListEntries(root, root, entries) == Listed(FilesIn("", entries))
  {
    assert root + "/" == root + "/" + "";
    EntriesAgree(root, root, "", entries);
    ListEntriesIsFiltered(root, root, "", entries);
  }

  // The full walk lists the files to be listed, the pruned one the same or nothing.
  lemma WalksOf(root: string, entries: Forest)
    ensures DirManifest(root, entries) == Listed(FilesIn("", entries))
    ensures ScanDir(root, entries) == if Paths.DefaultExcluded(root + "/") && root != "" then [] else Listed(FilesIn("", entries))
  {
    EntriesBelow(root, entries);
  }

  // The pruned walk lists the same files in the same order as the full walk exactly if the root's own name
  // is not excluded (it then lists nothing) or no file below it is to be listed. An absolute root never is.
  lemma WalksAgree(root: string, entries: Forest)
    requires IsRoot(root)
    ensures ScanDir(root, entries) == DirManifest(root, entries) <==>
            (!Paths.DefaultExcluded(root + "/") || forall f | f in FilesIn("", entries) :: !Paths.Scannable(f.path))
    ensures "/" <= root ==> ScanDir(root, entries) == DirManifest(root, entries)
  {
    RootIsNamed(root);
    NamedWalksAgree(root, entries);
    AbsoluteWalksAgree(root, entries);
  }

  lemma RootIsNamed(root: string)
    requires IsRoot(root)
    ensures root != ""
  {
    assert Paths.Resolve(false, [""], []) == Paths.Resolve(false, [""][1..], []) == [];
    assert Paths.Clean("") == ".";
  }

  lemma NamedWalksAgree(root: string, entries: Forest)
    requires root != ""
    ensures ScanDir(root, entries) == DirManifest(root, entries) <==>
            (!Paths.DefaultExcluded(root + "/") || forall f | f in FilesIn("", entries) :: !Paths.Scannable(f.path))
  {
    WalksOf(root, entries);
    NothingListed(FilesIn("", entries));
  }

  lemma AbsoluteWalksAgree(root: string, entries: Forest)
    ensures "/" <= root ==> ScanDir(root, entries) == DirManifest(root, entries)
  {
    WalksOf(root, entries);
    if "/" <= root {
      Paths.AbsoluteIsNotExcluded(root + "/");
    }
  }

  // q is x or lies below it.
  predicate Under(x: string, q: Path) {
    q == x || x + "/" <= q
  }

  lemma {:induction false} FilesAreUnder(x: string, node: Node)
    ensures forall f | f in Files(x, node) :: Under(x, f.path)
    decreases node
  {
    if node.Dir? {
      FilesInAreUnder(x + "/", node.entries);
    }
  }

  lemma {:induction false} FilesInAreUnder(prefix: string, entries: Forest)
    ensures forall f | f in FilesIn(prefix, entries) ::
              prefix <= f.path && exists name :: HasName(entries, name) && Under(prefix + name, f.path)
    decreases entries
  {
    match entries
    case Nil =>
    case Cons(name, node, rest) =>
      FilesAreUnder(prefix + name, node);
      FilesInAreUnder(prefix, rest);
      forall f | f in FilesIn(prefix, entries)
        ensures prefix <= f.path && exists n :: HasName(entries, n) && Under(prefix + n, f.path)
      {
        if f in Files(prefix + name, node) {
          assert HasName(entries, name) && Under(prefix + name, f.path);
        } else {
          var n :| HasName(rest, n) && Under(prefix + n, f.path);
          assert HasName(entries, n);
        }
      }
  }

  lemma SiblingsApart(prefix: string, a: string, b: string, q: Path)
    requires '/' !in a && '/' !in b && Under(prefix + a, q) && Under(prefix + b, q)
    ensures a == b
  {
    OneOf(prefix, a, q);
    OneOf(prefix, b, q);
  }

  lemma OneOf(prefix: string, a: string, q: Path)
    requires Under(prefix + a, q)
    ensures |q| >= |prefix| && var tail := q[|prefix|..];
            a <= tail && (tail == a || (|a| < |tail| && tail[|a|] == '/'))
  {
    assert q[..|prefix + a|] == prefix + a;
    if q != prefix + a {
      assert (prefix + a + "/")[|prefix + a|] == '/';
    }
  }

  lemma {:induction false} NamesHaveNoSlash(entries: Forest, name: string)
    requires WellNamedEntries(entries) && HasName(entries, name)
    ensures '/' !in name
  {
    if entries.name != name {
      NamesHaveNoSlash(entries.rest, name);
    }
  }

  lemma {:induction false} FilesDistinct(x: string, node: Node)
    requires WellNamed(node)
    ensures Distinct(Files(x, node))
    decreases node
  {
    if node.Dir? {
      FilesInDistinct(x + "/", node.entries);
    }
  }

  lemma {:induction false} FilesInDistinct(prefix: string, entries: Forest)
    requires WellNamedEntries(entries)
    ensures Distinct(FilesIn(prefix, entries))
    decreases entries
  {
    match entries
    case Nil =>
    case Cons(name, node, rest) =>
      var here, there := Files(prefix + name, node), FilesIn(prefix, rest);
      FilesDistinct(prefix + name, node);
      FilesInDistinct(prefix, rest);
      FilesAreUnder(prefix + name, node);
      FilesInAreUnder(prefix, rest);
      forall f, g | f in here && g in there ensures f.path != g.path {
        var n :| HasName(rest, n) && Under(prefix + n, g.path);
        NamesHaveNoSlash(rest, n);
        if f.path == g.path {
          SiblingsApart(prefix, name, n, f.path);
        }
      }
      JoinPaths(here, there);
  }

  lemma {:induction false} ListedPaths(files: seq<Item<Content>>)
    requires Distinct(files)
    ensures Distinct(Listed(files))
    ensures forall e | e in Listed(files) :: exists f :: f in files && Paths.Scannable(f.path) && e == Entry(f.path, f.val)
    ensures forall f | f in files && Paths.Scannable(f.path) :: Entry(f.path, f.val) in Listed(files)
  {
    if files != [] {
      var rest := files[1..];
      ListedPaths(rest);
      assert forall f :: f in files <==> f == files[0] || f in rest;
      forall e | e in Listed(rest) ensures e.path != files[0].path {
        var f :| f in rest && e == Entry(f.path, f.val);
        var i :| 0 <= i < |rest| && rest[i] == f;
        assert files[i + 1] == f;
      }
    }
  }

  // A scan of the tree lists exactly what the flat server model says a scan lists, each file once.
  lemma ScanDirIsFlat(root: string, entries: Forest)
    requires IsRoot(root) && !Paths.DefaultExcluded(root + "/") && WellNamedEntries(entries)
    ensures Lists(ScanDir(root, entries), ScanRows(Flat(entries)))
  {
    EntriesBelow(root, entries);
    FilesInDistinct("", entries);
    ListedIsScan(FilesIn("", entries));
  }

  lemma ListedIsScan(files: seq<Item<Content>>)
    requires Distinct(files)
    ensures Lists(Listed(files), ScanRows(ToMap(files)))
  {
    ListedPaths(files);
    ListsBoth(files, Listed(files), ScanRows(ToMap(files)));
  }

  lemma ListsBoth(files: seq<Item<Content>>, out: seq<Item<Row>>, rows: map<Path, Row>)
    requires Distinct(files) && Distinct(out) && out == Listed(files) && rows == ScanRows(ToMap(files))
    ensures Lists(out, rows)
  {
    forall i | 0 <= i < |out| ensures out[i].path in rows && out[i].val == rows[out[i].path] {
      ListedAreScanned(files, out[i]);
    }
    forall p | p in rows ensures p in PathsOf(out) {
      ScannedAreListed(files, p);
    }
    ListsFrom(out, rows);
  }

  lemma ListedAreScanned(files: seq<Item<Content>>, e: Item<Row>)
    requires Distinct(files) && e in Listed(files)
    ensures e.path in ScanRows(ToMap(files)) && e.val == ScanRows(ToMap(files))[e.path]
  {
    ListedPaths(files);
    var f :| f in files && Paths.Scannable(f.path) && e == Entry(f.path, f.val);
    var j :| 0 <= j < |files| && files[j] == f;
    ToMapAt(files, j);
  }

  lemma ScannedAreListed(files: seq<Item<Content>>, p: Path)
    requires Distinct(files) && p in ScanRows(ToMap(files))
    ensures p in PathsOf(Listed(files))
  {
    ListedPaths(files);
    DistinctMeaning(files);
    var i :| 0 <= i < |files| && files[i] == Item(p, ToMap(files)[p]);
    var e := Entry(p, files[i].val);
    assert e in Listed(files);
    var j :| 0 <= j < |Listed(files)| && Listed(files)[j] == e;
    assert Listed(files)[j].path == p;
  }
}
