/** World archives: folders written entry by entry, and extracted entry by entry. */
module Archive {
  import opened Wrappers
  import opened Files

  const SESSION_LOCK := Name("session.lock")

  const MAX_ENTRIES := 0x10_0000
  const MAX_ENTRY_SIZE := 0x10_0000_0000
  const MAX_TOTAL_SIZE := 0x100_0000_0000

  /** An entry of a zip: a name ending in a slash is a folder. */
  datatype Entry = FolderEntry(path: Path) | FileEntry(path: Path, data: seq<bv8>)

  // --- writing ---

  /** What of a tree is archived: its folders and its regular files but for the lock that the
      running server holds. */
  ghost predicate Archivable(t: Tree, p: Path) {
    p in t && (t[p].Dir? || (t[p].File? && p != [] && p[|p| - 1] != SESSION_LOCK))
  }

  ghost function Stored(t: Tree): Tree {
    map p | p in t && Archivable(t, p) :: t[p]
  }

  /** The entry a path of a tree has in the archive, under a prefix. */
  ghost predicate IsEntry(e: Entry, t: Tree, prefix: Path, p: Path) {
    && p in Stored(t) && e.path == prefix + p && prefix + p != []
    && e == if t[p].Dir? then FolderEntry(prefix + p) else FileEntry(prefix + p, t[p].data)
  }

  /** The entries of a tree: one for each of its archived paths and nothing else. */
  ghost predicate EntriesOf(entries: seq<Entry>, t: Tree, prefix: Path) {
    forall e :: e in entries <==> exists p :: IsEntry(e, t, prefix, p)
  }

  /** Of the paths walked so far. */
  ghost predicate EntriesSoFar(entries: seq<Entry>, t: Tree, prefix: Path, walked: seq<Path>) {
    forall e :: e in entries <==> exists p :: p in walked && IsEntry(e, t, prefix, p)
  }

  function Base(root: Path): Name
    requires root != []
  {
    root[|root| - 1]
  }

  /** writeTreeToZip, of a server that is not running. */
  method WriteTreeToZip(disk: Disk, root: Path, prefix: Path, entries0: seq<Entry>)
    returns (ok: bool, entries: seq<Entry>)
    requires disk.Valid() && root != []
    modifies disk`faults
    ensures disk.Valid() && disk.faults >= old(disk.faults)
    ensures ok ==> entries0 <= entries && EntriesOf(entries[|entries0|..], Sub(disk.at, root), prefix)
    ensures ok ==> IsFolder(disk.at, root) || Base(root) == SESSION_LOCK
    ensures !ok && disk.faults == old(disk.faults) ==> !IsFolder(disk.at, root)
  {
    entries := entries0;
    if root !in disk.at {
      NothingThere(disk.at, root);
      assert entries[|entries0|..] == [];
      return Base(root) == SESSION_LOCK, entries;
    }
    var order := disk.Walk(root);
    ghost var t := Sub(disk.at, root);
    ghost var more: seq<Entry> := [];
    for k := 0 to |order|
      invariant disk.Valid() && disk.faults >= old(disk.faults) && root in disk.at
      invariant entries == entries0 + more && EntriesSoFar(more, t, prefix, order[..k])
      invariant [] in order[..k] ==> disk.at[root] == Dir || Base(root) == SESSION_LOCK
    {
      var rel := order[k];
      assert rel in order && rel in t;
      var added;
      ok, added := EntryFor(disk, root, rel, prefix);
      if !ok { return false, entries; }
      OneMoreWalked(more, added, t, prefix, order, k);
      entries, more := entries + added, more + added;
    }
    assert order[..|order|] == order;
    AllWalked(more, t, prefix, order);
    assert entries[|entries0|..] == more;
    ok := true;
  }

  lemma OneMoreWalked(more: seq<Entry>, added: seq<Entry>, t: Tree, prefix: Path, order: seq<Path>, k: nat)
    requires k < |order| && EntriesSoFar(more, t, prefix, order[..k])
    requires forall e :: e in added <==> IsEntry(e, t, prefix, order[k])
    ensures EntriesSoFar(more + added, t, prefix, order[..k + 1])
  {
    assert order[..k + 1] == order[..k] + [order[k]];
    forall e ensures e in more + added <==> exists p :: p in order[..k + 1] && IsEntry(e, t, prefix, p) {
      if e in added { assert order[k] in order[..k + 1]; }
    }
  }

  lemma AllWalked(more: seq<Entry>, t: Tree, prefix: Path, order: seq<Path>)
    requires EntriesSoFar(more, t, prefix, order) && forall p :: p in order <==> p in t
    ensures EntriesOf(more, t, prefix)
  {
    forall e ensures e in more <==> exists p :: IsEntry(e, t, prefix, p) {}
  }

  /** What the walk does at one path. An entry that cannot be looked at ends the backup, unless
      it is the lock. A root that is no folder ends it too: a link to one is not followed. */
  method EntryFor(disk: Disk, root: Path, rel: Path, prefix: Path) returns (ok: bool, added: seq<Entry>)
    requires disk.Valid() && root != [] && root in disk.at && rel in Sub(disk.at, root)
    modifies disk`faults
    ensures disk.Valid() && disk.faults >= old(disk.faults)
    ensures ok ==> |added| <= 1 && forall e :: e in added <==> IsEntry(e, Sub(disk.at, root), prefix, rel)
    ensures ok && rel == [] ==> disk.at[root] == Dir || Base(root) == SESSION_LOCK
    ensures !ok && disk.faults == old(disk.faults) ==> disk.at[root] != Dir
  {
    SubIs(disk.at, root);
    assert root + [] == root;
    var path, content, name := root + rel, disk.at[root + rel], prefix + rel;
    var seen := disk.Lstat(path);
    if !seen { return content != Dir && Base(path) == SESSION_LOCK, []; }
    if content == Dir { return true, if name == [] then [] else [FolderEntry(name)]; }
    if Base(path) == SESSION_LOCK { return true, []; }
    if rel == [] { return false, []; }
    if content == Other { return true, []; }
    var data := disk.Read(path);
    if data.None? { return false, []; }
    return true, [FileEntry(name, data.value)];
  }

  /** zipRootsWithProgress: folders of `dir`, one after another, each under its own name. */
  method ZipRoots(disk: Disk, dir: Path, roots: seq<Name>) returns (ok: bool, entries: seq<Entry>)
    requires disk.Valid()
    modifies disk`faults
    ensures disk.Valid() && disk.faults >= old(disk.faults)
    ensures ok ==> EntriesOfRoots(entries, disk.at, dir, roots)
    ensures ok ==> AllFolders(disk.at, dir, roots)
    ensures !ok && disk.faults == old(disk.faults) ==> exists n :: n in roots && !IsFolder(disk.at, dir + [n])
  {
    entries := [];
    for i := 0 to |roots|
      invariant disk.Valid() && disk.faults >= old(disk.faults)
      invariant EntriesOfRoots(entries, disk.at, dir, roots[..i])
      invariant AllFolders(disk.at, dir, roots[..i])
    {
      ghost var before := entries;
      var root := dir + [roots[i]];
      assert roots[i] in roots && Base(root) == roots[i];
      ok, entries := WriteTreeToZip(disk, root, [Base(root)], entries);
      if !ok { return false, entries; }
      OneMoreRoot(before, entries, disk.at, dir, roots, i);
      assert roots[..i + 1] == roots[..i] + [roots[i]];
    }
    assert roots[..|roots|] == roots;
    ok := true;
  }

  /** Every root is a folder, but that one called like the lock may be a link. */
  ghost predicate AllFolders(at: Tree, dir: Path, roots: seq<Name>) {
    forall n | n in roots :: IsFolder(at, dir + [n]) || n == SESSION_LOCK
  }

  ghost predicate EntryOfRoot(e: Entry, at: Tree, dir: Path, name: Name) {
    exists p :: IsEntry(e, Sub(at, dir + [name]), [name], p)
  }

  ghost predicate EntriesOfRoots(entries: seq<Entry>, at: Tree, dir: Path, roots: seq<Name>) {
    forall e :: e in entries <==> exists n :: n in roots && EntryOfRoot(e, at, dir, n)
  }

  lemma OneMoreRoot(before: seq<Entry>, entries: seq<Entry>, at: Tree, dir: Path, roots: seq<Name>, i: nat)
    requires i < |roots| && EntriesOfRoots(before, at, dir, roots[..i]) && before <= entries
    requires EntriesOf(entries[|before|..], Sub(at, dir + [roots[i]]), [roots[i]])
    ensures EntriesOfRoots(entries, at, dir, roots[..i + 1])
  {
    var more := entries[|before|..];
    assert entries == before + more && roots[..i + 1] == roots[..i] + [roots[i]];
    forall e ensures e in entries <==> exists n :: n in roots[..i + 1] && EntryOfRoot(e, at, dir, n) {
      assert e in more <==> EntryOfRoot(e, at, dir, roots[i]);
      if e in more { assert roots[i] in roots[..i + 1]; }
    }
  }

  // --- the tree an archive lists ---

  function EntryAt(t: Tree, p: Path): Entry
    requires p in t && !t[p].Other?
  {
    if t[p].Dir? then FolderEntry(p) else FileEntry(p, t[p].data)
  }

  /** A tree that can be listed: a folder with nothing but folders and files in it. */
  ghost predicate Listable(c: Tree) {
    Rooted(c) && [] in c && c[[]] == Dir && forall p | p in c :: !c[p].Other?
  }

  ghost predicate Lists(entries: seq<Entry>, c: Tree)
    requires Listable(c)
  {
    forall e :: e in entries <==> exists p :: p in c && p != [] && e == EntryAt(c, p)
  }

  /** Some folders of `dir` side by side, each without what is not archived. */
  ghost function SideBySide(at: Tree, dir: Path, names: set<Name>): Tree {
    map q | q in (set n, p | n in names && p in Stored(Sub(at, dir + [n])) :: [n] + p) + {[]} ::
      if q == [] then Dir else Stored(Sub(at, dir + [q[0]]))[q[1..]]
  }

  lemma SideBySideAt(at: Tree, dir: Path, names: set<Name>, q: Path)
    ensures q in SideBySide(at, dir, names) <==> q == [] || (q[0] in names && q[1..] in Stored(Sub(at, dir + [q[0]])))
    ensures q in SideBySide(at, dir, names) ==>
              SideBySide(at, dir, names)[q] == if q == [] then Dir else Stored(Sub(at, dir + [q[0]]))[q[1..]]
  {
    if q != [] { assert q == [q[0]] + q[1..]; }
  }

  /** Archived side by side, every folder that is one gives a tree that can be listed. */
  lemma SideBySideIsListable(at: Tree, dir: Path, names: set<Name>)
    requires Rooted(at) && forall n | n in names :: IsFolder(at, dir + [n])
    ensures Listable(SideBySide(at, dir, names))
  {
    var c := SideBySide(at, dir, names);
    SideBySideAt(at, dir, names, []);
    forall p | p in c ensures !c[p].Other? {
      SideBySideAt(at, dir, names, p);
    }
    forall p | p in c && p != [] ensures Parent(p) in c && c[Parent(p)] == Dir {
      ParentSideBySide(at, dir, names, p);
    }
  }

  lemma ParentSideBySide(at: Tree, dir: Path, names: set<Name>, p: Path)
    requires Rooted(at) && p in SideBySide(at, dir, names) && p != []
    requires forall n | n in names :: IsFolder(at, dir + [n])
    ensures Parent(p) in SideBySide(at, dir, names) && SideBySide(at, dir, names)[Parent(p)] == Dir
  {
    SideBySideAt(at, dir, names, p);
    SideBySideAt(at, dir, names, Parent(p));
    if |p| > 1 {
      assert Parent(p)[0] == p[0] && Parent(p)[1..] == Parent(p[1..]);
      StoredParent(at, dir + [p[0]], p[1..]);
    } else {
      assert Parent(p) == [];
    }
  }

  /** What is archived of a tree lies in folders that are archived. */
  lemma StoredParent(at: Tree, root: Path, rel: Path)
    requires Rooted(at) && rel in Stored(Sub(at, root)) && rel != []
    ensures Parent(rel) in Stored(Sub(at, root)) && Stored(Sub(at, root))[Parent(rel)] == Dir
  {
    assert Parent(root + rel) == root + Parent(rel);
    SubAt(at, root, rel);
    SubAt(at, root, Parent(rel));
  }

  lemma RootsAreListed(entries: seq<Entry>, at: Tree, dir: Path, roots: seq<Name>, names: set<Name>)
    requires Rooted(at) && EntriesOfRoots(entries, at, dir, roots)
    requires forall n :: n in names <==> n in roots && IsFolder(at, dir + [n])
    ensures Listable(SideBySide(at, dir, names)) && Lists(entries, SideBySide(at, dir, names))
  {
    var c := SideBySide(at, dir, names);
    SideBySideIsListable(at, dir, names);
    forall e | e in entries ensures exists q :: q in c && q != [] && e == EntryAt(c, q) {
      var n :| n in roots && EntryOfRoot(e, at, dir, n);
      var p :| IsEntry(e, Sub(at, dir + [n]), [n], p);
      EntryIsListed(e, at, dir, names, n, p);
    }
    forall q | q in c && q != [] ensures EntryAt(c, q) in entries {
      ListedIsEntry(at, dir, names, q);
    }
  }

  lemma ListedIsEntry(at: Tree, dir: Path, names: set<Name>, q: Path)
    requires q in SideBySide(at, dir, names) && q != [] && !SideBySide(at, dir, names)[q].Other?
    ensures q[0] in names && EntryOfRoot(EntryAt(SideBySide(at, dir, names), q), at, dir, q[0])
  {
    var e := EntryAt(SideBySide(at, dir, names), q);
    SideBySideAt(at, dir, names, q);
    assert q == [q[0]] + q[1..];
    assert IsEntry(e, Sub(at, dir + [q[0]]), [q[0]], q[1..]);
  }

  lemma EntryIsListed(e: Entry, at: Tree, dir: Path, names: set<Name>, n: Name, p: Path)
    requires Rooted(at) && IsEntry(e, Sub(at, dir + [n]), [n], p)
    requires IsFolder(at, dir + [n]) ==> n in names
    ensures var c := SideBySide(at, dir, names); [n] + p in c && !c[[n] + p].Other? && e == EntryAt(c, [n] + p)
  {
    var root := dir + [n];
    SubIs(at, root);
    RootedAbove(at, root, root + p);
    assert p == [] ==> root + p == root;
    SideBySideAt(at, dir, names, [n] + p);
    assert ([n] + p)[1..] == p;
  }
}
