/** Extracting an archive: what of it is refused, and what tree it leaves. */
module Unzip {
  import opened Wrappers
  import opened Files
  import opened Archive

  datatype Extraction = Extracted | TooBig | IllegalPath(entry: Entry) | ExtractFailed

  /** filepath.Clean of a path from the root. */
  function Clean(p: Path): Path {
    if p == [] then []
    else
      var above, n := Clean(p[..|p| - 1]), p[|p| - 1];
      if n == Name("") || n == Name(".") then above
      else if n == Name("..") then (if above == [] then [] else above[..|above| - 1])
      else above + [n]
  }

  predicate PlainName(n: Name) {
    n != Name("") && n != Name(".") && n != Name("..")
  }

  ghost predicate PlainPath(p: Path) {
    forall n | n in p :: PlainName(n)
  }

  function Target(dest: Path, e: Entry): Path {
    Clean(dest + e.path)
  }

  /** An entry that stays in the folder it is extracted to. */
  predicate StaysIn(dest: Path, e: Entry) {
    dest <= Target(dest, e)
  }

  /** The folder an entry is put in, or itself when it is one. */
  function FolderOf(target: Path, e: Entry): Path {
    if e.FolderEntry? || target == [] then target else Parent(target)
  }

  /** One entry put in place. */
  ghost function Put(t: Tree, dest: Path, e: Entry): Tree {
    var target := Target(dest, e);
    var made := WithFolders(t, FolderOf(target, e));
    if e.FolderEntry? then made else made[target := File(e.data)]
  }

  ghost predicate CanPut(t: Tree, dest: Path, e: Entry) {
    var target := Target(dest, e);
    && FoldersTo(t, FolderOf(target, e))
    && (e.FileEntry? ==> Writable(WithFolders(t, FolderOf(target, e)), target))
  }

  /** The entries put in place one after another. */
  ghost function Unpacked(t: Tree, dest: Path, entries: seq<Entry>): Tree {
    if entries == [] then t
    else Put(Unpacked(t, dest, entries[..|entries| - 1]), dest, entries[|entries| - 1])
  }

  // --- limits ---

  ghost function Total(entries: seq<Entry>): nat {
    if entries == [] then 0
    else
      var e := entries[|entries| - 1];
      Total(entries[..|entries| - 1]) + if e.FileEntry? then |e.data| else 0
  }

  ghost predicate WithinLimits(entries: seq<Entry>) {
    && |entries| <= MAX_ENTRIES && Total(entries) <= MAX_TOTAL_SIZE
    && forall e | e in entries && e.FileEntry? :: |e.data| <= MAX_ENTRY_SIZE
  }

  lemma {:induction false} TotalGrows(entries: seq<Entry>, k: nat)
    requires k <= |entries|
    ensures Total(entries[..k]) <= Total(entries)
  {
    if k < |entries| {
      TotalGrows(entries[..|entries| - 1], k);
      assert entries[..|entries| - 1][..k] == entries[..k];
    } else {
      assert entries[..k] == entries;
    }
  }

  /** zipDeclaredTotal: the running sum is compared at every file, so the archive is refused
      exactly when it is too long, holds too large a file, or is too large in all. */
  method DeclaredTotal(entries: seq<Entry>) returns (total: Option<nat>)
    ensures total.Some? <==> WithinLimits(entries)
    ensures total.Some? <==> // 2^20 entries, 64 GiB in one and 1 TiB in all
              && |entries| <= 1048576 && Total(entries) <= 1099511627776
              && forall e | e in entries && e.FileEntry? :: |e.data| <= 68719476736
    ensures total.Some? ==> total.value == Total(entries)
  {
    if |entries| > MAX_ENTRIES { return None; }
    var sum := 0;
    for k := 0 to |entries|
      invariant sum == Total(entries[..k]) <= MAX_TOTAL_SIZE
      invariant forall i | 0 <= i < k && entries[i].FileEntry? :: |entries[i].data| <= MAX_ENTRY_SIZE
    {
      var e := entries[k];
      assert entries[..k + 1][..k] == entries[..k];
      if e.FolderEntry? { continue; }
      if |e.data| > MAX_ENTRY_SIZE {
        assert e in entries;
        return None;
      }
      sum := sum + |e.data|;
      TotalGrows(entries, k + 1);
      if sum > MAX_TOTAL_SIZE { return None; }
    }
    assert entries[..|entries|] == entries;
    total := Some(sum);
  }

  // --- extracting ---

  lemma FoldersBelow(t: Tree, dest: Path, p: Path)
    requires Rooted(t) && dest in t && (dest <= p || p <= dest)
    ensures forall q | q <= p && q !in t :: dest <= q
  {
    forall q | q <= p && q !in t ensures dest <= q {
      if |q| <= |dest| {
        assert q <= dest by {
          assert q == p[..|q|];
          assert dest <= p ==> dest[..|q|] == p[..|q|];
        }
        RootedAbove(t, q, dest);
      } else {
        assert dest == q[..|dest|];
      }
    }
  }

  lemma FoldersOnlyBelow(t: Tree, left: Tree, dest: Path, p: Path)
    requires Rooted(t) && IsFolder(t, dest) && (dest <= p || p <= dest)
    requires MadeSome(t, left, p) || Alike(left, WithFolders(t, p))
    ensures OnlyAt(t, left, {dest}) && IsFolder(left, dest)
  {
    FoldersBelow(t, dest, p);
    forall q | !Within({dest}, q) ensures SameAt(t, left, q) {
      assert dest in {dest};
      FoldersAt(t, p, q);
    }
    FoldersAt(t, p, dest);
  }

  lemma WrittenOnlyBelow(t: Tree, left: Tree, dest: Path, p: Path, data: seq<bv8>)
    requires dest <= p && (OnlyThere(t, left, p) || Alike(left, t[p := File(data)]))
    ensures OnlyAt(t, left, {dest}) && (IsFolder(t, dest) && dest != p ==> IsFolder(left, dest))
  {
    forall q | !Within({dest}, q) ensures SameAt(t, left, q) {
      assert dest in {dest};
    }
  }

  /** Every state since `n` differs from `was` in the staging folder only. */
  ghost predicate OnlySince(trace: seq<Tree>, n: nat, was: Tree, dest: Path) {
    forall k | n <= k < |trace| :: OnlyAt(was, trace[k], {dest})
  }

  lemma OnlyNext(trace: seq<Tree>, n: nat, was: Tree, now: Tree, dest: Path)
    requires OnlySince(trace, n, was, dest) && OnlyAt(was, now, {dest})
    ensures OnlySince(trace + [now], n, was, dest)
  {}

  lemma OnlyWhileMaking(trace0: seq<Tree>, trace: seq<Tree>, n: nat, was: Tree, at0: Tree, dest: Path, p: Path)
    requires OnlySince(trace0, n, was, dest) && OnlyAt(was, at0, {dest}) && trace0 <= trace
    requires Rooted(at0) && IsFolder(at0, dest) && (dest <= p || p <= dest)
    requires forall i | |trace0| <= i < |trace| :: MadeSome(at0, trace[i], p)
    ensures OnlySince(trace, n, was, dest)
  {
    forall k | n <= k < |trace| ensures OnlyAt(was, trace[k], {dest}) {
      if k < |trace0| {
        assert trace[k] == trace0[k];
      } else {
        FoldersOnlyBelow(at0, trace[k], dest, p);
        OnlyAtTwice(was, at0, trace[k], {dest});
      }
    }
  }

  /** One entry of the archive: refused when its path leads out of the staging folder. */
  method ExtractOne(disk: Disk, dest: Path, e: Entry, ghost was: Tree, ghost n: nat) returns (r: Extraction)
    requires disk.Valid() && IsFolder(disk.at, dest)
    requires OnlySince(disk.trace, n, was, dest) && OnlyAt(was, disk.at, {dest})
    modifies disk`at, disk`trace, disk`faults
    ensures disk.Valid() && old(disk.trace) <= disk.trace && disk.faults >= old(disk.faults) && !r.TooBig?
    ensures OnlySince(disk.trace, n, was, dest) && OnlyAt(was, disk.at, {dest})
    ensures r.IllegalPath? <==> !StaysIn(dest, e)
    ensures r.IllegalPath? ==> r.entry == e
    ensures r.Extracted? ==>
              IsFolder(disk.at, dest) && CanPut(old(disk.at), dest, e) && Alike(disk.at, Put(old(disk.at), dest, e))
    ensures r.ExtractFailed? && disk.faults == old(disk.faults) ==> !CanPut(old(disk.at), dest, e)
  {
    var target := Target(dest, e);
    if !StaysIn(dest, e) { return IllegalPath(e); }
    var folder := FolderOf(target, e);
    ghost var at0 := disk.at;
    var made := disk.MkdirAll(folder);
    ghost var at1, trace1 := disk.at, disk.trace;
    FoldersOnlyBelow(at0, at1, dest, folder);
    OnlyAtTwice(was, at0, at1, {dest});
    OnlyWhileMaking(old(disk.trace), trace1, n, was, at0, dest, folder);
    if !made { return ExtractFailed; }
    if e.FolderEntry? { return Extracted; }
    var written := disk.WriteFile(target, e.data);
    WrittenOnlyBelow(at1, disk.at, dest, target, e.data);
    OnlyAtTwice(was, at1, disk.at, {dest});
    OnlyNext(trace1, n, was, disk.at, dest);
    r := if written then Extracted else ExtractFailed;
  }

  /** The first `k` entries are extracted, and all stay in the folder. */
  ghost predicate ExtractedSoFar(was: Tree, now: Tree, dest: Path, entries: seq<Entry>, k: nat)
    requires k <= |entries|
  {
    Alike(now, Unpacked(was, dest, entries[..k])) && forall e | e in entries[..k] :: StaysIn(dest, e)
  }

  lemma NextExtracted(was: Tree, at0: Tree, at: Tree, dest: Path, entries: seq<Entry>, k: nat)
    requires k < |entries| && ExtractedSoFar(was, at0, dest, entries, k)
    requires Alike(at, Put(at0, dest, entries[k])) && StaysIn(dest, entries[k])
    ensures ExtractedSoFar(was, at, dest, entries, k + 1)
  {
    assert entries[..k + 1] == entries[..k] + [entries[k]];
    assert entries[..k + 1][..k] == entries[..k];
  }

  lemma Unmoved(a: Tree, b: Tree, dest: Path, e: Entry)
    requires Alike(a, b)
    ensures CanPut(a, dest, e) <==> CanPut(b, dest, e)
  {}

  /** unzipTo. Whatever the archive holds, nothing outside the staging folder is touched. */
  method UnzipTo(disk: Disk, entries: seq<Entry>, dest: Path) returns (r: Extraction)
    requires disk.Valid() && IsFolder(disk.at, dest)
    modifies disk`at, disk`trace, disk`faults
    ensures disk.Valid() && old(disk.trace) <= disk.trace && disk.faults >= old(disk.faults)
    ensures OnlySince(disk.trace, |old(disk.trace)|, old(disk.at), dest) && OnlyAt(old(disk.at), disk.at, {dest})
    ensures r.TooBig? <==> !WithinLimits(entries)
    ensures r.TooBig? ==> disk.trace == old(disk.trace)
    ensures r.IllegalPath? ==> r.entry in entries && !StaysIn(dest, r.entry)
    ensures r.Extracted? ==> IsFolder(disk.at, dest) && Alike(disk.at, Unpacked(old(disk.at), dest, entries))
    ensures r.Extracted? ==> forall e | e in entries :: StaysIn(dest, e)
    ensures r.ExtractFailed? && disk.faults == old(disk.faults) ==>
              exists k :: 0 <= k < |entries| && !CanPut(Unpacked(old(disk.at), dest, entries[..k]), dest, entries[k])
  {
    var total := DeclaredTotal(entries);
    if total.None? { return TooBig; }
    ghost var was, n := disk.at, |disk.trace|;
    for k := 0 to |entries|
      invariant disk.Valid() && old(disk.trace) <= disk.trace && disk.faults >= old(disk.faults) &&
                IsFolder(disk.at, dest)
      invariant OnlySince(disk.trace, n, was, dest) && OnlyAt(was, disk.at, {dest})
      invariant ExtractedSoFar(was, disk.at, dest, entries, k)
    {
      ghost var at0, trace0 := disk.at, disk.trace;
      r := ExtractOne(disk, dest, entries[k], was, n);
      Further(old(disk.trace), trace0, disk.trace);
      Unmoved(at0, Unpacked(was, dest, entries[..k]), dest, entries[k]);
      if !r.Extracted? { return r; }
      NextExtracted(was, at0, disk.at, dest, entries, k);
    }
    assert entries[..|entries|] == entries;
    r := Extracted;
  }

  // --- what extracting a listing gives ---

  lemma {:induction false} CleanPlain(p: Path)
    requires PlainPath(p)
    ensures Clean(p) == p
  {
    if p != [] {
      assert p[|p| - 1] in p;
      CleanPlain(p[..|p| - 1]);
    }
  }

  ghost predicate PlainTree(c: Tree) {
    forall p | p in c :: PlainPath(p)
  }

  lemma TargetOfListed(dest: Path, e: Entry)
    requires PlainPath(dest) && PlainPath(e.path)
    ensures Target(dest, e) == dest + e.path
  {
    CleanPlain(dest + e.path);
  }

  /** A listing partly extracted: what is there is as listed, and the first entries are there. */
  ghost predicate PartOfListing(t: Tree, dest: Path, c: Tree, entries: seq<Entry>) {
    && (forall q | q <= dest :: IsFolder(t, q))
    && (forall r | dest + r in t :: r in c && t[dest + r] == c[r])
    && (forall e | e in entries :: dest + e.path in t)
  }

  lemma FolderOnTheWay(t: Tree, dest: Path, c: Tree, entries: seq<Entry>, p: Path, k: nat)
    requires Listable(c) && PartOfListing(t, dest, c, entries) && IsFolder(c, p)
    requires k <= |dest + p| && (dest + p)[..k] in t
    ensures t[(dest + p)[..k]] == Dir
  {
    var q := (dest + p)[..k];
    if k <= |dest| {
      assert q == dest[..k];
      assert q <= dest && IsFolder(t, q);
    } else {
      var r := p[..k - |dest|];
      assert q == dest + r;
      RootedAbove(c, r, p);
    }
  }

  lemma ListedFolders(t: Tree, dest: Path, c: Tree, entries: seq<Entry>, p: Path)
    requires Listable(c) && PartOfListing(t, dest, c, entries) && IsFolder(c, p)
    ensures FoldersTo(t, dest + p) && PartOfListing(WithFolders(t, dest + p), dest, c, entries)
    ensures IsFolder(WithFolders(t, dest + p), dest + p)
  {
    var made := WithFolders(t, dest + p);
    forall k | 0 <= k <= |dest + p| && (dest + p)[..k] in t ensures t[(dest + p)[..k]] == Dir {
      FolderOnTheWay(t, dest, c, entries, p, k);
    }
    forall q | q <= dest ensures IsFolder(made, q) {
      assert IsFolder(t, q);
      FoldersAt(t, dest + p, q);
    }
    forall r | dest + r in made ensures r in c && made[dest + r] == c[r] {
      FoldersAt(t, dest + p, dest + r);
      if dest + r !in t {
        assert r == (dest + p)[|dest|..|dest + r|] == p[..|r|];
        RootedAbove(c, r, p);
      }
    }
    forall e | e in entries ensures dest + e.path in made {
      FoldersAt(t, dest + p, dest + e.path);
    }
    FoldersAt(t, dest + p, dest + p);
  }

  lemma PutListed(t: Tree, dest: Path, c: Tree, entries: seq<Entry>, e: Entry)
    requires Listable(c) && PartOfListing(t, dest, c, entries) && PlainPath(dest) && PlainTree(c)
    requires e.path in c && e.path != [] && e == EntryAt(c, e.path)
    ensures StaysIn(dest, e) && CanPut(t, dest, e) && PartOfListing(Put(t, dest, e), dest, c, entries + [e])
  {
    var p := e.path;
    TargetOfListed(dest, e);
    if e.FolderEntry? {
      ListedFolders(t, dest, c, entries, p);
    } else {
      assert Parent(dest + p) == dest + Parent(p);
      ListedFolders(t, dest, c, entries, Parent(p));
      var made := WithFolders(t, dest + Parent(p));
      assert dest + p in made ==> made[dest + p] == c[p];
      assert HasParent(made, dest + p);
      forall r | dest + r in made[dest + p := File(e.data)]
        ensures r in c && made[dest + p := File(e.data)][dest + r] == c[r]
      {
        if dest + r == dest + p {
          assert r == (dest + r)[|dest|..] == p;
        } else {
          assert dest + r in made;
        }
      }
      var written := made[dest + p := File(e.data)];
      forall q | q <= dest ensures IsFolder(written, q) {
        assert IsFolder(made, q);
        assert |q| < |dest + p|;
      }
    }
  }

  lemma NothingUnpacked(t: Tree, dest: Path, c: Tree)
    requires Rooted(t) && IsFolder(t, dest) && Empty(t, dest) && Listable(c)
    ensures PartOfListing(t, dest, c, [])
  {
    forall q | q <= dest ensures IsFolder(t, q) {
      RootedAbove(t, q, dest);
    }
    forall r | dest + r in t ensures r == [] {
      assert dest <= dest + r;
    }
  }

  ghost predicate AllListed(entries: seq<Entry>, c: Tree)
    requires Listable(c)
  {
    forall e | e in entries :: e.path in c && e.path != [] && e == EntryAt(c, e.path)
  }

  ghost predicate NothingRefused(t: Tree, dest: Path, entries: seq<Entry>) {
    forall k | 0 <= k < |entries| :: NotRefused(t, dest, entries[..k], entries[k])
  }

  ghost predicate NotRefused(t: Tree, dest: Path, before: seq<Entry>, e: Entry) {
    StaysIn(dest, e) && CanPut(Unpacked(t, dest, before), dest, e)
  }

  lemma OneMoreNotRefused(t: Tree, dest: Path, before: seq<Entry>, e: Entry)
    requires NothingRefused(t, dest, before) && NotRefused(t, dest, before, e)
    ensures NothingRefused(t, dest, before + [e])
    ensures Unpacked(t, dest, before + [e]) == Put(Unpacked(t, dest, before), dest, e)
  {
    var entries := before + [e];
    assert entries[..|before|] == before;
    forall k | 0 <= k < |entries|
      ensures NotRefused(t, dest, entries[..k], entries[k])
    {
      if k < |before| {
        assert entries[..k] == before[..k] && entries[k] == before[k];
        assert NotRefused(t, dest, before[..k], before[k]);
      } else {
        assert entries[..k] == before && entries[k] == e;
      }
    }
  }

  /** Extracting what lists a tree into an empty folder is never refused and puts back that
      tree. */
  lemma {:induction false} UnpackedListing(t: Tree, dest: Path, c: Tree, entries: seq<Entry>)
    requires Rooted(t) && IsFolder(t, dest) && Empty(t, dest) && PlainPath(dest)
    requires Listable(c) && PlainTree(c) && AllListed(entries, c)
    ensures PartOfListing(Unpacked(t, dest, entries), dest, c, entries) && NothingRefused(t, dest, entries)
  {
    if entries == [] {
      NothingUnpacked(t, dest, c);
    } else {
      var before, e := entries[..|entries| - 1], entries[|entries| - 1];
      LastListed(c, entries);
      UnpackedListing(t, dest, c, before);
      OneMoreListed(t, dest, c, before, e);
    }
  }

  lemma LastListed(c: Tree, entries: seq<Entry>)
    requires Listable(c) && AllListed(entries, c) && entries != []
    ensures var before, e := entries[..|entries| - 1], entries[|entries| - 1];
            && AllListed(before, c) && entries == before + [e]
            && e.path in c && e.path != [] && e == EntryAt(c, e.path)
  {
    var before, e := entries[..|entries| - 1], entries[|entries| - 1];
    assert before + [e] == entries && e in entries;
  }

  lemma OneMoreListed(t: Tree, dest: Path, c: Tree, before: seq<Entry>, e: Entry)
    requires Listable(c) && PlainTree(c) && PlainPath(dest) && e.path in c && e.path != [] && e == EntryAt(c, e.path)
    requires PartOfListing(Unpacked(t, dest, before), dest, c, before) && NothingRefused(t, dest, before)
    ensures PartOfListing(Unpacked(t, dest, before + [e]), dest, c, before + [e]) &&
              NothingRefused(t, dest, before + [e])
  {
    PutListed(Unpacked(t, dest, before), dest, c, before, e);
    OneMoreNotRefused(t, dest, before, e);
  }

  /** So an archive that lists a tree is extracted to that tree, and only a fault or its size
      can keep it from being. */
  lemma ListingRoundTrip(t: Tree, dest: Path, c: Tree, entries: seq<Entry>)
    requires Rooted(t) && IsFolder(t, dest) && Empty(t, dest) && PlainPath(dest)
    requires Listable(c) && PlainTree(c) && Lists(entries, c)
    ensures Sub(Unpacked(t, dest, entries), dest) == c
    ensures NothingRefused(t, dest, entries)
  {
    AllEntriesAreListed(entries, c);
    UnpackedListing(t, dest, c, entries);
    WholeListing(Unpacked(t, dest, entries), dest, c, entries);
  }

  lemma AllEntriesAreListed(entries: seq<Entry>, c: Tree)
    requires Listable(c) && Lists(entries, c)
    ensures AllListed(entries, c)
  {
    forall e | e in entries ensures e.path in c && e.path != [] && e == EntryAt(c, e.path) {
      var p :| p in c && p != [] && e == EntryAt(c, p);
    }
  }

  lemma WholeListing(now: Tree, dest: Path, c: Tree, entries: seq<Entry>)
    requires Listable(c) && Lists(entries, c) && PartOfListing(now, dest, c, entries)
    ensures Sub(now, dest) == c
  {
    var sub := Sub(now, dest);
    forall r ensures (r in sub <==> r in c) && (r in sub ==> sub[r] == c[r]) {
      WholeAt(now, dest, c, entries, r);
    }
  }

  lemma WholeAt(now: Tree, dest: Path, c: Tree, entries: seq<Entry>, r: Path)
    requires Listable(c) && Lists(entries, c) && PartOfListing(now, dest, c, entries)
    ensures (r in Sub(now, dest) <==> r in c) && (r in Sub(now, dest) ==> Sub(now, dest)[r] == c[r])
  {
    SubIs(now, dest);
    assert r in Sub(now, dest) <==> dest + r in now;
    if r == [] {
      assert dest <= dest && dest + [] == dest;
      assert IsFolder(now, dest);
    } else if r in c {
      assert EntryAt(c, r) in entries;
      assert dest + EntryAt(c, r).path in now;
    }
  }

  /** Extracting makes no links. */
  lemma {:induction false} NoLinks(t: Tree, dest: Path, entries: seq<Entry>, q: Path)
    requires q in Unpacked(t, dest, entries) && Unpacked(t, dest, entries)[q].Other?
    ensures q in t && t[q].Other?
  {
    if entries != [] {
      var before, e := Unpacked(t, dest, entries[..|entries| - 1]), entries[|entries| - 1];
      FoldersAt(before, FolderOf(Target(dest, e), e), q);
      NoLinks(t, dest, entries[..|entries| - 1], q);
    }
  }
}
