/** Backing up a world with its dimension folders, and putting them back. */
module Restore {
  import opened Wrappers
  import opened Files
  import opened Archive
  import opened Unzip
  import opened Swap

  const LEVEL_DAT := Name("level.dat")

  /** The folders that belong to a world: its own and those of its dimensions. */
  function Siblings(world: Name): (names: seq<Name>)
    ensures |names| == 3 && names[0] == world
  {
    [world, Name(world.text + "_nether"), Name(world.text + "_the_end")]
  }

  function AsideName(n: Name, stamp: string): Name {
    Name(n.text + ".bak-" + stamp)
  }

  lemma SiblingsDiffer(world: Name, stamp: string)
    ensures var s := Siblings(world);
            && s[0] != s[1] && s[0] != s[2] && s[1] != s[2]
            && AsideName(s[0], stamp) != AsideName(s[1], stamp)
            && AsideName(s[0], stamp) != AsideName(s[2], stamp)
            && AsideName(s[1], stamp) != AsideName(s[2], stamp)
  {
    var w := |world.text|;
    var s := Siblings(world);
    assert |s[0].text| == w && |s[1].text| == w + 7 && |s[2].text| == w + 8;
    assert |AsideName(s[0], stamp).text| == w + 5 + |stamp|;
    assert |AsideName(s[1], stamp).text| == w + 12 + |stamp|;
    assert |AsideName(s[2], stamp).text| == w + 13 + |stamp|;
  }

  lemma AsidesAreNoSiblings(world: Name, stamp: string)
    ensures forall m, n | m in Siblings(world) && n in Siblings(world) :: AsideName(m, stamp) != n
  {
    var w, s := |world.text|, Siblings(world);
    assert AsideName(s[0], stamp).text[w] == '.' && s[1].text[w] == s[2].text[w] == '_';
    assert AsideName(s[1], stamp).text[w + 1] == 'n' && s[2].text[w + 1] == 't';
    assert AsideName(s[2], stamp).text[w + 1] == 't' && s[1].text[w + 1] == 'n';
    assert |s[0].text| == w && |s[1].text| == w + 7 && |s[2].text| == w + 8;
    assert forall n | n in s :: |AsideName(n, stamp).text| > |n.text|;
    forall m, n | m in s && n in s ensures AsideName(m, stamp) != n {
      assert (m == s[0] || m == s[1] || m == s[2]) && (n == s[0] || n == s[1] || n == s[2]);
    }
  }

  ghost function WorldFolders(at: Tree, dir: Path, world: Name): set<Name> {
    set n | n in Siblings(world) && IsFolder(at, dir + [n])
  }

  // --- backing up ---

  datatype Backup = NoWorld | Archived(entries: seq<Entry>) | BackupFailed

  /** existingWorldRoots: the siblings that are folders, in their order. */
  method ExistingWorldRoots(disk: Disk, dir: Path, world: Name) returns (roots: seq<Name>)
    requires disk.Valid()
    modifies disk`faults
    ensures disk.Valid() && disk.faults >= old(disk.faults)
    ensures forall n | n in roots :: n in Siblings(world) && dir + [n] in disk.at
    ensures disk.faults == old(disk.faults) ==> forall n | n in WorldFolders(disk.at, dir, world) :: n in roots
    ensures disk.faults == old(disk.faults) && IsFolder(disk.at, dir + [world]) ==> roots != [] && roots[0] == world
  {
    roots := [];
    var all := Siblings(world);
    for i := 0 to |all|
      invariant disk.Valid() && disk.faults >= old(disk.faults)
      invariant forall n | n in roots :: n in all && dir + [n] in disk.at
      invariant disk.faults == old(disk.faults) ==>
                forall j | 0 <= j < i && IsFolder(disk.at, dir + [all[j]]) :: all[j] in roots
      invariant i == 0 ==> roots == []
      invariant disk.faults == old(disk.faults) && IsFolder(disk.at, dir + [world]) && i > 0 ==>
                roots != [] && roots[0] == world
    {
      var isDir := disk.StatIsDir(dir + [all[i]]);
      if isDir { roots := roots + [all[i]]; }
    }
  }

  /** CreateWorldBackup, of a stopped server: the archive lists the world's folders side by
      side, all of them unless a look at one failed. */
  method CreateWorldBackup(disk: Disk, dir: Path, world: Name) returns (r: Backup, ghost names: set<Name>)
    requires disk.Valid()
    modifies disk`faults
    ensures disk.Valid() && disk.faults >= old(disk.faults)
    ensures r.Archived? ==> names <= WorldFolders(disk.at, dir, world) && Listable(SideBySide(disk.at, dir, names))
    ensures r.Archived? ==> Lists(r.entries, SideBySide(disk.at, dir, names))
    ensures r.Archived? ==> world in names || world == Name("session.lock")
    ensures r.Archived? && disk.faults == old(disk.faults) ==> names == WorldFolders(disk.at, dir, world)
    ensures r.NoWorld? && disk.faults == old(disk.faults) ==> !IsFolder(disk.at, dir + [world])
    ensures r.BackupFailed? && disk.faults == old(disk.faults) ==>
              exists n :: n in Siblings(world) && dir + [n] in disk.at && !IsFolder(disk.at, dir + [n])
  {
    names := {};
    var roots := ExistingWorldRoots(disk, dir, world);
    if roots == [] || roots[0] != world { return NoWorld, names; }
    var ok, entries := ZipRoots(disk, dir, roots);
    if !ok { return BackupFailed, names; }
    names := set n | n in roots && IsFolder(disk.at, dir + [n]);
    RootsAreListed(entries, disk.at, dir, roots, names);
    assert roots[0] in roots;
    r := Archived(entries);
  }

  // --- restoring ---

  /** stagedLayoutIsMultiRoot. A look that fails counts as nothing there. */
  method StagedLayoutIsMultiRoot(disk: Disk, dest: Path, world: Name) returns (multi: bool)
    requires disk.Valid() && forall q | q in disk.at && dest <= q :: !disk.at[q].Other?
    modifies disk`faults
    ensures disk.Valid() && disk.faults >= old(disk.faults)
    ensures multi ==> IsFolder(disk.at, dest + [world])
    ensures disk.faults == old(disk.faults) ==> multi == MultiRoot(Sub(disk.at, dest), world)
  {
    SubIs(disk.at, dest);
    var single := disk.StatIsThere(dest + [LEVEL_DAT]);
    if single { return false; }
    multi := disk.StatIsDir(dest + [world]);
  }

  /** The layout with each dimension under its own name, which no level.dat at the root of the
      archive contradicts. */
  ghost predicate MultiRoot(staged: Tree, world: Name) {
    [Name("level.dat")] !in staged && IsFolder(staged, [world])
  }

  /** stagedWorldSwaps: the world's own folders among those extracted, and the names of the
      others, which are left behind. */
  method StagedWorldSwaps(disk: Disk, dest: Path, dir: Path, world: Name)
    returns (swaps: Option<seq<WorldSwap>>, skipped: seq<Name>)
    requires disk.Valid()
    modifies disk`faults
    ensures disk.Valid() && disk.faults >= old(disk.faults)
    ensures swaps.Some? ==> swaps.value != [] && SwapsOf(swaps.value, disk.at, dest, dir, world)
    ensures swaps.Some? ==> forall n :: n in skipped <==> n !in Siblings(world) && IsFolder(disk.at, dest + [n])
    ensures swaps.None? && disk.faults == old(disk.faults) ==>
              !IsFolder(disk.at, dest) || forall n | n in Siblings(world) :: !IsFolder(disk.at, dest + [n])
  {
    var entries := disk.ReadDir(dest);
    if entries.None? { return None, []; }
    var list;
    list, skipped := PairFolders(disk, entries.value, dest, dir, world);
    AllNames(list, entries.value, disk.at, dest, dir, world);
    if list == [] {
      assert forall n | n in Siblings(world) :: SwapFor(n, dest, dir) !in list;
      return None, skipped;
    }
    swaps := Some(list);
  }

  lemma AllNames(swaps: seq<WorldSwap>, names: seq<Name>, at: Tree, dest: Path, dir: Path, world: Name)
    requires SwapsSoFar(swaps, names, at, dest, dir, world) && forall n :: n in names <==> dest + [n] in at
    ensures SwapsOf(swaps, at, dest, dir, world)
  {}

  method PairFolders(disk: Disk, names: seq<Name>, dest: Path, dir: Path, world: Name)
    returns (list: seq<WorldSwap>, skipped: seq<Name>)
    requires disk.Valid() && forall n | n in names :: dest + [n] in disk.at
    requires forall j, k | 0 <= j < k < |names| :: names[j] != names[k]
    ensures SwapsSoFar(list, names, disk.at, dest, dir, world)
    ensures forall n :: n in skipped <==> n in names && n !in Siblings(world) && IsFolder(disk.at, dest + [n])
  {
    var allowed := Siblings(world);
    list, skipped := [], [];
    for i := 0 to |names|
      invariant SwapsSoFar(list, names[..i], disk.at, dest, dir, world)
      invariant forall n :: n in skipped <==> n in names[..i] && n !in allowed && IsFolder(disk.at, dest + [n])
    {
      var n := names[i];
      assert n in names && names[..i + 1] == names[..i] + [n];
      OneMoreName(list, names, i, disk.at, dest, dir, world);
      if disk.at[dest + [n]] != Dir { continue; }
      if n !in allowed {
        skipped := skipped + [n];
        continue;
      }
      list := list + [WorldSwap(dest + [n], dir + [n])];
    }
    assert names[..|names|] == names;
  }

  ghost function SwapFor(n: Name, dest: Path, dir: Path): WorldSwap {
    WorldSwap(dest + [n], dir + [n])
  }

  /** One swap for each of the world's folders that is staged. */
  ghost predicate SwapsOf(swaps: seq<WorldSwap>, at: Tree, dest: Path, dir: Path, world: Name) {
    && (forall w | w in swaps :: exists n ::
        n in Siblings(world) && IsFolder(at, dest + [n]) && w == SwapFor(n, dest, dir))
    && (forall n | n in Siblings(world) && IsFolder(at, dest + [n]) :: SwapFor(n, dest, dir) in swaps)
    && (forall i, j | 0 <= i < j < |swaps| :: swaps[i] != swaps[j])
  }

  ghost predicate SwapsSoFar(swaps: seq<WorldSwap>, names: seq<Name>, at: Tree, dest: Path, dir: Path, world: Name) {
    && (forall w | w in swaps :: exists n ::
        n in names && n in Siblings(world) && IsFolder(at, dest + [n]) && w == SwapFor(n, dest, dir))
    && (forall n | n in names && n in Siblings(world) && IsFolder(at, dest + [n]) :: SwapFor(n, dest, dir) in swaps)
    && (forall i, j | 0 <= i < j < |swaps| :: swaps[i] != swaps[j])
  }

  lemma OneMoreName(swaps: seq<WorldSwap>, names: seq<Name>, i: nat, at: Tree, dest: Path, dir: Path, world: Name)
    requires i < |names| && SwapsSoFar(swaps, names[..i], at, dest, dir, world)
    requires forall j, k | 0 <= j < k < |names| :: names[j] != names[k]
    ensures var n := names[i];
            SwapsSoFar(if n in Siblings(world) && IsFolder(at, dest + [n]) then swaps + [SwapFor(n, dest, dir)]
                       else swaps,
                       names[..i + 1], at, dest, dir, world)
  {
    var n := names[i];
    assert names[..i + 1] == names[..i] + [n];
    assert n !in names[..i];
    forall w | w in swaps ensures w != SwapFor(n, dest, dir) {
      var m :| m in names[..i] && w == SwapFor(m, dest, dir);
      assert (dest + [m])[|dest|] == m && (dest + [n])[|dest|] == n;
    }
    var takes := n in Siblings(world) && IsFolder(at, dest + [n]);
    var more := if takes then swaps + [SwapFor(n, dest, dir)] else swaps;
    forall w | w in more
      ensures exists m ::
                m in names[..i + 1] && m in Siblings(world) && IsFolder(at, dest + [m]) && w == SwapFor(m, dest, dir)
    {
      if w in swaps {
        var m :| m in names[..i] && m in Siblings(world) && IsFolder(at, dest + [m]) && w == SwapFor(m, dest, dir);
        assert m in names[..i + 1];
      } else {
        assert n in names[..i + 1];
      }
    }
    forall m | m in names[..i + 1] && m in Siblings(world) && IsFolder(at, dest + [m])
      ensures SwapFor(m, dest, dir) in more
    {
      assert m in names[..i] || m == n;
      if m == n && takes { assert more[|swaps|] == SwapFor(n, dest, dir); }
    }
    forall j, k | 0 <= j < k < |more| ensures more[j] != more[k] {
      assert swaps[j] in swaps;
    }
  }

  // --- the places of a restore ---

  /** The staging folder is none of the world's folders and none of their aside names. */
  ghost predicate TempApart(tmp: Name, world: Name, stamp: string) {
    forall n | n in Siblings(world) :: tmp != n && tmp != AsideName(n, stamp)
  }

  ghost function Around(dir: Path, tmp: Name, world: Name, stamp: string): set<Path> {
    {dir + [tmp]} + (set n | n in Siblings(world) :: dir + [n]) + (set n | n in Siblings(world) ::
                                                                   dir + [AsideName(n, stamp)])
  }

  lemma ChildrenApart(dir: Path, a: Name, b: Name)
    requires a != b
    ensures Apart(dir + [a], dir + [b])
  {
    assert (dir + [a])[|dir|] == a && (dir + [b])[|dir|] == b;
  }

  lemma ChildApartFromBelow(dir: Path, a: Name, b: Name, c: Name)
    requires a != b
    ensures Apart(dir + [a], dir + [b] + [c]) && Apart(dir + [b] + [c], dir + [a])
  {
    assert (dir + [a])[|dir|] == a && (dir + [b] + [c])[|dir|] == b;
  }

  lemma AsideOf(dir: Path, n: Name, stamp: string)
    ensures Aside(dir + [n], stamp) == dir + [AsideName(n, stamp)]
  {
    assert Parent(dir + [n]) == dir;
  }

  lemma NamesApart(world: Name, stamp: string, m: Name, n: Name)
    requires m in Siblings(world) && n in Siblings(world)
    ensures AsideName(m, stamp) != n
    ensures m != n ==> AsideName(m, stamp) != AsideName(n, stamp)
  {
    SiblingsDiffer(world, stamp);
    AsidesAreNoSiblings(world, stamp);
    var s := Siblings(world);
    assert (m == s[0] || m == s[1] || m == s[2]) && (n == s[0] || n == s[1] || n == s[2]);
  }

  /** The places of one sibling's swap, staged at `staged` in the staging folder. */
  lemma ProperSwap(dir: Path, tmp: Name, world: Name, stamp: string, n: Name, staged: Path)
    requires TempApart(tmp, world, stamp) && n in Siblings(world)
    requires staged == dir + [tmp] || staged == dir + [tmp] + [n]
    ensures Proper(WorldSwap(staged, dir + [n]), stamp)
  {
    AsideOf(dir, n, stamp);
    NamesApart(world, stamp, n, n);
    if staged == dir + [tmp] {
      ChildrenApart(dir, tmp, n);
      ChildrenApart(dir, tmp, AsideName(n, stamp));
    } else {
      ChildApartFromBelow(dir, n, tmp, n);
      ChildApartFromBelow(dir, AsideName(n, stamp), tmp, n);
    }
    ChildrenApart(dir, n, AsideName(n, stamp));
  }

  lemma SwapsApart(dir: Path, tmp: Name, world: Name, stamp: string, m: Name, n: Name)
    requires TempApart(tmp, world, stamp) && m in Siblings(world) && n in Siblings(world) && m != n
    ensures ApartFrom(SwapFor(m, dir + [tmp], dir), SwapFor(n, dir + [tmp], dir), stamp)
  {
    AsideOf(dir, m, stamp);
    AsideOf(dir, n, stamp);
    NamesApart(world, stamp, m, n);
    NamesApart(world, stamp, n, m);
    var am, an := AsideName(m, stamp), AsideName(n, stamp);
    ChildrenApart(dir + [tmp], m, n);
    ChildApartFromBelow(dir, n, tmp, m);
    ChildApartFromBelow(dir, an, tmp, m);
    ChildApartFromBelow(dir, m, tmp, n);
    ChildrenApart(dir, m, n);
    ChildrenApart(dir, m, an);
    ChildApartFromBelow(dir, am, tmp, n);
    ChildrenApart(dir, am, n);
    ChildrenApart(dir, am, an);
    NinePairs(dir + [tmp] + [m], dir + [m], dir + [am], dir + [tmp] + [n], dir + [n], dir + [an]);
  }

  lemma NinePairs(s: Path, t: Path, a: Path, s': Path, t': Path, a': Path)
    requires Apart(s, s') && Apart(s, t') && Apart(s, a') && Apart(t, s') && Apart(t, t') && Apart(t, a')
    requires Apart(a, s') && Apart(a, t') && Apart(a, a')
    ensures forall p, q | p in {s, t, a} && q in {s', t', a'} :: Apart(p, q)
  {}

  /** The swaps a restore makes: one for each dimension staged, or one for the whole. */
  ghost predicate RestoreSwaps(swaps: seq<WorldSwap>, multi: bool, at: Tree, dir: Path, tmp: Name, world: Name) {
    if multi then SwapsOf(swaps, at, dir + [tmp], dir, world)
    else swaps == [WorldSwap(dir + [tmp], dir + [world])]
  }

  lemma RestoreSwapsSeparate(swaps: seq<WorldSwap>, multi: bool, at: Tree, dir: Path, tmp: Name, world: Name,
                             stamp: string)
    requires RestoreSwaps(swaps, multi, at, dir, tmp, world) && TempApart(tmp, world, stamp)
    ensures Separate(swaps, stamp)
  {
    if multi {
      forall i | 0 <= i < |swaps| ensures Proper(swaps[i], stamp) {
        assert swaps[i] in swaps;
        var n :| n in Siblings(world) && swaps[i] == SwapFor(n, dir + [tmp], dir);
        ProperSwap(dir, tmp, world, stamp, n, dir + [tmp] + [n]);
        assert SwapFor(n, dir + [tmp], dir) == WorldSwap(dir + [tmp] + [n], dir + [n]);
        assert swaps[i].staged == dir + [tmp] + [n] && swaps[i].target == dir + [n];
        assert swaps[i] == SwapFor(n, dir + [tmp], dir);
      }
      forall i, j | 0 <= i < |swaps| && 0 <= j < |swaps| && i != j ensures ApartFrom(swaps[i], swaps[j], stamp) {
        assert swaps[i] in swaps && swaps[j] in swaps;
        var m :| m in Siblings(world) && swaps[i] == SwapFor(m, dir + [tmp], dir);
        var n :| n in Siblings(world) && swaps[j] == SwapFor(n, dir + [tmp], dir);
        SwapsApart(dir, tmp, world, stamp, m, n);
      }
    } else {
      assert world in Siblings(world);
      ProperSwap(dir, tmp, world, stamp, world, dir + [tmp]);
    }
  }

  // --- what a restore keeps and what it leaves ---

  /** The tree that was at each of the world's folders is there or at its aside name. */
  ghost predicate SiblingsKept(was: Tree, now: Tree, dir: Path, world: Name, stamp: string) {
    forall n | n in Siblings(world) && dir + [n] in was ::
      Same(was, now, dir + [n]) || Alike(Sub(now, dir + [AsideName(n, stamp)]), Sub(was, dir + [n]))
  }

  ghost predicate SiblingsSame(was: Tree, now: Tree, dir: Path, world: Name) {
    forall n | n in Siblings(world) :: Same(was, now, dir + [n])
  }

  /** Every folder the archive holds is as it was staged; one it does not hold is untouched. */
  ghost predicate PutBack(was: Tree, now: Tree, dir: Path, world: Name, staged: Tree, multi: bool) {
    forall n | n in Siblings(world) ::
      if multi && IsFolder(staged, [n]) then Alike(Sub(now, dir + [n]), Sub(staged, [n]))
      else if !multi && n == world then Alike(Sub(now, dir + [n]), staged)
      else Same(was, now, dir + [n])
  }

  ghost predicate SafeState(was: Tree, now: Tree, dir: Path, tmp: Name, world: Name, stamp: string, staged: Tree,
                            multi: bool) {
    && OnlyAt(was, now, Around(dir, tmp, world, stamp))
    && (SiblingsKept(was, now, dir, world, stamp) || PutBack(was, now, dir, world, staged, multi))
  }

  ghost predicate SafeStates(trace: seq<Tree>, n: nat, was: Tree, dir: Path, tmp: Name, world: Name, stamp: string,
                             staged: Tree, multi: bool) {
    forall k | n <= k < |trace| :: SafeState(was, trace[k], dir, tmp, world, stamp, staged, multi)
  }

  ghost predicate KeptStates(trace: seq<Tree>, n: nat, was: Tree, dir: Path, world: Name, stamp: string) {
    forall k | n <= k < |trace| :: SiblingsKept(was, trace[k], dir, world, stamp)
  }

  /** No copy of an earlier restore is in the way of the moves aside. */
  ghost predicate AsidesFree(was: Tree, dir: Path, world: Name, stamp: string) {
    forall n | n in Siblings(world) :: dir + [AsideName(n, stamp)] !in was
  }

  lemma WiderOnlyAt(was: Tree, now: Tree, places: set<Path>, wider: set<Path>)
    requires OnlyAt(was, now, places) && forall p | p in places :: Within(wider, p)
    ensures OnlyAt(was, now, wider)
  {
    forall q | !Within(wider, q) ensures SameAt(was, now, q) {
      forall p | p in places ensures !(p <= q) {
        var w :| w in wider && w <= p;
        assert p <= q ==> w <= q;
      }
    }
  }

  /** The staging leaves the world's folders as they are. */
  lemma StagingApart(was: Tree, now: Tree, dir: Path, tmp: Name, world: Name, stamp: string)
    requires TempApart(tmp, world, stamp) && OnlyAt(was, now, {dir + [tmp]})
    ensures SiblingsSame(was, now, dir, world) && OnlyAt(was, now, Around(dir, tmp, world, stamp))
  {
    forall n | n in Siblings(world) ensures Same(was, now, dir + [n]) {
      ChildrenApart(dir, n, tmp);
      OnlyAtKeeps(was, now, {dir + [tmp]}, dir + [n]);
    }
    OnlyAtMore(was, now, {dir + [tmp]}, Around(dir, tmp, world, stamp));
  }

  lemma PlacesAround(swaps: seq<WorldSwap>, multi: bool, at: Tree, dir: Path, tmp: Name, world: Name, stamp: string)
    requires RestoreSwaps(swaps, multi, at, dir, tmp, world)
    ensures forall p | p in AllPlaces(swaps, stamp) :: Within(Around(dir, tmp, world, stamp), p)
  {
    var around := Around(dir, tmp, world, stamp);
    forall p | p in AllPlaces(swaps, stamp) ensures Within(around, p) {
      var i :| 0 <= i < |swaps| && p in PlacesOf(swaps[i], stamp);
      assert swaps[i] in swaps;
      var n := TargetName(swaps, multi, at, dir, tmp, world, i);
      PlaceAround(dir, tmp, world, stamp, n, swaps[i], p);
    }
  }

  lemma PlaceAround(dir: Path, tmp: Name, world: Name, stamp: string, n: Name, w: WorldSwap, p: Path)
    requires n in Siblings(world) && w.target == dir + [n] && p in PlacesOf(w, stamp)
    requires w.staged == dir + [tmp] || w.staged == dir + [tmp] + [n]
    ensures Within(Around(dir, tmp, world, stamp), p)
  {
    var around := Around(dir, tmp, world, stamp);
    AsideOf(dir, n, stamp);
    var above := if p == w.staged then dir + [tmp] else p;
    assert above in around && above <= p;
  }

  lemma TargetName(swaps: seq<WorldSwap>, multi: bool, at: Tree, dir: Path, tmp: Name, world: Name, i: nat)
    returns (n: Name)
    requires RestoreSwaps(swaps, multi, at, dir, tmp, world) && i < |swaps|
    ensures n in Siblings(world) && swaps[i].target == dir + [n]
    ensures swaps[i].staged == if multi then dir + [tmp] + [n] else dir + [tmp]
    ensures if multi then IsFolder(at, dir + [tmp] + [n]) else n == world
  {
    if multi {
      assert swaps[i] in swaps;
      n :| n in Siblings(world) && IsFolder(at, dir + [tmp] + [n]) && swaps[i] == SwapFor(n, dir + [tmp], dir);
      assert SwapFor(n, dir + [tmp], dir) == WorldSwap(dir + [tmp] + [n], dir + [n]);
    } else {
      n := world;
      assert world in Siblings(world);
    }
  }

  /** A folder that is not swapped is not touched. */
  lemma NotSwapped(at: Tree, now: Tree, swaps: seq<WorldSwap>, multi: bool, dir: Path, tmp: Name, world: Name,
                   stamp: string, n: Name)
    requires RestoreSwaps(swaps, multi, at, dir, tmp, world) && TempApart(tmp, world, stamp) && n in Siblings(world)
    requires OnlyAt(at, now, AllPlaces(swaps, stamp))
    requires if multi then !IsFolder(at, dir + [tmp] + [n]) else n != world
    ensures Same(at, now, dir + [n])
  {
    forall p | p in AllPlaces(swaps, stamp) ensures Apart(dir + [n], p) {
      var i :| 0 <= i < |swaps| && p in PlacesOf(swaps[i], stamp);
      var m := TargetName(swaps, multi, at, dir, tmp, world, i);
      PlaceApart(dir, tmp, world, stamp, n, m, swaps[i], p);
    }
    OnlyAtKeeps(at, now, AllPlaces(swaps, stamp), dir + [n]);
  }

  lemma PlaceApart(dir: Path, tmp: Name, world: Name, stamp: string, n: Name, m: Name, w: WorldSwap, p: Path)
    requires TempApart(tmp, world, stamp) && m in Siblings(world) && n in Siblings(world) && m != n
    requires w.target == dir + [m] && (w.staged == dir + [tmp] || w.staged == dir + [tmp] + [m]) &&
              p in PlacesOf(w, stamp)
    ensures Apart(dir + [n], p)
  {
    AsideOf(dir, m, stamp);
    if p == w.target {
      ChildrenApart(dir, n, m);
    } else if p == dir + [AsideName(m, stamp)] {
      NamesApart(world, stamp, m, n);
      ChildrenApart(dir, n, AsideName(m, stamp));
    } else if p == dir + [tmp] {
      ChildrenApart(dir, n, tmp);
    } else {
      ChildApartFromBelow(dir, n, tmp, m);
    }
  }

  lemma SwapIndex(swaps: seq<WorldSwap>, multi: bool, at: Tree, dir: Path, tmp: Name, world: Name, n: Name)
    returns (i: nat)
    requires RestoreSwaps(swaps, multi, at, dir, tmp, world) && n in Siblings(world)
    requires if multi then IsFolder(at, dir + [tmp] + [n]) else n == world
    ensures i < |swaps| && swaps[i].target == dir + [n]
    ensures swaps[i].staged == if multi then dir + [tmp] + [n] else dir + [tmp]
  {
    if multi {
      assert SwapFor(n, dir + [tmp], dir) in swaps;
      i :| 0 <= i < |swaps| && swaps[i] == SwapFor(n, dir + [tmp], dir);
      assert SwapFor(n, dir + [tmp], dir) == WorldSwap(dir + [tmp] + [n], dir + [n]);
    } else {
      i := 0;
    }
  }

  ghost predicate Takes(multi: bool, at: Tree, dir: Path, tmp: Name, world: Name, n: Name) {
    if multi then IsFolder(at, dir + [tmp] + [n]) else n == world
  }

  lemma KeptMeans(was: Tree, at: Tree, now: Tree, swaps: seq<WorldSwap>, multi: bool, dir: Path, tmp: Name, world: Name,
                  stamp: string)
    requires RestoreSwaps(swaps, multi, at, dir, tmp, world) && TempApart(tmp, world, stamp)
    requires SiblingsSame(was, at, dir, world) && OnlyAt(at, now, AllPlaces(swaps, stamp)) &&
              AllKept(at, now, swaps, stamp)
    ensures SiblingsKept(was, now, dir, world, stamp)
  {
    forall n | n in Siblings(world) && dir + [n] in was
      ensures Same(was, now, dir + [n]) || Alike(Sub(now, dir + [AsideName(n, stamp)]), Sub(was, dir + [n]))
    {
      assert Same(was, at, dir + [n]);
      if Takes(multi, at, dir, tmp, world, n) {
        var i := SwapIndex(swaps, multi, at, dir, tmp, world, n);
        assert Swap.Kept(at, now, swaps[i], stamp);
        AsideOf(dir, n, stamp);
      } else {
        NotSwapped(at, now, swaps, multi, dir, tmp, world, stamp, n);
      }
    }
  }

  lemma BackMeans(was: Tree, at: Tree, now: Tree, swaps: seq<WorldSwap>, multi: bool, dir: Path, tmp: Name, world: Name,
                  stamp: string)
    requires RestoreSwaps(swaps, multi, at, dir, tmp, world) && TempApart(tmp, world, stamp)
    requires SiblingsSame(was, at, dir, world) && OnlyAt(at, now, AllPlaces(swaps, stamp)) &&
              BackFrom(at, now, swaps, 0)
    ensures SiblingsSame(was, now, dir, world)
  {
    forall n | n in Siblings(world) ensures Same(was, now, dir + [n]) {
      assert Same(was, at, dir + [n]);
      if Takes(multi, at, dir, tmp, world, n) {
        var i := SwapIndex(swaps, multi, at, dir, tmp, world, n);
        assert Same(at, now, swaps[i].target);
      } else {
        NotSwapped(at, now, swaps, multi, dir, tmp, world, stamp, n);
      }
    }
  }

  /** No copy of a folder is left under an aside name, unless one was there. */
  ghost predicate NoCopies(was: Tree, now: Tree, dir: Path, world: Name, stamp: string) {
    forall n | n in Siblings(world) && dir + [AsideName(n, stamp)] in now :: dir + [AsideName(n, stamp)] in was
  }

  lemma NoCopiesMeans(was: Tree, at: Tree, now: Tree, swaps: seq<WorldSwap>, multi: bool, dir: Path, tmp: Name,
                      world: Name, stamp: string)
    requires RestoreSwaps(swaps, multi, at, dir, tmp, world) && TempApart(tmp, world, stamp)
    requires OnlyAt(was, at, {dir + [tmp]}) && OnlyAt(at, now, AllPlaces(swaps, stamp))
    requires NoNewAsides(at, now, swaps, stamp)
    ensures NoCopies(was, now, dir, world, stamp)
  {
    forall n | n in Siblings(world) && dir + [AsideName(n, stamp)] in now ensures dir + [AsideName(n, stamp)] in was {
      var aside := dir + [AsideName(n, stamp)];
      AsideOf(dir, n, stamp);
      ChildrenApart(dir, AsideName(n, stamp), tmp);
      assert !Within({dir + [tmp]}, aside);
      assert SameAt(was, at, aside);
      if Takes(multi, at, dir, tmp, world, n) {
        var i := SwapIndex(swaps, multi, at, dir, tmp, world, n);
        assert NoNewAside(at, now, swaps[i], stamp);
      } else {
        AsideNotSwapped(at, swaps, multi, dir, tmp, world, stamp, n);
        assert SameAt(at, now, aside);
      }
    }
  }

  lemma AsideNotSwapped(at: Tree, swaps: seq<WorldSwap>, multi: bool, dir: Path, tmp: Name, world: Name, stamp: string,
                        n: Name)
    requires RestoreSwaps(swaps, multi, at, dir, tmp, world) && TempApart(tmp, world, stamp) && n in Siblings(world)
    requires !Takes(multi, at, dir, tmp, world, n)
    ensures !Within(AllPlaces(swaps, stamp), dir + [AsideName(n, stamp)])
  {
    var aside := dir + [AsideName(n, stamp)];
    forall p | p in AllPlaces(swaps, stamp) ensures !(p <= aside) {
      var i :| 0 <= i < |swaps| && p in PlacesOf(swaps[i], stamp);
      var m := TargetName(swaps, multi, at, dir, tmp, world, i);
      AsideApart(dir, tmp, world, stamp, n, m, swaps[i], p);
    }
  }

  lemma AsideApart(dir: Path, tmp: Name, world: Name, stamp: string, n: Name, m: Name, w: WorldSwap, p: Path)
    requires TempApart(tmp, world, stamp) && m in Siblings(world) && n in Siblings(world) && m != n
    requires w.target == dir + [m] && (w.staged == dir + [tmp] || w.staged == dir + [tmp] + [m]) &&
              p in PlacesOf(w, stamp)
    ensures Apart(dir + [AsideName(n, stamp)], p)
  {
    AsideOf(dir, m, stamp);
    NamesApart(world, stamp, n, m);
    if p == w.target {
      ChildrenApart(dir, AsideName(n, stamp), m);
    } else if p == dir + [AsideName(m, stamp)] {
      ChildrenApart(dir, AsideName(n, stamp), AsideName(m, stamp));
    } else if p == dir + [tmp] {
      ChildrenApart(dir, AsideName(n, stamp), tmp);
    } else {
      ChildApartFromBelow(dir, AsideName(n, stamp), tmp, m);
    }
  }

  ghost function WorldPlaces(dir: Path, world: Name): set<Path> {
    set n | n in Siblings(world) :: dir + [n]
  }

  /** With the staging folder and the copies gone, only the world's folders are not as they were. */
  lemma OnlyTheWorld(was: Tree, now: Tree, dir: Path, tmp: Name, world: Name, stamp: string)
    requires Rooted(was) && Rooted(now) && OnlyAt(was, now, Around(dir, tmp, world, stamp))
    requires AsidesFree(was, dir, world, stamp) && NoCopies(was, now, dir, world, stamp)
    requires dir + [tmp] !in was && dir + [tmp] !in now
    ensures OnlyAt(was, now, WorldPlaces(dir, world))
  {
    var around, places := Around(dir, tmp, world, stamp), WorldPlaces(dir, world);
    forall q | !Within(places, q) ensures SameAt(was, now, q) {
      if Within(around, q) {
        var p :| p in around && p <= q;
        assert p !in places;
        assert p !in was && p !in now;
        if q in was { RootedAbove(was, p, q); }
        if q in now { RootedAbove(now, p, q); }
      }
    }
  }

  /** With the staging folder gone, and nothing else changed, all is as it was. */
  lemma NothingChanged(was: Tree, now: Tree, tmp: Path)
    requires Rooted(was) && Rooted(now) && OnlyAt(was, now, {tmp}) && tmp !in was && tmp !in now
    ensures Alike(now, was)
  {
    forall q ensures SameAt(now, was, q) {
      if q in was { if tmp <= q { RootedAbove(was, tmp, q); } else { assert !Within({tmp}, q); } }
      if q in now { if tmp <= q { RootedAbove(now, tmp, q); } else { assert !Within({tmp}, q); } }
    }
    SameEverywhere(now, was);
  }

  lemma StagedSub(at: Tree, dest: Path, n: Name)
    ensures IsFolder(Sub(at, dest), [n]) <==> IsFolder(at, dest + [n])
    ensures Alike(Sub(Sub(at, dest), [n]), Sub(at, dest + [n]))
  {
    SubAt(at, dest, [n]);
    SubSub(at, dest, [n]);
  }

  lemma PlacedMeans(was: Tree, at: Tree, now: Tree, swaps: seq<WorldSwap>, multi: bool, dir: Path, tmp: Name,
                    world: Name, stamp: string)
    requires RestoreSwaps(swaps, multi, at, dir, tmp, world) && TempApart(tmp, world, stamp)
    requires SiblingsSame(was, at, dir, world) && OnlyAt(at, now, AllPlaces(swaps, stamp)) && AllInPlace(at, now, swaps)
    ensures PutBack(was, now, dir, world, Sub(at, dir + [tmp]), multi)
  {
    var staged := Sub(at, dir + [tmp]);
    forall n | n in Siblings(world)
      ensures if multi && IsFolder(staged, [n]) then Alike(Sub(now, dir + [n]), Sub(staged, [n]))
              else if !multi && n == world then Alike(Sub(now, dir + [n]), staged)
              else Same(was, now, dir + [n])
    {
      assert Same(was, at, dir + [n]);
      StagedSub(at, dir + [tmp], n);
      if Takes(multi, at, dir, tmp, world, n) {
        var i := SwapIndex(swaps, multi, at, dir, tmp, world, n);
        assert InPlace(at, now, swaps[i]);
      } else {
        NotSwapped(at, now, swaps, multi, dir, tmp, world, stamp, n);
      }
    }
  }

  lemma SafeMeans(was: Tree, at: Tree, now: Tree, swaps: seq<WorldSwap>, multi: bool, dir: Path, tmp: Name, world: Name,
                  stamp: string)
    requires RestoreSwaps(swaps, multi, at, dir, tmp, world) && TempApart(tmp, world, stamp)
    requires OnlyAt(was, at, {dir + [tmp]}) && Safe(at, now, swaps, stamp)
    ensures SafeState(was, now, dir, tmp, world, stamp, Sub(at, dir + [tmp]), multi)
    ensures OnlyAt(was, now, Around(dir, tmp, world, stamp))
  {
    StagingApart(was, at, dir, tmp, world, stamp);
    PlacesAround(swaps, multi, at, dir, tmp, world, stamp);
    WiderOnlyAt(at, now, AllPlaces(swaps, stamp), Around(dir, tmp, world, stamp));
    OnlyAtTwice(was, at, now, Around(dir, tmp, world, stamp));
    if AllKept(at, now, swaps, stamp) {
      KeptMeans(was, at, now, swaps, multi, dir, tmp, world, stamp);
    } else {
      PlacedMeans(was, at, now, swaps, multi, dir, tmp, world, stamp);
    }
  }

  // --- the restore ---

  datatype Restored = Restored(targets: seq<Path>, skipped: seq<Name>) | RestoreFailed

  /** Whether what is on the disk lets a restore through: the archive extracts, and nothing is
      in the way of its folders. */
  ghost predicate Restorable(was: Tree, dir: Path, tmp: Name, world: Name, stamp: string, entries: seq<Entry>) {
    && HasParent(was, dir + [tmp]) && dir + [tmp] !in was
    && WithinLimits(entries) && NothingRefused(was[dir + [tmp] := Dir], dir + [tmp], entries)
    && AsidesFree(was, dir, world, stamp)
  }

  /** What the archive extracts to in an empty staging folder. */
  ghost function Extracts(was: Tree, dest: Path, entries: seq<Entry>): Tree {
    Sub(Unpacked(was[dest := Dir], dest, entries), dest)
  }

  lemma ExtractedHasNoLinks(made: Tree, now: Tree, dest: Path, entries: seq<Entry>)
    requires IsFolder(made, dest) && Empty(made, dest) && Alike(now, Unpacked(made, dest, entries))
    ensures forall q | q in now && dest <= q :: !now[q].Other?
  {
    forall q | q in now && dest <= q && now[q].Other? ensures false {
      NoLinks(made, dest, entries, q);
    }
  }

  /** The top-level folders of the archive that are not the world's. */
  ghost predicate SkippedAre(skipped: seq<Name>, staged: Tree, world: Name) {
    forall n :: n in skipped <==> n !in Siblings(world) && IsFolder(staged, [n])
  }

  /** The staging: made, filled and looked at. No folder of the world is touched yet. */
  method Stage(disk: Disk, dir: Path, tmp: Name, world: Name, ghost stamp: string, entries: seq<Entry>)
    returns (ok: bool, made: bool, swaps: seq<WorldSwap>, multi: bool, skipped: seq<Name>)
    requires disk.Valid()
    modifies disk`at, disk`trace, disk`faults
    ensures !made ==> !ok && Alike(disk.at, old(disk.at))
    ensures made ==> dir + [tmp] !in old(disk.at)
    ensures disk.Valid() && old(disk.trace) <= disk.trace && disk.faults >= old(disk.faults)
    ensures OnlySince(disk.trace, |old(disk.trace)|, old(disk.at), dir + [tmp]) &&
              OnlyAt(old(disk.at), disk.at, {dir + [tmp]})
    ensures ok ==> IsFolder(disk.at, dir + [tmp]) && RestoreSwaps(swaps, multi, disk.at, dir, tmp, world)
    ensures ok ==> HasParent(old(disk.at), dir + [tmp])
    ensures ok ==> Alike(Sub(disk.at, dir + [tmp]), Extracts(old(disk.at), dir + [tmp], entries))
    ensures ok && disk.faults == old(disk.faults) ==> multi == MultiRoot(Sub(disk.at, dir + [tmp]), world)
    ensures ok && multi ==> SkippedAre(skipped, Sub(disk.at, dir + [tmp]), world)
    ensures ok && !multi ==> skipped == []
    ensures !ok && disk.faults == old(disk.faults) ==> !Restorable(old(disk.at), dir, tmp, world, stamp, entries)
  {
    var dest := dir + [tmp];
    ok, swaps, multi, skipped := false, [], false, [];
    ghost var was := disk.at;
    made := disk.MkdirTemp(dest);
    if !made { return; }
    MadeIsRooted(was, dest);
    ghost var at0 := disk.at;
    var r := UnzipTo(disk, entries, dest);
    if !r.Extracted? { return; }
    ExtractedHasNoLinks(at0, disk.at, dest, entries);
    multi := StagedLayoutIsMultiRoot(disk, dest, world);
    ok, swaps := true, [WorldSwap(dest, dir + [world])];
    if multi {
      var list;
      list, skipped := StagedWorldSwaps(disk, dest, dir, world);
      ok, swaps := list.Some?, if list.Some? then list.value else [];
      forall x ensures IsFolder(Sub(disk.at, dest), [x]) <==> IsFolder(disk.at, dest + [x]) {
        StagedSub(disk.at, dest, x);
      }
    }
  }

  lemma ReadyAfterStaging(was: Tree, at: Tree, swaps: seq<WorldSwap>, multi: bool, dir: Path, tmp: Name, world: Name,
                          stamp: string, i: nat)
    requires OnlyAt(was, at, {dir + [tmp]}) && HasParent(was, dir + [tmp]) && TempApart(tmp, world, stamp)
    requires RestoreSwaps(swaps, multi, at, dir, tmp, world) && IsFolder(at, dir + [tmp]) && i < |swaps|
    ensures Ready(at, swaps[i])
    ensures AsidesFree(was, dir, world, stamp) ==> Clear(at, swaps[i], stamp)
  {
    var n := TargetName(swaps, multi, at, dir, tmp, world, i);
    AsideOf(dir, n, stamp);
    var aside := dir + [AsideName(n, stamp)];
    ChildrenApart(dir, tmp, AsideName(n, stamp));
    assert !Within({dir + [tmp]}, aside) && !Within({dir + [tmp]}, dir);
    assert SameAt(was, at, aside) && SameAt(was, at, dir);
    assert Parent(dir + [tmp]) == dir == Parent(dir + [n]);
  }

  /** Removing the staging folder changes none of what was put in place or kept. */
  lemma TidyKeeps(was: Tree, now: Tree, tidy: Tree, dir: Path, tmp: Name, world: Name, stamp: string, staged: Tree,
                  multi: bool)
    requires TempApart(tmp, world, stamp) && OnlyAt(now, tidy, {dir + [tmp]})
    ensures SiblingsSame(was, now, dir, world) ==> SiblingsSame(was, tidy, dir, world)
    ensures SiblingsKept(was, now, dir, world, stamp) ==> SiblingsKept(was, tidy, dir, world, stamp)
    ensures PutBack(was, now, dir, world, staged, multi) ==> PutBack(was, tidy, dir, world, staged, multi)
    ensures OnlyAt(was, now, Around(dir, tmp, world, stamp)) ==> OnlyAt(was, tidy, Around(dir, tmp, world, stamp))
  {
    forall n | n in Siblings(world) ensures Same(now, tidy, dir + [n]) && Same(now, tidy, dir + [AsideName(n, stamp)]) {
      ChildrenApart(dir, n, tmp);
      OnlyAtKeeps(now, tidy, {dir + [tmp]}, dir + [n]);
      ChildrenApart(dir, AsideName(n, stamp), tmp);
      OnlyAtKeeps(now, tidy, {dir + [tmp]}, dir + [AsideName(n, stamp)]);
    }
    var around := Around(dir, tmp, world, stamp);
    if OnlyAt(was, now, around) {
      OnlyAtMore(now, tidy, {dir + [tmp]}, around);
      OnlyAtTwice(was, now, tidy, around);
    }
  }

  lemma StagingIsSafe(trace: seq<Tree>, n: nat, was: Tree, dir: Path, tmp: Name, world: Name, stamp: string,
                      staged: Tree, multi: bool)
    requires TempApart(tmp, world, stamp) && OnlySince(trace, n, was, dir + [tmp])
    ensures SafeStates(trace, n, was, dir, tmp, world, stamp, staged, multi)
    ensures KeptStates(trace, n, was, dir, world, stamp)
  {
    forall k | n <= k < |trace|
      ensures SafeState(was, trace[k], dir, tmp, world, stamp, staged, multi) &&
                SiblingsKept(was, trace[k], dir, world, stamp)
    {
      StagingApart(was, trace[k], dir, tmp, world, stamp);
    }
  }

  lemma SwapIsSafe(trace0: seq<Tree>, trace: seq<Tree>, n: nat, was: Tree, at: Tree, swaps: seq<WorldSwap>, multi: bool,
                   dir: Path, tmp: Name, world: Name, stamp: string)
    requires RestoreSwaps(swaps, multi, at, dir, tmp, world) && TempApart(tmp, world, stamp) &&
              OnlyAt(was, at, {dir + [tmp]})
    requires trace0 <= trace && SafeStates(trace0, n, was, dir, tmp, world, stamp, Sub(at, dir + [tmp]), multi)
    requires SafeSince(trace, |trace0|, at, swaps, stamp)
    ensures SafeStates(trace, n, was, dir, tmp, world, stamp, Sub(at, dir + [tmp]), multi)
  {
    forall k | n <= k < |trace| ensures SafeState(was, trace[k], dir, tmp, world, stamp, Sub(at, dir + [tmp]), multi) {
      if k < |trace0| {
        assert trace[k] == trace0[k];
      } else {
        SafeMeans(was, at, trace[k], swaps, multi, dir, tmp, world, stamp);
      }
    }
  }

  lemma SwapKeeps(trace: seq<Tree>, m: nat, was: Tree, at: Tree, swaps: seq<WorldSwap>, multi: bool,
                  dir: Path, tmp: Name, world: Name, stamp: string)
    requires RestoreSwaps(swaps, multi, at, dir, tmp, world) && TempApart(tmp, world, stamp) &&
              OnlyAt(was, at, {dir + [tmp]})
    requires IntactSince(trace, m, at, swaps, stamp)
    ensures KeptStates(trace, m, was, dir, world, stamp)
  {
    StagingApart(was, at, dir, tmp, world, stamp);
    forall k | m <= k < |trace| ensures SiblingsKept(was, trace[k], dir, world, stamp) {
      assert Intact(at, trace[k], swaps, stamp);
      KeptMeans(was, at, trace[k], swaps, multi, dir, tmp, world, stamp);
    }
  }

  /** The swap of a restore, seen from before the staging. */
  method SwapStaged(disk: Disk, swaps: seq<WorldSwap>, multi: bool, skipped: seq<Name>, dir: Path, tmp: Name,
                    world: Name, stamp: string,
                    ghost was: Tree, ghost n: nat)
    returns (r: Restored)
    requires disk.Valid() && TempApart(tmp, world, stamp) && n <= |disk.trace| && HasParent(was, dir + [tmp])
    requires IsFolder(disk.at, dir + [tmp]) && RestoreSwaps(swaps, multi, disk.at, dir, tmp, world)
    requires OnlyAt(was, disk.at, {dir + [tmp]})
    requires SafeStates(disk.trace, n, was, dir, tmp, world, stamp, Sub(disk.at, dir + [tmp]), multi)
    modifies disk
    ensures disk.Valid() && old(disk.trace) <= disk.trace && disk.faults >= old(disk.faults)
    ensures SafeStates(disk.trace, n, was, dir, tmp, world, stamp, Sub(old(disk.at), dir + [tmp]), multi)
    ensures OnlyAt(was, disk.at, Around(dir, tmp, world, stamp))
    ensures r.Restored? ==>
              PutBack(was, disk.at, dir, world, Sub(old(disk.at), dir + [tmp]), multi) && r.skipped == skipped
    ensures r.Restored? && disk.faults == old(disk.faults) ==> NoCopies(was, disk.at, dir, world, stamp)
    ensures r.RestoreFailed? ==> KeptStates(disk.trace, |old(disk.trace)|, was, dir, world, stamp)
    ensures r.RestoreFailed? ==> SiblingsKept(was, disk.at, dir, world, stamp)
    ensures r.RestoreFailed? && Undoable(old(disk.faults), disk.faults, AsidesFree(was, dir, world, stamp)) ==>
              SiblingsSame(was, disk.at, dir, world)
    ensures r.RestoreFailed? && disk.faults == old(disk.faults) ==> !AsidesFree(was, dir, world, stamp)
    ensures r.RestoreFailed? ==> Refused(old(disk.refused), disk.refused, disk.faults)
    ensures r.RestoreFailed? && QuietSince(old(disk.refused), disk.refused, disk.faults) ==>
              SiblingsSame(was, disk.at, dir, world)
  {
    RestoreSwapsSeparate(swaps, multi, disk.at, dir, tmp, world, stamp);
    StagingApart(was, disk.at, dir, tmp, world, stamp);
    ghost var at, trace0 := disk.at, disk.trace;
    var targets := SwapWorldDirs(disk, swaps, stamp);
    SwapIsSafe(trace0, disk.trace, n, was, at, swaps, multi, dir, tmp, world, stamp);
    AfterSwap(was, at, disk.at, swaps, multi, dir, tmp, world, stamp);
    ReadyStaged(was, at, swaps, multi, dir, tmp, world, stamp);
    if targets.Some? {
      if disk.faults == old(disk.faults) { NoCopiesMeans(was, at, disk.at, swaps, multi, dir, tmp, world, stamp); }
    } else {
      SwapKeeps(disk.trace, |trace0|, was, at, swaps, multi, dir, tmp, world, stamp);
    }
    r := if targets.Some? then Restored(targets.value, skipped) else RestoreFailed;
  }

  lemma ReadyStaged(was: Tree, at: Tree, swaps: seq<WorldSwap>, multi: bool, dir: Path, tmp: Name, world: Name,
                    stamp: string)
    requires OnlyAt(was, at, {dir + [tmp]}) && HasParent(was, dir + [tmp]) && TempApart(tmp, world, stamp)
    requires RestoreSwaps(swaps, multi, at, dir, tmp, world) && IsFolder(at, dir + [tmp])
    ensures AllReady(at, swaps) && (AsidesFree(was, dir, world, stamp) ==> AllClear(at, swaps, stamp))
  {
    forall i | 0 <= i < |swaps|
      ensures Ready(at, swaps[i]) && (AsidesFree(was, dir, world, stamp) ==> Clear(at, swaps[i], stamp))
    {
      ReadyAfterStaging(was, at, swaps, multi, dir, tmp, world, stamp, i);
    }
  }

  lemma AfterSwap(was: Tree, at: Tree, now: Tree, swaps: seq<WorldSwap>, multi: bool, dir: Path, tmp: Name, world: Name,
                  stamp: string)
    requires RestoreSwaps(swaps, multi, at, dir, tmp, world) && TempApart(tmp, world, stamp)
    requires OnlyAt(was, at, {dir + [tmp]}) && OnlyAt(at, now, AllPlaces(swaps, stamp))
    ensures OnlyAt(was, now, Around(dir, tmp, world, stamp))
    ensures AllKept(at, now, swaps, stamp) ==> SiblingsKept(was, now, dir, world, stamp)
    ensures BackFrom(at, now, swaps, 0) ==> SiblingsSame(was, now, dir, world)
    ensures AllInPlace(at, now, swaps) ==> PutBack(was, now, dir, world, Sub(at, dir + [tmp]), multi)
  {
    StagingApart(was, at, dir, tmp, world, stamp);
    PlacesAround(swaps, multi, at, dir, tmp, world, stamp);
    WiderOnlyAt(at, now, AllPlaces(swaps, stamp), Around(dir, tmp, world, stamp));
    OnlyAtTwice(was, at, now, Around(dir, tmp, world, stamp));
    if AllKept(at, now, swaps, stamp) { KeptMeans(was, at, now, swaps, multi, dir, tmp, world, stamp); }
    if BackFrom(at, now, swaps, 0) { BackMeans(was, at, now, swaps, multi, dir, tmp, world, stamp); }
    if AllInPlace(at, now, swaps) { PlacedMeans(was, at, now, swaps, multi, dir, tmp, world, stamp); }
  }

  /** Removes the staging folder, whichever way the restore ended. */
  method Tidy(disk: Disk, dir: Path, tmp: Name, world: Name, stamp: string, ghost was: Tree, ghost n: nat,
              ghost staged: Tree, ghost multi: bool)
    requires disk.Valid() && TempApart(tmp, world, stamp) && n <= |disk.trace|
    requires SafeStates(disk.trace, n, was, dir, tmp, world, stamp, staged, multi)
    requires SafeState(was, disk.at, dir, tmp, world, stamp, staged, multi)
    modifies disk`at, disk`trace, disk`faults
    ensures disk.Valid() && disk.faults >= old(disk.faults)
    ensures SafeStates(disk.trace, n, was, dir, tmp, world, stamp, staged, multi)
    ensures OnlyAt(was, disk.at, Around(dir, tmp, world, stamp))
    ensures SiblingsSame(was, old(disk.at), dir, world) ==> SiblingsSame(was, disk.at, dir, world)
    ensures disk.trace == old(disk.trace) + [disk.at]
    ensures disk.faults == old(disk.faults) ==> dir + [tmp] !in disk.at
    ensures OnlyAt(old(disk.at), disk.at, {dir + [tmp]})
    ensures SiblingsKept(was, old(disk.at), dir, world, stamp) ==> SiblingsKept(was, disk.at, dir, world, stamp)
    ensures PutBack(was, old(disk.at), dir, world, staged, multi) ==> PutBack(was, disk.at, dir, world, staged, multi)
  {
    ghost var now := disk.at;
    var removed := disk.RemoveAll(dir + [tmp]);
    TidyKeeps(was, now, disk.at, dir, tmp, world, stamp, staged, multi);
  }

  /** RestoreBackup, of a world. Success leaves the archive's folders as extracted and touches no
      other, and every state on the way keeps each of the world's folders or has put all of the
      archive's in place. A failure keeps each of them in every state, and leaves them all as they
      were when no rename was refused or nothing failed after the first that was. Without a fault
      only what is on the disk or in the archive can make it fail. */
  method RestoreWorld(disk: Disk, dir: Path, world: Name, tmp: Name, stamp: string, entries: seq<Entry>)
    returns (r: Restored, ghost staged: Tree, ghost multi: bool)
    requires disk.Valid() && TempApart(tmp, world, stamp)
    modifies disk
    ensures disk.Valid() && old(disk.trace) <= disk.trace && disk.faults >= old(disk.faults)
    ensures SafeStates(disk.trace, |old(disk.trace)|, old(disk.at), dir, tmp, world, stamp, staged, multi)
    ensures OnlyAt(old(disk.at), disk.at, Around(dir, tmp, world, stamp))
    ensures r.Restored? ==> Alike(staged, Extracts(old(disk.at), dir + [tmp], entries))
    ensures r.Restored? ==> PutBack(old(disk.at), disk.at, dir, world, staged, multi)
    ensures r.Restored? && disk.faults == old(disk.faults) ==> multi == MultiRoot(staged, world)
    ensures r.Restored? && multi ==> SkippedAre(r.skipped, staged, world)
    ensures r.Restored? && disk.faults == old(disk.faults) && AsidesFree(old(disk.at), dir, world, stamp) ==>
              OnlyAt(old(disk.at), disk.at, WorldPlaces(dir, world))
    ensures r.RestoreFailed? && disk.faults == old(disk.faults) && AsidesFree(old(disk.at), dir, world, stamp) ==>
              Alike(disk.at, old(disk.at))
    ensures r.RestoreFailed? ==> KeptStates(disk.trace, |old(disk.trace)|, old(disk.at), dir, world, stamp)
    ensures r.RestoreFailed? && Undoable(old(disk.faults), disk.faults, AsidesFree(old(disk.at), dir, world, stamp)) ==>
              SiblingsSame(old(disk.at), disk.at, dir, world)
    ensures r.RestoreFailed? && disk.faults == old(disk.faults) ==>
              !Restorable(old(disk.at), dir, tmp, world, stamp, entries)
    ensures r.RestoreFailed? &&
              (disk.refused == old(disk.refused) || QuietSince(old(disk.refused), disk.refused, disk.faults)) ==>
              SiblingsSame(old(disk.at), disk.at, dir, world)
  {
    ghost var was, n := disk.at, |disk.trace|;
    var ok, made, swaps, isMulti, skipped := Stage(disk, dir, tmp, world, stamp, entries);
    multi, staged := isMulti, Sub(disk.at, dir + [tmp]);
    ghost var trace1 := disk.trace;
    StagingApart(was, disk.at, dir, tmp, world, stamp);
    StagingIsSafe(trace1, n, was, dir, tmp, world, stamp, staged, multi);
    if ok {
      r := SwapAndTidy(disk, swaps, isMulti, skipped, dir, tmp, world, stamp, was, n);
      if r.Restored? && disk.faults == old(disk.faults) && AsidesFree(was, dir, world, stamp) {
        OnlyTheWorld(was, disk.at, dir, tmp, world, stamp);
      }
    } else {
      r := RestoreFailed;
      GiveUp(disk, made, dir, tmp, world, stamp, was, n, staged, multi);
    }
    Further(old(disk.trace), trace1, disk.trace);
    if r.RestoreFailed? {
      KeptThroughout(trace1, disk.trace, n, was, dir, world, stamp);
    }
  }

  /** What is left to do when the staging failed. */
  method GiveUp(disk: Disk, made: bool, dir: Path, tmp: Name, world: Name, stamp: string, ghost was: Tree, ghost n: nat,
                ghost staged: Tree, ghost multi: bool)
    requires disk.Valid() && TempApart(tmp, world, stamp) && n <= |disk.trace| && OnlyAt(was, disk.at, {dir + [tmp]})
    requires SafeStates(disk.trace, n, was, dir, tmp, world, stamp, staged, multi)
    modifies disk`at, disk`trace, disk`faults
    ensures disk.Valid() && old(disk.trace) <= disk.trace && disk.faults >= old(disk.faults)
    ensures SafeStates(disk.trace, n, was, dir, tmp, world, stamp, staged, multi)
    ensures OnlyAt(was, disk.at, Around(dir, tmp, world, stamp))
    ensures KeptStates(disk.trace, |old(disk.trace)|, was, dir, world, stamp) && SiblingsSame(was, disk.at, dir, world)
    ensures made && disk.faults == old(disk.faults) && dir + [tmp] !in was && Rooted(was) ==> Alike(disk.at, was)
    ensures !made ==> disk.at == old(disk.at)
  {
    StagingApart(was, disk.at, dir, tmp, world, stamp);
    if made {
      ghost var at := disk.at;
      Tidy(disk, dir, tmp, world, stamp, was, n, staged, multi);
      OnlyAtTwice(was, at, disk.at, {dir + [tmp]});
      if disk.faults == old(disk.faults) && dir + [tmp] !in was && Rooted(was) {
        NothingChanged(was, disk.at, dir + [tmp]);
      }
    }
  }

  method SwapAndTidy(disk: Disk, swaps: seq<WorldSwap>, multi: bool, skipped: seq<Name>, dir: Path, tmp: Name,
                     world: Name, stamp: string,
                     ghost was: Tree, ghost n: nat)
    returns (r: Restored)
    requires disk.Valid() && TempApart(tmp, world, stamp) && n <= |disk.trace| && HasParent(was, dir + [tmp])
    requires IsFolder(disk.at, dir + [tmp]) && RestoreSwaps(swaps, multi, disk.at, dir, tmp, world)
    requires OnlyAt(was, disk.at, {dir + [tmp]})
    requires SafeStates(disk.trace, n, was, dir, tmp, world, stamp, Sub(disk.at, dir + [tmp]), multi)
    modifies disk
    ensures disk.Valid() && old(disk.trace) <= disk.trace && disk.faults >= old(disk.faults)
    ensures SafeStates(disk.trace, n, was, dir, tmp, world, stamp, Sub(old(disk.at), dir + [tmp]), multi)
    ensures OnlyAt(was, disk.at, Around(dir, tmp, world, stamp))
    ensures r.Restored? ==>
              PutBack(was, disk.at, dir, world, Sub(old(disk.at), dir + [tmp]), multi) && r.skipped == skipped
    ensures r.Restored? && disk.faults == old(disk.faults) ==>
              NoCopies(was, disk.at, dir, world, stamp) && dir + [tmp] !in disk.at
    ensures r.RestoreFailed? ==> KeptStates(disk.trace, |old(disk.trace)|, was, dir, world, stamp)
    ensures r.RestoreFailed? && Undoable(old(disk.faults), disk.faults, AsidesFree(was, dir, world, stamp)) ==>
              SiblingsSame(was, disk.at, dir, world)
    ensures r.RestoreFailed? && disk.faults == old(disk.faults) ==> !AsidesFree(was, dir, world, stamp)
    ensures r.RestoreFailed? ==> Refused(old(disk.refused), disk.refused, disk.faults)
    ensures r.RestoreFailed? && QuietSince(old(disk.refused), disk.refused, disk.faults) ==>
              SiblingsSame(was, disk.at, dir, world)
  {
    ghost var staged, trace0 := Sub(disk.at, dir + [tmp]), disk.trace;
    r := SwapStaged(disk, swaps, multi, skipped, dir, tmp, world, stamp, was, n);
    ghost var trace1 := disk.trace;
    ghost var faults1, at1 := disk.faults, disk.at;
    Tidy(disk, dir, tmp, world, stamp, was, n, staged, multi);
    Further(trace0, trace1, disk.trace);
    if r.Restored? && disk.faults == old(disk.faults) {
      StillNoCopies(was, at1, disk.at, dir, tmp, world, stamp);
    }
    if r.RestoreFailed? {
      QuietThroughout(old(disk.refused), disk.refused, disk.refused, faults1, disk.faults);
      KeptThroughout(trace1, disk.trace, |trace0|, was, dir, world, stamp);
    }
  }

  lemma StillNoCopies(was: Tree, now: Tree, tidy: Tree, dir: Path, tmp: Name, world: Name, stamp: string)
    requires TempApart(tmp, world, stamp) && OnlyAt(now, tidy, {dir + [tmp]})
    requires NoCopies(was, now, dir, world, stamp)
    ensures NoCopies(was, tidy, dir, world, stamp)
  {
    forall n | n in Siblings(world) ensures SameAt(now, tidy, dir + [AsideName(n, stamp)]) {
      ChildrenApart(dir, AsideName(n, stamp), tmp);
      assert !Within({dir + [tmp]}, dir + [AsideName(n, stamp)]);
    }
  }

  lemma KeptThroughout(trace1: seq<Tree>, trace: seq<Tree>, n: nat, was: Tree, dir: Path, world: Name, stamp: string)
    requires trace1 <= trace && KeptStates(trace1, n, was, dir, world, stamp) &&
              KeptStates(trace, |trace1|, was, dir, world, stamp)
    ensures KeptStates(trace, n, was, dir, world, stamp)
  {
    forall k | n <= k < |trace| ensures SiblingsKept(was, trace[k], dir, world, stamp) {
      assert k < |trace1| ==> trace[k] == trace1[k];
    }
  }

  // --- the round trip ---

  lemma SideBySideSub(at: Tree, dir: Path, names: set<Name>, n: Name)
    requires forall m | m in names :: IsFolder(at, dir + [m])
    ensures IsFolder(SideBySide(at, dir, names), [n]) <==> n in names
    ensures n in names ==> Sub(SideBySide(at, dir, names), [n]) == Stored(Sub(at, dir + [n]))
  {
    var c, t := SideBySide(at, dir, names), Sub(at, dir + [n]);
    SideBySideAt(at, dir, names, [n]);
    assert [n][1..] == [];
    if n in names {
      SubAt(at, dir + [n], []);
      assert dir + [n] + [] == dir + [n];
      assert Archivable(t, []);
      var sub, stored := Sub(c, [n]), Stored(t);
      forall p ensures (p in sub <==> p in stored) && (p in sub ==> sub[p] == stored[p]) {
        SubAt(c, [n], p);
        SideBySideAt(at, dir, names, [n] + p);
        assert ([n] + p)[1..] == p;
      }
    }
  }

  /** What CreateWorldBackup wrote is extracted to the folders as they were archived, by their
      names, and nothing beside them. Their layout is seen for what it is unless the world is
      called level.dat. */
  lemma ArchiveRoundTrip(backed: Tree, was: Tree, dir: Path, tmp: Name, world: Name, names: set<Name>,
                         entries: seq<Entry>)
    requires Rooted(backed) && names <= WorldFolders(backed, dir, world) && world in names
    requires Listable(SideBySide(backed, dir, names)) && Lists(entries, SideBySide(backed, dir, names))
    requires PlainTree(SideBySide(backed, dir, names)) && PlainPath(dir + [tmp])
    requires Rooted(was) && HasParent(was, dir + [tmp]) && dir + [tmp] !in was
    ensures var staged := Extracts(was, dir + [tmp], entries);
            && staged == SideBySide(backed, dir, names)
            && (MultiRoot(staged, world) <==> world != Name("level.dat"))
            && SkippedAre([], staged, world)
    ensures NothingRefused(was[dir + [tmp] := Dir], dir + [tmp], entries)
  {
    var dest, c := dir + [tmp], SideBySide(backed, dir, names);
    MadeIsRooted(was, dest);
    ListingRoundTrip(was[dest := Dir], dest, c, entries);
    SideBySideSub(backed, dir, names, world);
    SideBySideSub(backed, dir, names, LEVEL_DAT);
    SideBySideAt(backed, dir, names, [LEVEL_DAT]);
    NotASibling(world);
    forall n ensures IsFolder(c, [n]) ==> n in Siblings(world) {
      SideBySideSub(backed, dir, names, n);
    }
  }

  lemma NotASibling(world: Name)
    ensures LEVEL_DAT in Siblings(world) <==> world == LEVEL_DAT
  {
    var s := Siblings(world);
    assert s[1].text[|s[1].text| - 1] == 'r' && s[2].text[|s[2].text| - 1] == 'd';
    assert LEVEL_DAT.text[|LEVEL_DAT.text| - 1] == 't';
  }

  /** A world backed up and restored: each folder that was archived is exactly what it was then,
      without its lock and without links and devices; each sibling that was not is untouched by
      the restore. */
  lemma WorldRoundTrip(backed: Tree, was: Tree, now: Tree, dir: Path, tmp: Name, world: Name, names: set<Name>,
                       entries: seq<Entry>, staged: Tree)
    requires Rooted(backed) && names <= WorldFolders(backed, dir, world) && world in names && world != Name("level.dat")
    requires Listable(SideBySide(backed, dir, names)) && Lists(entries, SideBySide(backed, dir, names))
    requires PlainTree(SideBySide(backed, dir, names)) && PlainPath(dir + [tmp])
    requires Rooted(was) && HasParent(was, dir + [tmp]) && dir + [tmp] !in was
    requires Alike(staged, Extracts(was, dir + [tmp], entries)) &&
              PutBack(was, now, dir, world, staged, MultiRoot(staged, world))
    ensures forall n | n in Siblings(world) ::
              if n in names then Alike(Sub(now, dir + [n]), Stored(Sub(backed, dir + [n])))
                else Same(was, now, dir + [n])
  {
    ArchiveRoundTrip(backed, was, dir, tmp, world, names, entries);
    forall n | n in Siblings(world)
      ensures if n in names then Alike(Sub(now, dir + [n]), Stored(Sub(backed, dir + [n])))
                else Same(was, now, dir + [n])
    {
      OneFolderBack(backed, was, now, dir, world, names, staged, n);
    }
  }

  lemma OneFolderBack(backed: Tree, was: Tree, now: Tree, dir: Path, world: Name, names: set<Name>, staged: Tree,
                      n: Name)
    requires (forall m | m in names :: IsFolder(backed, dir + [m])) && n in Siblings(world)
    requires Alike(staged, SideBySide(backed, dir, names)) && PutBack(was, now, dir, world, staged, true)
    ensures if n in names then Alike(Sub(now, dir + [n]), Stored(Sub(backed, dir + [n]))) else Same(was, now, dir + [n])
  {
    SideBySideSub(backed, dir, names, n);
  }

  /** Whether a world backed up from one state can be restored over another. */
  ghost predicate RoundTrips(backed: Tree, was: Tree, dir: Path, world: Name, tmp: Name, stamp: string,
                             entries: seq<Entry>) {
    && IsFolder(backed, dir + [world]) && world != Name("level.dat")
    && PlainTree(SideBySide(backed, dir, WorldFolders(backed, dir, world))) && PlainPath(dir + [tmp])
    && HasParent(was, dir + [tmp]) && dir + [tmp] !in was && AsidesFree(was, dir, world, stamp) && WithinLimits(entries)
  }

  /** Names of the kind a disk holds are plain. */
  lemma WorldIsPlain(backed: Tree, dir: Path, world: Name)
    requires Rooted(backed)
    requires forall p, n | p in backed && n in p :: n.text != "" && n.text != "." && n.text != ".."
    ensures PlainTree(SideBySide(backed, dir, WorldFolders(backed, dir, world)))
  {
    var names := WorldFolders(backed, dir, world);
    forall q | q in SideBySide(backed, dir, names) ensures PlainPath(q) {
      SideBySideAt(backed, dir, names, q);
      if q != [] {
        var p := dir + [q[0]] + q[1..];
        SubAt(backed, dir + [q[0]], q[1..]);
        assert p in backed && forall n | n in q :: n in p;
      }
    }
  }

  /** What is below a place is what was below it: every folder, every regular file that is not called
      session.lock with its bytes, and nothing else. */
  ghost predicate ComesBack(backed: Tree, now: Tree, place: Path) {
    forall q: Path {:trigger place + q} ::
      && (place + q in backed && backed[place + q] == Dir ==> place + q in now && now[place + q] == Dir)
      && (place + q in backed && backed[place + q].File? && q != [] && q[|q| - 1] != Name("session.lock") ==>
            place + q in now && now[place + q] == backed[place + q])
      && (place + q in now ==>
            && place + q in backed && now[place + q] == backed[place + q]
            && (now[place + q] == Dir || (now[place + q].File? && q != [] && q[|q| - 1] != Name("session.lock"))))
  }

  lemma StoredComesBack(backed: Tree, now: Tree, place: Path)
    requires Alike(Sub(now, place), Stored(Sub(backed, place)))
    ensures ComesBack(backed, now, place)
  {
    forall q: Path
      ensures place + q in now <==> place + q in backed && Archivable(Sub(backed, place), q)
      ensures place + q in now ==> now[place + q] == backed[place + q]
    {
      SubAt(backed, place, q);
      SubAt(now, place, q);
    }
    forall q: Path | place + q in backed
      ensures Archivable(Sub(backed, place), q) <==>
                backed[place + q] == Dir || (backed[place + q].File? && q != [] && q[|q| - 1] != Name("session.lock"))
    {
      SubAt(backed, place, q);
    }
  }

  /** The files a world is made of, where the game keeps them: the level file and a region of the
      overworld, and a region of the nether and of the end, in folders of their own beside it or in
      folders of the world. */
  function GameFiles(dir: Path, world: Name, region: Name): set<Path> {
    {
      dir + [world] + [Name("level.dat")],
      dir + [world] + [Name("region"), region],
      dir + [world] + [Name("DIM-1"), Name("region"), region],
      dir + [world] + [Name("DIM1"), Name("region"), region],
      dir + [Name(world.text + "_nether")] + [Name("DIM-1"), Name("region"), region],
      dir + [Name(world.text + "_the_end")] + [Name("DIM1"), Name("region"), region]
    }
  }

  /** Each of them comes back with its bytes. */
  lemma GameFilesComeBack(backed: Tree, now: Tree, dir: Path, world: Name, region: Name, f: Path)
    requires Rooted(backed) && region != Name("session.lock") && f in GameFiles(dir, world, region)
    requires forall n | n in Siblings(world) && IsFolder(backed, dir + [n]) :: ComesBack(backed, now, dir + [n])
    requires f in backed && backed[f].File?
    ensures f in now && now[f] == backed[f]
  {
    var s := Siblings(world);
    var nether, end := Name(world.text + "_nether"), Name(world.text + "_the_end");
    assert s[0] == world && s[1] == nether && s[2] == end;
    var n, q := GameFileAt(dir, world, region, f);
    assert n in s;
    FileComesBack(backed, now, dir + [n], q);
  }

  lemma GameFileAt(dir: Path, world: Name, region: Name, f: Path) returns (n: Name, q: Path)
    requires region != Name("session.lock") && f in GameFiles(dir, world, region)
    ensures n == world || n == Name(world.text + "_nether") || n == Name(world.text + "_the_end")
    ensures f == dir + [n] + q && q != [] && q[|q| - 1] != Name("session.lock")
  {
    var level: Path, over: Path := [Name("level.dat")], [Name("region"), region];
    var nether: Path, end: Path := [Name("DIM-1"), Name("region"), region], [Name("DIM1"), Name("region"), region];
    assert Name("level.dat").text[0] == 'l' && Name("session.lock").text[0] == 's';
    if f == dir + [world] + level {
      n, q := world, level;
    } else if f == dir + [world] + over {
      n, q := world, over;
    } else if f == dir + [world] + nether {
      n, q := world, nether;
    } else if f == dir + [world] + end {
      n, q := world, end;
    } else if f == dir + [Name(world.text + "_nether")] + nether {
      n, q := Name(world.text + "_nether"), nether;
    } else {
      n, q := Name(world.text + "_the_end"), end;
    }
  }

  lemma FileComesBack(backed: Tree, now: Tree, place: Path, q: Path)
    requires Rooted(backed) && (IsFolder(backed, place) ==> ComesBack(backed, now, place))
    requires q != [] && q[|q| - 1] != Name("session.lock") && place + q in backed && backed[place + q].File?
    ensures place + q in now && now[place + q] == backed[place + q]
  {
    RootedAbove(backed, place, place + q);
  }

  /** A backup, and a restore of it over whatever the disk holds by then. When nothing fails and
      nothing is in the way, each folder of the world that was there is what it was, and a sibling
      that was not is left as it is. */
  method BackUpAndRestore(disk: Disk, later: Disk, dir: Path, world: Name, tmp: Name, stamp: string)
    returns (b: Backup, r: Restored)
    requires disk.Valid() && later.Valid() && disk != later && TempApart(tmp, world, stamp)
    modifies disk`faults, later
    ensures disk.Valid() && later.Valid() && disk.faults >= old(disk.faults) && later.faults >= old(later.faults)
    ensures disk.faults == old(disk.faults) && b.NoWorld? ==> !IsFolder(disk.at, dir + [world])
    ensures disk.faults == old(disk.faults) && b.BackupFailed? ==>
              exists n :: n in Siblings(world) && dir + [n] in disk.at && !IsFolder(disk.at, dir + [n])
    ensures b.Archived? && disk.faults == old(disk.faults) && later.faults == old(later.faults)
            && RoundTrips(disk.at, old(later.at), dir, world, tmp, stamp, b.entries) ==>
              && r.Restored?
              && (forall n | n in Siblings(world) && IsFolder(disk.at, dir + [n]) ::
                    ComesBack(disk.at, later.at, dir + [n]))
              && (forall n | n in Siblings(world) && !IsFolder(disk.at, dir + [n]) ::
                    Same(old(later.at), later.at, dir + [n]))
              && OnlyAt(old(later.at), later.at, WorldPlaces(dir, world))
  {
    ghost var backed, was, names := disk.at, later.at, {};
    b, names := CreateWorldBackup(disk, dir, world);
    r := RestoreFailed;
    if !b.Archived? { return; }
    ghost var staged, multi;
    r, staged, multi := RestoreWorld(later, dir, world, tmp, stamp, b.entries);
    if disk.faults == old(disk.faults) && later.faults == old(later.faults)
       && RoundTrips(backed, was, dir, world, tmp, stamp, b.entries) {
      assert world in Siblings(world);
      ArchiveRoundTrip(backed, was, dir, tmp, world, names, b.entries);
      WorldRoundTrip(backed, was, later.at, dir, tmp, world, names, b.entries, staged);
      forall n | n in Siblings(world) && IsFolder(backed, dir + [n]) ensures ComesBack(backed, later.at, dir + [n]) {
        StoredComesBack(backed, later.at, dir + [n]);
      }
    }
  }
}
