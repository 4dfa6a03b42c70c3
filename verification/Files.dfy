/** A disk: directory trees whose operations may each fail, and may be stopped half way where
    the operating system's are not one step. */
module Files {
  import opened Wrappers

  datatype Name = Name(text: string)
  type Path = seq<Name>

  datatype Content = Dir | File(data: seq<bv8>) | Other

  /** What is at each path, from the root of the disk or of a tree. `Other` is a link or a
      device. */
  type Tree = map<Path, Content>

  /** Everything lies in folders. */
  predicate Rooted(t: Tree) {
    forall p {:trigger Parent(p)} | p in t && p != [] :: Parent(p) in t && t[Parent(p)] == Dir
  }

  /** Neither path is within the other. */
  predicate Apart(p: Path, q: Path) {
    !(p <= q) && !(q <= p)
  }

  lemma Below(p: Path, q: Path)
    ensures p <= q ==> p + q[|p|..] == q
    ensures p <= p + q && (p + q)[|p|..] == q
  {}

  /** The tree at a path, empty where there is none. */
  ghost function Sub(t: Tree, p: Path): (sub: Tree)
    ensures [] in sub <==> p in t
  {
    assert p + [] == p;
    map q | q in Carried(t, p, []) :: t[p + q]
  }

  lemma SubIs(t: Tree, p: Path)
    ensures var sub := Sub(t, p);
            && (forall q {:trigger q in sub} {:trigger p + q} :: q in sub <==> p + q in t)
            && (forall q {:trigger sub[q]} | q in sub :: sub[q] == t[p + q])
  {}

  lemma SubAt(t: Tree, p: Path, q: Path)
    ensures q in Sub(t, p) <==> p + q in t
    ensures q in Sub(t, p) ==> Sub(t, p)[q] == t[p + q]
  {}

  lemma SubSub(t: Tree, p: Path, q: Path)
    ensures Alike(Sub(Sub(t, p), q), Sub(t, p + q))
  {
    forall r ensures SameAt(Sub(Sub(t, p), q), Sub(t, p + q), r) {
      SubSubAt(t, p, q, r);
    }
    SameEverywhere(Sub(Sub(t, p), q), Sub(t, p + q));
  }

  lemma SameEverywhere(a: Tree, b: Tree)
    requires forall r :: SameAt(a, b, r)
    ensures Alike(a, b)
  {
    forall r ensures (r in a <==> r in b) && (r in a ==> a[r] == b[r]) {
      assert SameAt(a, b, r);
    }
    assert a == b;
  }

  lemma SubSubAt(t: Tree, p: Path, q: Path, r: Path)
    ensures SameAt(Sub(Sub(t, p), q), Sub(t, p + q), r)
  {
    assert p + (q + r) == p + q + r;
    SubAt(Sub(t, p), q, r);
    SubAt(t, p, q + r);
    SubAt(t, p + q, r);
  }

  lemma NothingThere(t: Tree, p: Path)
    requires Rooted(t) && p !in t
    ensures Sub(t, p) == map[]
  {
    SubIs(t, p);
    RootedBelow(t, p);
    assert forall q: Path :: p <= p + q;
  }

  lemma BothNothing(was: Tree, now: Tree, p: Path)
    requires Rooted(was) && Rooted(now) && p !in was && p !in now
    ensures Alike(Sub(was, p), Sub(now, p))
  {
    NothingThere(was, p);
    NothingThere(now, p);
  }

  ghost predicate SameAt(was: Tree, now: Tree, p: Path) {
    (p in was <==> p in now) && (p in was ==> was[p] == now[p])
  }

  /** Nothing changed but at and below some paths. */
  ghost predicate OnlyAt(was: Tree, now: Tree, places: set<Path>) {
    forall q | !Within(places, q) :: SameAt(was, now, q)
  }

  ghost predicate Within(places: set<Path>, q: Path) {
    exists p :: p in places && p <= q
  }

  lemma OnlyAtKeeps(was: Tree, now: Tree, places: set<Path>, p: Path)
    requires OnlyAt(was, now, places) && forall q | q in places :: Apart(p, q)
    ensures Alike(Sub(was, p), Sub(now, p))
  {
    SubIs(was, p);
    SubIs(now, p);
    forall q ensures SameAt(was, now, p + q) {
      assert !Within(places, p + q);
    }
    assert Sub(was, p) == Sub(now, p);
  }

  lemma OnlyAtMore(was: Tree, now: Tree, places: set<Path>, more: set<Path>)
    requires OnlyAt(was, now, places) && places <= more
    ensures OnlyAt(was, now, more)
  {}

  lemma OnlyAtTwice(a: Tree, b: Tree, c: Tree, places: set<Path>)
    requires OnlyAt(a, b, places) && OnlyAt(b, c, places)
    ensures OnlyAt(a, c, places)
  {
    forall q | !Within(places, q) ensures SameAt(a, c, q) {
      assert SameAt(a, b, q) && SameAt(b, c, q);
    }
  }

  lemma Further(a: seq<Tree>, b: seq<Tree>, c: seq<Tree>)
    requires a <= b <= c
    ensures a <= c
  {}

  datatype Renamed = Moved | NotExist | RenameFailed

  /** `trace` is every state the disk was in, `faults` how often it failed for a reason that is
      not in what it holds, and `refused` how often it had by the end of each rename that failed. */
  class Disk {
    var at: Tree
    ghost var trace: seq<Tree>
    ghost var faults: nat
    ghost var refused: seq<nat>

    ghost predicate Valid()
      reads `at, `trace
    {
      Rooted(at) && trace != [] && trace[|trace| - 1] == at
    }

    constructor (at: Tree)
      requires Rooted(at)
      ensures Valid() && this.at == at && trace == [at] && faults == 0 && refused == []
    {
      this.at, trace, faults, refused := at, [at], 0, [];
    }

    /** os.Rename. */
    method Rename(from: Path, to: Path) returns (r: Renamed)
      requires Valid() && Apart(from, to)
      modifies this
      ensures Valid() && trace == old(trace) + [at] && faults >= old(faults)
      ensures AfterRename(old(at), at, from, to, r) && (faults == old(faults) ==> !Refuses(old(at), from, to, r))
      ensures !r.RenameFailed? ==> faults == old(faults)
      ensures refused == old(refused) + (if r.RenameFailed? then [faults] else [])
    {
      var fails: bool := *;
      if fails { faults := faults + 1; }
      var result := Renaming(at, from, to, fails);
      r, at := result.0, result.1;
      trace, refused := trace + [at], refused + (if r.RenameFailed? then [faults] else []);
    }

    /** A removal that fails may have removed any part of the tree. */
    method RemoveAll(p: Path) returns (ok: bool)
      requires Valid() && p != []
      modifies `at, `trace, `faults
      ensures Valid() && trace == old(trace) + [at] && faults >= old(faults)
      ensures OnlyAt(old(at), at, {p}) && (ok ==> p !in at) && (!ok ==> faults > old(faults))
      ensures p !in old(at) ==> Alike(at, old(at))
    {
      var fails: bool, left: Tree := *, *;
      ok := p !in at || !fails;
      if ok {
          at := Removed(at, p);
      } else {
        faults := faults + 1;
        if PartOf(left, at, p) {
          PartIs(left, at, p);
          at := left;
        }
      }
      trace := trace + [at];
    }

    /** os.MkdirAll. A folder is made in every place on the way where there is nothing. */
    method MkdirAll(p: Path) returns (ok: bool)
      requires Valid()
      modifies `at, `trace, `faults
      ensures Valid() && old(trace) <= trace && faults >= old(faults)
      ensures forall i | |old(trace)| <= i < |trace| :: MadeSome(old(at), trace[i], p)
      ensures ok ==> FoldersTo(old(at), p) && Alike(at, WithFolders(old(at), p))
      ensures !ok ==> MadeSome(old(at), at, p) && (faults == old(faults) ==> !FoldersTo(old(at), p))
    {
      NoneMade(at, p);
      for k := 0 to |p| + 1
        invariant Valid() && old(trace) <= trace && faults >= old(faults)
        invariant forall i | |old(trace)| <= i < |trace| :: MadeSome(old(at), trace[i], p)
        invariant MadeUpTo(old(at), at, p, k) && MadeSome(old(at), at, p)
      {
        var folder := p[..k];
        FolderNext(old(at), at, p, k);
        if folder in at {
          if at[folder] != Dir { return false; }
          continue;
        }
        var fails: bool := *;
        if fails {
          faults := faults + 1;
          return false;
        }
        at := at[folder := Dir];
        trace := trace + [at];
      }
      AllMade(old(at), at, p);
      ok := true;
    }

    /** os.Create and what is then copied into the file. */
    method WriteFile(p: Path, data: seq<bv8>) returns (ok: bool)
      requires Valid()
      modifies `at, `trace, `faults
      ensures Valid() && trace == old(trace) + [at] && faults >= old(faults)
      ensures ok ==> Writable(old(at), p) && Alike(at, old(at)[p := File(data)])
      ensures !ok ==> OnlyThere(old(at), at, p) && (faults == old(faults) ==> !Writable(old(at), p))
    {
      var fails: bool, created: bool, left: seq<bv8> := *, *, *;
      if fails { faults := faults + 1; }
      ok := !fails && Writable(at, p);
      if Writable(at, p) && (ok || created) {
        WrittenIsRooted(at, p, if ok then data else left);
        at := at[p := File(if ok then data else left)];
      }
      trace := trace + [at];
    }

    /** os.MkdirTemp, told the name it picks. */
    method MkdirTemp(p: Path) returns (ok: bool)
      requires Valid()
      modifies `at, `trace, `faults
      ensures Valid() && trace == old(trace) + [at] && faults >= old(faults)
      ensures ok ==> p !in old(at) && HasParent(old(at), p) && Alike(at, old(at)[p := Dir])
      ensures !ok ==> Alike(at, old(at)) && (faults == old(faults) ==> p in at || !HasParent(at, p))
    {
      var fails: bool := *;
      if fails { faults := faults + 1; }
      ok := !fails && p !in at && HasParent(at, p);
      if ok {
        MadeIsRooted(at, p);
        at := at[p := Dir];
      }
      trace := trace + [at];
    }

    /** os.ReadDir: the names in a folder. */
    method ReadDir(p: Path) returns (names: Option<seq<Name>>)
      requires Valid()
      modifies this`faults
      ensures Valid() && faults >= old(faults)
      ensures names.Some? ==> forall n :: n in names.value <==> p + [n] in at
      ensures names.Some? ==> forall i, j | 0 <= i < j < |names.value| :: names.value[i] != names.value[j]
      ensures names.None? && faults == old(faults) ==> p !in at || at[p] != Dir
    {
      var fails: bool := *;
      if fails || p !in at || at[p] != Dir {
        if fails { faults := faults + 1; }
        return None;
      }
      var rest := set q | q in at && |q| > |p| && p <= q && q == p + [q[|p|]] :: q[|p|];
      assert forall n :: n in rest <==> p + [n] in at by {
        forall n | p + [n] in at ensures n in rest {
          var q := p + [n];
          assert q[|p|] == n;
        }
      }
      var list := Listed(rest);
      names := Some(list);
    }

    /** filepath.Walk: every path of the tree, once. */
    method Walk(p: Path) returns (order: seq<Path>)
      ensures forall q :: q in order <==> q in Sub(at, p)
      ensures forall i, j | 0 <= i < j < |order| :: order[i] != order[j]
    {
      SubIs(at, p);
      order := Listed(Carried(at, p, []));
    }

    /** os.Lstat of what is there. */
    method Lstat(p: Path) returns (ok: bool)
      requires Valid() && p in at
      modifies this`faults
      ensures Valid() && faults >= old(faults) && (!ok ==> faults > old(faults))
    {
      var fails: bool := *;
      if fails { faults := faults + 1; }
      ok := !fails;
    }

    /** os.Stat: whether a folder is there. A link may lead to one. */
    method StatIsDir(p: Path) returns (isDir: bool)
      requires Valid()
      modifies this`faults
      ensures Valid() && faults >= old(faults)
      ensures isDir ==> p in at && (at[p] == Dir || at[p] == Other)
      ensures !isDir && faults == old(faults) ==> p !in at || at[p] != Dir
    {
      var fails: bool, leads: bool := *, *;
      if fails { faults := faults + 1; }
      isDir := !fails && p in at && (at[p] == Dir || (at[p] == Other && leads));
    }

    /** os.Stat: whether anything is there. */
    method StatIsThere(p: Path) returns (there: bool)
      requires Valid()
      modifies this`faults
      ensures Valid() && faults >= old(faults)
      ensures there ==> p in at
      ensures !there && faults == old(faults) ==> p !in at
    {
      var fails: bool := *;
      if fails { faults := faults + 1; }
      there := !fails && p in at;
    }

    /** os.Open and reading all of it. */
    method Read(p: Path) returns (data: Option<seq<bv8>>)
      modifies this`faults
      ensures faults >= old(faults) && (Valid() <==> old(Valid()))
      ensures data.Some? ==> p in at && at[p] == File(data.value)
      ensures data.None? && faults == old(faults) ==> p !in at || !at[p].File?
    {
      var fails: bool := *;
      if fails { faults := faults + 1; }
      data := if !fails && p in at && at[p].File? then Some(at[p].data) else None;
    }
  }

  /** A set as a list, in some order. */
  method Listed<T(==)>(s: set<T>) returns (list: seq<T>)
    ensures forall x :: x in list <==> x in s
    ensures forall i, j | 0 <= i < j < |list| :: list[i] != list[j]
  {
    list := [];
    var rest := s;
    while rest != {}
      invariant rest <= s && forall x :: x in list <==> x in s && x !in rest
      invariant forall i, j | 0 <= i < j < |list| :: list[i] != list[j]
    {
      var x :| x in rest;
      list, rest := list + [x], rest - {x};
    }
  }

  predicate IsFolder(t: Tree, p: Path) {
    p in t && t[p] == Dir
  }

  /** Nothing but folders on the way to `p`, and at it. */
  predicate FoldersTo(t: Tree, p: Path) {
    forall k | 0 <= k <= |p| && p[..k] in t :: t[p[..k]] == Dir
  }

  function WithFolders(t: Tree, p: Path): Tree {
    t + map q | q in (set k | 0 <= k <= |p| :: p[..k]) && q !in t :: Dir
  }

  lemma FoldersAt(t: Tree, p: Path, q: Path)
    ensures q in WithFolders(t, p) <==> q in t || q <= p
    ensures q in WithFolders(t, p) ==> WithFolders(t, p)[q] == if q in t then t[q] else Dir
  {
    if q <= p { assert q == p[..|q|]; }
  }

  /** The first k folders on the way to `p` are there, and nothing else changed. */
  ghost predicate MadeUpTo(was: Tree, t: Tree, p: Path, k: nat) {
    && (forall i | 0 <= i < k && i <= |p| :: IsFolder(t, p[..i]))
    && (forall q | q in was :: q in t && t[q] == was[q])
    && (forall q | q in t && q !in was :: q <= p && |q| < k && t[q] == Dir)
  }

  lemma NoneMade(t: Tree, p: Path)
    ensures MadeUpTo(t, t, p, 0) && MadeSome(t, t, p)
  {}

  lemma FolderNext(was: Tree, t: Tree, p: Path, k: nat)
    requires MadeUpTo(was, t, p, k) && Rooted(t) && k <= |p|
    ensures p[..k] in t && t[p[..k]] == Dir ==> MadeUpTo(was, t, p, k + 1)
    ensures p[..k] in t && t[p[..k]] != Dir ==> !FoldersTo(was, p)
    ensures p[..k] !in t ==>
              var next := t[p[..k] := Dir];
              MadeUpTo(was, next, p, k + 1) && MadeSome(was, next, p) && Rooted(next)
  {
    var folder := p[..k];
    if folder !in t {
      FolderMade(was, t, p, k, folder);
      FolderIsRooted(was, t, p, k, folder);
    } else if t[folder] != Dir {
      assert folder in was;
    }
  }

  lemma FolderMade(was: Tree, t: Tree, p: Path, k: nat, folder: Path)
    requires MadeUpTo(was, t, p, k) && k <= |p| && folder == p[..k] && folder !in t
    ensures MadeUpTo(was, t[folder := Dir], p, k + 1) && MadeSome(was, t[folder := Dir], p)
  {
    var next := t[folder := Dir];
    assert folder !in was;
    forall i | 0 <= i < k + 1 && i <= |p| ensures IsFolder(next, p[..i]) {
      assert i < k ==> IsFolder(t, p[..i]);
    }
  }

  lemma FolderIsRooted(was: Tree, t: Tree, p: Path, k: nat, folder: Path)
    requires MadeUpTo(was, t, p, k) && Rooted(t) && k <= |p| && folder == p[..k] && folder !in t
    ensures Rooted(t[folder := Dir])
  {
    if k == 0 {
      RootedBelow(t, folder);
    } else {
      assert Parent(folder) == p[..k - 1] && IsFolder(t, p[..k - 1]);
      MadeIsRooted(t, folder);
    }
  }

  lemma AllMade(was: Tree, t: Tree, p: Path)
    requires MadeUpTo(was, t, p, |p| + 1)
    ensures FoldersTo(was, p) && Alike(t, WithFolders(was, p))
  {
    forall k | 0 <= k <= |p| && p[..k] in was ensures was[p[..k]] == Dir {
      assert IsFolder(t, p[..k]);
    }
    forall q ensures SameAt(t, WithFolders(was, p), q) {
      FoldersAt(was, p, q);
      if q <= p { assert q == p[..|q|] && IsFolder(t, p[..|q|]); }
    }
    SameEverywhere(t, WithFolders(was, p));
  }

  /** What making the folders to `p` leaves when it stops on the way. */
  predicate MadeSome(t: Tree, left: Tree, p: Path) {
    && (forall q | q in t :: q in left && left[q] == t[q])
    && (forall q | q in left && q !in t :: q <= p)
  }

  predicate Writable(t: Tree, p: Path) {
    HasParent(t, p) && (p !in t || t[p].File?)
  }

  lemma MadeIsRooted(t: Tree, p: Path)
    requires Rooted(t) && HasParent(t, p) && p !in t
    ensures Rooted(t[p := Dir]) && Empty(t[p := Dir], p) && OnlyAt(t, t[p := Dir], {p})
  {
    var made := t[p := Dir];
    forall q | q in made && q != [] ensures Parent(q) in made && made[Parent(q)] == Dir {
      assert q != p ==> Parent(q) in t;
    }
    RootedBelow(t, p);
    forall q | !Within({p}, q) ensures SameAt(t, made, q) {
      assert p in {p};
    }
  }

  predicate OnlyThere(t: Tree, left: Tree, p: Path) {
    && (forall q | q in t && q != p :: q in left && left[q] == t[q])
    && (forall q | q in left && q != p :: q in t)
  }

  lemma WrittenIsRooted(t: Tree, p: Path, data: seq<bv8>)
    requires Rooted(t) && Writable(t, p)
    ensures Rooted(t[p := File(data)])
  {
    var left := t[p := File(data)];
    forall q | q in left && q != [] ensures Parent(q) in left && left[Parent(q)] == Dir {
      assert q != p ==> Parent(q) in t && t[Parent(q)] == Dir;
    }
  }

  /** A rename happens whole or not at all, and says that something does not exist only when there
      is nothing to move or no folder to move it to. */
  ghost predicate AfterRename(was: Tree, now: Tree, from: Path, to: Path, r: Renamed) {
    && (r.NotExist? ==> from !in was || !HasParent(was, to))
    && (!r.Moved? ==> Alike(now, was))
    && (r.Moved? ==> from in was && Alike(Sub(now, to), Sub(was, from)) && from !in now && OnlyAt(was, now, {from, to}))
  }

  /** A rename does not move what nothing keeps from moving. */
  ghost predicate Refuses(was: Tree, from: Path, to: Path, r: Renamed) {
    if from in was then !r.Moved? && to !in was && HasParent(was, to) else r.RenameFailed?
  }

  function Renaming(t: Tree, from: Path, to: Path, fails: bool): (result: (Renamed, Tree))
    requires Rooted(t) && Apart(from, to)
    ensures Rooted(result.1) && AfterRename(t, result.1, from, to, result.0)
    ensures !fails ==> !Refuses(t, from, to, result.0)
    ensures fails ==> result.0.RenameFailed?
  {
    if fails then (RenameFailed, t)
    else if from !in t || !HasParent(t, to) then (NotExist, t)
    else if to in t && !Gives(t, from, to) then (RenameFailed, t)
    else
      MovedIs(t, from, to);
      MovedIsRooted(t, from, to);
      (Moved, MovedTree(t, from, to))
  }

  predicate HasParent(t: Tree, p: Path) {
    p != [] && Parent(p) in t && t[Parent(p)] == Dir
  }

  /** What is at `to` may be renamed over: an empty folder by a folder, another file by one. */
  predicate Gives(t: Tree, from: Path, to: Path) {
    from in t && to in t && t[from].Dir? == t[to].Dir? && Empty(t, to)
  }

  /** Nothing lies below `p`. */
  predicate Empty(t: Tree, p: Path) {
    forall q | q in t && p <= q :: q == p
  }

  /** What a removal of `p` that stops anywhere leaves. */
  predicate PartOf(left: Tree, t: Tree, p: Path) {
    && Rooted(left)
    && (forall q | q in left :: q in t && left[q] == t[q])
    && (forall q | q in t && !(p <= q) :: q in left)
  }

  lemma PartIs(left: Tree, t: Tree, p: Path)
    requires PartOf(left, t, p)
    ensures Rooted(left) && OnlyAt(t, left, {p})
  {
    forall q | !Within({p}, q) ensures SameAt(t, left, q) {
      assert p in {p};
    }
  }

  function Removed(t: Tree, p: Path): (left: Tree)
    ensures OnlyAt(t, left, {p}) && Sub(left, p) == map[] && (Rooted(t) ==> Rooted(left))
    ensures p !in t && Rooted(t) ==> left == t
  {
    var left := map q | q in t && !(p <= q) :: t[q];
    assert forall q :: p <= p + q;
    assert forall q | !Within({p}, q) :: !(p <= q) by { assert p in {p}; }
    SubIs(left, p);
    if Rooted(t) then
      RemovedIsRooted(t, p);
      if p !in t then RootedBelow(t, p); left else left
    else left
  }

  lemma RemovedIsRooted(t: Tree, p: Path)
    requires Rooted(t)
    ensures Rooted(map q | q in t && !(p <= q) :: t[q])
  {
    forall q | q in t && q != [] && p <= Parent(q) ensures p <= q {
      assert q == Parent(q) + [q[|q| - 1]];
    }
  }

  lemma {:induction false} RootedAbove(t: Tree, p: Path, q: Path)
    requires Rooted(t) && p <= q && q in t
    ensures p in t && (p != q ==> t[p] == Dir)
    decreases |q|
  {
    if p != q {
      var parent := Parent(q);
      assert parent in t;
      RootedAbove(t, p, parent);
    }
  }

  lemma RootedBelow(t: Tree, p: Path)
    requires Rooted(t) && p !in t
    ensures forall q | q in t :: !(p <= q)
  {
    forall q | q in t && p <= q ensures false {
      RootedAbove(t, p, q);
    }
  }

  /** The paths of a tree, carried over to another place. */
  function Carried(t: Tree, from: Path, to: Path): (paths: set<Path>)
    ensures forall q :: q in paths <==> to <= q && from + q[|to|..] in t
  {
    var paths := set r | r in t && from <= r :: to + r[|from|..];
    assert forall q | q in paths :: to <= q && from + q[|to|..] in t by {
      forall q | q in paths ensures to <= q && from + q[|to|..] in t {
        var r :| r in t && from <= r && q == to + r[|from|..];
        Below(from, r);
        Below(to, r[|from|..]);
      }
    }
    assert forall q | to <= q && from + q[|to|..] in t :: q in paths by {
      forall q | to <= q && from + q[|to|..] in t ensures q in paths {
        Below(to, q);
        Below(from, q[|to|..]);
        var r := from + q[|to|..];
        assert q == to + r[|from|..];
      }
    }
    paths
  }

  function MovedTree(t: Tree, from: Path, to: Path): Tree {
    var carried := Carried(t, from, to);
    (map q | q in t && !(from <= q) && !(to <= q) :: t[q]) + map q | q in carried :: t[from + q[|to|..]]
  }

  lemma MovedAt(t: Tree, from: Path, to: Path)
    ensures var moved := MovedTree(t, from, to);
            && (forall q | to <= q ::
                (q in moved <==> from + q[|to|..] in t) && (q in moved ==> moved[q] == t[from + q[|to|..]]))
            && (forall q | !(to <= q) :: (q in moved <==> q in t && !(from <= q)) && (q in moved ==> moved[q] == t[q]))
  {}

  lemma MovedIs(t: Tree, from: Path, to: Path)
    requires Apart(from, to)
    ensures OnlyAt(t, MovedTree(t, from, to), {from, to})
    ensures Sub(MovedTree(t, from, to), from) == map[]
    ensures Sub(MovedTree(t, from, to), to) == Sub(t, from)
  {
    MovedAway(t, from, to);
    MovedHere(t, from, to);
    MovedOnly(t, from, to);
  }

  lemma MovedOnly(t: Tree, from: Path, to: Path)
    ensures OnlyAt(t, MovedTree(t, from, to), {from, to})
  {
    MovedAt(t, from, to);
    var moved, places := MovedTree(t, from, to), {from, to};
    assert from in places && to in places;
    assert forall q | !Within(places, q) :: !(from <= q) && !(to <= q);
  }

  lemma MovedAway(t: Tree, from: Path, to: Path)
    requires Apart(from, to)
    ensures Sub(MovedTree(t, from, to), from) == map[]
  {
    MovedAt(t, from, to);
    SubIs(MovedTree(t, from, to), from);
    forall q ensures from + q !in MovedTree(t, from, to) {
      Below(from, q);
      NotBelowBoth(from, to, q);
    }
  }

  lemma MovedHere(t: Tree, from: Path, to: Path)
    ensures Sub(MovedTree(t, from, to), to) == Sub(t, from)
  {
    var moved := MovedTree(t, from, to);
    forall q ensures SameAt(Sub(moved, to), Sub(t, from), q) {
      MovedHereAt(t, from, to, q);
    }
    SameEverywhere(Sub(moved, to), Sub(t, from));
  }

  lemma MovedHereAt(t: Tree, from: Path, to: Path, q: Path)
    ensures SameAt(Sub(MovedTree(t, from, to), to), Sub(t, from), q)
  {
    MovedAt(t, from, to);
    Below(to, q);
    SubAt(MovedTree(t, from, to), to, q);
    SubAt(t, from, q);
  }

  lemma NotBelowBoth(p: Path, to: Path, q: Path)
    requires Apart(p, to)
    ensures !(to <= p + q)
  {}

  /** The folder a path is in. */
  function Parent(p: Path): Path
    requires p != []
  {
    p[..|p| - 1]
  }

  lemma MovedIsRooted(t: Tree, from: Path, to: Path)
    requires Apart(from, to) && Rooted(t) && to != [] && Parent(to) in t && t[Parent(to)] == Dir
    ensures Rooted(MovedTree(t, from, to))
  {
    MovedAt(t, from, to);
    var moved := MovedTree(t, from, to);
    forall q | q in moved && q != [] ensures Parent(q) in moved && moved[Parent(q)] == Dir {
      if to <= q {
        MovedParentBelow(t, from, to, q);
      } else {
        MovedParentElse(t, from, to, q);
      }
    }
  }

  lemma MovedParentBelow(t: Tree, from: Path, to: Path, q: Path)
    requires Apart(from, to) && Rooted(t) && to != [] && Parent(to) in t && t[Parent(to)] == Dir
    requires q in MovedTree(t, from, to) && to <= q
    ensures q != [] && Parent(q) in MovedTree(t, from, to) && MovedTree(t, from, to)[Parent(q)] == Dir
  {
    MovedAt(t, from, to);
    var parent := Parent(q);
    if q == to {
      assert !(from <= parent) by {
        assert parent <= to;
      }
    } else {
      assert to <= parent;
      var r := from + q[|to|..];
      assert Parent(r) == from + parent[|to|..];
    }
  }

  lemma MovedParentElse(t: Tree, from: Path, to: Path, q: Path)
    requires Apart(from, to) && Rooted(t) && q in MovedTree(t, from, to) && !(to <= q) && q != []
    ensures Parent(q) in MovedTree(t, from, to) && MovedTree(t, from, to)[Parent(q)] == Dir
  {
    MovedAt(t, from, to);
    var parent := Parent(q);
    assert q == parent + [q[|q| - 1]];
    assert !(to <= parent) && !(from <= parent);
  }
}
