/** Putting restored world folders in place: several renames that cannot be one step, over a
    disk where each of them may fail, undone in reverse when one does. */
module Swap {
  import opened Wrappers
  import opened Files

  /** One folder to put in place, where it is staged and where it belongs. */
  datatype WorldSwap = WorldSwap(staged: Path, target: Path)

  function Aside(target: Path, stamp: string): Path {
    if target == [] then [] else Parent(target) + [Name(target[|target| - 1].text + ".bak-" + stamp)]
  }

  // --- one folder of a swap, before and now ---

  /** The folders of a swap are apart from each other. */
  ghost predicate Proper(w: WorldSwap, stamp: string) {
    && w.target != [] && Apart(w.staged, w.target)
    && Apart(w.staged, Aside(w.target, stamp)) && Apart(w.target, Aside(w.target, stamp))
  }

  ghost function PlacesOf(w: WorldSwap, stamp: string): set<Path>
  {
    {w.staged, w.target, Aside(w.target, stamp)}
  }

  ghost predicate Same(was: Tree, now: Tree, p: Path) {
    Alike(Sub(was, p), Sub(now, p))
  }

  ghost predicate Untouched(was: Tree, now: Tree, w: WorldSwap, stamp: string)
  {
    Same(was, now, w.target) && Same(was, now, w.staged) && Same(was, now, Aside(w.target, stamp))
  }

  ghost predicate InPlace(was: Tree, now: Tree, w: WorldSwap) {
    w.staged in was && Alike(Sub(now, w.target), Sub(was, w.staged))
  }

  /** Nothing is left under the aside name that was not there. */
  ghost predicate NoNewAside(was: Tree, now: Tree, w: WorldSwap, stamp: string) {
    Aside(w.target, stamp) in now ==> Aside(w.target, stamp) in was
  }

  ghost predicate Swapped(was: Tree, now: Tree, w: WorldSwap, stamp: string, hadAside: bool)
  {
    && InPlace(was, now, w) && hadAside == (w.target in was)
    && (!hadAside ==> NoNewAside(was, now, w, stamp))
    && (hadAside ==> Alike(Sub(now, Aside(w.target, stamp)), Sub(was, w.target)))
  }

  /** The tree that was at the target is there or at the aside name. */
  ghost predicate Kept(was: Tree, now: Tree, w: WorldSwap, stamp: string)
  {
    w.target in was ==> Same(was, now, w.target) || Alike(Sub(now, Aside(w.target, stamp)), Sub(was, w.target))
  }

  /** What the steps about one folder did to the disk: it differs from `at0` at that folder's
      places only, and lost nothing that had been at its target. */
  ghost predicate KeptAt(was: Tree, at0: Tree, now: Tree, w: WorldSwap, stamp: string) {
    OnlyAt(at0, now, PlacesOf(w, stamp)) && Kept(was, now, w, stamp)
  }

  /** So in every state since `n`. */
  ghost predicate KeptSince(trace: seq<Tree>, n: nat, was: Tree, at0: Tree, w: WorldSwap, stamp: string) {
    forall k | n <= k < |trace| :: KeptAt(was, at0, trace[k], w, stamp)
  }

  lemma KeptNext(trace: seq<Tree>, n: nat, was: Tree, at0: Tree, now: Tree, w: WorldSwap, stamp: string)
    requires KeptSince(trace, n, was, at0, w, stamp) && KeptAt(was, at0, now, w, stamp)
    ensures KeptSince(trace + [now], n, was, at0, w, stamp)
  {}

  /** Nothing on the disk stands in the way of one folder's renames. */
  ghost predicate Clear(was: Tree, w: WorldSwap, stamp: string) {
    w.staged in was && Aside(w.target, stamp) !in was && HasParent(was, w.target)
  }

  lemma OnlyMore(at0: Tree, at1: Tree, at2: Tree, changed: set<Path>, places: set<Path>)
    requires OnlyAt(at0, at1, places) && OnlyAt(at1, at2, changed) && changed <= places
    ensures OnlyAt(at0, at2, places)
  {
    OnlyAtMore(at1, at2, changed, places);
    OnlyAtTwice(at0, at1, at2, places);
  }

  /** The target's move aside, as the rest of the swap sees it. */
  lemma MovedAside(at0: Tree, at1: Tree, w: WorldSwap, stamp: string, r: Renamed)
    requires Proper(w, stamp) && AfterRename(at0, at1, w.target, Aside(w.target, stamp), r)
    ensures OnlyAt(at0, at1, PlacesOf(w, stamp)) && Same(at0, at1, w.staged)
    ensures HasParent(at0, w.target) ==> HasParent(at1, w.target)
  {
    if r.Moved? {
      var places := {w.target, Aside(w.target, stamp)};
      OnlyAtMore(at0, at1, places, PlacesOf(w, stamp));
      OnlyAtKeeps(at0, at1, places, w.staged);
      assert !Within(places, Parent(w.target));
      assert SameAt(at0, at1, Parent(w.target));
    }
  }

  lemma MovedIn(at1: Tree, at2: Tree, w: WorldSwap, stamp: string, r: Renamed)
    requires Proper(w, stamp) && AfterRename(at1, at2, w.staged, w.target, r)
    ensures OnlyAt(at1, at2, PlacesOf(w, stamp)) && Same(at1, at2, Aside(w.target, stamp))
  {
    if r.Moved? {
      var places := {w.staged, w.target};
      OnlyAtMore(at1, at2, places, PlacesOf(w, stamp));
      OnlyAtKeeps(at1, at2, places, Aside(w.target, stamp));
    }
  }

  lemma MovedBack(at1: Tree, at2: Tree, w: WorldSwap, stamp: string, r: Renamed)
    requires Proper(w, stamp) && AfterRename(at1, at2, Aside(w.target, stamp), w.target, r)
    ensures OnlyAt(at1, at2, PlacesOf(w, stamp))
  {
    if r.Moved? {
      OnlyAtMore(at1, at2, {Aside(w.target, stamp), w.target}, PlacesOf(w, stamp));
    }
  }

  lemma TakenOut(at1: Tree, at2: Tree, w: WorldSwap, stamp: string)
    requires Proper(w, stamp) && OnlyAt(at1, at2, {w.target}) && Rooted(at1) && w.target in at1
    ensures OnlyAt(at1, at2, PlacesOf(w, stamp)) && Same(at1, at2, Aside(w.target, stamp)) && HasParent(at2, w.target)
  {
    assert !Within({w.target}, Parent(w.target));
    assert SameAt(at1, at2, Parent(w.target));
    OnlyAtMore(at1, at2, {w.target}, PlacesOf(w, stamp));
    OnlyAtKeeps(at1, at2, {w.target}, Aside(w.target, stamp));
  }

  /** The one failure that started it left all that is needed to undo it: either it was no fault,
      or nothing on the disk stood in the way and it was the only one. */
  ghost predicate Undoable(before: nat, faults: nat, clear: bool) {
    faults == before || (clear && faults == before + 1)
  }

  /** Nothing has failed since the first rename that was refused. */
  ghost predicate QuietSince(refused0: seq<nat>, refused: seq<nat>, faults: nat) {
    refused0 <= refused && |refused| > |refused0| && faults == refused[|refused0|]
  }

  /** A rename was refused, by now. */
  ghost predicate Refused(refused0: seq<nat>, refused: seq<nat>, faults: nat) {
    refused0 <= refused && |refused| > |refused0| && refused[|refused0|] <= faults
  }

  lemma QuietThroughout(refused0: seq<nat>, refused1: seq<nat>, refused: seq<nat>, faults1: nat, faults: nat)
    requires Refused(refused0, refused1, faults1) && refused1 <= refused && faults1 <= faults
    ensures Refused(refused0, refused, faults)
    ensures QuietSince(refused0, refused, faults) ==> faults == faults1 && QuietSince(refused0, refused1, faults1)
  {}

  ghost predicate Ready(was: Tree, w: WorldSwap) {
    w.staged in was && HasParent(was, w.target)
  }

  /** Moves what is at the target aside and the staged folder in, or leaves or puts back what
      was there. */
  method SwapOne(disk: Disk, w: WorldSwap, stamp: string, ghost was: Tree) returns (ok: bool, hadAside: bool)
    requires disk.Valid() && Proper(w, stamp) && Untouched(was, disk.at, w, stamp) && Rooted(was)
    modifies disk
    ensures disk.Valid() && old(disk.trace) <= disk.trace && disk.faults >= old(disk.faults)
    ensures KeptSince(disk.trace, |old(disk.trace)|, was, old(disk.at), w, stamp)
    ensures KeptAt(was, old(disk.at), disk.at, w, stamp)
    ensures ok ==> Swapped(was, disk.at, w, stamp, hadAside) && disk.faults == old(disk.faults)
    ensures !ok && Undoable(old(disk.faults), disk.faults, Clear(old(disk.at), w, stamp)) ==>
              Same(was, disk.at, w.target)
    ensures !ok && disk.faults == old(disk.faults) ==> !Clear(old(disk.at), w, stamp)
    ensures old(disk.refused) <= disk.refused && (ok ==> disk.refused == old(disk.refused))
    ensures !ok && Ready(old(disk.at), w) ==> Refused(old(disk.refused), disk.refused, disk.faults)
    ensures !ok && Ready(old(disk.at), w) && QuietSince(old(disk.refused), disk.refused, disk.faults) ==>
              Same(was, disk.at, w.target)
  {
    ghost var at0, n := disk.at, |disk.trace|;
    var moved := MoveAside(disk, w, stamp, was);
    hadAside := moved.Moved?;
    ghost var trace1 := disk.trace;
    if moved.RenameFailed? {
      ok := false;
    } else {
      ok := MoveIn(disk, w, stamp, hadAside, was, at0, n);
    }
    Further(old(disk.trace), trace1, disk.trace);
  }

  method MoveAside(disk: Disk, w: WorldSwap, stamp: string, ghost was: Tree) returns (moved: Renamed)
    requires disk.Valid() && Proper(w, stamp) && Untouched(was, disk.at, w, stamp)
    modifies disk
    ensures disk.Valid() && old(disk.trace) <= disk.trace && disk.faults >= old(disk.faults)
    ensures KeptSince(disk.trace, |old(disk.trace)|, was, old(disk.at), w, stamp)
    ensures KeptAt(was, old(disk.at), disk.at, w, stamp)
    ensures moved.RenameFailed? ==> Same(was, disk.at, w.target)
    ensures !moved.RenameFailed? ==> Room(was, disk.at, w, stamp, moved.Moved?) && disk.faults == old(disk.faults)
    ensures Clear(old(disk.at), w, stamp) && moved.RenameFailed? ==> disk.faults > old(disk.faults)
    ensures disk.refused == old(disk.refused) + (if moved.RenameFailed? then [disk.faults] else [])
    ensures Ready(old(disk.at), w) ==> CanPlace(was, disk.at, w)
  {
    ghost var at0 := disk.at;
    moved := disk.Rename(w.target, Aside(w.target, stamp));
    AfterAside(was, at0, disk.at, w, stamp, moved);
    KeptNext(old(disk.trace), |old(disk.trace)|, was, at0, disk.at, w, stamp);
  }

  /** Room for the staged folder: what was at the target is aside, with a folder to put it back
      to, or there was nothing. */
  ghost predicate Room(was: Tree, now: Tree, w: WorldSwap, stamp: string, hadAside: bool) {
    && w.target !in now && Same(was, now, w.staged) && hadAside == (w.target in was)
    && (if hadAside then Alike(Sub(now, Aside(w.target, stamp)), Sub(was, w.target)) && HasParent(now, w.target)
        else Same(was, now, w.target) && NoNewAside(was, now, w, stamp))
  }

  ghost predicate CanPlace(was: Tree, now: Tree, w: WorldSwap) {
    w.staged in was && HasParent(now, w.target)
  }

  lemma AfterAside(was: Tree, at0: Tree, at: Tree, w: WorldSwap, stamp: string, r: Renamed)
    requires Proper(w, stamp) && Untouched(was, at0, w, stamp) && Rooted(at0)
    requires AfterRename(at0, at, w.target, Aside(w.target, stamp), r)
    ensures KeptAt(was, at0, at, w, stamp)
    ensures r.RenameFailed? ==> Same(was, at, w.target)
    ensures !r.RenameFailed? ==> Room(was, at, w, stamp, r.Moved?)
    ensures Ready(at0, w) ==> CanPlace(was, at, w)
    ensures Clear(at0, w, stamp) && r.RenameFailed? ==> Refuses(at0, w.target, Aside(w.target, stamp), r)
  {
    MovedAside(at0, at, w, stamp, r);
    assert Parent(Aside(w.target, stamp)) == Parent(w.target);
    if w.target in at0 { assert HasParent(at0, w.target); }
  }

  method MoveIn(disk: Disk, w: WorldSwap, stamp: string, hadAside: bool, ghost was: Tree, ghost at0: Tree, ghost n: nat)
    returns (ok: bool)
    requires disk.Valid() && Proper(w, stamp) && Room(was, disk.at, w, stamp, hadAside)
    requires n <= |disk.trace| && KeptSince(disk.trace, n, was, at0, w, stamp) && KeptAt(was, at0, disk.at, w, stamp)
    modifies disk
    ensures disk.Valid() && old(disk.trace) <= disk.trace && disk.faults >= old(disk.faults)
    ensures KeptSince(disk.trace, n, was, at0, w, stamp) && KeptAt(was, at0, disk.at, w, stamp)
    ensures ok ==> Swapped(was, disk.at, w, stamp, hadAside) && disk.faults == old(disk.faults)
    ensures !ok && Undoable(old(disk.faults), disk.faults, CanPlace(was, old(disk.at), w)) ==>
              Same(was, disk.at, w.target)
    ensures !ok && disk.faults == old(disk.faults) ==> !CanPlace(was, old(disk.at), w)
    ensures old(disk.refused) <= disk.refused && (ok ==> disk.refused == old(disk.refused))
    ensures !ok && CanPlace(was, old(disk.at), w) ==> Refused(old(disk.refused), disk.refused, disk.faults)
    ensures !ok && CanPlace(was, old(disk.at), w) && QuietSince(old(disk.refused), disk.refused, disk.faults) ==>
              Same(was, disk.at, w.target)
  {
    ghost var at1 := disk.at;
    var placed := disk.Rename(w.staged, w.target);
    MovedIn(at1, disk.at, w, stamp, placed);
    OnlyAtTwice(at0, at1, disk.at, PlacesOf(w, stamp));
    KeptNext(old(disk.trace), n, was, at0, disk.at, w, stamp);
    ok := placed.Moved?;
    if !ok && hadAside {
      PutItBack(disk, w, stamp, was, at0, n);
    }
  }

  /** Moves back what was moved aside, which only a fault can stop. */
  method PutItBack(disk: Disk, w: WorldSwap, stamp: string, ghost was: Tree, ghost at0: Tree, ghost n: nat)
    requires disk.Valid() && Proper(w, stamp)
    requires w.target in was && Alike(Sub(disk.at, Aside(w.target, stamp)), Sub(was, w.target))
    requires n <= |disk.trace| && KeptSince(disk.trace, n, was, at0, w, stamp) && KeptAt(was, at0, disk.at, w, stamp)
    modifies disk
    ensures disk.Valid() && old(disk.trace) <= disk.trace && disk.faults >= old(disk.faults)
    ensures KeptSince(disk.trace, n, was, at0, w, stamp) && KeptAt(was, at0, disk.at, w, stamp)
    ensures w.target !in old(disk.at) && HasParent(old(disk.at), w.target) && disk.faults == old(disk.faults) ==>
              Same(was, disk.at, w.target)
    ensures old(disk.refused) <= disk.refused
  {
    ghost var at1 := disk.at;
    var back := disk.Rename(Aside(w.target, stamp), w.target);
    MovedBack(at1, disk.at, w, stamp, back);
    OnlyAtTwice(at0, at1, disk.at, PlacesOf(w, stamp));
    KeptNext(old(disk.trace), n, was, at0, disk.at, w, stamp);
  }

  /** Takes a folder that was put in place out again and puts back what was there. */
  method UndoOne(disk: Disk, w: WorldSwap, stamp: string, hadAside: bool, ghost was: Tree)
    requires disk.Valid() && Proper(w, stamp) && Swapped(was, disk.at, w, stamp, hadAside) && Rooted(was)
    modifies disk
    ensures disk.Valid() && old(disk.trace) <= disk.trace && disk.faults >= old(disk.faults)
    ensures KeptSince(disk.trace, |old(disk.trace)|, was, old(disk.at), w, stamp)
    ensures KeptAt(was, old(disk.at), disk.at, w, stamp)
    ensures disk.faults == old(disk.faults) ==> Same(was, disk.at, w.target)
    ensures old(disk.refused) <= disk.refused
  {
    ghost var at0, n := disk.at, |disk.trace|;
    var removed := disk.RemoveAll(w.target);
    ghost var at1, trace1 := disk.at, disk.trace;
    TakenOut(at0, at1, w, stamp);
    KeptNext(old(disk.trace), n, was, at0, at1, w, stamp);
    if hadAside {
      PutItBack(disk, w, stamp, was, at0, n);
      Further(old(disk.trace), trace1, disk.trace);
    } else if removed {
      BothNothing(was, disk.at, w.target);
    }
  }

  // --- all folders of a swap ---

  ghost predicate ApartFrom(w: WorldSwap, v: WorldSwap, stamp: string) {
    forall p, q | p in PlacesOf(w, stamp) && q in PlacesOf(v, stamp) :: Apart(p, q)
  }

  /** No folder of one swap is within a folder of another. */
  ghost predicate Separate(swaps: seq<WorldSwap>, stamp: string) {
    && (forall i | 0 <= i < |swaps| :: Proper(swaps[i], stamp))
    && (forall i, j | 0 <= i < |swaps| && 0 <= j < |swaps| && i != j :: ApartFrom(swaps[i], swaps[j], stamp))
  }

  ghost function AllPlaces(swaps: seq<WorldSwap>, stamp: string): set<Path> {
    set i, p | 0 <= i < |swaps| && p in PlacesOf(swaps[i], stamp) :: p
  }

  ghost predicate AllKept(was: Tree, now: Tree, swaps: seq<WorldSwap>, stamp: string) {
    forall i | 0 <= i < |swaps| :: Kept(was, now, swaps[i], stamp)
  }

  ghost predicate NoNewAsides(was: Tree, now: Tree, swaps: seq<WorldSwap>, stamp: string) {
    forall j | 0 <= j < |swaps| :: NoNewAside(was, now, swaps[j], stamp)
  }

  ghost predicate AllInPlace(was: Tree, now: Tree, swaps: seq<WorldSwap>) {
    forall i | 0 <= i < |swaps| :: InPlace(was, now, swaps[i])
  }

  /** What holds of every state: nothing outside the swap changes, and nothing that was in
      place is lost before everything staged is in place. */
  ghost predicate Safe(was: Tree, now: Tree, swaps: seq<WorldSwap>, stamp: string) {
    && OnlyAt(was, now, AllPlaces(swaps, stamp))
    && (AllKept(was, now, swaps, stamp) || AllInPlace(was, now, swaps))
  }

  ghost predicate SafeSince(trace: seq<Tree>, n: nat, was: Tree, swaps: seq<WorldSwap>, stamp: string) {
    forall k | n <= k < |trace| :: Safe(was, trace[k], swaps, stamp)
  }

  /** Nothing outside the swap changed, and nothing that was in place is lost. */
  ghost predicate Intact(was: Tree, now: Tree, swaps: seq<WorldSwap>, stamp: string) {
    OnlyAt(was, now, AllPlaces(swaps, stamp)) && AllKept(was, now, swaps, stamp)
  }

  ghost predicate IntactSince(trace: seq<Tree>, n: nat, was: Tree, swaps: seq<WorldSwap>, stamp: string) {
    forall k | n <= k < |trace| :: Intact(was, trace[k], swaps, stamp)
  }

  lemma IntactIsSafe(trace: seq<Tree>, n: nat, was: Tree, swaps: seq<WorldSwap>, stamp: string)
    requires IntactSince(trace, n, was, swaps, stamp)
    ensures SafeSince(trace, n, was, swaps, stamp)
  {}

  /** A swap under way: all of it can still be undone. */
  ghost predicate UnderWay(trace: seq<Tree>, now: Tree, n: nat, was: Tree, swaps: seq<WorldSwap>, stamp: string) {
    && n <= |trace| && Rooted(was) && Separate(swaps, stamp)
    && IntactSince(trace, n, was, swaps, stamp) && Intact(was, now, swaps, stamp)
  }

  datatype Completed = Completed(target: Path, aside: Path, hadAside: bool)

  /** The folders of `done` are in place. */
  ghost predicate AreDone(was: Tree, now: Tree, swaps: seq<WorldSwap>, stamp: string, done: seq<Completed>) {
    && |done| <= |swaps|
    && (forall j | 0 <= j < |done| ::
        done[j].target == swaps[j].target && done[j].aside == Aside(swaps[j].target, stamp))
    && (forall j | 0 <= j < |done| :: Swapped(was, now, swaps[j], stamp, done[j].hadAside))
  }

  ghost predicate UntouchedFrom(was: Tree, now: Tree, swaps: seq<WorldSwap>, stamp: string, n: nat) {
    forall j | n <= j < |swaps| :: Untouched(was, now, swaps[j], stamp)
  }

  ghost predicate BackFrom(was: Tree, now: Tree, swaps: seq<WorldSwap>, n: nat) {
    forall j | n <= j < |swaps| :: Same(was, now, swaps[j].target)
  }

  /** Steps about one folder leave the others' state. */
  lemma OtherStays(at0: Tree, at: Tree, w: WorldSwap, v: WorldSwap, stamp: string)
    requires ApartFrom(v, w, stamp) && OnlyAt(at0, at, PlacesOf(w, stamp))
    ensures Untouched(at0, at, v, stamp)
  {
    OnlyAtKeeps(at0, at, PlacesOf(w, stamp), v.target);
    OnlyAtKeeps(at0, at, PlacesOf(w, stamp), v.staged);
    OnlyAtKeeps(at0, at, PlacesOf(w, stamp), Aside(v.target, stamp));
  }

  lemma OthersStay(at0: Tree, at: Tree, swaps: seq<WorldSwap>, stamp: string, i: nat)
    requires Separate(swaps, stamp) && i < |swaps| && OnlyAt(at0, at, PlacesOf(swaps[i], stamp))
    ensures forall j | 0 <= j < |swaps| && j != i :: Untouched(at0, at, swaps[j], stamp)
  {
    forall j | 0 <= j < |swaps| && j != i ensures Untouched(at0, at, swaps[j], stamp) {
      OtherStays(at0, at, swaps[i], swaps[j], stamp);
    }
  }

  lemma StillKept(was: Tree, at0: Tree, at: Tree, swaps: seq<WorldSwap>, stamp: string, i: nat)
    requires Separate(swaps, stamp) && i < |swaps| && KeptAt(was, at0, at, swaps[i], stamp)
    requires Intact(was, at0, swaps, stamp)
    ensures Intact(was, at, swaps, stamp)
  {
    OthersStay(at0, at, swaps, stamp, i);
    OnlyMore(was, at0, at, PlacesOf(swaps[i], stamp), AllPlaces(swaps, stamp));
    forall j | 0 <= j < |swaps| ensures Kept(was, at, swaps[j], stamp) {
      assert j != i ==> Untouched(at0, at, swaps[j], stamp);
    }
  }

  lemma StillUnderWay(trace0: seq<Tree>, at0: Tree, trace: seq<Tree>, at: Tree, n: nat, was: Tree,
                      swaps: seq<WorldSwap>, stamp: string, i: nat)
    requires UnderWay(trace0, at0, n, was, swaps, stamp) && i < |swaps| && trace0 <= trace
    requires KeptSince(trace, |trace0|, was, at0, swaps[i], stamp) && KeptAt(was, at0, at, swaps[i], stamp)
    ensures UnderWay(trace, at, n, was, swaps, stamp)
  {
    StillKept(was, at0, at, swaps, stamp, i);
    forall k | |trace0| <= k < |trace| ensures Intact(was, trace[k], swaps, stamp) {
      StillKept(was, at0, trace[k], swaps, stamp, i);
    }
    assert forall k | n <= k < |trace0| :: trace[k] == trace0[k];
  }

  /** Undoing one folder: those before it stay done. */
  lemma UndoneNext(at0: Tree, at: Tree, was: Tree, swaps: seq<WorldSwap>, stamp: string, done: seq<Completed>, i: nat)
    requires Separate(swaps, stamp) && i < |done| <= |swaps| && KeptAt(was, at0, at, swaps[i], stamp)
    requires AreDone(was, at0, swaps, stamp, done[..i + 1])
    ensures AreDone(was, at, swaps, stamp, done[..i])
    ensures BackFrom(was, at0, swaps, i + 1) ==> BackFrom(was, at, swaps, i + 1)
  {
    OthersStay(at0, at, swaps, stamp, i);
    forall j | 0 <= j < i ensures Swapped(was, at, swaps[j], stamp, done[j].hadAside) {
      assert Untouched(at0, at, swaps[j], stamp);
      assert done[..i + 1][j] == done[j];
    }
    forall j | i + 1 <= j < |swaps| && BackFrom(was, at0, swaps, i + 1) ensures Same(was, at, swaps[j].target) {
      assert Untouched(at0, at, swaps[j], stamp);
    }
    assert forall j | 0 <= j < i :: done[..i][j] == done[..i + 1][j];
  }

  lemma DoneNext(at0: Tree, at: Tree, was: Tree, swaps: seq<WorldSwap>, stamp: string, done: seq<Completed>)
    requires Separate(swaps, stamp) && |done| < |swaps| && KeptAt(was, at0, at, swaps[|done|], stamp)
    requires AreDone(was, at0, swaps, stamp, done) && UntouchedFrom(was, at0, swaps, stamp, |done|)
    ensures AreDone(was, at, swaps, stamp, done) && UntouchedFrom(was, at, swaps, stamp, |done| + 1)
    ensures BackFrom(was, at, swaps, |done| + 1)
  {
    OthersStay(at0, at, swaps, stamp, |done|);
    forall j | 0 <= j < |done| ensures Swapped(was, at, swaps[j], stamp, done[j].hadAside) {
      assert Untouched(at0, at, swaps[j], stamp);
    }
    forall j | |done| + 1 <= j < |swaps| ensures Untouched(was, at, swaps[j], stamp) {
      assert Untouched(at0, at, swaps[j], stamp);
    }
  }

  /** Puts back what is done, the last first. */
  method Rollback(disk: Disk, swaps: seq<WorldSwap>, stamp: string, done: seq<Completed>, ghost was: Tree, ghost n: nat)
    requires disk.Valid() && UnderWay(disk.trace, disk.at, n, was, swaps, stamp)
    requires AreDone(was, disk.at, swaps, stamp, done)
    modifies disk
    ensures disk.Valid() && old(disk.trace) <= disk.trace && disk.faults >= old(disk.faults)
    ensures UnderWay(disk.trace, disk.at, n, was, swaps, stamp)
    ensures disk.faults == old(disk.faults) && BackFrom(was, old(disk.at), swaps, |done|) ==>
              BackFrom(was, disk.at, swaps, 0)
    ensures old(disk.refused) <= disk.refused
  {
    ghost var at0 := disk.at;
    var k := |done|;
    assert done[..k] == done;
    while k > 0
      invariant 0 <= k <= |done| && disk.Valid() && old(disk.trace) <= disk.trace && disk.faults >= old(disk.faults)
      invariant UnderWay(disk.trace, disk.at, n, was, swaps, stamp) && AreDone(was, disk.at, swaps, stamp, done[..k])
      invariant disk.faults == old(disk.faults) && BackFrom(was, at0, swaps, |done|) ==>
                BackFrom(was, disk.at, swaps, k)
      invariant old(disk.refused) <= disk.refused
    {
      k := k - 1;
      ghost var before, trace0 := disk.at, disk.trace;
      assert done[..k + 1][k] == done[k];
      UndoOne(disk, swaps[k], stamp, done[k].hadAside, was);
      StillUnderWay(trace0, before, disk.trace, disk.at, n, was, swaps, stamp, k);
      UndoneNext(before, disk.at, was, swaps, stamp, done, k);
    }
  }

  ghost predicate AllClear(was: Tree, swaps: seq<WorldSwap>, stamp: string) {
    forall i | 0 <= i < |swaps| :: Clear(was, swaps[i], stamp)
  }

  ghost predicate AllReady(was: Tree, swaps: seq<WorldSwap>) {
    forall i | 0 <= i < |swaps| :: Ready(was, swaps[i])
  }

  /** All or nothing. Success leaves every target as it was staged. A failure leaves every target as
      it was when undoing it meets no fault of its own: whenever nothing failed, or nothing after
      the first rename that was refused, or one operation and nothing on the disk stood in the way.
      Whatever fails, in every state on the way nothing that was in place is lost. */
  method SwapWorldDirs(disk: Disk, swaps: seq<WorldSwap>, stamp: string) returns (r: Option<seq<Path>>)
    requires disk.Valid() && Separate(swaps, stamp)
    modifies disk
    ensures disk.Valid() && old(disk.trace) <= disk.trace && disk.faults >= old(disk.faults)
    ensures SafeSince(disk.trace, |old(disk.trace)|, old(disk.at), swaps, stamp)
    ensures OnlyAt(old(disk.at), disk.at, AllPlaces(swaps, stamp))
    ensures r.Some? ==> |r.value| == |swaps| && forall i | 0 <= i < |swaps| :: r.value[i] == swaps[i].target
    ensures r.Some? ==> AllInPlace(old(disk.at), disk.at, swaps)
    ensures r.Some? && disk.faults == old(disk.faults) ==> NoNewAsides(old(disk.at), disk.at, swaps, stamp)
    ensures r.None? ==> IntactSince(disk.trace, |old(disk.trace)|, old(disk.at), swaps, stamp)
    ensures r.None? ==> Intact(old(disk.at), disk.at, swaps, stamp)
    ensures r.None? && Undoable(old(disk.faults), disk.faults, AllClear(old(disk.at), swaps, stamp)) ==>
              BackFrom(old(disk.at), disk.at, swaps, 0)
    ensures r.None? && disk.faults == old(disk.faults) ==> !AllClear(old(disk.at), swaps, stamp)
    ensures old(disk.refused) <= disk.refused && (r.Some? ==> disk.refused == old(disk.refused))
    ensures r.None? && AllReady(old(disk.at), swaps) ==> Refused(old(disk.refused), disk.refused, disk.faults)
    ensures r.None? && AllReady(old(disk.at), swaps) && QuietSince(old(disk.refused), disk.refused, disk.faults) ==>
              BackFrom(old(disk.at), disk.at, swaps, 0)
  {
    ghost var was, n := disk.at, |disk.trace|;
    var done: seq<Completed>, ok: bool := MoveAllIn(disk, swaps, stamp);
    IntactIsSafe(disk.trace, n, was, swaps, stamp);
    if !ok { return None; }
    var targets := CleanUp(disk, swaps, stamp, done, was, n);
    r := Some(targets);
  }

  /** The loop over the folders, up to the point of no return. */
  method MoveAllIn(disk: Disk, swaps: seq<WorldSwap>, stamp: string) returns (done: seq<Completed>, ok: bool)
    requires disk.Valid() && Separate(swaps, stamp)
    modifies disk
    ensures disk.Valid() && old(disk.trace) <= disk.trace && disk.faults >= old(disk.faults)
    ensures UnderWay(disk.trace, disk.at, |old(disk.trace)|, old(disk.at), swaps, stamp)
    ensures ok ==> |done| == |swaps| && AreDone(old(disk.at), disk.at, swaps, stamp, done)
    ensures ok ==> disk.faults == old(disk.faults)
    ensures !ok && Undoable(old(disk.faults), disk.faults, AllClear(old(disk.at), swaps, stamp)) ==>
              BackFrom(old(disk.at), disk.at, swaps, 0)
    ensures !ok && disk.faults == old(disk.faults) ==> !AllClear(old(disk.at), swaps, stamp)
    ensures old(disk.refused) <= disk.refused && (ok ==> disk.refused == old(disk.refused))
    ensures !ok && AllReady(old(disk.at), swaps) ==> Refused(old(disk.refused), disk.refused, disk.faults)
    ensures !ok && AllReady(old(disk.at), swaps) && QuietSince(old(disk.refused), disk.refused, disk.faults) ==>
              BackFrom(old(disk.at), disk.at, swaps, 0)
  {
    ghost var was, n := disk.at, |disk.trace|;
    done := [];
    for i := 0 to |swaps|
      invariant |done| == i && disk.Valid() && old(disk.trace) <= disk.trace && disk.faults == old(disk.faults)
      invariant disk.refused == old(disk.refused)
      invariant UnderWay(disk.trace, disk.at, n, was, swaps, stamp)
      invariant AreDone(was, disk.at, swaps, stamp, done) && UntouchedFrom(was, disk.at, swaps, stamp, i)
    {
      var hadAside;
      ok, hadAside := NextOrBack(disk, swaps, stamp, done, was, n, i);
      if !ok { return; }
      OneMoreDone(was, disk.at, swaps, stamp, done, hadAside);
      done := done + [Completed(swaps[i].target, Aside(swaps[i].target, stamp), hadAside)];
    }
    ok := true;
  }

  /** The next folder of the loop, or the way back. */
  method NextOrBack(disk: Disk, swaps: seq<WorldSwap>, stamp: string, done: seq<Completed>, ghost was: Tree,
                    ghost n: nat, i: nat)
    returns (ok: bool, hadAside: bool)
    requires disk.Valid() && UnderWay(disk.trace, disk.at, n, was, swaps, stamp) && |done| == i < |swaps|
    requires AreDone(was, disk.at, swaps, stamp, done) && UntouchedFrom(was, disk.at, swaps, stamp, i)
    modifies disk
    ensures disk.Valid() && old(disk.trace) <= disk.trace && disk.faults >= old(disk.faults)
    ensures UnderWay(disk.trace, disk.at, n, was, swaps, stamp)
    ensures ok ==> AreDone(was, disk.at, swaps, stamp, done) && UntouchedFrom(was, disk.at, swaps, stamp, i + 1)
    ensures ok ==> Swapped(was, disk.at, swaps[i], stamp, hadAside) && disk.faults == old(disk.faults)
    ensures !ok && Undoable(old(disk.faults), disk.faults, Clear(was, swaps[i], stamp)) ==>
              BackFrom(was, disk.at, swaps, 0)
    ensures !ok && disk.faults == old(disk.faults) ==> !Clear(was, swaps[i], stamp)
    ensures old(disk.refused) <= disk.refused && (ok ==> disk.refused == old(disk.refused))
    ensures !ok && Ready(was, swaps[i]) ==> Refused(old(disk.refused), disk.refused, disk.faults)
    ensures !ok && Ready(was, swaps[i]) && QuietSince(old(disk.refused), disk.refused, disk.faults) ==>
              BackFrom(was, disk.at, swaps, 0)
  {
    ok, hadAside := NextIn(disk, swaps, stamp, done, was, n, i);
    if !ok {
      ghost var trace1, refused1, faults1 := disk.trace, disk.refused, disk.faults;
      Rollback(disk, swaps, stamp, done, was, n);
      Further(old(disk.trace), trace1, disk.trace);
      if Ready(was, swaps[i]) { QuietThroughout(old(disk.refused), refused1, disk.refused, faults1, disk.faults); }
    }
  }

  lemma OneMoreDone(was: Tree, now: Tree, swaps: seq<WorldSwap>, stamp: string, done: seq<Completed>, hadAside: bool)
    requires AreDone(was, now, swaps, stamp, done) && |done| < |swaps| &&
              Swapped(was, now, swaps[|done|], stamp, hadAside)
    ensures AreDone(was, now, swaps, stamp,
                    done + [Completed(swaps[|done|].target, Aside(swaps[|done|].target, stamp), hadAside)])
  {}

  /** The next folder of the loop. */
  method NextIn(disk: Disk, swaps: seq<WorldSwap>, stamp: string, ghost done: seq<Completed>, ghost was: Tree,
                ghost n: nat, i: nat)
    returns (ok: bool, hadAside: bool)
    requires disk.Valid() && UnderWay(disk.trace, disk.at, n, was, swaps, stamp) && |done| == i < |swaps|
    requires AreDone(was, disk.at, swaps, stamp, done) && UntouchedFrom(was, disk.at, swaps, stamp, i)
    modifies disk
    ensures disk.Valid() && old(disk.trace) <= disk.trace && disk.faults >= old(disk.faults)
    ensures UnderWay(disk.trace, disk.at, n, was, swaps, stamp) && AreDone(was, disk.at, swaps, stamp, done)
    ensures UntouchedFrom(was, disk.at, swaps, stamp, i + 1)
    ensures ok ==> Swapped(was, disk.at, swaps[i], stamp, hadAside) && disk.faults == old(disk.faults)
    ensures !ok && Undoable(old(disk.faults), disk.faults, Clear(was, swaps[i], stamp)) ==>
              BackFrom(was, disk.at, swaps, i)
    ensures !ok && disk.faults == old(disk.faults) ==> !Clear(was, swaps[i], stamp)
    ensures old(disk.refused) <= disk.refused && (ok ==> disk.refused == old(disk.refused))
    ensures !ok && Ready(was, swaps[i]) ==> Refused(old(disk.refused), disk.refused, disk.faults)
    ensures !ok && Ready(was, swaps[i]) && QuietSince(old(disk.refused), disk.refused, disk.faults) ==>
              BackFrom(was, disk.at, swaps, i)
  {
    ghost var before, trace0 := disk.at, disk.trace;
    ok, hadAside := SwapOne(disk, swaps[i], stamp, was);
    StillUnderWay(trace0, before, disk.trace, disk.at, n, was, swaps, stamp, i);
    DoneNext(before, disk.at, was, swaps, stamp, done);
    ClearBefore(was, before, swaps, stamp, i);
  }

  lemma ClearBefore(was: Tree, now: Tree, swaps: seq<WorldSwap>, stamp: string, i: nat)
    requires i < |swaps| && UntouchedFrom(was, now, swaps, stamp, i) && OnlyAt(was, now, AllPlaces(swaps, stamp)) &&
              Separate(swaps, stamp)
    ensures Clear(was, swaps[i], stamp) ==> Clear(now, swaps[i], stamp)
    ensures Ready(was, swaps[i]) ==> Ready(now, swaps[i])
  {
    if Ready(was, swaps[i]) {
      assert Untouched(was, now, swaps[i], stamp);
      NoneAboveATarget(swaps, stamp, i);
      assert SameAt(was, now, Parent(swaps[i].target));
    }
  }

  lemma NoneAboveATarget(swaps: seq<WorldSwap>, stamp: string, i: nat)
    requires i < |swaps| && Separate(swaps, stamp)
    ensures swaps[i].target != [] && !Within(AllPlaces(swaps, stamp), Parent(swaps[i].target))
  {
    assert Proper(swaps[i], stamp);
    forall p | p in AllPlaces(swaps, stamp) ensures !(p <= Parent(swaps[i].target)) {
      var j :| 0 <= j < |swaps| && p in PlacesOf(swaps[j], stamp);
      NotAbove(swaps[j], swaps[i], stamp, p);
    }
  }

  lemma NotAbove(w: WorldSwap, v: WorldSwap, stamp: string, p: Path)
    requires Proper(v, stamp) && (w == v || ApartFrom(w, v, stamp)) && p in PlacesOf(w, stamp)
    ensures !(p <= Parent(v.target))
  {
    assert v.target in PlacesOf(v, stamp);
    assert Parent(v.target) <= v.target && Parent(v.target) != v.target;
    assert p <= Parent(v.target) ==> p <= v.target;
    assert p == v.target || Apart(p, v.target);
  }

  /** Removes the copies moved aside, once everything is in place. */
  method CleanUp(disk: Disk, swaps: seq<WorldSwap>, stamp: string, done: seq<Completed>, ghost was: Tree, ghost n: nat)
    returns (targets: seq<Path>)
    requires disk.Valid() && Separate(swaps, stamp) && |done| == |swaps| && AreDone(was, disk.at, swaps, stamp, done)
    requires n <= |disk.trace| && SafeSince(disk.trace, n, was, swaps, stamp)
    requires OnlyAt(was, disk.at, AllPlaces(swaps, stamp))
    modifies disk`at, disk`trace, disk`faults
    ensures disk.Valid() && old(disk.trace) <= disk.trace && disk.faults >= old(disk.faults)
    ensures SafeSince(disk.trace, n, was, swaps, stamp)
    ensures OnlyAt(was, disk.at, AllPlaces(swaps, stamp)) && AllInPlace(was, disk.at, swaps)
    ensures |targets| == |swaps| && forall i | 0 <= i < |swaps| :: targets[i] == swaps[i].target
    ensures disk.faults == old(disk.faults) ==> NoNewAsides(was, disk.at, swaps, stamp)
  {
    targets := [];
    for i := 0 to |done|
      invariant disk.Valid() && old(disk.trace) <= disk.trace && disk.faults >= old(disk.faults)
      invariant SafeSince(disk.trace, n, was, swaps, stamp)
      invariant OnlyAt(was, disk.at, AllPlaces(swaps, stamp)) && AllInPlace(was, disk.at, swaps)
      invariant |targets| == i && forall j | 0 <= j < i :: targets[j] == swaps[j].target
      invariant forall j | 0 <= j < |swaps| && (!done[j].hadAside || (j < i && disk.faults == old(disk.faults))) ::
                NoNewAside(was, disk.at, swaps[j], stamp)
    {
      if done[i].hadAside {
        DropAside(disk, swaps, stamp, i, was, n);
      }
      targets := targets + [done[i].target];
    }
  }

  method DropAside(disk: Disk, swaps: seq<WorldSwap>, stamp: string, i: nat, ghost was: Tree, ghost n: nat)
    requires disk.Valid() && Separate(swaps, stamp) && i < |swaps|
    requires n <= |disk.trace| && SafeSince(disk.trace, n, was, swaps, stamp)
    requires OnlyAt(was, disk.at, AllPlaces(swaps, stamp)) && AllInPlace(was, disk.at, swaps)
    modifies disk`at, disk`trace, disk`faults
    ensures disk.Valid() && old(disk.trace) <= disk.trace && disk.faults >= old(disk.faults)
    ensures SafeSince(disk.trace, n, was, swaps, stamp)
    ensures OnlyAt(was, disk.at, AllPlaces(swaps, stamp)) && AllInPlace(was, disk.at, swaps)
    ensures disk.faults == old(disk.faults) ==> Aside(swaps[i].target, stamp) !in disk.at
    ensures forall j | 0 <= j < |swaps| && j != i :: Same(old(disk.at), disk.at, Aside(swaps[j].target, stamp))
  {
    ghost var before, trace0 := disk.at, disk.trace;
    assert Proper(swaps[i], stamp);
    var removed := disk.RemoveAll(Aside(swaps[i].target, stamp));
    AsideIsNoTarget(was, before, disk.at, swaps, stamp, i);
    SafeNext(trace0, n, was, disk.at, swaps, stamp);
  }

  lemma SafeNext(trace: seq<Tree>, n: nat, was: Tree, now: Tree, swaps: seq<WorldSwap>, stamp: string)
    requires SafeSince(trace, n, was, swaps, stamp) && OnlyAt(was, now, AllPlaces(swaps, stamp)) &&
              AllInPlace(was, now, swaps)
    ensures SafeSince(trace + [now], n, was, swaps, stamp)
  {}

  lemma AsideIsNoTarget(was: Tree, at0: Tree, at: Tree, swaps: seq<WorldSwap>, stamp: string, i: nat)
    requires Separate(swaps, stamp) && i < |swaps| && OnlyAt(at0, at, {Aside(swaps[i].target, stamp)})
    requires AllInPlace(was, at0, swaps) && OnlyAt(was, at0, AllPlaces(swaps, stamp))
    ensures AllInPlace(was, at, swaps) && OnlyAt(was, at, AllPlaces(swaps, stamp))
    ensures forall j | 0 <= j < |swaps| && j != i :: Same(at0, at, Aside(swaps[j].target, stamp))
  {
    var aside := Aside(swaps[i].target, stamp);
    OnlyAtMore(at0, at, {aside}, PlacesOf(swaps[i], stamp));
    OthersStay(at0, at, swaps, stamp, i);
    OnlyMore(was, at0, at, PlacesOf(swaps[i], stamp), AllPlaces(swaps, stamp));
    OnlyAtKeeps(at0, at, {aside}, swaps[i].target);
    forall j | 0 <= j < |swaps| ensures InPlace(was, at, swaps[j]) {
      assert InPlace(was, at0, swaps[j]);
      assert j != i ==> Untouched(at0, at, swaps[j], stamp);
    }
  }
}
