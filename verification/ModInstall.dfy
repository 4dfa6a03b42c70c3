/** Installing a mod over the copies it replaces: files renamed in a folder and a manifest on
    disk, either of which may fail at any step. */
module ModInstall {
  import opened Wrappers

  datatype Folder = Mods | Plugins

  /** A file name by its parts: the jar's own name, whether ".disabled" follows and whether
      ".superseded" does. Only names without the last are read by a server or a scan. */
  datatype FileName = FileName(base: nat, disabled: bool, superseded: bool)

  datatype Place = Place(folder: Folder, name: FileName)

  /** A jar's bytes, by number. */
  type Jar = nat

  /** An id that is absent is 0. Mod ids are compared without regard to case, so equal here. */
  type Id = nat
  const NO_ID: Id := 0

  /** A row of the manifest. A folder of none is an old row's. */
  datatype Item = Item(base: nat, disabled: bool, project: Id, version: Id, mod: Id, folder: Option<Folder>,
                       enabled: bool)

  /** Which mod a new jar is. */
  datatype Identity = Identity(project: Id, mod: Id)

  function At(folder: Folder, base: nat, disabled: bool): Place {
    Place(folder, FileName(base, disabled, false))
  }

  function AsideOf(p: Place): Place {
    p.(name := p.name.(superseded := true))
  }

  function OwnName(p: Place): Place {
    p.(name := p.name.(superseded := false))
  }

  /** What a crash would leave. */
  datatype Moment = Moment(at: map<Place, Jar>, saved: seq<Item>)

  /** The two folders and the manifest on disk. `trace` is every state they were in, `faults` counts
      what failed. */
  class Server {
    var at: map<Place, Jar>
    var saved: seq<Item>
    ghost var trace: seq<Moment>
    ghost var faults: nat

    constructor (at: map<Place, Jar>, saved: seq<Item>)
      ensures this.at == at && this.saved == saved && trace == [Moment(at, saved)] && faults == 0
    {
      this.at, this.saved, trace, faults := at, saved, [Moment(at, saved)], 0;
    }

    /** os.Rename of a file, over whatever has the new name. */
    method Rename(from: Place, to: Place) returns (ok: bool)
      modifies this
      ensures saved == old(saved) && faults >= old(faults) && trace == old(trace) + [Moment(at, saved)]
      ensures ok ==> from in old(at) && at == (old(at) - {from})[to := old(at)[from]]
      ensures !ok ==> at == old(at) && (from in at ==> faults > old(faults))
    {
      var fails: bool := *;
      if fails { faults := faults + 1; }
      ok := !fails && from in at;
      if ok { at := (at - {from})[to := at[from]]; }
      trace := trace + [Moment(at, saved)];
    }

    /** A verified download, renamed over the name in one step. */
    method Download(p: Place, jar: Jar) returns (ok: bool)
      modifies this
      ensures saved == old(saved) && faults >= old(faults) && trace == old(trace) + [Moment(at, saved)]
      ensures if ok then at == old(at)[p := jar] else at == old(at) && faults > old(faults)
    {
      var fails: bool := *;
      if fails { faults := faults + 1; }
      ok := !fails;
      if ok { at := at[p := jar]; }
      trace := trace + [Moment(at, saved)];
    }

    /** os.Remove. */
    method Remove(p: Place) returns (ok: bool)
      modifies this
      ensures saved == old(saved) && faults >= old(faults) && trace == old(trace) + [Moment(at, saved)]
      ensures ok ==> at == old(at) - {p}
      ensures !ok ==> at == old(at) && faults > old(faults)
    {
      var fails: bool := *;
      if fails { faults := faults + 1; }
      ok := !fails;
      if ok { at := at - {p}; }
      trace := trace + [Moment(at, saved)];
    }

    /** saveManifest: written beside and renamed, so the old one stays until the new is there. */
    method SaveManifest(items: seq<Item>) returns (ok: bool)
      modifies this
      ensures at == old(at) && faults >= old(faults) && trace == old(trace) + [Moment(at, saved)]
      ensures if ok then saved == items else saved == old(saved) && faults > old(faults)
    {
      var fails: bool := *;
      if fails { faults := faults + 1; }
      ok := !fails;
      if ok { saved := items; }
      trace := trace + [Moment(at, saved)];
    }
  }

  // --- what is replaced ---

  /** findJarFolder: mods is looked at first. */
  function FindJarFolder(at: map<Place, Jar>, base: nat): Option<Folder> {
    if At(Mods, base, false) in at || At(Mods, base, true) in at then Some(Mods)
    else if At(Plugins, base, false) in at || At(Plugins, base, true) in at then Some(Plugins)
    else None
  }

  /** A row of the same mod, for this folder, under another name. */
  predicate SameMod(it: Item, folder: Folder, base: nat, who: Identity) {
    && it.base != base && (it.folder.None? || it.folder.value == folder)
    && ((who.project != NO_ID && it.project == who.project && it.version != NO_ID) ||
        (who.mod != NO_ID && it.mod == who.mod))
  }

  ghost predicate SameModBase(items: seq<Item>, b: nat, folder: Folder, base: nat, who: Identity) {
    exists it :: it in items && it.base == b && SameMod(it, folder, base, who)
  }

  /** The places a new jar takes the mod over from: its own name switched off, and both names of
      every copy of the mod that its row leads to. */
  ghost predicate Replaced(p: Place, at: map<Place, Jar>, items: seq<Item>, folder: Folder, base: nat, who: Identity) {
    && p in at && p.folder == folder && !p.name.superseded
    && if p.name.base == base then p.name.disabled
       else SameModBase(items, p.name.base, folder, base, who) && FindJarFolder(at, p.name.base) == Some(folder)
  }

  /** The rows that go: those of the copies replaced, and those that had outlived their file. */
  ghost predicate RowGoes(b: nat, at: map<Place, Jar>, items: seq<Item>, folder: Folder, base: nat, who: Identity) {
    if b == base then At(folder, base, true) in at
    else
      && SameModBase(items, b, folder, base, who)
      && (FindJarFolder(at, b) == Some(folder) || FindJarFolder(at, b).None?)
  }

  /** removeByBase, for any number of jars. */
  function Without(items: seq<Item>, gone: set<nat>): (rest: seq<Item>)
    ensures forall it :: it in rest <==> it in items && it.base !in gone
  {
    if items == [] then []
    else (if items[0].base in gone then [] else [items[0]]) + Without(items[1..], gone)
  }

  lemma {:induction false} WithoutMore(items: seq<Item>, gone: set<nat>, b: nat)
    ensures Without(Without(items, gone), {b}) == Without(items, gone + {b})
  {
    if items != [] {
      WithoutMore(items[1..], gone, b);
      var rest := Without(items[1..], gone);
      assert items[0].base !in gone ==> ([items[0]] + rest)[1..] == rest;
      assert [] + rest == rest;
    }
  }

  /** upsert. */
  function Upsert(items: seq<Item>, item: Item): (r: seq<Item>)
    ensures item in r
    ensures forall it | it in r :: it == item || it in items
    ensures forall it | it in items && (it.base != item.base || it.disabled != item.disabled) :: it in r
  {
    if items == [] then [item]
    else if items[0].base == item.base && items[0].disabled == item.disabled then [item] + items[1..]
    else [items[0]] + Upsert(items[1..], item)
  }

  /** With at most one row of a file in one state before, there is exactly one after, the new one,
      and the rows of every other file or state stay as they were, in their order. */
  lemma {:induction false} UpsertReplaces(items: seq<Item>, item: Item)
    requires forall i, j | 0 <= i < j < |items| && items[i].base == item.base && items[i].disabled == item.disabled ::
               !(items[j].base == item.base && items[j].disabled == item.disabled)
    ensures forall it | it in Upsert(items, item) && it.base == item.base && it.disabled == item.disabled :: it == item
    ensures |Upsert(items, item)| ==
              |items| + if exists it :: it in items && it.base == item.base && it.disabled == item.disabled then 0
                else 1
    ensures forall i | 0 <= i < |items| ::
              Upsert(items, item)[i] ==
              if items[i].base == item.base && items[i].disabled == item.disabled then item else items[i]
  {
    if items != [] {
      if items[0].base == item.base && items[0].disabled == item.disabled {
        assert forall j | 1 <= j < |items| :: !(items[j].base == item.base && items[j].disabled == item.disabled);
      } else {
        UpsertReplaces(items[1..], item);
        assert items == [items[0]] + items[1..];
      }
    }
  }

  // --- moving aside and back ---

  ghost predicate SamePlace(was: map<Place, Jar>, now: map<Place, Jar>, p: Place) {
    (p in was <==> p in now) && (p in was ==> was[p] == now[p])
  }

  ghost predicate Distinct(aside: seq<Place>) {
    forall i, j | 0 <= i < j < |aside| :: aside[i] != aside[j]
  }

  ghost predicate IsAside(was: map<Place, Jar>, now: map<Place, Jar>, o: Place) {
    && o in was && !o.name.superseded && o !in now
    && AsideOf(o) in now && now[AsideOf(o)] == was[o]
  }

  /** Some files were moved aside, and nothing else happened: no file a server or a scan would
      read changed but these, and no copy left behind by an earlier crash but under their
      aside names. */
  ghost predicate MovedAside(was: map<Place, Jar>, now: map<Place, Jar>, aside: seq<Place>) {
    && Distinct(aside) && (forall o | o in aside :: IsAside(was, now, o))
    && (forall p: Place | !p.name.superseded && p !in aside :: SamePlace(was, now, p))
    && (forall p: Place | p.name.superseded && OwnName(p) !in aside :: SamePlace(was, now, p))
  }

  lemma OneMoreAside(was: map<Place, Jar>, now: map<Place, Jar>, next: map<Place, Jar>, aside: seq<Place>, p: Place)
    requires MovedAside(was, now, aside) && p in now && !p.name.superseded
    requires next == (now - {p})[AsideOf(p) := now[p]]
    ensures MovedAside(was, next, aside + [p])
  {
    assert p !in aside;
    forall o | o in aside + [p] ensures IsAside(was, next, o) {
      if o in aside { assert AsideOf(o) != AsideOf(p) && AsideOf(o) != p; }
    }
    assert OwnName(AsideOf(p)) == p;
    assert forall q: Place | q.name.superseded && OwnName(q) != p :: q != AsideOf(p);
  }

  // --- nothing is lost ---

  /** A file is under its own name or under its aside name. */
  ghost predicate NotLost(was: map<Place, Jar>, now: map<Place, Jar>, o: Place) {
    o in was && ((o in now && now[o] == was[o]) || (AsideOf(o) in now && now[AsideOf(o)] == was[o]))
  }

  /** No file that a server or a scan reads is lost, but for some names. */
  ghost predicate NoneLost(was: map<Place, Jar>, now: map<Place, Jar>, but: set<Place>) {
    forall o | o in was && !o.name.superseded && o !in but :: NotLost(was, now, o)
  }

  /** Nor would be by a crash in any state since `n`, and the manifest is the old one. */
  ghost predicate NoneLostSince(trace: seq<Moment>, n: nat, was: map<Place, Jar>, saved: seq<Item>, but: set<Place>) {
    forall k | n <= k < |trace| :: trace[k].saved == saved && NoneLost(was, trace[k].at, but)
  }

  lemma AsideIsNotLost(was: map<Place, Jar>, now: map<Place, Jar>, aside: seq<Place>)
    requires MovedAside(was, now, aside)
    ensures NoneLost(was, now, {})
  {
    forall o | o in was && !o.name.superseded ensures NotLost(was, now, o) {
      assert if o in aside then IsAside(was, now, o) else SamePlace(was, now, o);
    }
  }

  lemma SinceBoth(trace1: seq<Moment>, trace: seq<Moment>, n: nat, was: map<Place, Jar>, saved: seq<Item>,
                  but: set<Place>, more: set<Place>)
    requires trace1 <= trace && but <= more
    requires NoneLostSince(trace1, n, was, saved, but) && NoneLostSince(trace, |trace1|, was, saved, more)
    ensures NoneLostSince(trace, n, was, saved, more)
  {
    forall k | n <= k < |trace| ensures trace[k].saved == saved && NoneLost(was, trace[k].at, more) {
      if k < |trace1| { assert trace[k] == trace1[k]; }
    }
  }

  lemma PrefixOf(a: seq<Moment>, b: seq<Moment>, c: seq<Moment>)
    requires a <= b <= c
    ensures a <= c
  {}

  method MoveAside(s: Server, p: Place, aside0: seq<Place>, ghost was: map<Place, Jar>)
    returns (ok: bool, aside: seq<Place>)
    requires MovedAside(was, s.at, aside0) && p in s.at && !p.name.superseded
    modifies s
    ensures s.saved == old(s.saved) && s.faults >= old(s.faults) && old(s.trace) <= s.trace
    ensures NoneLostSince(s.trace, |old(s.trace)|, was, s.saved, {})
    ensures MovedAside(was, s.at, aside) && aside == if ok then aside0 + [p] else aside0
    ensures !ok ==> s.faults > old(s.faults)
  {
    aside := aside0;
    ghost var now := s.at;
    ok := s.Rename(p, AsideOf(p));
    if ok {
      OneMoreAside(was, now, s.at, aside, p);
      aside := aside + [p];
    }
    AsideIsNotLost(was, s.at, aside);
  }

  // --- undoing ---

  ghost predicate SameLoaded(was: map<Place, Jar>, now: map<Place, Jar>) {
    forall p: Place | !p.name.superseded :: SamePlace(was, now, p)
  }

  /** Nothing a server or a scan reads changed, but for some names. */
  ghost predicate SameBut(was: map<Place, Jar>, now: map<Place, Jar>, but: set<Place>) {
    forall p: Place | !p.name.superseded && p !in but :: SamePlace(was, now, p)
  }

  /** Every copy is under its aside name, whatever is under its own, and everything else is as it
      was, but for some names. */
  ghost predicate HeldAside(was: map<Place, Jar>, now: map<Place, Jar>, aside: seq<Place>, but: set<Place>) {
    && Distinct(aside)
    && (forall o | o in aside :: o in was && !o.name.superseded && AsideOf(o) in now && now[AsideOf(o)] == was[o])
    && (forall p: Place | !p.name.superseded && p !in aside && p !in but :: SamePlace(was, now, p))
  }

  lemma HeldIsNotLost(was: map<Place, Jar>, now: map<Place, Jar>, aside: seq<Place>, but: set<Place>)
    requires HeldAside(was, now, aside, but)
    ensures NoneLost(was, now, but)
  {
    forall o | o in was && !o.name.superseded && o !in but ensures NotLost(was, now, o) {
      assert o !in aside ==> SamePlace(was, now, o);
    }
  }

  /** The first k copies are back, or at least not lost; the others are still aside. */
  ghost predicate PutBackSome(was: map<Place, Jar>, now: map<Place, Jar>, aside: seq<Place>, k: nat, but: set<Place>,
                              whole: bool) {
    && (forall o | o in aside :: o in was && !o.name.superseded)
    && (forall j | k <= j < |aside| :: AsideOf(aside[j]) in now && now[AsideOf(aside[j])] == was[aside[j]])
    && (forall j | 0 <= j < k && j < |aside| :: NotLost(was, now, aside[j]))
    && (whole ==> forall j | 0 <= j < k && j < |aside| :: SamePlace(was, now, aside[j]))
    && (forall p: Place | !p.name.superseded && p !in aside && p !in but :: SamePlace(was, now, p))
  }

  lemma OneMoreBack(was: map<Place, Jar>, at: map<Place, Jar>, now: map<Place, Jar>, aside: seq<Place>, k: nat,
                    but: set<Place>, whole: bool, ok: bool)
    requires Distinct(aside) && k < |aside|
    requires PutBackSome(was, at, aside, k, but, whole)
    requires if ok then now == (at - {AsideOf(aside[k])})[aside[k] := was[aside[k]]] else now == at
    ensures PutBackSome(was, now, aside, k + 1, but, whole && ok)
    ensures forall p: Place | !p.name.superseded && p !in aside :: SamePlace(at, now, p)
  {
    assert aside[k] in aside;
    forall j | 0 <= j < |aside| && j != k ensures AsideOf(aside[j]) != AsideOf(aside[k]) && aside[j] != aside[k] {
      assert aside[j] in aside;
      assert OwnName(AsideOf(aside[j])) == aside[j] && OwnName(AsideOf(aside[k])) == aside[k];
    }
  }

  lemma AllBack(was: map<Place, Jar>, now: map<Place, Jar>, aside: seq<Place>, k: nat, but: set<Place>, whole: bool)
    requires PutBackSome(was, now, aside, k, but, whole) && k <= |aside|
    ensures NoneLost(was, now, but)
    ensures whole && k == |aside| ==> SameBut(was, now, but)
  {
    forall o | o in was && !o.name.superseded && o !in but ensures NotLost(was, now, o) {
      if o in aside {
        var j :| 0 <= j < |aside| && aside[j] == o;
      } else {
        assert SamePlace(was, now, o);
      }
    }
    if whole && k == |aside| {
      forall p: Place | !p.name.superseded && p !in but ensures SamePlace(was, now, p) {
        if p in aside {
          var j :| 0 <= j < |aside| && aside[j] == p;
        }
      }
    }
  }

  /** restoreSuperseded: each copy back under its own name, whatever became of the others. */
  method RestoreSuperseded(s: Server, aside: seq<Place>, ghost was: map<Place, Jar>, ghost but: set<Place>)
    requires HeldAside(was, s.at, aside, but)
    modifies s
    ensures s.saved == old(s.saved) && s.faults >= old(s.faults) && old(s.trace) <= s.trace
    ensures NoneLostSince(s.trace, |old(s.trace)|, was, s.saved, but) && NoneLost(was, s.at, but)
    ensures s.faults == old(s.faults) ==> SameBut(was, s.at, but)
    ensures forall p: Place | !p.name.superseded && p !in aside :: SamePlace(old(s.at), s.at, p)
  {
    AllBack(was, s.at, aside, 0, but, true);
    for k := 0 to |aside|
      invariant s.saved == old(s.saved) && s.faults >= old(s.faults) && old(s.trace) <= s.trace
      invariant NoneLostSince(s.trace, |old(s.trace)|, was, s.saved, but)
      invariant PutBackSome(was, s.at, aside, k, but, s.faults == old(s.faults))
      invariant forall p: Place | !p.name.superseded && p !in aside :: SamePlace(old(s.at), s.at, p)
    {
      ghost var at, trace1, faults := s.at, s.trace, s.faults;
      var ok := s.Rename(AsideOf(aside[k]), aside[k]);
      OneMoreBack(was, at, s.at, aside, k, but, faults == old(s.faults), ok);
      AllBack(was, s.at, aside, k + 1, but, s.faults == old(s.faults));
      SinceBoth(trace1, s.trace, |old(s.trace)|, was, s.saved, but, but);
    }
    AllBack(was, s.at, aside, |aside|, but, s.faults == old(s.faults));
  }

  /** discardSuperseded: no name that is read by a server or a scan is touched. */
  method DiscardSuperseded(s: Server, aside: seq<Place>)
    modifies s
    ensures s.saved == old(s.saved) && SameLoaded(old(s.at), s.at) && s.faults >= old(s.faults) &&
              old(s.trace) <= s.trace
    ensures forall k | |old(s.trace)| <= k < |s.trace| ::
              s.trace[k].saved == s.saved && SameLoaded(old(s.at), s.trace[k].at)
    ensures s.faults == old(s.faults) ==> forall o | o in aside :: AsideOf(o) !in s.at
    ensures s.at.Keys <= old(s.at).Keys
  {
    for k := 0 to |aside|
      invariant s.saved == old(s.saved) && SameLoaded(old(s.at), s.at) && s.faults >= old(s.faults) &&
                old(s.trace) <= s.trace
      invariant forall i | |old(s.trace)| <= i < |s.trace| ::
                s.trace[i].saved == s.saved && SameLoaded(old(s.at), s.trace[i].at)
      invariant s.faults == old(s.faults) ==> forall j | 0 <= j < k :: AsideOf(aside[j]) !in s.at
      invariant s.at.Keys <= old(s.at).Keys
    {
      var ok := s.Remove(AsideOf(aside[k]));
    }
  }

  /** No copy is left aside but those in a list, and those of an earlier crash. */
  ghost predicate AsideOnly(was: map<Place, Jar>, now: map<Place, Jar>, aside: seq<Place>) {
    forall p: Place | p.name.superseded && p in now :: p in was || OwnName(p) in aside
  }

  lemma AllDiscarded(was: map<Place, Jar>, at: map<Place, Jar>, now: map<Place, Jar>, aside: seq<Place>)
    requires AsideOnly(was, at, aside) && now.Keys <= at.Keys && forall o | o in aside :: AsideOf(o) !in now
    ensures AsideOnly(was, now, [])
  {
    forall p: Place | p.name.superseded && p in now ensures p in was {
      assert AsideOf(OwnName(p)) == p;
    }
  }

  // --- taking the replaced copies out ---

  /** The copies replaced on account of some of the rows. */
  ghost predicate AsideFor(aside: seq<Place>, was: map<Place, Jar>, items: seq<Item>, folder: Folder, base: nat,
                           who: Identity) {
    forall p :: p in aside <==> Replaced(p, was, items, folder, base, who)
  }

  ghost predicate GoneFor(gone: set<nat>, was: map<Place, Jar>, items: seq<Item>, folder: Folder, base: nat,
                          who: Identity) {
    forall b :: b in gone <==> RowGoes(b, was, items, folder, base, who)
  }

  ghost predicate Saw(aside: seq<Place>, sawEnabled: bool, sawDisabled: bool) {
    && (sawEnabled <==> exists o :: o in aside && !o.name.disabled)
    && (sawDisabled <==> exists o :: o in aside && o.name.disabled)
  }

  method SandboxCheck(s: Server) returns (ok: bool)
    modifies s`faults
    ensures s.faults >= old(s.faults) && (!ok ==> s.faults > old(s.faults))
  {
    var fails: bool := *;
    ok := !fails;
    if fails { s.faults := s.faults + 1; }
  }

  /** The inner remove: both names of one jar, those that are there. */
  method RemoveJar(s: Server, folder: Folder, b: nat, aside0: seq<Place>, sawEnabled0: bool, sawDisabled0: bool,
                   ghost was: map<Place, Jar>)
    returns (ok: bool, aside: seq<Place>, sawEnabled: bool, sawDisabled: bool)
    requires MovedAside(was, s.at, aside0) && Saw(aside0, sawEnabled0, sawDisabled0)
    modifies s
    ensures s.saved == old(s.saved) && s.faults >= old(s.faults) && MovedAside(was, s.at, aside)
    ensures old(s.trace) <= s.trace && NoneLostSince(s.trace, |old(s.trace)|, was, s.saved, {})
    ensures !ok ==> s.faults > old(s.faults)
    ensures ok ==> Saw(aside, sawEnabled, sawDisabled)
    ensures ok ==>
              forall p :: p in aside <==>
              p in aside0 || (p in was && (p == At(folder, b, false) || p == At(folder, b, true)))
  {
    ok, aside, sawEnabled, sawDisabled := true, aside0, sawEnabled0, sawDisabled0;
    for k := 0 to 2
      invariant ok && s.saved == old(s.saved) && s.faults >= old(s.faults) && MovedAside(was, s.at, aside)
      invariant old(s.trace) <= s.trace && NoneLostSince(s.trace, |old(s.trace)|, was, s.saved, {})
      invariant Saw(aside, sawEnabled, sawDisabled)
      invariant forall p :: p in aside <==>
                p in aside0 ||
                (p in was && ((k >= 1 && p == At(folder, b, false)) || (k >= 2 && p == At(folder, b, true))))
    {
      var p := At(folder, b, k == 1);
      ok := SandboxCheck(s);
      if !ok { return; }
      if p !in s.at {
        assert SamePlace(was, s.at, p) || p in aside;
        continue;
      }
      ghost var aside1, trace1 := aside, s.trace;
      ok, aside := MoveAside(s, p, aside, was);
      SinceBoth(trace1, s.trace, |old(s.trace)|, was, s.saved, {}, {});
      if !ok { return; }
      if k == 1 { sawDisabled := true; } else { sawEnabled := true; }
      assert forall q :: q in aside <==> q in aside1 || q == p;
    }
  }

  lemma RowsNext(rows: seq<Item>, i: nat, folder: Folder, base: nat, who: Identity)
    requires i < |rows|
    ensures forall b :: SameModBase(rows[..i + 1], b, folder, base, who) <==>
              SameModBase(rows[..i], b, folder, base, who) || (SameMod(rows[i], folder, base, who) && rows[i].base == b)
  {
    assert rows[..i + 1] == rows[..i] + [rows[i]];
    forall b ensures SameModBase(rows[..i + 1], b, folder, base, who) <==>
                       SameModBase(rows[..i], b, folder, base, who) ||
                         (SameMod(rows[i], folder, base, who) && rows[i].base == b)
    {
      if SameMod(rows[i], folder, base, who) && rows[i].base == b { assert rows[i] in rows[..i + 1]; }
    }
  }

  /** Where a jar is found once the copies for some rows are aside: where it was, unless it was
      one of them, and then not in this folder. */
  lemma FoundAfter(was: map<Place, Jar>, now: map<Place, Jar>, aside: seq<Place>, rows: seq<Item>, folder: Folder,
                   base: nat, who: Identity, b: nat)
    requires MovedAside(was, now, aside) && AsideFor(aside, was, rows, folder, base, who) && b != base
    ensures if SameModBase(rows, b, folder, base, who) && FindJarFolder(was, b) == Some(folder)
            then FindJarFolder(now, b) != Some(folder)
            else FindJarFolder(now, b) == FindJarFolder(was, b)
  {
    forall f, d
      ensures At(f, b, d) in now <==> At(f, b, d) in was && !Replaced(At(f, b, d), was, rows, folder, base, who)
    {
      assert At(f, b, d) in aside ==> IsAside(was, now, At(f, b, d));
      assert At(f, b, d) !in aside ==> SamePlace(was, now, At(f, b, d));
    }
  }

  /** What one row adds to the copies moved aside and to the rows dropped. */
  lemma RowDone(was: map<Place, Jar>, aside0: seq<Place>, aside: seq<Place>, gone0: set<nat>, gone: set<nat>,
                rows: seq<Item>, i: nat, folder: Folder, base: nat, who: Identity)
    requires i < |rows| && AsideFor(aside0, was, rows[..i], folder, base, who) &&
              GoneFor(gone0, was, rows[..i], folder, base, who)
    requires var b, found := rows[i].base, FindJarFolder(was, rows[i].base);
             if SameMod(rows[i], folder, base, who) && found == Some(folder)
             then forall p :: p in aside <==>
               p in aside0 || (p in was && (p == At(folder, b, false) || p == At(folder, b, true)))
             else forall p :: p in aside <==> p in aside0
    requires var b, found := rows[i].base, FindJarFolder(was, rows[i].base);
             gone == gone0 + if SameMod(rows[i], folder, base, who) && (found == Some(folder) || found.None?) then {b}
               else {}
    ensures AsideFor(aside, was, rows[..i + 1], folder, base, who) &&
              GoneFor(gone, was, rows[..i + 1], folder, base, who)
  {
    RowsNext(rows, i, folder, base, who);
  }

  /** One row of the manifest: its jar is moved aside, its row dropped, or neither. */
  method ReplaceRow(s: Server, rows: seq<Item>, i: nat, items0: seq<Item>, folder: Folder, base: nat, who: Identity,
                    aside0: seq<Place>, sawEnabled0: bool, sawDisabled0: bool, ghost was: map<Place, Jar>,
                      ghost all: seq<Item>, ghost gone0: set<nat>)
    returns (ok: bool, items: seq<Item>, aside: seq<Place>, sawEnabled: bool, sawDisabled: bool, ghost gone: set<nat>)
    requires i < |rows| && MovedAside(was, s.at, aside0) && Saw(aside0, sawEnabled0, sawDisabled0)
    requires AsideFor(aside0, was, rows[..i], folder, base, who) && GoneFor(gone0, was, rows[..i], folder, base, who)
    requires items0 == Without(all, gone0)
    modifies s
    ensures s.saved == old(s.saved) && s.faults >= old(s.faults) && MovedAside(was, s.at, aside)
    ensures old(s.trace) <= s.trace && NoneLostSince(s.trace, |old(s.trace)|, was, s.saved, {})
    ensures !ok ==> s.faults > old(s.faults)
    ensures ok ==> Saw(aside, sawEnabled, sawDisabled) && items == Without(all, gone)
    ensures ok ==>
              AsideFor(aside, was, rows[..i + 1], folder, base, who) &&
              GoneFor(gone, was, rows[..i + 1], folder, base, who)
  {
    ok, items, aside, sawEnabled, sawDisabled, gone := true, items0, aside0, sawEnabled0, sawDisabled0, gone0;
    var it := rows[i];
    if !SameMod(it, folder, base, who) {
      RowDone(was, aside, aside, gone, gone, rows, i, folder, base, who);
      return;
    }
    FoundAfter(was, s.at, aside, rows[..i], folder, base, who, it.base);
    var found := FindJarFolder(s.at, it.base);
    AlreadyAside(was, aside, gone, rows, i, folder, base, who);
    if found.Some? && found.value != folder {
      RowDone(was, aside, aside, gone, gone, rows, i, folder, base, who);
      return;
    }
    if found.Some? {
      ok, aside, sawEnabled, sawDisabled := RemoveJar(s, folder, it.base, aside, sawEnabled, sawDisabled, was);
      if !ok { return; }
    }
    WithoutMore(all, gone, it.base);
    items, gone := Without(items, {it.base}), gone + {it.base};
    RowDone(was, aside0, aside, gone0, gone, rows, i, folder, base, who);
  }

  /** A second row of a jar that is aside adds nothing. */
  lemma AlreadyAside(was: map<Place, Jar>, aside: seq<Place>, gone: set<nat>, rows: seq<Item>, i: nat, folder: Folder,
                     base: nat, who: Identity)
    requires i < |rows| && AsideFor(aside, was, rows[..i], folder, base, who) &&
              GoneFor(gone, was, rows[..i], folder, base, who)
    requires SameMod(rows[i], folder, base, who)
    ensures SameModBase(rows[..i], rows[i].base, folder, base, who) &&
              FindJarFolder(was, rows[i].base) == Some(folder) ==>
              && rows[i].base in gone
              && forall d | At(folder, rows[i].base, d) in was :: At(folder, rows[i].base, d) in aside
  {}

  /** removeSuperseded: what it moves aside is what is to be replaced, and the rows it drops are
      theirs and those that had outlived their file. */
  method RemoveSuperseded(s: Server, all: seq<Item>, folder: Folder, base: nat, who: Identity)
    returns (ok: bool, wasDisabled: bool, items: seq<Item>, aside: seq<Place>, ghost gone: set<nat>)
    modifies s
    ensures s.saved == old(s.saved) && s.faults >= old(s.faults) && MovedAside(old(s.at), s.at, aside)
    ensures old(s.trace) <= s.trace && NoneLostSince(s.trace, |old(s.trace)|, old(s.at), s.saved, {})
    ensures !ok ==> s.faults > old(s.faults)
    ensures ok ==> AsideFor(aside, old(s.at), all, folder, base, who)
    ensures ok ==> GoneFor(gone, old(s.at), all, folder, base, who) && items == Without(all, gone)
    ensures ok ==> (wasDisabled <==> aside != [] && forall o | o in aside :: o.name.disabled)
  {
    ghost var was := s.at;
    wasDisabled, items, gone := false, all, {};
    ok, aside := RemoveTwin(s, folder, base);
    if !ok { return; }
    var sawDisabled := aside != [];
    gone := if sawDisabled then {base} else {};
    WithoutNone(all);
    if sawDisabled { items := Without(items, {base}); }
    TwinIsFirst(was, aside, gone, folder, base, who);
    ghost var trace1 := s.trace;
    var rows, sawEnabled := items, false;
    ok, items, aside, sawEnabled, sawDisabled, gone :=
      ReplaceRows(s, rows, folder, base, who, aside, sawDisabled, was, all, gone);
    SinceBoth(trace1, s.trace, |old(s.trace)|, was, s.saved, {}, {});
    if !ok { return; }
    PrefixOf(old(s.trace), trace1, s.trace);
    SameRows(all, rows, folder, base, who);
    SameReplaced(was, aside, gone, all, rows, folder, base, who);
    wasDisabled := sawDisabled && !sawEnabled;
    OffIf(aside, sawEnabled, sawDisabled);
  }

  lemma TwinIsFirst(was: map<Place, Jar>, aside: seq<Place>, gone: set<nat>, folder: Folder, base: nat, who: Identity)
    requires aside == if At(folder, base, true) in was then [At(folder, base, true)] else []
    requires gone == if aside != [] then {base} else {}
    ensures AsideFor(aside, was, [], folder, base, who) && GoneFor(gone, was, [], folder, base, who) &&
              Saw(aside, false, aside != [])
  {
    forall p ensures p in aside <==> Replaced(p, was, [], folder, base, who) {}
    if aside != [] { assert aside[0] in aside; }
  }

  lemma SameReplaced(was: map<Place, Jar>, aside: seq<Place>, gone: set<nat>, all: seq<Item>, rows: seq<Item>,
                     folder: Folder, base: nat, who: Identity)
    requires forall b :: SameModBase(rows, b, folder, base, who) <==> SameModBase(all, b, folder, base, who)
    requires AsideFor(aside, was, rows, folder, base, who) && GoneFor(gone, was, rows, folder, base, who)
    ensures AsideFor(aside, was, all, folder, base, who) && GoneFor(gone, was, all, folder, base, who)
  {}

  lemma OffIf(aside: seq<Place>, sawEnabled: bool, sawDisabled: bool)
    requires Saw(aside, sawEnabled, sawDisabled)
    ensures sawDisabled && !sawEnabled <==> aside != [] && forall o | o in aside :: o.name.disabled
  {
    if aside != [] { assert aside[0] in aside; }
  }

  /** The new name itself, already there but switched off. */
  method RemoveTwin(s: Server, folder: Folder, base: nat) returns (ok: bool, aside: seq<Place>)
    modifies s
    ensures s.saved == old(s.saved) && s.faults >= old(s.faults) && MovedAside(old(s.at), s.at, aside)
    ensures old(s.trace) <= s.trace && NoneLostSince(s.trace, |old(s.trace)|, old(s.at), s.saved, {})
    ensures !ok ==> s.faults > old(s.faults)
    ensures ok ==> aside == if At(folder, base, true) in old(s.at) then [At(folder, base, true)] else []
  {
    ok, aside := true, [];
    var twin := At(folder, base, true);
    if twin in s.at {
      ghost var was := s.at;
      ok := SandboxCheck(s);
      if !ok { return; }
      ok, aside := MoveAside(s, twin, [], was);
      assert [] + [twin] == [twin];
    }
  }

  /** The loop over a copy of the rows. */
  method ReplaceRows(s: Server, rows: seq<Item>, folder: Folder, base: nat, who: Identity, aside0: seq<Place>,
                     sawDisabled0: bool,
                     ghost was: map<Place, Jar>, ghost all: seq<Item>, ghost gone0: set<nat>)
    returns (ok: bool, items: seq<Item>, aside: seq<Place>, sawEnabled: bool, sawDisabled: bool, ghost gone: set<nat>)
    requires MovedAside(was, s.at, aside0) && Saw(aside0, false, sawDisabled0) && rows == Without(all, gone0)
    requires AsideFor(aside0, was, [], folder, base, who) && GoneFor(gone0, was, [], folder, base, who)
    modifies s
    ensures s.saved == old(s.saved) && s.faults >= old(s.faults) && MovedAside(was, s.at, aside)
    ensures old(s.trace) <= s.trace && NoneLostSince(s.trace, |old(s.trace)|, was, s.saved, {})
    ensures !ok ==> s.faults > old(s.faults)
    ensures ok ==> Saw(aside, sawEnabled, sawDisabled) && items == Without(all, gone)
    ensures ok ==> AsideFor(aside, was, rows, folder, base, who) && GoneFor(gone, was, rows, folder, base, who)
  {
    ok, items, aside, sawEnabled, sawDisabled, gone := true, rows, aside0, false, sawDisabled0, gone0;
    assert rows[..0] == [];
    for i := 0 to |rows|
      invariant ok && s.saved == old(s.saved) && s.faults >= old(s.faults) && MovedAside(was, s.at, aside)
      invariant old(s.trace) <= s.trace && NoneLostSince(s.trace, |old(s.trace)|, was, s.saved, {})
      invariant Saw(aside, sawEnabled, sawDisabled) && items == Without(all, gone)
      invariant AsideFor(aside, was, rows[..i], folder, base, who) && GoneFor(gone, was, rows[..i], folder, base, who)
    {
      ghost var trace1 := s.trace;
      ok, items, aside, sawEnabled, sawDisabled, gone :=
        ReplaceRow(s, rows, i, items, folder, base, who, aside, sawEnabled, sawDisabled, was, all, gone);
      SinceBoth(trace1, s.trace, |old(s.trace)|, was, s.saved, {}, {});
      if !ok { return; }
    }
    assert rows[..|rows|] == rows;
  }

  lemma WithoutNone(items: seq<Item>)
    ensures Without(items, {}) == items
  {}

  lemma SameRows(all: seq<Item>, rows: seq<Item>, folder: Folder, base: nat, who: Identity)
    requires rows == all || rows == Without(all, {base})
    ensures forall b :: SameModBase(rows, b, folder, base, who) <==> SameModBase(all, b, folder, base, who)
  {}

  // --- the install ---

  datatype Outcome = NotDownloaded | NotReplaced | RolledBack | Installed

  /** The new file takes over the state of what it replaces: switched off exactly when it
      replaces something and all of that was switched off. */
  ghost predicate StaysOff(off: bool, was: map<Place, Jar>, items: seq<Item>, folder: Folder, base: nat,
                           who: Identity) {
    off <==>
      && (exists p :: Replaced(p, was, items, folder, base, who))
      && (forall p | Replaced(p, was, items, folder, base, who) :: p.name.disabled)
  }

  /** The folders after an install: the new jar under one name, none of the copies it replaces,
      and everything else as it was. */
  ghost predicate InstalledOver(was: map<Place, Jar>, now: map<Place, Jar>, items: seq<Item>, folder: Folder, base: nat,
                                who: Identity, jar: Jar, off: bool) {
    && At(folder, base, off) in now && now[At(folder, base, off)] == jar
    && forall p: Place | !p.name.superseded && p != At(folder, base, off) ::
         if Replaced(p, was, items, folder, base, who) || p == At(folder, base, false) then p !in now
           else SamePlace(was, now, p)
  }

  /** Nothing a server or a scan reads changed, but that the name of the new jar is free. */
  ghost predicate BackButFor(was: map<Place, Jar>, now: map<Place, Jar>, final: Place) {
    final !in now && forall p: Place | !p.name.superseded && p != final :: SamePlace(was, now, p)
  }

  lemma ReplacedBefore(was: map<Place, Jar>, jar: Jar, items: seq<Item>, folder: Folder, base: nat, who: Identity)
    ensures forall p :: Replaced(p, was[At(folder, base, false) := jar], items, folder, base, who) <==>
              Replaced(p, was, items, folder, base, who)
    ensures forall b :: RowGoes(b, was[At(folder, base, false) := jar], items, folder, base, who) <==>
              RowGoes(b, was, items, folder, base, who)
  {
    var now := was[At(folder, base, false) := jar];
    assert forall b | b != base :: FindJarFolder(now, b) == FindJarFolder(was, b);
  }

  /** undo: the new file goes and the copies come back. */
  method Undo(s: Server, newPath: Place, aside: seq<Place>, ghost was: map<Place, Jar>, ghost final: Place)
    requires HeldAside(was, s.at, aside, {final, newPath}) && !newPath.name.superseded && !final.name.superseded &&
              final !in aside
    requires newPath == final || (final !in s.at && (newPath in aside || newPath !in was))
    modifies s
    ensures s.saved == old(s.saved) && s.faults >= old(s.faults) && old(s.trace) <= s.trace
    ensures NoneLostSince(s.trace, |old(s.trace)|, was, s.saved, {final}) && NoneLost(was, s.at, {final})
    ensures s.faults == old(s.faults) ==> BackButFor(was, s.at, final)
  {
    ghost var but := if newPath in aside then {final} else {final, newPath};
    var ok := s.Remove(newPath);
    ghost var trace1 := s.trace;
    HeldIsNotLost(was, s.at, aside, but);
    RestoreSuperseded(s, aside, was, but);
    SinceBoth(trace1, s.trace, |old(s.trace)|, was, s.saved, but, but);
    ButFinal(s.trace, |old(s.trace)|, was, s.saved, final, newPath, but);
  }

  lemma ButFinal(trace: seq<Moment>, n: nat, was: map<Place, Jar>, saved: seq<Item>, final: Place, newPath: Place,
                 but: set<Place>)
    requires NoneLostSince(trace, n, was, saved, but) && n <= |trace|
    requires but == {final} || (but == {final, newPath} && (newPath == final || newPath !in was))
    ensures NoneLostSince(trace, n, was, saved, {final})
  {}

  /** Before the save no file but the one the download wrote over would be lost by a crash; after
      it the install is all there. */
  ghost predicate Sound(m: Moment, was: map<Place, Jar>, saved: seq<Item>, next: seq<Item>, items: seq<Item>,
                        folder: Folder, base: nat, who: Identity, jar: Jar, off: bool) {
    || (m.saved == saved && NoneLost(was, m.at, {At(folder, base, false)}))
    || (m.saved == next && InstalledOver(was, m.at, items, folder, base, who, jar, off))
  }

  ghost predicate SoundSince(trace: seq<Moment>, n: nat, was: map<Place, Jar>, saved: seq<Item>, next: seq<Item>,
                             items: seq<Item>,
                             folder: Folder, base: nat, who: Identity, jar: Jar, off: bool) {
    forall k | n <= k < |trace| :: Sound(trace[k], was, saved, next, items, folder, base, who, jar, off)
  }

  /** The new file kept switched off, if the copies were. */
  method KeepOff(s: Server, folder: Folder, base: nat, who: Identity, off: bool, aside: seq<Place>,
                 ghost was: map<Place, Jar>, ghost all: seq<Item>)
    returns (ok: bool)
    requires MovedAside(was, s.at, aside) && AsideFor(aside, was, all, folder, base, who) &&
              At(folder, base, false) in was
    modifies s
    ensures s.saved == old(s.saved) && s.faults >= old(s.faults) && old(s.trace) <= s.trace &&
              (!ok ==> s.faults > old(s.faults))
    ensures NoneLostSince(s.trace, |old(s.trace)|, was, s.saved, {At(folder, base, false)})
    ensures !ok ==> s.at == old(s.at)
    ensures ok ==> HeldAside(was, s.at, aside, {At(folder, base, false), At(folder, base, off)})
    ensures ok ==> InstalledOver(was, s.at, all, folder, base, who, was[At(folder, base, false)], off)
    ensures AsideOnly(was, s.at, aside)
  {
    var final, installed := At(folder, base, false), At(folder, base, off);
    assert final !in aside && SamePlace(was, s.at, final);
    assert AsideOnly(was, s.at, aside) by {
      forall p: Place | p.name.superseded && OwnName(p) !in aside ensures SamePlace(was, s.at, p) {}
    }
    AsideIsNotLost(was, s.at, aside);
    ok := true;
    if off {
      assert SamePlace(was, s.at, installed) || installed in aside;
      ok := s.Rename(final, installed);
    }
    if ok {
      HeldIsNotLost(was, s.at, aside, {final, installed});
    }
  }

  /** The steps after the copies are aside: the new file is kept switched off if they were, and
      the manifest is saved; a failure of either undoes all of it. */
  method KeepAndSave(s: Server, items0: seq<Item>, folder: Folder, base: nat, who: Identity, version: Id, off: bool,
                     aside: seq<Place>,
                     ghost was: map<Place, Jar>, ghost all: seq<Item>)
    returns (r: Outcome, items: seq<Item>)
    requires MovedAside(was, s.at, aside) && AsideFor(aside, was, all, folder, base, who) &&
              At(folder, base, false) in was
    modifies s
    ensures (r.RolledBack? || r.Installed?) && s.faults >= old(s.faults) && old(s.trace) <= s.trace
    ensures s.faults == old(s.faults) ==> r.Installed?
    ensures r.RolledBack? ==> s.saved == old(s.saved)
    ensures r.RolledBack? ==> NoneLostSince(s.trace, |old(s.trace)|, was, s.saved, {At(folder, base, false)})
    ensures r.RolledBack? && s.faults <= old(s.faults) + 1 ==> BackButFor(was, s.at, At(folder, base, false))
    ensures r.Installed? ==> InstalledOver(was, s.at, all, folder, base, who, was[At(folder, base, false)], off)
    ensures s.faults == old(s.faults) ==> AsideOnly(was, s.at, [])
    ensures r.Installed? ==> s.saved == items == Upsert(items0, NewRow(folder, base, who, version, off))
    ensures r.Installed? ==>
              SoundSince(s.trace, |old(s.trace)|, was, old(s.saved), items, all, folder, base, who,
                         was[At(folder, base, false)], off)
  {
    ghost var final, n, saved := At(folder, base, false), |s.trace|, s.saved;
    assert final !in aside;
    items := items0;
    var ok := KeepOff(s, folder, base, who, off, aside, was, all);
    ghost var trace1 := s.trace;
    if !ok {
      Undo(s, At(folder, base, false), aside, was, final);
      SinceBoth(trace1, s.trace, n, was, saved, {final}, {final});
      return RolledBack, items;
    }
    items := Upsert(items, NewRow(folder, base, who, version, off));
    r := SaveOrUndo(s, items, folder, base, who, off, aside, was, all);
    if r.RolledBack? {
      SinceBoth(trace1, s.trace, n, was, saved, {final}, {final});
    } else {
      SoundBoth(trace1, s.trace, n, was, saved, items, all, folder, base, who, was[final], off);
    }
    PrefixOf(old(s.trace), trace1, s.trace);
  }

  lemma SoundBoth(trace1: seq<Moment>, trace: seq<Moment>, n: nat, was: map<Place, Jar>, saved: seq<Item>,
                  next: seq<Item>, items: seq<Item>,
                  folder: Folder, base: nat, who: Identity, jar: Jar, off: bool)
    requires trace1 <= trace && NoneLostSince(trace1, n, was, saved, {At(folder, base, false)})
    requires SoundSince(trace, |trace1|, was, saved, next, items, folder, base, who, jar, off)
    ensures SoundSince(trace, n, was, saved, next, items, folder, base, who, jar, off)
  {
    forall k | n <= k < |trace| ensures Sound(trace[k], was, saved, next, items, folder, base, who, jar, off) {
      if k < |trace1| { assert trace[k] == trace1[k]; }
    }
  }

  method SaveOrUndo(s: Server, items: seq<Item>, folder: Folder, base: nat, who: Identity, off: bool, aside: seq<Place>,
                    ghost was: map<Place, Jar>, ghost all: seq<Item>)
    returns (r: Outcome)
    requires AsideFor(aside, was, all, folder, base, who) && At(folder, base, false) in was
    requires HeldAside(was, s.at, aside, {At(folder, base, false), At(folder, base, off)})
    requires InstalledOver(was, s.at, all, folder, base, who, was[At(folder, base, false)], off)
    requires AsideOnly(was, s.at, aside)
    modifies s
    ensures (r.RolledBack? || r.Installed?) && s.faults >= old(s.faults) && old(s.trace) <= s.trace
    ensures s.faults == old(s.faults) ==> r.Installed?
    ensures r.RolledBack? ==> s.saved == old(s.saved)
    ensures r.RolledBack? ==> NoneLostSince(s.trace, |old(s.trace)|, was, s.saved, {At(folder, base, false)})
    ensures r.RolledBack? && s.faults <= old(s.faults) + 1 ==> BackButFor(was, s.at, At(folder, base, false))
    ensures r.Installed? ==>
              InstalledOver(was, s.at, all, folder, base, who, was[At(folder, base, false)], off) && s.saved == items
    ensures s.faults == old(s.faults) ==> AsideOnly(was, s.at, [])
    ensures r.Installed? ==>
              SoundSince(s.trace, |old(s.trace)|, was, old(s.saved), items, all, folder, base, who,
                         was[At(folder, base, false)], off)
  {
    ghost var final, installed, at1, saved := At(folder, base, false), At(folder, base, off), s.at, s.saved;
    HeldIsNotLost(was, s.at, aside, {final, installed});
    assert installed in was && installed != final ==> installed in aside;
    assert NoneLost(was, s.at, {final});
    var ok := s.SaveManifest(items);
    ghost var trace1 := s.trace;
    if !ok {
      Undo(s, At(folder, base, off), aside, was, final);
      SinceBoth(trace1, s.trace, |old(s.trace)|, was, saved, {final}, {final});
      return RolledBack;
    }
    DiscardSuperseded(s, aside);
    if s.faults == old(s.faults) { AllDiscarded(was, at1, s.at, aside); }
    forall k | |old(s.trace)| <= k < |s.trace|
      ensures Sound(s.trace[k], was, saved, items, all, folder, base, who, was[final], off)
    {
      assert k < |trace1| ==> s.trace[k] == trace1[k];
      InstalledStill(was, at1, s.trace[k].at, all, folder, base, who, was[final], off);
    }
    r := Installed;
  }

  lemma InstalledStill(was: map<Place, Jar>, at: map<Place, Jar>, now: map<Place, Jar>, items: seq<Item>,
                       folder: Folder, base: nat, who: Identity, jar: Jar, off: bool)
    requires InstalledOver(was, at, items, folder, base, who, jar, off) && SameLoaded(at, now)
    ensures InstalledOver(was, now, items, folder, base, who, jar, off)
  {
    assert SamePlace(at, now, At(folder, base, off));
    forall p: Place | !p.name.superseded ensures SamePlace(at, now, p) {}
  }

  lemma AllSaw(off: bool, aside: seq<Place>, was: map<Place, Jar>, all: seq<Item>, folder: Folder, base: nat,
               who: Identity)
    requires AsideFor(aside, was, all, folder, base, who) &&
              (off <==> aside != [] && forall o | o in aside :: o.name.disabled)
    ensures StaysOff(off, was, all, folder, base, who)
  {
    if aside != [] { assert aside[0] in aside; }
  }

  /** One version of Install. It succeeds unless something fails, and the manifest on disk changes
      only when all of it does. A failure that nothing else fails after leaves every file that is
      read as it was but for the one the download wrote over: that one is gone once the copies
      replaced were aside, and is the new jar before. In no state on the way would a crash lose
      another. */
  method InstallOne(s: Server, all: seq<Item>, folder: Folder, base: nat, who: Identity, version: Id, jar: Jar)
    returns (r: Outcome, items: seq<Item>, off: bool, ghost gone: set<nat>)
    modifies s
    ensures s.faults >= old(s.faults) && old(s.trace) <= s.trace && (s.faults == old(s.faults) ==> r.Installed?)
    ensures r.NotDownloaded? ==> s.at == old(s.at)
    ensures !r.Installed? ==> s.saved == old(s.saved)
    ensures !r.Installed? ==> NoneLostSince(s.trace, |old(s.trace)|, old(s.at), s.saved, {At(folder, base, false)})
    ensures r.NotReplaced? && s.faults <= old(s.faults) + 1 ==>
              SameLoaded(old(s.at)[At(folder, base, false) := jar], s.at)
    ensures r.NotReplaced? && s.faults <= old(s.faults) + 1 ==>
              (SameLoaded(old(s.at), s.at) <==>
               At(folder, base, false) in old(s.at) && old(s.at)[At(folder, base, false)] == jar)
    ensures r.RolledBack? && s.faults <= old(s.faults) + 1 ==> BackButFor(old(s.at), s.at, At(folder, base, false))
    ensures r.RolledBack? && s.faults <= old(s.faults) + 1 ==>
              (SameLoaded(old(s.at), s.at) <==> At(folder, base, false) !in old(s.at))
    ensures r.Installed? ==> InstalledOver(old(s.at), s.at, all, folder, base, who, jar, off)
    ensures s.faults == old(s.faults) ==> forall p: Place | p.name.superseded && p in s.at :: p in old(s.at)
    ensures r.Installed? ==> StaysOff(off, old(s.at), all, folder, base, who)
    ensures r.Installed? ==> GoneFor(gone, old(s.at), all, folder, base, who)
    ensures r.Installed? ==>
              s.saved == items ==
                Upsert(Without(all, gone), Item(base, off, who.project, version, who.mod, Some(folder), !off))
    ensures r.Installed? ==>
              SoundSince(s.trace, |old(s.trace)|, old(s.at), old(s.saved), items, all, folder, base, who, jar, off)
  {
    var final := At(folder, base, false);
    ghost var at0, saved, n := s.at, s.saved, |s.trace|;
    items, off, gone := all, false, {};
    var ok := s.Download(final, jar);
    assert NoneLost(at0, s.at, {final});
    if !ok { return NotDownloaded, items, off, gone; }
    ghost var trace1 := s.trace;
    r, items, off, gone := ReplaceAndSave(s, all, folder, base, who, version, at0, jar);
    PrefixOf(old(s.trace), trace1, s.trace);
    if r.Installed? {
      SoundBoth(trace1, s.trace, n, at0, saved, items, all, folder, base, who, jar, off);
    } else {
      SinceBoth(trace1, s.trace, n, at0, saved, {final}, {final});
    }
    if r.NotReplaced? && s.faults <= old(s.faults) + 1 {
      assert SamePlace(at0[final := jar], s.at, final);
      if final in at0 && at0[final] == jar { assert at0[final := jar] == at0; }
      if SameLoaded(at0, s.at) { assert SamePlace(at0, s.at, final); }
    }
    if r.RolledBack? && s.faults <= old(s.faults) + 1 {
      if SameLoaded(at0, s.at) { assert SamePlace(at0, s.at, final); }
    }
  }

  lemma NotLostBefore(trace: seq<Moment>, n: nat, at0: map<Place, Jar>, jar: Jar, saved: seq<Item>, final: Place)
    requires NoneLostSince(trace, n, at0[final := jar], saved, {final})
    ensures NoneLostSince(trace, n, at0, saved, {final})
  {
    forall k | n <= k < |trace| ensures trace[k].saved == saved && NoneLost(at0, trace[k].at, {final}) {
      forall o | o in at0 && !o.name.superseded && o !in {final} ensures NotLost(at0, trace[k].at, o) {
        assert NotLost(at0[final := jar], trace[k].at, o);
      }
    }
  }

  lemma SoundBefore(trace: seq<Moment>, n: nat, at0: map<Place, Jar>, saved: seq<Item>, next: seq<Item>,
                    items: seq<Item>,
                    folder: Folder, base: nat, who: Identity, jar: Jar, off: bool)
    requires SoundSince(trace, n, at0[At(folder, base, false) := jar], saved, next, items, folder, base, who, jar, off)
    ensures SoundSince(trace, n, at0, saved, next, items, folder, base, who, jar, off)
  {
    var final := At(folder, base, false);
    forall k | n <= k < |trace| ensures Sound(trace[k], at0, saved, next, items, folder, base, who, jar, off) {
      assert Sound(trace[k], at0[final := jar], saved, next, items, folder, base, who, jar, off);
      if NoneLost(at0[final := jar], trace[k].at, {final}) {
        forall o | o in at0 && !o.name.superseded && o !in {final} ensures NotLost(at0, trace[k].at, o) {
          assert NotLost(at0[final := jar], trace[k].at, o);
        }
      }
      if InstalledOver(at0[final := jar], trace[k].at, items, folder, base, who, jar, off) {
        InstalledBefore(at0, trace[k].at, items, folder, base, who, jar, off);
      }
    }
  }

  lemma InstalledBefore(at0: map<Place, Jar>, now: map<Place, Jar>, items: seq<Item>, folder: Folder, base: nat,
                        who: Identity, jar: Jar, off: bool)
    requires InstalledOver(at0[At(folder, base, false) := jar], now, items, folder, base, who, jar, off)
    ensures InstalledOver(at0, now, items, folder, base, who, jar, off)
  {
    ReplacedBefore(at0, jar, items, folder, base, who);
    var was := at0[At(folder, base, false) := jar];
    forall p: Place | !p.name.superseded && p != At(folder, base, off)
      ensures if Replaced(p, at0, items, folder, base, who) || p == At(folder, base, false) then p !in now
                else SamePlace(at0, now, p)
    {
      assert Replaced(p, was, items, folder, base, who) <==> Replaced(p, at0, items, folder, base, who);
    }
  }

  /** What follows the download: the copies aside, then the rest, each undone if it fails. */
  method ReplaceAndSave(s: Server, all: seq<Item>, folder: Folder, base: nat, who: Identity, version: Id,
                        ghost at0: map<Place, Jar>, ghost jar: Jar)
    returns (r: Outcome, items: seq<Item>, off: bool, ghost gone: set<nat>)
    requires s.at == at0[At(folder, base, false) := jar]
    modifies s
    ensures !r.NotDownloaded? && s.faults >= old(s.faults) && old(s.trace) <= s.trace &&
              (s.faults == old(s.faults) ==> r.Installed?)
    ensures !r.Installed? ==> s.saved == old(s.saved)
    ensures !r.Installed? ==> NoneLostSince(s.trace, |old(s.trace)|, at0, s.saved, {At(folder, base, false)})
    ensures r.NotReplaced? && s.faults <= old(s.faults) + 1 ==> SameLoaded(old(s.at), s.at)
    ensures r.RolledBack? && s.faults <= old(s.faults) + 1 ==> BackButFor(at0, s.at, At(folder, base, false))
    ensures r.Installed? ==> InstalledOver(at0, s.at, all, folder, base, who, jar, off)
    ensures s.faults == old(s.faults) ==> AsideOnly(at0, s.at, [])
    ensures r.Installed? ==> StaysOff(off, at0, all, folder, base, who) && GoneFor(gone, at0, all, folder, base, who)
    ensures r.Installed? ==> s.saved == items == Upsert(Without(all, gone), NewRow(folder, base, who, version, off))
    ensures r.Installed? ==>
              SoundSince(s.trace, |old(s.trace)|, at0, old(s.saved), items, all, folder, base, who, jar, off)
  {
    ghost var final, was, saved, n := At(folder, base, false), s.at, s.saved, |s.trace|;
    ReplacedBefore(at0, jar, all, folder, base, who);
    var ok, moved;
    ok, off, items, moved, gone := RemoveSuperseded(s, all, folder, base, who);
    ghost var trace1 := s.trace;
    if !ok {
      r := NotReplaced;
      RestoreSuperseded(s, moved, was, {});
      SinceBoth(trace1, s.trace, n, was, saved, {}, {});
      NoneLostBut(s.trace, n, was, saved, final);
      NotLostBefore(s.trace, n, at0, jar, saved, final);
      PrefixOf(old(s.trace), trace1, s.trace);
      return;
    }
    AllSaw(off, moved, at0, all, folder, base, who);
    r, items := KeepAndSave(s, items, folder, base, who, version, off, moved, was, all);
    PrefixOf(old(s.trace), trace1, s.trace);
    NoneLostBut(trace1, n, was, saved, final);
    if r.Installed? {
      SoundBoth(trace1, s.trace, n, was, saved, items, all, folder, base, who, jar, off);
      SoundBefore(s.trace, n, at0, saved, items, all, folder, base, who, jar, off);
      InstalledBefore(at0, s.at, all, folder, base, who, jar, off);
    } else {
      SinceBoth(trace1, s.trace, n, was, saved, {final}, {final});
      NotLostBefore(s.trace, n, at0, jar, saved, final);
    }
  }

  lemma NoneLostBut(trace: seq<Moment>, n: nat, was: map<Place, Jar>, saved: seq<Item>, final: Place)
    requires NoneLostSince(trace, n, was, saved, {})
    ensures NoneLostSince(trace, n, was, saved, {final})
  {}

  function NewRow(folder: Folder, base: nat, who: Identity, version: Id, off: bool): Item {
    Item(base, off, who.project, version, who.mod, Some(folder), !off)
  }

  // --- what an install comes to ---

  /** Every row of the manifest has its file, under the name the row says. */
  ghost predicate Agrees(at: map<Place, Jar>, items: seq<Item>) {
    forall it | it in items && it.folder.Some? ::
      At(it.folder.value, it.base, it.disabled) in at && it.enabled == !it.disabled
  }

  /** An install keeps folder and manifest in agreement, but for one case: there was a row for
      a switched-on file of the new name and the new file is kept switched off. That file is
      what the download replaced, so its being on is not among what is looked at, and its row
      is left without a file. */
  lemma AgreesIff(was: map<Place, Jar>, now: map<Place, Jar>, items: seq<Item>, saved: seq<Item>, folder: Folder,
                  base: nat, who: Identity,
                  version: Id, jar: Jar, off: bool, gone: set<nat>)
    requires Agrees(was, items)
    requires InstalledOver(was, now, items, folder, base, who, jar, off) && StaysOff(off, was, items, folder, base, who)
    requires GoneFor(gone, was, items, folder, base, who) &&
              saved == Upsert(Without(items, gone), NewRow(folder, base, who, version, off))
    ensures Agrees(now, saved) <==>
              !(off && At(folder, base, true) !in was && exists it ::
                it in items && it.base == base && !it.disabled && it.folder == Some(folder))
  {
    var row := NewRow(folder, base, who, version, off);
    forall it | it in items && it.folder.Some? && it.base !in gone &&
      !(off && it.base == base && !it.disabled && it.folder == Some(folder))
      ensures At(it.folder.value, it.base, it.disabled) in now
    {
      RowKept(was, now, items, folder, base, who, jar, off, it);
    }
    if off && At(folder, base, true) !in was && exists it ::
      it in items && it.base == base && !it.disabled && it.folder == Some(folder) {
      var it :| it in items && it.base == base && !it.disabled && it.folder == Some(folder);
      assert it in saved && At(folder, base, false) !in now;
    }
  }

  lemma RowKept(was: map<Place, Jar>, now: map<Place, Jar>, items: seq<Item>, folder: Folder, base: nat, who: Identity,
                jar: Jar, off: bool, it: Item)
    requires Agrees(was, items) && InstalledOver(was, now, items, folder, base, who, jar, off)
    requires it in items && it.folder.Some? && !RowGoes(it.base, was, items, folder, base, who)
    requires !(off && it.base == base && !it.disabled && it.folder == Some(folder))
    ensures At(it.folder.value, it.base, it.disabled) in now
  {
    var p := At(it.folder.value, it.base, it.disabled);
    assert p in was;
    if p != At(folder, base, off) {
      assert Replaced(p, was, items, folder, base, who) ==> RowGoes(it.base, was, items, folder, base, who);
      assert p != At(folder, base, false);
    }
  }

  /** With no file under the new name before, nothing is left out: the folder and the manifest
      agree, and no copy that was replaced is loaded. */
  lemma FreshNameAgrees(was: map<Place, Jar>, now: map<Place, Jar>, items: seq<Item>, saved: seq<Item>, folder: Folder,
                        base: nat, who: Identity,
                        version: Id, jar: Jar, off: bool, gone: set<nat>)
    requires Agrees(was, items) && At(folder, base, false) !in was
    requires InstalledOver(was, now, items, folder, base, who, jar, off) && StaysOff(off, was, items, folder, base, who)
    requires GoneFor(gone, was, items, folder, base, who) &&
              saved == Upsert(Without(items, gone), NewRow(folder, base, who, version, off))
    ensures Agrees(now, saved)
    ensures forall p | Replaced(p, was, items, folder, base, who) && p != At(folder, base, off) :: p !in now
    ensures NewRow(folder, base, who, version, off) in saved
  {
    AgreesIff(was, now, items, saved, folder, base, who, version, jar, off, gone);
  }

  /** A copy of the mod, in this folder, that a row leads to. */
  ghost predicate IsCopy(p: Place, was: map<Place, Jar>, items: seq<Item>, folder: Folder, base: nat, who: Identity) {
    && p in was && p.folder == folder && !p.name.superseded && p.name.base != base
    && SameModBase(items, p.name.base, folder, base, who)
  }

  /** An install leaves a copy of the mod to load beside the new jar exactly when it is in plugins
      and mods holds a file of the copy's name, which is found first. */
  lemma CopyLeftIff(was: map<Place, Jar>, now: map<Place, Jar>, items: seq<Item>, folder: Folder, base: nat,
                    who: Identity, jar: Jar, off: bool)
    requires InstalledOver(was, now, items, folder, base, who, jar, off)
    ensures (exists p :: IsCopy(p, was, items, folder, base, who) && p in now) <==>
              && folder == Plugins
              && exists p, disabled ::
                IsCopy(p, was, items, folder, base, who) && At(Mods, p.name.base, disabled) in was
  {
    forall p | IsCopy(p, was, items, folder, base, who)
      ensures p in now <==> folder == Plugins && exists disabled :: At(Mods, p.name.base, disabled) in was
    {
      assert p == At(folder, p.name.base, p.name.disabled);
      assert Replaced(p, was, items, folder, base, who) <==> FindJarFolder(was, p.name.base) == Some(folder);
      assert (exists disabled :: At(Mods, p.name.base, disabled) in was) <==>
             At(Mods, p.name.base, false) in was || At(Mods, p.name.base, true) in was;
    }
  }

  /** Written out: which older copies are not loaded after an install, and that nothing else in either
      folder is touched. A copy is a file that a row of another name leads to, of the same project
      and from the registry, or of the same mod id. */
  lemma OlderCopiesAreGone(was: map<Place, Jar>, now: map<Place, Jar>, items: seq<Item>, folder: Folder, base: nat,
                           who: Identity, jar: Jar, off: bool)
    requires InstalledOver(was, now, items, folder, base, who, jar, off)
    ensures Place(folder, FileName(base, off, false)) in now && now[Place(folder, FileName(base, off, false))] == jar
    ensures Place(folder, FileName(base, !off, false)) !in now
    ensures forall it, disabled |
              && it in items && it.base != base && (it.folder == None || it.folder == Some(folder))
              && ((who.project != 0 && it.project == who.project && it.version != 0) ||
                  (who.mod != 0 && it.mod == who.mod))
              && (folder == Mods || (Place(Mods, FileName(it.base, false, false)) !in was &&
                                     Place(Mods, FileName(it.base, true, false)) !in was)) ::
              Place(folder, FileName(it.base, disabled, false)) !in now
    ensures forall p: Place | && !p.name.superseded && p in was && (p.folder != folder || p.name.base != base)
                              && (p.folder == folder ==> forall it | it in items && it.base == p.name.base ::
                                    || (it.folder != None && it.folder != Some(folder))
                                    || (!(who.project != 0 && it.project == who.project && it.version != 0) &&
                                        !(who.mod != 0 && it.mod == who.mod))) ::
              p in now && now[p] == was[p]
    ensures forall p: Place | !p.name.superseded && p in now && p != Place(folder, FileName(base, off, false)) ::
              p in was
  {
    forall it, disabled |
      it in items && SameMod(it, folder, base, who) &&
      (folder == Mods || (At(Mods, it.base, false) !in was && At(Mods, it.base, true) !in was))
      ensures At(folder, it.base, disabled) !in now
    {
      var p := At(folder, it.base, disabled);
      if p in was { assert Replaced(p, was, items, folder, base, who); } else { assert SamePlace(was, now, p); }
    }
    forall p: Place | !p.name.superseded && p in was && !Replaced(p, was, items, folder, base, who) &&
      !(p.folder == folder && p.name.base == base)
      ensures p in now && now[p] == was[p]
    {
      assert SamePlace(was, now, p);
    }
  }

  /** A mod updated under its own name, with an old copy of it beside it switched off: the
      update is switched off and the row of the old file is left. */
  lemma UpdateSwitchedOff()
    ensures var on, off := Item(1, false, 7, 1, NO_ID, Some(Mods), true), Item(2, true, 7, 1, NO_ID, Some(Mods), false);
            var was, now := map[At(Mods, 1, false) := 10, At(Mods, 2, true) := 20], map[At(Mods, 1, true) := 30];
            var items, who := [on, off], Identity(7, NO_ID);
            && Agrees(was, items)
            && StaysOff(true, was, items, Mods, 1, who) && InstalledOver(was, now, items, Mods, 1, who, 30, true)
            && GoneFor({2}, was, items, Mods, 1, who)
            && !Agrees(now, Upsert(Without(items, {2}), NewRow(Mods, 1, who, 3, true)))
  {
    var on, off := Item(1, false, 7, 1, NO_ID, Some(Mods), true), Item(2, true, 7, 1, NO_ID, Some(Mods), false);
    var was, now := map[At(Mods, 1, false) := 10, At(Mods, 2, true) := 20], map[At(Mods, 1, true) := 30];
    var items, who := [on, off], Identity(7, NO_ID);
    assert SameMod(off, Mods, 1, who) && off in items;
    assert forall b :: SameModBase(items, b, Mods, 1, who) <==> b == 2;
    assert Replaced(At(Mods, 2, true), was, items, Mods, 1, who);
    assert on in Upsert(Without(items, {2}), NewRow(Mods, 1, who, 3, true));
  }
}
