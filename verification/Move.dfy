/** Moving the live snapshot to the other layout or to a new link, and deleting a base that
    was left. */
module Move {
  import opened Wrappers
  import opened Keys
  import opened Snapshot
  import opened World
  import opened Protocol
  import opened Assemble
  import opened Publish

  datatype MoveReply = MoveFailed | NothingThere | Moved

  predicate InBase(k: Key, token: string) {
    (k.Latest? || k.Snap?) && k.token == token
  }

  /** Nothing outside this base was touched. */
  ghost predicate OnlyBase(before: Objects, after: Objects, token: string) {
    forall k | !InBase(k, token) :: (k in after <==> k in before) && (k in before ==> after[k] == before[k])
  }

  /** Writing below another base's snapshots folder. */
  lemma InvOtherBase(s: State, k: Key, o: Obj)
    requires Inv(s) && k.Snap? && k.token != s.rec.token
    ensures Inv(s.(objs := s.objs[k := o]))
    ensures ReadLatest(s.objs[k := o], s.rec.token) == ReadLatest(s.objs, s.rec.token)
  {
    InvPut(s, k, o);
  }

  /** Writing the pointer of a base no private link was ever given for, or of the public one. */
  lemma InvOtherPointer(s: State, token: string, o: Obj)
    requires Inv(s) && s.rec.published && token != s.rec.token && (token == "" || token !in s.everLive)
    ensures Inv(s.(objs := s.objs[Latest(token) := o]))
    ensures ReadLatest(s.objs[Latest(token) := o], s.rec.token) == ReadLatest(s.objs, s.rec.token)
  {
    InvFrame(s, s.objs[Latest(token) := o]);
  }

  /** The index as it stands under the new base. */
  function Rebased(ix: Index, token: string): Index { ix.(partsBase := PartsBase(token)) }

  lemma RebasedIsSound(ix: Index, from: string, to: string)
    requires Sound(ix, from)
    ensures Sound(Rebased(ix, to), to) && Render(Rebased(ix, to)) == Render(ix)
    ensures PartSet(Rebased(ix, to)) == PartSet(ix)
    ensures var now := Rebased(ix, to);
            && now.createdAt == ix.createdAt && now.version == ix.version && now.serverFolder == ix.serverFolder
            && now.levels == ix.levels && now.partsBase == PartsBase(to)
  {
  }

  /** The run's context: the live base leads to ix, and ix is being built under `to`. */
  ghost predicate Moving(s: State, ix: Index, to: string) {
    && Inv(s) && s.rec.published && LiveIndex(s) == Some(ix)
    && ValidToken(to) && to != s.rec.token && (to == "" || to !in s.everLive)
  }

  /** moveDHLevel: by ranges of the old file when it is there at the right size, else from
      the parts. */
  method MoveLevel(w: World, from: string, ix: Index, i: nat, to: string) returns (ok: bool)
    requires w.Valid() && AllInv(w.trace) && from == w.rec.token && Moving(w.Now(), ix, to) && i < |ix.levels|
    modifies w`objs, w`uploads, w`nextUpload, w`trace, w`faults
    ensures w.Valid() && AllInv(w.trace) && Extends(w.trace, old(w.trace)) && Moving(w.Now(), ix, to)
    ensures w.faults >= old(w.faults) && (!ok && w.faults == old(w.faults) ==> TooLong(ix.levels[i]))
    ensures var k := LevelKey(to, ix.createdAt.stamp, ix.levels[i].folder);
            || w.objs == old(w.objs)[k := Data(LevelBytes(ix.levels[i]))]
            || (!ok && w.objs == old(w.objs))
  {
    var dest := LevelKey(to, ix.createdAt.stamp, ix.levels[i].folder);
    var steps := StepsToMove(w, from, ix, i, to);
    ghost var s := w.Now();
    var aborted;
    ok, aborted := AssembleObject(w, dest, steps);
    InvOtherBase(s, dest, Data(LevelBytes(ix.levels[i])));
  }

  /** The copies that build a level of the new base. */
  method StepsToMove(w: World, from: string, ix: Index, i: nat, ghost to: string) returns (steps: seq<CopyStep>)
    requires w.Valid() && AllInv(w.trace) && from == w.rec.token && Moving(w.Now(), ix, to) && i < |ix.levels|
    modifies w`faults
    ensures w.faults >= old(w.faults)
    ensures Built(w.objs, steps).Some? ==> Built(w.objs, steps).value == LevelBytes(ix.levels[i])
    ensures Built(w.objs, steps).None? ==> TooLong(ix.levels[i])
  {
    ghost var s := w.Now();
    var l := ix.levels[i];
    var src := LevelKey(from, ix.createdAt.stamp, l.folder);
    steps := CopiesOfParts(l);
    var head := w.Head(src);
    var ranges := head.Ok? && head.value.Some? && head.value.value == l.size;
    if ranges { steps := PreviousObjectCopies(src, l.size); }
    assert Holds(s.objs, src, Data(LevelBytes(l)));
    assert Ready(s, ix);
    StepsBuild(s, ix, i, src, ranges);
  }

  /** moveDHSnapshotLink: everything under the new base first, its latest.json last. It
      deletes nothing and touches nothing outside the new base, and the live link stays whole
      throughout. */
  method MoveSnapshot(w: World, from: string, to: string) returns (r: MoveReply)
    requires w.Valid() && AllInv(w.trace) && from == w.rec.token && w.rec.published
    requires ValidToken(to) && (to == "" || to !in w.everLive)
    modifies w`objs, w`uploads, w`nextUpload, w`trace, w`faults, w`sent
    ensures w.Valid() && AllInv(w.trace) && Extends(w.trace, old(w.trace))
    ensures w.faults >= old(w.faults)
    ensures r.MoveFailed? && w.faults == old(w.faults) ==> to == w.rec.token || AnyTooLong(LiveIndex(w.Now()).value)
    ensures OnlyBase(old(w.objs), w.objs, to)
    ensures LiveIndex(w.Now()).Some? && LiveIndex(w.Now()) == LiveIndex(old(w.Now()))
    ensures r.Moved? ==> to != w.rec.token && LiveIndex(old(w.Now())).Some?
                         && Complete(w.objs, to)
                         && ReadLatest(w.objs, to).index == Rebased(LiveIndex(old(w.Now())).value, to)
    ensures !r.NothingThere?
  {
    r := MoveFailed;
    NowInv(w);
    if from == to { return; }
    var what := WhatToMove(w, from);
    if what.Failed? { return; }
    if what.value.None? { return NothingThere; }
    var ok := MoveAll(w, from, what.value.value, to);
    if ok { r := Moved; }
  }

  method MoveAll(w: World, from: string, ix: Index, to: string) returns (ok: bool)
    requires w.Valid() && AllInv(w.trace) && from == w.rec.token && Moving(w.Now(), ix, to)
    modifies w`objs, w`uploads, w`nextUpload, w`trace, w`faults, w`sent
    ensures w.Valid() && AllInv(w.trace) && Extends(w.trace, old(w.trace)) && Moving(w.Now(), ix, to)
    ensures w.faults >= old(w.faults) && (!ok && w.faults == old(w.faults) ==> AnyTooLong(ix))
    ensures OnlyBase(old(w.objs), w.objs, to)
    ensures ok ==> Complete(w.objs, to) && ReadLatest(w.objs, to).index == Rebased(ix, to)
  {
    ok := MovePageAndIndex(w, from, ix, to);
    ghost var trace1 := w.trace;
    if !ok { return; }
    ok := MoveLevels(w, from, ix, to);
    ExtendsStill(w.trace, trace1, old(w.trace));
    ghost var trace2 := w.trace;
    if !ok { return; }
    ok := MovePointer(w, ix, to);
    ExtendsStill(w.trace, trace2, old(w.trace));
  }

  /** The snapshot to move: what the old latest.json leads to, when it is publishable and where a
      publish puts it. */
  method WhatToMove(w: World, from: string) returns (r: Reply<Option<Index>>)
    requires w.Valid() && AllInv(w.trace) && from == w.rec.token
    modifies w`faults
    ensures w.faults >= old(w.faults) && (r.Failed? ==> w.faults > old(w.faults))
    ensures r.Ok? ==> r.value == LiveIndex(w.Now())
  {
    NowInv(w);
    var prev := ReadLatestIndex(w, from);
    if prev.Failed? { return Failed; }
    if prev.value.First? { return Ok(None); }
    var ix := prev.value.index;
    var good := CheckIndex(ix);
    if !good || prev.value.key != IndexKey(from, ix.createdAt.stamp) { return Failed; }
    r := Ok(Some(ix));
  }

  method MovePointer(w: World, ix: Index, to: string) returns (ok: bool)
    requires w.Valid() && AllInv(w.trace) && Moving(w.Now(), ix, to) && NewBase(w.objs, to, ix, |ix.levels|)
    modifies w`objs, w`trace, w`faults, w`sent
    ensures w.Valid() && AllInv(w.trace) && Extends(w.trace, old(w.trace)) && Moving(w.Now(), ix, to)
    ensures w.faults >= old(w.faults) && (!ok ==> w.faults > old(w.faults))
    ensures OnlyBase(old(w.objs), w.objs, to)
    ensures ok ==> Complete(w.objs, to) && ReadLatest(w.objs, to).index == Rebased(ix, to)
  {
    NewBaseStored(w.Now(), to, ix);
    RebasedIsSound(ix, w.rec.token, to);
    InvOtherPointer(w.Now(), to, PointerTo(Rebased(ix, to), to));
    ok := WriteLatest(w, Rebased(ix, to), to);
    if ok { PointerCompletes(w.objs, to, Rebased(ix, to)); }
  }

  /** The page, the index and the first n levels are up under the new base. */
  ghost predicate NewBase(objs: Objects, to: string, ix: Index, n: nat)
    requires ix.createdAt.At? && IsStamp(ix.createdAt.stamp) && n <= |ix.levels|
  {
    && Holds(objs, PageKey(to, ix.createdAt.stamp), PageHtml(Render(ix)))
    && Holds(objs, IndexKey(to, ix.createdAt.stamp), IndexJson(Rebased(ix, to)))
    && forall i | 0 <= i < n ::
         Holds(objs, LevelKey(to, ix.createdAt.stamp, ix.levels[i].folder), Data(LevelBytes(ix.levels[i])))
  }

  lemma NewBaseStored(s: State, to: string, ix: Index)
    requires Moving(s, ix, to) && NewBase(s.objs, to, ix, |ix.levels|)
    ensures Stored(s.objs, to, Rebased(ix, to))
  {
    RebasedIsSound(ix, s.rec.token, to);
  }

  lemma NewBaseStep(objs: Objects, to: string, ix: Index, n: nat)
    requires Publishable(ix) && n < |ix.levels| && NewBase(objs, to, ix, n)
    ensures NewBase(objs[LevelKey(to, ix.createdAt.stamp, ix.levels[n].folder) := Data(LevelBytes(ix.levels[n]))], to,
                    ix, n + 1)
  {
  }

  method MovePageAndIndex(w: World, from: string, ix: Index, to: string) returns (ok: bool)
    requires w.Valid() && AllInv(w.trace) && from == w.rec.token && Moving(w.Now(), ix, to)
    modifies w`objs, w`trace, w`faults, w`sent
    ensures w.Valid() && AllInv(w.trace) && Extends(w.trace, old(w.trace)) && Moving(w.Now(), ix, to)
    ensures w.faults >= old(w.faults) && (!ok ==> w.faults > old(w.faults))
    ensures OnlyBase(old(w.objs), w.objs, to)
    ensures ok ==> NewBase(w.objs, to, ix, 0)
  {
    ok := MovePage(w, from, ix, to);
    if !ok { return; }
    ok := MoveIndex(w, ix, to);
  }

  /** The rebased index, beside the page. */
  method MoveIndex(w: World, ix: Index, to: string) returns (ok: bool)
    requires w.Valid() && AllInv(w.trace) && Moving(w.Now(), ix, to)
    requires Holds(w.objs, PageKey(to, ix.createdAt.stamp), PageHtml(Render(ix)))
    modifies w`objs, w`trace, w`faults, w`sent
    ensures w.Valid() && AllInv(w.trace) && Extends(w.trace, old(w.trace)) && Moving(w.Now(), ix, to)
    ensures w.faults >= old(w.faults) && (!ok ==> w.faults > old(w.faults))
    ensures OnlyBase(old(w.objs), w.objs, to)
    ensures ok ==> NewBase(w.objs, to, ix, 0)
  {
    InvOtherBase(w.Now(), IndexKey(to, ix.createdAt.stamp), IndexJson(Rebased(ix, to)));
    ok := w.Put(IndexKey(to, ix.createdAt.stamp), IndexJson(Rebased(ix, to)));
  }

  method MovePage(w: World, from: string, ix: Index, to: string) returns (ok: bool)
    requires w.Valid() && AllInv(w.trace) && from == w.rec.token && Moving(w.Now(), ix, to)
    modifies w`objs, w`trace, w`faults
    ensures w.Valid() && AllInv(w.trace) && Extends(w.trace, old(w.trace)) && Moving(w.Now(), ix, to)
    ensures w.faults >= old(w.faults) && (!ok ==> w.faults > old(w.faults))
    ensures OnlyBase(old(w.objs), w.objs, to)
    ensures ok ==> Holds(w.objs, PageKey(to, ix.createdAt.stamp), PageHtml(Render(ix)))
  {
    var stamp := ix.createdAt.stamp;
    assert Holds(w.objs, PageKey(from, stamp), PageHtml(Render(ix)));
    InvOtherBase(w.Now(), PageKey(to, stamp), PageHtml(Render(ix)));
    ok := w.Copy(PageKey(to, stamp), PageKey(from, stamp));
  }

  method MoveLevels(w: World, from: string, ix: Index, to: string) returns (ok: bool)
    requires w.Valid() && AllInv(w.trace) && from == w.rec.token && Moving(w.Now(), ix, to)
    requires NewBase(w.objs, to, ix, 0)
    modifies w`objs, w`uploads, w`nextUpload, w`trace, w`faults
    ensures w.Valid() && AllInv(w.trace) && Extends(w.trace, old(w.trace)) && Moving(w.Now(), ix, to)
    ensures w.faults >= old(w.faults) && (!ok && w.faults == old(w.faults) ==> AnyTooLong(ix))
    ensures OnlyBase(old(w.objs), w.objs, to)
    ensures ok ==> NewBase(w.objs, to, ix, |ix.levels|)
  {
    var i := 0;
    ok := false;
    while i < |ix.levels|
      invariant 0 <= i <= |ix.levels|
      invariant w.Valid() && AllInv(w.trace) && Extends(w.trace, old(w.trace)) && Moving(w.Now(), ix, to)
      invariant OnlyBase(old(w.objs), w.objs, to) && NewBase(w.objs, to, ix, i) && w.faults >= old(w.faults)
    {
      ghost var trace := w.trace;
      var good := MoveNext(w, from, ix, i, to);
      ExtendsStill(w.trace, trace, old(w.trace));
      if !good { return; }
      i := i + 1;
    }
    ok := true;
  }

  /** One level of a move, after those before it, unless the move is cancelled. */
  method MoveNext(w: World, from: string, ix: Index, i: nat, to: string) returns (ok: bool)
    requires w.Valid() && AllInv(w.trace) && from == w.rec.token && Moving(w.Now(), ix, to) && i < |ix.levels| &&
              NewBase(w.objs, to, ix, i)
    modifies w`objs, w`uploads, w`nextUpload, w`trace, w`faults
    ensures w.Valid() && AllInv(w.trace) && Extends(w.trace, old(w.trace)) && Moving(w.Now(), ix, to)
    ensures w.faults >= old(w.faults) && (!ok && w.faults == old(w.faults) ==> AnyTooLong(ix))
    ensures OnlyBase(old(w.objs), w.objs, to) && NewBase(w.objs, to, ix, i)
    ensures ok ==> NewBase(w.objs, to, ix, i + 1)
  {
    var cancelled := w.Fails();
    if cancelled { return false; }
    NewBaseStep(w.objs, to, ix, i);
    assert ix.levels[i] in ix.levels;
    ok := MoveLevel(w, from, ix, i, to);
  }

  // --- the base that was left ---

  /** dropDHBase: the pointer of one base, then its snapshots. Nothing of another base goes, and no
      part. */
  method DropBase(w: World, token: string) returns (ok: bool, gone: bool)
    requires w.Valid() && AllInv(w.trace) && token != w.rec.token
    modifies w`objs, w`trace, w`faults
    ensures w.Valid() && AllInv(w.trace) && Extends(w.trace, old(w.trace))
    ensures OnlyBase(old(w.objs), w.objs, token) && w.objs.Keys <= old(w.objs).Keys
    ensures LiveIndex(w.Now()) == LiveIndex(old(w.Now()))
    ensures w.faults >= old(w.faults) && (!ok ==> w.faults > old(w.faults))
    ensures gone ==> Latest(token) !in w.objs
    ensures ok ==> gone && forall k | InBase(k, token) :: k !in w.objs
  {
    ok, gone := false, false;
    var listing := w.List(Snapshots(token));
    if listing.Failed? { return; }
    var keys: seq<Key> := [];
    var i := 0;
    while i < |listing.value|
      invariant 0 <= i <= |listing.value|
      invariant forall k :: k in keys <==> k in KeysOf(listing.value[..i])
      invariant forall k | k in keys :: InRegion(k, Snapshots(token))
    {
      var l := listing.value[i];
      if !InRegion(l.key, Snapshots(token)) { return; }
      assert forall x :: x in listing.value[..i + 1] <==> x in listing.value[..i] || x == l;
      keys, i := keys + [l.key], i + 1;
    }
    assert listing.value[..i] == listing.value;
    gone := DeleteOf(w, token, [Latest(token)]);
    if !gone || keys == [] {
      ok := gone;
      return;
    }
    ok := DeleteOf(w, token, keys);
  }

  method DeleteOf(w: World, token: string, keys: seq<Key>) returns (ok: bool)
    requires w.Valid() && AllInv(w.trace) && token != w.rec.token
    requires forall k | k in keys :: InBase(k, token)
    modifies w`objs, w`trace, w`faults
    ensures w.Valid() && AllInv(w.trace) && Extends(w.trace, old(w.trace))
    ensures OnlyBase(old(w.objs), w.objs, token) && w.objs.Keys <= old(w.objs).Keys
    ensures LiveIndex(w.Now()) == LiveIndex(old(w.Now()))
    ensures w.faults >= old(w.faults) && (!ok ==> w.faults > old(w.faults))
    ensures ok ==> forall k | k in keys :: k !in w.objs
  {
    NowInv(w);
    ghost var s, from, all := w.Now(), |w.trace|, set k | k in keys;
    ok := w.Delete(keys);
    forall i | 0 <= i < |w.trace| ensures Inv(w.trace[i]) {
      if i < from {
        assert w.trace[i] == old(w.trace)[i];
      } else {
        InvThin(s, w.trace[i].objs, all);
      }
    }
    InvThin(s, w.objs, all);
  }
}
