/** Publishing a staged snapshot: the parts the bucket lacks, each level's whole file, the
    index and the page, and latest.json last. */
module Publish {
  import opened Wrappers
  import opened Keys
  import opened Snapshot
  import opened World
  import opened Protocol
  import opened Assemble
  import opened Prune

  // --- the staged folder, which a publish only reads ---

  datatype File = Regular(bytes: Bytes) | Special
  datatype IndexFile = Missing | Unreadable | Parsed(index: Index)
  datatype StageFolder = StageFolder(index: IndexFile, files: map<Digest, File>)

  /** What a snapshot run leaves: files named by the hash of their bytes, and an index whose
      sizes and hashes are those of the content. */
  ghost predicate HonestFolder(f: StageFolder) {
    && (forall d | d in f.files && f.files[d].Regular? :: f.files[d].bytes == d.of)
    && (f.index.Parsed? ==> Honest(f.index.index))
  }

  /** Publishing the same instant again publishes the same index. */
  ghost predicate SameStampSameIndex(s: State, ix: Index) {
    var live := LiveIndex(s);
    live.Some? && live.value.createdAt == ix.createdAt ==> live.value == ix
  }

  // --- reading what was staged ---

  method CheckLevel(l: Level) returns (ok: bool)
    ensures ok == PublishableLevel(l)
  {
    if |l.parts| == 0 || |l.parts| > MAX_PARTS || !l.whole.Whole? { return false; }
    var total, i := 0, 0;
    while i < |l.parts|
      invariant 0 <= i <= |l.parts|
      invariant total == SizeSum(l.parts[..i])
      invariant forall j | 0 <= j < i ::
                  && 0 < l.parts[j].size <= MAX_OBJECT
                  && (j < |l.parts| - 1 ==> l.parts[j].size == l.parts[0].size)
    {
      var part := l.parts[i];
      if part.size <= 0 || part.size > MAX_OBJECT { return false; }
      if i < |l.parts| - 1 && part.size != l.parts[0].size { return false; }
      PartBytesAppend(l.parts[..i], [part]);
      assert l.parts[..i + 1] == l.parts[..i] + [part];
      assert SizeSum([part]) == part.size + SizeSum([part][1..]);
      total, i := total + part.size, i + 1;
    }
    assert l.parts[..i] == l.parts;
    ok := total == l.size;
  }

  /** checkDHIndexForPublish: whether the staged index may go up. */
  method CheckIndex(ix: Index) returns (ok: bool)
    ensures ok == Publishable(ix)
  {
    if ix.levels == [] || !(ix.createdAt.At? && IsStamp(ix.createdAt.stamp)) || !IsKeyName(ix.serverFolder) {
      return false;
    }
    var seen: set<string>, i := {}, 0;
    while i < |ix.levels|
      invariant 0 <= i <= |ix.levels|
      invariant seen == set j | 0 <= j < i :: ix.levels[j].folder
      invariant forall j | 0 <= j < i :: IsLevelFolder(ix.levels[j].folder) && PublishableLevel(ix.levels[j])
      invariant forall j, k | 0 <= j < k < i :: ix.levels[j].folder != ix.levels[k].folder
    {
      var l := ix.levels[i];
      if !IsLevelFolder(l.folder) { return false; }
      if l.folder in seen {
        assert exists j :: 0 <= j < i && ix.levels[j].folder == ix.levels[i].folder;
        return false;
      }
      var good := CheckLevel(l);
      if !good { return false; }
      seen, i := seen + {l.folder}, i + 1;
    }
    ok := true;
  }

  /** readStagedSnapshot: the index, when it is there, publishable and for this layout. */
  method ReadStaged(folder: StageFolder, token: string) returns (r: Option<Index>)
    ensures r.Some? <==> folder.index.Parsed? && Publishable(folder.index.index)
                         && folder.index.index.partsBase == PartsBase(token)
    ensures r.Some? ==> r.value == folder.index.index
  {
    if !folder.index.Parsed? { return None; }
    var ok := CheckIndex(folder.index.index);
    r := if ok && folder.index.index.partsBase == PartsBase(token) then Some(folder.index.index) else None;
  }

  // --- the previous snapshot ---

  datatype Previous = First | Prev(index: Index, key: Key)

  /** readLatestIndex: no latest.json at all is a first snapshot; a pointer that does not
      lead to an index is an error, never a first snapshot. */
  method ReadLatestIndex(w: World, token: string) returns (r: Reply<Previous>)
    modifies w`faults
    ensures w.faults >= old(w.faults)
    ensures r.Failed? && w.faults == old(w.faults) ==> ReadLatest(w.objs, token).Broken?
    ensures r.Ok? ==> match ReadLatest(w.objs, token)
                      case Nothing => r.value == First
                      case Broken => false
                      case Found(ix, k) => r.value == Prev(ix, k)
  {
    var got := w.Get(Latest(token));
    if got.Failed? { return Failed; }
    if got.value.None? { return Ok(First); }
    if !got.value.value.LatestJson? { return Failed; }
    var key := LatestIndexKey(token, got.value.value.ref);
    if key.None? { return Failed; }
    var index := w.Get(key.value);
    if index.Failed? || index.value.None? || !index.value.value.IndexJson? { return Failed; }
    r := Ok(Prev(index.value.value.index, key.value));
  }

  // --- the parts ---

  /** One distinct part of the snapshot: sent from its staged file, or known to be up. */
  datatype PartPlan = PartPlan(digest: Digest, size: int, send: bool)

  datatype PlanReply = Trouble | MissingParts(digests: seq<Digest>) | Planned(plan: seq<PartPlan>)

  function PlanDigests(plan: seq<PartPlan>): set<Digest> { set p | p in plan :: p.digest }

  predicate Distinct(plan: seq<PartPlan>) {
    forall i, j | 0 <= i < j < |plan| :: plan[i].digest != plan[j].digest
  }

  function PlannedPart(p: Previous): set<Digest> {
    match p
    case First => {}
    case Prev(ix, _) => PartSet(ix)
  }

  /** What the plan says of one part: it is sent only from a regular file of its size, and a
      part that is not sent is in the bucket. */
  ghost predicate PlanSound(p: PartPlan, objs: Objects, folder: StageFolder) {
    && p.size == |p.digest.of|
    && (p.send ==> p.digest in folder.files && folder.files[p.digest].Regular?)
    && (!p.send ==> Part(p.digest) in objs)
  }

  /** The parts folder's listing as sizes by digest; only a listing that fails is left out. */
  method ListParts(w: World) returns (inBucket: map<Digest, nat>, listed: bool)
    modifies w`faults
    ensures w.faults >= old(w.faults) && (!listed ==> w.faults > old(w.faults))
    ensures !listed ==> inBucket == map[]
    ensures listed ==> forall d: Digest :: d in inBucket <==> Part(d) in w.objs
    ensures forall d | d in inBucket :: Part(d) in w.objs && inBucket[d] == SizeOf(w.objs[Part(d)])
  {
    inBucket, listed := map[], false;
    var r := w.List(Parts);
    if r.Failed? { return; }
    inBucket := PartSizes(w.objs, r.value);
    listed := true;
  }

  method PartSizes(ghost objs: Objects, listing: seq<Listed>) returns (inBucket: map<Digest, nat>)
    requires Lists(objs, Parts, listing)
    ensures forall d: Digest :: d in inBucket <==> Part(d) in objs
    ensures forall d | d in inBucket :: inBucket[d] == SizeOf(objs[Part(d)])
  {
    inBucket := map[];
    var i := 0;
    while i < |listing|
      invariant 0 <= i <= |listing|
      invariant forall d: Digest :: d in inBucket <==> exists l :: l in listing[..i] && l.key == Part(d)
      invariant forall d | d in inBucket :: Part(d) in objs && inBucket[d] == SizeOf(objs[Part(d)])
    {
      var l := listing[i];
      assert l in listing && listing[..i + 1] == listing[..i] + [l];
      if l.key.Part? {
        inBucket := inBucket[l.key.digest := l.size];
      }
      i := i + 1;
    }
    assert listing[..i] == listing;
    forall d: Digest ensures d in inBucket <==> Part(d) in objs {
      if Part(d) in objs {
        assert Part(d) in KeysOf(listing);
      }
    }
  }

  /** The staged file of a part is a regular one of its size. */
  predicate FileOf(folder: StageFolder, part: PartRef)
    requires part.digest in folder.files
  {
    folder.files[part.digest].Regular? && |folder.files[part.digest].bytes| == part.size
  }

  /** The decision for one part that has not been met before. */
  method PlanOne(w: World, folder: StageFolder, prev: Previous, inBucket: map<Digest, nat>, part: PartRef)
    returns (r: Reply<Option<PartPlan>>)
    modifies w`faults
    ensures w.faults >= old(w.faults)
    ensures r.Failed? && w.faults == old(w.faults) ==>
              part.digest in folder.files &&
              !(folder.files[part.digest].Regular? && |folder.files[part.digest].bytes| == part.size)
    ensures r.Ok? && r.value.Some? ==>
              var p := r.value.value;
              && p.digest == part.digest && p.size == part.size
              && (p.send ==> part.digest in folder.files && folder.files[part.digest].Regular?
                             && |folder.files[part.digest].bytes| == part.size
                             && part.digest !in PlannedPart(prev)
                             && !(part.digest in inBucket && inBucket[part.digest] == part.size))
              && (!p.send ==> || part.digest in PlannedPart(prev)
                              || (part.digest in inBucket && inBucket[part.digest] == part.size)
                              || (Part(part.digest) in w.objs && SizeOf(w.objs[Part(part.digest)]) == part.size))
    ensures r.Ok? && r.value.None? ==>
              && part.digest !in folder.files && part.digest !in PlannedPart(prev)
              && !(Part(part.digest) in w.objs && SizeOf(w.objs[Part(part.digest)]) == part.size)
  {
    var upOnPrev := part.digest in PlannedPart(prev);
    var listed := part.digest in inBucket && inBucket[part.digest] == part.size;
    var staged := part.digest in folder.files;
    if staged {
      if !FileOf(folder, part) { return Failed; }
    }
    if staged && !upOnPrev && !listed {
      return Ok(Some(PartPlan(part.digest, part.size, true)));
    }
    if !staged && !upOnPrev {
      var head := w.Head(Part(part.digest));
      if head.Failed? { return Failed; }
      if head.value.None? || head.value.value != part.size { return Ok(None); }
    }
    r := Ok(Some(PartPlan(part.digest, part.size, false)));
  }

  /** A part of the index is staged as something that cannot be sent. */
  ghost predicate Unsendable(folder: StageFolder, ix: Index) {
    exists d :: d in PartSet(ix) && d in folder.files && folder.files[d].Special?
  }

  /** planParts: every distinct part once, in index order; the run is refused when one is
      neither staged nor in the bucket. When nothing faults, so with a listing that worked, what
      is sent is exactly what the bucket lacks. */
  method PlanParts(w: World, folder: StageFolder, ix: Index, prev: Previous) returns (r: PlanReply)
    requires HonestFolder(folder) && Honest(ix) && PartsHonest(w.objs)
    requires forall d | d in PlannedPart(prev) :: Part(d) in w.objs
    modifies w`faults
    ensures w.faults >= old(w.faults)
    ensures r.Trouble? && w.faults == old(w.faults) ==> Unsendable(folder, ix)
    ensures r.Planned? ==> Distinct(r.plan) && PlanDigests(r.plan) == PartSet(ix)
    ensures r.Planned? ==> forall p | p in r.plan :: PlanSound(p, w.objs, folder)
    ensures r.Planned? && w.faults == old(w.faults) ==> SendsLacking(r.plan, w.objs)
    ensures r.MissingParts? ==> r.digests != []
    ensures r.MissingParts? ==>
              forall d | d in r.digests :: d in PartSet(ix) && d !in folder.files && Part(d) !in w.objs
    ensures r.Planned? ==> AllAtHand(ix, folder, w.objs)
    ensures AllAtHand(ix, folder, w.objs) ==> !r.MissingParts?
  {
    var inBucket, listed := ListParts(w);
    var seen: set<Digest>, plan: seq<PartPlan>, missing: seq<Digest> := {}, [], [];
    var i := 0;
    while i < |ix.levels|
      invariant 0 <= i <= |ix.levels| && w.faults >= old(w.faults) && (w.faults == old(w.faults) ==> listed)
      invariant seen == LevelDigests(ix.levels[..i])
      invariant PlanState(w.objs, folder, ix, seen, plan, missing, listed)
    {
      var l := ix.levels[i];
      assert ix.levels[..i + 1] == ix.levels[..i] + [l];
      LevelDigestsSnoc(ix.levels[..i], l);
      var ok;
      ok, seen, plan, missing := PlanLevel(w, folder, ix, i, prev, inBucket, listed, seen, plan, missing);
      if !ok { return Trouble; }
      i := i + 1;
    }
    assert ix.levels[..i] == ix.levels;
    if missing != [] {
      assert missing[0] in missing;
      return MissingParts(missing);
    }
    r := Planned(plan);
    forall d | d in PartSet(ix) ensures d in folder.files || Part(d) in w.objs {
      assert d in PlanDigests(plan);
      var p :| p in plan && p.digest == d;
    }
  }

  /** The plan sends a part exactly when the bucket lacks it. */
  ghost predicate SendsLacking(plan: seq<PartPlan>, objs: Objects) {
    forall p | p in plan :: p.send <==> Part(p.digest) !in objs
  }

  ghost predicate AllAtHand(ix: Index, folder: StageFolder, objs: Objects) {
    forall d | d in PartSet(ix) :: d in folder.files || Part(d) in objs
  }

  /** The inner loop of planParts: the parts of one level. */
  method PlanLevel(w: World, folder: StageFolder, ix: Index, i: nat, prev: Previous, inBucket: map<Digest, nat>,
                   listed: bool,
                   seen0: set<Digest>, plan0: seq<PartPlan>, missing0: seq<Digest>)
    returns (ok: bool, seen: set<Digest>, plan: seq<PartPlan>, missing: seq<Digest>)
    requires HonestFolder(folder) && Honest(ix) && PartsHonest(w.objs) && i < |ix.levels|
    requires forall d | d in PlannedPart(prev) :: Part(d) in w.objs
    requires listed ==> forall d: Digest :: d in inBucket <==> Part(d) in w.objs
    requires forall d | d in inBucket :: Part(d) in w.objs && inBucket[d] == SizeOf(w.objs[Part(d)])
    requires PlanState(w.objs, folder, ix, seen0, plan0, missing0, listed)
    modifies w`faults
    ensures w.faults >= old(w.faults) && (!ok && w.faults == old(w.faults) ==> Unsendable(folder, ix))
    ensures ok ==> PlanState(w.objs, folder, ix, seen, plan, missing, listed)
    ensures ok ==> seen == seen0 + Digests(ix.levels[i].parts)
  {
    ok, seen, plan, missing := true, seen0, plan0, missing0;
    var parts, j := ix.levels[i].parts, 0;
    assert ix.levels[i] in ix.levels && HonestLevel(ix.levels[i]);
    while j < |parts|
      invariant 0 <= j <= |parts| && ok && w.faults >= old(w.faults)
      invariant seen == seen0 + Digests(parts[..j])
      invariant PlanState(w.objs, folder, ix, seen, plan, missing, listed)
    {
      var part := parts[j];
      assert part in parts && part.digest in PartSet(ix);
      assert parts[..j + 1] == parts[..j] + [part];
      assert Digests(parts[..j + 1]) == Digests(parts[..j]) + {part.digest};
      j := j + 1;
      if part.digest in seen { continue; }
      ok, plan, missing := PlanPart(w, folder, ix, prev, inBucket, listed, part, seen, plan, missing);
      if !ok { return; }
      seen := seen + {part.digest};
    }
    assert parts[..j] == parts;
  }

  /** A part not met before. */
  method PlanPart(w: World, folder: StageFolder, ix: Index, prev: Previous, inBucket: map<Digest, nat>, listed: bool,
                  part: PartRef,
                  seen: set<Digest>, plan0: seq<PartPlan>, missing0: seq<Digest>)
    returns (ok: bool, plan: seq<PartPlan>, missing: seq<Digest>)
    requires HonestFolder(folder) && PartsHonest(w.objs) && part.size == |part.digest.of|
    requires part.digest in PartSet(ix) && part.digest !in seen
    requires forall d | d in PlannedPart(prev) :: Part(d) in w.objs
    requires listed ==> forall d: Digest :: d in inBucket <==> Part(d) in w.objs
    requires forall d | d in inBucket :: Part(d) in w.objs && inBucket[d] == SizeOf(w.objs[Part(d)])
    requires PlanState(w.objs, folder, ix, seen, plan0, missing0, listed)
    modifies w`faults
    ensures w.faults >= old(w.faults) && (!ok && w.faults == old(w.faults) ==> Unsendable(folder, ix))
    ensures ok ==> PlanState(w.objs, folder, ix, seen + {part.digest}, plan, missing, listed)
  {
    ok, plan, missing := false, plan0, missing0;
    var cancelled := w.Fails();
    if cancelled { return; }
    var one := PlanOne(w, folder, prev, inBucket, part);
    if one.Failed? { return; }
    ok := true;
    if one.value.None? {
      PlanMissing(w.objs, folder, ix, seen, plan, missing, listed, part.digest);
      missing := missing + [part.digest];
    } else {
      PlanAdd(w.objs, folder, ix, seen, plan, missing, listed, one.value.value);
      plan := plan + [one.value.value];
    }
  }

  lemma PlanAdd(objs: Objects, folder: StageFolder, ix: Index, seen: set<Digest>,
                plan: seq<PartPlan>, missing: seq<Digest>, listed: bool, p: PartPlan)
    requires PlanState(objs, folder, ix, seen, plan, missing, listed)
    requires p.digest in PartSet(ix) && p.digest !in seen && PlanSound(p, objs, folder)
    requires listed ==> (p.send <==> Part(p.digest) !in objs)
    ensures PlanState(objs, folder, ix, seen + {p.digest}, plan + [p], missing, listed)
  {
    var more := plan + [p];
    assert forall q :: q in more <==> q in plan || q == p;
    assert PlanDigests(more) == PlanDigests(plan) + {p.digest};
    forall k | 0 <= k < |plan| ensures plan[k].digest != p.digest {
      assert plan[k] in plan && plan[k].digest in PlanDigests(plan);
    }
  }

  lemma PlanMissing(objs: Objects, folder: StageFolder, ix: Index, seen: set<Digest>,
                    plan: seq<PartPlan>, missing: seq<Digest>, listed: bool, d: Digest)
    requires PlanState(objs, folder, ix, seen, plan, missing, listed)
    requires d in PartSet(ix) && d !in folder.files && Part(d) !in objs
    ensures PlanState(objs, folder, ix, seen + {d}, plan, missing + [d], listed)
  {
  }

  function LevelDigests(levels: seq<Level>): set<Digest> {
    set l, p | l in levels && p in l.parts :: p.digest
  }

  lemma LevelDigestsSnoc(levels: seq<Level>, l: Level)
    ensures LevelDigests(levels + [l]) == LevelDigests(levels) + Digests(l.parts)
  {
    assert forall x :: x in levels + [l] <==> x in levels || x == l;
  }

  /** Each part met so far is planned once or missing, and planned soundly. */
  ghost predicate PlanState(objs: Objects, folder: StageFolder, ix: Index, seen: set<Digest>,
                            plan: seq<PartPlan>, missing: seq<Digest>, listed: bool)
  {
    && seen <= PartSet(ix) && PlanDigests(plan) <= seen && Distinct(plan)
    && (forall d | d in seen :: d in PlanDigests(plan) || d in missing)
    && (forall d | d in missing :: d in PartSet(ix) && d !in folder.files && Part(d) !in objs)
    && (forall p | p in plan :: PlanSound(p, objs, folder))
    && (listed ==> SendsLacking(plan, objs))
  }

  /** after is before with some of these parts added, each with the bytes it names. */
  ghost predicate Grown(before: Objects, after: Objects, parts: set<Digest>) {
    && (forall k | k in before :: Holds(after, k, before[k]))
    && (forall k | k in after && k !in before :: k.Part? && k.digest in parts && after[k] == Data(k.digest.of))
  }

  lemma InvGrown(s: State, after: Objects, parts: set<Digest>)
    requires Inv(s) && Grown(s.objs, after, parts)
    ensures Inv(s.(objs := after)) && LiveIndex(s.(objs := after)) == LiveIndex(s)
  {
    InvFrame(s, after);
  }

  datatype Sent = Sent(uploaded: nat, skipped: nat, bytes: nat)

  function PartKeys(parts: seq<Digest>): seq<Key> {
    seq(|parts|, i requires 0 <= i < |parts| => Part(parts[i]))
  }

  function TotalBytes(parts: seq<Digest>): nat {
    if parts == [] then 0 else TotalBytes(parts[..|parts| - 1]) + |parts[|parts| - 1].of|
  }

  lemma OneMorePart(parts: seq<Digest>, d: Digest)
    ensures PartKeys(parts + [d]) == PartKeys(parts) + [Part(d)]
    ensures TotalBytes(parts + [d]) == TotalBytes(parts) + |d.of|
  {
    assert (parts + [d])[..|parts|] == parts;
  }

  /** What was put so far is the beginning of what the plan sends, in its order. */
  ghost predicate SentSome(sent0: seq<Key>, sent: seq<Key>, plan: seq<PartPlan>) {
    sent0 <= sent <= sent0 + PartKeys(Sending(plan))
  }

  /** sendParts: one conditional put for each part to send, in order and no other. When it succeeds
      every part of the plan is in the bucket, and each was either sent or skipped; only a fault
      makes it fail, and without one exactly the parts the bucket lacked are uploaded. */
  method SendParts(w: World, folder: StageFolder, plan: seq<PartPlan>) returns (ok: bool, res: Sent)
    requires w.Valid() && AllInv(w.trace) && HonestFolder(folder)
    requires PlansSound(plan, w.objs, folder)
    modifies w`objs, w`trace, w`faults, w`sent
    ensures w.Valid() && AllInv(w.trace) && Extends(w.trace, old(w.trace))
    ensures w.faults >= old(w.faults) && (!ok ==> w.faults > old(w.faults))
    ensures Grown(old(w.objs), w.objs, PlanDigests(plan)) && LiveIndex(w.Now()) == LiveIndex(old(w.Now()))
    ensures SentSome(old(w.sent), w.sent, plan) && (ok ==> w.sent == old(w.sent) + PartKeys(Sending(plan)))
    ensures ok ==> forall p | p in plan :: Part(p.digest) in w.objs
    ensures ok ==> res.uploaded + res.skipped == |plan| && res.uploaded <= |Sending(plan)|
    ensures Distinct(plan) && SendsLacking(plan, old(w.objs)) && w.faults == old(w.faults) ==>
              res.uploaded == |Sending(plan)| && res.bytes == TotalBytes(Sending(plan))
  {
    ok, res := SendEach(w, folder, plan);
    if ok { AllDone(old(w.objs), w.objs, plan, res, old(w.sent), w.sent, old(w.faults), w.faults); }
  }

  method SendEach(w: World, folder: StageFolder, plan: seq<PartPlan>) returns (ok: bool, res: Sent)
    requires w.Valid() && AllInv(w.trace) && HonestFolder(folder) && PlansSound(plan, w.objs, folder)
    modifies w`objs, w`trace, w`faults, w`sent
    ensures w.Valid() && AllInv(w.trace) && Extends(w.trace, old(w.trace))
    ensures w.faults >= old(w.faults) && (!ok ==> w.faults > old(w.faults))
    ensures Grown(old(w.objs), w.objs, PlanDigests(plan)) && LiveIndex(w.Now()) == LiveIndex(old(w.Now()))
    ensures SentSome(old(w.sent), w.sent, plan)
    ensures ok ==> SendingSo(old(w.objs), w.objs, plan, |plan|, res, old(w.sent), w.sent, old(w.faults), w.faults)
  {
    ok, res := true, Sent(0, 0, 0);
    ghost var s0, trace0, sent0, faults0 := w.Now(), w.trace, w.sent, w.faults;
    NoneDone(w.objs, plan, w.sent, w.faults);
    var i := 0;
    while ok && i < |plan|
      invariant 0 <= i <= |plan| && SendingOn(w, plan, s0, trace0, sent0, faults0)
      invariant ok ==> SendingSo(s0.objs, w.objs, plan, i, res, sent0, w.sent, faults0, w.faults)
      invariant !ok ==> w.faults > faults0
      decreases |plan| - i, ok
    {
      ok, res := SendAt(w, folder, plan, i, res, s0, trace0, sent0, faults0);
      if ok { i := i + 1; }
    }
  }

  /** What a run through the plan keeps. */
  ghost predicate SendingOn(w: World, plan: seq<PartPlan>, s0: State, trace0: seq<State>, sent0: seq<Key>, faults0: nat)
    reads w
  {
    && w.Valid() && AllInv(w.trace) && Extends(w.trace, trace0) && w.faults >= faults0
    && Grown(s0.objs, w.objs, PlanDigests(plan)) && LiveIndex(w.Now()) == LiveIndex(s0)
    && SentSome(sent0, w.sent, plan) && w.rec == s0.rec
  }

  ghost predicate PlansSound(plan: seq<PartPlan>, objs: Objects, folder: StageFolder) {
    forall p | p in plan :: PlanSound(p, objs, folder)
  }

  lemma NoneDone(objs: Objects, plan: seq<PartPlan>, sent: seq<Key>, faults: nat)
    ensures SendingSo(objs, objs, plan, 0, Sent(0, 0, 0), sent, sent, faults, faults)
    ensures Grown(objs, objs, PlanDigests(plan)) && SentSome(sent, sent, plan)
  {
    assert plan[..0] == [] && Sending(plan[..0]) == [];
    assert sent + PartKeys([]) == sent;
    if Distinct(plan) && SendsLacking(plan, objs) {
      forall j | 0 <= j < |plan| && plan[j].send ensures Part(plan[j].digest) !in objs {
        assert plan[j] in plan;
      }
    }
  }

  lemma AllDone(objs0: Objects, objs: Objects, plan: seq<PartPlan>, res: Sent, sent0: seq<Key>, sent: seq<Key>,
                faults0: nat, faults: nat)
    requires SendingSo(objs0, objs, plan, |plan|, res, sent0, sent, faults0, faults)
    ensures sent == sent0 + PartKeys(Sending(plan)) && (forall p | p in plan :: Part(p.digest) in objs)
    ensures res.uploaded + res.skipped == |plan| && res.uploaded <= |Sending(plan)|
    ensures Distinct(plan) && SendsLacking(plan, objs0) && faults == faults0 ==>
              res.uploaded == |Sending(plan)| && res.bytes == TotalBytes(Sending(plan))
  {
    assert plan[..|plan|] == plan;
    AllSent(objs, plan);
  }

  /** The loop's step. */
  method SendAt(w: World, folder: StageFolder, plan: seq<PartPlan>, i: nat, res0: Sent, ghost s0: State,
                ghost trace0: seq<State>, ghost sent0: seq<Key>, ghost faults0: nat)
    returns (sent: bool, res: Sent)
    requires SendingOn(w, plan, s0, trace0, sent0, faults0)
    requires HonestFolder(folder) && PlansSound(plan, s0.objs, folder) && i < |plan|
    requires SendingSo(s0.objs, w.objs, plan, i, res0, sent0, w.sent, faults0, w.faults)
    modifies w`objs, w`trace, w`faults, w`sent
    ensures SendingOn(w, plan, s0, trace0, sent0, faults0)
    ensures !sent ==> w.faults > faults0
    ensures sent ==> SendingSo(s0.objs, w.objs, plan, i + 1, res, sent0, w.sent, faults0, w.faults)
  {
    var p := plan[i];
    assert p in plan && PlanSound(p, s0.objs, folder);
    sent, res := SendNext(w, folder, p, res0, s0.objs, PlanDigests(plan));
    ExtendsStill(w.trace, old(w.trace), trace0);
    PutsInOrder(plan, i, sent0, old(w.sent), w.sent);
    if sent {
      SentNext(old(w.objs), w.objs, plan, i);
      OneMoreDone(s0.objs, old(w.objs), w.objs, plan, i, res0, res, sent0, old(w.sent), w.sent, faults0, old(w.faults),
                  w.faults);
    }
  }

  /** Where a run through the plan is. */
  ghost predicate SendingSo(objs0: Objects, objs: Objects, plan: seq<PartPlan>, i: nat, res: Sent, sent0: seq<Key>,
                            sent: seq<Key>, faults0: nat, faults: nat)
    requires i <= |plan|
  {
    var puts := Sending(plan[..i]);
    && sent == sent0 + PartKeys(puts) && res.uploaded <= |puts|
    && SentSoFar(objs, plan, i) && res.uploaded + res.skipped == i
    && (Distinct(plan) && SendsLacking(plan, objs0) ==> StillLacking(objs, plan, i))
    && (Distinct(plan) && SendsLacking(plan, objs0) && faults == faults0 ==>
          res.uploaded == |puts| && res.bytes == TotalBytes(puts))
  }

  lemma OneMoreDone(objs0: Objects, objs: Objects, next: Objects, plan: seq<PartPlan>, i: nat, res0: Sent, res: Sent,
                    sent0: seq<Key>, sent1: seq<Key>, sent: seq<Key>, faults0: nat, faults: nat, faults': nat)
    requires i < |plan| && SendingSo(objs0, objs, plan, i, res0, sent0, sent1, faults0, faults)
    requires faults0 <= faults <= faults'
    requires SentSoFar(next, plan, i + 1)
    requires Distinct(plan) && StillLacking(objs, plan, i) ==> StillLacking(next, plan, i + 1)
    requires sent == sent1 + (if plan[i].send then [Part(plan[i].digest)] else [])
    requires res.uploaded + res.skipped == res0.uploaded + res0.skipped + 1
    requires res0.uploaded <= res.uploaded <= res0.uploaded + (if plan[i].send then 1 else 0)
    requires res.bytes == res0.bytes + (if res.uploaded > res0.uploaded then |plan[i].digest.of| else 0)
    requires plan[i].send && Part(plan[i].digest) !in objs && faults' == faults ==> res.uploaded == res0.uploaded + 1
    ensures SendingSo(objs0, next, plan, i + 1, res, sent0, sent, faults0, faults')
  {
    PutsNext(plan, i);
    assert sent0 + (PartKeys(Sending(plan[..i])) + (if plan[i].send then [Part(plan[i].digest)] else [])) == sent;
  }

  lemma PutsNext(plan: seq<PartPlan>, i: nat)
    requires i < |plan|
    ensures var puts, more, p := Sending(plan[..i]), Sending(plan[..i + 1]), plan[i];
            && |more| == |puts| + (if p.send then 1 else 0)
            && PartKeys(more) == PartKeys(puts) + (if p.send then [Part(p.digest)] else [])
            && TotalBytes(more) == TotalBytes(puts) + (if p.send then |p.digest.of| else 0)
  {
    SendingSnoc(plan, i);
    OneMorePart(Sending(plan[..i]), plan[i].digest);
    assert Sending(plan[..i]) + [] == Sending(plan[..i]);
  }

  lemma PutsInOrder(plan: seq<PartPlan>, i: nat, sent0: seq<Key>, sent1: seq<Key>, sent: seq<Key>)
    requires i < |plan| && sent1 == sent0 + PartKeys(Sending(plan[..i]))
    requires sent == sent1 || (plan[i].send && sent == sent1 + [Part(plan[i].digest)])
    ensures SentSome(sent0, sent, plan)
  {
    SendingSnoc(plan, i);
    OneMorePart(Sending(plan[..i]), plan[i].digest);
    SendingPrefix(plan, i);
    KeysInOrder(Sending(plan[..i]), Sending(plan));
    KeysInOrder(Sending(plan[..i + 1]), Sending(plan));
  }

  lemma KeysInOrder(some: seq<Digest>, all: seq<Digest>)
    requires some <= all
    ensures PartKeys(some) <= PartKeys(all)
  {}

  ghost predicate SentSoFar(objs: Objects, plan: seq<PartPlan>, n: nat)
    requires n <= |plan|
  {
    forall j | 0 <= j < n :: Part(plan[j].digest) in objs
  }

  /** What is still to be sent is still not there. */
  ghost predicate StillLacking(objs: Objects, plan: seq<PartPlan>, n: nat) {
    forall j | n <= j < |plan| && plan[j].send :: Part(plan[j].digest) !in objs
  }

  lemma SentNext(objs: Objects, next: Objects, plan: seq<PartPlan>, n: nat)
    requires n < |plan| && SentSoFar(objs, plan, n) && (forall k | k in objs :: k in next) &&
              Part(plan[n].digest) in next
    requires forall k | k in next :: k in objs || k == Part(plan[n].digest)
    ensures SentSoFar(next, plan, n + 1)
    ensures Distinct(plan) && StillLacking(objs, plan, n) ==> StillLacking(next, plan, n + 1)
  {}

  lemma AllSent(objs: Objects, plan: seq<PartPlan>)
    requires SentSoFar(objs, plan, |plan|)
    ensures (forall p | p in plan :: Part(p.digest) in objs) && forall d | d in Sending(plan) :: Part(d) in objs
  {
    forall d | d in Sending(plan) ensures Part(d) in objs {
      SendingIn(plan, d);
    }
  }

  lemma GrownMore(a: Objects, b: Objects, c: Objects, parts: set<Digest>, d: Digest)
    requires Grown(a, b, parts) && Grown(b, c, {d}) && d in parts
    ensures Grown(a, c, parts) && (forall k | k in b :: k in c) && forall k | k in c :: k in b || k == Part(d)
  {}

  /** One step of the plan: a part known to be there is counted, another is put. */
  method SendNext(w: World, folder: StageFolder, p: PartPlan, res0: Sent, ghost objs: Objects, ghost parts: set<Digest>)
    returns (ok: bool, res: Sent)
    requires w.Valid() && AllInv(w.trace) && HonestFolder(folder)
    requires PlanSound(p, objs, folder) && Grown(objs, w.objs, parts) && p.digest in parts
    modifies w`objs, w`trace, w`faults, w`sent
    ensures w.Valid() && AllInv(w.trace) && Extends(w.trace, old(w.trace))
    ensures w.faults >= old(w.faults) && (!ok ==> w.faults > old(w.faults))
    ensures Grown(objs, w.objs, parts) && (forall k | k in old(w.objs) :: k in w.objs)
    ensures forall k | k in w.objs :: k in old(w.objs) || k == Part(p.digest)
    ensures LiveIndex(w.Now()) == LiveIndex(old(w.Now()))
    ensures ok ==> w.sent == old(w.sent) + (if p.send then [Part(p.digest)] else []) && Part(p.digest) in w.objs
    ensures w.sent == old(w.sent) || (p.send && w.sent == old(w.sent) + [Part(p.digest)])
    ensures ok ==> res.uploaded + res.skipped == res0.uploaded + res0.skipped + 1
    ensures ok ==> res0.uploaded <= res.uploaded <= res0.uploaded + (if p.send then 1 else 0)
    ensures ok ==> res.bytes == res0.bytes + (if res.uploaded > res0.uploaded then |p.digest.of| else 0)
    ensures p.send && Part(p.digest) !in old(w.objs) && w.faults == old(w.faults) ==> res.uploaded == res0.uploaded + 1
  {
    ok, res := false, res0;
    if !p.send { return true, res.(skipped := res.skipped + 1); }
    var cancelled := w.Fails();
    if cancelled { return; }
    var r := SendOne(w, p, folder.files[p.digest].bytes, objs, parts);
    match r {
      case PutFailed => return;
      case Written => res := res.(uploaded := res.uploaded + 1, bytes := res.bytes + p.size);
      case Present => res := res.(skipped := res.skipped + 1);
    }
    ok := true;
  }

  method SendOne(w: World, p: PartPlan, file: Bytes, ghost objs: Objects, ghost parts: set<Digest>)
    returns (r: PutReply)
    requires w.Valid() && AllInv(w.trace) && file == p.digest.of
    requires Grown(objs, w.objs, parts) && p.digest in parts
    modifies w`objs, w`trace, w`faults, w`sent
    ensures w.Valid() && AllInv(w.trace) && Extends(w.trace, old(w.trace))
    ensures w.faults >= old(w.faults) && (r.PutFailed? ==> w.faults > old(w.faults))
    ensures w.faults == old(w.faults) ==> r == if Part(p.digest) in old(w.objs) then Present else Written
    ensures Grown(objs, w.objs, parts) && (forall k | k in old(w.objs) :: k in w.objs)
    ensures forall k | k in w.objs :: k in old(w.objs) || k == Part(p.digest)
    ensures LiveIndex(w.Now()) == LiveIndex(old(w.Now()))
    ensures !r.PutFailed? ==> Part(p.digest) in w.objs
    ensures w.sent == old(w.sent) + [Part(p.digest)]
  {
    NowInv(w);
    ghost var s := w.Now();
    r := w.PutIfAbsent(Part(p.digest), Data(file));
    InvGrown(s, w.objs, {p.digest});
    GrownMore(objs, s.objs, w.objs, parts, p.digest);
  }

  /** The parts the plan sends, in order. */
  function Sending(plan: seq<PartPlan>): seq<Digest> {
    if plan == [] then []
    else
      var n := |plan| - 1;
      Sending(plan[..n]) + (if plan[n].send then [plan[n].digest] else [])
  }

  lemma SendingSnoc(plan: seq<PartPlan>, i: nat)
    requires i < |plan|
    ensures Sending(plan[..i + 1]) == Sending(plan[..i]) + (if plan[i].send then [plan[i].digest] else [])
    ensures Sending(plan[..i + 1]) <= Sending(plan)
  {
    assert plan[..i + 1][..i] == plan[..i];
    SendingPrefix(plan, i + 1);
  }

  lemma {:induction false} SendingPrefix(plan: seq<PartPlan>, i: nat)
    requires i <= |plan|
    ensures Sending(plan[..i]) <= Sending(plan)
    decreases |plan|
  {
    if i < |plan| {
      SendingPrefix(plan[..|plan| - 1], i);
      assert plan[..|plan| - 1][..i] == plan[..i];
    } else {
      assert plan[..i] == plan;
    }
  }

  lemma {:induction false} SendingIn(plan: seq<PartPlan>, d: Digest)
    ensures d in Sending(plan) <==> exists p :: p in plan && p.send && p.digest == d
  {
    if plan != [] {
      var n := |plan| - 1;
      SendingIn(plan[..n], d);
      assert plan == plan[..n] + [plan[n]];
    }
  }

  // --- assembling ---

  /** The level file beside an index: <the index's folder>/<level folder>/<database>. */
  function BesideIndex(index: Key, folder: string): Key {
    var p := RelPath(index);
    KeyOf((if p == [] then [] else p[..|p| - 1]) + [Text(folder), DATABASE])
  }

  lemma BesideIndexIsLevel(token: string, stamp: string, folder: string)
    requires ValidToken(token)
    ensures BesideIndex(IndexKey(token, stamp), folder) == LevelKey(token, stamp, folder)
  {
    var p := RelPath(IndexKey(token, stamp));
    assert p[..|p| - 1] + [Text(folder), DATABASE] == RelPath(LevelKey(token, stamp, folder));
    KeyOfRelPath(LevelKey(token, stamp, folder));
  }

  ghost predicate PrevIs(s: State, prev: Previous) {
    match ReadLatest(s.objs, s.rec.token)
    case Nothing => prev == First
    case Broken => false
    case Found(ix, k) => prev == Prev(ix, k)
  }

  lemma NowInv(w: World)
    requires w.Valid() && AllInv(w.trace)
    ensures Inv(w.Now())
  {
  }

  /** The previous snapshot has a level of this folder, hash and size. */
  ghost predicate Unchanged(prev: Previous, l: Level) {
    prev.Prev? && exists j :: 0 <= j < |prev.index.levels| && prev.index.levels[j].folder == l.folder
                              && prev.index.levels[j].whole == l.whole && prev.index.levels[j].size == l.size
  }

  /** unchangedPreviousFile: the previous file for a level that did not change. When nothing fails it is
      offered whenever it is there. */
  method UnchangedPreviousFile(w: World, prev: Previous, l: Level) returns (r: Option<Key>)
    modifies w`faults
    ensures w.faults >= old(w.faults)
    ensures r.Some? ==> Unchanged(prev, l) && r.value == BesideIndex(prev.key, l.folder)
    ensures r.Some? ==> r.value in w.objs && SizeOf(w.objs[r.value]) == l.size
    ensures r.None? && w.faults == old(w.faults) && Unchanged(prev, l) ==>
              var key := BesideIndex(prev.key, l.folder);
              key !in w.objs || SizeOf(w.objs[key]) != l.size
  {
    if prev.First? { return None; }
    var j := 0;
    while j < |prev.index.levels|
      invariant 0 <= j <= |prev.index.levels| && w.faults == old(w.faults)
      invariant forall k | 0 <= k < j ::
                  var pl := prev.index.levels[k]; !(pl.folder == l.folder && pl.whole == l.whole && pl.size == l.size)
    {
      var pl := prev.index.levels[j];
      if pl.folder == l.folder && pl.whole == l.whole && pl.size == l.size {
        var key := BesideIndex(prev.key, l.folder);
        var head := w.Head(key);
        if head.Failed? || head.value.None? || head.value.value != l.size { return None; }
        return Some(key);
      }
      j := j + 1;
    }
    r := None;
  }

  /** A level with the same whole-file hash has the same bytes, so the previous file is it. */
  lemma UnchangedIsSame(s: State, prev: Previous, l: Level, key: Key)
    requires Inv(s) && PrevIs(s, prev) && HonestLevel(l) && Unchanged(prev, l)
    requires key == BesideIndex(prev.key, l.folder)
    ensures Holds(s.objs, key, Data(LevelBytes(l)))
  {
    var j :| 0 <= j < |prev.index.levels| && prev.index.levels[j].folder == l.folder
             && prev.index.levels[j].whole == l.whole && prev.index.levels[j].size == l.size;
    assert Complete(s.objs, s.rec.token) && Sound(prev.index, s.rec.token);
    assert HonestLevel(prev.index.levels[j]);
    BesideIndexIsLevel(s.rec.token, prev.index.createdAt.stamp, l.folder);
  }

  /** What publishing needs of the state while the levels are being assembled. */
  ghost predicate Ready(s: State, ix: Index) {
    Sound(ix, s.rec.token) && PartsStored(s.objs, ix) && SameStampSameIndex(s, ix)
  }

  /** Nothing changed but what the snapshot consists of. */
  ghost predicate OnlyNeeded(before: Objects, after: Objects, token: string, ix: Index)
    requires ix.createdAt.At?
  {
    forall k | !Needs(ix, token, k) :: (k in after <==> k in before) && (k in before ==> after[k] == before[k])
  }

  lemma OnlyNeededTwice(a: Objects, b: Objects, c: Objects, token: string, ix: Index)
    requires ix.createdAt.At? && OnlyNeeded(a, b, token, ix) && OnlyNeeded(b, c, token, ix)
    ensures OnlyNeeded(a, c, token, ix)
  {}

  lemma OneNeeded(a: Objects, b: Objects, k: Key, o: Obj, token: string, ix: Index)
    requires ix.createdAt.At? && Needs(ix, token, k) && (b == a || b == a[k := o])
    ensures OnlyNeeded(a, b, token, ix)
  {}

  lemma LevelIsNeeded(token: string, ix: Index, i: nat)
    requires ix.createdAt.At? && i < |ix.levels|
    ensures Needs(ix, token, LevelKey(token, ix.createdAt.stamp, ix.levels[i].folder))
  {}

  lemma PartsAreNeeded(a: Objects, b: Objects, parts: set<Digest>, token: string, ix: Index)
    requires ix.createdAt.At? && Grown(a, b, parts) && parts == PartSet(ix)
    ensures OnlyNeeded(a, b, token, ix)
  {}

  /** The bucket with this snapshot written into it, live. */
  ghost predicate Wrote(before: Objects, after: Objects, token: string, ix: Index)
    requires ix.createdAt.At? && IsStamp(ix.createdAt.stamp)
  {
    OnlyNeeded(before, after, token, ix) && Stored(after, token, ix) &&
      Holds(after, Latest(token), PointerTo(ix, token))
  }

  /** Writing a file of this snapshot's own folder: a level, the index or the page. */
  lemma InvOwnFile(s: State, ix: Index, k: Key, o: Obj)
    requires Inv(s) && Ready(s, ix)
    requires || (k == IndexKey(s.rec.token, ix.createdAt.stamp) && o == IndexJson(ix))
             || (k == PageKey(s.rec.token, ix.createdAt.stamp) && o == PageHtml(Render(ix)))
             || (exists i :: 0 <= i < |ix.levels| && k == LevelKey(s.rec.token, ix.createdAt.stamp, ix.levels[i].folder)
                             && o == Data(LevelBytes(ix.levels[i])))
    ensures Inv(s.(objs := s.objs[k := o])) && Ready(s.(objs := s.objs[k := o]), ix)
    ensures ReadLatest(s.objs[k := o], s.rec.token) == ReadLatest(s.objs, s.rec.token)
  {
    if Latest(s.rec.token) in s.objs {
      var live := ReadLatest(s.objs, s.rec.token).index;
      if Needs(live, s.rec.token, k) {
        assert live.createdAt == ix.createdAt && live == ix;
        assert Stored(s.objs, s.rec.token, ix);
      }
    }
    InvPut(s, k, o);
  }

  /** assembleLevel: from the previous file when it is confirmed, else from the parts. Without
      a fault it fails only for a file with more ranges than one upload takes. */
  method AssembleLevel(w: World, token: string, ix: Index, i: nat, prev: Previous) returns (ok: bool)
    requires w.Valid() && AllInv(w.trace) && token == w.rec.token && i < |ix.levels|
    requires Ready(w.Now(), ix) && PrevIs(w.Now(), prev)
    modifies w`objs, w`uploads, w`nextUpload, w`trace, w`faults
    ensures w.Valid() && AllInv(w.trace) && Extends(w.trace, old(w.trace))
    ensures w.faults >= old(w.faults) && (!ok && w.faults == old(w.faults) ==> TooLong(ix.levels[i]))
    ensures var k := LevelKey(token, ix.createdAt.stamp, ix.levels[i].folder);
            || w.objs == old(w.objs)[k := Data(LevelBytes(ix.levels[i]))]
            || (!ok && w.objs == old(w.objs))
    ensures Ready(w.Now(), ix) && PrevIs(w.Now(), prev)
  {
    var steps := StepsFor(w, token, ix, i, prev);
    ok := AssembleOwn(w, token, ix, i, prev, steps);
  }

  method AssembleOwn(w: World, token: string, ix: Index, i: nat, prev: Previous, steps: seq<CopyStep>)
    returns (ok: bool)
    requires w.Valid() && AllInv(w.trace) && token == w.rec.token && i < |ix.levels|
    requires Ready(w.Now(), ix) && PrevIs(w.Now(), prev)
    requires Built(w.objs, steps).Some? ==> Built(w.objs, steps).value == LevelBytes(ix.levels[i])
    modifies w`objs, w`uploads, w`nextUpload, w`trace, w`faults
    ensures w.Valid() && AllInv(w.trace) && Extends(w.trace, old(w.trace))
    ensures w.faults >= old(w.faults) && (!ok && w.faults == old(w.faults) ==> Built(old(w.objs), steps).None?)
    ensures var k := LevelKey(token, ix.createdAt.stamp, ix.levels[i].folder);
            || w.objs == old(w.objs)[k := Data(LevelBytes(ix.levels[i]))]
            || (!ok && w.objs == old(w.objs))
    ensures Ready(w.Now(), ix) && PrevIs(w.Now(), prev)
  {
    NowInv(w);
    ghost var s := w.Now();
    var dest := LevelKey(token, ix.createdAt.stamp, ix.levels[i].folder);
    var aborted;
    ok, aborted := AssembleObject(w, dest, steps);
    InvOwnFile(s, ix, dest, Data(LevelBytes(ix.levels[i])));
  }

  /** Copied by ranges, the level would take more parts than one upload may have. */
  predicate TooLong(l: Level) {
    RangeCount(l.size) > 10000
  }

  /** The copies that build a level: the previous snapshot's file when it is the same, else the
      parts. */
  method StepsFor(w: World, token: string, ix: Index, i: nat, prev: Previous) returns (steps: seq<CopyStep>)
    requires w.Valid() && AllInv(w.trace) && token == w.rec.token && i < |ix.levels|
    requires Ready(w.Now(), ix) && PrevIs(w.Now(), prev)
    modifies w`faults
    ensures w.faults >= old(w.faults)
    ensures Built(w.objs, steps).Some? ==> Built(w.objs, steps).value == LevelBytes(ix.levels[i])
    ensures Built(w.objs, steps).None? ==> TooLong(ix.levels[i])
    ensures w.faults == old(w.faults) ==>
              var l := ix.levels[i];
              steps == if Unchanged(prev, l) then RangeSteps(BesideIndex(prev.key, l.folder), l.size)
                       else PartCopySteps(l)
  {
    NowInv(w);
    var l := ix.levels[i];
    assert HonestLevel(l) && PublishableLevel(l) && l in ix.levels;
    steps := CopiesOfParts(l);
    var src := UnchangedPreviousFile(w, prev, l);
    if src.Some? {
      UnchangedIsSame(w.Now(), prev, l, src.value);
      steps := PreviousObjectCopies(src.value, l.size);
    } else if Unchanged(prev, l) {
      UnchangedIsSame(w.Now(), prev, l, BesideIndex(prev.key, l.folder));
      HonestSize(l.parts);
    }
    StepsBuild(w.Now(), ix, i, if src.Some? then src.value
               else LevelKey(token, ix.createdAt.stamp, l.folder), src.Some?);
  }

  lemma StepsBuild(s: State, ix: Index, i: nat, previous: Key, ranges: bool)
    requires Inv(s) && Ready(s, ix) && i < |ix.levels|
    requires ranges ==> Holds(s.objs, previous, Data(LevelBytes(ix.levels[i])))
    ensures var steps := if ranges then RangeSteps(previous, ix.levels[i].size) else PartCopySteps(ix.levels[i]);
            && (Built(s.objs, steps).Some? ==> Built(s.objs, steps).value == LevelBytes(ix.levels[i]))
            && (Built(s.objs, steps).None? ==> TooLong(ix.levels[i]))
  {
    var l := ix.levels[i];
    assert HonestLevel(l) && PublishableLevel(l) && l in ix.levels;
    forall j | 0 <= j < |l.parts| ensures Part(l.parts[j].digest) in s.objs {
      assert l.parts[j] in l.parts && l.parts[j].digest in PartSet(ix);
    }
    RoutesAgree(s.objs, l, previous);
    var steps := if ranges then RangeSteps(previous, l.size) else PartCopySteps(l);
    if |steps| <= MAX_PARTS { YieldsBuilt(s.objs, steps, LevelBytes(l)); }
  }

  /** assembleLevels, in index order. */
  method AssembleLevels(w: World, token: string, ix: Index, prev: Previous) returns (ok: bool, done: nat)
    requires w.Valid() && AllInv(w.trace) && token == w.rec.token && Ready(w.Now(), ix) && PrevIs(w.Now(), prev)
    modifies w`objs, w`uploads, w`nextUpload, w`trace, w`faults
    ensures w.Valid() && AllInv(w.trace) && Extends(w.trace, old(w.trace)) && w.faults >= old(w.faults)
    ensures !ok && w.faults == old(w.faults) ==> AnyTooLong(ix)
    ensures Ready(w.Now(), ix) && PrevIs(w.Now(), prev)
    ensures done <= |ix.levels| && LevelsStored(w.objs, token, ix.createdAt.stamp, ix.levels[..done])
    ensures ok ==> done == |ix.levels|
    ensures OnlyNeeded(old(w.objs), w.objs, token, ix)
  {
    ok, done := false, 0;
    while done < |ix.levels|
      invariant w.Valid() && AllInv(w.trace) && Extends(w.trace, old(w.trace)) && w.faults >= old(w.faults)
      invariant Ready(w.Now(), ix) && PrevIs(w.Now(), prev)
      invariant done <= |ix.levels| && LevelsStored(w.objs, token, ix.createdAt.stamp, ix.levels[..done])
      invariant OnlyNeeded(old(w.objs), w.objs, token, ix)
    {
      ghost var trace, objs := w.trace, w.objs;
      var good := AssembleNext(w, token, ix, done, prev);
      ExtendsStill(w.trace, trace, old(w.trace));
      OnlyNeededTwice(old(w.objs), objs, w.objs, token, ix);
      if !good { return; }
      done := done + 1;
    }
    ok := true;
  }

  ghost predicate AnyTooLong(ix: Index) {
    exists l :: l in ix.levels && TooLong(l)
  }

  /** The next level, unless the run is cancelled. */
  method AssembleNext(w: World, token: string, ix: Index, i: nat, prev: Previous) returns (good: bool)
    requires w.Valid() && AllInv(w.trace) && token == w.rec.token
    requires i < |ix.levels| && Ready(w.Now(), ix) && PrevIs(w.Now(), prev)
    requires LevelsStored(w.objs, token, ix.createdAt.stamp, ix.levels[..i])
    modifies w`objs, w`uploads, w`nextUpload, w`trace, w`faults
    ensures w.Valid() && AllInv(w.trace) && Extends(w.trace, old(w.trace))
    ensures w.faults >= old(w.faults) && (!good && w.faults == old(w.faults) ==> AnyTooLong(ix))
    ensures Ready(w.Now(), ix) && PrevIs(w.Now(), prev)
    ensures LevelsStored(w.objs, token, ix.createdAt.stamp, ix.levels[..i])
    ensures good ==> LevelsStored(w.objs, token, ix.createdAt.stamp, ix.levels[..i + 1])
    ensures OnlyNeeded(old(w.objs), w.objs, token, ix)
  {
    ghost var objs := w.objs;
    var cancelled := w.Fails();
    if cancelled { return false; }
    good := AssembleLevel(w, token, ix, i, prev);
    assert ix.levels[i] in ix.levels;
    LevelStoredNext(objs, w.objs, token, ix, i, good);
    LevelIsNeeded(token, ix, i);
    OneNeeded(objs, w.objs, LevelKey(token, ix.createdAt.stamp, ix.levels[i].folder), Data(LevelBytes(ix.levels[i])),
              token, ix);
  }

  /** The levels stored before stay stored; the one just assembled is stored when it was. */
  lemma LevelStoredNext(objs: Objects, next: Objects, token: string, ix: Index, i: nat, good: bool)
    requires Publishable(ix) && i < |ix.levels| && LevelsStored(objs, token, ix.createdAt.stamp, ix.levels[..i])
    requires var k := LevelKey(token, ix.createdAt.stamp, ix.levels[i].folder);
             next == objs[k := Data(LevelBytes(ix.levels[i]))] || (!good && next == objs)
    ensures LevelsStored(next, token, ix.createdAt.stamp, ix.levels[..i])
    ensures good ==> LevelsStored(next, token, ix.createdAt.stamp, ix.levels[..i + 1])
  {
    assert forall j | 0 <= j < i :: ix.levels[..i][j].folder != ix.levels[i].folder;
    assert ix.levels[..i + 1] == ix.levels[..i] + [ix.levels[i]];
  }

  // --- the index and the page ---

  /** One file beside the levels, and what it leaves alone. */
  method PutOwnFile(w: World, token: string, ix: Index, prev: Previous, k: Key, o: Obj) returns (ok: bool)
    requires w.Valid() && AllInv(w.trace) && token == w.rec.token && Ready(w.Now(), ix) && PrevIs(w.Now(), prev)
    requires || (k == IndexKey(token, ix.createdAt.stamp) && o == IndexJson(ix))
             || (k == PageKey(token, ix.createdAt.stamp) && o == PageHtml(Render(ix)))
    modifies w`objs, w`trace, w`faults, w`sent
    ensures w.Valid() && AllInv(w.trace) && Extends(w.trace, old(w.trace))
    ensures w.faults >= old(w.faults) && (!ok ==> w.faults > old(w.faults))
    ensures Ready(w.Now(), ix) && PrevIs(w.Now(), prev)
    ensures w.objs == old(w.objs) || w.objs == old(w.objs)[k := o]
    ensures ok ==> w.objs == old(w.objs)[k := o]
    ensures w.sent == old(w.sent) + [k]
    ensures OnlyNeeded(old(w.objs), w.objs, token, ix)
  {
    NowInv(w);
    InvOwnFile(w.Now(), ix, k, o);
    ok := w.Put(k, o);
    OneNeeded(old(w.objs), w.objs, k, o, token, ix);
  }

  /** The index, once every level is stored. */
  method PutIndex(w: World, token: string, ix: Index, prev: Previous) returns (ok: bool)
    requires w.Valid() && AllInv(w.trace) && token == w.rec.token && Ready(w.Now(), ix) && PrevIs(w.Now(), prev)
    requires LevelsStored(w.objs, token, ix.createdAt.stamp, ix.levels)
    modifies w`objs, w`trace, w`faults, w`sent
    ensures w.Valid() && AllInv(w.trace) && Extends(w.trace, old(w.trace))
    ensures w.faults >= old(w.faults) && (!ok ==> w.faults > old(w.faults))
    ensures Ready(w.Now(), ix) && PrevIs(w.Now(), prev)
    ensures LevelsStored(w.objs, token, ix.createdAt.stamp, ix.levels)
    ensures ok ==> Holds(w.objs, IndexKey(token, ix.createdAt.stamp), IndexJson(ix))
    ensures w.sent == old(w.sent) + [IndexKey(token, ix.createdAt.stamp)]
    ensures OnlyNeeded(old(w.objs), w.objs, token, ix)
  {
    ok := PutOwnFile(w, token, ix, prev, IndexKey(token, ix.createdAt.stamp), IndexJson(ix));
  }

  /** The page, which is the last file the snapshot needs. */
  method PutPage(w: World, token: string, ix: Index, prev: Previous) returns (ok: bool)
    requires w.Valid() && AllInv(w.trace) && token == w.rec.token && Ready(w.Now(), ix) && PrevIs(w.Now(), prev)
    requires LevelsStored(w.objs, token, ix.createdAt.stamp, ix.levels)
    requires Holds(w.objs, IndexKey(token, ix.createdAt.stamp), IndexJson(ix))
    modifies w`objs, w`trace, w`faults, w`sent
    ensures w.Valid() && AllInv(w.trace) && Extends(w.trace, old(w.trace))
    ensures w.faults >= old(w.faults) && (!ok ==> w.faults > old(w.faults))
    ensures Sound(ix, token) && PrevIs(w.Now(), prev)
    ensures ok ==> Stored(w.objs, token, ix)
    ensures w.sent == old(w.sent) + [PageKey(token, ix.createdAt.stamp)]
    ensures OnlyNeeded(old(w.objs), w.objs, token, ix)
  {
    ghost var objs := w.objs;
    ok := PutOwnFile(w, token, ix, prev, PageKey(token, ix.createdAt.stamp), PageHtml(Render(ix)));
    if ok { PageBesideLevels(objs, w.objs, token, ix); }
  }

  lemma PageBesideLevels(objs: Objects, next: Objects, token: string, ix: Index)
    requires Sound(ix, token) && LevelsStored(objs, token, ix.createdAt.stamp, ix.levels) && PartsStored(next, ix)
    requires Holds(objs, IndexKey(token, ix.createdAt.stamp), IndexJson(ix))
    requires next == objs[PageKey(token, ix.createdAt.stamp) := PageHtml(Render(ix))]
    ensures Stored(next, token, ix)
  {}

  /** Index and page, after which everything the snapshot needs is stored. */
  method WriteIndexAndPage(w: World, token: string, ix: Index, prev: Previous) returns (ok: bool)
    requires w.Valid() && AllInv(w.trace) && token == w.rec.token && Ready(w.Now(), ix) && PrevIs(w.Now(), prev)
    requires LevelsStored(w.objs, token, ix.createdAt.stamp, ix.levels)
    modifies w`objs, w`trace, w`faults, w`sent
    ensures w.Valid() && AllInv(w.trace) && Extends(w.trace, old(w.trace))
    ensures w.faults >= old(w.faults) && (!ok ==> w.faults > old(w.faults))
    ensures Sound(ix, token) && PrevIs(w.Now(), prev)
    ensures ok ==> Stored(w.objs, token, ix)
    ensures ok ==> w.sent == old(w.sent) + [IndexKey(token, ix.createdAt.stamp), PageKey(token, ix.createdAt.stamp)]
    ensures OnlyNeeded(old(w.objs), w.objs, token, ix)
  {
    ok := PutIndex(w, token, ix, prev);
    if !ok { return; }
    ghost var trace1, objs1 := w.trace, w.objs;
    ok := PutPage(w, token, ix, prev);
    ExtendsStill(w.trace, trace1, old(w.trace));
    OnlyNeededTwice(old(w.objs), objs1, w.objs, token, ix);
  }

  // --- the pointer, last ---

  /** writeLatest: the pointer is checked by resolving it back with the reader's own rule. */
  method WriteLatest(w: World, ix: Index, token: string) returns (ok: bool)
    requires w.Valid() && ValidToken(token) && ix.createdAt.At? && IsStamp(ix.createdAt.stamp)
    modifies w`objs, w`trace, w`faults, w`sent
    ensures w.Valid() && w.faults >= old(w.faults) && (!ok ==> w.faults > old(w.faults))
    ensures w.trace == old(w.trace) + [w.Now()] && w.sent == old(w.sent) + [Latest(token)]
    ensures w.objs == old(w.objs)[Latest(token) := PointerTo(ix, token)] || (!ok && w.objs == old(w.objs))
  {
    var index := IndexKey(token, ix.createdAt.stamp);
    PointerRoundTrip(token, ix.createdAt.stamp);
    var rel := RelativeKey(token, index);
    var back := LatestIndexKey(token, rel.value);
    assert back == Some(index);
    ok := w.Put(Latest(token), LatestJson(ix.createdAt, rel.value));
  }

  /** The live pointer, over a stored snapshot. */
  method PutLatest(w: World, token: string, ix: Index) returns (ok: bool)
    requires w.Valid() && AllInv(w.trace) && token == w.rec.token
    requires Sound(ix, token) && Stored(w.objs, token, ix)
    modifies w`objs, w`trace, w`faults, w`sent
    ensures w.Valid() && AllInv(w.trace) && Extends(w.trace, old(w.trace))
    ensures w.faults >= old(w.faults) && (!ok ==> w.faults > old(w.faults))
    ensures LiveIndex(w.Now()) == LiveIndex(old(w.Now())) || LiveIndex(w.Now()) == Some(ix)
    ensures ok ==> LiveIndex(w.Now()) == Some(ix)
    ensures w.sent == old(w.sent) + [Latest(token)]
    ensures OnlyNeeded(old(w.objs), w.objs, token, ix)
    ensures ok ==> |w.trace| > |old(w.trace)|
  {
    NowInv(w);
    InvPublish(w.Now(), ix);
    ok := WriteLatest(w, ix, token);
    OneNeeded(old(w.objs), w.objs, Latest(token), PointerTo(ix, token), token, ix);
  }

  // --- the run ---

  datatype Reached = Refused | CutOff | Published

  datatype PublishResult = PublishResult(sent: Sent, levels: nat, pruned: PruneResult, warning: bool)

  lemma PruneKeepsInv(s: State, keep: int, plan: PrunePlan, after: Objects)
    requires Inv(s) && Decides(s.objs, s.rec.token, keep, plan)
    requires Thinned(s.objs, after, Doomed(s.objs, s.rec.token, plan))
    ensures Inv(s.(objs := after)) && ReadLatest(after, s.rec.token) == ReadLatest(s.objs, s.rec.token)
  {
    var token := s.rec.token;
    var ix := ReadLatest(s.objs, token).index;
    assert Complete(s.objs, token) && plan.latest == IndexKey(token, ix.createdAt.stamp);
    assert ix.createdAt.stamp in plan.kept;
    forall k | k in Doomed(s.objs, token, plan) ensures !Needs(ix, token, k) && k != Latest(token) {
      assert plan.latest in DecidingIndexes(s.objs, token, plan.kept, plan.latest);
      KeptIsSafe(s.objs, token, keep, plan, k);
    }
    InvThin(s, after, Doomed(s.objs, token, plan));
  }

  /** What a prune makes of a bucket: nothing when it is to keep none, some of the deletes that are
      decided when it fails part way, and all of them, without a warning, when nothing fails. Without
      a warning all of them are done, unless there is no complete folder. */
  ghost predicate PrunedTo(before: Objects, after: Objects, token: string, keep: int, warning: bool, quiet: bool) {
    && (keep < 1 ==> after == before && !warning)
    && (after != before ==>
          exists p :: Decides(before, token, keep, p) && Thinned(before, after, Doomed(before, token, p)))
    && (keep >= 1 && quiet ==>
          forall p | Decides(before, token, keep, p) && p.kept != {} ::
            !warning && after == before - Doomed(before, token, p))
    && (keep >= 1 && !warning ==>
          || CompleteStamps(before, token) == {}
          || exists p :: Decides(before, token, keep, p) && after == before - Doomed(before, token, p))
  }

  /** The prune at the end of a publish; its failure is a warning. */
  method PruneAfter(w: World, token: string, keep: int) returns (res: PruneResult, warning: bool)
    requires w.Valid() && AllInv(w.trace) && token == w.rec.token
    modifies w`objs, w`trace, w`faults
    ensures w.Valid() && AllInv(w.trace) && Extends(w.trace, old(w.trace)) && w.faults >= old(w.faults)
    ensures ReadLatest(w.objs, token) == ReadLatest(old(w.objs), token)
    ensures PrunedTo(old(w.objs), w.objs, token, keep, warning, w.faults == old(w.faults))
  {
    res, warning := PruneResult(0, 0, 0), false;
    if keep < 1 { return; }
    NowInv(w);
    ghost var s, from, plan := w.Now(), |w.trace|, None;
    var ok;
    ok, res, plan := PruneSnapshots(w, token, keep);
    warning := !ok;
    if plan.Some? {
      forall i | from <= i < |w.trace| ensures Inv(w.trace[i]) {
        PruneKeepsInv(s, keep, plan.value, w.trace[i].objs);
      }
      PruneKeepsInv(s, keep, plan.value, w.objs);
      forall i | 0 <= i < |w.trace| ensures Inv(w.trace[i]) {
        if i < from { assert w.trace[i] == old(w.trace)[i]; }
      }
    }
  }

  /** What a run is refused for, as the folder and the bucket state it. */
  ghost predicate Refusable(objs: Objects, token: string, folder: StageFolder) {
    || !folder.index.Parsed? || !Publishable(folder.index.index) || folder.index.index.partsBase != PartsBase(token)
    || Unsendable(folder, folder.index.index) || !AllAtHand(folder.index.index, folder, objs)
  }

  ghost function Lacking(ix: Index, objs: Objects): set<Digest> {
    set d | d in PartSet(ix) && Part(d) !in objs
  }

  datatype RunPlan = NoPlan | Plan(index: Index, parts: seq<PartPlan>, previous: Previous)

  /** Everything a run reads before its first write. */
  method PlanRun(w: World, token: string, folder: StageFolder) returns (r: RunPlan)
    requires w.Valid() && AllInv(w.trace) && token == w.rec.token && HonestFolder(folder)
    modifies w`faults
    ensures w.faults >= old(w.faults)
    ensures r.NoPlan? && w.faults == old(w.faults) ==> Refusable(w.objs, token, folder)
    ensures r.Plan? ==> folder.index == Parsed(r.index) && Sound(r.index, token) && PrevIs(w.Now(), r.previous)
    ensures r.Plan? ==> Distinct(r.parts) && PlanDigests(r.parts) == PartSet(r.index)
    ensures r.Plan? ==> forall p | p in r.parts :: PlanSound(p, w.objs, folder)
    ensures r.Plan? && w.faults == old(w.faults) ==> SendsLacking(r.parts, w.objs)
  {
    NowInv(w);
    var staged := ReadStaged(folder, token);
    if staged.None? { return NoPlan; }
    var ix := staged.value;
    var prev := ReadLatestIndex(w, token);
    if prev.Failed? { return NoPlan; }
    var plan := PlanParts(w, folder, ix, prev.value);
    if plan.MissingParts? { assert plan.digests[0] in plan.digests; }
    r := if plan.Planned? then Plan(ix, plan.plan, prev.value) else NoPlan;
  }

  /** runDHPublish, under the token the caller read once it held the link. Every state it passes
      through, whatever fails, leads a reader to a whole snapshot: the previous one until
      latest.json is written, this one after. It refuses before its first write, or every part
      the index names is up. When nothing faults it is refused only for what the folder or the
      bucket lacks, uploads exactly the parts the bucket lacked, and ends with this snapshot
      live. */
  method RunPublish(w: World, token: string, folder: StageFolder, keep: int)
    returns (reached: Reached, res: PublishResult)
    requires w.Valid() && AllInv(w.trace) && token == w.rec.token && HonestFolder(folder)
    requires folder.index.Parsed? ==> SameStampSameIndex(w.Now(), folder.index.index)
    modifies w`objs, w`uploads, w`nextUpload, w`trace, w`faults, w`sent
    ensures w.Valid() && AllInv(w.trace) && Extends(w.trace, old(w.trace)) && w.faults >= old(w.faults)
    ensures reached.Refused? ==> w.trace == old(w.trace) && w.objs == old(w.objs) && w.sent == old(w.sent)
    ensures reached.CutOff? ==> folder.index.Parsed?
    ensures reached.CutOff? ==>
              LiveIndex(w.Now()) == LiveIndex(old(w.Now())) || LiveIndex(w.Now()) == Some(folder.index.index)
    ensures reached.Published? ==> folder.index.Parsed? && LiveIndex(w.Now()) == Some(folder.index.index)
    ensures reached.Published? ==> Complete(w.objs, token) && res.levels == |folder.index.index.levels|
    ensures reached.Published? ==> res.sent.uploaded + res.sent.skipped == |PartSet(folder.index.index)|
    ensures reached.Published? ==>
              AfterPublish(w.trace, |old(w.trace)|, old(w.objs), w.objs, token, folder.index.index, keep, res.warning,
                           w.faults == old(w.faults))
    ensures w.faults == old(w.faults) ==>
              && (reached.Refused? ==> Refusable(old(w.objs), token, folder))
              && (reached.CutOff? ==> AnyTooLong(folder.index.index))
              && (reached.Published? ==>
                    SentExactly(old(w.sent), w.sent, token, folder.index.index, old(w.objs), res.sent))
  {
    reached, res := Refused, PublishResult(Sent(0, 0, 0), 0, PruneResult(0, 0, 0), false);
    var plan := PlanRun(w, token, folder);
    if plan.NoPlan? { return; }
    reached, res := PublishPlanned(w, token, folder, plan.index, plan.parts, plan.previous, keep);
    PlanSizes(plan.parts, plan.index, old(w.objs));
    NowInv(w);
    if w.faults == old(w.faults) && reached.Published? {
      assert OneEachOf(Sending(plan.parts), Lacking(plan.index, old(w.objs)));
    }
  }

  ghost predicate OneEachOf(parts: seq<Digest>, all: set<Digest>) {
    (forall d :: d in parts <==> d in all) && forall i, j | 0 <= i < j < |parts| :: parts[i] != parts[j]
  }

  /** What was put is the parts the bucket lacked, each once, then the index, the page and, last, the
      pointer; and the parts are counted with their bytes. */
  ghost predicate SentExactly(sent0: seq<Key>, sent: seq<Key>, token: string, ix: Index, objs: Objects, res: Sent)
    requires ix.createdAt.At?
  {
    exists parts ::
      && OneEachOf(parts, Lacking(ix, objs)) && res.uploaded == |parts| && res.bytes == TotalBytes(parts)
      && sent == sent0 + PartKeys(parts) + OwnKeys(token, ix.createdAt.stamp)
  }

  /** A plan has one entry for each distinct part, and one to send for each that is lacking. */
  lemma PlanSizes(plan: seq<PartPlan>, ix: Index, objs: Objects)
    requires Distinct(plan) && PlanDigests(plan) == PartSet(ix)
    ensures |plan| == |PartSet(ix)|
    ensures SendsLacking(plan, objs) ==>
              |Sending(plan)| == |Lacking(ix, objs)| && OneEachOf(Sending(plan), Lacking(ix, objs))
  {
    OneEach(plan);
    if SendsLacking(plan, objs) {
      forall d ensures d in Lacking(ix, objs) <==> d in Sending(plan) {
        SendingIn(plan, d);
      }
      assert Lacking(ix, objs) == set d | d in Sending(plan);
    }
  }

  lemma {:induction false} OneEach(plan: seq<PartPlan>)
    requires Distinct(plan)
    ensures |plan| == |PlanDigests(plan)| && |Sending(plan)| == |set d | d in Sending(plan)|
    ensures forall i, j | 0 <= i < j < |Sending(plan)| :: Sending(plan)[i] != Sending(plan)[j]
  {
    if plan != [] {
      var n := |plan| - 1;
      var front, last := plan[..n], plan[n];
      OneEach(front);
      assert plan == front + [last];
      assert last.digest !in PlanDigests(front);
      assert PlanDigests(plan) == PlanDigests(front) + {last.digest};
      SendingIn(front, last.digest);
      OneMoreSent(front, last);
      assert front + [last] == plan;
    }
  }

  lemma OneMoreSent(front: seq<PartPlan>, last: PartPlan)
    requires last.digest !in Sending(front) && |Sending(front)| == |set d | d in Sending(front)|
    requires forall i, j | 0 <= i < j < |Sending(front)| :: Sending(front)[i] != Sending(front)[j]
    ensures |Sending(front + [last])| == |set d | d in Sending(front + [last])|
    ensures forall i, j | 0 <= i < j < |Sending(front + [last])| ::
              Sending(front + [last])[i] != Sending(front + [last])[j]
  {
    assert (front + [last])[..|front|] == front && (front + [last])[|front|] == last;
    var was, now := Sending(front), Sending(front + [last]);
    if last.send {
      assert now == was + [last.digest];
      assert (set d | d in now) == (set d | d in was) + {last.digest};
    } else {
      assert now == was + [] == was;
    }
  }

  /** The writes of a run that was not refused. */
  method PublishPlanned(w: World, token: string, folder: StageFolder, ix: Index, plan: seq<PartPlan>, prev: Previous,
                        keep: int)
    returns (reached: Reached, res: PublishResult)
    requires w.Valid() && AllInv(w.trace) && token == w.rec.token && HonestFolder(folder)
    requires Sound(ix, token) && SameStampSameIndex(w.Now(), ix) && PrevIs(w.Now(), prev)
    requires PlanDigests(plan) == PartSet(ix) && forall p | p in plan :: PlanSound(p, w.objs, folder)
    modifies w`objs, w`uploads, w`nextUpload, w`trace, w`faults, w`sent
    ensures w.Valid() && AllInv(w.trace) && Extends(w.trace, old(w.trace)) && w.faults >= old(w.faults)
    ensures !reached.Refused? && (reached.CutOff? && w.faults == old(w.faults) ==> AnyTooLong(ix))
    ensures LiveIndex(w.Now()) == LiveIndex(old(w.Now())) || LiveIndex(w.Now()) == Some(ix)
    ensures reached.Published? ==> LiveIndex(w.Now()) == Some(ix) && res.levels == |ix.levels|
    ensures reached.Published? ==> res.sent.uploaded + res.sent.skipped == |plan|
    ensures reached.Published? ==>
              w.sent == old(w.sent) + PartKeys(Sending(plan)) + OwnKeys(token, ix.createdAt.stamp)
    ensures reached.Published? ==>
              AfterPublish(w.trace, |old(w.trace)|, old(w.objs), w.objs, token, ix, keep, res.warning,
                                                w.faults == old(w.faults))
    ensures Distinct(plan) && SendsLacking(plan, old(w.objs)) && w.faults == old(w.faults) ==>
              res.sent.uploaded == |Sending(plan)| && res.sent.bytes == TotalBytes(Sending(plan))
  {
    reached, res := CutOff, PublishResult(Sent(0, 0, 0), 0, PruneResult(0, 0, 0), false);
    var ok;
    ok, res := SendFor(w, token, folder, ix, plan, prev, res);
    if !ok { return; }
    ghost var trace1, objs1, faults1 := w.trace, w.objs, w.faults;
    ok, res := BuildAndPrune(w, token, ix, prev, keep, res);
    ExtendsStill(w.trace, trace1, old(w.trace));
    if ok {
      reached := Published;
      AfterPublishFrom(w.trace, |old(w.trace)|, |trace1|, old(w.objs), objs1, w.objs, token, ix, keep, res.warning,
                       w.faults == old(w.faults), w.faults == faults1);
    }
  }

  /** From a bucket to the one with this snapshot written into it, which is a state of the history, and
      from there to what the prune makes of it. */
  ghost predicate AfterPublish(trace: seq<State>, n: nat, before: Objects, after: Objects, token: string, ix: Index,
                               keep: int, warning: bool, quiet: bool)
    requires ix.createdAt.At? && IsStamp(ix.createdAt.stamp)
  {
    exists i :: n <= i < |trace| && Wrote(before, trace[i].objs, token, ix)
                && PrunedTo(trace[i].objs, after, token, keep, warning, quiet)
  }

  lemma PrunedQuietly(before: Objects, after: Objects, token: string, keep: int, warning: bool, quiet: bool, less: bool)
    requires PrunedTo(before, after, token, keep, warning, quiet) && (less ==> quiet)
    ensures PrunedTo(before, after, token, keep, warning, less)
  {}

  lemma AfterPublishFrom(trace: seq<State>, n: nat, n': nat, before: Objects, mid: Objects, after: Objects,
                         token: string, ix: Index, keep: int, warning: bool, quiet: bool, quiet': bool)
    requires ix.createdAt.At? && IsStamp(ix.createdAt.stamp)
    requires AfterPublish(trace, n', mid, after, token, ix, keep, warning, quiet')
    requires n <= n' && (quiet ==> quiet') && OnlyNeeded(before, mid, token, ix)
    ensures AfterPublish(trace, n, before, after, token, ix, keep, warning, quiet)
  {
    var i :| n' <= i < |trace| && Wrote(mid, trace[i].objs, token, ix)
             && PrunedTo(trace[i].objs, after, token, keep, warning, quiet');
    OnlyNeededTwice(before, mid, trace[i].objs, token, ix);
  }

  lemma AfterPublishHere(trace: seq<State>, i: nat, n: nat, before: Objects, after: Objects, token: string, ix: Index,
                         keep: int, warning: bool, quiet: bool)
    requires ix.createdAt.At? && IsStamp(ix.createdAt.stamp) && n <= i < |trace|
    requires Wrote(before, trace[i].objs, token, ix) && PrunedTo(trace[i].objs, after, token, keep, warning, quiet)
    ensures AfterPublish(trace, n, before, after, token, ix, keep, warning, quiet)
  {}

  /** With a snapshot written and pruned for without a fault, the complete folders of the base are
      the `keep` newest of those there were and this one, and this one. */
  lemma OnlyTheNewestLeft(before: Objects, mid: Objects, after: Objects, token: string, ix: Index, keep: int,
                          warning: bool, p: PrunePlan)
    requires ValidToken(token) && ix.createdAt.At? && IsStamp(ix.createdAt.stamp) && Wrote(before, mid, token, ix)
    requires keep >= 1 && PrunedTo(mid, after, token, keep, warning, true) && Decides(mid, token, keep, p)
    ensures var all := CompleteStamps(before, token) + {ix.createdAt.stamp};
            && !warning && IsNewest(p.newest, all, keep)
            && CompleteStamps(after, token) == p.newest + {ix.createdAt.stamp}
  {
    var stamp := ix.createdAt.stamp;
    LatestIsWritten(mid, token, ix, keep, p);
    WroteStamps(before, mid, token, ix);
    assert after == mid - Doomed(mid, token, p);
    CompleteAfter(mid, token, keep, p);
    assert stamp in CompleteStamps(mid, token) && p.newest <= CompleteStamps(mid, token);
  }

  lemma LatestIsWritten(mid: Objects, token: string, ix: Index, keep: int, p: PrunePlan)
    requires ValidToken(token) && ix.createdAt.At? && IsStamp(ix.createdAt.stamp)
    requires Stored(mid, token, ix) && Holds(mid, Latest(token), PointerTo(ix, token)) && Decides(mid, token, keep, p)
    ensures p.latest == IndexKey(token, ix.createdAt.stamp) && LatestIsSafe(mid, token, p)
    ensures p.kept == p.newest + {ix.createdAt.stamp}
  {
    PointerRoundTrip(token, ix.createdAt.stamp);
    StampOfIndex(token, ix.createdAt.stamp);
  }

  lemma WroteStamps(before: Objects, mid: Objects, token: string, ix: Index)
    requires ix.createdAt.At? && IsStamp(ix.createdAt.stamp) && Wrote(before, mid, token, ix)
    ensures CompleteStamps(mid, token) == CompleteStamps(before, token) + {ix.createdAt.stamp}
  {
    forall s ensures s in CompleteStamps(mid, token) <==>
      s in CompleteStamps(before, token) || s == ix.createdAt.stamp {
      CompleteIff(before, token, s);
      CompleteIff(mid, token, s);
      assert s != ix.createdAt.stamp ==> !Needs(ix, token, IndexKey(token, s));
    }
  }

  /** Everything but the parts, and the prune. */
  method BuildAndPrune(w: World, token: string, ix: Index, prev: Previous, keep: int, res0: PublishResult)
    returns (ok: bool, res: PublishResult)
    requires w.Valid() && AllInv(w.trace) && token == w.rec.token && Ready(w.Now(), ix) && PrevIs(w.Now(), prev)
    modifies w`objs, w`uploads, w`nextUpload, w`trace, w`faults, w`sent
    ensures w.Valid() && AllInv(w.trace) && Extends(w.trace, old(w.trace)) && w.faults >= old(w.faults)
    ensures !ok && w.faults == old(w.faults) ==> AnyTooLong(ix)
    ensures LiveIndex(w.Now()) == LiveIndex(old(w.Now())) || LiveIndex(w.Now()) == Some(ix)
    ensures ok ==> LiveIndex(w.Now()) == Some(ix) && res.levels == |ix.levels|
    ensures ok ==> w.sent == old(w.sent) + OwnKeys(token, ix.createdAt.stamp)
    ensures res.sent == res0.sent
    ensures ok ==> AfterPublish(w.trace, |old(w.trace)|, old(w.objs), w.objs, token, ix, keep, res.warning,
                                w.faults == old(w.faults))
  {
    var levels;
    ok, levels := BuildUp(w, token, ix, prev);
    res := res0.(levels := levels);
    if !ok { return; }
    ghost var trace1 := w.trace;
    var pruned, warning := PruneThen(w, token, ix, keep, |old(w.trace)|, old(w.objs), old(w.faults));
    ExtendsStill(w.trace, trace1, old(w.trace));
    res := res.(pruned := pruned, warning := warning);
  }

  /** The prune, seen from before the snapshot was written. */
  method PruneThen(w: World, token: string, ix: Index, keep: int, ghost n: nat, ghost before: Objects,
                   ghost faults0: nat)
    returns (pruned: PruneResult, warning: bool)
    requires w.Valid() && AllInv(w.trace) && token == w.rec.token && ix.createdAt.At? && IsStamp(ix.createdAt.stamp)
    requires Wrote(before, w.objs, token, ix) && n < |w.trace| && faults0 <= w.faults
    modifies w`objs, w`trace, w`faults
    ensures w.Valid() && AllInv(w.trace) && Extends(w.trace, old(w.trace)) && w.faults >= old(w.faults)
    ensures LiveIndex(w.Now()) == LiveIndex(old(w.Now()))
    ensures AfterPublish(w.trace, n, before, w.objs, token, ix, keep, warning, w.faults == faults0)
  {
    pruned, warning := PruneAfter(w, token, keep);
    ghost var i := |old(w.trace)| - 1;
    assert w.trace[i] == old(w.trace)[i];
    PrunedQuietly(old(w.objs), w.objs, token, keep, warning, w.faults == old(w.faults), w.faults == faults0);
    AfterPublishHere(w.trace, i, n, before, w.objs, token, ix, keep, warning, w.faults == faults0);
  }

  lemma LiveIsWritten(s: State, ix: Index)
    requires Inv(s) && LiveIndex(s) == Some(ix) && ix.createdAt.At? && IsStamp(ix.createdAt.stamp)
    ensures Stored(s.objs, s.rec.token, ix) && Holds(s.objs, Latest(s.rec.token), PointerTo(ix, s.rec.token))
  {}

  /** The levels, the index, the page and the pointer. */
  method BuildUp(w: World, token: string, ix: Index, prev: Previous) returns (ok: bool, levels: nat)
    requires w.Valid() && AllInv(w.trace) && token == w.rec.token && Ready(w.Now(), ix) && PrevIs(w.Now(), prev)
    modifies w`objs, w`uploads, w`nextUpload, w`trace, w`faults, w`sent
    ensures w.Valid() && AllInv(w.trace) && Extends(w.trace, old(w.trace)) && w.faults >= old(w.faults)
    ensures !ok && w.faults == old(w.faults) ==> AnyTooLong(ix)
    ensures LiveIndex(w.Now()) == LiveIndex(old(w.Now())) || LiveIndex(w.Now()) == Some(ix)
    ensures ok ==> LiveIndex(w.Now()) == Some(ix) && levels == |ix.levels|
    ensures ok ==> w.sent == old(w.sent) + OwnKeys(token, ix.createdAt.stamp)
    ensures OnlyNeeded(old(w.objs), w.objs, token, ix)
    ensures ok ==> Wrote(old(w.objs), w.objs, token, ix)
    ensures ok ==> |w.trace| > |old(w.trace)|
  {
    ok, levels := AssembleLevels(w, token, ix, prev);
    if !ok { return; }
    assert ix.levels[..levels] == ix.levels;
    ghost var trace1, objs1 := w.trace, w.objs;
    ok := WriteUp(w, token, ix, prev);
    ExtendsStill(w.trace, trace1, old(w.trace));
    OnlyNeededTwice(old(w.objs), objs1, w.objs, token, ix);
    if ok { LiveIsWritten(w.Now(), ix); }
  }

  /** What a publish puts after the parts, the pointer last. */
  function OwnKeys(token: string, stamp: string): seq<Key> {
    [IndexKey(token, stamp), PageKey(token, stamp), Latest(token)]
  }

  /** The index, the page and, once both are up, latest.json. */
  method WriteUp(w: World, token: string, ix: Index, prev: Previous) returns (ok: bool)
    requires w.Valid() && AllInv(w.trace) && token == w.rec.token && Ready(w.Now(), ix) && PrevIs(w.Now(), prev)
    requires LevelsStored(w.objs, token, ix.createdAt.stamp, ix.levels)
    modifies w`objs, w`trace, w`faults, w`sent
    ensures w.Valid() && AllInv(w.trace) && Extends(w.trace, old(w.trace))
    ensures w.faults >= old(w.faults) && (!ok ==> w.faults > old(w.faults))
    ensures LiveIndex(w.Now()) == LiveIndex(old(w.Now())) || LiveIndex(w.Now()) == Some(ix)
    ensures ok ==> LiveIndex(w.Now()) == Some(ix) && w.sent == old(w.sent) + OwnKeys(token, ix.createdAt.stamp)
    ensures OnlyNeeded(old(w.objs), w.objs, token, ix)
    ensures ok ==> |w.trace| > |old(w.trace)|
  {
    ok := WriteIndexAndPage(w, token, ix, prev);
    if !ok { return; }
    ghost var trace1, objs1 := w.trace, w.objs;
    ok := PutLatest(w, token, ix);
    ExtendsStill(w.trace, trace1, old(w.trace));
    OnlyNeededTwice(old(w.objs), objs1, w.objs, token, ix);
  }

  /** The parts of a run, with what the rest of it relies on. */
  method SendFor(w: World, token: string, folder: StageFolder, ix: Index, plan: seq<PartPlan>, prev: Previous,
                 res0: PublishResult)
    returns (ok: bool, res: PublishResult)
    requires w.Valid() && AllInv(w.trace) && token == w.rec.token && HonestFolder(folder)
    requires Sound(ix, token) && SameStampSameIndex(w.Now(), ix) && PrevIs(w.Now(), prev)
    requires PlanDigests(plan) == PartSet(ix) && forall p | p in plan :: PlanSound(p, w.objs, folder)
    modifies w`objs, w`trace, w`faults, w`sent
    ensures w.Valid() && AllInv(w.trace) && Extends(w.trace, old(w.trace))
    ensures w.faults >= old(w.faults) && (!ok ==> w.faults > old(w.faults))
    ensures PrevIs(w.Now(), prev) && LiveIndex(w.Now()) == LiveIndex(old(w.Now()))
    ensures ok ==> Ready(w.Now(), ix) && res.sent.uploaded + res.sent.skipped == |plan|
    ensures ok ==> w.sent == old(w.sent) + PartKeys(Sending(plan))
    ensures Distinct(plan) && SendsLacking(plan, old(w.objs)) && w.faults == old(w.faults) ==>
              res.sent.uploaded == |Sending(plan)| && res.sent.bytes == TotalBytes(Sending(plan))
    ensures OnlyNeeded(old(w.objs), w.objs, token, ix)
  {
    var sent;
    ok, sent := SendParts(w, folder, plan);
    res := res0.(sent := sent);
    NowInv(w);
    PartsAreNeeded(old(w.objs), w.objs, PlanDigests(plan), token, ix);
    if ok {
      forall d | d in PartSet(ix) ensures Part(d) in w.objs {
        var p :| p in plan && p.digest == d;
      }
    }
  }
}
