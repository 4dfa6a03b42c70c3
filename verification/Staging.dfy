/** Taking a snapshot of a stopped database: cut into parts named by their hash, staged when
    the previous snapshot lacks them, and indexed. */
module Staging {
  import opened Wrappers
  import opened Keys
  import opened Snapshot
  import opened World
  import opened Protocol
  import opened Publish

  /** Files are whole, named by their hash, and the index tells the truth about bytes. */
  ghost predicate FolderOk(f: StageFolder) {
    && (forall d | d in f.files :: f.files[d] == Regular(d.of))
    && (f.index.Parsed? ==> Honest(f.index.index))
  }

  ghost predicate AllOk(trace: seq<StageFolder>) { forall i | 0 <= i < |trace| :: FolderOk(trace[i]) }

  /** The folder holds every part its index names. */
  ghost predicate SelfContained(f: StageFolder) {
    f.index.Parsed? ==> forall d | d in PartSet(f.index.index) :: d in f.files
  }

  ghost predicate AllContained(trace: seq<StageFolder>) { forall i | 0 <= i < |trace| :: SelfContained(trace[i]) }

  ghost predicate Continues(later: seq<StageFolder>, earlier: seq<StageFolder>) {
    |earlier| <= |later| && forall i | 0 <= i < |earlier| :: later[i] == earlier[i]
  }

  /** The staging folder of one server. Each file is replaced whole or not at all; every
      operation may fail, `trace` holds each state the folder passes through, and `faults` counts
      what failed: a write, a read of a database, or the run being cancelled. */
  class Staging {
    var folder: StageFolder
    ghost var trace: seq<StageFolder>
    ghost var faults: nat

    ghost predicate Valid() reads `folder, `trace {
      trace != [] && trace[|trace| - 1] == folder && AllOk(trace)
    }

    constructor ()
      ensures Valid() && folder == StageFolder(Missing, map[]) && trace == [folder] && faults == 0
    {
      folder := StageFolder(Missing, map[]);
      trace, faults := [StageFolder(Missing, map[])], 0;
    }

    method Fails() returns (fails: bool)
      modifies `faults
      ensures faults == old(faults) + (if fails then 1 else 0)
    {
      fails := *;
      if fails { faults := faults + 1; }
    }

    method WritePart(d: Digest, data: Bytes) returns (ok: bool)
      requires Valid() && data == d.of
      modifies this
      ensures Valid() && trace == old(trace) + [folder]
      ensures faults >= old(faults) && (!ok ==> faults > old(faults))
      ensures folder == if ok then old(folder).(files := old(folder.files)[d := Regular(data)]) else old(folder)
    {
      var fails := Fails();
      ok := !fails;
      if ok { folder := folder.(files := folder.files[d := Regular(data)]); }
      trace := trace + [folder];
    }

    method WriteIndex(ix: Index) returns (ok: bool)
      requires Valid() && Honest(ix)
      modifies this
      ensures Valid() && trace == old(trace) + [folder]
      ensures faults >= old(faults) && (!ok ==> faults > old(faults))
      ensures folder == if ok then old(folder).(index := Parsed(ix)) else old(folder)
    {
      var fails := Fails();
      ok := !fails;
      if ok { folder := folder.(index := Parsed(ix)); }
      trace := trace + [folder];
    }

    method Remove(d: Digest) returns (ok: bool)
      requires Valid()
      modifies this
      ensures Valid() && trace == old(trace) + [folder]
      ensures faults >= old(faults) && (!ok ==> faults > old(faults))
      ensures folder == if ok then old(folder).(files := old(folder.files) - {d}) else old(folder)
    {
      var fails := Fails();
      ok := !fails;
      if ok { folder := folder.(files := folder.files - {d}); }
      trace := trace + [folder];
    }
  }

  // --- reading one database ---

  /** Every part but the last has this length, and none is empty. */
  predicate CutEvenly(parts: seq<PartRef>, partSize: int) {
    forall i | 0 <= i < |parts| ::
      parts[i].size == |parts[i].digest.of| && 0 < parts[i].size <= partSize &&
        (i < |parts| - 1 ==> parts[i].size == partSize)
  }

  /** The level describes this file: its parts, cut evenly, are the file in order, and the
      whole-file hash is the file's. */
  ghost predicate Describes(l: Level, folder: string, db: Bytes, partSize: int) {
    && l.folder == folder && l.size == |db| && l.whole == Whole(Sha256(db))
    && PartBytes(l.parts) == db && CutEvenly(l.parts, partSize)
  }

  predicate DistinctRefs(parts: seq<PartRef>) {
    forall i, j | 0 <= i < j < |parts| :: parts[i].digest != parts[j].digest
  }

  /** The folder keeps its index and what it holds, and gains none of the parts that are known. */
  ghost predicate Gained(before: StageFolder, now: StageFolder, known: set<Digest>) {
    && now.index == before.index && before.files.Keys <= now.files.Keys
    && forall d | d in now.files && d !in before.files :: d !in known
  }

  /** So in every state since `from`. */
  ghost predicate OnlyGains(trace: seq<StageFolder>, from: nat, before: StageFolder, now: StageFolder,
                            known: set<Digest>) {
    (forall i | from <= i < |trace| :: Gained(before, trace[i], known)) && Gained(before, now, known)
  }

  /** The parts read so far are the file up to pos. */
  ghost predicate ReadTo(parts: seq<PartRef>, db: Bytes, pos: nat, partSize: int) {
    && pos <= |db| && PartBytes(parts) == db[..pos] && CutEvenly(parts, partSize)
    && (pos < |db| ==> forall i | 0 <= i < |parts| :: parts[i].size == partSize)
  }

  lemma ReadMore(parts: seq<PartRef>, db: Bytes, pos: nat, partSize: int, n: nat)
    requires ReadTo(parts, db, pos, partSize) && 0 < n <= partSize && pos + n <= |db|
    requires n < partSize ==> pos + n == |db|
    ensures ReadTo(parts + [PartRef(Sha256(db[pos..pos + n]), n)], db, pos + n, partSize)
  {
    var part := PartRef(Sha256(db[pos..pos + n]), n);
    PartBytesAppend(parts, [part]);
    assert PartBytes([part]) == part.digest.of + PartBytes([part][1..]);
    assert db[..pos + n] == db[..pos] + db[pos..pos + n];
  }

  /** What has been staged: of the parts read, each once, those new to the previous snapshot and to
      this run; and the folder gained them and nothing else. */
  ghost predicate StagedSo(before: StageFolder, f: StageFolder, known: set<Digest>, staged0: set<Digest>,
                           staged: set<Digest>, absent: seq<PartRef>, read: set<Digest>) {
    && staged == staged0 + Digests(absent) && DistinctRefs(absent)
    && Digests(absent) == read - known - staged0
    && f.files.Keys == before.files.Keys + Digests(absent)
  }

  /** indexDHDatabase: one front-to-back pass that hashes every part and the whole file, and
      copies each part that neither the previous snapshot nor this run has. */
  method IndexDatabase(st: Staging, db: Bytes, folder: string, partSize: int, known: set<Digest>, staged0: set<Digest>)
    returns (r: Reply<Level>, absent: seq<PartRef>, staged: set<Digest>)
    requires st.Valid() && staged0 <= st.folder.files.Keys
    modifies st
    ensures st.Valid() && Continues(st.trace, old(st.trace))
    ensures OnlyGains(st.trace, |old(st.trace)|, old(st.folder), st.folder, known)
    ensures r.Ok? ==> Describes(r.value, folder, db, partSize)
    ensures r.Ok? ==> StagedSo(old(st.folder), st.folder, known, staged0, staged, absent, Digests(r.value.parts))
    ensures st.faults >= old(st.faults) && (r.Ok? ==> partSize > 0)
    ensures r.Failed? && st.faults == old(st.faults) ==> partSize <= 0
  {
    absent, staged := [], staged0;
    if partSize <= 0 { return Failed, absent, staged; }
    var parts: seq<PartRef>, pos, size := [], 0, 0;
    while true
      invariant size == pos && ReadTo(parts, db, pos, partSize)
      invariant st.Valid() && Continues(st.trace, old(st.trace))
      invariant OnlyGains(st.trace, |old(st.trace)|, old(st.folder), st.folder, known)
      invariant StagedSo(old(st.folder), st.folder, known, staged0, staged, absent, Digests(parts))
      invariant st.faults >= old(st.faults)
      decreases |db| - pos
    {
      var stops := st.Fails();
      if stops { return Failed, absent, staged; }
      var n := if |db| - pos < partSize then |db| - pos else partSize;
      if n > 0 {
        ghost var trace := st.trace;
        var ok;
        ok, parts, absent, staged :=
          NextPart(st, parts, db, pos, partSize, n, known, staged0, staged, absent, old(st.folder));
        assert Continues(st.trace, trace);
        if !ok { return Failed, absent, staged; }
        size, pos := size + n, pos + n;
      }
      if n < partSize { break; }
    }
    assert db[..pos] == db;
    r := Ok(Level(folder, size, Whole(Sha256(db)), parts));
  }

  /** One read of the pass. */
  method NextPart(st: Staging, parts0: seq<PartRef>, db: Bytes, pos: nat, partSize: int, n: nat, known: set<Digest>,
                  ghost staged0: set<Digest>, staged1: set<Digest>, absent0: seq<PartRef>, ghost before: StageFolder)
    returns (ok: bool, parts: seq<PartRef>, absent: seq<PartRef>, staged: set<Digest>)
    requires st.Valid() && StagedSo(before, st.folder, known, staged0, staged1, absent0, Digests(parts0))
    requires staged0 <= before.files.Keys
    requires ReadTo(parts0, db, pos, partSize) && 0 < n <= partSize && pos + n <= |db|
    requires n < partSize ==> pos + n == |db|
    modifies st
    ensures st.Valid() && Continues(st.trace, old(st.trace))
    ensures OnlyGains(st.trace, |old(st.trace)|, old(st.folder), st.folder, known)
    ensures st.faults >= old(st.faults) && (!ok ==> st.faults > old(st.faults))
    ensures ok ==> ReadTo(parts, db, pos + n, partSize)
    ensures ok ==> StagedSo(before, st.folder, known, staged0, staged, absent, Digests(parts))
  {
    var part := PartRef(Sha256(db[pos..pos + n]), n);
    ReadMore(parts0, db, pos, partSize, n);
    DigestsSnoc(parts0, part);
    parts := parts0 + [part];
    ok, absent, staged :=
      StagePart(st, part, db[pos..pos + n], known, staged0, staged1, absent0, before, Digests(parts0));
  }

  method StagePart(st: Staging, part: PartRef, chunk: Bytes, known: set<Digest>, ghost staged0: set<Digest>,
                   staged: set<Digest>, absent: seq<PartRef>, ghost before: StageFolder, ghost read: set<Digest>)
    returns (ok: bool, absent': seq<PartRef>, staged': set<Digest>)
    requires st.Valid() && chunk == part.digest.of && staged0 <= before.files.Keys
    requires StagedSo(before, st.folder, known, staged0, staged, absent, read)
    modifies st
    ensures st.Valid() && Continues(st.trace, old(st.trace))
    ensures OnlyGains(st.trace, |old(st.trace)|, old(st.folder), st.folder, known)
    ensures ok ==> StagedSo(before, st.folder, known, staged0, staged', absent', read + {part.digest})
    ensures staged <= staged' && st.faults >= old(st.faults) && (!ok ==> st.faults > old(st.faults))
  {
    ok, absent', staged' := true, absent, staged;
    if part.digest !in known && part.digest !in staged {
      AbsentSnoc(absent, part);
      absent', staged' := absent + [part], staged + {part.digest};
      ok := st.WritePart(part.digest, chunk);
    }
  }

  lemma DigestsSnoc(parts: seq<PartRef>, p: PartRef)
    ensures Digests(parts + [p]) == Digests(parts) + {p.digest}
  {
    assert forall x :: x in parts + [p] <==> x in parts || x == p;
  }

  lemma AbsentSnoc(absent: seq<PartRef>, p: PartRef)
    requires DistinctRefs(absent) && p.digest !in Digests(absent)
    ensures DistinctRefs(absent + [p]) && Digests(absent + [p]) == Digests(absent) + {p.digest}
  {
    DigestsSnoc(absent, p);
    forall i | 0 <= i < |absent| ensures absent[i].digest != p.digest { assert absent[i] in absent; }
  }

  /** How many parts a file of n bytes is cut into. */
  function PartCount(n: nat, partSize: int): nat {
    if n == 0 || partSize <= 0 then 0
    else if n <= partSize then 1
    else 1 + PartCount(n - partSize, partSize)
  }

  lemma {:induction false} PartsAreCounted(parts: seq<PartRef>, partSize: int)
    requires CutEvenly(parts, partSize) && 0 < partSize
    ensures |parts| == PartCount(|PartBytes(parts)|, partSize)
  {
    if parts != [] {
      FirstPart(parts, partSize);
      PartsAreCounted(parts[1..], partSize);
      assert PartBytes(parts) == parts[0].digest.of + PartBytes(parts[1..]);
      if |parts| > 1 {
        assert parts[1..][0] == parts[1];
        assert PartBytes(parts[1..]) == parts[1..][0].digest.of + PartBytes(parts[1..][1..]);
      }
    }
  }

  /** What a file must be for its level to pass checkDHLevelForPublish. */
  predicate PublishableFile(db: Bytes, partSize: int) {
    && db != [] && PartCount(|db|, partSize) <= 10000
    && (if |db| < partSize then |db| else partSize) <= 5368709120
  }

  /** A level read this way can be published exactly when its file is not empty, is cut into no more
      parts than one upload takes, and none of them is larger than one upload may be. */
  lemma DescribedIsPublishable(l: Level, folder: string, db: Bytes, partSize: int)
    requires Describes(l, folder, db, partSize) && 0 < partSize
    ensures HonestLevel(l) && (PublishableLevel(l) <==> PublishableFile(db, partSize))
  {
    HonestSize(l.parts);
    PartsAreCounted(l.parts, partSize);
    if l.parts != [] { FirstPart(l.parts, partSize); }
  }

  // --- a whole snapshot ---

  /** One database, and whether SQLite's log lies beside it. */
  datatype SourceLevel = SourceLevel(folder: string, db: Bytes, wal: bool)
  datatype Source = Source(version: string, serverFolder: string, levels: seq<SourceLevel>)

  /** The index says what the stopped server's files hold, level by level. */
  ghost predicate IndexOf(ix: Index, src: Source, token: string, stamp: string, partSize: int) {
    && ix.createdAt == At(stamp) && ix.partsBase == PartsBase(token)
    && ix.version == src.version && ix.serverFolder == src.serverFolder
    && |ix.levels| == |src.levels|
    && forall i | 0 <= i < |ix.levels| :: Describes(ix.levels[i], src.levels[i].folder, src.levels[i].db, partSize)
  }

  function KnownParts(prev: Option<Index>): set<Digest> {
    match prev
    case Some(ix) => PartSet(ix)
    case None => {}
  }

  /** What keeps a snapshot from being taken though nothing fails: a database that was not closed
      cleanly, or a part size that is none. */
  predicate CannotRead(src: Source, partSize: int) {
    (exists l :: l in src.levels && l.wal) || (partSize <= 0 && src.levels != [])
  }

  /** stageDHSnapshotRun: every level read once; `absent` lists what the previous snapshot did
      not have, each part once across all levels. */
  method StageSnapshot(st: Staging, src: Source, prev: Option<Index>, token: string, stamp: string, partSize: int)
    returns (r: Reply<Index>, absent: seq<PartRef>)
    requires st.Valid()
    modifies st
    ensures st.Valid() && Continues(st.trace, old(st.trace))
    ensures OnlyGains(st.trace, |old(st.trace)|, old(st.folder), st.folder, KnownParts(prev))
    ensures r.Ok? ==> IndexOf(r.value, src, token, stamp, partSize) && Honest(r.value)
    ensures r.Ok? ==> DistinctRefs(absent)
    ensures r.Ok? && prev.Some? ==> Digests(absent) == PartSet(r.value) - PartSet(prev.value)
    ensures r.Ok? && prev.None? ==> Digests(absent) == PartSet(r.value)
    ensures r.Ok? ==> st.folder.files.Keys == old(st.folder.files.Keys) + Digests(absent)
    ensures st.faults >= old(st.faults) && (r.Ok? && src.levels != [] ==> partSize > 0)
    ensures r.Failed? && st.faults == old(st.faults) ==> partSize <= 0 && src.levels != []
  {
    var known := KnownParts(prev);
    var levels: seq<Level>, staged: set<Digest> := [], {};
    absent := [];
    var i := 0;
    while i < |src.levels|
      invariant 0 <= i <= |src.levels|
      invariant st.Valid() && Continues(st.trace, old(st.trace))
      invariant OnlyGains(st.trace, |old(st.trace)|, old(st.folder), st.folder, known)
      invariant LevelsTaken(levels, src, i, partSize)
      invariant PartsTaken(old(st.folder), st.folder, known, LevelDigests(levels), staged, absent)
      invariant st.faults >= old(st.faults) && (i > 0 ==> partSize > 0)
    {
      var ok;
      ghost var trace := st.trace;
      ok, levels, staged, absent := StageLevel(st, src, i, partSize, known, levels, staged, absent, old(st.folder));
      assert Continues(st.trace, trace);
      if !ok { return Failed, absent; }
      i := i + 1;
    }
    var ix := Index(At(stamp), PartsBase(token), src.version, src.serverFolder, levels);
    assert PartSet(ix) == LevelDigests(levels);
    r := Ok(ix);
  }

  /** One database of the run. */
  method StageLevel(st: Staging, src: Source, i: nat, partSize: int, known: set<Digest>, levels0: seq<Level>,
                    staged0: set<Digest>, absent0: seq<PartRef>, ghost before: StageFolder)
    returns (ok: bool, levels: seq<Level>, staged: set<Digest>, absent: seq<PartRef>)
    requires st.Valid() && i < |src.levels| && LevelsTaken(levels0, src, i, partSize)
    requires PartsTaken(before, st.folder, known, LevelDigests(levels0), staged0, absent0)
    modifies st
    ensures st.Valid() && Continues(st.trace, old(st.trace))
    ensures OnlyGains(st.trace, |old(st.trace)|, old(st.folder), st.folder, known)
    ensures st.faults >= old(st.faults) && (ok ==> partSize > 0) &&
              (!ok && st.faults == old(st.faults) ==> partSize <= 0)
    ensures ok ==> LevelsTaken(levels, src, i + 1, partSize)
    ensures ok ==> PartsTaken(before, st.folder, known, LevelDigests(levels), staged, absent)
  {
    ok, levels, absent := false, levels0, absent0;
    var one, more;
    one, more, staged := IndexDatabase(st, src.levels[i].db, src.levels[i].folder, partSize, known, staged0);
    if one.Ok? {
      MoreTaken(before, old(st.folder), st.folder, known, levels0, one.value, staged0, staged, absent0, more);
      MoreLevels(levels0, one.value, src, i, partSize);
      ok, levels, absent := true, levels0 + [one.value], absent0 + more;
    }
  }

  /** The first n levels describe the files read for them. */
  ghost predicate LevelsTaken(levels: seq<Level>, src: Source, n: nat, partSize: int)
    requires n <= |src.levels|
  {
    |levels| == n && forall j | 0 <= j < n :: Describes(levels[j], src.levels[j].folder, src.levels[j].db, partSize)
  }

  lemma MoreLevels(levels: seq<Level>, l: Level, src: Source, i: nat, partSize: int)
    requires i < |src.levels| && LevelsTaken(levels, src, i, partSize)
    requires Describes(l, src.levels[i].folder, src.levels[i].db, partSize)
    ensures LevelsTaken(levels + [l], src, i + 1, partSize)
  {}

  /** What was absent is what is named and not known, once each, and the folder gained it and nothing
      else. */
  ghost predicate PartsTaken(before: StageFolder, f: StageFolder, known: set<Digest>, named: set<Digest>,
                             staged: set<Digest>, absent: seq<PartRef>) {
    && staged == Digests(absent) == named - known && DistinctRefs(absent)
    && f.files.Keys == before.files.Keys + staged
  }

  lemma MoreTaken(before: StageFolder, f: StageFolder, after: StageFolder, known: set<Digest>, levels: seq<Level>,
                  l: Level, staged0: set<Digest>, staged: set<Digest>, absent: seq<PartRef>, more: seq<PartRef>)
    requires PartsTaken(before, f, known, LevelDigests(levels), staged0, absent)
    requires StagedSo(f, after, known, staged0, staged, more, Digests(l.parts))
    ensures PartsTaken(before, after, known, LevelDigests(levels + [l]), staged, absent + more)
  {
    LevelDigestsSnoc(levels, l);
    AppendRefs(absent, more);
  }

  lemma AppendRefs(a: seq<PartRef>, b: seq<PartRef>)
    requires DistinctRefs(a) && DistinctRefs(b) && Digests(a) !! Digests(b)
    ensures DistinctRefs(a + b) && Digests(a + b) == Digests(a) + Digests(b)
  {
    assert forall x :: x in a + b <==> x in a || x in b;
    forall i, j | 0 <= i < |a| && 0 <= j < |b| ensures a[i].digest != b[j].digest {
      assert a[i].digest in Digests(a) && b[j].digest in Digests(b);
    }
  }

  /** What a stopped server must hold for its snapshot to be one that can be published. */
  predicate PublishableSource(src: Source, stamp: string, partSize: int) {
    && src.levels != [] && IsStamp(stamp) && IsKeyName(src.serverFolder)
    && (forall i | 0 <= i < |src.levels| ::
          IsLevelFolder(src.levels[i].folder) && PublishableFile(src.levels[i].db, partSize))
    && (forall i, j | 0 <= i < j < |src.levels| :: src.levels[i].folder != src.levels[j].folder)
  }

  lemma IndexIsPublishable(ix: Index, src: Source, token: string, stamp: string, partSize: int)
    requires IndexOf(ix, src, token, stamp, partSize) && (src.levels != [] ==> 0 < partSize)
    ensures Publishable(ix) <==> PublishableSource(src, stamp, partSize)
  {
    forall i | 0 <= i < |ix.levels|
      ensures PublishableLevel(ix.levels[i]) <==> PublishableFile(src.levels[i].db, partSize)
      ensures ix.levels[i].folder == src.levels[i].folder
    {
      DescribedIsPublishable(ix.levels[i], src.levels[i].folder, src.levels[i].db, partSize);
    }
  }

  /** A database too large to be copied by ranges. */
  predicate TooLarge(src: Source) {
    exists l :: l in src.levels && RangeCount(|l.db|) > 10000
  }

  lemma TooLongIsTooLarge(ix: Index, src: Source, token: string, stamp: string, partSize: int)
    requires IndexOf(ix, src, token, stamp, partSize)
    ensures AnyTooLong(ix) ==> TooLarge(src)
  {
    if AnyTooLong(ix) {
      var l :| l in ix.levels && TooLong(l);
      var i :| 0 <= i < |ix.levels| && ix.levels[i] == l;
      assert Describes(ix.levels[i], src.levels[i].folder, src.levels[i].db, partSize);
      assert src.levels[i] in src.levels;
    }
  }

  // --- the run ---

  /** pruneStagedParts: a part stays when the new index names it, unless it is known to be up. */
  method PruneStaged(st: Staging, ix: Index, up: set<Digest>) returns (ok: bool)
    requires st.Valid()
    modifies st
    ensures st.Valid() && Continues(st.trace, old(st.trace))
    ensures forall i | |old(st.trace)| <= i < |st.trace| :: Pruned(old(st.folder), st.trace[i], ix, up)
    ensures Pruned(old(st.folder), st.folder, ix, up)
    ensures ok ==> st.folder.files.Keys <= PartSet(ix) - up
    ensures st.faults >= old(st.faults) && (!ok ==> st.faults > old(st.faults))
  {
    ok := true;
    var rest := st.folder.files.Keys;
    while rest != {}
      invariant st.Valid() && Continues(st.trace, old(st.trace))
      invariant forall i | |old(st.trace)| <= i < |st.trace| :: Pruned(old(st.folder), st.trace[i], ix, up)
      invariant Pruned(old(st.folder), st.folder, ix, up)
      invariant ok ==> st.folder.files.Keys <= rest + (PartSet(ix) - up)
      invariant st.faults >= old(st.faults) && (!ok ==> st.faults > old(st.faults))
    {
      var d :| d in rest;
      rest := rest - {d};
      if d in PartSet(ix) && d !in up { continue; }
      var removed := st.Remove(d);
      ok := ok && removed;
    }
  }

  ghost predicate Pruned(before: StageFolder, after: StageFolder, ix: Index, up: set<Digest>) {
    && after.index == before.index
    && after.files.Keys <= before.files.Keys
    && forall d | d in before.files && d in PartSet(ix) && d !in up :: d in after.files
  }

  /** checkNoWAL: a log left beside a database may hold what the copy would miss. */
  method CheckNoWal(st: Staging, src: Source) returns (clean: bool)
    modifies st`faults
    ensures st.faults >= old(st.faults) && (clean ==> forall l | l in src.levels :: !l.wal)
    ensures !clean && st.faults == old(st.faults) ==> exists l :: l in src.levels && l.wal
  {
    for i := 0 to |src.levels|
      invariant st.faults >= old(st.faults) && forall j | 0 <= j < i :: !src.levels[j].wal
    {
      var fails := st.Fails();
      if fails { return false; }
      if src.levels[i].wal {
        assert src.levels[i] in src.levels;
        return false;
      }
    }
    clean := true;
  }

  /** None of these parts is staged anew, in any state since `from`. */
  ghost predicate NoneStaged(trace: seq<StageFolder>, from: nat, before: StageFolder, parts: set<Digest>) {
    forall i, d | from <= i < |trace| && d in trace[i].files && d in parts :: d in before.files
  }

  /** copy and pruneStaging: the parts, then the index in one write, then what is no longer
      needed. `prev` is the snapshot measured against, `up` what is known to be in a bucket. */
  method CopyAndPrune(st: Staging, src: Source, prev: Option<Index>, up: set<Digest>, token: string, stamp: string,
                      partSize: int)
    returns (r: Reply<Index>)
    requires st.Valid()
    modifies st
    ensures st.Valid() && Continues(st.trace, old(st.trace))
    ensures r.Ok? ==> IndexOf(r.value, src, token, stamp, partSize) && st.folder.index == Parsed(r.value)
    ensures r.Failed? ==> st.folder.index == old(st.folder.index)
    ensures r.Ok? && prev.None? ==> forall d | d in PartSet(r.value) && d !in up :: d in st.folder.files
    ensures r.Ok? && prev.Some? ==>
              forall d | d in PartSet(r.value) && d !in PartSet(prev.value) && d !in up :: d in st.folder.files
    ensures prev.Some? ==> NoneStaged(st.trace, |old(st.trace)|, old(st.folder), PartSet(prev.value))
    ensures AllContained(old(st.trace)) && up == {}
              && (prev.Some? ==> forall d | d in PartSet(prev.value) :: d in old(st.folder.files))
            ==> AllContained(st.trace)
    ensures st.faults >= old(st.faults) && (r.Ok? ==> !CannotRead(src, partSize))
    ensures r.Failed? && st.faults == old(st.faults) ==> CannotRead(src, partSize)
    ensures r.Ok? && st.faults == old(st.faults) ==> st.folder.files.Keys <= PartSet(r.value) - up
  {
    var clean := CheckNoWal(st, src);
    if !clean { return Failed; }
    ghost var contained := AllContained(st.trace) && up == {}
                           && (prev.Some? ==> forall d | d in PartSet(prev.value) :: d in st.folder.files);
    ghost var f0 := st.folder;
    var absent;
    r, absent := StageSnapshot(st, src, prev, token, stamp, partSize);
    if contained { StillContained(old(st.trace), st.trace, f0); }
    if r.Failed? { return; }
    assert contained ==> AllContained(st.trace);
    assert contained ==> forall d | d in PartSet(r.value) :: d in st.folder.files;
    ghost var trace1, f1 := st.trace, st.folder;
    var ok := WriteAndPrune(st, r.value, up);
    if prev.Some? { StillNoneStaged(trace1, st.trace, |old(st.trace)|, f0, f1, PartSet(prev.value)); }
    if !ok { r := Failed; }
  }

  /** The index in one write, then what is no longer needed. */
  method WriteAndPrune(st: Staging, ix: Index, up: set<Digest>) returns (ok: bool)
    requires st.Valid() && Honest(ix)
    modifies st
    ensures st.Valid() && Continues(st.trace, old(st.trace))
    ensures st.folder.index == if ok then Parsed(ix) else old(st.folder.index)
    ensures ok ==> forall d | d in PartSet(ix) && d !in up && d in old(st.folder.files) :: d in st.folder.files
    ensures forall i | |old(st.trace)| <= i < |st.trace| :: st.trace[i].files.Keys <= old(st.folder.files.Keys)
    ensures AllContained(old(st.trace)) && up == {} && (forall d | d in PartSet(ix) :: d in old(st.folder.files)) ==>
              AllContained(st.trace)
    ensures st.faults >= old(st.faults) && (!ok ==> st.faults > old(st.faults))
    ensures ok && st.faults == old(st.faults) ==> st.folder.files.Keys <= PartSet(ix) - up
  {
    ghost var contained := AllContained(st.trace) && up == {} && forall d | d in PartSet(ix) :: d in st.folder.files;
    ok := st.WriteIndex(ix);
    if !ok { return; }
    ghost var t2, f2 := |st.trace|, st.folder;
    assert contained ==> SelfContained(f2);
    var pruned := PruneStaged(st, ix, up);
    if contained {
      forall i | t2 <= i < |st.trace| ensures SelfContained(st.trace[i]) {
        assert Pruned(f2, st.trace[i], ix, up);
      }
    }
  }

  lemma StillNoneStaged(trace1: seq<StageFolder>, trace: seq<StageFolder>, from: nat, before: StageFolder,
                        f1: StageFolder, parts: set<Digest>)
    requires Continues(trace, trace1) && NoneStaged(trace1, from, before, parts)
    requires forall d | d in f1.files && d in parts :: d in before.files
    requires forall i | |trace1| <= i < |trace| :: trace[i].files.Keys <= f1.files.Keys
    ensures NoneStaged(trace, from, before, parts)
  {}

  /** Adding files under an unchanged index keeps the folder whole. */
  lemma StillContained(before: seq<StageFolder>, after: seq<StageFolder>, f: StageFolder)
    requires before != [] && before[|before| - 1] == f && AllContained(before) && Continues(after, before)
    requires forall i | |before| <= i < |after| :: after[i].index == f.index && f.files.Keys <= after[i].files.Keys
    ensures AllContained(after)
  {
    assert SelfContained(f);
  }

  /** A run with no destination measures against the index it finds in its own folder, or, when that
      cannot be read, against none. */
  method SnapshotLocally(st: Staging, src: Source, token: string, stamp: string, partSize: int)
    returns (r: Reply<Index>)
    requires st.Valid() && AllContained(st.trace)
    modifies st
    ensures st.Valid() && Continues(st.trace, old(st.trace)) && AllContained(st.trace)
    ensures r.Ok? ==> IndexOf(r.value, src, token, stamp, partSize) && st.folder.index == Parsed(r.value)
    ensures st.faults >= old(st.faults) && (r.Ok? ==> !CannotRead(src, partSize))
    ensures r.Failed? && st.faults == old(st.faults) ==> CannotRead(src, partSize)
  {
    var unread := st.Fails();
    var prev := if !unread && st.folder.index.Parsed? then Some(st.folder.index.index) else None;
    assert SelfContained(st.folder);
    r := CopyAndPrune(st, src, prev, {}, token, stamp, partSize);
  }

  /** Any number of runs with no destination, each cut off anywhere: in every state the folder
      passes through it holds every part its index names. */
  method LocalRuns(st: Staging, runs: seq<(Source, string, string, int)>)
    requires st.Valid() && AllContained(st.trace)
    modifies st
    ensures st.Valid() && AllContained(st.trace) && Continues(st.trace, old(st.trace))
  {
    for i := 0 to |runs|
      invariant st.Valid() && AllContained(st.trace) && Continues(st.trace, old(st.trace))
    {
      var r := SnapshotLocally(st, runs[i].0, runs[i].1, runs[i].2, runs[i].3);
    }
  }

  /** Every part the index names is staged here or named by the bucket's previous snapshot. */
  ghost predicate Suffices(f: StageFolder, prev: Previous) {
    f.index.Parsed? && forall d | d in PartSet(f.index.index) :: d in f.files || d in PlannedPart(prev)
  }

  /** A run against a bucket measures against what its latest.json leads to, and keeps no
      copy of what is up. */
  method SnapshotAgainstBucket(w: World, st: Staging, src: Source, token: string, stamp: string, partSize: int)
    returns (r: Reply<Index>, ghost prev: Previous)
    requires st.Valid() && ValidToken(token)
    modifies st, w`faults
    ensures st.Valid() && Continues(st.trace, old(st.trace)) && w.faults >= old(w.faults)
    ensures r.Ok? ==> IndexOf(r.value, src, token, stamp, partSize) && st.folder.index == Parsed(r.value)
    ensures r.Ok? ==> Suffices(st.folder, prev)
                      && match ReadLatest(w.objs, token)
                         case Nothing => prev == First
                         case Broken => false
                         case Found(ix, k) => prev == Prev(ix, k)
    ensures match ReadLatest(w.objs, token)
            case Found(ix, _) => NoneStaged(st.trace, |old(st.trace)|, old(st.folder), PartSet(ix))
            case _ => true
    ensures r.Ok? && st.faults == old(st.faults) ==>
              match ReadLatest(w.objs, token)
              case Found(ix, _) => st.folder.files.Keys == PartSet(r.value) - PartSet(ix)
              case _ => st.folder.files.Keys == PartSet(r.value)
    ensures r.Failed? ==> st.folder.index == old(st.folder.index)
    ensures st.faults >= old(st.faults) && (r.Ok? ==> !CannotRead(src, partSize))
    ensures r.Failed? && w.faults == old(w.faults) && st.faults == old(st.faults) ==>
              CannotRead(src, partSize) || ReadLatest(w.objs, token).Broken?
  {
    prev := First;
    var read := ReadLatestIndex(w, token);
    if read.Failed? { return Failed, prev; }
    prev := read.value;
    var known := match read.value case First => None case Prev(ix, _) => Some(ix);
    r := CopyAndPrune(st, src, known, PlannedPart(read.value), token, stamp, partSize);
  }

  /** After such a run, a publish against that bucket never finds a part missing, and without a fault
      has its plan. */
  method PlanAfterSnapshot(w: World, st: Staging, ix: Index, prev: Previous) returns (plan: PlanReply)
    requires w.Valid() && AllInv(w.trace) && st.Valid() && PrevIs(w.Now(), prev)
    requires Suffices(st.folder, prev) && st.folder.index.index == ix
    modifies w`faults
    ensures w.faults >= old(w.faults) && !plan.MissingParts? && (w.faults == old(w.faults) ==> plan.Planned?)
  {
    NowInv(w);
    plan := PlanParts(w, st.folder, ix, prev);
  }

  // --- end to end ---

  /** A source is described by one index only. */
  lemma IndexIsOne(a: Index, b: Index, src: Source, token: string, stamp: string, partSize: int)
    requires IndexOf(a, src, token, stamp, partSize) && IndexOf(b, src, token, stamp, partSize)
    ensures a == b
  {
    forall i | 0 <= i < |a.levels| ensures a.levels[i] == b.levels[i] {
      PartsAreOne(a.levels[i].parts, b.levels[i].parts, partSize);
    }
  }

  lemma {:induction false} PartsAreOne(a: seq<PartRef>, b: seq<PartRef>, partSize: int)
    requires CutEvenly(a, partSize) && CutEvenly(b, partSize) && PartBytes(a) == PartBytes(b)
    ensures a == b
  {
    if a != [] && b != [] {
      FirstPart(a, partSize);
      FirstPart(b, partSize);
      assert a[0].digest.of == PartBytes(a)[..a[0].size] == PartBytes(b)[..b[0].size] == b[0].digest.of;
      assert PartBytes(a[1..]) == PartBytes(a)[a[0].size..];
      assert PartBytes(b[1..]) == PartBytes(b)[b[0].size..];
      PartsAreOne(a[1..], b[1..], partSize);
      assert a == [a[0]] + a[1..] && b == [b[0]] + b[1..];
    }
  }

  /** The first part is as long as a part is, or the whole. */
  lemma FirstPart(parts: seq<PartRef>, partSize: int)
    requires CutEvenly(parts, partSize) && parts != []
    ensures CutEvenly(parts[1..], partSize)
    ensures parts[0].size == if |PartBytes(parts)| < partSize then |PartBytes(parts)| else partSize
  {
    forall i | 0 <= i < |parts[1..]|
      ensures var p := parts[1..][i];
              p.size == |p.digest.of| && 0 < p.size <= partSize && (i < |parts[1..]| - 1 ==> p.size == partSize)
    {
      assert parts[1..][i] == parts[i + 1];
    }
  }

  /** After a snapshot against the bucket a publish has nothing to refuse but the source itself. */
  lemma OnlyForTheSource(s: State, f: StageFolder, prev: Previous, src: Source, stamp: string, partSize: int)
    requires Inv(s) && FolderOk(f) && Suffices(f, prev) && PrevIs(s, prev)
    requires IndexOf(f.index.index, src, s.rec.token, stamp, partSize) && !CannotRead(src, partSize)
    ensures Refusable(s.objs, s.rec.token, f) ==> !PublishableSource(src, stamp, partSize)
  {
    IndexIsPublishable(f.index.index, src, s.rec.token, stamp, partSize);
    assert AllAtHand(f.index.index, f, s.objs);
    assert !Unsendable(f, f.index.index);
  }

  /** A snapshot taken against the live base and published. When nothing fails it is published,
      unless the source cannot be read or published or has a database too large to be copied by
      ranges; and when it is, the bucket's file of each level is byte for byte the database that
      was read. A live snapshot of the same second must be of the same bytes. */
  method SnapshotAndPublish(w: World, st: Staging, src: Source, stamp: string, partSize: int, keep: int)
    returns (done: bool)
    requires w.Valid() && AllInv(w.trace) && st.Valid()
    requires LiveIndex(w.Now()).Some? && LiveIndex(w.Now()).value.createdAt == At(stamp) ==>
               IndexOf(LiveIndex(w.Now()).value, src, w.rec.token, stamp, partSize)
    modifies st, w`objs, w`uploads, w`nextUpload, w`trace, w`faults, w`sent
    ensures w.Valid() && AllInv(w.trace) && Extends(w.trace, old(w.trace)) && st.Valid()
    ensures done ==> IsStamp(stamp) && Complete(w.objs, w.rec.token)
    ensures done ==> forall i | 0 <= i < |src.levels| ::
              Holds(w.objs, LevelKey(w.rec.token, stamp, src.levels[i].folder), Data(src.levels[i].db))
    ensures done ==> !CannotRead(src, partSize) && PublishableSource(src, stamp, partSize)
    ensures !done && w.faults == old(w.faults) && st.faults == old(st.faults) ==>
              CannotRead(src, partSize) || !PublishableSource(src, stamp, partSize) || TooLarge(src)
  {
    NowInv(w);
    var taken;
    ghost var prev;
    taken, prev := SnapshotAgainstBucket(w, st, src, w.rec.token, stamp, partSize);
    if taken.Failed? { return false; }
    if LiveIndex(w.Now()).Some? && LiveIndex(w.Now()).value.createdAt == At(stamp) {
      IndexIsOne(LiveIndex(w.Now()).value, taken.value, src, w.rec.token, stamp, partSize);
    }
    done := PublishTaken(w, st, taken.value, prev, src, stamp, partSize, keep);
  }

  /** The publish of what was staged against this bucket. */
  method PublishTaken(w: World, st: Staging, ghost ix: Index, ghost prev: Previous, ghost src: Source,
                      ghost stamp: string, ghost partSize: int, keep: int)
    returns (done: bool)
    requires w.Valid() && AllInv(w.trace) && st.Valid() && PrevIs(w.Now(), prev) && Suffices(st.folder, prev)
    requires st.folder.index == Parsed(ix) && IndexOf(ix, src, w.rec.token, stamp, partSize)
    requires !CannotRead(src, partSize) && SameStampSameIndex(w.Now(), ix)
    modifies w`objs, w`uploads, w`nextUpload, w`trace, w`faults, w`sent
    ensures w.Valid() && AllInv(w.trace) && Extends(w.trace, old(w.trace)) && w.faults >= old(w.faults)
    ensures done ==> IsStamp(stamp) && Complete(w.objs, w.rec.token)
    ensures done ==> forall i | 0 <= i < |src.levels| ::
              Holds(w.objs, LevelKey(w.rec.token, stamp, src.levels[i].folder), Data(src.levels[i].db))
    ensures done ==> PublishableSource(src, stamp, partSize)
    ensures !done && w.faults == old(w.faults) ==> !PublishableSource(src, stamp, partSize) || TooLarge(src)
  {
    NowInv(w);
    IndexIsPublishable(ix, src, w.rec.token, stamp, partSize);
    TooLongIsTooLarge(ix, src, w.rec.token, stamp, partSize);
    OnlyForTheSource(w.Now(), st.folder, prev, src, stamp, partSize);
    var reached, res := RunPublish(w, w.rec.token, st.folder, keep);
    NowInv(w);
    done := reached.Published?;
    if done { PublishedBytes(w.Now(), ix, src, stamp, partSize); }
  }

  lemma PublishedBytes(s: State, ix: Index, src: Source, stamp: string, partSize: int)
    requires Inv(s) && LiveIndex(s) == Some(ix) && IndexOf(ix, src, s.rec.token, stamp, partSize)
    ensures IsStamp(stamp) && Complete(s.objs, s.rec.token)
    ensures forall i | 0 <= i < |src.levels| ::
              Holds(s.objs, LevelKey(s.rec.token, stamp, src.levels[i].folder), Data(src.levels[i].db))
  {
    forall i | 0 <= i < |src.levels|
      ensures Holds(s.objs, LevelKey(s.rec.token, stamp, src.levels[i].folder), Data(src.levels[i].db))
    {
      assert Describes(ix.levels[i], src.levels[i].folder, src.levels[i].db, partSize);
    }
  }
}
