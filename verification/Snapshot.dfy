/** The index of a snapshot, the objects of the bucket, and what makes a published
    snapshot complete. */
module Snapshot {
  import opened Wrappers
  import opened Keys

  const MAX_PARTS := 10000                        // parts of one multipart upload
  const MAX_OBJECT := 5 * 1024 * 1024 * 1024      // bytes of one uploaded object

  datatype PartRef = PartRef(digest: Digest, size: int)

  /** A level's whole-file hash: a digest, or text that is not one. */
  datatype WholeHash = Whole(digest: Digest) | NotAHash

  datatype Level = Level(folder: string, size: int, whole: WholeHash, parts: seq<PartRef>)

  /** createdAt: an RFC 3339 time, known by its folder stamp, or text that is not one. */
  datatype When = At(stamp: string) | NotATime

  datatype Index = Index(createdAt: When, partsBase: Path, version: string, serverFolder: string, levels: seq<Level>)

  /** The download page: what the template is given. Its links are relative. */
  datatype PageRow = PageRow(folder: string, size: int, serverFolder: string)
  datatype Page = Page(day: string, version: string, rows: seq<PageRow>)

  datatype Obj =
    | Data(bytes: Bytes)
    | IndexJson(index: Index)
    | PageHtml(page: Page)
    | LatestJson(createdAt: When, ref: Path)

  type Objects = map<Key, Obj>

  // --- levels ---

  function PartBytes(parts: seq<PartRef>): Bytes {
    if parts == [] then [] else parts[0].digest.of + PartBytes(parts[1..])
  }

  function LevelBytes(l: Level): Bytes { PartBytes(l.parts) }

  function SizeSum(parts: seq<PartRef>): int {
    if parts == [] then 0 else parts[0].size + SizeSum(parts[1..])
  }

  function Digests(parts: seq<PartRef>): set<Digest> { set p | p in parts :: p.digest }

  /** partSet: every part an index names, across all levels. */
  function PartSet(ix: Index): set<Digest> {
    set l, p | l in ix.levels && p in l.parts :: p.digest
  }

  lemma {:induction false} PartBytesAppend(a: seq<PartRef>, b: seq<PartRef>)
    ensures PartBytes(a + b) == PartBytes(a) + PartBytes(b)
    ensures SizeSum(a + b) == SizeSum(a) + SizeSum(b)
  {
    if a == [] {
      assert a + b == b;
    } else {
      assert (a + b)[1..] == a[1..] + b;
      PartBytesAppend(a[1..], b);
    }
  }

  predicate HonestParts(parts: seq<PartRef>) {
    forall i | 0 <= i < |parts| :: parts[i].size == |parts[i].digest.of|
  }

  lemma {:induction false} HonestSize(parts: seq<PartRef>)
    requires HonestParts(parts)
    ensures |PartBytes(parts)| == SizeSum(parts)
  {
    if parts != [] {
      assert HonestParts(parts[1..]) by {
        forall i | 0 <= i < |parts[1..]| ensures parts[1..][i].size == |parts[1..][i].digest.of| {
          assert parts[1..][i] == parts[i + 1];
        }
      }
      HonestSize(parts[1..]);
    }
  }

  /** The index describes bytes it hashed: sizes and hashes are those of the content. */
  predicate HonestLevel(l: Level) {
    HonestParts(l.parts) && l.whole == Whole(Sha256(LevelBytes(l)))
  }

  predicate Honest(ix: Index) { forall i | 0 <= i < |ix.levels| :: HonestLevel(ix.levels[i]) }

  // --- what may be published ---

  predicate KeyChar(c: char) {
    'a' <= c <= 'z' || 'A' <= c <= 'Z' || IsDigit(c) || c == '_' || c == '-'
  }

  predicate IsKeyName(s: string) { s != "" && forall i | 0 <= i < |s| :: KeyChar(s[i]) }

  predicate IsLevelFolder(s: string) {
    s != "" && forall i | 0 <= i < |s| :: KeyChar(s[i]) || s[i] == '@'
  }

  /** checkDHLevelForPublish. */
  predicate PublishableLevel(l: Level) {
    && 1 <= |l.parts| <= 10000
    && l.whole.Whole?
    && (forall i | 0 <= i < |l.parts| ::
          && 0 < l.parts[i].size <= 5368709120
          && (i < |l.parts| - 1 ==> l.parts[i].size == l.parts[0].size))
    && SizeSum(l.parts) == l.size
  }

  /** checkDHIndexForPublish. */
  predicate Publishable(ix: Index) {
    && ix.levels != []
    && ix.createdAt.At? && IsStamp(ix.createdAt.stamp)
    && IsKeyName(ix.serverFolder)
    && (forall i | 0 <= i < |ix.levels| :: IsLevelFolder(ix.levels[i].folder) && PublishableLevel(ix.levels[i]))
    && (forall i, j | 0 <= i < j < |ix.levels| :: ix.levels[i].folder != ix.levels[j].folder)
  }

  /** renderDHPage: it reads nothing of partsBase, so a moved snapshot keeps its page. */
  function Render(ix: Index): Page
    requires ix.createdAt.At? && IsStamp(ix.createdAt.stamp)
  {
    Page(ix.createdAt.stamp[..8], ix.version,
         seq(|ix.levels|, i requires 0 <= i < |ix.levels| =>
           PageRow(ix.levels[i].folder, ix.levels[i].size, ix.serverFolder)))
  }

  /** Which names a publish accepts: letters, digits, "_" and "-", and for a level's folder "@". */
  lemma NamesWrittenOut(s: string)
    ensures IsKeyName(s) <==>
              s != "" && forall i | 0 <= i < |s| ::
                var c := s[i] as int; 48 <= c <= 57 || 65 <= c <= 90 || 97 <= c <= 122 || c == 95 || c == 45
    ensures IsLevelFolder(s) <==>
              s != "" && forall i | 0 <= i < |s| ::
                var c := s[i] as int;
                48 <= c <= 57 || 64 <= c <= 90 || 97 <= c <= 122 || c == 95 || c == 45
  {
    forall c: char
      ensures KeyChar(c) <==>
                var n := c as int; 48 <= n <= 57 || 65 <= n <= 90 || 97 <= n <= 122 || n == 95 || n == 45
    {}
  }

  // --- what the bucket holds ---

  predicate Holds(objs: Objects, k: Key, o: Obj) { k in objs && objs[k] == o }

  /** What a reader of latest.json finds. */
  datatype Lookup = Nothing | Broken | Found(index: Index, key: Key)

  function ReadLatest(objs: Objects, token: string): Lookup {
    if Latest(token) !in objs then Nothing
    else
      match objs[Latest(token)]
      case LatestJson(_, ref) =>
        (match LatestIndexKey(token, ref)
         case None => Broken
         case Some(k) => if k in objs && objs[k].IndexJson? then Found(objs[k].index, k) else Broken)
      case _ => Broken
  }

  function PointerTo(ix: Index, token: string): Obj
    requires ix.createdAt.At?
  {
    LatestJson(ix.createdAt, [SNAPSHOTS, Text(ix.createdAt.stamp), INDEX])
  }

  /** Everything the index needs is in the bucket, under its own base: the index, its page,
      every part, and every level's whole file with the bytes of its parts in order. */
  predicate Stored(objs: Objects, token: string, ix: Index)
    requires ix.createdAt.At? && IsStamp(ix.createdAt.stamp)
  {
    var stamp := ix.createdAt.stamp;
    && Holds(objs, IndexKey(token, stamp), IndexJson(ix))
    && Holds(objs, PageKey(token, stamp), PageHtml(Render(ix)))
    && PartsStored(objs, ix)
    && LevelsStored(objs, token, stamp, ix.levels)
  }

  predicate PartsStored(objs: Objects, ix: Index) {
    forall d | d in PartSet(ix) :: Part(d) in objs
  }

  predicate LevelsStored(objs: Objects, token: string, stamp: string, levels: seq<Level>) {
    forall i | 0 <= i < |levels| ::
      Holds(objs, LevelKey(token, stamp, levels[i].folder), Data(LevelBytes(levels[i])))
  }

  /** Sound as an index of this layout, whatever the bucket holds. */
  predicate Sound(ix: Index, token: string) {
    Publishable(ix) && Honest(ix) && ix.partsBase == PartsBase(token)
  }

  /** latest.json of this base leads to a whole snapshot. */
  predicate Complete(objs: Objects, token: string) {
    match ReadLatest(objs, token)
    case Found(ix, key) =>
      && Sound(ix, token)
      && objs[Latest(token)] == PointerTo(ix, token)
      && key == IndexKey(token, ix.createdAt.stamp)
      && Stored(objs, token, ix)
    case _ => false
  }

  /** Parts are immutable and named by their hash. */
  ghost predicate PartsHonest(objs: Objects) {
    forall d: Digest | Part(d) in objs :: objs[Part(d)] == Data(d.of)
  }

  /** The keys a complete base depends on. */
  predicate Needs(ix: Index, token: string, k: Key)
    requires ix.createdAt.At?
  {
    var stamp := ix.createdAt.stamp;
    || k == Latest(token)
    || k == IndexKey(token, stamp)
    || k == PageKey(token, stamp)
    || (k.Part? && k.digest in PartSet(ix))
    || (exists i :: 0 <= i < |ix.levels| && k == LevelKey(token, stamp, ix.levels[i].folder))
  }

  /** A complete base stays complete while the keys it needs are untouched. */
  lemma CompleteFrame(before: Objects, after: Objects, token: string)
    requires Complete(before, token) && ValidToken(token)
    requires var ix := ReadLatest(before, token).index;
             forall k | k in before && Needs(ix, token, k) :: Holds(after, k, before[k])
    ensures Complete(after, token)
    ensures ReadLatest(after, token) == ReadLatest(before, token)
  {
    var ix := ReadLatest(before, token).index;
    var stamp := ix.createdAt.stamp;
    PointerRoundTrip(token, stamp);
    assert Needs(ix, token, Latest(token)) && Needs(ix, token, IndexKey(token, stamp)) &&
      Needs(ix, token, PageKey(token, stamp));
    forall d | d in PartSet(ix) ensures Part(d) in after {
      assert Needs(ix, token, Part(d));
    }
    forall i | 0 <= i < |ix.levels|
      ensures Holds(after, LevelKey(token, stamp, ix.levels[i].folder), Data(LevelBytes(ix.levels[i])))
    {
      assert Needs(ix, token, LevelKey(token, stamp, ix.levels[i].folder));
    }
  }

  /** The pointer of a complete base names its index by a relative path, and its page is true: a row for each level
      file below it and no other, with the size that file has. */
  lemma PageIsTrue(objs: Objects, token: string)
    requires Complete(objs, token)
    ensures var ix := ReadLatest(objs, token).index;
            var stamp := ix.createdAt.stamp;
            var k := Snap(token, [Text(stamp), Text("index.html")]);
            && Latest(token) in objs
            && objs[Latest(token)] ==
                 LatestJson(ix.createdAt, [Text("snapshots"), Text(stamp), Text("index.json")])
            && k in objs && objs[k].PageHtml?
            && objs[k].page.day == stamp[..8] && objs[k].page.version == ix.version
            && (forall row | row in objs[k].page.rows ::
                  var file := Snap(token, [Text(stamp), Text(row.folder), Text("DistantHorizons.sqlite")]);
                  && row.serverFolder == ix.serverFolder
                  && file in objs && objs[file].Data? && row.size == |objs[file].bytes|)
            && forall l | l in ix.levels :: exists row :: row in objs[k].page.rows && row.folder == l.folder
  {
    var ix := ReadLatest(objs, token).index;
    var stamp := ix.createdAt.stamp;
    var page := Render(ix);
    assert Holds(objs, PageKey(token, stamp), PageHtml(page));
    forall i | 0 <= i < |ix.levels|
      ensures Holds(objs, LevelKey(token, stamp, ix.levels[i].folder), Data(LevelBytes(ix.levels[i])))
      ensures page.rows[i] == PageRow(ix.levels[i].folder, |LevelBytes(ix.levels[i])|, ix.serverFolder)
    {
      HonestSize(ix.levels[i].parts);
    }
    forall l | l in ix.levels ensures exists row :: row in page.rows && row.folder == l.folder {
      var i :| 0 <= i < |ix.levels| && ix.levels[i] == l;
      assert page.rows[i] in page.rows;
    }
  }

  /** Writing the pointer over a stored snapshot is what completes it. */
  lemma PointerCompletes(objs: Objects, token: string, ix: Index)
    requires ValidToken(token) && Sound(ix, token) && Stored(objs, token, ix)
    requires Holds(objs, Latest(token), PointerTo(ix, token))
    ensures Complete(objs, token) && ReadLatest(objs, token) == Found(ix, IndexKey(token, ix.createdAt.stamp))
  {
    PointerRoundTrip(token, ix.createdAt.stamp);
  }

  // --- assembling a level in the bucket ---

  const COPY_RANGE: int := 1024 * 1024 * 1024

  /** One part of an assembly: the whole of a source, or a byte range of it (inclusive). */
  datatype Range = All | From(first: int, last: int)
  datatype CopyStep = CopyStep(source: Key, range: Range)

  /** What a copy step reads, when the source is there and holds the range. */
  function StepBytes(objs: Objects, s: CopyStep): Option<Bytes> {
    if s.source !in objs || !objs[s.source].Data? then None
    else
      var data := objs[s.source].bytes;
      match s.range
      case All => Some(data)
      case From(first, last) =>
        if 0 <= first <= last < |data| then Some(data[first..last + 1]) else None
  }

  function Concat(chunks: seq<Bytes>): Bytes {
    if chunks == [] then [] else chunks[0] + Concat(chunks[1..])
  }

  lemma {:induction false} ConcatAppend(a: seq<Bytes>, b: seq<Bytes>)
    ensures Concat(a + b) == Concat(a) + Concat(b)
  {
    if a == [] {
      assert a + b == b;
    } else {
      assert (a + b)[1..] == a[1..] + b;
      ConcatAppend(a[1..], b);
    }
  }

  /** The store's rule for one upload: every part but the last has the same length. */
  predicate Uniform(chunks: seq<Bytes>) {
    forall i | 0 <= i < |chunks| - 1 :: |chunks[i]| == |chunks[0]|
  }

  /** partCopySteps: one whole-object copy for each part, in index order. */
  function PartCopySteps(l: Level): (steps: seq<CopyStep>) {
    seq(|l.parts|, i requires 0 <= i < |l.parts| => CopyStep(Part(l.parts[i].digest), All))
  }

  function PartChunks(parts: seq<PartRef>): (chunks: seq<Bytes>) {
    seq(|parts|, i requires 0 <= i < |parts| => parts[i].digest.of)
  }

  lemma {:induction false} PartChunksConcat(parts: seq<PartRef>)
    ensures Concat(PartChunks(parts)) == PartBytes(parts)
  {
    if parts != [] {
      assert PartChunks(parts)[1..] == PartChunks(parts[1..]);
      PartChunksConcat(parts[1..]);
    }
  }

  /** How many ranges of COPY_RANGE bytes cover `size` bytes. */
  function RangeCount(size: int): (n: nat) {
    if size <= 0 then 0 else (size - 1) / COPY_RANGE + 1
  }

  function RangeStep(source: Key, size: int, i: int): CopyStep {
    var first := i * COPY_RANGE;
    CopyStep(source, From(first, (if first + COPY_RANGE < size then first + COPY_RANGE else size) - 1))
  }

  /** The ranges previousObjectCopies lays over a file: they start at 0, each begins where
      the one before it ended, and all but the last are COPY_RANGE long. */
  function RangeSteps(source: Key, size: int): seq<CopyStep> {
    seq(RangeCount(size), i requires 0 <= i < RangeCount(size) => RangeStep(source, size, i))
  }

  lemma RangesPartition(source: Key, size: int)
    requires 0 < size
    ensures var steps := RangeSteps(source, size); var n := |steps|;
            && n >= 1
            && steps[0].range.first == 0 && steps[n - 1].range.last == size - 1
            && (forall i | 0 <= i < n :: steps[i].source == source && steps[i].range.From?
                                         && 0 <= steps[i].range.first <= steps[i].range.last < size)
            && (forall i | 0 <= i < n - 1 :: steps[i].range.last + 1 - steps[i].range.first == 1073741824)
            && (forall i | 0 < i < n :: steps[i].range.first == steps[i - 1].range.last + 1)
  {
    var steps := RangeSteps(source, size);
    RangeBound(size, |steps| - 1);
    forall i | 0 <= i < |steps|
      ensures steps[i] == RangeStep(source, size, i)
      ensures 0 <= steps[i].range.first <= steps[i].range.last < size
      ensures steps[i].range.first == i * COPY_RANGE
      ensures i < |steps| - 1 ==> steps[i].range.last + 1 == (i + 1) * COPY_RANGE
    {
      RangeBound(size, i);
    }
  }

  function RangeChunks(data: Bytes): (chunks: seq<Bytes>)
    ensures |chunks| == RangeCount(|data|)
  {
    seq(RangeCount(|data|), i requires 0 <= i < RangeCount(|data|) => RangeChunk(data, i))
  }

  function RangeChunk(data: Bytes, i: nat): Bytes
    requires i < RangeCount(|data|)
  {
    RangeBound(|data|, i);
    data[i * COPY_RANGE..if (i + 1) * COPY_RANGE < |data| then (i + 1) * COPY_RANGE else |data|]
  }

  lemma RangeBound(size: nat, i: nat)
    requires i < RangeCount(size)
    ensures i * COPY_RANGE < size
    ensures i + 1 < RangeCount(size) ==> (i + 1) * COPY_RANGE < size
    ensures i + 1 == RangeCount(size) ==> size <= (i + 1) * COPY_RANGE
  {
    var n := RangeCount(size);
    assert (n - 1) * COPY_RANGE < size <= n * COPY_RANGE;
    assert i * COPY_RANGE <= (n - 1) * COPY_RANGE;
  }

  lemma {:induction false} RangeChunksPrefix(data: Bytes, n: nat)
    requires n <= RangeCount(|data|)
    ensures Concat(RangeChunks(data)[..n]) == data[..if n * COPY_RANGE < |data| then n * COPY_RANGE else |data|]
    decreases n
  {
    if n > 0 {
      var chunks := RangeChunks(data);
      RangeChunksPrefix(data, n - 1);
      RangeBound(|data|, n - 1);
      assert chunks[..n] == chunks[..n - 1] + [chunks[n - 1]];
      ConcatAppend(chunks[..n - 1], [chunks[n - 1]]);
      assert Concat([chunks[n - 1]]) == chunks[n - 1];
    }
  }

  /** The two routes to a level's file give the same bytes, in chunks one upload accepts:
      the parts in order, and the ranges of a file that already holds them. */
  lemma RoutesAgree(objs: Objects, l: Level, previous: Key)
    requires HonestLevel(l) && PublishableLevel(l) && PartsHonest(objs)
    ensures (forall i | 0 <= i < |l.parts| :: Part(l.parts[i].digest) in objs)
            ==> Yields(objs, PartCopySteps(l), LevelBytes(l))
    ensures Holds(objs, previous, Data(LevelBytes(l)))
            ==> Yields(objs, RangeSteps(previous, l.size), LevelBytes(l))
    ensures |RangeSteps(previous, l.size)| >= 1
  {
    HonestSize(l.parts);
    SumPositive(l.parts);
    RangesPartition(previous, l.size);
    if forall i | 0 <= i < |l.parts| :: Part(l.parts[i].digest) in objs {
      var chunks := PartChunks(l.parts);
      PartChunksConcat(l.parts);
      assert Chunked(objs, PartCopySteps(l), chunks);
    }
    if Holds(objs, previous, Data(LevelBytes(l))) {
      RangesYield(objs, previous, LevelBytes(l));
    }
  }

  /** The ranges of a file, one after another, are the file. */
  lemma RangesYield(objs: Objects, previous: Key, data: Bytes)
    requires data != [] && Holds(objs, previous, Data(data))
    ensures Yields(objs, RangeSteps(previous, |data|), data)
  {
    var chunks := RangeChunks(data);
    RangesPartition(previous, |data|);
    RangeChunksPrefix(data, |chunks|);
    assert chunks[..|chunks|] == chunks;
    RangeBound(|data|, |chunks| - 1);
    assert Concat(chunks) == data;
    forall i | 0 <= i < |chunks|
      ensures StepBytes(objs, RangeSteps(previous, |data|)[i]) == Some(chunks[i])
      ensures i < |chunks| - 1 ==> |chunks[i]| == COPY_RANGE
    {
      RangeBound(|data|, i);
    }
    assert Chunked(objs, RangeSteps(previous, |data|), chunks);
  }

  lemma {:induction false} SumPositive(parts: seq<PartRef>)
    requires parts != [] && forall i | 0 <= i < |parts| :: 0 < parts[i].size
    ensures SizeSum(parts) > 0
  {
    if |parts| > 1 {
      assert forall i | 0 <= i < |parts[1..]| :: parts[1..][i] == parts[i + 1];
      SumPositive(parts[1..]);
    }
  }

  ghost predicate Chunked(objs: Objects, steps: seq<CopyStep>, chunks: seq<Bytes>) {
    && |chunks| == |steps|
    && (forall i | 0 <= i < |steps| :: StepBytes(objs, steps[i]) == Some(chunks[i]))
    && Uniform(chunks)
  }

  /** Copying these steps in order builds exactly `data`, within the store's rules. */
  ghost predicate Yields(objs: Objects, steps: seq<CopyStep>, data: Bytes) {
    exists chunks :: Chunked(objs, steps, chunks) && Concat(chunks) == data
  }
}
