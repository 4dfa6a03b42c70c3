/** Assembling a level's whole file inside the bucket with one multipart upload. */
module Assemble {
  import opened Wrappers
  import opened Keys
  import opened Snapshot
  import opened World

  predicate AllThere(objs: Objects, steps: seq<CopyStep>) {
    forall i | 0 <= i < |steps| :: StepBytes(objs, steps[i]).Some?
  }

  function StepChunks(objs: Objects, steps: seq<CopyStep>): seq<Bytes>
    requires AllThere(objs, steps)
  {
    seq(|steps|, i requires 0 <= i < |steps| => StepBytes(objs, steps[i]).value)
  }

  /** What the steps build, when there are steps, few enough, all readable and uniform. */
  function Built(objs: Objects, steps: seq<CopyStep>): Option<Bytes> {
    if steps != [] && |steps| <= MAX_PARTS && AllThere(objs, steps) && Uniform(StepChunks(objs, steps))
    then Some(Concat(StepChunks(objs, steps))) else None
  }

  /** Steps that yield `data` build it, and the store's rules never stand in the way. */
  lemma YieldsBuilt(objs: Objects, steps: seq<CopyStep>, data: Bytes)
    requires Yields(objs, steps, data) && 1 <= |steps| <= MAX_PARTS
    ensures Built(objs, steps) == Some(data)
  {
    var chunks :| Chunked(objs, steps, chunks) && Concat(chunks) == data;
    assert StepChunks(objs, steps) == chunks;
  }

  /** assembleDHObject. The object appears whole or not at all, and an upload that came to nothing
      is given up. */
  method AssembleObject(w: World, key: Key, steps: seq<CopyStep>) returns (ok: bool, aborted: bool)
    requires w.Valid()
    modifies w`objs, w`uploads, w`nextUpload, w`trace, w`faults
    ensures w.Valid() && w.faults >= old(w.faults)
    ensures !ok && w.faults == old(w.faults) ==> Built(old(w.objs), steps).None?
    ensures w.trace == old(w.trace) + [w.Now()] || (!ok && w.trace == old(w.trace) && w.objs == old(w.objs))
    ensures (!ok && w.objs == old(w.objs))
            || (Built(old(w.objs), steps).Some? && w.objs == old(w.objs)[key := Data(Built(old(w.objs), steps).value)])
    ensures ok || aborted ==> w.uploads == old(w.uploads)
  {
    ok, aborted := false, true;
    if steps == [] || |steps| > MAX_PARTS { return; }
    var created := w.CreateUpload(key);
    if created.Failed? { return; }
    var id := created.value;
    var etags := CopySteps(w, id, key, steps, w.uploads - {id});
    if etags.Ok? {
      var up := w.uploads[id];
      assert Uniform(up.parts) && AllThere(w.objs, steps) ==> StepChunks(w.objs, steps) == up.parts;
      assert Built(w.objs, steps).Some? ==> Joins(up, etags.value);
      ok := w.CompleteUpload(id, etags.value);
      if ok { return; }
    }
    aborted := w.AbortUpload(id);
  }

  /** copySteps: the etags, one for each step, or the failure of the first step that fails. */
  method CopySteps(w: World, id: nat, key: Key, steps: seq<CopyStep>, ghost others: map<nat, Upload>)
    returns (r: Reply<seq<Digest>>)
    requires w.Valid() && id !in others && w.uploads == others[id := Upload(key, [])]
    modifies w`uploads, w`faults
    ensures w.faults >= old(w.faults) && (r.Failed? ==> w.faults > old(w.faults) || !AllThere(w.objs, steps))
    ensures w.Valid() && id in w.uploads && w.uploads - {id} == others && w.uploads[id].key == key
    ensures r.Ok? ==> AllThere(w.objs, steps) && w.uploads[id].parts == StepChunks(w.objs, steps)
                      && |r.value| == |steps|
                      && forall i | 0 <= i < |steps| :: r.value[i] == Sha256(w.uploads[id].parts[i])
  {
    var etags: seq<Digest> := [];
    var i := 0;
    while i < |steps|
      invariant 0 <= i <= |steps| && |etags| == i
      invariant w.Valid() && id in w.uploads && w.uploads[id].key == key && w.uploads - {id} == others
      invariant |w.uploads[id].parts| == i && w.faults >= old(w.faults)
      invariant forall j | 0 <= j < i :: StepBytes(w.objs, steps[j]) == Some(w.uploads[id].parts[j])
                                         && etags[j] == Sha256(w.uploads[id].parts[j])
    {
      var cancelled := w.Fails();
      if cancelled { return Failed; }
      var r := w.UploadPartCopy(id, i + 1, steps[i]);
      if r.Failed? { return Failed; }
      etags, i := etags + [r.value], i + 1;
    }
    assert w.uploads[id].parts == StepChunks(w.objs, steps);
    r := Ok(etags);
  }

  /** previousObjectCopies: the ranges of a file that did not change. */
  method PreviousObjectCopies(source: Key, size: int) returns (steps: seq<CopyStep>)
    ensures steps == RangeSteps(source, size)
  {
    steps := [];
    var first := 0;
    while first < size
      invariant first == |steps| * COPY_RANGE
      invariant |steps| <= RangeCount(size) && steps == RangeSteps(source, size)[..|steps|]
      invariant first >= size ==> |steps| == RangeCount(size)
      decreases size - first
    {
      var last := (if first + COPY_RANGE < size then first + COPY_RANGE else size) - 1;
      RangeBound(size, |steps|);
      assert RangeSteps(source, size)[|steps|] == CopyStep(source, From(first, last));
      steps, first := steps + [CopyStep(source, From(first, last))], first + COPY_RANGE;
    }
  }

  /** partCopySteps: one whole-object copy for each part, repeats included. */
  method CopiesOfParts(l: Level) returns (steps: seq<CopyStep>)
    ensures steps == PartCopySteps(l)
  {
    steps := [];
    for i := 0 to |l.parts|
      invariant steps == PartCopySteps(l)[..i]
    {
      steps := steps + [CopyStep(Part(l.parts[i].digest), All)];
    }
  }
}
