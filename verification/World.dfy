/** What outlives a run: the bucket and the link record, with every state they pass through.

    Each durable operation may fail, and a request to the bucket may fail after it took
    effect. A run that is cut off is one whose every later operation fails, so what holds of
    all failures holds of every cut-off; `trace` records the states in between, which are
    what a reader or a restarted app can find, `faults` counts what went wrong that is not in
    what the store holds, `sent` is the key of each object put, in the order of the puts, and
    `begun` is the state in which the latest change of the link began. */
module World {
  import opened Wrappers
  import opened Keys
  import opened Snapshot

  datatype Reply<+T> = Failed | Ok(value: T)

  /** A conditional put: written, refused because the key exists (412), or failed. */
  datatype PutReply = Written | Present | PutFailed

  /** The link file of the destination. `token` "" is public; `published` says the key prefix
      has been recorded; `stale` are the tokens of bases still to be deleted. */
  datatype LinkRecord = LinkRecord(token: string, pending: string, published: bool, stale: seq<string>)

  /** One durable state, with the history the link rules speak of: the tokens ever made and
      those that were ever live. */
  datatype State = State(objs: Objects, rec: LinkRecord, made: set<string>, everLive: set<string>)

  datatype Region = Snapshots(token: string) | Parts

  predicate InRegion(k: Key, r: Region) {
    match r
    case Snapshots(t) => k.Snap? && k.token == t
    case Parts => k.Part? || k.PartOther?
  }

  datatype Listed = Listed(key: Key, size: nat)

  /** Only data has a size the protocol asks about. */
  function SizeOf(o: Obj): nat { if o.Data? then |o.bytes| else 0 }

  function KeysOf(listed: seq<Listed>): set<Key> { set l | l in listed :: l.key }

  /** A listing names every object of its region, with its size. Whatever else it names lies
      outside the region, which is how a wrong answer shows. */
  ghost predicate Lists(objs: Objects, r: Region, listed: seq<Listed>) {
    && (forall k | k in objs && InRegion(k, r) :: k in KeysOf(listed))
    && (forall l | l in listed && InRegion(l.key, r) :: l.key in objs && l.size == SizeOf(objs[l.key]))
  }

  /** after is before without some of these keys. */
  predicate Thinned(before: Objects, after: Objects, keys: set<Key>) {
    && after.Keys <= before.Keys
    && (forall k | k in before :: k in after || k in keys)
    && (forall k | k in after :: after[k] == before[k])
  }

  ghost predicate SameBut(before: State, after: State, objs: Objects) {
    after == before.(objs := objs)
  }

  /** later continues earlier: no state that was passed through is forgotten. */
  ghost predicate Extends(later: seq<State>, earlier: seq<State>) {
    |earlier| <= |later| && forall i | 0 <= i < |earlier| :: later[i] == earlier[i]
  }

  lemma ExtendsStill(latest: seq<State>, later: seq<State>, earlier: seq<State>)
    requires Extends(latest, later) && Extends(later, earlier)
    ensures Extends(latest, earlier)
  {}

  /** Once the prefix is recorded it stays recorded. */
  ghost predicate Sticky(trace: seq<State>) {
    forall i, j | 0 <= i < j < |trace| :: trace[i].rec.published ==> trace[j].rec.published
  }

  /** What a reader finds under one token and under another is the same snapshot, or nothing. */
  ghost predicate SameFound(objs: Objects, t: string, u: string) {
    match ReadLatest(objs, t)
    case Nothing => ReadLatest(objs, u).Nothing?
    case Broken => false
    case Found(ix, _) => ReadLatest(objs, u).Found? && ReadLatest(objs, u).index == ix.(partsBase := PartsBase(u))
  }

  /** When the live token changes, the snapshot that is live does not. */
  ghost predicate LinkStep(s: State, t: State) {
    s.rec.token != t.rec.token ==> t.objs == s.objs && SameFound(s.objs, s.rec.token, t.rec.token)
  }

  ghost predicate LinkStepAt(trace: seq<State>, i: nat) {
    0 < i < |trace| ==> LinkStep(trace[i - 1], trace[i])
  }

  ghost predicate LinkSteps(trace: seq<State>) {
    forall i: nat :: LinkStepAt(trace, i)
  }

  lemma OneMoreState(trace: seq<State>, s: State)
    requires trace != [] && Sticky(trace) && LinkSteps(trace)
    requires LinkStep(trace[|trace| - 1], s) && (trace[|trace| - 1].rec.published ==> s.rec.published)
    ensures Sticky(trace + [s]) && LinkSteps(trace + [s])
  {
    forall i: nat ensures LinkStepAt(trace + [s], i) {
      assert LinkStepAt(trace, i);
    }
  }

  datatype Upload = Upload(key: Key, parts: seq<Bytes>)

  /** The store joins the parts of an upload when the etags are theirs and it has the shape one
      may have. */
  predicate Joins(up: Upload, etags: seq<Digest>) {
    && up.parts != [] && Uniform(up.parts)
    && |etags| == |up.parts| && forall i | 0 <= i < |etags| :: etags[i] == Sha256(up.parts[i])
  }

  class World {
    var objs: Objects
    var uploads: map<nat, Upload>
    var nextUpload: nat
    var rec: LinkRecord
    var holders: nat
    var moving: bool
    ghost var made: set<string>
    ghost var everLive: set<string>
    ghost var trace: seq<State>
    ghost var faults: nat
    ghost var sent: seq<Key>
    ghost var begun: nat

    ghost function Now(): State reads `objs, `rec, `made, `everLive { State(objs, rec, made, everLive) }

    ghost predicate Valid() reads `objs, `uploads, `nextUpload, `rec, `made, `everLive, `trace {
      && trace != [] && trace[|trace| - 1] == Now() && Sticky(trace) && LinkSteps(trace)
      && forall id | id in uploads :: id < nextUpload
    }

    /** An empty bucket, and no link file: public, nothing published. */
    constructor ()
      ensures Valid() && trace == [Now()]
      ensures objs == map[] && rec == LinkRecord("", "", false, [])
      ensures made == {} && everLive == {""} && holders == 0 && !moving && uploads == map[] && faults == 0
      ensures sent == [] && begun == 0
    {
      objs, uploads, nextUpload := map[], map[], 0;
      rec, holders, moving := LinkRecord("", "", false, []), 0, false;
      made, everLive := {}, {""};
      trace, faults := [State(map[], LinkRecord("", "", false, []), {}, {""})], 0;
      sent, begun := [], 0;
    }

    /** Whether something goes wrong now that is not in what the store holds. */
    method Fails() returns (fails: bool)
      modifies `faults
      ensures faults == old(faults) + (if fails then 1 else 0)
    {
      fails := *;
      if fails { faults := faults + 1; }
    }

    // --- reads ---

    method Get(k: Key) returns (r: Reply<Option<Obj>>)
      modifies `faults
      ensures faults >= old(faults) && (r.Failed? ==> faults > old(faults))
      ensures r.Ok? ==> r.value == if k in objs then Some(objs[k]) else None
    {
      var fails := Fails();
      r := if fails then Failed else Ok(if k in objs then Some(objs[k]) else None);
    }

    method Head(k: Key) returns (r: Reply<Option<nat>>)
      modifies `faults
      ensures faults >= old(faults) && (r.Failed? ==> faults > old(faults))
      ensures r.Ok? ==> r.value == if k in objs then Some(SizeOf(objs[k])) else None
    {
      var fails := Fails();
      r := if fails then Failed else Ok(if k in objs then Some(SizeOf(objs[k])) else None);
    }

    method List(region: Region) returns (r: Reply<seq<Listed>>)
      modifies `faults
      ensures faults >= old(faults) && (r.Failed? ==> faults > old(faults))
      ensures r.Ok? ==> Lists(objs, region, r.value)
      ensures r.Ok? && faults == old(faults) ==> forall l | l in r.value :: InRegion(l.key, region)
    {
      var fails := Fails();
      if fails { return Failed; }
      var wrong := Fails();
      var stray: seq<Listed> := *;
      var listed := if wrong && forall l | l in stray :: !InRegion(l.key, region) then stray else [];
      var rest := set k | k in objs && InRegion(k, region);
      while rest != {}
        invariant forall k | k in rest :: k in objs && InRegion(k, region)
        invariant forall k | k in objs && InRegion(k, region) :: k in rest || k in KeysOf(listed)
        invariant forall l | l in listed && InRegion(l.key, region) :: l.key in objs && l.size == SizeOf(objs[l.key])
        invariant !wrong ==> forall l | l in listed :: InRegion(l.key, region)
      {
        var k :| k in rest;
        var one := Listed(k, SizeOf(objs[k]));
        assert KeysOf(listed + [one]) == KeysOf(listed) + {k} by {
          assert one in listed + [one];
          forall x | x in KeysOf(listed) ensures x in KeysOf(listed + [one]) {
            var l :| l in listed && l.key == x;
            assert l in listed + [one];
          }
        }
        listed, rest := listed + [one], rest - {k};
      }
      r := Ok(listed);
    }

    // --- writes to the bucket ---

    method Put(k: Key, o: Obj) returns (ok: bool)
      requires Valid()
      modifies `objs, `trace, `faults, `sent
      ensures Valid() && trace == old(trace) + [Now()] && sent == old(sent) + [k]
      ensures faults >= old(faults) && (!ok ==> faults > old(faults))
      ensures objs == old(objs)[k := o] || (!ok && objs == old(objs))
    {
      var done: bool := *;
      var fails := Fails();
      ok := !fails;
      if done || ok { objs := objs[k := o]; }
      OneMoreState(trace, Now());
      trace, sent := trace + [Now()], sent + [k];
    }

    /** If-None-Match: an object that exists is left alone. A retry inside the client can meet
        its own first attempt, so Present may also follow a write. */
    method PutIfAbsent(k: Key, o: Obj) returns (r: PutReply)
      requires Valid()
      modifies `objs, `trace, `faults, `sent
      ensures Valid() && trace == old(trace) + [Now()] && sent == old(sent) + [k]
      ensures objs == old(objs) || (k !in old(objs) && objs == old(objs)[k := o])
      ensures r != PutFailed ==> k in objs
      ensures r == Written ==> k !in old(objs)
      ensures faults >= old(faults) && (r == PutFailed ==> faults > old(faults))
      ensures faults == old(faults) ==> r == if k in old(objs) then Present else Written
    {
      var done: bool := *;
      var known: bool := *;
      var fails := Fails();
      if k in objs {
        r := if fails && !known then PutFailed else Present;
      } else if done || !fails {
        objs := objs[k := o];
        r := if fails then (if known then Present else PutFailed) else Written;
      } else {
        r := PutFailed;
      }
      OneMoreState(trace, Now());
      trace, sent := trace + [Now()], sent + [k];
    }

    method Copy(dst: Key, src: Key) returns (ok: bool)
      requires Valid()
      modifies `objs, `trace, `faults
      ensures Valid() && trace == old(trace) + [Now()]
      ensures faults >= old(faults) && (!ok ==> faults > old(faults) || src !in old(objs))
      ensures (src in old(objs) && objs == old(objs)[dst := old(objs)[src]]) || (!ok && objs == old(objs))
    {
      var done: bool := *;
      var fails := Fails();
      ok := !fails;
      if src !in objs {
        ok := false;
      } else if done || ok {
        objs := objs[dst := objs[src]];
      }
      OneMoreState(trace, Now());
      trace := trace + [Now()];
    }

    /** A multi-object delete: it may stop after any of the keys, in any order. */
    method Delete(keys: seq<Key>) returns (ok: bool)
      requires Valid()
      modifies `objs, `trace, `faults
      ensures Valid() && Extends(trace, old(trace))
      ensures faults >= old(faults) && (!ok ==> faults > old(faults))
      ensures forall i | |old(trace)| <= i < |trace| ::
                Thinned(old(objs), trace[i].objs, set k | k in keys) && SameBut(old(Now()), trace[i], trace[i].objs)
      ensures Thinned(old(objs), objs, set k | k in keys)
      ensures ok ==> forall k | k in keys :: k !in objs
    {
      ghost var all := set k | k in keys;
      var todo := set k | k in keys;
      ok := true;
      while todo != {}
        invariant Valid() && Extends(trace, old(trace))
        invariant forall i | |old(trace)| <= i < |trace| ::
                    Thinned(old(objs), trace[i].objs, all) && SameBut(old(Now()), trace[i], trace[i].objs)
        invariant Thinned(old(objs), objs, all) && todo <= all
        invariant ok ==> forall k | k in all :: k in todo || k !in objs
        invariant faults >= old(faults) && (!ok ==> faults > old(faults))
      {
        var k :| k in todo;
        var done: bool := *;
        var fails := Fails();
        ok := ok && !fails;
        if done || !fails {
          objs := objs - {k};
          OneMoreState(trace, Now());
      trace := trace + [Now()];
        }
        todo := todo - {k};
      }
    }

    // --- multipart uploads: invisible until they are completed ---

    method CreateUpload(k: Key) returns (r: Reply<nat>)
      requires Valid()
      modifies `uploads, `nextUpload, `faults
      ensures Valid() && faults >= old(faults) && (r.Failed? ==> faults > old(faults))
      ensures r.Ok? ==> r.value !in old(uploads) && uploads == old(uploads)[r.value := Upload(k, [])]
      ensures r.Failed? ==> uploads == old(uploads)
    {
      var fails := Fails();
      if fails { return Failed; }
      r := Ok(nextUpload);
      uploads := uploads[nextUpload := Upload(k, [])];
      nextUpload := nextUpload + 1;
    }

    /** Part n of an upload, copied inside the bucket; the etag is the digest of its bytes. */
    method UploadPartCopy(id: nat, n: nat, step: CopyStep) returns (r: Reply<Digest>)
      requires Valid() && id in uploads && n == |uploads[id].parts| + 1
      modifies `uploads, `faults
      ensures Valid() && faults >= old(faults)
      ensures r.Failed? ==> faults > old(faults) || StepBytes(objs, step).None?
      ensures r.Ok? ==>
                var part := StepBytes(objs, step);
                && part.Some? && r.value == Sha256(part.value)
                && uploads == old(uploads)[id := old(uploads)[id].(parts := old(uploads)[id].parts + [part.value])]
      ensures r.Failed? ==> uploads == old(uploads)
    {
      var fails := Fails();
      var part := StepBytes(objs, step);
      if fails || part.None? { return Failed; }
      uploads := uploads[id := uploads[id].(parts := uploads[id].parts + [part.value])];
      r := Ok(Sha256(part.value));
    }

    /** The store joins the parts the etags name. It refuses an upload with no parts, with
        etags that are not its parts', or whose parts but the last differ in length. */
    method CompleteUpload(id: nat, etags: seq<Digest>) returns (ok: bool)
      requires Valid() && id in uploads
      modifies `uploads, `objs, `trace, `faults
      ensures Valid() && trace == old(trace) + [Now()] && faults >= old(faults)
      ensures !ok && faults == old(faults) ==> !Joins(old(uploads)[id], etags)
      ensures var up := old(uploads)[id];
              || (!ok && objs == old(objs) && uploads == old(uploads))
              || (Joins(up, etags) && objs == old(objs)[up.key := Data(Concat(up.parts))] &&
                  uploads == old(uploads) - {id})
    {
      var up := uploads[id];
      var done: bool := *;
      var fails := Fails();
      ok := !fails;
      if !Joins(up, etags) {
        ok := false;
      } else if done || ok {
        objs, uploads := objs[up.key := Data(Concat(up.parts))], uploads - {id};
      }
      OneMoreState(trace, Now());
      trace := trace + [Now()];
    }

    method AbortUpload(id: nat) returns (ok: bool)
      requires Valid()
      modifies `uploads, `faults
      ensures Valid() && faults >= old(faults) && (!ok ==> faults > old(faults))
      ensures uploads == old(uploads) - {id} || (!ok && uploads == old(uploads))
    {
      var done: bool := *;
      var fails := Fails();
      ok := !fails;
      if done || ok { uploads := uploads - {id}; }
    }

    // --- the link record ---

    /** A token from the random source, noted as made. */
    method MakeToken(tok: string)
      requires Valid()
      modifies `made, `trace
      ensures Valid() && trace == old(trace) + [Now()] && made == old(made) + {tok}
    {
      made := made + {tok};
      OneMoreState(trace, Now());
      trace := trace + [Now()];
    }

    /** Written to a temporary file and renamed: the old record or the new, and an error only
        before the rename. */
    method SaveRecord(r: LinkRecord) returns (ok: bool)
      requires Valid() && (rec.published ==> r.published) &&
                (r.token != rec.token ==> SameFound(objs, rec.token, r.token))
      modifies `rec, `everLive, `trace, `faults
      ensures Valid() && trace == old(trace) + [Now()]
      ensures faults >= old(faults) && (!ok ==> faults > old(faults))
      ensures rec == (if ok then r else old(rec)) && everLive == old(everLive) + {rec.token}
    {
      var fails := Fails();
      ok := !fails || r == rec;
      if ok { rec := r; }
      everLive := everLive + {rec.token};
      OneMoreState(trace, Now());
      trace := trace + [Now()];
    }
  }
}
