/** Retention: keep the newest snapshots and the one latest.json names, delete the rest,
    then the parts nothing kept names. */
module Prune {
  import opened Wrappers
  import opened Keys
  import opened Snapshot
  import opened World

  // --- stamps are ordered as text ---

  predicate Less(a: string, b: string) {
    b != "" && (a == "" || a[0] < b[0] || (a[0] == b[0] && Less(a[1..], b[1..])))
  }

  lemma {:induction false} LessTransitive(a: string, b: string, c: string)
    requires Less(a, b) && Less(b, c)
    ensures Less(a, c)
  {
    if a != "" && a[0] == b[0] == c[0] { LessTransitive(a[1..], b[1..], c[1..]); }
  }

  lemma {:induction false} LessTotal(a: string, b: string)
    ensures Less(a, b) || a == b || Less(b, a)
    ensures !(Less(a, b) && Less(b, a)) && !Less(a, a)
  {
    if a != "" && b != "" && a[0] == b[0] {
      LessTotal(a[1..], b[1..]);
      assert a == [a[0]] + a[1..] && b == [b[0]] + b[1..];
    }
    if a != "" { LessTotal(a[1..], a[1..]); }
  }

  /** The first i characters agree, and what follows them puts a first. */
  ghost predicate DecidedAt(a: string, b: string, i: nat) {
    i <= |a| && i <= |b| && a[..i] == b[..i] && if i == |a| then i < |b| else i < |b| && a[i] < b[i]
  }

  /** The first character that differs decides; of a text and a longer one it begins, the longer is
      later. */
  lemma {:induction false} LessIff(a: string, b: string)
    ensures Less(a, b) <==> exists i: nat :: DecidedAt(a, b, i)
  {
    if a != "" && b != "" && a[0] == b[0] {
      LessIff(a[1..], b[1..]);
      forall i: nat ensures DecidedAt(a, b, i + 1) <==> DecidedAt(a[1..], b[1..], i) {
        DecidedLater(a, b, i);
      }
      assert Less(a, b) ==> exists i: nat :: DecidedAt(a[1..], b[1..], i) && DecidedAt(a, b, i + 1);
      assert !DecidedAt(a, b, 0);
      forall i: nat | DecidedAt(a, b, i) ensures DecidedAt(a[1..], b[1..], i - 1) {
        assert i == i - 1 + 1;
      }
    } else {
      assert Less(a, b) <==> DecidedAt(a, b, 0);
      forall i: nat | DecidedAt(a, b, i) ensures i == 0 {
        if i > 0 { SameStart(a, b, i); }
      }
    }
  }

  lemma SameStart(a: string, b: string, i: nat)
    requires 0 < i <= |a| && i <= |b| && a[..i] == b[..i]
    ensures a[0] == b[0]
  {
    assert a[..i][0] == b[..i][0];
  }

  lemma DecidedLater(a: string, b: string, i: nat)
    requires a != "" && b != "" && a[0] == b[0]
    ensures DecidedAt(a, b, i + 1) <==> DecidedAt(a[1..], b[1..], i)
  {
    if i < |a| && i < |b| {
      assert a[..i + 1] == [a[0]] + a[1..][..i] && b[..i + 1] == [b[0]] + b[1..][..i];
      if a[..i + 1] == b[..i + 1] { assert a[1..][..i] == a[..i + 1][1..] && b[1..][..i] == b[..i + 1][1..]; }
    }
  }

  // --- folders of one base ---

  /** dhStampOf: the snapshot folder a key lies in, when it lies in one of this base. */
  function StampOf(token: string, k: Key): (r: Option<string>) {
    if k.Snap? && k.token == token && |k.path| >= 2 && k.path[0].Text? && IsStamp(k.path[0].name)
    then Some(k.path[0].name) else None
  }

  function Stamps(objs: Objects, token: string): set<string> {
    set k | k in objs && StampOf(token, k).Some? :: StampOf(token, k).value
  }

  /** A folder is complete when it holds its index. */
  function CompleteStamps(objs: Objects, token: string): set<string> {
    set s | s in Stamps(objs, token) && IndexKey(token, s) in objs
  }

  // --- what a prune decides ---

  datatype PrunePlan = PrunePlan(newest: set<string>, kept: set<string>, latest: Key, referenced: set<Digest>)

  /** The `keep` newest of `all`, or all of them when there are fewer. */
  predicate IsNewest(newest: set<string>, all: set<string>, keep: int) {
    && newest <= all && (if keep < |all| then |newest| == keep else newest == all)
    && forall a, b | a in newest && b in all - newest :: Less(b, a)
  }

  function LatestStamp(token: string, latest: Key): set<string> {
    match StampOf(token, latest)
    case Some(s) => {s}
    case None => {}
  }

  /** The indexes that decide which parts are needed. */
  function DecidingIndexes(objs: Objects, token: string, kept: set<string>, latest: Key): set<Key> {
    {latest} + set s | s in kept && s in CompleteStamps(objs, token) :: IndexKey(token, s)
  }

  predicate AllIndexes(objs: Objects, keys: set<Key>) {
    forall k | k in keys :: k in objs && objs[k].IndexJson?
  }

  function PartsOf(objs: Objects, keys: set<Key>): set<Digest>
    requires AllIndexes(objs, keys)
  {
    set k, d | k in keys && d in PartSet(objs[k].index) :: d
  }

  /** Everything that decides what is safe to delete, as the bucket states it. */
  ghost predicate Decides(objs: Objects, token: string, keep: int, plan: PrunePlan) {
    && Latest(token) in objs && objs[Latest(token)].LatestJson?
    && LatestIndexKey(token, objs[Latest(token)].ref) == Some(plan.latest)
    && IsNewest(plan.newest, CompleteStamps(objs, token), keep)
    && plan.kept == plan.newest + LatestStamp(token, plan.latest)
    && AllIndexes(objs, DecidingIndexes(objs, token, plan.kept, plan.latest))
    && plan.referenced == PartsOf(objs, DecidingIndexes(objs, token, plan.kept, plan.latest))
  }

  predicate BelowAll(s: string, kept: set<string>) { forall a | a in kept :: Less(s, a) }

  /** A folder goes when it is not kept and is complete, or older than every kept one. */
  predicate OldFolder(objs: Objects, token: string, kept: set<string>, s: string) {
    s !in kept && (s in CompleteStamps(objs, token) || BelowAll(s, kept))
  }

  predicate DoomedKey(objs: Objects, token: string, plan: PrunePlan, k: Key) {
    || (StampOf(token, k).Some? && OldFolder(objs, token, plan.kept, StampOf(token, k).value))
    || (k.Part? && k.digest !in plan.referenced)
  }

  /** Everything the prune deletes. */
  function Doomed(objs: Objects, token: string, plan: PrunePlan): set<Key> {
    set k | k in objs && DoomedKey(objs, token, plan, k)
  }

  lemma NewestUnique(a: set<string>, b: set<string>, all: set<string>, keep: int)
    requires IsNewest(a, all, keep) && IsNewest(b, all, keep)
    ensures a == b
  {
    if a != b {
      assert !(a <= b) by { if a <= b { Subset(a, b); } }
      assert !(b <= a) by { if b <= a { Subset(b, a); } }
      var x :| x in a && x !in b;
      var y :| y in b && y !in a;
      assert Less(y, x) && Less(x, y);
      LessTotal(x, y);
    }
  }

  lemma Subset(a: set<string>, b: set<string>)
    requires a <= b && |a| == |b|
    ensures a == b
  {
    assert b == a + (b - a);
  }

  /** The decision is a function of the bucket. */
  lemma PlanUnique(objs: Objects, token: string, keep: int, p: PrunePlan, q: PrunePlan)
    requires Decides(objs, token, keep, p) && Decides(objs, token, keep, q)
    ensures p == q
  {
    NewestUnique(p.newest, q.newest, CompleteStamps(objs, token), keep);
  }

  // --- safety ---

  /** Nothing a kept snapshot needs is ever deleted: not a latest.json, not a kept folder,
      not a part that a kept index or the one latest.json names lists, and nothing of
      another base or outside the two folders. */
  lemma KeptIsSafe(objs: Objects, token: string, keep: int, plan: PrunePlan, k: Key)
    requires Decides(objs, token, keep, plan) && k in Doomed(objs, token, plan)
    ensures !k.Latest?
    ensures k.Snap? ==> k.token == token && StampOf(token, k).Some? && StampOf(token, k).value !in plan.kept
    ensures k.Part? ==>
              forall x | x in DecidingIndexes(objs, token, plan.kept, plan.latest) ::
              k.digest !in PartSet(objs[x].index)
    ensures k.Snap? || k.Part?
    ensures k == plan.latest ==> k.Part?
  {
  }

  /** Some level of the index lists the part. */
  ghost predicate Names(ix: Index, d: Digest) {
    exists l, p :: l in ix.levels && p in l.parts && p.digest == d
  }

  /** Written out: what a prune deletes is every object below a stamp folder of this base that is not
      kept, when the folder has its index or is older than all that are, and every part that neither
      the index latest.json names nor the index of a kept folder lists. */
  lemma DoomedIff(objs: Objects, token: string, keep: int, plan: PrunePlan, k: Key)
    requires Decides(objs, token, keep, plan)
    ensures k in Doomed(objs, token, plan) <==>
              && k in objs
              && (|| (&& k.Snap? && k.token == token && |k.path| >= 2
                      && k.path[0].Text? && IsStamp(k.path[0].name) && k.path[0].name !in plan.kept
                      && (|| Snap(token, [k.path[0], Text("index.json")]) in objs
                          || forall a | a in plan.kept :: Less(k.path[0].name, a)))
                  || (&& k.Part? && !Names(objs[plan.latest].index, k.digest)
                      && forall s | s in plan.kept && IsStamp(s) &&
                           Snap(token, [Text(s), Text("index.json")]) in objs ::
                           !Names(objs[Snap(token, [Text(s), Text("index.json")])].index, k.digest)))
  {
    if k.Part? {
      ReferencedIff(objs, token, keep, plan, k.digest);
    } else if k.Snap? && StampOf(token, k).Some? {
      CompleteIff(objs, token, StampOf(token, k).value);
      assert k.path[0] == Text(StampOf(token, k).value);
    }
  }

  lemma ReferencedIff(objs: Objects, token: string, keep: int, plan: PrunePlan, d: Digest)
    requires Decides(objs, token, keep, plan)
    ensures d in plan.referenced <==>
              || Names(objs[plan.latest].index, d)
              || exists s :: s in plan.kept && IsStamp(s) && IndexKey(token, s) in objs &&
                   Names(objs[IndexKey(token, s)].index, d)
  {
    var deciding := DecidingIndexes(objs, token, plan.kept, plan.latest);
    assert plan.latest in deciding;
    forall s | s in plan.kept && IsStamp(s) && IndexKey(token, s) in objs ensures IndexKey(token, s) in deciding {
      CompleteIff(objs, token, s);
    }
    if d in plan.referenced {
      var x :| x in deciding && d in PartSet(objs[x].index);
      if x != plan.latest {
        var s :| s in plan.kept && s in CompleteStamps(objs, token) && x == IndexKey(token, s);
        CompleteIff(objs, token, s);
      }
    } else {
      forall x | x in deciding ensures !Names(objs[x].index, d) {
        assert d !in PartSet(objs[x].index);
      }
    }
  }

  // --- convergence ---

  /** Every folder that goes is older than every kept one, or is nothing but its index. */
  ghost predicate NoStrandedFolder(objs: Objects, token: string, plan: PrunePlan) {
    forall s | s in CompleteStamps(objs, token) && s !in plan.kept ::
      BelowAll(s, plan.kept) || FolderIsIndex(objs, token, s)
  }

  ghost predicate FolderIsIndex(objs: Objects, token: string, s: string) {
    forall k | k in objs && StampOf(token, k) == Some(s) :: k == IndexKey(token, s)
  }

  /** A later prune takes the same decision and ends at the same bucket, wherever the first
      one's deletes stopped. */
  ghost predicate Converges(objs: Objects, token: string, keep: int, plan: PrunePlan) {
    forall part: Objects | Thinned(objs, part, Doomed(objs, token, plan)) ::
      Decides(part, token, keep, plan)
      && part - Doomed(part, token, plan) == objs - Doomed(objs, token, plan)
  }

  /** The prune does not delete the index latest.json names. */
  ghost predicate LatestIsSafe(objs: Objects, token: string, plan: PrunePlan) {
    plan.latest !in Doomed(objs, token, plan)
  }

  lemma StampOfIndex(token: string, s: string)
    requires IsStamp(s)
    ensures StampOf(token, IndexKey(token, s)) == Some(s)
  {
  }

  lemma CompleteIff(objs: Objects, token: string, s: string)
    ensures s in CompleteStamps(objs, token) <==> IsStamp(s) && IndexKey(token, s) in objs
  {
    if s in Stamps(objs, token) {
      var k :| k in objs && StampOf(token, k) == Some(s);
    }
    if IsStamp(s) && IndexKey(token, s) in objs { StampOfIndex(token, s); }
  }

  /** A stopped prune keeps the kept folders complete and completes none. */
  lemma StillComplete(objs: Objects, part: Objects, token: string, plan: PrunePlan, s: string)
    requires Thinned(objs, part, Doomed(objs, token, plan))
    ensures s in CompleteStamps(part, token) ==> s in CompleteStamps(objs, token)
    ensures s in CompleteStamps(objs, token) && s in plan.kept ==> s in CompleteStamps(part, token)
  {
    CompleteIff(objs, token, s);
    CompleteIff(part, token, s);
    if s in CompleteStamps(objs, token) {
      StampOfIndex(token, s);
      assert s in plan.kept ==> IndexKey(token, s) !in Doomed(objs, token, plan);
    }
  }

  lemma StillNewest(newest: set<string>, all: set<string>, left: set<string>, keep: int)
    requires keep >= 1 && IsNewest(newest, all, keep) && newest <= left <= all
    ensures IsNewest(newest, left, keep)
  {
    SizeMonotone(newest, left);
    SizeMonotone(left, all);
    if |left| <= keep < |all| { Subset(newest, left); }
  }

  /** The bucket a stopped prune leaves decides as the one it started from. */
  lemma SameDecision(objs: Objects, part: Objects, token: string, keep: int, plan: PrunePlan)
    requires keep >= 1 && Decides(objs, token, keep, plan) && LatestIsSafe(objs, token, plan)
    requires Thinned(objs, part, Doomed(objs, token, plan))
    ensures Decides(part, token, keep, plan)
  {
    var all, left := CompleteStamps(objs, token), CompleteStamps(part, token);
    forall s { StillComplete(objs, part, token, plan, s); }
    StillNewest(plan.newest, all, left, keep);
    var deciding := DecidingIndexes(objs, token, plan.kept, plan.latest);
    assert DecidingIndexes(part, token, plan.kept, plan.latest) == deciding;
    forall k | k in deciding ensures k in part && part[k] == objs[k] {
      KeptIsSafeIndex(objs, token, keep, plan, k);
    }
    assert Latest(token) in part;
    assert PartsOf(part, deciding) == PartsOf(objs, deciding);
  }

  lemma KeptIsSafeIndex(objs: Objects, token: string, keep: int, plan: PrunePlan, k: Key)
    requires Decides(objs, token, keep, plan) && LatestIsSafe(objs, token, plan)
    requires k in DecidingIndexes(objs, token, plan.kept, plan.latest)
    ensures k !in Doomed(objs, token, plan)
  {
    if k != plan.latest {
      var s :| s in plan.kept && s in CompleteStamps(objs, token) && k == IndexKey(token, s);
      CompleteIff(objs, token, s);
      StampOfIndex(token, s);
    }
  }

  lemma SizeMonotone(a: set<string>, b: set<string>)
    requires a <= b
    ensures |a| <= |b|
  {
    assert b == a + (b - a);
  }

  /** A stopped prune is finished by the next one exactly when no folder it may have left
      without an index is newer than a kept one, and the index latest.json names is not
      itself a stray part. */
  lemma ConvergesIff(objs: Objects, token: string, keep: int, plan: PrunePlan)
    requires keep >= 1 && Decides(objs, token, keep, plan)
    ensures Converges(objs, token, keep, plan) <==>
              NoStrandedFolder(objs, token, plan) && LatestIsSafe(objs, token, plan)
  {
    if !LatestIsSafe(objs, token, plan) {
      var part := objs - {plan.latest};
      assert Thinned(objs, part, Doomed(objs, token, plan)) && !Decides(part, token, keep, plan);
    } else if NoStrandedFolder(objs, token, plan) {
      forall part: Objects | Thinned(objs, part, Doomed(objs, token, plan))
        ensures Decides(part, token, keep, plan)
        ensures part - Doomed(part, token, plan) == objs - Doomed(objs, token, plan)
      {
        SameDecision(objs, part, token, keep, plan);
        SameDeletes(objs, part, token, plan);
      }
    } else {
      var s :| s in CompleteStamps(objs, token) && s !in plan.kept
               && !BelowAll(s, plan.kept) && !FolderIsIndex(objs, token, s);
      Stranded(objs, token, keep, plan, s);
    }
  }

  lemma SameDeletes(objs: Objects, part: Objects, token: string, plan: PrunePlan)
    requires NoStrandedFolder(objs, token, plan)
    requires Thinned(objs, part, Doomed(objs, token, plan))
    ensures part - Doomed(part, token, plan) == objs - Doomed(objs, token, plan)
  {
    forall k | k in objs
      ensures k in part && k !in Doomed(part, token, plan) <==> k !in Doomed(objs, token, plan)
    {
      if StampOf(token, k).Some? {
        var s := StampOf(token, k).value;
        CompleteIff(objs, token, s);
        CompleteIff(part, token, s);
        if k in part && OldFolder(objs, token, plan.kept, s) && s in CompleteStamps(objs, token) &&
          !BelowAll(s, plan.kept) {
          assert k == IndexKey(token, s);
        }
      }
    }
  }

  lemma Stranded(objs: Objects, token: string, keep: int, plan: PrunePlan, s: string)
    requires keep >= 1 && Decides(objs, token, keep, plan)
    requires s in CompleteStamps(objs, token) && s !in plan.kept
    requires !BelowAll(s, plan.kept) && !FolderIsIndex(objs, token, s)
    ensures !Converges(objs, token, keep, plan)
  {
    var index := IndexKey(token, s);
    var part := objs - {index};
    CompleteIff(objs, token, s);
    CompleteIff(part, token, s);
    StampOfIndex(token, s);
    var k :| k in objs && StampOf(token, k) == Some(s) && k != index;
    assert index in Doomed(objs, token, plan) && k in Doomed(objs, token, plan);
    assert Thinned(objs, part, Doomed(objs, token, plan));
    assert k in part && k !in Doomed(part, token, plan);
    assert k in part - Doomed(part, token, plan) && k !in objs - Doomed(objs, token, plan);
  }

  /** When latest.json names one of the `keep` newest snapshots, a stopped prune is always
      finished by the next one. */
  lemma NewestLatestConverges(objs: Objects, token: string, keep: int, plan: PrunePlan)
    requires keep >= 1 && Decides(objs, token, keep, plan) && LatestIsSafe(objs, token, plan)
    requires LatestStamp(token, plan.latest) <= plan.newest
    ensures Converges(objs, token, keep, plan)
  {
    assert plan.kept == plan.newest;
    ConvergesIff(objs, token, keep, plan);
  }

  /** What a prune leaves: of the complete folders those it keeps, of the incomplete ones those it
      keeps and those newer than one of them, of the parts those that an index left by it names, and
      everything that is no snapshot of this base and no part. */
  lemma AfterPrune(objs: Objects, token: string, keep: int, plan: PrunePlan)
    requires keep >= 1 && Decides(objs, token, keep, plan) && LatestIsSafe(objs, token, plan)
    ensures var after := objs - Doomed(objs, token, plan);
            && (forall s :: s in CompleteStamps(after, token) <==> s in CompleteStamps(objs, token) && s in plan.kept)
            && (forall k | k in objs && StampOf(token, k).Some? ::
                  var s := StampOf(token, k).value;
                  k in after <==> s in plan.kept
                                  || (IndexKey(token, s) !in objs && exists a :: a in plan.kept && !Less(s, a)))
            && (forall d: Digest | Part(d) in objs ::
                  Part(d) in after <==> exists k :: k in after && IsDeciding(k, token, plan) && objs[k].IndexJson?
                                                    && d in PartSet(objs[k].index))
            && (forall k | k in objs && StampOf(token, k).None? && !k.Part? :: k in after)
            && (forall k | k in after :: after[k] == objs[k])
  {
    var after := objs - Doomed(objs, token, plan);
    CompleteAfter(objs, token, keep, plan);
    forall k | k in objs && StampOf(token, k).Some?
      ensures var s := StampOf(token, k).value;
              k in after <==> s in plan.kept
                              || (IndexKey(token, s) !in objs && exists a :: a in plan.kept && !Less(s, a))
    {
      CompleteIff(objs, token, StampOf(token, k).value);
    }
    forall d: Digest | Part(d) in objs
      ensures Part(d) in after <==> exists k :: k in after && IsDeciding(k, token, plan) && objs[k].IndexJson?
                                                && d in PartSet(objs[k].index)
    {
      PartStays(objs, token, keep, plan, d);
    }
  }

  lemma CompleteAfter(objs: Objects, token: string, keep: int, plan: PrunePlan)
    requires keep >= 1 && Decides(objs, token, keep, plan)
    ensures forall s :: s in CompleteStamps(objs - Doomed(objs, token, plan), token) <==>
                        s in CompleteStamps(objs, token) && s in plan.kept
  {
    var after := objs - Doomed(objs, token, plan);
    forall s ensures s in CompleteStamps(after, token) <==> s in CompleteStamps(objs, token) && s in plan.kept {
      CompleteIff(objs, token, s);
      CompleteIff(after, token, s);
      if IsStamp(s) { StampOfIndex(token, s); }
    }
  }

  /** The index latest.json names, or one of a kept folder. */
  predicate IsDeciding(k: Key, token: string, plan: PrunePlan) {
    k == plan.latest || exists s :: s in plan.kept && IsStamp(s) && k == IndexKey(token, s)
  }

  lemma PartStays(objs: Objects, token: string, keep: int, plan: PrunePlan, d: Digest)
    requires keep >= 1 && Decides(objs, token, keep, plan) && LatestIsSafe(objs, token, plan) && Part(d) in objs
    ensures Part(d) in objs - Doomed(objs, token, plan) <==>
              exists k :: k in objs - Doomed(objs, token, plan) && IsDeciding(k, token, plan) && objs[k].IndexJson?
                          && d in PartSet(objs[k].index)
  {
    var deciding := DecidingIndexes(objs, token, plan.kept, plan.latest);
    forall k ensures k in deciding <==> k in objs - Doomed(objs, token, plan) && IsDeciding(k, token, plan) {
      DecidingStays(objs, token, keep, plan, k);
    }
    assert Part(d) in Doomed(objs, token, plan) <==> d !in plan.referenced;
    if d in plan.referenced {
      var k :| k in deciding && d in PartSet(objs[k].index);
    }
  }

  lemma DecidingStays(objs: Objects, token: string, keep: int, plan: PrunePlan, k: Key)
    requires keep >= 1 && Decides(objs, token, keep, plan) && LatestIsSafe(objs, token, plan)
    ensures k in DecidingIndexes(objs, token, plan.kept, plan.latest) <==>
              k in objs - Doomed(objs, token, plan) && IsDeciding(k, token, plan)
  {
    if k in DecidingIndexes(objs, token, plan.kept, plan.latest) {
      KeptIsSafeIndex(objs, token, keep, plan, k);
      if k != plan.latest {
        var s :| s in plan.kept && s in CompleteStamps(objs, token) && k == IndexKey(token, s);
        CompleteIff(objs, token, s);
      }
    } else if IsDeciding(k, token, plan) && k in objs {
      var s :| s in plan.kept && IsStamp(s) && k == IndexKey(token, s);
      CompleteIff(objs, token, s);
    }
  }

  /** A prune straight after a full one takes the same decision and deletes nothing. */
  lemma FullPruneIsFinal(objs: Objects, token: string, keep: int, plan: PrunePlan)
    requires keep >= 1 && Decides(objs, token, keep, plan) && LatestIsSafe(objs, token, plan)
    ensures var after := objs - Doomed(objs, token, plan);
            Decides(after, token, keep, plan) && Doomed(after, token, plan) == {}
  {
    var after := objs - Doomed(objs, token, plan);
    SameDecision(objs, after, token, keep, plan);
    forall k | k in after ensures !DoomedKey(after, token, plan, k) {
      if StampOf(token, k).Some? {
        assert !DoomedKey(objs, token, plan, k);
      }
    }
  }

  // --- the run ---

  datatype Folder = Folder(objects: seq<Listed>, complete: bool)

  datatype PruneResult = PruneResult(snapshots: nat, parts: nat, freed: nat)

  /** groupDHFolders: the listing sorted into snapshot folders; a key outside the folder that
      was listed means the answer cannot be trusted. */
  method GroupFolders(token: string, listed: seq<Listed>) returns (r: Reply<map<string, Folder>>)
    ensures r.Failed? <==> exists l :: l in listed && !InRegion(l.key, Snapshots(token))
    ensures r.Ok? ==> Groups(token, listed, r.value)
  {
    var folders: map<string, Folder> := map[];
    var i := 0;
    while i < |listed|
      invariant 0 <= i <= |listed|
      invariant forall l | l in listed[..i] :: InRegion(l.key, Snapshots(token))
      invariant Groups(token, listed[..i], folders)
    {
      var l := listed[i];
      assert l in listed;
      assert listed[..i + 1] == listed[..i] + [l];
      if !InRegion(l.key, Snapshots(token)) { return Failed; }
      var stamp := StampOf(token, l.key);
      if stamp.Some? {
        var f := if stamp.value in folders then folders[stamp.value] else Folder([], false);
        var isIndex := l.key == IndexKey(token, stamp.value);
        folders := folders[stamp.value := Folder(f.objects + [l], f.complete || isIndex)];
      }
      i := i + 1;
    }
    assert listed[..i] == listed;
    r := Ok(folders);
  }

  /** Each folder holds the listed objects of its stamp, and knows whether its index is one. */
  ghost predicate Groups(token: string, listed: seq<Listed>, folders: map<string, Folder>) {
    && (forall l | l in listed && StampOf(token, l.key).Some? :: StampOf(token, l.key).value in folders)
    && (forall s | s in folders ::
          && folders[s].objects != []
          && (forall l :: l in folders[s].objects <==> l in listed && StampOf(token, l.key) == Some(s))
          && (folders[s].complete <==> IndexKey(token, s) in KeysOf(folders[s].objects)))
  }

  /** currentDHIndexKey: latest.json as the bucket holds it now. */
  method CurrentIndexKey(w: World, token: string) returns (r: Reply<Key>)
    modifies w`faults
    ensures w.faults >= old(w.faults)
    ensures r.Failed? && w.faults == old(w.faults) ==>
              !(Latest(token) in w.objs && w.objs[Latest(token)].LatestJson?
                && LatestIndexKey(token, w.objs[Latest(token)].ref).Some?)
    ensures r.Ok? ==> Latest(token) in w.objs && w.objs[Latest(token)].LatestJson?
                      && LatestIndexKey(token, w.objs[Latest(token)].ref) == Some(r.value)
  {
    var got := w.Get(Latest(token));
    if got.Failed? || got.value.None? || !got.value.value.LatestJson? { return Failed; }
    var key := LatestIndexKey(token, got.value.value.ref);
    r := if key.None? then Failed else Ok(key.value);
  }

  predicate Descending(q: seq<string>) { forall i, j | 0 <= i < j < |q| :: Less(q[j], q[i]) }

  /** Stamps, newest first. */
  method SortDescending(s: set<string>) returns (q: seq<string>)
    ensures Descending(q) && (set x | x in q) == s && |q| == |s|
  {
    q := [];
    var rest := s;
    while rest != {}
      invariant rest <= s && Descending(q) && (set x | x in q) == s - rest && |q| == |s| - |rest|
    {
      var x :| x in rest;
      var i := 0;
      while i < |q| && Less(x, q[i])
        invariant 0 <= i <= |q|
        invariant forall j | 0 <= j < i :: Less(x, q[j])
      {
        i := i + 1;
      }
      InsertKeepsOrder(q, x, i);
      q, rest := q[..i] + [x] + q[i..], rest - {x};
    }
  }

  lemma InsertKeepsOrder(q: seq<string>, x: string, i: nat)
    requires Descending(q) && i <= |q| && x !in q
    requires (forall j | 0 <= j < i :: Less(x, q[j])) && (i < |q| ==> !Less(x, q[i]))
    ensures Descending(q[..i] + [x] + q[i..])
    ensures (set y | y in q[..i] + [x] + q[i..]) == (set y | y in q) + {x}
  {
    var q' := q[..i] + [x] + q[i..];
    forall j | i <= j < |q| ensures Less(q[j], x) {
      assert q[i] in q;
      LessTotal(x, q[i]);
      if i < j { LessTransitive(q[j], q[i], x); }
    }
    assert q == q[..i] + q[i..];
    assert forall y :: y in q' <==> y in q || y == x;
  }

  /** keptDHStamps: the stamps that a prune leaves alone. */
  method KeptStamps(token: string, folders: map<string, Folder>, keep: int, latest: Key)
    returns (kept: set<string>, ghost newest: set<string>)
    requires keep >= 1
    ensures IsNewest(newest, (set s | s in folders && folders[s].complete), keep)
    ensures kept == newest + LatestStamp(token, latest)
  {
    var complete := set s | s in folders && folders[s].complete;
    var q := SortDescending(complete);
    var n := if keep < |q| then keep else |q|;
    kept := set x | x in q[..n];
    newest := kept;
    TakeNewest(q, n, complete, keep);
    kept := kept + LatestStamp(token, latest);
  }

  lemma TakeNewest(q: seq<string>, n: nat, all: set<string>, keep: int)
    requires Descending(q) && (set x | x in q) == all && keep >= 1 && n == if keep < |q| then keep else |q|
    ensures IsNewest((set x | x in q[..n]), all, keep)
  {
    FirstAreNewest(q, n, all);
    Distinct(q[..n]);
    Distinct(q);
    if n == |q| { assert q[..n] == q; }
  }

  lemma FirstAreNewest(q: seq<string>, n: nat, all: set<string>)
    requires Descending(q) && n <= |q| && (set x | x in q) == all
    ensures var newest := set x | x in q[..n];
            newest <= all && forall a, b | a in newest && b in all - newest :: Less(b, a)
  {
    var tail := q[n..];
    var newest := set x | x in q[..n];
    assert q == q[..n] + tail;
    forall a, b | a in newest && b in all - newest ensures Less(b, a) {
      var i :| 0 <= i < n && q[..n][i] == a;
      assert b in q && b in tail;
      var j :| 0 <= j < |tail| && tail[j] == b;
      assert q[i] == a && q[n + j] == b;
    }
    forall x | x in newest ensures x in all { assert x in q; }
  }

  lemma {:induction false} Distinct(q: seq<string>)
    requires Descending(q)
    ensures |set x | x in q| == |q|
  {
    if q != [] {
      var n := |q| - 1;
      var front := q[..n];
      Distinct(front);
      assert q == front + [q[n]];
      assert q[n] !in front by {
        if q[n] in front { var i :| 0 <= i < n && front[i] == q[n]; LessTotal(q[i], q[n]); }
      }
      assert (set x | x in q) == (set x | x in front) + {q[n]};
    }
  }

  /** keptDHParts: an index that cannot be read fails the whole prune. */
  method KeptParts(w: World, keys: set<Key>) returns (r: Reply<set<Digest>>)
    modifies w`faults
    ensures w.faults >= old(w.faults) && (r.Failed? && w.faults == old(w.faults) ==> !AllIndexes(w.objs, keys))
    ensures r.Ok? ==> AllIndexes(w.objs, keys) && r.value == PartsOf(w.objs, keys)
  {
    var referenced: set<Digest> := {};
    var rest := keys;
    while rest != {}
      invariant rest <= keys && AllIndexes(w.objs, keys - rest)
      invariant referenced == PartsOf(w.objs, keys - rest) && w.faults >= old(w.faults)
    {
      var cancelled := w.Fails();
      if cancelled { return Failed; }
      var k :| k in rest;
      var got := w.Get(k);
      if got.Failed? || got.value.None? || !got.value.value.IndexJson? { return Failed; }
      referenced := referenced + PartSet(got.value.value.index);
      assert keys - (rest - {k}) == (keys - rest) + {k};
      rest := rest - {k};
    }
    assert keys - rest == keys;
    r := Ok(referenced);
  }

  /** oldDHFolders: every object of the folders to delete. */
  method OldFolders(token: string, folders: map<string, Folder>, kept: set<string>)
    returns (count: nat, keys: seq<Key>, freed: nat)
    ensures forall k :: k in keys <==>
              exists s :: s in folders && Goes(folders, kept, s) && k in KeysOf(folders[s].objects)
  {
    count, keys, freed := 0, [], 0;
    var rest := folders.Keys;
    while rest != {}
      invariant rest <= folders.Keys
      invariant forall k :: k in keys <==>
                exists s :: s in folders.Keys - rest && Goes(folders, kept, s) && k in KeysOf(folders[s].objects)
    {
      var s :| s in rest;
      ghost var before, was := keys, rest;
      if Goes(folders, kept, s) {
        count := count + 1;
        var i := 0;
        while i < |folders[s].objects|
          invariant 0 <= i <= |folders[s].objects|
          invariant forall k :: k in keys <==> k in before || k in KeysOf(folders[s].objects[..i])
        {
          var o := folders[s].objects[i];
          KeysOfSnoc(folders[s].objects[..i], o);
          assert folders[s].objects[..i + 1] == folders[s].objects[..i] + [o];
          keys, freed, i := keys + [o.key], freed + o.size, i + 1;
        }
        assert folders[s].objects[..i] == folders[s].objects;
      }
      rest := rest - {s};
      forall k
        ensures k in keys <==>
                  exists x :: x in folders.Keys - rest && Goes(folders, kept, x) && k in KeysOf(folders[x].objects)
      {
        assert k in keys <==> k in before || (Goes(folders, kept, s) && k in KeysOf(folders[s].objects));
        if k in before {
          var x :| x in folders.Keys - was && Goes(folders, kept, x) && k in KeysOf(folders[x].objects);
          assert x in folders.Keys - rest;
        }
      }
    }
  }

  lemma KeysOfSnoc(a: seq<Listed>, l: Listed)
    ensures KeysOf(a + [l]) == KeysOf(a) + {l.key}
  {
    assert forall x :: x in a + [l] <==> x in a || x == l;
  }

  predicate Goes(folders: map<string, Folder>, kept: set<string>, s: string)
    requires s in folders
  {
    s !in kept && (folders[s].complete || BelowAll(s, kept))
  }

  /** orphanDHParts: only an object named like a part is a candidate. */
  method OrphanParts(listed: seq<Listed>, referenced: set<Digest>)
    returns (r: Reply<(seq<Key>, nat)>)
    ensures r.Ok? ==> forall k :: k in r.value.0 <==> k in KeysOf(listed) && k.Part? && k.digest !in referenced
    ensures r.Failed? <==> exists l :: l in listed && !InRegion(l.key, Parts)
  {
    var orphans: seq<Key>, freed: nat := [], 0;
    var i := 0;
    while i < |listed|
      invariant 0 <= i <= |listed|
      invariant forall l | l in listed[..i] :: InRegion(l.key, Parts)
      invariant forall k :: k in orphans <==> k in KeysOf(listed[..i]) && k.Part? && k.digest !in referenced
    {
      var l := listed[i];
      assert l in listed;
      assert listed[..i + 1] == listed[..i] + [l];
      KeysOfSnoc(listed[..i], l);
      if !InRegion(l.key, Parts) { return Failed; }
      if l.key.Part? && l.key.digest !in referenced {
        orphans, freed := orphans + [l.key], freed + l.size;
      }
      i := i + 1;
    }
    assert listed[..i] == listed;
    r := Ok((orphans, freed));
  }

  /** checkDHPruneKeys: the last look at what is to be deleted. */
  predicate MayDelete(token: string, keys: seq<Key>) {
    forall k | k in keys :: InRegion(k, Snapshots(token)) || InRegion(k, Parts)
  }

  datatype Decision = Decision(kept: set<string>, folders: nat, folderKeys: seq<Key>, folderBytes: nat,
                               partKeys: seq<Key>, partBytes: nat)

  /** What latest.json points at and the folders to keep on account of it. */
  ghost predicate KeptAre(objs: Objects, token: string, keep: int, latest: Key, newest: set<string>,
                          kept: set<string>) {
    && Latest(token) in objs && objs[Latest(token)].LatestJson?
    && LatestIndexKey(token, objs[Latest(token)].ref) == Some(latest)
    && IsNewest(newest, CompleteStamps(objs, token), keep) && kept == newest + LatestStamp(token, latest)
  }

  lemma KeptByAll(objs: Objects, token: string, keep: int, latest: Key, newest: set<string>, kept: set<string>,
                  p: PrunePlan)
    requires KeptAre(objs, token, keep, latest, newest, kept) && Decides(objs, token, keep, p)
    ensures p.latest == latest && p.kept == kept && AllIndexes(objs, DecidingIndexes(objs, token, kept, latest))
  {
    NewestUnique(newest, p.newest, CompleteStamps(objs, token), keep);
  }

  method KeptFor(w: World, token: string, keep: int, folders: map<string, Folder>)
    returns (r: Reply<(Key, set<string>)>, ghost newest: set<string>)
    requires keep >= 1 && AreFolders(w.objs, token, folders)
    modifies w`faults
    ensures w.faults >= old(w.faults)
    ensures r.Ok? ==> KeptAre(w.objs, token, keep, r.value.0, newest, r.value.1)
    ensures r.Failed? && w.faults == old(w.faults) ==> forall p :: !Decides(w.objs, token, keep, p)
  {
    newest := {};
    CompleteOf(w.objs, token, folders);
    var latest := CurrentIndexKey(w, token);
    if latest.Failed? { return Failed, newest; }
    var kept;
    kept, newest := KeptStamps(token, folders, keep, latest.value);
    r := Ok((latest.value, kept));
  }

  /** The parts and folders no kept snapshot needs. */
  method DecideDeletes(w: World, token: string, keep: int, folders: map<string, Folder>, latest: Key, kept: set<string>,
                       ghost newest: set<string>)
    returns (r: Reply<Decision>, ghost plan: PrunePlan)
    requires AreFolders(w.objs, token, folders) && KeptAre(w.objs, token, keep, latest, newest, kept)
    modifies w`faults
    ensures w.faults >= old(w.faults)
    ensures r.Failed? && w.faults == old(w.faults) ==> !AllIndexes(w.objs, DecidingIndexes(w.objs, token, kept, latest))
    ensures r.Ok? ==> MayDelete(token, r.value.folderKeys) && MayDelete(token, r.value.partKeys)
    ensures r.Ok? ==>
              && Decides(w.objs, token, keep, plan) && r.value.kept == plan.kept == kept
              && Doomed(w.objs, token, plan) == (set k | k in r.value.folderKeys) + (set k | k in r.value.partKeys)
  {
    plan := PrunePlan({}, {}, latest, {});
    r := Failed;
    var indexes := {latest} + set s | s in kept && s in folders && folders[s].complete :: IndexKey(token, s);
    IndexesAre(w.objs, token, folders, kept, latest);
    var referenced := KeptParts(w, indexes);
    if referenced.Failed? { return; }
    var count, folderKeys, folderBytes := OldFolders(token, folders, kept);
    var orphans := ReadOrphans(w, referenced.value);
    if orphans.Failed? { return; }
    plan := PrunePlan(newest, kept, latest, referenced.value);
    DecidesThen(w.objs, token, keep, plan);
    DoomedIs(w.objs, token, plan, folders, folderKeys, orphans.value.0);
    MayDeleteFolders(w.objs, token, folders, kept, folderKeys);
    r := Ok(Decision(kept, count, folderKeys, folderBytes, orphans.value.0, orphans.value.1));
  }

  lemma IndexesAre(objs: Objects, token: string, folders: map<string, Folder>, kept: set<string>, latest: Key)
    requires AreFolders(objs, token, folders)
    ensures {latest} + (set s | s in kept && s in folders && folders[s].complete :: IndexKey(token, s))
         == DecidingIndexes(objs, token, kept, latest)
  {
    CompleteOf(objs, token, folders);
  }

  lemma DecidesThen(objs: Objects, token: string, keep: int, p: PrunePlan)
    requires KeptAre(objs, token, keep, p.latest, p.newest, p.kept)
    requires AllIndexes(objs, DecidingIndexes(objs, token, p.kept, p.latest))
    requires p.referenced == PartsOf(objs, DecidingIndexes(objs, token, p.kept, p.latest))
    ensures Decides(objs, token, keep, p)
  {}

  lemma MayDeleteFolders(objs: Objects, token: string, folders: map<string, Folder>, kept: set<string>, keys: seq<Key>)
    requires AreFolders(objs, token, folders)
    requires forall k :: k in keys <==>
              exists s :: s in folders && Goes(folders, kept, s) && k in KeysOf(folders[s].objects)
    ensures MayDelete(token, keys)
  {
    forall k | k in keys ensures InRegion(k, Snapshots(token)) {
      var s :| s in folders && Goes(folders, kept, s) && k in KeysOf(folders[s].objects);
      assert StampOf(token, k) == Some(s);
    }
  }

  /** Everything pruneDHSnapshots reads before it deletes; a failure of any read ends it, and
      nothing else does when the bucket decides. */
  method Decide(w: World, token: string, keep: int) returns (r: Reply<Decision>, ghost plan: PrunePlan)
    requires keep >= 1
    modifies w`faults
    ensures w.faults >= old(w.faults)
    ensures w.faults == old(w.faults) ==> forall p | Decides(w.objs, token, keep, p) :: r.Ok? && r.value.kept == p.kept
    ensures r.Ok? ==> MayDelete(token, r.value.folderKeys) && MayDelete(token, r.value.partKeys)
    ensures r.Ok? && r.value.kept == {} ==> CompleteStamps(w.objs, token) == {}
    ensures r.Ok? && r.value.kept != {} ==>
              && Decides(w.objs, token, keep, plan) && r.value.kept == plan.kept
              && Doomed(w.objs, token, plan) == (set k | k in r.value.folderKeys) + (set k | k in r.value.partKeys)
  {
    plan := PrunePlan({}, {}, Latest(token), {});
    r := Failed;
    var read := ReadFolders(w, token);
    if read.Failed? { return; }
    ghost var newest;
    var found;
    found, newest := KeptFor(w, token, keep, read.value);
    if found.Failed? { return; }
    var latest, kept := found.value.0, found.value.1;
    forall p | Decides(w.objs, token, keep, p)
      ensures p.kept == kept && AllIndexes(w.objs, DecidingIndexes(w.objs, token, kept, latest))
    {
      KeptByAll(w.objs, token, keep, latest, newest, kept, p);
    }
    if kept == {} {
      r := Ok(Decision({}, 0, [], 0, [], 0));
      return;
    }
    r, plan := DecideDeletes(w, token, keep, read.value, latest, kept, newest);
  }

  method ReadFolders(w: World, token: string) returns (r: Reply<map<string, Folder>>)
    modifies w`faults
    ensures w.faults >= old(w.faults) && (r.Failed? ==> w.faults > old(w.faults))
    ensures r.Ok? ==> AreFolders(w.objs, token, r.value)
  {
    var listing := w.List(Snapshots(token));
    if listing.Failed? { return Failed; }
    r := GroupFolders(token, listing.value);
    if r.Ok? { FoldersAre(w.objs, token, listing.value, r.value); }
  }

  method ReadOrphans(w: World, referenced: set<Digest>) returns (r: Reply<(seq<Key>, nat)>)
    modifies w`faults
    ensures w.faults >= old(w.faults) && (r.Failed? ==> w.faults > old(w.faults))
    ensures r.Ok? ==> forall k :: k in r.value.0 <==> k in w.objs && k.Part? && k.digest !in referenced
  {
    var listing := w.List(Parts);
    if listing.Failed? { return Failed; }
    r := OrphanParts(listing.value, referenced);
    if r.Ok? {
      forall k: Key ensures k.Part? ==> (k in KeysOf(listing.value) <==> k in w.objs) {
        if k in KeysOf(listing.value) && k.Part? { var l :| l in listing.value && l.key == k; }
      }
    }
  }

  /** pruneDHSnapshots. Without a plan nothing was deleted: every read that decides comes
      first. With one, every state on the way is the bucket less some of the doomed keys, and
      a run that succeeds leaves exactly the rest. */
  method PruneSnapshots(w: World, token: string, keep: int)
    returns (ok: bool, res: PruneResult, ghost plan: Option<PrunePlan>)
    requires w.Valid()
    modifies w`objs, w`trace, w`faults
    ensures w.Valid() && Extends(w.trace, old(w.trace)) && w.faults >= old(w.faults)
    ensures keep >= 1 && w.faults == old(w.faults) ==>
              forall p | Decides(old(w.objs), token, keep, p) ::
                && ok
                && w.objs == if p.kept != {} then old(w.objs) - Doomed(old(w.objs), token, p) else old(w.objs)
    ensures plan.None? ==> w.objs == old(w.objs) && w.trace == old(w.trace) && res == PruneResult(0, 0, 0)
    ensures plan.None? && ok ==> keep >= 1 && CompleteStamps(old(w.objs), token) == {}
    ensures plan.Some? ==>
              var gone := Doomed(old(w.objs), token, plan.value);
              && keep >= 1 && Decides(old(w.objs), token, keep, plan.value)
              && (forall i | |old(w.trace)| <= i < |w.trace| ::
                    Thinned(old(w.objs), w.trace[i].objs, gone) && SameBut(old(w.Now()), w.trace[i], w.trace[i].objs))
              && Thinned(old(w.objs), w.objs, gone)
              && (ok ==> w.objs == old(w.objs) - gone)
  {
    ok, res, plan := false, PruneResult(0, 0, 0), None;
    if keep < 1 { return; }
    ghost var p;
    var decided;
    decided, p := Decide(w, token, keep);
    if decided.Failed? { return; }
    var d := decided.value;
    if d.kept == {} {
      ok := true;
      return;
    }
    if !MayDelete(token, d.folderKeys) || !MayDelete(token, d.partKeys) { return; } // never so
    plan := Some(p);
    forall q | Decides(w.objs, token, keep, q) ensures q == p {
      PlanUnique(w.objs, token, keep, p, q);
    }
    var foldersGone;
    ok, foldersGone := DeleteInOrder(w, d.folderKeys, d.partKeys);
    if foldersGone && d.folderKeys != [] { res := res.(snapshots := d.folders, freed := d.folderBytes); }
    if ok && d.partKeys != [] { res := res.(parts := |d.partKeys|, freed := res.freed + d.partBytes); }
  }

  /** The two delete calls: the folders, and only once they are gone the parts. */
  method DeleteInOrder(w: World, folderKeys: seq<Key>, partKeys: seq<Key>) returns (ok: bool, foldersGone: bool)
    requires w.Valid()
    modifies w`objs, w`trace, w`faults
    ensures w.Valid() && Extends(w.trace, old(w.trace))
    ensures w.faults >= old(w.faults) && (!ok ==> w.faults > old(w.faults))
    ensures var gone := (set k | k in folderKeys) + (set k | k in partKeys);
            && (forall i | |old(w.trace)| <= i < |w.trace| ::
                  Thinned(old(w.objs), w.trace[i].objs, gone) && SameBut(old(w.Now()), w.trace[i], w.trace[i].objs))
            && Thinned(old(w.objs), w.objs, gone)
            && (ok ==> w.objs == old(w.objs) - gone)
    ensures ok ==> foldersGone
    ensures foldersGone ==> forall k | k in folderKeys :: k !in w.objs
    ensures !foldersGone ==> forall k | k in old(w.objs) && k !in folderKeys :: k in w.objs
  {
    ok, foldersGone := true, true;
    ghost var gone := (set k | k in folderKeys) + (set k | k in partKeys);
    if folderKeys != [] {
      ok := w.Delete(folderKeys);
      foldersGone := ok;
    }
    if ok && partKeys != [] {
      ghost var mid, cut := w.objs, |w.trace|;
      ok := w.Delete(partKeys);
      assert forall i | cut <= i < |w.trace| :: Thinned(mid, w.trace[i].objs, set k | k in partKeys);
    }
    if ok { assert w.objs == old(w.objs) - gone; }
  }

  /** These are the base's folders, each with its objects and whether its index is there. */
  ghost predicate AreFolders(objs: Objects, token: string, folders: map<string, Folder>) {
    && folders.Keys == Stamps(objs, token)
    && (forall s | s in folders :: folders[s].complete <==> s in CompleteStamps(objs, token))
    && (forall s, k | s in folders :: k in KeysOf(folders[s].objects) <==> k in objs && StampOf(token, k) == Some(s))
  }

  lemma CompleteOf(objs: Objects, token: string, folders: map<string, Folder>)
    requires AreFolders(objs, token, folders)
    ensures (set s | s in folders && folders[s].complete) == CompleteStamps(objs, token)
  {
  }

  /** The folders of a truthful listing are those of the bucket. */
  lemma FoldersAre(objs: Objects, token: string, listed: seq<Listed>, folders: map<string, Folder>)
    requires Lists(objs, Snapshots(token), listed) && Groups(token, listed, folders)
    requires forall l | l in listed :: InRegion(l.key, Snapshots(token))
    ensures AreFolders(objs, token, folders)
  {
    forall s | s in folders ensures s in Stamps(objs, token) {
      var l := folders[s].objects[0];
      assert l in folders[s].objects;
    }
    forall s, k | s in folders
      ensures k in KeysOf(folders[s].objects) <==> k in objs && StampOf(token, k) == Some(s)
    {
      if k in KeysOf(folders[s].objects) {
        var l :| l in folders[s].objects && l.key == k;
      }
      if k in objs && StampOf(token, k) == Some(s) {
        var l :| l in listed && l.key == k;
        assert l in folders[s].objects;
      }
    }
    forall s | s in Stamps(objs, token) ensures s in folders {
      var k :| k in objs && StampOf(token, k) == Some(s);
      var l :| l in listed && l.key == k;
    }
    forall s | s in folders ensures folders[s].complete <==> s in CompleteStamps(objs, token) {
      CompleteIff(objs, token, s);
      if IsStamp(s) { StampOfIndex(token, s); }
      assert s in Stamps(objs, token);
    }
  }

  /** The two lists of keys are exactly what the decision dooms. */
  lemma DoomedIs(objs: Objects, token: string, p: PrunePlan, folders: map<string, Folder>,
                 folderKeys: seq<Key>, partKeys: seq<Key>)
    requires AreFolders(objs, token, folders)
    requires forall k :: k in folderKeys <==>
              exists s :: s in folders && Goes(folders, p.kept, s) && k in KeysOf(folders[s].objects)
    requires forall k :: k in partKeys <==> k in objs && k.Part? && k.digest !in p.referenced
    ensures Doomed(objs, token, p) == (set k | k in folderKeys) + (set k | k in partKeys)
  {
    forall k ensures k in Doomed(objs, token, p) <==> k in folderKeys || k in partKeys {
      if k in folderKeys {
        var s :| s in folders && Goes(folders, p.kept, s) && k in KeysOf(folders[s].objects);
        assert StampOf(token, k) == Some(s);
      }
      if k in objs && StampOf(token, k).Some? && OldFolder(objs, token, p.kept, StampOf(token, k).value) {
        var s := StampOf(token, k).value;
        assert s in folders && Goes(folders, p.kept, s) && k in KeysOf(folders[s].objects);
      }
    }
  }
}
