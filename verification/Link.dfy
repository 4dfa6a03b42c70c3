/** The private link of a destination: who may use it, and the three operations on it. */
module Link {
  import opened Wrappers
  import opened Keys
  import opened Snapshot
  import opened World
  import opened Protocol
  import opened Publish
  import opened Move

  // --- who is using a link ---

  /** HoldLink: a publish holds the link for its whole length; a move waits for no one. */
  method HoldLink(w: World) returns (ok: bool)
    modifies w`holders
    ensures ok == !w.moving
    ensures w.holders == old(w.holders) + (if ok then 1 else 0)
  {
    ok := !w.moving;
    if ok { w.holders := w.holders + 1; }
  }

  method ReleaseHold(w: World)
    requires w.holders > 0
    modifies w`holders
    ensures w.holders == old(w.holders) - 1
  {
    w.holders := w.holders - 1;
  }

  /** beginMove: one move at a time, and none while the link is held. */
  method BeginMove(w: World) returns (ok: bool)
    requires w.trace != []
    modifies w`moving, w`begun
    ensures ok == (!old(w.moving) && w.holders == 0)
    ensures w.moving == (old(w.moving) || ok)
    ensures w.begun == if ok then |w.trace| - 1 else old(w.begun)
  {
    ok := !w.moving && w.holders == 0;
    if ok { w.moving, w.begun := true, |w.trace| - 1; }
  }

  // --- the record ---

  function Without(stale: seq<string>, t: string): (r: seq<string>)
    ensures forall x :: x in r <==> x in stale && x != t
  {
    if stale == [] then []
    else (if stale[0] == t then [] else [stale[0]]) + Without(stale[1..], t)
  }

  /** What finish commits in one write: the new token, nothing pending, the base just left
      noted for deletion, and the base just written no longer so. */
  function Committed(rec: LinkRecord, to: string, moved: bool): LinkRecord {
    var stale := rec.stale + (if moved then [rec.token] else []);
    LinkRecord(to, "", rec.published, Without(stale, to))
  }

  /** A token a move may go to: public, or made and never live. */
  predicate MayGoTo(s: State, to: string) {
    ValidToken(to) && to != s.rec.token && (to == "" || (to in s.made && to !in s.everLive))
  }

  function CommittedState(s: State, to: string, moved: bool): State {
    s.(rec := Committed(s.rec, to, moved), everLive := s.everLive + {to})
  }

  /** The commit after a move: the new base is whole, and the old one is noted. */
  lemma CommitMoved(s: State, to: string)
    requires Inv(s) && s.rec.published && MayGoTo(s, to) && Complete(s.objs, to)
    ensures Inv(CommittedState(s, to, true))
  {
  }

  /** A change with nothing moved is sound exactly when nothing is published under the link
      it leaves. Otherwise a published snapshot is left where the record no longer points,
      the live base has none, and a private link that was live still answers unrecorded. */
  lemma CommitUnmovedIff(s: State, to: string)
    requires Inv(s) && !s.rec.published && MayGoTo(s, to)
    ensures Inv(CommittedState(s, to, false)) <==> MayChange(s.objs, s.rec)
    ensures !MayChange(s.objs, s.rec) ==>
              var after := CommittedState(s, to, false);
              && Complete(after.objs, s.rec.token) && Latest(to) !in after.objs
              && (s.rec.token != "" && s.rec.token !in s.rec.stale ==> !Revoked(after))
  {
    var after := CommittedState(s, to, false);
    assert Latest(to) !in s.objs;
    if !MayChange(s.objs, s.rec) {
      assert Latest(s.rec.token) in after.objs && s.rec.token != after.rec.token;
      assert s.rec.token in after.everLive;
    }
  }

  /** A move cut off after its pointer was written leaves the pending base answering. The next
      change takes it off the record exactly when it goes elsewhere, and no list keeps it then:
      the token was never live, so nobody was given it. */
  lemma ForgottenPendingIff(s: State, to: string, moved: bool)
    requires Inv(s) && MayGoTo(s, to) && s.rec.pending != "" && s.rec.pending != s.rec.token &&
              s.rec.pending !in s.rec.stale
    ensures var after, p := CommittedState(s, to, moved), s.rec.pending;
            (Latest(p) in after.objs && p != after.rec.token && p != after.rec.pending && p !in after.rec.stale)
            <==> Latest(p) in s.objs && to != p
  {}

  /** pendingToken: the token an unfinished move left, else a new one, recorded first. */
  method PendingToken(w: World, random: Option<string>) returns (r: Reply<string>)
    requires w.Valid() && AllInv(w.trace)
    requires random.Some? ==> IsLinkToken(random.value) && random.value !in w.made
    modifies w`rec, w`everLive, w`made, w`trace, w`faults
    ensures w.Valid() && AllInv(w.trace) && Extends(w.trace, old(w.trace))
    ensures w.faults >= old(w.faults) && (r.Failed? ==> w.faults > old(w.faults) || random.None?)
    ensures w.rec == old(w.rec).(pending := w.rec.pending)
    ensures r.Ok? ==> r.value != "" && MayGoTo(w.Now(), r.value) && w.rec.pending == r.value
    ensures r.Ok? ==> if old(w.rec.pending) != "" then r.value == old(w.rec.pending) else random == Some(r.value)
    ensures r.Failed? && w.faults == old(w.faults) ==> old(w.rec.pending) == "" && random.None?
    ensures w.everLive == old(w.everLive) && w.made <= old(w.made) + (if random.Some? then {random.value} else {})
    ensures old(w.rec.pending) != "" ==> w.rec == old(w.rec)
  {
    NowInv(w);
    if w.rec.pending != "" && w.rec.pending != w.rec.token { return Ok(w.rec.pending); }
    if random.None? { return Failed; }
    r := NewPending(w, random.value);
  }

  /** A fresh token, on the record before anything is written under it. */
  method NewPending(w: World, random: string) returns (r: Reply<string>)
    requires w.Valid() && AllInv(w.trace) && IsLinkToken(random) && random !in w.made
    requires w.rec.pending == ""
    modifies w`rec, w`everLive, w`made, w`trace, w`faults
    ensures w.Valid() && AllInv(w.trace) && Extends(w.trace, old(w.trace))
    ensures w.faults >= old(w.faults) && (r.Failed? ==> w.faults > old(w.faults))
    ensures w.rec == old(w.rec).(pending := w.rec.pending)
    ensures r.Ok? ==> r.value == random && MayGoTo(w.Now(), r.value) && w.rec.pending == r.value
    ensures w.everLive == old(w.everLive) && w.made <= old(w.made) + {random}
  {
    NowInv(w);
    w.MakeToken(random);
    NowInv(w);
    var ok := w.SaveRecord(w.rec.(pending := random));
    r := if ok then Ok(random) else Failed;
  }

  /** dropStale. Its report can be trusted: if no unwanted link is said to work, none does; and
      without a fault nothing is left on the record. */
  method DropStale(w: World) returns (stillWorks: bool)
    requires w.Valid() && AllInv(w.trace)
    modifies w`objs, w`rec, w`everLive, w`trace, w`faults
    ensures w.Valid() && AllInv(w.trace) && Extends(w.trace, old(w.trace)) && w.faults >= old(w.faults)
    ensures LiveIndex(w.Now()) == LiveIndex(old(w.Now())) && w.everLive == old(w.everLive)
    ensures w.rec == old(w.rec).(stale := w.rec.stale) && forall b | b in w.rec.stale :: b in old(w.rec.stale)
    ensures !stillWorks ==> AllQuiet(w.objs, w.rec.token, old(w.rec.stale))
    ensures w.faults == old(w.faults) ==> !stillWorks && w.rec.stale == []
    ensures KeptEnough(w.objs, w.rec.token, old(w.rec.stale), w.rec.stale)
    ensures OnlyBases(old(w.objs), w.objs, BasesOf(old(w.rec.stale)) - {w.rec.token})
    ensures w.objs.Keys <= old(w.objs).Keys
  {
    stillWorks := false;
    if w.rec.stale == [] { return; }
    var stale, kept: seq<string> := w.rec.stale, [];
    kept, stillWorks := DropEach(w, stale);
    ghost var trace1 := w.trace;
    SaveStale(w, kept);
    ExtendsStill(w.trace, trace1, old(w.trace));
  }

  /** Nothing of a base is left. */
  ghost predicate Gone(objs: Objects, b: string) {
    forall k | InBase(k, b) :: k !in objs
  }

  /** Nothing outside these bases was touched. */
  ghost predicate OnlyBases(before: Objects, after: Objects, bases: set<string>) {
    forall k: Key | !((k.Latest? || k.Snap?) && k.token in bases) ::
      (k in after <==> k in before) && (k in before ==> after[k] == before[k])
  }

  lemma OnlyBasesTwice(a: Objects, b: Objects, c: Objects, bases: set<string>)
    requires OnlyBases(a, b, bases) && OnlyBases(b, c, bases)
    ensures OnlyBases(a, c, bases)
  {}

  lemma OneOfTheBases(a: Objects, b: Objects, base: string, bases: set<string>)
    requires OnlyBase(a, b, base) && base in bases
    ensures OnlyBases(a, b, bases)
  {}

  ghost function BasesOf(stale: seq<string>): set<string> { set b | b in stale }

  /** A stale base is settled when it is the live one or answers no more. */
  ghost predicate Quiet(objs: Objects, live: string, b: string) {
    b == live || Latest(b) !in objs
  }

  ghost predicate AllQuiet(objs: Objects, live: string, stale: seq<string>) {
    forall b | b in stale :: Quiet(objs, live, b)
  }

  /** Of the bases that may be left out of the record nothing is left. */
  ghost predicate KeptEnough(objs: Objects, live: string, stale: seq<string>, kept: seq<string>) {
    (forall b | b in kept :: b in stale) && forall b | b in stale :: b in kept || b == live || Gone(objs, b)
  }

  method DropEach(w: World, stale: seq<string>) returns (kept: seq<string>, stillWorks: bool)
    requires w.Valid() && AllInv(w.trace)
    modifies w`objs, w`trace, w`faults
    ensures w.Valid() && AllInv(w.trace) && Extends(w.trace, old(w.trace)) && w.faults >= old(w.faults)
    ensures LiveIndex(w.Now()) == LiveIndex(old(w.Now()))
    ensures KeptEnough(w.objs, w.rec.token, stale, kept)
    ensures !stillWorks ==> AllQuiet(w.objs, w.rec.token, stale)
    ensures w.faults == old(w.faults) ==> kept == [] && !stillWorks
    ensures OnlyBases(old(w.objs), w.objs, BasesOf(stale) - {w.rec.token}) && w.objs.Keys <= old(w.objs).Keys
  {
    kept, stillWorks := [], false;
    var i := 0;
    while i < |stale|
      invariant 0 <= i <= |stale|
      invariant w.Valid() && AllInv(w.trace) && Extends(w.trace, old(w.trace)) && w.faults >= old(w.faults)
      invariant LiveIndex(w.Now()) == LiveIndex(old(w.Now()))
      invariant KeptEnough(w.objs, w.rec.token, stale[..i], kept)
      invariant !stillWorks ==> AllQuiet(w.objs, w.rec.token, stale[..i])
      invariant w.faults == old(w.faults) ==> kept == [] && !stillWorks
      invariant OnlyBases(old(w.objs), w.objs, BasesOf(stale) - {w.rec.token}) && w.objs.Keys <= old(w.objs).Keys
    {
      ghost var objs, trace := w.objs, w.trace;
      var keep, answers := DropOne(w, stale[i]);
      ExtendsStill(w.trace, trace, old(w.trace));
      OneMoreDropped(objs, w.objs, w.rec.token, stale, i, kept, keep, stillWorks, answers);
      OnlyBasesTwice(old(w.objs), objs, w.objs, BasesOf(stale) - {w.rec.token});
      if keep {
        kept := kept + [stale[i]];
        stillWorks := stillWorks || answers;
      }
      i := i + 1;
    }
    assert stale[..i] == stale;
  }

  lemma OneMoreDropped(objs: Objects, next: Objects, live: string, stale: seq<string>, i: nat, kept: seq<string>,
                       keep: bool,
                       works: bool, answers: bool)
    requires i < |stale| && KeptEnough(objs, live, stale[..i], kept)
    requires !works ==> AllQuiet(objs, live, stale[..i])
    requires next.Keys <= objs.Keys
    requires !keep || !answers ==> Quiet(next, live, stale[i])
    requires !keep ==> stale[i] == live || Gone(next, stale[i])
    ensures KeptEnough(next, live, stale[..i + 1], if keep then kept + [stale[i]] else kept)
    ensures !(works || (keep && answers)) ==> AllQuiet(next, live, stale[..i + 1])
  {
    assert stale[..i + 1] == stale[..i] + [stale[i]];
  }

  /** One stale base: those settled before stay so. */
  method DropOne(w: World, b: string) returns (keep: bool, answers: bool)
    requires w.Valid() && AllInv(w.trace)
    modifies w`objs, w`trace, w`faults
    ensures w.Valid() && AllInv(w.trace) && Extends(w.trace, old(w.trace))
    ensures w.faults >= old(w.faults) && (keep ==> w.faults > old(w.faults))
    ensures LiveIndex(w.Now()) == LiveIndex(old(w.Now()))
    ensures w.objs.Keys <= old(w.objs).Keys
    ensures if b == w.rec.token then w.objs == old(w.objs) else OnlyBase(old(w.objs), w.objs, b)
    ensures !keep || !answers ==> Quiet(w.objs, w.rec.token, b)
    ensures !keep ==> b == w.rec.token || Gone(w.objs, b)
  {
    keep, answers := false, false;
    if b != w.rec.token {
      var ok, gone := DropBase(w, b);
      keep, answers := !ok, !gone;
    }
  }

  /** The record of what is still to be deleted. */
  method SaveStale(w: World, kept: seq<string>)
    requires w.Valid() && AllInv(w.trace) && KeptEnough(w.objs, w.rec.token, w.rec.stale, kept)
    modifies w`rec, w`everLive, w`trace, w`faults
    ensures w.Valid() && AllInv(w.trace) && Extends(w.trace, old(w.trace)) && w.faults >= old(w.faults)
    ensures w.rec == old(w.rec).(stale := w.rec.stale) && (w.rec.stale == kept || w.rec.stale == old(w.rec.stale))
    ensures w.everLive == old(w.everLive) && (w.faults == old(w.faults) ==> w.rec.stale == kept)
  {
    NowInv(w);
    KeepStale(w.Now(), w.rec.stale, kept);
    var saved := w.SaveRecord(w.rec.(stale := kept));
  }

  /** Taking off the record the bases that no longer answer, and the live one. */
  lemma KeepStale(s: State, stale: seq<string>, kept: seq<string>)
    requires Inv(s) && s.rec.stale == stale && KeptEnough(s.objs, s.rec.token, stale, kept)
    ensures Inv(s.(rec := s.rec.(stale := kept)))
  {
    forall t | t in s.everLive && t != "" && Latest(t) in s.objs ensures t == s.rec.token || t in kept {
      if t in stale && t !in kept && t != s.rec.token {
        assert Gone(s.objs, t) && InBase(Latest(t), t);
      }
    }
  }

  /** The commit of a change: one write of the record. */
  method Commit(w: World, to: string, moved: bool) returns (ok: bool)
    requires w.Valid() && AllInv(w.trace) && MayGoTo(w.Now(), to)
    requires moved ==> w.rec.published && Complete(w.objs, to) && SameFound(w.objs, w.rec.token, to)
    requires !moved ==> !w.rec.published && Latest(w.rec.token) !in w.objs
    modifies w`rec, w`everLive, w`trace, w`faults
    ensures w.Valid() && AllInv(w.trace) && Extends(w.trace, old(w.trace))
    ensures w.faults >= old(w.faults) && (!ok ==> w.faults > old(w.faults))
    ensures w.rec == if ok then Committed(old(w.rec), to, moved) else old(w.rec)
    ensures ok ==> w.rec.token == to && w.rec.pending == "" && w.rec.published == old(w.rec.published)
    ensures ok ==>
              forall b :: b in w.rec.stale <==>
                b != to && (b in old(w.rec.stale) || (moved && b == old(w.rec.token)))
    ensures w.everLive == old(w.everLive) + (if ok then {to} else {})
  {
    NowInv(w);
    if moved { CommitMoved(w.Now(), to); } else { CommitUnmovedIff(w.Now(), to); }
    assert SameFound(w.objs, w.rec.token, to);
    ok := w.SaveRecord(Committed(w.rec, to, moved));
  }

  /** finish: the commit, then the deletes. A commit that fails leaves the old link in use. */
  method Finish(w: World, to: string, moved: bool) returns (ok: bool, stillWorks: bool)
    requires w.Valid() && AllInv(w.trace) && MayGoTo(w.Now(), to)
    requires moved ==> w.rec.published && Complete(w.objs, to) && SameFound(w.objs, w.rec.token, to)
    requires !moved ==> !w.rec.published && Latest(w.rec.token) !in w.objs
    modifies w`objs, w`rec, w`everLive, w`trace, w`faults
    ensures w.Valid() && AllInv(w.trace) && Extends(w.trace, old(w.trace))
    ensures w.faults >= old(w.faults) && (w.faults == old(w.faults) ==> ok && !stillWorks)
    ensures w.rec.token == if ok then to else old(w.rec.token)
    ensures !ok ==> w.rec == old(w.rec) && w.objs == old(w.objs)
    ensures ok ==> ReadLatest(w.objs, to) == ReadLatest(old(w.objs), to)
    ensures ok && !stillWorks ==> NoneAnswer(w.Now()) && (moved ==> Latest(old(w.rec.token)) !in w.objs)
    ensures ok ==> KeptEnough(w.objs, to, Committed(old(w.rec), to, moved).stale, w.rec.stale)
    ensures ok && w.faults == old(w.faults) ==> w.rec.stale == []
    ensures ok ==> w.rec.pending == "" && w.rec.published == old(w.rec.published)
    ensures w.everLive == old(w.everLive) + (if ok then {to} else {})
    ensures OnlyBases(old(w.objs), w.objs, BasesOf(old(w.rec.stale)) + {old(w.rec.token)})
  {
    stillWorks := false;
    ok := Commit(w, to, moved);
    if !ok { return; }
    ghost var committed, trace1 := w.Now(), w.trace;
    assert moved ==> old(w.rec.token) in committed.rec.stale;
    NowInv(w);
    stillWorks := DropStale(w);
    ExtendsStill(w.trace, trace1, old(w.trace));
    NowInv(w);
    LiveReads(committed, w.Now());
    if !stillWorks { NoneAnswerNow(committed, w.Now()); }
  }

  /** With every base of the record settled, no private link but the live one answers. */
  lemma NoneAnswerNow(committed: State, now: State)
    requires Inv(now) && now.rec.token == committed.rec.token && AllQuiet(now.objs, now.rec.token, committed.rec.stale)
    requires forall b | b in now.rec.stale :: b in committed.rec.stale
    ensures NoneAnswer(now)
  {}

  lemma LiveReads(s: State, t: State)
    requires Inv(s) && Inv(t) && s.rec.token == t.rec.token && LiveIndex(s) == LiveIndex(t)
    ensures ReadLatest(s.objs, s.rec.token) == ReadLatest(t.objs, s.rec.token)
  {
  }

  /** No private link but the live one leads anywhere. */
  ghost predicate NoneAnswer(s: State) {
    && (forall t | t in s.rec.stale && t != s.rec.token :: Latest(t) !in s.objs)
    && (forall t | t in s.everLive && t != "" && t != s.rec.token :: Latest(t) !in s.objs)
  }

  // --- the operations ---

  datatype LinkReply = Busy | NotPrivate | Failure | Unchanged(stillWorks: bool) | Changed(stillWorks: bool)

  /** What every link operation keeps: each state on the way is sound; the record changes
      hands only when the operation says so, and then the same snapshot is live under the new
      link; and when no old link still works, none does. */
  ghost predicate LinkDone(before: State, after: State, r: LinkReply) {
    && (r.Changed? <==> after.rec.token != before.rec.token)
    && (match LiveIndex(before)
        case Some(ix) => LiveIndex(after) == Some(Rebased(ix, after.rec.token))
        case None => LiveIndex(after) == None)
    && (r.Unchanged? && !r.stillWorks ==> NoneAnswer(after))
    && (r.Changed? && !r.stillWorks ==> NoneAnswer(after) && Latest(before.rec.token) !in after.objs)
    && OnlyBases(before.objs, after.objs, Concerned(before, after))
    && (r.Changed? || r.Unchanged? ==> Settled(before, after))
    && (!r.Changed? ==> after.everLive == before.everLive)
    && (r.Changed? ==> after.everLive == before.everLive + {after.rec.token} && after.rec.pending == "")
    && after.rec.published == before.rec.published
  }

  /** The bases a link operation has to do with: the public one, the old and the new, the one that is
      being made, and those to be deleted. */
  ghost function Concerned(before: State, after: State): set<string> {
    BasesOf(before.rec.stale) + {"", before.rec.token, after.rec.token, after.rec.pending}
  }

  /** Of every base that was to be deleted, and of the one that was left, either it is still on the
      record or nothing of it is left. */
  ghost predicate Settled(before: State, after: State) {
    && (forall b | b in before.rec.stale && b != after.rec.token :: b in after.rec.stale || Gone(after.objs, b))
    && (before.rec.token != after.rec.token && LiveIndex(before).Some? ==>
          before.rec.token in after.rec.stale || Gone(after.objs, before.rec.token))
  }

  /** The live snapshot has a level that cannot be copied by ranges. */
  ghost predicate LiveTooLong(s: State) {
    LiveIndex(s).Some? && AnyTooLong(LiveIndex(s).value)
  }

  /** change: moves the snapshot to the new token and commits. */
  method Change(w: World, to: string) returns (r: LinkReply)
    requires w.Valid() && AllInv(w.trace) && MayGoTo(w.Now(), to) && MayChange(w.objs, w.rec)
    requires to == "" || to == w.rec.pending
    modifies w`objs, w`uploads, w`nextUpload, w`rec, w`everLive, w`trace, w`faults, w`sent
    ensures w.Valid() && AllInv(w.trace) && Extends(w.trace, old(w.trace))
    ensures r.Failure? || (r.Changed? && w.rec.token == to)
    ensures r.Failure? ==> w.rec == old(w.rec)
    ensures w.faults == old(w.faults) && r.Changed? ==> w.rec.stale == []
    ensures w.faults >= old(w.faults)
    ensures w.faults == old(w.faults) ==> r == Changed(false) || LiveTooLong(old(w.Now()))
    ensures LinkDone(old(w.Now()), w.Now(), r)
  {
    NowInv(w);
    ghost var s := w.Now();
    var ok, moved := MoveOver(w, to);
    NowInv(w);
    if !ok { return Failure; }
    ghost var mid := w.objs;
    var stillWorks;
    ok, stillWorks := Finish(w, to, moved);
    NowInv(w);
    WithinTheBases(s, w.Now(), mid, to);
    if ok {
      r := Changed(stillWorks);
    } else {
      SameLive(s, w.Now());
      r := Failure;
    }
  }

  /** The copy of what is live, when anything was published. */
  method MoveOver(w: World, to: string) returns (ok: bool, moved: bool)
    requires w.Valid() && AllInv(w.trace) && MayGoTo(w.Now(), to) && MayChange(w.objs, w.rec)
    requires to == "" || to == w.rec.pending
    modifies w`objs, w`uploads, w`nextUpload, w`trace, w`faults, w`sent
    ensures w.Valid() && AllInv(w.trace) && Extends(w.trace, old(w.trace)) && w.faults >= old(w.faults)
    ensures !ok && w.faults == old(w.faults) ==> LiveTooLong(old(w.Now()))
    ensures !ok ==> LinkDone(old(w.Now()), w.Now(), Failure)
    ensures ok ==> moved == w.rec.published && LiveIndex(w.Now()) == LiveIndex(old(w.Now()))
    ensures ok && moved ==> Complete(w.objs, to) && SameFound(w.objs, w.rec.token, to)
    ensures ok && !moved ==> Latest(w.rec.token) !in w.objs
    ensures OnlyBases(old(w.objs), w.objs, {to})
  {
    NowInv(w);
    ok, moved := true, false;
    if !w.rec.published { return; }
    ghost var s := w.Now();
    var m := MoveSnapshot(w, w.rec.token, to);
    NowInv(w);
    OneOfTheBases(s.objs, w.objs, to, {to});
    ok, moved := m.Moved?, m.Moved?;
    if !ok {
      OneOfTheBases(s.objs, w.objs, to, Concerned(s, w.Now()));
      SameLive(s, w.Now());
    }
  }

  lemma WithinTheBases(s: State, now: State, mid: Objects, to: string)
    requires OnlyBases(s.objs, mid, {to})
    requires OnlyBases(mid, now.objs, BasesOf(s.rec.stale) + {s.rec.token})
    requires to == "" || to == now.rec.token || to == now.rec.pending
    ensures OnlyBases(s.objs, now.objs, Concerned(s, now))
  {
    var all := Concerned(s, now);
    assert {to} <= all && BasesOf(s.rec.stale) + {s.rec.token} <= all;
  }

  lemma NothingDone(s: State, r: LinkReply)
    requires Inv(s) && (r.Busy? || r.NotPrivate?)
    ensures LinkDone(s, s, r)
  {
    SameLive(s, s);
  }

  lemma SameLive(s: State, t: State)
    requires Inv(s) && Inv(t) && s.rec.token == t.rec.token && LiveIndex(s) == LiveIndex(t)
    requires s.everLive == t.everLive && s.rec.published == t.rec.published
    requires OnlyBases(s.objs, t.objs, Concerned(s, t))
    ensures LinkDone(s, t, Failure)
  {
  }

  /** SetSnapshotLinkPrivate: refused, with nothing touched, while a publish or another change
      has the link. */
  method SetPrivate(w: World, private: bool, random: Option<string>) returns (r: LinkReply)
    requires w.Valid() && AllInv(w.trace) && (w.moving || w.holders > 0 || MayChange(w.objs, w.rec))
    requires random.Some? ==> IsLinkToken(random.value) && random.value !in w.made
    modifies w`objs, w`uploads, w`nextUpload, w`rec, w`everLive, w`made, w`trace, w`moving, w`begun, w`faults, w`sent
    ensures w.Valid() && AllInv(w.trace) && Extends(w.trace, old(w.trace)) && w.moving == old(w.moving)
    ensures r.Busy? <==> old(w.moving) || w.holders > 0
    ensures r.Busy? ==> w.Now() == old(w.Now())
    ensures LinkDone(old(w.Now()), w.Now(), r)
    ensures r.Changed? || r.Unchanged? ==> (w.rec.token != "") == private
    ensures !r.Busy? ==> Switched(old(w.Now()), w.Now(), private, random, r)
    ensures w.faults >= old(w.faults)
    ensures !r.Busy? && w.faults == old(w.faults) ==> SwitchDone(old(w.Now()), private, random, r)
    ensures (r.Changed? || r.Unchanged?) && w.faults == old(w.faults) ==> w.rec.stale == []
    ensures w.made <= old(w.made) + (if random.Some? then {random.value} else {})
  {
    NowInv(w);
    var mine := BeginMove(w);
    if !mine {
      NothingDone(w.Now(), Busy);
      return Busy;
    }
    r := SwitchTo(w, private, random);
    w.moving := false;
  }

  /** The token a switch or a rotation to a private link goes to. */
  ghost predicate IsNext(before: State, token: string, random: Option<string>) {
    if before.rec.pending != "" then token == before.rec.pending else random == Some(token)
  }

  /** A link that is in the mode asked for keeps its token and is told so. Another goes to the public
      base, or to the private one an unfinished move was making, or to a new one. */
  ghost predicate Switched(before: State, after: State, private: bool, random: Option<string>, r: LinkReply) {
    if private == (before.rec.token != "") then
      && r.Unchanged? && after.rec == before.rec.(stale := after.rec.stale) && after.everLive == before.everLive
      && LiveIndex(after) == LiveIndex(before)
    else
      && (r.Changed? || r.Failure?)
      && (r.Changed? ==> if private then IsNext(before, after.rec.token, random) else after.rec.token == "")
      && (r.Failure? ==> after.rec == before.rec.(pending := after.rec.pending))
  }

  /** What a switch ends with when nothing fails. */
  ghost predicate SwitchDone(before: State, private: bool, random: Option<string>, r: LinkReply) {
    if private == (before.rec.token != "") then r == Unchanged(false)
    else r == Changed(false) || LiveTooLong(before) || (private && before.rec.pending == "" && random.None?)
  }

  /** The switch, once it has the link. */
  method SwitchTo(w: World, private: bool, random: Option<string>) returns (r: LinkReply)
    requires w.Valid() && AllInv(w.trace) && MayChange(w.objs, w.rec)
    requires random.Some? ==> IsLinkToken(random.value) && random.value !in w.made
    modifies w`objs, w`uploads, w`nextUpload, w`rec, w`everLive, w`made, w`trace, w`faults, w`sent
    ensures w.Valid() && AllInv(w.trace) && Extends(w.trace, old(w.trace)) && !r.Busy?
    ensures LinkDone(old(w.Now()), w.Now(), r)
    ensures r.Changed? || r.Unchanged? ==> (w.rec.token != "") == private
    ensures Switched(old(w.Now()), w.Now(), private, random, r)
    ensures w.faults >= old(w.faults)
    ensures w.faults == old(w.faults) ==> SwitchDone(old(w.Now()), private, random, r)
    ensures (r.Changed? || r.Unchanged?) && w.faults == old(w.faults) ==> w.rec.stale == []
    ensures w.made <= old(w.made) + (if random.Some? then {random.value} else {})
  {
    NowInv(w);
    ghost var s := w.Now();
    if private == (w.rec.token != "") {
      var stillWorks := DropStale(w);
      NowInv(w);
      SameLive(s, w.Now());
      r := Unchanged(stillWorks);
    } else if private {
      r := ChangePrivate(w, random);
    } else {
      r := Change(w, "");
      NowInv(w);
    }
  }

  /** RotateSnapshotLink: a public snapshot has nothing to rotate. */
  method Rotate(w: World, random: Option<string>) returns (r: LinkReply)
    requires w.Valid() && AllInv(w.trace) && (w.moving || w.holders > 0 || MayChange(w.objs, w.rec))
    requires random.Some? ==> IsLinkToken(random.value) && random.value !in w.made
    modifies w`objs, w`uploads, w`nextUpload, w`rec, w`everLive, w`made, w`trace, w`moving, w`begun, w`faults, w`sent
    ensures w.Valid() && AllInv(w.trace) && Extends(w.trace, old(w.trace)) && w.moving == old(w.moving)
    ensures r.Busy? <==> old(w.moving) || w.holders > 0
    ensures r.Busy? ==> w.Now() == old(w.Now())
    ensures LinkDone(old(w.Now()), w.Now(), r)
    ensures r.NotPrivate? <==> !r.Busy? && old(w.rec.token) == ""
    ensures r.NotPrivate? ==> w.Now() == old(w.Now())
    ensures !r.Busy? && !r.NotPrivate? ==> GoesPrivate(old(w.Now()), w.Now(), random, r)
    ensures w.faults >= old(w.faults)
    ensures !r.Busy? && !r.NotPrivate? && w.faults == old(w.faults) ==> WentPrivate(old(w.Now()), w.Now(), random, r)
    ensures w.made <= old(w.made) + (if random.Some? then {random.value} else {})
  {
    NowInv(w);
    var mine := BeginMove(w);
    if !mine {
      NothingDone(w.Now(), Busy);
      return Busy;
    }
    if w.rec.token == "" {
      NothingDone(w.Now(), NotPrivate);
      r := NotPrivate;
    } else {
      r := ChangePrivate(w, random);
    }
    w.moving := false;
  }

  /** The link goes to a token that never was live, the one an unfinished move was making or a new
      one; or it stays. */
  ghost predicate GoesPrivate(before: State, after: State, random: Option<string>, r: LinkReply) {
    && (r.Changed? || r.Failure?)
    && (r.Changed? ==>
          after.rec.token != "" && after.rec.token !in before.everLive && IsNext(before, after.rec.token, random))
    && (r.Failure? ==> after.rec == before.rec.(pending := after.rec.pending))
  }

  /** What that ends with when nothing fails. */
  ghost predicate WentPrivate(before: State, after: State, random: Option<string>, r: LinkReply) {
    && (r == Changed(false) || LiveTooLong(before) || (before.rec.pending == "" && random.None?))
    && (r.Changed? ==> after.rec.stale == [])
  }

  method ChangePrivate(w: World, random: Option<string>) returns (r: LinkReply)
    requires w.Valid() && AllInv(w.trace) && MayChange(w.objs, w.rec)
    requires random.Some? ==> IsLinkToken(random.value) && random.value !in w.made
    modifies w`objs, w`uploads, w`nextUpload, w`rec, w`everLive, w`made, w`trace, w`faults, w`sent
    ensures w.Valid() && AllInv(w.trace) && Extends(w.trace, old(w.trace))
    ensures GoesPrivate(old(w.Now()), w.Now(), random, r) && w.faults >= old(w.faults)
    ensures w.faults == old(w.faults) ==> WentPrivate(old(w.Now()), w.Now(), random, r)
    ensures LinkDone(old(w.Now()), w.Now(), r)
    ensures w.made <= old(w.made) + (if random.Some? then {random.value} else {})
  {
    NowInv(w);
    ghost var s := w.Now();
    var tok := PendingToken(w, random);
    NowInv(w);
    if tok.Failed? {
      SameLive(s, w.Now());
      return Failure;
    }
    ghost var mid := w.Now();
    r := Change(w, tok.value);
    SincePending(s, mid, w.Now(), r);
  }

  /** Noting a pending token is no part of what a change does. */
  lemma SincePending(s: State, mid: State, now: State, r: LinkReply)
    requires LinkDone(mid, now, r) && (r.Changed? || r.Failure?) && mid.objs == s.objs && mid.everLive == s.everLive
    requires mid.rec == s.rec.(pending := mid.rec.pending)
    ensures LinkDone(s, now, r)
  {
    assert Concerned(mid, now) == Concerned(s, now);
  }
}
