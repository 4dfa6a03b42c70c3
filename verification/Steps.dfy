/** A publish and a change of the link, each taken one step at a time: what a step leads to, what it
    writes, and what the two rely on in between. */
module Steps {
  import opened Wrappers
  import opened Keys
  import opened Snapshot
  import opened World
  import opened Protocol
  import opened Publish
  import opened Move
  import opened Link
  import opened Staging

  // --- where a publish and a change are ---

  /** A publish: it takes the hold, reads the token, and works under that token to its end. */
  datatype Publishing =
    | Idle
    | Holding
    | Tokened(token: string)
    | Sending(token: string, folder: StageFolder, index: Index, previous: Previous, parts: seq<PartPlan>, sent: nat)
    | Assembling(token: string, index: Index, previous: Previous, done: nat)
    | Paging(token: string, index: Index, previous: Previous)
    | Pointing(token: string, index: Index)
    | Pruning(token: string)
    | Noting(token: string, warned: bool)
    | Leaving

  /** A change of the link: begun, on its way to a token, moving, committing, dropping what was
      left, and over. */
  datatype Changing =
    | Still
    | Begun(private: bool, rotate: bool)
    | Going(to: string)
    | Moved0(to: string, index: Index)
    | MovingOn(to: string, index: Index, done: nat)
    | Committing(to: string, moved: bool)
    | Dropping(stale: seq<string>, kept: seq<string>, done: nat, works: bool)
    | Over(told: Option<bool>)

  /** The same createdAt stamp means the same index. */
  predicate SameInstant(objs: Objects, token: string, file: IndexFile) {
    var live := ReadLatest(objs, token);
    live.Found? && file.Parsed? && live.index.createdAt == file.index.createdAt ==> live.index == file.index
  }

  predicate Fresh(random: Option<string>, used: set<string>) {
    random.Some? ==> IsLinkToken(random.value) && random.value !in used
  }

  /** What a publish relies on while it runs: the token it read is still the live one, and the
      bucket is as its last step left it. */
  ghost predicate PublishOk(s: State, p: Publishing) {
    match p
    case Idle => true
    case Holding => true
    case Leaving => true
    case Tokened(t) => t == s.rec.token
    case Sending(t, folder, ix, prev, parts, sent) =>
      && t == s.rec.token && HonestFolder(folder) && Sound(ix, t) && SameStampSameIndex(s, ix) && PrevIs(s, prev)
      && PlanDigests(parts) == PartSet(ix) && (forall q | q in parts :: PlanSound(q, s.objs, folder))
      && sent <= |parts| && SentSoFar(s.objs, parts, sent)
    case Assembling(t, ix, prev, done) =>
      && t == s.rec.token && Ready(s, ix) && PrevIs(s, prev)
      && done <= |ix.levels| && LevelsStored(s.objs, t, ix.createdAt.stamp, ix.levels[..done])
    case Paging(t, ix, prev) =>
      && t == s.rec.token && Ready(s, ix) && PrevIs(s, prev) && LevelsStored(s.objs, t, ix.createdAt.stamp, ix.levels)
      && Holds(s.objs, IndexKey(t, ix.createdAt.stamp), IndexJson(ix))
    case Pointing(t, ix) => t == s.rec.token && Sound(ix, t) && Stored(s.objs, t, ix)
    case Pruning(t) => t == s.rec.token && Latest(t) in s.objs
    case Noting(t, _) => t == s.rec.token && Latest(t) in s.objs
  }

  /** What a change relies on: the snapshot it moves is still the live one, and what it wrote
      under the new base is still there. When it is over and told that no old link works, none
      does. */
  ghost predicate ChangeOk(s: State, c: Changing) {
    match c
    case Still => true
    case Begun(_, _) => MayChange(s.objs, s.rec)
    case Going(to) => MayGoTo(s, to) && MayChange(s.objs, s.rec)
    case Moved0(to, ix) => MayGoTo(s, to) && Moving(s, ix, to) &&
      Holds(s.objs, PageKey(to, ix.createdAt.stamp), PageHtml(Render(ix)))
    case MovingOn(to, ix, done) => MayGoTo(s, to) && Moving(s, ix, to) && done <= |ix.levels| &&
      NewBase(s.objs, to, ix, done)
    case Committing(to, moved) =>
      && MayGoTo(s, to)
      && (if moved then s.rec.published && Complete(s.objs, to) && LiveIndex(s).Some?
                        && ReadLatest(s.objs, to).index == Rebased(LiveIndex(s).value, to)
          else !s.rec.published && Latest(s.rec.token) !in s.objs)
    case Dropping(stale, kept, done, works) =>
      && s.rec.stale == stale && done <= |stale| && KeptEnough(s.objs, s.rec.token, stale[..done], kept)
      && (!works ==> AllQuiet(s.objs, s.rec.token, stale[..done]))
    case Over(told) => told == Some(false) ==> NoneAnswer(s)
  }

  /** What was live when the latest change of the link began. */
  ghost function FoundLive(w: World): Option<Index>
    requires w.begun < |w.trace|
    reads w
  {
    LiveIndex(w.trace[w.begun])
  }

  /** The snapshot a change found live is live, under whatever token is. */
  ghost predicate SameSnapshot(live: Option<Index>, s: State) {
    match live
    case Some(ix) => LiveIndex(s) == Some(Rebased(ix, s.rec.token))
    case None => LiveIndex(s) == None
  }

  /** The store and the two of them, between any two steps: a publish and a change are never
      both under way. */
  ghost predicate Together(w: World, p: Publishing, c: Changing)
    reads w
  {
    && w.Valid() && AllInv(w.trace) && w.begun < |w.trace|
    && w.holders == (if p.Idle? then 0 else 1) && w.moving == !c.Still? && !(w.moving && w.holders > 0)
    && PublishOk(w.Now(), p) && ChangeOk(w.Now(), c) && (!c.Still? ==> SameSnapshot(FoundLive(w), w.Now()))
  }

  // --- the steps of a publish ---

  method StartPublish(w: World, p: Publishing, c: Changing) returns (p': Publishing)
    requires Together(w, p, c)
    modifies w`holders
    ensures Together(w, p', c) && w.Now() == old(w.Now()) && w.trace == old(w.trace)
    ensures p' == if p.Idle? && c.Still? then Holding else p
  {
    p' := p;
    if p.Idle? {
      var ok := HoldLink(w);
      if ok { p' := Holding; }
    }
  }

  /** However it ends, a publish gives its hold back. */
  method StopPublish(w: World, p: Publishing, c: Changing) returns (p': Publishing)
    requires Together(w, p, c)
    modifies w`holders
    ensures Together(w, p', c) && p' == Idle && w.Now() == old(w.Now()) && w.trace == old(w.trace)
  {
    if !p.Idle? { ReleaseHold(w); }
    p' := Idle;
  }

  /** The token a publish works under, once it has read it. */
  function TokenOf(p: Publishing): Option<string> {
    match p
    case Tokened(t) => Some(t)
    case Sending(t, _, _, _, _, _) => Some(t)
    case Assembling(t, _, _, _) => Some(t)
    case Paging(t, _, _) => Some(t)
    case Pointing(t, _) => Some(t)
    case Pruning(t) => Some(t)
    case Noting(t, _) => Some(t)
    case _ => None
  }

  /** A step that did what it is there for. */
  ghost predicate Progress(s: State, folder: StageFolder, p: Publishing, p': Publishing) {
    match p
    case Idle => false
    case Leaving => p' == Leaving
    case Holding => p' == Tokened(s.rec.token)
    case Tokened(t) =>
      && p'.Sending? && p'.token == t && p'.folder == folder && p'.sent == 0
      && folder.index == Parsed(p'.index) && |p'.parts| == |PartSet(p'.index)|
    case Sending(t, f, ix, prev, parts, sent) =>
      p' == if sent < |parts| then Sending(t, f, ix, prev, parts, sent + 1) else Assembling(t, ix, prev, 0)
    case Assembling(t, ix, prev, done) =>
      p' == if done < |ix.levels| then Assembling(t, ix, prev, done + 1) else Paging(t, ix, prev)
    case Paging(t, ix, _) => p' == Pointing(t, ix)
    case Pointing(t, _) => p' == Pruning(t)
    case Pruning(t) => p'.Noting? && p'.token == t
    case Noting(_, _) => p' == Leaving
  }

  /** What keeps a step from that without a fault. */
  ghost predicate StuckAt(s: State, folder: StageFolder, p: Publishing) {
    || (p.Tokened? && (Refusable(s.objs, p.token, folder) || !SameInstant(s.objs, p.token, folder.index)))
    || (p.Assembling? && AnyTooLong(p.index))
  }

  /** What a step makes of the store: only the pointer's changes what is live, only the note's the
      record, and before the prune nothing is touched but what the snapshot consists of. */
  ghost predicate PublishWrites(s: State, t: State, p: Publishing, p': Publishing, keep: int, quiet: bool) {
    match p
    case Sending(tok, _, ix, _, _, _) => ix.createdAt.At? && t.rec == s.rec && OnlyNeeded(s.objs, t.objs, tok, ix) &&
      LiveIndex(t) == LiveIndex(s)
    case Assembling(tok, ix, _, _) => ix.createdAt.At? && t.rec == s.rec && OnlyNeeded(s.objs, t.objs, tok, ix) &&
      LiveIndex(t) == LiveIndex(s)
    case Paging(tok, ix, _) => ix.createdAt.At? && t.rec == s.rec && OnlyNeeded(s.objs, t.objs, tok, ix) &&
      LiveIndex(t) == LiveIndex(s)
    case Pointing(tok, ix) =>
      && ix.createdAt.At? && t.rec == s.rec && OnlyNeeded(s.objs, t.objs, tok, ix)
      && (LiveIndex(t) == Some(ix) || (p' == Leaving && LiveIndex(t) == LiveIndex(s)))
    case Pruning(tok) =>
      && t.rec == s.rec && LiveIndex(t) == LiveIndex(s)
      && p'.Noting? && PrunedTo(s.objs, t.objs, tok, keep, p'.warned, quiet)
    case Noting(_, _) =>
      t.objs == s.objs && t.rec == s.rec.(published := t.rec.published) && (quiet ==> t.rec.published)
    case _ => t == s
  }

  /** What a step of a publish leads to: the next phase, or the end when something failed or the
      folder or the bucket lacks what is needed. */
  ghost predicate PublishLeads(s: State, t: State, folder: StageFolder, p: Publishing, p': Publishing, keep: int,
                               quiet: bool) {
    && (Progress(s, folder, p, p') || p' == Leaving)
    && (quiet ==> Progress(s, folder, p, p') || StuckAt(s, folder, p))
    && t.made == s.made && PublishWrites(s, t, p, p', keep, quiet)
  }

  /** The next step of a publish that holds the link. It reads the token once; a step that fails
      leaves nothing to do but to stop. */
  method PublishStep(w: World, st: Staging, p: Publishing, keep: int) returns (p': Publishing)
    requires Together(w, p, Still) && st.Valid() && !p.Idle?
    modifies w`objs, w`uploads, w`nextUpload, w`rec, w`everLive, w`trace, w`faults, w`sent
    ensures Together(w, p', Still) && Extends(w.trace, old(w.trace)) && !p'.Idle? && w.faults >= old(w.faults)
    ensures PublishLeads(old(w.Now()), w.Now(), st.folder, p, p', keep, w.faults == old(w.faults))
    ensures TokenOf(p).Some? && TokenOf(p').Some? ==> TokenOf(p') == TokenOf(p)
  {
    NowInv(w);
    if p.Holding? {
      p' := Tokened(w.rec.token);
    } else if p.Leaving? {
      p' := Leaving;
    } else if p.Tokened? || p.Sending? || p.Assembling? {
      p' := StepUp(w, st.folder, p, keep);
    } else {
      p' := StepFinish(w, p, keep, st.folder);
    }
  }

  /** From the plan to the index. */
  method StepUp(w: World, folder: StageFolder, p: Publishing, ghost keep: int) returns (p': Publishing)
    requires w.Valid() && AllInv(w.trace) && PublishOk(w.Now(), p) && FolderOk(folder)
    requires p.Tokened? || p.Sending? || p.Assembling?
    modifies w`objs, w`uploads, w`nextUpload, w`trace, w`faults, w`sent
    ensures w.Valid() && AllInv(w.trace) && Extends(w.trace, old(w.trace)) && PublishOk(w.Now(), p') && !p'.Idle?
    ensures w.faults >= old(w.faults)
    ensures PublishLeads(old(w.Now()), w.Now(), folder, p, p', keep, w.faults == old(w.faults))
  {
    match p {
      case Tokened(t) => p' := StepPlan(w, t, folder, keep);
      case Sending(t, f, ix, prev, parts, sent) => p' := StepSend(w, t, f, ix, prev, parts, sent, folder, keep);
      case Assembling(t, ix, prev, done) => p' := StepAssemble(w, t, ix, prev, done, folder, keep);
    }
  }

  /** From the page to the record of the prefix. */
  method StepFinish(w: World, p: Publishing, keep: int, ghost folder: StageFolder) returns (p': Publishing)
    requires w.Valid() && AllInv(w.trace) && PublishOk(w.Now(), p)
    requires p.Paging? || p.Pointing? || p.Pruning? || p.Noting?
    modifies w`objs, w`rec, w`everLive, w`trace, w`faults, w`sent
    ensures w.Valid() && AllInv(w.trace) && Extends(w.trace, old(w.trace)) && PublishOk(w.Now(), p') && !p'.Idle?
    ensures w.faults >= old(w.faults)
    ensures PublishLeads(old(w.Now()), w.Now(), folder, p, p', keep, w.faults == old(w.faults))
  {
    match p {
      case Paging(t, ix, prev) => p' := StepPage(w, t, ix, prev, folder, keep);
      case Pointing(t, ix) => p' := StepPoint(w, t, ix, folder, keep);
      case Pruning(t) => p' := StepPrune(w, t, keep, folder);
      case Noting(t, warned) => p' := StepNote(w, t, warned, folder, keep);
    }
  }

  method StepPage(w: World, t: string, ix: Index, prev: Previous, ghost folder: StageFolder, ghost keep: int)
    returns (p': Publishing)
    requires w.Valid() && AllInv(w.trace) && PublishOk(w.Now(), Paging(t, ix, prev))
    modifies w`objs, w`trace, w`faults, w`sent
    ensures w.Valid() && AllInv(w.trace) && Extends(w.trace, old(w.trace)) && PublishOk(w.Now(), p') && !p'.Idle?
    ensures w.faults >= old(w.faults)
    ensures PublishLeads(old(w.Now()), w.Now(), folder, Paging(t, ix, prev), p', keep, w.faults == old(w.faults))
  {
    var ok := PutPage(w, t, ix, prev);
    p' := if ok then Pointing(t, ix) else Leaving;
  }

  method StepPoint(w: World, t: string, ix: Index, ghost folder: StageFolder, ghost keep: int)
    returns (p': Publishing)
    requires w.Valid() && AllInv(w.trace) && PublishOk(w.Now(), Pointing(t, ix))
    modifies w`objs, w`trace, w`faults, w`sent
    ensures w.Valid() && AllInv(w.trace) && Extends(w.trace, old(w.trace)) && PublishOk(w.Now(), p') && !p'.Idle?
    ensures w.faults >= old(w.faults)
    ensures PublishLeads(old(w.Now()), w.Now(), folder, Pointing(t, ix), p', keep, w.faults == old(w.faults))
  {
    var ok := PutLatest(w, t, ix);
    NowInv(w);
    p' := if ok then Pruning(t) else Leaving;
  }

  method StepPrune(w: World, t: string, keep: int, ghost folder: StageFolder) returns (p': Publishing)
    requires w.Valid() && AllInv(w.trace) && PublishOk(w.Now(), Pruning(t))
    modifies w`objs, w`trace, w`faults
    ensures w.Valid() && AllInv(w.trace) && Extends(w.trace, old(w.trace)) && PublishOk(w.Now(), p') && !p'.Idle?
    ensures w.faults >= old(w.faults)
    ensures PublishLeads(old(w.Now()), w.Now(), folder, Pruning(t), p', keep, w.faults == old(w.faults))
  {
    NowInv(w);
    var res, warning := PruneAfter(w, t, keep);
    NowInv(w);
    p' := Noting(t, warning);
  }

  method StepNote(w: World, t: string, warned: bool, ghost folder: StageFolder, ghost keep: int)
    returns (p': Publishing)
    requires w.Valid() && AllInv(w.trace) && PublishOk(w.Now(), Noting(t, warned))
    modifies w`rec, w`everLive, w`trace, w`faults
    ensures w.Valid() && AllInv(w.trace) && Extends(w.trace, old(w.trace)) && PublishOk(w.Now(), p') && !p'.Idle?
    ensures w.faults >= old(w.faults)
    ensures PublishLeads(old(w.Now()), w.Now(), folder, Noting(t, warned), p', keep, w.faults == old(w.faults))
  {
    var ok := RecordPrefix(w);
    p' := Leaving;
  }

  method StepPlan(w: World, t: string, folder: StageFolder, ghost keep: int) returns (p': Publishing)
    requires w.Valid() && AllInv(w.trace) && t == w.rec.token && FolderOk(folder)
    modifies w`faults
    ensures PublishOk(w.Now(), p') && !p'.Idle? && w.faults >= old(w.faults)
    ensures PublishLeads(w.Now(), w.Now(), folder, Tokened(t), p', keep, w.faults == old(w.faults))
  {
    p' := Leaving;
    if !SameInstant(w.objs, t, folder.index) { return; }
    NowInv(w);
    var plan := PlanRun(w, t, folder);
    if plan.Plan? {
      PlanSizes(plan.parts, plan.index, w.objs);
      p' := Sending(t, folder, plan.index, plan.previous, plan.parts, 0);
    }
  }

  method StepSend(w: World, t: string, folder: StageFolder, ix: Index, prev: Previous, parts: seq<PartPlan>, sent: nat,
                  ghost now: StageFolder, ghost keep: int)
    returns (p': Publishing)
    requires w.Valid() && AllInv(w.trace) && PublishOk(w.Now(), Sending(t, folder, ix, prev, parts, sent))
    modifies w`objs, w`trace, w`faults, w`sent
    ensures w.Valid() && AllInv(w.trace) && Extends(w.trace, old(w.trace)) && PublishOk(w.Now(), p') && !p'.Idle?
    ensures w.faults >= old(w.faults)
    ensures PublishLeads(old(w.Now()), w.Now(), now, Sending(t, folder, ix, prev, parts, sent), p', keep,
                         w.faults == old(w.faults))
  {
    NowInv(w);
    if sent == |parts| {
      AllSent(w.objs, parts);
      PlannedAreThere(w.objs, parts, ix);
      p' := Assembling(t, ix, prev, 0);
    } else {
      p' := StepSendOne(w, t, folder, ix, prev, parts, sent, now, keep);
    }
  }

  method StepSendOne(w: World, t: string, folder: StageFolder, ix: Index, prev: Previous, parts: seq<PartPlan>,
                     sent: nat, ghost now: StageFolder, ghost keep: int)
    returns (p': Publishing)
    requires w.Valid() && AllInv(w.trace) && PublishOk(w.Now(), Sending(t, folder, ix, prev, parts, sent))
    requires sent < |parts|
    modifies w`objs, w`trace, w`faults, w`sent
    ensures w.Valid() && AllInv(w.trace) && Extends(w.trace, old(w.trace)) && PublishOk(w.Now(), p') && !p'.Idle?
    ensures w.faults >= old(w.faults)
    ensures PublishLeads(old(w.Now()), w.Now(), now, Sending(t, folder, ix, prev, parts, sent), p', keep,
                         w.faults == old(w.faults))
  {
    p' := Leaving;
    NowInv(w);
    assert parts[sent] in parts;
    ghost var objs := w.objs;
    var ok, res := SendNext(w, folder, parts[sent], Sent(0, 0, 0), w.objs, {parts[sent].digest});
    NowInv(w);
    OnePartIsNeeded(objs, w.objs, parts[sent].digest, t, ix);
    if ok {
      SentNext(objs, w.objs, parts, sent);
      p' := Sending(t, folder, ix, prev, parts, sent + 1);
      StillSending(old(w.Now()), w.Now(), t, folder, ix, prev, parts, sent);
    }
    SentOneLeads(old(w.Now()), w.Now(), now, t, folder, ix, prev, parts, sent, p', keep, ok, w.faults == old(w.faults));
  }

  lemma SentOneLeads(s: State, after: State, now: StageFolder, t: string, folder: StageFolder, ix: Index,
                     prev: Previous,
                     parts: seq<PartPlan>, sent: nat, p': Publishing, keep: int, ok: bool, quiet: bool)
    requires sent < |parts| && ix.createdAt.At? && (!ok ==> !quiet)
    requires p' == if ok then Sending(t, folder, ix, prev, parts, sent + 1) else Leaving
    requires after.rec == s.rec && after.made == s.made && LiveIndex(after) == LiveIndex(s)
    requires OnlyNeeded(s.objs, after.objs, t, ix)
    ensures PublishLeads(s, after, now, Sending(t, folder, ix, prev, parts, sent), p', keep, quiet)
  {}

  lemma OnePartIsNeeded(a: Objects, b: Objects, d: Digest, token: string, ix: Index)
    requires ix.createdAt.At? && Grown(a, b, {d}) && d in PartSet(ix)
    ensures OnlyNeeded(a, b, token, ix)
  {}

  lemma StillSending(s: State, now: State, t: string, folder: StageFolder, ix: Index, prev: Previous,
                     parts: seq<PartPlan>,
                     sent: nat)
    requires Inv(s) && Inv(now) && PublishOk(s, Sending(t, folder, ix, prev, parts, sent)) && sent < |parts|
    requires now.rec == s.rec && LiveIndex(now) == LiveIndex(s) && Grown(s.objs, now.objs, {parts[sent].digest})
    requires SentSoFar(now.objs, parts, sent + 1)
    ensures PublishOk(now, Sending(t, folder, ix, prev, parts, sent + 1))
  {}

  lemma PlannedAreThere(objs: Objects, parts: seq<PartPlan>, ix: Index)
    requires PlanDigests(parts) == PartSet(ix) && forall p | p in parts :: Part(p.digest) in objs
    ensures PartsStored(objs, ix)
  {
    forall d | d in PartSet(ix) ensures Part(d) in objs {
      var p :| p in parts && p.digest == d;
    }
  }

  method StepAssemble(w: World, t: string, ix: Index, prev: Previous, done: nat, ghost folder: StageFolder,
                      ghost keep: int)
    returns (p': Publishing)
    requires w.Valid() && AllInv(w.trace) && PublishOk(w.Now(), Assembling(t, ix, prev, done))
    modifies w`objs, w`uploads, w`nextUpload, w`trace, w`faults, w`sent
    ensures w.Valid() && AllInv(w.trace) && Extends(w.trace, old(w.trace)) && PublishOk(w.Now(), p') && !p'.Idle?
    ensures w.faults >= old(w.faults)
    ensures PublishLeads(old(w.Now()), w.Now(), folder, Assembling(t, ix, prev, done), p', keep,
                         w.faults == old(w.faults))
  {
    p' := Leaving;
    var ok;
    if done < |ix.levels| {
      ok := AssembleNext(w, t, ix, done, prev);
      if ok { p' := Assembling(t, ix, prev, done + 1); }
    } else {
      assert ix.levels[..done] == ix.levels;
      ok := PutIndex(w, t, ix, prev);
      if ok { p' := Paging(t, ix, prev); }
    }
  }

  /** RecordLinkPrefix, after a publish that succeeded and before its hold is released. */
  method RecordPrefix(w: World) returns (ok: bool)
    requires w.Valid() && AllInv(w.trace) && Latest(w.rec.token) in w.objs
    modifies w`rec, w`everLive, w`trace, w`faults
    ensures w.Valid() && AllInv(w.trace) && Extends(w.trace, old(w.trace))
    ensures w.faults >= old(w.faults) && (!ok ==> w.faults > old(w.faults))
    ensures w.rec == if ok then old(w.rec).(published := true) else old(w.rec)
  {
    NowInv(w);
    ok := w.SaveRecord(w.rec.(published := true));
  }

  // --- the steps of a change ---

  method StartChange(w: World, p: Publishing, c: Changing, private: bool, rotate: bool) returns (c': Changing)
    requires Together(w, p, c) && (w.moving || w.holders > 0 || MayChange(w.objs, w.rec))
    modifies w`moving, w`begun
    ensures Together(w, p, c') && w.Now() == old(w.Now()) && w.trace == old(w.trace)
    ensures c' == if p.Idle? && c.Still? then Begun(private, rotate) else c
    ensures w.begun == if c != c' then |w.trace| - 1 else old(w.begun)
    ensures !p.Idle? ==> w.moving == old(w.moving)
  {
    c' := c;
    NowInv(w);
    var mine := BeginMove(w);
    if mine { c' := Begun(private, rotate); }
  }

  /** However it ends, a change lets go of the link. */
  method StopChange(w: World, p: Publishing, c: Changing) returns (c': Changing)
    requires Together(w, p, c)
    modifies w`moving
    ensures Together(w, p, c') && c' == Still && w.Now() == old(w.Now()) && w.trace == old(w.trace)
  {
    w.moving := false;
    c' := Still;
  }

  /** What a step of a change leads to when nothing fails. */
  ghost function Next(s: State, c: Changing, random: Option<string>): Option<Changing> {
    match c
    case Still => None
    case Begun(private, rotate) =>
      if rotate && s.rec.token == "" then Some(Over(None))
      else if !rotate && private == (s.rec.token != "") then Some(Dropping(s.rec.stale, [], 0, false))
      else if !rotate && !private then Some(Going(""))
      else if s.rec.pending != "" then Some(Going(s.rec.pending))
      else if random.Some? then Some(Going(random.value))
      else None
    case Going(to) =>
      if !s.rec.published then Some(Committing(to, false))
      else if LiveIndex(s).Some? then Some(Moved0(to, LiveIndex(s).value))
      else None
    case Moved0(to, ix) => Some(MovingOn(to, ix, 0))
    case MovingOn(to, ix, done) =>
      Some(if done < |ix.levels| then MovingOn(to, ix, done + 1) else Committing(to, true))
    case Committing(to, moved) => Some(Dropping(Committed(s.rec, to, moved).stale, [], 0, false))
    case Dropping(stale, kept, done, works) =>
      Some(if done < |stale| then Dropping(stale, kept, done + 1, works) else Over(Some(works)))
    case Over(_) => Some(c)
  }

  /** What else it may lead to when something fails: the end, or a base kept on the list. */
  predicate Fails(c: Changing, c': Changing) {
    || c' == Over(None)
    || (c.Dropping? && c.done < |c.stale|
        && c'.Dropping? && c'.stale == c.stale && c'.done == c.done + 1 && c'.kept == c.kept + [c.stale[c.done]])
  }

  /** What a step makes of the store: nothing outside the base it writes or drops is touched, and only
      the commit changes the token. */
  ghost predicate ChangeWrites(s: State, t: State, c: Changing, c': Changing, quiet: bool) {
    match c
    case Begun(_, _) =>
      && t.objs == s.objs && t.everLive == s.everLive && t.rec == s.rec.(pending := t.rec.pending)
      && (c'.Going? && c'.to != "" ==> t.rec.pending == c'.to)
    case Going(to) => t.rec == s.rec && t.everLive == s.everLive && OnlyBase(s.objs, t.objs, to)
    case Moved0(to, _) => t.rec == s.rec && t.everLive == s.everLive && OnlyBase(s.objs, t.objs, to)
    case MovingOn(to, _, _) => t.rec == s.rec && t.everLive == s.everLive && OnlyBase(s.objs, t.objs, to)
    case Committing(to, moved) =>
      && t.objs == s.objs && t.rec == (if c'.Dropping? then Committed(s.rec, to, moved) else s.rec)
      && t.everLive == s.everLive + (if c'.Dropping? then {to} else {})
    case Dropping(stale, kept, done, _) =>
      && t.everLive == s.everLive && t.objs.Keys <= s.objs.Keys
      && if done < |stale| then
           && t.rec == s.rec
           && (if stale[done] == s.rec.token then t.objs == s.objs else OnlyBase(s.objs, t.objs, stale[done]))
           && (quiet ==> stale[done] == s.rec.token || Gone(t.objs, stale[done]))
         else
           && t.objs == s.objs && t.rec == s.rec.(stale := t.rec.stale) && (quiet ==> t.rec.stale == kept)
    case _ => t == s
  }

  /** What a step of a change leads to. Without a fault only the lack of a random token, or a level
      that cannot be copied by ranges, keeps it from going on. */
  ghost predicate ChangeLeads(s: State, t: State, c: Changing, c': Changing, random: Option<string>, quiet: bool) {
    && (Next(s, c, random) == Some(c') || Fails(c, c'))
    && (quiet ==> Next(s, c, random) == Some(c') || (c.Begun? && Next(s, c, random) == None)
                  || (c.MovingOn? && AnyTooLong(c.index)))
    && ChangeWrites(s, t, c, c', quiet)
  }

  /** The random token matters to the first step alone. */
  lemma OnlyTheFirst(s: State, t: State, c: Changing, c': Changing, random: Option<string>, quiet: bool)
    requires ChangeLeads(s, t, c, c', None, quiet) && !c.Begun?
    ensures ChangeLeads(s, t, c, c', random, quiet)
  {
    assert Next(s, c, None) == Next(s, c, random);
  }

  /** The next step of a change that has the link. */
  method ChangeStep(w: World, c: Changing, random: Option<string>) returns (c': Changing)
    requires Together(w, Idle, c) && !c.Still?
    requires random.Some? ==> IsLinkToken(random.value) && random.value !in w.made
    modifies w`objs, w`uploads, w`nextUpload, w`rec, w`everLive, w`made, w`trace, w`faults, w`sent
    ensures Together(w, Idle, c') && Extends(w.trace, old(w.trace)) && !c'.Still?
    ensures w.made <= old(w.made) + (if random.Some? then {random.value} else {})
    ensures w.faults >= old(w.faults)
    ensures ChangeLeads(old(w.Now()), w.Now(), c, c', random, w.faults == old(w.faults))
  {
    if c.Begun? {
      c' := FirstStep(w, c, random);
      return;
    }
    if c.Going? || c.Moved0? {
      c' := EarlyStep(w, c);
    } else if c.MovingOn? {
      c' := LateStep(w, c);
    } else {
      c' := EndStep(w, c);
    }
    OnlyTheFirst(old(w.Now()), w.Now(), c, c', random, w.faults == old(w.faults));
  }

  lemma StillTogether(w: World, c: Changing, live: Option<Index>, trace0: seq<State>)
    requires w.Valid() && AllInv(w.trace) && Extends(w.trace, trace0) && w.begun < |trace0|
    requires live == LiveIndex(trace0[w.begun]) && SameSnapshot(live, w.Now()) && ChangeOk(w.Now(), c)
    requires w.holders == 0 && w.moving && !c.Still?
    ensures Together(w, Idle, c)
  {}

  method FirstStep(w: World, c: Changing, random: Option<string>) returns (c': Changing)
    requires Together(w, Idle, c) && c.Begun?
    requires random.Some? ==> IsLinkToken(random.value) && random.value !in w.made
    modifies w`rec, w`everLive, w`made, w`trace, w`faults
    ensures Together(w, Idle, c') && Extends(w.trace, old(w.trace)) && !c'.Still? && w.faults >= old(w.faults)
    ensures w.made <= old(w.made) + (if random.Some? then {random.value} else {})
    ensures ChangeLeads(old(w.Now()), w.Now(), c, c', random, w.faults == old(w.faults))
  {
    ghost var live, trace0 := FoundLive(w), w.trace;
    c' := StepToken(w, c.private, c.rotate, random, live);
    StillTogether(w, c', live, trace0);
  }

  method EarlyStep(w: World, c: Changing) returns (c': Changing)
    requires Together(w, Idle, c) && (c.Going? || c.Moved0?)
    modifies w`objs, w`trace, w`faults, w`sent
    ensures Together(w, Idle, c') && Extends(w.trace, old(w.trace)) && !c'.Still? && w.faults >= old(w.faults)
    ensures ChangeLeads(old(w.Now()), w.Now(), c, c', None, w.faults == old(w.faults))
  {
    ghost var live, trace0 := FoundLive(w), w.trace;
    match c {
      case Going(to) => c' := StepRead(w, to, live);
      case Moved0(to, ix) => c' := StepIndex(w, to, ix, live);
    }
    StillTogether(w, c', live, trace0);
  }

  method LateStep(w: World, c: Changing) returns (c': Changing)
    requires Together(w, Idle, c) && c.MovingOn?
    modifies w`objs, w`uploads, w`nextUpload, w`trace, w`faults, w`sent
    ensures Together(w, Idle, c') && Extends(w.trace, old(w.trace)) && !c'.Still? && w.faults >= old(w.faults)
    ensures ChangeLeads(old(w.Now()), w.Now(), c, c', None, w.faults == old(w.faults))
  {
    ghost var live, trace0 := FoundLive(w), w.trace;
    c' := StepLevel(w, c.to, c.index, c.done, live);
    StillTogether(w, c', live, trace0);
  }

  /** After the move: the commit, the deletes, or nothing more. */
  method EndStep(w: World, c: Changing) returns (c': Changing)
    requires Together(w, Idle, c) && (c.Committing? || c.Dropping? || c.Over?)
    modifies w`objs, w`rec, w`everLive, w`trace, w`faults
    ensures Together(w, Idle, c') && Extends(w.trace, old(w.trace)) && !c'.Still? && w.faults >= old(w.faults)
    ensures ChangeLeads(old(w.Now()), w.Now(), c, c', None, w.faults == old(w.faults))
  {
    if c.Committing? {
      c' := CommitStep(w, c);
    } else if c.Dropping? {
      c' := LastStep(w, c);
    } else {
      c' := c;
    }
  }

  method CommitStep(w: World, c: Changing) returns (c': Changing)
    requires Together(w, Idle, c) && c.Committing?
    modifies w`rec, w`everLive, w`trace, w`faults
    ensures Together(w, Idle, c') && Extends(w.trace, old(w.trace)) && !c'.Still? && w.faults >= old(w.faults)
    ensures ChangeLeads(old(w.Now()), w.Now(), c, c', None, w.faults == old(w.faults))
  {
    ghost var live, trace0 := FoundLive(w), w.trace;
    c' := StepCommit(w, c.to, c.moved, live);
    StillTogether(w, c', live, trace0);
  }

  method LastStep(w: World, c: Changing) returns (c': Changing)
    requires Together(w, Idle, c) && c.Dropping?
    modifies w`objs, w`rec, w`everLive, w`trace, w`faults
    ensures Together(w, Idle, c') && Extends(w.trace, old(w.trace)) && !c'.Still? && w.faults >= old(w.faults)
    ensures ChangeLeads(old(w.Now()), w.Now(), c, c', None, w.faults == old(w.faults))
  {
    ghost var live, trace0 := FoundLive(w), w.trace;
    c' := StepDrop(w, c.stale, c.kept, c.done, c.works, live);
    StillTogether(w, c', live, trace0);
  }

  /** Where the change goes: nowhere when the link is in that mode already, to the public layout,
      or to a private token that is recorded as pending first. */
  method StepToken(w: World, private: bool, rotate: bool, random: Option<string>, ghost live: Option<Index>)
    returns (c': Changing)
    requires w.Valid() && AllInv(w.trace) && MayChange(w.objs, w.rec) && SameSnapshot(live, w.Now())
    requires random.Some? ==> IsLinkToken(random.value) && random.value !in w.made
    modifies w`rec, w`everLive, w`made, w`trace, w`faults
    ensures w.Valid() && AllInv(w.trace) && Extends(w.trace, old(w.trace)) && ChangeOk(w.Now(), c') &&
              SameSnapshot(live, w.Now())
    ensures !c'.Still? && w.made <= old(w.made) + (if random.Some? then {random.value} else {})
    ensures w.faults >= old(w.faults)
    ensures ChangeLeads(old(w.Now()), w.Now(), Begun(private, rotate), c', random, w.faults == old(w.faults))
  {
    c' := Over(None);
    NowInv(w);
    if rotate && w.rec.token == "" { return; }
    if !rotate && private == (w.rec.token != "") {
      return Dropping(w.rec.stale, [], 0, false);
    }
    if !rotate && !private { return Going(""); }
    var tok := PendingToken(w, random);
    if tok.Ok? { c' := Going(tok.value); }
  }

  method StepRead(w: World, to: string, ghost live: Option<Index>) returns (c': Changing)
    requires w.Valid() && AllInv(w.trace) && ChangeOk(w.Now(), Going(to)) && SameSnapshot(live, w.Now())
    modifies w`objs, w`trace, w`faults
    ensures w.Valid() && AllInv(w.trace) && Extends(w.trace, old(w.trace)) && ChangeOk(w.Now(), c') &&
              SameSnapshot(live, w.Now())
    ensures !c'.Still?
    ensures w.faults >= old(w.faults)
    ensures ChangeLeads(old(w.Now()), w.Now(), Going(to), c', None, w.faults == old(w.faults))
  {
    c' := Over(None);
    NowInv(w);
    if !w.rec.published { return Committing(to, false); }
    var what := WhatToMove(w, w.rec.token);
    if what.Failed? || what.value.None? { return; }
    var ok := MovePage(w, w.rec.token, what.value.value, to);
    if ok { c' := Moved0(to, what.value.value); }
  }

  method StepIndex(w: World, to: string, ix: Index, ghost live: Option<Index>) returns (c': Changing)
    requires w.Valid() && AllInv(w.trace) && ChangeOk(w.Now(), Moved0(to, ix)) && SameSnapshot(live, w.Now())
    modifies w`objs, w`trace, w`faults, w`sent
    ensures w.Valid() && AllInv(w.trace) && Extends(w.trace, old(w.trace)) && ChangeOk(w.Now(), c') &&
              SameSnapshot(live, w.Now())
    ensures !c'.Still?
    ensures w.faults >= old(w.faults)
    ensures ChangeLeads(old(w.Now()), w.Now(), Moved0(to, ix), c', None, w.faults == old(w.faults))
  {
    var ok := MoveIndex(w, ix, to);
    c' := if ok then MovingOn(to, ix, 0) else Over(None);
  }

  method StepLevel(w: World, to: string, ix: Index, done: nat, ghost live: Option<Index>) returns (c': Changing)
    requires w.Valid() && AllInv(w.trace) && ChangeOk(w.Now(), MovingOn(to, ix, done)) && SameSnapshot(live, w.Now())
    modifies w`objs, w`uploads, w`nextUpload, w`trace, w`faults, w`sent
    ensures w.Valid() && AllInv(w.trace) && Extends(w.trace, old(w.trace)) && ChangeOk(w.Now(), c') &&
              SameSnapshot(live, w.Now())
    ensures !c'.Still?
    ensures w.faults >= old(w.faults)
    ensures ChangeLeads(old(w.Now()), w.Now(), MovingOn(to, ix, done), c', None, w.faults == old(w.faults))
  {
    if done == |ix.levels| {
      c' := StepPointer(w, to, ix, live);
    } else {
      var ok := MoveNext(w, w.rec.token, ix, done, to);
      c' := if ok then MovingOn(to, ix, done + 1) else Over(None);
    }
  }

  method StepPointer(w: World, to: string, ix: Index, ghost live: Option<Index>) returns (c': Changing)
    requires w.Valid() && AllInv(w.trace) && SameSnapshot(live, w.Now())
    requires ChangeOk(w.Now(), MovingOn(to, ix, |ix.levels|))
    modifies w`objs, w`trace, w`faults, w`sent
    ensures w.Valid() && AllInv(w.trace) && Extends(w.trace, old(w.trace)) && ChangeOk(w.Now(), c') &&
              SameSnapshot(live, w.Now())
    ensures !c'.Still?
    ensures w.faults >= old(w.faults)
    ensures ChangeLeads(old(w.Now()), w.Now(), MovingOn(to, ix, |ix.levels|), c', None, w.faults == old(w.faults))
  {
    var ok := MovePointer(w, ix, to);
    c' := if ok then Committing(to, true) else Over(None);
  }

  method StepCommit(w: World, to: string, moved: bool, ghost live: Option<Index>) returns (c': Changing)
    requires w.Valid() && AllInv(w.trace) && ChangeOk(w.Now(), Committing(to, moved)) && SameSnapshot(live, w.Now())
    modifies w`rec, w`everLive, w`trace, w`faults
    ensures w.Valid() && AllInv(w.trace) && Extends(w.trace, old(w.trace)) && ChangeOk(w.Now(), c') &&
              SameSnapshot(live, w.Now())
    ensures !c'.Still?
    ensures w.faults >= old(w.faults)
    ensures ChangeLeads(old(w.Now()), w.Now(), Committing(to, moved), c', None, w.faults == old(w.faults))
  {
    NowInv(w);
    var ok := Commit(w, to, moved);
    NowInv(w);
    c' := if ok then Dropping(w.rec.stale, [], 0, false) else Over(None);
  }

  method StepDrop(w: World, stale: seq<string>, kept: seq<string>, done: nat, works: bool, ghost live: Option<Index>)
    returns (c': Changing)
    requires w.Valid() && AllInv(w.trace) && ChangeOk(w.Now(), Dropping(stale, kept, done, works)) &&
              SameSnapshot(live, w.Now())
    modifies w`objs, w`rec, w`everLive, w`trace, w`faults
    ensures w.Valid() && AllInv(w.trace) && Extends(w.trace, old(w.trace)) && ChangeOk(w.Now(), c') &&
              SameSnapshot(live, w.Now())
    ensures !c'.Still?
    ensures w.faults >= old(w.faults)
    ensures ChangeLeads(old(w.Now()), w.Now(), Dropping(stale, kept, done, works), c', None, w.faults == old(w.faults))
  {
    NowInv(w);
    if done < |stale| {
      ghost var objs := w.objs;
      var keep, answers := DropOne(w, stale[done]);
      OneMoreDropped(objs, w.objs, w.rec.token, stale, done, kept, keep, works, answers);
      return Dropping(stale, if keep then kept + [stale[done]] else kept, done + 1, works || (keep && answers));
    }
    assert stale[..done] == stale;
    ghost var before := w.Now();
    SaveStale(w, kept);
    NowInv(w);
    if !works { NoneAnswerNow(before, w.Now()); }
    c' := Over(Some(works));
  }
}
