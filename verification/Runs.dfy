/** Whole runs over one prefix. The steps of a publish and of a change of the link, snapshots and
    restarts of the app come in any order; what keeps a publish and a move apart is only HoldLink
    and beginMove. Every step may fail, and either may be left off after any of its steps. */
module Runs {
  import opened Wrappers
  import opened Keys
  import opened Snapshot
  import opened World
  import opened Protocol
  import opened Publish
  import opened Move
  import opened Link
  import opened Staging
  import opened Steps

  // --- the commands and what they lead to ---

  /** What may come next at any moment. */
  datatype Command =
    | TakeSnapshot(src: Source, stamp: string, partSize: int)
    | Publish
    | PublishOn(keep: int)
    | PublishOff
    | Switch(private: bool)
    | Rotate
    | ChangeOn(random: Option<string>)
    | ChangeOff
    | Restart

  /** Where a run is: the phases of the publish and the change, the store and the staging folder,
      how often something failed so far, and the random tokens used up. */
  datatype Moment = Moment(p: Publishing, c: Changing, store: State, folder: StageFolder, faults: nat,
                           used: set<string>)

  /** The folder after a snapshot: its index is that of the source, or the one before when the source
      cannot be read or something failed. When nothing did, the folder holds exactly the parts that the
      live snapshot does not name, and a publish of it is not refused but for the source. */
  ghost predicate SnapshotLeads(m: Moment, n: Moment, src: Source, stamp: string, partSize: int) {
    && n == m.(folder := n.folder, faults := n.faults)
    && (|| n.folder.index == m.folder.index
        || (n.folder.index.Parsed? && IndexOf(n.folder.index.index, src, m.store.rec.token, stamp, partSize)))
    && (n.faults == m.faults ==>
          || CannotRead(src, partSize)
          || (n.folder.index.Parsed? && IndexOf(n.folder.index.index, src, m.store.rec.token, stamp, partSize)
              && n.folder.files.Keys == PartSet(n.folder.index.index) - LiveParts(m.store)
              && (PublishableSource(src, stamp, partSize) ==>
                    !Refusable(m.store.objs, m.store.rec.token, n.folder))))
  }

  ghost function LiveParts(s: State): set<Digest> {
    match LiveIndex(s)
    case Some(ix) => PartSet(ix)
    case None => {}
  }

  /** A change may begin when neither a publish nor another change has the link and the prefix is on
      the record, or nothing was published. */
  ghost predicate Free(m: Moment) {
    m.p.Idle? && m.c.Still? && MayChange(m.store.objs, m.store.rec)
  }

  /** What one command leads to. A publish that begins while a change has the link is turned away, and
      so is a change that begins while a publish holds it; a snapshot waits for a publish of its
      server. Commands that would break a stated assumption (see the README) do nothing. */
  ghost predicate Leads(o: Command, m: Moment, n: Moment) {
    match o
    case TakeSnapshot(src, stamp, partSize) =>
      if m.p.Idle? then SnapshotLeads(m, n, src, stamp, partSize) else n == m
    case Publish => n == if m.p.Idle? && m.c.Still? then m.(p := Holding) else m
    case PublishOn(keep) =>
      if m.p.Idle? then n == m
      else
        && n == m.(p := n.p, store := n.store, faults := n.faults) && !n.p.Idle?
        && PublishLeads(m.store, n.store, m.folder, m.p, n.p, keep, n.faults == m.faults)
    case PublishOff => n == m.(p := Idle)
    case Switch(private) => n == if Free(m) then m.(c := Begun(private, false)) else m
    case Rotate => n == if Free(m) then m.(c := Begun(true, true)) else m
    case ChangeOn(random) =>
      if m.c.Still? || (random.Some? && (!IsLinkToken(random.value) || random.value in m.used)) then n == m
      else
        && n == m.(c := n.c, store := n.store, faults := n.faults, used := n.used) && !n.c.Still?
        && n.used == m.used + (if random.Some? then {random.value} else {})
        && ChangeLeads(m.store, n.store, m.c, n.c, random, n.faults == m.faults)
    case ChangeOff => n == m.(c := Still)
    case Restart => n == m.(p := Idle, c := Still)
  }

  ghost function Here(w: World, st: Staging, p: Publishing, c: Changing, used: set<string>): Moment
    reads w, st
  {
    Moment(p, c, w.Now(), st.folder, w.faults + st.faults, used)
  }

  // --- one command ---

  method Do(w: World, st: Staging, o: Command, p: Publishing, c: Changing, used: set<string>)
    returns (p': Publishing, c': Changing, used': set<string>)
    requires Together(w, p, c) && st.Valid() && w.made <= used
    modifies w, st
    ensures Together(w, p', c') && st.Valid() && w.made <= used' && Extends(w.trace, old(w.trace))
    ensures Leads(o, old(Here(w, st, p, c, used)), Here(w, st, p', c', used'))
    ensures w.begun == if c.Still? && !c'.Still? then |old(w.trace)| - 1 else old(w.begun)
  {
    p', c', used' := p, c, used;
    if o.TakeSnapshot? {
      if p.Idle? { Snap(w, st, o.src, o.stamp, o.partSize, c, used); }
    } else if o.Publish? || o.PublishOn? || o.PublishOff? {
      p' := DoPublish(w, st, o, p, c, used);
    } else if o.Restart? {
      p', c' := StartOver(w, p, c);
    } else {
      c', used' := DoChange(w, st, o, p, c, used);
    }
  }

  /** A restart of the app: nothing holds the link. */
  method StartOver(w: World, p: Publishing, c: Changing) returns (p': Publishing, c': Changing)
    requires Together(w, p, c)
    modifies w`holders, w`moving
    ensures Together(w, p', c') && p' == Idle && c' == Still
  {
    w.holders, w.moving := 0, false;
    p', c' := Idle, Still;
  }

  method DoPublish(w: World, st: Staging, o: Command, p: Publishing, c: Changing, ghost used: set<string>)
    returns (p': Publishing)
    requires Together(w, p, c) && st.Valid() && (o.Publish? || o.PublishOn? || o.PublishOff?)
    modifies w`objs, w`uploads, w`nextUpload, w`rec, w`everLive, w`trace, w`holders, w`faults, w`sent
    ensures Together(w, p', c) && Extends(w.trace, old(w.trace))
    ensures Leads(o, old(Here(w, st, p, c, used)), Here(w, st, p', c, used))
  {
    p' := p;
    match o {
      case Publish => p' := StartPublish(w, p, c);
      case PublishOn(keep) =>
        if !p.Idle? { p' := PublishStep(w, st, p, keep); }
      case PublishOff => p' := StopPublish(w, p, c);
    }
  }

  method Snap(w: World, st: Staging, src: Source, stamp: string, partSize: int, c: Changing, ghost used: set<string>)
    requires Together(w, Idle, c) && st.Valid()
    modifies w`faults, st
    ensures Together(w, Idle, c) && st.Valid()
    ensures SnapshotLeads(old(Here(w, st, Idle, c, used)), Here(w, st, Idle, c, used), src, stamp, partSize)
  {
    NowInv(w);
    var taken;
    ghost var prev;
    taken, prev := SnapshotAgainstBucket(w, st, src, w.rec.token, stamp, partSize);
    if taken.Ok? { OnlyForTheSource(w.Now(), st.folder, prev, src, stamp, partSize); }
  }

  method DoChange(w: World, ghost st: Staging, o: Command, p: Publishing, c: Changing, used: set<string>)
    returns (c': Changing, used': set<string>)
    requires Together(w, p, c) && w.made <= used && (o.Switch? || o.Rotate? || o.ChangeOn? || o.ChangeOff?)
    modifies w`objs, w`uploads, w`nextUpload, w`rec, w`everLive, w`made, w`trace, w`moving, w`begun, w`faults, w`sent
    ensures Together(w, p, c') && w.made <= used' && Extends(w.trace, old(w.trace))
    ensures Leads(o, old(Here(w, st, p, c, used)), Here(w, st, p, c', used'))
    ensures w.begun == if c.Still? && !c'.Still? then |old(w.trace)| - 1 else old(w.begun)
  {
    c', used' := c, used;
    if o.ChangeOn? {
      if !c.Still? && Fresh(o.random, used) {
        used' := used + (if o.random.Some? then {o.random.value} else {});
        c' := ChangeStep(w, c, o.random);
      }
    } else if o.ChangeOff? {
      c' := StopChange(w, p, c);
    } else if !p.Idle? || !c.Still? || MayChange(w.objs, w.rec) {
      c' := StartChange(w, p, c, if o.Switch? then o.private else true, o.Rotate?);
    }
  }

  // --- any run ---

  /** A run from an empty bucket: each moment is what the command before it led to. */
  ghost predicate RunOf(commands: seq<Command>, history: seq<Moment>) {
    && |history| == |commands| + 1
    && history[0] == Moment(Idle, Still, State(map[], LinkRecord("", "", false, []), {}, {""}),
                            StageFolder(Missing, map[]), 0, {})
    && forall i | 0 <= i < |commands| :: Leads(commands[i], history[i], history[i + 1])
  }

  /** The store was in the state of each moment, one after the other. */
  ghost predicate InTrace(history: seq<Moment>, trace: seq<State>) {
    forall i | 0 <= i < |history| :: history[i].store in trace
  }

  /** Every run: from an empty bucket, the commands in any order, each step failing or not. The
      moments of the run are what its commands lead to, one after another. In every durable state on
      the way the invariant holds, a publish and a change are never both under way, and a change
      leaves the snapshot that was live when it began. A prefix of a run is a run, so this holds
      after each command. */
  method AnyRun(commands: seq<Command>)
    returns (w: World, st: Staging, p: Publishing, c: Changing, ghost history: seq<Moment>)
    ensures w.Valid() && AllInv(w.trace) && !(w.moving && w.holders > 0)
    ensures RunOf(commands, history) && InTrace(history, w.trace)
    ensures history[|commands|] == Here(w, st, p, c, history[|commands|].used)
    ensures !c.Still? ==> p.Idle? && w.begun < |w.trace| && SameSnapshot(LiveIndex(w.trace[w.begun]), w.Now())
    ensures LinkSteps(w.trace)
    ensures c == Over(Some(false)) ==> NoneAnswer(w.Now())
  {
    InitialState();
    w := new World();
    st := new Staging();
    p, c := Idle, Still;
    var used := {};
    history := [Here(w, st, p, c, used)];
    for i := 0 to |commands|
      invariant Together(w, p, c) && st.Valid() && w.made <= used
      invariant fresh(w) && fresh(st)
      invariant RunOf(commands[..i], history) && InTrace(history, w.trace) && history[i] == Here(w, st, p, c, used)
    {
      ghost var trace := w.trace;
      p, c, used := Do(w, st, commands[i], p, c, used);
      OneMoreMoment(commands, i, history, Here(w, st, p, c, used), trace, w.trace);
      history := history + [Here(w, st, p, c, used)];
    }
    assert commands[..|commands|] == commands;
  }

  lemma OneMoreMoment(commands: seq<Command>, i: nat, history: seq<Moment>, m: Moment, trace: seq<State>,
                      now: seq<State>)
    requires i < |commands| && RunOf(commands[..i], history) && InTrace(history, trace)
    requires Leads(commands[i], history[i], m) && Extends(now, trace) && m.store in now
    ensures RunOf(commands[..i + 1], history + [m]) && InTrace(history + [m], now)
  {
    var more := history + [m];
    forall j | 0 <= j < i + 1 ensures Leads(commands[..i + 1][j], more[j], more[j + 1]) {
      if j < i { assert Leads(commands[..i][j], history[j], history[j + 1]); }
    }
    forall j | 0 <= j < |more| ensures more[j].store in now {
      if j < |history| {
        assert history[j].store in trace;
        var k :| 0 <= k < |trace| && trace[k] == history[j].store;
        assert now[k] == trace[k];
      }
    }
  }

  // --- a publish carried on to its end ---

  /** A publish of this index: it is staged, being sent or built, or live. */
  ghost predicate PublishOf(m: Moment, ix: Index) {
    match m.p
    case Idle => false
    case Holding => MayPublish(m, m.store.rec.token, ix)
    case Tokened(t) => MayPublish(m, t, ix)
    case Sending(_, _, x, _, parts, sent) => x == ix && sent <= |parts| == |PartSet(ix)|
    case Assembling(_, x, _, done) => x == ix && done <= |ix.levels|
    case Paging(_, x, _) => x == ix
    case Pointing(_, x) => x == ix
    case Pruning(_) => LiveIndex(m.store) == Some(ix)
    case Noting(_, _) => LiveIndex(m.store) == Some(ix)
    case Leaving => LiveIndex(m.store) == Some(ix) && m.store.rec.published
  }

  /** The index is staged, and the folder and the bucket have what a publish of it needs. */
  ghost predicate MayPublish(m: Moment, token: string, ix: Index) {
    && m.folder.index == Parsed(ix) && !Refusable(m.store.objs, token, m.folder)
    && SameInstant(m.store.objs, token, m.folder.index)
  }

  /** How many steps a publish of this index has before it. */
  ghost function StepsLeft(p: Publishing, ix: Index): nat {
    var parts, levels := |PartSet(ix)|, |ix.levels|;
    match p
    case Idle => 0
    case Holding => parts + levels + 8
    case Tokened(_) => parts + levels + 7
    case Sending(_, _, _, _, _, sent) => (if sent < parts then parts - sent else 0) + levels + 6
    case Assembling(_, _, _, done) => (if done < levels then levels - done else 0) + 5
    case Paging(_, _, _) => 4
    case Pointing(_, _) => 3
    case Pruning(_) => 2
    case Noting(_, _) => 1
    case Leaving => 0
  }

  /** One more step, in which nothing fails. */
  lemma OneStepOn(m: Moment, n: Moment, keep: int, ix: Index)
    requires Leads(PublishOn(keep), m, n) && n.faults == m.faults && PublishOf(m, ix) && !AnyTooLong(ix)
    ensures PublishOf(n, ix)
    ensures StepsLeft(n.p, ix) == if StepsLeft(m.p, ix) > 0 then StepsLeft(m.p, ix) - 1 else 0
  {}

  /** From moment i a publish is carried on n times, with nothing failing. */
  ghost predicate GoesOn(commands: seq<Command>, history: seq<Moment>, i: nat, n: nat)
    requires i + n <= |commands| && |history| == |commands| + 1
  {
    forall j | i <= j < i + n :: commands[j].PublishOn? && history[j + 1].faults == history[j].faults
  }

  /** A publish that is carried on, with nothing failing, is done after as many steps as it has, and
      its snapshot is live and on the record. */
  lemma {:induction false} CarriedOn(commands: seq<Command>, history: seq<Moment>, i: nat, n: nat, ix: Index)
    requires RunOf(commands, history) && i + n <= |commands| && PublishOf(history[i], ix) && !AnyTooLong(ix)
    requires GoesOn(commands, history, i, n)
    ensures PublishOf(history[i + n], ix)
    ensures StepsLeft(history[i + n].p, ix) == if StepsLeft(history[i].p, ix) > n then StepsLeft(history[i].p, ix) - n
              else 0
    ensures n >= StepsLeft(history[i].p, ix) ==>
              && history[i + n].p == Leaving
              && LiveIndex(history[i + n].store) == Some(ix) && history[i + n].store.rec.published
  {
    if n > 0 {
      CarriedOn(commands, history, i, n - 1, ix);
      var j := i + n - 1;
      assert Leads(commands[j], history[j], history[j + 1]);
      OneStepOn(history[j], history[j + 1], commands[j].keep, ix);
    }
  }

  /** The prefix is on the record, and each level's file in the bucket is the database. */
  ghost predicate BytesLive(s: State, src: Source, stamp: string) {
    && s.rec.published
    && forall k | 0 <= k < |src.levels| ::
         Holds(s.objs, LevelKey(s.rec.token, stamp, src.levels[k].folder), Data(src.levels[k].db))
  }

  /** A snapshot, and a publish of it carried on to its end with nothing failing: the databases that
      were read are live, byte for byte. */
  lemma SnapshotThenPublish(commands: seq<Command>, history: seq<Moment>, i: nat, n: nat, src: Source, stamp: string,
                            partSize: int)
    requires RunOf(commands, history) && i + 2 + n <= |commands|
    requires history[i].p.Idle? && history[i].c.Still?
    requires commands[i] == TakeSnapshot(src, stamp, partSize) && commands[i + 1] == Publish
    requires history[i + 1].faults == history[i].faults && GoesOn(commands, history, i + 2, n)
    requires !CannotRead(src, partSize) && PublishableSource(src, stamp, partSize) && !TooLarge(src)
    requires Inv(history[i].store) && Inv(history[i + 2 + n].store)
    requires var live := LiveIndex(history[i].store);
             live.Some? && live.value.createdAt == At(stamp) ==>
               IndexOf(live.value, src, history[i].store.rec.token, stamp, partSize)
    ensures var ix, end := history[i + 2].folder.index, history[i + 2 + n];
            && ix.Parsed? && IndexOf(ix.index, src, history[i].store.rec.token, stamp, partSize)
            && (n >= |PartSet(ix.index)| + |ix.index.levels| + 8 ==>
                end.p == Leaving && BytesLive(end.store, src, stamp))
  {
    var m, token := history[i + 2], history[i].store.rec.token;
    SnapshotStaged(commands, history, i, src, stamp, partSize);
    var ix := m.folder.index.index;
    if n >= |PartSet(ix)| + |ix.levels| + 8 {
      TooLongIsTooLarge(ix, src, token, stamp, partSize);
      AllSteps(commands, history, i + 2, n, ix);
      BytesAreLive(history[i + 2 + n], ix, src, token, stamp, partSize);
    }
  }

  lemma AllSteps(commands: seq<Command>, history: seq<Moment>, i: nat, n: nat, ix: Index)
    requires RunOf(commands, history) && i + n <= |commands| && history[i].p == Holding
    requires PublishOf(history[i], ix) && !AnyTooLong(ix)
    requires GoesOn(commands, history, i, n) && n >= |PartSet(ix)| + |ix.levels| + 8
    ensures Ended(history[i + n], ix)
  {
    CarriedOn(commands, history, i, n, ix);
  }

  ghost predicate Ended(m: Moment, ix: Index) {
    m.p == Leaving && LiveIndex(m.store) == Some(ix) && m.store.rec.published
  }

  lemma BytesAreLive(m: Moment, ix: Index, src: Source, token: string, stamp: string, partSize: int)
    requires Inv(m.store) && Ended(m, ix) && IndexOf(ix, src, token, stamp, partSize)
    ensures m.p == Leaving && BytesLive(m.store, src, stamp)
  {
    assert Sound(ix, m.store.rec.token);
    PublishedBytes(m.store, ix, src, stamp, partSize);
  }

  lemma SnapshotStaged(commands: seq<Command>, history: seq<Moment>, i: nat, src: Source, stamp: string, partSize: int)
    requires RunOf(commands, history) && i + 2 <= |commands|
    requires history[i].p.Idle? && history[i].c.Still?
    requires commands[i] == TakeSnapshot(src, stamp, partSize) && commands[i + 1] == Publish
    requires history[i + 1].faults == history[i].faults
    requires !CannotRead(src, partSize) && PublishableSource(src, stamp, partSize)
    requires var live := LiveIndex(history[i].store);
             live.Some? && live.value.createdAt == At(stamp) ==>
               IndexOf(live.value, src, history[i].store.rec.token, stamp, partSize)
    ensures history[i + 2].folder.index.Parsed? && history[i + 2].p == Holding
    ensures IndexOf(history[i + 2].folder.index.index, src, history[i].store.rec.token, stamp, partSize)
    ensures PublishOf(history[i + 2], history[i + 2].folder.index.index)
  {
    assert Leads(commands[i], history[i], history[i + 1]) && Leads(commands[i + 1], history[i + 1], history[i + 2]);
    var live, ix := LiveIndex(history[i].store), history[i + 2].folder.index.index;
    if live.Some? && live.value.createdAt == At(stamp) {
      IndexIsOne(live.value, ix, src, history[i].store.rec.token, stamp, partSize);
    }
  }

  // --- a change carried on to its end ---

  /** A change to this mode: on its way to a token of it, or at one; and when it is over, nothing is
      left to delete and it says that no old link works. */
  ghost predicate ChangeTo(m: Moment, private: bool) {
    match m.c
    case Still => false
    case Begun(p, rotate) => p == private && (rotate ==> private && m.store.rec.token != "")
    case Going(to) => (to != "") == private
    case Moved0(to, _) => (to != "") == private
    case MovingOn(to, ix, _) => (to != "") == private && !AnyTooLong(ix)
    case Committing(to, _) => (to != "") == private
    case Dropping(_, kept, _, works) => (m.store.rec.token != "") == private && kept == [] && !works
    case Over(told) => (m.store.rec.token != "") == private && told == Some(false) && m.store.rec.stale == []
  }

  /** At most how many steps a change has before it. */
  ghost function ChangeLeft(m: Moment): nat {
    var noted := |m.store.rec.stale|;
    match m.c
    case Still => 0
    case Begun(_, _) => (if LiveIndex(m.store).Some? then |LiveIndex(m.store).value.levels| else 0) + noted + 8
    case Going(_) => (if LiveIndex(m.store).Some? then |LiveIndex(m.store).value.levels| else 0) + noted + 7
    case Moved0(_, ix) => |ix.levels| + noted + 6
    case MovingOn(_, ix, done) => (if done < |ix.levels| then |ix.levels| - done else 0) + noted + 5
    case Committing(_, _) => noted + 4
    case Dropping(stale, _, done, _) => (if done < |stale| then |stale| - done else 0) + 1
    case Over(_) => 0
  }

  lemma {:induction false} WithoutIsShorter(stale: seq<string>, t: string)
    ensures |Without(stale, t)| <= |stale|
  {
    if stale != [] { WithoutIsShorter(stale[1..], t); }
  }

  lemma OneChangeOn(m: Moment, n: Moment, random: Option<string>, private: bool)
    requires Leads(ChangeOn(random), m, n) && n.faults == m.faults && random.Some? && IsLinkToken(random.value) &&
              random.value !in m.used
    requires ChangeTo(m, private) && (n.c.MovingOn? ==> !AnyTooLong(n.c.index))
    ensures ChangeTo(n, private) && (n.c.Over? || ChangeLeft(n) < ChangeLeft(m))
  {
    assert Next(m.store, m.c, random) == Some(n.c);
    if m.c.Committing? {
      WithoutIsShorter(m.store.rec.stale + (if m.c.moved then [m.store.rec.token] else []), m.c.to);
    }
  }

  /** A step of a change with nothing failing: a token can be made, and no level is too long to be
      moved. */
  ghost predicate GoesWell(command: Command, h: Moment, h': Moment) {
    && command.ChangeOn? && command.random.Some? && IsLinkToken(command.random.value) && command.random.value !in h.used
    && h'.faults == h.faults
    && (h.c.MovingOn? ==> !AnyTooLong(h.c.index)) && (h'.c.MovingOn? ==> !AnyTooLong(h'.c.index))
  }

  lemma {:induction false} ChangeSteps(commands: seq<Command>, history: seq<Moment>, i: nat, n: nat, private: bool)
    requires RunOf(commands, history) && i + n <= |commands| && ChangeTo(history[i], private)
    requires forall j | i <= j < i + n :: GoesWell(commands[j], history[j], history[j + 1])
    ensures ChangeTo(history[i + n], private)
    ensures history[i + n].c.Over? || ChangeLeft(history[i + n]) + n <= ChangeLeft(history[i])
  {
    if n > 0 {
      ChangeSteps(commands, history, i, n - 1, private);
      var j := i + n - 1;
      assert Leads(commands[j], history[j], history[j + 1]);
      OneChangeOn(history[j], history[j + 1], commands[j].random, private);
    }
  }

  /** A change that is carried on, with nothing failing, ends after as many steps as it may have, in
      the mode it was begun for. */
  lemma ChangeCarriedOn(commands: seq<Command>, history: seq<Moment>, i: nat, n: nat, private: bool)
    requires RunOf(commands, history) && i + n <= |commands| && ChangeTo(history[i], private)
    requires forall j | i <= j < i + n :: GoesWell(commands[j], history[j], history[j + 1])
    ensures ChangeTo(history[i + n], private)
    ensures n >= ChangeLeft(history[i]) || history[i + n].c.Over? ==> ChangeIsOver(history[i + n], private)
  {
    ChangeSteps(commands, history, i, n, private);
    OverMeans(history[i + n], private);
  }

  ghost predicate ChangeIsOver(m: Moment, private: bool) {
    m.c == Over(Some(false)) && m.store.rec.stale == [] && (m.store.rec.token != "") == private
  }

  lemma OverMeans(m: Moment, private: bool)
    requires ChangeTo(m, private)
    ensures ChangeLeft(m) == 0 || m.c.Over? ==> ChangeIsOver(m, private)
  {}

  // --- what the invariant says of a run ---

  /** Whenever the live link changes, the snapshot that was live is live under the new one. */
  lemma LinkChangesKeepSnapshot(trace: seq<State>, i: nat)
    requires AllInv(trace) && LinkSteps(trace) && 0 < i < |trace| && trace[i].rec.token != trace[i - 1].rec.token
    ensures SameSnapshot(LiveIndex(trace[i - 1]), trace[i])
  {
    assert LinkStepAt(trace, i);
    assert Inv(trace[i - 1]) && Inv(trace[i]);
  }

  /** Once something was published, the base the record names leads to a whole snapshot in
      every later state, through every publish, prune, switch and rotation. */
  lemma LiveStaysComplete(trace: seq<State>, i: nat, j: nat)
    requires AllInv(trace) && Sticky(trace) && i <= j < |trace| && trace[i].rec.published
    ensures Complete(trace[j].objs, trace[j].rec.token)
  {
    assert Inv(trace[j]);
  }

  /** Whatever the live latest.json points at, at any moment of any run, is whole: the index,
      the page, every part with the bytes its name promises, and every level's file equal to
      its parts in order. */
  lemma WhateverLatestNames(trace: seq<State>, j: nat)
    requires AllInv(trace) && j < |trace| && Latest(trace[j].rec.token) in trace[j].objs
    ensures var s := trace[j]; var ix := ReadLatest(s.objs, s.rec.token).index; var stamp := ix.createdAt.stamp;
            && ReadLatest(s.objs, s.rec.token) == Found(ix, IndexKey(s.rec.token, stamp))
            && Holds(s.objs, PageKey(s.rec.token, stamp), PageHtml(Render(ix)))
            && (forall d | d in PartSet(ix) :: Holds(s.objs, Part(d), Data(d.of)))
            && (forall i | 0 <= i < |ix.levels| ::
                  && Holds(s.objs, LevelKey(s.rec.token, stamp, ix.levels[i].folder), Data(LevelBytes(ix.levels[i])))
                  && ix.levels[i].whole == Whole(Sha256(LevelBytes(ix.levels[i]))))
  {
    var s := trace[j];
    assert Inv(s);
    var ix := ReadLatest(s.objs, s.rec.token).index;
    forall i | 0 <= i < |ix.levels| ensures HonestLevel(ix.levels[i]) { assert Honest(ix); }
  }
}
