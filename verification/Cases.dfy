/** Small buckets in which what the store promises elsewhere does not hold: each meets its
    invariant and the condition that the general result names. */
module Cases {
  import opened Wrappers
  import opened Keys
  import opened Snapshot
  import opened World
  import opened Protocol
  import Prune
  import Link

  const PART := Sha256([0])
  const LEVEL := Level("overworld", 1, Whole(PART), [PartRef(PART, 1)])

  /** Two private links. */
  const P: string := "aaaaaaaaaaaaaaaaaaaaaaaaaa"
  const Q: string := "bbbbbbbbbbbbbbbbbbbbbbbbbb"

  function IndexOf(token: string, stamp: string): Index {
    Index(At(stamp), PartsBase(token), "2", "server", [LEVEL])
  }

  /** A snapshot of one level of one part. */
  function Base(token: string, stamp: string): Objects
    requires IsStamp(stamp)
  {
    map[
      Part(PART) := Data([0]),
      IndexKey(token, stamp) := IndexJson(IndexOf(token, stamp)),
      PageKey(token, stamp) := PageHtml(Render(IndexOf(token, stamp))),
      LevelKey(token, stamp, "overworld") := Data([0])
    ]
  }

  function Pointed(objs: Objects, token: string, stamp: string): Objects {
    objs[Latest(token) := PointerTo(IndexOf(token, stamp), token)]
  }

  lemma TheLevel()
    ensures HonestLevel(LEVEL) && PublishableLevel(LEVEL) && LevelBytes(LEVEL) == [0]
    ensures IsLevelFolder(LEVEL.folder) && IsKeyName("server")
  {
    assert PartBytes(LEVEL.parts) == PART.of + PartBytes(LEVEL.parts[1..]);
    assert SizeSum(LEVEL.parts) == 1 + SizeSum(LEVEL.parts[1..]);
  }

  lemma BaseIsComplete(objs: Objects, token: string, stamp: string)
    requires ValidToken(token) && IsStamp(stamp) &&
              (forall k | k in Base(token, stamp) :: Holds(objs, k, Base(token, stamp)[k]))
    requires Holds(objs, Latest(token), PointerTo(IndexOf(token, stamp), token))
    ensures Complete(objs, token) && ReadLatest(objs, token) == Found(IndexOf(token, stamp), IndexKey(token, stamp))
  {
    TheLevel();
    var ix, base := IndexOf(token, stamp), Base(token, stamp);
    assert IndexKey(token, stamp) in base && PageKey(token, stamp) in base &&
      LevelKey(token, stamp, "overworld") in base;
    assert Part(PART) in base;
    assert PartSet(ix) == {PART};
    assert Stored(objs, token, ix);
    PointerCompletes(objs, token, ix);
  }

  // --- a prune that a later one does not finish ---

  /** Three public snapshots, the oldest of them live. */
  function OldestLive(a: string, b: string, c: string): Objects
    requires IsStamp(a) && IsStamp(b) && IsStamp(c)
  {
    Pointed(Base("", a) + Base("", b) + Base("", c), "", a)
  }

  lemma OldestLiveHas(a: string, b: string, c: string, k: Key)
    requires IsStamp(a) && IsStamp(b) && IsStamp(c)
    ensures k in OldestLive(a, b, c) <==> k == Latest("") || k in Base("", a) || k in Base("", b) || k in Base("", c)
    ensures k == Latest("") ==> OldestLive(a, b, c)[k] == PointerTo(IndexOf("", a), "")
  {}

  lemma OldestLiveHolds(a: string, b: string, c: string, s: string)
    requires IsStamp(a) && IsStamp(b) && IsStamp(c) && a != b && b != c && a != c && s in {a, b, c}
    ensures forall k | k in Base("", s) :: Holds(OldestLive(a, b, c), k, Base("", s)[k])
  {
    forall k | k in Base("", s) ensures Holds(OldestLive(a, b, c), k, Base("", s)[k]) {
      OldestLiveHas(a, b, c, k);
      if k in Base("", a) { BasesAgree(a, s, k); }
      if k in Base("", b) { BasesAgree(b, s, k); }
      if k in Base("", c) { BasesAgree(c, s, k); }
    }
  }

  lemma BasesAgree(s: string, t: string, k: Key)
    requires IsStamp(s) && IsStamp(t) && k in Base("", s) && k in Base("", t)
    ensures Base("", s)[k] == Base("", t)[k]
  {}

  lemma OldestLiveParts(a: string, b: string, c: string)
    requires IsStamp(a) && IsStamp(b) && IsStamp(c) && a != b && b != c && a != c
    ensures PartsHonest(OldestLive(a, b, c)) && forall t | t != "" :: Latest(t) !in OldestLive(a, b, c)
  {
    var objs := OldestLive(a, b, c);
    OldestLiveHolds(a, b, c, a);
    assert Part(PART) in Base("", a);
    forall k | k in objs ensures (k.Latest? ==> k.token == "") && (k.Part? ==> k.digest == PART) {
      OldestLiveHas(a, b, c, k);
    }
  }

  lemma OldestLiveStamps(a: string, b: string, c: string)
    requires IsStamp(a) && IsStamp(b) && IsStamp(c)
    ensures Prune.CompleteStamps(OldestLive(a, b, c), "") == {a, b, c}
  {
    forall s ensures s in Prune.CompleteStamps(OldestLive(a, b, c), "") <==> s in {a, b, c} {
      Prune.CompleteIff(OldestLive(a, b, c), "", s);
      OldestLiveHas(a, b, c, IndexKey("", s));
    }
  }

  lemma OldestLiveIs(a: string, b: string, c: string)
    requires IsStamp(a) && IsStamp(b) && IsStamp(c) && a != b && b != c && a != c
    ensures var objs := OldestLive(a, b, c);
            && PartsHonest(objs) && Complete(objs, "") && (forall t | t != "" :: Latest(t) !in objs)
            && Prune.CompleteStamps(objs, "") == {a, b, c}
            && ReadLatest(objs, "") == Found(IndexOf("", a), IndexKey("", a))
  {
    var objs := OldestLive(a, b, c);
    OldestLiveHas(a, b, c, Latest(""));
    OldestLiveHolds(a, b, c, a);
    OldestLiveParts(a, b, c);
    OldestLiveStamps(a, b, c);
    BaseIsComplete(objs, "", a);
  }

  /** The plan of a prune that keeps one: the newest, and the one that is live. */
  function KeepOne(a: string, c: string): Prune.PrunePlan {
    Prune.PrunePlan({c}, {c, a}, IndexKey("", a), {PART})
  }

  lemma InOrder(a: string, b: string, c: string)
    requires Prune.Less(a, b) && Prune.Less(b, c)
    ensures a != b && b != c && a != c && !Prune.Less(b, a) && Prune.Less(a, c)
  {
    Prune.LessTransitive(a, b, c);
    Prune.LessTotal(a, b);
    Prune.LessTotal(b, c);
    Prune.LessTotal(a, c);
  }

  lemma TheIndexes(a: string, b: string, c: string)
    requires IsStamp(a) && IsStamp(b) && IsStamp(c) && a != b && b != c && a != c
    ensures Holds(OldestLive(a, b, c), IndexKey("", a), IndexJson(IndexOf("", a)))
    ensures Holds(OldestLive(a, b, c), IndexKey("", c), IndexJson(IndexOf("", c)))
  {
    OldestLiveHolds(a, b, c, a);
    OldestLiveHolds(a, b, c, c);
    assert IndexKey("", a) in Base("", a) && IndexKey("", c) in Base("", c);
  }

  lemma OnePart(objs: Objects, k: Key, m: Key, s: string, t: string)
    requires Holds(objs, k, IndexJson(IndexOf("", s))) && Holds(objs, m, IndexJson(IndexOf("", t)))
    ensures Prune.AllIndexes(objs, {k, m}) && Prune.PartsOf(objs, {k, m}) == {PART}
  {
    assert PartSet(IndexOf("", s)) == {PART} == PartSet(IndexOf("", t));
  }

  lemma KeepOneDecides(a: string, b: string, c: string)
    requires IsStamp(a) && IsStamp(b) && IsStamp(c) && Prune.Less(a, b) && Prune.Less(b, c)
    requires a != b && b != c && a != c
    ensures Prune.Decides(OldestLive(a, b, c), "", 1, KeepOne(a, c))
  {
    InOrder(a, b, c);
    var objs, plan := OldestLive(a, b, c), KeepOne(a, c);
    OldestLiveIs(a, b, c);
    TheIndexes(a, b, c);
    Prune.StampOfIndex("", a);
    NewestIs(a, b, c);
    OnePart(objs, IndexKey("", a), IndexKey("", c), a, c);
    TheDeciding(objs, a, b, c);
  }

  lemma TheDeciding(objs: Objects, a: string, b: string, c: string)
    requires Prune.CompleteStamps(objs, "") == {a, b, c}
    ensures Prune.DecidingIndexes(objs, "", {c, a}, IndexKey("", a)) == {IndexKey("", a), IndexKey("", c)}
  {}

  lemma NewestIs(a: string, b: string, c: string)
    requires Prune.Less(a, c) && Prune.Less(b, c) && a != b && b != c && a != c
    ensures Prune.IsNewest({c}, {a, b, c}, 1)
  {
    assert |{a, b, c}| == 3;
  }

  lemma MiddleIsStranded(a: string, b: string, c: string)
    requires IsStamp(a) && IsStamp(b) && IsStamp(c) && a != b && b != c && a != c && !Prune.Less(b, a)
    ensures var objs, plan := OldestLive(a, b, c), KeepOne(a, c);
            && b in Prune.CompleteStamps(objs, "") && b !in plan.kept
            && !Prune.BelowAll(b, plan.kept) && !Prune.FolderIsIndex(objs, "", b)
  {
    var objs, plan := OldestLive(a, b, c), KeepOne(a, c);
    OldestLiveIs(a, b, c);
    OldestLiveHolds(a, b, c, b);
    assert PageKey("", b) in Base("", b);
    assert Prune.StampOf("", PageKey("", b)) == Some(b) && PageKey("", b) != IndexKey("", b);
    assert a in plan.kept;
  }

  lemma LatestStays(objs: Objects, a: string, c: string)
    requires IsStamp(a)
    ensures Prune.LatestIsSafe(objs, "", KeepOne(a, c))
  {
    Prune.StampOfIndex("", a);
  }

  lemma OldestLiveInv(a: string, b: string, c: string)
    requires IsStamp(a) && IsStamp(b) && IsStamp(c) && a != b && b != c && a != c
    ensures Inv(State(OldestLive(a, b, c), LinkRecord("", "", true, []), {}, {""}))
  {
    OldestLiveIs(a, b, c);
  }

  /** With any three snapshots of which the oldest is live, a prune that keeps one and stops on the
      way may leave what the next one does not take away. */
  lemma StrandedForAnyThree(a: string, b: string, c: string)
    requires IsStamp(a) && IsStamp(b) && IsStamp(c) && Prune.Less(a, b) && Prune.Less(b, c)
    ensures var objs := OldestLive(a, b, c);
            && Inv(State(objs, LinkRecord("", "", true, []), {}, {""}))
            && Prune.Decides(objs, "", 1, KeepOne(a, c)) && Prune.LatestIsSafe(objs, "", KeepOne(a, c))
            && !Prune.Converges(objs, "", 1, KeepOne(a, c))
  {
    InOrder(a, b, c);
    KeepOneDecides(a, b, c);
    OldestLiveInv(a, b, c);
    LatestStays(OldestLive(a, b, c), a, c);
    MiddleIsStranded(a, b, c);
    Prune.Stranded(OldestLive(a, b, c), "", 1, KeepOne(a, c), b);
  }

  lemma LessAt(a: string, b: string, i: nat)
    requires i < |a| && i < |b| && a[i] < b[i] && forall j | 0 <= j < i :: a[j] == b[j]
    ensures Prune.Less(a, b)
  {
    if i > 0 {
      assert forall j | 0 <= j < i - 1 :: a[1..][j] == a[j + 1] && b[1..][j] == b[j + 1];
      LessAt(a[1..], b[1..], i - 1);
    }
  }

  /** Midnight of a day in January 2026. */
  function Day(d: char): (stamp: string)
    requires IsDigit(d)
    ensures IsStamp(stamp)
  {
    seq(16, i => if i == 7 then d else if i == 8 then 'T' else if i == 15 then 'Z'
                 else if i == 0 || i == 2 then '2' else if i == 3 then '6' else if i == 5 then '1' else '0')
  }

  lemma StrandedCase()
    ensures var objs := OldestLive(Day('1'), Day('2'), Day('3'));
            && Inv(State(objs, LinkRecord("", "", true, []), {}, {""}))
            && Prune.Decides(objs, "", 1, KeepOne(Day('1'), Day('3')))
            && Prune.LatestIsSafe(objs, "", KeepOne(Day('1'), Day('3')))
            && !Prune.Converges(objs, "", 1, KeepOne(Day('1'), Day('3')))
  {
    LessAt(Day('1'), Day('2'), 7);
    LessAt(Day('2'), Day('3'), 7);
    StrandedForAnyThree(Day('1'), Day('2'), Day('3'));
  }

  // --- changes of the link that leave a base behind ---

  /** A private base whose publishing was not recorded: the change moves nothing, and the link just
      left still answers while no list holds it. */
  lemma CommitUnmovedCase(stamp: string)
    requires IsStamp(stamp)
    ensures var s := State(Pointed(Base(P, stamp), P, stamp), LinkRecord(P, "", false, []), {P}, {"", P});
            && Inv(s) && Link.MayGoTo(s, "")
            && var after := Link.CommittedState(s, "", false);
               && Complete(after.objs, P) && P in after.everLive && P != after.rec.token && P !in after.rec.stale
               && !Inv(after) && !Revoked(after)
  {
    var s := State(Pointed(Base(P, stamp), P, stamp), LinkRecord(P, "", false, []), {P}, {"", P});
    BaseIsComplete(s.objs, P, stamp);
    Link.CommitUnmovedIff(s, "");
  }

  /** The same snapshot under the public layout and both private links. */
  function Thrice(stamp: string): Objects
    requires IsStamp(stamp)
  {
    Pointed(Base("", stamp), "", stamp) + Pointed(Base(P, stamp), P, stamp) + Pointed(Base(Q, stamp), Q, stamp)
  }

  lemma ThriceComplete(stamp: string, token: string)
    requires IsStamp(stamp) && token in {"", P, Q}
    ensures Complete(Thrice(stamp), token)
  {
    TheTokens();
    forall k | k in Base(token, stamp) ensures Holds(Thrice(stamp), k, Base(token, stamp)[k]) {
      ThriceHas(stamp, token, k);
    }
    ThriceHas(stamp, token, Latest(token));
    BaseIsComplete(Thrice(stamp), token, stamp);
  }

  lemma ThriceHas(stamp: string, token: string, k: Key)
    requires IsStamp(stamp) && token in {"", P, Q} && k in Pointed(Base(token, stamp), token, stamp)
    ensures Holds(Thrice(stamp), k, Pointed(Base(token, stamp), token, stamp)[k])
  {
    var o := Pointed(Base(token, stamp), token, stamp)[k];
    SameWhereBoth(stamp, token, "", k);
    SameWhereBoth(stamp, token, P, k);
    SameWhereBoth(stamp, token, Q, k);
    AnyOfThree(Pointed(Base("", stamp), "", stamp), Pointed(Base(P, stamp), P, stamp),
               Pointed(Base(Q, stamp), Q, stamp), k, o);
  }

  lemma SameWhereBoth(stamp: string, t: string, u: string, k: Key)
    requires IsStamp(stamp) && k in Pointed(Base(t, stamp), t, stamp)
    ensures k in Pointed(Base(u, stamp), u, stamp) ==>
              Pointed(Base(u, stamp), u, stamp)[k] == Pointed(Base(t, stamp), t, stamp)[k]
  {}

  lemma AnyOfThree(a: Objects, b: Objects, c: Objects, k: Key, o: Obj)
    requires k in a || k in b || k in c
    requires (k in a ==> a[k] == o) && (k in b ==> b[k] == o) && (k in c ==> c[k] == o)
    ensures Holds(a + b + c, k, o)
  {}

  lemma TheTokens()
    ensures P != Q && P != "" && Q != "" && IsLinkToken(P) && IsLinkToken(Q)
  {
    assert P[0] != Q[0];
  }

  lemma PointedOnly(stamp: string, t: string, k: Key)
    requires IsStamp(stamp) && k in Pointed(Base(t, stamp), t, stamp)
    ensures k.Latest? ==> k.token == t
    ensures k.Part? ==> k.digest == PART
  {}

  lemma ThriceOnly(stamp: string)
    requires IsStamp(stamp)
    ensures PartsHonest(Thrice(stamp)) && forall t | Latest(t) in Thrice(stamp) :: t in {"", P, Q}
  {
    var a, b, c := Pointed(Base("", stamp), "", stamp), Pointed(Base(P, stamp), P, stamp),
      Pointed(Base(Q, stamp), Q, stamp);
    forall k | k in Thrice(stamp) ensures (k.Latest? ==> k.token in {"", P, Q}) && (k.Part? ==> k.digest == PART) {
      if k in a { PointedOnly(stamp, "", k); }
      if k in b { PointedOnly(stamp, P, k); }
      if k in c { PointedOnly(stamp, Q, k); }
    }
    ThriceHas(stamp, "", Part(PART));
  }

  /** A move to P that was cut off once its latest.json was up, then a change from Q to the public
      layout: P answers, and the record has forgotten it. */
  lemma ForgottenPendingCase(stamp: string)
    requires IsStamp(stamp)
    ensures var s := State(Thrice(stamp), LinkRecord(Q, P, true, []), {P, Q}, {"", Q});
            && Inv(s) && Link.MayGoTo(s, "") && Complete(s.objs, "")
            && var after := Link.CommittedState(s, "", true);
               && Inv(after) && Complete(after.objs, P)
               && P != after.rec.token && P != after.rec.pending && P !in after.rec.stale
  {
    var s := State(Thrice(stamp), LinkRecord(Q, P, true, []), {P, Q}, {"", Q});
    ThriceOnly(stamp);
    ThriceComplete(stamp, "");
    ThriceComplete(stamp, P);
    ThriceComplete(stamp, Q);
    TheTokens();
    TokensAre(s);
    Link.CommitMoved(s, "");
  }

  lemma TokensAre(s: State)
    requires s.rec == LinkRecord(Q, P, true, []) && s.made == {P, Q} && s.everLive == {"", Q}
    ensures RecordOk(s.rec) && TokensOk(s)
  {
    TheTokens();
  }
}
