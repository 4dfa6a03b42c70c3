/** The invariant of the snapshot store: what every durable state of one prefix satisfies. */
module Protocol {
  import opened Wrappers
  import opened Keys
  import opened Snapshot
  import opened World

  predicate RecordOk(r: LinkRecord) {
    && ValidToken(r.token) && ValidToken(r.pending)
    && forall t | t in r.stale :: ValidToken(t)
  }

  /** Every private token that was ever live and still answers is the live one or is noted
      for deletion. */
  ghost predicate Revoked(s: State) {
    forall t | t in s.everLive && t != "" && Latest(t) in s.objs :: t == s.rec.token || t in s.rec.stale
  }

  /** Nothing was published yet, or the live base still leads to it. */
  ghost predicate LiveOk(s: State) {
    && (Latest(s.rec.token) in s.objs ==> Complete(s.objs, s.rec.token))
    && (s.rec.published ==> Latest(s.rec.token) in s.objs)
    && (!s.rec.published ==> forall t | t != s.rec.token :: Latest(t) !in s.objs)
  }

  ghost predicate TokensOk(s: State) {
    && s.rec.token in s.everLive && s.everLive <= s.made + {""}
    && (s.rec.pending != "" ==> s.rec.pending in s.made && s.rec.pending !in s.everLive)
  }

  ghost predicate Inv(s: State) {
    RecordOk(s.rec) && PartsHonest(s.objs) && LiveOk(s) && TokensOk(s) && Revoked(s)
  }

  ghost predicate AllInv(trace: seq<State>) { forall i | 0 <= i < |trace| :: Inv(trace[i]) }

  /** A change of the link is safe to start when the prefix is recorded, or nothing was
      published under the live link. */
  predicate MayChange(objs: Objects, rec: LinkRecord) { rec.published || Latest(rec.token) !in objs }

  lemma InitialState()
    ensures Inv(State(map[], LinkRecord("", "", false, []), {}, {""}))
  {
  }

  /** What the live base's latest.json leads to, when there is one. */
  function LiveIndex(s: State): Option<Index> {
    match ReadLatest(s.objs, s.rec.token)
    case Found(ix, _) => Some(ix)
    case _ => None
  }

  /** The invariant survives any change of the bucket that leaves alone what the live base
      needs, keeps parts honest, and adds no latest.json but the live one. */
  lemma InvFrame(s: State, after: Objects)
    requires Inv(s) && PartsHonest(after)
    requires Latest(s.rec.token) in s.objs ==>
               var ix := ReadLatest(s.objs, s.rec.token).index;
               forall k | k in s.objs && Needs(ix, s.rec.token, k) :: Holds(after, k, s.objs[k])
    requires Latest(s.rec.token) !in s.objs ==> Latest(s.rec.token) !in after
    requires forall t | Latest(t) in after :: t == s.rec.token || t !in s.everLive || t == "" || Latest(t) in s.objs
    requires !s.rec.published ==> forall t | Latest(t) in after :: Latest(t) in s.objs
    ensures Inv(s.(objs := after))
    ensures ReadLatest(after, s.rec.token) == ReadLatest(s.objs, s.rec.token)
  {
    if Latest(s.rec.token) in s.objs {
      CompleteFrame(s.objs, after, s.rec.token);
    }
  }

  /** Writing one key that is neither a latest.json nor needed by the live base, or that
      already holds what is written. */
  lemma InvPut(s: State, k: Key, o: Obj)
    requires Inv(s) && !k.Latest?
    requires k.Part? ==> o == Data(k.digest.of)
    requires Latest(s.rec.token) in s.objs && k in s.objs &&
              Needs(ReadLatest(s.objs, s.rec.token).index, s.rec.token, k)
             ==> s.objs[k] == o
    ensures Inv(s.(objs := s.objs[k := o]))
    ensures ReadLatest(s.objs[k := o], s.rec.token) == ReadLatest(s.objs, s.rec.token)
  {
    InvFrame(s, s.objs[k := o]);
  }

  /** Writing the live pointer over a stored snapshot. */
  lemma InvPublish(s: State, ix: Index)
    requires Inv(s) && Sound(ix, s.rec.token) && Stored(s.objs, s.rec.token, ix)
    ensures Inv(s.(objs := s.objs[Latest(s.rec.token) := PointerTo(ix, s.rec.token)]))
    ensures LiveIndex(s.(objs := s.objs[Latest(s.rec.token) := PointerTo(ix, s.rec.token)])) == Some(ix)
  {
    var after := s.objs[Latest(s.rec.token) := PointerTo(ix, s.rec.token)];
    PointerCompletes(after, s.rec.token, ix);
  }

  /** Deleting keys the live base does not need. */
  lemma InvThin(s: State, after: Objects, keys: set<Key>)
    requires Inv(s) && Thinned(s.objs, after, keys)
    requires Latest(s.rec.token) !in keys
    requires Latest(s.rec.token) in s.objs ==>
               forall k | k in keys :: !Needs(ReadLatest(s.objs, s.rec.token).index, s.rec.token, k)
    ensures Inv(s.(objs := after))
    ensures ReadLatest(after, s.rec.token) == ReadLatest(s.objs, s.rec.token)
  {
    InvFrame(s, after);
  }
}
