/** The desktop's say over a remote call: asks that wait, answers, timeouts and withdrawals,
    in any interleaving of the steps each of them takes. */
module Approvals {
  const MAX_APPROVALS := 4

  /** A fresh random id, as a number. */
  type Id = nat

  datatype Outcome = Allowed | Denied | TimedOut | Canceled

  datatype AskReply = Busy | Full | Waits

  /** What a device asks for. The arguments are kept as it sent them, for the prompt alone. */
  datatype Request = Request(device: nat, called: string, reason: string, args: seq<string>)

  /** A call that waits, and since when. */
  datatype Entry = Entry(device: nat, called: string, reason: string, args: seq<string>, requested: int)

  function EntryOf(request: Request, now: int): Entry {
    Entry(request.device, request.called, request.reason, request.args, now)
  }

  /** Where an ask is: in its select, past it and about to tidy up, or returned. */
  datatype Phase = Waiting | Woken(outcome: Outcome) | Returned(outcome: Outcome)

  /** The answer the desktop was told had been taken. */
  datatype Said = Nothing | Said(allow: bool)

  /** The history of one ask: where it is, what was answered, and whether that answer is
      still on its way to the channel. */
  datatype Ask = Ask(phase: Phase, said: Said, sending: bool)

  /** At most one call for each device and four in all wait. */
  ghost predicate Prompts(pending: map<Id, Entry>) {
    && |pending| <= 4
    && forall a, b | a in pending && b in pending && a != b :: pending[a].device != pending[b].device
  }

  /** `delete(pending, id)`. */
  function Removed(pending: map<Id, Entry>, id: Id): (rest: map<Id, Entry>)
    ensures forall p :: p in rest <==> p in pending && p != id
    ensures forall p | p in rest :: rest[p] == pending[p]
    ensures Prompts(pending) ==> Prompts(rest)
  {
    var rest := pending - {id};
    assert pending.Keys == rest.Keys + (if id in pending then {id} else {});
    assert |pending| == |pending.Keys| && |rest| == |rest.Keys|;
    rest
  }

  /** How one ask stands. While it waits it can still be answered or has been. An answer
      travels once: until it is sent the slot is free, and what is in the slot is what was
      accepted for that id. Only the answer accepted for its own id allows or denies it. */
  ghost predicate AskOk(ask: Ask, waits: bool, slot: seq<bool>) {
    && (waits ==> ask.said.Nothing? && !ask.phase.Returned?)
    && (ask.phase.Waiting? ==> waits || ask.said.Said?)
    && (ask.sending ==> ask.said.Said? && slot == [])
    && (slot != [] ==> ask.said.Said? && slot == [ask.said.allow])
    && (!ask.phase.Waiting? && ask.phase.outcome == Allowed ==> ask.said == Said(true))
    && (!ask.phase.Waiting? && ask.phase.outcome == Denied ==> ask.said == Said(false))
  }

  ghost predicate Standing(pending: map<Id, Entry>, channels: map<Id, seq<bool>>, asks: map<Id, Ask>) {
    && (forall id | id in pending :: id in asks)
    && (forall id :: id in channels <==> id in asks)
    && (forall id | id in asks :: AskOk(asks[id], id in pending, channels[id]))
  }

  /** One ask moves on and the others stand as they did. */
  lemma OneMoves(pending: map<Id, Entry>, channels: map<Id, seq<bool>>, asks: map<Id, Ask>, id: Id, waits: bool,
                 slot: seq<bool>, ask: Ask)
    requires Standing(pending, channels, asks) && id in asks && AskOk(ask, waits, slot) && (waits <==> id in pending)
    ensures Standing(pending, channels[id := slot], asks[id := ask])
  {}

  lemma OneLeaves(pending: map<Id, Entry>, channels: map<Id, seq<bool>>, asks: map<Id, Ask>, id: Id, ask: Ask)
    requires Standing(pending, channels, asks) && id in asks && AskOk(ask, false, channels[id])
    ensures Standing(Removed(pending, id), channels, asks[id := ask])
  {}

  /** One state, with the history of every ask. */
  datatype State = State(pending: map<Id, Entry>, channels: map<Id, seq<bool>>, asks: map<Id, Ask>)

  /** At most one call for each device and four in all wait, an ask that returned left nothing
      pending, and one that returned as allowed has its own yes. */
  ghost predicate StateOk(s: State) {
    && Prompts(s.pending) && Standing(s.pending, s.channels, s.asks)
    && (forall id | id in s.asks && s.asks[id].phase.Returned? :: id !in s.pending)
    && (forall id | id in s.asks && s.asks[id].phase == Returned(Allowed) :: s.asks[id].said == Said(true))
  }

  // --- the steps ---

  datatype Action =
    | Begin(id: Id, request: Request, now: int)
    | Take(id: Id, allow: bool)
    | Send(id: Id)
    | Receive(id: Id)
    | GiveUp(id: Id, canceled: bool)
    | End(id: Id)

  /** An action whose turn it can be. */
  ghost predicate Enabled(s: State, action: Action) {
    match action
    case Begin(id, request, _) =>
      && id !in s.asks && |s.pending| < MAX_APPROVALS
      && forall p | p in s.pending :: s.pending[p].device != request.device
    case Take(id, _) => id in s.asks && id in s.pending
    case Send(id) => id in s.asks && s.asks[id].sending && s.asks[id].said.Said?
    case Receive(id) => id in s.asks && s.asks[id].phase.Waiting? && id in s.channels && s.channels[id] != []
    case GiveUp(id, _) => id in s.asks && s.asks[id].phase.Waiting?
    case End(id) => id in s.asks && s.asks[id].phase.Woken?
  }

  /** How the ask stands after an action about it. */
  ghost function AskAfter(s: State, action: Action): Ask
    requires Enabled(s, action)
  {
    match action
    case Begin(_, _, _) => Ask(Waiting, Nothing, false)
    case Take(id, allow) => Ask(s.asks[id].phase, Said(allow), true)
    case Send(id) => s.asks[id].(sending := false)
    case Receive(id) => s.asks[id].(phase := Woken(if s.channels[id][0] then Allowed else Denied))
    case GiveUp(id, canceled) => s.asks[id].(phase := Woken(if canceled then Canceled else TimedOut))
    case End(id) => s.asks[id].(phase := Returned(s.asks[id].phase.outcome))
  }

  /** The state an action leads to. */
  ghost function After(s: State, action: Action): State
    requires Enabled(s, action)
  {
    var asks := s.asks[action.id := AskAfter(s, action)];
    match action
    case Begin(id, request, now) => State(s.pending[id := EntryOf(request, now)], s.channels[id := []], asks)
    case Take(id, _) => State(Removed(s.pending, id), s.channels, asks)
    case Send(id) => State(s.pending, s.channels[id := [s.asks[id].said.allow]], asks)
    case Receive(id) => State(s.pending, s.channels[id := []], asks)
    case GiveUp(_, _) => State(s.pending, s.channels, asks)
    case End(id) => State(Removed(s.pending, id), s.channels, asks)
  }

  ghost function Added(s: State, action: Action): seq<State> {
    if Enabled(s, action) then [After(s, action)] else []
  }

  /** The states some actions lead to, from the first: one more for each that is enabled when its
      turn comes. */
  ghost function States(actions: seq<Action>): (states: seq<State>)
    ensures states != []
  {
    if actions == [] then [State(map[], map[], map[])]
    else
      var n, before := |actions| - 1, States(actions[..|actions| - 1]);
      before + Added(before[|before| - 1], actions[n])
  }

  lemma AfterOk(s: State, action: Action)
    requires Prompts(s.pending) && Standing(s.pending, s.channels, s.asks) && Enabled(s, action)
    ensures var t := After(s, action); Prompts(t.pending) && Standing(t.pending, t.channels, t.asks)
  {
    if action.Begin? {
      OneBegins(s, action);
    } else {
      var id, ask := action.id, AskAfter(s, action);
      assert AskOk(s.asks[id], id in s.pending, s.channels[id]);
      if action.Take? || action.End? {
        OneLeaves(s.pending, s.channels, s.asks, id, ask);
      } else if action.GiveUp? {
        OneMoves(s.pending, s.channels, s.asks, id, id in s.pending, s.channels[id], ask);
        assert s.channels[id := s.channels[id]] == s.channels;
      } else {
        var slot := After(s, action).channels[id];
        OneMoves(s.pending, s.channels, s.asks, id, id in s.pending, slot, ask);
      }
    }
  }

  lemma OneBegins(s: State, action: Action)
    requires Prompts(s.pending) && Standing(s.pending, s.channels, s.asks) && action.Begin? && Enabled(s, action)
    ensures var t := After(s, action); Prompts(t.pending) && Standing(t.pending, t.channels, t.asks)
  {
    OneMorePrompt(s.pending, action.id, EntryOf(action.request, action.now));
    OneMoreStands(s.pending, s.channels, s.asks, action.id, EntryOf(action.request, action.now));
  }

  lemma OneMorePrompt(pending: map<Id, Entry>, id: Id, entry: Entry)
    requires Prompts(pending) && |pending| < MAX_APPROVALS && id !in pending
    requires forall p | p in pending :: pending[p].device != entry.device
    ensures Prompts(pending[id := entry])
  {
    assert pending[id := entry].Keys == pending.Keys + {id};
    assert |pending[id := entry]| == |pending| + 1;
  }

  lemma OneMoreStands(pending: map<Id, Entry>, channels: map<Id, seq<bool>>, asks: map<Id, Ask>, id: Id, entry: Entry)
    requires Standing(pending, channels, asks) && id !in asks
    ensures Standing(pending[id := entry], channels[id := []], asks[id := Ask(Waiting, Nothing, false)])
  {
    assert AskOk(Ask(Waiting, Nothing, false), true, []);
  }

  /** `pending` is the map under the mutex, `channels` the one-slot answer channel of every ask so
      far and `asks` where each of them is; `trace` is every state so far. */
  class RemoteApprovals {
    var pending: map<Id, Entry>
    var channels: map<Id, seq<bool>>
    var asks: map<Id, Ask>
    ghost var trace: seq<State>

    ghost function Now(): State reads this { State(pending, channels, asks) }

    ghost predicate Valid()
      reads this
    {
      Prompts(pending) && Standing(pending, channels, asks) && trace != [] && trace[|trace| - 1] == Now()
    }

    constructor ()
      ensures Valid() && pending == map[] && channels == map[] && asks == map[] && trace == [Now()]
    {
      pending, channels, asks := map[], map[], map[];
      trace := [State(map[], map[], map[])];
    }

    /** Ask up to its select, under the mutex. A second call from a device and a fifth call in
        all are turned away. */
    method AskBegin(id: Id, request: Request, now: int) returns (r: AskReply)
      requires Valid() && id !in asks
      modifies this
      ensures Valid()
      ensures r.Busy? <==> exists p :: p in old(pending) && old(pending)[p].device == request.device
      ensures r.Full? <==> !r.Busy? && |old(pending)| >= 4
      ensures r.Waits? ==> pending == old(pending)[id := EntryOf(request, now)] && channels == old(channels)[id := []]
      ensures r.Waits? ==> asks == old(asks)[id := Ask(Waiting, Nothing, false)]
      ensures r.Waits? ==> pending[id].device == request.device && pending[id].called == request.called
      ensures r.Waits? ==> pending[id].reason == request.reason && pending[id].args == request.args
      ensures r.Waits? ==> pending[id].requested == now
      ensures !r.Waits? ==> Now() == old(Now())
      ensures trace == old(trace) + Added(old(Now()), Begin(id, request, now))
    {
      if exists p :: p in pending && pending[p].device == request.device { return Busy; }
      if |pending| >= MAX_APPROVALS { return Full; }
      AfterOk(Now(), Begin(id, request, now));
      pending := pending[id := EntryOf(request, now)];
      channels := channels[id := []];
      asks := asks[id := Ask(Waiting, Nothing, false)];
      trace := trace + [Now()];
      r := Waits;
    }

    /** Answer under the mutex: the id leaves the map, so a second answer to it finds nothing. */
    method AnswerTake(id: Id, allow: bool) returns (found: bool)
      requires Valid()
      modifies this
      ensures Valid() && channels == old(channels) && found == (id in old(pending))
      ensures found ==> id in old(asks) && old(asks)[id].said.Nothing? && pending == Removed(old(pending), id)
      ensures found ==> asks == old(asks)[id := Ask(old(asks)[id].phase, Said(allow), true)]
      ensures !found ==> Now() == old(Now())
      ensures trace == old(trace) + Added(old(Now()), Take(id, allow))
    {
      found := id in pending;
      if !found { return; }
      assert AskOk(asks[id], true, channels[id]);
      AfterOk(Now(), Take(id, allow));
      pending := Removed(pending, id);
      asks := asks[id := Ask(asks[id].phase, Said(allow), true)];
      trace := trace + [Now()];
    }

    /** Answer's send, after the mutex is released. The slot is always free, so the desktop
        never waits on a caller that has given up. */
    method AnswerSend(id: Id, allow: bool)
      requires Valid() && id in asks && asks[id].sending && asks[id].said == Said(allow)
      modifies this
      ensures Valid() && pending == old(pending)
      ensures old(channels)[id] == [] && channels == old(channels)[id := [allow]]
      ensures asks == old(asks)[id := old(asks)[id].(sending := false)]
      ensures trace == old(trace) + Added(old(Now()), Send(id))
    {
      assert AskOk(asks[id], id in pending, channels[id]);
      AfterOk(Now(), Send(id));
      assert channels[id] + [allow] == [allow];
      channels := channels[id := channels[id] + [allow]];
      asks := asks[id := asks[id].(sending := false)];
      trace := trace + [Now()];
    }

    /** Ask's select takes the answer. */
    method AskReceives(id: Id) returns (outcome: Outcome)
      requires Valid() && id in asks && asks[id].phase.Waiting? && channels[id] != []
      modifies this
      ensures Valid() && pending == old(pending) && channels == old(channels)[id := []]
      ensures asks == old(asks)[id := old(asks)[id].(phase := Woken(outcome))]
      ensures asks[id].said == Said(outcome == Allowed) && (outcome == Allowed || outcome == Denied)
      ensures trace == old(trace) + Added(old(Now()), Receive(id))
    {
      outcome := if channels[id][0] then Allowed else Denied;
      assert AskOk(asks[id], id in pending, channels[id]);
      AfterOk(Now(), Receive(id));
      channels := channels[id := []];
      asks := asks[id := asks[id].(phase := Woken(outcome))];
      trace := trace + [Now()];
    }

    /** Ask's select ends by the timer or by the caller's context, whether or not an answer
        has come. */
    method AskGivesUp(id: Id, canceled: bool) returns (outcome: Outcome)
      requires Valid() && id in asks && asks[id].phase.Waiting?
      modifies this
      ensures Valid() && pending == old(pending) && channels == old(channels)
      ensures outcome == if canceled then Canceled else TimedOut
      ensures asks == old(asks)[id := old(asks)[id].(phase := Woken(outcome))]
      ensures trace == old(trace) + Added(old(Now()), GiveUp(id, canceled))
    {
      outcome := if canceled then Canceled else TimedOut;
      AfterOk(Now(), GiveUp(id, canceled));
      asks := asks[id := asks[id].(phase := Woken(outcome))];
      trace := trace + [Now()];
    }

    /** Ask after its select: nothing of it stays pending, and it reports success only when
        the desktop said yes to this very call. */
    method AskEnd(id: Id, outcome: Outcome)
      requires Valid() && id in asks && asks[id].phase == Woken(outcome)
      modifies this
      ensures Valid() && pending == Removed(old(pending), id) && channels == old(channels)
      ensures outcome == Allowed ==> asks[id].said == Said(true)
      ensures outcome == Denied ==> asks[id].said == Said(false)
      ensures asks == old(asks)[id := old(asks)[id].(phase := Returned(outcome))]
      ensures trace == old(trace) + Added(old(Now()), End(id))
    {
      assert AskOk(asks[id], id in pending, channels[id]);
      AfterOk(Now(), End(id));
      pending := Removed(pending, id);
      asks := asks[id := asks[id].(phase := Returned(outcome))];
      trace := trace + [Now()];
    }
  }

  // --- every interleaving ---

  /** An answer once accepted stays the answer, an ask past its select ends as that ended, and one
      that returned stays as it returned. */
  ghost predicate GoesOn(before: Ask, after: Ask) {
    && (before.said.Said? ==> after.said == before.said)
    && (before.phase.Returned? ==> after.phase == before.phase)
    && (before.phase.Woken? ==> after.phase == before.phase || after.phase == Returned(before.phase.outcome))
  }

  ghost predicate Later(before: map<Id, Ask>, after: map<Id, Ask>) {
    forall id | id in before :: id in after && GoesOn(before[id], after[id])
  }

  /** Any steps of any asks and answers, in any order, each taken when it is enabled: the states are
      those the actions lead to, every one of them keeps the promises, and none takes back what an
      earlier one had. Ids are fresh, as newRemoteID makes them. */
  method AnyInterleaving(actions: seq<Action>) returns (a: RemoteApprovals)
    ensures a.Valid() && a.trace == States(actions) && AllOk(a.trace)
  {
    a := new RemoteApprovals();
    StartOk();
    assert actions[..0] == [];
    for k := 0 to |actions|
      invariant fresh(a) && a.Valid() && a.trace == States(actions[..k]) && AllOk(a.trace)
    {
      StatesNext(actions, k);
      NextOk(a.trace, actions[k]);
      Act(a, actions[k]);
    }
    assert actions[..|actions|] == actions;
  }

  /** Every state keeps the promises, and none takes back what an earlier one had. */
  ghost predicate AllOk(trace: seq<State>) {
    && (forall i | 0 <= i < |trace| :: StateOk(trace[i]))
    && (forall i, j | 0 <= i <= j < |trace| :: Later(trace[i].asks, trace[j].asks))
  }

  lemma StartOk()
    ensures AllOk([State(map[], map[], map[])])
  {}

  lemma StatesNext(actions: seq<Action>, k: nat)
    requires k < |actions|
    ensures var before := States(actions[..k]);
            States(actions[..k + 1]) == before + Added(before[|before| - 1], actions[k])
  {
    assert actions[..k + 1][..k] == actions[..k];
  }

  lemma NextOk(trace: seq<State>, action: Action)
    requires trace != [] && AllOk(trace)
    ensures AllOk(trace + Added(trace[|trace| - 1], action))
  {
    var s := trace[|trace| - 1];
    if Enabled(s, action) {
      AfterOk(s, action);
      AfterIsOk(After(s, action));
      AfterIsLater(s, action);
      OneMoreOk(trace, After(s, action));
    } else {
      assert trace + [] == trace;
    }
  }

  lemma OneMoreOk(trace: seq<State>, t: State)
    requires trace != [] && AllOk(trace) && StateOk(t) && Later(trace[|trace| - 1].asks, t.asks)
    ensures AllOk(trace + [t])
  {
    forall i | 0 <= i < |trace| ensures Later(trace[i].asks, t.asks) {
      LaterStill(trace[i].asks, trace[|trace| - 1].asks, t.asks);
    }
    assert Later(t.asks, t.asks);
  }

  lemma AfterIsOk(t: State)
    requires Prompts(t.pending) && Standing(t.pending, t.channels, t.asks)
    ensures StateOk(t)
  {
    forall id | id in t.asks && t.asks[id].phase.Returned? ensures id !in t.pending {
      assert AskOk(t.asks[id], id in t.pending, t.channels[id]);
    }
    forall id | id in t.asks && t.asks[id].phase == Returned(Allowed) ensures t.asks[id].said == Said(true) {
      assert AskOk(t.asks[id], id in t.pending, t.channels[id]);
    }
  }

  lemma AfterIsLater(s: State, action: Action)
    requires StateOk(s) && Enabled(s, action)
    ensures Later(s.asks, After(s, action).asks)
  {
    if !action.Begin? {
      assert AskOk(s.asks[action.id], action.id in s.pending, s.channels[action.id]);
      assert GoesOn(s.asks[action.id], AskAfter(s, action));
    }
    OneGoesOn(s.asks, action.id, AskAfter(s, action));
  }

  lemma OneGoesOn(asks: map<Id, Ask>, id: Id, ask: Ask)
    requires id in asks ==> GoesOn(asks[id], ask)
    ensures Later(asks, asks[id := ask])
  {}

  lemma LaterStill(x: map<Id, Ask>, y: map<Id, Ask>, z: map<Id, Ask>)
    requires Later(x, y) && Later(y, z)
    ensures Later(x, z)
  {}

  /** One step, when it is enabled. */
  method Act(a: RemoteApprovals, action: Action)
    requires a.Valid()
    modifies a
    ensures a.Valid() && a.trace == old(a.trace) + Added(old(a.Now()), action)
  {
    match action {
      case Begin(id, request, now) =>
        if id !in a.asks { var r := a.AskBegin(id, request, now); }
      case Take(id, allow) =>
        var found := a.AnswerTake(id, allow);
      case Send(id) =>
        if id in a.asks && a.asks[id].sending && a.asks[id].said.Said? { a.AnswerSend(id, a.asks[id].said.allow); }
      case _ => ActOnSelect(a, action);
    }
  }

  /** The steps of a select and after it. */
  method ActOnSelect(a: RemoteApprovals, action: Action)
    requires a.Valid() && (action.Receive? || action.GiveUp? || action.End?)
    modifies a
    ensures a.Valid() && a.trace == old(a.trace) + Added(old(a.Now()), action)
  {
    var id := action.id;
    if id !in a.asks { return; }
    match action {
      case Receive(_) =>
        if a.asks[id].phase.Waiting? && a.channels[id] != [] { var outcome := a.AskReceives(id); }
      case GiveUp(_, canceled) =>
        if a.asks[id].phase.Waiting? { var outcome := a.AskGivesUp(id, canceled); }
      case End(_) =>
        if a.asks[id].phase.Woken? { a.AskEnd(id, a.asks[id].phase.outcome); }
    }
  }

  // --- what becomes of an answer ---

  /** One call, one answer has one gap, open to every waiting ask: an answer the desktop was
      told had been taken is dropped when the timer ends the select before Ask tidies up. */
  method AnAcceptedYesMayTimeOut(a: RemoteApprovals, id: Id)
    requires a.Valid() && id in a.pending && a.asks[id].phase.Waiting?
    modifies a
    ensures a.Valid() && id in a.asks && a.asks[id] == Ask(Returned(TimedOut), Said(true), false)
  {
    var outcome := a.AskGivesUp(id, false);
    var found := a.AnswerTake(id, true);
    assert found;
    a.AnswerSend(id, true);
    a.AskEnd(id, outcome);
  }

  /** Once the select has ended without it, no answer is heeded, though the id is still found: however
      the run goes on, the ask ends as timed out or canceled. */
  lemma TooLateToAnswer(before: State, after: State, id: Id)
    requires StateOk(before) && id in before.pending && before.asks[id].phase.Woken? && Later(before.asks, after.asks)
    ensures id in after.asks && (after.asks[id].phase.Woken? || after.asks[id].phase.Returned?)
    ensures after.asks[id].phase.outcome == before.asks[id].phase.outcome
    ensures after.asks[id].phase.outcome in {TimedOut, Canceled}
  {}

  /** While it is in its select, a yes can still be heeded. */
  method AnAcceptedYesMayAllow(a: RemoteApprovals, id: Id)
    requires a.Valid() && id in a.pending && a.asks[id].phase.Waiting?
    modifies a
    ensures a.Valid() && id in a.asks && a.asks[id] == Ask(Returned(Allowed), Said(true), false)
  {
    var found := a.AnswerTake(id, true);
    assert found;
    a.AnswerSend(id, true);
    var outcome := a.AskReceives(id);
    a.AskEnd(id, outcome);
  }
}
