/** Which projects installing one version pulls in: the breadth-first walk over a registry whose
    graph may have cycles and whose every request may fail. */
module Dependencies {
  import opened Wrappers

  /** A project or version id. The empty one means that nothing is pinned or named. */
  type Id = nat
  const NO_ID: Id := 0

  datatype Kind = Required | Optional | Incompatible | Embedded

  datatype Dep = Dep(project: Id, version: Id, kind: Kind)

  datatype Version = Version(id: Id, deps: seq<Dep>)

  datatype Row = Row(project: Id, version: Version, required: bool, installed: bool)

  datatype Failure = NoVersion(id: Id) | NoDependency(dep: Dep)

  datatype Resolved = Rows(rows: seq<Row>) | Refused(failure: Failure)

  /** What Modrinth holds: versions by id, and the builds of a project, newest first, that
      match the server or that exist at all. */
  datatype Registry = Registry(versions: map<Id, Version>, matching: map<Id, seq<Version>>, all: map<Id, seq<Version>>)

  /** A request: for a version, or for a project's builds. */
  datatype Request = ForVersion(id: Id) | ForBuilds(project: Id, matching: bool)

  /** What Modrinth said to one client: answers from the registry, and the requests that
      failed at some time. */
  datatype Said = Said(registry: Registry, failed: set<Request>)

  ghost predicate SaidMore(was: Said, now: Said) {
    was.registry == now.registry && was.failed <= now.failed
  }

  /** Modrinth as the client sees it: any request may fail, a found answer is the registry's. */
  class Modrinth {
    const registry: Registry
    ghost var failed: set<Request>

    constructor (registry: Registry)
      ensures this.registry == registry && failed == {}
    {
      this.registry := registry;
      failed := {};
    }

    ghost function Heard(): Said
      reads this
    {
      Said(registry, failed)
    }

    method GetVersion(id: Id) returns (r: Option<Version>)
      modifies this
      ensures failed == old(failed) + if r.None? then {ForVersion(id)} else {}
      ensures r.Some? ==> id in registry.versions && r.value == registry.versions[id]
    {
      var up: bool := *;
      r := if up && id in registry.versions then Some(registry.versions[id]) else None;
      failed := failed + if r.None? then {ForVersion(id)} else {};
    }

    method GetVersions(project: Id, matching: bool) returns (r: Option<seq<Version>>)
      modifies this
      ensures failed == old(failed) + if r.None? then {ForBuilds(project, matching)} else {}
      ensures var builds := if matching then registry.matching else registry.all;
              r.Some? ==> project in builds && r.value == builds[project]
    {
      var up: bool := *;
      var builds := if matching then registry.matching else registry.all;
      r := if up && project in builds then Some(builds[project]) else None;
      failed := failed + if r.None? then {ForBuilds(project, matching)} else {};
    }

    /** The version a dependency resolves to: the pinned one, else the newest build matching
        the server, else the newest build there is. */
    method DependencyVersion(dep: Dep) returns (r: Option<Version>)
      modifies this
      ensures old(failed) <= failed && ResolvesTo(Heard(), dep, r)
    {
      if dep.version != NO_ID {
        r := GetVersion(dep.version);
        return;
      }
      var versions := GetVersions(dep.project, true);
      if versions.None? || versions.value == [] {
        versions := GetVersions(dep.project, false);
        if versions.None? || versions.value == [] { return None; }
      }
      r := Some(versions.value[0]);
    }
  }

  /** What `dep` came to: never another version than the pinned one, else the newest build for
      the server, and any other newest build only when there was none to be had for the
      server. It came to nothing only when what had to be asked was not to be had. */
  ghost predicate ResolvesTo(said: Said, dep: Dep, r: Option<Version>) {
    if dep.version != NO_ID then
      match r
      case Some(v) => dep.version in said.registry.versions && v == said.registry.versions[dep.version]
      case None => ForVersion(dep.version) in said.failed
    else
      match r
      case Some(v) => Newest(said, dep.project, true, v) ||
        (NoBuilds(said, dep.project, true) && Newest(said, dep.project, false, v))
      case None => NoBuilds(said, dep.project, true) && NoBuilds(said, dep.project, false)
  }

  ghost function Builds(registry: Registry, project: Id, matching: bool): seq<Version> {
    var builds := if matching then registry.matching else registry.all;
    if project in builds then builds[project] else []
  }

  ghost predicate Newest(said: Said, project: Id, matching: bool, v: Version) {
    Builds(said.registry, project, matching) != [] && v == Builds(said.registry, project, matching)[0]
  }

  ghost predicate NoBuilds(said: Said, project: Id, matching: bool) {
    ForBuilds(project, matching) in said.failed || Builds(said.registry, project, matching) == []
  }

  // --- what the walk comes to ---

  ghost predicate Matters(dep: Dep) {
    dep.kind != Incompatible && dep.kind != Embedded
  }

  ghost function Relevant(deps: seq<Dep>): seq<Dep> {
    if deps == [] then []
    else Relevant(deps[..|deps| - 1]) + if Matters(deps[|deps| - 1]) then [deps[|deps| - 1]] else []
  }

  /** Every dependency that matters of some versions, in their order. */
  ghost function Mentions(versions: seq<Version>): seq<Dep> {
    if versions == [] then []
    else Mentions(versions[..|versions| - 1]) + Relevant(versions[|versions| - 1].deps)
  }

  ghost function Projects(deps: seq<Dep>): set<Id> {
    set d | d in deps :: d.project
  }

  /** The first mention of each project, leaving out those of `seed`. */
  ghost function FirstMentions(mentions: seq<Dep>, seed: set<Id>): seq<Dep> {
    if mentions == [] then []
    else
      var rest, last := mentions[..|mentions| - 1], mentions[|mentions| - 1];
      FirstMentions(rest, seed) + if last.project in seed + Projects(rest) then [] else [last]
  }

  /** A project as the walk met it: the mention it was met by, and the version it resolved to
      or none when it was dropped. */
  datatype Met = Met(dep: Dep, version: Option<Version>)

  ghost function DepsOf(log: seq<Met>): (deps: seq<Dep>)
    ensures |deps| == |log| && forall i | 0 <= i < |log| :: deps[i] == log[i].dep
  {
    seq(|log|, i requires 0 <= i < |log| => log[i].dep)
  }

  ghost function RowsOf(log: seq<Met>, installed: set<Id>): seq<Row> {
    if log == [] then []
    else
      var m := log[|log| - 1];
      RowsOf(log[..|log| - 1], installed) +
      if m.version.None? then []
      else [Row(m.dep.project, m.version.value, m.dep.kind == Required, m.dep.project in installed)]
  }

  /** The versions the walk looks into after the root's: those of the required rows. */
  ghost function Opened(log: seq<Met>): seq<Id> {
    if log == [] then []
    else
      var m := log[|log| - 1];
      Opened(log[..|log| - 1]) +
      if m.version.Some? && m.dep.kind == Required && m.version.value.id != NO_ID then [m.version.value.id] else []
  }

  ghost predicate Fatal(dep: Dep, installed: set<Id>) {
    dep.kind == Required && dep.project !in installed
  }

  /** Every project met resolved as Modrinth said, and none was dropped that had to be told of. */
  ghost predicate LogOk(said: Said, installed: set<Id>, log: seq<Met>) {
    forall m | m in log :: ResolvesTo(said, m.dep, m.version) && (m.version.None? ==> !Fatal(m.dep, installed))
  }

  ghost predicate Fetched(registry: Registry, ids: seq<Id>, versions: seq<Version>) {
    |versions| == |ids| && forall i | 0 <= i < |ids| ::
      ids[i] in registry.versions && versions[i] == registry.versions[ids[i]]
  }

  ghost function Seed(root: Id): set<Id> {
    if root != NO_ID then {root} else {}
  }

  /** A finished walk: what it met are the first mentions in the versions it looked into, and it
      looked into the root and into what the required rows it met resolved to. */
  ghost predicate Walked(said: Said, root: Id, installed: set<Id>, log: seq<Met>, versions: seq<Version>) {
    && LogOk(said, installed, log)
    && Fetched(said.registry, [root] + Opened(log), versions)
    && DepsOf(log) == FirstMentions(Mentions(versions), Seed(root))
  }

  /** Every project that any version of the registry mentions. */
  ghost function Universe(registry: Registry): set<Id> {
    set id, d | id in registry.versions && d in registry.versions[id].deps :: d.project
  }

  /** The walk, at the head of either loop: `mentions` is what it has read so far. */
  ghost predicate Walking(said: Said, root: Id, installed: set<Id>, log: seq<Met>, mentions: seq<Dep>, seen: set<Id>,
                          rows: seq<Row>) {
    && LogOk(said, installed, log)
    && Alike(DepsOf(log), FirstMentions(mentions, Seed(root)))
    && Alike(rows, RowsOf(log, installed))
    && Alike(seen, Seed(root) + Projects(mentions))
  }

  /** The versions looked into so far, and the ids still queued behind them. */
  ghost predicate Ahead(registry: Registry, root: Id, log: seq<Met>, versions: seq<Version>, queue: seq<Id>) {
    && |versions| <= 1 + |Opened(log)|
    && Fetched(registry, ([root] + Opened(log))[..|versions|], versions)
    && queue == ([root] + Opened(log))[|versions|..]
  }

  lemma TakeOne(registry: Registry, root: Id, log0: seq<Met>, log: seq<Met>, versions: seq<Version>, queue0: seq<Id>,
                queue: seq<Id>)
    requires Ahead(registry, root, log0, versions, queue0) && queue0 != [] && queue0[0] in registry.versions
    requires SameGrowth(queue0[1..], queue, Opened(log0), Opened(log))
    ensures Ahead(registry, root, log, versions + [registry.versions[queue0[0]]], queue)
  {
    var was, now := [root] + Opened(log0), [root] + Opened(log);
    var n := |versions|;
    OneFewer([root], Opened(log0), Opened(log), n);
    assert was[n..][0] == was[n] && was[n..][1..] == was[n + 1..];
    assert now[..n + 1] == was[..n] + [was[n]];
    var next := versions + [registry.versions[queue0[0]]];
    assert Fetched(registry, now[..n + 1], next);
    assert queue == was[n + 1..] + queue[|queue0[1..]|..];
  }

  lemma OneFewer(head: seq<Id>, a0: seq<Id>, a: seq<Id>, n: nat)
    requires a0 <= a && n < |head + a0|
    ensures (head + a)[n + 1..] == (head + a0)[n + 1..] + a[|a0|..]
    ensures (head + a)[..n + 1] == (head + a0)[..n + 1]
  {
    assert a == a0 + a[|a0|..];
  }

  lemma Mention(mentions: seq<Dep>, dep: Dep, seed: set<Id>)
    ensures Projects(mentions + [dep]) == Projects(mentions) + {dep.project}
    ensures FirstMentions(mentions + [dep], seed)
         == FirstMentions(mentions, seed) + if dep.project in seed + Projects(mentions) then [] else [dep]
  {
    var all := mentions + [dep];
    assert all[..|all| - 1] == mentions;
    assert forall d | d in all :: d in mentions || d == dep;
    assert forall d | d in mentions :: d in all;
    assert dep in all;
  }

  lemma Meet(log: seq<Met>, m: Met, installed: set<Id>)
    ensures DepsOf(log + [m]) == DepsOf(log) + [m.dep]
    ensures RowsOf(log + [m], installed) == RowsOf(log, installed) + RowsOf([m], installed)
    ensures Opened(log + [m]) == Opened(log) + Opened([m])
  {
    assert (log + [m])[..|log|] == log;
    assert [m][..0] == [];
  }

  /** Both lists grew by the same ids. */
  ghost predicate SameGrowth(a0: seq<Id>, a: seq<Id>, b0: seq<Id>, b: seq<Id>) {
    a0 <= a && b0 <= b && a[|a0|..] == b[|b0|..]
  }

  lemma GrowBoth(a0: seq<Id>, a: seq<Id>, b0: seq<Id>, b: seq<Id>, more: seq<Id>)
    requires SameGrowth(a0, a, b0, b)
    ensures SameGrowth(a0, a + more, b0, b + more)
  {
    assert (a + more)[|a0|..] == a[|a0|..] + more == b[|b0|..] + more == (b + more)[|b0|..];
  }

  lemma Skipped(said: Said, root: Id, installed: set<Id>, log: seq<Met>, mentions: seq<Dep>, seen: set<Id>,
                rows: seq<Row>, dep: Dep)
    requires Walking(said, root, installed, log, mentions, seen, rows) && dep.project in seen
    ensures Walking(said, root, installed, log, mentions + [dep], seen, rows)
  {
    Mention(mentions, dep, Seed(root));
    assert FirstMentions(mentions + [dep], Seed(root)) == FirstMentions(mentions, Seed(root));
    assert Seed(root) + Projects(mentions + [dep]) == Seed(root) + Projects(mentions);
  }

  lemma MeetsOne(said: Said, root: Id, installed: set<Id>, log: seq<Met>, mentions: seq<Dep>, seen: set<Id>,
                 rows: seq<Row>, m: Met)
    requires Walking(said, root, installed, log, mentions, seen, rows) && m.dep.project !in seen
    requires LogOk(said, installed, [m])
    ensures Walking(said, root, installed, log + [m], mentions + [m.dep], seen + {m.dep.project},
                    rows + RowsOf([m], installed))
    ensures Opened(log + [m]) == Opened(log) + Opened([m])
  {
    Mention(mentions, m.dep, Seed(root));
    Meet(log, m, installed);
    assert m in [m];
    assert DepsOf(log + [m]) == FirstMentions(mentions + [m.dep], Seed(root));
    assert seen + {m.dep.project} == Seed(root) + Projects(mentions + [m.dep]);
  }

  lemma OneMet(m: Met, installed: set<Id>)
    ensures RowsOf([m], installed) == if m.version.None? then []
              else [Row(m.dep.project, m.version.value, m.dep.kind == Required, m.dep.project in installed)]
    ensures Opened([m]) == if m.version.Some? && m.dep.kind == Required &&
              m.version.value.id != NO_ID then [m.version.value.id] else []
  {
    assert [m][..0] == [];
  }

  lemma GrowthAfter(a0: seq<Id>, a1: seq<Id>, a: seq<Id>, b0: seq<Id>, b1: seq<Id>, b: seq<Id>)
    requires SameGrowth(a0, a1, b0, b1) && SameGrowth(a1, a, b1, b)
    ensures SameGrowth(a0, a, b0, b)
  {
    assert a == a1 + a[|a1|..] && b == b1 + b[|b1|..];
    GrowBoth(a0, a1, b0, b1, a[|a1|..]);
  }

  lemma EndOfWalk(said: Said, root: Id, installed: set<Id>, log: seq<Met>, versions: seq<Version>, seen: set<Id>,
                  rows: seq<Row>)
    requires Walking(said, root, installed, log, Mentions(versions), seen, rows)
    requires Ahead(said.registry, root, log, versions, [])
    ensures Walked(said, root, installed, log, versions)
  {
    var ids := [root] + Opened(log);
    assert |ids[|versions|..]| == 0;
    assert ids[..|versions|] == ids;
  }

  lemma StillWalking(was: Said, now: Said, root: Id, installed: set<Id>, log: seq<Met>, mentions: seq<Dep>,
                     seen: set<Id>, rows: seq<Row>)
    requires Walking(was, root, installed, log, mentions, seen, rows) && SaidMore(was, now)
    ensures Walking(now, root, installed, log, mentions, seen, rows)
  {}

  /** Meets one dependency unless its project was met before: a required one is queued, one
      that does not resolve is dropped, and one nobody can proceed without is the end. */
  method MeetOne(m: Modrinth, root: Id, installed: set<Id>, dep: Dep, queue0: seq<Id>, seen0: set<Id>, rows0: seq<Row>,
                 ghost log0: seq<Met>, ghost mentions: seq<Dep>)
    returns (failed: bool, queue: seq<Id>, seen: set<Id>, rows: seq<Row>, ghost log: seq<Met>)
    requires Walking(m.Heard(), root, installed, log0, mentions, seen0, rows0)
    modifies m
    ensures old(m.failed) <= m.failed
    ensures failed ==>
              Walking(m.Heard(), root, installed, log0, mentions, seen0, rows0) && ResolvesTo(m.Heard(), dep, None)
    ensures !failed ==> Walking(m.Heard(), root, installed, log, mentions + [dep], seen, rows)
    ensures failed ==> log == log0 && Fatal(dep, installed) && dep.project !in seen0
    ensures SameGrowth(queue0, queue, Opened(log0), Opened(log))
    ensures seen == seen0 + {dep.project} && (dep.project in seen0 ==> queue == queue0)
  {
    failed, queue, seen, rows, log := false, queue0, seen0, rows0, log0;
    if dep.project in seen {
      Skipped(m.Heard(), root, installed, log, mentions, seen, rows, dep);
      return;
    }
    seen := seen + {dep.project};
    ghost var was := m.Heard();
    var found := m.DependencyVersion(dep);
    StillWalking(was, m.Heard(), root, installed, log, mentions, seen0, rows);
    if found.None? && dep.kind == Required && dep.project !in installed {
      failed := true;
      return;
    }
    queue, rows, log := Record(m, root, installed, Met(dep, found), queue, seen0, rows, log, mentions);
  }

  /** A project met for the first time: its row, unless it is dropped, and its place in the
      queue when it is required. */
  method Record(m: Modrinth, root: Id, installed: set<Id>, met: Met, queue0: seq<Id>, ghost seen0: set<Id>,
                rows0: seq<Row>,
                ghost log0: seq<Met>, ghost mentions: seq<Dep>)
    returns (queue: seq<Id>, rows: seq<Row>, ghost log: seq<Met>)
    requires Walking(m.Heard(), root, installed, log0, mentions, seen0, rows0) && met.dep.project !in seen0
    requires LogOk(m.Heard(), installed, [met])
    ensures Walking(m.Heard(), root, installed, log, mentions + [met.dep], seen0 + {met.dep.project}, rows)
    ensures SameGrowth(queue0, queue, Opened(log0), Opened(log))
  {
    var dep, found := met.dep, met.version;
    queue, rows, log := queue0, rows0, log0 + [met];
    MeetsOne(m.Heard(), root, installed, log0, mentions, seen0, rows0, met);
    OneMet(met, installed);
    GrowBoth(queue0, queue0, Opened(log0), Opened(log0), Opened([met]));
    if found.None? {
      assert rows + [] == rows && queue + [] == queue;
      return;
    }
    rows := rows + [Row(dep.project, found.value, dep.kind == Required, dep.project in installed)];
    assert queue + [] == queue;
    queue := queue + if dep.kind == Required && found.value.id != NO_ID then [found.value.id] else [];
  }

  /** What reading dependencies did to the queue and to what is seen: nothing is queued that was
      not met. */
  ghost predicate Progress(registry: Registry, queue0: seq<Id>, queue: seq<Id>, seen0: set<Id>, seen: set<Id>,
                           log0: seq<Met>, log: seq<Met>) {
    && SameGrowth(queue0, queue, Opened(log0), Opened(log))
    && seen0 <= seen && (seen == seen0 ==> queue == queue0) && seen - seen0 <= Universe(registry)
  }

  lemma MoreProgress(registry: Registry, queue0: seq<Id>, queue1: seq<Id>, queue: seq<Id>, seen0: set<Id>,
                     seen1: set<Id>, seen: set<Id>,
                     log0: seq<Met>, log1: seq<Met>, log: seq<Met>)
    requires Progress(registry, queue0, queue1, seen0, seen1, log0, log1) &&
              Progress(registry, queue1, queue, seen1, seen, log1, log)
    ensures Progress(registry, queue0, queue, seen0, seen, log0, log)
  {
    GrowthAfter(queue0, queue1, queue, Opened(log0), Opened(log1), Opened(log));
  }

  /** The `k`th dependency of a version: left alone when it does not matter. */
  method ReadDep(m: Modrinth, root: Id, installed: set<Id>, v: Version, k: nat, queue0: seq<Id>, seen0: set<Id>,
                 rows0: seq<Row>,
                 ghost log0: seq<Met>, ghost versions: seq<Version>)
    returns (fatal: bool, queue: seq<Id>, seen: set<Id>, rows: seq<Row>, ghost log: seq<Met>)
    requires k < |v.deps| && v in m.registry.versions.Values
    requires Walking(m.Heard(), root, installed, log0, ReadSoFar(versions, v.deps, k), seen0, rows0)
    modifies m
    ensures old(m.failed) <= m.failed
    ensures !fatal ==> Walking(m.Heard(), root, installed, log, ReadSoFar(versions, v.deps, k + 1), seen, rows)
    ensures Progress(m.registry, queue0, queue, seen0, seen, log0, log)
    ensures fatal ==>
              FatalAt(m.Heard(), root, installed, log, versions + [v], v.deps[k]) && LogOk(m.Heard(), installed, log)
  {
    var dep := v.deps[k];
    MentionsNext(versions, v.deps, k);
    if dep.kind == Incompatible || dep.kind == Embedded {
      return false, queue0, seen0, rows0, log0;
    }
    InUniverse(m.registry, v, k);
    fatal, queue, seen, rows, log :=
      MeetOne(m, root, installed, dep, queue0, seen0, rows0, log0, ReadSoFar(versions, v.deps, k));
    if fatal { MetAreRead(versions, v, k, log, Seed(root)); }
  }

  lemma InUniverse(registry: Registry, v: Version, k: nat)
    requires v in registry.versions.Values && k < |v.deps|
    ensures v.deps[k].project in Universe(registry)
  {
    var id :| id in registry.versions && registry.versions[id] == v;
    assert v.deps[k] in registry.versions[id].deps;
  }

  /** A required dependency that is not installed and was not to be had where its project was
      first met. */
  ghost predicate FatalAt(said: Said, root: Id, installed: set<Id>, log: seq<Met>, versions: seq<Version>, dep: Dep) {
    && Fatal(dep, installed) && ResolvesTo(said, dep, None)
    && dep in Mentions(versions) && dep.project !in Seed(root) + Projects(DepsOf(log))
  }

  /** Looks at every dependency of one version in turn. */
  method ReadVersion(m: Modrinth, root: Id, installed: set<Id>, v: Version, queue0: seq<Id>, seen0: set<Id>,
                     rows0: seq<Row>,
                     ghost log0: seq<Met>, ghost versions: seq<Version>)
    returns (failed: Option<Dep>, queue: seq<Id>, seen: set<Id>, rows: seq<Row>, ghost log: seq<Met>)
    requires Walking(m.Heard(), root, installed, log0, Mentions(versions), seen0, rows0)
    requires v in m.registry.versions.Values
    modifies m
    ensures old(m.failed) <= m.failed
    ensures failed.None? ==> Walking(m.Heard(), root, installed, log, Mentions(versions + [v]), seen, rows)
    ensures Progress(m.registry, queue0, queue, seen0, seen, log0, log)
    ensures failed.Some? ==>
              FatalAt(m.Heard(), root, installed, log, versions + [v], failed.value) && LogOk(m.Heard(), installed, log)
  {
    failed, queue, seen, rows, log := None, queue0, seen0, rows0, log0;
    ReadAll(versions, v);
    ghost var mentions := Mentions(versions);
    for k := 0 to |v.deps|
      invariant old(m.failed) <= m.failed && failed.None?
      invariant mentions == ReadSoFar(versions, v.deps, k)
      invariant Walking(m.Heard(), root, installed, log, mentions, seen, rows)
      invariant Progress(m.registry, queue0, queue, seen0, seen, log0, log)
    {
      failed, queue, seen, rows, log, mentions :=
        ReadNext(m, root, installed, v, k, queue0, seen0, log0, queue, seen, rows, log, versions, mentions);
      if failed.Some? { return; }
    }
  }

  /** The loop's step. */
  method ReadNext(m: Modrinth, root: Id, installed: set<Id>, v: Version, k: nat, ghost queue0: seq<Id>,
                  ghost seen0: set<Id>, ghost log0: seq<Met>, queue1: seq<Id>, seen1: set<Id>, rows1: seq<Row>,
                  ghost log1: seq<Met>, ghost versions: seq<Version>, ghost mentions1: seq<Dep>)
    returns (failed: Option<Dep>, queue: seq<Id>, seen: set<Id>, rows: seq<Row>, ghost log: seq<Met>,
             ghost mentions: seq<Dep>)
    requires k < |v.deps| && v in m.registry.versions.Values && mentions1 == ReadSoFar(versions, v.deps, k)
    requires Walking(m.Heard(), root, installed, log1, mentions1, seen1, rows1)
    requires Progress(m.registry, queue0, queue1, seen0, seen1, log0, log1)
    modifies m
    ensures old(m.failed) <= m.failed && mentions == ReadSoFar(versions, v.deps, k + 1)
    ensures failed.None? ==> Walking(m.Heard(), root, installed, log, mentions, seen, rows)
    ensures Progress(m.registry, queue0, queue, seen0, seen, log0, log)
    ensures failed.Some? ==>
              FatalAt(m.Heard(), root, installed, log, versions + [v], failed.value) && LogOk(m.Heard(), installed, log)
  {
    var fatal;
    mentions := ReadSoFar(versions, v.deps, k + 1);
    fatal, queue, seen, rows, log := ReadDep(m, root, installed, v, k, queue1, seen1, rows1, log1, versions);
    MoreProgress(m.registry, queue0, queue1, queue, seen0, seen1, seen, log0, log1, log);
    failed := if fatal then Some(v.deps[k]) else None;
  }

  /** The mentions read when `k` dependencies of the version after `versions` are read. */
  ghost function ReadSoFar(versions: seq<Version>, deps: seq<Dep>, k: nat): seq<Dep>
    requires k <= |deps|
  {
    Mentions(versions) + Relevant(deps[..k])
  }

  lemma MentionsNext(versions: seq<Version>, deps: seq<Dep>, k: nat)
    requires k < |deps|
    ensures ReadSoFar(versions, deps, k + 1)
         == if Matters(deps[k]) then ReadSoFar(versions, deps, k) + [deps[k]] else ReadSoFar(versions, deps, k)
  {
    assert deps[..k + 1][..k] == deps[..k];
  }

  lemma ReadAll(versions: seq<Version>, v: Version)
    ensures ReadSoFar(versions, v.deps, 0) == Mentions(versions)
    ensures ReadSoFar(versions, v.deps, |v.deps|) == Mentions(versions + [v])
  {
    assert (versions + [v])[..|versions|] == versions;
    assert v.deps[..|v.deps|] == v.deps;
  }

  lemma MetAreRead(versions: seq<Version>, v: Version, k: nat, log: seq<Met>, seed: set<Id>)
    requires k < |v.deps| && Matters(v.deps[k])
    requires DepsOf(log) == FirstMentions(ReadSoFar(versions, v.deps, k), seed)
    ensures v.deps[k] in Mentions(versions + [v])
    ensures Projects(DepsOf(log)) <= Projects(ReadSoFar(versions, v.deps, k))
  {
    MentionsNext(versions, v.deps, k);
    assert ReadSoFar(versions, v.deps, k + 1)[|ReadSoFar(versions, v.deps, k)|] == v.deps[k];
    RelevantPrefix(v.deps, k + 1);
    ReadAll(versions, v);
    MetAreMentioned(ReadSoFar(versions, v.deps, k), seed);
  }

  lemma RelevantPrefix(deps: seq<Dep>, k: nat)
    requires k <= |deps|
    ensures forall d | d in Relevant(deps[..k]) :: d in Relevant(deps)
  {
    if k == |deps| {
      assert deps[..k] == deps;
    } else {
      RelevantPrefix(deps[..|deps| - 1], k);
      assert deps[..|deps| - 1][..k] == deps[..k];
    }
  }

  lemma MetAreMentioned(mentions: seq<Dep>, seed: set<Id>)
    ensures forall d | d in FirstMentions(mentions, seed) :: d in mentions && d.project !in seed
  {}

  lemma Fewer(all: set<Id>, seen0: set<Id>, seen: set<Id>)
    requires seen0 <= seen && seen - seen0 <= all
    ensures seen == seen0 || |all - seen| < |all - seen0|
  {
    if seen != seen0 {
      var x :| x in seen && x !in seen0;
      Smaller(all - seen, all - seen0, x);
    }
  }

  lemma Smaller(a: set<Id>, b: set<Id>, x: Id)
    requires a <= b && x in b && x !in a
    ensures |a| < |b|
  {
    assert b == a + (b - a);
    assert |b - a| > 0;
  }

  /** Why a walk ended with an error: a version it had to look into was not to be had, or a
      required dependency that is not installed was, where its project was first met. */
  ghost predicate RefusedFor(said: Said, root: Id, installed: set<Id>, log: seq<Met>, versions: seq<Version>,
                             failure: Failure) {
    && LogOk(said, installed, log)
    && match failure
       case NoVersion(id) =>
         ForVersion(id) in said.failed && exists queue ::
           Ahead(said.registry, root, log, versions, queue) && queue != [] && queue[0] == id
       case NoDependency(dep) =>
         FatalAt(said, root, installed, log, versions, dep) && exists queue ::
           Ahead(said.registry, root, log, versions, queue)
  }

  /** A project was met that had not been, or the queue got shorter. */
  ghost predicate Closer(registry: Registry, queue0: seq<Id>, queue: seq<Id>, seen0: set<Id>, seen: set<Id>) {
    |Universe(registry) - seen| < |Universe(registry) - seen0| || (seen == seen0 && |queue| < |queue0|)
  }

  /** Takes one version off the queue and looks into it. */
  method OpenNext(m: Modrinth, root: Id, installed: set<Id>, queue0: seq<Id>, seen0: set<Id>, rows0: seq<Row>,
                  ghost log0: seq<Met>, ghost versions0: seq<Version>)
    returns (failure: Option<Failure>, queue: seq<Id>, seen: set<Id>, rows: seq<Row>, ghost log: seq<Met>,
             ghost versions: seq<Version>)
    requires Walking(m.Heard(), root, installed, log0, Mentions(versions0), seen0, rows0)
    requires Ahead(m.registry, root, log0, versions0, queue0) && queue0 != []
    modifies m
    ensures failure.None? ==> Walking(m.Heard(), root, installed, log, Mentions(versions), seen, rows)
    ensures failure.None? ==> Ahead(m.registry, root, log, versions, queue)
    ensures failure.None? ==> Closer(m.registry, queue0, queue, seen0, seen)
    ensures failure.Some? ==> RefusedFor(m.Heard(), root, installed, log, versions, failure.value)
  {
    queue, seen, rows, log, versions := queue0[1..], seen0, rows0, log0, versions0;
    var id := queue0[0];
    ghost var was := m.Heard();
    var v := m.GetVersion(id);
    StillWalking(was, m.Heard(), root, installed, log, Mentions(versions), seen, rows);
    if v.None? {
      assert Ahead(m.registry, root, log, versions, queue0);
      return Some(NoVersion(id)), queue, seen, rows, log, versions;
    }
    var failed;
    failed, queue, seen, rows, log := ReadVersion(m, root, installed, v.value, queue, seen, rows, log, versions);
    TakeOne(m.registry, root, log0, log, versions, queue0, queue);
    versions := versions + [v.value];
    Fewer(Universe(m.registry), seen0, seen);
    failure := if failed.Some? then Some(NoDependency(failed.value)) else None;
  }

  /** The walk ends on every graph: each round either meets a project nobody had met or takes
      one version off the queue. When it ends without an error it has met exactly the first
      mentions, in breadth-first order; otherwise the error says what could not be had. */
  method ResolveDependencies(m: Modrinth, root: Id, installed: set<Id>)
    returns (r: Resolved, ghost log: seq<Met>, ghost versions: seq<Version>)
    modifies m
    ensures r.Rows? ==> Walked(m.Heard(), root, installed, log, versions) && r.rows == RowsOf(log, installed)
    ensures r.Refused? ==> RefusedFor(m.Heard(), root, installed, log, versions, r.failure)
    ensures r.Rows? ==>
              forall met | met in log && met.dep.kind == Required && met.dep.project !in installed :: met.version.Some?
    ensures r.Refused? && r.failure.NoDependency? ==>
              r.failure.dep.kind == Required && r.failure.dep.project !in installed
    ensures r.Rows? ==> RootHasWhatItNeeds(m.registry, root, installed, r.rows)
  {
    m.failed := {}; // the history is that of this run
    var seen: set<Id> := if root != NO_ID then {root} else {};
    var rows: seq<Row> := [];
    var queue := [root];
    log, versions := [], [];
    while queue != []
      invariant Walking(m.Heard(), root, installed, log, Mentions(versions), seen, rows)
      invariant Ahead(m.registry, root, log, versions, queue)
      decreases |Universe(m.registry) - seen|, |queue|
    {
      var failure;
      failure, queue, seen, rows, log, versions := OpenNext(m, root, installed, queue, seen, rows, log, versions);
      if failure.Some? { return Refused(failure.value), log, versions; }
    }
    EndOfWalk(m.Heard(), root, installed, log, versions, seen, rows);
    r := Rows(rows);
    RootNeedsAreRows(m.Heard(), root, installed, log, versions);
  }

  // --- what a finished walk promises ---

  lemma AddProject(deps: seq<Dep>, dep: Dep)
    ensures Projects(deps + [dep]) == Projects(deps) + {dep.project}
  {
    Mention(deps, dep, {});
  }

  lemma {:induction false} FirstMentionsCover(mentions: seq<Dep>, seed: set<Id>)
    ensures Projects(FirstMentions(mentions, seed)) == Projects(mentions) - seed
  {
    if mentions != [] {
      var rest, last := mentions[..|mentions| - 1], mentions[|mentions| - 1];
      FirstMentionsCover(rest, seed);
      assert mentions == rest + [last];
      AddProject(rest, last);
      AddProject(FirstMentions(rest, seed), last);
      assert FirstMentions(rest, seed) + [] == FirstMentions(rest, seed);
    }
  }

  ghost predicate OncePer<T(!new)>(list: seq<T>, project: T -> Id) {
    forall i, j | 0 <= i < j < |list| :: project(list[i]) != project(list[j])
  }

  lemma OneMore<T(!new)>(list: seq<T>, more: T, project: T -> Id)
    requires OncePer(list, project) && forall x | x in list :: project(x) != project(more)
    ensures OncePer(list + [more], project)
  {}

  lemma {:induction false} FirstMentionsOnce(mentions: seq<Dep>, seed: set<Id>)
    ensures OncePer(FirstMentions(mentions, seed), (d: Dep) => d.project)
  {
    if mentions != [] {
      var rest, last := mentions[..|mentions| - 1], mentions[|mentions| - 1];
      FirstMentionsOnce(rest, seed);
      MetAreMentioned(rest, seed);
      if last.project !in seed + Projects(rest) {
        OneMore(FirstMentions(rest, seed), last, (d: Dep) => d.project);
      } else {
        assert FirstMentions(mentions, seed) == FirstMentions(rest, seed);
      }
    }
  }

  /** Every dependency that matters of every version looked into was considered: its project
      is the root's own id or was met. No project was met twice. */
  lemma EveryDependencyIsConsidered(said: Said, root: Id, installed: set<Id>, log: seq<Met>, versions: seq<Version>)
    requires Walked(said, root, installed, log, versions)
    ensures forall v, d | v in versions && d in v.deps && (d.kind == Required || d.kind == Optional) ::
              d.project in Seed(root) || exists m :: m in log && m.dep.project == d.project
    ensures OncePer(log, (m: Met) => m.dep.project)
    ensures forall m | m in log :: m.dep.project !in Seed(root) && m.dep in Mentions(versions)
    ensures forall m | m in log :: m.dep.kind == Required || m.dep.kind == Optional
  {
    var mentions := Mentions(versions);
    FirstMentionsCover(mentions, Seed(root));
    FirstMentionsOnce(mentions, Seed(root));
    assert forall i | 0 <= i < |log| :: DepsOf(log)[i].project == log[i].dep.project;
    MetAreMentioned(mentions, Seed(root));
    forall m | m in log ensures m.dep.project !in Seed(root) && m.dep in mentions && Matters(m.dep) {
      var i :| 0 <= i < |log| && log[i] == m;
      assert DepsOf(log)[i] == m.dep;
      MentionsMatter(versions, m.dep);
    }
    forall v, d | v in versions && d in v.deps && Matters(d)
      ensures d.project in Seed(root) || exists m :: m in log && m.dep.project == d.project
    {
      Mentioned(versions, v, d);
      assert d.project in Projects(mentions);
      if d.project !in Seed(root) {
        assert d.project in Projects(DepsOf(log));
        var i :| 0 <= i < |log| && DepsOf(log)[i].project == d.project;
        assert log[i] in log;
      }
    }
  }

  lemma {:induction false} MentionsMatter(versions: seq<Version>, d: Dep)
    requires d in Mentions(versions)
    ensures Matters(d)
  {
    var rest, last := versions[..|versions| - 1], versions[|versions| - 1];
    if d in Mentions(rest) {
      MentionsMatter(rest, d);
    } else {
      RelevantMatters(last.deps);
    }
  }

  lemma {:induction false} RelevantMatters(deps: seq<Dep>)
    ensures forall d | d in Relevant(deps) :: d in deps && Matters(d)
  {
    if deps != [] {
      RelevantMatters(deps[..|deps| - 1]);
    }
  }

  lemma {:induction false} Mentioned(versions: seq<Version>, v: Version, d: Dep)
    requires v in versions && d in v.deps && Matters(d)
    ensures d in Mentions(versions)
  {
    var rest, last := versions[..|versions| - 1], versions[|versions| - 1];
    if v == last {
      InRelevant(last.deps, d);
    } else {
      assert versions == rest + [last];
      Mentioned(rest, v, d);
    }
  }

  lemma {:induction false} InRelevant(deps: seq<Dep>, d: Dep)
    requires d in deps && Matters(d)
    ensures d in Relevant(deps)
  {
    var rest, last := deps[..|deps| - 1], deps[|deps| - 1];
    if d != last {
      assert deps == rest + [last];
      InRelevant(rest, d);
    }
  }

  /** The rows are the met projects that resolved, one each, and what a required row resolved
      to was looked into. */
  lemma {:induction false} RowsAndOpened(log: seq<Met>, installed: set<Id>)
    ensures forall row :: row in RowsOf(log, installed) <==>
              exists m ::
                m in log && m.version.Some? &&
                row == Row(m.dep.project, m.version.value, m.dep.kind == Required, m.dep.project in installed)
    ensures forall id :: id in Opened(log) <==>
              exists row :: row in RowsOf(log, installed) && row.required && row.version.id == id && id != 0
  {
    if log != [] {
      var rest, last := log[..|log| - 1], log[|log| - 1];
      assert log == rest + [last];
      RowsAndOpened(rest, installed);
      assert forall m :: m in log <==> m in rest || m == last;
    }
  }

  /** What installing the root needs is closed: a dependency that matters of the root, or of the
      version of any returned required row that names one, is a row, is installed or optional
      and was dropped, or is the root's own id. */
  lemma RequiredRowsAreClosed(said: Said, root: Id, installed: set<Id>, log: seq<Met>, versions: seq<Version>, id: Id,
                              d: Dep)
    requires Walked(said, root, installed, log, versions)
    requires id == root || exists row :: row in RowsOf(log, installed) && row.required && row.version.id == id != NO_ID
    ensures id in said.registry.versions
    ensures d in said.registry.versions[id].deps && (d.kind == Required || d.kind == Optional) ==>
              || d.project in Seed(root)
              || (exists row :: row in RowsOf(log, installed) && row.project == d.project)
              || (exists m :: m in log && m.dep.project == d.project && m.version.None? && !Fatal(m.dep, installed))
  {
    RowsAndOpened(log, installed);
    var ids := [root] + Opened(log);
    assert id in ids;
    var i :| 0 <= i < |ids| && ids[i] == id;
    assert versions[i] == said.registry.versions[id];
    if d in said.registry.versions[id].deps && Matters(d) && d.project !in Seed(root) {
      EveryDependencyIsConsidered(said, root, installed, log, versions);
      assert versions[i] in versions;
      var m :| m in log && m.dep.project == d.project;
      if m.version.Some? {
        var row := Row(m.dep.project, m.version.value, m.dep.kind == Required, m.dep.project in installed);
        assert row in RowsOf(log, installed);
      }
    }
  }

  /** A project is returned once. */
  lemma NoProjectTwice(said: Said, root: Id, installed: set<Id>, log: seq<Met>, versions: seq<Version>)
    requires Walked(said, root, installed, log, versions)
    ensures OncePer(RowsOf(log, installed), (r: Row) => r.project)
  {
    EveryDependencyIsConsidered(said, root, installed, log, versions);
    RowsKeepApart(log, installed);
  }

  lemma {:induction false} RowsKeepApart(log: seq<Met>, installed: set<Id>)
    requires OncePer(log, (m: Met) => m.dep.project)
    ensures OncePer(RowsOf(log, installed), (r: Row) => r.project)
  {
    if log != [] {
      var rest, last := log[..|log| - 1], log[|log| - 1];
      RowsKeepApart(rest, installed);
      RowsAndOpened(rest, installed);
      forall r | r in RowsOf(rest, installed) ensures r.project != last.dep.project {
        var m :| m in rest && r.project == m.dep.project;
        var k :| 0 <= k < |rest| && rest[k] == m;
        assert log[k] == m;
      }
      if last.version.Some? {
        OneMore(RowsOf(rest, installed),
                Row(last.dep.project, last.version.value, last.dep.kind == Required, last.dep.project in installed),
                (r: Row) => r.project);
      } else {
        assert RowsOf(log, installed) == RowsOf(rest, installed);
      }
    }
  }

  // --- a row is required exactly when its first mention says so ---

  ghost function FirstOf(mentions: seq<Dep>, project: Id): Option<Dep> {
    if mentions == [] then None
    else if mentions[0].project == project then Some(mentions[0])
    else FirstOf(mentions[1..], project)
  }

  lemma {:induction false} FirstOfAppended(mentions: seq<Dep>, dep: Dep, project: Id)
    ensures FirstOf(mentions, project).None? <==> project !in Projects(mentions)
    ensures FirstOf(mentions + [dep], project)
         == if FirstOf(mentions, project).Some? then FirstOf(mentions, project)
            else if dep.project == project then Some(dep) else None
  {
    if mentions != [] {
      FirstOfAppended(mentions[1..], dep, project);
      assert (mentions + [dep])[1..] == mentions[1..] + [dep];
      assert mentions == [mentions[0]] + mentions[1..];
      assert Projects(mentions) == {mentions[0].project} + Projects(mentions[1..]);
    }
  }

  lemma {:induction false} MetAreFirst(mentions: seq<Dep>, seed: set<Id>, project: Id)
    ensures forall d | d in FirstMentions(mentions, seed) && d.project == project ::
              FirstOf(mentions, project) == Some(d)
  {
    if mentions != [] {
      var rest, last := mentions[..|mentions| - 1], mentions[|mentions| - 1];
      assert mentions == rest + [last];
      MetAreFirst(rest, seed, project);
      FirstOfAppended(rest, last, project);
    }
  }

  /** A project that some version looked into requires is returned as required exactly when its
      first mention, in breadth-first order, is a required one and it resolved. First met as
      optional it stays optional, and its own dependencies are not looked into for it. */
  lemma RequiredIffFirstMentionIs(said: Said, root: Id, installed: set<Id>, log: seq<Met>, versions: seq<Version>,
                                  m: Met)
    requires Walked(said, root, installed, log, versions) && m in log
    ensures (exists row :: row in RowsOf(log, installed) && row.project == m.dep.project && row.required)
       <==> m.version.Some? && FirstOf(Mentions(versions), m.dep.project).Some?
            && FirstOf(Mentions(versions), m.dep.project).value.kind == Required
  {
    MetIsFirst(said, root, installed, log, versions, m);
    EveryDependencyIsConsidered(said, root, installed, log, versions);
    OnlyRowOf(log, installed, m);
  }

  lemma MetIsFirst(said: Said, root: Id, installed: set<Id>, log: seq<Met>, versions: seq<Version>, m: Met)
    requires Walked(said, root, installed, log, versions) && m in log
    ensures FirstOf(Mentions(versions), m.dep.project) == Some(m.dep)
  {
    var i :| 0 <= i < |log| && log[i] == m;
    assert DepsOf(log)[i] == m.dep;
    MetAreFirst(Mentions(versions), Seed(root), m.dep.project);
  }

  lemma OnlyRowOf(log: seq<Met>, installed: set<Id>, m: Met)
    requires OncePer(log, (n: Met) => n.dep.project) && m in log
    ensures (exists row :: row in RowsOf(log, installed) && row.project == m.dep.project && row.required)
       <==> m.version.Some? && m.dep.kind == Required
  {
    RowsAndOpened(log, installed);
    forall n | n in log && n.dep.project == m.dep.project ensures n == m {
      var i :| 0 <= i < |log| && log[i] == m;
      var j :| 0 <= j < |log| && log[j] == n;
    }
    if m.version.Some? {
      var row := Row(m.dep.project, m.version.value, m.dep.kind == Required, m.dep.project in installed);
      assert row in RowsOf(log, installed);
    }
  }

  // --- what the root needs ---

  /** Every project the root's version requires and that is not installed is among the rows, as
      required, unless an optional mention stands before it. */
  ghost predicate RootHasWhatItNeeds(registry: Registry, root: Id, installed: set<Id>, rows: seq<Row>) {
    && root in registry.versions
    && var deps := registry.versions[root].deps;
       forall k | 0 <= k < |deps| && deps[k].kind == Required && deps[k].project !in installed &&
         deps[k].project != root &&
         (forall j | 0 <= j < k && deps[j].project == deps[k].project :: deps[j].kind != Optional) ::
         exists row :: row in rows && row.project == deps[k].project && row.required && !row.installed
  }

  lemma RootNeedsAreRows(said: Said, root: Id, installed: set<Id>, log: seq<Met>, versions: seq<Version>)
    requires Walked(said, root, installed, log, versions)
    ensures RootHasWhatItNeeds(said.registry, root, installed, RowsOf(log, installed))
  {
    var ids := [root] + Opened(log);
    assert ids[0] == root && versions[0] == said.registry.versions[root];
    var deps := versions[0].deps;
    forall k | 0 <= k < |deps| && deps[k].kind == Required && deps[k].project !in installed &&
      deps[k].project != root &&
      (forall j | 0 <= j < k && deps[j].project == deps[k].project :: deps[j].kind != Optional)
      ensures exists row ::
        row in RowsOf(log, installed) && row.project == deps[k].project && row.required && !row.installed
    {
      RootNeed(said, root, installed, log, versions, k);
    }
  }

  lemma RootNeed(said: Said, root: Id, installed: set<Id>, log: seq<Met>, versions: seq<Version>, k: nat)
    requires Walked(said, root, installed, log, versions) && versions != [] && k < |versions[0].deps|
    requires var d := versions[0].deps[k]; d.kind == Required && d.project !in installed && d.project != root
    requires forall j | 0 <= j < k && versions[0].deps[j].project == versions[0].deps[k].project ::
               versions[0].deps[j].kind != Optional
    ensures exists row :: row in RowsOf(log, installed) && row.project == versions[0].deps[k].project &&
              row.required && !row.installed
  {
    var d := versions[0].deps[k];
    EveryDependencyIsConsidered(said, root, installed, log, versions);
    assert versions[0] in versions && d in versions[0].deps;
    var m :| m in log && m.dep.project == d.project;
    MetIsFirst(said, root, installed, log, versions, m);
    FirstInRelevant(versions[0].deps, k);
    FirstInVersions(versions, d.project);
    RowsAndOpened(log, installed);
    var row := Row(m.dep.project, m.version.value, m.dep.kind == Required, m.dep.project in installed);
    assert row in RowsOf(log, installed);
  }

  lemma {:induction false} FirstInVersions(versions: seq<Version>, project: Id)
    requires versions != [] && FirstOf(Relevant(versions[0].deps), project).Some?
    ensures FirstOf(Mentions(versions), project) == FirstOf(Relevant(versions[0].deps), project)
  {
    var rest, last := versions[..|versions| - 1], versions[|versions| - 1];
    if rest == [] {
      assert Mentions(rest) == [];
      assert Mentions(versions) == Relevant(last.deps);
    } else {
      FirstInVersions(rest, project);
      FirstKept(Mentions(rest), Relevant(last.deps), project);
    }
  }

  lemma {:induction false} FirstKept(mentions: seq<Dep>, more: seq<Dep>, project: Id)
    requires FirstOf(mentions, project).Some?
    ensures FirstOf(mentions + more, project) == FirstOf(mentions, project)
  {
    if mentions[0].project != project {
      FirstKept(mentions[1..], more, project);
      assert (mentions + more)[1..] == mentions[1..] + more;
    }
  }

  /** The first that matters of a project is required when no optional one stands before one that
      is. */
  lemma {:induction false} FirstInRelevant(deps: seq<Dep>, k: nat)
    requires k < |deps| && deps[k].kind == Required
    requires forall j | 0 <= j < k && deps[j].project == deps[k].project :: deps[j].kind != Optional
    ensures var first := FirstOf(Relevant(deps), deps[k].project);
            first.Some? && first.value.kind == Required
    decreases |deps|
  {
    var rest, last := deps[..|deps| - 1], deps[|deps| - 1];
    var project := deps[k].project;
    if k < |rest| {
      assert rest[k] == deps[k];
      FirstInRelevant(rest, k);
      FirstKept(Relevant(rest), if Matters(last) then [last] else [], project);
    } else {
      FirstOfAppended(Relevant(rest), last, project);
      if FirstOf(Relevant(rest), project).Some? {
        FirstIsOne(Relevant(rest), project);
        RelevantMatters(rest);
      }
    }
  }

  lemma {:induction false} FirstIsOne(mentions: seq<Dep>, project: Id)
    requires FirstOf(mentions, project).Some?
    ensures FirstOf(mentions, project).value in mentions && FirstOf(mentions, project).value.project == project
  {
    if mentions[0].project != project { FirstIsOne(mentions[1..], project); }
  }

  // A root that suggests project 10 and requires 11, which requires 10, which requires 12.
  ghost const HINT := Dep(10, 2, Optional)
  ghost const NEED := Dep(11, 3, Required)
  ghost const LATER := Dep(10, 2, Required)
  ghost const TEN := Version(2, [Dep(12, 4, Required)])
  ghost const ELEVEN := Version(3, [LATER])
  ghost const SAMPLE := Registry(map[1 := Version(1, [HINT, NEED]), 2 := TEN, 3 := ELEVEN], map[], map[])

  /** The walk over them ends with 10 optional and 12 unheard of. */
  lemma FirstMetAsOptional() returns (log: seq<Met>)
    ensures Walked(Said(SAMPLE, {}), 1, {}, log, [SAMPLE.versions[1], ELEVEN])
    ensures RowsOf(log, {}) == [Row(10, TEN, false, false), Row(11, ELEVEN, true, false)]
  {
    log := [Met(HINT, Some(TEN)), Met(NEED, Some(ELEVEN))];
    SampleLog();
    SampleMentions();
    assert DepsOf(log) == [HINT, NEED];
    assert [1] + [3] == [1, 3];
  }

  lemma SampleLog()
    ensures var log := [Met(HINT, Some(TEN)), Met(NEED, Some(ELEVEN))];
            && RowsOf(log, {}) == [Row(10, TEN, false, false), Row(11, ELEVEN, true, false)]
            && Opened(log) == [3] && LogOk(Said(SAMPLE, {}), {}, log)
  {
    var a, b := Met(HINT, Some(TEN)), Met(NEED, Some(ELEVEN));
    OneMet(a, {});
    OneMet(b, {});
    Meet([a], b, {});
    assert [a] + [b] == [a, b];
  }

  lemma SampleMentions()
    ensures FirstMentions(Mentions([SAMPLE.versions[1], ELEVEN]), {1}) == [HINT, NEED]
  {
    var one := SAMPLE.versions[1];
    SampleRoot();
    MentionsNext([one], ELEVEN.deps, 0);
    ReadAll([one], ELEVEN);
    assert [one] + [ELEVEN] == [one, ELEVEN];
    assert Mentions([one, ELEVEN]) == [HINT, NEED] + [LATER];
    SampleFirst();
  }

  lemma SampleRoot()
    ensures Mentions([SAMPLE.versions[1]]) == [HINT, NEED]
  {
    var one := SAMPLE.versions[1];
    MentionsNext([], one.deps, 0);
    MentionsNext([], one.deps, 1);
    ReadAll([], one);
    assert [] + [one] == [one];
  }

  lemma SampleFirst()
    ensures FirstMentions([HINT, NEED] + [LATER], {1}) == [HINT, NEED]
  {
    Mention([], HINT, {1});
    Mention([HINT], NEED, {1});
    Mention([HINT, NEED], LATER, {1});
    assert [] + [HINT] == [HINT] && [HINT] + [NEED] == [HINT, NEED];
    assert HINT in [HINT, NEED];
  }
}
