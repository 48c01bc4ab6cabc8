/**
 Which programs can deadlock. If the tasks of a program can be ranked so that every list of dependencies rises, and a
 body names only tasks that rank higher than its own, then every deadlock is one of the mapper's: it needs the mutex
 of a task whose flag it reads, from which the waits lead back to the mapper.
 */
module TaskLockOrder {
  import opened Wrappers
  import opened TaskRuntime
  import opened TaskGraphInvariants
  import opened TaskRuntimeInvariants
  import opened TaskRaces
  import opened TaskDeadlocks

  type Rank = nat -> int

  /** What is asked of a program and of its runs: lists of dependencies rise, also those that the mapper makes for
      data movement tasks; only tasks whose registration is over, and no data movement tasks, are named; a body names
      only tasks that rank higher when it spawns or awaits, and so does the mapper in the thread of a body; and the
      race of TaskRaces does not happen. The source itself sees to `Exposed`: a task is made known when its
      registration is over. In a particular run it may also be that only the body of `x` names tasks, and only to
      spawn on some lists. */
  datatype Clause = InOrder | Exposed | Higher | NoRace | SpawnsOnly(x: nat, lists: set<seq<nat>>)

  function Names(e: Event): seq<nat> {
    match e
    case Spawn(deps) => deps
    case Await(_, deps) => deps
    case _ => []
  }

  /** The body in whose thread dependencies are named. */
  function Namer(w: Threads, a: Act): Option<nat> {
    match a
    case SpawnBy(x, _) => Some(x)
    case Other(e) =>
      if e.Await? then Some(e.t) else if e.MoveAsks? && w.mapping.On? then w.mapping.host else None
    case _ => None
  }

  function Named(a: Act): seq<nat> {
    match EventOf(a)
    case Some(e) => if e.MoveAsks? then [e.dep] else Names(e)
    case None => []
  }

  predicate Ascending(ts: seq<nat>, rank: Rank) {
    forall i, j | 0 <= i < j < |ts| :: rank(ts[i]) < rank(ts[j])
  }

  predicate AllExposed(s: State, ts: seq<nat>) {
    forall i | 0 <= i < |ts| && ts[i] < |s.tasks| :: !s.tasks[ts[i]].phase.Spawning? && !s.tasks[ts[i]].move
  }

  predicate AllLower(ts: seq<nat>, t: nat, rank: Rank) {
    forall i | 0 <= i < |ts| :: rank(ts[i]) < rank(t)
  }

  predicate AllHigher(t: nat, ts: seq<nat>, rank: Rank) {
    forall i | 0 <= i < |ts| :: rank(t) < rank(ts[i])
  }

  /** The next dependency of a data movement task ranks above those it has. */
  predicate MoveRises(s: State, m: nat, d: nat, rank: Rank) {
    m < |s.tasks| ==> AllLower(s.tasks[m].dependencies, d, rank)
  }

  predicate NamesRise(s: State, e: Event, rank: Rank) {
    Ascending(Names(e), rank) && (e.MoveAsks? ==> MoveRises(s, e.m, e.dep, rank))
  }

  predicate Observes(w: Threads, a: Act, c: Clause, rank: Rank) {
    match c
    case InOrder => EventOf(a).Some? ==> NamesRise(w.s, EventOf(a).value, rank)
    case Exposed => EventOf(a).Some? ==> AllExposed(w.s, Names(EventOf(a).value))
    case Higher => Namer(w, a).Some? ==> AllHigher(Namer(w, a).value, Named(a), rank)
    case NoRace => EventOf(a).Some? ==> !Races(w.s, EventOf(a).value)
    case SpawnsOnly(x, lists) =>
      match a {
        case SpawnBy(y, deps) => y == x && deps in lists
        case Other(e) => !e.Await? && !e.MoveAsks? && (e.Spawn? ==> e.deps == [])
        case _ => true
      }
  }

  predicate ObservesAll(w: Threads, a: Act, cs: set<Clause>, rank: Rank) {
    forall c | c in cs :: Observes(w, a, c, rank)
  }

  /** Every step of the run observes the clauses. */
  predicate Follows(w: Threads, acts: seq<Act>, cs: set<Clause>, rank: Rank)
    decreases |acts|
  {
    acts == [] ||
    (ObservesAll(w, acts[0], cs, rank)
     && match Move(w, acts[0]) case None => true case Some(next) => Follows(next, acts[1..], cs, rank))
  }

  const CLAUSES := {InOrder, Exposed, Higher, NoRace}

  // ---- the invariant ----

  /** A dependent that is still to be notified is not running, and asks on above the task that will notify it. */
  predicate Above(tasks: seq<Task>, d: nat, t: nat, rank: Rank) {
    && t < |tasks|
    && if tasks[t].move then
         d in tasks[t].dependencies && (tasks[t].phase.Adding? ==> rank(d) < rank(tasks[t].phase.dep))
       else
         && !tasks[t].phase.Executing? && !tasks[t].phase.Finishing?
         && (Rest(tasks[t]) != [] ==> rank(d) < rank(Rest(tasks[t])[0]))
  }

  ghost predicate PendingAbove(tasks: seq<Task>, rank: Rank) {
    forall d, t: nat | 0 <= d < |tasks| && t in Pending(tasks[d]) :: Above(tasks, d, t, rank)
  }

  /** The task that waits for a data movement task is not being run. */
  predicate IsIdle(tasks: seq<Task>, t: nat) {
    t < |tasks| && !tasks[t].move && tasks[t].phase.Free? && !tasks[t].status.Waiting?
  }

  ghost predicate MovedAreIdle(tasks: seq<Task>) {
    forall m, t: nat | 0 <= m < |tasks| && tasks[m].move && t in Pending(tasks[m]) :: IsIdle(tasks, t)
  }

  predicate DependencyExposed(s: State, d: nat) {
    d < |s.tasks| && !s.tasks[d].phase.Spawning? && !s.tasks[d].move
  }

  predicate Rises(s: State, t: nat, rank: Rank)
    requires t < |s.tasks|
  {
    var task := s.tasks[t];
    && Ascending(Rest(task), rank) && AllExposed(s, Rest(task))
    && (task.phase.Depending? ==> !task.move && (Rest(task) != [] ==> rank(t) < rank(Rest(task)[0])))
    && (task.phase.Spawning? ==> !task.move)
    && (!task.move ==> AllSpawned(s, task.dependencies))
    && (task.phase.Adding? ==> task.move && DependencyExposed(s, task.phase.dep))
  }

  /** Nobody in the list is registering. */
  predicate AllSpawned(s: State, ts: seq<nat>) {
    forall i | 0 <= i < |ts| && ts[i] < |s.tasks| :: !s.tasks[ts[i]].phase.Spawning?
  }

  ghost predicate AllRise(s: State, rank: Rank) {
    forall t | 0 <= t < |s.tasks| :: Rises(s, t, rank)
  }

  ghost predicate ChildrenHigher(w: Threads, rank: Rank) {
    forall t: nat, c: nat | IsChild(w, t, c) :: Rest(w.s.tasks[c]) != [] ==> rank(t) < rank(Rest(w.s.tasks[c])[0])
  }

  /** What the mapper adds in the thread of a body ranks above it. */
  ghost predicate AddsHigher(w: Threads, rank: Rank) {
    w.mapping.On? && w.mapping.host.Some? ==>
      forall m | 0 <= m < |w.s.tasks| && w.s.tasks[m].phase.Adding? ::
        rank(w.mapping.host.value) < rank(w.s.tasks[m].phase.dep)
  }

  ghost predicate TasksRanked(s: State, rank: Rank) {
    PendingAbove(s.tasks, rank) && MovedAreIdle(s.tasks) && AllRise(s, rank)
  }

  ghost predicate Ranked(w: Threads, rank: Rank) {
    TasksRanked(w.s, rank) && ChildrenHigher(w, rank) && AddsHigher(w, rank)
  }

  /** What the invariants of the runtime give. */
  ghost predicate Usual(w: Threads) {
    Orderly(w.s) && DependenciesKnown(w.s) && Sound(w)
  }

  // ---- every deadlock of ranked states is the mapper's ----

  /** The mapper has flags to read. */
  predicate HasFlags(w: Threads) {
    w.mapping.On? && w.mapping.filling.Reading? && w.mapping.filling.flags != []
  }

  predicate FlagMissing(w: Threads, ns: set<Node>) {
    Mapper in ns && HasFlags(w)
  }

  ghost predicate OtherDeadlock(w: Threads, ns: set<Node>) {
    Deadlocked(w, ns) && !FlagMissing(w, ns)
  }

  ghost predicate RankedWaits(w: Threads, rank: Rank, ns: set<Node>) {
    Usual(w) && Ranked(w, rank) && OtherDeadlock(w, ns)
  }

  /** A task of the program whose registration is over. */
  predicate Established(s: State, t: nat) {
    t < |s.tasks| && !s.tasks[t].move && !s.tasks[t].phase.Spawning?
  }

  /** The mapper waits for a data movement task that it has locked. */
  lemma MapperWaitsForMove(w: Threads, ns: set<Node>) returns (m: nat)
    requires Usual(w) && OtherDeadlock(w, ns) && Mapper in ns
    ensures Known(w.s, m) && Of(m) in ns && w.s.tasks[m].phase.Adding? && w.mapping.On? && w.mapping.filling.NotFilling?
  {
    assert WaitsIn(w, Mapper, ns);
    var q :| q in ns && WaitsFor(w, Mapper, q);
    m := q.t;
    MembersAreBlocked(w, ns, q);
    if w.s.mapper == Checking(m) {
      CheckedIsFree(w.s, m);
    }
    if w.s.tasks[m].phase.Adding? {
      assert MapperAdds(w.s);
    }
  }

  lemma CheckedIsFree(s: State, t: nat)
    requires Orderly(s) && s.mapper == Checking(t)
    ensures t < |s.tasks| && s.tasks[t].phase.Free?
  {
    assert Consistent(s.tasks[t]) && Single(s, t);
  }

  lemma NobodyGetsReady(w: Threads, ns: set<Node>, t: nat)
    requires Usual(w) && OtherDeadlock(w, ns) && Of(t) in ns && Known(w.s, t)
    ensures !w.s.tasks[t].phase.Readying?
  {
    assert WaitsIn(w, Of(t), ns);
    var q :| q in ns && WaitsFor(w, Of(t), q);
    if w.s.tasks[t].phase.Readying? {
      var m := MapperWaitsForMove(w, ns);
    }
  }

  /** Whoever is registering, or adding dependencies to a data movement task, waits for an established task. */
  lemma WaitsForEstablished(w: Threads, rank: Rank, ns: set<Node>, t: nat) returns (u: nat)
    requires RankedWaits(w, rank, ns) && Of(t) in ns && Known(w.s, t)
    requires w.s.tasks[t].phase.Spawning? || w.s.tasks[t].phase.Depending? || w.s.tasks[t].phase.Adding?
    ensures Of(u) in ns && Established(w.s, u) && List(w.s.tasks[t]) != [] && u == List(w.s.tasks[t])[0]
  {
    assert WaitsIn(w, Of(t), ns);
    var q :| q in ns && WaitsFor(w, Of(t), q);
    u := q.t;
    assert Rises(w.s, t, rank);
  }

  lemma NoMoveEnds(w: Threads, rank: Rank, ns: set<Node>, m: nat)
    requires RankedWaits(w, rank, ns) && Of(m) in ns && Known(w.s, m) && w.s.tasks[m].move
    ensures w.s.tasks[m].phase.Adding?
  {
    assert WaitsIn(w, Of(m), ns);
    var q :| q in ns && WaitsFor(w, Of(m), q);
    assert Rises(w.s, m, rank);
    NobodyGetsReady(w, ns, m);
    if w.s.tasks[m].phase.Finishing? {
      MoveNotifiesIdle(w, m, q.t);
      MembersAreBlocked(w, ns, q);
    }
  }

  lemma MoveNotifiesIdle(w: Threads, m: nat, t: nat)
    requires MovedAreIdle(w.s.tasks) && TaskWaits(w, m, t) && w.s.tasks[m].move && w.s.tasks[m].phase.Finishing?
    ensures IsIdle(w.s.tasks, t)
  {
    assert t in Pending(w.s.tasks[m]);
  }

  /** From an established task in a deadlock, the waits lead to another one of higher rank. */
  lemma WaitsRise(w: Threads, rank: Rank, ns: set<Node>, t: nat) returns (u: nat)
    requires RankedWaits(w, rank, ns) && Of(t) in ns && Established(w.s, t)
    ensures Of(u) in ns && Established(w.s, u) && rank(t) < rank(u)
  {
    assert WaitsIn(w, Of(t), ns);
    var q :| q in ns && WaitsFor(w, Of(t), q);
    NobodyGetsReady(w, ns, t);
    if w.s.tasks[t].phase.Depending? {
      u := WaitsForEstablished(w, rank, ns, t);
      assert Rises(w.s, t, rank);
    } else if w.s.tasks[t].phase.Executing? {
      if q.Mapper? {
        u := HostRises(w, rank, ns, t);
      } else {
        u := SpawnerRises(w, rank, ns, t, q.t);
      }
    } else {
      u := NotifierRises(w, rank, ns, t, q.t);
    }
  }

  lemma HostRises(w: Threads, rank: Rank, ns: set<Node>, t: nat) returns (u: nat)
    requires RankedWaits(w, rank, ns) && Mapper in ns && w.mapping.On? && w.mapping.host == Some(t)
    ensures Of(u) in ns && Established(w.s, u) && rank(t) < rank(u)
  {
    var m := MapperWaitsForMove(w, ns);
    u := WaitsForEstablished(w, rank, ns, m);
  }

  lemma SpawnerRises(w: Threads, rank: Rank, ns: set<Node>, t: nat, c: nat) returns (u: nat)
    requires RankedWaits(w, rank, ns) && Of(c) in ns && IsChild(w, t, c)
    ensures Of(u) in ns && Established(w.s, u) && rank(t) < rank(u)
  {
    MembersAreBlocked(w, ns, Of(c));
    NobodyGetsReady(w, ns, c);
    assert Consistent(w.s.tasks[c]);
    u := WaitsForEstablished(w, rank, ns, c);
  }

  lemma NotifierRises(w: Threads, rank: Rank, ns: set<Node>, t: nat, v: nat) returns (u: nat)
    requires RankedWaits(w, rank, ns) && Of(t) in ns && Of(v) in ns && Established(w.s, t)
    requires TaskWaits(w, t, v) && !w.s.tasks[t].phase.Depending? && !w.s.tasks[t].phase.Executing?
    ensures Of(u) in ns && Established(w.s, u) && rank(t) < rank(u)
  {
    assert Rises(w.s, t, rank) && Rises(w.s, v, rank);
    assert w.s.tasks[t].phase.Finishing? && v in Pending(w.s.tasks[t]);
    assert Above(w.s.tasks, t, v, rank);
    MembersAreBlocked(w, ns, Of(v));
    NobodyGetsReady(w, ns, v);
    if w.s.tasks[v].move {
      NoMoveEnds(w, rank, ns, v);
    }
    u := WaitsForEstablished(w, rank, ns, v);
  }

  function HigherIn(ns: set<Node>, rank: Rank, t: nat): set<Node> {
    set x | x in ns && x.Of? && rank(x.t) > rank(t)
  }

  /** The ranks of established tasks cannot rise for ever. */
  lemma {:induction false} NoCircle(w: Threads, rank: Rank, ns: set<Node>, t: nat)
    requires Usual(w) && Ranked(w, rank) && Of(t) in ns && Established(w.s, t)
    ensures !OtherDeadlock(w, ns)
    decreases HigherIn(ns, rank, t)
  {
    if OtherDeadlock(w, ns) {
      var u := WaitsRise(w, rank, ns, t);
      assert Of(u) in HigherIn(ns, rank, t) && Of(u) !in HigherIn(ns, rank, u);
      NoCircle(w, rank, ns, u);
    }
  }

  lemma SomeTask(w: Threads, ns: set<Node>) returns (t: nat)
    requires Usual(w) && OtherDeadlock(w, ns)
    ensures Of(t) in ns && Known(w.s, t)
  {
    var a :| a in ns;
    if a.Of? {
      assert WaitsIn(w, a, ns);
      t := a.t;
    } else {
      t := MapperWaitsForMove(w, ns);
    }
  }

  lemma OnlyFlagsDeadlock(w: Threads, rank: Rank, ns: set<Node>)
    requires Usual(w) && Ranked(w, rank) && Deadlocked(w, ns)
    ensures FlagMissing(w, ns)
  {
    if OtherDeadlock(w, ns) {
      var t := SomeTask(w, ns);
      NobodyGetsReady(w, ns, t);
      if w.s.tasks[t].move {
        NoMoveEnds(w, rank, ns, t);
      }
      if !Established(w.s, t) {
        t := WaitsForEstablished(w, rank, ns, t);
      }
      NoCircle(w, rank, ns, t);
    }
  }

  // ---- every step keeps it ----

  /** The step makes `d` remember `t`. */
  predicate LinkedBy(s: State, e: Event, d: nat, t: nat) {
    || ((e == Register(t) || e == Depend(t)) && Known(s, t) && Rest(s.tasks[t]) != [] && d == Rest(s.tasks[t])[0])
    || (e == MoveAdds(t) && Known(s, t) && s.tasks[t].phase == Adding(d))
    || (e.AddMove? && d == |s.tasks| && s.mapper == Moving(t))
  }

  lemma PendingByChange(s: State, e: Event, d: nat, b: Task, t: nat)
    requires d < |s.tasks| && Change(s, e, d, b) && t in Pending(b)
    ensures t in Pending(s.tasks[d]) || LinkedBy(s, e, d, t)
  {
  }

  lemma PendingAfter(s: State, e: Event, d: nat, t: nat)
    requires Step(s, e).Some? && d < |Step(s, e).value.tasks| && t in Pending(Step(s, e).value.tasks[d])
    ensures (d < |s.tasks| && t in Pending(s.tasks[d])) || LinkedBy(s, e, d, t)
  {
    if d < |s.tasks| {
      Changes(s, e, d);
      PendingByChange(s, e, d, Step(s, e).value.tasks[d], t);
    } else {
      NewTaskAdded(s, e, d);
    }
  }

  /** What a step does to the dependencies that a task has still to ask. */
  predicate RestMoves(e: Event, a: Task, b: Task, t: nat) {
    if e.Await? && e.t == t then a.phase.Executing? && !a.move && Rest(b) == e.deps
    else
      && (b.phase.Depending? ==> a.phase.Depending?)
      && (Rest(b) == Rest(a)
          || ((e.Register? || e.Depend?) && e.t == t && Rest(a) != [] && Rest(b) == Rest(a)[1..]))
  }

  /** Who begins or ends to run, or has dependencies added. */
  predicate RunMoves(e: Event, a: Task, b: Task, t: nat) {
    && b.move == a.move
    && (b.phase.Executing? || b.phase.Finishing? ==> a.phase.Executing? || a.phase.Finishing? || e == Begin(t))
    && (b.phase.Spawning? ==> a.phase.Spawning?)
    && (b.phase.Adding? ==> a.phase == b.phase || (e == MoveAsks(t, b.phase.dep) && a.move && a.phase.Free?))
    && (a.phase.Free? ==>
          b.phase.Free? || e == Begin(t) || b.phase.Adding? || (e == GetReady(t) && a.status.Waiting?))
    && (b.status.Waiting? ==> a.status.Waiting?)
  }

  /** The dependencies themselves. */
  predicate NamesMove(s: State, e: Event, a: Task, b: Task, t: nat) {
    || b.dependencies == a.dependencies
    || (e.Await? && e.t == t && b.dependencies == e.deps)
    || (e.AddMove? && s.mapper == Moving(t) && b.dependencies == a.dependencies + [|s.tasks|])
    || (e == MoveAdds(t) && a.phase.Adding? && b.dependencies == a.dependencies + [a.phase.dep])
  }

  lemma RestByChange(s: State, e: Event, t: nat, b: Task)
    requires t < |s.tasks| && Change(s, e, t, b)
    ensures RestMoves(e, s.tasks[t], b, t)
  {
  }

  lemma RestAfter(s: State, e: Event, t: nat)
    requires Step(s, e).Some? && t < |s.tasks|
    ensures t < |Step(s, e).value.tasks| && RestMoves(e, s.tasks[t], Step(s, e).value.tasks[t], t)
  {
    Changes(s, e, t);
    RestByChange(s, e, t, Step(s, e).value.tasks[t]);
  }

  lemma RunByChange(s: State, e: Event, t: nat, b: Task)
    requires t < |s.tasks| && Change(s, e, t, b)
    ensures RunMoves(e, s.tasks[t], b, t)
  {
  }

  lemma RunAfter(s: State, e: Event, t: nat)
    requires Step(s, e).Some? && t < |s.tasks|
    ensures t < |Step(s, e).value.tasks| && RunMoves(e, s.tasks[t], Step(s, e).value.tasks[t], t)
  {
    Changes(s, e, t);
    RunByChange(s, e, t, Step(s, e).value.tasks[t]);
  }

  lemma NamesByChange(s: State, e: Event, t: nat, b: Task)
    requires t < |s.tasks| && Change(s, e, t, b)
    ensures NamesMove(s, e, s.tasks[t], b, t)
  {
  }

  lemma NamesAfter(s: State, e: Event, t: nat)
    requires Step(s, e).Some? && t < |s.tasks|
    ensures t < |Step(s, e).value.tasks| && NamesMove(s, e, s.tasks[t], Step(s, e).value.tasks[t], t)
  {
    Changes(s, e, t);
    NamesByChange(s, e, t, Step(s, e).value.tasks[t]);
  }

  // ---- lists rise ----

  lemma ExposedStay(s: State, e: Event, ts: seq<nat>)
    requires Step(s, e).Some? && AllExposed(s, ts) && InRange(ts, |s.tasks|)
    ensures AllExposed(Step(s, e).value, ts)
  {
    forall i | 0 <= i < |ts| && ts[i] < |Step(s, e).value.tasks|
      ensures !Step(s, e).value.tasks[ts[i]].phase.Spawning? && !Step(s, e).value.tasks[ts[i]].move
    {
      RunAfter(s, e, ts[i]);
    }
  }

  lemma SpawnedStay(s: State, e: Event, ts: seq<nat>)
    requires Step(s, e).Some? && AllSpawned(s, ts) && InRange(ts, |s.tasks|)
    ensures AllSpawned(Step(s, e).value, ts)
  {
    forall i | 0 <= i < |ts| && ts[i] < |Step(s, e).value.tasks|
      ensures !Step(s, e).value.tasks[ts[i]].phase.Spawning?
    {
      RunAfter(s, e, ts[i]);
    }
  }

  /** The clauses, as far as they concern the runtime. */
  ghost predicate Keeps(s: State, e: Event, rank: Rank) {
    && NamesRise(s, e, rank) && AllExposed(s, Names(e)) && !Races(s, e)
    && (e.Await? ==> AllHigher(e.t, e.deps, rank))
  }

  ghost predicate Ordinary(s: State) {
    Orderly(s) && DependenciesKnown(s)
  }

  /** The part of `Rises` about the dependencies still to be asked. */
  predicate RestIsRising(s: State, task: Task, t: nat, rank: Rank) {
    && Ascending(Rest(task), rank) && AllExposed(s, Rest(task))
    && (task.phase.Depending? ==> !task.move && (Rest(task) != [] ==> rank(t) < rank(Rest(task)[0])))
    && (task.phase.Spawning? ==> !task.move)
  }

  lemma AwaitRises(s: State, t: nat, deps: seq<nat>, rank: Rank)
    requires Step(s, Await(t, deps)).Some? && Keeps(s, Await(t, deps), rank)
    ensures var r := Step(s, Await(t, deps)).value; t < |r.tasks| && RestIsRising(r, r.tasks[t], t, rank)
  {
    ExposedStay(s, Await(t, deps), deps);
  }

  lemma RestStillRises(s: State, e: Event, rank: Rank, t: nat)
    requires Step(s, e).Some? && t < |s.tasks| && InRange(Rest(s.tasks[t]), |s.tasks|) && !(e.Await? && e.t == t)
    requires RestIsRising(s, s.tasks[t], t, rank)
    ensures t < |Step(s, e).value.tasks| && RestIsRising(Step(s, e).value, Step(s, e).value.tasks[t], t, rank)
  {
    RestAfter(s, e, t);
    RunAfter(s, e, t);
    var rest := Rest(s.tasks[t]);
    ExposedStay(s, e, rest);
    assert rest != [] ==> forall i | 0 <= i < |rest| - 1 :: rest[1..][i] == rest[i + 1];
  }

  lemma RestRises(s: State, e: Event, rank: Rank, t: nat)
    requires Ordinary(s) && Step(s, e).Some? && t < |s.tasks| && Rises(s, t, rank) && Keeps(s, e, rank)
    ensures t < |Step(s, e).value.tasks| && RestIsRising(Step(s, e).value, Step(s, e).value.tasks[t], t, rank)
  {
    if e.Await? && e.t == t {
      AwaitRises(s, t, e.deps, rank);
    } else {
      assert InRange(Rest(s.tasks[t]), |s.tasks|);
      RestStillRises(s, e, rank, t);
    }
  }

  lemma NamesStaySpawned(s: State, e: Event, t: nat)
    requires Step(s, e).Some? && t < |s.tasks| && !s.tasks[t].move && !s.tasks[t].phase.Adding?
    requires AllKnown(s, s.tasks[t].dependencies) && AllSpawned(s, s.tasks[t].dependencies)
    requires e.Await? && e.t == t ==> AllKnown(s, e.deps) && AllSpawned(s, e.deps)
    ensures t < |Step(s, e).value.tasks| && AllSpawned(Step(s, e).value, Step(s, e).value.tasks[t].dependencies)
  {
    NamesAfter(s, e, t);
    SpawnedStay(s, e, s.tasks[t].dependencies);
    if e.Await? && e.t == t {
      SpawnedStay(s, e, e.deps);
    }
    if e.AddMove? {
      NewTaskAdded(s, e, |s.tasks|);
    }
  }

  lemma NamesAreSpawned(s: State, e: Event, rank: Rank, t: nat)
    requires Ordinary(s) && Step(s, e).Some? && t < |s.tasks| && Rises(s, t, rank) && Keeps(s, e, rank)
    ensures t < |Step(s, e).value.tasks|
    ensures var task := Step(s, e).value.tasks[t];
            !task.move ==> AllSpawned(Step(s, e).value, task.dependencies)
  {
    SameKind(s, e, t);
    assert AllKnown(s, s.tasks[t].dependencies);
    if !s.tasks[t].move {
      NamesStaySpawned(s, e, t);
    }
  }

  lemma AddingIsExposed(s: State, e: Event, rank: Rank, t: nat)
    requires Ordinary(s) && Step(s, e).Some? && t < |s.tasks| && AllRise(s, rank)
    ensures t < |Step(s, e).value.tasks|
    ensures var task := Step(s, e).value.tasks[t];
            task.phase.Adding? ==> task.move && DependencyExposed(Step(s, e).value, task.phase.dep)
  {
    RunAfter(s, e, t);
    assert Rises(s, t, rank);
    var task := Step(s, e).value.tasks[t];
    if task.phase.Adding? {
      if s.tasks[t].phase.Free? {
        AskedIsExposed(s, rank, t, task.phase.dep);
      }
      RunAfter(s, e, task.phase.dep);
    }
  }

  lemma AskedIsExposed(s: State, rank: Rank, m: nat, d: nat)
    requires Orderly(s) && AllRise(s, rank) && Step(s, MoveAsks(m, d)).Some?
    ensures DependencyExposed(s, d)
  {
    assert Rises(s, s.mapper.t, rank) && Consistent(s.tasks[s.mapper.t]);
    var deps := s.tasks[s.mapper.t].dependencies;
    var i :| 0 <= i < |deps| && deps[i] == d;
  }

  lemma NewRises(s: State, e: Event, rank: Rank, t: nat)
    requires Step(s, e).Some? && |s.tasks| <= t < |Step(s, e).value.tasks|
    requires Keeps(s, e, rank)
    ensures Rises(Step(s, e).value, t, rank)
  {
    NewTaskAdded(s, e, t);
    if e.Spawn? {
      ExposedStay(s, e, e.deps);
    }
  }

  lemma AllRiseKept(s: State, e: Event, rank: Rank)
    requires Ordinary(s) && AllRise(s, rank) && Step(s, e).Some? && Keeps(s, e, rank)
    ensures AllRise(Step(s, e).value, rank)
  {
    forall t | 0 <= t < |Step(s, e).value.tasks| ensures Rises(Step(s, e).value, t, rank) {
      if t < |s.tasks| {
        assert Rises(s, t, rank);
        RestRises(s, e, rank, t);
        NamesAreSpawned(s, e, rank, t);
        AddingIsExposed(s, e, rank, t);
      } else {
        NewRises(s, e, rank, t);
      }
    }
  }

  // ---- who is still to be notified ----

  /** A task that is handed to a worker is not waiting for a notification. */
  lemma QueuedIsNotPending(s: State, d: nat, t: nat)
    requires Orderly(s) && t < |s.tasks| && !s.tasks[t].move && Token(s, t) && d < |s.tasks|
    ensures t !in Pending(s.tasks[d])
  {
    assert Single(s, t) && Counted(s.tasks, t);
    PendingOccurs(s.tasks, d, t);
  }

  lemma BegunIsNotPending(s: State, t: nat, d: nat)
    requires Orderly(s) && Step(s, Begin(t)).Some? && !s.tasks[t].move && d < |s.tasks|
    ensures t !in Pending(s.tasks[d])
  {
    assert Token(s, t);
    QueuedIsNotPending(s, d, t);
  }

  lemma AboveKept(s: State, e: Event, rank: Rank, d: nat, t: nat)
    requires Ordinary(s) && TasksRanked(s, rank) && Step(s, e).Some? && Keeps(s, e, rank)
    requires d < |s.tasks| && t in Pending(s.tasks[d])
    ensures Above(Step(s, e).value.tasks, d, t, rank)
  {
    assert Above(s.tasks, d, t, rank) && Rises(s, t, rank);
    RunAfter(s, e, t);
    if s.tasks[t].move {
      MoveStaysAbove(s, e, rank, d, t);
    } else {
      RestAfter(s, e, t);
      if e == Begin(t) {
        BegunIsNotPending(s, t, d);
      }
    }
  }

  lemma MoveStaysAbove(s: State, e: Event, rank: Rank, d: nat, t: nat)
    requires Ordinary(s) && Step(s, e).Some? && Keeps(s, e, rank)
    requires t < |s.tasks| && s.tasks[t].move && Above(s.tasks, d, t, rank)
    ensures Above(Step(s, e).value.tasks, d, t, rank)
  {
    RunAfter(s, e, t);
    NamesAfter(s, e, t);
    MapperHoldsNoMove(s);
  }

  lemma MapperHoldsNoMove(s: State)
    requires Orderly(s)
    ensures s.mapper.Moving? ==> s.mapper.t < |s.tasks| && !s.tasks[s.mapper.t].move
  {
    assert s.mapper.Moving? ==> Consistent(s.tasks[s.mapper.t]);
  }

  lemma LinkedIsAbove(s: State, e: Event, rank: Rank, d: nat, t: nat)
    requires Ordinary(s) && TasksRanked(s, rank) && Step(s, e).Some? && t < |s.tasks|
    requires Rest(s.tasks[t]) != [] && d == Rest(s.tasks[t])[0]
    requires e == Register(t) || e == Depend(t)
    ensures Above(Step(s, e).value.tasks, d, t, rank)
  {
    RunAfter(s, e, t);
    AsksNext(s, e, t);
    assert Rises(s, t, rank);
  }

  lemma AsksNext(s: State, e: Event, t: nat)
    requires Step(s, e).Some? && (e == Register(t) || e == Depend(t))
    ensures t < |s.tasks| && t < |Step(s, e).value.tasks| && (s.tasks[t].phase.Spawning? || s.tasks[t].phase.Depending?)
    ensures Rest(s.tasks[t]) != [] && Rest(Step(s, e).value.tasks[t]) == Rest(s.tasks[t])[1..]
  {
  }

  lemma AddedIsAbove(s: State, rank: Rank, m: nat)
    requires Step(s, MoveAdds(m)).Some? && s.tasks[m].move
    ensures var d, tasks := s.tasks[m].phase.dep, Step(s, MoveAdds(m)).value.tasks;
            d < |s.tasks| && (m in Pending(tasks[d]) && m !in Pending(s.tasks[d]) ==> Above(tasks, d, m, rank))
  {
  }

  lemma MovedIsAbove(s: State, rank: Rank)
    requires Orderly(s) && Step(s, AddMove).Some?
    ensures Above(Step(s, AddMove).value.tasks, |s.tasks|, s.mapper.t, rank)
    ensures IsIdle(Step(s, AddMove).value.tasks, s.mapper.t)
  {
    MapperHoldsNoMove(s);
  }

  lemma PendingAboveKept(s: State, e: Event, rank: Rank)
    requires Ordinary(s) && TasksRanked(s, rank) && Step(s, e).Some? && Keeps(s, e, rank)
    ensures PendingAbove(Step(s, e).value.tasks, rank)
  {
    var tasks := Step(s, e).value.tasks;
    forall d, t: nat | 0 <= d < |tasks| && t in Pending(tasks[d]) ensures Above(tasks, d, t, rank) {
      PendingAfter(s, e, d, t);
      if d < |s.tasks| && t in Pending(s.tasks[d]) {
        AboveKept(s, e, rank, d, t);
      } else if e.AddMove? {
        MovedIsAbove(s, rank);
      } else if e.MoveAdds? {
        assert Rises(s, t, rank);
        AddedIsAbove(s, rank, t);
      } else {
        LinkedIsAbove(s, e, rank, d, t);
      }
    }
  }

  lemma IdleStays(s: State, e: Event, m: nat, t: nat)
    requires Orderly(s) && Step(s, e).Some? && m < |s.tasks| && t in Pending(s.tasks[m]) && IsIdle(s.tasks, t)
    ensures IsIdle(Step(s, e).value.tasks, t)
  {
    RunAfter(s, e, t);
    if e == Begin(t) {
      BegunIsNotPending(s, t, m);
    }
  }

  /** Nothing of the program waits for a data movement task but the task it moves data for. */
  lemma MovedAreIdleKept(s: State, e: Event, rank: Rank)
    requires Ordinary(s) && TasksRanked(s, rank) && Step(s, e).Some?
    ensures MovedAreIdle(Step(s, e).value.tasks)
  {
    var tasks := Step(s, e).value.tasks;
    forall m, t: nat | 0 <= m < |tasks| && tasks[m].move && t in Pending(tasks[m]) ensures IsIdle(tasks, t) {
      MovedIsIdle(s, e, rank, m, t);
    }
  }

  lemma MovedIsIdle(s: State, e: Event, rank: Rank, m: nat, t: nat)
    requires Ordinary(s) && TasksRanked(s, rank) && Step(s, e).Some? && m < |Step(s, e).value.tasks|
    requires Step(s, e).value.tasks[m].move && t in Pending(Step(s, e).value.tasks[m])
    ensures IsIdle(Step(s, e).value.tasks, t)
  {
    PendingAfter(s, e, m, t);
    SameKind(s, e, m);
    if m < |s.tasks| && t in Pending(s.tasks[m]) {
      IdleStays(s, e, m, t);
    } else if e.AddMove? {
      MovedIsAbove(s, rank);
    } else {
      NotAsked(s, rank, e, m, t);
    }
  }

  lemma NotAsked(s: State, rank: Rank, e: Event, m: nat, t: nat)
    requires AllRise(s, rank) && m < |s.tasks| && s.tasks[m].move
    ensures !e.AddMove? ==> !LinkedBy(s, e, m, t)
  {
    if t < |s.tasks| {
      assert Rises(s, t, rank);
      var rest := Rest(s.tasks[t]);
      assert rest != [] ==> AllExposed(s, rest) && rest[0] != m;
    }
  }

  // ---- bodies that spawn, and the mapper in the thread of a body ----

  lemma ChildKeepsHigher(w: Threads, a: Act, rank: Rank, t: nat, c: nat)
    requires Usual(w) && Ranked(w, rank) && Move(w, a).Some? && IsChild(w, t, c)
    ensures c < |Move(w, a).value.s.tasks|
    ensures var rest := Rest(Move(w, a).value.s.tasks[c]); rest != [] ==> rank(t) < rank(rest[0])
  {
    MoveIsStep(w, a);
    if EventOf(a).Some? {
      RestAfter(w.s, EventOf(a).value, c);
      assert Rises(w.s, c, rank) && Consistent(w.s.tasks[c]);
    }
  }

  lemma ChildrenHigherKept(w: Threads, a: Act, rank: Rank)
    requires Usual(w) && Ranked(w, rank) && Move(w, a).Some? && ObservesAll(w, a, CLAUSES, rank)
    ensures ChildrenHigher(Move(w, a).value, rank)
  {
    var r := Move(w, a).value;
    forall t: nat, c: nat | IsChild(r, t, c)
      ensures Rest(r.s.tasks[c]) != [] ==> rank(t) < rank(Rest(r.s.tasks[c])[0])
    {
      ChildBefore(w, a, t, c);
      if IsChild(w, t, c) {
        ChildKeepsHigher(w, a, rank, t, c);
      } else {
        assert Observes(w, a, Higher, rank);
      }
    }
  }

  lemma AddsHigherKept(w: Threads, a: Act, rank: Rank)
    requires Usual(w) && Ranked(w, rank) && Move(w, a).Some? && ObservesAll(w, a, CLAUSES, rank)
    ensures AddsHigher(Move(w, a).value, rank)
  {
    var r := Move(w, a).value;
    forall m | r.mapping.On? && r.mapping.host.Some? && 0 <= m < |r.s.tasks| && r.s.tasks[m].phase.Adding?
      ensures rank(r.mapping.host.value) < rank(r.s.tasks[m].phase.dep)
    {
      AddIsHigher(w, a, rank, m);
    }
  }

  lemma AddIsHigher(w: Threads, a: Act, rank: Rank, m: nat)
    requires Usual(w) && Ranked(w, rank) && Move(w, a).Some? && ObservesAll(w, a, CLAUSES, rank)
    requires Move(w, a).value.mapping.On? && Move(w, a).value.mapping.host.Some?
    requires m < |Move(w, a).value.s.tasks| && Move(w, a).value.s.tasks[m].phase.Adding?
    ensures var r := Move(w, a).value; rank(r.mapping.host.value) < rank(r.s.tasks[m].phase.dep)
  {
    AddBefore(w, a, m);
    if a.Other? && a.e.MoveAsks? && a.e.m == m {
      AskIsHigher(w, rank, m, a.e.dep);
    } else {
      assert MapperAdds(w.s);
    }
  }

  lemma AskIsHigher(w: Threads, rank: Rank, m: nat, d: nat)
    requires Move(w, Other(MoveAsks(m, d))).Some? && ObservesAll(w, Other(MoveAsks(m, d)), CLAUSES, rank)
    ensures w.mapping.On? && Move(w, Other(MoveAsks(m, d))).value.mapping == w.mapping
    ensures w.mapping.host.Some? ==> rank(w.mapping.host.value) < rank(d)
  {
    assert Observes(w, Other(MoveAsks(m, d)), Higher, rank);
    assert [d][0] == d;
  }

  lemma AddBefore(w: Threads, a: Act, m: nat)
    requires Usual(w) && Move(w, a).Some? && m < |Move(w, a).value.s.tasks|
    requires Move(w, a).value.s.tasks[m].phase.Adding?
    ensures var phase := Move(w, a).value.s.tasks[m].phase;
            || (m < |w.s.tasks| && w.s.tasks[m].phase == phase)
            || (a == Other(MoveAsks(m, phase.dep)) && w.mapping.On?)
  {
    MoveIsStep(w, a);
    if EventOf(a).Some? {
      if m < |w.s.tasks| {
        PhaseAfter(w.s, EventOf(a).value, m);
      } else {
        NewTaskAdded(w.s, EventOf(a).value, m);
      }
    }
  }

  // ---- the theorems ----

  lemma ObservedKeeps(w: Threads, a: Act, rank: Rank)
    requires ObservesAll(w, a, CLAUSES, rank) && EventOf(a).Some?
    ensures Keeps(w.s, EventOf(a).value, rank)
  {
    assert Observes(w, a, InOrder, rank) && Observes(w, a, Exposed, rank);
    assert Observes(w, a, Higher, rank) && Observes(w, a, NoRace, rank);
  }

  lemma TasksRankedKept(s: State, e: Event, rank: Rank)
    requires Ordinary(s) && TasksRanked(s, rank) && Step(s, e).Some? && Keeps(s, e, rank)
    ensures Ordinary(Step(s, e).value) && TasksRanked(Step(s, e).value, rank)
  {
    OrderlyKept(s, e);
    DependenciesStayKnown(s, e);
    AllRiseKept(s, e, rank);
    PendingAboveKept(s, e, rank);
    MovedAreIdleKept(s, e, rank);
  }

  lemma RankedKept(w: Threads, a: Act, rank: Rank)
    requires Usual(w) && Ranked(w, rank) && Move(w, a).Some? && ObservesAll(w, a, CLAUSES, rank)
    ensures Usual(Move(w, a).value) && Ranked(Move(w, a).value, rank)
  {
    MoveIsStep(w, a);
    SoundKept(w, a);
    if EventOf(a).Some? {
      ObservedKeeps(w, a, rank);
      TasksRankedKept(w.s, EventOf(a).value, rank);
    }
    ChildrenHigherKept(w, a, rank);
    AddsHigherKept(w, a, rank);
  }

  lemma {:induction false} StaysRanked(w: Threads, acts: seq<Act>, rank: Rank)
    requires Usual(w) && Ranked(w, rank) && Moves(w, acts).Some? && Follows(w, acts, CLAUSES, rank)
    ensures Usual(Moves(w, acts).value) && Ranked(Moves(w, acts).value, rank)
    decreases |acts|
  {
    if acts != [] {
      RankedKept(w, acts[0], rank);
      StaysRanked(Move(w, acts[0]).value, acts[1..], rank);
    }
  }

  lemma BeginsRanked(rank: Rank)
    ensures Usual(Begins()) && Ranked(Begins(), rank)
  {
    StartIsInvariant();
  }

  /** The mapper needs the mutex of a task from which the waits lead back to the mapper. */
  ghost predicate FlagLeadsBack(w: Threads) {
    HasFlags(w) && Leads(w, Of(w.mapping.filling.flags[0]), Mapper)
  }

  lemma FlagsAreAllItNeeds(w: Threads, u: nat)
    requires Usual(w) && HasFlags(w) && MapperNeeds(w, u)
    ensures u == w.mapping.filling.flags[0]
  {
    if w.s.tasks[u].phase.Adding? {
      assert MapperAdds(w.s);
    }
  }

  lemma LeadsBack(w: Threads, rank: Rank, ns: set<Node>)
    requires Usual(w) && Ranked(w, rank) && Deadlocked(w, ns)
    ensures FlagLeadsBack(w)
  {
    OnlyFlagsDeadlock(w, rank, ns);
    assert WaitsIn(w, Mapper, ns);
    var q :| q in ns && WaitsFor(w, Mapper, q);
    FlagsAreAllItNeeds(w, q.t);
    FollowTo(w, q, {Mapper}, ns, {});
    if ms :| ms !! {Mapper} && Deadlocked(w, ms) {
      OnlyFlagsDeadlock(w, rank, ms);
    }
  }

  lemma GoesRound(w: Threads)
    requires Usual(w) && FlagLeadsBack(w)
    ensures AnyDeadlock(w)
  {
    var d := w.mapping.filling.flags[0];
    var path :| Chain(w, path) && path[0] == Of(d) && path[|path| - 1] == Mapper;
    assert WaitsFor(w, Mapper, Of(d));
    CircleDeadlocks(w, path);
  }

  /** A program that follows the rules is in a deadlock exactly when the mapper, filling its queue, needs the mutex of
      a task from which the waits lead back to the mapper. */
  lemma RankedDeadlockExact(acts: seq<Act>, rank: Rank)
    requires Moves(Begins(), acts).Some? && Follows(Begins(), acts, CLAUSES, rank)
    ensures var w := Moves(Begins(), acts).value; AnyDeadlock(w) <==> FlagLeadsBack(w)
  {
    BeginsRanked(rank);
    StaysRanked(Begins(), acts, rank);
    var w := Moves(Begins(), acts).value;
    if FlagLeadsBack(w) {
      GoesRound(w);
    } else if ns :| Deadlocked(w, ns) {
      LeadsBack(w, rank, ns);
    }
  }

  /** Otherwise everybody who holds a mutex, or runs the mapping phase, can go on, or waits for somebody who can. */
  lemma RankedProgramsGoOn(acts: seq<Act>, rank: Rank, a: Node)
    requires Moves(Begins(), acts).Some? && Follows(Begins(), acts, CLAUSES, rank)
    requires Occupied(Moves(Begins(), acts).value, a) && !FlagLeadsBack(Moves(Begins(), acts).value)
    ensures Goes(Moves(Begins(), acts).value, a)
  {
    var w := Moves(Begins(), acts).value;
    RankedDeadlockExact(acts, rank);
    BeginsSound();
    AlwaysSound(Begins(), acts);
    SomebodyMoves(w, a);
  }
}
