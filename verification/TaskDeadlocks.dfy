/**
 Deadlock. A thread that holds the mutex of a task (to register it, enter it in the queue of new tasks, run its body,
 register it with what it awaits, or notify its dependents) waits for the next mutex it needs, and `threading.Lock` is
 not reentrant. A body that spawns holds its own mutex as well as the new task's. The mapper runs in whatever thread
 starts the mapping phase, which may be in the middle of a body; while it fills its queue it holds the monitor of the
 queue of new tasks and takes the mutexes of dependencies to read their flags. So the state machine is extended here by
 who spawned whom, and by what the mapping phase is doing.
 */
module TaskDeadlocks {
  import opened Wrappers
  import opened TaskRuntime
  import opened TaskGraphInvariants
  import opened TaskRuntimeInvariants
  import opened TaskRuntimeTheorems

  /** Whether the mapper has the monitor of the queue of new tasks, to fill its own, and then the dependencies whose
      flags it has still to read. */
  datatype Filling = NotFilling | HasQueue | Reading(flags: seq<nat>)

  /** The mapping phase, with the task in whose body it runs. */
  datatype Mapping = Off | On(host: Option<nat>, filling: Filling)

  /** `parent` maps a task that was spawned in the body of another task to that task. */
  datatype Threads = Threads(s: State, parent: map<nat, nat>, mapping: Mapping)

  /** The body of task `x` spawns a task; the steps of the mapping phase that are none of the runtime's; or any step of
      the runtime. A `Spawn` among those is by no task. */
  datatype Act =
    | SpawnBy(x: nat, deps: seq<nat>)
    | Enter(host: Option<nat>)
    | TakeQueue
    | Look
    | ReadFlag
    | Leave
    | Other(e: Event)

  function EventOf(a: Act): Option<Event> {
    match a
    case SpawnBy(_, deps) => Some(Spawn(deps))
    case Other(e) => Some(e)
    case _ => None
  }

  /** The body of `t` is spawning `c`. */
  predicate IsChild(w: Threads, t: nat, c: nat) {
    c in w.parent && w.parent[c] == t && Known(w.s, c) && w.s.tasks[c].status.Waiting?
  }

  predicate Spawning(w: Threads, t: nat) {
    exists c | c in w.parent :: IsChild(w, t, c)
  }

  predicate Hosts(w: Threads, t: nat) {
    w.mapping.On? && w.mapping.host == Some(t)
  }

  /** The body of `t` can take its next step. */
  predicate BodyRuns(w: Threads, t: nat) {
    Known(w.s, t) && w.s.tasks[t].phase.Executing? && !Spawning(w, t) && !Hosts(w, t)
  }

  predicate OfMapper(e: Event) {
    e.Dequeue? || e.PlacementFails? || e.PlacementSucceeds? || e.AddMove? || e.MoveAsks? || e.MoveAdds?
        || e.EnqueueMove?
    || e.Assign? || e.CheckBlocked?
  }

  predicate QueueFree(w: Threads) {
    w.mapping.On? ==> w.mapping.filling.NotFilling?
  }

  predicate Allowed(w: Threads, e: Event) {
    && (e.Return? || e.Await? ==> BodyRuns(w, e.t))
    && (OfMapper(e) ==> w.mapping.On? && w.mapping.filling.NotFilling?)
    && (e.ReadyToMap? ==> QueueFree(w))
    && (e.Fill? ==> w.mapping.On? && w.mapping.filling == Reading([]))
  }

  function AfterStep(m: Mapping, e: Event): Mapping {
    if e.Fill? && m.On? then m.(filling := NotFilling) else m
  }

  /** The dependencies that `check_all_dependency_mapped` asks: up to the first that is not assigned. */
  function Asked(s: State, deps: seq<nat>): (r: seq<nat>)
    ensures InRange(r, |s.tasks|)
  {
    if deps == [] || !Known(s, deps[0]) then []
    else [deps[0]] + if s.tasks[deps[0]].isAssigned then Asked(s, deps[1..]) else []
  }

  /** And those that it asks for the tasks of a queue. Nothing is assigned before all are asked. */
  function Flags(s: State, queue: seq<nat>): (r: seq<nat>)
    ensures InRange(r, |s.tasks|)
  {
    if queue == [] then []
    else (if Known(s, queue[0]) then Asked(s, s.tasks[queue[0]].dependencies) else []) + Flags(s, queue[1..])
  }

  predicate CanTake(w: Threads, a: Act) {
    match a
    case SpawnBy(x, deps) => BodyRuns(w, x) && !w.s.tasks[x].move && AllKnown(w.s, deps)
    case Enter(host) =>
      && w.mapping.Off? && w.s.mapper.Idle?
      && (host.Some? ==> BodyRuns(w, host.value) && !w.s.tasks[host.value].move)
    case TakeQueue => w.mapping.On? && w.mapping.filling.NotFilling? && w.s.mapper.Idle?
    case Look => w.mapping.On? && w.mapping.filling.HasQueue?
    case ReadFlag =>
      && w.mapping.On? && w.mapping.filling.Reading? && w.mapping.filling.flags != []
      && Known(w.s, w.mapping.filling.flags[0]) && w.s.tasks[w.mapping.filling.flags[0]].phase.Free?
    case Leave => w.mapping.On? && w.mapping.filling.NotFilling? && w.s.mapper.Idle?
    case Other(e) => Allowed(w, e) && Step(w.s, e).Some?
  }

  function Move(w: Threads, a: Act): Option<Threads> {
    if !CanTake(w, a) then None
    else
      match a
      case SpawnBy(x, deps) =>
        Some(w.(s := w.s.(tasks := w.s.tasks + [NewTask(deps)]), parent := w.parent[|w.s.tasks| := x]))
      case Enter(host) => Some(w.(mapping := On(host, NotFilling)))
      case TakeQueue => Some(w.(mapping := w.mapping.(filling := HasQueue)))
      case Look => Some(w.(mapping := w.mapping.(filling := Reading(Flags(w.s, w.s.newest)))))
      case ReadFlag => Some(w.(mapping := w.mapping.(filling := Reading(w.mapping.filling.flags[1..]))))
      case Leave => Some(w.(mapping := Off))
      case Other(e) => Some(w.(s := Step(w.s, e).value, mapping := AfterStep(w.mapping, e)))
  }

  function Begins(): Threads {
    Threads(Start(), map[], Off)
  }

  function Moves(w: Threads, acts: seq<Act>): Option<Threads>
    decreases |acts|
  {
    if acts == [] then Some(w)
    else
      match Move(w, acts[0])
      case None => None
      case Some(next) => Moves(next, acts[1..])
  }

  /** What a move does to the state of the runtime: one of its steps, or nothing. */
  lemma MoveIsStep(w: Threads, a: Act)
    requires Move(w, a).Some?
    ensures match EventOf(a)
            case Some(e) => Step(w.s, e) == Some(Move(w, a).value.s)
            case None => Move(w, a).value.s == w.s
  {
  }

  // ---- waiting ----

  /** The holder of the mutex of a task, or the thread of the mapping phase. */
  datatype Node = Of(t: nat) | Mapper

  /** The tasks whose mutexes the holder of the task's mutex still has to take. */
  function List(task: Task): seq<nat> {
    match task.phase
    case Finishing(rest, _) => rest
    case Adding(d) => [d]
    case _ => Rest(task)
  }

  /** The holder of the mutex of `t` needs that of `u`, or the end of the spawn of `u`, to go on. */
  predicate TaskWaits(w: Threads, t: nat, u: nat) {
    && Known(w.s, t) && Known(w.s, u)
    && if w.s.tasks[t].phase.Executing? then IsChild(w, t, u)
       else List(w.s.tasks[t]) != [] && List(w.s.tasks[t])[0] == u
  }

  /** It needs the monitor of the queue, or the end of the mapping phase. */
  predicate NeedsMapper(w: Threads, t: nat) {
    && Known(w.s, t) && w.mapping.On?
    && ((w.s.tasks[t].phase.Executing? && w.mapping.host == Some(t))
        || (w.s.tasks[t].phase.Readying? && !w.mapping.filling.NotFilling?))
  }

  /** The next flag is that of `u`. */
  predicate WantsFlag(f: Filling, u: nat) {
    f.Reading? && f.flags != [] && f.flags[0] == u
  }

  /** The mapper needs the mutex of `u`, to read its flag, to check it, or to end what it does with it. */
  predicate MapperNeeds(w: Threads, u: nat) {
    && Known(w.s, u) && w.mapping.On?
    && (WantsFlag(w.mapping.filling, u) || w.s.tasks[u].phase.Adding? || w.s.mapper == Checking(u))
  }

  predicate WaitsFor(w: Threads, a: Node, b: Node) {
    match (a, b)
    case (Of(t), Of(u)) => TaskWaits(w, t, u)
    case (Of(t), Mapper) => NeedsMapper(w, t)
    case (Mapper, Of(u)) => MapperNeeds(w, u)
    case (Mapper, Mapper) => false
  }

  predicate Occupied(w: Threads, a: Node) {
    match a
    case Of(t) => Known(w.s, t) && !w.s.tasks[t].phase.Free?
    case Mapper => w.mapping.On?
  }

  ghost predicate WaitsIn(w: Threads, a: Node, ns: set<Node>) {
    exists b :: b in ns && WaitsFor(w, a, b)
  }

  /** Everybody in `ns` waits for somebody in `ns`. */
  ghost predicate Deadlocked(w: Threads, ns: set<Node>) {
    ns != {} && forall a {:trigger WaitsIn(w, a, ns)} | a in ns :: WaitsIn(w, a, ns)
  }

  ghost predicate AnyDeadlock(w: Threads) {
    exists ns :: Deadlocked(w, ns)
  }

  /** Needs somebody who is occupied. */
  ghost predicate Blocked(w: Threads, a: Node) {
    exists b :: WaitsFor(w, a, b) && Occupied(w, b)
  }

  /** The task whose mutex the thread taking the step holds before it. */
  function Own(e: Event): Option<nat> {
    match e
    case Register(t) => Some(t)
    case ReadyToMap(t) => Some(t)
    case Return(t, _) => Some(t)
    case Await(t, _) => Some(t)
    case Depend(t) => Some(t)
    case Resume(t) => Some(t)
    case Notify(t) => Some(t)
    case Finish(t) => Some(t)
    case MoveAdds(m) => Some(m)
    case _ => None
  }

  /** Who takes the step, holding a mutex or running the mapping phase. */
  function Holder(w: Threads, a: Act): Option<Node> {
    match a
    case SpawnBy(x, _) => Some(Of(x))
    case Enter(host) => if host.Some? then Some(Of(host.value)) else None
    case Other(e) =>
      if Own(e).Some? then Some(Of(Own(e).value))
      else if e.GetReady? then (if e.t in w.parent then Some(Of(w.parent[e.t])) else None)
      else if OfMapper(e) || e.Fill? then Some(Mapper)
      else None
    case _ => Some(Mapper)
  }

  // ---- what always holds ----

  /** A registration has something left to ask; a body that spawns runs, spawns one task at a time, and is no data
      movement task's. */
  ghost predicate SpawnsSound(w: Threads) {
    && (forall t | 0 <= t < |w.s.tasks| && w.s.tasks[t].phase.Spawning? :: w.s.tasks[t].phase.rest != [])
    && (forall t | 0 <= t < |w.s.tasks| && w.s.tasks[t].phase.Adding? :: w.s.tasks[t].phase.dep < |w.s.tasks|)
    && (forall c | c in w.parent ::
          c < |w.s.tasks| && w.parent[c] < |w.s.tasks| && !w.s.tasks[w.parent[c]].move)
    && (forall t: nat, c: nat | IsChild(w, t, c) :: Known(w.s, t) && w.s.tasks[t].phase.Executing? && !Hosts(w, t))
    && (forall t: nat, c: nat, d: nat | IsChild(w, t, c) && IsChild(w, t, d) :: c == d)
  }

  /** The mapper has a task in its hand only in the mapping phase, and not while it fills its queue. */
  ghost predicate MappingSound(w: Threads) {
    && (w.mapping.Off? || !w.mapping.filling.NotFilling? ==> w.s.mapper.Idle?)
    && (w.mapping.On? && w.mapping.host.Some? ==>
          && Known(w.s, w.mapping.host.value) && w.s.tasks[w.mapping.host.value].phase.Executing?
          && !w.s.tasks[w.mapping.host.value].move)
    && (w.mapping.On? && w.mapping.filling.Reading? ==> InRange(w.mapping.filling.flags, |w.s.tasks|))
  }

  ghost predicate Sound(w: Threads) {
    SpawnsSound(w) && MappingSound(w)
  }

  lemma HeldByChange(s: State, e: Event, t: nat, b: Task)
    requires Known(s, t) && Change(s, e, t, b) && !s.tasks[t].phase.Free? && Own(e) != Some(t)
    ensures b == s.tasks[t]
  {
  }

  /** A task whose mutex is held is changed only by the holder. */
  lemma OnlyHolderChanges(s: State, e: Event, t: nat)
    requires Step(s, e).Some? && Known(s, t) && !s.tasks[t].phase.Free? && Own(e) != Some(t)
    ensures t < |Step(s, e).value.tasks| && Step(s, e).value.tasks[t] == s.tasks[t]
  {
    Changes(s, e, t);
    HeldByChange(s, e, t, Step(s, e).value.tasks[t]);
  }

  lemma HeldByHolder(s: State, e: Event)
    requires Step(s, e).Some? && Own(e).Some?
    ensures Known(s, Own(e).value) && !s.tasks[Own(e).value].phase.Free?
  {
  }

  lemma NewTaskAdded(s: State, e: Event, t: nat)
    requires Step(s, e).Some? && |s.tasks| <= t < |Step(s, e).value.tasks|
    ensures t == |s.tasks| && (e.Spawn? || e.AddMove?)
    ensures Step(s, e).value.tasks[t]
            == if e.Spawn? then NewTask(e.deps) else Task(true, Running, true, 0, [], [s.mapper.t], Free, [], false)
  {
  }

  lemma TasksStay(s: State, e: Event)
    requires Step(s, e).Some?
    ensures |s.tasks| <= |Step(s, e).value.tasks|
  {
  }

  lemma ExecutesByChange(s: State, e: Event, t: nat, b: Task)
    requires Known(s, t) && Change(s, e, t, b) && s.tasks[t].phase.Executing?
    ensures b.phase.Executing? || ((e.Return? || e.Await?) && e.t == t)
  {
  }

  /** Only the end of a body or an await ends the running of a body. */
  lemma StaysExecuting(s: State, e: Event, t: nat)
    requires Step(s, e).Some? && Known(s, t) && s.tasks[t].phase.Executing?
    ensures t < |Step(s, e).value.tasks|
    ensures Step(s, e).value.tasks[t].phase.Executing? || ((e.Return? || e.Await?) && e.t == t)
  {
    Changes(s, e, t);
    ExecutesByChange(s, e, t, Step(s, e).value.tasks[t]);
  }

  lemma SameKind(s: State, e: Event, t: nat)
    requires Step(s, e).Some?
    ensures t < |s.tasks| ==>
              && t < |Step(s, e).value.tasks| && Step(s, e).value.tasks[t].move == s.tasks[t].move
              && (Step(s, e).value.tasks[t].status.Waiting? ==> s.tasks[t].status.Waiting?)
  {
    if t < |s.tasks| {
      GrowsAt(s, e, t);
    }
  }

  // ---- registrations and additions ----

  lemma PhaseByChange(s: State, e: Event, t: nat, b: Task)
    requires Known(s, t) && Change(s, e, t, b)
    ensures b.phase.Spawning? ==> s.tasks[t].phase.Spawning? && (b.phase == s.tasks[t].phase || b.phase.rest != [])
    ensures b.phase.Adding? ==> b.phase == s.tasks[t].phase || (e.MoveAsks? && e.m == t && b.phase == Adding(e.dep))
  {
  }

  /** What the phase of a task can be after a step, as far as registrations and additions go. */
  lemma PhaseAfter(s: State, e: Event, t: nat)
    requires Step(s, e).Some? && Known(s, t)
    ensures t < |Step(s, e).value.tasks|
    ensures var next := Step(s, e).value.tasks[t].phase;
            && (next.Spawning? ==> s.tasks[t].phase.Spawning? && (next == s.tasks[t].phase || next.rest != []))
            && (next.Adding? ==> next == s.tasks[t].phase
                                 || (e.MoveAsks? && e.m == t && Known(s, e.dep) && next == Adding(e.dep)))
  {
    Changes(s, e, t);
    PhaseByChange(s, e, t, Step(s, e).value.tasks[t]);
  }

  lemma ListsSoundAt(w: Threads, e: Event, t: nat)
    requires SpawnsSound(w) && Step(w.s, e).Some? && t < |Step(w.s, e).value.tasks|
    ensures var r := Step(w.s, e).value;
            && (r.tasks[t].phase.Spawning? ==> r.tasks[t].phase.rest != [])
            && (r.tasks[t].phase.Adding? ==> r.tasks[t].phase.dep < |r.tasks|)
  {
    TasksStay(w.s, e);
    if t < |w.s.tasks| {
      PhaseAfter(w.s, e, t);
    } else {
      NewTaskAdded(w.s, e, t);
    }
  }

  /** A move adds to the tasks at most one. */
  lemma TasksAfter(w: Threads, a: Act)
    requires Move(w, a).Some?
    ensures |w.s.tasks| <= |Move(w, a).value.s.tasks| <= |w.s.tasks| + 1
  {
    MoveIsStep(w, a);
    if EventOf(a).Some? {
      TasksStay(w.s, EventOf(a).value);
      if |Move(w, a).value.s.tasks| > |w.s.tasks| + 1 {
        NewTaskAdded(w.s, EventOf(a).value, |w.s.tasks| + 1);
      }
    }
  }

  // ---- soundness is kept ----

  lemma ChildBefore(w: Threads, a: Act, t: nat, c: nat)
    requires SpawnsSound(w) && Move(w, a).Some? && IsChild(Move(w, a).value, t, c)
    ensures IsChild(w, t, c) || (a.SpawnBy? && a.x == t && c == |w.s.tasks|)
  {
    MoveIsStep(w, a);
    if c < |w.s.tasks| && EventOf(a).Some? {
      SameKind(w.s, EventOf(a).value, c);
    }
  }

  /** The body that spawns stays in its place. */
  lemma ParentStays(w: Threads, a: Act, t: nat, c: nat)
    requires Sound(w) && Move(w, a).Some? && (IsChild(w, t, c) || (a.SpawnBy? && a.x == t))
    ensures var r := Move(w, a).value;
            Known(r.s, t) && r.s.tasks[t].phase.Executing? && !Hosts(r, t)
  {
    MoveIsStep(w, a);
    if EventOf(a).Some? {
      var e := EventOf(a).value;
      StaysExecuting(w.s, e, t);
      if IsChild(w, t, c) {
        assert Spawning(w, t);
      }
    } else if IsChild(w, t, c) {
      assert Spawning(w, t);
    }
  }

  lemma ParentsKept(w: Threads, a: Act)
    requires Sound(w) && Move(w, a).Some?
    ensures var r := Move(w, a).value;
            forall c | c in r.parent ::
              c < |r.s.tasks| && r.parent[c] < |r.s.tasks| && !r.s.tasks[r.parent[c]].move
  {
    MoveIsStep(w, a);
    TasksAfter(w, a);
    var r := Move(w, a).value;
    forall c | c in r.parent ensures c < |r.s.tasks| && r.parent[c] < |r.s.tasks| && !r.s.tasks[r.parent[c]].move {
      if EventOf(a).Some? {
        SameKind(w.s, EventOf(a).value, r.parent[c]);
      }
    }
  }

  lemma OneChild(w: Threads, a: Act, t: nat, c: nat, d: nat)
    requires Sound(w) && Move(w, a).Some? && IsChild(Move(w, a).value, t, c) && IsChild(Move(w, a).value, t, d)
    ensures c == d
  {
    ChildBefore(w, a, t, c);
    ChildBefore(w, a, t, d);
    if IsChild(w, t, c) || IsChild(w, t, d) {
      assert Spawning(w, t);
    }
  }

  lemma SpawnsSoundKept(w: Threads, a: Act)
    requires Sound(w) && Move(w, a).Some?
    ensures SpawnsSound(Move(w, a).value)
  {
    var r := Move(w, a).value;
    MoveIsStep(w, a);
    ParentsKept(w, a);
    forall t | 0 <= t < |r.s.tasks|
      ensures r.s.tasks[t].phase.Spawning? ==> r.s.tasks[t].phase.rest != []
      ensures r.s.tasks[t].phase.Adding? ==> r.s.tasks[t].phase.dep < |r.s.tasks|
    {
      if EventOf(a).Some? {
        ListsSoundAt(w, EventOf(a).value, t);
      }
    }
    forall t: nat, c: nat | IsChild(r, t, c) ensures Known(r.s, t) && r.s.tasks[t].phase.Executing? && !Hosts(r, t) {
      ChildBefore(w, a, t, c);
      ParentStays(w, a, t, c);
    }
    forall t: nat, c: nat, d: nat | IsChild(r, t, c) && IsChild(r, t, d) ensures c == d {
      OneChild(w, a, t, c, d);
    }
  }

  /** Outside the mapping phase, and while the queue is filled, the mapper stays idle. */
  lemma IdleStays(w: Threads, e: Event)
    requires Step(w.s, e).Some? && Allowed(w, e) && w.s.mapper.Idle?
    ensures Step(w.s, e).value.mapper.Idle? || (w.mapping.On? && w.mapping.filling.NotFilling? && OfMapper(e))
  {
  }

  lemma MappingSoundKept(w: Threads, a: Act)
    requires Sound(w) && Move(w, a).Some?
    ensures MappingSound(Move(w, a).value)
  {
    MoveIsStep(w, a);
    TasksAfter(w, a);
    if a.Other? && w.s.mapper.Idle? {
      IdleStays(w, a.e);
    }
    if w.mapping.On? && w.mapping.host.Some? && EventOf(a).Some? {
      StaysExecuting(w.s, EventOf(a).value, w.mapping.host.value);
      SameKind(w.s, EventOf(a).value, w.mapping.host.value);
    }
  }

  lemma SoundKept(w: Threads, a: Act)
    requires Sound(w) && Move(w, a).Some?
    ensures Sound(Move(w, a).value)
  {
    SpawnsSoundKept(w, a);
    MappingSoundKept(w, a);
  }

  /** The runtime's invariants are kept, too. */
  lemma MoveKeepsInvariant(w: Threads, a: Act)
    requires Invariant(w.s) && Move(w, a).Some?
    ensures Invariant(Move(w, a).value.s)
  {
    MoveIsStep(w, a);
    if EventOf(a).Some? {
      InvariantKept(w.s, EventOf(a).value);
    }
  }

  // ---- the flags ----

  /** While the mapper fills its queue no flag changes, and nobody enters the queue of new tasks. So it does not matter
      when each flag is read. */
  lemma FlagsStay(w: Threads, a: Act, t: nat)
    requires Sound(w) && Move(w, a).Some? && t < |w.s.tasks|
    requires w.mapping.On? && !w.mapping.filling.NotFilling? && a != Other(Fill)
    ensures var r := Move(w, a).value.s;
            r.newest == w.s.newest && t < |r.tasks| && r.tasks[t].isAssigned == w.s.tasks[t].isAssigned
  {
    MoveIsStep(w, a);
    if EventOf(a).Some? {
      OnlyMapperAssigns(w.s, EventOf(a).value, t);
      QueueStays(w.s, EventOf(a).value);
    }
  }

  lemma QueueStays(s: State, e: Event)
    requires Step(s, e).Some? && !e.ReadyToMap? && !e.Fill? && !e.PlacementFails?
    ensures Step(s, e).value.newest == s.newest
  {
  }

  // ---- a deadlock is for ever ----

  /** What the node does is the same in both states. */
  predicate Unchanged(w: Threads, r: Threads, a: Node) {
    match a
    case Of(t) => Known(w.s, t) && Known(r.s, t) && r.s.tasks[t] == w.s.tasks[t]
    case Mapper => r.mapping == w.mapping && r.s.mapper == w.s.mapper
  }

  lemma HolderIsStuck(w: Threads, a: Act, t: nat)
    requires Sound(w) && Move(w, a).Some? && Blocked(w, Of(t))
    ensures EventOf(a).Some? ==> Own(EventOf(a).value) != Some(t)
    ensures Holder(w, a) != Some(Of(t))
  {
    var b :| WaitsFor(w, Of(t), b) && Occupied(w, b);
    if a.Other? && a.e.GetReady? && a.e.t in w.parent && w.parent[a.e.t] == t {
      assert IsChild(w, t, a.e.t);
    }
    if b.Of? && IsChild(w, t, b.t) {
      assert Spawning(w, t);
    }
  }

  lemma TaskIsKept(w: Threads, a: Act, t: nat)
    requires Sound(w) && Move(w, a).Some? && Blocked(w, Of(t))
    ensures Unchanged(w, Move(w, a).value, Of(t))
  {
    HolderIsStuck(w, a, t);
    MoveIsStep(w, a);
    var b :| WaitsFor(w, Of(t), b) && Occupied(w, b);
    if EventOf(a).Some? {
      OnlyHolderChanges(w.s, EventOf(a).value, t);
    }
  }

  lemma MapperIsStuck(w: Threads, a: Act)
    requires Sound(w) && AddsInHand(w.s) && Move(w, a).Some? && Blocked(w, Mapper)
    ensures Holder(w, a) != Some(Mapper)
    ensures Unchanged(w, Move(w, a).value, Mapper)
  {
    var b :| WaitsFor(w, Mapper, b) && Occupied(w, b);
    assert w.s.tasks[b.t].phase.Adding? ==> MapperAdds(w.s);
    MoveIsStep(w, a);
    if a.Other? && !OfMapper(a.e) {
      MapperUntouched(w.s, a.e);
    }
  }

  lemma MapperUntouched(s: State, e: Event)
    requires Step(s, e).Some? && (!OfMapper(e) || e.MoveAdds?)
    ensures Step(s, e).value.mapper == s.mapper
  {
  }

  lemma BlockedIsKept(w: Threads, a: Act, n: Node)
    requires Sound(w) && AddsInHand(w.s) && Move(w, a).Some? && Blocked(w, n)
    ensures Holder(w, a) != Some(n) && Unchanged(w, Move(w, a).value, n)
  {
    match n
    case Of(t) =>
      HolderIsStuck(w, a, t);
      TaskIsKept(w, a, t);
    case Mapper => MapperIsStuck(w, a);
  }

  lemma ParentsStay(w: Threads, a: Act, c: nat)
    requires Sound(w) && Move(w, a).Some? && c in w.parent
    ensures c in Move(w, a).value.parent && Move(w, a).value.parent[c] == w.parent[c]
  {
  }

  lemma WaitIsKept(w: Threads, a: Act, n: Node, b: Node)
    requires Sound(w) && AddsInHand(w.s) && Move(w, a).Some? && WaitsFor(w, n, b)
    requires Unchanged(w, Move(w, a).value, n) && Unchanged(w, Move(w, a).value, b)
    ensures WaitsFor(Move(w, a).value, n, b)
  {
    if n.Of? && b.Of? && IsChild(w, n.t, b.t) {
      ParentsStay(w, a, b.t);
    }
  }

  lemma WaiterIsOccupied(w: Threads, a: Node, b: Node)
    requires Sound(w) && WaitsFor(w, a, b)
    ensures Occupied(w, a)
  {
  }

  lemma MembersAreBlocked(w: Threads, ns: set<Node>, a: Node)
    requires Sound(w) && Deadlocked(w, ns) && a in ns
    ensures Blocked(w, a) && Occupied(w, a)
  {
    assert WaitsIn(w, a, ns);
    var b :| b in ns && WaitsFor(w, a, b);
    assert WaitsIn(w, b, ns);
    var c :| c in ns && WaitsFor(w, b, c);
    WaiterIsOccupied(w, a, b);
    WaiterIsOccupied(w, b, c);
  }

  lemma MemberIsKept(w: Threads, a: Act, ns: set<Node>, n: Node)
    requires Sound(w) && AddsInHand(w.s) && Deadlocked(w, ns) && Move(w, a).Some? && n in ns
    ensures Unchanged(w, Move(w, a).value, n) && WaitsIn(Move(w, a).value, n, ns)
  {
    assert WaitsIn(w, n, ns);
    var b :| b in ns && WaitsFor(w, n, b);
    MembersAreBlocked(w, ns, n);
    MembersAreBlocked(w, ns, b);
    BlockedIsKept(w, a, n);
    BlockedIsKept(w, a, b);
    WaitIsKept(w, a, n, b);
  }

  /** No step of any thread ends a deadlock, or changes anything about its members. */
  lemma DeadlockIsKept(w: Threads, a: Act, ns: set<Node>)
    requires Sound(w) && AddsInHand(w.s) && Deadlocked(w, ns) && Move(w, a).Some?
    ensures Deadlocked(Move(w, a).value, ns)
    ensures forall n | n in ns :: Unchanged(w, Move(w, a).value, n)
  {
    forall n | n in ns ensures Unchanged(w, Move(w, a).value, n) && WaitsIn(Move(w, a).value, n, ns) {
      MemberIsKept(w, a, ns, n);
    }
  }

  /** So its tasks never finish and its mapping phase never ends, whatever anybody does. */
  lemma {:induction false} DeadlockIsForEver(w: Threads, acts: seq<Act>, ns: set<Node>, n: Node)
    requires Sound(w) && Invariant(w.s) && Deadlocked(w, ns) && n in ns && Moves(w, acts).Some?
    ensures var r := Moves(w, acts).value; Deadlocked(r, ns) && Unchanged(w, r, n) && Occupied(r, n)
    decreases |acts|
  {
    MembersAreBlocked(w, ns, n);
    if acts != [] {
      SoundKept(w, acts[0]);
      MoveKeepsInvariant(w, acts[0]);
      DeadlockIsKept(w, acts[0], ns);
      DeadlockIsForEver(Move(w, acts[0]).value, acts[1..], ns, n);
    } else {
      StaysItself(w, n);
    }
  }

  lemma StaysItself(w: Threads, n: Node)
    requires Occupied(w, n)
    ensures Unchanged(w, w, n)
  {
  }

  // ---- nothing else stops the threads ----

  ghost predicate CanMove(w: Threads, n: Node) {
    exists a :: Holder(w, a) == Some(n) && Move(w, a).Some?
  }

  /** A thread that holds a mutex, or runs the mapping phase, can go on exactly when it does not need somebody who is
      occupied. */
  lemma HolderMoves(w: Threads, n: Node)
    requires Sound(w) && Invariant(w.s) && Occupied(w, n)
    ensures CanMove(w, n) <==> !Blocked(w, n)
  {
    if Blocked(w, n) {
      forall a | Move(w, a).Some? ensures Holder(w, a) != Some(n) {
        BlockedIsKept(w, a, n);
      }
    } else {
      var a := NextMove(w, n);
      assert Holder(w, a) == Some(n) && Move(w, a).Some?;
    }
  }

  lemma NextMove(w: Threads, n: Node) returns (a: Act)
    requires Sound(w) && Invariant(w.s) && Occupied(w, n) && !Blocked(w, n)
    ensures Holder(w, a) == Some(n) && Move(w, a).Some?
  {
    match n
    case Mapper => a := MapperGoes(w);
    case Of(t) =>
      if w.s.tasks[t].phase.Executing? {
        a := BodyGoes(w, t);
      } else {
        a := HolderGoes(w, t);
      }
  }

  lemma BodyGoes(w: Threads, t: nat) returns (a: Act)
    requires Known(w.s, t) && w.s.tasks[t].phase.Executing? && !Blocked(w, Of(t))
    ensures Holder(w, a) == Some(Of(t)) && Move(w, a).Some?
  {
    if Spawning(w, t) {
      var c :| c in w.parent && IsChild(w, t, c);
      assert WaitsFor(w, Of(t), Of(c)) && !Occupied(w, Of(c));
      a := Other(GetReady(c));
    } else {
      assert Hosts(w, t) ==> WaitsFor(w, Of(t), Mapper) && Occupied(w, Mapper);
      a := Other(Return(t, true));
    }
  }

  lemma HolderGoes(w: Threads, t: nat) returns (a: Act)
    requires Sound(w) && Bounded(w.s.tasks) && AllConsistent(w.s.tasks) && AddsInHand(w.s) && Occupied(w, Of(t))
    requires !w.s.tasks[t].phase.Executing? && !Blocked(w, Of(t))
    ensures Holder(w, a) == Some(Of(t)) && Move(w, a).Some?
  {
    NextIsFree(w, t);
    match w.s.tasks[t].phase
    case Readying => a := ReadyGoes(w, t);
    case Adding(_) => a := AddingGoes(w, t);
    case _ => a := ListGoes(w, t);
  }

  lemma ListGoes(w: Threads, t: nat) returns (a: Act)
    requires SpawnsSound(w) && Known(w.s, t)
    requires w.s.tasks[t].phase.Spawning? || w.s.tasks[t].phase.Depending? || w.s.tasks[t].phase.Finishing?
    requires var list := List(w.s.tasks[t]);
             list != [] ==> list[0] < |w.s.tasks| && list[0] != t && w.s.tasks[list[0]].phase.Free?
    ensures Holder(w, a) == Some(Of(t)) && Move(w, a).Some?
  {
    match w.s.tasks[t].phase
    case Spawning(_) => a := Other(Register(t));
    case Depending(rest) => a := Other(if rest == [] then Resume(t) else Depend(t));
    case Finishing(rest, _) => a := Other(if rest == [] then Finish(t) else Notify(t));
  }

  lemma NextIsFree(w: Threads, t: nat)
    requires Sound(w) && Bounded(w.s.tasks) && Occupied(w, Of(t)) && !w.s.tasks[t].phase.Executing?
    requires !Blocked(w, Of(t))
    ensures var list := List(w.s.tasks[t]);
            list != [] ==> list[0] < |w.s.tasks| && list[0] != t && w.s.tasks[list[0]].phase.Free?
  {
    var list := List(w.s.tasks[t]);
    if list != [] {
      ListInRange(w, t);
      assert WaitsFor(w, Of(t), Of(list[0])) && !Occupied(w, Of(list[0]));
    }
  }

  lemma ReadyGoes(w: Threads, t: nat) returns (a: Act)
    requires AllConsistent(w.s.tasks) && Known(w.s, t) && w.s.tasks[t].phase.Readying? && !Blocked(w, Of(t))
    ensures Holder(w, a) == Some(Of(t)) && Move(w, a).Some?
  {
    assert Consistent(w.s.tasks[t]);
    assert !QueueFree(w) ==> WaitsFor(w, Of(t), Mapper) && Occupied(w, Mapper);
    a := Other(ReadyToMap(t));
  }

  lemma AddingGoes(w: Threads, t: nat) returns (a: Act)
    requires Sound(w) && AddsInHand(w.s) && Known(w.s, t) && w.s.tasks[t].phase.Adding?
    requires var d := w.s.tasks[t].phase.dep; d < |w.s.tasks| && d != t && w.s.tasks[d].phase.Free?
    ensures Holder(w, a) == Some(Of(t)) && Move(w, a).Some?
  {
    assert MapperAdds(w.s);
    a := Other(MoveAdds(t));
  }

  lemma ListInRange(w: Threads, t: nat)
    requires Sound(w) && Bounded(w.s.tasks) && t < |w.s.tasks|
    ensures InRange(List(w.s.tasks[t]), |w.s.tasks|) && InRange(w.s.tasks[t].dependents, |w.s.tasks|)
  {
  }

  lemma MapperGoes(w: Threads) returns (a: Act)
    requires Sound(w) && AllConsistent(w.s.tasks) && MapperKnows(w.s) && w.mapping.On? && !Blocked(w, Mapper)
    ensures Holder(w, a) == Some(Mapper) && Move(w, a).Some?
  {
    match w.mapping.filling
    case HasQueue => a := Look;
    case Reading(flags) =>
      if flags == [] {
        a := Other(Fill);
      } else {
        assert WaitsFor(w, Mapper, Of(flags[0])) && !Occupied(w, Of(flags[0]));
        a := ReadFlag;
      }
    case NotFilling => a := MappingGoes(w);
  }

  lemma MappingGoes(w: Threads) returns (a: Act)
    requires AllConsistent(w.s.tasks) && MapperKnows(w.s) && w.mapping.On? && w.mapping.filling.NotFilling?
    requires !Blocked(w, Mapper)
    ensures Holder(w, a) == Some(Mapper) && Move(w, a).Some?
  {
    match w.s.mapper
    case Idle => a := Leave;
    case Placing(_) => a := Other(PlacementFails);
    case Moving(t) =>
      MovingAssigns(w, t);
      a := Other(Assign);
    case Checking(t) =>
      assert WaitsFor(w, Mapper, Of(t)) && !Occupied(w, Of(t));
      a := Other(CheckBlocked);
  }

  lemma MovingAssigns(w: Threads, t: nat)
    requires AllConsistent(w.s.tasks) && MapperKnows(w.s) && w.mapping.On? && w.s.mapper == Moving(t)
    requires !Blocked(w, Mapper)
    ensures Step(w.s, Assign).Some?
  {
    assert Consistent(w.s.tasks[t]);
    if m :| 0 <= m < |w.s.tasks| && w.s.tasks[m].phase.Adding? {
      assert WaitsFor(w, Mapper, Of(m)) && Occupied(w, Of(m));
      assert false;
    }
  }

  /** Following who waits for whom leads from `a` to `b`. */
  ghost predicate Leads(w: Threads, a: Node, b: Node) {
    exists path :: Chain(w, path) && path[0] == a && path[|path| - 1] == b
  }

  predicate Chain(w: Threads, path: seq<Node>) {
    path != [] && forall i | 0 < i < |path| :: WaitsFor(w, path[i - 1], path[i])
  }

  lemma LeadsToItself(w: Threads, a: Node)
    ensures Leads(w, a, a)
  {
    assert Chain(w, [a]);
  }

  lemma LeadsFurther(w: Threads, a: Node, b: Node, c: Node)
    requires WaitsFor(w, a, b) && Leads(w, b, c)
    ensures Leads(w, a, c)
  {
    var path :| Chain(w, path) && path[0] == b && path[|path| - 1] == c;
    assert Chain(w, [a] + path);
  }

  /** Somebody whom `a` waits for, or `a` itself, can go on. */
  ghost predicate Goes(w: Threads, a: Node) {
    exists b :: Leads(w, a, b) && CanMove(w, b)
  }

  lemma WaitsInMore(w: Threads, x: Node, a: Node, b: Node, ns: set<Node>)
    requires WaitsFor(w, a, b) && (x == a || WaitsIn(w, x, ns))
    ensures WaitsIn(w, x, ns + {b})
  {
    if x == a {
      assert b in ns + {b} && WaitsFor(w, x, b);
    } else {
      var c :| c in ns && WaitsFor(w, x, c);
      assert c in ns + {b} && WaitsFor(w, x, c);
    }
  }

  lemma ChainGrows(w: Threads, a: Node, b: Node, seen: set<Node>)
    requires WaitsFor(w, a, b)
    requires forall x {:trigger WaitsIn(w, x, seen + {a})} | x in seen :: WaitsIn(w, x, seen + {a})
    ensures forall x {:trigger WaitsIn(w, x, seen + {a} + {b})} | x in seen + {a} :: WaitsIn(w, x, seen + {a} + {b})
    ensures b in seen + {a} ==> Deadlocked(w, seen + {a})
  {
    var more := seen + {a};
    forall x | x in more ensures WaitsIn(w, x, more + {b}) {
      assert x in seen ==> WaitsIn(w, x, more);
      WaitsInMore(w, x, a, b, more);
    }
    if b in more {
      assert more + {b} == more;
      assert a in more;
    }
  }

  function Nodes(n: nat): (r: set<Node>)
    ensures forall a :: a in r <==> a.Mapper? || a.t < n
  {
    if n == 0 then {Mapper} else Nodes(n - 1) + {Of(n - 1)}
  }

  /** Follow who waits for whom: somebody can go on, or there is a deadlock. */
  lemma {:induction false} Follow(w: Threads, a: Node, seen: set<Node>, all: set<Node>)
    requires Sound(w) && Invariant(w.s) && Occupied(w, a) && all == Nodes(|w.s.tasks|) && a !in seen
    requires forall x {:trigger WaitsIn(w, x, seen + {a})} | x in seen :: WaitsIn(w, x, seen + {a})
    ensures AnyDeadlock(w) || Goes(w, a)
    decreases all - seen
  {
    HolderMoves(w, a);
    if Blocked(w, a) {
      var b :| WaitsFor(w, a, b) && Occupied(w, b);
      ChainGrows(w, a, b, seen);
      if b !in seen + {a} {
        assert a in all - seen;
        Follow(w, b, seen + {a}, all);
        GoesFurther(w, a, b);
      }
    } else {
      LeadsToItself(w, a);
    }
  }

  lemma GoesFurther(w: Threads, a: Node, b: Node)
    requires WaitsFor(w, a, b)
    ensures Goes(w, b) ==> Goes(w, a)
  {
    if c :| Leads(w, b, c) && CanMove(w, c) {
      LeadsFurther(w, a, b, c);
    }
  }

  /** Unless there is a deadlock, everybody who holds a mutex or runs the mapping phase can go on, or waits for
      somebody who can. */
  lemma SomebodyMoves(w: Threads, a: Node)
    requires Sound(w) && Invariant(w.s) && Occupied(w, a)
    ensures AnyDeadlock(w) || Goes(w, a)
  {
    Follow(w, a, {}, Nodes(|w.s.tasks|));
  }

  // ---- circles ----

  function Members(path: seq<Node>): (ns: set<Node>)
    ensures forall a :: a in ns <==> a in path
  {
    if path == [] then {} else {path[0]} + Members(path[1..])
  }

  /** Waits that go round are a deadlock. */
  lemma CircleDeadlocks(w: Threads, path: seq<Node>)
    requires Chain(w, path) && WaitsFor(w, path[|path| - 1], path[0])
    ensures Deadlocked(w, Members(path))
  {
    var ns := Members(path);
    assert path[0] in ns;
    forall a | a in ns ensures WaitsIn(w, a, ns) {
      var i :| 0 <= i < |path| && path[i] == a;
      if i + 1 < |path| {
        assert WaitsFor(w, path[i + 1 - 1], path[i + 1]) && path[i + 1] in ns;
      }
    }
  }

  ghost predicate LeadsToAny(w: Threads, a: Node, hs: set<Node>) {
    exists h :: h in hs && Leads(w, a, h)
  }

  /** There is a deadlock without any of `hs`. */
  ghost predicate DeadlockWithout(w: Threads, hs: set<Node>) {
    exists ns :: ns !! hs && Deadlocked(w, ns)
  }

  /** From `a`, following the waits inside `ns` comes to one of `hs`, or goes round without them. */
  lemma {:induction false} FollowTo(w: Threads, a: Node, hs: set<Node>, ns: set<Node>, seen: set<Node>)
    requires a in ns && a !in seen && seen !! hs
    requires forall y {:trigger WaitsIn(w, y, ns)} | y in ns && y !in hs :: WaitsIn(w, y, ns)
    requires forall x {:trigger WaitsIn(w, x, seen + {a})} | x in seen :: WaitsIn(w, x, seen + {a})
    ensures DeadlockWithout(w, hs) || LeadsToAny(w, a, hs)
    decreases ns - seen
  {
    if a in hs {
      LeadsToItself(w, a);
    } else {
      assert WaitsIn(w, a, ns);
      var b :| b in ns && WaitsFor(w, a, b);
      ChainGrows(w, a, b, seen);
      if b !in seen + {a} {
        FollowTo(w, b, hs, ns, seen + {a});
        if LeadsToAny(w, b, hs) {
          var h :| h in hs && Leads(w, b, h);
          LeadsFurther(w, a, b, h);
        }
      }
    }
  }

  // ---- runs ----

  lemma BeginsSound()
    ensures Sound(Begins()) && Invariant(Begins().s)
  {
    StartIsInvariant();
  }

  lemma {:induction false} AlwaysSound(w: Threads, acts: seq<Act>)
    requires Sound(w) && Invariant(w.s) && Moves(w, acts).Some?
    ensures Sound(Moves(w, acts).value) && Invariant(Moves(w, acts).value.s)
    decreases |acts|
  {
    if acts != [] {
      SoundKept(w, acts[0]);
      MoveKeepsInvariant(w, acts[0]);
      AlwaysSound(Move(w, acts[0]).value, acts[1..]);
    }
  }

  function EventsOf(acts: seq<Act>): seq<Event> {
    if acts == [] then []
    else (if EventOf(acts[0]).Some? then [EventOf(acts[0]).value] else []) + EventsOf(acts[1..])
  }

  /** Every run of the threads is a run of the runtime. */
  lemma {:induction false} MovesAreRuns(w: Threads, acts: seq<Act>)
    requires Moves(w, acts).Some?
    ensures Run(w.s, EventsOf(acts)) == Some(Moves(w, acts).value.s)
    decreases |acts|
  {
    if acts != [] {
      MoveIsStep(w, acts[0]);
      MovesAreRuns(Move(w, acts[0]).value, acts[1..]);
      if EventOf(acts[0]).Some? {
        assert EventsOf(acts)[1..] == EventsOf(acts[1..]);
      } else {
        assert EventsOf(acts) == EventsOf(acts[1..]);
      }
    }
  }
}
