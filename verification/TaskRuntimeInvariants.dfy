/** The invariants of every reachable state, and that each step keeps them. */
module TaskRuntimeInvariants {
  import opened Wrappers
  import opened TaskRuntime
  import opened TaskGraphInvariants

  // ---- the graph ----

  /** What a task's record always looks like. */
  predicate Consistent(task: Task) {
    && (task.phase.Executing? || task.phase.Depending? ==> task.isAssigned && task.status.Running? && task.started)
    && (task.phase.Finishing? ==> task.isAssigned && !task.status.Waiting? && task.started)
    && (task.phase.Spawning? || task.phase.Readying? ==> task.status.Waiting?)
    && (task.phase.Adding? ==> task.move)
    && (Terminal(task) ==> task.started)
    && (task.status.Waiting? ==> !task.isAssigned && !task.move)
    && (!task.isAssigned ==> !task.started && !Terminal(task) && !task.move)
  }

  ghost predicate AllConsistent(tasks: seq<Task>) {
    forall t | 0 <= t < |tasks| :: Consistent(tasks[t])
  }

  /** How often a task is queued for running, or handed to a worker. */
  function Tokens(s: State, t: nat): nat {
    multiset(s.ready)[t] + s.device[t] + s.workers[t]
  }

  predicate Token(s: State, t: nat) {
    Tokens(s, t) > 0
  }

  ghost predicate TokensMapped(s: State) {
    forall t: nat | Token(s, t) :: t < |s.tasks| && s.tasks[t].isAssigned
  }

  ghost predicate MapperKnows(s: State) {
    match s.mapper
    case Idle => true
    case Checking(t) => t < |s.tasks| && s.tasks[t].isAssigned && !s.tasks[t].move
    case _ => s.mapper.t < |s.tasks| && !s.tasks[s.mapper.t].isAssigned && !s.tasks[s.mapper.t].status.Waiting?
  }

  ghost predicate Roles(s: State) {
    AllConsistent(s.tasks) && TokensMapped(s) && MapperKnows(s)
  }

  // ---- mapping ----

  predicate InHand(mapper: Mapper, t: nat) {
    (mapper.Placing? || mapper.Moving?) && mapper.t == t
  }

  function Held(s: State, t: nat): nat {
    multiset(s.newest)[t] + multiset(s.current)[t] + if InHand(s.mapper, t) then 1 else 0
  }

  /** The mapper neither loses nor duplicates a task: one that is ready to map and not assigned is in exactly one
      place, and no other task is in any. */
  ghost predicate Conserved(s: State) {
    forall t: nat ::
      Held(s, t) == if t < |s.tasks| && !s.tasks[t].status.Waiting? && !s.tasks[t].isAssigned then 1 else 0
  }

  ghost predicate AllAssigned(tasks: seq<Task>, ts: seq<nat>) {
    forall i | 0 <= i < |ts| :: ts[i] < |tasks| && tasks[ts[i]].isAssigned
  }

  /** Whatever passed the check for mapped dependencies has only mapped dependencies. */
  ghost predicate Closed(s: State) {
    forall t | 0 <= t < |s.tasks| && (s.tasks[t].isAssigned || t in s.current || InHand(s.mapper, t)) ::
      AllAssigned(s.tasks, s.tasks[t].spawnedOn)
  }

  /** Until the mapper adds data movement tasks, a task's dependencies are those it was spawned with. */
  ghost predicate Plain(s: State) {
    forall t | 0 <= t < |s.tasks| && !s.tasks[t].isAssigned && s.mapper != Moving(t) ::
      s.tasks[t].dependencies == s.tasks[t].spawnedOn
  }

  // ---- no lost wakeup ----

  /** A schedulable task that nobody is running is queued, with a worker, or about to be checked by the mapper. */
  ghost predicate Awake(s: State) {
    forall t | 0 <= t < |s.tasks| && !s.tasks[t].move && Schedulable(s.tasks[t]) && s.tasks[t].phase.Free? ::
      Token(s, t) || s.mapper == Checking(t)
  }

  /** The mapper adds dependencies to a data movement task only while it has a task in its hand. */
  predicate AddsInHand(s: State) {
    MapperAdds(s) ==> s.mapper.Moving?
  }

  ghost predicate Invariant(s: State) {
    && Graph(s.tasks, false) && Roles(s) && Conserved(s) && Closed(s) && Plain(s) && Awake(s)
    && Remembered(s.tasks) && AddsInHand(s)
  }

  // ---- the shapes of the steps ----

  /** The step leaves the tasks alone. */
  predicate OnQueues(e: Event) {
    e.Fill? || e.Dequeue? || e.PlacementFails? || e.PlacementSucceeds? || e.CheckBlocked? || e.Schedule? || e.Launch?
    || e.EnqueueMove?
  }

  /** The step asks a dependency, tells a dependent, or adds a dependency. */
  predicate OnLinks(e: Event) {
    e.Register? || e.Depend? || e.Notify? || e.MoveAdds?
  }

  /** `rest` is left to ask, and the counter may fall by one. */
  predicate AsksOne(a: Task, b: Task, next: Phase) {
    b == a.(phase := next) || b == a.(phase := next, blocking := a.blocking - 1)
  }

  /** `t` is asked to remember `u`. */
  predicate MayRemember(a: Task, b: Task, u: nat) {
    b == a || (a.phase.Free? && b == a.(dependents := a.dependents + [u]))
  }

  /** What a link step makes of task `t`. */
  predicate LinkChange(s: State, e: Event, t: nat, b: Task)
    requires t < |s.tasks|
  {
    var a := s.tasks[t];
    match e
    case Register(u) =>
      && u < |s.tasks| && s.tasks[u].phase.Spawning? && s.tasks[u].phase.rest != []
      && var rest := s.tasks[u].phase.rest;
         if t == u then AsksOne(a, b, if rest[1..] == [] then Free else Spawning(rest[1..]))
         else if t == rest[0] then MayRemember(a, b, u) else b == a
    case Depend(u) =>
      && u < |s.tasks| && s.tasks[u].phase.Depending? && s.tasks[u].phase.rest != []
      && var rest := s.tasks[u].phase.rest;
         if t == u then AsksOne(a, b, Depending(rest[1..])) else if t == rest[0] then MayRemember(a, b, u) else b == a
    case Notify(u) =>
      && u < |s.tasks| && s.tasks[u].phase.Finishing? && s.tasks[u].phase.rest != []
      && if t == u then b == a.(phase := Finishing(a.phase.rest[1..], a.phase.ok))
         else if t == s.tasks[u].phase.rest[0] then a.phase.Free? && b == a.(blocking := a.blocking - 1) else b == a
    case MoveAdds(u) =>
      && u < |s.tasks| && s.tasks[u].phase.Adding?
      && var d := s.tasks[u].phase.dep;
         if t == u then
           || b == a.(phase := Free)
           || b == a.(phase := Free, blocking := a.blocking + 1, dependencies := a.dependencies + [d])
         else if t == d then MayRemember(a, b, u) else b == a
    case _ => false
  }

  /** What any other step makes of it. */
  predicate OtherChange(s: State, e: Event, t: nat, b: Task)
    requires t < |s.tasks|
  {
    var a := s.tasks[t];
    match e
    case GetReady(u) =>
      if t == u then a.phase.Free? && a.status.Waiting? && b == a.(phase := Readying) else b == a
    case ReadyToMap(u) =>
      if t == u then a.phase.Readying? && a.status.Waiting? && b == a.(status := Running, phase := Free) else b == a
    case AddMove =>
      if s.mapper == Moving(t) then
        a.phase.Free? && b == a.(blocking := a.blocking + 1, dependencies := a.dependencies + [|s.tasks|])
      else b == a
    case MoveAsks(m, d) => if t == m then a.phase.Free? && a.move && b == a.(phase := Adding(d)) else b == a
    case Assign => if s.mapper == Moving(t) then a.phase.Free? && b == a.(isAssigned := true) else b == a
    case Begin(u) =>
      if t == u then
        && a.phase.Free?
        && b == a.(started := true, phase := if a.status.Running? then Executing else Finishing(a.dependents, false))
      else b == a
    case Return(u, ok) =>
      if t == u then a.phase.Executing? && b == a.(phase := Finishing(a.dependents, ok)) else b == a
    case Await(u, deps) =>
      if t == u then
        && a.phase.Executing? && !a.move
        && b == a.(phase := Depending(deps), blocking := |deps|, dependencies := deps)
      else b == a
    case Resume(u) => if t == u then a.phase == Depending([]) && b == a.(phase := Free) else b == a
    case Finish(u) =>
      if t == u then
        && a.phase.Finishing? && a.phase.rest == []
        && b == a.(phase := Free, dependents := [], status := if a.phase.ok then Completed else Failed)
      else b == a
    case _ => b == a
  }

  predicate Change(s: State, e: Event, t: nat, b: Task)
    requires t < |s.tasks|
  {
    if OnLinks(e) then LinkChange(s, e, t, b) else OtherChange(s, e, t, b)
  }

  lemma AskChanges(s: State, e: Event, t: nat)
    requires Step(s, e).Some? && (e.Register? || e.Depend?) && t < |s.tasks|
    ensures t < |Step(s, e).value.tasks| && LinkChange(s, e, t, Step(s, e).value.tasks[t])
  {
  }

  lemma NotifyChanges(s: State, e: Event, t: nat)
    requires Step(s, e).Some? && e.Notify? && t < |s.tasks|
    ensures t < |Step(s, e).value.tasks| && LinkChange(s, e, t, Step(s, e).value.tasks[t])
  {
  }

  lemma MoveAddsChanges(s: State, e: Event, t: nat)
    requires Step(s, e).Some? && e.MoveAdds? && t < |s.tasks|
    ensures t < |Step(s, e).value.tasks| && LinkChange(s, e, t, Step(s, e).value.tasks[t])
  {
  }

  lemma MappingChanges(s: State, e: Event, t: nat)
    requires Step(s, e).Some? && t < |s.tasks|
    requires e.Spawn? || e.GetReady? || e.ReadyToMap? || e.AddMove? || e.MoveAsks? || e.Assign?
    ensures t < |Step(s, e).value.tasks| && OtherChange(s, e, t, Step(s, e).value.tasks[t])
  {
  }

  lemma RunningChanges(s: State, e: Event, t: nat)
    requires Step(s, e).Some? && t < |s.tasks|
    requires e.Begin? || e.Return? || e.Await? || e.Resume? || e.Finish?
    ensures t < |Step(s, e).value.tasks| && OtherChange(s, e, t, Step(s, e).value.tasks[t])
  {
  }

  /** What a step makes of one task. */
  lemma Changes(s: State, e: Event, t: nat)
    requires Step(s, e).Some? && t < |s.tasks|
    ensures t < |Step(s, e).value.tasks| && Change(s, e, t, Step(s, e).value.tasks[t])
  {
    if e.Register? || e.Depend? {
      AskChanges(s, e, t);
    } else if e.Notify? {
      NotifyChanges(s, e, t);
    } else if e.MoveAdds? {
      MoveAddsChanges(s, e, t);
    } else if OnQueues(e) {
      SameTasks(s, e);
    } else if e.Begin? || e.Return? || e.Await? || e.Resume? || e.Finish? {
      RunningChanges(s, e, t);
    } else {
      MappingChanges(s, e, t);
    }
  }

  /** The task a step changes without touching any counter or list. */
  function QuietTask(s: State, e: Event): Option<nat> {
    match e
    case GetReady(t) => Some(t)
    case ReadyToMap(t) => Some(t)
    case Assign => if s.mapper.Moving? then Some(s.mapper.t) else None
    case Begin(t) => Some(t)
    case MoveAsks(m, _) => Some(m)
    case Return(t, _) => Some(t)
    case Resume(t) => Some(t)
    case Finish(t) => Some(t)
    case _ => None
  }

  /** What a quiet step does to its task. */
  ghost predicate QuietChange(s: State, e: Event)
    requires Step(s, e).Some? && QuietTask(s, e).Some?
  {
    var t, r := QuietTask(s, e).value, Step(s, e).value;
    && t < |s.tasks| == |r.tasks| && r.tasks == s.tasks[t := r.tasks[t]]
    && Quiet(s.tasks[t], r.tasks[t]) && Consistent(r.tasks[t])
    && (r.tasks[t].isAssigned == s.tasks[t].isAssigned || e.Assign?)
  }

  lemma QuietStarts(s: State, e: Event)
    requires Roles(s) && Drained(s.tasks) && Step(s, e).Some?
    requires e.GetReady? || e.ReadyToMap? || e.Assign? || e.MoveAsks?
    ensures QuietChange(s, e)
  {
    assert Consistent(s.tasks[QuietTask(s, e).value]);
  }

  lemma QuietBegins(s: State, e: Event)
    requires Roles(s) && Drained(s.tasks) && Step(s, e).Some? && e.Begin?
    ensures QuietChange(s, e)
  {
    assert Consistent(s.tasks[e.t]) && Token(s, e.t);
  }

  lemma QuietEnds(s: State, e: Event)
    requires Roles(s) && Drained(s.tasks) && Step(s, e).Some?
    requires e.Return? || e.Resume? || e.Finish?
    ensures QuietChange(s, e)
  {
    assert Consistent(s.tasks[e.t]);
    assert Terminal(s.tasks[e.t]) ==> Pending(s.tasks[e.t]) == [];
  }

  lemma QuietStep(s: State, e: Event)
    requires Roles(s) && Drained(s.tasks) && Step(s, e).Some? && QuietTask(s, e).Some?
    ensures QuietChange(s, e)
  {
    if e.Begin? {
      QuietBegins(s, e);
    } else if e.Return? || e.Resume? || e.Finish? {
      QuietEnds(s, e);
    } else {
      QuietStarts(s, e);
    }
  }

  /** `all` asks for the counters of tasks that have run, too. An await keeps those only if nobody was going to
      notify the task. */
  lemma GraphKept(s: State, e: Event, all: bool)
    requires Graph(s.tasks, all) && Roles(s) && Step(s, e).Some?
    requires all && e.Await? ==> Occurrences(s.tasks, e.t) == 0
    ensures Graph(Step(s, e).value.tasks, all)
  {
    var r := Step(s, e).value;
    if QuietTask(s, e).Some? {
      QuietStep(s, e);
      QuietKeeps(s.tasks, QuietTask(s, e).value, r.tasks[QuietTask(s, e).value], all);
    } else if OnQueues(e) {
      SameTasks(s, e);
    } else {
      GraphKeptByOthers(s, e, all);
    }
  }

  lemma GraphKeptByOthers(s: State, e: Event, all: bool)
    requires Graph(s.tasks, all) && Roles(s) && Step(s, e).Some? && QuietTask(s, e).None? && !OnQueues(e)
    requires all && e.Await? ==> Occurrences(s.tasks, e.t) == 0
    ensures Graph(Step(s, e).value.tasks, all)
  {
    if e.AddMove? || e.MoveAdds? || e.Notify? {
      GraphKeptByMoves(s, e, all);
    } else {
      match e
      case Spawn(deps) => SpawnKeeps(s.tasks, deps, all);
      case Register(t) =>
        var rest := s.tasks[t].phase.rest;
        LinkedKeeps(s, t, rest[0], if rest[1..] == [] then Free else Spawning(rest[1..]), all);
      case Await(t, deps) =>
        assert Consistent(s.tasks[t]);
        AwaitKeeps(s.tasks, t, deps, all);
      case Depend(t) => LinkedKeeps(s, t, s.tasks[t].phase.rest[0], Depending(s.tasks[t].phase.rest[1..]), all);
      case _ =>
    }
  }

  lemma GraphKeptByMoves(s: State, e: Event, all: bool)
    requires Graph(s.tasks, all) && Roles(s) && Step(s, e).Some? && (e.AddMove? || e.MoveAdds? || e.Notify?)
    ensures Graph(Step(s, e).value.tasks, all)
  {
    match e
    case AddMove => MoveKeeps(s, s.mapper.t, all);
    case MoveAdds(m) => MoveLinkedKeeps(s, m, s.tasks[m].phase.dep, all);
    case Notify(d) => NotifiedKeeps(s, d, s.tasks[d].phase.rest[0], all);
  }

  // ---- roles ----

  lemma ConsistentAt(s: State, e: Event, t: nat)
    requires Roles(s) && Drained(s.tasks) && Step(s, e).Some? && QuietTask(s, e).None? && t < |s.tasks|
    ensures t < |Step(s, e).value.tasks| && Consistent(Step(s, e).value.tasks[t])
  {
    assert Consistent(s.tasks[t]);
    if OnQueues(e) {
      SameTasks(s, e);
    } else if e.Register? || e.Depend? || e.Notify? {
      ConsistentByLinks(s, e, t);
    }
  }

  lemma ConsistentByChange(s: State, e: Event, t: nat, b: Task)
    requires t < |s.tasks| && LinkChange(s, e, t, b) && Consistent(s.tasks[t])
    ensures Consistent(b)
  {
  }

  lemma ConsistentByLinks(s: State, e: Event, t: nat)
    requires Step(s, e).Some? && OnLinks(e) && t < |s.tasks| && Consistent(s.tasks[t])
    ensures t < |Step(s, e).value.tasks| && Consistent(Step(s, e).value.tasks[t])
  {
    Changes(s, e, t);
    ConsistentByChange(s, e, t, Step(s, e).value.tasks[t]);
  }

  lemma ConsistentKept(s: State, e: Event)
    requires Roles(s) && Drained(s.tasks) && Step(s, e).Some?
    ensures AllConsistent(Step(s, e).value.tasks)
  {
    var r := Step(s, e).value;
    if QuietTask(s, e).Some? {
      QuietStep(s, e);
    } else {
      forall t | 0 <= t < |s.tasks| ensures Consistent(r.tasks[t]) {
        ConsistentAt(s, e, t);
      }
      if e.Spawn? || e.AddMove? {
        assert Consistent(r.tasks[|s.tasks|]);
      } else {
        SameNumber(s, e);
      }
    }
  }

  lemma SameNumber(s: State, e: Event)
    requires Step(s, e).Some? && !e.Spawn? && !e.AddMove?
    ensures |Step(s, e).value.tasks| == |s.tasks|
  {
    if OnQueues(e) {
      SameTasks(s, e);
    } else if e.Register? || e.Depend? || e.Notify? || e.MoveAdds? {
      SameNumberByLinks(s, e);
    } else {
      SameNumberByOthers(s, e);
    }
  }

  lemma SameNumberByLinks(s: State, e: Event)
    requires Step(s, e).Some? && (e.Register? || e.Depend? || e.Notify? || e.MoveAdds?)
    ensures |Step(s, e).value.tasks| == |s.tasks|
  {
  }

  lemma SameNumberByOthers(s: State, e: Event)
    requires Step(s, e).Some? && !e.Spawn? && !e.AddMove? && !OnQueues(e)
    requires !e.Register? && !e.Depend? && !e.Notify? && !e.MoveAdds?
    ensures |Step(s, e).value.tasks| == |s.tasks|
  {
  }

  /** A task is only ever assigned, never unassigned, and does not wait again. */
  predicate Onward(a: Task, b: Task) {
    && (a.isAssigned ==> b.isAssigned) && b.move == a.move && b.spawnedOn == a.spawnedOn
    && (!a.status.Waiting? ==> !b.status.Waiting?)
  }

  lemma OnwardByChange(s: State, e: Event, t: nat, b: Task)
    requires t < |s.tasks| && Change(s, e, t, b)
    ensures Onward(s.tasks[t], b)
  {
  }

  lemma GrowsAt(s: State, e: Event, t: nat)
    requires Step(s, e).Some? && t < |s.tasks|
    ensures t < |Step(s, e).value.tasks| && Onward(s.tasks[t], Step(s, e).value.tasks[t])
  {
    Changes(s, e, t);
    OnwardByChange(s, e, t, Step(s, e).value.tasks[t]);
  }

  lemma Grows(s: State, e: Event)
    requires Step(s, e).Some?
    ensures |s.tasks| <= |Step(s, e).value.tasks|
    ensures forall t | 0 <= t < |s.tasks| :: Onward(s.tasks[t], Step(s, e).value.tasks[t])
  {
    forall t | 0 <= t < |s.tasks|
      ensures t < |Step(s, e).value.tasks| && Onward(s.tasks[t], Step(s, e).value.tasks[t])
    {
      GrowsAt(s, e, t);
    }
    if |s.tasks| > 0 {
      GrowsAt(s, e, |s.tasks| - 1);
    }
  }

  lemma TokensKept(s: State, e: Event)
    requires Roles(s) && Step(s, e).Some?
    ensures TokensMapped(Step(s, e).value)
  {
    var r := Step(s, e).value;
    forall t: nat | Token(r, t) ensures t < |r.tasks| && r.tasks[t].isAssigned {
      TokensChange(s, e, t);
      if Enqueues(s, e, t) {
        EnqueuedIsMapped(s, e, t);
      }
      GrowsAt(s, e, t);
    }
  }

  lemma EnqueuedIsMapped(s: State, e: Event, t: nat)
    requires Roles(s) && Step(s, e).Some? && Enqueues(s, e, t)
    ensures t < |s.tasks| && s.tasks[t].isAssigned
  {
  }

  lemma Dequeued(s: State)
    requires Conserved(s) && s.current != []
    ensures var t := s.current[|s.current| - 1];
            t < |s.tasks| && !s.tasks[t].isAssigned && !s.tasks[t].status.Waiting?
  {
    var t := s.current[|s.current| - 1];
    assert t in multiset(s.current);
    assert Held(s, t) >= 1;
  }

  /** No other step assigns a task or takes one back, and none takes a task out of the mapper's hand. */
  lemma OnlyMapperAssigns(s: State, e: Event, t: nat)
    requires Step(s, e).Some? && !e.Assign? && t < |s.tasks|
    ensures t < |Step(s, e).value.tasks| && Step(s, e).value.tasks[t].isAssigned == s.tasks[t].isAssigned
  {
    Changes(s, e, t);
    AssignedByChange(s, e, t, Step(s, e).value.tasks[t]);
  }

  lemma AssignedByChange(s: State, e: Event, t: nat, b: Task)
    requires t < |s.tasks| && Change(s, e, t, b) && !e.Assign?
    ensures b.isAssigned == s.tasks[t].isAssigned
  {
  }

  lemma MapperMoves(s: State, e: Event)
    requires Step(s, e).Some? && !e.Dequeue? && !e.Assign?
    ensures var m := Step(s, e).value.mapper;
            m == s.mapper || m.Idle? || (m.Moving? && s.mapper == Placing(m.t))
  {
  }

  lemma MapperKept(s: State, e: Event)
    requires Roles(s) && Conserved(s) && Drained(s.tasks) && Step(s, e).Some?
    ensures MapperKnows(Step(s, e).value)
  {
    if e.Dequeue? {
      Dequeued(s);
    } else if e.Assign? {
      assert Consistent(s.tasks[s.mapper.t]);
    } else {
      MapperMoves(s, e);
      if !s.mapper.Idle? {
        OnlyMapperAssigns(s, e, s.mapper.t);
        Grows(s, e);
      }
    }
  }

  // ---- conservation ----

  lemma HeldByMappable(s: State, queue: seq<nat>, t: nat)
    ensures multiset(Mappable(s, queue, false))[t] + multiset(Mappable(s, queue, true))[t] == multiset(queue)[t]
  {
    if queue != [] {
      HeldByMappable(s, queue[1..], t);
      assert queue == [queue[0]] + queue[1..];
    }
  }

  lemma HeldKeptByFill(s: State, t: nat)
    requires s.mapper.Idle?
    ensures Held(Filled(s), t) == Held(s, t)
  {
    HeldByMappable(s, s.newest, t);
    assert multiset(Filled(s).current) == multiset(s.current) + multiset(Mappable(s, s.newest, true));
  }

  lemma HeldKeptByDequeue(s: State, t: nat)
    requires s.current != []
    ensures multiset(s.current)[t]
            == multiset(s.current[..|s.current| - 1])[t] + if s.current[|s.current| - 1] == t then 1 else 0
  {
    assert s.current == s.current[..|s.current| - 1] + [s.current[|s.current| - 1]];
  }

  lemma HeldKeptByQueues(s: State, e: Event, t: nat)
    requires Step(s, e).Some? && OnQueues(e)
    ensures Held(Step(s, e).value, t) == Held(s, t)
  {
    if e.Fill? {
      HeldKeptByFill(s, t);
    } else if e.Dequeue? {
      HeldKeptByDequeue(s, t);
    } else {
      HeldKeptByOthers(s, e, t);
    }
  }

  lemma HeldKeptByOthers(s: State, e: Event, t: nat)
    requires Step(s, e).Some? && OnQueues(e) && !e.Fill? && !e.Dequeue?
    ensures Held(Step(s, e).value, t) == Held(s, t)
  {
    var r := Step(s, e).value;
    assert r.current == s.current;
    if e.PlacementFails? {
      assert multiset(r.newest)[t] == multiset(s.newest)[t] + if s.mapper.t == t then 1 else 0;
    } else {
      assert r.newest == s.newest;
    }
  }

  lemma HeldKept(s: State, e: Event, t: nat)
    requires Step(s, e).Some? && !OnQueues(e)
    ensures Held(Step(s, e).value, t) == Held(s, t)
                                         + (if e == ReadyToMap(t) then 1 else 0)
                                         - (if e.Assign? && s.mapper.t == t then 1 else 0)
  {
    if !e.ReadyToMap? && !e.Assign? {
      HandsUntouched(s, e);
    }
  }

  lemma HandsUntouched(s: State, e: Event)
    requires Step(s, e).Some? && !OnQueues(e) && !e.ReadyToMap? && !e.Assign?
    ensures var r := Step(s, e).value; r.newest == s.newest && r.current == s.current && r.mapper == s.mapper
  {
  }

  predicate Unmapped(tasks: seq<Task>, t: nat) {
    t < |tasks| && !tasks[t].status.Waiting? && !tasks[t].isAssigned
  }

  lemma UnmappedByQuiet(s: State, e: Event, t: nat)
    requires Roles(s) && Drained(s.tasks) && Step(s, e).Some? && QuietTask(s, e).Some?
    ensures e == ReadyToMap(t) ==> !Unmapped(s.tasks, t) && Unmapped(Step(s, e).value.tasks, t)
    ensures e.Assign? && s.mapper.t == t ==> Unmapped(s.tasks, t) && !Unmapped(Step(s, e).value.tasks, t)
    ensures e != ReadyToMap(t) && !(e.Assign? && s.mapper.t == t) ==>
              (Unmapped(Step(s, e).value.tasks, t) <==> Unmapped(s.tasks, t))
  {
    QuietStep(s, e);
    assert t < |s.tasks| ==> Consistent(s.tasks[t]);
  }

  lemma UnmappedByOthers(s: State, e: Event, t: nat)
    requires Step(s, e).Some? && !OnQueues(e) && QuietTask(s, e).None?
    ensures Unmapped(Step(s, e).value.tasks, t) <==> Unmapped(s.tasks, t)
  {
  }

  lemma SameTasks(s: State, e: Event)
    requires Step(s, e).Some? && OnQueues(e)
    ensures Step(s, e).value.tasks == s.tasks
  {
  }

  lemma ConservedKept(s: State, e: Event)
    requires Roles(s) && Drained(s.tasks) && Conserved(s) && Step(s, e).Some?
    ensures Conserved(Step(s, e).value)
  {
    var r := Step(s, e).value;
    forall t: nat ensures Held(r, t) == if Unmapped(r.tasks, t) then 1 else 0 {
      assert Held(s, t) == if Unmapped(s.tasks, t) then 1 else 0;
      if OnQueues(e) {
        SameTasks(s, e);
        HeldKeptByQueues(s, e, t);
      } else {
        HeldKept(s, e, t);
        if QuietTask(s, e).Some? {
          UnmappedByQuiet(s, e, t);
        } else {
          UnmappedByOthers(s, e, t);
        }
      }
    }
  }

  // ---- closure ----

  lemma {:induction false} MappableAreMapped(s: State, queue: seq<nat>, t: nat)
    requires t in Mappable(s, queue, true)
    ensures t in queue && DependenciesMapped(s, t)
  {
    if queue != [] && t in Mappable(s, queue[1..], true) {
      MappableAreMapped(s, queue[1..], t);
    }
  }

  lemma InHandIsHeld(s: State, t: nat)
    requires Conserved(s) && (t in s.current || t in s.newest || InHand(s.mapper, t))
    ensures Unmapped(s.tasks, t) && (t in s.newest ==> !InHand(s.mapper, t))
  {
    assert Held(s, t) == if Unmapped(s.tasks, t) then 1 else 0;
    assert t in s.current ==> multiset(s.current)[t] >= 1;
    assert t in s.newest ==> multiset(s.newest)[t] >= 1;
  }

  lemma ClosedAfterFill(s: State, t: nat)
    requires Conserved(s) && Closed(s) && Plain(s) && s.mapper.Idle? && t in Filled(s).current
    ensures t < |s.tasks| && AllAssigned(s.tasks, s.tasks[t].spawnedOn)
  {
    if t in s.current {
      InHandIsHeld(s, t);
    } else {
      MappableAreMapped(s, s.newest, t);
      InHandIsHeld(s, t);
      assert s.tasks[t].dependencies == s.tasks[t].spawnedOn;
    }
  }

  /** Who may newly have to be closed: only what `Fill` let through. */
  lemma ClosedBefore(s: State, e: Event, t: nat)
    requires Roles(s) && Drained(s.tasks) && Conserved(s) && Step(s, e).Some?
    requires t < |s.tasks| <= |Step(s, e).value.tasks|
    requires var r := Step(s, e).value; r.tasks[t].isAssigned || t in r.current || InHand(r.mapper, t)
    ensures s.tasks[t].isAssigned || t in s.current || InHand(s.mapper, t) || (e.Fill? && t in Filled(s).current)
  {
    if e.Dequeue? || e.Assign? {
      ClosedBeforeMapping(s, e, t);
    } else if e.Fill? {
      SameTasks(s, e);
    } else {
      OnlyMapperAssigns(s, e, t);
      MapperMoves(s, e);
      CurrentShrinks(s, e);
    }
  }

  lemma ClosedBeforeMapping(s: State, e: Event, t: nat)
    requires Step(s, e).Some? && t < |s.tasks| <= |Step(s, e).value.tasks| && (e.Dequeue? || e.Assign?)
    requires var r := Step(s, e).value; r.tasks[t].isAssigned || t in r.current || InHand(r.mapper, t)
    ensures s.tasks[t].isAssigned || t in s.current || InHand(s.mapper, t)
  {
    if e.Dequeue? {
      assert s.current[|s.current| - 1] in s.current;
    }
  }

  lemma CurrentShrinks(s: State, e: Event)
    requires Step(s, e).Some? && !e.Fill? && !e.Dequeue?
    ensures Step(s, e).value.current == s.current
  {
  }

  /** A new task is spawned, or moves data. */
  lemma NewTaskIs(s: State, e: Event, t: nat)
    requires Step(s, e).Some? && |s.tasks| <= t < |Step(s, e).value.tasks|
    ensures var r := Step(s, e).value;
            && (e.Spawn? || e.AddMove?) && r.current == s.current && r.mapper == s.mapper
            && r.tasks[t] == if e.Spawn? then NewTask(e.deps)
                             else Task(true, Running, true, 0, [], [s.mapper.t], Free, [], false)
  {
    if !e.Spawn? && !e.AddMove? {
      SameNumber(s, e);
    }
  }

  lemma NewTasksAreOpen(s: State, e: Event, t: nat)
    requires Conserved(s) && Step(s, e).Some? && |s.tasks| <= t < |Step(s, e).value.tasks|
    ensures Step(s, e).value.tasks[t].isAssigned ==> Step(s, e).value.tasks[t].spawnedOn == []
    ensures t !in Step(s, e).value.current && !InHand(Step(s, e).value.mapper, t)
    ensures !Step(s, e).value.tasks[t].isAssigned ==>
              Step(s, e).value.tasks[t].dependencies == Step(s, e).value.tasks[t].spawnedOn
  {
    NewTaskIs(s, e, t);
    assert Held(s, t) == 0;
    assert multiset(s.current)[t] == 0;
  }

  lemma ClosedKept(s: State, e: Event)
    requires Roles(s) && Drained(s.tasks) && Conserved(s) && Closed(s) && Plain(s) && Step(s, e).Some?
    ensures Closed(Step(s, e).value)
  {
    var r := Step(s, e).value;
    Grows(s, e);
    forall t | 0 <= t < |r.tasks| && (r.tasks[t].isAssigned || t in r.current || InHand(r.mapper, t))
      ensures AllAssigned(r.tasks, r.tasks[t].spawnedOn)
    {
      if t < |s.tasks| {
        ClosedBefore(s, e, t);
        if e.Fill? && t in Filled(s).current {
          ClosedAfterFill(s, t);
        }
        assert AllAssigned(s.tasks, s.tasks[t].spawnedOn);
      } else {
        NewTasksAreOpen(s, e, t);
      }
    }
  }

  /** A step that changes a task's dependencies is the mapper's, or taken by the task itself. */
  lemma DependenciesKept(s: State, e: Event, t: nat)
    requires Roles(s) && Drained(s.tasks) && Step(s, e).Some? && t < |s.tasks| && !s.tasks[t].isAssigned
    requires s.mapper != Moving(t)
    ensures t < |Step(s, e).value.tasks| && Step(s, e).value.tasks[t].dependencies == s.tasks[t].dependencies
  {
    assert Consistent(s.tasks[t]);
    if QuietTask(s, e).Some? {
      QuietStep(s, e);
    } else if OnQueues(e) {
      SameTasks(s, e);
    } else if e.Register? || e.Depend? || e.Notify? {
      DependenciesByLinks(s, e, t);
    }
  }

  lemma DependenciesByChange(s: State, e: Event, t: nat, b: Task)
    requires t < |s.tasks| && (e.Register? || e.Depend? || e.Notify?) && LinkChange(s, e, t, b)
    ensures b.dependencies == s.tasks[t].dependencies
    ensures b.started == s.tasks[t].started && b.spawnedOn == s.tasks[t].spawnedOn
  {
  }

  lemma DependenciesByLinks(s: State, e: Event, t: nat)
    requires Step(s, e).Some? && (e.Register? || e.Depend? || e.Notify?) && t < |s.tasks|
    ensures var r := Step(s, e).value;
            && t < |r.tasks| && r.tasks[t].dependencies == s.tasks[t].dependencies
            && r.tasks[t].started == s.tasks[t].started && r.tasks[t].spawnedOn == s.tasks[t].spawnedOn
  {
    Changes(s, e, t);
    DependenciesByChange(s, e, t, Step(s, e).value.tasks[t]);
  }

  // ---- dependencies are tasks ----

  ghost predicate DependenciesKnown(s: State) {
    forall t | 0 <= t < |s.tasks| :: AllKnown(s, s.tasks[t].dependencies)
  }

  lemma DependenciesKnownAt(s: State, e: Event, t: nat)
    requires Roles(s) && Drained(s.tasks) && Step(s, e).Some? && QuietTask(s, e).None? && t < |s.tasks|
    requires AllKnown(s, s.tasks[t].dependencies)
    ensures t < |Step(s, e).value.tasks| && AllKnown(Step(s, e).value, Step(s, e).value.tasks[t].dependencies)
  {
    Grows(s, e);
    if OnQueues(e) {
      SameTasks(s, e);
    } else if e.Register? || e.Depend? || e.Notify? {
      DependenciesByLinks(s, e, t);
    }
  }

  lemma DependenciesKnownByQuiet(s: State, e: Event)
    requires Roles(s) && Drained(s.tasks) && DependenciesKnown(s) && Step(s, e).Some? && QuietTask(s, e).Some?
    ensures DependenciesKnown(Step(s, e).value)
  {
    QuietStep(s, e);
    var r := Step(s, e).value;
    forall t | 0 <= t < |r.tasks| ensures AllKnown(r, r.tasks[t].dependencies) {
      assert r.tasks[t].dependencies == s.tasks[t].dependencies && AllKnown(s, s.tasks[t].dependencies);
    }
  }

  lemma NewDependenciesKnown(s: State, e: Event, t: nat)
    requires Step(s, e).Some? && QuietTask(s, e).None? && |s.tasks| <= t < |Step(s, e).value.tasks|
    ensures AllKnown(Step(s, e).value, Step(s, e).value.tasks[t].dependencies)
  {
    if !e.Spawn? && !e.AddMove? {
      SameNumber(s, e);
    }
  }

  lemma DependenciesStayKnown(s: State, e: Event)
    requires Roles(s) && Drained(s.tasks) && DependenciesKnown(s) && Step(s, e).Some?
    ensures DependenciesKnown(Step(s, e).value)
  {
    if QuietTask(s, e).Some? {
      DependenciesKnownByQuiet(s, e);
    } else {
      forall t | 0 <= t < |Step(s, e).value.tasks|
        ensures AllKnown(Step(s, e).value, Step(s, e).value.tasks[t].dependencies)
      {
        if t < |s.tasks| {
          assert AllKnown(s, s.tasks[t].dependencies);
          DependenciesKnownAt(s, e, t);
        } else {
          NewDependenciesKnown(s, e, t);
        }
      }
    }
  }

  // ---- spawn-time dependencies ----

  /** Until a task runs, the dependencies it was spawned with are among its dependencies. */
  ghost predicate Remembers(task: Task) {
    !task.started ==> task.spawnedOn <= task.dependencies
  }

  ghost predicate Remembered(tasks: seq<Task>) {
    forall t | 0 <= t < |tasks| :: Remembers(tasks[t])
  }

  lemma RemembersAt(s: State, e: Event, t: nat)
    requires Roles(s) && Drained(s.tasks) && Step(s, e).Some? && t < |s.tasks| && Remembers(s.tasks[t])
    requires QuietTask(s, e).None?
    ensures t < |Step(s, e).value.tasks| && Remembers(Step(s, e).value.tasks[t])
  {
    assert Consistent(s.tasks[t]);
    if OnQueues(e) {
      SameTasks(s, e);
    } else if e.Register? || e.Depend? || e.Notify? {
      DependenciesByLinks(s, e, t);
    }
  }

  lemma RememberedKept(s: State, e: Event)
    requires Roles(s) && Drained(s.tasks) && Remembered(s.tasks) && Step(s, e).Some?
    ensures Remembered(Step(s, e).value.tasks)
  {
    var r := Step(s, e).value;
    if QuietTask(s, e).Some? {
      QuietStep(s, e);
      forall t | 0 <= t < |r.tasks| ensures Remembers(r.tasks[t]) {
        assert Remembers(s.tasks[t]);
      }
    } else {
      forall t | 0 <= t < |s.tasks| ensures t < |r.tasks| && Remembers(r.tasks[t]) {
        assert Remembers(s.tasks[t]);
        RemembersAt(s, e, t);
      }
      if e.Spawn? || e.AddMove? {
        assert Remembers(r.tasks[|s.tasks|]);
      } else {
        SameNumber(s, e);
      }
    }
  }

  lemma PlainKept(s: State, e: Event)
    requires Roles(s) && Drained(s.tasks) && Conserved(s) && Plain(s) && Step(s, e).Some?
    ensures Plain(Step(s, e).value)
  {
    var r := Step(s, e).value;
    Grows(s, e);
    forall t | 0 <= t < |r.tasks| && !r.tasks[t].isAssigned && r.mapper != Moving(t)
      ensures r.tasks[t].dependencies == r.tasks[t].spawnedOn
    {
      if t >= |s.tasks| {
        NewTasksAreOpen(s, e, t);
      } else if s.mapper != Moving(t) {
        DependenciesKept(s, e, t);
      } else {
        MovingLeavesByAssign(s, e);
      }
    }
  }

  lemma MovingLeavesByAssign(s: State, e: Event)
    requires s.mapper.Moving? && Step(s, e).Some? && Step(s, e).value.mapper != s.mapper
    ensures e.Assign? && s.mapper.t < |Step(s, e).value.tasks| && Step(s, e).value.tasks[s.mapper.t].isAssigned
  {
  }

  // ---- no lost wakeup ----

  /** The step puts `t` into the ready queue: after the mapper's check, after its awaits were registered, or
      after its last dependency notified it. */
  predicate Enqueues(s: State, e: Event, t: nat) {
    match e
    case CheckBlocked => s.mapper == Checking(t) && Known(s, t) && s.tasks[t].blocking == 0
    case EnqueueMove(m) => m == t && MapperMade(s, t) && s.tasks[t].blocking == 0
    case Resume(u) => u == t && Known(s, t) && Schedulable(s.tasks[t])
    case Notify(d) =>
      && Known(s, d) && s.tasks[d].phase.Finishing? && s.tasks[d].phase.rest != [] && s.tasks[d].phase.rest[0] == t
      && Known(s, t) && Schedulable(s.tasks[t].(blocking := s.tasks[t].blocking - 1))
    case _ => false
  }

  /** The step takes one occurrence of `t` out of the queues. */
  predicate Consumes(s: State, e: Event, t: nat) {
    e == Begin(t) || (e == Launch(t) && Known(s, t) && s.tasks[t].status.Completed?)
  }

  lemma TokensEnqueued(s: State, u: nat, t: nat)
    ensures Tokens(Enqueue(s, u), t) == Tokens(s, t) + if u == t then 1 else 0
  {
  }

  lemma TokensScheduled(s: State, t: nat)
    requires s.ready != []
    ensures Tokens(Step(s, Schedule).value, t) == Tokens(s, t)
  {
    assert s.ready == s.ready[..|s.ready| - 1] + [s.ready[|s.ready| - 1]];
  }

  lemma TokensBefore(s: State, e: Event, t: nat)
    requires Step(s, e).Some? && (e.CheckBlocked? || e.Resume? || e.Notify? || e.EnqueueMove?)
    ensures Tokens(Step(s, e).value, t) == Tokens(s, t) + if Enqueues(s, e, t) then 1 else 0
  {
    match e
    case CheckBlocked => TokensEnqueued(s.(mapper := Idle), s.mapper.t, t);
    case EnqueueMove(m) => TokensEnqueued(s, m, t);
    case Resume(u) => TokensEnqueued(Put(s, u, s.tasks[u].(phase := Free)), u, t);
    case Notify(d) => TokensByNotify(s, d, t);
  }

  lemma TokensByNotify(s: State, d: nat, t: nat)
    requires Step(s, Notify(d)).Some?
    ensures Tokens(Step(s, Notify(d)).value, t) == Tokens(s, t) + if Enqueues(s, Notify(d), t) then 1 else 0
  {
    var u := s.tasks[d].phase.rest[0];
    TokensEnqueued(Put(Put(s, d, s.tasks[d].(phase := Finishing(s.tasks[d].phase.rest[1..], s.tasks[d].phase.ok))),
                       u, s.tasks[u].(blocking := s.tasks[u].blocking - 1)), u, t);
  }

  lemma TokensAfter(s: State, e: Event, t: nat)
    requires Step(s, e).Some? && (e.Launch? || e.Begin?)
    ensures Tokens(Step(s, e).value, t) == Tokens(s, t) - if Consumes(s, e, t) then 1 else 0
  {
    if e.Launch? {
      TokensLaunched(s, e.t, t);
    }
  }

  lemma TokensLaunched(s: State, u: nat, t: nat)
    requires Step(s, Launch(u)).Some?
    ensures Tokens(Step(s, Launch(u)).value, t) == Tokens(s, t) - if Consumes(s, Launch(u), t) then 1 else 0
  {
  }

  /** Tokens come from enqueueing and go with beginning; completed tasks are dropped at launch. */
  lemma TokensChange(s: State, e: Event, t: nat)
    requires Step(s, e).Some?
    ensures Tokens(Step(s, e).value, t)
            == Tokens(s, t) + (if Enqueues(s, e, t) then 1 else 0) - (if Consumes(s, e, t) then 1 else 0)
  {
    if e.CheckBlocked? || e.Resume? || e.Notify? || e.EnqueueMove? {
      TokensBefore(s, e, t);
    } else if e.Schedule? {
      TokensScheduled(s, t);
    } else if e.Launch? || e.Begin? {
      TokensAfter(s, e, t);
    } else {
      QueuesUntouched(s, e);
    }
  }

  lemma QueuesUntouched(s: State, e: Event)
    requires Step(s, e).Some? && !e.CheckBlocked? && !e.EnqueueMove? && !e.Resume? && !e.Notify?
    requires !e.Schedule? && !e.Launch? && !e.Begin?
    ensures var r := Step(s, e).value; r.ready == s.ready && r.device == s.device && r.workers == s.workers
  {
  }

  ghost predicate NewlySchedulable(s: State, e: Event, t: nat)
    requires Step(s, e).Some? && t < |s.tasks| <= |Step(s, e).value.tasks|
  {
    var a := Step(s, e).value.tasks[t];
    && !a.move && Schedulable(a) && a.phase.Free?
    && !(Schedulable(s.tasks[t]) && s.tasks[t].phase.Free?)
  }

  lemma SchedulableByQuiet(s: State, e: Event, t: nat)
    requires Roles(s) && Drained(s.tasks) && Step(s, e).Some? && QuietTask(s, e).Some?
    requires t < |s.tasks| <= |Step(s, e).value.tasks| && NewlySchedulable(s, e, t)
    ensures Enqueues(s, e, t) || (e.Assign? && s.mapper.t == t)
  {
    assert Consistent(s.tasks[t]);
    QuietStep(s, e);
  }

  lemma SchedulableByOthers(s: State, e: Event, t: nat)
    requires Roles(s) && Step(s, e).Some? && QuietTask(s, e).None?
    requires t < |s.tasks| <= |Step(s, e).value.tasks| && NewlySchedulable(s, e, t)
    ensures Enqueues(s, e, t)
  {
    assert Consistent(s.tasks[t]);
    if OnQueues(e) {
      SameTasks(s, e);
    } else if e.Register? || e.Depend? || e.Notify? || e.MoveAdds? {
      SchedulableByLinks(s, e, t);
    }
  }

  lemma SchedulableByLinks(s: State, e: Event, t: nat)
    requires Step(s, e).Some? && (e.Register? || e.Depend? || e.Notify? || e.MoveAdds?) && t < |s.tasks|
    requires Consistent(s.tasks[t]) && t < |Step(s, e).value.tasks| && NewlySchedulable(s, e, t)
    ensures Enqueues(s, e, t)
  {
  }

  /** A task becomes schedulable and free only by a step that enqueues it, or by being assigned. */
  lemma BecomesSchedulable(s: State, e: Event, t: nat)
    requires Roles(s) && Drained(s.tasks) && Step(s, e).Some?
    requires t < |s.tasks| <= |Step(s, e).value.tasks| && NewlySchedulable(s, e, t)
    ensures Enqueues(s, e, t) || (e.Assign? && s.mapper.t == t)
  {
    if QuietTask(s, e).Some? {
      SchedulableByQuiet(s, e, t);
    } else {
      SchedulableByOthers(s, e, t);
    }
  }

  lemma CheckingKept(s: State, e: Event, t: nat)
    requires s.mapper == Checking(t) && Step(s, e).Some? && t < |s.tasks| && s.tasks[t].blocking == 0
    ensures Step(s, e).value.mapper == Checking(t) || Enqueues(s, e, t)
  {
  }

  lemma NewTasksAreNotSchedulable(s: State, e: Event, t: nat)
    requires Step(s, e).Some? && |s.tasks| <= t < |Step(s, e).value.tasks|
    ensures Step(s, e).value.tasks[t].move || !Schedulable(Step(s, e).value.tasks[t])
  {
    NewTaskIs(s, e, t);
  }

  lemma BegunIsBusy(s: State, e: Event, t: nat)
    requires Step(s, e).Some? && Consumes(s, e, t) && t < |s.tasks|
    ensures !(Schedulable(Step(s, e).value.tasks[t]) && Step(s, e).value.tasks[t].phase.Free?)
  {
  }

  lemma AwakeKept(s: State, e: Event)
    requires Roles(s) && Drained(s.tasks) && Awake(s) && Step(s, e).Some?
    ensures Awake(Step(s, e).value)
  {
    var r := Step(s, e).value;
    forall t | 0 <= t < |r.tasks| && !r.tasks[t].move && Schedulable(r.tasks[t]) && r.tasks[t].phase.Free?
      ensures Token(r, t) || r.mapper == Checking(t)
    {
      if t >= |s.tasks| {
        NewTasksAreNotSchedulable(s, e, t);
      } else {
        Grows(s, e);
        if NewlySchedulable(s, e, t) {
          BecomesSchedulable(s, e, t);
        }
        TokensChange(s, e, t);
        if Consumes(s, e, t) {
          BegunIsBusy(s, e, t);
        } else if s.mapper == Checking(t) && s.tasks[t].blocking == 0 {
          CheckingKept(s, e, t);
        }
      }
    }
  }

  // ---- the mapper's additions ----

  lemma AddsByChange(s: State, e: Event, m: nat, b: Task)
    requires m < |s.tasks| && Change(s, e, m, b) && !s.tasks[m].phase.Adding?
    ensures b.phase.Adding? ==> e.MoveAsks? && e.m == m && b.phase == Adding(e.dep)
  {
  }

  lemma AddingBefore(s: State, e: Event, m: nat)
    requires Step(s, e).Some? && m < |s.tasks| && !s.tasks[m].phase.Adding?
    ensures m < |Step(s, e).value.tasks|
    ensures Step(s, e).value.tasks[m].phase.Adding? ==>
              e.MoveAsks? && e.m == m && Known(s, e.dep) && Step(s, e).value.tasks[m].phase == Adding(e.dep)
  {
    Changes(s, e, m);
    AddsByChange(s, e, m, Step(s, e).value.tasks[m]);
  }

  lemma StillMoving(s: State, e: Event)
    requires Step(s, e).Some? && s.mapper.Moving? && (MapperAdds(s) || e.MoveAsks?)
    ensures Step(s, e).value.mapper.Moving?
  {
  }

  lemma AddsInHandKept(s: State, e: Event)
    requires AddsInHand(s) && Step(s, e).Some?
    ensures AddsInHand(Step(s, e).value)
  {
    var r := Step(s, e).value;
    if m :| 0 <= m < |r.tasks| && r.tasks[m].phase.Adding? {
      if m >= |s.tasks| {
        NewTaskIs(s, e, m);
      } else if !s.tasks[m].phase.Adding? {
        AddingBefore(s, e, m);
      }
      StillMoving(s, e);
    }
  }

  lemma InvariantKept(s: State, e: Event)
    requires Invariant(s) && Step(s, e).Some?
    ensures Invariant(Step(s, e).value)
  {
    GraphKept(s, e, false);
    ConsistentKept(s, e);
    TokensKept(s, e);
    MapperKept(s, e);
    ConservedKept(s, e);
    ClosedKept(s, e);
    PlainKept(s, e);
    AwakeKept(s, e);
    RememberedKept(s, e);
    AddsInHandKept(s, e);
  }

  lemma StartIsInvariant()
    ensures Invariant(Start())
  {
  }
}
