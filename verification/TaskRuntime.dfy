/**
 Tasks, their dependencies and the scheduler's queues in `parla/task_runtime.py`, as a state machine whose steps
 are the sections the code runs under one mutex. Any thread may take the next step, so every interleaving of
 the threads is a sequence of events.

 A task's mutex is held for the whole of `Task.run`, and while a new task registers with its dependencies:
 the task is then in a phase other than `Free`, and steps of other threads that need its mutex are not enabled.
 */
module TaskRuntime {
  import opened Wrappers

  datatype Status = Waiting | Running | Completed | Failed

  /** What the holder of the task's mutex is doing: registering a new task with the dependencies in `rest`, making it
      ready to be mapped, running the body, registering with awaited tasks, notifying the dependents in `rest`, or
      adding `dep` to the dependencies of a data movement task. */
  datatype Phase =
    | Free
    | Spawning(rest: seq<nat>)
    | Readying
    | Executing
    | Depending(rest: seq<nat>)
    | Finishing(rest: seq<nat>, ok: bool)
    | Adding(dep: nat)

  /** `blocking` is `_num_blocking_dependencies`. `move` marks data movement tasks. `spawnedOn` and `started` only
      record history: the dependencies the task was spawned with, and whether its body ever ran. */
  datatype Task = Task(
    move: bool,
    status: Status,
    isAssigned: bool,
    blocking: int,
    dependencies: seq<nat>,
    dependents: seq<nat>,
    phase: Phase,
    spawnedOn: seq<nat>,
    started: bool)

  /** The mapper: choosing a device for a task, creating its data movement tasks, or about to check whether the
      task it has just assigned is blocked. */
  datatype Mapper = Idle | Placing(t: nat) | Moving(t: nat) | Checking(t: nat)

  /** Queues hold task numbers, left end first. The device queues and the workers that were handed a task but
      have not begun it are multisets. */
  datatype State = State(
    tasks: seq<Task>,
    newest: seq<nat>,
    current: seq<nat>,
    mapper: Mapper,
    ready: seq<nat>,
    device: multiset<nat>,
    workers: multiset<nat>)

  datatype Event =
    | Spawn(deps: seq<nat>)
    | Register(t: nat)
    | GetReady(t: nat)
    | ReadyToMap(t: nat)
    | Fill
    | Dequeue
    | PlacementFails
    | PlacementSucceeds
    | AddMove
    | MoveAsks(m: nat, dep: nat)
    | MoveAdds(m: nat)
    | EnqueueMove(m: nat)
    | Assign
    | CheckBlocked
    | Schedule
    | Launch(t: nat)
    | Begin(t: nat)
    | Return(t: nat, ok: bool)
    | Await(t: nat, deps: seq<nat>)
    | Depend(t: nat)
    | Resume(t: nat)
    | Notify(t: nat)
    | Finish(t: nat)

  function Start(): State {
    State([], [], [], Idle, [], multiset{}, multiset{})
  }

  predicate Terminal(task: Task) {
    task.status.Completed? || task.status.Failed?
  }

  /** `_is_schedulable`. */
  predicate Schedulable(task: Task) {
    task.status.Running? && task.blocking == 0 && task.isAssigned
  }

  predicate Known(s: State, t: nat) {
    t < |s.tasks|
  }

  predicate AllKnown(s: State, ts: seq<nat>) {
    forall i | 0 <= i < |ts| :: ts[i] < |s.tasks|
  }

  function Put(s: State, t: nat, task: Task): State
    requires Known(s, t)
  {
    s.(tasks := s.tasks[t := task])
  }

  function Enqueue(s: State, t: nat): State {
    s.(ready := [t] + s.ready)
  }

  // ---- spawning ----

  function NewTask(deps: seq<nat>): Task {
    Task(false, Waiting, false, |deps|, deps, [], if deps == [] then Free else Spawning(deps), deps, false)
  }

  /** The dependency is asked to remember the dependent, unless it has finished. */
  function Linked(s: State, t: nat, d: nat, next: Phase): State
    requires Known(s, t) && Known(s, d) && t != d
  {
    var task, dep := s.tasks[t], s.tasks[d];
    if Terminal(dep) then Put(s, t, task.(phase := next, blocking := task.blocking - 1))
    else Put(Put(s, d, dep.(dependents := dep.dependents + [t])), t, task.(phase := next))
  }

  /** One round of the loop of the `dependencies` setter, for a new task. */
  function RegisterNext(s: State, t: nat): Option<State> {
    if Known(s, t) && s.tasks[t].phase.Spawning? && s.tasks[t].phase.rest != [] then
      var rest := s.tasks[t].phase.rest;
      if Known(s, rest[0]) && rest[0] != t && s.tasks[rest[0]].phase.Free? then
        Some(Linked(s, t, rest[0], if rest[1..] == [] then Free else Spawning(rest[1..])))
      else None
    else None
  }

  /** The constructor takes the new task's mutex again, and enters it in the queue of new tasks. */
  function GettingReady(s: State, t: nat): Option<State> {
    if Known(s, t) && s.tasks[t].phase.Free? && s.tasks[t].status.Waiting? then
      Some(Put(s, t, s.tasks[t].(phase := Readying)))
    else None
  }

  function MakeReady(s: State, t: nat): Option<State> {
    if Known(s, t) && s.tasks[t].phase.Readying? && s.tasks[t].status.Waiting? then
      Some(Put(s, t, s.tasks[t].(status := Running, phase := Free)).(newest := [t] + s.newest))
    else None
  }

  // ---- mapping ----

  predicate DependenciesMapped(s: State, t: nat) {
    Known(s, t) && forall i | 0 <= i < |s.tasks[t].dependencies| ::
      Known(s, s.tasks[t].dependencies[i]) && s.tasks[s.tasks[t].dependencies[i]].isAssigned
  }

  /** The tasks of `queue`, in order, whose dependencies are all mapped, or the others. */
  function Mappable(s: State, queue: seq<nat>, wanted: bool): seq<nat> {
    if queue == [] then []
    else (if DependenciesMapped(s, queue[0]) == wanted then [queue[0]] else []) + Mappable(s, queue[1..], wanted)
  }

  function Filled(s: State): State {
    s.(newest := Mappable(s, s.newest, false), current := s.current + Mappable(s, s.newest, true))
  }

  /** A data movement task becomes one more dependency of the task being mapped. */
  function MoveAdded(s: State, t: nat): State
    requires Known(s, t)
  {
    var task := s.tasks[t];
    var m := |s.tasks|;
    var moveTask := Task(true, Running, true, 0, [], [t], Free, [], false);
    s.(tasks := s.tasks[t := task.(blocking := task.blocking + 1, dependencies := task.dependencies + [m])]
        + [moveTask])
  }

  /** The mapper holds the mutex of a data movement task, and wants that of a dependency. */
  predicate MapperAdds(s: State) {
    exists m | 0 <= m < |s.tasks| :: s.tasks[m].phase.Adding?
  }

  /** The mapper has made the data movement task `m` for the task in its hand, and is between two steps. */
  predicate MapperMade(s: State, m: nat) {
    && s.mapper.Moving? && Known(s, s.mapper.t) && Known(s, m) && !MapperAdds(s)
    && m in s.tasks[s.mapper.t].dependencies && s.tasks[m].move
  }

  /** It may take its mutex. */
  predicate MapperHas(s: State, m: nat) {
    MapperMade(s, m) && s.tasks[m].phase.Free?
  }

  /** `_add_dependency`: unless the dependency has finished, it will notify the data movement task. */
  function MoveLinked(s: State, m: nat, d: nat): State
    requires Known(s, m) && Known(s, d) && m != d
  {
    var task, dep := s.tasks[m], s.tasks[d];
    if Terminal(dep) then Put(s, m, task.(phase := Free))
    else
      Put(Put(s, d, dep.(dependents := dep.dependents + [m])), m,
          task.(phase := Free, blocking := task.blocking + 1, dependencies := task.dependencies + [d]))
  }

  // ---- running ----

  /** `Task.run` takes the mutex. A task that is not in the running state fails an assertion at once. */
  function Begun(s: State, t: nat): State
    requires Known(s, t)
  {
    var task := s.tasks[t];
    Put(s, t, task.(started := true,
                    phase := if task.status.Running? then Executing else Finishing(task.dependents, false)))
  }

  /** One round of `_notify_dependents`. */
  function Notified(s: State, d: nat, t: nat): State
    requires Known(s, d) && Known(s, t) && d != t && s.tasks[d].phase.Finishing? && s.tasks[d].phase.rest != []
  {
    var dep, task := s.tasks[d], s.tasks[t];
    var after := task.(blocking := task.blocking - 1);
    var s1 := Put(Put(s, d, dep.(phase := Finishing(dep.phase.rest[1..], dep.phase.ok))), t, after);
    if Schedulable(after) then Enqueue(s1, t) else s1
  }

  function Step(s: State, e: Event): Option<State> {
    match e
    case Spawn(deps) => if AllKnown(s, deps) then Some(s.(tasks := s.tasks + [NewTask(deps)])) else None
    case Register(t) => RegisterNext(s, t)
    case GetReady(t) => GettingReady(s, t)
    case ReadyToMap(t) => MakeReady(s, t)
    case Fill => if s.mapper.Idle? then Some(Filled(s)) else None
    case Dequeue =>
      if s.mapper.Idle? && s.current != [] then
        var t := s.current[|s.current| - 1];
        if Known(s, t) && !s.tasks[t].isAssigned then
          Some(s.(current := s.current[..|s.current| - 1], mapper := Placing(t)))
        else None
      else None
    case PlacementFails =>
      if s.mapper.Placing? then Some(s.(newest := [s.mapper.t] + s.newest, mapper := Idle)) else None
    case PlacementSucceeds => if s.mapper.Placing? then Some(s.(mapper := Moving(s.mapper.t))) else None
    case AddMove =>
      if s.mapper.Moving? && Known(s, s.mapper.t) && s.tasks[s.mapper.t].phase.Free? && !MapperAdds(s) then
        Some(MoveAdded(s, s.mapper.t))
      else None
    case MoveAsks(m, d) =>
      if MapperHas(s, m) && Known(s, d) && d != m && d in s.tasks[s.mapper.t].dependencies && !s.tasks[d].move then
        Some(Put(s, m, s.tasks[m].(phase := Adding(d))))
      else None
    case MoveAdds(m) =>
      if Known(s, m) && s.tasks[m].phase.Adding? then
        var d := s.tasks[m].phase.dep;
        if Known(s, d) && d != m && s.tasks[d].phase.Free? then Some(MoveLinked(s, m, d)) else None
      else None
    case EnqueueMove(m) => if MapperMade(s, m) && s.tasks[m].blocking == 0 then Some(Enqueue(s, m)) else None
    case Assign =>
      if s.mapper.Moving? && Known(s, s.mapper.t) && s.tasks[s.mapper.t].phase.Free? && !MapperAdds(s) then
        Some(Put(s, s.mapper.t, s.tasks[s.mapper.t].(isAssigned := true)).(mapper := Checking(s.mapper.t)))
      else None
    case CheckBlocked =>
      if s.mapper.Checking? && Known(s, s.mapper.t) && s.tasks[s.mapper.t].phase.Free? then
        var s1 := s.(mapper := Idle);
        Some(if s.tasks[s.mapper.t].blocking == 0 then Enqueue(s1, s.mapper.t) else s1)
      else None
    case Schedule =>
      if s.ready != [] then
        Some(s.(ready := s.ready[..|s.ready| - 1], device := s.device + multiset{s.ready[|s.ready| - 1]}))
      else None
    case Launch(t) =>
      if t in s.device && Known(s, t) then
        var s1 := s.(device := s.device - multiset{t});
        Some(if s.tasks[t].status.Completed? then s1 else s1.(workers := s.workers + multiset{t}))
      else None
    case Begin(t) =>
      if t in s.workers && Known(s, t) && s.tasks[t].phase.Free? then
        Some(Begun(s.(workers := s.workers - multiset{t}), t))
      else None
    case Return(t, ok) =>
      if Known(s, t) && s.tasks[t].phase.Executing? then
        Some(Put(s, t, s.tasks[t].(phase := Finishing(s.tasks[t].dependents, ok))))
      else None
    case Await(t, deps) =>
      if Known(s, t) && s.tasks[t].phase.Executing? && !s.tasks[t].move && AllKnown(s, deps) then
        Some(Put(s, t, s.tasks[t].(phase := Depending(deps), blocking := |deps|, dependencies := deps)))
      else None
    case Depend(t) =>
      if Known(s, t) && s.tasks[t].phase.Depending? && s.tasks[t].phase.rest != [] then
        var rest := s.tasks[t].phase.rest;
        if Known(s, rest[0]) && rest[0] != t && s.tasks[rest[0]].phase.Free? then
          Some(Linked(s, t, rest[0], Depending(rest[1..])))
        else None
      else None
    case Resume(t) =>
      if Known(s, t) && s.tasks[t].phase.Depending? && s.tasks[t].phase.rest == [] then
        var s1 := Put(s, t, s.tasks[t].(phase := Free));
        Some(if Schedulable(s.tasks[t]) then Enqueue(s1, t) else s1)
      else None
    case Notify(d) =>
      if Known(s, d) && s.tasks[d].phase.Finishing? && s.tasks[d].phase.rest != [] then
        var t := s.tasks[d].phase.rest[0];
        if Known(s, t) && t != d && s.tasks[t].phase.Free? then Some(Notified(s, d, t)) else None
      else None
    case Finish(t) =>
      if Known(s, t) && s.tasks[t].phase.Finishing? && s.tasks[t].phase.rest == [] then
        Some(Put(s, t, s.tasks[t].(phase := Free, dependents := [],
                                   status := if s.tasks[t].phase.ok then Completed else Failed)))
      else None
  }

  // ---- counting a task among the dependents that are still to be notified ----

  function Pending(task: Task): seq<nat> {
    if task.phase.Finishing? then task.phase.rest else task.dependents
  }

  /** The dependencies a task has not asked yet. */
  function Rest(task: Task): seq<nat> {
    match task.phase
    case Spawning(rest) => rest
    case Depending(rest) => rest
    case _ => []
  }

  function Occurrences(tasks: seq<Task>, t: nat): nat {
    if tasks == [] then 0
    else Occurrences(tasks[..|tasks| - 1], t) + multiset(Pending(tasks[|tasks| - 1]))[t]
  }

  lemma {:induction false} OccurrencesUpdate(tasks: seq<Task>, d: nat, task: Task, t: nat)
    requires d < |tasks|
    ensures Occurrences(tasks[d := task], t)
            == Occurrences(tasks, t) - multiset(Pending(tasks[d]))[t] + multiset(Pending(task))[t]
  {
    var init, last := tasks[..|tasks| - 1], tasks[|tasks| - 1];
    assert tasks == init + [last];
    if d < |tasks| - 1 {
      OccurrencesUpdate(init, d, task, t);
      assert tasks[d := task] == init[d := task] + [last];
      OccurrencesAppend(init[d := task], last, t);
    } else {
      assert tasks[d := task] == init + [task];
      OccurrencesAppend(init, task, t);
    }
    OccurrencesAppend(init, last, t);
  }

  lemma {:induction false} OccurrencesOne(tasks: seq<Task>, d: nat, t: nat)
    requires d < |tasks|
    ensures multiset(Pending(tasks[d]))[t] <= Occurrences(tasks, t)
  {
    if d < |tasks| - 1 {
      OccurrencesOne(tasks[..|tasks| - 1], d, t);
    }
  }

  lemma OccurrencesAppend(tasks: seq<Task>, task: Task, t: nat)
    ensures Occurrences(tasks + [task], t) == Occurrences(tasks, t) + multiset(Pending(task))[t]
  {
    assert (tasks + [task])[..|tasks|] == tasks;
  }
}
