/**
 The classes `Task` and `Scheduler` of `parla/task_runtime.py`: fields and queues updated in place, in loops. Every
 method is a run of the state machine of TaskRuntime, so what holds in every reachable state holds for it.

 The phases of the state machine are ghost here: they say which mutexes the calling thread holds.
 */
module Tasks {
  import opened Wrappers
  import opened TaskRuntime
  import opened TaskRuntimeInvariants
  import opened TaskRuntimeTheorems
  import opened TaskMapping

  class TaskObject {
    var move: bool
    var status: Status
    var isAssigned: bool
    var blocking: int
    var dependencies: seq<nat>
    var dependents: seq<nat>
    ghost var phase: Phase
    ghost var spawnedOn: seq<nat>
    ghost var started: bool

    constructor (dependencies: seq<nat>)
      ensures Record() == NewTask(dependencies)
    {
      move, status, isAssigned, blocking := false, Waiting, false, |dependencies|;
      this.dependencies, dependents := dependencies, [];
      phase := if dependencies == [] then Free else Spawning(dependencies);
      spawnedOn, started := dependencies, false;
    }

    /** A data movement task for the compute task `t`: it is running and assigned from the start. */
    constructor Move(t: nat)
      ensures Record() == Task(true, Running, true, 0, [], [t], Free, [], false)
    {
      move, status, isAssigned, blocking := true, Running, true, 0;
      dependencies, dependents := [], [t];
      phase, spawnedOn, started := Free, [], false;
    }

    ghost function Record(): Task
      reads this
    {
      Task(move, status, isAssigned, blocking, dependencies, dependents, phase, spawnedOn, started)
    }

    /** `_add_dependent`: refused when the task has finished. */
    method AddDependent(t: nat) returns (added: bool)
      modifies `dependents
      ensures added == !Terminal(Record())
      ensures dependents == if added then old(dependents) + [t] else old(dependents)
    {
      if status.Completed? || status.Failed? {
        return false;
      }
      dependents := dependents + [t];
      return true;
    }

    /** `_handle_dependency_event_mutex`, up to the enqueueing. */
    method HandleDependencyEvent() returns (schedulable: bool)
      modifies `blocking
      ensures blocking == old(blocking) - 1 && schedulable == Schedulable(Record())
    {
      blocking := blocking - 1;
      schedulable := status.Running? && blocking == 0 && isAssigned;
    }
  }

  /** An operand of a task: a PArray or a slice of one, and the whole PArray. */
  datatype Data = Data(id: nat, parent: nat)

  class Scheduler {
    var tasks: seq<TaskObject>
    var newest: seq<nat>
    var current: seq<nat>
    var ready: seq<nat>
    var device: multiset<nat>
    var workers: multiset<nat>
    /** `_datablock_dict`: the compute tasks mapped so far that use a PArray or slice. */
    var users: map<nat, seq<nat>>
    ghost var mapper: Mapper

    ghost predicate Valid()
      reads this
    {
      forall i, j | 0 <= i < j < |tasks| :: tasks[i] != tasks[j]
    }

    ghost function Records(): (r: seq<Task>)
      reads this, tasks
      ensures |r| == |tasks|
    {
      seq(|tasks|, i requires 0 <= i < |tasks| reads this, tasks => tasks[i].Record())
    }

    ghost function Abs(): State
      reads this, tasks
    {
      State(Records(), newest, current, mapper, ready, device, workers)
    }

    constructor ()
      ensures Valid() && tasks == [] && Abs() == Start()
    {
      tasks, newest, current, ready, device, workers := [], [], [], [], multiset{}, multiset{};
      users, mapper := map[], Idle;
      new;
      assert Records() == [];
    }

    /** `enqueue_task`. */
    method EnqueueTask(t: nat)
      modifies `ready
      ensures ready == [t] + old(ready)
    {
      ready := [t] + ready;
    }

    /** One round of the loop below: ask the dependency, and count it off if it refuses. */
    method RegisterWith(t: nat, d: nat)
      requires Valid() && t < |tasks| && d < |tasks| && t != d && tasks[d].phase.Free?
      requires tasks[t].phase.Spawning? && tasks[t].phase.rest != [] && tasks[t].phase.rest[0] == d
      modifies tasks[t], tasks[d]
      ensures Valid() && Step(old(Abs()), Register(t)) == Some(Abs())
      ensures var rest := old(tasks[t].phase.rest)[1..]; tasks[t].phase == if rest == [] then Free else Spawning(rest)
      ensures tasks[d].phase == old(tasks[d].phase)
    {
      ghost var s := Abs();
      ghost var rest := tasks[t].phase.rest[1..];
      AskDependency(t, d, if rest == [] then Free else Spawning(rest));
      StepRegister(s, t, d);
    }

    method AskDependency(t: nat, d: nat, ghost next: Phase)
      requires Valid() && t < |tasks| && d < |tasks| && t != d
      modifies tasks[t], tasks[d]
      ensures Valid() && Abs() == Linked(old(Abs()), t, d, next)
      ensures tasks[t].phase == next && tasks[d].phase == old(tasks[d].phase)
    {
      ghost var s := Abs();
      var added := tasks[d].AddDependent(t);
      if !added {
        tasks[t].blocking := tasks[t].blocking - 1;
      }
      tasks[t].phase := next;
      assert Records() == Linked(s, t, d, next).tasks;
    }

    /** The same, after a run. */
    method RegisterAfter(t: nat, d: nat, ghost start: State, ghost run: seq<Event>) returns (ghost longer: seq<Event>)
      requires Valid() && t < |tasks| && d < |tasks| && t != d && tasks[d].phase.Free?
      requires tasks[t].phase.Spawning? && tasks[t].phase.rest != [] && tasks[t].phase.rest[0] == d
      requires Run(start, run) == Some(Abs())
      modifies tasks[t], tasks[d]
      ensures Valid() && Run(start, longer) == Some(Abs()) && longer == run + [Register(t)]
      ensures var rest := old(tasks[t].phase.rest)[1..]; tasks[t].phase == if rest == [] then Free else Spawning(rest)
      ensures tasks[d].phase == old(tasks[d].phase)
    {
      ghost var s := Abs();
      RegisterWith(t, d);
      Append(start, run, s, Register(t));
      longer := run + [Register(t)];
    }

    /** The loop of the `dependencies` setter, for the new task `t`. The mutexes of its dependencies are free. */
    method RegisterDependencies(t: nat, deps: seq<nat>) returns (ghost run: seq<Event>)
      requires Valid() && t < |tasks| && tasks[t].phase == (if deps == [] then Free else Spawning(deps))
      requires forall i | 0 <= i < |deps| :: deps[i] < |tasks| && deps[i] != t && tasks[deps[i]].phase.Free?
      modifies tasks
      ensures Valid() && Run(old(Abs()), run) == Some(Abs())
      ensures tasks[t].phase.Free? && |run| == |deps| && forall e | e in run :: e == Register(t)
    {
      run := [];
      for i := 0 to |deps|
        invariant Valid() && tasks == old(tasks)
        invariant tasks[t].phase == if deps[i..] == [] then Free else Spawning(deps[i..])
        invariant forall j | 0 <= j < |deps| :: tasks[deps[j]].phase.Free?
        invariant Run(old(Abs()), run) == Some(Abs())
        invariant |run| == i && forall e | e in run :: e == Register(t)
      {
        Tail(deps, i);
        run := RegisterAfter(t, deps[i], old(Abs()), run);
      }
    }

    /** One round of the loop below: count down, and enqueue what became schedulable. */
    method NotifyOne(d: nat, t: nat)
      requires Valid() && t < |tasks| && d < |tasks| && t != d && tasks[t].phase.Free?
      requires tasks[d].phase.Finishing? && tasks[d].phase.rest != [] && tasks[d].phase.rest[0] == t
      modifies `ready, tasks[t], tasks[d]
      ensures Valid() && Step(old(Abs()), Notify(d)) == Some(Abs())
      ensures tasks[d].phase == Finishing(old(tasks[d].phase.rest)[1..], old(tasks[d].phase.ok))
      ensures tasks[t].phase == old(tasks[t].phase)
    {
      ghost var s := Abs();
      var schedulable := tasks[t].HandleDependencyEvent();
      assert tasks[t].Record() == s.tasks[t].(blocking := s.tasks[t].blocking - 1);
      tasks[d].phase := Finishing(tasks[d].phase.rest[1..], tasks[d].phase.ok);
      assert Records() == Notified(s, d, t).tasks;
      StepNotify(s, d, t);
      ghost var after := Records();
      if schedulable {
        EnqueueTask(t);
        assert Records() == after;
      }
    }

    /** `_notify_dependents` of a task whose body is done. The mutexes of its dependents are free. */
    method NotifyDependents(d: nat) returns (ghost run: seq<Event>)
      requires Valid() && d < |tasks| && tasks[d].phase.Finishing? && tasks[d].phase.rest == tasks[d].dependents
      requires forall i | 0 <= i < |tasks[d].dependents| ::
                 tasks[d].dependents[i] < |tasks| && tasks[d].dependents[i] != d
                     && tasks[tasks[d].dependents[i]].phase.Free?
      modifies `ready, tasks
      ensures Valid() && tasks == old(tasks) && Run(old(Abs()), run) == Some(Abs())
      ensures tasks[d].phase.Finishing? && tasks[d].phase.rest == []
      ensures |run| == |old(tasks[d].dependents)| && forall e | e in run :: e == Notify(d)
    {
      run := [];
      var dependents := tasks[d].dependents;
      for i := 0 to |dependents|
        invariant Valid() && tasks == old(tasks) && tasks[d].phase.Finishing? && tasks[d].phase.rest == dependents[i..]
        invariant forall j | 0 <= j < |dependents| :: tasks[dependents[j]].phase.Free?
        invariant Run(old(Abs()), run) == Some(Abs())
        invariant |run| == i && forall e | e in run :: e == Notify(d)
      {
        ghost var s := Abs();
        Tail(dependents, i);
        NotifyOne(d, dependents[i]);
        Append(old(Abs()), run, s, Notify(d));
        run := run + [Notify(d)];
      }
    }

    /** The loop of `fill_curr_spawned_task_queue`: pop every new task from the left, and keep those that have an
        unmapped dependency apart. */
    method Split(queue: seq<nat>) returns (mapped: seq<nat>, failed: seq<nat>)
      requires Valid() && (forall i | 0 <= i < |queue| :: queue[i] < |tasks|)
      requires forall i, j | 0 <= i < |tasks| && 0 <= j < |tasks[i].dependencies| :: tasks[i].dependencies[j] < |tasks|
      ensures mapped == Mappable(Abs(), queue, true) && failed == Mappable(Abs(), queue, false)
    {
      mapped, failed := [], [];
      var i := 0;
      assert queue[0..] == queue;
      while i < |queue|
        invariant 0 <= i <= |queue|
        invariant mapped + Mappable(Abs(), queue[i..], true) == Mappable(Abs(), queue, true)
        invariant failed + Mappable(Abs(), queue[i..], false) == Mappable(Abs(), queue, false)
      {
        MappableNext(Abs(), queue, i, mapped, true);
        MappableNext(Abs(), queue, i, failed, false);
        var ok := CheckAllDependencyMapped(queue[i]);
        if ok {
          mapped := mapped + [queue[i]];
        } else {
          failed := failed + [queue[i]];
        }
        i := i + 1;
      }
      assert queue[i..] == [];
    }

    /** `fill_curr_spawned_task_queue`: new tasks whose dependencies are all mapped move to the current queue. */
    method FillCurrentQueue()
      requires Valid() && mapper.Idle? && (forall i | 0 <= i < |newest| :: newest[i] < |tasks|)
      requires forall i, j | 0 <= i < |tasks| && 0 <= j < |tasks[i].dependencies| :: tasks[i].dependencies[j] < |tasks|
      modifies `newest, `current
      ensures Valid() && Step(old(Abs()), Fill) == Some(Abs())
    {
      ghost var records := Records();
      var mapped, failed := Split(newest);
      newest := failed;
      current := current + mapped;
      assert Records() == records;
    }

    method CheckAllDependencyMapped(t: nat) returns (ok: bool)
      requires Valid() && t < |tasks|
      requires forall j | 0 <= j < |tasks[t].dependencies| :: tasks[t].dependencies[j] < |tasks|
      ensures ok == DependenciesMapped(Abs(), t)
    {
      var dependencies := tasks[t].dependencies;
      for i := 0 to |dependencies|
        invariant forall j | 0 <= j < i :: tasks[dependencies[j]].isAssigned
      {
        if !tasks[dependencies[i]].isAssigned {
          assert !Abs().tasks[Abs().tasks[t].dependencies[i]].isAssigned;
          return false;
        }
      }
      return true;
    }

    // ---- _map_tasks ----

    /** `_dequeue_spawned_task`, for a current queue that is not empty. */
    method DequeueSpawnedTask() returns (t: nat)
      requires Valid() && HasNext(Abs())
      modifies `current, `mapper
      ensures Valid() && Step(old(Abs()), Dequeue) == Some(Abs()) && mapper == Placing(t)
      ensures t == old(current)[|old(current)| - 1] && current == old(current)[..|old(current)| - 1]
      ensures t < |tasks| && tasks[t].phase.Free? && !tasks[t].move && !MapperAdds(Abs())
    {
      ghost var records := Records();
      t := current[|current| - 1];
      current := current[..|current| - 1];
      mapper := Placing(t);
      assert Records() == records;
    }

    /** The policy found no device: back to the new queue. */
    method Requeue(t: nat)
      requires Valid() && mapper == Placing(t)
      modifies `newest, `mapper
      ensures Valid() && mapper.Idle? && Run(old(Abs()), [PlacementFails]) == Some(Abs())
      ensures newest == [t] + old(newest)
    {
      ghost var records := Records();
      newest := [t] + newest;
      mapper := Idle;
      assert Records() == records;
      RunFirst(old(Abs()), PlacementFails, Abs(), []);
      assert [PlacementFails] + [] == [PlacementFails];
    }

    ghost method Place(t: nat)
      requires Valid() && mapper == Placing(t)
      modifies `mapper
      ensures Valid() && Step(old(Abs()), PlacementSucceeds) == Some(Abs()) && mapper == Moving(t)
    {
      ghost var records := Records();
      mapper := Moving(t);
      assert Records() == records;
    }

    /** The data movement task is created, and `t` depends on it. */
    method CreateMove(t: nat) returns (m: nat)
      requires Valid() && mapper == Moving(t) && t < |tasks| && tasks[t].phase.Free? && !MapperAdds(Abs())
      modifies `tasks, tasks[t]
      ensures Valid() && Step(old(Abs()), AddMove) == Some(Abs()) && mapper == Moving(t)
      ensures m == |old(tasks)| && |tasks| == m + 1 && tasks[..m] == old(tasks) && fresh(tasks[m])
      ensures tasks[m].Record() == Task(true, Running, true, 0, [], [t], Free, [], false)
      ensures tasks[t].phase == old(tasks[t].phase) && tasks[t].move == old(tasks[t].move)
      ensures tasks[t].dependencies == old(tasks[t].dependencies) + [m]
    {
      ghost var s := Abs();
      m := |tasks|;
      var move := new TaskObject.Move(t);
      tasks[t].blocking := tasks[t].blocking + 1;
      tasks[t].dependencies := tasks[t].dependencies + [m];
      tasks := tasks + [move];
      assert Records() == MoveAdded(s, t).tasks;
    }

    /** `_add_dependency`. */
    method AddDependency(m: nat, d: nat)
      requires Valid() && m < |tasks| && d < |tasks| && m != d && tasks[m].phase.Free?
      modifies tasks[m], tasks[d]
      ensures Valid() && Abs() == MoveLinked(Put(old(Abs()), m, old(tasks[m].Record()).(phase := Adding(d))), m, d)
      ensures tasks[m].phase.Free? && tasks[m].move == old(tasks[m].move)
      ensures tasks[d].phase == old(tasks[d].phase) && tasks[d].move == old(tasks[d].move)
      ensures tasks[d].dependencies == old(tasks[d].dependencies)
    {
      ghost var s := Abs();
      var added := tasks[d].AddDependent(m);
      if added {
        tasks[m].blocking := tasks[m].blocking + 1;
        tasks[m].dependencies := tasks[m].dependencies + [d];
      }
      assert Records() == MoveLinked(Put(s, m, s.tasks[m].(phase := Adding(d))), m, d).tasks;
    }

    /** The same with the mutex of the data movement task. The mutex of the dependency is free. */
    method AddMoveDependency(t: nat, m: nat, d: nat)
      requires Valid() && mapper == Moving(t) && t < |tasks| && m < |tasks| && d < |tasks| && MapperHas(Abs(), m)
      requires d in tasks[t].dependencies && !tasks[d].move && tasks[d].phase.Free? && !tasks[t].move
      modifies tasks[m], tasks[d]
      ensures Valid() && Run(old(Abs()), [MoveAsks(m, d), MoveAdds(m)]) == Some(Abs()) && MapperHas(Abs(), m)
      ensures tasks[m].phase.Free? && tasks[d].phase.Free? && !tasks[d].move
      ensures tasks[t].dependencies == old(tasks[t].dependencies) && tasks[t].phase == old(tasks[t].phase)
    {
      ghost var s := Abs();
      AddDependency(m, d);
      StepMoveAsks(s, m, d);
      RunTwo(s, MoveAsks(m, d), Put(s, m, s.tasks[m].(phase := Adding(d))), MoveAdds(m));
      NobodyAddsAfter(s, m, d);
    }

    /** Tasks that used PArrays are not data movement tasks, and their mutexes are free. */
    ghost predicate UsersFree()
      reads this, tasks
    {
      forall id, i | id in users && 0 <= i < |users[id]| :: IsUser(users[id][i])
    }

    ghost predicate IsUser(u: nat)
      reads this, tasks
    {
      u < |tasks| && tasks[u].phase.Free? && !tasks[u].move
    }

    /** The task objects are the same, with new ones at the end; nobody's mutex was taken or released, and the data
        movement tasks there were are as they were. */
    twostate predicate Kept()
      reads this, tasks
    {
      && old(tasks) <= tasks && (forall i | |old(tasks)| <= i < |tasks| :: fresh(tasks[i]))
      && forall i | 0 <= i < |old(tasks)| ::
           && tasks[i].phase == old(tasks[i].phase) && tasks[i].move == old(tasks[i].move)
           && (tasks[i].move ==> tasks[i].Record() == old(tasks[i].Record()))
    }

    /** The loop of `_construct_datamove_task`: the new task depends on those users of the data that `t` depends on. */
    method AddMoveDependencies(t: nat, m: nat, list: seq<nat>) returns (ghost run: seq<Event>)
      requires Valid() && mapper == Moving(t) && t < |tasks| && m < |tasks| && MapperHas(Abs(), m)
      requires !tasks[t].move && (forall i | 0 <= i < |list| :: IsUser(list[i]))
      modifies tasks
      ensures Valid() && mapper == Moving(t) && MapperHas(Abs(), m)
      ensures tasks[t].dependencies == old(tasks[t].dependencies)
      ensures Run(old(Abs()), run) == Some(Abs()) && run == AddingSteps(m, Chosen(list, tasks[t].dependencies))
      ensures forall i | 0 <= i < |tasks| && i != m ::
                && tasks[i].phase == old(tasks[i].phase) && tasks[i].move == old(tasks[i].move)
                && (tasks[i].move ==> tasks[i].Record() == old(tasks[i].Record()))
    {
      run := [];
      ghost var start, deps := Abs(), tasks[t].dependencies;
      for k := 0 to |list|
        invariant Valid() && mapper == Moving(t) && MapperHas(Abs(), m) && !tasks[t].move
        invariant tasks[t].dependencies == deps
        invariant forall i | 0 <= i < |list| :: IsUser(list[i])
        invariant Run(start, run) == Some(Abs()) && run == AddingSteps(m, Chosen(list[..k], deps))
        invariant forall i | 0 <= i < |tasks| && i != m ::
                    && tasks[i].phase == old(tasks[i].phase) && tasks[i].move == old(tasks[i].move)
                    && (tasks[i].move ==> tasks[i].Record() == old(tasks[i].Record()))
      {
        ChosenNext(m, list, k, deps);
        if list[k] in tasks[t].dependencies {
          ghost var s := Abs();
          AddMoveDependency(t, m, list[k]);
          AppendRun(start, run, s, [MoveAsks(m, list[k]), MoveAdds(m)]);
          run := run + [MoveAsks(m, list[k]), MoveAdds(m)];
        }
      }
      assert list[..|list|] == list;
    }

    /** What the dictionary answers. */
    function UsersOf(id: nat): seq<nat>
      reads this
    {
      if id in users then users[id] else []
    }

    /** The task is entered as one that uses the data and the whole PArray. */
    method AddUser(t: nat, data: Data)
      requires UsersFree() && IsUser(t)
      modifies `users
      ensures UsersFree()
      ensures users == Entered(old(users), t, data)
    {
      users := users[data.id := UsersOf(data.id) + [t]];
      if data.parent != data.id {
        users := users[data.parent := UsersOf(data.parent) + [t]];
      }
    }

    /** The data movement task with its dependencies. */
    method LinkMove(t: nat, list: seq<nat>) returns (m: nat, ghost run: seq<Event>)
      requires Valid() && mapper == Moving(t) && IsUser(t) && !MapperAdds(Abs())
      requires forall i | 0 <= i < |list| :: IsUser(list[i])
      modifies `tasks, tasks
      ensures Valid() && mapper == Moving(t) && Kept() && m == |old(tasks)| && |tasks| == m + 1 && MapperHas(Abs(), m)
      ensures Run(old(Abs()), run) == Some(Abs())
      ensures run == [AddMove] + AddingSteps(m, Chosen(list, tasks[t].dependencies))
      ensures tasks[t].dependencies == old(tasks[t].dependencies) + [m]
    {
      ghost var start := Abs();
      m := CreateMove(t);
      ghost var created := Abs();
      AddedIsHeld(start, t);
      assert forall i | 0 <= i < m :: tasks[i] == old(tasks)[i];
      ghost var links := AddMoveDependencies(t, m, list);
      RunFirst(start, AddMove, created, links);
      run := [AddMove] + links;
    }

    twostate lemma UsersStayFree()
      requires old(UsersFree()) && Kept() && users == old(users)
      ensures UsersFree()
    {
      forall id, i | id in users && 0 <= i < |users[id]| ensures IsUser(users[id][i]) {
        assert old(IsUser(users[id][i]));
      }
    }

    lemma UsersAreKnown(id: nat)
      requires UsersFree()
      ensures forall i | 0 <= i < |UsersOf(id)| :: UsersOf(id)[i] < |tasks|
    {
      forall i | 0 <= i < |UsersOf(id)| ensures UsersOf(id)[i] < |tasks| {
        assert IsUser(UsersOf(id)[i]);
      }
    }

    /** `_construct_datamove_task`: one more dependency of `t`, which depends on those earlier users of the data that
        `t` depends on. When they are added, its counter is looked at. */
    method ConstructMove(t: nat, data: Data, ghost mappable: seq<nat>)
      returns (m: nat, blocked: bool, ghost run: seq<Action>)
      requires Valid() && mapper == Moving(t) && IsUser(t) && UsersFree() && !MapperAdds(Abs())
      modifies `tasks, `users, tasks
      ensures Valid() && mapper == Moving(t) && IsUser(t) && UsersFree() && Kept()
      ensures run == MakingSteps(m, Chosen(old(UsersOf(data.id)), tasks[t].dependencies))
      ensures Acts(Mapping(old(Abs()), Hand(None, mappable)), run)
              == Some(Mapping(Abs(), Hand(None, mappable + if blocked then [] else [m])))
      ensures m == |old(tasks)| && |tasks| == m + 1 && MapperHas(Abs(), m)
      ensures tasks[t].dependencies == old(tasks[t].dependencies) + [m]
      ensures blocked == (tasks[m].blocking != 0) && users == Entered(old(users), t, data)
      ensures tasks[m].dependencies == Unfinished(old(Abs()), Chosen(old(UsersOf(data.id)), tasks[t].dependencies))
      ensures tasks[m].blocking == |tasks[m].dependencies|
    {
      ghost var events;
      UsersAreKnown(data.id);
      m, events := LinkMove(t, UsersOf(data.id));
      UsersStayFree();
      MadeWith(old(Abs()), m, UsersOf(data.id), tasks[t].dependencies, Abs());
      blocked := tasks[m].blocking != 0;
      run := MadeRun(old(Abs()), mappable, m, Chosen(UsersOf(data.id), tasks[t].dependencies), Abs());
      EnterUser(t, data);
    }

    method EnterUser(t: nat, data: Data)
      requires Valid() && UsersFree() && IsUser(t)
      modifies `users
      ensures UsersFree() && Abs() == old(Abs()) && users == Entered(old(users), t, data)
    {
      ghost var records := Records();
      AddUser(t, data);
      assert Records() == records;
    }

    /** `m` is a data movement task of the task in the mapper's hand, and not blocked. */
    ghost predicate Listable(m: nat)
      reads this, tasks
    {
      MapperHas(Abs(), m) && tasks[m].blocking == 0
    }

    /** One more operand; `mappable` are the unblocked data movement tasks so far. */
    method ConstructNext(t: nat, data: Data, mappable: seq<nat>) returns (more: seq<nat>, ghost run: seq<Action>)
      requires Valid() && mapper == Moving(t) && IsUser(t) && UsersFree() && !MapperAdds(Abs())
      requires forall i | 0 <= i < |mappable| :: Listable(mappable[i])
      modifies `tasks, `users, tasks
      ensures Valid() && mapper == Moving(t) && IsUser(t) && UsersFree() && !MapperAdds(Abs()) && Kept()
      ensures |tasks| == |old(tasks)| + 1 && tasks[t] == old(tasks[t])
      ensures Acts(Mapping(old(Abs()), Hand(None, mappable)), run) == Some(Mapping(Abs(), Hand(None, more)))
      ensures OnlyMoves(run) && forall i | 0 <= i < |more| :: Listable(more[i])
    {
      var m, blocked;
      m, blocked, run := ConstructMove(t, data, mappable);
      OnlyMovesMake(m, Chosen(old(UsersOf(data.id)), tasks[t].dependencies));
      forall i | 0 <= i < |mappable| ensures Listable(mappable[i]) {
        assert old(Listable(mappable[i]));
      }
      more := if blocked then mappable else mappable + [m];
      assert mappable + [] == mappable;
    }

    /** One data movement task for each operand. */
    method ConstructMoves(t: nat, operands: seq<Data>) returns (mappable: seq<nat>, ghost run: seq<Action>)
      requires Valid() && mapper == Moving(t) && IsUser(t) && UsersFree() && !MapperAdds(Abs())
      modifies `tasks, `users, tasks
      ensures Valid() && mapper == Moving(t) && IsUser(t) && UsersFree() && !MapperAdds(Abs()) && Extended()
      ensures |tasks| == |old(tasks)| + |operands| && tasks[t] == old(tasks[t])
      ensures Acts(Mapping(old(Abs()), EMPTY), run) == Some(Mapping(Abs(), Hand(None, mappable))) && OnlyMoves(run)
      ensures forall i | 0 <= i < |mappable| :: Listable(mappable[i])
    {
      mappable, run := [], [];
      ghost var start, task := Abs(), tasks[t];
      for k := 0 to |operands|
        invariant Valid() && mapper == Moving(t) && IsUser(t) && UsersFree() && !MapperAdds(Abs()) && Extended()
        invariant |tasks| == |old(tasks)| + k && tasks[t] == task
        invariant Acts(Mapping(start, EMPTY), run) == Some(Mapping(Abs(), Hand(None, mappable))) && OnlyMoves(run)
        invariant forall i | 0 <= i < |mappable| :: Listable(mappable[i])
      {
        ghost var w := Mapping(Abs(), Hand(None, mappable));
        ghost var more;
        mappable, more := ConstructNext(t, operands[k], mappable);
        ActsThen(Mapping(start, EMPTY), run, w, more);
        run := run + more;
      }
    }

    /** The unblocked ones are enqueued when all have been made, and none is left. */
    method EnqueueMoves(t: nat, mappable: seq<nat>) returns (ghost run: seq<Action>)
      requires Valid() && mapper == Moving(t)
      requires forall i | 0 <= i < |mappable| :: Listable(mappable[i])
      modifies `ready
      ensures Valid() && Records() == old(Records()) && OnlyMoves(run)
      ensures Acts(Mapping(old(Abs()), Hand(None, mappable)), run) == Some(Mapping(Abs(), EMPTY))
    {
      run := [];
      ghost var records, start := Records(), Mapping(Abs(), Hand(None, mappable));
      assert mappable[0..] == mappable;
      for k := 0 to |mappable|
        invariant Valid() && Records() == records && OnlyMoves(run)
        invariant Acts(start, run) == Some(Mapping(Abs(), Hand(None, mappable[k..])))
        invariant forall i | 0 <= i < |mappable| :: Listable(mappable[i])
      {
        ghost var w, a := Mapping(Abs(), Hand(None, mappable[k..])), Plain(EnqueueMove(mappable[k]));
        assert Listable(mappable[k]) && mappable[k..][1..] == mappable[k + 1..];
        EnqueueTask(mappable[k]);
        assert Records() == records;
        ActsThen(start, run, w, [a]);
        ActsOne(w, a);
        run := run + [a];
      }
    }

    method SetAssigned(t: nat)
      requires Valid() && mapper == Moving(t) && t < |tasks| && tasks[t].phase.Free? && !MapperAdds(Abs())
      modifies `mapper, tasks[t]
      ensures Valid() && Step(old(Abs()), Assign) == Some(Abs()) && mapper == Checking(t)
      ensures tasks[t].phase == old(tasks[t].phase) && tasks[t].move == old(tasks[t].move) && tasks[t].isAssigned
    {
      ghost var s := Abs();
      tasks[t].isAssigned := true;
      mapper := Checking(t);
      assert Records() == s.tasks[t := s.tasks[t].(isAssigned := true)];
    }

    method EnqueueIfUnblocked(t: nat)
      requires Valid() && mapper == Checking(t) && t < |tasks| && tasks[t].phase.Free?
      modifies `mapper, `ready
      ensures Valid() && Step(old(Abs()), CheckBlocked) == Some(Abs()) && mapper.Idle?
    {
      ghost var records := Records();
      mapper := Idle;
      if tasks[t].blocking == 0 {
        EnqueueTask(t);
      }
      assert Records() == records;
    }

    /** New task objects were added at the end. */
    twostate predicate Extended()
      reads this
    {
      old(tasks) <= tasks && forall i | |old(tasks)| <= i < |tasks| :: fresh(tasks[i])
    }

    /** Assign the task, and enqueue it unless it is blocked. */
    method AssignAndCheck(t: nat) returns (ghost run: seq<Event>)
      requires Valid() && mapper == Moving(t) && t < |tasks| && tasks[t].phase.Free? && !MapperAdds(Abs())
      modifies `mapper, `ready, tasks[t]
      ensures Valid() && mapper.Idle? && Run(old(Abs()), run) == Some(Abs())
      ensures run == [Assign, CheckBlocked] && tasks[t].isAssigned
      ensures tasks[t].phase == old(tasks[t].phase) && tasks[t].move == old(tasks[t].move)
    {
      SetAssigned(t);
      ghost var s := Abs();
      EnqueueIfUnblocked(t);
      RunTwo(old(Abs()), Assign, s, CheckBlocked);
      run := [Assign, CheckBlocked];
    }

    /** The data movement tasks of `t` are made and enqueued. */
    method MoveOperands(t: nat, operands: seq<Data>) returns (ghost run: seq<Action>)
      requires Valid() && mapper == Moving(t) && IsUser(t) && UsersFree() && !MapperAdds(Abs())
      modifies `ready, `tasks, `users, tasks
      ensures Valid() && mapper == Moving(t) && IsUser(t) && UsersFree() && !MapperAdds(Abs()) && Extended()
      ensures |tasks| == |old(tasks)| + |operands| && tasks[t] == old(tasks[t])
      ensures Maps(old(Abs()), run, Abs()) && OnlyMoves(run)
      ensures ready == Unblocked(Abs(), |old(tasks)|, |tasks|) + old(ready)
    {
      ghost var start := Abs();
      var mappable;
      ghost var moves, queued;
      mappable, moves := ConstructMoves(t, operands);
      ghost var moved := Abs();
      queued := EnqueueMoves(t, mappable);
      ActsThen(Mapping(start, EMPTY), moves, Mapping(moved, Hand(None, mappable)), queued);
      run := moves + queued;
      UndisturbedMoves(start, run, Abs(), t);
    }

    /** The task is assigned and checked; users' mutexes stay free. */
    method AssignUser(t: nat) returns (ghost run: seq<Event>)
      requires Valid() && mapper == Moving(t) && IsUser(t) && UsersFree() && !MapperAdds(Abs())
      modifies `mapper, `ready, tasks[t]
      ensures Valid() && mapper.Idle? && UsersFree() && Run(old(Abs()), run) == Some(Abs())
      ensures run == [Assign, CheckBlocked] && tasks[t].isAssigned
    {
      run := AssignAndCheck(t);
      forall id, i | id in users && 0 <= i < |users[id]| ensures IsUser(users[id][i]) {
        assert old(IsUser(users[id][i]));
      }
    }

    /** What `_map_tasks` does with a task the policy accepts. */
    method AcceptTask(t: nat, operands: seq<Data>) returns (ghost run: seq<Action>)
      requires Valid() && mapper == Placing(t) && IsUser(t) && UsersFree() && !MapperAdds(Abs())
      modifies `mapper, `ready, `tasks, `users, tasks
      ensures Valid() && mapper.Idle? && Extended() && UsersFree() && |tasks| == |old(tasks)| + |operands|
      ensures Maps(old(Abs()), run, Abs()) && Spine(run) == [PlacementSucceeds, Assign, CheckBlocked]
      ensures t < |tasks| && tasks[t].isAssigned && OneQueued(old(Abs()), Abs(), t, true)
    {
      ghost var start := Abs();
      Place(t);
      ghost var placed := Abs();
      ghost var moves := MoveOperands(t, operands);
      ghost var moved := Abs();
      ghost var rest := AssignUser(t);
      run := AcceptedRun(start, placed, moves, moved, rest, Abs(), t);
    }

    /** What it does with one the policy refuses. */
    method RejectTask(t: nat) returns (ghost run: seq<Action>)
      requires Valid() && mapper == Placing(t) && t < |tasks| && UsersFree()
      modifies `newest, `mapper
      ensures Valid() && mapper.Idle? && UsersFree() && Maps(old(Abs()), run, Abs())
      ensures Spine(run) == [PlacementFails] && OneQueued(old(Abs()), Abs(), t, false)
      ensures newest == [t] + old(newest)
    {
      Requeue(t);
      run := Plains([PlacementFails]);
      RejectedRun(old(Abs()), Abs(), t);
    }

    /** One task: assign it, or put it back if the policy finds no device. */
    method Attempt(t: nat, accepts: nat -> bool, operands: nat -> seq<Data>)
      returns (accepted: bool, ghost run: seq<Action>)
      requires Valid() && mapper == Placing(t) && IsUser(t) && UsersFree() && !MapperAdds(Abs())
      modifies `newest, `mapper, `ready, `tasks, `users, tasks
      ensures Valid() && mapper.Idle? && Extended() && UsersFree() && Maps(old(Abs()), run, Abs())
      ensures accepted == accepts(t) && Spine(run) == Placed(accepted) && OneQueued(old(Abs()), Abs(), t, accepted)
      ensures |tasks| == |old(tasks)| + if accepted then |operands(t)| else 0
      ensures newest == (if accepted then [] else [t]) + old(newest)
      ensures accepted ==> Assigned(Abs(), t)
    {
      accepted := accepts(t);
      if accepted {
        run := AcceptTask(t, operands(t));
        assert Records()[t].isAssigned;
      } else {
        run := RejectTask(t);
      }
    }

    /** The mapper is between two tasks. */
    ghost predicate Between()
      reads this, tasks
    {
      Valid() && mapper.Idle? && UsersFree()
    }

    /** One round of the loop of `_map_tasks`. */
    method MapOne(accepts: nat -> bool, operands: nat -> seq<Data>) returns (accepted: bool, ghost run: seq<Action>)
      requires Between() && HasNext(Abs())
      modifies this, tasks
      ensures Between() && Extended() && Maps(old(Abs()), run, Abs())
      ensures var t := old(current)[|old(current)| - 1];
              && accepted == accepts(t) && Spine(run) == Round(accepted) && OneTried(old(Abs()), Abs(), t, accepted)
              && OneQueued(old(Abs()), Abs(), t, accepted)
              && |tasks| == |old(tasks)| + if accepted then |operands(t)| else 0
    {
      var t := DequeueSpawnedTask();
      ghost var s := Abs();
      ghost var rest;
      accepted, rest := Attempt(t, accepts, operands);
      RoundRun(old(Abs()), s, Abs(), rest, accepted, t);
      run := [Plain(Dequeue)] + rest;
    }

    /** `_map_tasks`. The policy's answers and the operands are given. With fewer than three tasks in the current queue
        it is filled first; then `tried` tasks leave it on the right. All but the last of them are assigned; the last
        is too, or it goes back to the new queue. Three are tried unless the queue is used up or one fails (`Tries`).
        Between placing a task and assigning it come the steps that make its data movement tasks, one for each
        operand, and enqueue those that are not blocked. What the ready queue gets is exactly the unblocked ones of
        these and of the assigned tasks. The mapper's hand is empty before and after, and the state satisfies every
        invariant of the runtime. */
    method MapTasks(accepts: nat -> bool, operands: nat -> seq<Data>)
      returns (ghost tried: nat, ghost run: seq<Action>)
      requires Between() && Invariant(Abs()) && DependenciesKnown(Abs())
      modifies this, tasks
      ensures Between() && Extended() && Invariant(Abs()) && DependenciesKnown(Abs())
      ensures MappedTasks(old(Abs()), Abs(), run, tried, accepts, operands)
    {
      ghost var start := Abs();
      ghost var fill := Plains([]);
      if |current| < 3 {
        FillWithin();
        fill := Plains([Fill]);
        LiftPlain(start, [Fill], Abs());
      }
      ghost var filled := Abs();
      ghost var rounds;
      tried, rounds := MapQueue(accepts, operands);
      run := fill + rounds;
      MappedIs(start, fill, filled, rounds, Abs(), tried, accepts, operands);
      ActsAreRuns(Mapping(start, EMPTY), run);
      RunKeepsInvariant(start, Events(run));
      RunKeepsDependenciesKnown(start, Events(run));
    }

    /** The loop. */
    method MapQueue(accepts: nat -> bool, operands: nat -> seq<Data>)
      returns (ghost tried: nat, ghost run: seq<Action>)
      requires Between() && Invariant(Abs())
      modifies this, tasks
      ensures Between() && Extended()
      ensures Tries(old(current), tried, accepts)
      ensures Tried(old(Abs()), Abs(), run, tried, |newest| - |old(newest)|, accepts, operands)
    {
      ghost var start := Abs();
      run, tried := [], 0;
      var attempted, failed := 0, 0;
      NothingTried(start, accepts, operands);
      while failed < 1 && attempted < 3 && current != []
        invariant Between() && Extended()
        invariant tried == attempted <= 3 && 0 <= failed <= 1
        invariant Tried(start, Abs(), run, tried, failed, accepts, operands)
        decreases 3 - attempted
      {
        var accepted;
        TriedSoFar(start, Abs(), run, tried, accepts, operands);
        accepted, run := TryOne(accepts, operands, start, run, tried);
        attempted, tried := attempted + 1, tried + 1;
        failed := failed + (if accepted then 0 else 1);
      }
      TriesAtEnd(start, Abs(), run, tried, failed, accepts, operands);
    }

    /** Its body. */
    method TryOne(accepts: nat -> bool, operands: nat -> seq<Data>, ghost start: State, ghost run: seq<Action>,
                  ghost n: nat)
      returns (accepted: bool, ghost longer: seq<Action>)
      requires Between() && Invariant(start) && current != []
      requires Tried(start, Abs(), run, n, 0, accepts, operands) && n < |start.current|
      modifies this, tasks
      ensures Between() && Extended()
      ensures Tried(start, Abs(), longer, n + 1, if accepted then 0 else 1, accepts, operands)
    {
      ghost var s := Abs();
      ghost var more;
      RoundBegins(start, s, run, n, accepts, operands);
      accepted, more := MapOne(accepts, operands);
      TryNext(start, s, Abs(), run, n, accepts, operands, more);
      longer := run + more;
    }

    lemma NamesAreKnown()
      requires DependenciesKnown(Abs())
      ensures forall i, j | 0 <= i < |tasks| && 0 <= j < |tasks[i].dependencies| ::
                tasks[i].dependencies[j] < |tasks|
    {
      forall i, j | 0 <= i < |tasks| && 0 <= j < |tasks[i].dependencies| ensures tasks[i].dependencies[j] < |tasks| {
        assert AllKnown(Abs(), Abs().tasks[i].dependencies);
      }
    }

    /** Filling the queue keeps the invariants. */
    method FillWithin()
      requires Valid() && mapper.Idle? && Invariant(Abs()) && DependenciesKnown(Abs())
      modifies `newest, `current
      ensures Valid() && mapper.Idle? && Invariant(Abs()) && Abs() == Filled(old(Abs()))
      ensures Run(old(Abs()), [Fill]) == Some(Abs())
    {
      ConservedKnown(Abs());
      NamesAreKnown();
      FillCurrentQueue();
      FillRun(old(Abs()), Abs());
    }

    /** The oldest ready task goes to its device queue. */
    method ScheduleOne()
      requires Valid() && |ready| > 0
      modifies `ready, `device
      ensures Valid() && Step(old(Abs()), Schedule) == Some(Abs())
      ensures ready == old(ready)[..|old(ready)| - 1]
      ensures device == old(device) + multiset{old(ready)[|old(ready)| - 1]}
    {
      ghost var records := Records();
      var t := ready[|ready| - 1];
      ready := ready[..|ready| - 1];
      device := device + multiset{t};
      assert Records() == records;
    }

    /** `_schedule_tasks`: the ready tasks, and at most the four oldest of them, go to their device queues. */
    method ScheduleTasks() returns (ghost run: seq<Event>)
      requires Valid()
      modifies `ready, `device
      ensures Valid() && Run(old(Abs()), run) == Some(Abs())
      ensures |run| == (if |old(ready)| < 4 then |old(ready)| else 4) && forall e | e in run :: e == Schedule
      ensures |old(ready)| == |ready| + |run| && ready == old(ready)[..|ready|]
      ensures device == old(device) + multiset(old(ready)[|ready|..])
    {
      run := [];
      var count := 0;
      while count < 4 && |ready| > 0
        invariant Valid() && count <= 4 && |ready| + count == |old(ready)|
        invariant Run(old(Abs()), run) == Some(Abs())
        invariant |run| == count && forall e | e in run :: e == Schedule
        invariant ready == old(ready)[..|ready|] && device == old(device) + multiset(old(ready)[|ready|..])
        decreases 4 - count
      {
        ghost var s := Abs();
        assert old(ready)[|ready| - 1..] == [ready[|ready| - 1]] + old(ready)[|ready|..];
        ScheduleOne();
        count := count + 1;
        Append(old(Abs()), run, s, Schedule);
        run := run + [Schedule];
      }
    }
  }

  // ---- what a data movement task depends on ----

  /** The elements of the list that are among `deps`, in the order of the list. */
  function Chosen(list: seq<nat>, deps: seq<nat>): seq<nat> {
    if list == [] then []
    else Chosen(list[..|list| - 1], deps) + if list[|list| - 1] in deps then [list[|list| - 1]] else []
  }

  lemma {:induction false} ChosenAre(list: seq<nat>, deps: seq<nat>, d: nat)
    ensures multiset(Chosen(list, deps))[d] == if d in deps then multiset(list)[d] else 0
  {
    if list != [] {
      ChosenAre(list[..|list| - 1], deps, d);
      assert list == list[..|list| - 1] + [list[|list| - 1]];
    }
  }

  /** Those that have not finished. */
  function Unfinished(s: State, ds: seq<nat>): seq<nat> {
    if ds == [] then []
    else
      var d := ds[|ds| - 1];
      Unfinished(s, ds[..|ds| - 1]) + if Known(s, d) && !Terminal(s.tasks[d]) then [d] else []
  }

  lemma {:induction false} UnfinishedSame(s: State, r: State, ds: seq<nat>)
    requires |s.tasks| <= |r.tasks| && forall i | 0 <= i < |ds| :: ds[i] < |s.tasks|
    requires forall i | 0 <= i < |s.tasks| :: r.tasks[i].status == s.tasks[i].status
    ensures Unfinished(r, ds) == Unfinished(s, ds)
  {
    if ds != [] {
      UnfinishedSame(s, r, ds[..|ds| - 1]);
    }
  }

  predicate SameStatus(s: State, r: State) {
    |s.tasks| <= |r.tasks| && forall i | 0 <= i < |s.tasks| :: r.tasks[i].status == s.tasks[i].status
  }

  lemma AddsOne(s: State, m: nat, d: nat, r: State)
    requires Run(s, [MoveAsks(m, d), MoveAdds(m)]) == Some(r)
    ensures Known(s, m) && Known(r, m) && SameStatus(s, r)
    ensures var more := if Known(s, d) && !Terminal(s.tasks[d]) then [d] else [];
            && r.tasks[m].dependencies == s.tasks[m].dependencies + more
            && r.tasks[m].blocking == s.tasks[m].blocking + |more|
  {
    assert [MoveAsks(m, d)] + [MoveAdds(m)] == [MoveAsks(m, d), MoveAdds(m)];
    var q := SplitRun(s, [MoveAsks(m, d)], [MoveAdds(m)], r);
    RunOne(s, MoveAsks(m, d));
    RunOne(q, MoveAdds(m));
    AskStep(s, m, d);
    AddStep(q, m, d);
  }

  lemma RunOne(s: State, e: Event)
    ensures Run(s, [e]) == Step(s, e)
  {
    assert [e][1..] == [];
  }

  lemma AskStep(s: State, m: nat, d: nat)
    requires Step(s, MoveAsks(m, d)).Some?
    ensures Known(s, m) && Known(s, d) && d != m
    ensures Step(s, MoveAsks(m, d)).value == Put(s, m, s.tasks[m].(phase := Adding(d)))
  {
  }

  lemma AddStep(s: State, m: nat, d: nat)
    requires Known(s, m) && Known(s, d) && d != m && s.tasks[m].phase == Adding(d) && Step(s, MoveAdds(m)).Some?
    ensures var r, more := Step(s, MoveAdds(m)).value, if Terminal(s.tasks[d]) then [] else [d];
            && SameStatus(s, r) && r.tasks[m].dependencies == s.tasks[m].dependencies + more
            && r.tasks[m].blocking == s.tasks[m].blocking + |more|
  {
    assert s.tasks[m].dependencies + [] == s.tasks[m].dependencies;
  }

  lemma {:induction false} AddsEach(s: State, m: nat, chosen: seq<nat>, r: State)
    requires Run(s, AddingSteps(m, chosen)) == Some(r) && Known(s, m)
    requires forall i | 0 <= i < |chosen| :: chosen[i] < |s.tasks|
    ensures Known(r, m) && SameStatus(s, r)
    ensures r.tasks[m].dependencies == s.tasks[m].dependencies + Unfinished(s, chosen)
    ensures r.tasks[m].blocking == s.tasks[m].blocking + |Unfinished(s, chosen)|
  {
    if chosen != [] {
      var init, d := chosen[..|chosen| - 1], chosen[|chosen| - 1];
      var q := SplitRun(s, AddingSteps(m, init), [MoveAsks(m, d), MoveAdds(m)], r);
      AddsEach(s, m, init, q);
      AddsOne(q, m, d, r);
      AddsLast(s, q, r, m, Unfinished(s, init), if Terminal(s.tasks[d]) then [] else [d]);
    }
  }

  lemma AddsLast(s: State, q: State, r: State, m: nat, first: seq<nat>, more: seq<nat>)
    requires Known(s, m) && Known(q, m) && Known(r, m)
    requires q.tasks[m].dependencies == s.tasks[m].dependencies + first
    requires r.tasks[m].dependencies == q.tasks[m].dependencies + more
    ensures r.tasks[m].dependencies == s.tasks[m].dependencies + (first + more)
  {
  }

  lemma SplitRun(s: State, first: seq<Event>, second: seq<Event>, r: State) returns (q: State)
    requires Run(s, first + second) == Some(r)
    ensures Run(s, first) == Some(q) && Run(q, second) == Some(r)
  {
    RunOfFirst(s, first, second);
    q := Run(s, first).value;
    AppendRun(s, first, q, second);
  }

  lemma {:induction false} RunOfFirst(s: State, first: seq<Event>, second: seq<Event>)
    requires Run(s, first + second).Some?
    ensures Run(s, first).Some?
    decreases |first|
  {
    if first != [] {
      assert (first + second)[0] == first[0] && (first + second)[1..] == first[1..] + second;
      RunOfFirst(Step(s, first[0]).value, first[1..], second);
    }
  }

  /** The new data movement task depends on exactly those users of the data among `deps` that have not finished, and
      its counter is their number. */
  lemma MadeWith(s: State, m: nat, list: seq<nat>, deps: seq<nat>, r: State)
    requires Run(s, [AddMove] + AddingSteps(m, Chosen(list, deps))) == Some(r) && m == |s.tasks|
    requires forall i | 0 <= i < |list| :: list[i] < |s.tasks|
    ensures Known(r, m) && r.tasks[m].dependencies == Unfinished(s, Chosen(list, deps))
    ensures r.tasks[m].blocking == |r.tasks[m].dependencies|
  {
    var chosen, links := Chosen(list, deps), AddingSteps(m, Chosen(list, deps));
    var created := SplitRun(s, [AddMove], links, r);
    CreatedIs(s, created);
    ChosenKnown(s, list, deps);
    AddsEach(created, m, chosen, r);
    UnfinishedSame(s, created, chosen);
    assert [] + Unfinished(s, chosen) == Unfinished(s, chosen);
  }

  lemma CreatedIs(s: State, r: State)
    requires Run(s, [AddMove]) == Some(r)
    ensures |r.tasks| == |s.tasks| + 1 && SameStatus(s, r)
    ensures r.tasks[|s.tasks|].dependencies == [] && r.tasks[|s.tasks|].blocking == 0
  {
    assert [AddMove][1..] == [];
  }

  lemma {:induction false} ChosenKnown(s: State, list: seq<nat>, deps: seq<nat>)
    requires forall i | 0 <= i < |list| :: list[i] < |s.tasks|
    ensures forall i | 0 <= i < |Chosen(list, deps)| :: Chosen(list, deps)[i] < |s.tasks|
  {
    if list != [] {
      ChosenKnown(s, list[..|list| - 1], deps);
    }
  }

  /** The steps that make a data movement task depend on the chosen ones. */
  function AddingSteps(m: nat, chosen: seq<nat>): seq<Event> {
    if chosen == [] then []
        else AddingSteps(m, chosen[..|chosen| - 1]) + [MoveAsks(m, chosen[|chosen| - 1]), MoveAdds(m)]
  }

  lemma ChosenNext(m: nat, list: seq<nat>, k: nat, deps: seq<nat>)
    requires k < |list|
    ensures AddingSteps(m, Chosen(list[..k + 1], deps))
            == AddingSteps(m, Chosen(list[..k], deps)) + if list[k] in deps then [MoveAsks(m, list[k]), MoveAdds(m)]
                else []
  {
    assert list[..k + 1][..k] == list[..k] && list[..k + 1][k] == list[k];
    var chosen := Chosen(list[..k], deps);
    assert (chosen + [list[k]])[..|chosen|] == chosen && chosen + [] == chosen;
  }

  /** The steps that make one data movement task. */
  function MakingSteps(m: nat, chosen: seq<nat>): seq<Action> {
    [Plain(AddMove)] + Plains(AddingSteps(m, chosen)) + [CheckMove]
  }

  lemma {:induction false} AddingOnly(m: nat, chosen: seq<nat>)
    ensures forall i | 0 <= i < |AddingSteps(m, chosen)| ::
              var e := AddingSteps(m, chosen)[i]; (e.MoveAsks? && e.m == m) || e.MoveAdds?
  {
    if chosen != [] {
      AddingOnly(m, chosen[..|chosen| - 1]);
    }
  }

  lemma OnlyMovesMake(m: nat, chosen: seq<nat>)
    ensures OnlyMoves(MakingSteps(m, chosen))
  {
    AddingOnly(m, chosen);
  }

  lemma MadeRun(s: State, mappable: seq<nat>, m: nat, chosen: seq<nat>, r: State) returns (run: seq<Action>)
    requires Run(s, [AddMove] + AddingSteps(m, chosen)) == Some(r) && m == |s.tasks| && MapperHas(r, m)
    ensures run == MakingSteps(m, chosen)
    ensures Acts(Mapping(s, Hand(None, mappable)), run)
            == Some(Mapping(r, Hand(None, mappable + if r.tasks[m].blocking == 0 then [m] else [])))
  {
    AddingOnly(m, chosen);
    LiftMaking(s, mappable, AddingSteps(m, chosen), r, m);
    run := MakingSteps(m, chosen);
  }

  function Entered(users: map<nat, seq<nat>>, t: nat, data: Data): map<nat, seq<nat>> {
    var own := users[data.id := (if data.id in users then users[data.id] else []) + [t]];
    if data.parent == data.id then own
    else own[data.parent := (if data.parent in own then own[data.parent] else []) + [t]]
  }

  /** The task is entered once as a user of the data, and once as a user of the whole PArray if that is another. */
  lemma EnteredExactly(users: map<nat, seq<nat>>, t: nat, data: Data, id: nat)
    ensures var next := Entered(users, t, data);
            && (id in next <==> id in users || id == data.id || id == data.parent)
            && (id in next ==> next[id] == (if id in users then users[id] else [])
                                           + if id == data.id || id == data.parent then [t] else [])
  {
    assert id in users ==> users[id] + [] == users[id];
  }

  lemma AddedIsHeld(s: State, t: nat)
    requires s.mapper == Moving(t) && Known(s, t) && s.tasks[t].phase.Free? && !MapperAdds(s)
    ensures MapperHas(MoveAdded(s, t), |s.tasks|)
  {
    var r := MoveAdded(s, t);
    forall x | 0 <= x < |r.tasks| ensures !r.tasks[x].phase.Adding? {
      assert x < |s.tasks| ==> !s.tasks[x].phase.Adding?;
    }
  }

  lemma StepMoveAsks(s: State, m: nat, d: nat)
    requires MapperHas(s, m) && Known(s, d) && d != m && d in s.tasks[s.mapper.t].dependencies
    requires !s.tasks[d].move && s.tasks[d].phase.Free?
    ensures var asked := Put(s, m, s.tasks[m].(phase := Adding(d)));
            Step(s, MoveAsks(m, d)) == Some(asked) && Step(asked, MoveAdds(m)) == Some(MoveLinked(asked, m, d))
  {
  }

  lemma NobodyAddsAfter(s: State, m: nat, d: nat)
    requires MapperHas(s, m) && Known(s, d) && d != m && !s.tasks[d].move && s.tasks[d].phase.Free?
    requires !s.tasks[s.mapper.t].move
    ensures MapperHas(MoveLinked(Put(s, m, s.tasks[m].(phase := Adding(d))), m, d), m)
  {
    var r := MoveLinked(Put(s, m, s.tasks[m].(phase := Adding(d))), m, d);
    forall x | 0 <= x < |r.tasks| ensures !r.tasks[x].phase.Adding? {
      assert !s.tasks[x].phase.Adding?;
    }
  }

  // ---- what `_map_tasks` does with its queue ----

  /** `n` tasks are taken from the right end of the queue: at most three, all but the last of them accepted, and
      fewer than three only if the queue is used up or the last one fails. */
  ghost predicate Tries(queue: seq<nat>, n: nat, accepts: nat -> bool) {
    && n <= 3 && n <= |queue|
    && (forall i | |queue| - n < i < |queue| :: accepts(queue[i]))
    && (n < 3 && n < |queue| ==> n > 0 && !accepts(queue[|queue| - n]))
  }

  function Untried(queue: seq<nat>, n: nat): seq<nat>
    requires n <= |queue|
  {
    queue[..|queue| - n]
  }

  function FailedOf(queue: seq<nat>, n: nat, accepts: nat -> bool): seq<nat>
    requires n <= |queue|
  {
    if n > 0 && !accepts(queue[|queue| - n]) then [queue[|queue| - n]] else []
  }

  /** The steps that are not about data movement tasks. */
  function Spine(acts: seq<Action>): seq<Event> {
    if acts == [] then []
    else Spine(acts[..|acts| - 1]) + SpineStep(acts[|acts| - 1])
  }

  function SpineStep(a: Action): seq<Event> {
    if a.Plain? && !IsMoveEvent(a.e) then [a.e] else []
  }

  lemma SpineSnoc(acts: seq<Action>, a: Action)
    ensures Spine(acts + [a]) == Spine(acts) + SpineStep(a)
  {
    assert (acts + [a])[..|acts|] == acts;
  }

  lemma {:induction false} SpineAppend(first: seq<Action>, second: seq<Action>)
    ensures Spine(first + second) == Spine(first) + Spine(second)
    decreases |second|
  {
    if second == [] {
      assert first + second == first;
    } else {
      var init, last := second[..|second| - 1], second[|second| - 1];
      assert second == init + [last] && first + second == first + init + [last];
      SpineAppend(first, init);
      SpineSnoc(first + init, last);
      SpineSnoc(init, last);
    }
  }

  lemma {:induction false} SpineOfMoves(acts: seq<Action>)
    requires OnlyMoves(acts)
    ensures Spine(acts) == []
  {
    if acts != [] {
      SpineOfMoves(acts[..|acts| - 1]);
    }
  }

  lemma {:induction false} SpineOfPlains(run: seq<Event>)
    requires forall i | 0 <= i < |run| :: !IsMoveEvent(run[i])
    ensures Spine(Plains(run)) == run
  {
    if run != [] {
      var init := run[..|run| - 1];
      SpineOfPlains(init);
      assert Plains(run)[..|run| - 1] == Plains(init) && run == init + [run[|run| - 1]];
    }
  }

  lemma AcceptedMaps(start: State, placed: State, moves: seq<Action>, moved: State, rest: seq<Event>, end: State)
    requires Step(start, PlacementSucceeds) == Some(placed) && Maps(placed, moves, moved)
    requires Run(moved, rest) == Some(end) && rest == [Assign, CheckBlocked]
    ensures Maps(start, Plains([PlacementSucceeds]) + moves + Plains(rest), end)
  {
    var first := [PlacementSucceeds];
    RunFirst(start, PlacementSucceeds, placed, []);
    assert first + [] == first;
    LiftPlain(start, first, placed);
    LiftPlain(moved, rest, end);
    MapsThen(start, Plains(first), placed, moves, moved);
    MapsThen(start, Plains(first) + moves, moved, Plains(rest), end);
  }

  lemma AcceptedSpine(moves: seq<Action>)
    requires OnlyMoves(moves)
    ensures Spine(Plains([PlacementSucceeds]) + moves + Plains([Assign, CheckBlocked]))
            == [PlacementSucceeds, Assign, CheckBlocked]
  {
    var first, rest := [PlacementSucceeds], [Assign, CheckBlocked];
    SpineOfMoves(moves);
    SpineAppend(Plains(first), moves);
    SpineAppend(Plains(first) + moves, Plains(rest));
    SpineOfPlains(first);
    SpineOfPlains(rest);
  }

  lemma AcceptedRun(start: State, placed: State, moves: seq<Action>, moved: State, rest: seq<Event>, end: State, t: nat)
    returns (run: seq<Action>)
    requires start.mapper == Placing(t) && t < |start.tasks| && !MapperAdds(start)
    requires Step(start, PlacementSucceeds) == Some(placed) && Maps(placed, moves, moved) && OnlyMoves(moves)
    requires Run(moved, rest) == Some(end) && rest == [Assign, CheckBlocked]
    ensures Maps(start, run, end) && Spine(run) == [PlacementSucceeds, Assign, CheckBlocked]
    ensures OneQueued(start, end, t, true)
  {
    run := Plains([PlacementSucceeds]) + moves + Plains(rest);
    AcceptedMaps(start, placed, moves, moved, rest, end);
    AcceptedSpine(moves);
    PlacedIs(start, placed, t);
    UndisturbedMoves(placed, moves, moved, t);
    AssignedLast(moved, end, t);
    AcceptedQueue(start, moved, end, t);
  }

  lemma PlacedIs(s: State, r: State, t: nat)
    requires Step(s, PlacementSucceeds) == Some(r) && s.mapper == Placing(t) && !MapperAdds(s)
    ensures r.mapper == Moving(t) && r.tasks == s.tasks && r.ready == s.ready && !MapperAdds(r)
  {
  }

  lemma AssignStep(s: State, t: nat)
    requires Step(s, Assign).Some? && s.mapper == Moving(t) && t < |s.tasks|
    ensures var r := Step(s, Assign).value;
            && |r.tasks| == |s.tasks| && r.mapper == Checking(t) && r.ready == s.ready
            && forall i | 0 <= i < |s.tasks| ::
                 r.tasks[i].blocking == s.tasks[i].blocking && r.tasks[i].move == s.tasks[i].move
  {
  }

  lemma CheckStep(s: State, t: nat)
    requires Step(s, CheckBlocked).Some? && s.mapper == Checking(t)
    ensures var r := Step(s, CheckBlocked).value;
            r.tasks == s.tasks && r.ready == (if IsUnblocked(s, t) then [t] else []) + s.ready
  {
    assert [] + s.ready == s.ready;
  }

  lemma AssignedLast(s: State, r: State, t: nat)
    requires Run(s, [Assign, CheckBlocked]) == Some(r) && s.mapper == Moving(t) && t < |s.tasks|
    ensures |r.tasks| == |s.tasks| && r.ready == (if IsUnblocked(r, t) then [t] else []) + s.ready
    ensures forall i | 0 <= i < |s.tasks| ::
              r.tasks[i].blocking == s.tasks[i].blocking && r.tasks[i].move == s.tasks[i].move
  {
    var run := [Assign, CheckBlocked];
    assert run[1..] == [CheckBlocked] && run[1..][1..] == [];
    AssignStep(s, t);
    CheckStep(Step(s, Assign).value, t);
  }

  lemma AcceptedQueue(start: State, moved: State, end: State, t: nat)
    requires t < |start.tasks| <= |moved.tasks| == |end.tasks|
    requires SameBlocking(start, moved, t) && NewAreMoves(start, moved)
    requires moved.ready == Unblocked(moved, |start.tasks|, |moved.tasks|) + start.ready
    requires end.ready == (if IsUnblocked(end, t) then [t] else []) + moved.ready
    requires forall i | 0 <= i < |moved.tasks| ::
               end.tasks[i].blocking == moved.tasks[i].blocking && end.tasks[i].move == moved.tasks[i].move
    ensures OneQueued(start, end, t, true)
  {
    UnblockedSame(moved, end, |start.tasks|, |moved.tasks|);
    var first, second := if IsUnblocked(end, t) then [t] else [], Unblocked(end, |start.tasks|, |end.tasks|);
    assert first + (second + start.ready) == first + second + start.ready;
  }

  lemma RejectedRun(s: State, r: State, t: nat)
    requires Run(s, [PlacementFails]) == Some(r)
    ensures Maps(s, Plains([PlacementFails]), r) && Spine(Plains([PlacementFails])) == [PlacementFails]
    ensures OneQueued(s, r, t, false)
  {
    LiftPlain(s, [PlacementFails], r);
    SpineOfPlains([PlacementFails]);
    assert [PlacementFails][1..] == [] && [] + s.ready == s.ready;
  }

  // ---- what is left in the ready queue ----

  /** What one accepted task leaves there: the unblocked ones of its data movement tasks, which have the numbers from
      `lo` to `hi`, and itself if it is not blocked. The newest are on the left. */
  function QueuedFor(s: State, lo: nat, hi: nat, t: nat): seq<nat> {
    (if IsUnblocked(s, t) then [t] else []) + Unblocked(s, lo, hi)
  }

  ghost predicate OneQueued(s: State, next: State, t: nat, accepted: bool) {
    && SameBlocking(s, next, t) && NewAreMoves(s, next)
    && next.ready == (if accepted then QueuedFor(next, |s.tasks|, |next.tasks|, t) else []) + s.ready
  }

  ghost predicate NumbersFrom(queue: seq<nat>, base: nat) {
    && (forall i | 0 <= i < |queue| :: queue[i] < base)
    && forall i, j | 0 <= i < j < |queue| :: queue[i] != queue[j]
  }

  lemma CurrentIsDistinct(s: State)
    requires Invariant(s)
    ensures NumbersFrom(s.current, |s.tasks|)
  {
    forall i | 0 <= i < |s.current| ensures s.current[i] < |s.tasks| {
      assert s.current[i] in multiset(s.current) && Held(s, s.current[i]) >= 1;
    }
    forall i, j | 0 <= i < j < |s.current| ensures s.current[i] != s.current[j] {
      assert Held(s, s.current[i]) <= 1;
      TwiceCounted(s.current, i, j);
    }
  }

  lemma TwiceCounted(ts: seq<nat>, i: nat, j: nat)
    requires i < j < |ts|
    ensures ts[i] == ts[j] ==> multiset(ts)[ts[i]] >= 2
  {
    assert ts == ts[..j] + ts[j..];
    assert ts[i] in ts[..j] && ts[j] in ts[j..];
    assert ts[i] in multiset(ts[..j]) && ts[j] in multiset(ts[j..]);
  }

  lemma MovesNext(start: State, s: State, next: State, t: nat, accepted: bool)
    requires |start.tasks| <= |s.tasks| && NewAreMoves(start, s) && OneQueued(s, next, t, accepted)
    ensures NewAreMoves(start, next)
  {
  }

  /** How often `m` is in the list. */
  function Times(ms: seq<nat>, m: nat): nat {
    if ms == [] then 0 else (if ms[0] == m then 1 else 0) + Times(ms[1..], m)
  }

  lemma {:induction false} TimesAppend(first: seq<nat>, second: seq<nat>, m: nat)
    ensures Times(first + second, m) == Times(first, m) + Times(second, m)
    decreases |first|
  {
    if first == [] {
      assert first + second == second;
    } else {
      assert (first + second)[0] == first[0] && (first + second)[1..] == first[1..] + second;
      TimesAppend(first[1..], second, m);
    }
  }

  lemma TimesOne(found: bool, n: nat, m: nat)
    ensures Times(if found then [n] else [], m) == if found && n == m then 1 else 0
  {
  }

  lemma {:induction false} UnblockedTimes(s: State, lo: nat, hi: nat, m: nat)
    ensures Times(Unblocked(s, lo, hi), m) == if lo <= m < hi && IsUnblocked(s, m) then 1 else 0
    decreases hi
  {
    if lo < hi {
      UnblockedTimes(s, lo, hi - 1, m);
      TimesAppend(if IsUnblocked(s, hi - 1) then [hi - 1] else [], Unblocked(s, lo, hi - 1), m);
      TimesOne(IsUnblocked(s, hi - 1), hi - 1, m);
    }
  }

  lemma QueuedForTimes(s: State, lo: nat, hi: nat, t: nat, m: nat)
    requires t < lo
    ensures Times(QueuedFor(s, lo, hi, t), m) == if IsUnblocked(s, m) && (lo <= m < hi || m == t) then 1 else 0
  {
    UnblockedTimes(s, lo, hi, m);
    TimesAppend(if IsUnblocked(s, t) then [t] else [], Unblocked(s, lo, hi), m);
  }

  /** `m` is left there by the first `n` tasks: it is one of their data movement tasks, or one of them and accepted. */
  predicate LeftThere(start: State, s: State, n: nat, accepts: nat -> bool, m: nat)
    requires n <= |start.current|
  {
    && IsUnblocked(s, m)
    && (m >= |start.tasks| || (accepts(m) && m in start.current[|start.current| - n..]))
  }

  ghost predicate LeftOnce(start: State, s: State, n: nat, accepts: nat -> bool, left: seq<nat>)
    requires n <= |start.current|
  {
    forall m: nat :: Times(left, m) == if LeftThere(start, s, n, accepts, m) then 1 else 0
  }

  /** The new part of the ready queue has these, each once. */
  ghost predicate ReadyTried(start: State, s: State, n: nat, accepts: nat -> bool)
    requires n <= |start.current|
  {
    var k := |s.ready| - |start.ready|;
    0 <= k && s.ready[k..] == start.ready && LeftOnce(start, s, n, accepts, s.ready[..k])
  }

  lemma LeftThereNext(start: State, s: State, next: State, n: nat, accepts: nat -> bool, m: nat)
    requires n < |start.current| && NumbersFrom(start.current, |start.tasks|) && |start.tasks| <= |s.tasks|
    requires SameBlocking(s, next, start.current[|start.current| - n - 1])
    ensures var t := start.current[|start.current| - n - 1];
            var more := accepts(t) && IsUnblocked(next, m) && (m >= |s.tasks| || m == t);
            && (LeftThere(start, next, n + 1, accepts, m)
                <==> more || LeftThere(start, s, n, accepts, m) || (m >= |s.tasks| && IsUnblocked(next, m)))
            && !(more && LeftThere(start, s, n, accepts, m))
  {
    var queue := start.current;
    var t := queue[|queue| - n - 1];
    assert queue[|queue| - n - 1..] == [t] + queue[|queue| - n..];
    assert t < |start.tasks| && t !in queue[|queue| - n..];
    assert m in queue[|queue| - n..] ==> m < |start.tasks|;
  }

  /** What one more task leaves there. */
  ghost predicate LeavesMore(s: State, next: State, t: nat, accepted: bool, more: seq<nat>) {
    && SameBlocking(s, next, t) && (!accepted ==> |next.tasks| == |s.tasks|)
    && more == if accepted then QueuedFor(next, |s.tasks|, |next.tasks|, t) else []
  }

  lemma MoreTimes(s: State, next: State, t: nat, accepted: bool, more: seq<nat>, m: nat)
    requires LeavesMore(s, next, t, accepted, more) && t < |s.tasks|
    ensures Times(more, m) == if accepted && IsUnblocked(next, m) && (m >= |s.tasks| || m == t) then 1 else 0
  {
    QueuedForTimes(next, |s.tasks|, |next.tasks|, t, m);
  }

  lemma ReadyNextAt(start: State, s: State, next: State, n: nat, accepts: nat -> bool, t: nat, more: seq<nat>,
                    left: seq<nat>, m: nat)
    requires n < |start.current| && NumbersFrom(start.current, |start.tasks|) && |start.tasks| <= |s.tasks|
    requires Times(left, m) == if LeftThere(start, s, n, accepts, m) then 1 else 0
    requires t == start.current[|start.current| - n - 1] && LeavesMore(s, next, t, accepts(t), more)
    ensures Times(more + left, m) == if LeftThere(start, next, n + 1, accepts, m) then 1 else 0
  {
    LeftThereNext(start, s, next, n, accepts, m);
    MoreTimes(s, next, t, accepts(t), more, m);
    TimesAppend(more, left, m);
  }

  lemma ReadyNextAll(start: State, s: State, next: State, n: nat, accepts: nat -> bool, t: nat, more: seq<nat>,
                     left: seq<nat>)
    requires n < |start.current| && NumbersFrom(start.current, |start.tasks|) && |start.tasks| <= |s.tasks|
    requires LeftOnce(start, s, n, accepts, left)
    requires t == start.current[|start.current| - n - 1] && LeavesMore(s, next, t, accepts(t), more)
    ensures LeftOnce(start, next, n + 1, accepts, more + left)
  {
    forall m: nat ensures Times(more + left, m) == if LeftThere(start, next, n + 1, accepts, m) then 1 else 0 {
      assert Times(left, m) == if LeftThere(start, s, n, accepts, m) then 1 else 0;
      ReadyNextAt(start, s, next, n, accepts, t, more, left, m);
    }
  }

  lemma ReadyNext(start: State, s: State, next: State, n: nat, accepts: nat -> bool, t: nat, more: seq<nat>)
    requires n < |start.current| && NumbersFrom(start.current, |start.tasks|) && |start.tasks| <= |s.tasks|
    requires ReadyTried(start, s, n, accepts) && t == start.current[|start.current| - n - 1]
    requires LeavesMore(s, next, t, accepts(t), more) && next.ready == more + s.ready
    ensures ReadyTried(start, next, n + 1, accepts)
  {
    var left := ReadyWas(start, s, n, accepts);
    ReadyNextAll(start, s, next, n, accepts, t, more, left);
    assert more + (left + start.ready) == more + left + start.ready;
    ReadyIs(start, next, n + 1, accepts, more + left);
  }

  lemma ReadyWas(start: State, s: State, n: nat, accepts: nat -> bool) returns (left: seq<nat>)
    requires n <= |start.current| && ReadyTried(start, s, n, accepts)
    ensures s.ready == left + start.ready && LeftOnce(start, s, n, accepts, left)
  {
    left := s.ready[..|s.ready| - |start.ready|];
  }

  lemma ReadyIs(start: State, s: State, n: nat, accepts: nat -> bool, left: seq<nat>)
    requires n <= |start.current| && s.ready == left + start.ready && LeftOnce(start, s, n, accepts, left)
    ensures ReadyTried(start, s, n, accepts)
  {
    assert s.ready[..|left|] == left && s.ready[|left|..] == start.ready;
  }

  /** The steps for one task. */
  function Round(accepted: bool): seq<Event> {
    [Dequeue] + Placed(accepted)
  }

  function Placed(accepted: bool): seq<Event> {
    if accepted then [PlacementSucceeds, Assign, CheckBlocked] else [PlacementFails]
  }

  lemma RoundRun(s: State, dequeued: State, next: State, rest: seq<Action>, accepted: bool, t: nat)
    requires Step(s, Dequeue) == Some(dequeued) && Maps(dequeued, rest, next) && Spine(rest) == Placed(accepted)
    requires OneQueued(dequeued, next, t, accepted)
    ensures Maps(s, [Plain(Dequeue)] + rest, next) && Spine([Plain(Dequeue)] + rest) == Round(accepted)
    ensures OneQueued(s, next, t, accepted)
  {
    ActsOne(Mapping(s, EMPTY), Plain(Dequeue));
    MapsThen(s, [Plain(Dequeue)], dequeued, rest, next);
    SpineAppend([Plain(Dequeue)], rest);
    assert [Plain(Dequeue)][..0] == [];
  }

  /** How many data movement tasks are made for the `n` tasks tried. */
  function Made(queue: seq<nat>, n: nat, accepts: nat -> bool, operands: nat -> seq<Data>): nat
    requires n <= |queue|
  {
    if n == 0 then 0
    else
      var t := queue[|queue| - n];
      Made(queue, n - 1, accepts, operands) + if accepts(t) then |operands(t)| else 0
  }

  ghost predicate Assigned(s: State, t: nat) {
    t < |s.tasks| && s.tasks[t].isAssigned
  }

  /** The tasks from the `i`-th on are accepted and assigned. */
  ghost predicate Taken(s: State, queue: seq<nat>, i: nat, accepts: nat -> bool) {
    forall j | i <= j < |queue| :: accepts(queue[j]) && Assigned(s, queue[j])
  }

  lemma TakenStay(s: State, acts: seq<Action>, r: State, queue: seq<nat>, i: nat, accepts: nat -> bool)
    requires Maps(s, acts, r) && Taken(s, queue, i, accepts)
    ensures Taken(r, queue, i, accepts)
  {
    ActsAreRuns(Mapping(s, EMPTY), acts);
    forall j | i <= j < |queue| ensures Assigned(r, queue[j]) {
      RunKeepsAssigned(s, Events(acts), queue[j]);
    }
  }

  /** The queues after `n` tasks, the last of which failed or not. */
  ghost predicate QueuesTried(start: State, s: State, n: nat, failed: int, accepts: nat -> bool) {
    && n <= |start.current| && s.current == Untried(start.current, n)
    && s.newest == FailedOf(start.current, n, accepts) + start.newest && failed == |FailedOf(start.current, n, accepts)|
  }

  ghost predicate StepsTried(start: State, s: State, run: seq<Action>, n: nat, accepts: nat -> bool)
    requires n <= |start.current|
  {
    Maps(start, run, s) && Spine(run) == Rounds(start.current, n, accepts)
  }

  /** The data movement tasks made so far. */
  ghost predicate MovesTried(start: State, s: State, n: nat, accepts: nat -> bool, operands: nat -> seq<Data>)
    requires n <= |start.current|
  {
    && |s.tasks| == |start.tasks| + Made(start.current, n, accepts, operands)
    && NewAreMoves(start, s) && ReadyTried(start, s, n, accepts)
  }

  /** The queues, the steps so far and the tasks they assigned. */
  ghost predicate Tried(start: State, s: State, run: seq<Action>, n: nat, failed: int, accepts: nat -> bool,
                        operands: nat -> seq<Data>)
  {
    && QueuesTried(start, s, n, failed, accepts)
    && StepsTried(start, s, run, n, accepts) && MovesTried(start, s, n, accepts, operands)
    && Taken(s, start.current, |start.current| - n + failed, accepts)
  }

  lemma NothingTried(start: State, accepts: nat -> bool, operands: nat -> seq<Data>)
    ensures Tried(start, start, [], 0, 0, accepts, operands)
  {
    assert [] + start.ready == start.ready;
    forall m: nat ensures Times([], m) == if LeftThere(start, start, 0, accepts, m) then 1 else 0 {
      assert start.current[|start.current|..] == [] && !LeftThere(start, start, 0, accepts, m);
    }
    ReadyIs(start, start, 0, accepts, []);
  }

  lemma TriedSoFar(start: State, s: State, run: seq<Action>, n: nat, accepts: nat -> bool, operands: nat -> seq<Data>)
    requires Tried(start, s, run, n, 0, accepts, operands) && s.current != []
    ensures n < |start.current|
  {
  }

  lemma TriesAtEnd(start: State, s: State, run: seq<Action>, n: nat, failed: int, accepts: nat -> bool,
                   operands: nat -> seq<Data>)
    requires Tried(start, s, run, n, failed, accepts, operands) && n <= 3 && (failed == 0 && n < 3 ==> s.current == [])
    ensures Tries(start.current, n, accepts) && failed == |s.newest| - |start.newest|
  {
  }

  /** What `_map_tasks` does: the queues, the steps without those about data movement tasks, the number of data
      movement tasks, and the assigned tasks. */
  ghost predicate MappedTasks(start: State, s: State, run: seq<Action>, tried: nat, accepts: nat -> bool,
                              operands: nat -> seq<Data>)
  {
    var filled := if |start.current| < 3 then Filled(start) else start;
    && Maps(start, run, s)
    && Tries(filled.current, tried, accepts)
    && QueuesTried(filled, s, tried, |s.newest| - |filled.newest|, accepts)
    && Spine(run) == (if |start.current| < 3 then [Fill] else []) + Rounds(filled.current, tried, accepts)
    && |s.tasks| == |start.tasks| + Made(filled.current, tried, accepts, operands) && NewAreMoves(start, s)
    && ReadyTried(filled, s, tried, accepts)
    && forall i | |filled.current| - tried <= i < |filled.current| && accepts(filled.current[i]) ::
         Assigned(s, filled.current[i])
  }

  /** After `_map_tasks`, in whatever state it was called, every data movement task that could run is in a queue or with
      a worker. */
  lemma MappingLosesNoMove(start: State, acts: seq<Action>, s: State, run: seq<Action>, tried: nat,
                           accepts: nat -> bool, operands: nat -> seq<Data>, m: nat)
    requires Reached(Mapping(start, EMPTY), acts) && MappedTasks(start, s, run, tried, accepts, operands)
    requires m < |s.tasks| && s.tasks[m].move && s.tasks[m].status.Running? && s.tasks[m].phase.Free?
    requires s.tasks[m].blocking == 0
    ensures m in s.ready || m in s.device || m in s.workers
  {
    ActsThen(Mapping(Start(), EMPTY), acts, Mapping(start, EMPTY), run);
    NoLostMove(Mapping(s, EMPTY), acts + run, m);
  }

  lemma MappedIs(start: State, fill: seq<Action>, filled: State, rounds: seq<Action>, s: State, tried: nat,
                 accepts: nat -> bool, operands: nat -> seq<Data>)
    requires fill == if |start.current| < 3 then Plains([Fill]) else Plains([])
    requires filled == (if |start.current| < 3 then Filled(start) else start) && Maps(start, fill, filled)
    requires Tries(filled.current, tried, accepts)
    requires Tried(filled, s, rounds, tried, |s.newest| - |filled.newest|, accepts, operands)
    ensures MappedTasks(start, s, fill + rounds, tried, accepts, operands)
  {
    MapsThen(start, fill, filled, rounds, s);
    TakenAre(s, filled.current, tried, accepts);
    SpineAppend(fill, rounds);
    SpineOfPlains([Fill]);
    SpineOfPlains([]);
  }

  lemma TakenAre(s: State, queue: seq<nat>, n: nat, accepts: nat -> bool)
    requires n <= |queue| && Taken(s, queue, |queue| - n + |FailedOf(queue, n, accepts)|, accepts)
    ensures forall i | |queue| - n <= i < |queue| && accepts(queue[i]) :: Assigned(s, queue[i])
  {
  }

  /** One round, as far as the queues see it. */
  ghost predicate OneTried(s: State, next: State, t: nat, accepted: bool) {
    && s.current != [] && next.current == s.current[..|s.current| - 1]
        && next.newest == (if accepted then [] else [t]) + s.newest
    && (accepted ==> Assigned(next, t))
  }

  lemma TryQueues(start: State, s: State, next: State, n: nat, accepts: nat -> bool)
    requires QueuesTried(start, s, n, 0, accepts) && n < |start.current| && s.current != []
    requires var t := start.current[|start.current| - n - 1]; OneTried(s, next, t, accepts(t))
    ensures var t := start.current[|start.current| - n - 1];
            QueuesTried(start, next, n + 1, if accepts(t) then 0 else 1, accepts)
  {
    assert FailedOf(start.current, n, accepts) == [];
  }

  lemma TryTaken(s: State, next: State, queue: seq<nat>, n: nat, accepts: nat -> bool)
    requires n < |queue| && Taken(next, queue, |queue| - n, accepts)
    requires var t := queue[|queue| - n - 1]; OneTried(s, next, t, accepts(t))
    ensures Taken(next, queue, |queue| - n - (if accepts(queue[|queue| - n - 1]) then 1 else 0), accepts)
  {
  }

  lemma TryRuns(start: State, s: State, next: State, run: seq<Action>, n: nat, accepts: nat -> bool,
                operands: nat -> seq<Data>, more: seq<Action>)
    requires n < |start.current| && Maps(start, run, s) && Spine(run) == Rounds(start.current, n, accepts)
    requires Spine(more) == Round(accepts(start.current[|start.current| - n - 1]))
    requires Maps(s, more, next)
    ensures Maps(start, run + more, next) && Spine(run + more) == Rounds(start.current, n + 1, accepts)
  {
    NextRound(start.current, n, accepts, operands);
    MapsThen(start, run, s, more, next);
    SpineAppend(run, more);
  }

  lemma TryMoves(start: State, s: State, next: State, n: nat, accepts: nat -> bool, operands: nat -> seq<Data>)
    requires n < |start.current| && MovesTried(start, s, n, accepts, operands)
    requires NumbersFrom(start.current, |start.tasks|)
    requires var t := start.current[|start.current| - n - 1];
             OneQueued(s, next, t, accepts(t)) && |next.tasks| == |s.tasks| + if accepts(t) then |operands(t)| else 0
    ensures MovesTried(start, next, n + 1, accepts, operands)
  {
    var t := start.current[|start.current| - n - 1];
    NextRound(start.current, n, accepts, operands);
    MovesNext(start, s, next, t, accepts(t));
    ReadyNext(start, s, next, n, accepts, t,
              if accepts(t) then QueuedFor(next, |s.tasks|, |next.tasks|, t) else []);
  }

  lemma TryNext(start: State, s: State, next: State, run: seq<Action>, n: nat, accepts: nat -> bool,
                operands: nat -> seq<Data>, more: seq<Action>)
    requires Tried(start, s, run, n, 0, accepts, operands) && n < |start.current| && s.current != []
    requires NumbersFrom(start.current, |start.tasks|)
    requires var t := start.current[|start.current| - n - 1];
             && OneTried(s, next, t, accepts(t)) && Spine(more) == Round(accepts(t))
                 && OneQueued(s, next, t, accepts(t))
             && |next.tasks| == |s.tasks| + if accepts(t) then |operands(t)| else 0
    requires Maps(s, more, next)
    ensures var t := start.current[|start.current| - n - 1];
            Tried(start, next, run + more, n + 1, if accepts(t) then 0 else 1, accepts, operands)
  {
    var t := start.current[|start.current| - n - 1];
    TryRuns(start, s, next, run, n, accepts, operands, more);
    TryQueues(start, s, next, n, accepts);
    TakenStay(s, more, next, start.current, |start.current| - n, accepts);
    TryTaken(s, next, start.current, n, accepts);
    TryMoves(start, s, next, n, accepts, operands);
    TriedIs(start, next, run + more, n + 1, if accepts(t) then 0 else 1, accepts, operands);
  }

  lemma TriedIs(start: State, s: State, run: seq<Action>, n: nat, failed: int, accepts: nat -> bool,
                operands: nat -> seq<Data>)
    requires QueuesTried(start, s, n, failed, accepts) && StepsTried(start, s, run, n, accepts)
    requires MovesTried(start, s, n, accepts, operands)
    requires Taken(s, start.current, |start.current| - n + failed, accepts)
    ensures Tried(start, s, run, n, failed, accepts, operands)
  {
  }

  lemma RoundBegins(start: State, s: State, run: seq<Action>, n: nat, accepts: nat -> bool,
                    operands: nat -> seq<Data>)
    requires Invariant(start) && Tried(start, s, run, n, 0, accepts, operands) && n < |start.current|
    requires s.mapper.Idle? && s.current != []
    ensures HasNext(s) && s.current[|s.current| - 1] == start.current[|start.current| - n - 1]
    ensures NumbersFrom(start.current, |start.tasks|)
  {
    NextRound(start.current, n, accepts, operands);
    ActsAreRuns(Mapping(start, EMPTY), run);
    RunKeepsInvariant(start, Events(run));
    InvariantHasNext(s);
    CurrentIsDistinct(start);
  }

  lemma NextRound(queue: seq<nat>, n: nat, accepts: nat -> bool, operands: nat -> seq<Data>)
    requires n < |queue|
    ensures var t := queue[|queue| - n - 1];
            && Untried(queue, n) != [] && Untried(queue, n)[|Untried(queue, n)| - 1] == t
            && Untried(queue, n)[..|Untried(queue, n)| - 1] == Untried(queue, n + 1)
            && Rounds(queue, n + 1, accepts) == Rounds(queue, n, accepts) + Round(accepts(t))
            && Made(queue, n + 1, accepts, operands)
               == Made(queue, n, accepts, operands) + (if accepts(t) then |operands(t)| else 0)
            && FailedOf(queue, n + 1, accepts) == if accepts(t) then [] else [t]
  {
  }

  function Rounds(queue: seq<nat>, n: nat, accepts: nat -> bool): seq<Event>
    requires n <= |queue|
  {
    if n == 0 then [] else Rounds(queue, n - 1, accepts) + Round(accepts(queue[|queue| - n]))
  }

  /** There is exactly one such number of tasks, and it is not zero if there is a task. */
  lemma TriesOnce(queue: seq<nat>, n: nat, m: nat, accepts: nat -> bool)
    requires Tries(queue, n, accepts) && Tries(queue, m, accepts)
    ensures n == m && (queue != [] ==> n > 0)
  {
  }

  lemma FillRun(s: State, r: State)
    requires Invariant(s) && Step(s, Fill) == Some(r)
    ensures Invariant(r) && r == Filled(s) && Run(s, [Fill]) == Some(r)
  {
    RunFirst(s, Fill, r, []);
    assert [Fill] + [] == [Fill];
    InvariantKept(s, Fill);
  }

  lemma ConservedKnown(s: State)
    requires Conserved(s)
    ensures forall i | 0 <= i < |s.newest| :: s.newest[i] < |s.tasks|
  {
    forall i | 0 <= i < |s.newest| ensures s.newest[i] < |s.tasks| {
      assert s.newest[i] in multiset(s.newest) && Held(s, s.newest[i]) >= 1;
    }
  }

  lemma Tail(s: seq<nat>, i: nat)
    requires i < |s|
    ensures s[i..] != [] && s[i..][0] == s[i] && s[i..][1..] == s[i + 1..]
  {
  }

  lemma RunFirst(s: State, e: Event, t: State, rest: seq<Event>)
    requires Step(s, e) == Some(t)
    ensures Run(s, [e] + rest) == Run(t, rest)
  {
    var run := [e] + rest;
    assert run[0] == e && run[1..] == rest;
  }

  lemma RunTwo(s: State, e: Event, t: State, f: Event)
    requires Step(s, e) == Some(t)
    ensures Run(s, [e, f]) == Step(t, f)
  {
    assert [e, f] == [e] + [f] && [f] == [f] + [];
    RunFirst(s, e, t, [f]);
    if Step(t, f).Some? {
      RunFirst(t, f, Step(t, f).value, []);
    }
  }

  /** The mapper can take a task from its queue, whose mutex is free. */
  predicate HasNext(s: State) {
    && s.mapper.Idle? && s.current != [] && !MapperAdds(s)
    && var t := s.current[|s.current| - 1];
       t < |s.tasks| && !s.tasks[t].isAssigned && s.tasks[t].phase.Free? && !s.tasks[t].move
  }

  lemma InvariantHasNext(s: State)
    requires Invariant(s) && s.mapper.Idle? && s.current != []
    ensures HasNext(s)
  {
    Dequeued(s);
    assert Consistent(s.tasks[s.current[|s.current| - 1]]);
  }

  lemma {:induction false} AppendRun(s: State, run: seq<Event>, t: State, more: seq<Event>)
    requires Run(s, run) == Some(t)
    ensures Run(s, run + more) == Run(t, more)
    decreases |run|
  {
    if run == [] {
      assert run + more == more;
    } else {
      assert (run + more)[1..] == run[1..] + more;
      AppendRun(Step(s, run[0]).value, run[1..], t, more);
    }
  }

  lemma StepNotify(s: State, d: nat, t: nat)
    requires Known(s, d) && Known(s, t) && d != t && s.tasks[t].phase.Free?
    requires s.tasks[d].phase.Finishing? && s.tasks[d].phase.rest != [] && s.tasks[d].phase.rest[0] == t
    ensures Step(s, Notify(d)) == Some(Notified(s, d, t))
  {
  }

  lemma StepRegister(s: State, t: nat, d: nat)
    requires Known(s, d) && Known(s, t) && d != t && s.tasks[d].phase.Free?
    requires s.tasks[t].phase.Spawning? && s.tasks[t].phase.rest != [] && s.tasks[t].phase.rest[0] == d
    ensures var rest := s.tasks[t].phase.rest[1..];
            Step(s, Register(t)) == Some(Linked(s, t, d, if rest == [] then Free else Spawning(rest)))
  {
  }

  lemma MappableNext(s: State, queue: seq<nat>, i: nat, found: seq<nat>, wanted: bool)
    requires i < |queue|
    ensures found + Mappable(s, queue[i..], wanted)
            == (if DependenciesMapped(s, queue[i]) == wanted then found + [queue[i]] else found)
               + Mappable(s, queue[i + 1..], wanted)
  {
    assert queue[i..][0] == queue[i] && queue[i..][1..] == queue[i + 1..];
  }

  lemma {:induction false} Append(s: State, run: seq<Event>, t: State, e: Event)
    requires Run(s, run) == Some(t)
    ensures Run(s, run + [e]) == Step(t, e)
    decreases |run|
  {
    if run == [] {
      var last := [e];
      assert run + last == last && last[0] == e && last[1..] == [];
    } else {
      assert (run + [e])[1..] == run[1..] + [e];
      Append(Step(s, run[0]).value, run[1..], t, e);
    }
  }
}
