/** What every step keeps about counters, dependents and dependencies. */
module TaskGraphInvariants {
  import opened TaskRuntime

  predicate Finished(task: Task) {
    Terminal(task) || task.phase.Finishing?
  }

  predicate InRange(ts: seq<nat>, n: nat) {
    forall i | 0 <= i < |ts| :: ts[i] < n
  }

  ghost predicate Bounded(tasks: seq<Task>) {
    forall d | 0 <= d < |tasks| ::
      InRange(tasks[d].dependents, |tasks|) && InRange(Pending(tasks[d]), |tasks|) && InRange(Rest(tasks[d]), |tasks|)
  }

  /** The counter is the number of times the task stands in a list of dependents still to be notified, plus the
      number of dependencies it has not asked yet. */
  predicate Counted(tasks: seq<Task>, t: nat)
    requires t < |tasks|
  {
    tasks[t].blocking == Occurrences(tasks, t) + |Rest(tasks[t])|
  }

  /** The counter matters: that of a data movement task, or of a task that has not run yet, or of any task. */
  predicate Counts(task: Task, all: bool) {
    task.move || all || !task.started
  }

  ghost predicate Counters(tasks: seq<Task>, all: bool) {
    forall t | 0 <= t < |tasks| && Counts(tasks[t], all) :: Counted(tasks, t)
  }

  /** A dependency has finished, or will notify the task, or is still to be asked. */
  ghost predicate Settled(tasks: seq<Task>, t: nat, d: nat)
    requires t < |tasks|
  {
    d < |tasks| && (Finished(tasks[d]) || t in Pending(tasks[d]) || d in Rest(tasks[t]))
  }

  ghost predicate Links(tasks: seq<Task>) {
    forall t, i | 0 <= t < |tasks| && 0 <= i < |tasks[t].dependencies| :: Settled(tasks, t, tasks[t].dependencies[i])
  }

  /** A finished task has no dependents left. */
  ghost predicate Drained(tasks: seq<Task>) {
    forall d | 0 <= d < |tasks| && Terminal(tasks[d]) :: Pending(tasks[d]) == [] && tasks[d].dependents == []
  }

  ghost predicate Graph(tasks: seq<Task>, all: bool) {
    Bounded(tasks) && Counters(tasks, all) && Links(tasks) && Drained(tasks)
  }

  // ---- steps that change neither counters nor lists ----

  predicate Quiet(a: Task, b: Task) {
    && b.move == a.move && b.blocking == a.blocking && b.dependencies == a.dependencies && b.spawnedOn == a.spawnedOn
    && Pending(b) == Pending(a) && Rest(b) == Rest(a) && (b.dependents == a.dependents || b.dependents == [])
    && (Finished(a) ==> Finished(b)) && (Terminal(b) ==> Pending(b) == [] && b.dependents == [])
    && (a.started ==> b.started) && (a.isAssigned ==> b.isAssigned)
  }

  lemma QuietKeeps(tasks: seq<Task>, t: nat, task: Task, all: bool)
    requires Graph(tasks, all) && t < |tasks| && Quiet(tasks[t], task)
    ensures Graph(tasks[t := task], all)
  {
    var next := tasks[t := task];
    forall x | 0 <= x < |next| && Counts(next[x], all) ensures Counted(next, x) {
      OccurrencesUpdate(tasks, t, task, x);
      assert Counted(tasks, x);
    }
    forall x, i | 0 <= x < |next| && 0 <= i < |next[x].dependencies| ensures Settled(next, x, next[x].dependencies[i]) {
      assert Settled(tasks, x, tasks[x].dependencies[i]);
    }
  }

  // ---- a new task ----

  lemma {:induction false} NobodyWaitsYet(tasks: seq<Task>, all: seq<Task>, n: nat)
    requires all == tasks || tasks <= all
    requires forall d | 0 <= d < |all| :: InRange(Pending(all[d]), n)
    ensures Occurrences(tasks, n) == 0
    decreases |tasks|
  {
    if tasks != [] {
      NobodyWaitsYet(tasks[..|tasks| - 1], all, n);
      assert tasks[|tasks| - 1] == all[|tasks| - 1];
      assert n !in Pending(tasks[|tasks| - 1]);
    }
  }

  lemma SpawnLinks(tasks: seq<Task>, deps: seq<nat>)
    requires Links(tasks) && InRange(deps, |tasks|)
    ensures Links(tasks + [NewTask(deps)])
  {
    var next := tasks + [NewTask(deps)];
    assert Rest(next[|tasks|]) == deps;
    forall x, i | 0 <= x < |next| && 0 <= i < |next[x].dependencies| ensures Settled(next, x, next[x].dependencies[i]) {
      if x < |tasks| {
        assert Settled(tasks, x, tasks[x].dependencies[i]);
      }
    }
  }

  lemma SpawnKeeps(tasks: seq<Task>, deps: seq<nat>, all: bool)
    requires Graph(tasks, all) && InRange(deps, |tasks|)
    ensures Graph(tasks + [NewTask(deps)], all)
  {
    var task := NewTask(deps);
    var next := tasks + [task];
    assert Rest(task) == deps && Pending(task) == [];
    forall x | 0 <= x < |next| && Counts(next[x], all) ensures Counted(next, x) {
      OccurrencesAppend(tasks, task, x);
      if x < |tasks| {
        assert Counted(tasks, x);
      } else {
        NobodyWaitsYet(tasks, tasks, |tasks|);
      }
    }
    SpawnLinks(tasks, deps);
  }

  // ---- asking a dependency ----

  /** The step `Linked` is taken by `t`, whose next dependency to ask is `d`. */
  ghost predicate Asks(tasks: seq<Task>, t: nat, d: nat, next: Phase) {
    && t < |tasks| && d < |tasks| && t != d && tasks[d].phase.Free?
    && Rest(tasks[t]) != [] && Rest(tasks[t])[0] == d
    && !next.Finishing? && Rest(tasks[t].(phase := next)) == Rest(tasks[t])[1..]
  }

  lemma LinkedOccurrences(s: State, t: nat, d: nat, next: Phase, x: nat)
    requires Asks(s.tasks, t, d, next)
    ensures Occurrences(Linked(s, t, d, next).tasks, x)
            == Occurrences(s.tasks, x) + if x == t && !Terminal(s.tasks[d]) then 1 else 0
  {
    var tasks, after := s.tasks, Linked(s, t, d, next).tasks;
    assert Pending(after[t]) == Pending(tasks[t]);
    if Terminal(tasks[d]) {
      OccurrencesUpdate(tasks, t, after[t], x);
    } else {
      OccurrencesUpdate(tasks, d, after[d], x);
      OccurrencesUpdate(tasks[d := after[d]], t, after[t], x);
    }
  }

  lemma LinkedCounters(s: State, t: nat, d: nat, next: Phase, all: bool)
    requires Counters(s.tasks, all) && Asks(s.tasks, t, d, next)
    ensures Counters(Linked(s, t, d, next).tasks, all)
  {
    var tasks, after := s.tasks, Linked(s, t, d, next).tasks;
    forall x | 0 <= x < |after| && Counts(after[x], all) ensures Counted(after, x) {
      assert Counted(tasks, x);
      LinkedOccurrences(s, t, d, next, x);
    }
  }

  lemma LinkedLinks(s: State, t: nat, d: nat, next: Phase)
    requires Links(s.tasks) && Asks(s.tasks, t, d, next)
    ensures Links(Linked(s, t, d, next).tasks)
  {
    var tasks, after := s.tasks, Linked(s, t, d, next).tasks;
    assert Rest(tasks[t]) == [d] + Rest(after[t]);
    forall x, i | 0 <= x < |after| && 0 <= i < |after[x].dependencies|
      ensures Settled(after, x, after[x].dependencies[i])
    {
      assert after[x].dependencies == tasks[x].dependencies;
      var e := tasks[x].dependencies[i];
      assert Settled(tasks, x, e);
      assert Finished(tasks[e]) ==> Finished(after[e]);
      assert x in Pending(tasks[e]) ==> x in Pending(after[e]);
      if e in Rest(tasks[x]) && x == t && e == d && !Terminal(tasks[d]) {
        assert t in Pending(after[d]);
      }
    }
  }

  lemma LinkedLists(s: State, t: nat, d: nat, next: Phase)
    requires Bounded(s.tasks) && Drained(s.tasks) && Asks(s.tasks, t, d, next)
    ensures Bounded(Linked(s, t, d, next).tasks) && Drained(Linked(s, t, d, next).tasks)
  {
    var tasks, after := s.tasks, Linked(s, t, d, next).tasks;
    forall x | 0 <= x < |after|
      ensures InRange(after[x].dependents, |after|) && InRange(Pending(after[x]), |after|)
      ensures InRange(Rest(after[x]), |after|)
      ensures Terminal(after[x]) ==> Pending(after[x]) == [] && after[x].dependents == []
    {
      assert InRange(tasks[x].dependents, |tasks|) && InRange(Pending(tasks[x]), |tasks|);
      assert InRange(Rest(tasks[x]), |tasks|);
    }
  }

  lemma LinkedKeeps(s: State, t: nat, d: nat, next: Phase, all: bool)
    requires Graph(s.tasks, all) && Asks(s.tasks, t, d, next)
    ensures Graph(Linked(s, t, d, next).tasks, all)
  {
    LinkedCounters(s, t, d, next, all);
    LinkedLinks(s, t, d, next);
    LinkedLists(s, t, d, next);
  }

  // ---- a data movement task ----

  lemma MoveOccurrences(s: State, t: nat, x: nat)
    requires Known(s, t) && s.tasks[t].phase.Free?
    ensures Occurrences(MoveAdded(s, t).tasks, x) == Occurrences(s.tasks, x) + if x == t then 1 else 0
  {
    var tasks, after := s.tasks, MoveAdded(s, t).tasks;
    assert after == tasks[t := after[t]] + [after[|tasks|]];
    OccurrencesUpdate(tasks, t, after[t], x);
    OccurrencesAppend(tasks[t := after[t]], after[|tasks|], x);
  }

  lemma MoveLinks(s: State, t: nat)
    requires Links(s.tasks) && Known(s, t) && s.tasks[t].phase.Free?
    ensures Links(MoveAdded(s, t).tasks)
  {
    var tasks, after := s.tasks, MoveAdded(s, t).tasks;
    assert Pending(after[|tasks|]) == [t] && t in [t];
    forall x, i | 0 <= x < |after| && 0 <= i < |after[x].dependencies|
      ensures Settled(after, x, after[x].dependencies[i])
    {
      if x < |tasks| && i < |tasks[x].dependencies| {
        assert Settled(tasks, x, tasks[x].dependencies[i]);
      }
    }
  }

  lemma MoveLists(s: State, t: nat)
    requires Bounded(s.tasks) && Drained(s.tasks) && Known(s, t) && s.tasks[t].phase.Free?
    ensures Bounded(MoveAdded(s, t).tasks) && Drained(MoveAdded(s, t).tasks)
  {
    var tasks, after := s.tasks, MoveAdded(s, t).tasks;
    forall x | 0 <= x < |tasks|
      ensures InRange(after[x].dependents, |after|) && InRange(Pending(after[x]), |after|)
      ensures InRange(Rest(after[x]), |after|)
      ensures Terminal(after[x]) ==> Pending(after[x]) == [] && after[x].dependents == []
    {
      assert InRange(tasks[x].dependents, |tasks|) && InRange(Pending(tasks[x]), |tasks|);
      assert InRange(Rest(tasks[x]), |tasks|);
    }
  }

  lemma MoveKeeps(s: State, t: nat, all: bool)
    requires Graph(s.tasks, all) && Known(s, t) && s.tasks[t].phase.Free?
    ensures Graph(MoveAdded(s, t).tasks, all)
  {
    var tasks, after := s.tasks, MoveAdded(s, t).tasks;
    forall x | 0 <= x < |after| && Counts(after[x], all) ensures Counted(after, x) {
      MoveOccurrences(s, t, x);
      if x < |tasks| {
        assert Counted(tasks, x);
      } else {
        NobodyWaitsYet(tasks, tasks, |tasks|);
      }
    }
    MoveLinks(s, t);
    MoveLists(s, t);
  }

  // ---- what a data movement task waits for ----

  ghost predicate Adds(tasks: seq<Task>, m: nat, d: nat) {
    m < |tasks| && d < |tasks| && m != d && tasks[d].phase.Free? && tasks[m].phase == Adding(d)
  }

  lemma MoveLinkedOccurrences(s: State, m: nat, d: nat, x: nat)
    requires Adds(s.tasks, m, d)
    ensures Occurrences(MoveLinked(s, m, d).tasks, x)
            == Occurrences(s.tasks, x) + if x == m && !Terminal(s.tasks[d]) then 1 else 0
  {
    var tasks, after := s.tasks, MoveLinked(s, m, d).tasks;
    assert Pending(after[m]) == Pending(tasks[m]);
    if Terminal(tasks[d]) {
      OccurrencesUpdate(tasks, m, after[m], x);
    } else {
      OccurrencesUpdate(tasks, d, after[d], x);
      OccurrencesUpdate(tasks[d := after[d]], m, after[m], x);
    }
  }

  lemma MoveLinkedLinks(s: State, m: nat, d: nat)
    requires Links(s.tasks) && Adds(s.tasks, m, d)
    ensures Links(MoveLinked(s, m, d).tasks)
  {
    var tasks, after := s.tasks, MoveLinked(s, m, d).tasks;
    forall x, i | 0 <= x < |after| && 0 <= i < |after[x].dependencies|
      ensures Settled(after, x, after[x].dependencies[i])
    {
      if i < |tasks[x].dependencies| {
        assert after[x].dependencies[i] == tasks[x].dependencies[i];
        MoveLinkedSettles(s, m, d, x, tasks[x].dependencies[i]);
      }
    }
  }

  lemma MoveLinkedSettles(s: State, m: nat, d: nat, x: nat, e: nat)
    requires Adds(s.tasks, m, d) && x < |s.tasks| && Settled(s.tasks, x, e)
    ensures Settled(MoveLinked(s, m, d).tasks, x, e)
  {
    var tasks, after := s.tasks, MoveLinked(s, m, d).tasks;
    assert Rest(after[x]) == Rest(tasks[x]);
    assert Finished(tasks[e]) ==> Finished(after[e]);
    assert x in Pending(tasks[e]) ==> x in Pending(after[e]);
  }

  lemma MoveLinkedLists(s: State, m: nat, d: nat)
    requires Bounded(s.tasks) && Drained(s.tasks) && Adds(s.tasks, m, d)
    ensures Bounded(MoveLinked(s, m, d).tasks) && Drained(MoveLinked(s, m, d).tasks)
  {
    var tasks, after := s.tasks, MoveLinked(s, m, d).tasks;
    forall x | 0 <= x < |after|
      ensures InRange(after[x].dependents, |after|) && InRange(Pending(after[x]), |after|)
      ensures InRange(Rest(after[x]), |after|)
      ensures Terminal(after[x]) ==> Pending(after[x]) == [] && after[x].dependents == []
    {
      assert InRange(tasks[x].dependents, |tasks|) && InRange(Pending(tasks[x]), |tasks|);
      assert InRange(Rest(tasks[x]), |tasks|);
    }
  }

  lemma MoveLinkedKeeps(s: State, m: nat, d: nat, all: bool)
    requires Graph(s.tasks, all) && Adds(s.tasks, m, d)
    ensures Graph(MoveLinked(s, m, d).tasks, all)
  {
    var tasks, after := s.tasks, MoveLinked(s, m, d).tasks;
    forall x | 0 <= x < |after| && Counts(after[x], all) ensures Counted(after, x) {
      assert Counts(tasks[x], all) && Counted(tasks, x);
      MoveLinkedOccurrences(s, m, d, x);
    }
    MoveLinkedLinks(s, m, d);
    MoveLinkedLists(s, m, d);
  }

  // ---- notifying a dependent ----

  ghost predicate Notifies(tasks: seq<Task>, d: nat, t: nat) {
    && d < |tasks| && t < |tasks| && d != t && tasks[t].phase.Free?
    && tasks[d].phase.Finishing? && tasks[d].phase.rest != [] && tasks[d].phase.rest[0] == t
  }

  lemma NotifiedOccurrences(s: State, d: nat, t: nat, x: nat)
    requires Notifies(s.tasks, d, t)
    ensures Occurrences(Notified(s, d, t).tasks, x) == Occurrences(s.tasks, x) - if x == t then 1 else 0
  {
    var tasks, after := s.tasks, Notified(s, d, t).tasks;
    var rest := tasks[d].phase.rest;
    assert rest == [t] + rest[1..];
    OccurrencesUpdate(tasks, d, after[d], x);
    OccurrencesUpdate(tasks[d := after[d]], t, after[t], x);
  }

  lemma NotifiedLinks(s: State, d: nat, t: nat)
    requires Links(s.tasks) && Notifies(s.tasks, d, t)
    ensures Links(Notified(s, d, t).tasks)
  {
    var tasks, after := s.tasks, Notified(s, d, t).tasks;
    forall x, i | 0 <= x < |after| && 0 <= i < |after[x].dependencies|
      ensures Settled(after, x, after[x].dependencies[i])
    {
      assert after[x].dependencies == tasks[x].dependencies && Rest(after[x]) == Rest(tasks[x]);
      var e := tasks[x].dependencies[i];
      assert Settled(tasks, x, e);
      assert Finished(tasks[e]) ==> Finished(after[e]);
      assert e != d ==> Pending(after[e]) == Pending(tasks[e]);
    }
  }

  lemma NotifiedLists(s: State, d: nat, t: nat)
    requires Bounded(s.tasks) && Drained(s.tasks) && Notifies(s.tasks, d, t)
    ensures Bounded(Notified(s, d, t).tasks) && Drained(Notified(s, d, t).tasks)
  {
    var tasks, after := s.tasks, Notified(s, d, t).tasks;
    forall x | 0 <= x < |after|
      ensures InRange(after[x].dependents, |after|) && InRange(Pending(after[x]), |after|)
      ensures InRange(Rest(after[x]), |after|)
      ensures Terminal(after[x]) ==> Pending(after[x]) == [] && after[x].dependents == []
    {
      assert InRange(tasks[x].dependents, |tasks|) && InRange(Pending(tasks[x]), |tasks|);
      assert InRange(Rest(tasks[x]), |tasks|);
    }
  }

  lemma NotifiedCounters(s: State, d: nat, t: nat, all: bool)
    requires Counters(s.tasks, all) && Notifies(s.tasks, d, t)
    ensures Counters(Notified(s, d, t).tasks, all)
  {
    var tasks, after := s.tasks, Notified(s, d, t).tasks;
    forall x | 0 <= x < |after| && Counts(after[x], all) ensures Counted(after, x) {
      assert Counted(tasks, x);
      NotifiedOccurrences(s, d, t, x);
    }
  }

  lemma NotifiedKeeps(s: State, d: nat, t: nat, all: bool)
    requires Graph(s.tasks, all) && Notifies(s.tasks, d, t)
    ensures Graph(Notified(s, d, t).tasks, all)
  {
    NotifiedCounters(s, d, t, all);
    NotifiedLinks(s, d, t);
    NotifiedLists(s, d, t);
  }

  // ---- awaiting ----

  function Awaiting(task: Task, deps: seq<nat>): Task {
    task.(phase := Depending(deps), blocking := |deps|, dependencies := deps)
  }

  lemma AwaitLinks(tasks: seq<Task>, t: nat, deps: seq<nat>)
    requires Links(tasks) && t < |tasks| && tasks[t].phase.Executing? && InRange(deps, |tasks|)
    ensures Links(tasks[t := Awaiting(tasks[t], deps)])
  {
    var next := tasks[t := Awaiting(tasks[t], deps)];
    assert Rest(next[t]) == deps && Pending(next[t]) == Pending(tasks[t]);
    forall x, i | 0 <= x < |next| && 0 <= i < |next[x].dependencies| ensures Settled(next, x, next[x].dependencies[i]) {
      if x != t {
        assert Settled(tasks, x, tasks[x].dependencies[i]);
      }
    }
  }

  lemma AwaitCounters(tasks: seq<Task>, t: nat, deps: seq<nat>, all: bool)
    requires Counters(tasks, all) && t < |tasks| && tasks[t].phase.Executing? && tasks[t].started && !tasks[t].move
    requires all ==> Occurrences(tasks, t) == 0
    ensures Counters(tasks[t := Awaiting(tasks[t], deps)], all)
  {
    var next := tasks[t := Awaiting(tasks[t], deps)];
    assert Rest(next[t]) == deps && Pending(next[t]) == Pending(tasks[t]);
    forall x | 0 <= x < |next| && Counts(next[x], all) ensures Counted(next, x) {
      OccurrencesUpdate(tasks, t, next[t], x);
      assert x != t ==> Counted(tasks, x);
    }
  }

  /** An await forgets the old counter, so it is right only if nobody was going to notify the task. */
  lemma AwaitKeeps(tasks: seq<Task>, t: nat, deps: seq<nat>, all: bool)
    requires Graph(tasks, all) && t < |tasks| && tasks[t].phase.Executing? && tasks[t].started && !Terminal(tasks[t])
    requires !tasks[t].move && InRange(deps, |tasks|) && (all ==> Occurrences(tasks, t) == 0)
    ensures Graph(tasks[t := Awaiting(tasks[t], deps)], all)
  {
    AwaitCounters(tasks, t, deps, all);
    AwaitLinks(tasks, t, deps);
    AwaitLists(tasks, t, deps);
  }

  lemma AwaitLists(tasks: seq<Task>, t: nat, deps: seq<nat>)
    requires Bounded(tasks) && Drained(tasks) && t < |tasks| && tasks[t].phase.Executing? && !Terminal(tasks[t])
    requires InRange(deps, |tasks|)
    ensures Bounded(tasks[t := Awaiting(tasks[t], deps)]) && Drained(tasks[t := Awaiting(tasks[t], deps)])
  {
  }

  // ---- what the counters tell ----

  lemma PendingOccurs(tasks: seq<Task>, d: nat, t: nat)
    requires d < |tasks|
    ensures t in Pending(tasks[d]) ==> Occurrences(tasks, t) > 0
  {
    OccurrencesOne(tasks, d, t);
  }

  /** A task whose counter is exact and zero, and that has asked all its dependencies, depends only on finished
      tasks. */
  lemma ZeroMeansFinished(tasks: seq<Task>, t: nat)
    requires Links(tasks) && t < |tasks| && Counted(tasks, t) && tasks[t].blocking == 0
    ensures Occurrences(tasks, t) == 0 && Rest(tasks[t]) == []
    ensures forall i | 0 <= i < |tasks[t].dependencies| ::
              tasks[t].dependencies[i] < |tasks| && Finished(tasks[tasks[t].dependencies[i]])
  {
    forall i | 0 <= i < |tasks[t].dependencies|
      ensures tasks[t].dependencies[i] < |tasks| && Finished(tasks[tasks[t].dependencies[i]])
    {
      assert Settled(tasks, t, tasks[t].dependencies[i]);
      OccurrencesOne(tasks, tasks[t].dependencies[i], t);
    }
  }
}
