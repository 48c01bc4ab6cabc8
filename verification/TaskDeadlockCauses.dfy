/** When exactly a step is the one that closes a deadlock. */
module TaskDeadlockCauses {
  import opened Wrappers
  import opened TaskRuntime
  import opened TaskGraphInvariants
  import opened TaskRuntimeInvariants
  import opened TaskDeadlocks

  /** What the thread taking the step will need next, and what it keeps meanwhile. For a spawn in a body that is the
      body's mutex; for an addition to a data movement task it is that task's mutex and the mapping phase. */
  datatype Need = Need(holders: set<Node>, wanted: Node)

  function FirstOf(t: nat, list: seq<nat>): Option<Need> {
    if list == [] then None else Some(Need({Of(t)}, Of(list[0])))
  }

  function StepNeeds(w: Threads, e: Event): Option<Need>
    requires Move(w, Other(e)).Some?
  {
    match e
    case GetReady(t) => if QueueFree(w) then None else Some(Need({Of(t)}, Mapper))
    case Register(t) => FirstOf(t, List(w.s.tasks[t])[1..])
    case Depend(t) => FirstOf(t, List(w.s.tasks[t])[1..])
    case Notify(t) => FirstOf(t, List(w.s.tasks[t])[1..])
    case Await(t, deps) => FirstOf(t, deps)
    case Return(t, _) => FirstOf(t, w.s.tasks[t].dependents)
    case MoveAsks(m, d) => Some(Need({Of(m), Mapper}, Of(d)))
    case _ => None
  }

  function NextFlag(flags: seq<nat>): Option<Need> {
    if flags == [] then None else Some(Need({Mapper}, Of(flags[0])))
  }

  function Needs(w: Threads, a: Act): Option<Need>
    requires Move(w, a).Some?
  {
    match a
    case SpawnBy(x, deps) => FirstOf(x, deps)
    case Look => NextFlag(Flags(w.s, w.s.newest))
    case ReadFlag => NextFlag(w.mapping.filling.flags[1..])
    case Other(e) => StepNeeds(w, e)
    case _ => None
  }

  /** Only one circle can be closed: through the need, or not at all. */
  ghost predicate ClosesCircle(w: Threads, a: Act)
    requires Move(w, a).Some?
  {
    Needs(w, a).Some? && exists h :: h in Needs(w, a).value.holders && Leads(w, Needs(w, a).value.wanted, h)
  }

  // ---- which waits a step makes ----

  ghost predicate Usual(w: Threads) {
    Sound(w) && Invariant(w.s)
  }

  lemma HolderByChange(s: State, e: Event, t: nat, b: Task)
    requires Known(s, t) && Change(s, e, t, b) && Own(e) == Some(t)
    ensures !b.phase.Executing? && !b.phase.Readying?
    ensures match e
            case Register(_) => List(b) == List(s.tasks[t])[1..]
            case Depend(_) => List(b) == List(s.tasks[t])[1..]
            case Notify(_) => List(b) == List(s.tasks[t])[1..]
            case Await(_, deps) => List(b) == deps
            case Return(_, _) => List(b) == s.tasks[t].dependents
            case _ => List(b) == []
  {
  }

  /** What the holder needs after the step. */
  lemma HolderNeeds(w: Threads, e: Event, t: nat)
    requires Move(w, Other(e)).Some? && Own(e) == Some(t)
    ensures t < |w.s.tasks| && t < |Move(w, Other(e)).value.s.tasks|
    ensures var task := Move(w, Other(e)).value.s.tasks[t];
            !task.phase.Executing? && !task.phase.Readying? && StepNeeds(w, e) == FirstOf(t, List(task))
  {
    Changes(w.s, e, t);
    HolderByChange(w.s, e, t, Step(w.s, e).value.tasks[t]);
  }

  /** A task that has finished, and is run again, has nobody to notify. */
  lemma BeginsFreely(w: Threads, t: nat)
    requires Usual(w) && Move(w, Other(Begin(t))).Some?
    ensures List(Move(w, Other(Begin(t))).value.s.tasks[t]) == []
  {
  }

  lemma FreeByChange(w: Threads, e: Event, t: nat, b: Task)
    requires Known(w.s, t) && Change(w.s, e, t, b) && w.s.tasks[t].phase.Free? && e != Begin(t)
    ensures b.phase.Readying? ==> e == GetReady(t)
    ensures List(b) != [] ==> e.MoveAsks? && e.m == t && List(b) == [e.dep]
  {
  }

  /** What a task needs that was free before the step. */
  lemma FreeNeeds(w: Threads, e: Event, t: nat)
    requires Usual(w) && Move(w, Other(e)).Some? && Known(w.s, t) && w.s.tasks[t].phase.Free?
    ensures t < |Move(w, Other(e)).value.s.tasks|
    ensures var task := Move(w, Other(e)).value.s.tasks[t];
            && (task.phase.Readying? ==> e == GetReady(t))
            && (List(task) != [] ==> e.MoveAsks? && e.m == t && List(task) == [e.dep])
  {
    Changes(w.s, e, t);
    if e == Begin(t) {
      BeginsFreely(w, t);
    } else {
      FreeByChange(w, e, t, Step(w.s, e).value.tasks[t]);
    }
  }

  /** The step makes `p` need `q`. */
  predicate Needed(w: Threads, a: Act, p: Node, q: Node)
    requires Move(w, a).Some?
  {
    Needs(w, a).Some? && p in Needs(w, a).value.holders && q == Needs(w, a).value.wanted
  }

  lemma TaskEdge(w: Threads, e: Event, t: nat, u: nat)
    requires Usual(w) && Move(w, Other(e)).Some? && Known(w.s, t) && TaskWaits(Move(w, Other(e)).value, t, u)
    ensures TaskWaits(w, t, u) || Needed(w, Other(e), Of(t), Of(u))
  {
    var a := Other(e);
    if Move(w, a).value.s.tasks[t].phase.Executing? {
      ChildBefore(w, a, t, u);
      SpawnerRuns(w, t, u);
    } else if w.s.tasks[t].phase.Free? {
      FreeNeeds(w, e, t);
    } else if Own(e) == Some(t) {
      HolderNeeds(w, e, t);
    } else {
      OnlyHolderChanges(w.s, e, t);
      ListInRange(w, t);
    }
  }

  lemma SpawnerRuns(w: Threads, t: nat, c: nat)
    requires Sound(w) && IsChild(w, t, c)
    ensures TaskWaits(w, t, c)
  {
  }

  lemma PhaseEdge(w: Threads, e: Event, t: nat)
    requires Usual(w) && Move(w, Other(e)).Some? && Known(w.s, t) && NeedsMapper(Move(w, Other(e)).value, t)
    ensures NeedsMapper(w, t) || Needed(w, Other(e), Of(t), Mapper)
  {
    var r := Move(w, Other(e)).value;
    if r.s.tasks[t].phase.Readying? {
      if w.s.tasks[t].phase.Free? {
        FreeNeeds(w, e, t);
      } else if Own(e) == Some(t) {
        HolderNeeds(w, e, t);
      } else {
        OnlyHolderChanges(w.s, e, t);
      }
    }
  }

  lemma MapperEdge(w: Threads, e: Event, u: nat)
    requires Usual(w) && Move(w, Other(e)).Some? && MapperNeeds(Move(w, Other(e)).value, u)
    requires !Move(w, Other(e)).value.s.tasks[u].phase.Free?
    ensures MapperNeeds(w, u) || (e.MoveAsks? && e.m == u)
  {
    var r := Move(w, Other(e)).value;
    if r.s.mapper == Checking(u) {
      CheckedIsFree(w.s, e, u);
    }
    if u < |w.s.tasks| {
      PhaseAfter(w.s, e, u);
    } else {
      NewTaskAdded(w.s, e, u);
    }
  }

  /** A task that is assigned is free, and the mapper knows the task in its hand. */
  lemma CheckedIsFree(s: State, e: Event, u: nat)
    requires MapperKnows(s) && Step(s, e).Some? && Step(s, e).value.mapper == Checking(u)
    ensures u < |s.tasks| && u < |Step(s, e).value.tasks|
    ensures s.mapper == Checking(u) || Step(s, e).value.tasks[u].phase.Free?
  {
    TasksStay(s, e);
    if s.mapper != Checking(u) {
      OnlyAssignChecks(s, e, u);
    }
  }

  lemma OnlyAssignChecks(s: State, e: Event, u: nat)
    requires Step(s, e).Some? && Step(s, e).value.mapper == Checking(u) && s.mapper != Checking(u)
    ensures e.Assign? && s.mapper == Moving(u)
  {
  }

  lemma NewEdge(w: Threads, a: Act, t: nat, q: Node)
    requires Move(w, a).Some? && !Known(w.s, t) && WaitsFor(Move(w, a).value, Of(t), q)
    ensures EventOf(a).Some? && EventOf(a).value.Spawn? && EventOf(a).value.deps != []
    ensures t == |w.s.tasks| && q == Of(EventOf(a).value.deps[0]) && Known(w.s, q.t)
  {
    MoveIsStep(w, a);
    NewTaskAdded(w.s, EventOf(a).value, t);
  }

  lemma SpawnLeavesTasks(w: Threads, x: nat, deps: seq<nat>, t: nat)
    requires Move(w, SpawnBy(x, deps)).Some? && Known(w.s, t)
    ensures var s := Move(w, SpawnBy(x, deps)).value.s; |s.tasks| == |w.s.tasks| + 1 && s.tasks[t] == w.s.tasks[t]
  {
  }

  lemma SpawnEdge(w: Threads, x: nat, deps: seq<nat>, p: Node, q: Node)
    requires Usual(w) && Move(w, SpawnBy(x, deps)).Some? && WaitsFor(Move(w, SpawnBy(x, deps)).value, p, q)
    requires p.Of? ==> Known(w.s, p.t)
    ensures WaitsFor(w, p, q) || (p == Of(x) && q == Of(|w.s.tasks|))
  {
    var a := SpawnBy(x, deps);
    if p.Of? {
      SpawnLeavesTasks(w, x, deps, p.t);
      ListInRange(w, p.t);
      if q.Of? && w.s.tasks[p.t].phase.Executing? {
        ChildBefore(w, a, p.t, q.t);
      }
    } else {
      NewIsNotNeeded(w, x, deps, q.t);
    }
  }

  lemma NewIsNotNeeded(w: Threads, x: nat, deps: seq<nat>, u: nat)
    requires Usual(w) && Move(w, SpawnBy(x, deps)).Some? && MapperNeeds(Move(w, SpawnBy(x, deps)).value, u)
    ensures MapperNeeds(w, u)
  {
    if u < |w.s.tasks| {
      SpawnLeavesTasks(w, x, deps, u);
    }
  }

  lemma PhaseActEdge(w: Threads, a: Act, p: Node, q: Node, c: Node)
    requires Usual(w) && Move(w, a).Some? && !a.SpawnBy? && !a.Other?
    requires WaitsFor(Move(w, a).value, p, q) && WaitsFor(Move(w, a).value, q, c)
    ensures WaitsFor(w, p, q) || Needed(w, a, p, q)
  {
    if a.Enter? || a.TakeQueue? {
      IdleAddsNothing(w.s);
    }
  }

  lemma IdleAddsNothing(s: State)
    requires AddsInHand(s) && s.mapper.Idle?
    ensures forall m | 0 <= m < |s.tasks| :: !s.tasks[m].phase.Adding?
  {
    assert !MapperAdds(s);
  }

  /** The mapper gets to need the data movement task whose mutex it has taken; a body gets to need the end of the spawn
      of its new task. */
  predicate Between(w: Threads, a: Act, p: Node, q: Node) {
    || (a.Other? && a.e.MoveAsks? && p == Mapper && q == Of(a.e.m))
    || (a.SpawnBy? && p == Of(a.x) && q == Of(|w.s.tasks|))
  }

  /** A wait for somebody who waits was there before the step, or is what the step needs. */
  lemma EdgeBefore(w: Threads, a: Act, p: Node, q: Node, c: Node)
    requires Usual(w) && Move(w, a).Some? && p != Of(|w.s.tasks|)
    requires WaitsFor(Move(w, a).value, p, q) && WaitsFor(Move(w, a).value, q, c)
    ensures WaitsFor(w, p, q) || Needed(w, a, p, q) || Between(w, a, p, q)
  {
    if p.Of? && !Known(w.s, p.t) {
      NewEdge(w, a, p.t, q);
    } else {
      match a
      case SpawnBy(x, deps) => SpawnEdge(w, x, deps, p, q);
      case Other(e) => StepEdge(w, e, p, q, c);
      case _ => PhaseActEdge(w, a, p, q, c);
    }
  }

  lemma StepEdge(w: Threads, e: Event, p: Node, q: Node, c: Node)
    requires Usual(w) && Move(w, Other(e)).Some? && (p.Of? ==> Known(w.s, p.t))
    requires WaitsFor(Move(w, Other(e)).value, p, q) && WaitsFor(Move(w, Other(e)).value, q, c)
    ensures WaitsFor(w, p, q) || Needed(w, Other(e), p, q) || Between(w, Other(e), p, q)
  {
    match (p, q)
    case (Of(t), Of(u)) => TaskEdge(w, e, t, u);
    case (Of(t), Mapper) => PhaseEdge(w, e, t);
    case (Mapper, Of(u)) =>
      SoundKept(w, Other(e));
      WaiterIsOccupied(Move(w, Other(e)).value, q, c);
      MapperEdge(w, e, u);
  }

  /** And nobody waits for a new task that waits, but the body that spawns it. */
  lemma NewIsUnwanted(w: Threads, a: Act, p: Node, c: Node)
    requires Usual(w) && Move(w, a).Some? && WaitsFor(Move(w, a).value, p, Of(|w.s.tasks|))
    requires WaitsFor(Move(w, a).value, Of(|w.s.tasks|), c)
    ensures a.SpawnBy? && p == Of(a.x)
  {
    var n := |w.s.tasks|;
    NewEdge(w, a, n, c);
    if p == Of(n) {
      NewEdge(w, a, n, p);
    } else {
      EdgeBefore(w, a, p, Of(n), c);
      NeedIsKnown(w, a);
    }
  }

  lemma NeedIsKnown(w: Threads, a: Act)
    requires Usual(w) && Move(w, a).Some? && Needs(w, a).Some?
    ensures forall h | h in Needs(w, a).value.holders :: h.Of? ==> Known(w.s, h.t)
    ensures Needs(w, a).value.wanted.Of? ==> Known(w.s, Needs(w, a).value.wanted.t)
  {
    if a.Other? {
      StepNeedIsKnown(w, a.e);
    }
  }

  lemma StepNeedIsKnown(w: Threads, e: Event)
    requires Usual(w) && Move(w, Other(e)).Some? && StepNeeds(w, e).Some?
    ensures forall h | h in StepNeeds(w, e).value.holders :: h.Of? ==> Known(w.s, h.t)
    ensures StepNeeds(w, e).value.wanted.Of? ==> Known(w.s, StepNeeds(w, e).value.wanted.t)
  {
    if Own(e).Some? {
      HeldByHolder(w.s, e);
      ListInRange(w, Own(e).value);
    }
  }

  // ---- which waits a step leaves ----

  lemma StatusByChange(s: State, e: Event, t: nat, b: Task)
    requires Known(s, t) && Change(s, e, t, b) && !e.ReadyToMap? && !e.Finish?
    ensures b.status == s.tasks[t].status
  {
  }

  /** The steps after which somebody needs something. */
  lemma NeedyChanges(w: Threads, e: Event, t: nat)
    requires Move(w, Other(e)).Some? && StepNeeds(w, e).Some? && Known(w.s, t)
    ensures t < |Move(w, Other(e)).value.s.tasks|
    ensures Move(w, Other(e)).value.s.tasks[t].status == w.s.tasks[t].status
    ensures Own(e) == Some(t) ==> Of(t) in StepNeeds(w, e).value.holders
    ensures Mapper !in StepNeeds(w, e).value.holders ==> Move(w, Other(e)).value.s.mapper == w.s.mapper
    ensures Move(w, Other(e)).value.mapping == w.mapping
  {
    Changes(w.s, e, t);
    StatusByChange(w.s, e, t, Step(w.s, e).value.tasks[t]);
  }

  /** Whoever waits, and keeps nothing that the step needs, goes on waiting. */
  lemma EdgeKept(w: Threads, a: Act, p: Node, q: Node)
    requires Usual(w) && Move(w, a).Some? && Needs(w, a).Some? && WaitsFor(w, p, q)
    requires p !in Needs(w, a).value.holders
    ensures WaitsFor(Move(w, a).value, p, q)
  {
    MoveIsStep(w, a);
    TasksAfter(w, a);
    WaiterIsOccupied(w, p, q);
    if a.SpawnBy? {
      SpawnKeepsEdge(w, a.x, a.deps, p, q);
    } else if a.Other? {
      EdgeStays(w, a.e, p, q);
    }
  }

  lemma SpawnKeepsEdge(w: Threads, x: nat, deps: seq<nat>, p: Node, q: Node)
    requires Usual(w) && Move(w, SpawnBy(x, deps)).Some? && WaitsFor(w, p, q)
    ensures WaitsFor(Move(w, SpawnBy(x, deps)).value, p, q)
  {
    if p.Of? {
      SpawnLeavesTasks(w, x, deps, p.t);
    }
    if q.Of? {
      SpawnLeavesTasks(w, x, deps, q.t);
    }
  }

  lemma EdgeStays(w: Threads, e: Event, p: Node, q: Node)
    requires Usual(w) && Move(w, Other(e)).Some? && StepNeeds(w, e).Some? && WaitsFor(w, p, q) && Occupied(w, p)
    requires p !in StepNeeds(w, e).value.holders
    ensures WaitsFor(Move(w, Other(e)).value, p, q)
  {
    if p.Of? {
      NeedyChanges(w, e, p.t);
      OnlyHolderChanges(w.s, e, p.t);
      if q.Of? {
        NeedyChanges(w, e, q.t);
      }
    } else {
      NeedyChanges(w, e, q.t);
      if w.s.tasks[q.t].phase.Adding? {
        AddsByMoves(w, e, q.t);
      }
    }
  }

  lemma AddsByMoves(w: Threads, e: Event, m: nat)
    requires Move(w, Other(e)).Some? && StepNeeds(w, e).Some? && Known(w.s, m) && w.s.tasks[m].phase.Adding?
    ensures m < |Move(w, Other(e)).value.s.tasks| && Move(w, Other(e)).value.s.tasks[m] == w.s.tasks[m]
  {
    assert Own(e) != Some(m);
    OnlyHolderChanges(w.s, e, m);
  }

  // ---- closing a circle ----

  function Circle(w: Threads, a: Act, path: seq<Node>): set<Node>
    requires Move(w, a).Some? && Needs(w, a).Some?
  {
    Members(path) + Needs(w, a).value.holders + if a.SpawnBy? then {Of(|w.s.tasks|)} else {}
  }

  lemma PathWaits(w: Threads, a: Act, path: seq<Node>, p: Node)
    requires Usual(w) && Move(w, a).Some? && Needs(w, a).Some? && Chain(w, path)
    requires path[|path| - 1] in Needs(w, a).value.holders && p in path && p !in Needs(w, a).value.holders
    ensures WaitsIn(Move(w, a).value, p, Circle(w, a, path))
  {
    var i :| 0 <= i < |path| && path[i] == p;
    var q := path[i + 1];
    assert WaitsFor(w, path[i + 1 - 1], q);
    EdgeKept(w, a, p, q);
    assert q in path && q in Circle(w, a, path);
  }

  lemma NeedIsWaited(w: Threads, e: Event, h: Node)
    requires Usual(w) && Move(w, Other(e)).Some? && StepNeeds(w, e).Some? && h in StepNeeds(w, e).value.holders
    ensures WaitsFor(Move(w, Other(e)).value, h, StepNeeds(w, e).value.wanted)
            || (e.MoveAsks? && h == Mapper && WaitsFor(Move(w, Other(e)).value, h, Of(e.m)))
  {
    NeedIsKnown(w, Other(e));
    TasksStay(w.s, e);
    if Own(e).Some? {
      HolderNeeds(w, e, Own(e).value);
    } else if e.MoveAsks? {
      AskIsWaited(w, e.m, e.dep);
    }
  }

  lemma AskIsWaited(w: Threads, m: nat, d: nat)
    requires Move(w, Other(MoveAsks(m, d))).Some?
    ensures var r := Move(w, Other(MoveAsks(m, d))).value; WaitsFor(r, Of(m), Of(d)) && WaitsFor(r, Mapper, Of(m))
  {
  }

  lemma SpawnedWaits(w: Threads, x: nat, deps: seq<nat>)
    requires Move(w, SpawnBy(x, deps)).Some? && deps != []
    ensures WaitsFor(Move(w, SpawnBy(x, deps)).value, Of(x), Of(|w.s.tasks|))
    ensures WaitsFor(Move(w, SpawnBy(x, deps)).value, Of(|w.s.tasks|), Of(deps[0]))
  {
  }

  lemma CloserWaits(w: Threads, a: Act, path: seq<Node>, h: Node)
    requires Usual(w) && Move(w, a).Some? && Needs(w, a).Some? && Needs(w, a).value.wanted in path
    requires h in Needs(w, a).value.holders || (a.SpawnBy? && h == Of(|w.s.tasks|))
    ensures WaitsIn(Move(w, a).value, h, Circle(w, a, path))
  {
    var ns := Circle(w, a, path);
    assert Needs(w, a).value.wanted in ns;
    match a
    case SpawnBy(x, deps) =>
      SpawnedWaits(w, x, deps);
      assert Of(|w.s.tasks|) in ns;
    case Other(e) =>
      NeedIsWaited(w, e, h);
      assert e.MoveAsks? ==> Of(e.m) in ns;
    case _ =>
  }

  lemma Closes(w: Threads, a: Act, h: Node)
    requires Usual(w) && Move(w, a).Some? && Needs(w, a).Some? && h in Needs(w, a).value.holders
    requires Leads(w, Needs(w, a).value.wanted, h)
    ensures AnyDeadlock(Move(w, a).value)
  {
    var path :| Chain(w, path) && path[0] == Needs(w, a).value.wanted && path[|path| - 1] == h;
    var ns := Circle(w, a, path);
    forall p | p in ns ensures WaitsIn(Move(w, a).value, p, ns) {
      if p in path && p !in Needs(w, a).value.holders {
        PathWaits(w, a, path, p);
      } else {
        CloserWaits(w, a, path, p);
      }
    }
    assert h in ns;
    assert Deadlocked(Move(w, a).value, ns);
  }

  /** The step makes `p` need somebody in `ns`, who is not new. */
  predicate Closer(w: Threads, a: Act, ns: set<Node>, p: Node)
    requires Move(w, a).Some?
  {
    && Needs(w, a).Some? && p in Needs(w, a).value.holders
    && Needs(w, a).value.wanted in ns && Needs(w, a).value.wanted != Of(|w.s.tasks|)
  }

  /** Everybody in a new deadlock waited for somebody in it before, but those who closed it. */
  lemma WaitedBefore(w: Threads, a: Act, ns: set<Node>, p: Node)
    requires Usual(w) && Move(w, a).Some? && Deadlocked(Move(w, a).value, ns) && p in ns && p != Of(|w.s.tasks|)
    ensures WaitsIn(w, p, ns - {Of(|w.s.tasks|)}) || Closer(w, a, ns, p)
  {
    var r, n := Move(w, a).value, |w.s.tasks|;
    assert WaitsIn(r, p, ns);
    var q :| q in ns && WaitsFor(r, p, q);
    assert WaitsIn(r, q, ns);
    var c :| c in ns && WaitsFor(r, q, c);
    if q == Of(n) {
      NewIsUnwanted(w, a, p, c);
      NewEdge(w, a, n, c);
    } else {
      EdgeBefore(w, a, p, q, c);
      if Between(w, a, p, q) {
        AskedCloses(w, a.e.m, a.e.dep, ns, c);
      }
    }
  }

  lemma AskedCloses(w: Threads, m: nat, d: nat, ns: set<Node>, c: Node)
    requires Move(w, Other(MoveAsks(m, d))).Some? && WaitsFor(Move(w, Other(MoveAsks(m, d))).value, Of(m), c)
    requires c in ns
    ensures Closer(w, Other(MoveAsks(m, d)), ns, Mapper)
  {
  }

  lemma ClosedBy(w: Threads, a: Act)
    requires Usual(w) && Move(w, a).Some? && !AnyDeadlock(w) && AnyDeadlock(Move(w, a).value)
    ensures ClosesCircle(w, a)
  {
    var ns :| Deadlocked(Move(w, a).value, ns);
    var before := ns - {Of(|w.s.tasks|)};
    NotOnlyNew(w, a, ns);
    if p :| p in before && !WaitsIn(w, p, before) {
      WaitedBefore(w, a, ns, p);
      var need := Needs(w, a).value;
      forall y | y in before && y !in need.holders ensures WaitsIn(w, y, before) {
        WaitedBefore(w, a, ns, y);
      }
      FollowTo(w, need.wanted, need.holders, before, {});
    } else {
      assert Deadlocked(w, before);
    }
  }

  lemma NotOnlyNew(w: Threads, a: Act, ns: set<Node>)
    requires Move(w, a).Some? && Deadlocked(Move(w, a).value, ns)
    ensures ns - {Of(|w.s.tasks|)} != {}
  {
    var n := |w.s.tasks|;
    var p :| p in ns;
    if p == Of(n) {
      assert WaitsIn(Move(w, a).value, p, ns);
      var q :| q in ns && WaitsFor(Move(w, a).value, p, q);
      NewEdge(w, a, n, q);
      assert q in ns - {Of(n)};
    } else {
      assert p in ns - {Of(n)};
    }
  }

  /** A step makes the first deadlock exactly when the waits lead from whom its thread will need next to somebody
      whose mutex, or phase, the thread keeps. */
  lemma DeadlockExact(w: Threads, a: Act)
    requires Usual(w) && Move(w, a).Some? && !AnyDeadlock(w)
    ensures AnyDeadlock(Move(w, a).value) <==> ClosesCircle(w, a)
  {
    if AnyDeadlock(Move(w, a).value) {
      ClosedBy(w, a);
    } else if ClosesCircle(w, a) {
      var h :| h in Needs(w, a).value.holders && Leads(w, Needs(w, a).value.wanted, h);
      Closes(w, a, h);
    }
  }
}
