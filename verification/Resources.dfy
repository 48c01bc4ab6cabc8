/**
 Resource accounting of one device: `ResourcePool` in `parla/task_runtime.py`, for non-blocking updates. Amounts are
 exact (reals), so floating-point rounding is not modelled.
 */
module Resources {
  type Pool = map<string, real>

  /** A resource dictionary, in iteration order. Its names are distinct. */
  datatype Amount = Amount(name: string, value: real)

  predicate DistinctNames(request: seq<Amount>) {
    forall i, j | 0 <= i < j < |request| :: request[i].name != request[j].name
  }

  predicate AllExist(pool: Pool, request: seq<Amount>) {
    forall i | 0 <= i < |request| :: request[i].name in pool
  }

  predicate NonNegative(pool: Pool) {
    forall n | n in pool :: pool[n] >= 0.0
  }

  /** How much of a resource the request asks for. */
  function Asked(request: seq<Amount>, n: string): real {
    if request == [] then 0.0
    else
      var last := request[|request| - 1];
      Asked(request[..|request| - 1], n) + if last.name == n then last.value else 0.0
  }

  /** The multiplier is 1 for a deallocation and -1 for an allocation. */
  function Signed(value: real, give: bool): real {
    if give then value else -value
  }

  /** The pool with the request added or taken away. */
  ghost predicate Added(before: Pool, after: Pool, request: seq<Amount>, give: bool) {
    && after.Keys == before.Keys
    && forall n | n in before :: after[n] == before[n] + Signed(Asked(request, n), give)
  }

  predicate Fits(pool: Pool, amount: Amount, give: bool) {
    amount.name in pool && -Signed(amount.value, give) <= pool[amount.name]
  }

  /** `Updated`: everything was applied; `Refused`: some amount was not available; `Missing`: an unknown resource
      raised an exception; `Stuck`: the device's monitor is held and nobody will release it, so the call never
      returns. */
  datatype Result = Updated | Refused | Missing | Stuck

  lemma {:induction false} AskedElsewhere(request: seq<Amount>, n: string)
    requires forall i | 0 <= i < |request| :: request[i].name != n
    ensures Asked(request, n) == 0.0
  {
    if request != [] {
      AskedElsewhere(request[..|request| - 1], n);
    }
  }

  lemma {:induction false} AskedOnce(request: seq<Amount>, i: nat)
    requires DistinctNames(request) && i < |request|
    ensures Asked(request, request[i].name) == request[i].value
  {
    var init := request[..|request| - 1];
    if i < |init| {
      AskedOnce(init, i);
    } else {
      AskedElsewhere(init, request[i].name);
    }
  }

  class ResourcePool {
    var available: Pool
    /** Whether the monitor is held while no call is active. It is not reentrant. */
    var held: bool

    constructor (initial: Pool)
      ensures available == initial && !held
    {
      available := initial;
      held := false;
    }

    /** `_update_resource`, not blocking. */
    method UpdateResource(name: string, amount: real) returns (r: Result)
      modifies `available
      ensures r == if name !in old(available) then Missing
                   else if -amount <= old(available[name]) then Updated else Refused
      ensures available == if r.Updated? then old(available)[name := old(available[name]) + amount] else old(available)
    {
      if name !in available {
        return Missing;
      }
      if -amount <= available[name] {
        available := available[name := available[name] + amount];
        return Updated;
      }
      return Refused;
    }

    /** `_atomically_update_resources`, not blocking. Whether an amount fits does not depend on the others, since
        names are distinct. If all names exist the update is applied as a whole or not at all; a missing name
        raises after the amounts before it were applied, and those stay, and so does the monitor. */
    method AtomicallyUpdate(request: seq<Amount>, give: bool) returns (r: Result)
      requires DistinctNames(request) && NonNegative(available)
      modifies this
      ensures NonNegative(available)
      ensures Device(available, held) == Called(old(Device(available, held)), request, give).1
      ensures r == Called(old(Device(available, held)), request, give).0
      ensures old(held) || Leaves(old(available), available, request, give)
      ensures !old(held) ==> (r.Updated? <==> AllCovered(old(available), request, give, |request|))
      ensures !old(held) ==>
                (r.Missing? <==> exists k :: 0 <= k < |request| && request[k].name !in old(available)
                                             && AllCovered(old(available), request, give, k))
      ensures r.Stuck? <==> old(held)
    {
      if held {
        return Stuck;
      }
      held := true;
      ghost var before := available;
      var released;
      r, released := Apply(request, give);
      assert request[..|request|] == request;
      GrantedExactly(before, request, give);
      AddedIs(before, available, request[..released], give);
      if r.Missing? {
        return;
      }
      if r.Refused? {
        Release(request[..released], give, before);
      }
      held := false;
    }

    /** The first loop: apply amounts until one does not fit. */
    method Apply(request: seq<Amount>, give: bool) returns (r: Result, released: nat)
      requires DistinctNames(request) && NonNegative(available)
      modifies `available
      ensures r == Outcome(old(available), request, give) && released == Misfit(old(available), request, give)
      ensures NonNegative(available) && Added(old(available), available, request[..released], give)
    {
      ghost var before := available;
      released := 0;
      r := Updated;
      while released < |request| && r.Updated?
        invariant 0 <= released <= |request|
        invariant NonNegative(available) && Added(before, available, request[..released], give)
        invariant forall i | 0 <= i < released :: Fits(before, request[i], give)
        invariant !r.Updated? ==>
                    && released < |request| && !Fits(before, request[released], give)
                    && r == if request[released].name in before then Refused else Missing
        decreases |request| - released, r.Updated?
      {
        AddOne(before, available, request, released, give);
        r := UpdateResource(request[released].name, Signed(request[released].value, give));
        if r.Updated? {
          released := released + 1;
        }
      }
      MisfitIs(before, request, give, released);
    }

    /** The unwinding loop: what was applied is taken back, and that cannot fail. */
    method Release(request: seq<Amount>, give: bool, ghost before: Pool)
      requires DistinctNames(request) && AllExist(before, request) && NonNegative(before)
      requires Added(before, available, request, give)
      modifies `available
      ensures available == before
    {
      for i := 0 to |request|
        invariant TakenBack(before, available, request, i, give)
      {
        TakeOne(before, available, request, i, give);
        var r := UpdateResource(request[i].name, -Signed(request[i].value, give));
        assert r.Updated?;
      }
      assert request[..|request|] == request;
    }
  }

  lemma AddOne(before: Pool, now: Pool, request: seq<Amount>, k: nat, give: bool)
    requires DistinctNames(request) && k < |request| && Added(before, now, request[..k], give)
    ensures request[k].name in now <==> request[k].name in before
    ensures request[k].name in before ==> now[request[k].name] == before[request[k].name]
    ensures request[k].name in before ==>
              Added(before, now[request[k].name := now[request[k].name] + Signed(request[k].value, give)],
                    request[..k + 1], give)
  {
    AskedElsewhere(request[..k], request[k].name);
    assert request[..k + 1][..k] == request[..k];
  }

  /** The pool while the first `i` amounts have been taken back again. */
  ghost predicate TakenBack(before: Pool, now: Pool, request: seq<Amount>, i: nat, give: bool)
    requires i <= |request|
  {
    && now.Keys == before.Keys
    && forall n | n in before :: now[n] == before[n] + Signed(Asked(request, n) - Asked(request[..i], n), give)
  }

  lemma TakeOne(before: Pool, now: Pool, request: seq<Amount>, i: nat, give: bool)
    requires DistinctNames(request) && i < |request| && TakenBack(before, now, request, i, give)
    requires request[i].name in before && before[request[i].name] >= 0.0
    ensures request[i].name in now && Signed(request[i].value, give) <= now[request[i].name]
    ensures TakenBack(before, now[request[i].name := now[request[i].name] + -Signed(request[i].value, give)], request,
                      i + 1, give)
  {
    AskedOnce(request, i);
    AskedElsewhere(request[..i], request[i].name);
    assert request[..i + 1][..i] == request[..i];
  }

  /** The position of the first amount that the pool cannot take, or the length of the request. */
  function Misfit(pool: Pool, request: seq<Amount>, give: bool): (k: nat)
    ensures k <= |request|
    ensures forall i | 0 <= i < k :: Fits(pool, request[i], give)
    ensures k < |request| ==> !Fits(pool, request[k], give)
  {
    if request == [] || !Fits(pool, request[0], give) then 0
    else
      var k := Misfit(pool, request[1..], give);
      assert forall i | 0 < i < k + 1 :: request[i] == request[1..][i - 1];
      k + 1
  }

  lemma MisfitIs(pool: Pool, request: seq<Amount>, give: bool, k: nat)
    requires k <= |request| && forall i | 0 <= i < k :: Fits(pool, request[i], give)
    requires k < |request| ==> !Fits(pool, request[k], give)
    ensures Misfit(pool, request, give) == k
  {
  }

  function Outcome(pool: Pool, request: seq<Amount>, give: bool): Result {
    var k := Misfit(pool, request, give);
    if k == |request| then Updated else if request[k].name in pool then Refused else Missing
  }

  /** The resources of the first `k` amounts exist; for an allocation there is at least as much of each as is asked
      for, and a deallocation of a negative amount takes no more than there is. */
  predicate AllCovered(pool: Pool, request: seq<Amount>, give: bool, k: nat)
    requires k <= |request|
  {
    forall i | 0 <= i < k ::
      && request[i].name in pool
      && (!give ==> request[i].value <= pool[request[i].name])
      && (give ==> -request[i].value <= pool[request[i].name])
  }

  /** A request is granted exactly when the pool covers all of it, down to the last bit; otherwise the first amount
      that it does not cover decides between a refusal and an exception. */
  lemma GrantedExactly(pool: Pool, request: seq<Amount>, give: bool)
    ensures Outcome(pool, request, give).Updated? <==> AllCovered(pool, request, give, |request|)
    ensures Outcome(pool, request, give).Missing?
            <==> exists k :: 0 <= k < |request| && request[k].name !in pool && AllCovered(pool, request, give, k)
    ensures Outcome(pool, request, give).Refused?
            <==> exists k :: 0 <= k < |request| && request[k].name in pool && AllCovered(pool, request, give, k)
                             && !AllCovered(pool, request, give, k + 1)
    ensures !Outcome(pool, request, give).Stuck?
  {
    var m := Misfit(pool, request, give);
    assert AllCovered(pool, request, give, m);
    assert m < |request| ==> !AllCovered(pool, request, give, m + 1);
    forall k | 0 <= k < |request| && AllCovered(pool, request, give, k) ensures k <= m {
      CoveredBefore(pool, request, give, m, k);
    }
  }

  lemma CoveredBefore(pool: Pool, request: seq<Amount>, give: bool, m: nat, k: nat)
    requires m <= |request| && k <= |request| && AllCovered(pool, request, give, k)
    requires m < |request| ==> !AllCovered(pool, request, give, m + 1)
    ensures k <= m
  {
  }

  /** All that there is can be allocated. */
  lemma CapacityIsGranted(pool: Pool, request: seq<Amount>)
    requires forall i | 0 <= i < |request| ::
               request[i].name in pool && request[i].value == pool[request[i].name]
    ensures Outcome(pool, request, false).Updated?
  {
    GrantedExactly(pool, request, false);
  }

  /** What an update leaves: everything applied, nothing changed, or the amounts before an unknown name applied. */
  ghost predicate Leaves(before: Pool, after: Pool, request: seq<Amount>, give: bool) {
    match Outcome(before, request, give)
    case Updated => Added(before, after, request, give)
    case Refused => after == before
    case Missing => Added(before, after, request[..Misfit(before, request, give)], give)
  }

  /** The `k`-th name is unknown, some amount before it is not zero, and the pool has all the amounts before it. */
  ghost predicate UnknownAfterChange(pool: Pool, request: seq<Amount>, give: bool, k: nat) {
    && k < |request| && request[k].name !in pool
    && (exists i :: 0 <= i < k && request[i].value != 0.0)
    && forall i | 0 <= i < k :: Fits(pool, request[i], give)
  }

  /** All-or-nothing holds exactly when no unknown name is reached after a nonzero amount. In particular it holds
      whenever all names exist. */
  lemma AllOrNothing(before: Pool, after: Pool, request: seq<Amount>, give: bool)
    requires DistinctNames(request) && NonNegative(before) && Leaves(before, after, request, give)
    ensures (AllExist(before, request) && Added(before, after, request, give)) || after == before
            <==> forall k: nat :: !UnknownAfterChange(before, request, give, k)
    ensures AllExist(before, request) ==> forall k: nat :: !UnknownAfterChange(before, request, give, k)
  {
    if k: nat :| UnknownAfterChange(before, request, give, k) {
      MisfitIs(before, request, give, k);
      var i :| 0 <= i < k && request[i].value != 0.0;
      AppliedAt(before, after, request, give, i);
    } else {
      var k := Misfit(before, request, give);
      assert !UnknownAfterChange(before, request, give, k);
      if Outcome(before, request, give).Missing? {
        forall n | n in before ensures after[n] == before[n] {
          NothingAsked(request[..k], n);
        }
      } else {
        assert Outcome(before, request, give).Updated? ==> AllExist(before, request);
      }
    }
  }

  lemma AppliedAt(before: Pool, after: Pool, request: seq<Amount>, give: bool, i: nat)
    requires DistinctNames(request) && Outcome(before, request, give).Missing? && Leaves(before, after, request, give)
    requires i < Misfit(before, request, give)
    ensures request[i].name in before && request[i].name in after
    ensures after[request[i].name] == before[request[i].name] + Signed(request[i].value, give)
  {
    var applied := request[..Misfit(before, request, give)];
    assert applied[i] == request[i] && Fits(before, request[i], give);
    AskedOnce(applied, i);
  }

  /** The name after the memory does not exist: the memory is gone although the allocation raised. */
  lemma UnknownNameKeepsMemory(after: Pool)
    requires Leaves(map["memory" := 4.0], after, [Amount("memory", 1.0), Amount("vcus", 1.0)], false)
    ensures after == map["memory" := 3.0]
  {
    var before, request := map["memory" := 4.0], [Amount("memory", 1.0), Amount("vcus", 1.0)];
    assert "vcus"[0] != "memory"[0];
    MisfitIs(before, request, false, 1);
    AppliedAt(before, after, request, false, 0);
    assert after.Keys == before.Keys == {"memory"};
  }

  lemma {:induction false} NothingAsked(request: seq<Amount>, n: string)
    requires forall i | 0 <= i < |request| :: request[i].value == 0.0
    ensures Asked(request, n) == 0.0
  {
    if request != [] {
      NothingAsked(request[..|request| - 1], n);
    }
  }

  // ---- calls one after the other ----

  datatype Device = Device(available: Pool, held: bool)

  function AddedTo(pool: Pool, request: seq<Amount>, give: bool): Pool {
    map n | n in pool :: pool[n] + Signed(Asked(request, n), give)
  }

  lemma AddedIs(before: Pool, after: Pool, request: seq<Amount>, give: bool)
    requires Added(before, after, request, give)
    ensures after == AddedTo(before, request, give)
  {
  }

  /** One call of `_atomically_update_resources`: what it answers, and what it leaves. */
  function Called(d: Device, request: seq<Amount>, give: bool): (Result, Device) {
    if d.held then (Stuck, d)
    else
      match Outcome(d.available, request, give)
      case Missing => (Missing, Device(AddedTo(d.available, request[..Misfit(d.available, request, give)], give), true))
      case Updated => (Updated, Device(AddedTo(d.available, request, give), false))
      case r => (r, d)
  }

  datatype Call = Call(request: seq<Amount>, give: bool)

  function Answers(d: Device, calls: seq<Call>): (rs: seq<Result>)
    ensures |rs| == |calls|
    decreases |calls|
  {
    if calls == [] then []
    else
      var (r, next) := Called(d, calls[0].request, calls[0].give);
      [r] + Answers(next, calls[1..])
  }

  /** A call for a device never returns exactly when an earlier call for it named an unknown resource (and got that
      far): after that no task can be mapped to the device, and none that ran there can finish. */
  lemma {:induction false} StuckExactly(d: Device, calls: seq<Call>, j: nat)
    requires j < |calls| && !d.held
    ensures Answers(d, calls)[j].Stuck? <==> exists i :: 0 <= i < j && Answers(d, calls)[i].Missing?
    decreases |calls|
  {
    var (r, next) := Called(d, calls[0].request, calls[0].give);
    var rs, rest := Answers(d, calls), Answers(next, calls[1..]);
    assert rs == [r] + rest;
    if j > 0 {
      if next.held {
        HeldStays(next, calls[1..], j - 1);
        assert rs[0].Missing?;
      } else {
        StuckExactly(next, calls[1..], j - 1);
        if i :| 0 <= i < j && rs[i].Missing? {
          assert rest[i - 1].Missing?;
        }
        if i :| 0 <= i < j - 1 && rest[i].Missing? {
          assert rs[i + 1].Missing?;
        }
      }
    }
  }

  lemma {:induction false} HeldStays(d: Device, calls: seq<Call>, j: nat)
    requires j < |calls| && d.held
    ensures Answers(d, calls)[j].Stuck?
    decreases |calls|
  {
    if j > 0 {
      HeldStays(d, calls[1..], j - 1);
    }
  }

  // ---- conservation over runs ----

  /** Mapped tasks hold what they allocated until they finish. */
  datatype Account = Account(available: Pool, held: seq<seq<Amount>>)

  datatype Action = Allocate(request: seq<Amount>) | Deallocate(which: nat)

  predicate Legal(request: seq<Amount>, pool: Pool) {
    && DistinctNames(request) && AllExist(pool, request)
    && forall i | 0 <= i < |request| :: request[i].value >= 0.0
  }

  function HeldOf(held: seq<seq<Amount>>, n: string): real {
    if held == [] then 0.0 else HeldOf(held[..|held| - 1], n) + Asked(held[|held| - 1], n)
  }

  function Act(a: Account, action: Action): Account {
    match action
    case Allocate(request) =>
      if Outcome(a.available, request, false).Updated?
          then Account(AddedTo(a.available, request, false), a.held + [request])
      else a
    case Deallocate(i) =>
      if i < |a.held| then Account(AddedTo(a.available, a.held[i], true), a.held[..i] + a.held[i + 1..]) else a
  }

  function ActAll(a: Account, actions: seq<Action>): Account
    decreases |actions|
  {
    if actions == [] then a else ActAll(Act(a, actions[0]), actions[1..])
  }

  ghost predicate Balanced(initial: Pool, a: Account) {
    && a.available.Keys == initial.Keys && NonNegative(a.available)
    && (forall i | 0 <= i < |a.held| :: Legal(a.held[i], initial))
    && forall n | n in initial :: a.available[n] + HeldOf(a.held, n) == initial[n]
  }

  lemma {:induction false} HeldWithout(held: seq<seq<Amount>>, i: nat, n: string)
    requires i < |held|
    ensures HeldOf(held[..i] + held[i + 1..], n) == HeldOf(held, n) - Asked(held[i], n)
  {
    var last := |held| - 1;
    if i < last {
      HeldWithout(held[..last], i, n);
      var rest := held[..i] + held[i + 1..];
      assert rest[..|rest| - 1] == held[..last][..i] + held[..last][i + 1..] && rest[|rest| - 1] == held[last];
    } else {
      assert held[..i] + held[i + 1..] == held[..last];
    }
  }

  lemma {:induction false} AskedNonNegative(request: seq<Amount>, n: string)
    requires forall i | 0 <= i < |request| :: request[i].value >= 0.0
    ensures Asked(request, n) >= 0.0
  {
    if request != [] {
      AskedNonNegative(request[..|request| - 1], n);
    }
  }

  lemma AllocationFits(pool: Pool, request: seq<Amount>, n: string)
    requires Legal(request, pool) && NonNegative(pool) && n in pool && Outcome(pool, request, false).Updated?
    ensures Asked(request, n) <= pool[n]
  {
    if i :| 0 <= i < |request| && request[i].name == n {
      AskedOnce(request, i);
      assert Fits(pool, request[i], false);
    } else {
      AskedElsewhere(request, n);
    }
  }

  lemma ActKeepsBalance(initial: Pool, a: Account, action: Action)
    requires Balanced(initial, a) && (action.Allocate? ==> Legal(action.request, initial))
    ensures Balanced(initial, Act(a, action))
    ensures action.Deallocate? && action.which < |a.held| ==> Outcome(a.available, a.held[action.which], true).Updated?
  {
    match action
    case Allocate(request) =>
      var next := Act(a, action);
      if Outcome(a.available, request, false).Updated? {
        forall n | n in initial
          ensures next.available[n] >= 0.0 && next.available[n] + HeldOf(next.held, n) == initial[n]
        {
          AllocationFits(a.available, request, n);
          assert next.held[..|a.held|] == a.held;
        }
      }
    case Deallocate(i) =>
      if i < |a.held| {
        forall n | n in initial ensures Act(a, action).available[n] >= 0.0 {
          AskedNonNegative(a.held[i], n);
        }
        forall n | n in initial ensures Act(a, action).available[n] + HeldOf(Act(a, action).held, n) == initial[n] {
          HeldWithout(a.held, i, n);
        }
        assert forall j | 0 <= j < |a.held[i]| :: Fits(a.available, a.held[i][j], true);
        MisfitIs(a.available, a.held[i], true, |a.held[i]|);
      }
  }

  /** Over any run of allocations and matching deallocations, what is available and what is held add up to the
      initial amounts, nothing goes negative, and a deallocation never fails. */
  lemma {:induction false} Conservation(initial: Pool, a: Account, actions: seq<Action>)
    requires Balanced(initial, a)
    requires forall i | 0 <= i < |actions| && actions[i].Allocate? :: Legal(actions[i].request, initial)
    ensures Balanced(initial, ActAll(a, actions))
    decreases |actions|
  {
    if actions != [] {
      assert actions[0].Allocate? ==> Legal(actions[0].request, initial);
      ActKeepsBalance(initial, a, actions[0]);
      forall i | 0 <= i < |actions| - 1 ensures actions[1..][i] == actions[i + 1] {}
      Conservation(initial, Act(a, actions[0]), actions[1..]);
    }
  }
}
