/** The loops that spawn the Cholesky tasks, and what awaiting the task they return amounts to. */
module CholeskySpawning {
  import opened Cholesky

  predicate Contains(ts: seq<Task>, wanted: seq<Task>) {
    forall i | 0 <= i < |wanted| :: wanted[i] in ts
  }

  /** No task is spawned twice, and each is spawned after everything it depends on. */
  ghost predicate InOrder(spawned: seq<Task>) {
    && (forall i, j | 0 <= i < j < |spawned| :: spawned[i] != spawned[j])
    && (forall i | 0 <= i < |spawned| :: Contains(spawned[..i], Dependencies(spawned[i])))
  }

  function Column(t: Task): nat {
    Target(t).1
  }

  function Row(t: Task): nat {
    Target(t).0
  }

  lemma SpawnNext(spawned: seq<Task>, t: Task)
    requires InOrder(spawned) && t !in spawned && Contains(spawned, Dependencies(t))
    ensures InOrder(spawned + [t])
  {
    var next := spawned + [t];
    forall i | 0 <= i < |next| ensures Contains(next[..i], Dependencies(next[i])) {
      assert next[..i] == spawned[..i];
      assert i == |spawned| ==> spawned[..i] == spawned;
    }
  }

  /** `spawned` is exactly the tasks of the columns before `j`, of the rows before `i` in column `j`, and the first
      `k` updates of block `(i, j)`. */
  ghost predicate SpawnedUpTo(spawned: seq<Task>, n: nat, i: nat, j: nat, k: nat) {
    forall t :: t in spawned <==>
      IsTask(t, n) && (Column(t) < j || (Column(t) == j && Row(t) < i) || IsUpdateBefore(t, i, j, k))
  }

  predicate IsUpdateBefore(t: Task, i: nat, j: nat, k: nat) {
    match t
    case Syrk(tj, tk) => i == j == tj && tk < k
    case Gemm(ti, tj, tk) => i == ti && j == tj && tk < k
    case _ => false
  }

  lemma UpdateReady(spawned: seq<Task>, n: nat, i: nat, j: nat, k: nat)
    requires k < j <= i < n && SpawnedUpTo(spawned, n, i, j, k)
    ensures Update(i, j, k) !in spawned && Contains(spawned, Dependencies(Update(i, j, k)))
  {
    assert Solve(j, k) in spawned && (i != j ==> Solve(i, k) in spawned);
  }

  lemma FinalReady(spawned: seq<Task>, n: nat, i: nat, j: nat)
    requires j <= i < n && SpawnedUpTo(spawned, n, i, j, j)
    ensures Final(i, j) !in spawned && Contains(spawned, Dependencies(Final(i, j)))
  {
    assert i != j ==> Subcholesky(j) in spawned;
  }

  lemma UpdateSpawned(spawned: seq<Task>, n: nat, i: nat, j: nat, k: nat)
    requires k < j <= i < n && InOrder(spawned) && SpawnedUpTo(spawned, n, i, j, k)
    ensures InOrder(spawned + [Update(i, j, k)]) && SpawnedUpTo(spawned + [Update(i, j, k)], n, i, j, k + 1)
  {
    UpdateReady(spawned, n, i, j, k);
    SpawnNext(spawned, Update(i, j, k));
  }

  lemma FinalSpawned(spawned: seq<Task>, n: nat, i: nat, j: nat)
    requires j <= i < n && InOrder(spawned) && SpawnedUpTo(spawned, n, i, j, j)
    ensures InOrder(spawned + [Final(i, j)]) && SpawnedUpTo(spawned + [Final(i, j)], n, i + 1, j, 0)
  {
    FinalReady(spawned, n, i, j);
    SpawnNext(spawned, Final(i, j));
    RowComplete(spawned, n, i, j);
  }

  lemma RowComplete(spawned: seq<Task>, n: nat, i: nat, j: nat)
    requires j <= i < n && SpawnedUpTo(spawned, n, i, j, j)
    ensures SpawnedUpTo(spawned + [Final(i, j)], n, i + 1, j, 0)
  {
    forall t
      ensures t in spawned + [Final(i, j)]
              <==> IsTask(t, n) && (Column(t) < j || (Column(t) == j && Row(t) < i + 1))
    {
      assert IsTask(t, n) && Column(t) == j && Row(t) == i ==> t == Final(i, j) || IsUpdateBefore(t, i, j, j);
    }
  }

  /** `cholesky_blocked_inplace`, as the sequence of its spawns. */
  method SpawnAll(n: nat) returns (spawned: seq<Task>, result: Task)
    requires n > 0
    ensures InOrder(spawned) && (forall t :: t in spawned <==> IsTask(t, n))
    ensures result == Subcholesky(n - 1)
  {
    spawned := [];
    for j := 0 to n
      invariant InOrder(spawned) && SpawnedUpTo(spawned, n, j, j, 0)
    {
      for k := 0 to j
        invariant InOrder(spawned) && SpawnedUpTo(spawned, n, j, j, k)
      {
        UpdateSpawned(spawned, n, j, j, k);
        spawned := spawned + [Syrk(j, k)];
      }
      FinalSpawned(spawned, n, j, j);
      spawned := spawned + [Subcholesky(j)];
      for i := j + 1 to n
        invariant InOrder(spawned) && SpawnedUpTo(spawned, n, i, j, 0)
      {
        for k := 0 to j
          invariant InOrder(spawned) && SpawnedUpTo(spawned, n, i, j, k)
        {
          UpdateSpawned(spawned, n, i, j, k);
          spawned := spawned + [Gemm(i, j, k)];
        }
        FinalSpawned(spawned, n, i, j);
        spawned := spawned + [Solve(i, j)];
      }
      ColumnComplete(spawned, n, j);
    }
    result := Subcholesky(n - 1);
  }

  lemma ColumnComplete(spawned: seq<Task>, n: nat, j: nat)
    requires SpawnedUpTo(spawned, n, n, j, 0)
    ensures SpawnedUpTo(spawned, n, j + 1, j + 1, 0)
  {
    forall t ensures t in spawned <==> IsTask(t, n) && (Column(t) < j + 1 || (Column(t) == j + 1 && Row(t) < j + 1)) {}
  }

  // ---- awaiting the last task ----

  /** Each task of the path is a dependency of the next. */
  ghost predicate Path(path: seq<Task>, from: Task, to: Task) {
    && |path| > 0 && path[0] == from && path[|path| - 1] == to
    && forall i | 0 <= i < |path| - 1 :: path[i] in Dependencies(path[i + 1])
  }

  /** From the factorization of a block to that of the last. */
  lemma {:induction false} SubcholeskyIsAwaited(j: nat, n: nat) returns (path: seq<Task>)
    requires j < n
    ensures Path(path, Subcholesky(j), Subcholesky(n - 1))
    decreases n - j
  {
    if j == n - 1 {
      path := [Subcholesky(j)];
    } else {
      var rest := SubcholeskyIsAwaited(j + 1, n);
      var solve, syrk := Solve(j + 1, j), Syrk(j + 1, j);
      assert Dependencies(solve)[j] == Subcholesky(j) && Dependencies(syrk)[0] == solve;
      assert Dependencies(Subcholesky(j + 1))[j] == syrk;
      path := [Subcholesky(j), solve, syrk] + rest;
    }
  }

  /** Every task is the returned one or a dependency of it, directly or through others: awaiting the returned task
      awaits them all. */
  lemma LastAwaitsAll(t: Task, n: nat) returns (path: seq<Task>)
    requires IsTask(t, n)
    ensures Path(path, t, Subcholesky(n - 1))
  {
    match t
    case Subcholesky(j) => path := SubcholeskyIsAwaited(j, n);
    case Syrk(j, k) =>
      var rest := SubcholeskyIsAwaited(j, n);
      assert Dependencies(Subcholesky(j))[k] == t;
      path := [t] + rest;
    case Solve(i, j) =>
      var rest := SubcholeskyIsAwaited(i, n);
      assert Dependencies(Syrk(i, j))[0] == t && Dependencies(Subcholesky(i))[j] == Syrk(i, j);
      path := [t, Syrk(i, j)] + rest;
    case Gemm(i, j, k) =>
      var rest := SubcholeskyIsAwaited(i, n);
      assert Dependencies(Solve(i, j))[k] == t && Dependencies(Syrk(i, j))[0] == Solve(i, j);
      assert Dependencies(Subcholesky(i))[j] == Syrk(i, j);
      path := [t, Solve(i, j), Syrk(i, j)] + rest;
  }
}
