/** The daemon's startup recovery: requeue what a previous run left inflight, then give every
    dirty mirror task that owes a push one outbox entry. */
module Startup {
  import opened Options
  import opened Outbox
  import opened Protocol
  import opened OutboxRepo

  /** A `DirtyLocal` task as the startup scan sees it; `canonical` is what the binding lookup
      returned and `at` the moment its entry would be stamped. */
  datatype DirtyTask = DirtyTask(id: TaskId, remote: Option<string>, repo: Option<nat>, canonical: Option<string>,
                                 at: Time)

  /** Without a remote, a repository or a resolvable binding no push can be formed. */
  predicate Owes(d: DirtyTask) {
    d.remote.Some? && d.repo.Some? && d.canonical.Some?
  }

  function PushFor(d: DirtyTask): Mutation
    requires Owes(d)
  {
    UpdateRemote(d.canonical.value, d.remote.value)
  }

  datatype Table = Table(rows: seq<Row>, nextId: nat)

  function Reconciled(t: Table, dirty: seq<DirtyTask>): Table {
    if dirty == [] then t
    else
      var mid, d := Reconciled(t, dirty[..|dirty| - 1]), dirty[|dirty| - 1];
      if Owes(d) then Table(InsertIfAbsent(mid.rows, NewRow(mid.nextId, d.id, PushFor(d), d.at)), mid.nextId + 1)
      else mid
  }

  function Recovered(t: Table, dirty: seq<DirtyTask>): Table {
    Reconciled(t.(rows := Requeue(t.rows)), dirty)
  }

  predicate OwesPush(dirty: seq<DirtyTask>, task: TaskId) {
    exists i ::
      && 0 <= i < |dirty| && dirty[i].id == task
      && dirty[i].remote.Some? && dirty[i].repo.Some? && dirty[i].canonical.Some?
  }

  /** The row is the push of one of the scanned tasks: to the repository its binding resolves to, for its
      remote issue, stamped when it was scanned. */
  predicate PushOf(r: Row, dirty: seq<DirtyTask>) {
    exists i :: 0 <= i < |dirty| && IsPush(r, dirty[i])
  }

  predicate IsPush(r: Row, d: DirtyTask) {
    && d.repo.Some? && d.canonical.Some? && d.remote.Some? && r.task == d.id && r.enqueuedAt == d.at
    && r.mutation.UpdateRemote? && Some(r.mutation.repo) == d.canonical && Some(r.mutation.remoteId) == d.remote
  }

  lemma PushOfMore(r: Row, dirty: seq<DirtyTask>, n: nat)
    requires n <= |dirty| && PushOf(r, dirty[..n])
    ensures PushOf(r, dirty)
  {
    var i :| 0 <= i < n && IsPush(r, dirty[..n][i]);
    assert IsPush(r, dirty[i]);
  }

  function RowsOf(rows: seq<Row>, task: TaskId): nat {
    if rows == [] then 0 else RowsOf(rows[..|rows| - 1], task) + if rows[|rows| - 1].task == task then 1 else 0
  }

  /** How far the scan gets when insert `i` succeeds exactly if `ok(i)`: to the first failing one. */
  function Reached(dirty: seq<DirtyTask>, ok: nat -> bool, from: nat): (n: nat)
    requires from <= |dirty|
    ensures from <= n <= |dirty|
    ensures forall i :: from <= i < n && Owes(dirty[i]) ==> ok(i)
    ensures n < |dirty| ==> Owes(dirty[n]) && !ok(n)
    decreases |dirty| - from
  {
    if from == |dirty| || (Owes(dirty[from]) && !ok(from)) then from else Reached(dirty, ok, from + 1)
  }

  /** What the scan gets to: nothing if the dirty tasks cannot be listed, else everything before the
      first insert that fails. */
  function Scanned(dirty: Option<seq<DirtyTask>>, ok: nat -> bool): seq<DirtyTask> {
    if dirty.None? then [] else dirty.value[..Reached(dirty.value, ok, 0)]
  }

  /** `None` for `dirty` is a failed listing, `None` for the result an error return. */
  method ReconcileDirtyIntoOutbox(outbox: OutboxRepository, dirty: Option<seq<DirtyTask>>, ok: nat -> bool)
    returns (enqueued: Option<nat>)
    modifies outbox
    ensures Table(outbox.rows, outbox.nextId)
         == Reconciled(Table(old(outbox.rows), old(outbox.nextId)), Scanned(dirty, ok))
    ensures enqueued == if dirty.Some? && Scanned(dirty, ok) == dirty.value
              then Some(|outbox.rows| - |old(outbox.rows)|) else None
  {
    if dirty.None? {
      return None;
    }
    var all := dirty.value;
    var count := 0;
    ghost var start := Table(outbox.rows, outbox.nextId);
    for i := 0 to |all|
      invariant Table(outbox.rows, outbox.nextId) == Reconciled(start, all[..i])
      invariant count == |outbox.rows| - |start.rows|
      invariant Reached(all, ok, 0) == Reached(all, ok, i)
    {
      assert all[..i + 1][..i] == all[..i];
      var d := all[i];
      if d.remote.Some? && d.repo.Some? && d.canonical.Some? {
        if !ok(i) {
          return None;
        }
        var inserted := outbox.EnqueueIfAbsent(d.id, PushFor(d), d.at);
        if inserted {
          count := count + 1;
        }
      }
    }
    assert all[..|all|] == all;
    enqueued := Some(count);
  }

  /** Requeue, then reconcile. Either may fail; the daemon logs that and starts draining anyway. */
  method Recover(outbox: OutboxRepository, dirty: Option<seq<DirtyTask>>, requeues: bool, ok: nat -> bool)
    modifies outbox
    ensures var t := Table(if requeues then Requeue(old(outbox.rows)) else old(outbox.rows), old(outbox.nextId));
            Table(outbox.rows, outbox.nextId) == Reconciled(t, Scanned(dirty, ok))
    ensures requeues && dirty.Some? && (forall i: nat :: ok(i)) ==>
              Table(outbox.rows, outbox.nextId) == Recovered(Table(old(outbox.rows), old(outbox.nextId)), dirty.value)
  {
    if requeues {
      outbox.RequeueOrphanedInflight();
    }
    if dirty.Some? {
      assert dirty.value[..|dirty.value|] == dirty.value;
    }
    var _ := ReconcileDirtyIntoOutbox(outbox, dirty, ok);
  }

  /** The reconcile only appends: one fresh push for each task that owes one and has nothing
      pending, inflight or dead-lettered, and nothing for any other task. */
  lemma {:induction false} ReconcileAddsExactly(t: Table, dirty: seq<DirtyTask>)
    ensures var z := Reconciled(t, dirty).rows;
            && t.rows <= z
            && (forall i :: |t.rows| <= i < |z| ==>
                z[i].status.Pending? && z[i].attempts == 0 && z[i].mutation.UpdateRemote?)
            && (forall i :: |t.rows| <= i < |z| ==> PushOf(z[i], dirty))
            && (forall task :: RowsOf(z[|t.rows|..], task) ==
                 if OwesPush(dirty, task) && Absent(t.rows, task) then 1 else 0)
            && (forall task :: Absent(z, task) <==> Absent(t.rows, task) && !OwesPush(dirty, task))
  {
    assert forall task :: !OwesPush([], task);
    hide OwesPush;
    var z := Reconciled(t, dirty).rows;
    if dirty == [] {
      assert z[|t.rows|..] == [];
    } else {
      var n := |dirty| - 1;
      var mid, d := Reconciled(t, dirty[..n]).rows, dirty[n];
      ReconcileAddsExactly(t, dirty[..n]);
      OwesPushMore(dirty, n);
      forall i | |t.rows| <= i < |z|
        ensures PushOf(z[i], dirty)
      {
        if i < |mid| {
          assert z[i] == mid[i];
          PushOfMore(z[i], dirty, n);
        } else {
          assert IsPush(z[i], dirty[n]);
        }
      }
      if z != mid {
        AbsentAfter(mid, z[|mid|]);
        assert z[|t.rows|..][..|mid| - |t.rows|] == mid[|t.rows|..];
      }
    }
  }

  lemma OwesPushMore(dirty: seq<DirtyTask>, n: nat)
    requires n == |dirty| - 1
    ensures forall task :: OwesPush(dirty, task) <==>
              OwesPush(dirty[..n], task) || (Owes(dirty[n]) && dirty[n].id == task)
  {
    forall task
      ensures OwesPush(dirty, task) <==> OwesPush(dirty[..n], task) || (Owes(dirty[n]) && dirty[n].id == task)
    {
      if OwesPush(dirty[..n], task) {
        var i :| 0 <= i < n && Owes(dirty[..n][i]) && dirty[..n][i].id == task;
        assert Owes(dirty[i]) && dirty[i].id == task;
      }
      if OwesPush(dirty, task) && !(Owes(dirty[n]) && dirty[n].id == task) {
        var i :| 0 <= i < |dirty| && Owes(dirty[i]) && dirty[i].id == task;
        assert Owes(dirty[..n][i]) && dirty[..n][i].id == task;
      }
    }
  }

  lemma AbsentAfter(rows: seq<Row>, row: Row)
    requires row.status.Pending?
    ensures forall task :: Absent(rows + [row], task) <==> Absent(rows, task) && task != row.task
  {
    forall task ensures Absent(rows + [row], task) <==> Absent(rows, task) && task != row.task {
      var more := rows + [row];
      assert more[|rows|] == row;
      if Absent(more, task) {
        forall i | 0 <= i < |rows| && rows[i].task == task ensures rows[i].status.Succeeded? {
          assert more[i] == rows[i];
        }
      }
    }
  }

  /** After recovery nothing is inflight, resolved rows are untouched and in place, and each task
      gains one entry exactly when it owes a push and has no unresolved or dead-lettered entry. */
  lemma RecoveryIsExact(t: Table, dirty: seq<DirtyTask>)
    ensures var z := Recovered(t, dirty).rows;
            && |t.rows| <= |z|
            && (forall i :: 0 <= i < |z| ==> !z[i].status.Inflight?)
            && (forall i :: 0 <= i < |t.rows| && !t.rows[i].status.Inflight? ==> z[i] == t.rows[i])
            && (forall task :: RowsOf(z[|t.rows|..], task) ==
                 if OwesPush(dirty, task) && Absent(t.rows, task) then 1 else 0)
  {
    ReconcileAddsExactly(t.(rows := Requeue(t.rows)), dirty);
    forall task ensures Absent(Requeue(t.rows), task) <==> Absent(t.rows, task) {
      RequeueKeepsAbsent(t.rows, task);
    }
  }

  /** Nothing to insert: every task that owes a push has a blocking sibling. */
  lemma {:induction false} ReconcileIdles(t: Table, dirty: seq<DirtyTask>)
    requires forall i :: 0 <= i < |dirty| && Owes(dirty[i]) ==> !Absent(t.rows, dirty[i].id)
    ensures Reconciled(t, dirty).rows == t.rows
  {
    if dirty != [] {
      ReconcileIdles(t, dirty[..|dirty| - 1]);
    }
  }

  /** A second recovery over the same tasks, however much later, changes nothing. */
  lemma RecoveryIsIdempotent(t: Table, dirty: seq<DirtyTask>, again: seq<DirtyTask>)
    requires forall i :: 0 <= i < |again| && Owes(again[i]) ==> OwesPush(dirty, again[i].id)
    ensures Recovered(Recovered(t, dirty), again).rows == Recovered(t, dirty).rows
  {
    var once := Recovered(t, dirty);
    RecoveryIsExact(t, dirty);
    ReconcileAddsExactly(t.(rows := Requeue(t.rows)), dirty);
    assert Requeue(once.rows) == once.rows;
    ReconcileIdles(once, again);
  }

  /** An interrupted recovery is made good by the next complete one: together they add exactly what
      one complete recovery would have. */
  lemma InterruptedRecoveryResumes(t: Table, dirty: seq<DirtyTask>, n: nat, again: seq<DirtyTask>)
    requires n <= |dirty| && forall task :: OwesPush(dirty, task) <==> OwesPush(again, task)
    ensures var z := Recovered(Recovered(t, dirty[..n]), again).rows;
            && |t.rows| <= |z|
            && (forall i :: 0 <= i < |z| ==> !z[i].status.Inflight?)
            && (forall task :: RowsOf(z[|t.rows|..], task) ==
                 if OwesPush(dirty, task) && Absent(t.rows, task) then 1 else 0)
  {
    var once := Recovered(t, dirty[..n]);
    var z := Recovered(once, again).rows;
    RecoveryIsExact(t, dirty[..n]);
    ReconcileAddsExactly(t.(rows := Requeue(t.rows)), dirty[..n]);
    RecoveryIsExact(once, again);
    forall task
      ensures RowsOf(z[|t.rows|..], task) == if OwesPush(dirty, task) && Absent(t.rows, task) then 1 else 0
    {
      RequeueKeepsAbsent(t.rows, task);
      if OwesPush(dirty[..n], task) {
        var i :| 0 <= i < n && Owes(dirty[..n][i]) && dirty[..n][i].id == task;
        assert Owes(dirty[i]) && dirty[i].id == task;
      }
      assert z[..|once.rows|] == once.rows;
      assert z[|t.rows|..] == once.rows[|t.rows|..] + z[|once.rows|..];
      RowsOfAdd(once.rows[|t.rows|..], z[|once.rows|..], task);
    }
  }

  lemma RequeueKeepsAbsent(rows: seq<Row>, task: TaskId)
    ensures Absent(Requeue(rows), task) <==> Absent(rows, task)
  {
    if Absent(Requeue(rows), task) {
      forall i | 0 <= i < |rows| && rows[i].task == task ensures rows[i].status.Succeeded? {
        assert Requeue(rows)[i].task == task;
      }
    }
  }

  lemma {:induction false} RowsOfAdd(a: seq<Row>, b: seq<Row>, task: TaskId)
    ensures RowsOf(a + b, task) == RowsOf(a, task) + RowsOf(b, task)
  {
    if b == [] {
      assert a + b == a;
    } else {
      RowsOfAdd(a, b[..|b| - 1], task);
      assert (a + b)[..|a + b| - 1] == a + b[..|b| - 1];
    }
  }

  // ---------- Recovery as a run of the protocol -------------------------------

  function ReconcileRun(dirty: seq<DirtyTask>): seq<Action> {
    if dirty == [] then []
    else
      var rest, d := ReconcileRun(dirty[..|dirty| - 1]), dirty[|dirty| - 1];
      if Owes(d) then rest + [EnqueueIfAbsent(d.id, PushFor(d), d.at)] else rest
  }

  lemma ExecNothing(s: State)
    ensures Exec(s, []) == Some(s)
  {
  }

  lemma {:induction false} ReconcileRuns(s: State, dirty: seq<DirtyTask>)
    ensures var end := Exec(s, ReconcileRun(dirty));
            end.Some? && Table(end.value.rows, end.value.nextId) == Reconciled(Table(s.rows, s.nextId), dirty)
  {
    hide Exec, InsertIfAbsent;
    if dirty != [] {
      var n := |dirty| - 1;
      ReconcileRuns(s, dirty[..n]);
      if Owes(dirty[n]) {
        ExecSnoc(s, ReconcileRun(dirty[..n]), EnqueueIfAbsent(dirty[n].id, PushFor(dirty[n]), dirty[n].at));
      }
    } else {
      ExecNothing(s);
    }
  }

  /** An entry inserted only when every sibling has succeeded overtakes nothing, whatever its stamp. */
  lemma {:induction false} ReconcileKeepsOrder(t: Table, dirty: seq<DirtyTask>)
    requires Orderly(t.rows)
    ensures Orderly(Reconciled(t, dirty).rows)
  {
    hide Orderly, NotEarlier;
    if dirty != [] {
      var mid, d := Reconciled(t, dirty[..|dirty| - 1]), dirty[|dirty| - 1];
      ReconcileKeepsOrder(t, dirty[..|dirty| - 1]);
      if Owes(d) && Absent(mid.rows, d.id) {
        AppendOrderlyExactlyWhen(mid.rows, NewRow(mid.nextId, d.id, PushFor(d), d.at));
        AbsentIsNotEarlier(mid.rows, d.id, d.at);
      }
    }
  }

  lemma AbsentIsNotEarlier(rows: seq<Row>, task: TaskId, at: Time)
    requires Absent(rows, task)
    ensures NotEarlier(rows, task, at)
  {
  }

  /** Recovery is a run of the protocol, so everything proved of runs holds after it; it also keeps
      the FIFO order, whatever the clock shows while it runs. */
  lemma RecoveryIsARun(s: State, dirty: seq<DirtyTask>)
    requires Inv(s) && s.place.Idle?
    ensures var end := Exec(s, [RequeueOrphans] + ReconcileRun(dirty));
            && end.Some? && Inv(end.value)
            && end.value.rows == Recovered(Table(s.rows, s.nextId), dirty).rows
            && (Orderly(s.rows) ==> Orderly(end.value.rows))
  {
    var s' := Step(s, RequeueOrphans);
    ExecSnoc(s, [], RequeueOrphans);
    assert [] + [RequeueOrphans] == [RequeueOrphans];
    ReconcileRuns(s', dirty);
    ExecJoin(s, [RequeueOrphans], ReconcileRun(dirty));
    EveryRunKeeps(s, [RequeueOrphans] + ReconcileRun(dirty));
    if Orderly(s.rows) {
      RequeueHealthy(s.rows, s.nextId);
      ReconcileKeepsOrder(Table(s'.rows, s'.nextId), dirty);
    }
  }

  lemma {:induction false} ExecJoin(s: State, first: seq<Action>, second: seq<Action>)
    requires Exec(s, first).Some? && Exec(Exec(s, first).value, second).Some?
    ensures Exec(s, first + second) == Exec(Exec(s, first).value, second)
  {
    if second == [] {
      assert first + second == first;
    } else {
      assert (first + second)[..|first + second| - 1] == first + second[..|second| - 1];
      ExecJoin(s, first, second[..|second| - 1]);
    }
  }
}
