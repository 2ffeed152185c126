/** The outbox table: its rows, the row operations of the repository as functions on the
    table (rows are kept in rowid order, oldest insertion first), and the ordering contract
    those operations keep. */
module Outbox {
  import opened Options

  type TaskId = nat
  type Time = int

  datatype Mutation =
    | UpdateRemote(repo: string, remoteId: string)
    | AddItem(project: string, issueNode: string)
    | CreateDraftIssue(project: string, title: string, body: string)
    | UpdateDraftIssue(item: string)
    | ConvertDraftToIssue(item: string, repo: string)
    | SetProjectStatus(project: string, item: string, field: string, option: string)
    | SetProjectPriority(project: string, item: string, field: string, option: string)
    | SetProjectType(project: string, item: string, field: string, choice: Option<string>, local: Option<string>)
    | SetIssueType(issueNode: string, choice: Option<string>, local: Option<string>)
    | AddSubIssue(parent: string, child: string)
    | RemoveSubIssue(parent: string, child: string)
    | AddBlockedBy(blocked: string, blocker: string)
    | RemoveBlockedBy(blocked: string, blocker: string)

  datatype Status = Pending | Inflight | Succeeded | Failed

  datatype Row = Row(
    id: nat,
    task: TaskId,
    mutation: Mutation,
    status: Status,
    attempts: nat,
    nextAttempt: Option<Time>,
    enqueuedAt: Time)

  function NewRow(id: nat, task: TaskId, mutation: Mutation, at: Time): Row {
    Row(id, task, mutation, Pending, 0, None, at)
  }

  predicate Terminal(r: Row) {
    r.status.Succeeded? || r.status.Failed?
  }

  // ---------- Row operations ------------------------------------------------

  predicate TypeProjection(m: Mutation) {
    m.SetIssueType? || m.SetProjectType?
  }

  predicate SameTypeRail(a: Mutation, b: Mutation) {
    (a.SetIssueType? && b.SetIssueType?) || (a.SetProjectType? && b.SetProjectType?)
  }

  /** A live type projection of the same kind, or a dead-lettered one with the same payload. */
  predicate DuplicateProjection(rows: seq<Row>, task: TaskId, m: Mutation) {
    exists i :: 0 <= i < |rows| && rows[i].task == task && SameTypeRail(rows[i].mutation, m)
                && (!Terminal(rows[i]) || (rows[i].status.Failed? && rows[i].mutation == m))
  }

  function Insert(rows: seq<Row>, row: Row): seq<Row> {
    if TypeProjection(row.mutation) && DuplicateProjection(rows, row.task, row.mutation) then rows else rows + [row]
  }

  /** Every sibling succeeded: nothing pending, inflight or dead-lettered for the task. */
  predicate Absent(rows: seq<Row>, task: TaskId) {
    forall i :: 0 <= i < |rows| && rows[i].task == task ==> rows[i].status.Succeeded?
  }

  function InsertIfAbsent(rows: seq<Row>, row: Row): seq<Row> {
    if Absent(rows, row.task) then rows + [row] else rows
  }

  /** The claim's order: enqueue time, ties broken by rowid. */
  predicate Before(rows: seq<Row>, i: nat, j: nat)
    requires i < |rows| && j < |rows|
  {
    rows[i].enqueuedAt < rows[j].enqueuedAt || (rows[i].enqueuedAt == rows[j].enqueuedAt && i < j)
  }

  predicate Blocks(rows: seq<Row>, i: nat, j: nat)
    requires i < |rows| && j < |rows|
  {
    rows[i].task == rows[j].task && (rows[i].status.Inflight? || (rows[i].status.Pending? && Before(rows, i, j)))
  }

  predicate Eligible(rows: seq<Row>, j: nat, now: Time)
    requires j < |rows|
  {
    && rows[j].status.Pending?
    && (rows[j].nextAttempt.Some? ==> rows[j].nextAttempt.value <= now)
    && forall i :: 0 <= i < |rows| ==> !Blocks(rows, i, j)
  }

  /** Row `j` is the one a claim at `now` returns: the first eligible row in the claim's order. */
  predicate IsClaim(rows: seq<Row>, j: nat, now: Time) {
    && j < |rows|
    && Eligible(rows, j, now)
    && forall i :: 0 <= i < |rows| && i != j && Eligible(rows, i, now) ==> Before(rows, j, i)
  }

  function Claimed(rows: seq<Row>, j: nat): seq<Row>
    requires j < |rows|
  {
    rows[j := rows[j].(status := Inflight)]
  }

  function AfterSuccess(r: Row): Row {
    r.(status := Succeeded)
  }

  function AfterFailure(r: Row): Row {
    r.(status := Failed, attempts := r.attempts + 1)
  }

  function AfterRetry(r: Row, next: Time): Row {
    r.(status := Pending, attempts := r.attempts + 1, nextAttempt := Some(next))
  }

  function AfterRequeue(r: Row): Row {
    if r.status.Inflight? then r.(status := Pending, nextAttempt := None) else r
  }

  function MarkSucceeded(rows: seq<Row>, id: nat): seq<Row> {
    seq(|rows|, i requires 0 <= i < |rows| => if rows[i].id == id then AfterSuccess(rows[i]) else rows[i])
  }

  function MarkFailed(rows: seq<Row>, id: nat): seq<Row> {
    seq(|rows|, i requires 0 <= i < |rows| => if rows[i].id == id then AfterFailure(rows[i]) else rows[i])
  }

  function RecordRetry(rows: seq<Row>, id: nat, next: Time): seq<Row> {
    seq(|rows|, i requires 0 <= i < |rows| => if rows[i].id == id then AfterRetry(rows[i], next) else rows[i])
  }

  function Requeue(rows: seq<Row>): seq<Row> {
    seq(|rows|, i requires 0 <= i < |rows| => AfterRequeue(rows[i]))
  }

  predicate PendingAdd(r: Row, task: TaskId) {
    r.task == task && r.status.Pending? && r.mutation.AddItem?
  }

  /** The detach scrub: every pending board add of the task disappears, nothing else does. */
  function DeletePendingAdds(rows: seq<Row>, task: TaskId): seq<Row> {
    if rows == [] then []
    else
      var rest := DeletePendingAdds(rows[..|rows| - 1], task);
      if PendingAdd(rows[|rows| - 1], task) then rest else rest + [rows[|rows| - 1]]
  }

  // ---------- The table's shape, whatever the stamps ----------------------------

  predicate UniqueIds(rows: seq<Row>, nextId: nat) {
    && (forall i, j :: 0 <= i < j < |rows| ==> rows[i].id != rows[j].id)
    && (forall i :: 0 <= i < |rows| ==> rows[i].id < nextId)
  }

  /** No task has two entries in flight. */
  predicate OneInflight(rows: seq<Row>) {
    forall i, j :: 0 <= i < j < |rows| && rows[i].task == rows[j].task && rows[i].status.Inflight? ==>
      !rows[j].status.Inflight?
  }

  /** What every row operation keeps without any assumption on enqueue times. */
  predicate Healthy(rows: seq<Row>, nextId: nat) {
    UniqueIds(rows, nextId) && OneInflight(rows)
  }

  predicate UnderCap(rows: seq<Row>, cap: nat) {
    forall i :: 0 <= i < |rows| && !Terminal(rows[i]) ==> rows[i].attempts < cap
  }

  // ---------- The ordering contract, which does depend on stamps -----------------

  /** Per task, in rowid order: a terminal prefix, at most one inflight head, then pending rows. */
  predicate Fifo(rows: seq<Row>) {
    forall i, j :: 0 <= i < j < |rows| && rows[i].task == rows[j].task && !Terminal(rows[i]) ==> rows[j].status.Pending?
  }

  /** A row is not stamped earlier than an unresolved older sibling. */
  predicate Clocked(rows: seq<Row>) {
    forall i, j :: 0 <= i < j < |rows| && rows[i].task == rows[j].task && !Terminal(rows[i]) ==>
      rows[i].enqueuedAt <= rows[j].enqueuedAt
  }

  predicate Orderly(rows: seq<Row>) {
    Fifo(rows) && Clocked(rows)
  }

  /** `at` is not earlier than the stamp of any unresolved entry of the task. */
  predicate NotEarlier(rows: seq<Row>, task: TaskId, at: Time) {
    forall i :: 0 <= i < |rows| && rows[i].task == task && !Terminal(rows[i]) ==> rows[i].enqueuedAt <= at
  }

  // ---------- What each row operation keeps ---------------------------------------

  lemma AppendHealthy(rows: seq<Row>, row: Row, nextId: nat)
    requires Healthy(rows, nextId) && row.status.Pending? && row.id == nextId
    ensures Healthy(rows + [row], nextId + 1) && Healthy(rows, nextId + 1)
  {
  }

  /** Appending a pending row keeps the order if and only if it is not stamped too early. */
  lemma AppendOrderlyExactlyWhen(rows: seq<Row>, row: Row)
    requires Orderly(rows) && row.status.Pending?
    ensures Orderly(rows + [row]) <==> NotEarlier(rows, row.task, row.enqueuedAt)
  {
    var all := rows + [row];
    if Orderly(all) {
      forall i | 0 <= i < |rows| && rows[i].task == row.task && !Terminal(rows[i])
        ensures rows[i].enqueuedAt <= row.enqueuedAt
      {
        assert all[i] == rows[i] && all[|rows|] == row;
      }
    }
  }

  /** Whatever the stamps, a claimed task has nothing else in flight, and an older-inserted sibling
      is overtaken if and only if it is pending and carries a later stamp. */
  lemma ClaimOvertakesExactlyLaterStamps(rows: seq<Row>, j: nat, now: Time, i: nat)
    requires IsClaim(rows, j, now) && i < |rows| && i != j && rows[i].task == rows[j].task
    ensures !rows[i].status.Inflight?
    ensures i < j ==> (!Terminal(rows[i]) <==> rows[i].status.Pending? && rows[j].enqueuedAt < rows[i].enqueuedAt)
  {
    assert !Blocks(rows, i, j);
  }

  /** On an ordered table the eligible rows are exactly the due heads: pending, not backed off past
      `now`, with every older sibling terminal. A head that is backed off blocks its whole task. */
  lemma EligibleIsTheDueHead(rows: seq<Row>, j: nat, now: Time)
    requires Orderly(rows) && j < |rows|
    ensures Eligible(rows, j, now) <==>
              && rows[j].status == Pending
              && (match rows[j].nextAttempt case Some(due) => due <= now case None => true)
              && forall i :: 0 <= i < j && rows[i].task == rows[j].task ==> Terminal(rows[i])
  {
    forall i | 0 <= i < |rows| && i != j
      ensures rows[j].status.Pending? ==> (Blocks(rows, i, j) <==>
                rows[i].task == rows[j].task && !Terminal(rows[i]) && (i < j || rows[i].status.Inflight?))
    {
    }
  }

  /** A claim only ever takes a row whose older siblings are all terminal. */
  lemma ClaimTakesTheHead(rows: seq<Row>, j: nat, now: Time)
    requires Clocked(rows) && IsClaim(rows, j, now)
    ensures forall i :: 0 <= i < j && rows[i].task == rows[j].task ==> Terminal(rows[i])
  {
    forall i | 0 <= i < j && rows[i].task == rows[j].task ensures Terminal(rows[i]) {
      ClaimOvertakesExactlyLaterStamps(rows, j, now, i);
    }
  }

  lemma ClaimHealthy(rows: seq<Row>, j: nat, now: Time, nextId: nat)
    requires Healthy(rows, nextId) && IsClaim(rows, j, now)
    ensures Healthy(Claimed(rows, j), nextId)
    ensures Orderly(rows) ==> Orderly(Claimed(rows, j))
  {
    var after := Claimed(rows, j);
    forall i | 0 <= i < |rows| && i != j && rows[i].task == rows[j].task
      ensures !rows[i].status.Inflight?
    {
      ClaimOvertakesExactlyLaterStamps(rows, j, now, i);
    }
    if Orderly(rows) {
      ClaimTakesTheHead(rows, j, now);
      forall a, b | 0 <= a < b < |after| && after[a].task == after[b].task && !Terminal(after[a])
        ensures after[b].status.Pending? && after[a].enqueuedAt <= after[b].enqueuedAt
      {
        assert b != j;
      }
    }
  }

  /** The claim keeps FIFO exactly when no older-inserted pending sibling carries a later enqueue
      time than the claimed row. */
  lemma ClaimKeepsFifoExactlyWhenClocked(rows: seq<Row>, j: nat, now: Time)
    requires Fifo(rows) && IsClaim(rows, j, now)
    ensures Fifo(Claimed(rows, j)) <==>
            forall i :: 0 <= i < j && rows[i].task == rows[j].task && rows[i].status.Pending? ==>
              rows[i].enqueuedAt <= rows[j].enqueuedAt
  {
    var after := Claimed(rows, j);
    forall i | 0 <= i < j && rows[i].task == rows[j].task
      ensures !rows[i].status.Inflight?
      ensures rows[i].status.Pending? ==> rows[j].enqueuedAt < rows[i].enqueuedAt
    {
      ClaimOvertakesExactlyLaterStamps(rows, j, now, i);
    }
    if forall i :: 0 <= i < j && rows[i].task == rows[j].task && rows[i].status.Pending? ==>
        rows[i].enqueuedAt <= rows[j].enqueuedAt {
      forall a, b | 0 <= a < b < |after| && after[a].task == after[b].task && !Terminal(after[a])
        ensures after[b].status.Pending?
      {
        assert b != j;
      }
    } else {
      var i :| 0 <= i < j && rows[i].task == rows[j].task && rows[i].status.Pending?
          && rows[j].enqueuedAt < rows[i].enqueuedAt;
      assert !Terminal(after[i]) && !after[j].status.Pending?;
    }
  }

  /** Stamps out of insertion order let the younger row overtake the older one. */
  lemma ClockStepOvertakes()
    ensures var rows := [NewRow(0, 7, AddSubIssue("p", "c"), 10), NewRow(1, 7, RemoveSubIssue("p", "c"), 5)];
            Fifo(rows) && IsClaim(rows, 1, 20) && !Fifo(Claimed(rows, 1))
  {
    var rows := [NewRow(0, 7, AddSubIssue("p", "c"), 10), NewRow(1, 7, RemoveSubIssue("p", "c"), 5)];
    assert Blocks(rows, 1, 0);
    assert forall i :: 0 <= i < 2 ==> !Blocks(rows, i, 1);
    var after := Claimed(rows, 1);
    assert !Terminal(after[0]) && after[0].task == after[1].task && !after[1].status.Pending?;
  }

  /** Any single-row change that keeps identity and turns an inflight row terminal or pending. */
  lemma ResolveHealthy(rows: seq<Row>, after: seq<Row>, k: nat, nextId: nat)
    requires Healthy(rows, nextId)
    requires k < |rows| == |after| && rows[k].status.Inflight?
    requires forall i :: 0 <= i < |rows| && i != k ==> after[i] == rows[i]
    requires after[k].id == rows[k].id && after[k].task == rows[k].task && after[k].enqueuedAt == rows[k].enqueuedAt
    requires Terminal(after[k]) || after[k].status.Pending?
    ensures Healthy(after, nextId)
    ensures Orderly(rows) ==> Orderly(after)
  {
    if Orderly(rows) {
      forall a, b | 0 <= a < b < |after| && after[a].task == after[b].task && !Terminal(after[a])
        ensures after[b].status.Pending? && after[a].enqueuedAt <= after[b].enqueuedAt
      {
        assert !Terminal(rows[a]) && b != k;
      }
    }
  }

  lemma RequeueHealthy(rows: seq<Row>, nextId: nat)
    requires Healthy(rows, nextId)
    ensures Healthy(Requeue(rows), nextId)
    ensures Orderly(rows) ==> Orderly(Requeue(rows))
  {
    var after := Requeue(rows);
    if Orderly(rows) {
      forall a, b | 0 <= a < b < |after| && after[a].task == after[b].task && !Terminal(after[a])
        ensures after[b].status.Pending? && after[a].enqueuedAt <= after[b].enqueuedAt
      {
        assert !Terminal(rows[a]);
      }
    }
  }

  /** `places` picks the rows of `part` out of `rows`, in order. */
  predicate Picks(part: seq<Row>, rows: seq<Row>, places: seq<nat>) {
    && |places| == |part|
    && (forall i :: 0 <= i < |places| ==> places[i] < |rows| && part[i] == rows[places[i]])
    && (forall i, j :: 0 <= i < j < |places| ==> places[i] < places[j])
  }

  /** `part` is what remains of `rows` when some rows are taken out. */
  ghost predicate Remains(part: seq<Row>, rows: seq<Row>) {
    exists places :: Picks(part, rows, places)
  }

  /** The detach scrub takes out exactly the task's pending adds and keeps the others in order. */
  lemma {:induction false} DeleteKeepsOthers(rows: seq<Row>, task: TaskId)
    ensures var after := DeletePendingAdds(rows, task);
            && (forall r :: r in after <==> r in rows && !PendingAdd(r, task))
            && Remains(after, rows)
  {
    if rows == [] {
      assert Picks([], rows, []);
    } else {
      var n := |rows| - 1;
      DeleteKeepsOthers(rows[..n], task);
      assert rows == rows[..n] + [rows[n]];
      var rest := DeletePendingAdds(rows[..n], task);
      var places :| Picks(rest, rows[..n], places);
      if PendingAdd(rows[n], task) {
        assert Picks(rest, rows, places);
      } else {
        assert Picks(rest + [rows[n]], rows, places + [n]);
      }
    }
  }

  lemma RemainsHealthy(part: seq<Row>, rows: seq<Row>, nextId: nat)
    requires Remains(part, rows) && Healthy(rows, nextId)
    ensures Healthy(part, nextId)
    ensures Orderly(rows) ==> Orderly(part)
  {
    var places :| Picks(part, rows, places);
    forall i, j | 0 <= i < j < |part|
      ensures part[i].id != part[j].id
      ensures part[i].task == part[j].task && part[i].status.Inflight? ==> !part[j].status.Inflight?
      ensures Orderly(rows) && part[i].task == part[j].task && !Terminal(part[i]) ==>
                part[j].status.Pending? && part[i].enqueuedAt <= part[j].enqueuedAt
    {
      assert places[i] < places[j];
    }
  }

  lemma DeleteHealthy(rows: seq<Row>, task: TaskId, nextId: nat)
    requires Healthy(rows, nextId)
    ensures var after := DeletePendingAdds(rows, task);
            && Healthy(after, nextId) && (Orderly(rows) ==> Orderly(after))
            && (forall r :: r in after <==> r in rows && !PendingAdd(r, task))
  {
    DeleteKeepsOthers(rows, task);
    RemainsHealthy(DeletePendingAdds(rows, task), rows, nextId);
  }
}
