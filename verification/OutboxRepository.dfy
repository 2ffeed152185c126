/** The outbox repository behind the drainer's port. */
module OutboxRepo {
  import opened Options
  import opened Outbox

  /** Every row but the one named `id` is as before and in place. */
  predicate OnlyChanges(before: seq<Row>, after: seq<Row>, id: nat) {
    |after| == |before| && forall i :: 0 <= i < |before| && before[i].id != id ==> after[i] == before[i]
  }

  /** The rows named `id` keep identity, mutation and stamp, and are now `status` after `failures` more failures. */
  predicate NowIs(before: seq<Row>, after: seq<Row>, id: nat, status: Status, failures: nat) {
    |after| == |before| && forall i :: 0 <= i < |before| && before[i].id == id ==>
      && after[i].id == id && after[i].task == before[i].task && after[i].mutation == before[i].mutation
      && after[i].enqueuedAt == before[i].enqueuedAt
      && after[i].status == status && after[i].attempts == before[i].attempts + failures
  }

  class OutboxRepository {
    var rows: seq<Row>
    var nextId: nat

    constructor ()
      ensures rows == [] && nextId == 0
    {
      rows, nextId := [], 0;
    }

    /** A type projection is dropped when one of its kind is still live for the task, or the same
        one was dead-lettered; anything else is appended as a fresh pending row. */
    method Enqueue(task: TaskId, mutation: Mutation, at: Time)
      modifies this
      ensures nextId == old(nextId) + 1
      ensures if (mutation.SetIssueType? || mutation.SetProjectType?)
                 && exists i :: 0 <= i < |old(rows)| && old(rows)[i].task == task
                      && old(rows)[i].mutation.SetIssueType? == mutation.SetIssueType?
                      && old(rows)[i].mutation.SetProjectType? == mutation.SetProjectType?
                      && (old(rows)[i].status.Pending? || old(rows)[i].status.Inflight?
                          || (old(rows)[i].status.Failed? && old(rows)[i].mutation == mutation))
              then rows == old(rows)
              else rows == old(rows) + [Row(old(nextId), task, mutation, Pending, 0, None, at)]
      ensures rows == Insert(old(rows), NewRow(old(nextId), task, mutation, at))
    {
      rows := Insert(rows, NewRow(nextId, task, mutation, at));
      nextId := nextId + 1;
    }

    /** The check and the insert are one transaction. */
    method EnqueueIfAbsent(task: TaskId, mutation: Mutation, at: Time) returns (inserted: bool)
      modifies this
      ensures nextId == old(nextId) + 1
      ensures inserted <==>
                !exists i :: 0 <= i < |old(rows)| && old(rows)[i].task == task
                  && (old(rows)[i].status.Pending? || old(rows)[i].status.Inflight? || old(rows)[i].status.Failed?)
      ensures rows == if inserted then old(rows) + [Row(old(nextId), task, mutation, Pending, 0, None, at)]
                else old(rows)
      ensures rows == InsertIfAbsent(old(rows), NewRow(old(nextId), task, mutation, at))
    {
      inserted := Absent(rows, task);
      rows := InsertIfAbsent(rows, NewRow(nextId, task, mutation, at));
      nextId := nextId + 1;
    }

    /** Flip the first eligible row, in claim order, to inflight and return it. */
    method ClaimNextEligible(now: Time) returns (claim: Option<Row>, j: nat)
      modifies this`rows
      ensures claim.Some? ==>
                IsClaim(old(rows), j, now) && rows == Claimed(old(rows), j) && claim.value == rows[j]
      ensures claim.None? ==>
                rows == old(rows) && forall i :: 0 <= i < |rows| ==> !Eligible(rows, i, now)
    {
      var found := false;
      j := 0;
      for i := 0 to |rows|
        invariant found ==> j < i && Eligible(rows, j, now)
        invariant found ==> forall k :: 0 <= k < i && k != j && Eligible(rows, k, now) ==> Before(rows, j, k)
        invariant !found ==> forall k :: 0 <= k < i ==> !Eligible(rows, k, now)
      {
        if Eligible(rows, i, now) && (!found || Before(rows, i, j)) {
          found, j := true, i;
        }
      }
      if found {
        rows := Claimed(rows, j);
        claim := Some(rows[j]);
      } else {
        claim := None;
      }
    }

    method MarkSucceeded(id: nat)
      modifies this`rows
      ensures OnlyChanges(old(rows), rows, id) && NowIs(old(rows), rows, id, Succeeded, 0)
      ensures rows == Outbox.MarkSucceeded(old(rows), id)
    {
      rows := Outbox.MarkSucceeded(rows, id);
    }

    method MarkFailed(id: nat)
      modifies this`rows
      ensures OnlyChanges(old(rows), rows, id) && NowIs(old(rows), rows, id, Failed, 1)
      ensures rows == Outbox.MarkFailed(old(rows), id)
    {
      rows := Outbox.MarkFailed(rows, id);
    }

    method RecordRetry(id: nat, next: Time)
      modifies this`rows
      ensures OnlyChanges(old(rows), rows, id) && NowIs(old(rows), rows, id, Pending, 1)
      ensures forall i :: 0 <= i < |rows| && rows[i].id == id ==> rows[i].nextAttempt == Some(next)
      ensures rows == Outbox.RecordRetry(old(rows), id, next)
    {
      rows := Outbox.RecordRetry(rows, id, next);
    }

    method RequeueOrphanedInflight()
      modifies this`rows
      ensures rows == Requeue(old(rows))
      ensures forall i :: 0 <= i < |rows| ==> !rows[i].status.Inflight?
      ensures |rows| == |old(rows)| && forall i :: 0 <= i < |rows| ==>
                rows[i] == if old(rows)[i].status.Inflight?
                           then old(rows)[i].(status := Pending, nextAttempt := None) else old(rows)[i]
    {
      rows := Requeue(rows);
    }

    method DeletePendingAddItems(task: TaskId)
      modifies this`rows
      ensures Remains(rows, old(rows))
      ensures forall r :: r in rows <==> r in old(rows) && !(r.task == task && r.status.Pending? && r.mutation.AddItem?)
      ensures rows == DeletePendingAdds(old(rows), task)
    {
      DeleteKeepsOthers(rows, task);
      rows := DeletePendingAdds(rows, task);
    }
  }
}
