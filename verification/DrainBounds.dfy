/** How long one drain pass can run, and how many drafts a task can ever get. */
module DrainBounds {
  import opened Options
  import opened Outbox
  import opened Protocol

  // ---------- A potential that every drainer step lowers ---------------------

  /** Steps one attempt of an ordinary mutation can take, its claim included. */
  const LEAF: nat := 5

  function Times(n: nat, x: nat): nat {
    if n == 0 then 0 else x + Times(n - 1, x)
  }

  /** The whole future of a freshly enqueued follow-up. */
  function Future(cap: nat): nat {
    Times(cap, LEAF)
  }

  predicate IsLeaf(m: Mutation) {
    !m.AddItem? && !m.CreateDraftIssue? && !m.ConvertDraftToIssue?
  }

  /** Steps one attempt can take, with the future of every follow-up it may enqueue. */
  function Attempt(m: Mutation, cap: nat): nat {
    if IsLeaf(m) then LEAF
    else if m.ConvertDraftToIssue? then 7 + Future(cap)
    else 7 + 3 * (1 + Future(cap))
  }

  function AttemptsLeft(r: Row, cap: nat): nat {
    if r.attempts < cap then cap - r.attempts else 1
  }

  function Weight(r: Row, cap: nat): nat {
    if Terminal(r) then 0
    else if r.status.Pending? then Times(AttemptsLeft(r, cap), Attempt(r.mutation, cap))
    else Times(AttemptsLeft(r, cap) - 1, Attempt(r.mutation, cap))
  }

  function Total(rows: seq<Row>, cap: nat): nat {
    if rows == [] then 0 else Total(rows[..|rows| - 1], cap) + Weight(rows[|rows| - 1], cap)
  }

  function Inside(p: Place, cap: nat): nat {
    match p
    case Idle => 0
    case Sweeping(left) => Times(left, 1 + Future(cap)) + 1
    case Applying(e) => Attempt(e.mutation, cap) - 1
    case CallCreate(_) => 4 + 3 * (1 + Future(cap))
    case CallAdd(_) => 5 + 3 * (1 + Future(cap))
    case Minted(_, _) => 3 + 3 * (1 + Future(cap))
    case Attached(_, _) => 4 + 3 * (1 + Future(cap))
    case Targeted(_, _) => 3 + 3 * (1 + Future(cap))
    case FollowUps(_, _, left) => 2 + Times(left, 1 + Future(cap))
    case CallConvert(_) => 5 + Future(cap)
    case Converted(_, _, _) => 4 + Future(cap)
    case TypeFollowUp(_) => 3 + Future(cap)
    case CallOther(_) => 3
    case Applied(_) => 2
    case Fresh(_) => 1
    case Clash(_) => 2
    case ClashFlagged(_) => 1
    case Failing(_) => 1
  }

  /** An upper bound on the port calls a pass standing at `s` can still make. */
  function Potential(s: State): nat {
    Total(s.rows, s.cap) + Inside(s.place, s.cap)
  }

  lemma TotalAppend(rows: seq<Row>, row: Row, cap: nat)
    ensures Total(rows + [row], cap) == Total(rows, cap) + Weight(row, cap)
  {
    assert (rows + [row])[..|rows|] == rows;
  }

  lemma {:induction false} TotalUpdate(rows: seq<Row>, after: seq<Row>, k: nat, cap: nat)
    requires k < |rows| == |after|
    requires forall i :: 0 <= i < |rows| && i != k ==> after[i] == rows[i]
    ensures Total(after, cap) == Total(rows, cap) - Weight(rows[k], cap) + Weight(after[k], cap)
  {
    var n := |rows| - 1;
    if k == n {
      assert rows[..n] == after[..n];
    } else {
      TotalUpdate(rows[..n], after[..n], k, cap);
    }
  }

  lemma AppendCosts(s: State, task: TaskId, m: Option<Mutation>, at: Time)
    requires s.cap > 0 && (m.Some? ==> IsLeaf(m.value))
    ensures Total(AppendSome(s, task, m, at).rows, s.cap) <= Total(s.rows, s.cap) + Future(s.cap)
  {
    if m.Some? {
      TotalAppend(s.rows, NewRow(s.nextId, task, m.value, at), s.cap);
    }
  }

  /** Resolving the owned inflight row never raises the table's total. */
  lemma ResolveCosts(s: State, a: Action)
    requires Inv(s) && Enabled(s, a) && Resolves(a)
    ensures Total(Step(s, a).rows, s.cap) <= Total(s.rows, s.cap)
  {
    var k := ResolveTouches(s, a);
    hide Guarded, Healthy, Step;
    TotalUpdate(s.rows, Step(s, a).rows, k, s.cap);
  }

  lemma ClaimCosts(s: State, j: nat, now: Time)
    requires Inv(s) && Enabled(s, Claim(j, now))
    ensures Total(Claimed(s.rows, j), s.cap) == Total(s.rows, s.cap) - Attempt(s.rows[j].mutation, s.cap)
  {
    TotalUpdate(s.rows, Claimed(s.rows, j), j, s.cap);
  }

  /** What a step may add to the table, at most. */
  function Adds(a: Action, cap: nat): nat {
    if a.SweepOne? || a.FollowUp? || a.FollowUpType? then Future(cap) else 0
  }

  lemma ThreeTimes(x: nat)
    ensures Times(3, x) == 3 * x
  {
    assert Times(3, x) == x + Times(2, x);
    assert Times(2, x) == x + Times(1, x);
  }

  /** Inside an entry the drainer's own countdown pays for each step and for what it enqueues. */
  lemma InsideLowers(s: State, a: Action)
    requires Guarded(s) && Enabled(s, a) && ByDrainer(a) && !a.Claim?
    ensures Inside(Step(s, a).place, s.cap) + Adds(a, s.cap) < Inside(s.place, s.cap)
  {
    if a.Load? {
      LoadLowers(s);
    } else if a.SweepOne? || a.FollowUp? || a.FollowUpType? {
      FollowUpLowers(s, a);
    } else {
      AnswerLowers(s, a);
    }
  }

  lemma FollowUpLowers(s: State, a: Action)
    requires Guarded(s) && Enabled(s, a) && (a.SweepOne? || a.FollowUp? || a.FollowUpType?)
    ensures Inside(Step(s, a).place, s.cap) + Adds(a, s.cap) < Inside(s.place, s.cap)
  {
    hide Future, FollowUpFits, HasNode, HasItem, IssueHandle;
  }

  lemma AnswerLowers(s: State, a: Action)
    requires Guarded(s) && Enabled(s, a) && ByDrainer(a) && !a.Claim? && !a.Load?
    requires !a.SweepOne? && !a.FollowUp? && !a.FollowUpType?
    ensures Inside(Step(s, a).place, s.cap) < Inside(s.place, s.cap)
  {
    ThreeTimes(1 + Future(s.cap));
    hide Future, AppendSome, FollowUpFits, HasNode, HasItem, IssueHandle, Route;
  }

  lemma LoadLowers(s: State)
    requires Guarded(s) && Enabled(s, Load)
    ensures Inside(Step(s, Load).place, s.cap) < Inside(s.place, s.cap)
  {
    ThreeTimes(1 + Future(s.cap));
    hide Future;
  }

  lemma TotalStep(s: State, a: Action)
    requires Inv(s) && Enabled(s, a) && ByDrainer(a) && !a.Claim?
    ensures Total(Step(s, a).rows, s.cap) <= Total(s.rows, s.cap) + Adds(a, s.cap)
  {
    if Resolves(a) {
      ResolveCosts(s, a);
    } else if a.SweepOne? || a.FollowUp? || a.FollowUpType? {
      AppendCosts(s, if a.SweepOne? then a.task else s.place.e.task, a.follow, a.at);
    }
  }

  lemma StepLowers(s: State, a: Action)
    requires Inv(s) && Enabled(s, a) && ByDrainer(a)
    ensures Potential(Step(s, a)) < Potential(s)
  {
    if a.Claim? {
      ClaimCosts(s, a.j, a.now);
    } else {
      InsideLowers(s, a);
      TotalStep(s, a);
    }
  }

  // ---------- What the rest of the world adds ---------------------------------

  function DrainerSteps(run: seq<Action>): nat {
    if run == [] then 0 else DrainerSteps(run[..|run| - 1]) + if ByDrainer(run[|run| - 1]) then 1 else 0
  }

  /** What a requeue gives back: one attempt for each orphaned row. */
  function Reclaimed(rows: seq<Row>, cap: nat): nat {
    if rows == [] then 0
    else Reclaimed(rows[..|rows| - 1], cap)
         + if rows[|rows| - 1].status.Inflight? then Attempt(rows[|rows| - 1].mutation, cap) else 0
  }

  /** The work an outside step hands to the drainer: all attempts of a new entry, a new sweep, the
      attempts a requeue gives back. Edits, detaches and crashes hand it none. */
  function Injected(s: State, a: Action): nat {
    if a.Enqueue? || a.EnqueueIfAbsent? then Times(s.cap, Attempt(a.mutation, s.cap))
    else if a.BeginPass? then Inside(Sweeping(a.left), s.cap)
    else if a.RequeueOrphans? then Reclaimed(s.rows, s.cap)
    else 0
  }

  function InjectedBy(s: State, run: seq<Action>): nat
    requires Exec(s, run).Some?
  {
    if run == [] then 0
    else InjectedBy(s, run[..|run| - 1]) + Injected(Exec(s, run[..|run| - 1]).value, run[|run| - 1])
  }

  lemma {:induction false} ScrubLowers(rows: seq<Row>, t: TaskId, cap: nat)
    ensures Total(DeletePendingAdds(rows, t), cap) <= Total(rows, cap)
  {
    if rows != [] {
      ScrubLowers(rows[..|rows| - 1], t, cap);
      TotalAppend(DeletePendingAdds(rows[..|rows| - 1], t), rows[|rows| - 1], cap);
    }
  }

  lemma {:induction false} RequeueReclaims(rows: seq<Row>, cap: nat)
    ensures Total(Requeue(rows), cap) == Total(rows, cap) + Reclaimed(rows, cap)
  {
    if rows != [] {
      var n := |rows| - 1;
      RequeueReclaims(rows[..n], cap);
      assert Requeue(rows)[..n] == Requeue(rows[..n]);
    }
  }

  /** An outside step raises the potential by no more than the work it hands over. */
  lemma OutsideStep(s: State, a: Action)
    requires Inv(s) && Enabled(s, a) && !ByDrainer(a)
    ensures Potential(Step(s, a)) <= Potential(s) + Injected(s, a)
  {
    if a.Enqueue? || a.EnqueueIfAbsent? {
      TotalAppend(s.rows, NewRow(s.nextId, a.task, a.mutation, a.at), s.cap);
    } else if a.Detach? {
      ScrubLowers(s.rows, a.task, s.cap);
    } else if a.RequeueOrphans? {
      RequeueReclaims(s.rows, s.cap);
    }
  }

  /** Over every run, whatever mix of drainer steps, enqueues, edits, detaches, crashes, passes and
      restarts it is: each drainer step is paid for by the starting potential or by work that came
      in from outside. */
  lemma {:induction false} EveryRunIsPaidFor(s: State, run: seq<Action>)
    requires Inv(s) && Exec(s, run).Some?
    ensures DrainerSteps(run) + Potential(Exec(s, run).value) <= Potential(s) + InjectedBy(s, run)
  {
    hide Inv, Enabled, Step, Potential, Injected;
    if run != [] {
      var init, a := run[..|run| - 1], run[|run| - 1];
      EveryRunIsPaidFor(s, init);
      EveryRunKeeps(s, init);
      if ByDrainer(a) {
        StepLowers(Exec(s, init).value, a);
        DrainerInjectsNothing(Exec(s, init).value, a);
      } else {
        OutsideStep(Exec(s, init).value, a);
      }
    }
  }

  lemma DrainerInjectsNothing(s: State, a: Action)
    requires ByDrainer(a) || a.Edit? || a.Detach? || a.Abort?
    ensures Injected(s, a) == 0
  {
  }

  lemma {:induction false} NothingInjected(s: State, run: seq<Action>)
    requires Exec(s, run).Some?
    requires forall i :: 0 <= i < |run| ==> ByDrainer(run[i]) || run[i].Edit? || run[i].Detach?
    ensures InjectedBy(s, run) == 0
  {
    hide Injected, ByDrainer;
    if run != [] {
      NothingInjected(s, run[..|run| - 1]);
      DrainerInjectsNothing(Exec(s, run[..|run| - 1]).value, run[|run| - 1]);
    }
  }

  /** With nobody else enqueueing, a pass takes at most `Potential` steps, whatever the clock says,
      whatever the remote answers, however many follow-ups failing attempts leave behind, and however
      often other processes edit or detach tasks meanwhile. */
  lemma PassIsBounded(s: State, run: seq<Action>)
    requires Inv(s) && Exec(s, run).Some?
    requires forall i :: 0 <= i < |run| ==> ByDrainer(run[i]) || run[i].Edit? || run[i].Detach?
    ensures DrainerSteps(run) + Potential(Exec(s, run).value) <= Potential(s)
  {
    EveryRunIsPaidFor(s, run);
    NothingInjected(s, run);
  }

  lemma {:induction false} AllSteps(run: seq<Action>)
    requires forall i :: 0 <= i < |run| ==> ByDrainer(run[i])
    ensures DrainerSteps(run) == |run|
  {
    if run != [] {
      AllSteps(run[..|run| - 1]);
    }
  }

  // ---------- Draft accounting ------------------------------------------------

  /** The step ends a creation call for `t`: with an id, with an empty one, or without an answer
      (an error or a crash), in which case the draft may exist all the same. */
  predicate MayCreate(s: State, a: Action, t: TaskId) {
    s.place.CallCreate? && s.place.e.task == t && (a.CreateAnswered? || a.Abort? || a.PortFails?)
  }

  /** The step leaves a draft of `t` that may exist without its id being known or kept. */
  predicate Loses(s: State, a: Action, t: TaskId) {
    || (MayCreate(s, a, t) && (a.CreateAnswered? ==> a.item == ""))
    || (s.place.Minted? && s.place.e.task == t && (a.Abort? || a.PortFails?))
  }

  /** The run's creation calls for `t` that may have left a draft on the board. */
  function Drafts(s: State, run: seq<Action>, t: TaskId): nat
    requires Exec(s, run).Some?
  {
    if run == [] then 0
    else
      var mid, a := Exec(s, run[..|run| - 1]).value, run[|run| - 1];
      Drafts(s, run[..|run| - 1], t) + if MayCreate(mid, a, t) then 1 else 0
  }

  /** Times a draft was lost: its creation went unanswered or yielded no id, or the id was lost
      before its write-back. */
  function Lost(s: State, run: seq<Action>, t: TaskId): nat
    requires Exec(s, run).Some?
  {
    if run == [] then 0
    else
      var mid, a := Exec(s, run[..|run| - 1]).value, run[|run| - 1];
      Lost(s, run[..|run| - 1], t) + if Loses(mid, a, t) then 1 else 0
  }

  /** Times some other process cleared the task's board item. */
  function Cleared(s: State, run: seq<Action>, t: TaskId): nat
    requires Exec(s, run).Some?
  {
    if run == [] then 0
    else
      var mid, a := Exec(s, run[..|run| - 1]).value, run[|run| - 1];
      Cleared(s, run[..|run| - 1], t) +
      if HasItem(mid, t) && a.Edit? && a.task == t && a.row.itemId.None? then 1 else 0
  }

  /** A draft the system still knows of: recorded on the task, or about to be. */
  function Held(s: State, t: TaskId): nat {
    if HasItem(s, t) || (s.place.Minted? && s.place.e.task == t) then 1 else 0
  }

  lemma HeldStep(s: State, a: Action, t: TaskId)
    requires Inv(s) && Enabled(s, a)
    ensures (if MayCreate(s, a, t) then 1 else 0) + Held(s, t) <=
            Held(Step(s, a), t)
            + (if Loses(s, a, t) then 1 else 0)
            + (if HasItem(s, t) && a.Edit? && a.task == t && a.row.itemId.None? then 1 else 0)
  {
    hide Healthy, Owns, Insert, DeletePendingAdds, IsClaim;
  }

  /** At-least-once delivery, made exact: beyond the first, every draft a task may ever get is paid
      for by a lost creation or write-back, or by a cleared board item. */
  lemma {:induction false} DraftsArePaidFor(s: State, run: seq<Action>, t: TaskId)
    requires Inv(s) && Exec(s, run).Some?
    ensures Drafts(s, run, t) + Held(s, t) <= Held(Exec(s, run).value, t) + Lost(s, run, t) + Cleared(s, run, t)
  {
    if run != [] {
      DraftsArePaidFor(s, run[..|run| - 1], t);
      EveryRunKeeps(s, run[..|run| - 1]);
      HeldStep(Exec(s, run[..|run| - 1]).value, run[|run| - 1], t);
    }
  }

  lemma DetachKeepsRow(s: State, t: TaskId, i: nat, j: nat)
    requires Inv(s) && i < |s.rows| && j < |DeletePendingAdds(s.rows, t)|
    requires s.rows[i].id == DeletePendingAdds(s.rows, t)[j].id
    ensures s.rows[i] == DeletePendingAdds(s.rows, t)[j]
  {
    DeleteHealthy(s.rows, t, s.nextId);
    assert DeletePendingAdds(s.rows, t)[j] in s.rows;
  }

  /** Only `Succeed` turns a row succeeded, and it turns the owned one. */
  lemma OnlySucceedSucceeds(s: State, a: Action, i: nat, j: nat)
    requires Inv(s) && Enabled(s, a)
    requires i < |s.rows| && j < |Step(s, a).rows| && s.rows[i].id == Step(s, a).rows[j].id
    requires !s.rows[i].status.Succeeded? && Step(s, a).rows[j].status.Succeeded?
    ensures a.Succeed? && s.rows[i] == s.place.e
  {
    if a.Detach? {
      DetachKeepsRow(s, a.task, i, j);
    } else if a.Succeed? {
      var k := OwnedIndex(s.rows, s.place.e, s.nextId);
    }
  }

  /** A create or convert entry turns succeeded only in a step that finds its handle written back. */
  lemma SuccessIsWrittenBack(s: State, run: seq<Action>, a: Action, i: nat, j: nat)
    requires Inv(s) && Exec(s, run).Some? && Enabled(Exec(s, run).value, a)
    requires var z := Exec(s, run).value;
             && i < |z.rows| && j < |Step(z, a).rows| && z.rows[i].id == Step(z, a).rows[j].id
             && !z.rows[i].status.Succeeded? && Step(z, a).rows[j].status.Succeeded?
    ensures var z := Exec(s, run).value;
            && a.Succeed?
            && (z.rows[i].mutation.CreateDraftIssue? ==> HasItem(Step(z, a), z.rows[i].task))
            && (z.rows[i].mutation.ConvertDraftToIssue? ==> HasNode(Step(z, a), z.rows[i].task))
  {
    EveryRunKeeps(s, run);
    OnlySucceedSucceeds(Exec(s, run).value, a, i, j);
  }
}
