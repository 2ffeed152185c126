/** The drainer itself. Every port call it makes is recorded as a protocol action, so a pass is a
    run of the step system and everything proved about runs holds at each of its port calls. */
module Drainer {
  import opened Options
  import opened Outbox
  import opened Protocol
  import opened DrainBounds
  import opened OutboxRepo
  import opened Arms
  import opened TaskStates

  datatype PassResult = Drained(succeeded: nat) | PassError

  /** Wait before the next attempt; past the end of the schedule the last delay is reused. */
  function DelayFor(delays: seq<nat>, attemptsMade: nat): (d: nat)
    ensures d == 0 || d in delays
    ensures delays != [] && 1 <= attemptsMade ==>
              d == delays[if attemptsMade <= |delays| then attemptsMade - 1 else |delays| - 1]
  {
    if delays == [] then 0
    else
      var idx := if attemptsMade == 0 then 0 else attemptsMade - 1;
      delays[if idx < |delays| then idx else |delays| - 1]
  }

  /** The run grew, and only by steps taken inside one entry. */
  predicate Grew(before: seq<Action>, after: seq<Action>) {
    before <= after && forall i :: |before| <= i < |after| ==> ByDrainer(after[i]) && !after[i].Succeed?
  }

  /** The calls made are paid for by the steps booked, two to a step, with `spare` to spare. */
  predicate Paid(calls0: nat, calls: nat, before: seq<Action>, after: seq<Action>, spare: nat) {
    calls0 <= calls <= calls0 + 2 * (|after| - |before|) + spare
  }

  /** The run grew, and only by the drainer's own steps. */
  predicate Ran(before: seq<Action>, after: seq<Action>) {
    before <= after && forall i :: |before| <= i < |after| ==> ByDrainer(after[i])
  }

  function Successes(run: seq<Action>): nat {
    if run == [] then 0 else Successes(run[..|run| - 1]) + if run[|run| - 1].Succeed? then 1 else 0
  }

  predicate NothingEligible(rows: seq<Row>, now: Time) {
    forall i :: 0 <= i < |rows| ==> !Eligible(rows, i, now)
  }

  lemma {:induction false} QuietSuccesses(before: seq<Action>, after: seq<Action>)
    requires Grew(before, after)
    ensures Successes(after) == Successes(before)
    decreases |after|
  {
    if |after| > |before| {
      QuietSuccesses(before, after[..|after| - 1]);
    } else {
      assert before == after;
    }
  }

  /** Drainer steps cost potential, wherever in a run they are taken. */
  lemma RanCosts(origin: State, before: seq<Action>, after: seq<Action>)
    requires Inv(origin) && Exec(origin, after).Some? && Ran(before, after)
    ensures Exec(origin, before).Some?
    ensures |after| - |before| + Potential(Exec(origin, after).value) <= Potential(Exec(origin, before).value)
  {
    var more := after[|before|..];
    assert after == before + more;
    ExecSplit(origin, before, more);
    EveryRunKeeps(origin, before);
    PassIsBounded(Exec(origin, before).value, more);
    AllSteps(more);
  }

  /** The task's state admits a conflict flag, so flagging it means a save. */
  predicate Flaggable(tasks: map<TaskId, TaskRow>, t: TaskId) {
    t in tasks && Conflicted(tasks[t]) != tasks[t]
  }

  /** The row claimed at call `k` was stamped exactly if the answers let its arm through, and succeeded
      if so. */
  ghost predicate Turned(before: seq<Row>, tasks: map<TaskId, TaskRow>, j: nat, world: World, k: nat, stamped: bool,
                         after: seq<Row>) {
    && IsClaim(before, j, world(k).time) && j < |after|
    && (stamped <==> Stamps(Claimed(before, j)[j], tasks, world, k + 1))
    && (stamped ==> after[j] == before[j].(status := Succeeded))
  }

  lemma NotGood(world: World, k: nat)
    requires !world(k).ok
    ensures !Good(world) && SomeFailed(world, k, k + 1)
  {
  }

  lemma GoodNeverFails(world: World, from: nat, to: nat)
    requires SomeFailed(world, from, to)
    ensures !Good(world)
  {
  }

  lemma TurnDone(rows: seq<Row>, tasks: map<TaskId, TaskRow>, more: map<TaskId, TaskRow>, j: nat, world: World, k: nat,
                 e: Row, d: Disposition, applied: seq<Row>, nextId: nat, after: seq<Row>)
    requires IsClaim(rows, j, world(k).time) && e == Claimed(rows, j)[j] && d == Outcome(e, tasks, world, k + 1)
    requires Extends(Claimed(rows, j), applied, {e.task}) && UniqueIds(applied, nextId) && more.Keys == tasks.Keys
    requires |after| == |applied| && (d.ApplyStamped? ==> after == MarkSucceeded(applied, e.id))
    ensures Turned(rows, tasks, j, world, k, d.ApplyStamped?, after)
    ensures Good(world) && Loaded(rows, tasks) ==> Untroubled(rows, after) && Loaded(after, more)
  {
    hide Good, Loaded, Untroubled, Stamps, Clashes, Extends, UniqueIds;
    AppliedLength(rows, j, applied, e.task);
    if d.ApplyStamped? {
      TurnUntroubled(rows, j, applied, nextId, {e.task});
      TurnedRow(rows, j, applied, nextId, {e.task});
    }
    if Good(world) && Loaded(rows, tasks) {
      ClaimLoads(rows, tasks, j);
      GoodWorldStamps(e, tasks, world, k + 1);
      LoadedAfter(rows, applied, tasks, more, j, e.id);
    }
  }

  lemma SweepUntroubled(rows: seq<Row>, after: seq<Row>, tasks: map<TaskId, TaskRow>, pending: seq<TaskId>)
    requires Extends(rows, after, set t | t in pending)
    ensures Untroubled(rows, after)
    ensures Loaded(rows, tasks) && (forall t :: t in pending ==> t in tasks) ==> Loaded(after, tasks)
  {
    ExtendsUntroubled(rows, after, set t | t in pending);
    if Loaded(rows, tasks) && (forall t :: t in pending ==> t in tasks) {
      LoadedExtends(rows, after, tasks, set t | t in pending);
    }
  }

  lemma AppliedLength(rows: seq<Row>, j: nat, applied: seq<Row>, t: TaskId)
    requires j < |rows| && Extends(Claimed(rows, j), applied, {t})
    ensures |rows| <= |applied|
  {
  }

  lemma ClaimLoads(rows: seq<Row>, tasks: map<TaskId, TaskRow>, j: nat)
    requires j < |rows| && Loaded(rows, tasks) && rows[j].status.Pending?
    ensures rows[j].task in tasks
  {
  }

  lemma TurnedRow(rows: seq<Row>, j: nat, applied: seq<Row>, nextId: nat, ts: set<TaskId>)
    requires j < |rows| && rows[j].status.Pending?
    requires Extends(Claimed(rows, j), applied, ts) && UniqueIds(applied, nextId)
    ensures MarkSucceeded(applied, rows[j].id)[j] == rows[j].(status := Succeeded)
  {
    assert applied[j] == Claimed(rows, j)[j];
  }

  lemma RanMore(a: seq<Action>, b: seq<Action>, c: seq<Action>)
    requires Ran(a, b) && Ran(b, c)
    ensures Ran(a, c) && |a| <= |b| <= |c|
  {
  }

  lemma NothingAppended(rows: seq<Row>, ts: set<TaskId>)
    ensures Extends(rows, rows, ts)
  {
  }

  lemma NoTurn(rows: seq<Row>)
    ensures Untroubled(rows, rows)
  {
  }

  lemma UniqueNow(s: State)
    requires Inv(s)
    ensures UniqueIds(s.rows, s.nextId)
  {
  }

  lemma FailedLater(world: World, from: nat, mid: nat, to: nat)
    requires from <= mid && SomeFailed(world, mid, to)
    ensures SomeFailed(world, from, to)
  {
  }

  /** The run grew by one sweep step per task, in order, each with the projection its lookup resolved. */
  predicate Swept(before: seq<Action>, after: seq<Action>, pending: seq<TaskId>, world: World, k: nat) {
    && before <= after && |after| == |before| + |pending|
    && forall i :: 0 <= i < |pending| ==>
         var a := after[|before| + i];
         a == SweepOne(pending[i], TypeOwed(world(k + i)), world(k + i).time)
  }

  lemma SweptMore(before: seq<Action>, mid: seq<Action>, after: seq<Action>, pending: seq<TaskId>, i: nat,
                  world: World, k: nat)
    requires i < |pending| && Swept(before, mid, pending[..i], world, k)
    requires after == mid + [SweepOne(pending[i], TypeOwed(world(k + i)), world(k + i).time)]
    ensures Swept(before, after, pending[..i + 1], world, k)
  {
    forall n | 0 <= n < i + 1
      ensures after[|before| + n] == SweepOne(pending[n], TypeOwed(world(k + n)), world(k + n).time)
    {
      if n < i {
        assert mid[|before| + n] == SweepOne(pending[..i][n], TypeOwed(world(k + n)), world(k + n).time);
      }
    }
  }

  class OutboxDrainer {
    const outbox: OutboxRepository
    const delays: seq<nat>
    const cap: nat
    const world: World
    var calls: nat
    var tasks: map<TaskId, TaskRow>
    ghost var place: Place
    ghost var run: seq<Action>
    ghost const origin: State

    constructor (outbox: OutboxRepository, tasks: map<TaskId, TaskRow>,
                 delays: seq<nat>, maxAttempts: nat, world: World)
      requires Healthy(outbox.rows, outbox.nextId)
      ensures Valid() && fresh(this) && this.outbox == outbox && place == Idle && run == []
      ensures this.tasks == tasks && cap == (if maxAttempts == 0 then 1 else maxAttempts)
    {
      this.outbox, this.delays, this.world := outbox, delays, world;
      this.cap := if maxAttempts == 0 then 1 else maxAttempts;
      this.tasks, this.calls := tasks, 0;
      this.place, this.run := Idle, [];
      this.origin := State(outbox.rows, outbox.nextId, if maxAttempts == 0 then 1 else maxAttempts, tasks, Idle);
    }

    ghost function Now(): State
      reads this, outbox
    {
      State(outbox.rows, outbox.nextId, cap, tasks, place)
    }

    ghost predicate Valid()
      reads this, outbox
    {
      Inv(origin) && Exec(origin, run) == Some(Now())
    }

    method Ask() returns (a: Answer)
      modifies this`calls
      ensures calls == old(calls) + 1 && a == world(old(calls))
    {
      a := world(calls);
      calls := calls + 1;
    }

    /** Book one port call: the concrete effect already happened, the place follows. */
    ghost method Book(before: State, a: Action)
      requires Inv(origin) && Exec(origin, run) == Some(before) && Enabled(before, a)
      requires Now().(place := Idle) == Step(before, a).(place := Idle)
      modifies this`place, this`run
      ensures Valid() && Now() == Step(before, a)
      ensures run == old(run) + [a]
    {
      hide Enabled, Step, Inv;
      place := Step(before, a).place;
      run := run + [a];
      assert run[..|run| - 1] == old(run);
    }

    ghost method BookLoad(e: Row)
      requires Valid() && place == Applying(e) && (ReadsTask(e.mutation) ==> e.task in tasks)
      modifies this`place, this`run
      ensures Valid() && place == Route(old(Now()), e) && run == old(run) + [Load]
    {
      hide Exec, Inv;
      Book(Now(), Load);
    }

    ghost predicate Landed(d: Disposition, e: Row)
      reads this
    {
      match d
      case ApplyStamped => place == Applied(e)
      case ApplyRetry => place == Failing(e)
      case ApplyConflict => place == Clash(e)
    }

    /** A port call failed inside an arm: the attempt is over. */
    method GiveUp(e: Row) returns (d: Disposition)
      requires Valid() && InsideApply(place) && place.e == e
      modifies this`place, this`run
      ensures Valid() && Landed(d, e) && d == ApplyRetry && run == old(run) + [PortFails]
    {
      hide Exec, Inv;
      Book(Now(), PortFails);
      d := ApplyRetry;
    }

    method EnqueueFollowUp(e: Row, item: string, ghost left: nat, m: Option<Mutation>) returns (done: bool)
      requires Valid() && place == FollowUps(e, item, left) && 0 < left
      requires m.Some? ==> FollowUpFits(e, item, left, m.value)
      modifies this, outbox
      ensures Valid() && Grew(old(run), run)
      ensures done ==> if left == 1 then place == Applied(e) else left > 1 && place == FollowUps(e, item, left - 1)
      ensures done ==> Owed(old(outbox.rows), e.task, m, outbox.rows)
      ensures tasks == old(tasks)
      ensures !done ==> place == Failing(e)
      ensures old(calls) <= calls <= old(calls) + 1 && |run| == |old(run)| + 1
      ensures done <==> (m.Some? ==> world(old(calls)).ok)
      ensures calls == old(calls) + if m.Some? then 1 else 0
      ensures Extends(old(outbox.rows), outbox.rows, {e.task}) && tasks.Keys == old(tasks).Keys
    {
      hide Exec, Inv, Insert, FollowUpFits;
      ghost var before := Now();
      var at := 0;
      if m.Some? {
        var a := Ask();
        if !a.ok {
          var _ := GiveUp(e);
          return false;
        }
        at := a.time;
        outbox.Enqueue(e.task, m.value, at);
      }
      Book(before, FollowUp(m, at));
      assert m.Some? ==> outbox.rows == Insert(before.rows, NewRow(before.nextId, e.task, m.value, at));
      OwedExtends(before.rows, e.task, m, outbox.rows);
      done := true;
    }

    /** Enqueue the projections a newly attached card owes. */
    method EnqueueStatusFollowUp(e: Row, project: string, item: string) returns (d: Disposition)
      requires Valid() && place == FollowUps(e, item, 3)
      requires (e.mutation.AddItem? || e.mutation.CreateDraftIssue?) && project == e.mutation.project
      modifies this, outbox
      ensures Valid() && Grew(old(run), run) && Landed(d, e) && !d.ApplyConflict?
      ensures d.ApplyStamped? ==>
                && world(old(calls)).ok && tasks == old(tasks)
                && OwedAll(old(outbox.rows), e.task, Projections(world(old(calls)).board, project, item), outbox.rows)
      ensures Paid(old(calls), calls, old(run), run, 0)
      ensures d == if FollowUpsOk(world, old(calls), project, item) then ApplyStamped else ApplyRetry
      ensures Extends(old(outbox.rows), outbox.rows, {e.task}) && tasks.Keys == old(tasks).Keys
    {
      hide Exec, Inv, Enabled, Step, Projections, OwedAll, EnqueuesOk, Extends, Fit, FollowUpFits;
      var a := Ask();
      if !a.ok {
        d := GiveUp(e);
        NothingAppended(outbox.rows, {e.task});
        return;
      }
      ProjectionsFit(e, a.board, item);
      var done := EnqueueOwed(e, item, Projections(a.board, project, item));
      d := if done then ApplyStamped else ApplyRetry;
    }

    method EnqueueOwed(e: Row, item: string, owed: Owing) returns (done: bool)
      requires Valid() && place == FollowUps(e, item, 3) && Fit(e, item, owed)
      modifies this, outbox
      ensures Valid() && Grew(old(run), run) && |run| > |old(run)| && tasks == old(tasks)
      ensures place == if done then Applied(e) else Failing(e)
      ensures done <==> EnqueuesOk(world, old(calls), owed)
      ensures done ==> OwedAll(old(outbox.rows), e.task, owed, outbox.rows)
      ensures Extends(old(outbox.rows), outbox.rows, {e.task})
      ensures old(calls) <= calls <= old(calls) + |run| - |old(run)|
    {
      hide Exec, Inv, Enabled, Step, Owed, Extends, FollowUpFits;
      done := EnqueueFollowUp(e, item, 3, owed.0);
      if !done {
        return;
      }
      ghost var one := outbox.rows;
      done := EnqueueFollowUp(e, item, 2, owed.1);
      ExtendsMore(old(outbox.rows), one, outbox.rows, {e.task});
      if !done {
        return;
      }
      ghost var two := outbox.rows;
      done := EnqueueFollowUp(e, item, 1, owed.2);
      ExtendsMore(old(outbox.rows), two, outbox.rows, {e.task});
      if done {
        assert Owed(old(outbox.rows), e.task, owed.0, one) && Owed(one, e.task, owed.1, two);
      }
    }

    method WriteBackProjectItem(e: Row, item: string) returns (done: bool)
      requires Valid() && (place == Minted(e, item) || place == Targeted(e, item))
      modifies this
      ensures Valid() && Grew(old(run), run)
      ensures done ==>
                && place == FollowUps(e, item, 3) && e.task in old(tasks)
                && tasks == old(tasks)[e.task := old(tasks)[e.task].(itemId := Some(item))]
      ensures !done ==> place == Failing(e)
      ensures Paid(old(calls), calls, old(run), run, 0)
      ensures done <==> world(old(calls)).ok && e.task in old(tasks)
      ensures calls == old(calls) + 1 && tasks.Keys == old(tasks).Keys
    {
      hide Exec, Inv;
      ghost var before := Now();
      var a := Ask();
      if !a.ok || e.task !in tasks {
        var _ := GiveUp(e);
        return false;
      }
      tasks := tasks[e.task := tasks[e.task].(itemId := Some(item))];
      Book(before, WriteItem);
      done := true;
    }

    /** Attach the issue; `going` when the arm goes on to the write-back. */
    method CallAddItem(e: Row) returns (going: bool, item: string, d: Disposition)
      requires Valid() && place == Applying(e) && e.mutation.AddItem?
      modifies this
      ensures Valid() && Grew(old(run), run)
      ensures if going then place == Attached(e, item) && item == world(old(calls)).id else Landed(d, e)
      ensures going <==> world(old(calls)).ok && world(old(calls)).id != ""
      ensures !going ==> d == (if world(old(calls)).ok then ApplyConflict else ApplyRetry)
      ensures Paid(old(calls), calls, old(run), run, 0)
      ensures calls == old(calls) + 1 && tasks == old(tasks)
    {
      hide Exec, Inv;
      going, item, d := false, "", ApplyConflict;
      BookLoad(e);
      var a := Ask();
      if !a.ok {
        d := GiveUp(e);
        return;
      }
      Book(Now(), AddAnswered(a.id));
      going, item := a.id != "", a.id;
    }

    method ApplyAddItem(e: Row) returns (d: Disposition)
      requires Valid() && place == Applying(e) && e.mutation.AddItem?
      modifies this, outbox
      ensures Valid() && Grew(old(run), run) && Landed(d, e)
      ensures Paid(old(calls), calls, old(run), run, 0)
      ensures d == Outcome(e, old(tasks), world, old(calls))
      ensures Extends(old(outbox.rows), outbox.rows, {e.task}) && tasks.Keys == old(tasks).Keys
    {
      hide Exec, Inv, Enabled, Step;
      var going, item;
      going, item, d := CallAddItem(e);
      if !going {
        return;
      }
      d := WriteBackIfTargeted(e, item);
    }

    /** Only a task whose workspace still targets the project keeps the new card. */
    method WriteBackIfTargeted(e: Row, item: string) returns (d: Disposition)
      requires Valid() && place == Attached(e, item) && e.mutation.AddItem?
      modifies this, outbox
      ensures Valid() && Grew(old(run), run) && Landed(d, e)
      ensures var w, project := world(old(calls)), e.mutation.project;
              && (!w.ok ==> d == ApplyRetry)
              && (w.ok && !Targets(w, project) ==>
                    d == ApplyStamped && tasks == old(tasks) && outbox.rows == old(outbox.rows))
              && (w.ok && Targets(w, project) ==>
                    d == if KeptOk(world, old(calls) + 1, e.task in old(tasks), project, item)
                         then ApplyStamped else ApplyRetry)
              && (w.ok && Targets(w, project) && d == ApplyStamped ==>
                    e.task in old(tasks) && tasks == old(tasks)[e.task := old(tasks)[e.task].(itemId := Some(item))])
      ensures Paid(old(calls), calls, old(run), run, 0)
      ensures Extends(old(outbox.rows), outbox.rows, {e.task}) && tasks.Keys == old(tasks).Keys
    {
      hide Exec, Inv, Enabled, Step, OwedAll, Projections, KeptOk, FollowUpsOk;
      var w := Ask();
      if !w.ok {
        d := GiveUp(e);
        return;
      }
      var target := if w.board.Some? then Some(w.board.value.id) else None;
      BookTarget(e, item, target);
      if target != Some(e.mutation.project) {
        return ApplyStamped;
      }
      d := KeepCard(e, item);
    }

    ghost method BookTarget(e: Row, item: string, target: Option<string>)
      requires Valid() && place == Attached(e, item) && e.mutation.AddItem?
      modifies this`place, this`run
      ensures Valid() && place == (if target == Some(e.mutation.project) then Targeted(e, item) else Applied(e))
      ensures run == old(run) + [TargetAnswered(target)]
    {
      hide Exec, Inv;
      Book(Now(), TargetAnswered(target));
    }

    method KeepCard(e: Row, item: string) returns (d: Disposition)
      requires Valid() && (place == Minted(e, item) || place == Targeted(e, item))
      requires (e.mutation.AddItem? || e.mutation.CreateDraftIssue?)
      modifies this, outbox
      ensures Valid() && Grew(old(run), run) && Landed(d, e) && !d.ApplyConflict?
      ensures d.ApplyStamped? ==>
                && e.task in old(tasks) && tasks == old(tasks)[e.task := old(tasks)[e.task].(itemId := Some(item))]
      ensures Paid(old(calls), calls, old(run), run, 0)
      ensures d == if KeptOk(world, old(calls), e.task in old(tasks), e.mutation.project, item)
                   then ApplyStamped else ApplyRetry
      ensures Extends(old(outbox.rows), outbox.rows, {e.task}) && tasks.Keys == old(tasks).Keys
    {
      hide Exec, Inv, Enabled, Step, OwedAll, Projections, EnqueuesOk, Extends;
      NothingAppended(outbox.rows, {e.task});
      var done := WriteBackProjectItem(e, item);
      if !done {
        return ApplyRetry;
      }
      d := EnqueueStatusFollowUp(e, e.mutation.project, item);
    }

    /** Create the draft unless the task already carries its board item. */
    method LoadAndCreate(e: Row) returns (going: bool, minted: bool, item: string, d: Disposition)
      requires Valid() && place == Applying(e) && e.mutation.CreateDraftIssue?
      modifies this
      ensures Valid() && Grew(old(run), run)
      ensures if going then place == (if minted then Minted(e, item) else FollowUps(e, item, 3)) else Landed(d, e)
      ensures tasks == old(tasks) && (going && !minted <==> world(old(calls)).ok && HasItem(old(Now()), e.task))
      ensures going && !minted ==> item == tasks[e.task].itemId.value && calls == old(calls) + 1
      ensures Paid(old(calls), calls, old(run), run, 0)
      ensures going && minted ==> item == world(old(calls) + 1).id && calls == old(calls) + 2
      ensures going && minted <==>
                && world(old(calls)).ok && e.task in tasks && tasks[e.task].itemId.None?
                && world(old(calls) + 1).ok && world(old(calls) + 1).id != ""
      ensures !going ==>
                d == if world(old(calls)).ok && e.task in tasks && world(old(calls) + 1).ok
                     then ApplyConflict else ApplyRetry
    {
      hide Exec, Inv, Enabled, Step;
      going, minted, item, d := false, false, "", ApplyConflict;
      var g := Ask();
      if !g.ok || e.task !in tasks {
        d := GiveUp(e);
        return;
      }
      var existing := tasks[e.task].itemId;
      BookLoad(e);
      if existing.Some? {
        going, item := true, existing.value;
        return;
      }
      going, item, d := MintDraft(e);
      minted := going;
    }

    /** The creation call itself; `going` when it answered with a usable id. */
    method MintDraft(e: Row) returns (going: bool, item: string, d: Disposition)
      requires Valid() && place == CallCreate(e)
      modifies this
      ensures Valid() && Grew(old(run), run)
      ensures going <==> world(old(calls)).ok && world(old(calls)).id != ""
      ensures if going then place == Minted(e, item) && item == world(old(calls)).id else Landed(d, e)
      ensures !going ==> d == (if world(old(calls)).ok then ApplyConflict else ApplyRetry)
      ensures Paid(old(calls), calls, old(run), run, 0)
      ensures tasks == old(tasks)
      ensures calls == old(calls) + 1
    {
      hide Exec, Inv;
      going, item, d := false, "", ApplyConflict;
      var a := Ask();
      if !a.ok {
        d := GiveUp(e);
        return;
      }
      Book(Now(), CreateAnswered(a.id));
      going, item := a.id != "", a.id;
    }

    method ApplyCreateDraftIssue(e: Row) returns (d: Disposition)
      requires Valid() && place == Applying(e) && e.mutation.CreateDraftIssue?
      modifies this, outbox
      ensures Valid() && Grew(old(run), run) && Landed(d, e)
      ensures d.ApplyStamped? ==> HasItem(Now(), e.task)
      ensures Paid(old(calls), calls, old(run), run, 0)
      ensures d == Outcome(e, old(tasks), world, old(calls))
      ensures Extends(old(outbox.rows), outbox.rows, {e.task}) && tasks.Keys == old(tasks).Keys
    {
      hide Exec, Inv, Enabled, Step;
      var going, minted, item;
      going, minted, item, d := LoadAndCreate(e);
      if !going {
        ReplaysAreGuarded(origin, run, e.task);
        return;
      }
      if minted {
        d := KeepCard(e, item);
      } else {
        d := EnqueueStatusFollowUp(e, e.mutation.project, item);
      }
      ReplaysAreGuarded(origin, run, e.task);
    }

    method EnqueueIssueTypeFollowUp(e: Row) returns (d: Disposition)
      requires Valid() && place == TypeFollowUp(e)
      modifies this, outbox
      ensures Valid() && Grew(old(run), run) && Landed(d, e) && !d.ApplyConflict?
      ensures d.ApplyStamped? ==> Owed(old(outbox.rows), e.task, TypeOwed(world(old(calls))), outbox.rows)
      ensures Paid(old(calls), calls, old(run), run, 0)
      ensures d == if world(old(calls)).ok then ApplyStamped else ApplyRetry
      ensures Extends(old(outbox.rows), outbox.rows, {e.task}) && tasks.Keys == old(tasks).Keys
    {
      hide Exec, Inv, Insert;
      ghost var before := Now();
      var a := Ask();
      if !a.ok {
        d := GiveUp(e);
        return;
      }
      var m := TypeOwed(a);
      if m.Some? {
        outbox.Enqueue(e.task, m.value, a.time);
      }
      Book(before, FollowUpType(m, a.time));
      assert m.Some? ==> outbox.rows == Insert(before.rows, NewRow(before.nextId, e.task, m.value, a.time));
      OwedExtends(before.rows, e.task, m, outbox.rows);
      d := ApplyStamped;
    }

    /** Convert the draft unless the task already carries its issue node. */
    method LoadAndConvert(e: Row) returns (going: bool, converted: bool, node: string, number: nat, d: Disposition)
      requires Valid() && place == Applying(e) && e.mutation.ConvertDraftToIssue?
      modifies this
      ensures Valid() && Grew(old(run), run)
      ensures if going then place == (if converted then Converted(e, node, number) else TypeFollowUp(e))
                else Landed(d, e)
      ensures tasks == old(tasks) && (going && !converted <==> world(old(calls)).ok && HasNode(old(Now()), e.task))
      ensures going && !converted ==> calls == old(calls) + 1
      ensures Paid(old(calls), calls, old(run), run, 0)
      ensures going && converted ==> calls == old(calls) + 2
      ensures going && converted <==>
                && world(old(calls)).ok && e.task in tasks && !HasNode(old(Now()), e.task)
                && world(old(calls) + 1).ok && IssueHandle(world(old(calls) + 1).id, world(old(calls) + 1).number)
      ensures !going ==>
                d == if world(old(calls)).ok && e.task in tasks && world(old(calls) + 1).ok
                     then ApplyConflict else ApplyRetry
    {
      hide Exec, Inv, Enabled, Step, IssueHandle;
      going, converted, node, number, d := false, false, "", 0, ApplyConflict;
      var g := Ask();
      if !g.ok || e.task !in tasks {
        d := GiveUp(e);
        return;
      }
      var remote := tasks[e.task].remote;
      BookLoad(e);
      if remote.Some? && remote.value.node.Some? {
        going := true;
        return;
      }
      going, node, number, d := ConvertDraft(e);
      converted := going;
    }

    /** The conversion call itself; `going` when it answered with an issue node and number. */
    method ConvertDraft(e: Row) returns (going: bool, node: string, number: nat, d: Disposition)
      requires Valid() && place == CallConvert(e)
      modifies this
      ensures Valid() && Grew(old(run), run)
      ensures var a := world(old(calls));
              && (going <==> a.ok && IssueHandle(a.id, a.number))
              && (if going then place == Converted(e, node, number) && node == a.id
                  && number == a.number else Landed(d, e))
              && (!going ==> d == if a.ok then ApplyConflict else ApplyRetry)
      ensures Paid(old(calls), calls, old(run), run, 0)
      ensures tasks == old(tasks)
      ensures calls == old(calls) + 1
    {
      hide Exec, Inv;
      going, node, number, d := false, "", 0, ApplyConflict;
      var a := Ask();
      if !a.ok {
        d := GiveUp(e);
        return;
      }
      Book(Now(), ConvertAnswered(a.id, a.number));
      going, node, number := "I_" <= a.id && a.number != 0, a.id, a.number;
    }

    method WriteBackConvertedIssue(e: Row, node: string, number: nat) returns (done: bool)
      requires Valid() && place == Converted(e, node, number)
      modifies this
      ensures Valid() && Grew(old(run), run)
      ensures done ==>
                && place == TypeFollowUp(e) && e.task in old(tasks)
                && tasks == old(tasks)[e.task := old(tasks)[e.task].(remote := Some(RemoteRef(number, Some(node))))]
      ensures !done ==> place == Failing(e)
      ensures Paid(old(calls), calls, old(run), run, 0)
      ensures done <==> world(old(calls)).ok && e.task in old(tasks)
      ensures calls == old(calls) + 1 && tasks.Keys == old(tasks).Keys
    {
      hide Exec, Inv, Enabled, Step;
      var a := Ask();
      if !a.ok || e.task !in tasks {
        var _ := GiveUp(e);
        return false;
      }
      SaveIssue(e, node, number);
      done := true;
    }

    method SaveIssue(e: Row, node: string, number: nat)
      requires Valid() && place == Converted(e, node, number) && e.task in tasks
      modifies this`tasks, this`place, this`run
      ensures Valid() && place == TypeFollowUp(e) && run == old(run) + [WriteIssue]
      ensures tasks == old(tasks)[e.task := old(tasks)[e.task].(remote := Some(RemoteRef(number, Some(node))))]
    {
      hide Exec, Inv;
      ghost var before := Now();
      tasks := tasks[e.task := tasks[e.task].(remote := Some(RemoteRef(number, Some(node))))];
      Book(before, WriteIssue);
    }

    /** Write the new issue back, then enqueue its type. */
    method KeepIssue(e: Row, node: string, number: nat) returns (d: Disposition)
      requires Valid() && place == Converted(e, node, number)
      modifies this, outbox
      ensures Valid() && Grew(old(run), run) && Landed(d, e)
      ensures Paid(old(calls), calls, old(run), run, 0)
      ensures d == if world(old(calls)).ok && e.task in old(tasks) && world(old(calls) + 1).ok
                   then ApplyStamped else ApplyRetry
      ensures Extends(old(outbox.rows), outbox.rows, {e.task}) && tasks.Keys == old(tasks).Keys
    {
      hide Exec, Inv, Enabled, Step, Owed, Extends;
      NothingAppended(outbox.rows, {e.task});
      var done := WriteBackConvertedIssue(e, node, number);
      if !done {
        return ApplyRetry;
      }
      d := EnqueueIssueTypeFollowUp(e);
    }

    method ApplyConvertDraftToIssue(e: Row) returns (d: Disposition)
      requires Valid() && place == Applying(e) && e.mutation.ConvertDraftToIssue?
      modifies this, outbox
      ensures Valid() && Grew(old(run), run) && Landed(d, e)
      ensures d.ApplyStamped? ==> HasNode(Now(), e.task)
      ensures Paid(old(calls), calls, old(run), run, 0)
      ensures d == Outcome(e, old(tasks), world, old(calls))
      ensures Extends(old(outbox.rows), outbox.rows, {e.task}) && tasks.Keys == old(tasks).Keys
    {
      hide Exec, Inv, Enabled, Step, Owed, Projections, FollowUpsOk, KeptOk, IssueHandle;
      var going, converted, node, number;
      going, converted, node, number, d := LoadAndConvert(e);
      if !going {
        ReplaysAreGuarded(origin, run, e.task);
        return;
      }
      if converted {
        d := KeepIssue(e, node, number);
      } else {
        d := EnqueueIssueTypeFollowUp(e);
      }
      ReplaysAreGuarded(origin, run, e.task);
    }

    /** The arms without a write-back the protocol tracks: content pushes, field writes and
        relation edges. Only a content push or a status write can disagree with its read-back. */
    method ApplyOther(e: Row) returns (d: Disposition)
      requires Valid() && place == Applying(e) && IsLeaf(e.mutation)
      modifies this, outbox
      ensures Valid() && Grew(old(run), run) && Landed(d, e)
      ensures d.ApplyConflict? ==> e.mutation.UpdateRemote? || e.mutation.SetProjectStatus?
      ensures Paid(old(calls), calls, old(run), run, 0)
      ensures d == Outcome(e, old(tasks), world, old(calls))
      ensures Extends(old(outbox.rows), outbox.rows, {e.task}) && tasks.Keys == old(tasks).Keys
    {
      hide Exec, Inv, Enabled, Step;
      if ReadsTask(e.mutation) && e.task !in tasks {
        d := GiveUp(e);
        return;
      }
      BookLoad(e);
      d := CallOtherPort(e);
    }

    method CallOtherPort(e: Row) returns (d: Disposition)
      requires Valid() && place == CallOther(e)
      modifies this
      ensures Valid() && Grew(old(run), run) && Landed(d, e)
      ensures var a := world(old(calls));
              d == if !a.ok then ApplyRetry
                   else if !a.agrees && (e.mutation.UpdateRemote? || e.mutation.SetProjectStatus?) then ApplyConflict
                   else ApplyStamped
      ensures Paid(old(calls), calls, old(run), run, 0)
      ensures calls == old(calls) + 1 && tasks == old(tasks)
    {
      hide Exec, Inv;
      var a := Ask();
      if !a.ok {
        d := GiveUp(e);
        return;
      }
      var agrees := a.agrees || !(e.mutation.UpdateRemote? || e.mutation.SetProjectStatus?);
      Book(Now(), OtherAnswered(agrees));
      d := if agrees then ApplyStamped else ApplyConflict;
    }

    method Apply(e: Row) returns (d: Disposition)
      requires Valid() && place == Applying(e)
      modifies this, outbox
      ensures Valid() && Grew(old(run), run) && Landed(d, e)
      ensures Paid(old(calls), calls, old(run), run, 0)
      ensures d == Outcome(e, old(tasks), world, old(calls))
      ensures Extends(old(outbox.rows), outbox.rows, {e.task}) && tasks.Keys == old(tasks).Keys
    {
      hide Exec, Inv, Enabled, Step;
      match e.mutation
      case AddItem(_, _) => d := ApplyAddItem(e);
      case CreateDraftIssue(_, _, _) => d := ApplyCreateDraftIssue(e);
      case ConvertDraftToIssue(_, _) => d := ApplyConvertDraftToIssue(e);
      case _ => d := ApplyOther(e);
    }

    // ---------- The pass ------------------------------------------------------

    /** The durable type intents: enqueue what now resolves, skip what does not. */
    method SweepIssueTypes(pending: seq<TaskId>) returns (done: bool)
      requires Valid() && place == (if pending == [] then Idle else Sweeping(|pending|))
      modifies this, outbox
      ensures Valid() && Grew(old(run), run)
      ensures done ==> place == Idle
      ensures Paid(old(calls), calls, old(run), run, if done then 0 else 2)
      ensures tasks == old(tasks) && Extends(old(outbox.rows), outbox.rows, set t | t in pending)
      ensures done ==> calls == old(calls) + |pending| && Swept(old(run), run, pending, world, old(calls))
      ensures !done ==> SomeFailed(world, old(calls), calls)
    {
      hide Exec, Inv, Enabled, Step;
      for i := 0 to |pending|
        invariant Valid() && Grew(old(run), run) && Paid(old(calls), calls, old(run), run, 0)
        invariant place == if i == |pending| then Idle else Sweeping(|pending| - i)
        invariant tasks == old(tasks) && Extends(old(outbox.rows), outbox.rows, set t | t in pending)
        invariant calls == old(calls) + i && Swept(old(run), run, pending[..i], world, old(calls))
      {
        ghost var before := run;
        done := SweepOneTask(pending[i], |pending| - i);
        if !done {
          assert !world(old(calls) + i).ok;
          return;
        }
        SweptMore(old(run), before, run, pending, i, world, old(calls));
      }
      assert pending[..|pending|] == pending;
      done := true;
    }

    method SweepOneTask(task: TaskId, ghost left: nat) returns (done: bool)
      requires Valid() && place == Sweeping(left) && left > 0
      modifies this, outbox
      ensures Valid() && Grew(old(run), run)
      ensures done ==> place == if left == 1 then Idle else Sweeping(left - 1)
      ensures done <==> world(old(calls)).ok
      ensures done ==> Owed(old(outbox.rows), task, TypeOwed(world(old(calls))), outbox.rows)
      ensures Paid(old(calls), calls, old(run), run, if done then 0 else 2)
      ensures calls == old(calls) + 1 && tasks == old(tasks)
      ensures Extends(old(outbox.rows), outbox.rows, {task})
      ensures done ==> run == old(run) + [SweepOne(task, TypeOwed(world(old(calls))), world(old(calls)).time)]
    {
      hide Exec, Inv, Insert;
      ghost var before := Now();
      var a := Ask();
      if !a.ok {
        return false;
      }
      var m := TypeOwed(a);
      if m.Some? {
        outbox.Enqueue(task, m.value, a.time);
      }
      Book(before, SweepOne(task, m, a.time));
      assert m.Some? ==> outbox.rows == Insert(before.rows, NewRow(before.nextId, task, m.value, a.time));
      OwedExtends(before.rows, task, m, outbox.rows);
      done := true;
    }

    /** Stamp and succeed, flag and dead-letter, or back off. `false` is a port error that ends the
        pass with the entry still inflight. */
    method Resolve(e: Row, d: Disposition) returns (done: bool)
      requires Valid() && Landed(d, e)
      modifies this, outbox
      ensures Valid() && Ran(old(run), run)
      ensures done ==> place == Idle && |run| > |old(run)|
      ensures done ==> Successes(run) == Successes(old(run)) + if d.ApplyStamped? then 1 else 0
      ensures Paid(old(calls), calls, old(run), run, if done then 0 else 2)
      ensures !done ==> SomeFailed(world, old(calls), calls)
      ensures tasks.Keys == old(tasks).Keys
      ensures done && d.ApplyStamped? ==> outbox.rows == MarkSucceeded(old(outbox.rows), e.id)
      ensures |outbox.rows| == |old(outbox.rows)|
    {
      hide Exec, Inv, Enabled, Step;
      match d {
        case ApplyStamped => done := ResolveStamped(e);
        case ApplyConflict => done := ResolveConflict(e);
        case ApplyRetry => done := ResolveRetry(e);
      }
    }

    method ResolveStamped(e: Row) returns (done: bool)
      requires Valid() && place == Applied(e)
      modifies this, outbox
      ensures Valid() && Ran(old(run), run)
      ensures done ==> place == Idle && run == old(run) + [StampSynced, Succeed]
      ensures done ==> Successes(run) == Successes(old(run)) + 1
      ensures Paid(old(calls), calls, old(run), run, if done then 0 else 2)
      ensures !done ==> SomeFailed(world, old(calls), calls)
      ensures tasks == old(tasks)
      ensures done ==> outbox.rows == MarkSucceeded(old(outbox.rows), e.id)
      ensures |outbox.rows| == |old(outbox.rows)|
    {
      hide Exec, Inv, Enabled, Step;
      var a := Ask();
      if !a.ok {
        return false;
      }
      BookStamp(e);
      ghost var mid := run;
      done := SucceedRow(e);
      QuietSuccesses(old(run), mid);
      if done {
        assert run[..|run| - 1] == mid;
      }
    }

    /** The freshness stamp was written. */
    ghost method BookStamp(e: Row)
      requires Valid() && place == Applied(e)
      modifies this`place, this`run
      ensures Valid() && place == Fresh(e) && run == old(run) + [StampSynced]
    {
      hide Exec, Inv;
      Book(Now(), StampSynced);
    }

    method SucceedRow(e: Row) returns (done: bool)
      requires Valid() && place == Fresh(e)
      modifies this, outbox
      ensures Valid()
      ensures if done then place == Idle && run == old(run) + [Succeed] else run == old(run)
      ensures Paid(old(calls), calls, old(run), run, if done then 0 else 1)
      ensures done <==> world(old(calls)).ok
      ensures calls == old(calls) + 1 && tasks == old(tasks)
      ensures done ==> outbox.rows == MarkSucceeded(old(outbox.rows), e.id)
      ensures |outbox.rows| == |old(outbox.rows)|
    {
      hide Exec, Inv;
      ghost var before := Now();
      var b := Ask();
      if !b.ok {
        return false;
      }
      outbox.MarkSucceeded(e.id);
      Book(before, Succeed);
      done := true;
    }

    /** Flag the task if it can be loaded and its state allows it, then dead-letter the entry. A
        task that cannot be loaded does not keep the entry alive; a failed save ends the pass. */
    method ResolveConflict(e: Row) returns (done: bool)
      requires Valid() && place == Clash(e)
      modifies this, outbox
      ensures Valid() && Grew(old(run), run) && Successes(run) == Successes(old(run))
      ensures done ==>
                && place == Idle && run == old(run) + [FlagConflict(world(old(calls)).ok), DeadLetterConflict]
                && outbox.rows == MarkFailed(old(outbox.rows), e.id)
      ensures var saves := world(old(calls)).ok && e.task in old(tasks)
                           && old(tasks)[e.task].sync in {DirtyLocal, DirtyRemote, Synced};
              && (done <==> if saves then world(old(calls) + 1).ok && world(old(calls) + 2).ok
                            else world(old(calls) + 1).ok)
              && (done ==> tasks == if saves then old(tasks)[e.task := old(tasks)[e.task].(sync := Conflict)]
                                    else old(tasks))
      ensures Paid(old(calls), calls, old(run), run, if done then 0 else 2)
      ensures !done ==> SomeFailed(world, old(calls), calls)
      ensures tasks.Keys == old(tasks).Keys
      ensures |outbox.rows| == |old(outbox.rows)|
    {
      hide Exec, Inv, Enabled, Step, Outbox.MarkFailed;
      var loaded, saved := TrySaveFlag(e);
      if !saved {
        return false;
      }
      FlagTask(e, loaded);
      done := BuryConflict(e);
      QuietSuccesses(old(run), run);
    }

    /** Load the task and, if its state can be flagged, save it. */
    method TrySaveFlag(e: Row) returns (loaded: bool, saved: bool)
      modifies this`calls
      ensures loaded == world(old(calls)).ok
      ensures calls == old(calls) + if loaded && Flaggable(tasks, e.task) then 2 else 1
      ensures saved <==> (loaded && Flaggable(tasks, e.task) ==> world(old(calls) + 1).ok)
    {
      var g := Ask();
      loaded, saved := g.ok, true;
      if loaded && Flaggable(tasks, e.task) {
        var w := Ask();
        saved := w.ok;
      }
    }

    method BuryConflict(e: Row) returns (done: bool)
      requires Valid() && place == ClashFlagged(e)
      modifies this, outbox
      ensures Valid() && tasks == old(tasks)
      ensures done <==> world(old(calls)).ok
      ensures if done
              then place == Idle && run == old(run) + [DeadLetterConflict]
                  && outbox.rows == MarkFailed(old(outbox.rows), e.id)
              else run == old(run)
      ensures Paid(old(calls), calls, old(run), run, if done then 0 else 1)
      ensures calls == old(calls) + 1
      ensures |outbox.rows| == |old(outbox.rows)|
    {
      hide Exec, Inv, Outbox.MarkFailed;
      ghost var before := Now();
      var b := Ask();
      if !b.ok {
        return false;
      }
      outbox.MarkFailed(e.id);
      Book(before, DeadLetterConflict);
      done := true;
    }

    method FlagTask(e: Row, loaded: bool)
      requires Valid() && place == Clash(e)
      modifies this`tasks, this`place, this`run
      ensures Valid() && place == ClashFlagged(e) && run == old(run) + [FlagConflict(loaded)]
      ensures tasks == if loaded && Flaggable(old(tasks), e.task)
                       then old(tasks)[e.task := old(tasks)[e.task].(sync := Conflict)] else old(tasks)
    {
      hide Exec, Inv;
      ghost var before := Now();
      if loaded && e.task in tasks {
        tasks := tasks[e.task := Conflicted(tasks[e.task])];
      }
      Book(before, FlagConflict(loaded));
    }

    /** The backoff window starts at a time read after the failure. */
    method ResolveRetry(e: Row) returns (done: bool)
      requires Valid() && place == Failing(e)
      modifies this, outbox
      ensures Valid() && Grew(old(run), run) && Successes(run) == Successes(old(run))
      ensures done <==> world(old(calls)).ok
      ensures done ==>
                && place == Idle && |run| > |old(run)|
                && outbox.rows ==
                   if e.attempts + 1 < cap
                   then RecordRetry(old(outbox.rows), e.id, world(old(calls)).time + DelayFor(delays, e.attempts + 1))
                   else MarkFailed(old(outbox.rows), e.id)
      ensures Paid(old(calls), calls, old(run), run, if done then 0 else 2)
      ensures !done ==> SomeFailed(world, old(calls), calls)
      ensures tasks == old(tasks)
      ensures |outbox.rows| == |old(outbox.rows)|
    {
      hide Exec, Inv, Enabled, Step, Outbox.MarkFailed, Outbox.RecordRetry, DelayFor;
      var a := Ask();
      if !a.ok {
        return false;
      }
      if e.attempts + 1 < cap {
        Reschedule(e, a.time + DelayFor(delays, e.attempts + 1));
      } else {
        Bury(e);
      }
      QuietSuccesses(old(run), run);
      done := true;
    }

    method Reschedule(e: Row, next: Time)
      requires Valid() && place == Failing(e) && e.attempts + 1 < cap
      modifies this`place, this`run, outbox`rows
      ensures Valid() && place == Idle && run == old(run) + [Retry(next)]
      ensures outbox.rows == RecordRetry(old(outbox.rows), e.id, next)
      ensures |outbox.rows| == |old(outbox.rows)|
    {
      hide Exec, Inv, Outbox.RecordRetry;
      ghost var before := Now();
      outbox.RecordRetry(e.id, next);
      Book(before, Retry(next));
    }

    method Bury(e: Row)
      requires Valid() && place == Failing(e) && cap <= e.attempts + 1
      modifies this`place, this`run, outbox`rows
      ensures Valid() && place == Idle && run == old(run) + [DeadLetter]
      ensures outbox.rows == MarkFailed(old(outbox.rows), e.id)
      ensures |outbox.rows| == |old(outbox.rows)|
    {
      hide Exec, Inv, Outbox.MarkFailed;
      ghost var before := Now();
      outbox.MarkFailed(e.id);
      Book(before, DeadLetter);
    }

    /** A port error outside an arm ends the pass where it stands. */
    method AbandonPass() returns (r: PassResult)
      requires Valid()
      modifies this`place, this`run
      ensures Valid() && place == Idle && run == old(run) + [Abort] && r == PassError
    {
      hide Exec, Inv;
      Book(Now(), Abort);
      r := PassError;
    }

    /** One pass: sweep the type intents, then claim and apply until nothing is eligible. The pass
        ends whatever the world answers; its length is bounded by the starting potential. */
    method DrainOnce(pending: seq<TaskId>) returns (r: PassResult)
      requires Valid() && place == Idle
      modifies this, outbox
      ensures Valid() && place == Idle
      ensures r.Drained? ==>
                && Ran(old(run) + [BeginPass(|pending|)], run)
                && r.succeeded == Successes(run) - Successes(old(run))
                && calls > old(calls) && NothingEligible(outbox.rows, world(calls - 1).time)
      ensures r.PassError? ==>
                run != [] && run[|run| - 1] == Abort && Ran(old(run) + [BeginPass(|pending|)], run[..|run| - 1])
      ensures r.PassError? ==> SomeFailed(world, old(calls), calls)
      ensures Good(world) && Loaded(old(outbox.rows), old(tasks)) && (forall t :: t in pending ==> t in old(tasks)) ==>
                r.Drained? && Untroubled(old(outbox.rows), outbox.rows)
      ensures |run| <= |old(run)| + 2 + Total(old(outbox.rows), cap) + Inside(Sweeping(|pending|), cap)
      ensures calls <= old(calls) + 2 * (3 + Total(old(outbox.rows), cap) + Inside(Sweeping(|pending|), cap))
    {
      hide Exec, Inv, Enabled, Step, Potential, Total, Inside, NothingEligible, Good, Loaded;
      hide Untroubled, Ran, Swept, SomeFailed;
      ghost var begun := run + [BeginPass(|pending|)];
      var swept := BeginAndSweep(pending);
      ghost var mid, asked, first := outbox.rows, calls, run;
      if !swept {
        r := AbandonPass();
        assert run[..|run| - 1] == first;
        return;
      }
      var drained := ClaimUntilDry();
      RanMore(begun, first, run);
      RanCosts(origin, begun, run);
      ghost var last := run;
      if drained.None? {
        FailedLater(world, old(calls), asked, calls);
        GoodNeverFails(world, asked, calls);
        r := AbandonPass();
        assert run[..|run| - 1] == last;
        return;
      }
      if Untroubled(mid, outbox.rows) {
        UntroubledMore(old(outbox.rows), mid, outbox.rows);
      }
      r := Drained(drained.value);
    }

    /** The start of a pass: the type sweep over all pending intents. */
    method BeginAndSweep(pending: seq<TaskId>) returns (swept: bool)
      requires Valid() && place == Idle
      modifies this, outbox
      ensures Valid() && Ran(old(run) + [BeginPass(|pending|)], run) && Successes(run) == Successes(old(run))
      ensures Exec(origin, old(run) + [BeginPass(|pending|)]).Some?
      ensures Potential(Exec(origin, old(run) + [BeginPass(|pending|)]).value)
           <= Total(old(outbox.rows), cap) + Inside(Sweeping(|pending|), cap)
      ensures |run| - |old(run)| - 1 <= Total(old(outbox.rows), cap) + Inside(Sweeping(|pending|), cap)
      ensures Paid(old(calls), calls, old(run) + [BeginPass(|pending|)], run, if swept then 0 else 2)
      ensures swept ==> place == Idle && Swept(old(run) + [BeginPass(|pending|)], run, pending, world, old(calls))
      ensures !swept ==> SomeFailed(world, old(calls), calls) && !Good(world)
      ensures tasks == old(tasks) && Untroubled(old(outbox.rows), outbox.rows)
      ensures Loaded(old(outbox.rows), tasks) && (forall t :: t in pending ==> t in tasks) ==>
                Loaded(outbox.rows, tasks)
    {
      hide Exec, Inv, Enabled, Step, Potential, Total, Inside, Good, Loaded, Untroubled, Extends, Swept;
      BookBegin(|pending|);
      ghost var begun := run;
      swept := SweepIssueTypes(pending);
      RanCosts(origin, begun, run);
      QuietSuccesses(begun, run);
      SweepUntroubled(old(outbox.rows), outbox.rows, old(tasks), pending);
      if !swept {
        GoodNeverFails(world, old(calls), calls);
      }
    }

    /** Claim and apply until nothing is eligible; `None` when a port error ends the pass. */
    method ClaimUntilDry() returns (succeeded: Option<nat>)
      requires Valid() && place == Idle
      modifies this, outbox
      ensures Valid() && Ran(old(run), run) && Paid(old(calls), calls, old(run), run, 2)
      ensures succeeded.None? ==> SomeFailed(world, old(calls), calls)
      ensures Good(world) && Loaded(old(outbox.rows), old(tasks)) ==>
                succeeded.Some? && Untroubled(old(outbox.rows), outbox.rows)
      ensures succeeded.Some? ==>
                && place == Idle && succeeded.value == Successes(run) - Successes(old(run))
                && calls > old(calls) && NothingEligible(outbox.rows, world(calls - 1).time)
    {
      hide Exec, Inv, Enabled, Step, Potential, NothingEligible, Good, Loaded, Untroubled, Turned;
      NoTurn(outbox.rows);
      var count := 0;
      while true
        invariant Valid() && place == Idle && Ran(old(run), run) && Paid(old(calls), calls, old(run), run, 0)
        invariant count == Successes(run) - Successes(old(run))
        invariant Good(world) && Loaded(old(outbox.rows), old(tasks)) ==>
                    Untroubled(old(outbox.rows), outbox.rows) && Loaded(outbox.rows, tasks)
        decreases Potential(Now())
      {
        ghost var top, mid, asked := run, outbox.rows, calls;
        var more, stamped := ClaimAndApply();
        if Good(world) && Loaded(old(outbox.rows), old(tasks)) {
          UntroubledMore(old(outbox.rows), mid, outbox.rows);
        }
        if more.None? {
          return Some(count);
        }
        if !more.value {
          FailedLater(world, old(calls), asked, calls);
          return None;
        }
        RanCosts(origin, top, run);
        count := count + if stamped then 1 else 0;
      }
    }

    ghost method BookBegin(n: nat)
      requires Valid() && place == Idle
      modifies this`place, this`run
      ensures Valid() && place == (if n == 0 then Idle else Sweeping(n)) && run == old(run) + [BeginPass(n)]
      ensures Potential(Now()) <= Total(outbox.rows, cap) + Inside(Sweeping(n), cap)
      ensures Successes(run) == Successes(old(run))
    {
      hide Exec, Inv, Total;
      Book(Now(), BeginPass(n));
      assert run[..|run| - 1] == old(run);
    }

    /** One turn of the loop. `None`: nothing is eligible at the time read for the claim. `Some(false)`:
        the pass must stop, because a call failed. Otherwise the claimed row was stamped exactly if the
        answers let its arm through; in a good world it ends succeeded. */
    method ClaimAndApply() returns (more: Option<bool>, stamped: bool)
      requires Valid() && place == Idle
      modifies this, outbox
      ensures Valid() && Ran(old(run), run) && tasks.Keys == old(tasks).Keys
      ensures Paid(old(calls), calls, old(run), run, if more == Some(true) then 0 else 2)
      ensures more.None? ==>
                && run == old(run) && place == Idle && calls == old(calls) + 1 && outbox.rows == old(outbox.rows)
                && NothingEligible(outbox.rows, world(old(calls)).time)
      ensures more == Some(false) ==> SomeFailed(world, old(calls), calls)
      ensures more == Some(true) ==>
                && place == Idle && |run| > |old(run)|
                && Successes(run) == Successes(old(run)) + (if stamped then 1 else 0)
                && exists j :: Turned(old(outbox.rows), old(tasks), j, world, old(calls), stamped, outbox.rows)
      ensures Good(world) && Loaded(old(outbox.rows), old(tasks)) ==>
                more != Some(false) && Untroubled(old(outbox.rows), outbox.rows) && Loaded(outbox.rows, tasks)
    {
      hide Exec, Inv, Enabled, Step, NothingEligible, Outcome, Extends, Untroubled, Loaded, Turned, Good;
      hide MarkSucceeded, IsClaim, Stamps, Clashes, Projections, SomeFailed;
      more, stamped := Some(false), false;
      var t := Ask();
      if !t.ok {
        NotGood(world, old(calls));
        return;
      }
      ghost var j;
      var claim;
      claim, j := ClaimNext(t.time);
      if claim.None? {
        more := None;
        NoTurn(outbox.rows);
        return;
      }
      var d := Apply(claim.value);
      QuietSuccesses(old(run), run);
      ghost var k, applied, id := calls, outbox.rows, outbox.nextId;
      EveryRunKeeps(origin, run);
      UniqueNow(Now());
      var done := Resolve(claim.value, d);
      more, stamped := Some(done), d.ApplyStamped?;
      if done {
        TurnDone(old(outbox.rows), old(tasks), tasks, j, world, old(calls), claim.value, d, applied, id, outbox.rows);
      } else {
        FailedLater(world, old(calls), k, calls);
        GoodNeverFails(world, k, calls);
      }
    }

    method ClaimNext(now: Time) returns (claim: Option<Row>, ghost j: nat)
      requires Valid() && place == Idle
      modifies this`place, this`run, outbox`rows
      ensures Valid()
      ensures claim.None? ==>
                run == old(run) && place == Idle && outbox.rows == old(outbox.rows) && NothingEligible(outbox.rows, now)
      ensures claim.Some? ==> Grew(old(run), run) && |run| > |old(run)| && place == Applying(claim.value)
      ensures claim.Some? ==>
                && IsClaim(old(outbox.rows), j, now)
                && outbox.rows == Claimed(old(outbox.rows), j) && claim.value == outbox.rows[j]
    {
      hide Exec, Inv, Blocks, Before, Eligible;
      ghost var before := Now();
      var k;
      claim, k := outbox.ClaimNextEligible(now);
      j := k;
      if claim.Some? {
        Book(before, Claim(k, now));
      }
    }
  }
}
