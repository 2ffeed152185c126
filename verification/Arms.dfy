/** What the apply arms owe to the answers they get: the disposition of an entry and the follow-ups a
    card owes, as conditions on the world's answers from call `k` on. */
module Arms {
  import opened Options
  import opened Outbox
  import opened Protocol

  /** The task's board as the resolvers see it: the field and option each projection would use. */
  datatype Board = Board(
    id: string,
    status: Option<(string, string)>,
    priority: Option<(string, string)>,
    custom: Option<(string, Option<string>)>)

  /** What the outside world answers to one port call; `time` is what a clock read at that point
      shows, and need not go forward. */
  datatype Answer = Answer(
    ok: bool,
    time: Time,
    id: string,
    number: nat,
    agrees: bool,
    board: Option<Board>,
    projection: Option<Mutation>)

  type World = nat -> Answer

  datatype Disposition = ApplyStamped | ApplyRetry | ApplyConflict

  // ---------- What a new card owes --------------------------------------------------

  /** The type projection the resolvers answer with, if any. */
  function TypeOwed(a: Answer): (m: Option<Mutation>)
    ensures m.Some? <==> a.projection.Some? && (a.projection.value.SetIssueType? || a.projection.value.SetProjectType?)
    ensures m.Some? ==> m == a.projection
  {
    if a.projection.Some? && TypeProjection(a.projection.value) then a.projection else None
  }

  /** The status, priority and type writes a card on `project` owes, as its board resolves them. A
      workspace without a project, or one that moved to another project, owes nothing. */
  function Projections(board: Option<Board>, project: string, item: string)
    : (ms: Owing)
    ensures board.None? || board.value.id != project ==> ms == (None, None, None)
    ensures board.Some? && board.value.id == project ==>
              && (ms.0.Some? <==> board.value.status.Some?) && (ms.1.Some? <==> board.value.priority.Some?)
              && (ms.2.Some? <==> board.value.custom.Some?)
    ensures ms.0.Some? ==>
              && ms.0.value.SetProjectStatus? && ms.0.value.project == project && ms.0.value.item == item
              && board.value.status == Some((ms.0.value.field, ms.0.value.option))
    ensures ms.1.Some? ==>
              && ms.1.value.SetProjectPriority? && ms.1.value.project == project && ms.1.value.item == item
              && board.value.priority == Some((ms.1.value.field, ms.1.value.option))
    ensures ms.2.Some? ==>
              && ms.2.value.SetProjectType? && ms.2.value.project == project && ms.2.value.item == item
              && board.value.custom == Some((ms.2.value.field, ms.2.value.choice))
  {
    if board.None? || board.value.id != project then (None, None, None)
    else
      var b := board.value;
      (match b.status
       case Some(s) => Some(SetProjectStatus(project, item, s.0, s.1))
       case None => None,
       match b.priority
       case Some(p) => Some(SetProjectPriority(project, item, p.0, p.1))
       case None => None,
       match b.custom
       case Some(c) => Some(SetProjectType(project, item, c.0, c.1, c.1))
       case None => None)
  }

  /** The owed mutation, if any, was enqueued and nothing else changed. */
  ghost predicate Owed(before: seq<Row>, task: TaskId, m: Option<Mutation>, after: seq<Row>) {
    if m.None? then after == before
    else exists id, at :: after == Insert(before, NewRow(id, task, m.value, at))
  }

  ghost predicate OwedAll(before: seq<Row>, task: TaskId, ms: Owing, after: seq<Row>) {
    exists one, two :: Owed(before, task, ms.0, one) && Owed(one, task, ms.1, two) && Owed(two, task, ms.2, after)
  }

  // ---------- When an entry is stamped -------------------------------------------------

  type Owing = (Option<Mutation>, Option<Mutation>, Option<Mutation>)

  /** One enqueue answers for each mutation owed, from call `k` on. */
  predicate EnqueuesOk(world: World, k: nat, ms: Owing) {
    var two := k + if ms.0.Some? then 1 else 0;
    var three := two + if ms.1.Some? then 1 else 0;
    (ms.0.Some? ==> world(k).ok) && (ms.1.Some? ==> world(two).ok) && (ms.2.Some? ==> world(three).ok)
  }

  /** The follow-up phase gets through: the board lookup at `k` answers, and so does one enqueue for
      each projection owed. */
  predicate FollowUpsOk(world: World, k: nat, project: string, item: string) {
    world(k).ok && EnqueuesOk(world, k + 1, Projections(world(k).board, project, item))
  }

  /** The mutations are the projections of the entry's own card, in the order they are enqueued. */
  predicate Fit(e: Row, item: string, ms: Owing) {
    && (ms.0.Some? ==> FollowUpFits(e, item, 3, ms.0.value))
    && (ms.1.Some? ==> FollowUpFits(e, item, 2, ms.1.value))
    && (ms.2.Some? ==> FollowUpFits(e, item, 1, ms.2.value))
  }

  lemma ProjectionsFit(e: Row, board: Option<Board>, item: string)
    requires e.mutation.AddItem? || e.mutation.CreateDraftIssue?
    ensures Fit(e, item, Projections(board, e.mutation.project, item))
  {
    hide Projections;
  }

  /** A new card is written back and followed up. */
  predicate KeptOk(world: World, k: nat, known: bool, project: string, item: string) {
    world(k).ok && known && FollowUpsOk(world, k + 1, project, item)
  }

  predicate Targets(a: Answer, project: string) {
    a.board.Some? && a.board.value.id == project
  }

  /** The entry is applied: every call its arm makes answers, with a usable handle where one is asked
      for, and the task can be loaded where the arm needs it. */
  predicate Stamps(e: Row, tasks: map<TaskId, TaskRow>, world: World, k: nat) {
    match e.mutation
    case AddItem(project, _) =>
      && world(k).ok && world(k).id != "" && world(k + 1).ok
      && (Targets(world(k + 1), project) ==> KeptOk(world, k + 2, e.task in tasks, project, world(k).id))
    case CreateDraftIssue(project, _, _) =>
      && world(k).ok && e.task in tasks
      && if tasks[e.task].itemId.Some? then FollowUpsOk(world, k + 1, project, tasks[e.task].itemId.value)
         else world(k + 1).ok && world(k + 1).id != "" && KeptOk(world, k + 2, true, project, world(k + 1).id)
    case ConvertDraftToIssue(_, _) =>
      && world(k).ok && e.task in tasks
      && if tasks[e.task].remote.Some? && tasks[e.task].remote.value.node.Some? then world(k + 1).ok
         else
           && world(k + 1).ok && IssueHandle(world(k + 1).id, world(k + 1).number)
           && world(k + 2).ok && world(k + 3).ok
    case _ =>
      && (e.mutation.UpdateRemote? || e.mutation.UpdateDraftIssue? ==> e.task in tasks)
      && world(k).ok && (e.mutation.UpdateRemote? || e.mutation.SetProjectStatus? ==> world(k).agrees)
  }

  /** The remote answered, but not with what was asked for. */
  predicate Clashes(e: Row, tasks: map<TaskId, TaskRow>, world: World, k: nat) {
    match e.mutation
    case AddItem(_, _) => world(k).ok && world(k).id == ""
    case CreateDraftIssue(_, _, _) =>
      world(k).ok && e.task in tasks && tasks[e.task].itemId.None? && world(k + 1).ok && world(k + 1).id == ""
    case ConvertDraftToIssue(_, _) =>
      && world(k).ok && e.task in tasks
      && !(tasks[e.task].remote.Some? && tasks[e.task].remote.value.node.Some?)
      && world(k + 1).ok && !IssueHandle(world(k + 1).id, world(k + 1).number)
    case UpdateRemote(_, _) => e.task in tasks && world(k).ok && !world(k).agrees
    case SetProjectStatus(_, _, _, _) => world(k).ok && !world(k).agrees
    case _ => false
  }

  function Outcome(e: Row, tasks: map<TaskId, TaskRow>, world: World, k: nat): Disposition {
    if Stamps(e, tasks, world, k) then ApplyStamped
    else if Clashes(e, tasks, world, k) then ApplyConflict
    else ApplyRetry
  }

  /** Every call answers, agrees, and carries usable handles. */
  ghost predicate Good(world: World) {
    forall k: nat :: world(k).ok && world(k).agrees && IssueHandle(world(k).id, world(k).number)
  }

  /** In a good world every entry whose task loads is stamped. */
  lemma GoodWorldStamps(e: Row, tasks: map<TaskId, TaskRow>, world: World, k: nat)
    requires Good(world) && e.task in tasks
    ensures Outcome(e, tasks, world, k) == ApplyStamped
  {
    assert world(k).ok && world(k + 1).ok && world(k + 2).ok && world(k + 3).ok;
    GoodFollowUps(world);
  }

  lemma GoodFollowUps(world: World)
    requires Good(world)
    ensures forall k: nat, project, item :: FollowUpsOk(world, k, project, item)
  {
  }

  /** Some call from `from` up to `to` failed. */
  ghost predicate SomeFailed(world: World, from: nat, to: nat) {
    exists k: nat :: from <= k < to && !world(k).ok
  }

  // ---------- What a pass does to the table -----------------------------------------------

  /** Rows were only appended, fresh and pending, for tasks in `ts`. */
  predicate Extends(before: seq<Row>, after: seq<Row>, ts: set<TaskId>) {
    && before <= after
    && forall i :: |before| <= i < |after| ==>
         after[i].status.Pending? && after[i].attempts == 0 && after[i].task in ts
  }

  lemma ExtendsMore(a: seq<Row>, b: seq<Row>, c: seq<Row>, ts: set<TaskId>)
    requires Extends(a, b, ts) && Extends(b, c, ts)
    ensures Extends(a, c, ts)
  {
  }

  lemma OwedExtends(before: seq<Row>, task: TaskId, m: Option<Mutation>, after: seq<Row>)
    requires Owed(before, task, m, after)
    ensures Extends(before, after, {task})
  {
  }

  /** The unresolved rows' tasks can be loaded. */
  predicate Loaded(rows: seq<Row>, tasks: map<TaskId, TaskRow>) {
    forall i :: 0 <= i < |rows| && !Terminal(rows[i]) ==> rows[i].task in tasks
  }

  /** Every row that was touched succeeded at its first attempt: a row is as before or was pending and
      succeeded, and a new row is untried or succeeded. */
  predicate Untroubled(before: seq<Row>, after: seq<Row>) {
    && |before| <= |after|
    && (forall i :: 0 <= i < |before| ==>
          after[i] == before[i] || (before[i].status.Pending? && after[i] == before[i].(status := Succeeded)))
    && (forall i :: |before| <= i < |after| ==>
          after[i].attempts == 0 && (after[i].status.Pending? || after[i].status.Succeeded?))
  }

  lemma UntroubledMore(a: seq<Row>, b: seq<Row>, c: seq<Row>)
    requires Untroubled(a, b) && Untroubled(b, c)
    ensures Untroubled(a, c)
  {
    forall i | 0 <= i < |a|
      ensures c[i] == a[i] || (a[i].status.Pending? && c[i] == a[i].(status := Succeeded))
    {
      assert b[i] == a[i] || (a[i].status.Pending? && b[i] == a[i].(status := Succeeded));
    }
    forall i | |a| <= i < |c|
      ensures c[i].attempts == 0 && (c[i].status.Pending? || c[i].status.Succeeded?)
    {
      assert i < |b| ==> c[i] == b[i] || c[i] == b[i].(status := Succeeded);
    }
  }

  lemma ExtendsUntroubled(before: seq<Row>, after: seq<Row>, ts: set<TaskId>)
    requires Extends(before, after, ts)
    ensures Untroubled(before, after)
  {
  }

  /** Claim, append, succeed: one untroubled turn. */
  lemma TurnUntroubled(rows: seq<Row>, j: nat, applied: seq<Row>, nextId: nat, ts: set<TaskId>)
    requires j < |rows| && rows[j].status.Pending?
    requires Extends(Claimed(rows, j), applied, ts) && UniqueIds(applied, nextId)
    ensures Untroubled(rows, MarkSucceeded(applied, rows[j].id))
    ensures MarkSucceeded(applied, rows[j].id)[j].status.Succeeded?
  {
    var after := MarkSucceeded(applied, rows[j].id);
    assert applied[j] == Claimed(rows, j)[j];
    forall i | 0 <= i < |rows|
      ensures after[i] == rows[i] || (rows[i].status.Pending? && after[i] == rows[i].(status := Succeeded))
    {
      assert applied[i] == Claimed(rows, j)[i];
      if i != j {
        assert applied[i].id != applied[j].id;
      }
    }
    forall i | |rows| <= i < |after|
      ensures after[i].attempts == 0 && (after[i].status.Pending? || after[i].status.Succeeded?)
    {
      assert applied[i].status.Pending?;
    }
  }

  lemma LoadedAfter(rows: seq<Row>, applied: seq<Row>, tasks: map<TaskId, TaskRow>, more: map<TaskId, TaskRow>,
                    j: nat, id: nat)
    requires j < |rows| && Loaded(rows, tasks) && !Terminal(rows[j]) && more.Keys == tasks.Keys
    requires Extends(Claimed(rows, j), applied, {rows[j].task})
    ensures Loaded(MarkSucceeded(applied, id), more)
  {
    var after := MarkSucceeded(applied, id);
    forall i | 0 <= i < |after| && !Terminal(after[i])
      ensures after[i].task in more
    {
      assert i < |rows| ==> applied[i] == Claimed(rows, j)[i];
    }
  }

  lemma LoadedExtends(rows: seq<Row>, after: seq<Row>, tasks: map<TaskId, TaskRow>, ts: set<TaskId>)
    requires Loaded(rows, tasks) && Extends(rows, after, ts) && ts <= tasks.Keys
    ensures Loaded(after, tasks)
  {
    forall i | 0 <= i < |after| && !Terminal(after[i])
      ensures after[i].task in tasks
    {
      assert i < |rows| ==> after[i] == rows[i];
    }
  }
}
