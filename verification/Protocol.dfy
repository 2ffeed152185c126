/** The outbox protocol as a step system. A state is the table, the task rows the drainer writes
    back to, and where the drainer stands inside the entry it is applying; an action is one port
    call together with its answer, or something the rest of the world does. A crash, and a port
    error that aborts the pass, are both `Abort`: the pass stops where it is and nothing is
    undone. Edits by other processes never touch the task being applied. */
module Protocol {
  import opened Options
  import opened Outbox
  import opened TaskStates

  datatype RemoteRef = RemoteRef(number: nat, node: Option<string>)

  datatype TaskRow = TaskRow(itemId: Option<string>, remote: Option<RemoteRef>, sync: SyncState)

  /** Where the drainer stands; `e` is the claimed entry as the claim returned it. */
  datatype Place =
    | Idle
    | Sweeping(left: nat)
    | Applying(e: Row)
    | CallCreate(e: Row)
    | Minted(e: Row, item: string)
    | CallAdd(e: Row)
    | Attached(e: Row, item: string)
    | Targeted(e: Row, item: string)
    | FollowUps(e: Row, item: string, left: nat)
    | CallConvert(e: Row)
    | Converted(e: Row, node: string, number: nat)
    | TypeFollowUp(e: Row)
    | CallOther(e: Row)
    | Applied(e: Row)
    | Fresh(e: Row)
    | Clash(e: Row)
    | ClashFlagged(e: Row)
    | Failing(e: Row)

  datatype State = State(
    rows: seq<Row>,
    nextId: nat,
    cap: nat,
    tasks: map<TaskId, TaskRow>,
    place: Place)

  datatype Action =
    // The rest of the world.
    | Enqueue(task: TaskId, mutation: Mutation, at: Time)
    | EnqueueIfAbsent(task: TaskId, mutation: Mutation, at: Time)
    | Detach(task: TaskId)
    | Edit(task: TaskId, row: TaskRow)
    | BeginPass(left: nat)
    | Abort
    | RequeueOrphans
    // The drainer.
    | SweepOne(task: TaskId, follow: Option<Mutation>, at: Time)
    | Claim(j: nat, now: Time)
    | Load
    | CreateAnswered(item: string)
    | AddAnswered(item: string)
    | WriteItem
    | TargetAnswered(target: Option<string>)
    | FollowUp(follow: Option<Mutation>, at: Time)
    | ConvertAnswered(node: string, number: nat)
    | WriteIssue
    | FollowUpType(follow: Option<Mutation>, at: Time)
    | OtherAnswered(agrees: bool)
    | PortFails
    | StampSynced
    | Succeed
    | FlagConflict(loaded: bool)
    | DeadLetterConflict
    | Retry(next: Time)
    | DeadLetter

  predicate ByDrainer(a: Action) {
    !(a.Enqueue? || a.EnqueueIfAbsent? || a.Detach? || a.Edit? || a.BeginPass? || a.Abort? || a.RequeueOrphans?)
  }

  predicate HasEntry(p: Place) {
    !p.Idle? && !p.Sweeping?
  }

  predicate InsideApply(p: Place) {
    HasEntry(p) && !p.Applied? && !p.Fresh? && !p.Clash? && !p.ClashFlagged? && !p.Failing?
  }

  predicate HasItem(s: State, t: TaskId) {
    t in s.tasks && s.tasks[t].itemId.Some?
  }

  predicate HasNode(s: State, t: TaskId) {
    t in s.tasks && s.tasks[t].remote.Some? && s.tasks[t].remote.value.node.Some?
  }

  predicate IssueHandle(node: string, number: nat) {
    "I_" <= node && number != 0
  }

  // ---------- Guards and effects --------------------------------------------

  predicate FollowUpFits(e: Row, item: string, left: nat, m: Mutation) {
    && (left == 3 ==> m.SetProjectStatus?)
    && (left == 2 ==> m.SetProjectPriority?)
    && (left == 1 ==> m.SetProjectType?)
    && (m.SetProjectStatus? || m.SetProjectPriority? || m.SetProjectType?)
    && m.item == item
    && (e.mutation.AddItem? || e.mutation.CreateDraftIssue?) && m.project == e.mutation.project
  }

  /** The arms that load the task before calling the remote. */
  predicate ReadsTask(m: Mutation) {
    m.UpdateRemote? || m.CreateDraftIssue? || m.UpdateDraftIssue? || m.ConvertDraftToIssue?
  }

  predicate Enabled(s: State, a: Action) {
    match a
    case Enqueue(_, _, _) => true
    case EnqueueIfAbsent(_, _, _) => true
    case Detach(_) => true
    case Edit(t, _) => HasEntry(s.place) ==> s.place.e.task != t
    case BeginPass(_) => s.place.Idle?
    case Abort => true
    case RequeueOrphans => s.place.Idle?
    case SweepOne(_, m, _) => s.place.Sweeping? && s.place.left > 0 && (m.Some? ==> TypeProjection(m.value))
    case Claim(j, now) => s.place.Idle? && IsClaim(s.rows, j, now)
    case Load => s.place.Applying? && (ReadsTask(s.place.e.mutation) ==> s.place.e.task in s.tasks)
    case CreateAnswered(_) => s.place.CallCreate?
    case AddAnswered(_) => s.place.CallAdd?
    case WriteItem => (s.place.Minted? || s.place.Targeted?) && s.place.e.task in s.tasks
    case TargetAnswered(_) => s.place.Attached? && s.place.e.mutation.AddItem?
    case FollowUp(m, _) =>
      && s.place.FollowUps? && s.place.left > 0
      && (m.Some? ==> FollowUpFits(s.place.e, s.place.item, s.place.left, m.value))
    case ConvertAnswered(_, _) => s.place.CallConvert?
    case WriteIssue => s.place.Converted? && s.place.e.task in s.tasks
    case FollowUpType(m, _) => s.place.TypeFollowUp? && (m.Some? ==> TypeProjection(m.value))
    case OtherAnswered(agrees) =>
      s.place.CallOther? && (agrees || s.place.e.mutation.UpdateRemote? || s.place.e.mutation.SetProjectStatus?)
    case PortFails => InsideApply(s.place)
    case StampSynced => s.place.Applied?
    case Succeed => s.place.Fresh?
    case FlagConflict(_) => s.place.Clash?
    case DeadLetterConflict => s.place.ClashFlagged?
    case Retry(_) => s.place.Failing? && s.place.e.attempts + 1 < s.cap
    case DeadLetter => s.place.Failing? && s.cap <= s.place.e.attempts + 1
  }

  function Append(s: State, task: TaskId, m: Mutation, at: Time): State {
    s.(rows := Insert(s.rows, NewRow(s.nextId, task, m, at)), nextId := s.nextId + 1)
  }

  function AppendSome(s: State, task: TaskId, m: Option<Mutation>, at: Time): State {
    if m.Some? then Append(s, task, m.value, at) else s
  }

  /** The apply arms' entry points, with the two replay guards. */
  function Route(s: State, e: Row): Place
    requires ReadsTask(e.mutation) ==> e.task in s.tasks
  {
    match e.mutation
    case AddItem(_, _) => CallAdd(e)
    case CreateDraftIssue(_, _, _) =>
      if HasItem(s, e.task) then FollowUps(e, s.tasks[e.task].itemId.value, 3) else CallCreate(e)
    case ConvertDraftToIssue(_, _) =>
      if HasNode(s, e.task) then TypeFollowUp(e) else CallConvert(e)
    case _ => CallOther(e)
  }

  function Conflicted(t: TaskRow): TaskRow {
    t.(sync := MarkConflicted(t.sync))
  }

  function Step(s: State, a: Action): State
    requires Enabled(s, a)
  {
    match a
    case Enqueue(t, m, at) => Append(s, t, m, at)
    case EnqueueIfAbsent(t, m, at) =>
      s.(rows := InsertIfAbsent(s.rows, NewRow(s.nextId, t, m, at)), nextId := s.nextId + 1)
    case Detach(t) => s.(rows := DeletePendingAdds(s.rows, t))
    case Edit(t, row) => s.(tasks := s.tasks[t := row])
    case BeginPass(left) => s.(place := if left == 0 then Idle else Sweeping(left))
    case Abort => s.(place := Idle)
    case RequeueOrphans => s.(rows := Requeue(s.rows))
    case SweepOne(t, m, at) =>
      AppendSome(s, t, m, at).(place := if s.place.left == 1 then Idle else Sweeping(s.place.left - 1))
    case Claim(j, _) => s.(rows := Claimed(s.rows, j), place := Applying(Claimed(s.rows, j)[j]))
    case Load => s.(place := Route(s, s.place.e))
    case CreateAnswered(item) => s.(place := if item == "" then Clash(s.place.e) else Minted(s.place.e, item))
    case AddAnswered(item) => s.(place := if item == "" then Clash(s.place.e) else Attached(s.place.e, item))
    case WriteItem =>
      s.(tasks := s.tasks[s.place.e.task := s.tasks[s.place.e.task].(itemId := Some(s.place.item))],
         place := FollowUps(s.place.e, s.place.item, 3))
    case TargetAnswered(target) =>
      s.(place := if target == Some(s.place.e.mutation.project) then Targeted(s.place.e, s.place.item)
          else Applied(s.place.e))
    case FollowUp(m, at) =>
      AppendSome(s, s.place.e.task, m, at).(
        place := if s.place.left == 1 then Applied(s.place.e) else FollowUps(s.place.e, s.place.item, s.place.left - 1))
    case ConvertAnswered(node, number) =>
      s.(place := if IssueHandle(node, number) then Converted(s.place.e, node, number) else Clash(s.place.e))
    case WriteIssue =>
      s.(tasks := s.tasks[s.place.e.task := s.tasks[s.place.e.task].(remote := Some(RemoteRef(s.place.number,
          Some(s.place.node))))],
         place := TypeFollowUp(s.place.e))
    case FollowUpType(m, at) => AppendSome(s, s.place.e.task, m, at).(place := Applied(s.place.e))
    case OtherAnswered(agrees) => s.(place := if agrees then Applied(s.place.e) else Clash(s.place.e))
    case PortFails => s.(place := Failing(s.place.e))
    case StampSynced => s.(place := Fresh(s.place.e))
    case Succeed => s.(rows := MarkSucceeded(s.rows, s.place.e.id), place := Idle)
    case FlagConflict(loaded) =>
      s.(tasks := if loaded && s.place.e.task in s.tasks
                  then s.tasks[s.place.e.task := Conflicted(s.tasks[s.place.e.task])] else s.tasks,
         place := ClashFlagged(s.place.e))
    case DeadLetterConflict => s.(rows := MarkFailed(s.rows, s.place.e.id), place := Idle)
    case Retry(next) => s.(rows := RecordRetry(s.rows, s.place.e.id, next), place := Idle)
    case DeadLetter => s.(rows := MarkFailed(s.rows, s.place.e.id), place := Idle)
  }

  /** The state after a run, or `None` when some action was not enabled. */
  function Exec(s: State, run: seq<Action>): Option<State> {
    if run == [] then Some(s)
    else
      match Exec(s, run[..|run| - 1])
      case None => None
      case Some(mid) => if Enabled(mid, run[|run| - 1]) then Some(Step(mid, run[|run| - 1])) else None
  }

  lemma ExecSnoc(s: State, run: seq<Action>, a: Action)
    requires Exec(s, run).Some? && Enabled(Exec(s, run).value, a)
    ensures Exec(s, run + [a]) == Some(Step(Exec(s, run).value, a))
  {
    assert (run + [a])[..|run + [a]| - 1] == run;
  }

  lemma {:induction false} ExecSplit(s: State, first: seq<Action>, second: seq<Action>)
    requires Exec(s, first + second).Some?
    ensures Exec(s, first).Some? && Exec(Exec(s, first).value, second) == Exec(s, first + second)
  {
    if second == [] {
      assert first + second == first;
    } else {
      var n := |first + second| - 1;
      assert (first + second)[..n] == first + second[..|second| - 1];
      ExecSplit(s, first, second[..|second| - 1]);
    }
  }

  // ---------- What every reachable state keeps ------------------------------

  /** The claimed entry is still in the table, inflight and unchanged. */
  predicate Owns(s: State) {
    HasEntry(s.place) ==> s.place.e in s.rows && s.place.e.status.Inflight?
  }

  /** Creation and conversion are only called for tasks without the handle, and a finished
      create or convert has its handle written back. */
  predicate Guarded(s: State) {
    && (s.place.CallCreate? || s.place.Minted? ==> s.place.e.mutation.CreateDraftIssue? && !HasItem(s, s.place.e.task))
    && (s.place.CallConvert? || s.place.Converted? ==>
        s.place.e.mutation.ConvertDraftToIssue? && !HasNode(s, s.place.e.task))
    && (s.place.Converted? ==> IssueHandle(s.place.node, s.place.number))
    && (s.place.CallAdd? || s.place.Attached? || s.place.Targeted? ==> s.place.e.mutation.AddItem?)
    && (s.place.Minted? || s.place.Attached? || s.place.Targeted? ==> s.place.item != "")
    && (s.place.FollowUps? ==>
          0 < s.place.left <= 3 && (s.place.e.mutation.AddItem? || s.place.e.mutation.CreateDraftIssue?))
    && (s.place.TypeFollowUp? ==> s.place.e.mutation.ConvertDraftToIssue?)
    && (s.place.CallOther? ==>
          !s.place.e.mutation.CreateDraftIssue? && !s.place.e.mutation.ConvertDraftToIssue?
              && !s.place.e.mutation.AddItem?)
    && (s.place.FollowUps? || s.place.Applied? || s.place.Fresh? ==>
          s.place.e.mutation.CreateDraftIssue? ==> HasItem(s, s.place.e.task))
    && (s.place.TypeFollowUp? || s.place.Applied? || s.place.Fresh? ==>
          s.place.e.mutation.ConvertDraftToIssue? ==> HasNode(s, s.place.e.task))
  }

  predicate Inv(s: State) {
    && s.cap > 0
    && Healthy(s.rows, s.nextId)
    && Owns(s)
    && Guarded(s)
  }

  lemma OwnedIndex(rows: seq<Row>, e: Row, nextId: nat) returns (k: nat)
    requires UniqueIds(rows, nextId) && e in rows
    ensures k < |rows| && rows[k] == e
    ensures forall i :: 0 <= i < |rows| && i != k ==> rows[i].id != e.id
  {
    k :| 0 <= k < |rows| && rows[k] == e;
  }

  lemma AppendKeeps(s: State, task: TaskId, m: Mutation, at: Time)
    requires Inv(s)
    ensures Healthy(Append(s, task, m, at).rows, s.nextId + 1)
    ensures forall r :: r in s.rows ==> r in Append(s, task, m, at).rows
  {
    AppendHealthy(s.rows, NewRow(s.nextId, task, m, at), s.nextId);
  }

  predicate Resolves(a: Action) {
    a.Succeed? || a.DeadLetterConflict? || a.Retry? || a.DeadLetter?
  }

  /** Resolving touches the owned row only, and leaves it terminal or pending. */
  lemma ResolveTouches(s: State, a: Action) returns (k: nat)
    requires UniqueIds(s.rows, s.nextId) && Owns(s) && Enabled(s, a) && Resolves(a)
    ensures var rows := Step(s, a).rows;
            && k < |s.rows| == |rows| && s.rows[k] == s.place.e && s.place.e.status.Inflight?
            && (forall i :: 0 <= i < |rows| && i != k ==> rows[i] == s.rows[i])
            && rows[k].id == s.rows[k].id && rows[k].task == s.rows[k].task
                && rows[k].enqueuedAt == s.rows[k].enqueuedAt
            && rows[k].mutation == s.rows[k].mutation
            && (if a.Retry? then rows[k].status.Pending?
                && rows[k].attempts == s.rows[k].attempts + 1 else Terminal(rows[k]))
    ensures Step(s, a).nextId == s.nextId
  {
    k := OwnedIndex(s.rows, s.place.e, s.nextId);
  }

  lemma RowsKeep(s: State, a: Action)
    requires Inv(s) && Enabled(s, a)
    ensures Healthy(Step(s, a).rows, Step(s, a).nextId)
  {
    hide Guarded, UniqueIds, OneInflight, DuplicateProjection, Absent, IsClaim;
    if Resolves(a) {
      var k := ResolveTouches(s, a);
      ResolveHealthy(s.rows, Step(s, a).rows, k, s.nextId);
    } else if a.Enqueue? {
      AppendKeeps(s, a.task, a.mutation, a.at);
    } else if a.EnqueueIfAbsent? {
      AppendHealthy(s.rows, NewRow(s.nextId, a.task, a.mutation, a.at), s.nextId);
    } else if a.Detach? {
      DeleteHealthy(s.rows, a.task, s.nextId);
    } else if a.RequeueOrphans? {
      RequeueHealthy(s.rows, s.nextId);
    } else if a.SweepOne? || a.FollowUp? || a.FollowUpType? {
      AppendSomeKeeps(s, if a.SweepOne? then a.task else s.place.e.task, a.follow, a.at);
    } else if a.Claim? {
      ClaimHealthy(s.rows, a.j, a.now, s.nextId);
    }
  }

  lemma AppendSomeKeeps(s: State, task: TaskId, m: Option<Mutation>, at: Time)
    requires Inv(s)
    ensures var z := AppendSome(s, task, m, at); Healthy(z.rows, z.nextId)
  {
    if m.Some? {
      AppendKeeps(s, task, m.value, at);
    }
  }

  lemma OwnsKeeps(s: State, a: Action)
    requires Inv(s) && Enabled(s, a)
    ensures Owns(Step(s, a))
  {
    hide Guarded, OneInflight, UniqueIds, DuplicateProjection, Absent;
    if a.Detach? {
      DeleteHealthy(s.rows, a.task, s.nextId);
    } else if a.Claim? {
      assert Claimed(s.rows, a.j)[a.j] in Claimed(s.rows, a.j);
    }
  }

  lemma GuardedKeeps(s: State, a: Action)
    requires Guarded(s) && Enabled(s, a)
    ensures Guarded(Step(s, a)) && Step(s, a).cap == s.cap
  {
    if a.Load? {
      LoadKeepsGuards(s);
    } else if ByDrainer(a) {
      DrainerKeepsGuards(s, a);
    } else {
      OthersKeepGuards(s, a);
    }
  }

  lemma LoadKeepsGuards(s: State)
    requires Guarded(s) && Enabled(s, Load)
    ensures Guarded(Step(s, Load)) && Step(s, Load).cap == s.cap
  {
  }

  lemma DrainerKeepsGuards(s: State, a: Action)
    requires Guarded(s) && Enabled(s, a) && ByDrainer(a) && !a.Load?
    ensures Guarded(Step(s, a)) && Step(s, a).cap == s.cap
  {
    hide Insert, Eligible, FollowUpFits, Route, IsClaim, MarkSucceeded, MarkFailed, RecordRetry;
  }

  lemma OthersKeepGuards(s: State, a: Action)
    requires Guarded(s) && Enabled(s, a) && !ByDrainer(a)
    ensures Guarded(Step(s, a)) && Step(s, a).cap == s.cap
  {
    hide Insert, InsertIfAbsent, DeletePendingAdds, Requeue;
  }

  lemma InvKeeps(s: State, a: Action)
    requires Inv(s) && Enabled(s, a)
    ensures Inv(Step(s, a)) && Step(s, a).cap == s.cap
  {
    RowsKeep(s, a);
    OwnsKeeps(s, a);
    GuardedKeeps(s, a);
    hide Guarded, Healthy, Owns;
  }

  /** Every run from a healthy state, whatever mix of enqueues, claims, answers, failures,
      detaches, edits, crashes and restarts it is, ends in a healthy state. */
  lemma {:induction false} EveryRunKeeps(s: State, run: seq<Action>)
    requires Inv(s) && Exec(s, run).Some?
    ensures Inv(Exec(s, run).value) && Exec(s, run).value.cap == s.cap
  {
    hide Inv, Enabled, Step;
    if run != [] {
      EveryRunKeeps(s, run[..|run| - 1]);
      InvKeeps(Exec(s, run[..|run| - 1]).value, run[|run| - 1]);
    }
  }

  lemma {:induction false} EveryRunStaysUnderCap(s: State, run: seq<Action>)
    requires Inv(s) && UnderCap(s.rows, s.cap) && Exec(s, run).Some?
    ensures UnderCap(Exec(s, run).value.rows, s.cap)
  {
    if run != [] {
      EveryRunStaysUnderCap(s, run[..|run| - 1]);
      EveryRunKeeps(s, run[..|run| - 1]);
      UnderCapKeeps(Exec(s, run[..|run| - 1]).value, run[|run| - 1]);
    }
  }

  lemma UnderCapKeeps(s: State, a: Action)
    requires Inv(s) && UnderCap(s.rows, s.cap) && Enabled(s, a)
    ensures UnderCap(Step(s, a).rows, s.cap)
  {
    hide Guarded, OneInflight, UniqueIds;
    if a.Detach? {
      DeleteHealthy(s.rows, a.task, s.nextId);
      forall i | 0 <= i < |Step(s, a).rows| ensures Step(s, a).rows[i] in s.rows {
      }
    } else if Resolves(a) {
      var k := ResolveTouches(s, a);
    }
  }

  /** Whatever the stamps, in every run no task ever has two entries in flight, and a claim is
      enabled only for a task with none. */
  lemma NeverTwoInflight(s: State, run: seq<Action>)
    requires Inv(s) && Exec(s, run).Some?
    ensures var rows := Exec(s, run).value.rows;
            && OneInflight(rows)
            && forall j: nat, now :: Enabled(Exec(s, run).value, Claim(j, now)) ==>
                 forall i :: 0 <= i < |rows| && rows[i].task == rows[j].task ==> !rows[i].status.Inflight?
  {
    EveryRunKeeps(s, run);
    var rows := Exec(s, run).value.rows;
    forall j: nat, now, i | Enabled(Exec(s, run).value, Claim(j, now)) && 0 <= i < |rows|
        && rows[i].task == rows[j].task
      ensures !rows[i].status.Inflight?
    {
      if i != j {
        ClaimOvertakesExactlyLaterStamps(rows, j, now, i);
      }
    }
  }

  // ---------- Order, for runs whose stamps are in order per task ----------------------

  /** If the step inserts a row, no unresolved sibling carries a later stamp. */
  predicate InOrder(s: State, a: Action)
    requires Enabled(s, a)
  {
    var after := Step(s, a).rows;
    |after| > |s.rows| ==> NotEarlier(s.rows, after[|s.rows|].task, after[|s.rows|].enqueuedAt)
  }

  predicate OrderedRun(s: State, run: seq<Action>)
    requires Exec(s, run).Some?
  {
    run == [] ||
    (OrderedRun(s, run[..|run| - 1]) && InOrder(Exec(s, run[..|run| - 1]).value, run[|run| - 1]))
  }

  predicate Inserts(a: Action) {
    a.Enqueue? || a.EnqueueIfAbsent? || a.SweepOne? || a.FollowUp? || a.FollowUpType?
  }

  /** A step that may insert adds at most one fresh pending row. */
  lemma InsertAddsOne(s: State, a: Action)
    requires Enabled(s, a) && Inserts(a)
    ensures var rows := Step(s, a).rows;
            rows == s.rows || (|rows| == |s.rows| + 1 && rows == s.rows + [rows[|s.rows|]]
                && rows[|s.rows|].status.Pending?)
  {
    hide DuplicateProjection, Absent;
  }

  lemma OrderKeeps(s: State, a: Action)
    requires Inv(s) && Enabled(s, a) && Orderly(s.rows) && InOrder(s, a)
    ensures Orderly(Step(s, a).rows)
  {
    hide Guarded, UniqueIds, OneInflight, Fifo, Clocked, NotEarlier, IsClaim;
    if Inserts(a) {
      InsertAddsOne(s, a);
      if Step(s, a).rows != s.rows {
        AppendOrderlyExactlyWhen(s.rows, Step(s, a).rows[|s.rows|]);
      }
    } else if Resolves(a) {
      var k := ResolveTouches(s, a);
      ResolveHealthy(s.rows, Step(s, a).rows, k, s.nextId);
    } else if a.Detach? {
      DeleteHealthy(s.rows, a.task, s.nextId);
    } else if a.RequeueOrphans? {
      RequeueHealthy(s.rows, s.nextId);
    } else if a.Claim? {
      ClaimHealthy(s.rows, a.j, a.now, s.nextId);
    }
  }

  lemma {:induction false} EveryOrderedRunKeepsOrder(s: State, run: seq<Action>)
    requires Inv(s) && Orderly(s.rows) && Exec(s, run).Some? && OrderedRun(s, run)
    ensures Orderly(Exec(s, run).value.rows)
  {
    hide Inv, Enabled, Step, Orderly, InOrder;
    if run != [] {
      EveryOrderedRunKeepsOrder(s, run[..|run| - 1]);
      EveryRunKeeps(s, run[..|run| - 1]);
      OrderKeeps(Exec(s, run[..|run| - 1]).value, run[|run| - 1]);
    }
  }

  /** Per-task FIFO over whole runs: no claim ever overtakes an older unresolved sibling. */
  lemma ClaimsNeverOvertake(s: State, run: seq<Action>, j: nat, now: Time)
    requires Inv(s) && Orderly(s.rows) && Exec(s, run).Some? && OrderedRun(s, run)
    requires Enabled(Exec(s, run).value, Claim(j, now))
    ensures var rows := Exec(s, run).value.rows;
            && Fifo(rows)
            && (forall i :: 0 <= i < j && rows[i].task == rows[j].task ==> Terminal(rows[i]))
            && (forall i :: j < i < |rows| && rows[i].task == rows[j].task ==> rows[i].status.Pending?)
  {
    EveryOrderedRunKeepsOrder(s, run);
    ClaimTakesTheHead(Exec(s, run).value.rows, j, now);
  }

  /** The replay guards over whole runs: while a task carries its board item no step calls draft
      creation for it, while it carries its issue node no step calls conversion for it, and a
      create or convert entry is marked succeeded only with its handle written back. */
  lemma ReplaysAreGuarded(s: State, run: seq<Action>, t: TaskId)
    requires Inv(s) && Exec(s, run).Some?
    ensures var z := Exec(s, run).value;
            && (HasItem(z, t) ==> !(z.place.CallCreate? && z.place.e.task == t))
            && (HasNode(z, t) ==> !(z.place.CallConvert? && z.place.e.task == t))
            && ((z.place.Applied? || z.place.Fresh?) && z.place.e.mutation.CreateDraftIssue? ==>
                HasItem(z, z.place.e.task))
            && ((z.place.Applied? || z.place.Fresh?) && z.place.e.mutation.ConvertDraftToIssue? ==>
                HasNode(z, z.place.e.task))
  {
    EveryRunKeeps(s, run);
  }
}
