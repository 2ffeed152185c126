/** Tasks with their relations, and the blocker walk over the global relation graph. */
module Blockers {
  import opened Options
  import opened Sorting
  import opened TaskStates

  type TaskId = nat

  datatype RelationKind = ParentOf | ChildOf | Blocks | BlockedBy | RelatedTo | Duplicates

  datatype Relation = Relation(kind: RelationKind, other: TaskId)

  datatype Task = Task(
    id: TaskId,
    title: string,
    lifecycle: Lifecycle,
    inConflict: bool,
    priority: Priority,
    updatedAt: int,
    workspace: nat,
    repo: Option<nat>,
    assignees: seq<string>,
    issueType: Option<string>,
    boardOption: Option<string>,
    relations: seq<Relation>)

  type Graph = map<TaskId, Task>

  function BlockerIds(relations: seq<Relation>): (ids: seq<TaskId>)
    ensures forall b :: b in ids <==> Relation(BlockedBy, b) in relations
  {
    if relations == [] then []
    else
      var r := relations[0];
      (if r.kind.BlockedBy? then [r.other] else []) + BlockerIds(relations[1..])
  }

  predicate Edge(g: Graph, a: TaskId, b: TaskId) {
    a in g && Relation(BlockedBy, b) in g[a].relations
  }

  /** A chain of blocked-by edges; every task on it but perhaps the last is known. */
  predicate Chain(g: Graph, path: seq<TaskId>) {
    |path| >= 2 && forall i :: 0 <= i < |path| - 1 ==> Edge(g, path[i], path[i + 1])
  }

  ghost predicate Reaches(g: Graph, a: TaskId, b: TaskId) {
    exists path :: Chain(g, path) && path[0] == a && path[|path| - 1] == b
  }

  /** Some nonempty chain of blocked-by edges through known tasks leads to an open task. */
  ghost predicate TransitivelyBlocked(g: Graph, t: TaskId) {
    exists b :: Reaches(g, t, b) && b in g && g[b].lifecycle.IsOpen()
  }

  function Mentioned(g: Graph): set<TaskId> {
    set a, i | a in g && 0 <= i < |g[a].relations| :: g[a].relations[i].other
  }

  lemma ReachesEdge(g: Graph, a: TaskId, b: TaskId)
    requires Edge(g, a, b)
    ensures Reaches(g, a, b)
  {
    assert Chain(g, [a, b]);
  }

  lemma ReachesStep(g: Graph, a: TaskId, b: TaskId, c: TaskId)
    requires Reaches(g, a, b) && Edge(g, b, c)
    ensures Reaches(g, a, c)
  {
    var path :| Chain(g, path) && path[0] == a && path[|path| - 1] == b;
    var longer := path + [c];
    forall i | 0 <= i < |longer| - 1 ensures Edge(g, longer[i], longer[i + 1]) {
      if i < |path| - 1 {
        assert Edge(g, path[i], path[i + 1]);
      }
    }
    assert Chain(g, longer) && longer[0] == a && longer[|longer| - 1] == c;
  }

  /** A set that holds the start's blockers and is closed under edges holds everything reachable. */
  lemma {:induction false} ClosedHoldsReachable(g: Graph, start: TaskId, held: set<TaskId>, path: seq<TaskId>)
    requires Chain(g, path) && path[0] == start
    requires forall b :: Edge(g, start, b) ==> b in held
    requires forall a, b :: a in held && Edge(g, a, b) ==> b in held
    ensures path[|path| - 1] in held
    decreases |path|
  {
    var n := |path| - 1;
    assert Edge(g, path[n - 1], path[n]);
    if n > 1 {
      var shorter := path[..n];
      forall i | 0 <= i < |shorter| - 1 ensures Edge(g, shorter[i], shorter[i + 1]) {
        assert Edge(g, path[i], path[i + 1]);
      }
      ClosedHoldsReachable(g, start, held, shorter);
    }
  }

  method IsTransitivelyBlocked(taskId: TaskId, byId: Graph) returns (blocked: bool)
    ensures blocked <==> TransitivelyBlocked(byId, taskId)
  {
    if taskId !in byId {
      forall path | Chain(byId, path) ensures path[0] in byId {
        assert Edge(byId, path[0], path[1]);
      }
      return false;
    }
    var visited: set<TaskId> := {};
    var stack := BlockerIds(byId[taskId].relations);
    forall b | b in stack ensures b in Mentioned(byId) && Reaches(byId, taskId, b) {
      ReachesEdge(byId, taskId, b);
    }
    while stack != []
      invariant forall b :: b in stack ==> b in Mentioned(byId) && Reaches(byId, taskId, b)
      invariant forall b :: b in visited ==> b in byId ==> !byId[b].lifecycle.IsOpen()
      invariant forall b :: Edge(byId, taskId, b) ==> b in visited || b in stack
      invariant forall a, b :: a in visited && Edge(byId, a, b) ==> b in visited || b in stack
      decreases Mentioned(byId) - visited, |stack|
    {
      var current := stack[|stack| - 1];
      ghost var popped := stack;
      stack := stack[..|stack| - 1];
      assert forall b :: b in popped ==> b in stack || b == current;
      if current in visited {
        continue;
      }
      visited := visited + {current};
      if current in byId {
        if byId[current].lifecycle.IsOpen() {
          return true;
        }
        forall b | b in BlockerIds(byId[current].relations) ensures b in Mentioned(byId) && Reaches(byId, taskId, b) {
          ReachesStep(byId, taskId, current, b);
        }
        stack := stack + BlockerIds(byId[current].relations);
      }
    }
    if TransitivelyBlocked(byId, taskId) {
      var b :| Reaches(byId, taskId, b) && b in byId && byId[b].lifecycle.IsOpen();
      var path :| Chain(byId, path) && path[0] == taskId && path[|path| - 1] == b;
      ClosedHoldsReachable(byId, taskId, visited, path);
    }
    blocked := false;
  }

  ghost predicate Ready(g: Graph, t: Task) {
    t.lifecycle.IsOpen() && !t.inConflict && !TransitivelyBlocked(g, t.id)
  }

  predicate FrontierLe(a: Task, b: Task) {
    a.priority < b.priority || (a.priority == b.priority && a.updatedAt <= b.updatedAt)
  }

  /** The ready tasks among the candidates, best priority first, then least recently updated. */
  method SelectReady(byId: Graph, candidates: seq<Task>) returns (ready: seq<Task>)
    ensures forall t :: t in ready <==> t in candidates && Ready(byId, t)
    ensures forall t :: t in ready ==> multiset(ready)[t] == multiset(candidates)[t]
    ensures forall i, j :: 0 <= i < j < |ready| ==>
              || ready[i].priority < ready[j].priority
              || (ready[i].priority == ready[j].priority && ready[i].updatedAt <= ready[j].updatedAt)
  {
    var picked: seq<Task> := [];
    for i := 0 to |candidates|
      invariant forall t :: t in picked ==> t in candidates[..i] && Ready(byId, t)
      invariant forall t :: Ready(byId, t) ==> multiset(picked)[t] == multiset(candidates[..i])[t]
    {
      assert candidates[..i + 1] == candidates[..i] + [candidates[i]];
      var t := candidates[i];
      if t.lifecycle.IsOpen() && !t.inConflict {
        var blocked := IsTransitivelyBlocked(t.id, byId);
        if !blocked {
          picked := picked + [t];
        }
      }
    }
    assert candidates[..|candidates|] == candidates;
    SortByOk(picked, FrontierLe);
    ready := SortBy(picked, FrontierLe);
    forall t ensures t in ready <==> t in candidates && Ready(byId, t) {
      assert t in ready <==> t in multiset(ready);
      assert t in picked <==> t in multiset(picked);
      assert t in candidates <==> t in multiset(candidates);
    }
    forall t | t in ready ensures multiset(ready)[t] == multiset(candidates)[t] {
      assert t in multiset(ready);
    }
  }

  function OpenBlockers(g: Graph, ids: seq<TaskId>): (open: seq<TaskId>)
    ensures forall b :: b in open <==> b in ids && b in g && g[b].lifecycle.IsOpen()
  {
    if ids == [] then []
    else (if ids[0] in g && g[ids[0]].lifecycle.IsOpen() then [ids[0]] else []) + OpenBlockers(g, ids[1..])
  }

  /** What one relation contributes to the blockers of its task. */
  function Contributes(g: Graph, r: Relation): seq<TaskId> {
    if r.kind.BlockedBy? && r.other in g && g[r.other].lifecycle.IsOpen() then [r.other] else []
  }

  function BlockersOf(g: Graph, relations: seq<Relation>): seq<TaskId> {
    OpenBlockers(g, BlockerIds(relations))
  }

  lemma {:induction false} BlockersStep(g: Graph, rs: seq<Relation>)
    ensures BlockersOf(g, rs) == if rs == [] then [] else Contributes(g, rs[0]) + BlockersOf(g, rs[1..])
  {
    if rs != [] {
      var rest := BlockerIds(rs[1..]);
      if rs[0].kind.BlockedBy? {
        assert ([rs[0].other] + rest)[1..] == rest;
      } else {
        assert BlockerIds(rs) == rest;
      }
    }
  }

  lemma {:induction false} BlockersAdd(g: Graph, a: seq<Relation>, b: seq<Relation>)
    ensures BlockersOf(g, a + b) == BlockersOf(g, a) + BlockersOf(g, b)
  {
    hide BlockersOf, Contributes;
    BlockersStep(g, a);
    if a == [] {
      assert a + b == b;
    } else {
      BlockersAdd(g, a[1..], b);
      BlockersStep(g, a + b);
      assert (a + b)[1..] == a[1..] + b;
    }
  }

  /** Each relation of a task contributes its other end, at its own place, exactly when it is a
      blocked-by edge to a known open task. */
  lemma BlockersInOrder(g: Graph, a: seq<Relation>, r: Relation, b: seq<Relation>)
    ensures BlockersOf(g, []) == []
    ensures BlockersOf(g, a + [r] + b) == BlockersOf(g, a) + Contributes(g, r) + BlockersOf(g, b)
  {
    hide BlockersOf, Contributes;
    BlockersStep(g, []);
    BlockersStep(g, [r]);
    assert [r][1..] == [];
    BlockersAdd(g, a + [r], b);
    BlockersAdd(g, a, [r]);
  }

  datatype BlockedRow = BlockedRow(task: Task, blockers: seq<TaskId>)

  /** Skip `offset` rows, then take at most `limit` of what is left. */
  function Paginate<T>(rows: seq<T>, offset: Option<nat>, limit: Option<nat>): (page: seq<T>)
    ensures var skip := if offset.Some? then offset.value else 0;
            var left := if skip < |rows| then |rows| - skip else 0;
            && |page| == (if limit.Some? && limit.value < left then limit.value else left)
            && forall i :: 0 <= i < |page| ==> page[i] == rows[skip + i]
  {
    var skipped := if offset.None? then rows else if offset.value < |rows| then rows[offset.value..] else [];
    if limit.Some? && limit.value < |skipped| then skipped[..limit.value] else skipped
  }

  /** The rows with a still-open direct blocker, in order, each with all such blockers. */
  function Blocked(g: Graph, rows: seq<Task>): seq<BlockedRow> {
    if rows == [] then []
    else
      var last := rows[|rows| - 1];
      var blockers := BlockersOf(g, last.relations);
      Blocked(g, rows[..|rows| - 1]) + if blockers == [] then [] else [BlockedRow(last, blockers)]
  }

  predicate HasOpenBlocker(g: Graph, t: Task) {
    exists b :: b in BlockerIds(t.relations) && b in g && g[b].lifecycle.IsOpen()
  }

  /** The positions of the rows that have an open blocker, in order. */
  function BlockedAt(g: Graph, rows: seq<Task>): (places: seq<nat>)
    ensures forall k :: k in places <==> 0 <= k < |rows| && HasOpenBlocker(g, rows[k])
    ensures forall i, j :: 0 <= i < j < |places| ==> places[i] < places[j]
  {
    if rows == [] then []
    else
      var n := |rows| - 1;
      var front := BlockedAt(g, rows[..n]);
      assert forall i :: 0 <= i < |front| ==> front[i] in front;
      if HasOpenBlocker(g, rows[n]) then front + [n] else front
  }

  lemma HasBlockersExactlyWhen(g: Graph, t: Task)
    ensures BlockersOf(g, t.relations) != [] <==> HasOpenBlocker(g, t)
  {
    var blockers := BlockersOf(g, t.relations);
    if blockers != [] {
      assert blockers[0] in blockers;
    }
    if HasOpenBlocker(g, t) {
      var b :| b in BlockerIds(t.relations) && b in g && g[b].lifecycle.IsOpen();
      assert b in blockers;
    }
  }

  /** The list is the rows at exactly those positions, once each, with exactly their open blockers. */
  lemma {:induction false} BlockedIsExact(g: Graph, rows: seq<Task>)
    ensures var all, places := Blocked(g, rows), BlockedAt(g, rows);
            && |all| == |places|
            && forall i :: 0 <= i < |all| ==>
                 && places[i] in places && all[i].task == rows[places[i]]
                 && all[i].blockers == BlockersOf(g, all[i].task.relations) && all[i].blockers != []
  {
    if rows != [] {
      var n := |rows| - 1;
      BlockedIsExact(g, rows[..n]);
      var front := BlockedAt(g, rows[..n]);
      var blockers := BlockersOf(g, rows[n].relations);
      HasBlockersExactlyWhen(g, rows[n]);
      hide HasOpenBlocker, BlockersOf;
      assert forall i :: 0 <= i < |front| ==> front[i] in front && rows[..n][front[i]] == rows[front[i]];
    }
  }

  /** A task that is listed as blocked is not ready. */
  lemma BlockedIsNotReady(g: Graph, t: Task)
    requires HasOpenBlocker(g, t) && t.id in g && g[t.id] == t
    ensures !Ready(g, t)
  {
    var b :| b in BlockerIds(t.relations) && b in g && g[b].lifecycle.IsOpen();
    ReachesEdge(g, t.id, b);
  }

  /** The row lists exactly the task's open direct blockers, of which there is one. */
  ghost predicate ListsBlockers(g: Graph, r: BlockedRow) {
    && r.blockers != []
    && forall b :: b in r.blockers <==> b in BlockerIds(r.task.relations) && b in g && g[b].lifecycle.IsOpen()
  }

  lemma ListedIsBlocked(g: Graph, rows: seq<Task>, r: BlockedRow)
    requires r in Blocked(g, rows)
    ensures r.task in rows && ListsBlockers(g, r)
    ensures r.task.id in g && g[r.task.id] == r.task ==> !Ready(g, r.task)
  {
    hide Blocked, BlockedAt, Ready, HasOpenBlocker;
    BlockedIsExact(g, rows);
    var i :| 0 <= i < |Blocked(g, rows)| && Blocked(g, rows)[i] == r;
    if r.task.id in g && g[r.task.id] == r.task {
      BlockedIsNotReady(g, r.task);
    }
  }

  /** The blocked rows, paged after filtering: the page is the asked slice of the full list. */
  method BlockedTasks(byId: Graph, rows: seq<Task>, offset: Option<nat>,
                      limit: Option<nat>) returns (page: seq<BlockedRow>)
    ensures page == Paginate(Blocked(byId, rows), offset, limit)
    ensures forall r :: r in page ==> r.task in rows && ListsBlockers(byId, r)
    ensures forall r :: r in page && r.task.id in byId && byId[r.task.id] == r.task ==> !Ready(byId, r.task)
  {
    hide Ready, ListsBlockers, BlockerIds, OpenBlockers;
    var found: seq<BlockedRow> := [];
    for i := 0 to |rows|
      invariant found == Blocked(byId, rows[..i])
    {
      assert rows[..i + 1][..i] == rows[..i];
      var blockers := BlockersOf(byId, rows[i].relations);
      if blockers != [] {
        found := found + [BlockedRow(rows[i], blockers)];
      }
    }
    assert rows[..|rows|] == rows;
    page := Paginate(found, offset, limit);
    forall r | r in page
      ensures r.task in rows && ListsBlockers(byId, r)
      ensures r.task.id in byId && byId[r.task.id] == r.task ==> !Ready(byId, r.task)
    {
      assert r in found;
      ListedIsBlocked(byId, rows, r);
    }
  }
}
