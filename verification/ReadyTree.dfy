/** The nested ready frontier of one workspace: ready tasks under their in-workspace ancestors,
    siblings ordered by the best priority reachable below them. The relation rows may be corrupt,
    so nothing here assumes that parent edges are acyclic. */
module ReadyTree {
  import opened Options
  import opened Sorting
  import opened Blockers
  import opened TaskStates
  import opened ParentChains

  // ---------- Resolving parents ------------------------------------------------

  predicate WellKeyed(g: Graph) {
    forall p :: p in g ==> g[p].id == p
  }

  predicate Claims(g: Graph, p: TaskId, c: TaskId) {
    p in g && p != c && Relation(ParentOf, c) in g[p].relations
  }

  /** Each claimed child maps to the lowest id among the tasks claiming it. */
  ghost predicate IsReverseIndex(g: Graph, index: map<TaskId, TaskId>) {
    && (forall c :: c in index ==> Claims(g, index[c], c))
    && (forall p, c :: Claims(g, p, c) ==> c in index && index[c] <= p)
  }

  method ReverseParentIndex(byId: Graph) returns (index: map<TaskId, TaskId>)
    requires WellKeyed(byId)
    ensures IsReverseIndex(byId, index)
  {
    index := map[];
    var todo := byId.Keys;
    while todo != {}
      invariant todo <= byId.Keys
      invariant forall c :: c in index ==> Claims(byId, index[c], c)
      invariant forall p, c :: Claims(byId, p, c) && p !in todo ==> c in index && index[c] <= p
      decreases todo
    {
      var id :| id in todo;
      todo := todo - {id};
      var parent := byId[id];
      for k := 0 to |parent.relations|
        invariant forall c :: c in index ==> Claims(byId, index[c], c)
        invariant forall p, c :: Claims(byId, p, c) && p !in todo && p != id ==> c in index && index[c] <= p
        invariant forall j :: 0 <= j < k && parent.relations[j].kind.ParentOf? && parent.relations[j].other != id ==>
                    parent.relations[j].other in index && index[parent.relations[j].other] <= id
      {
        var r := parent.relations[k];
        if r.kind.ParentOf? && r.other != parent.id {
          if !(r.other in index && index[r.other] < parent.id) {
            index := index[r.other := parent.id];
          }
        }
      }
    }
  }

  function FirstParentEdge(self: TaskId, relations: seq<Relation>): Option<TaskId> {
    if relations == [] then None
    else if relations[0].kind.ChildOf? && relations[0].other != self then Some(relations[0].other)
    else FirstParentEdge(self, relations[1..])
  }

  /** The task's own child-of edge when it names a known task, else the reverse index. */
  function ParentTask(t: Task, byId: Graph, reverse: map<TaskId, TaskId>): Option<TaskId> {
    var direct := FirstParentEdge(t.id, t.relations);
    if direct.Some? && direct.value in byId then direct
    else if t.id in reverse then Some(reverse[t.id])
    else None
  }

  // What a task's parent is, read off the relations.

  /** Relation `i` says that the task is a child of another task. */
  predicate ChildEdge(t: Task, i: nat) {
    i < |t.relations| && t.relations[i].kind == ChildOf && t.relations[i].other != t.id
  }

  /** The first such relation names `p`. */
  ghost predicate NamesParent(t: Task, p: TaskId) {
    exists i: nat :: ChildEdge(t, i) && t.relations[i].other == p && forall j: nat :: j < i ==> !ChildEdge(t, j)
  }

  /** No known task has a lower id and claims `c` as its child. */
  ghost predicate LowestClaimant(g: Graph, p: TaskId, c: TaskId) {
    Claims(g, p, c) && forall q :: Claims(g, q, c) ==> p <= q
  }

  ghost predicate NamesKnownParent(g: Graph, t: Task) {
    exists p :: NamesParent(t, p) && p in g
  }

  /** `p` is the task's parent: the known task its first child-of relation names, or, when that names
      none, the lowest known task that claims it. */
  ghost predicate Resolves(g: Graph, t: Task, p: TaskId) {
    if NamesKnownParent(g, t) then NamesParent(t, p) && p in g else LowestClaimant(g, p, t.id)
  }

  lemma {:induction false} FirstEdgeNames(t: Task, n: nat)
    requires n <= |t.relations| && forall j: nat :: j < n ==> !ChildEdge(t, j)
    ensures var r := FirstParentEdge(t.id, t.relations[n..]);
            forall p: TaskId :: r == Some(p) <==> NamesParent(t, p)
    decreases |t.relations| - n
  {
    if n == |t.relations| {
      assert t.relations[n..] == [];
    } else if ChildEdge(t, n) {
      assert t.relations[n..][0] == t.relations[n];
      forall p: TaskId
        ensures t.relations[n].other == p <==> NamesParent(t, p)
      {
        if NamesParent(t, p) {
          var i: nat :| ChildEdge(t, i) && t.relations[i].other == p && forall j: nat :: j < i ==> !ChildEdge(t, j);
          assert i == n;
        }
      }
    } else {
      FirstEdgeNames(t, n + 1);
      assert t.relations[n..][0] == t.relations[n] && t.relations[n..][1..] == t.relations[n + 1..];
    }
  }

  /** Looking the parent up in the task's own edge and then the reverse index resolves it. */
  lemma ParentTaskResolves(t: Task, byId: Graph, reverse: map<TaskId, TaskId>)
    requires IsReverseIndex(byId, reverse)
    ensures forall p: TaskId :: ParentTask(t, byId, reverse) == Some(p) <==> Resolves(byId, t, p)
  {
    hide FirstParentEdge, NamesParent, Claims;
    assert t.relations[0..] == t.relations;
    FirstEdgeNames(t, 0);
    forall p: TaskId
      ensures ParentTask(t, byId, reverse) == Some(p) <==> Resolves(byId, t, p)
    {
      if LowestClaimant(byId, p, t.id) {
        assert t.id in reverse && reverse[t.id] <= p && Claims(byId, reverse[t.id], t.id);
      }
    }
  }

  predicate UniqueTasks(ws: seq<Task>) {
    forall i, j :: 0 <= i < j < |ws| ==> ws[i].id != ws[j].id
  }

  function IdsOf(ws: seq<Task>): set<TaskId> {
    set i | 0 <= i < |ws| :: ws[i].id
  }

  function LocalParent(t: Task, ws: seq<Task>, byId: Graph, reverse: map<TaskId, TaskId>): Option<TaskId> {
    var p := ParentTask(t, byId, reverse);
    if p.Some? && p.value in IdsOf(ws) then p else None
  }

  /** `par` maps each task to its parent, if that parent is in the workspace too. */
  ghost predicate IsParentMap(par: Parents, ws: seq<Task>, byId: Graph) {
    && par.Keys == IdsOf(ws)
    && forall i, p: TaskId :: 0 <= i < |ws| ==>
         (par[ws[i].id] == Some(p) <==> p in IdsOf(ws) && Resolves(byId, ws[i], p))
  }

  /** `children` inverts `par`, each child listed once. */
  predicate Inverts(children: map<TaskId, seq<TaskId>>, par: Parents) {
    && (forall p, k :: p in children && 0 <= k < |children[p]| ==>
        children[p][k] in par && par[children[p][k]] == Some(p))
    && (forall c :: c in par && par[c].Some? ==> par[c].value in children && c in children[par[c].value])
    && (forall p, k, l :: p in children && 0 <= k < l < |children[p]| ==> children[p][k] != children[p][l])
  }

  function ChildrenOf(children: map<TaskId, seq<TaskId>>, p: TaskId): seq<TaskId> {
    if p in children then children[p] else []
  }

  function WithChild(children: map<TaskId, seq<TaskId>>, c: TaskId, pid: Option<TaskId>): map<TaskId, seq<TaskId>> {
    if pid.Some? then children[pid.value := ChildrenOf(children, pid.value) + [c]] else children
  }

  lemma InvertsMore(children: map<TaskId, seq<TaskId>>, par: Parents, c: TaskId, pid: Option<TaskId>)
    requires Inverts(children, par) && c !in par
    ensures Inverts(WithChild(children, c, pid), par[c := pid])
  {
    var more, wider := WithChild(children, c, pid), par[c := pid];
    forall x | x in wider && wider[x].Some? ensures wider[x].value in more && x in more[wider[x].value] {
      if x == c {
        assert more[pid.value][|ChildrenOf(children, pid.value)|] == c;
      } else {
        var l := children[par[x].value];
        var k :| 0 <= k < |l| && l[k] == x;
        assert more[par[x].value][k] == x;
      }
    }
  }

  /** The maps cover the first `n` tasks. */
  predicate Mapped(par: Parents, idOf: map<TaskId, Task>, ws: seq<Task>, n: nat, byId: Graph,
                   reverse: map<TaskId, TaskId>)
    requires n <= |ws|
  {
    && par.Keys == idOf.Keys == IdsOf(ws[..n])
    && forall i :: 0 <= i < n ==> par[ws[i].id] == LocalParent(ws[i], ws, byId, reverse) && idOf[ws[i].id] == ws[i]
  }

  lemma MappedMore(par: Parents, idOf: map<TaskId, Task>, ws: seq<Task>, n: nat, byId: Graph,
                   reverse: map<TaskId, TaskId>)
    requires n < |ws| && UniqueTasks(ws) && Mapped(par, idOf, ws, n, byId, reverse)
    ensures ws[n].id !in par
    ensures Mapped(par[ws[n].id := LocalParent(ws[n], ws, byId, reverse)], idOf[ws[n].id := ws[n]], ws, n + 1, byId,
              reverse)
  {
    hide LocalParent, IdsOf;
    IdsMore(ws, n);
    IdIsNew(ws, n);
  }

  lemma IdIsNew(ws: seq<Task>, n: nat)
    requires n < |ws| && UniqueTasks(ws)
    ensures ws[n].id !in IdsOf(ws[..n])
    ensures forall i :: 0 <= i < n ==> ws[i].id != ws[n].id
  {
    assert forall i :: 0 <= i < n ==> ws[..n][i].id != ws[n].id;
  }

  lemma IdsMore(ws: seq<Task>, n: nat)
    requires n < |ws|
    ensures IdsOf(ws[..n + 1]) == IdsOf(ws[..n]) + {ws[n].id}
  {
    forall x | x in IdsOf(ws[..n + 1])
      ensures x in IdsOf(ws[..n]) + {ws[n].id}
    {
      var i :| 0 <= i < n + 1 && ws[..n + 1][i].id == x;
      assert i < n ==> ws[..n][i].id == x;
    }
    forall x | x in IdsOf(ws[..n]) + {ws[n].id}
      ensures x in IdsOf(ws[..n + 1])
    {
      if x in IdsOf(ws[..n]) {
        var i :| 0 <= i < n && ws[..n][i].id == x;
        assert ws[..n + 1][i].id == x;
      } else {
        assert ws[..n + 1][n].id == x;
      }
    }
  }

  lemma MappedAll(par: Parents, idOf: map<TaskId, Task>, ws: seq<Task>, byId: Graph, reverse: map<TaskId, TaskId>)
    requires Mapped(par, idOf, ws, |ws|, byId, reverse) && IsReverseIndex(byId, reverse)
    ensures IsParentMap(par, ws, byId) && Closed(par)
    ensures idOf.Keys == IdsOf(ws) && forall i :: 0 <= i < |ws| ==> idOf[ws[i].id] == ws[i]
  {
    hide Resolves, ParentTask, IsReverseIndex;
    assert ws[..|ws|] == ws;
    forall i, p: TaskId | 0 <= i < |ws|
      ensures par[ws[i].id] == Some(p) <==> p in IdsOf(ws) && Resolves(byId, ws[i], p)
    {
      ParentTaskResolves(ws[i], byId, reverse);
    }
    forall x | x in par && par[x].Some?
      ensures par[x].value in par
    {
      var i :| 0 <= i < |ws| && ws[i].id == x;
    }
  }

  method ParentsAndChildren(ws: seq<Task>, byId: Graph, reverse: map<TaskId, TaskId>)
    returns (par: Parents, children: map<TaskId, seq<TaskId>>, idOf: map<TaskId, Task>)
    requires UniqueTasks(ws) && IsReverseIndex(byId, reverse)
    ensures IsParentMap(par, ws, byId) && Closed(par)
    ensures Inverts(children, par)
    ensures idOf.Keys == IdsOf(ws) && forall i :: 0 <= i < |ws| ==> idOf[ws[i].id] == ws[i]
  {
    par, children, idOf := map[], map[], map[];
    assert Inverts(children, par) && Mapped(par, idOf, ws, 0, byId, reverse);
    hide Inverts, LocalParent, Mapped, WithChild, IsReverseIndex;
    for n := 0 to |ws|
      invariant Mapped(par, idOf, ws, n, byId, reverse) && Inverts(children, par)
    {
      var t := ws[n];
      var pid := LocalParent(t, ws, byId, reverse);
      MappedMore(par, idOf, ws, n, byId, reverse);
      InvertsMore(children, par, t.id, pid);
      par, children, idOf := par[t.id := pid], WithChild(children, t.id, pid), idOf[t.id := t];
    }
    MappedAll(par, idOf, ws, byId, reverse);
  }

  // ---------- Which tasks are kept ----------------------------------------------

  /** Ready tasks and every in-workspace ancestor of one. */
  ghost function Keepers(par: Parents, ready: set<TaskId>): set<TaskId> {
    set x | x in par && exists r :: r in ready && Above(par, x, r)
  }

  method Elements(s: set<TaskId>) returns (q: seq<TaskId>)
    ensures multiset(q) == multiset(s)
    ensures forall x :: x in q <==> x in s
    ensures forall i, j :: 0 <= i < j < |q| ==> q[i] != q[j]
  {
    q := [];
    var todo := s;
    while todo != {}
      invariant todo <= s && multiset(q) + multiset(todo) == multiset(s)
      invariant forall x :: x in q <==> x in s - todo
      invariant forall i, j :: 0 <= i < j < |q| ==> q[i] != q[j]
      decreases todo
    {
      var x :| x in todo;
      assert x !in q;
      assert multiset(q + [x]) == multiset(q) + multiset{x};
      assert multiset(todo) == multiset(todo - {x}) + multiset{x};
      assert s - (todo - {x}) == (s - todo) + {x};
      todo, q := todo - {x}, q + [x];
    }
  }

  predicate HasKeptChild(par: Parents, kept: set<TaskId>, x: TaskId) {
    exists c :: c in kept && c in par && par[c] == Some(x)
  }

  lemma KeeperParent(par: Parents, ready: set<TaskId>, x: TaskId, p: TaskId)
    requires Closed(par) && x in Keepers(par, ready) && par[x] == Some(p)
    ensures p in Keepers(par, ready)
  {
    var r :| r in ready && Above(par, x, r);
    AboveParent(par, x, p);
    AboveTransitive(par, p, x, r);
  }

  lemma MoreKept(par: Parents, kept: set<TaskId>, ready: set<TaskId>, id: TaskId, p: TaskId)
    requires id in kept && id in par && par[id] == Some(p)
    requires forall x :: x in kept ==> x in ready || HasKeptChild(par, kept, x)
    ensures forall x :: x in kept + {p} ==> x in ready || HasKeptChild(par, kept + {p}, x)
  {
    forall x | x in kept + {p} ensures x in ready || HasKeptChild(par, kept + {p}, x) {
      if x in kept && x !in ready {
        var c :| c in kept && c in par && par[c] == Some(x);
        assert c in kept + {p};
      }
    }
  }

  method KeepAncestors(par: Parents, ready: set<TaskId>) returns (kept: set<TaskId>)
    requires Closed(par) && ready <= par.Keys
    ensures kept == Keepers(par, ready)
    ensures forall x :: x in kept && par[x].Some? ==> par[x].value in kept
    ensures forall x :: x in kept ==> x in ready || HasKeptChild(par, kept, x)
  {
    hide Keepers, HasKeptChild;
    kept := ready;
    var stack := Elements(ready);
    ReadyAreKept(par, ready);
    while stack != []
      invariant ready <= kept <= Keepers(par, ready)
      invariant forall x :: x in stack ==> x in kept
      invariant forall x :: x in kept && par[x].Some? ==> par[x].value in kept || x in stack
      invariant forall x :: x in kept ==> x in ready || HasKeptChild(par, kept, x)
      decreases par.Keys - kept, |stack|
    {
      var id := stack[|stack| - 1];
      ghost var popped := stack;
      stack := stack[..|stack| - 1];
      assert forall x :: x in popped ==> x in stack || x == id;
      if par[id].Some? && par[id].value !in kept {
        var p := par[id].value;
        KeeperParent(par, ready, id, p);
        MoreKept(par, kept, ready, id, p);
        kept, stack := kept + {p}, stack + [p];
      }
    }
    KeepersWithin(par, kept, ready);
  }

  lemma ReadyAreKept(par: Parents, ready: set<TaskId>)
    requires ready <= par.Keys
    ensures ready <= Keepers(par, ready) <= par.Keys
  {
    forall x | x in ready ensures x in Keepers(par, ready) {
      AboveSelf(par, x);
    }
  }

  lemma KeepersWithin(par: Parents, kept: set<TaskId>, ready: set<TaskId>)
    requires ready <= kept <= par.Keys
    requires forall y :: y in kept && par[y].Some? ==> par[y].value in kept
    ensures Keepers(par, ready) <= kept
  {
    forall x | x in Keepers(par, ready) ensures x in kept {
      var r :| r in ready && Above(par, x, r);
      var n: nat :| Up(par, r, n) == Some(x);
      KeptUpward(par, kept, r, n);
    }
  }

  lemma {:induction false} KeptUpward(par: Parents, kept: set<TaskId>, x: TaskId, n: nat)
    requires kept <= par.Keys && x in kept
    requires forall y :: y in kept && par[y].Some? ==> par[y].value in kept
    ensures Up(par, x, n).Some? ==> Up(par, x, n).value in kept
    decreases n
  {
    if n > 0 && par[x].Some? {
      KeptUpward(par, kept, par[x].value, n - 1);
    }
  }

  // ---------- The memoised branch rank -------------------------------------------

  /** `p` is the best priority among the ready tasks at or below `x` (P3 when there is none). */
  ghost predicate IsBest(par: Parents, ready: set<TaskId>, idOf: map<TaskId, Task>, x: TaskId, p: Priority)
    requires ready <= idOf.Keys
  {
    && (forall y :: y in ready && Above(par, x, y) ==> p <= idOf[y].priority)
    && (p == 3 || exists y :: y in ready && Above(par, x, y) && idOf[y].priority == p)
  }

  /** Settled memo entries of tasks whose chain ends are right; `busy` ones may be provisional. */
  ghost predicate MemoOk(par: Parents, ready: set<TaskId>, idOf: map<TaskId, Task>, memo: map<TaskId, Priority>,
                         busy: set<TaskId>)
    requires ready <= idOf.Keys
  {
    forall x :: x in memo && Ends(par, x) && x !in busy ==> IsBest(par, ready, idOf, x, memo[x])
  }

  lemma BestOfChildren(par: Parents, ready: set<TaskId>, idOf: map<TaskId, Task>, x: TaskId, kids: seq<TaskId>,
                       best: Priority, own: Priority)
    requires Closed(par) && ready <= idOf.Keys && ready <= par.Keys && x in par
    requires forall c :: c in kids <==> c in par && par[c] == Some(x)
    requires own == if x in ready then idOf[x].priority else 3
    requires best <= own
    requires forall c, y :: c in kids && y in ready && Above(par, c, y) ==> best <= idOf[y].priority
    requires best == own || exists c ::
               c in kids && exists y :: y in ready && Above(par, c, y) && idOf[y].priority == best
    ensures IsBest(par, ready, idOf, x, best)
  {
    forall y | y in ready && Above(par, x, y) ensures best <= idOf[y].priority {
      BelowSplits(par, x, y);
    }
    if best != 3 {
      if best == own {
        AboveSelf(par, x);
      } else {
        var c :| c in kids && exists y :: y in ready && Above(par, c, y) && idOf[y].priority == best;
        var y :| y in ready && Above(par, c, y) && idOf[y].priority == best;
        BelowSplits(par, x, y);
      }
    }
  }

  /** `best` is right for `own` and the subtrees of the first `k` children. */
  ghost predicate BestSoFar(par: Parents, ready: set<TaskId>, idOf: map<TaskId, Task>, kids: seq<TaskId>, k: nat,
                            best: Priority, own: Priority)
    requires ready <= idOf.Keys && k <= |kids|
  {
    && best <= own
    && (forall c, y :: c in kids[..k] && y in ready && Above(par, c, y) ==> best <= idOf[y].priority)
    && (best == own || exists c ::
          c in kids[..k] && exists y :: y in ready && Above(par, c, y) && idOf[y].priority == best)
  }

  lemma BestOfMore(par: Parents, ready: set<TaskId>, idOf: map<TaskId, Task>, kids: seq<TaskId>, k: nat,
                   best: Priority, own: Priority, below: Priority)
    requires ready <= idOf.Keys && k < |kids| && BestSoFar(par, ready, idOf, kids, k, best, own)
    requires IsBest(par, ready, idOf, kids[k], below)
    ensures BestSoFar(par, ready, idOf, kids, k + 1, if below < best then below else best, own)
  {
    hide Above;
    assert kids[..k + 1] == kids[..k] + [kids[k]];
    if below >= best && best != own {
      var c :| c in kids[..k] && exists y :: y in ready && Above(par, c, y) && idOf[y].priority == best;
      assert c in kids[..k + 1];
    } else if below < best {
      assert kids[k] in kids[..k + 1];
    }
  }

  lemma KidOf(par: Parents, children: map<TaskId, seq<TaskId>>, id: TaskId, c: TaskId, busy: set<TaskId>)
    requires Inverts(children, par) && c in ChildrenOf(children, id) && id in par
    requires Ends(par, id) ==> Below(par, id) !! busy
    ensures c in par && par[c] == Some(id) && (Ends(par, c) <==> Ends(par, id))
    ensures Ends(par, c) ==> Below(par, c) !! (busy + {id})
  {
    ParentEnds(par, c, id);
    if Ends(par, id) {
      ChildShrinks(par, id, c);
    }
  }

  lemma KidsAre(par: Parents, children: map<TaskId, seq<TaskId>>, id: TaskId)
    requires Inverts(children, par)
    ensures forall c :: c in ChildrenOf(children, id) <==> c in par && par[c] == Some(id)
  {
  }

  lemma Settled(par: Parents, ready: set<TaskId>, idOf: map<TaskId, Task>, memo: map<TaskId, Priority>,
                busy: set<TaskId>, id: TaskId)
    requires ready <= idOf.Keys && id in memo && MemoOk(par, ready, idOf, memo, busy) && id in par
    requires Ends(par, id) ==> Below(par, id) !! busy
    ensures Ends(par, id) ==> IsBest(par, ready, idOf, id, memo[id])
  {
    AboveSelf(par, id);
    assert Ends(par, id) ==> id in Below(par, id);
  }

  lemma Settle(par: Parents, ready: set<TaskId>, idOf: map<TaskId, Task>, memo: map<TaskId, Priority>,
               busy: set<TaskId>, id: TaskId, p: Priority)
    requires ready <= idOf.Keys
    ensures MemoOk(par, ready, idOf, memo, busy) ==> MemoOk(par, ready, idOf, memo[id := p], busy + {id})
    ensures MemoOk(par, ready, idOf, memo, busy + {id}) && (Ends(par, id) ==> IsBest(par, ready, idOf, id, p)) ==>
              MemoOk(par, ready, idOf, memo[id := p], busy)
  {
    hide Ends, IsBest;
  }

  method SubtreePriority(id: TaskId, ready: set<TaskId>, idOf: map<TaskId, Task>, children: map<TaskId, seq<TaskId>>,
                         memo0: map<TaskId, Priority>, ghost par: Parents, ghost busy: set<TaskId>)
    returns (best: Priority, memo: map<TaskId, Priority>)
    requires Closed(par) && Inverts(children, par) && idOf.Keys == par.Keys && ready <= par.Keys && id in par
    requires memo0.Keys <= par.Keys && MemoOk(par, ready, idOf, memo0, busy)
    requires Ends(par, id) ==> Below(par, id) !! busy
    ensures memo0.Keys + {id} <= memo.Keys <= par.Keys && MemoOk(par, ready, idOf, memo, busy)
    ensures Ends(par, id) ==> IsBest(par, ready, idOf, id, best)
    decreases par.Keys - memo0.Keys
  {
    hide Above, Below, Ends, IsBest, MemoOk, Inverts, Closed, BestSoFar;
    memo := memo0;
    if id in memo {
      Settled(par, ready, idOf, memo, busy, id);
      return memo[id], memo;
    }
    Settle(par, ready, idOf, memo, busy, id, 3);
    memo := memo[id := 3];
    var own: Priority := if id in ready then idOf[id].priority else 3;
    best := own;
    var kids := ChildrenOf(children, id);
    ghost var inner := busy + {id};
    NoKidsYet(par, ready, idOf, kids, own);
    for k := 0 to |kids|
      invariant memo0.Keys + {id} <= memo.Keys <= par.Keys && MemoOk(par, ready, idOf, memo, inner)
      invariant Ends(par, id) ==> BestSoFar(par, ready, idOf, kids, k, best, own)
    {
      KidOf(par, children, id, kids[k], busy);
      var below;
      below, memo := SubtreePriority(kids[k], ready, idOf, children, memo, par, inner);
      if Ends(par, id) {
        BestOfMore(par, ready, idOf, kids, k, best, own, below);
      }
      if below < best {
        best := below;
      }
    }
    if Ends(par, id) {
      KidsAre(par, children, id);
      BestOfAll(par, ready, idOf, id, kids, best, own);
    }
    Settle(par, ready, idOf, memo, busy, id, best);
    memo := memo[id := best];
  }

  lemma NoKidsYet(par: Parents, ready: set<TaskId>, idOf: map<TaskId, Task>, kids: seq<TaskId>, own: Priority)
    requires ready <= idOf.Keys
    ensures BestSoFar(par, ready, idOf, kids, 0, own, own)
  {
  }

  lemma BestOfAll(par: Parents, ready: set<TaskId>, idOf: map<TaskId, Task>, id: TaskId, kids: seq<TaskId>,
                  best: Priority, own: Priority)
    requires Closed(par) && ready <= idOf.Keys && ready <= par.Keys && id in par
    requires forall c :: c in kids <==> c in par && par[c] == Some(id)
    requires own == if id in ready then idOf[id].priority else 3
    requires BestSoFar(par, ready, idOf, kids, |kids|, best, own)
    ensures IsBest(par, ready, idOf, id, best)
  {
    assert kids[..|kids|] == kids;
    BestOfChildren(par, ready, idOf, id, kids, best, own);
  }

  // ---------- The forest -----------------------------------------------------------

  /** What a node shows of its task; a container heading shows its title only. */
  datatype Face = Face(status: Option<Lifecycle>, priority: Option<Priority>, assignees: seq<string>,
                       issueType: Option<string>, boardStatus: Option<string>)

  datatype ReadyNode = ReadyNode(id: TaskId, title: string, ready: bool, face: Face, children: seq<ReadyNode>)

  /** A board's status options by id. */
  type Catalog = map<string, string>

  /** The display name of the cached board status; none without a project, a poll or a known option. */
  function CachedStatus(project: Option<Catalog>, t: Task): Option<string> {
    if project.Some? && t.boardOption.Some? && t.boardOption.value in project.value
        then Some(project.value[t.boardOption.value]) else None
  }

  /** What the builder works from. */
  datatype Frame = Frame(
    par: Parents,
    idOf: map<TaskId, Task>,
    ready: set<TaskId>,
    kept: set<TaskId>,
    rank: map<TaskId, Priority>,
    project: Option<Catalog>)

  ghost predicate Sound(f: Frame) {
    && Closed(f.par) && f.idOf.Keys == f.par.Keys
    && f.ready <= f.kept <= f.par.Keys && f.kept <= f.rank.Keys
    && (forall x :: x in f.kept && f.par[x].Some? ==> f.par[x].value in f.kept)
    && (forall x :: x in f.kept ==> x in f.ready || HasKeptChild(f.par, f.kept, x))
  }

  /** Best reachable priority first, then title. */
  predicate BranchLe(f: Frame, a: TaskId, b: TaskId) {
    var ra, rb := if a in f.rank then f.rank[a] else 3, if b in f.rank then f.rank[b] else 3;
    var ta, tb := if a in f.idOf then f.idOf[a].title else "", if b in f.idOf then f.idOf[b].title else "";
    ra < rb || (ra == rb && StringLe(ta, tb))
  }

  lemma BranchLeTotal(f: Frame)
    ensures Total((a: TaskId, b: TaskId) => BranchLe(f, a, b))
  {
    var le := (a: TaskId, b: TaskId) => BranchLe(f, a, b);
    forall x, y ensures le(x, y) || le(y, x) {
      StringLeTotal(if x in f.idOf then f.idOf[x].title else "", if y in f.idOf then f.idOf[y].title else "");
    }
    forall x, y, z | le(x, y) && le(y, z) ensures le(x, z) {
      var tx, ty, tz := if x in f.idOf then f.idOf[x].title else "", if y in f.idOf then f.idOf[y].title
          else "", if z in f.idOf then f.idOf[z].title else "";
      if StringLe(tx, ty) && StringLe(ty, tz) {
        StringLeTransitive(tx, ty, tz);
      }
    }
  }

  predicate Ordered(f: Frame, nodes: seq<ReadyNode>) {
    forall i, j :: 0 <= i < j < |nodes| ==> BranchLe(f, nodes[i].id, nodes[j].id)
  }

  /** The node shows its task's title, and the task's other data only when the task is ready. */
  predicate Carries(f: Frame, n: ReadyNode) {
    && n.id in f.idOf
    && n.title == f.idOf[n.id].title
    && n.ready == (n.id in f.ready)
    && (n.ready ==>
          && n.face.status == Some(f.idOf[n.id].lifecycle) && n.face.priority == Some(f.idOf[n.id].priority)
          && n.face.assignees == f.idOf[n.id].assignees && n.face.issueType == f.idOf[n.id].issueType
          && (n.face.boardStatus.None? <==>
                || f.project.None? || f.idOf[n.id].boardOption.None?
                || f.idOf[n.id].boardOption.value !in f.project.value)
          && (n.face.boardStatus.Some? ==>
                n.face.boardStatus.value == f.project.value[f.idOf[n.id].boardOption.value]))
    && (!n.ready ==> n.face == Face(None, None, [], None, None))
  }

  /** Every node is a kept task carrying its own data, sits directly above exactly its kept
      children, in branch order, and a leaf is a ready task. */
  ghost predicate Nested(f: Frame, n: ReadyNode)
    requires Sound(f)
    decreases n
  {
    && n.id in f.kept && Carries(f, n)
    && (n.children == [] ==> n.ready)
    && Ordered(f, n.children)
    && (forall c :: c in f.kept && f.par[c] == Some(n.id) ==>
        exists i :: 0 <= i < |n.children| && n.children[i].id == c)
    && (forall i :: 0 <= i < |n.children| ==> Nested(f, n.children[i]) && f.par[n.children[i].id] == Some(n.id))
  }

  /** The tasks of a list of trees, with multiplicity. */
  ghost function AllIds(nodes: seq<ReadyNode>): multiset<TaskId>
    decreases nodes
  {
    if nodes == [] then multiset{}
    else AllIds(nodes[..|nodes| - 1]) + multiset{nodes[|nodes| - 1].id} + AllIds(nodes[|nodes| - 1].children)
  }

  ghost function KeptBelow(f: Frame, x: TaskId): set<TaskId> {
    f.kept * Below(f.par, x)
  }

  lemma AllIdsSnoc(nodes: seq<ReadyNode>, n: ReadyNode)
    ensures AllIds(nodes + [n]) == AllIds(nodes) + multiset{n.id} + AllIds(n.children)
  {
    assert (nodes + [n])[..|nodes + [n]| - 1] == nodes;
  }

  lemma AllIdsOne(n: ReadyNode)
    ensures AllIds([n]) == multiset{n.id} + AllIds(n.children)
  {
    assert [n][..0] == [];
  }

  lemma {:induction false} DistinctCount(a: seq<TaskId>, x: TaskId)
    requires forall i, j :: 0 <= i < j < |a| ==> a[i] != a[j]
    ensures multiset(a)[x] <= 1
  {
    if a != [] {
      DistinctCount(a[..|a| - 1], x);
      assert a == a[..|a| - 1] + [a[|a| - 1]];
      if x == a[|a| - 1] {
        assert x !in a[..|a| - 1];
      }
    }
  }

  lemma SamePermutation(a: seq<TaskId>, b: seq<TaskId>)
    requires multiset(a) == multiset(b)
    requires forall i, j :: 0 <= i < j < |a| ==> a[i] != a[j]
    ensures forall x :: x in a <==> x in b
    ensures forall i, j :: 0 <= i < j < |b| ==> b[i] != b[j]
  {
    forall x ensures x in a <==> x in b {
      assert x in a <==> x in multiset(a);
      assert x in b <==> x in multiset(b);
    }
    forall i, j | 0 <= i < j < |b| ensures b[i] != b[j] {
      DistinctCount(a, b[j]);
      assert b == b[..j] + [b[j]] + b[j + 1..];
      assert b[..j][i] == b[i];
      assert multiset(b[..j])[b[i]] >= 1;
    }
  }

  /** `done` is what is kept below the first `k` of `kids`. */
  ghost predicate BelowFirst(f: Frame, kids: seq<TaskId>, k: nat, done: set<TaskId>) {
    k <= |kids| && forall d :: d in done <==> exists i :: 0 <= i < k && d in KeptBelow(f, kids[i])
  }

  lemma DisjointUnion(a: set<TaskId>, b: set<TaskId>)
    requires a !! b
    ensures multiset(a + b) == multiset(a) + multiset(b)
  {
  }

  /** `kids` are exactly the kept children of `id`, each once, in branch order. */
  ghost predicate KidsOf(f: Frame, id: TaskId, kids: seq<TaskId>)
    requires Sound(f)
  {
    && (forall c :: c in kids <==> c in f.kept && f.par[c] == Some(id))
    && (forall i, j :: 0 <= i < j < |kids| ==> kids[i] != kids[j] && BranchLe(f, kids[i], kids[j]))
    && (kids == [] ==> id in f.ready)
  }

  /** `nodes` are the finished trees of `ids`, and `done` is everything in them. */
  ghost predicate Built(f: Frame, ids: seq<TaskId>, nodes: seq<ReadyNode>, done: set<TaskId>)
    requires Sound(f)
  {
    && |nodes| <= |ids|
    && (forall i :: 0 <= i < |nodes| ==> nodes[i].id == ids[i] && Nested(f, nodes[i]))
    && BelowFirst(f, ids, |nodes|, done)
    && AllIds(nodes) == multiset(done)
  }

  lemma BuiltNone(f: Frame, ids: seq<TaskId>)
    requires Sound(f)
    ensures Built(f, ids, [], {})
  {
  }

  lemma BuiltNext(f: Frame, ids: seq<TaskId>, nodes: seq<ReadyNode>, done: set<TaskId>, n: ReadyNode)
    requires Sound(f) && Built(f, ids, nodes, done) && |nodes| < |ids|
    requires done !! Below(f.par, ids[|nodes|])
    requires n.id == ids[|nodes|] && Nested(f, n) && AllIds([n]) == multiset(KeptBelow(f, n.id))
    ensures Built(f, ids, nodes + [n], done + KeptBelow(f, n.id))
  {
    hide Below, AllIds, Nested, Sound;
    AllIdsSnoc(nodes, n);
    AllIdsOne(n);
    var more := done + KeptBelow(f, n.id);
    DisjointUnion(done, KeptBelow(f, n.id));
    forall d ensures d in more <==> exists i :: 0 <= i < |nodes| + 1 && d in KeptBelow(f, ids[i]) {
      if d in done {
        var i :| 0 <= i < |nodes| && d in KeptBelow(f, ids[i]);
        assert 0 <= i < |nodes| + 1;
      }
    }
  }

  lemma KidsCover(f: Frame, id: TaskId, kids: seq<TaskId>, visited: set<TaskId>)
    requires Sound(f) && id in f.kept && visited !! Below(f.par, id)
    requires forall c :: c in kids <==> c in f.par && f.par[c] == Some(id) && c in f.kept && c !in visited
    requires forall i, j :: 0 <= i < j < |kids| ==> kids[i] != kids[j] && BranchLe(f, kids[i], kids[j])
    ensures KidsOf(f, id, kids)
  {
    forall c | c in f.kept && f.par[c] == Some(id) ensures c in kids {
      AboveParent(f.par, c, id);
      assert c in Below(f.par, id);
    }
    if id !in f.ready {
      var c :| c in f.kept && c in f.par && f.par[c] == Some(id);
      assert c in kids;
    }
  }

  lemma KidIsFresh(f: Frame, id: TaskId, kids: seq<TaskId>, nodes: seq<ReadyNode>, visited: set<TaskId>,
                   done: set<TaskId>)
    requires Sound(f) && id in f.kept && Ends(f.par, id) && visited !! Below(f.par, id)
    requires KidsOf(f, id, kids) && Built(f, kids, nodes, done) && |nodes| < |kids|
    ensures var c := kids[|nodes|];
            && c in f.kept && Ends(f.par, c) && Below(f.par, c) < Below(f.par, id)
            && (visited + {id} + done) !! Below(f.par, c)
  {
    var c := kids[|nodes|];
    assert c in kids;
    ParentEnds(f.par, c, id);
    ChildShrinks(f.par, id, c);
    forall d | d in done ensures d !in Below(f.par, c) {
      var i :| 0 <= i < |nodes| && d in KeptBelow(f, kids[i]);
      assert kids[i] in kids;
      SiblingsDisjoint(f.par, id, kids[i], c);
    }
  }

  lemma KeptBelowSplits(f: Frame, id: TaskId, kids: seq<TaskId>, done: set<TaskId>)
    requires Sound(f) && id in f.kept && Ends(f.par, id)
    requires forall c :: c in kids <==> c in f.kept && f.par[c] == Some(id)
    requires BelowFirst(f, kids, |kids|, done)
    ensures KeptBelow(f, id) == {id} + done && id !in done
  {
    forall d | d in f.kept ensures d in Below(f.par, id) <==> d == id || d in done {
      BelowSplits(f.par, id, d);
      if d in Below(f.par, id) && d != id {
        var c :| c in f.par && f.par[c] == Some(id) && Above(f.par, c, d);
        var n: nat :| Up(f.par, d, n) == Some(c);
        KeptUpward(f.par, f.kept, d, n);
        assert c in kids;
        var i :| 0 <= i < |kids| && kids[i] == c;
        assert d in KeptBelow(f, kids[i]);
      }
      if d in done {
        var i :| 0 <= i < |kids| && d in KeptBelow(f, kids[i]);
        assert kids[i] in kids;
      }
    }
    if id in done {
      var i :| 0 <= i < |kids| && id in KeptBelow(f, kids[i]);
      assert kids[i] in kids;
      ChildShrinks(f.par, id, kids[i]);
    }
  }

  lemma AssembleNested(f: Frame, n: ReadyNode, kids: seq<TaskId>, done: set<TaskId>)
    requires Sound(f) && n.id in f.kept && Carries(f, n)
    requires KidsOf(f, n.id, kids) && Built(f, kids, n.children, done) && |n.children| == |kids|
    ensures Nested(f, n)
  {
    hide BranchLe, BelowFirst, AllIds;
    forall c | c in f.kept && f.par[c] == Some(n.id)
      ensures exists i :: 0 <= i < |n.children| && n.children[i].id == c
    {
      assert c in kids;
      var i :| 0 <= i < |kids| && kids[i] == c;
      assert n.children[i].id == c;
    }
    forall i | 0 <= i < |n.children| ensures f.par[n.children[i].id] == Some(n.id) {
      assert kids[i] in kids;
    }
  }

  lemma Assemble(f: Frame, n: ReadyNode, kids: seq<TaskId>, done: set<TaskId>)
    requires Sound(f) && n.id in f.kept && Ends(f.par, n.id) && Carries(f, n)
    requires KidsOf(f, n.id, kids) && Built(f, kids, n.children, done) && |n.children| == |kids|
    ensures Nested(f, n)
    ensures AllIds([n]) == multiset(KeptBelow(f, n.id)) && KeptBelow(f, n.id) == {n.id} + done
  {
    AssembleNested(f, n, kids, done);
    KeptBelowSplits(f, n.id, kids, done);
    hide Nested;
    AllIdsOne(n);
    DisjointUnion({n.id}, done);
  }

  class ReadyTreeCtx {
    const f: Frame
    const children: map<TaskId, seq<TaskId>>
    var visiting: set<TaskId>

    constructor (f: Frame, children: map<TaskId, seq<TaskId>>)
      ensures this.f == f && this.children == children && visiting == {}
    {
      this.f, this.children, this.visiting := f, children, {};
    }

    /** The kept, not yet visited children in branch order. */
    method Kids(id: TaskId) returns (kids: seq<TaskId>)
      requires Sound(f) && Inverts(children, f.par) && id in f.kept && visiting !! Below(f.par, id)
      ensures KidsOf(f, id, kids)
    {
      hide Below;
      var picked: seq<TaskId> := [];
      var all := ChildrenOf(children, id);
      for k := 0 to |all|
        invariant forall c :: c in picked <==> c in all[..k] && c in f.kept && c !in visiting
        invariant forall i, j :: 0 <= i < j < |picked| ==> picked[i] != picked[j]
      {
        assert all[..k + 1] == all[..k] + [all[k]];
        if all[k] in f.kept && all[k] !in visiting {
          picked := picked + [all[k]];
        }
      }
      assert all[..|all|] == all;
      var le := (a: TaskId, b: TaskId) => BranchLe(f, a, b);
      BranchLeTotal(f);
      SortByOk(picked, le);
      kids := SortBy(picked, le);
      SamePermutation(picked, kids);
      forall i, j | 0 <= i < j < |kids| ensures BranchLe(f, kids[i], kids[j]) {
        assert le(kids[i], kids[j]);
      }
      KidsCover(f, id, kids, visiting);
    }

    method Node(id: TaskId) returns (n: ReadyNode)
      requires Sound(f) && Inverts(children, f.par)
      requires id in f.kept && Ends(f.par, id) && visiting !! Below(f.par, id)
      modifies this`visiting
      ensures n.id == id && Nested(f, n)
      ensures AllIds([n]) == multiset(KeptBelow(f, id))
      ensures visiting == old(visiting) + KeptBelow(f, id)
      decreases Below(f.par, id), 1
    {
      hide Below, Ends, Inverts, Nested, AllIds, KidsOf, Built, KeptBelow, HasKeptChild, BranchLe;
      var task := f.idOf[id];
      var kids := Kids(id);
      visiting := visiting + {id};
      var nodes, done := Descend(id, kids, old(visiting));
      var ready := id in f.ready;
      var face := Face(if ready then Some(task.lifecycle) else None, if ready then Some(task.priority) else None,
                       if ready then task.assignees else [], if ready then task.issueType else None,
                       if ready then CachedStatus(f.project, task) else None);
      n := ReadyNode(id, task.title, ready, face, nodes);
      Assemble(f, n, kids, done);
    }

    method Descend(id: TaskId, kids: seq<TaskId>, ghost before: set<TaskId>) returns (nodes: seq<ReadyNode>,
                   ghost done: set<TaskId>)
      requires Sound(f) && Inverts(children, f.par)
      requires id in f.kept && Ends(f.par, id) && before !! Below(f.par, id) && visiting == before + {id}
      requires KidsOf(f, id, kids)
      modifies this`visiting
      ensures Built(f, kids, nodes, done) && |nodes| == |kids|
      ensures visiting == before + {id} + done
      decreases Below(f.par, id), 0
    {
      hide Sound, Below, Ends, Inverts, Nested, AllIds, KidsOf, Built;
      nodes, done := [], {};
      BuiltNone(f, kids);
      for k := 0 to |kids|
        invariant |nodes| == k && Built(f, kids, nodes, done)
        invariant visiting == before + {id} + done
      {
        KidIsFresh(f, id, kids, nodes, before, done);
        var child := Node(kids[k]);
        BuiltNext(f, kids, nodes, done, child);
        nodes, done := nodes + [child], done + KeptBelow(f, child.id);
      }
    }
  }

  // ---------- The whole view ---------------------------------------------------------

  /** The ranks the forest is sorted by are the best reachable priorities. */
  ghost predicate Ranked(f: Frame)
    requires Sound(f)
  {
    forall x :: x in f.kept && Ends(f.par, x) ==> IsBest(f.par, f.ready, f.idOf, x, f.rank[x])
  }

  /** The forest holds each kept task whose chain of in-workspace parents ends, exactly once, and
      nothing else; every tree is nested faithfully and its root has no in-workspace parent. */
  ghost predicate IsForest(f: Frame, roots: seq<ReadyNode>)
    requires Sound(f)
  {
    && AllIds(roots) == multiset(set x | x in f.kept && Ends(f.par, x))
    && (forall i :: 0 <= i < |roots| ==> Nested(f, roots[i]) && f.par[roots[i].id] == None)
    && Ordered(f, roots)
  }

  method RankAll(par: Parents, ready: set<TaskId>, idOf: map<TaskId, Task>, children: map<TaskId, seq<TaskId>>,
                 kept: set<TaskId>)
    returns (rank: map<TaskId, Priority>)
    requires Closed(par) && Inverts(children, par) && idOf.Keys == par.Keys && ready <= kept <= par.Keys
    ensures kept <= rank.Keys
    ensures forall x :: x in kept && Ends(par, x) ==> IsBest(par, ready, idOf, x, rank[x])
  {
    rank := map[];
    var todo := kept;
    while todo != {}
      invariant todo <= kept && kept - todo <= rank.Keys <= par.Keys
      invariant MemoOk(par, ready, idOf, rank, {})
      decreases todo
    {
      var id :| id in todo;
      todo := todo - {id};
      var best;
      best, rank := SubtreePriority(id, ready, idOf, children, rank, par, {});
    }
  }

  lemma RootsCover(f: Frame, roots: seq<TaskId>, done: set<TaskId>)
    requires Sound(f)
    requires forall r :: r in roots <==> r in f.kept && f.par[r] == None
    requires BelowFirst(f, roots, |roots|, done)
    ensures done == set x | x in f.kept && Ends(f.par, x)
  {
    forall x | x in f.kept && Ends(f.par, x) ensures x in done {
      var n: nat :| Up(f.par, x, n) == None;
      var top := Top(f.par, x, n);
      var m: nat :| Up(f.par, x, m) == Some(top);
      KeptUpward(f.par, f.kept, x, m);
      assert top in roots;
      var i :| 0 <= i < |roots| && roots[i] == top;
      assert x in KeptBelow(f, roots[i]);
    }
    forall x | x in done ensures x in f.kept && Ends(f.par, x) {
      var i :| 0 <= i < |roots| && x in KeptBelow(f, roots[i]);
      assert roots[i] in roots;
      TopEnds(f.par, roots[i]);
      BelowEnds(f.par, roots[i], x);
    }
  }

  /** `tops` are exactly the kept tasks without an in-workspace parent, each once, in branch order. */
  ghost predicate TopsOf(f: Frame, tops: seq<TaskId>)
    requires Sound(f)
  {
    && (forall r :: r in tops <==> r in f.kept && f.par[r] == None)
    && (forall i, j :: 0 <= i < j < |tops| ==> tops[i] != tops[j] && BranchLe(f, tops[i], tops[j]))
  }

  lemma RootIsFresh(f: Frame, tops: seq<TaskId>, nodes: seq<ReadyNode>, done: set<TaskId>)
    requires Sound(f) && TopsOf(f, tops) && Built(f, tops, nodes, done) && |nodes| < |tops|
    ensures var r := tops[|nodes|];
            r in f.kept && Ends(f.par, r) && done !! Below(f.par, r)
  {
    var r := tops[|nodes|];
    assert r in tops;
    TopEnds(f.par, r);
    forall d | d in done ensures d !in Below(f.par, r) {
      var i :| 0 <= i < |nodes| && d in KeptBelow(f, tops[i]);
      assert tops[i] in tops;
      TopsDisjoint(f.par, tops[i], r);
    }
  }

  lemma ForestDone(f: Frame, tops: seq<TaskId>, roots: seq<ReadyNode>, done: set<TaskId>)
    requires Sound(f) && TopsOf(f, tops) && Built(f, tops, roots, done) && |roots| == |tops|
    ensures IsForest(f, roots)
  {
    RootsCover(f, tops, done);
    hide Nested, AllIds, BranchLe, Ends;
    forall i | 0 <= i < |roots| ensures f.par[roots[i].id] == None {
      assert tops[i] in tops;
    }
  }

  method Roots(f: Frame) returns (roots: seq<TaskId>)
    requires Sound(f)
    ensures TopsOf(f, roots)
  {
    var picked := Elements(set x | x in f.kept && (f.par[x].None? || f.par[x].value !in f.kept));
    var le := (a: TaskId, b: TaskId) => BranchLe(f, a, b);
    BranchLeTotal(f);
    SortByOk(picked, le);
    roots := SortBy(picked, le);
    SamePermutation(picked, roots);
    forall i, j | 0 <= i < j < |roots| ensures BranchLe(f, roots[i], roots[j]) {
      assert le(roots[i], roots[j]);
    }
  }

  method BuildForest(f: Frame, children: map<TaskId, seq<TaskId>>) returns (roots: seq<ReadyNode>)
    requires Sound(f) && Inverts(children, f.par)
    ensures IsForest(f, roots)
  {
    var tops := Roots(f);
    var ctx := new ReadyTreeCtx(f, children);
    hide Sound, Below, Ends, Inverts, Nested, AllIds, TopsOf, Built;
    roots := [];
    ghost var done: set<TaskId> := {};
    BuiltNone(f, tops);
    for k := 0 to |tops|
      invariant ctx.f == f && ctx.children == children && ctx.visiting == done
      invariant |roots| == k && Built(f, tops, roots, done)
    {
      RootIsFresh(f, tops, roots, done);
      var tree := ctx.Node(tops[k]);
      BuiltNext(f, tops, roots, done, tree);
      roots, done := roots + [tree], done + KeptBelow(f, tree.id);
    }
    ForestDone(f, tops, roots, done);
  }

  /** `f` is the frame of the workspace's tasks, with exactly `ready` marked ready. */
  ghost predicate FrameOf(f: Frame, ws: seq<Task>, byId: Graph, ready: set<TaskId>, project: Option<Catalog>) {
    && f.project == project
    && IsParentMap(f.par, ws, byId)
    && f.idOf.Keys == IdsOf(ws)
    && (forall i :: 0 <= i < |ws| ==> f.idOf[ws[i].id] == ws[i])
    && f.ready == ready && f.kept == Keepers(f.par, ready)
    && Sound(f) && Ranked(f)
  }

  /** `roots` is the forest over the workspace's tasks. */
  ghost predicate IsReadyTree(ws: seq<Task>, byId: Graph, ready: set<TaskId>, project: Option<Catalog>,
                              roots: seq<ReadyNode>) {
    exists f :: FrameOf(f, ws, byId, ready, project) && IsForest(f, roots)
  }

  /** Everything above, put together for one workspace. */
  method BuildReadyTree(ws: seq<Task>, byId: Graph, ready: set<TaskId>,
                        project: Option<Catalog>) returns (roots: seq<ReadyNode>)
    requires WellKeyed(byId) && UniqueTasks(ws) && ready <= IdsOf(ws)
    ensures IsReadyTree(ws, byId, ready, project, roots)
  {
    var reverse := ReverseParentIndex(byId);
    var par, children, idOf := ParentsAndChildren(ws, byId, reverse);
    var kept := KeepAncestors(par, ready);
    ReadyAreKept(par, ready);
    var rank := RankAll(par, ready, idOf, children, kept);
    var f := Frame(par, idOf, ready, kept, rank, project);
    roots := BuildForest(f, children);
    assert FrameOf(f, ws, byId, ready, project);
  }
  /** Siblings and roots come best reachable priority first, then by title. */
  lemma OrderedMeans(f: Frame, nodes: seq<ReadyNode>, i: nat, j: nat)
    requires Sound(f) && Ranked(f) && Ordered(f, nodes) && i < j < |nodes|
    requires nodes[i].id in f.kept && Ends(f.par, nodes[i].id) && nodes[j].id in f.kept && Ends(f.par, nodes[j].id)
    ensures exists p, q ::
              && IsBest(f.par, f.ready, f.idOf, nodes[i].id, p) && IsBest(f.par, f.ready, f.idOf, nodes[j].id, q)
              && (p < q || (p == q && StringLe(f.idOf[nodes[i].id].title, f.idOf[nodes[j].id].title)))
  {
    hide IsBest, Ends, StringLe;
    assert BranchLe(f, nodes[i].id, nodes[j].id);
    assert IsBest(f.par, f.ready, f.idOf, nodes[i].id, f.rank[nodes[i].id]);
    assert IsBest(f.par, f.ready, f.idOf, nodes[j].id, f.rank[nodes[j].id]);
  }

  // ---------- A cycle of parents shows nothing ---------------------------------------------

  lemma {:induction false} CycleNeverEnds(par: Parents, a: TaskId, b: TaskId, n: nat)
    requires a in par && b in par && par[a] == Some(b) && par[b] == Some(a)
    ensures Up(par, a, n).Some? && Up(par, b, n).Some?
  {
    if n > 0 {
      CycleNeverEnds(par, a, b, n - 1);
    }
  }

  lemma CycleParents(par: Parents, a: Task, b: Task, byId: Graph)
    requires IsParentMap(par, [a, b], byId) && a.id in byId && b.id in byId
    requires NamesParent(a, b.id) && NamesParent(b, a.id)
    ensures par.Keys == {a.id, b.id} && par[a.id] == Some(b.id) && par[b.id] == Some(a.id)
  {
    hide NamesParent;
    var ws := [a, b];
    assert IdsOf(ws) == {a.id, b.id} by {
      assert ws[0].id in IdsOf(ws) && ws[1].id in IdsOf(ws);
    }
    assert Resolves(byId, ws[0], b.id) && Resolves(byId, ws[1], a.id);
  }

  lemma CycleEndsNowhere(par: Parents, a: TaskId, b: TaskId, x: TaskId)
    requires par.Keys == {a, b} && par[a] == Some(b) && par[b] == Some(a) && x in par
    ensures !Ends(par, x)
  {
    forall n: nat
      ensures Up(par, x, n) != None
    {
      CycleNeverEnds(par, a, b, n);
    }
  }

  lemma NoIdsNoTrees(roots: seq<ReadyNode>)
    ensures AllIds(roots) == multiset{} <==> roots == []
  {
    if roots != [] {
      assert AllIds(roots)[roots[|roots| - 1].id] > 0;
    }
  }

  lemma CycleHasNoForest(f: Frame, a: Task, b: Task, byId: Graph, roots: seq<ReadyNode>)
    requires a.id in byId && b.id in byId
    requires NamesParent(a, b.id) && NamesParent(b, a.id)
    ensures FrameOf(f, [a, b], byId, {a.id, b.id}, None) && IsForest(f, roots) ==> roots == []
  {
    hide Ranked, Nested, AllIds, NamesParent, IsParentMap, Keepers, Ends, Ordered;
    if FrameOf(f, [a, b], byId, {a.id, b.id}, None) && IsForest(f, roots) {
      CycleParents(f.par, a, b, byId);
      forall x | x in f.kept
        ensures !Ends(f.par, x)
      {
        CycleEndsNowhere(f.par, a.id, b.id, x);
      }
      assert (set x | x in f.kept && Ends(f.par, x)) == {};
      NoIdsNoTrees(roots);
    }
  }

  /** Two ready tasks that each name the other as parent appear in no tree. */
  lemma ParentCycleShowsNothing(a: Task, b: Task, byId: Graph, roots: seq<ReadyNode>)
    requires a.id in byId && b.id in byId
    requires NamesParent(a, b.id) && NamesParent(b, a.id)
    ensures IsReadyTree([a, b], byId, {a.id, b.id}, None, roots) ==> roots == []
  {
    hide IsForest, Sound, Ranked, IsParentMap, NamesParent;
    if IsReadyTree([a, b], byId, {a.id, b.id}, None, roots) {
      var f :| FrameOf(f, [a, b], byId, {a.id, b.id}, None) && IsForest(f, roots);
      CycleHasNoForest(f, a, b, byId, roots);
    }
  }
}
