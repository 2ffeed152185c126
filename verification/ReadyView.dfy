/** The ready view: per workspace, the ready frontier of the filtered candidates as a forest. */
module ReadyView {
  import opened Options
  import opened Blockers
  import opened ReadyTree

  predicate InScope(t: Task, ws: nat, repos: set<nat>) {
    t.workspace == ws && (repos == {} || (t.repo.Some? && t.repo.value in repos))
  }

  /** The ids of the ready candidates of one workspace; blockers resolve in the whole graph. */
  ghost function ReadyIn(byId: Graph, candidates: seq<Task>, ws: nat, repos: set<nat>): set<TaskId> {
    set t | t in candidates && InScope(t, ws, repos) && Ready(byId, t) :: t.id
  }

  datatype ReadyWorkspace = ReadyWorkspace(id: nat, tree: seq<ReadyNode>)

  /** The workspace's tree is the forest over its in-scope candidates. */
  ghost predicate Shows(w: ReadyWorkspace, byId: Graph, candidates: seq<Task>, repos: set<nat>,
                        project: Option<Catalog>) {
    exists scope ::
      && (forall t :: t in scope <==> t in candidates && InScope(t, w.id, repos))
      && UniqueTasks(scope)
      && IsReadyTree(scope, byId, ReadyIn(byId, candidates, w.id, repos), project, w.tree)
  }

  method Scope(candidates: seq<Task>, ws: nat, repos: set<nat>) returns (scope: seq<Task>)
    requires UniqueTasks(candidates)
    ensures UniqueTasks(scope)
    ensures forall t :: t in scope <==> t in candidates && InScope(t, ws, repos)
    ensures forall t :: t in scope <==>
              t in candidates && t.workspace == ws && (repos == {} || exists r :: r in repos && t.repo == Some(r))
  {
    scope := [];
    for i := 0 to |candidates|
      invariant UniqueTasks(scope)
      invariant forall t :: t in scope <==> t in candidates[..i] && InScope(t, ws, repos)
    {
      assert forall k :: 0 <= k < |scope| ==> scope[k] in candidates[..i];
      assert candidates[..i + 1] == candidates[..i] + [candidates[i]];
      if InScope(candidates[i], ws, repos) {
        scope := scope + [candidates[i]];
      }
    }
    assert candidates[..|candidates|] == candidates;
  }

  method OneWorkspace(byId: Graph, candidates: seq<Task>, ws: nat, repos: set<nat>,
                      project: Option<Catalog>) returns (out: Option<ReadyWorkspace>)
    requires WellKeyed(byId) && UniqueTasks(candidates)
    ensures out.None? <==> ReadyIn(byId, candidates, ws, repos) == {}
    ensures out.Some? ==> out.value.id == ws && Shows(out.value, byId, candidates, repos, project)
  {
    hide Ready, ReadyIn, Shows, UniqueTasks, WellKeyed, IsReadyTree;
    var scope := Scope(candidates, ws, repos);
    var ready := SelectReady(byId, scope);
    var ids := IdsOf(ready);
    ReadyIds(byId, candidates, ws, repos, scope, ready);
    if ids == {} {
      return None;
    }
    var tree := BuildReadyTree(scope, byId, ids, project);
    out := Some(ReadyWorkspace(ws, tree));
    ShowsScope(out.value, byId, candidates, repos, project, scope);
  }

  lemma ShowsScope(w: ReadyWorkspace, byId: Graph, candidates: seq<Task>, repos: set<nat>, project: Option<Catalog>,
                   scope: seq<Task>)
    requires forall t :: t in scope <==> t in candidates && InScope(t, w.id, repos)
    requires UniqueTasks(scope) && IsReadyTree(scope, byId, ReadyIn(byId, candidates, w.id, repos), project, w.tree)
    ensures Shows(w, byId, candidates, repos, project)
  {
    hide IsReadyTree, ReadyIn, UniqueTasks;
  }

  lemma ReadyIds(byId: Graph, candidates: seq<Task>, ws: nat, repos: set<nat>, scope: seq<Task>, ready: seq<Task>)
    requires forall t :: t in scope <==> t in candidates && InScope(t, ws, repos)
    requires forall t :: t in ready <==> t in scope && Ready(byId, t)
    ensures IdsOf(ready) == ReadyIn(byId, candidates, ws, repos) && IdsOf(ready) <= IdsOf(scope)
  {
    hide Ready;
    forall x | x in IdsOf(ready)
      ensures x in ReadyIn(byId, candidates, ws, repos) && x in IdsOf(scope)
    {
      var i :| 0 <= i < |ready| && ready[i].id == x;
      assert ready[i] in ready && ready[i] in scope;
    }
    forall x | x in ReadyIn(byId, candidates, ws, repos)
      ensures x in IdsOf(ready)
    {
      var t :| t in candidates && InScope(t, ws, repos) && Ready(byId, t) && t.id == x;
      assert t in ready;
    }
  }

  ghost function Listed(byId: Graph, candidates: seq<Task>, workspaces: seq<nat>, repos: set<nat>): seq<nat> {
    if workspaces == [] then []
    else
      var n := |workspaces| - 1;
      Listed(byId, candidates, workspaces[..n], repos)
      + if ReadyIn(byId, candidates, workspaces[n], repos) == {} then [] else [workspaces[n]]
  }

  /** The workspaces with something ready, in order, each with its forest; the others are omitted. */
  method ReadyViewOf(byId: Graph, candidates: seq<Task>, workspaces: seq<nat>, repos: set<nat>,
                     projectOf: nat -> Option<Catalog>) returns (view: seq<ReadyWorkspace>)
    requires WellKeyed(byId) && UniqueTasks(candidates)
    ensures |view| == |Listed(byId, candidates, workspaces, repos)|
    ensures forall i :: 0 <= i < |view| ==>
              view[i].id == Listed(byId, candidates, workspaces, repos)[i]
                  && Shows(view[i], byId, candidates, repos, projectOf(view[i].id))
  {
    hide Shows, ReadyIn;
    view := [];
    for n := 0 to |workspaces|
      invariant |view| == |Listed(byId, candidates, workspaces[..n], repos)|
      invariant forall i :: 0 <= i < |view| ==>
                  view[i].id == Listed(byId, candidates, workspaces[..n], repos)[i]
                      && Shows(view[i], byId, candidates, repos, projectOf(view[i].id))
    {
      assert workspaces[..n + 1][..n] == workspaces[..n];
      var one := OneWorkspace(byId, candidates, workspaces[n], repos, projectOf(workspaces[n]));
      if one.Some? {
        view := view + [one.value];
      }
    }
    assert workspaces[..|workspaces|] == workspaces;
  }

  /** Filtering candidates removes exactly the filtered tasks from each workspace's frontier. */
  lemma FilteringIntersects(byId: Graph, all: seq<Task>, kept: seq<Task>, ws: nat, repos: set<nat>)
    requires UniqueTasks(all) && (forall t :: t in kept ==> t in all)
    ensures ReadyIn(byId, kept, ws, repos) == ReadyIn(byId, all, ws, repos) * IdsOf(kept)
  {
    hide Ready;
    forall x | x in ReadyIn(byId, kept, ws, repos)
      ensures x in ReadyIn(byId, all, ws, repos) && x in IdsOf(kept)
    {
      var t :| t in kept && InScope(t, ws, repos) && Ready(byId, t) && t.id == x;
      assert t in all;
      var i :| 0 <= i < |kept| && kept[i] == t;
      assert kept[i].id == x;
    }
    forall x | x in ReadyIn(byId, all, ws, repos) && x in IdsOf(kept)
      ensures x in ReadyIn(byId, kept, ws, repos)
    {
      var t :| t in all && InScope(t, ws, repos) && Ready(byId, t) && t.id == x;
      var i :| 0 <= i < |kept| && kept[i].id == x;
      assert kept[i] in kept && kept[i] in all;
      assert kept[i] == t;
    }
  }
}
