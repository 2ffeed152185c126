/** What repeated polling and polling after a push leave alone. */
module PollRepeats {
  import opened Options
  import opened Mirror
  import opened TaskStates
  import opened Poller
  import opened PollRows
  import Outbox

  // ---------- Priority through a mapping -------------------------------------------------------------

  predicate OneRowPerPriority(ms: seq<PriorityMapping>) {
    forall i, j :: 0 <= i < j < |ms| ==> ms[i].priority != ms[j].priority
  }

  /** The push a task's local priority owes its board. */
  function PriorityMutation(project: Project, r: Row): Option<Outbox.Mutation> {
    if r.itemId.None? || project.priorityField.None? then None
    else match OptionFor(project.mappings, r.priority)
      case None => None
      case Some(option) => Some(Outbox.SetProjectPriority(project.id, r.itemId.value, project.priorityField.value,
          option))
  }

  /** The push names the board, the task's item, the board's priority field and the option of the first
      row for the task's priority. */
  lemma PriorityMutationMeans(project: Project, r: Row, i: nat)
    requires i < |project.mappings| && project.mappings[i].priority == r.priority
    requires forall j :: 0 <= j < i ==> project.mappings[j].priority != r.priority
    requires r.itemId.Some? && project.priorityField.Some?
    ensures var m := PriorityMutation(project, r);
            && m.Some? && m.value.SetProjectPriority?
            && m.value.project == project.id && Some(m.value.item) == r.itemId
            && Some(m.value.field) == project.priorityField && m.value.option == project.mappings[i].option
  {
    LookupsTakeTheFirst(project.mappings, i);
  }

  /** The board shows what the task's own push would write. */
  predicate ShowsPushed(project: Project, r: Row, item: Item) {
    match PriorityMutation(project, r)
    case Some(SetProjectPriority(_, _, field, option)) => field in item.selects && item.selects[field] == option
    case _ => false
  }

  lemma {:induction false} PageKeepsPriority(r: Row, key: string, project: Project, items: seq<Item>, since: int,
                                             pushing: bool, faults: FaultOracle)
    requires forall i :: 0 <= i < |items| && items[i].nodeId == key ==> ShowsPushed(project, r, items[i])
    ensures var z := RowAfterPage(r, key, project, items, since, pushing, faults);
            z.priority == r.priority && z.itemId == r.itemId
  {
    if items != [] {
      PageKeepsPriority(r, key, project, items[..|items| - 1], since, pushing, faults);
    }
  }

  ghost predicate ShowsPushedEverywhere(r: Row, key: string, projects: seq<Project>, pages: seq<Page>)
    requires |projects| == |pages|
  {
    forall i, j ::
      0 <= i < |pages| && pages[i].Page? && 0 <= j < |pages[i].items| && pages[i].items[j].nodeId == key ==>
        ShowsPushed(projects[i], r, pages[i].items[j])
  }

  /** A pass over any boards that show what a task pushed never changes the task's priority, even when
      several priorities share the option, an item is listed repeatedly, or calls fail. */
  lemma {:induction false} ProjectedPriorityStays(st: PollState, projects: seq<Project>, pages: seq<Page>,
                                                  pushes: set<int>,
                                                  faults: nat -> FaultOracle, key: string)
    requires |projects| == |pages| && Fresh(st.pass.index, st.pass.rows) && key in st.pass.index
    requires st.pass.index[key].task in st.pass.rows
             && ShowsPushedEverywhere(st.pass.rows[st.pass.index[key].task], key, projects, pages)
    ensures var end := Boards(st, projects, pages, pushes, faults).pass;
            var t := st.pass.index[key].task;
            && Fresh(end.index, end.rows) && key in end.index && end.index[key].task == t && t in end.rows
            && end.rows[t].priority == st.pass.rows[t].priority && end.rows[t].itemId == st.pass.rows[t].itemId
  {
    hide Items, RowAfterPage, ShowsPushed;
    if projects != [] {
      var n := |projects| - 1;
      var t := st.pass.index[key].task;
      assert forall i :: 0 <= i < n ==> pages[..n][i] == pages[i] && projects[..n][i] == projects[i];
      ProjectedPriorityStays(st, projects[..n], pages[..n], pushes, faults, key);
      var mid := Boards(st, projects[..n], pages[..n], pushes, faults);
      if projects[n].statusField.Some? && pages[n].Page? {
        var since := Since(mid.watermarks, projects[n].id);
        PageOnRows(mid.pass, projects[n], pages[n].items, since, pushes, faults(n));
        forall j | 0 <= j < |pages[n].items| && pages[n].items[j].nodeId == key
          ensures ShowsPushed(projects[n], mid.pass.rows[t], pages[n].items[j])
        {
          SamePush(projects[n], st.pass.rows[t], mid.pass.rows[t], pages[n].items[j]);
        }
        PageKeepsPriority(mid.pass.rows[t], key, projects[n], pages[n].items, since, t in pushes, faults(n));
      }
    }
  }

  lemma SamePush(project: Project, a: Row, b: Row, item: Item)
    requires a.itemId == b.itemId && a.priority == b.priority && ShowsPushed(project, a, item)
    ensures ShowsPushed(project, b, item)
  {
  }

  lemma {:induction false} MappedBack(ms: seq<PriorityMapping>, option: string)
    requires OneRowPerPriority(ms)
    ensures PriorityFor(ms, option).Some? ==> OptionFor(ms, PriorityFor(ms, option).value) == Some(option)
    ensures PriorityFor(ms, option).None? ==> forall p :: OptionFor(ms, p) != Some(option)
    ensures PriorityFor(ms, option).Some? ==>
              exists i :: 0 <= i < |ms| && ms[i].priority == PriorityFor(ms, option).value
  {
    if ms != [] {
      MappedBack(ms[1..], option);
      if ms[0].option != option && PriorityFor(ms[1..], option).Some? {
        var i :| 0 <= i < |ms[1..]| && ms[1..][i].priority == PriorityFor(ms[1..], option).value;
        assert ms[i + 1].priority == PriorityFor(ms, option).value;
      }
    }
  }

  /** After an undisturbed poll the task's priority projects to the board's option exactly when the
      option is mapped at all. */
  lemma PriorityConvergesExactlyWhenMapped(project: Project, r: Row, item: Item, f: Faults)
    requires OneRowPerPriority(project.mappings) && !f.pending && !f.apply
    requires project.priorityField.Some? && project.priorityField.value in item.selects
    ensures var option := item.selects[project.priorityField.value];
            OptionFor(project.mappings, RowAfter(r, project, item, false, f).priority) == Some(option)
            <==> PriorityFor(project.mappings, option).Some?
  {
    MappedBack(project.mappings, item.selects[project.priorityField.value]);
  }

  // ---------- Push, then poll -----------------------------------------------------------------------

  predicate ShowsIssue(item: Item, i: Issue) {
    item.title == i.title && item.body == i.body && item.closed == i.closed
  }

  /** Polling the issue a push left behind marks the task exactly when the remote had drifted in a
      field the push did not send: the poller never reports the drainer's own write. */
  lemma PollAfterPushMarksExactlyDrift(w: World, base: Content, item: Item)
    requires Confirmable(w.task.sync) && w.task.baseline == Some(base) && ShowsIssue(item, Done(w, base).issue)
    ensures var p := DiffAgainstBaseline(w.task);
            ContentDrifts(Done(w, base).task, item) <==>
              || (p.title.None? && w.issue.title != base.title)
              || (p.body.None? && w.issue.body != base.body)
              || (p.status.None? && w.issue.closed == base.lifecycle.IsOpen())
  {
  }

  // ---------- Idle repeats ----------------------------------------------------------------------------

  /** Reconciling this item issues a write to this row. */
  predicate Stirs(r: Row, project: Project, item: Item, pushing: bool, f: Faults) {
    || (ContentDrifts(r.mirror, item) && !f.get)
    || (BoardPriority(project, r.priority, item).Some? && !pushing && !f.pending)
    || r.status != item.status
  }

  ghost predicate StirredBy(s: Pass, project: Project, items: seq<Item>, since: int, pushes: set<int>,
                            faults: FaultOracle, i: int) {
    && 0 <= i < |items| && items[i].updatedAt > since && items[i].nodeId in s.index
    && s.index[items[i].nodeId].task in s.rows
    && Stirs(s.rows[s.index[items[i].nodeId].task], project, items[i], s.index[items[i].nodeId].task in pushes,
        faults(i))
  }

  lemma StepWritesExactlyWhen(s: Pass, project: Project, item: Item, pushes: set<int>, f: Faults)
    requires Fresh(s.index, s.rows)
    ensures var n := ItemStep(s, project, item, pushes, f);
            && n.writes >= s.writes
            && (n.writes == s.writes <==>
                  item.nodeId in s.index ==>
                    var t := s.index[item.nodeId].task; t in s.rows && !Stirs(s.rows[t], project, item, t in pushes, f))
            && (n.writes == s.writes ==> n == s)
  {
    hide ContentDrifts, BoardPriority;
    if item.nodeId in s.index {
      assert FreshAt(s.index[item.nodeId], item.nodeId, s.rows);
      var n := ItemStep(s, project, item, pushes, f);
      if n.writes == s.writes {
        assert n.rows == s.rows && n.index == s.index;
      }
    }
  }

  /** A page issues no write if and only if no due entry stirs its row as it stands. */
  lemma {:induction false} PageIsIdleExactlyWhen(s: Pass, project: Project, items: seq<Item>, since: int,
                                                 pushes: set<int>, faults: FaultOracle)
    requires Fresh(s.index, s.rows)
    ensures var n := Items(s, project, items, since, pushes, faults);
            && n.writes >= s.writes
            && (n.writes == s.writes <==> forall i :: !StirredBy(s, project, items, since, pushes, faults, i))
            && (n.writes == s.writes ==> n == s)
  {
    hide ItemStep, Stirs;
    if items != [] {
      var n := |items| - 1;
      var front := items[..n];
      PageIsIdleExactlyWhen(s, project, front, since, pushes, faults);
      var before := Items(s, project, front, since, pushes, faults);
      PageOnRows(s, project, front, since, pushes, faults);
      StepWritesExactlyWhen(before, project, items[n], pushes, faults(n));
      assert items[n].nodeId in s.index ==> FreshAt(s.index[items[n].nodeId], items[n].nodeId, s.rows);
      forall i | i != n
        ensures StirredBy(s, project, items, since, pushes, faults, i) <==>
                  StirredBy(s, project, front, since, pushes, faults, i)
      {
        assert 0 <= i < n ==> front[i] == items[i];
      }
      if before.writes != s.writes {
        var i :| StirredBy(s, project, front, since, pushes, faults, i);
        assert StirredBy(s, project, items, since, pushes, faults, i);
      } else {
        assert before == s;
        assert Items(s, project, items, since, pushes, faults).writes == s.writes <==>
               !StirredBy(s, project, items, since, pushes, faults, n);
      }
    }
  }

  predicate NoFaults(f: Faults) {
    !f.get && !f.mark && !f.pending && !f.apply && !f.cache
  }

  /** A page that lists an item twice lists it alike: the board did not change while it was read. */
  predicate Agrees(items: seq<Item>) {
    forall i, j :: 0 <= i < j < |items| && items[i].nodeId == items[j].nodeId ==> items[i] == items[j]
  }

  /** What still stirs a row after its item was reconciled: only a priority that a pending push held back. */
  lemma ReconciledStirs(r: Row, project: Project, item: Item, pushing: bool, f: Faults, pushingLater: bool, g: Faults)
    requires OneRowPerPriority(project.mappings) && NoFaults(f)
    ensures Stirs(RowAfter(r, project, item, pushing, f), project, item, pushingLater, g) <==>
              BoardPriority(project, r.priority, item).Some? && pushing && !pushingLater && !g.pending
  {
    if project.priorityField.Some? && project.priorityField.value in item.selects {
      MappedBack(project.mappings, item.selects[project.priorityField.value]);
    }
  }

  lemma RowAfterTwice(r: Row, project: Project, item: Item, pushing: bool, f: Faults, g: Faults)
    requires OneRowPerPriority(project.mappings) && NoFaults(f) && NoFaults(g)
    ensures var z := RowAfter(r, project, item, pushing, f);
            z == RowAfter(r, project, item, pushing, g) == RowAfter(z, project, item, pushing, g)
  {
    ReconciledStirs(r, project, item, pushing, f, pushing, g);
  }

  lemma {:induction false} NotDue(r: Row, key: string, project: Project, items: seq<Item>, since: int, pushing: bool,
                                  faults: FaultOracle)
    requires forall i :: 0 <= i < |items| ==> !Due(items[i], key, since)
    ensures RowAfterPage(r, key, project, items, since, pushing, faults) == r
  {
    if items != [] {
      NotDue(r, key, project, items[..|items| - 1], since, pushing, faults);
    }
  }

  /** However often an agreeing page lists an item, its row is reconciled once. */
  lemma {:induction false} PageReconcilesOnce(r: Row, key: string, project: Project, items: seq<Item>, since: int,
                                              pushing: bool, faults: FaultOracle, i: nat)
    requires Agrees(items) && OneRowPerPriority(project.mappings) && (forall j: nat :: NoFaults(faults(j)))
    requires i < |items| && Due(items[i], key, since)
    ensures RowAfterPage(r, key, project, items, since, pushing, faults) == RowAfter(r, project, items[i], pushing,
              faults(i))
  {
    hide RowAfter;
    var n := |items| - 1;
    var front := items[..n];
    if Due(items[n], key, since) {
      assert i < n ==> items[n] == items[i];
      var k := LastDue(front, key, since);
      if k.Some? {
        assert front[k.value] == items[n];
        PageReconcilesOnce(r, key, project, front, since, pushing, faults, k.value);
        RowAfterTwice(r, project, items[n], pushing, faults(k.value), faults(n));
      } else {
        NotDue(r, key, project, front, since, pushing, faults);
      }
      RowAfterTwice(r, project, items[n], pushing, faults(n), faults(i));
    } else {
      PageReconcilesOnce(r, key, project, front, since, pushing, faults, i);
    }
  }

  /** Entry `i` is due again, its board asserts another priority, and a push that held it back in the
      first pass no longer does. */
  ghost predicate Released(s: Pass, project: Project, items: seq<Item>, pushes: set<int>,
                           index: map<string, Copy>, later: int, pushesLater: set<int>, faultsLater: FaultOracle,
                               i: int) {
    && 0 <= i < |items| && items[i].updatedAt > later && items[i].nodeId in index
        && index[items[i].nodeId].task in s.rows
    && var t := index[items[i].nodeId].task;
       t in pushes && t !in pushesLater && !faultsLater(i).pending
           && BoardPriority(project, s.rows[t].priority, items[i]).Some?
  }

  /** After an undisturbed pass over a board, a second pass over the unchanged board, with whatever
      faults, issues no write if and only if no push that held back a board priority was released. */
  lemma SecondPassIsIdleExactlyWhen(s: Pass, project: Project, items: seq<Item>, since: int, pushes: set<int>,
                                    faults: FaultOracle,
                                    index: map<string, Copy>, later: int, pushesLater: set<int>,
                                        faultsLater: FaultOracle)
    requires Fresh(s.index, s.rows) && Agrees(items) && OneRowPerPriority(project.mappings)
    requires (forall i: nat :: NoFaults(faults(i))) && since <= later
    requires var first := Items(s, project, items, since, pushes, faults);
             Fresh(index, first.rows) && forall key :: key in index ==>
                 key in s.index && index[key].task == s.index[key].task
    ensures var first := Items(s, project, items, since, pushes, faults);
            var second := Items(Pass(first.rows, index, 0), project, items, later, pushesLater, faultsLater);
            && (second.writes == 0 <==> forall i :: !Released(s, project, items, pushes, index, later, pushesLater,
                faultsLater, i))
            && (second.writes == 0 ==> second.rows == first.rows)
  {
    hide Items, RowAfter, RowAfterPage, Stirs, BoardPriority;
    var first := Items(s, project, items, since, pushes, faults);
    var start := Pass(first.rows, index, 0);
    PageOnRows(s, project, items, since, pushes, faults);
    PageIsIdleExactlyWhen(start, project, items, later, pushesLater, faultsLater);
    forall i
      ensures StirredBy(start, project, items, later, pushesLater, faultsLater, i) <==>
              Released(s, project, items, pushes, index, later, pushesLater, faultsLater, i)
    {
      if 0 <= i < |items| && items[i].updatedAt > later && items[i].nodeId in index {
        var key := items[i].nodeId;
        var t := s.index[key].task;
        assert FreshAt(s.index[key], key, s.rows);
        PageReconcilesOnce(s.rows[t], key, project, items, since, t in pushes, faults, i);
        ReconciledStirs(s.rows[t], project, items[i], t in pushes, faults(i), t in pushesLater, faultsLater(i));
      }
    }
  }

  // ---------- Two inputs on which a repeat does write ----------------------------------------------------

  const NoFault: Faults := Faults(false, false, false, false, false)

  function Urgent(status: string): Item {
    Item("i", 5, "t", "b", false, Some(status), map["f" := "urgent"])
  }

  /** A priority push is pending in the first pass and gone before the second, without having reached
      the board: the unchanged board then overwrites the local priority. */
  lemma ReleasedPushIsOverwritten(task: Task)
    requires task.sync.DirtyLocal?
    ensures var project := Project("p", Some("s"), Some("f"),
              [PriorityMapping(0, "urgent"), PriorityMapping(3, "low")]);
            var r := Row(Some("i"), task, 3, Some("todo"));
            var index := map["i" := Copy(1, 3, Some("todo"), 0)];
            var first := Items(Pass(map[1 := r], index, 0), project, [Urgent("todo")], 0, {1}, (i: nat) => NoFault);
            var second := Items(Pass(first.rows, index, 0), project, [Urgent("todo")], 0, {}, (i: nat) => NoFault);
            && first.writes == 0 && 1 in first.rows && first.rows[1].priority == 3
            && second.writes == 1 && 1 in second.rows && second.rows[1].priority == 0
  {
    var ms := [PriorityMapping(0, "urgent"), PriorityMapping(3, "low")];
    var project := Project("p", Some("s"), Some("f"), ms);
    var r := Row(Some("i"), task, 3, Some("todo"));
    var index := map["i" := Copy(1, 3, Some("todo"), 0)];
    assert ms[1..] == [PriorityMapping(3, "low")];
    assert OptionFor(ms, 3) == Some("low") && "low" != "urgent" by { assert "low"[0] != "urgent"[0]; }
    assert BoardPriority(project, 3, Urgent("todo")) == Some(0);
    OneItem(Pass(map[1 := r], index, 0), project, Urgent("todo"), {1});
    OneItem(Pass(map[1 := r], index, 0), project, Urgent("todo"), {});
    assert index["i" := Copy(1, 3, Some("todo"), 0)] == index && map[1 := r][1 := r] == map[1 := r];
  }

  lemma OneItem(s: Pass, project: Project, item: Item, pushes: set<int>)
    requires item.updatedAt > 0
    ensures Items(s, project, [item], 0, pushes, (i: nat) => NoFault) == ItemStep(s, project, item, pushes, NoFault)
  {
    assert [item][..0] == [];
    assert Items(s, project, [], 0, pushes, (i: nat) => NoFault) == s;
  }

  /** A page that lists an item twice with different statuses is written twice on every pass. */
  lemma DisagreeingPageNeverSettles(task: Task)
    requires task.sync.DirtyLocal?
    ensures var project := Project("p", Some("s"), None, []);
            var s := Pass(map[1 := Row(Some("i"), task, 3, Some("b"))], map["i" := Copy(1, 3, Some("b"), 0)], 0);
            var z := Items(s, project, [Urgent("a"), Urgent("b")], 0, {}, (i: nat) => NoFault);
            z.writes == 2 && z.rows == s.rows && z.index == s.index
  {
    var project := Project("p", Some("s"), None, []);
    var s := Pass(map[1 := Row(Some("i"), task, 3, Some("b"))], map["i" := Copy(1, 3, Some("b"), 0)], 0);
    OneItem(s, project, Urgent("a"), {});
    assert [Urgent("a"), Urgent("b")][..1] == [Urgent("a")];
    assert "a" != "b" by { assert "a"[0] != "b"[0]; }
    var mid := ItemStep(s, project, Urgent("a"), {}, NoFault);
    assert mid.writes == 1 && mid.rows == map[1 := Row(Some("i"), task, 3, Some("a"))]
        && mid.index == map["i" := Copy(1, 3, Some("a"), 0)];
    var z := Items(s, project, [Urgent("a"), Urgent("b")], 0, {}, (i: nat) => NoFault);
    assert z == ItemStep(mid, project, Urgent("b"), {}, NoFault);
    assert z.rows == s.rows && z.index == s.index;
  }
}
