/** Delivery: over every history, a complete page brings its board's tracked tasks up to date. */
module PollDelivery {
  import opened Options
  import opened Poller
  import opened PollRows

  /** After a page, a task's cached status is that of its last entry on the page exactly when that
      entry is past the watermark or the earlier entries already left it there. */
  lemma DeliversExactlyWhen(s: Pass, project: Project, items: seq<Item>, since: int, pushes: set<int>,
                            faults: FaultOracle, i: nat)
    requires Fresh(s.index, s.rows) && i < |items| && items[i].nodeId in s.index
    requires !CachesFail(items, items[i].nodeId, faults)
    requires forall j :: i < j < |items| ==> items[j].nodeId != items[i].nodeId
    ensures var key := items[i].nodeId;
            var t := s.index[key].task;
            var after := Items(s, project, items, since, pushes, faults).rows;
            && t in s.rows && t in after
            && (after[t].status == items[i].status <==>
                  || items[i].updatedAt > since
                  || StatusAfter(s.rows[t].status, items[..i], key, since) == items[i].status)
  {
    hide Items, RowAfterPage;
    var key := items[i].nodeId;
    PageOnRows(s, project, items, since, pushes, faults);
    var t := s.index[key].task;
    StatusAfterPage(s.rows[t], key, project, items, since, t in pushes, faults);
    LastEntryDecides(s.rows[t].status, items, key, since, i);
  }

  lemma {:induction false} LastEntryDecides(status: Option<string>, items: seq<Item>, key: string, since: int, i: nat)
    requires i < |items| && items[i].nodeId == key && forall j :: i < j < |items| ==> items[j].nodeId != key
    ensures StatusAfter(status, items, key, since) ==
              if items[i].updatedAt > since then items[i].status else StatusAfter(status, items[..i], key, since)
  {
    var n := |items| - 1;
    if i < n {
      LastEntryDecides(status, items[..n], key, since, i);
      assert items[..n][..i] == items[..i];
    }
  }

  // ---------- Boards, tasks and their history -------------------------------------------------------

  type Board = map<string, Item>

  /** The boards as they are, the task table, the poller's watermarks, and per board the newest change
      stamp so far. */
  datatype Site = Site(boards: map<string, Board>, rows: map<int, Row>, writes: nat, watermarks: map<string, int>,
                       clocks: map<string, int>)

  datatype Event =
    | Change(project: string, item: Item)
    | Remove(project: string, key: string)
    | Poll(projects: seq<Project>, pages: seq<Page>, candidates: seq<Candidate>, pushes: set<int>,
        faults: nat -> FaultOracle)
    | Restart
    | Elsewhere(rows: map<int, Row>)

  function BoardOf(boards: map<string, Board>, project: string): Board {
    if project in boards then boards[project] else map[]
  }

  /** A page lists board items as they are, possibly more than once; a complete page lists them all. */
  ghost predicate Listing(page: Page, board: Board) {
    page.Page? ==>
      && (forall i :: 0 <= i < |page.items| ==>
            page.items[i].nodeId in board && board[page.items[i].nodeId] == page.items[i])
      && (!page.truncated ==> forall key :: key in board ==> ListedAt(page.items, key))
  }

  ghost predicate ListedAt(items: seq<Item>, key: string) {
    exists i :: 0 <= i < |items| && items[i].nodeId == key
  }

  predicate TaskOn(rows: map<int, Row>, t: int) {
    t in rows && rows[t].itemId.Some?
  }

  /** The tracked tasks are in the pass's working set, which was read from the table. */
  ghost predicate WorkingSet(index: map<string, Copy>, rows: map<int, Row>, tracked: set<int>) {
    && Fresh(index, rows)
    && forall t :: t in tracked ==>
         TaskOn(rows, t) && rows[t].itemId.value in index && index[rows[t].itemId.value].task == t
  }

  /** The candidates were read from the table, and each tracked task is the last one listed for its
      item. */
  ghost predicate ListsTracked(candidates: seq<Candidate>, rows: map<int, Row>, tracked: set<int>) {
    && (forall i :: 0 <= i < |candidates| && candidates[i].itemId.Some? ==>
          FreshAt(candidates[i].copy, candidates[i].itemId.value, rows))
    && forall t :: t in tracked ==> TaskOn(rows, t) && ListedLast(candidates, rows[t].itemId.value, t)
  }

  ghost predicate ListedLast(candidates: seq<Candidate>, key: string, t: int) {
    exists i :: 0 <= i < |candidates| && LastWith(candidates, i, key) && candidates[i].copy.task == t
  }

  /** Indexing such a list gives a working set that holds the tracked tasks. */
  lemma ListedIsWorkingSet(candidates: seq<Candidate>, rows: map<int, Row>, tracked: set<int>)
    requires ListsTracked(candidates, rows, tracked)
    ensures WorkingSet(IndexOf(candidates), rows, tracked)
  {
    hide IndexOf;
    var index := IndexOf(candidates);
    forall key | key in index
      ensures FreshAt(index[key], key, rows)
    {
      IndexHoldsTheLast(candidates, key);
    }
    forall t | t in tracked
      ensures rows[t].itemId.value in index && index[rows[t].itemId.value].task == t
    {
      var key := rows[t].itemId.value;
      assert Carried(candidates, key);
      IndexHoldsTheLast(candidates, key);
      var i :| 0 <= i < |candidates| && LastWith(candidates, i, key) && candidates[i].copy.task == t;
      var k :| 0 <= k < |candidates| && LastWith(candidates, k, key) && index[key] == candidates[k].copy;
      assert i == k;
    }
  }

  ghost predicate CachesWork(faults: nat -> FaultOracle) {
    forall i: nat, j: nat :: !faults(i)(j).cache
  }

  /** The hypotheses of delivery: a board's change stamps step back by less than a second and its items
      are on no other board, the working set holds the tracked tasks, status writes succeed, and nobody else
      writes tracked tasks' cached status or item id. */
  ghost predicate Allowed(s: Site, e: Event, tracked: set<int>) {
    match e
    case Change(project, item) =>
      && item.updatedAt > 0 && item.updatedAt > Since(s.clocks, project) - SECOND
      && forall p :: p in s.boards && p != project ==> item.nodeId !in s.boards[p]
    case Poll(projects, pages, candidates, _, faults) =>
      && |projects| == |pages|
      && (forall i :: 0 <= i < |pages| ==> Listing(pages[i], BoardOf(s.boards, projects[i].id)))
      && ListsTracked(candidates, s.rows, tracked) && CachesWork(faults)
    case Remove(_, _) => true
    case Restart => true
    case Elsewhere(rows) =>
      forall t :: t in tracked && TaskOn(s.rows, t) ==>
        TaskOn(rows, t) && rows[t].itemId == s.rows[t].itemId && rows[t].status == s.rows[t].status
  }

  /** The site with the poller's part replaced by a state inside a pass. */
  function Mid(s: Site, st: PollState): Site {
    s.(rows := st.pass.rows, writes := st.pass.writes, watermarks := st.watermarks)
  }

  /** The poller's state when a pass has indexed its candidates. */
  function Begun(s: Site, candidates: seq<Candidate>): PollState {
    PollState(Pass(s.rows, IndexOf(candidates), s.writes), s.watermarks)
  }

  function After(s: Site, e: Event): Site {
    match e
    case Change(project, item) =>
      s.(boards := s.boards[project := BoardOf(s.boards, project)[item.nodeId := item]],
         clocks := s.clocks[project := Max(Since(s.clocks, project), item.updatedAt)])
    case Remove(project, key) =>
      if project in s.boards then s.(boards := s.boards[project := s.boards[project] - {key}]) else s
    case Poll(projects, pages, candidates, pushes, faults) =>
      if |projects| != |pages| then s
      else Mid(s, Boards(Begun(s, candidates), projects, pages, pushes, faults))
    case Restart => s.(watermarks := map[])
    case Elsewhere(rows) => s.(rows := rows)
  }

  // ---------- The invariant ----------------------------------------------------------------------------

  ghost predicate Stamped(s: Site) {
    Behind(s.watermarks, s.clocks) && Dated(s.boards, s.clocks) && Apart(s.boards)
  }

  /** No watermark is past a second before its board's newest change. */
  ghost predicate Behind(watermarks: map<string, int>, clocks: map<string, int>) {
    forall p :: 0 <= Since(watermarks, p) <= Max(0, Since(clocks, p) - SECOND)
  }

  predicate Dated(boards: map<string, Board>, clocks: map<string, int>) {
    forall p, key :: p in boards && key in boards[p] ==>
      boards[p][key].nodeId == key && 0 < boards[p][key].updatedAt <= Since(clocks, p)
  }

  /** No item is on two boards. */
  predicate Apart(boards: map<string, Board>) {
    forall p, q, key :: p in boards && q in boards && key in boards[p] && key in boards[q] ==> p == q
  }

  /** A tracked task shows its item's status, or the item is due on the next poll of its board. */
  ghost predicate ShownOrDue(s: Site, t: int) {
    TaskOn(s.rows, t) && forall p :: p in s.boards ==> ShownOrDueOn(s, t, p)
  }

  predicate ShownOrDueOn(s: Site, t: int, p: string)
    requires TaskOn(s.rows, t) && p in s.boards
  {
    var key := s.rows[t].itemId.value;
    key in s.boards[p] ==>
      s.rows[t].status == s.boards[p][key].status || s.boards[p][key].updatedAt > Since(s.watermarks, p)
  }

  predicate ShownOn(s: Site, t: int, p: string) {
    && TaskOn(s.rows, t)
    && (s.rows[t].itemId.value in BoardOf(s.boards, p) ==>
        s.rows[t].status == s.boards[p][s.rows[t].itemId.value].status)
  }

  ghost predicate PollInv(s: Site, tracked: set<int>) {
    Stamped(s) && forall t :: t in tracked ==> ShownOrDue(s, t)
  }

  lemma WatermarkBound(since: int, page: Page, clock: int, board: Board)
    requires 0 <= since <= Max(0, clock - SECOND) && Listing(page, board)
    requires forall key :: key in board ==> board[key].updatedAt <= clock
    ensures since <= NextWatermark(since, page) <= Max(0, clock - SECOND)
    ensures !page.Complete() ==> NextWatermark(since, page) == since
  {
    if page.Complete() {
      NewestIsMax(since, page.items);
    }
  }

  /** The status of one tracked task after one board of a pass. */
  lemma BoardOnTask(s: Site, st: PollState, project: Project, page: Page, pushes: set<int>, faults: FaultOracle,
                    t: int, tracked: set<int>)
    requires WorkingSet(st.pass.index, st.pass.rows, tracked) && t in tracked && project.statusField.Some? && page.Page?
    requires forall j: nat :: !faults(j).cache
    ensures var after := BoardStep(st, project, page, pushes, faults).pass;
            var key := st.pass.rows[t].itemId.value;
            && TaskOn(after.rows, t) && after.rows[t].itemId == Some(key)
            && key in after.index && after.index[key].task == t && Fresh(after.index, after.rows)
            && after.rows[t].status == StatusAfter(st.pass.rows[t].status, page.items, key,
                Since(st.watermarks, project.id))
  {
    hide Items, RowAfterPage, StatusAfter;
    var since := Since(st.watermarks, project.id);
    var key := st.pass.rows[t].itemId.value;
    PageOnRows(st.pass, project, page.items, since, pushes, faults);
    StatusAfterPage(st.pass.rows[t], key, project, page.items, since, t in pushes, faults);
  }

  /** One board of a pass, for one tracked task: nothing shown is lost, nothing due is skipped, and a
      complete page shows what its board holds. */
  lemma BoardDelivers(s: Site, st: PollState, project: Project, page: Page, pushes: set<int>, faults: FaultOracle,
                      t: int, tracked: set<int>)
    requires PollInv(Mid(s, st), tracked) && WorkingSet(st.pass.index, st.pass.rows, tracked) && t in tracked
    requires Listing(page, BoardOf(s.boards, project.id)) && forall j: nat :: !faults(j).cache
    ensures var z := Mid(s, BoardStep(st, project, page, pushes, faults));
            && ShownOrDue(z, t)
            && (forall p :: p in s.boards && ShownOn(Mid(s, st), t, p) ==> ShownOn(z, t, p))
            && (project.statusField.Some? && page.Complete() ==> ShownOn(z, t, project.id))
  {
    if project.statusField.Some? && page.Page? {
      BoardOnTask(s, st, project, page, pushes, faults, t, tracked);
      hide Items, RowAfterPage;
      var since, key := Since(st.watermarks, project.id), st.pass.rows[t].itemId.value;
      var z := Mid(s, BoardStep(st, project, page, pushes, faults));
      var board := BoardOf(s.boards, project.id);
      assert ShownOrDue(Mid(s, st), t);
      assert Stamped(Mid(s, st));
      BoardMovesWatermark(st, project, page, pushes, faults, project.id);
      WatermarkBound(since, page, Since(s.clocks, project.id), board);
      var k := LastDue(page.items, key, since);
      if k.Some? {
        assert page.items[k.value].nodeId == key;
      }
      if key in board {
        if page.Complete() && k.None? {
          assert ListedAt(page.items, key);
        }
        assert ShownOrDueOn(Mid(s, st), t, project.id);
      }
      forall p | p in s.boards
        ensures ShownOrDueOn(z, t, p) && (ShownOn(Mid(s, st), t, p) ==> ShownOn(z, t, p))
      {
        BoardMovesWatermark(st, project, page, pushes, faults, p);
        assert ShownOrDueOn(Mid(s, st), t, p);
      }
    } else {
      assert ShownOrDue(Mid(s, st), t);
    }
  }

  lemma BoardStamps(s: Site, st: PollState, project: Project, page: Page, pushes: set<int>, faults: FaultOracle)
    requires Stamped(Mid(s, st)) && Listing(page, BoardOf(s.boards, project.id))
    ensures Stamped(Mid(s, BoardStep(st, project, page, pushes, faults)))
  {
    hide BoardStep, Items, NextWatermark;
    var z := BoardStep(st, project, page, pushes, faults);
    forall p
      ensures 0 <= Since(z.watermarks, p) <= Max(0, Since(s.clocks, p) - SECOND)
    {
      assert 0 <= Since(Mid(s, st).watermarks, p) <= Max(0, Since(Mid(s, st).clocks, p) - SECOND);
      BoardMovesWatermark(st, project, page, pushes, faults, p);
      if p == project.id {
        WatermarkBound(Since(st.watermarks, p), page, Since(s.clocks, p), BoardOf(s.boards, p));
      }
    }
  }

  lemma BoardKeepsSet(s: Site, st: PollState, project: Project, page: Page, pushes: set<int>, faults: FaultOracle,
                      tracked: set<int>)
    requires WorkingSet(st.pass.index, st.pass.rows, tracked) && forall j: nat :: !faults(j).cache
    ensures var z := BoardStep(st, project, page, pushes, faults); WorkingSet(z.pass.index, z.pass.rows, tracked)
  {
    if project.statusField.Some? && page.Page? {
      PageOnRows(st.pass, project, page.items, Since(st.watermarks, project.id), pushes, faults);
      forall t | t in tracked
        ensures var z := BoardStep(st, project, page, pushes, faults).pass;
                TaskOn(z.rows, t) && z.rows[t].itemId.value in z.index && z.index[z.rows[t].itemId.value].task == t
      {
        BoardOnTask(s, st, project, page, pushes, faults, t, tracked);
      }
    }
  }

  ghost predicate Seen(project: Project, page: Page) {
    project.statusField.Some? && page.Complete()
  }

  /** A whole pass over several boards with one shared index. */
  lemma {:induction false} PassDelivers(s: Site, st: PollState, projects: seq<Project>, pages: seq<Page>,
                                        pushes: set<int>,
                                        faults: nat -> FaultOracle, tracked: set<int>)
    requires |projects| == |pages| && CachesWork(faults)
    requires PollInv(Mid(s, st), tracked) && WorkingSet(st.pass.index, st.pass.rows, tracked)
    requires forall i :: 0 <= i < |pages| ==> Listing(pages[i], BoardOf(s.boards, projects[i].id))
    ensures var end := Boards(st, projects, pages, pushes, faults);
            && PollInv(Mid(s, end), tracked) && WorkingSet(end.pass.index, end.pass.rows, tracked)
            && forall t, i :: t in tracked && 0 <= i < |pages| && Seen(projects[i], pages[i]) ==>
                ShownOn(Mid(s, end), t, projects[i].id)
  {
    hide BoardStep, Listing, WorkingSet, Stamped, ShownOrDue, ShownOn;
    if projects != [] {
      var n := |projects| - 1;
      PassDelivers(s, st, projects[..n], pages[..n], pushes, faults, tracked);
      var mid := Boards(st, projects[..n], pages[..n], pushes, faults);
      BoardStamps(s, mid, projects[n], pages[n], pushes, faults(n));
      BoardKeepsSet(s, mid, projects[n], pages[n], pushes, faults(n), tracked);
      var end := Boards(st, projects, pages, pushes, faults);
      forall t | t in tracked
        ensures ShownOrDue(Mid(s, end), t)
      {
        BoardDelivers(s, mid, projects[n], pages[n], pushes, faults(n), t, tracked);
      }
      forall t, i | t in tracked && 0 <= i < |pages| && Seen(projects[i], pages[i])
        ensures ShownOn(Mid(s, end), t, projects[i].id)
      {
        BoardDelivers(s, mid, projects[n], pages[n], pushes, faults(n), t, tracked);
        if i < n {
          assert Seen(projects[..n][i], pages[..n][i]);
          ShownOffBoards(s, mid, end, t, projects[i].id, tracked);
        }
      }
    }
  }

  /** A project without a known board shows trivially. */
  lemma ShownOffBoards(s: Site, a: PollState, b: PollState, t: int, p: string, tracked: set<int>)
    requires ShownOn(Mid(s, a), t, p) && ShownOrDue(Mid(s, b), t)
    requires p in s.boards ==> ShownOn(Mid(s, b), t, p)
    ensures ShownOn(Mid(s, b), t, p)
  {
  }

  lemma PollInvKeeps(s: Site, e: Event, tracked: set<int>)
    requires PollInv(s, tracked) && Allowed(s, e, tracked)
    ensures PollInv(After(s, e), tracked)
  {
    if e.Poll? {
      var st := Begun(s, e.candidates);
      assert Mid(s, st) == s;
      ListedIsWorkingSet(e.candidates, s.rows, tracked);
      PassDelivers(s, st, e.projects, e.pages, e.pushes, e.faults, tracked);
    } else {
      OtherKeeps(s, e, tracked);
    }
  }

  lemma OtherKeeps(s: Site, e: Event, tracked: set<int>)
    requires PollInv(s, tracked) && Allowed(s, e, tracked) && !e.Poll?
    ensures PollInv(After(s, e), tracked)
  {
    OtherStamps(s, e, tracked);
    forall t | t in tracked
      ensures ShownOrDue(After(s, e), t)
    {
      assert ShownOrDue(s, t);
      OtherShows(s, e, tracked, t);
    }
  }

  lemma OtherStamps(s: Site, e: Event, tracked: set<int>)
    requires Stamped(s) && Allowed(s, e, tracked) && !e.Poll?
    ensures Stamped(After(s, e))
  {
    hide Behind, Dated, Apart;
    if e.Change? {
      var clock := Max(Since(s.clocks, e.project), e.item.updatedAt);
      LaterBehind(s.watermarks, s.clocks, e.project, clock);
      ChangeDates(s.boards, s.clocks, e.project, e.item, clock);
      ChangeApart(s.boards, e.project, e.item);
    } else if e.Remove? && e.project in s.boards {
      RemovalStamps(s.boards, s.clocks, e.project, e.key);
    } else if e.Restart? {
      FreshBehind(s.watermarks, s.clocks);
    }
  }

  lemma FreshBehind(watermarks: map<string, int>, clocks: map<string, int>)
    requires Behind(watermarks, clocks)
    ensures Behind(map[], clocks)
  {
    forall p
      ensures 0 <= Since(map[], p) <= Max(0, Since(clocks, p) - SECOND)
    {
      assert 0 <= Since(watermarks, p) <= Max(0, Since(clocks, p) - SECOND);
    }
  }

  lemma RemovalStamps(boards: map<string, Board>, clocks: map<string, int>, project: string, key: string)
    requires Dated(boards, clocks) && Apart(boards) && project in boards
    ensures Dated(boards[project := boards[project] - {key}], clocks)
              && Apart(boards[project := boards[project] - {key}])
  {
    var after: map<string, Board> := boards[project := boards[project] - {key}];
    assert forall p :: p in after ==> p in boards && forall k :: k in after[p] ==>
        k in boards[p] && after[p][k] == boards[p][k];
  }

  lemma LaterBehind(watermarks: map<string, int>, clocks: map<string, int>, project: string, clock: int)
    requires Behind(watermarks, clocks) && clock >= Since(clocks, project)
    ensures Behind(watermarks, clocks[project := clock])
  {
    forall p
      ensures 0 <= Since(watermarks, p) <= Max(0, Since(clocks[project := clock], p) - SECOND)
    {
      assert 0 <= Since(watermarks, p) <= Max(0, Since(clocks, p) - SECOND);
    }
  }

  lemma ChangeDates(boards: map<string, Board>, clocks: map<string, int>, project: string, item: Item, clock: int)
    requires Dated(boards, clocks) && item.updatedAt > 0 && clock >= item.updatedAt && clock >= Since(clocks, project)
    ensures Dated(boards[project := BoardOf(boards, project)[item.nodeId := item]], clocks[project := clock])
  {
    var after: map<string, Board> := boards[project := BoardOf(boards, project)[item.nodeId := item]];
    var times := clocks[project := clock];
    forall p, key | p in after && key in after[p]
      ensures after[p][key].nodeId == key && 0 < after[p][key].updatedAt <= Since(times, p)
    {
      if p != project || key != item.nodeId {
        assert p in boards && key in boards[p];
      }
    }
  }

  lemma ChangeApart(boards: map<string, Board>, project: string, item: Item)
    requires Apart(boards) && forall p :: p in boards && p != project ==> item.nodeId !in boards[p]
    ensures Apart(boards[project := BoardOf(boards, project)[item.nodeId := item]])
  {
    var after: map<string, Board> := boards[project := BoardOf(boards, project)[item.nodeId := item]];
    forall p, q, key | p in after && q in after && key in after[p] && key in after[q]
      ensures p == q
    {
      if key != item.nodeId {
        assert key in BoardOf(boards, p) && key in BoardOf(boards, q);
      }
    }
  }

  lemma OtherShows(s: Site, e: Event, tracked: set<int>, t: int)
    requires Stamped(s) && Allowed(s, e, tracked) && !e.Poll? && t in tracked && ShownOrDue(s, t)
    ensures ShownOrDue(After(s, e), t)
  {
    var z := After(s, e);
    forall p | p in z.boards
      ensures ShownOrDueOn(z, t, p)
    {
      assert 0 <= Since(s.watermarks, p) <= Max(0, Since(s.clocks, p) - SECOND);
      if p in s.boards {
        assert ShownOrDueOn(s, t, p);
      }
    }
  }

  function AfterAll(s: Site, es: seq<Event>): Site {
    if es == [] then s else After(AfterAll(s, es[..|es| - 1]), es[|es| - 1])
  }

  ghost predicate AllowedAll(s: Site, es: seq<Event>, tracked: set<int>) {
    es == [] ||
    (AllowedAll(s, es[..|es| - 1], tracked) && Allowed(AfterAll(s, es[..|es| - 1]), es[|es| - 1], tracked))
  }

  lemma {:induction false} EveryHistoryKeeps(s: Site, es: seq<Event>, tracked: set<int>)
    requires PollInv(s, tracked) && AllowedAll(s, es, tracked)
    ensures PollInv(AfterAll(s, es), tracked)
  {
    hide PollInv, Allowed, After;
    if es != [] {
      EveryHistoryKeeps(s, es[..|es| - 1], tracked);
      PollInvKeeps(AfterAll(s, es[..|es| - 1]), es[|es| - 1], tracked);
    }
  }

  /** From a fresh start, over any history of board changes and removals, passes with failed, truncated and complete
      pages, restarts and other writers: after every pass, each tracked task on a board that was
      observed in full shows that board's status. */
  lemma EveryCompletePageDelivers(s: Site, es: seq<Event>, tracked: set<int>, i: nat)
    requires Stamped(s) && s.watermarks == map[] && (forall t :: t in tracked ==> TaskOn(s.rows, t))
    requires AllowedAll(s, es, tracked) && es != [] && es[|es| - 1].Poll?
    requires i < |es[|es| - 1].projects| == |es[|es| - 1].pages|
               && Seen(es[|es| - 1].projects[i], es[|es| - 1].pages[i])
    ensures forall t :: t in tracked ==> ShownOn(AfterAll(s, es), t, es[|es| - 1].projects[i].id)
  {
    var front, e := es[..|es| - 1], es[|es| - 1];
    forall t | t in tracked
      ensures ShownOrDue(s, t)
    {
    }
    EveryHistoryKeeps(s, front, tracked);
    var mid := AfterAll(s, front);
    var st := Begun(mid, e.candidates);
    assert Mid(mid, st) == mid;
    ListedIsWorkingSet(e.candidates, mid.rows, tracked);
    PassDelivers(mid, st, e.projects, e.pages, e.pushes, e.faults, tracked);
  }
  /** One pass of the poller is the history's poll event, so what is proved of histories holds of it. */
  method PollIsTheEvent(poller: ProjectPoller, ghost s: Site, projects: seq<Project>, pages: seq<Page>,
                        candidates: seq<Candidate>, pushes: set<int>, faults: nat -> FaultOracle,
                        lookup: nat -> Option<string>, stamp: int -> Option<int>)
    requires |projects| == |pages| && Mid(s, poller.State()) == s
    modifies poller
    ensures Mid(s, poller.State()) == After(s, Poll(projects, pages, candidates, pushes, faults))
  {
    var _ := poller.PollOnce(Some(projects), pages, Some(candidates), pushes, faults, lookup, stamp);
  }
}
