/** The project poller: per-board watermarks and the reconciliation of polled items into task rows. */
module Poller {
  import opened Options
  import opened Mirror
  import opened TaskStates

  /** Timestamps are nanoseconds since the epoch. */
  const SECOND: int := 1_000_000_000

  datatype Item = Item(nodeId: string, updatedAt: int, title: string, body: string, closed: bool,
                       status: Option<string>, selects: map<string, string>)

  /** A provider answer for one board. */
  datatype Page = PollFailed | Page(items: seq<Item>, truncated: bool) {
    predicate Complete() {
      Page? && !truncated
    }
  }

  datatype PriorityMapping = PriorityMapping(priority: Priority, option: string)

  datatype Project = Project(id: string, statusField: Option<string>, priorityField: Option<string>,
                             mappings: seq<PriorityMapping>)

  datatype Row = Row(itemId: Option<string>, mirror: Task, priority: Priority, status: Option<string>)

  /** What a pass remembers of a task it listed, keyed by item id; it may be stale. */
  datatype Copy = Copy(task: int, priority: Priority, status: Option<string>, workspace: int)

  datatype Candidate = Candidate(itemId: Option<string>, copy: Copy)

  /** Which port calls fail while one item is reconciled. */
  datatype Faults = Faults(get: bool, mark: bool, pending: bool, apply: bool, cache: bool)

  /** Task table, per-pass index, and the number of column writes issued. */
  datatype Pass = Pass(rows: map<int, Row>, index: map<string, Copy>, writes: nat)

  // ---------- Pure decisions of the source ---------------------------------------------------

  function OptionFor(ms: seq<PriorityMapping>, p: Priority): Option<string> {
    if ms == [] then None else if ms[0].priority == p then Some(ms[0].option) else OptionFor(ms[1..], p)
  }

  function PriorityFor(ms: seq<PriorityMapping>, option: string): Option<Priority> {
    if ms == [] then None else if ms[0].option == option then Some(ms[0].priority) else PriorityFor(ms[1..], option)
  }

  /** Both lookups take the first row that matches. */
  lemma {:induction false} LookupsTakeTheFirst(ms: seq<PriorityMapping>, i: nat)
    requires i < |ms|
    ensures (forall j :: 0 <= j < i ==> ms[j].priority != ms[i].priority) ==>
              OptionFor(ms, ms[i].priority) == Some(ms[i].option)
    ensures (forall j :: 0 <= j < i ==> ms[j].option != ms[i].option) ==>
              PriorityFor(ms, ms[i].option) == Some(ms[i].priority)
  {
    if i > 0 {
      LookupsTakeTheFirst(ms[1..], i - 1);
      assert forall j :: 0 <= j < i - 1 ==> ms[1..][j] == ms[j + 1];
      assert ms[1..][i - 1] == ms[i];
    }
  }

  lemma {:induction false} LookupsMissExactlyWhen(ms: seq<PriorityMapping>, p: Priority, option: string)
    ensures OptionFor(ms, p).None? <==> forall i :: 0 <= i < |ms| ==> ms[i].priority != p
    ensures PriorityFor(ms, option).None? <==> forall i :: 0 <= i < |ms| ==> ms[i].option != option
  {
    if ms != [] {
      LookupsMissExactlyWhen(ms[1..], p, option);
      assert forall i :: 0 < i < |ms| ==> ms[i] == ms[1..][i - 1];
      assert forall i :: 0 <= i < |ms[1..]| ==> ms[1..][i] == ms[i + 1];
    }
  }

  predicate ContentDrifts(t: Task, item: Item) {
    t.sync.Synced? && t.baseline.Some?
    && !InboundMirrorsBaseline(Issue(item.title, item.body, item.closed, None, t.baseline.value.assignees),
        t.baseline.value)
  }

  /** The local priority the board asserts against `local`, if it asserts one. */
  function BoardPriority(project: Project, local: Priority, item: Item): Option<Priority> {
    if project.priorityField.None? || project.priorityField.value !in item.selects then None
    else
      var option := item.selects[project.priorityField.value];
      if OptionFor(project.mappings, local) == Some(option) then None
      else PriorityFor(project.mappings, option)
  }

  function Max(a: int, b: int): int {
    if a < b then b else a
  }

  function Newest(since: int, items: seq<Item>): int {
    if items == [] then since else Max(Newest(since, items[..|items| - 1]), items[|items| - 1].updatedAt)
  }

  function Since(watermarks: map<string, int>, id: string): int {
    if id in watermarks then watermarks[id] else 0
  }

  // ---------- What a pass does, item by item and board by board ----------------------------------

  /** Reconciling one item: at most three columns of the one row it correlates to. */
  function ItemStep(s: Pass, project: Project, item: Item, pushes: set<int>, f: Faults): Pass {
    if item.nodeId !in s.index then s
    else
      var c := s.index[item.nodeId];
      var marks := c.task in s.rows && !f.get && ContentDrifts(s.rows[c.task].mirror, item);
      var asserted := BoardPriority(project, c.priority, item);
      var applies := asserted.Some? && c.task !in pushes && !f.pending;
      var caches := c.status != item.status;
      var rows := if c.task !in s.rows then s.rows
        else
          var r := s.rows[c.task];
          s.rows[c.task := Row(r.itemId,
            if marks && !f.mark then r.mirror.(sync := DirtyRemote) else r.mirror,
            if applies && !f.apply then asserted.value else r.priority,
            if caches && !f.cache then item.status else r.status)];
      var copy := Copy(c.task, if applies && !f.apply then asserted.value else c.priority,
                       if caches && !f.cache then item.status else c.status, c.workspace);
      Pass(rows, s.index[item.nodeId := copy],
           s.writes + (if marks then 1 else 0) + (if applies then 1 else 0) + (if caches then 1 else 0))
  }

  type FaultOracle = nat -> Faults

  /** Reconciling the items of a page that changed after `since`, in page order. */
  function Items(s: Pass, project: Project, items: seq<Item>, since: int, pushes: set<int>, faults: FaultOracle): Pass {
    if items == [] then s
    else
      var before := Items(s, project, items[..|items| - 1], since, pushes, faults);
      var item := items[|items| - 1];
      if item.updatedAt <= since then before else ItemStep(before, project, item, pushes, faults(|items| - 1))
  }

  /** Only a complete page moves a watermark: to one second before its newest item, never back. */
  function NextWatermark(since: int, page: Page): int {
    if page.Complete() then Max(since, Newest(since, page.items) - SECOND) else since
  }

  datatype PollState = PollState(pass: Pass, watermarks: map<string, int>)

  function BoardStep(s: PollState, project: Project, page: Page, pushes: set<int>, faults: FaultOracle): PollState {
    if project.statusField.None? || page.PollFailed? then s
    else
      var since := Since(s.watermarks, project.id);
      PollState(Items(s.pass, project, page.items, since, pushes, faults),
                if page.Complete() && Newest(since, page.items) > since
                then s.watermarks[project.id := NextWatermark(since, page)] else s.watermarks)
  }

  function Boards(s: PollState, projects: seq<Project>, pages: seq<Page>, pushes: set<int>,
                  faults: nat -> FaultOracle): PollState
    requires |projects| == |pages|
  {
    if projects == [] then s
    else
      var n := |projects| - 1;
      BoardStep(Boards(s, projects[..n], pages[..n], pushes, faults), projects[n], pages[n], pushes, faults(n))
  }

  function IndexOf(candidates: seq<Candidate>): map<string, Copy> {
    if candidates == [] then map[]
    else
      var c := candidates[|candidates| - 1];
      var front := IndexOf(candidates[..|candidates| - 1]);
      if c.itemId.Some? then front[c.itemId.value := c.copy] else front
  }

  /** Candidate `i` is the last one listed for item `key`. */
  predicate LastWith(candidates: seq<Candidate>, i: nat, key: string) {
    && i < |candidates| && candidates[i].itemId == Some(key)
    && forall j :: i < j < |candidates| ==> candidates[j].itemId != Some(key)
  }

  predicate Carried(candidates: seq<Candidate>, key: string) {
    exists i :: 0 <= i < |candidates| && candidates[i].itemId == Some(key)
  }

  /** `copy` is that of the last candidate listed for item `key`. */
  predicate LastCopy(candidates: seq<Candidate>, key: string, copy: Copy) {
    exists i :: 0 <= i < |candidates| && LastWith(candidates, i, key) && candidates[i].copy == copy
  }

  lemma CarriedMore(candidates: seq<Candidate>, key: string)
    requires candidates != []
    ensures var n := |candidates| - 1;
            Carried(candidates, key) <==> Carried(candidates[..n], key) || candidates[n].itemId == Some(key)
  {
    var n := |candidates| - 1;
    if Carried(candidates[..n], key) {
      var i :| 0 <= i < n && candidates[..n][i].itemId == Some(key);
      assert candidates[i].itemId == Some(key);
    }
    if Carried(candidates, key) && candidates[n].itemId != Some(key) {
      var i :| 0 <= i < |candidates| && candidates[i].itemId == Some(key);
      assert candidates[..n][i].itemId == Some(key);
    }
  }

  lemma LastCopyMore(candidates: seq<Candidate>, key: string, copy: Copy)
    requires candidates != []
    ensures var n := |candidates| - 1;
            if candidates[n].itemId == Some(key) then LastCopy(candidates, key, candidates[n].copy)
            else LastCopy(candidates[..n], key, copy) ==> LastCopy(candidates, key, copy)
  {
    var n := |candidates| - 1;
    if candidates[n].itemId == Some(key) {
      assert LastWith(candidates, n, key);
    } else if LastCopy(candidates[..n], key, copy) {
      var i :| 0 <= i < n && LastWith(candidates[..n], i, key) && candidates[..n][i].copy == copy;
      assert forall j :: i < j < n ==> candidates[..n][j] == candidates[j];
      assert LastWith(candidates, i, key);
    }
  }

  /** The index holds exactly the items some candidate carries, each with the copy of the last one. */
  lemma {:induction false} IndexHoldsTheLast(candidates: seq<Candidate>, key: string)
    ensures key in IndexOf(candidates) <==> Carried(candidates, key)
    ensures key in IndexOf(candidates) ==> LastCopy(candidates, key, IndexOf(candidates)[key])
  {
    hide Carried, LastCopy;
    if candidates == [] {
      NothingCarried(key);
    } else {
      var front := candidates[..|candidates| - 1];
      IndexHoldsTheLast(front, key);
      CarriedMore(candidates, key);
      LastCopyMore(candidates, key,
                   if key in IndexOf(front) then IndexOf(front)[key] else candidates[|candidates| - 1].copy);
    }
  }

  lemma NothingCarried(key: string)
    ensures !Carried([], key)
  {
  }

  // ---------- The poller -------------------------------------------------------------------------

  class ProjectPoller {
    var watermarks: map<string, int>
    var rows: map<int, Row>
    var index: map<string, Copy>
    var writes: nat
    var syncedAt: map<int, int>

    constructor (rows: map<int, Row>, syncedAt: map<int, int>)
      ensures watermarks == map[] && this.rows == rows && index == map[] && writes == 0 && this.syncedAt == syncedAt
    {
      this.rows, this.syncedAt, watermarks, index, writes := rows, syncedAt, map[], map[], 0;
    }

    function State(): PollState
      reads this
    {
      PollState(Pass(rows, index, writes), watermarks)
    }

    /** A conditional, single-column write: only a Synced row becomes DirtyRemote. */
    method MarkRemoteDirty(task: int)
      modifies this`rows
      ensures rows == if task in old(rows) && old(rows)[task].mirror.sync.Synced?
                      then old(rows)[task := old(rows)[task].(mirror := old(rows)[task].mirror.(sync := DirtyRemote))]
                      else old(rows)
    {
      if task in rows && rows[task].mirror.sync.Synced? {
        var r := rows[task];
        rows := rows[task := r.(mirror := r.mirror.(sync := DirtyRemote))];
      }
    }

    method ReconcilePriority(key: string, project: Project, item: Item, pushes: set<int>, f: Faults)
      requires key in index
      modifies this`rows, this`index, this`writes
      ensures var c, p := old(index)[key], BoardPriority(project, old(index)[key].priority, item);
              var applies := p.Some? && c.task !in pushes && !f.pending;
              && writes == old(writes) + (if applies then 1 else 0)
              && index == old(index)[key := if applies && !f.apply then c.(priority := p.value) else c]
              && rows == if applies && !f.apply && c.task in old(rows)
                         then old(rows)[c.task := old(rows)[c.task].(priority := p.value)] else old(rows)
    {
      var c := index[key];
      assert index == index[key := c];
      if project.priorityField.None? {
        return;
      }
      var field := project.priorityField.value;
      if field !in item.selects {
        return;
      }
      var option := item.selects[field];
      if OptionFor(project.mappings, c.priority) == Some(option) {
        return;
      }
      var p := PriorityFor(project.mappings, option);
      if p.None? {
        return;
      }
      if c.task in pushes || f.pending {
        return;
      }
      writes := writes + 1;
      if !f.apply {
        if c.task in rows {
          rows := rows[c.task := rows[c.task].(priority := p.value)];
        }
        index := index[key := c.(priority := p.value)];
      }
    }

    method DetectDrift(task: int, item: Item, f: Faults)
      modifies this`rows, this`writes
      ensures var marks := task in old(rows) && !f.get && ContentDrifts(old(rows)[task].mirror, item);
              && writes == old(writes) + (if marks then 1 else 0)
              && rows == if marks && !f.mark
                         then var r := old(rows)[task]; old(rows)[task := r.(mirror := r.mirror.(sync := DirtyRemote))]
                         else old(rows)
    {
      if task in rows && !f.get {
        var full := rows[task].mirror;
        if full.sync.Synced? && full.baseline.Some? {
          var base := full.baseline.value;
          if !InboundMirrorsBaseline(Issue(item.title, item.body, item.closed, None, base.assignees), base) {
            writes := writes + 1;
            if !f.mark {
              MarkRemoteDirty(task);
            }
          }
        }
      }
    }

    method CacheStatus(key: string, item: Item, f: Faults)
      requires key in index
      modifies this`rows, this`index, this`writes
      ensures var c := old(index)[key];
              var caches := c.status != item.status;
              && writes == old(writes) + (if caches then 1 else 0)
              && index == old(index)[key := if caches && !f.cache then c.(status := item.status) else c]
              && rows == if caches && !f.cache && c.task in old(rows)
                         then old(rows)[c.task := old(rows)[c.task].(status := item.status)] else old(rows)
    {
      var c := index[key];
      assert index == index[key := c];
      if c.status == item.status {
        return;
      }
      writes := writes + 1;
      if !f.cache {
        if c.task in rows {
          rows := rows[c.task := rows[c.task].(status := item.status)];
        }
        index := index[key := c.(status := item.status)];
      }
    }

    method ReconcileItem(project: Project, item: Item, pushes: set<int>, f: Faults)
      modifies this`rows, this`index, this`writes
      ensures State().pass == ItemStep(old(State().pass), project, item, pushes, f)
    {
      hide ContentDrifts, BoardPriority;
      var key := item.nodeId;
      if key !in index {
        return;
      }
      var task := index[key].task;
      DetectDrift(task, item, f);
      ReconcilePriority(key, project, item, pushes, f);
      CacheStatus(key, item, f);
      ghost var s := ItemStep(old(State().pass), project, item, pushes, f);
      assert index == s.index;
      if task in old(rows) {
        assert rows[task] == s.rows[task];
      }
      assert rows == s.rows;
    }

    /** One board; `complete` when it was observed in full. */
    method PollBoard(project: Project, page: Page, pushes: set<int>, faults: FaultOracle) returns (complete: bool)
      modifies this`watermarks, this`rows, this`index, this`writes
      ensures State() == BoardStep(old(State()), project, page, pushes, faults)
      ensures complete == (project.statusField.Some? && page.Complete())
    {
      if project.statusField.None? {
        return false;
      }
      var since := Since(watermarks, project.id);
      if page.PollFailed? {
        return false;
      }
      var maxSeen := since;
      assert Items(State().pass, project, [], since, pushes, faults) == State().pass && Newest(since, []) == since;
      hide ItemStep, Items, Newest;
      for i := 0 to |page.items|
        invariant watermarks == old(watermarks) && maxSeen == Newest(since, page.items[..i])
        invariant State().pass == Items(old(State().pass), project, page.items[..i], since, pushes, faults)
      {
        var item := page.items[i];
        OneItemMore(old(State().pass), project, page.items, i, since, pushes, faults);
        if item.updatedAt > maxSeen {
          maxSeen := item.updatedAt;
        }
        if item.updatedAt <= since {
          continue;
        }
        ReconcileItem(project, item, pushes, faults(i));
      }
      assert page.items[..|page.items|] == page.items;
      if !page.truncated {
        NewestIsMax(since, page.items);
        if maxSeen > since {
          watermarks := watermarks[project.id := Max(since, maxSeen - SECOND)];
        }
      }
      complete := !page.truncated;
    }

    method IndexCandidates(candidates: seq<Candidate>)
      modifies this`index
      ensures index == IndexOf(candidates)
    {
      index := map[];
      for i := 0 to |candidates|
        invariant index == IndexOf(candidates[..i])
      {
        assert candidates[..i + 1][..i] == candidates[..i];
        if candidates[i].itemId.Some? {
          index := index[candidates[i].itemId.value := candidates[i].copy];
        }
      }
      assert candidates[..|candidates|] == candidates;
    }

    /** Stamp the listed tasks whose workspace's board was observed in full. `lookup` answers the
        n-th workspace lookup of the pass, a failed one with `None`; each workspace is looked up once. */
    method StampFresh(completed: set<string>, lookup: nat -> Option<string>, stamp: int -> Option<int>)
      returns (memo: map<int, Option<string>>)
      modifies this`syncedAt
      ensures Stamps(index, index.Keys, completed, memo, stamp, old(syncedAt), syncedAt)
      ensures memo.Keys == set key | key in index :: index[key].workspace
      ensures AnsweredOnce(memo, lookup)
    {
      hide Stamps, MemoOf, NoRepeats;
      memo := map[];
      var asks := 0;
      ghost var asked: seq<int> := [];
      var todo := index.Keys;
      StampsNothing(index, completed, lookup, stamp, syncedAt);
      while todo != {}
        invariant todo <= index.Keys
        invariant Stamps(index, index.Keys - todo, completed, memo, stamp, old(syncedAt), syncedAt)
        invariant memo.Keys == set key | key in index && key !in todo :: index[key].workspace
        invariant NoRepeats(asked) && memo == MemoOf(asked, lookup) && asks == |asked|
        decreases todo
      {
        var key :| key in todo;
        ghost var done, known, mid := index.Keys - todo, memo, syncedAt;
        todo := todo - {key};
        assert index.Keys - todo == done + {key};
        var c := index[key];
        if c.workspace !in memo {
          AskedMore(asked, c.workspace, lookup);
          memo := memo[c.workspace := lookup(asks)];
          asks, asked := asks + 1, asked + [c.workspace];
        }
        if OnCompleted(completed, memo[c.workspace]) && stamp(c.task).Some? {
          syncedAt := syncedAt[c.task := stamp(c.task).value];
        }
        StampsMore(index, done, key, completed, known, memo, stamp, old(syncedAt), mid, syncedAt);
      }
      assert index.Keys - {} == index.Keys;
    }

    /** One pass over every board. `None` for a listing is a local failure, which ends the pass before
        it did anything; `candidates` is the capped list of stale tasks. */
    method PollOnce(projects: Option<seq<Project>>, pages: seq<Page>, candidates: Option<seq<Candidate>>,
                    pushes: set<int>, faults: nat -> FaultOracle, lookup: nat -> Option<string>,
                    stamp: int -> Option<int>) returns (ok: bool)
      requires projects.Some? ==> |projects.value| == |pages|
      modifies this
      ensures ok <==> projects.Some? && (projects.value != [] ==> candidates.Some?)
      ensures !ok || projects.value == [] ==> State() == old(State()) && syncedAt == old(syncedAt)
      ensures ok && projects.value != [] ==>
                && State() == Boards(
                     PollState(Pass(old(rows), IndexOf(candidates.value), old(writes)), old(watermarks)),
                     projects.value, pages, pushes, faults)
                && exists memo ::
                     && Stamps(index, index.Keys, ObservedInFull(projects.value, pages), memo, stamp,
                          old(syncedAt), syncedAt)
                     && AnsweredOnce(memo, lookup)
    {
      hide Stamps, AnsweredOnce;
      if projects.None? {
        return false;
      }
      var ps := projects.value;
      if ps == [] {
        return true;
      }
      if candidates.None? {
        return false;
      }
      IndexCandidates(candidates.value);
      ghost var start := State();
      var completed: set<string> := {};
      for i := 0 to |ps|
        invariant State() == Boards(start, ps[..i], pages[..i], pushes, faults)
        invariant completed == ObservedInFull(ps[..i], pages[..i]) && syncedAt == old(syncedAt)
      {
        assert ps[..i + 1][..i] == ps[..i] && pages[..i + 1][..i] == pages[..i];
        var complete := PollBoard(ps[i], pages[i], pushes, faults(i));
        if complete {
          completed := completed + {ps[i].id};
        }
      }
      assert ps[..|ps|] == ps && pages[..|pages|] == pages;
      var memo := StampFresh(completed, lookup, stamp);
      ok := true;
    }
  }

  /** The boards a pass observed in full. */
  function ObservedInFull(projects: seq<Project>, pages: seq<Page>): set<string>
    requires |projects| == |pages|
  {
    if projects == [] then {}
    else
      var n := |projects| - 1;
      ObservedInFull(projects[..n], pages[..n])
      + if projects[n].statusField.Some? && pages[n].Complete() then {projects[n].id} else {}
  }

  /** Of the tasks indexed under `keys`, exactly those whose workspace resolves to a completed board
      and whose write succeeds carry their new stamp; every other stamp is unchanged. */
  ghost predicate Stamps(index: map<string, Copy>, keys: set<string>, completed: set<string>,
                         memo: map<int, Option<string>>,
                         stamp: int -> Option<int>, before: map<int, int>, after: map<int, int>)
  {
    && keys <= index.Keys
    && (forall key :: key in keys ==> index[key].workspace in memo)
    && forall t :: if Earns(index, keys, completed, memo, stamp, t) then t in after && stamp(t) == Some(after[t])
                   else (t in after <==> t in before) && (t in after ==> after[t] == before[t])
  }

  ghost predicate Earns(index: map<string, Copy>, keys: set<string>, completed: set<string>,
                        memo: map<int, Option<string>>,
                        stamp: int -> Option<int>, t: int)
    requires keys <= index.Keys && forall key :: key in keys ==> index[key].workspace in memo
  {
    stamp(t).Some? && exists key ::
      && key in keys && index[key].task == t
      && memo[index[key].workspace].Some? && memo[index[key].workspace].value in completed
  }

  predicate OnCompleted(completed: set<string>, project: Option<string>) {
    project.Some? && project.value in completed
  }

  /** The answers to lookups of these workspaces, one after the other. */
  function MemoOf(asked: seq<int>, lookup: nat -> Option<string>): (memo: map<int, Option<string>>)
    ensures forall ws :: ws in memo <==> ws in asked
  {
    if asked == [] then map[]
    else MemoOf(asked[..|asked| - 1], lookup)[asked[|asked| - 1] := lookup(|asked| - 1)]
  }

  predicate NoRepeats(asked: seq<int>) {
    forall i, j :: 0 <= i < j < |asked| ==> asked[i] != asked[j]
  }

  /** Every workspace was looked up once, in some order. */
  ghost predicate AnsweredOnce(memo: map<int, Option<string>>, lookup: nat -> Option<string>) {
    exists asked :: NoRepeats(asked) && memo == MemoOf(asked, lookup)
  }

  lemma {:induction false} AskedMore(asked: seq<int>, ws: int, lookup: nat -> Option<string>)
    requires NoRepeats(asked) && ws !in MemoOf(asked, lookup)
    ensures NoRepeats(asked + [ws]) && MemoOf(asked + [ws], lookup) == MemoOf(asked, lookup)[ws := lookup(|asked|)]
  {
    assert (asked + [ws])[..|asked|] == asked;
    assert ws !in asked;
  }

  lemma StampsNothing(index: map<string, Copy>, completed: set<string>, lookup: nat -> Option<string>,
                      stamp: int -> Option<int>, stamps: map<int, int>)
    ensures Stamps(index, index.Keys - index.Keys, completed, map[], stamp, stamps, stamps)
    ensures NoRepeats([]) && MemoOf([], lookup) == map[]
  {
  }

  lemma StampsMore(index: map<string, Copy>, keys: set<string>, key: string, completed: set<string>,
                   asked: map<int, Option<string>>, memo: map<int, Option<string>>, stamp: int -> Option<int>,
                   before: map<int, int>, mid: map<int, int>, after: map<int, int>)
    requires Stamps(index, keys, completed, asked, stamp, before, mid) && key in index
    requires index[key].workspace in memo && forall ws :: ws in asked ==> ws in memo && memo[ws] == asked[ws]
    requires var c := index[key];
             after == if OnCompleted(completed, memo[c.workspace]) && stamp(c.task).Some?
                      then mid[c.task := stamp(c.task).value] else mid
    ensures Stamps(index, keys + {key}, completed, memo, stamp, before, after)
  {
    forall t
      ensures Earns(index, keys + {key}, completed, memo, stamp, t) <==>
                Earns(index, keys, completed, asked, stamp, t)
                || (stamp(t).Some? && index[key].task == t && OnCompleted(completed, memo[index[key].workspace]))
    {
      if Earns(index, keys, completed, asked, stamp, t) {
        var k :| k in keys && index[k].task == t && OnCompleted(completed, asked[index[k].workspace]);
        assert k in keys + {key} && OnCompleted(completed, memo[index[k].workspace]);
      } else if stamp(t).Some? && index[key].task == t && OnCompleted(completed, memo[index[key].workspace]) {
        assert key in keys + {key};
      }
    }
  }

  lemma {:induction false} OneItemMore(s: Pass, project: Project, items: seq<Item>, i: nat, since: int,
                                       pushes: set<int>, faults: FaultOracle)
    requires i < |items|
    ensures Newest(since, items[..i + 1]) == Max(Newest(since, items[..i]), items[i].updatedAt)
    ensures var before := Items(s, project, items[..i], since, pushes, faults);
            Items(s, project, items[..i + 1], since, pushes, faults)
            == if items[i].updatedAt <= since then before else ItemStep(before, project, items[i], pushes, faults(i))
  {
    hide ItemStep;
    assert items[..i + 1][..i] == items[..i];
  }

  lemma {:induction false} NewestIsMax(since: int, items: seq<Item>)
    ensures Newest(since, items) >= since
    ensures forall i :: 0 <= i < |items| ==> items[i].updatedAt <= Newest(since, items)
    ensures Newest(since, items) == since || exists i :: 0 <= i < |items| && items[i].updatedAt == Newest(since, items)
  {
    if items != [] {
      var front := items[..|items| - 1];
      NewestIsMax(since, front);
      if Newest(since, items) != since && Newest(since, items) == Newest(since, front) {
        var i :| 0 <= i < |front| && front[i].updatedAt == Newest(since, front);
        assert items[i].updatedAt == Newest(since, items);
      }
    }
  }

  // ---------- Watermarks over every history -----------------------------------------------------------

  /** The pages a pass observed of board `id`. */
  function Observed(projects: seq<Project>, pages: seq<Page>, id: string): seq<Page>
    requires |projects| == |pages|
  {
    if projects == [] then []
    else
      var n := |projects| - 1;
      Observed(projects[..n], pages[..n], id)
      + if projects[n].id == id && projects[n].statusField.Some? then [pages[n]] else []
  }

  function WatermarkAfter(since: int, pages: seq<Page>): int {
    if pages == [] then since else NextWatermark(WatermarkAfter(since, pages[..|pages| - 1]), pages[|pages| - 1])
  }

  lemma {:induction false} WatermarkAdd(since: int, a: seq<Page>, b: seq<Page>)
    ensures WatermarkAfter(since, a + b) == WatermarkAfter(WatermarkAfter(since, a), b) >= WatermarkAfter(since, a)
  {
    if b == [] {
      assert a + b == a;
    } else {
      WatermarkAdd(since, a, b[..|b| - 1]);
      assert (a + b)[..|a + b| - 1] == a + b[..|b| - 1];
    }
  }

  lemma BoardMovesWatermark(s: PollState, project: Project, page: Page, pushes: set<int>, faults: FaultOracle,
                            id: string)
    ensures var after := Since(BoardStep(s, project, page, pushes, faults).watermarks, id);
            after == if project.id == id && project.statusField.Some? then NextWatermark(Since(s.watermarks, id), page)
                     else Since(s.watermarks, id)
  {
    hide Items;
    if page.Complete() {
      NewestIsMax(Since(s.watermarks, id), page.items);
    }
  }

  /** Within a pass a board's watermark depends on its own pages only. */
  lemma {:induction false} PassMovesWatermarks(s: PollState, projects: seq<Project>, pages: seq<Page>, pushes: set<int>,
                                               faults: nat -> FaultOracle, id: string)
    requires |projects| == |pages|
    ensures Since(Boards(s, projects, pages, pushes, faults).watermarks, id)
         == WatermarkAfter(Since(s.watermarks, id), Observed(projects, pages, id))
  {
    hide BoardStep, Since, NextWatermark;
    if projects != [] {
      var n := |projects| - 1;
      PassMovesWatermarks(s, projects[..n], pages[..n], pushes, faults, id);
      var before := Boards(s, projects[..n], pages[..n], pushes, faults);
      BoardMovesWatermark(before, projects[n], pages[n], pushes, faults(n), id);
      var seen := Observed(projects[..n], pages[..n], id);
      if projects[n].id == id && projects[n].statusField.Some? {
        assert (seen + [pages[n]])[..|seen|] == seen;
      } else {
        assert seen + [] == seen;
      }
    }
  }

  predicate SeenOnComplete(pages: seq<Page>, k: int, i: int) {
    0 <= k < |pages| && pages[k].Complete() && 0 <= i < |pages[k].items|
  }

  /** Over any history of failed, truncated and complete pages the watermark is the later of the
      epoch and one second before the newest item on any complete page. */
  lemma {:induction false} WatermarkIsNewest(pages: seq<Page>)
    ensures var w := WatermarkAfter(0, pages);
            && w >= 0
            && (forall k, i :: SeenOnComplete(pages, k, i) ==> pages[k].items[i].updatedAt - SECOND <= w)
            && (w == 0 || exists k, i :: SeenOnComplete(pages, k, i) && w == pages[k].items[i].updatedAt - SECOND)
  {
    if pages != [] {
      var n := |pages| - 1;
      var front, last := pages[..n], pages[n];
      WatermarkIsNewest(front);
      var v, w := WatermarkAfter(0, front), WatermarkAfter(0, pages);
      if last.Complete() {
        NewestIsMax(v, last.items);
      }
      forall k, i | SeenOnComplete(pages, k, i)
        ensures pages[k].items[i].updatedAt - SECOND <= w
      {
        if k < n {
          assert SeenOnComplete(front, k, i) && front[k] == pages[k];
        }
      }
      if w != 0 {
        if w == v {
          var k, i :| SeenOnComplete(front, k, i) && v == front[k].items[i].updatedAt - SECOND;
          assert SeenOnComplete(pages, k, i) && pages[k] == front[k];
        } else {
          var i :| 0 <= i < |last.items| && last.items[i].updatedAt == Newest(v, last.items);
          assert SeenOnComplete(pages, n, i);
        }
      }
    }
  }

  // ---------- What a pass leaves alone ------------------------------------------------------------------

  /** Nothing but sync state, priority and cached status changed, and sync state moved at most
      from Synced to DirtyRemote. */
  predicate RowKept(a: Row, b: Row) {
    && b.itemId == a.itemId && b.mirror.local == a.mirror.local && b.mirror.baseline == a.mirror.baseline
    && (b.mirror.sync == a.mirror.sync || (a.mirror.sync.Synced? && b.mirror.sync.DirtyRemote?))
  }

  predicate Kept(a: map<int, Row>, b: map<int, Row>) {
    a.Keys == b.Keys && forall t :: t in a ==> RowKept(a[t], b[t])
  }

  lemma {:induction false} ItemsKeep(s: Pass, project: Project, items: seq<Item>, since: int, pushes: set<int>,
                                     faults: FaultOracle)
    ensures Kept(s.rows, Items(s, project, items, since, pushes, faults).rows)
  {
    if items != [] {
      ItemsKeep(s, project, items[..|items| - 1], since, pushes, faults);
    }
  }

  /** However stale the pass's index is and whichever calls fail, a pass keeps every row's title,
      body, lifecycle, assignees and baseline. */
  lemma {:induction false} PassKeeps(s: PollState, projects: seq<Project>, pages: seq<Page>, pushes: set<int>,
                                     faults: nat -> FaultOracle)
    requires |projects| == |pages|
    ensures Kept(s.pass.rows, Boards(s, projects, pages, pushes, faults).pass.rows)
  {
    if projects != [] {
      var n := |projects| - 1;
      PassKeeps(s, projects[..n], pages[..n], pushes, faults);
      var before := Boards(s, projects[..n], pages[..n], pushes, faults);
      if pages[n].Page? {
        ItemsKeep(before.pass, projects[n], pages[n].items, Since(before.watermarks, projects[n].id), pushes,
            faults(n));
      }
    }
  }
}
