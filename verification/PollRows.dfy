/** What a page does to the row of one listed task. */
module PollRows {
  import opened Options
  import opened Mirror
  import opened TaskStates
  import opened Poller

  /** The index agrees with the task table on every task it lists. */
  ghost predicate Fresh(index: map<string, Copy>, rows: map<int, Row>) {
    forall key :: key in index ==> FreshAt(index[key], key, rows)
  }

  predicate FreshAt(c: Copy, key: string, rows: map<int, Row>) {
    c.task in rows && rows[c.task].itemId == Some(key)
    && c.priority == rows[c.task].priority && c.status == rows[c.task].status
  }

  /** A row after one of its items was reconciled. */
  function RowAfter(r: Row, project: Project, item: Item, pushing: bool, f: Faults): Row {
    var asserted := BoardPriority(project, r.priority, item);
    Row(r.itemId,
        if ContentDrifts(r.mirror, item) && !f.get && !f.mark then r.mirror.(sync := DirtyRemote) else r.mirror,
        if asserted.Some? && !pushing && !f.pending && !f.apply then asserted.value else r.priority,
        if f.cache then r.status else item.status)
  }

  lemma StepOnRows(s: Pass, project: Project, item: Item, pushes: set<int>, f: Faults)
    requires Fresh(s.index, s.rows)
    ensures var n := ItemStep(s, project, item, pushes, f);
            && Fresh(n.index, n.rows) && n.index.Keys == s.index.Keys
            && (forall key :: key in s.index ==> n.index[key].task == s.index[key].task)
            && (item.nodeId !in s.index ==> n == s)
            && (item.nodeId in s.index ==>
                  var t := s.index[item.nodeId].task;
                  n.rows == s.rows[t := RowAfter(s.rows[t], project, item, t in pushes, f)])
  {
    hide ContentDrifts, BoardPriority;
    if item.nodeId in s.index {
      var t := s.index[item.nodeId].task;
      assert FreshAt(s.index[item.nodeId], item.nodeId, s.rows);
      var n := ItemStep(s, project, item, pushes, f);
      assert n.rows[t] == RowAfter(s.rows[t], project, item, t in pushes, f);
      forall key | key in n.index
        ensures FreshAt(n.index[key], key, n.rows)
      {
        assert FreshAt(s.index[key], key, s.rows);
      }
    }
  }

  /** The page entry is the task's and changed after the watermark. */
  predicate Due(item: Item, key: string, since: int) {
    item.nodeId == key && item.updatedAt > since
  }

  /** The row of a listed task after a page: its own due entries, in page order, and no other. A page
      may list an item more than once. */
  function RowAfterPage(r: Row, key: string, project: Project, items: seq<Item>, since: int, pushing: bool,
                        faults: FaultOracle): Row {
    if items == [] then r
    else
      var n := |items| - 1;
      var before := RowAfterPage(r, key, project, items[..n], since, pushing, faults);
      if Due(items[n], key, since) then RowAfter(before, project, items[n], pushing, faults(n)) else before
  }

  /** A page changes each listed row by its own entries alone, and keeps index and table in step. */
  lemma {:induction false} PageOnRows(s: Pass, project: Project, items: seq<Item>, since: int, pushes: set<int>,
                                      faults: FaultOracle)
    requires Fresh(s.index, s.rows)
    ensures var n := Items(s, project, items, since, pushes, faults);
            && Fresh(n.index, n.rows) && n.index.Keys == s.index.Keys
            && forall key :: key in s.index ==>
                 var t := s.index[key].task;
                 && n.index[key].task == t && t in s.rows && t in n.rows
                 && n.rows[t] == RowAfterPage(s.rows[t], key, project, items, since, t in pushes, faults)
  {
    hide RowAfter, ItemStep;
    assert forall key :: key in s.index ==> FreshAt(s.index[key], key, s.rows);
    if items != [] {
      var n := |items| - 1;
      PageOnRows(s, project, items[..n], since, pushes, faults);
      var before := Items(s, project, items[..n], since, pushes, faults);
      StepOnRows(before, project, items[n], pushes, faults(n));
      var after := Items(s, project, items, since, pushes, faults);
      forall key | key in s.index
        ensures var t := s.index[key].task;
                && after.index[key].task == t && t in s.rows && t in after.rows
                && after.rows[t] == RowAfterPage(s.rows[t], key, project, items, since, t in pushes, faults)
      {
        assert FreshAt(before.index[key], key, before.rows);
        if items[n].nodeId in before.index {
          assert FreshAt(before.index[items[n].nodeId], items[n].nodeId, before.rows);
        }
      }
    }
  }

  /** The last due entry of a task on a page. */
  function LastDue(items: seq<Item>, key: string, since: int): (k: Option<nat>)
    ensures k.Some? ==> k.value < |items| && Due(items[k.value], key, since)
    ensures forall i :: (if k.Some? then k.value + 1 else 0) <= i < |items| ==> !Due(items[i], key, since)
  {
    if items == [] then None
    else if Due(items[|items| - 1], key, since) then Some(|items| - 1)
    else LastDue(items[..|items| - 1], key, since)
  }

  /** The status a page leaves behind: that of the task's last due entry, if it has one. */
  function StatusAfter(status: Option<string>, items: seq<Item>, key: string, since: int): Option<string> {
    match LastDue(items, key, since)
    case Some(k) => items[k].status
    case None => status
  }

  predicate CachesFail(items: seq<Item>, key: string, faults: FaultOracle) {
    exists i :: 0 <= i < |items| && items[i].nodeId == key && faults(i).cache
  }

  lemma {:induction false} StatusAfterPage(r: Row, key: string, project: Project, items: seq<Item>, since: int,
                                           pushing: bool, faults: FaultOracle)
    requires !CachesFail(items, key, faults)
    ensures RowAfterPage(r, key, project, items, since, pushing, faults).status == StatusAfter(r.status, items, key,
              since)
    ensures RowAfterPage(r, key, project, items, since, pushing, faults).itemId == r.itemId
  {
    if items != [] {
      var n := |items| - 1;
      forall i | 0 <= i < n && items[..n][i].nodeId == key
        ensures !faults(i).cache
      {
        assert items[i].nodeId == key;
      }
      StatusAfterPage(r, key, project, items[..n], since, pushing, faults);
    }
  }
}
