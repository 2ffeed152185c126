/** Mirrored content of a task and its backing issue: what a push sends, what it re-baselines, and
    what a later poll or pull then sees. */
module Mirror {
  import opened Options
  import opened TaskStates

  datatype StateReason = ReasonCompleted | ReasonNotPlanned | ReasonReopened

  /** The fields an issue mirrors. */
  datatype Content = Content(title: string, body: string, lifecycle: Lifecycle, assignees: seq<string>)

  /** A task row: its live content, the content last confirmed with the remote, its sync state. */
  datatype Task = Task(local: Content, baseline: Option<Content>, sync: SyncState)

  datatype Issue = Issue(title: string, body: string, closed: bool, reason: Option<StateReason>, assignees: seq<string>)

  datatype Patch = Patch(title: Option<string>, body: Option<string>, status: Option<Lifecycle>,
                         assignees: Option<seq<string>>)

  datatype Update = Update(title: Option<string>, body: Option<string>, closed: Option<bool>,
                           reason: Option<StateReason>, assignees: Option<seq<string>>)

  // ---------- The source's own operations -------------------------------------------------

  function Elements(names: seq<string>): set<string> {
    set n | n in names
  }

  predicate AssigneesEqual(a: seq<string>, b: seq<string>) {
    |a| == |b| && Elements(a) == Elements(b)
  }

  function LifecycleToRemoteState(l: Lifecycle): (bool, Option<StateReason>) {
    match l
    case Completed => (true, Some(ReasonCompleted))
    case NotPlanned => (true, Some(ReasonNotPlanned))
    case Reopened => (false, Some(ReasonReopened))
    case Open => (false, None)
  }

  function RemoteStateToLifecycle(closed: bool, current: Lifecycle): Lifecycle {
    if closed != current.IsOpen() then current
    else if closed then Completed
    else Reopened
  }

  function DiffAgainstBaseline(t: Task): Patch {
    match t.baseline
    case None => Patch(None, None, None, None)
    case Some(base) =>
      Patch(if t.local.title != base.title then Some(t.local.title) else None,
            if t.local.body != base.body then Some(t.local.body) else None,
            if t.local.lifecycle != base.lifecycle then Some(t.local.lifecycle) else None,
            if !AssigneesEqual(t.local.assignees, base.assignees) then Some(t.local.assignees) else None)
  }

  predicate IsEmpty(p: Patch) {
    p.title.None? && p.body.None? && p.status.None? && p.assignees.None?
  }

  function BuildUpdate(p: Patch): Option<Update> {
    if IsEmpty(p) then None
    else
      var (closed, reason) := match p.status
        case Some(l) => (Some(LifecycleToRemoteState(l).0), LifecycleToRemoteState(l).1)
        case None => (None, None);
      Some(Update(p.title, p.body, closed, reason, p.assignees))
  }

  function Or<T>(o: Option<T>, otherwise: T): T {
    match o
    case Some(v) => v
    case None => otherwise
  }

  /** What the remote makes of an update: a present field is set, an absent one is left alone. */
  function Patched(i: Issue, u: Update): Issue {
    Issue(Or(u.title, i.title), Or(u.body, i.body), Or(u.closed, i.closed),
          if u.closed.Some? then u.reason else i.reason, Or(u.assignees, i.assignees))
  }

  function ReconcileDirty(t: Task): Task {
    if t.baseline.None? then t
    else
      var differs := !IsEmpty(DiffAgainstBaseline(t));
      t.(sync := match (t.sync, differs)
        case (Synced, true) => DirtyLocal
        case (DirtyLocal, false) => Synced
        case (DirtyRemote, true) => Conflict
        case (other, _) => other)
  }

  predicate Confirmable(s: SyncState) {
    s.Staged? || s.DirtyLocal? || s.DirtyRemote?
  }

  function Overlay(base: Content, p: Patch): Content {
    Content(Or(p.title, base.title), Or(p.body, base.body), Or(p.status, base.lifecycle),
            Or(p.assignees, base.assignees))
  }

  /** Confirm a push that carried `p`; `None` is the error return. */
  function ConfirmSyncedFields(t: Task, p: Patch): Option<Task> {
    if !Confirmable(t.sync) && !(t.sync.Conflict? && p.title.Some? && p.body.Some? && p.status.Some?
        && p.assignees.Some?)
    then None
    else match t.baseline
      case None => None
      case Some(base) => Some(ReconcileDirty(t.(baseline := Some(Overlay(base, p)), sync := Synced)))
  }

  predicate InboundMirrorsBaseline(i: Issue, base: Content) {
    && i.title == base.title && i.body == base.body
    && AssigneesEqual(i.assignees, base.assignees)
    && i.closed != base.lifecycle.IsOpen()
  }

  // ---------- One attempt, as a field-wise three-way merge ------------------------------------

  /** The remote after a push: the local value where local differs from the baseline, and the
      remote's own value elsewhere. */
  function Merged(i: Issue, base: Content, local: Content): Issue {
    Issue(if local.title == base.title then i.title else local.title,
          if local.body == base.body then i.body else local.body,
          if local.lifecycle == base.lifecycle then i.closed else local.lifecycle in {Completed, NotPlanned},
          if local.lifecycle == base.lifecycle then i.reason
          else if local.lifecycle == Completed then Some(ReasonCompleted)
          else if local.lifecycle == NotPlanned then Some(ReasonNotPlanned)
          else if local.lifecycle == Reopened then Some(ReasonReopened)
          else None,
          if AssigneesEqual(local.assignees, base.assignees) then i.assignees else local.assignees)
  }

  /** The baseline after a push: local, keeping the old spelling of an unchanged assignee set. */
  function Rebased(base: Content, local: Content): Content {
    local.(assignees := if AssigneesEqual(local.assignees, base.assignees) then base.assignees else local.assignees)
  }

  predicate Mirrors(local: Content, base: Content) {
    local.title == base.title && local.body == base.body && local.lifecycle == base.lifecycle
    && AssigneesEqual(local.assignees, base.assignees)
  }

  datatype World = World(task: Task, issue: Issue)

  /** The remote's reply to an update: an error, whether or not the update landed, or the
      assignees it reports. */
  datatype Reply = Refused(landed: bool) | Accepted(assignees: seq<string>)

  /** How the ports answer one attempt: the remote call, if one is made, then the row save. */
  datatype Answer = Answer(reply: Reply, saved: bool)

  datatype Disposition = Stamped | Retry | AssigneeMismatch | Failed

  /** The world after a push that was confirmed and saved. */
  function Done(w: World, base: Content): World {
    World(Task(w.task.local, Some(Rebased(base, w.task.local)), Synced), Sent(w, base))
  }

  function Sent(w: World, base: Content): Issue {
    Merged(w.issue, base, w.task.local)
  }

  function Attempt(w: World, a: Answer): (World, Disposition) {
    if !Confirmable(w.task.sync) then (w, Stamped)
    else match w.task.baseline
      case None => (w, Failed)
      case Some(base) =>
        var local := w.task.local;
        if Mirrors(local, base) then
          if a.saved then (Done(w, base), Stamped) else (w, Failed)
        else if a.reply.Refused? then (if a.reply.landed then w.(issue := Sent(w, base)) else w, Retry)
        else if !AssigneesEqual(local.assignees, base.assignees) && a.reply.assignees != local.assignees then
          (w.(issue := Sent(w, base)), AssigneeMismatch)
        else if !a.saved then (w.(issue := Sent(w, base)), Failed)
        else (Done(w, base), Stamped)
  }

  /** The drainer's `UpdateRemote` arm over one task row and its issue. */
  class MirrorLink {
    var task: Task
    var issue: Issue

    constructor (task: Task, issue: Issue)
      ensures this.task == task && this.issue == issue
    {
      this.task, this.issue := task, issue;
    }

    method ApplyUpdateRemote(a: Answer) returns (d: Disposition)
      modifies this
      ensures (World(task, issue), d) == Attempt(old(World(task, issue)), a)
    {
      var row := task;
      if Confirmable(row.sync) {
        var patch := DiffAgainstBaseline(row);
        var update := BuildUpdate(patch);
        if update.Some? {
          var sent := update.value.assignees;
          if a.reply.Refused? {
            if a.reply.landed {
              issue := Patched(issue, update.value);
            }
            return Retry;
          }
          issue := Patched(issue, update.value);
          if sent.Some? {
            var confirmed := a.reply.assignees == sent.value || (sent.value == [] && a.reply.assignees == []);
            if !confirmed {
              return AssigneeMismatch;
            }
          }
        }
        var confirmedRow := ConfirmSyncedFields(row, patch);
        if confirmedRow.None? {
          return Failed;
        }
        row := confirmedRow.value;
        if !a.saved {
          return Failed;
        }
        task := row;
      }
      return Stamped;
    }

    /** Overwrite the local content with the remote's on a pull. */
    method CopyInboundMirror(remote: Issue)
      modifies this`task
      ensures task == old(task).(local := Pulled(old(task).local, remote))
    {
      task := task.(local := task.local.(title := remote.title));
      task := task.(local := task.local.(body := remote.body));
      task := task.(local := task.local.(assignees := remote.assignees));
      task := task.(local := task.local.(lifecycle := RemoteStateToLifecycle(remote.closed, task.local.lifecycle)));
    }

    /** The fields a pull would overwrite with a different value. */
    method SupersededInboundFields(remote: Issue) returns (fields: seq<string>)
      ensures "title" in fields <==> task.local.title != Pulled(task.local, remote).title
      ensures "body" in fields <==> task.local.body != Pulled(task.local, remote).body
      ensures "status" in fields <==> task.local.lifecycle != Pulled(task.local, remote).lifecycle
      ensures "assignees" in fields <==>
                !AssigneesEqual(task.local.assignees, Pulled(task.local, remote).assignees)
      ensures fields == [] <==> Mirrors(task.local, Pulled(task.local, remote))
    {
      fields := [];
      if task.local.title != remote.title {
        fields := fields + ["title"];
      }
      if task.local.body != remote.body {
        fields := fields + ["body"];
      }
      if task.local.lifecycle != RemoteStateToLifecycle(remote.closed, task.local.lifecycle) {
        fields := fields + ["status"];
      }
      if !AssigneesEqual(task.local.assignees, remote.assignees) {
        fields := fields + ["assignees"];
      }
    }
  }

  /** Local content after a pull: the remote's fields, and the lifecycle variant kept unless the
      open bit flipped. */
  function Pulled(local: Content, remote: Issue): (c: Content)
    ensures c.title == remote.title && c.body == remote.body && c.assignees == remote.assignees
    ensures local.lifecycle in {Open, Reopened} ==> c.lifecycle == if remote.closed then Completed else local.lifecycle
    ensures local.lifecycle in {Completed, NotPlanned} ==>
              c.lifecycle == if remote.closed then local.lifecycle else Reopened
  {
    Content(remote.title, remote.body, RemoteStateToLifecycle(remote.closed, local.lifecycle), remote.assignees)
  }

  /** Dirty detection after an edit, state by state. */
  lemma ReconcileDirtyByState(t: Task)
    requires t.baseline.Some?
    ensures var z, mirrors := ReconcileDirty(t), Mirrors(t.local, t.baseline.value);
            && z.local == t.local && z.baseline == t.baseline
            && (t.sync in {Synced, DirtyLocal} ==> z.sync == if mirrors then Synced else DirtyLocal)
            && (t.sync == DirtyRemote ==> z.sync == if mirrors then DirtyRemote else Conflict)
            && (t.sync in {LocalOnly, Staged, Conflict} ==> z.sync == t.sync)
  {
  }

  /** A confirmation is accepted from the confirmable states, and from a conflict only when every field
      was sent; it needs a baseline, and moves exactly the sent fields of it. */
  lemma ConfirmAcceptsExactlyWhen(t: Task, p: Patch)
    ensures var c := ConfirmSyncedFields(t, p);
            && (c.Some? <==>
                  && t.baseline.Some?
                  && (t.sync in {Staged, DirtyLocal, DirtyRemote}
                      || (t.sync == Conflict && p.title.Some? && p.body.Some? && p.status.Some? && p.assignees.Some?)))
            && (c.Some? ==>
                  && c.value.baseline.Some?
                  && var was, now := t.baseline.value, c.value.baseline.value;
                     && now.title == (if p.title.Some? then p.title.value else was.title)
                     && now.body == (if p.body.Some? then p.body.value else was.body)
                     && now.lifecycle == (if p.status.Some? then p.status.value else was.lifecycle)
                     && now.assignees == (if p.assignees.Some? then p.assignees.value else was.assignees))
  {
  }

  // ---------- What a confirmed push establishes ------------------------------------------------

  /** The new baseline mirrors local, the patch is empty, the task is Synced and a second drain
      changes nothing and sends nothing, whatever the ports would answer. */
  lemma StampedIsQuiet(w: World, base: Content, again: Answer)
    requires Confirmable(w.task.sync) && w.task.baseline == Some(base)
    ensures var done := Done(w, base);
            && done.task.sync == Synced && done.task.local == w.task.local
            && Mirrors(done.task.local, done.task.baseline.value)
            && BuildUpdate(DiffAgainstBaseline(done.task)) == None
            && Attempt(done, again) == (done, Stamped)
  {
  }

  /** Two lists are equal when they are equally long and name the same people. */
  lemma AssigneesEqualMeans(a: seq<string>, b: seq<string>)
    ensures AssigneesEqual(a, b) <==> |a| == |b| && forall n :: n in a <==> n in b
  {
    assert forall n :: n in a <==> n in Elements(a);
    assert forall n :: n in b <==> n in Elements(b);
  }

  lemma AssigneesEqualTransitive(a: seq<string>, b: seq<string>, c: seq<string>)
    ensures AssigneesEqual(a, b) ==> AssigneesEqual(b, a) && (AssigneesEqual(b, c) <==> AssigneesEqual(a, c))
  {
  }

  /** A local edit after a push is a patch of exactly the fields the edit changed. */
  lemma LaterEditsAreSent(w: World, base: Content, edited: Content)
    requires Confirmable(w.task.sync) && w.task.baseline == Some(base)
    ensures var now := ReconcileDirty(Done(w, base).task.(local := edited));
            var p, local := DiffAgainstBaseline(now), w.task.local;
            && p.title == (if edited.title != local.title then Some(edited.title) else None)
            && p.body == (if edited.body != local.body then Some(edited.body) else None)
            && p.status == (if edited.lifecycle != local.lifecycle then Some(edited.lifecycle) else None)
            && p.assignees == (if AssigneesEqual(edited.assignees, local.assignees) then None
                else Some(edited.assignees))
            && now.sync == (if IsEmpty(p) then Synced else DirtyLocal)
  {
    AssigneesEqualTransitive(w.task.local.assignees, Rebased(base, w.task.local).assignees, edited.assignees);
    AssigneesEqualTransitive(edited.assignees, w.task.local.assignees, Rebased(base, w.task.local).assignees);
  }

  predicate Within(sent: Patch, diff: Patch) {
    && (sent.title.Some? ==> sent.title == diff.title) && (sent.body.Some? ==> sent.body == diff.body)
    && (sent.status.Some? ==> sent.status == diff.status)
    && (sent.assignees.Some? ==> sent.assignees == diff.assignees)
  }

  function Minus(diff: Patch, sent: Patch): Patch {
    Patch(if sent.title.Some? then None else diff.title, if sent.body.Some? then None else diff.body,
          if sent.status.Some? then None else diff.status, if sent.assignees.Some? then None else diff.assignees)
  }

  /** Confirming any part of the diff leaves the rest of it, and only that, still to be sent. */
  lemma ConfirmedPartLeavesTheRest(t: Task, sent: Patch)
    requires Confirmable(t.sync) && t.baseline.Some? && Within(sent, DiffAgainstBaseline(t))
    ensures var c := ConfirmSyncedFields(t, sent);
            && c.Some? && c.value.local == t.local
            && DiffAgainstBaseline(c.value) == Minus(DiffAgainstBaseline(t), sent)
            && c.value.sync == (if IsEmpty(Minus(DiffAgainstBaseline(t), sent)) then Synced else DirtyLocal)
  {
    var c := ConfirmSyncedFields(t, sent).value;
    assert c.baseline == Some(Overlay(t.baseline.value, sent));
  }

  /** After a push the remote mirrors the new baseline exactly when every field the push did not
      send mirrored the old one. */
  lemma MirroredExactlyWhenNoDrift(w: World, base: Content)
    requires Confirmable(w.task.sync) && w.task.baseline == Some(base)
    ensures var done := Done(w, base);
            var p := DiffAgainstBaseline(w.task);
            InboundMirrorsBaseline(done.issue, done.task.baseline.value) <==>
              && (p.title.None? ==> w.issue.title == base.title)
              && (p.body.None? ==> w.issue.body == base.body)
              && (p.status.None? ==> w.issue.closed != base.lifecycle.IsOpen())
              && (p.assignees.None? ==> AssigneesEqual(w.issue.assignees, base.assignees))
  {
  }

  /** A push without remote drift is left alone by the next pull: nothing is superseded. */
  lemma PushThenPullIsQuiet(w: World, base: Content)
    requires Confirmable(w.task.sync) && w.task.baseline == Some(base) && InboundMirrorsBaseline(w.issue, base)
    ensures var done := Done(w, base);
            && InboundMirrorsBaseline(done.issue, done.task.baseline.value)
            && Mirrors(done.task.local, Pulled(done.task.local, done.issue))
  {
    AssigneesEqualTransitive(w.issue.assignees, base.assignees, w.task.local.assignees);
  }

  /** Remote drift in a field the push does not send survives the push on the remote, but the task
      is Synced afterwards. */
  lemma DrainCanHideRemoteDrift()
    ensures var base := Content("t", "b", Open, []);
            var w := World(Task(base, Some(base), DirtyRemote), Issue("renamed", "b", false, None, []));
            var after := Attempt(w, Answer(Accepted([]), true)).0;
            after.task.sync == Synced && !InboundMirrorsBaseline(after.issue, after.task.baseline.value)
  {
  }

  // ---------- When an attempt conflicts -----------------------------------------------------------

  /** A push conflicts exactly when it sends assignees and the answer lists them otherwise. */
  lemma ConflictsExactlyWhen(w: World, a: Answer)
    ensures Attempt(w, a).1 == AssigneeMismatch <==>
              && Confirmable(w.task.sync) && DiffAgainstBaseline(w.task).assignees.Some?
              && a.reply.Accepted? && a.reply.assignees != w.task.local.assignees
  {
  }

  /** An answer with the same assignees in another order is a conflict, though the project's own
      comparison calls the two lists equal. */
  lemma ReorderedAnswerConflicts(a: string, b: string, base: Content, i: Issue)
    requires a != b && base.assignees == []
    ensures var w := World(Task(base.(assignees := [a, b]), Some(base), DirtyLocal), i);
            AssigneesEqual([a, b], [b, a]) && Attempt(w, Answer(Accepted([b, a]), true)).1 == AssigneeMismatch
  {
    assert Elements([a, b]) == {a, b} == Elements([b, a]);
    assert [a, b][0] != [b, a][0];
  }

  // ---------- Replays --------------------------------------------------------------------------------

  /** A conflict disposition flags the task where its state allows that. */
  function Flagged(t: Task): Task {
    t.(sync := MarkConflicted(t.sync))
  }

  /** One push of the drainer: the attempt, and the flag if the answer is a mismatch. */
  function Pushed(w: World, a: Answer): World {
    var (v, d) := Attempt(w, a);
    if d == AssigneeMismatch then v.(task := Flagged(v.task)) else v
  }

  function Pushes(w: World, answers: seq<Answer>): World {
    if answers == [] then w else Pushed(Pushes(w, answers[..|answers| - 1]), answers[|answers| - 1])
  }

  predicate Succeeds(w: World, a: Answer) {
    Attempt(w, a).1 == Stamped
  }

  /** The answer mismatches and the task can be flagged for it. */
  predicate Clashes(w: World, a: Answer) {
    Attempt(w, a).1 == AssigneeMismatch && MarkConflicted(w.task.sync) == Conflict
  }

  /** The first answer that settles the push, for better or worse. */
  function Verdict(w: World, answers: seq<Answer>): (k: Option<nat>)
    ensures k.Some? ==> k.value < |answers| && (Succeeds(w, answers[k.value]) || Clashes(w, answers[k.value]))
    ensures forall i :: 0 <= i < (if k.Some? then k.value else |answers|) ==>
              !Succeeds(w, answers[i]) && !Clashes(w, answers[i])
  {
    if answers == [] then None
    else
      var n := |answers| - 1;
      var front := Verdict(w, answers[..n]);
      if front.Some? then front
      else if Succeeds(w, answers[n]) || Clashes(w, answers[n]) then Some(n) else None
  }

  /** The row is untouched, and the remote is as it was or already merged. */
  predicate Pending(w: World, base: Content, v: World) {
    v.task == w.task && (v.issue == w.issue || v.issue == Sent(w, base))
  }

  /** The world once a push is settled by `a`: confirmed, or flagged over the merged remote. */
  function SettledBy(w: World, base: Content, a: Answer): World {
    if Succeeds(w, a) then Done(w, base) else World(Flagged(w.task), Sent(w, base))
  }

  lemma PushFromPending(w: World, base: Content, v: World, a: Answer)
    requires Confirmable(w.task.sync) && w.task.baseline == Some(base) && Pending(w, base, v)
    ensures if Succeeds(w, a) || Clashes(w, a) then Pushed(v, a) == SettledBy(w, base, a)
            else Pending(w, base, Pushed(v, a))
  {
  }

  lemma SettledStays(w: World, base: Content, k: Answer, a: Answer)
    requires Succeeds(w, k) || Clashes(w, k)
    ensures Pushed(SettledBy(w, base, k), a) == SettledBy(w, base, k)
  {
  }

  /** However often a push is refused, lost after landing, unsaved, mismatched or repeated, the outcome
      is that of one push: the first answer that confirms it or flags a conflict settles row and remote
      for good, and until then the row is untouched and the remote merged at most once. */
  lemma {:induction false} ReplaysMergeOnce(w: World, base: Content, answers: seq<Answer>)
    requires Confirmable(w.task.sync) && w.task.baseline == Some(base)
    ensures match Verdict(w, answers)
            case Some(k) => Pushes(w, answers) == SettledBy(w, base, answers[k])
            case None => Pending(w, base, Pushes(w, answers))
  {
    hide Pushed, SettledBy, Succeeds, Clashes, Pending;
    if answers == [] {
      NothingPushed(w, base);
    } else {
      var n := |answers| - 1;
      ReplaysMergeOnce(w, base, answers[..n]);
      var k := Verdict(w, answers[..n]);
      if k.Some? {
        SettledStays(w, base, answers[k.value], answers[n]);
      } else {
        PushFromPending(w, base, Pushes(w, answers[..n]), answers[n]);
      }
    }
  }

  lemma NothingPushed(w: World, base: Content)
    ensures Pending(w, base, w)
  {
  }
}
