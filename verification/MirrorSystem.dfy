/** One mirrored task among everything that touches it: local edits, pushes, edits of the remote by
    others, polls and pulls. */
module MirrorSystem {
  import opened Options
  import opened TaskStates
  import opened Mirror
  import opened MirrorRuns
  import Poller
  import PollRepeats

  datatype Happening = Local(event: Event) | RemoteEdit(issue: Issue) | Poll | Pull(force: bool)

  // ---------- Polls and pulls -----------------------------------------------------------------

  /** A poll marks a Synced task whose title, body or open bit left its baseline; assignees are not
      part of the board's payload. */
  function Polled(t: Task, i: Issue): Task {
    if t.sync.Synced? && t.baseline.Some?
       && !InboundMirrorsBaseline(i.(assignees := t.baseline.value.assignees), t.baseline.value)
    then t.(sync := DirtyRemote) else t
  }

  /** This is the poller's own test on an item that shows the issue. */
  lemma PolledIsTheDriftTest(t: Task, i: Issue, item: Poller.Item)
    requires PollRepeats.ShowsIssue(item, i)
    ensures Polled(t, i) == if Poller.ContentDrifts(t, item) then t.(sync := DirtyRemote) else t
  {
  }

  datatype Decision = Noop | PushLocal | PullRemote

  function Decide(s: SyncState, remoteChanged: bool): Decision {
    match s
    case LocalOnly => Noop
    case Staged => PushLocal
    case DirtyLocal => if remoteChanged then PullRemote else PushLocal
    case Synced => if remoteChanged then PullRemote else Noop
    case DirtyRemote => PullRemote
    case Conflict => PullRemote
  }

  /** A pull; an archived task is refused, and `force` also discards a local proposal the remote has
      not contradicted. */
  function PulledTask(t: Task, i: Issue, force: bool): Task {
    if t.local.lifecycle.NotPlanned? then t
    else
      var changed := t.baseline.None? || !InboundMirrorsBaseline(i, t.baseline.value);
      var decision := Decide(t.sync, changed);
      var taken := decision.PullRemote? || (decision.PushLocal? && force && t.sync.DirtyLocal?);
      if taken then Task(Pulled(t.local, i), Some(Pulled(t.local, i)), Synced) else t
  }

  /** A pull takes the remote exactly when the remote moved, the task was marked or in conflict, or a
      proposal is discarded by force; otherwise, and for an archived task, nothing changes. */
  lemma PullTakesExactlyWhen(t: Task, i: Issue, force: bool)
    requires Sane(t)
    ensures var moved := !InboundMirrorsBaseline(i, t.baseline.value);
            var takes := t.local.lifecycle != NotPlanned
                         && (moved || t.sync in {DirtyRemote, Conflict} || (force && t.sync == DirtyLocal));
            PulledTask(t, i, force) ==
              if takes then Task(Pulled(t.local, i), Some(Pulled(t.local, i)), Synced) else t
  {
  }

  function After(w: World, h: Happening): World {
    match h
    case Local(e) => Next(w, e)
    case RemoteEdit(i) => w.(issue := i)
    case Poll => w.(task := Polled(w.task, w.issue))
    case Pull(force) => w.(task := PulledTask(w.task, w.issue, force))
  }

  function Story(w: World, hs: seq<Happening>): World {
    if hs == [] then w else After(Story(w, hs[..|hs| - 1]), hs[|hs| - 1])
  }

  // ---------- What every story keeps -------------------------------------------------------------

  /** A promoted task: Synced and DirtyRemote tasks carry no local change, DirtyLocal ones do. */
  predicate Sane(t: Task) {
    && t.baseline.Some? && !t.sync.LocalOnly? && !t.sync.Staged?
    && (t.sync.Synced? || t.sync.DirtyRemote? ==> Mirrors(t.local, t.baseline.value))
    && (t.sync.DirtyLocal? ==> !Mirrors(t.local, t.baseline.value))
  }

  lemma EditIsSane(t: Task, c: Content)
    requires Sane(t)
    ensures Sane(Edited(t, c))
  {
  }

  lemma DrainIsSane(w: World, a: Answer)
    requires Sane(w.task)
    ensures Sane(Pushed(w, a).task)
  {
    RebasedMirrors(w.task.baseline.value, w.task.local);
    hide Rebased, Mirrors, Merged;
  }

  lemma AfterIsSane(w: World, h: Happening)
    requires Sane(w.task)
    ensures Sane(After(w, h).task)
  {
    if h.Local? {
      if h.event.Edit? {
        EditIsSane(w.task, h.event.content);
      } else {
        DrainIsSane(w, h.event.answer);
      }
    } else if h.Pull? {
      var p := Pulled(w.task.local, w.issue);
      assert Mirrors(p, p);
    }
  }

  // ---------- Exactly when Synced can be trusted -----------------------------------------------------

  /** The remote's `f` was last moved off the baseline, by a push that was never confirmed or by
      somebody else, and no pull has looked since. */
  predicate Adrift(w: World, hs: seq<Happening>, f: Field) {
    hs != [] &&
      var before, h := Story(w, hs[..|hs| - 1]), hs[|hs| - 1];
      match h
      case Local(e) =>
        if Lands(before, e, f) then !Confirms(before, e) && Visible(before, f) else Adrift(w, hs[..|hs| - 1], f)
      case RemoteEdit(i) => before.task.baseline.Some? && Off(i, before.task.baseline.value, f)
      case Poll => Adrift(w, hs[..|hs| - 1], f)
      case Pull(_) => before.task.local.lifecycle.NotPlanned? && Adrift(w, hs[..|hs| - 1], f)
  }

  predicate NothingAdrift(w: World, hs: seq<Happening>) {
    !Adrift(w, hs, Title) && !Adrift(w, hs, Body) && !Adrift(w, hs, Status) && !Adrift(w, hs, Assignees)
  }

  /** A pull that is not refused leaves no field off the baseline, whatever it decides. */
  lemma PullSettles(t: Task, i: Issue, force: bool, f: Field)
    requires Sane(t) && !t.local.lifecycle.NotPlanned?
    ensures var z := PulledTask(t, i, force); z.baseline.Some? && !Off(i, z.baseline.value, f)
  {
    ShownByField(i, t.baseline.value);
    ShownByField(i, Pulled(t.local, i));
  }

  lemma {:induction false} OffExactlyAdrift(w: World, hs: seq<Happening>, f: Field)
    requires Sane(w.task) && InboundMirrorsBaseline(w.issue, w.task.baseline.value)
    ensures var end := Story(w, hs);
            Sane(end.task) && (Off(end.issue, end.task.baseline.value, f) <==> Adrift(w, hs, f))
  {
    hide Off, Lands, Confirms, Visible, Next, PulledTask;
    if hs == [] {
      ShownByField(w.issue, w.task.baseline.value);
    } else {
      var mid, h := Story(w, hs[..|hs| - 1]), hs[|hs| - 1];
      OffExactlyAdrift(w, hs[..|hs| - 1], f);
      AfterIsSane(mid, h);
      if h.Local? {
        OffAfter(mid, h.event, f);
      } else if h.Pull? {
        if !mid.task.local.lifecycle.NotPlanned? {
          PullSettles(mid.task, mid.issue, h.force, f);
        } else {
          RefusedPull(mid.task, mid.issue, h.force);
        }
      }
    }
  }

  lemma RefusedPull(t: Task, i: Issue, force: bool)
    requires t.local.lifecycle.NotPlanned?
    ensures PulledTask(t, i, force) == t
  {
  }

  /** Over every story from a world in step, with edits, failed and lost pushes, remote edits, polls
      and pulls in any order: a Synced task is what the remote shows if and only if nothing is adrift. */
  lemma SyncedHoldsExactlyWhen(w: World, hs: seq<Happening>)
    requires Sane(w.task) && InboundMirrorsBaseline(w.issue, w.task.baseline.value)
    requires Story(w, hs).task.sync.Synced?
    ensures Shown(Story(w, hs).issue, Story(w, hs).task.local) <==> NothingAdrift(w, hs)
  {
    hide Story, Adrift, Off;
    OffExactlyAdrift(w, hs, Title);
    OffExactlyAdrift(w, hs, Body);
    OffExactlyAdrift(w, hs, Status);
    OffExactlyAdrift(w, hs, Assignees);
    var end := Story(w, hs);
    ShownByField(end.issue, end.task.baseline.value);
    SameShown(end.issue, end.task.baseline.value, end.task.local);
  }

  /** Right after a poll, a Synced task can only be adrift in its assignees. */
  lemma PolledSyncedIsRightButForAssignees(w: World, hs: seq<Happening>)
    requires Sane(w.task) && InboundMirrorsBaseline(w.issue, w.task.baseline.value)
    requires hs != [] && hs[|hs| - 1].Poll? && Story(w, hs).task.sync.Synced?
    ensures Shown(Story(w, hs).issue, Story(w, hs).task.local) <==> !Adrift(w, hs, Assignees)
  {
    var mid := Story(w, hs[..|hs| - 1]);
    OffExactlyAdrift(w, hs[..|hs| - 1], Title);
    PollMarks(mid.task, mid.issue);
    hide Adrift, Story;
    OffExactlyAdrift(w, hs, Title);
    OffExactlyAdrift(w, hs, Body);
    OffExactlyAdrift(w, hs, Status);
    SyncedHoldsExactlyWhen(w, hs);
  }

  lemma PollMarks(t: Task, i: Issue)
    requires t.baseline.Some?
    ensures Polled(t, i).baseline == t.baseline
    ensures Polled(t, i).sync.Synced? ==>
              !Off(i, t.baseline.value, Title) && !Off(i, t.baseline.value, Body) && !Off(i, t.baseline.value, Status)
  {
  }

  /** Right after a pull of a task that is not archived, nothing is adrift: the task is Synced and
      shown, or a local proposal against an unmoved remote. */
  lemma PullConverges(w: World, hs: seq<Happening>)
    requires Sane(w.task) && InboundMirrorsBaseline(w.issue, w.task.baseline.value)
    requires hs != [] && hs[|hs| - 1].Pull? && !Story(w, hs[..|hs| - 1]).task.local.lifecycle.NotPlanned?
    ensures var end := Story(w, hs);
            && NothingAdrift(w, hs) && end.task.baseline.Some?
                && InboundMirrorsBaseline(end.issue, end.task.baseline.value)
            && (end.task.sync.DirtyLocal? || (end.task.sync.Synced? && Shown(end.issue, end.task.local)))
  {
    var mid := Story(w, hs[..|hs| - 1]);
    OffExactlyAdrift(w, hs[..|hs| - 1], Title);
    assert NothingAdrift(w, hs);
    PullStates(mid.task, mid.issue, hs[|hs| - 1].force);
    hide Story, Adrift, Off;
    OffExactlyAdrift(w, hs, Title);
    OffExactlyAdrift(w, hs, Body);
    OffExactlyAdrift(w, hs, Status);
    OffExactlyAdrift(w, hs, Assignees);
    ShownByField(Story(w, hs).issue, Story(w, hs).task.baseline.value);
    if Story(w, hs).task.sync.Synced? {
      SyncedHoldsExactlyWhen(w, hs);
    }
  }

  lemma PullStates(t: Task, i: Issue, force: bool)
    requires Sane(t) && !t.local.lifecycle.NotPlanned?
    ensures PulledTask(t, i, force).sync.Synced? || PulledTask(t, i, force).sync.DirtyLocal?
  {
  }
}
