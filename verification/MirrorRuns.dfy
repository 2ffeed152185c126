/** Whole histories of local edits and pushes of one mirrored task: when Synced can be trusted. */
module MirrorRuns {
  import opened Options
  import opened TaskStates
  import opened Mirror

  datatype Event = Edit(content: Content) | Drain(answer: Answer)

  /** A setter writes the field and re-derives the sync state. */
  function Edited(t: Task, c: Content): Task {
    ReconcileDirty(t.(local := c))
  }

  function Next(w: World, e: Event): World {
    match e
    case Edit(c) => w.(task := Edited(w.task, c))
    case Drain(a) => Pushed(w, a)
  }

  function History(w: World, es: seq<Event>): World {
    if es == [] then w else Next(History(w, es[..|es| - 1]), es[|es| - 1])
  }

  // ---------- Fields the remote holds differently from the baseline ------------------------------

  datatype Field = Title | Body | Status | Assignees

  predicate Off(i: Issue, base: Content, f: Field) {
    match f
    case Title => i.title != base.title
    case Body => i.body != base.body
    case Status => i.closed == base.lifecycle.IsOpen()
    case Assignees => !AssigneesEqual(i.assignees, base.assignees)
  }

  predicate Differs(c: Content, base: Content, f: Field) {
    match f
    case Title => c.title != base.title
    case Body => c.body != base.body
    case Status => c.lifecycle != base.lifecycle
    case Assignees => !AssigneesEqual(c.assignees, base.assignees)
  }

  /** The remote shows the local content, as far as a pull can see. */
  predicate Shown(i: Issue, c: Content) {
    InboundMirrorsBaseline(i, c)
  }

  /** `c` puts a field back to its baseline although the remote already left that baseline. */
  predicate Reverts(w: World, c: Content) {
    w.task.baseline.Some? && exists f: Field ::
      Off(w.issue, w.task.baseline.value, f) && !Differs(c, w.task.baseline.value, f)
  }

  /** Every field in which the remote left the baseline is one the next push sends. */
  predicate Owing(w: World) {
    w.task.baseline.Some? && forall f: Field :: Off(w.issue, w.task.baseline.value, f) ==>
        Differs(w.task.local, w.task.baseline.value, f)
  }

  /** The sync state is what dirty detection makes of local and baseline. */
  predicate Settled(t: Task) {
    t.baseline.Some? && (t.sync.Synced? || t.sync.DirtyLocal?)
        && (t.sync.Synced? <==> Mirrors(t.local, t.baseline.value))
  }

  predicate Trusted(w: World) {
    (w.task.sync.Conflict? && w.task.baseline.Some?) || (Settled(w.task) && Owing(w))
  }

  lemma MirrorsByField(c: Content, base: Content)
    ensures Mirrors(c, base) <==> forall f: Field :: !Differs(c, base, f)
  {
    assert Mirrors(c, base) <==>
      && !Differs(c, base, Title) && !Differs(c, base, Body)
      && !Differs(c, base, Status) && !Differs(c, base, Assignees);
  }

  lemma ShownByField(i: Issue, base: Content)
    ensures InboundMirrorsBaseline(i, base) <==> forall f: Field :: !Off(i, base, f)
    ensures InboundMirrorsBaseline(i, base) <==>
              !Off(i, base, Title) && !Off(i, base, Body) && !Off(i, base, Status) && !Off(i, base, Assignees)
  {
    assert InboundMirrorsBaseline(i, base) <==>
      !Off(i, base, Title) && !Off(i, base, Body) && !Off(i, base, Status) && !Off(i, base, Assignees);
  }

  /** In a trusted world a Synced task is what the remote shows. */
  lemma SyncedIsShown(w: World)
    requires Trusted(w) && w.task.sync.Synced?
    ensures Shown(w.issue, w.task.local)
  {
    var base := w.task.baseline.value;
    MirrorsByField(w.task.local, base);
    ShownByField(w.issue, base);
    AssigneesEqualTransitive(w.task.local.assignees, base.assignees, w.issue.assignees);
  }

  /** Field by field: a confirmed push settles what it sent, a landed one moves it off the baseline. */
  lemma SentByField(i: Issue, base: Content, local: Content, f: Field)
    ensures Off(Merged(i, base, local), Rebased(base, local), f) <==> !Differs(local, base, f) && Off(i, base, f)
    ensures Off(Merged(i, base, local), base, f) <==>
              if Differs(local, base, f)
              then (f.Status? ==> local.lifecycle.IsOpen() != base.lifecycle.IsOpen())
              else Off(i, base, f)
  {
  }

  lemma DrainKeepsTrust(w: World, a: Answer)
    requires Trusted(w)
    ensures Trusted(Next(w, Drain(a)))
  {
    if !w.task.sync.Conflict? {
      var base, local := w.task.baseline.value, w.task.local;
      hide Merged, Rebased, Off, Differs;
      forall f: Field
        ensures !Off(Sent(w, base), Rebased(base, local), f)
        ensures Off(Sent(w, base), base, f) ==> Differs(local, base, f)
      {
        SentByField(w.issue, base, local, f);
      }
      RebasedMirrors(base, local);
    }
  }

  lemma RebasedMirrors(base: Content, local: Content)
    ensures Mirrors(local, Rebased(base, local))
  {
  }

  lemma EditSettles(t: Task, c: Content)
    requires Settled(t)
    ensures Settled(Edited(t, c)) && Edited(t, c).baseline == t.baseline && Edited(t, c).local == c
  {
  }

  lemma EditKeepsTrust(w: World, c: Content)
    requires Trusted(w) && !w.task.sync.Conflict? && !Reverts(w, c)
    ensures Trusted(Next(w, Edit(c)))
  {
    EditSettles(w.task, c);
    hide Off, Differs, Edited, Settled;
  }

  predicate NoReverts(w: World, es: seq<Event>) {
    forall k :: 0 <= k < |es| && es[k].Edit? ==> !Reverts(History(w, es[..k]), es[k].content)
  }

  /** Over every history of edits and pushes, however the pushes fail or are lost, as long as no
      edit reverts a field of a lost push: whenever the task is Synced, the remote shows it. */
  lemma {:induction false} SyncedCanBeTrusted(w: World, es: seq<Event>)
    requires Trusted(w) && NoReverts(w, es)
    ensures Trusted(History(w, es))
    ensures History(w, es).task.sync.Synced? ==> Shown(History(w, es).issue, History(w, es).task.local)
  {
    hide Reverts, Next, Shown;
    if es != [] {
      var n := |es| - 1;
      assert forall k :: 0 <= k <= n ==> es[..n][..k] == es[..k];
      SyncedCanBeTrusted(w, es[..n]);
      var mid := History(w, es[..n]);
      if es[n].Drain? {
        DrainKeepsTrust(mid, es[n].answer);
      } else if mid.task.sync.Conflict? {
        ConflictStays(mid, es[n].content);
      } else {
        EditKeepsTrust(mid, es[n].content);
      }
    }
    if History(w, es).task.sync.Synced? {
      SyncedIsShown(History(w, es));
    }
  }

  lemma ConflictStays(w: World, c: Content)
    requires Trusted(w) && w.task.sync.Conflict?
    ensures Trusted(Next(w, Edit(c)))
  {
  }

  /** The push certainly did not land, or it landed and was saved. */
  predicate Clean(a: Answer) {
    a.reply == Refused(false) || (a.reply.Accepted? && a.saved)
  }

  predicate InStep(w: World) {
    Trusted(w) && (w.task.sync.Conflict? || InboundMirrorsBaseline(w.issue, w.task.baseline.value))
  }

  lemma CleanStep(w: World, e: Event)
    requires InStep(w) && (e.Drain? ==> Clean(e.answer))
    ensures InStep(Next(w, e)) && (e.Edit? && !w.task.sync.Conflict? ==> !Reverts(w, e.content))
  {
    if !w.task.sync.Conflict? {
      ShownByField(w.issue, w.task.baseline.value);
      if e.Edit? {
        EditKeepsTrust(w, e.content);
      } else {
        DrainKeepsTrust(w, e.answer);
        StampedMirrors(w, w.task.baseline.value);
      }
    }
  }

  lemma StampedMirrors(w: World, base: Content)
    requires w.task.baseline == Some(base) && InboundMirrorsBaseline(w.issue, base)
    ensures InboundMirrorsBaseline(Sent(w, base), Rebased(base, w.task.local))
    ensures Mirrors(w.task.local, base) ==> Sent(w, base) == w.issue
  {
  }

  /** If no push is ever lost after landing, edits are free: reverts included, the remote shows every
      Synced task. */
  lemma {:induction false} CleanHistoriesNeedNoCare(w: World, es: seq<Event>)
    requires InStep(w) && forall k :: 0 <= k < |es| && es[k].Drain? ==> Clean(es[k].answer)
    ensures InStep(History(w, es))
    ensures History(w, es).task.sync.Synced? ==> Shown(History(w, es).issue, History(w, es).task.local)
  {
    hide InStep, Next, Shown;
    if es != [] {
      CleanHistoriesNeedNoCare(w, es[..|es| - 1]);
      CleanStep(History(w, es[..|es| - 1]), es[|es| - 1]);
    }
    InStepIsShown(History(w, es));
  }

  lemma InStepIsShown(w: World)
    requires InStep(w)
    ensures w.task.sync.Synced? ==> Shown(w.issue, w.task.local)
  {
    if w.task.sync.Synced? {
      SyncedIsShown(w);
    }
  }

  // ---------- Exactly when Synced misleads -----------------------------------------------------------

  /** An edit leaves the task Synced over a remote that does not show it if and only if it takes every
      field back to the baseline while the remote is no longer at the baseline. */
  lemma EditMisleadsExactlyWhen(w: World, c: Content)
    requires Settled(w.task)
    ensures var after := Next(w, Edit(c));
            after.task.sync.Synced? && !Shown(after.issue, after.task.local)
            <==> Mirrors(c, w.task.baseline.value) && !InboundMirrorsBaseline(w.issue, w.task.baseline.value)
  {
    EditSettles(w.task, c);
    var base := w.task.baseline.value;
    AssigneesEqualTransitive(c.assignees, base.assignees, w.issue.assignees);
    AssigneesEqualTransitive(base.assignees, c.assignees, w.issue.assignees);
  }

  /** The event is a push that reaches the remote with field `f`. */
  predicate Lands(w: World, e: Event, f: Field) {
    && e.Drain? && Confirmable(w.task.sync) && w.task.baseline.Some?
    && Differs(w.task.local, w.task.baseline.value, f)
    && (e.answer.reply.Accepted? || e.answer.reply.landed)
  }

  /** The push is confirmed and saved. */
  predicate Confirms(w: World, e: Event) {
    e.Drain? && Confirmable(w.task.sync) && Attempt(w, e.answer).1 == Stamped
  }

  /** A pull could tell the pushed value from the baseline: of the lifecycle it sees the open bit. */
  predicate Visible(w: World, f: Field)
    requires w.task.baseline.Some?
  {
    if f.Status? then w.task.local.lifecycle.IsOpen() != w.task.baseline.value.lifecycle.IsOpen()
    else Differs(w.task.local, w.task.baseline.value, f)
  }

  /** The last push that reached the remote with `f` moved it visibly and was never confirmed. */
  predicate Abandoned(w: World, es: seq<Event>, f: Field) {
    es != [] &&
      var before, e := History(w, es[..|es| - 1]), es[|es| - 1];
      if Lands(before, e, f) then !Confirms(before, e) && Visible(before, f) else Abandoned(w, es[..|es| - 1], f)
  }

  predicate NothingAbandoned(w: World, es: seq<Event>) {
    !Abandoned(w, es, Title) && !Abandoned(w, es, Body) && !Abandoned(w, es, Status) && !Abandoned(w, es, Assignees)
  }

  lemma OffAfter(w: World, e: Event, f: Field)
    requires w.task.baseline.Some?
    ensures var z := Next(w, e);
            && z.task.baseline.Some?
            && (Off(z.issue, z.task.baseline.value, f) <==>
                  if Lands(w, e, f) then !Confirms(w, e) && Visible(w, f) else Off(w.issue, w.task.baseline.value, f))
  {
    if e.Drain? && Confirmable(w.task.sync) {
      SentByField(w.issue, w.task.baseline.value, w.task.local, f);
      MirrorsByField(w.task.local, w.task.baseline.value);
    }
  }

  lemma NextSettles(w: World, e: Event)
    requires w.task.baseline.Some? && (Settled(w.task) || w.task.sync.Conflict?)
    ensures Settled(Next(w, e).task) || Next(w, e).task.sync.Conflict?
  {
    if w.task.sync.Conflict? {
    } else if e.Edit? {
      EditSettles(w.task, e.content);
    } else {
      RebasedMirrors(w.task.baseline.value, w.task.local);
    }
  }

  lemma {:induction false} OffExactlyAbandoned(w: World, es: seq<Event>)
    requires Settled(w.task) && InboundMirrorsBaseline(w.issue, w.task.baseline.value)
    ensures var end := History(w, es);
            && end.task.baseline.Some? && (Settled(end.task) || end.task.sync.Conflict?)
            && forall f: Field :: Off(end.issue, end.task.baseline.value, f) <==> Abandoned(w, es, f)
  {
    hide Next, Lands, Confirms, Visible, Off;
    if es == [] {
      ShownByField(w.issue, w.task.baseline.value);
    } else {
      OffExactlyAbandoned(w, es[..|es| - 1]);
      var mid := History(w, es[..|es| - 1]);
      NextSettles(mid, es[|es| - 1]);
      OffAfter(mid, es[|es| - 1], Title);
      forall f: Field
        ensures Off(History(w, es).issue, History(w, es).task.baseline.value, f) <==> Abandoned(w, es, f)
      {
        OffAfter(mid, es[|es| - 1], f);
      }
    }
  }

  /** Over every history of edits and pushes from a world in step, reverts included: a Synced task is
      what the remote shows if and only if no field was abandoned, that is, for every field the last
      push that reached the remote with it was confirmed or did not visibly move it. */
  lemma SyncedHoldsExactlyWhen(w: World, es: seq<Event>)
    requires Settled(w.task) && InboundMirrorsBaseline(w.issue, w.task.baseline.value)
    requires History(w, es).task.sync.Synced?
    ensures Shown(History(w, es).issue, History(w, es).task.local) <==> NothingAbandoned(w, es)
  {
    hide History, Off;
    OffExactlyAbandoned(w, es);
    var end := History(w, es);
    var base := end.task.baseline.value;
    ShownByField(end.issue, base);
    SameShown(end.issue, base, end.task.local);
  }

  lemma SameShown(i: Issue, base: Content, c: Content)
    requires Mirrors(c, base)
    ensures InboundMirrorsBaseline(i, base) <==> Shown(i, c)
  {
    AssigneesEqualTransitive(c.assignees, base.assignees, i.assignees);
    AssigneesEqualTransitive(i.assignees, base.assignees, c.assignees);
    AssigneesEqualTransitive(i.assignees, c.assignees, base.assignees);
  }

  /** A push that lands but is not confirmed, followed by an edit back to the baseline, leaves the task
      Synced over a remote that still shows the abandoned title. */
  lemma LostPushThenRevert()
    ensures var base := Content("old", "b", Open, []);
            var w := World(Task(base, Some(base), Synced), Issue("old", "b", false, None, []));
            var es := [Edit(base.(title := "new")), Drain(Answer(Refused(true), false)), Edit(base)];
            var end := History(w, es);
            && InStep(w) && end.task == Task(base, Some(base), Synced) && end.issue.title == "new"
            && !Shown(end.issue, end.task.local) && Attempt(end, Answer(Accepted([]), true)).0 == end
  {
    var base := Content("old", "b", Open, []);
    var w := World(Task(base, Some(base), Synced), Issue("old", "b", false, None, []));
    var e1, e2, e3 := Edit(base.(title := "new")), Drain(Answer(Refused(true), false)), Edit(base);
    assert [e1, e2, e3][..2] == [e1, e2] && [e1, e2][..1] == [e1] && [e1][..0] == [];
    assert "old" != "new" by { assert "old"[0] != "new"[0]; }
    ShownByField(w.issue, base);
    var w1 := History(w, [e1]);
    assert History(w, []) == w && w1 == Next(w, e1);
    assert !IsEmpty(DiffAgainstBaseline(w.task.(local := base.(title := "new"))));
    assert w1 == World(Task(base.(title := "new"), Some(base), DirtyLocal), w.issue);
    var w2 := History(w, [e1, e2]);
    assert w2 == World(w1.task, w.issue.(title := "new"));
    var w3 := History(w, [e1, e2, e3]);
    assert w3 == Next(w2, e3);
  }
}
