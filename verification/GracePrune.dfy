/** The daemon's grace counter: a missing worktree is unlinked only after enough consecutive misses. */
module GracePrune {
  import opened Options

  const U32_MAX: nat := 0xFFFF_FFFF

  datatype Key = Key(repo: int, path: string)

  /** A worktree in one tick: whether it is marked as missing, what a probe of its path answers (or
      that it fails), and whether unlinking it would fail. */
  datatype Worktree = Worktree(path: string, marked: bool, probe: Option<bool>, unlinkFails: bool)

  datatype Binding = Binding(repo: int, worktrees: seq<Worktree>)

  type Workspace = seq<Binding>

  datatype Obs = Obs(key: Key, wt: Worktree)

  predicate Missing(o: Obs) {
    o.wt.marked && o.wt.probe == Some(false)
  }

  function OfBinding(b: Binding, n: nat): seq<Obs>
    requires n <= |b.worktrees|
  {
    seq(n, i requires 0 <= i < n => Obs(Key(b.repo, b.worktrees[i].path), b.worktrees[i]))
  }

  function OfWorkspace(ws: Workspace): seq<Obs> {
    if ws == [] then [] else OfWorkspace(ws[..|ws| - 1]) + OfBinding(ws[|ws| - 1], |ws[|ws| - 1].worktrees|)
  }

  function OfTick(tick: seq<Workspace>): seq<Obs> {
    if tick == [] then [] else OfTick(tick[..|tick| - 1]) + OfWorkspace(tick[|tick| - 1])
  }

  // ---------- What the loops compute -------------------------------------------------------------

  datatype Prune = Prune(counts: map<Key, nat>, valid: set<Key>, unlinked: seq<Key>, ok: bool)

  function Bumped(counts: map<Key, nat>, key: Key): nat {
    var c := if key in counts then counts[key] else 0;
    if c < U32_MAX then c + 1 else U32_MAX
  }

  function Observe(s: Prune, o: Obs, grace: nat): Prune {
    if !s.ok || !o.wt.marked then s
    else if o.wt.probe.None? then s.(ok := false)
    else if o.wt.probe.value then s.(counts := s.counts - {o.key})
    else
      var n := Bumped(s.counts, o.key);
      if n < grace then s.(counts := s.counts[o.key := n], valid := s.valid + {o.key})
      else if o.wt.unlinkFails then Prune(s.counts[o.key := n], s.valid + {o.key}, s.unlinked, false)
      else Prune(s.counts - {o.key}, s.valid - {o.key}, s.unlinked + [o.key], true)
  }

  function ObserveAll(s: Prune, obs: seq<Obs>, grace: nat): Prune {
    if obs == [] then s else Observe(ObserveAll(s, obs[..|obs| - 1], grace), obs[|obs| - 1], grace)
  }

  function Workspaces(s: Prune, tick: seq<Workspace>, grace: nat): Prune {
    if tick == [] then s
    else
      var before := Workspaces(s, tick[..|tick| - 1], grace);
      var w := ObserveAll(before.(valid := {}), OfWorkspace(tick[|tick| - 1]), grace);
      w.(valid := before.valid + w.valid)
  }

  function Collected(s: Prune): map<Key, nat> {
    if s.ok then map k | k in s.counts && k in s.valid :: s.counts[k] else s.counts
  }

  lemma {:induction false} ErrorStops(s: Prune, obs: seq<Obs>, more: seq<Obs>, grace: nat)
    ensures ObserveAll(s, obs + more, grace) == ObserveAll(ObserveAll(s, obs, grace), more, grace)
    ensures !ObserveAll(s, obs, grace).ok ==> ObserveAll(s, obs + more, grace) == ObserveAll(s, obs, grace)
  {
    if more == [] {
      assert obs + more == obs;
    } else {
      ErrorStops(s, obs, more[..|more| - 1], grace);
      assert (obs + more)[..|obs + more| - 1] == obs + more[..|more| - 1];
    }
  }

  lemma ObserveNone(s: Prune, grace: nat)
    ensures ObserveAll(s, OfWorkspace([]), grace) == s
  {
  }

  lemma WorkspaceNext(ws: Workspace, i: nat)
    requires i < |ws|
    ensures OfWorkspace(ws[..i + 1]) == OfWorkspace(ws[..i]) + OfBinding(ws[i], |ws[i].worktrees|)
  {
    assert ws[..i + 1][..i] == ws[..i];
  }

  lemma ObserveNext(s: Prune, obs: seq<Obs>, o: Obs, grace: nat)
    ensures ObserveAll(s, obs + [o], grace) == Observe(ObserveAll(s, obs, grace), o, grace)
  {
    assert (obs + [o])[..|obs + [o]| - 1] == obs;
  }

  lemma {:induction false} FailedEarlier(s: Prune, tick: seq<Workspace>, k: nat, grace: nat)
    requires k <= |tick| && !Workspaces(s, tick[..k], grace).ok
    ensures var end, cut := Workspaces(s, tick, grace), Workspaces(s, tick[..k], grace);
            !end.ok && end.counts == cut.counts && end.unlinked == cut.unlinked
    decreases |tick|
  {
    if k < |tick| {
      var front := tick[..|tick| - 1];
      assert front[..k] == tick[..k];
      FailedEarlier(s, front, k, grace);
      ErrorStops(Workspaces(s, front, grace).(valid := {}), [], OfWorkspace(tick[|tick| - 1]), grace);
    } else {
      assert tick[..k] == tick;
    }
  }

  lemma {:induction false} LogShiftAll(s: Prune, obs: seq<Obs>, grace: nat, log: seq<Key>)
    ensures var end := ObserveAll(s, obs, grace);
            ObserveAll(s.(unlinked := log + s.unlinked), obs, grace) == end.(unlinked := log + end.unlinked)
  {
    if obs != [] {
      LogShiftAll(s, obs[..|obs| - 1], grace, log);
      var before, key := ObserveAll(s, obs[..|obs| - 1], grace), obs[|obs| - 1].key;
      assert log + (before.unlinked + [key]) == log + before.unlinked + [key];
    }
  }

  /** What was unlinked in earlier ticks does not matter to this one. */
  lemma {:induction false} LogShift(s: Prune, tick: seq<Workspace>, grace: nat, log: seq<Key>)
    ensures var end := Workspaces(s, tick, grace);
            Workspaces(s.(unlinked := log + s.unlinked), tick, grace) == end.(unlinked := log + end.unlinked)
  {
    if tick != [] {
      LogShift(s, tick[..|tick| - 1], grace, log);
      LogShiftAll(Workspaces(s, tick[..|tick| - 1], grace).(valid := {}), OfWorkspace(tick[|tick| - 1]), grace, log);
    }
  }

  /** The state of the daemon that ticks change. `unlinked` is the log of worktrees it dropped. */
  class Daemon {
    var missCounts: map<Key, nat>
    var unlinked: seq<Key>
    const grace: nat
    const prune: bool

    constructor (ticks: nat, prune: bool)
      ensures grace == (if ticks < 1 then 1 else ticks) && this.prune == prune
      ensures missCounts == map[] && unlinked == []
    {
      grace := if ticks < 1 then 1 else ticks;
      this.prune := prune;
      missCounts, unlinked := map[], [];
    }

    /** One worktree; false is the error return. */
    method ProbeWorktree(o: Obs, stillValid: set<Key>) returns (ok: bool, valid: set<Key>)
      modifies this`missCounts, this`unlinked
      ensures Prune(missCounts, valid, unlinked, ok)
           == Observe(Prune(old(missCounts), stillValid, old(unlinked), true), o, grace)
    {
      valid := stillValid;
      if !o.wt.marked {
        return true, valid;
      }
      if o.wt.probe.None? {
        return false, valid;
      }
      var observedMissing := !o.wt.probe.value;
      var newCount := 0;
      if observedMissing {
        newCount := Bumped(missCounts, o.key);
        missCounts := missCounts[o.key := newCount];
        valid := valid + {o.key};
      } else {
        missCounts := missCounts - {o.key};
      }
      if newCount == 0 {
        return true, valid;
      }
      if newCount >= grace {
        if o.wt.unlinkFails {
          return false, valid;
        }
        unlinked := unlinked + [o.key];
        missCounts := missCounts - {o.key};
        valid := valid - {o.key};
        assert missCounts == old(missCounts) - {o.key};
        assert valid == stillValid - {o.key};
      }
      return true, valid;
    }

    method ApplyGracePrune(ws: Workspace) returns (ok: bool, valid: set<Key>)
      modifies this`missCounts, this`unlinked
      ensures Prune(missCounts, valid, unlinked, ok)
           == ObserveAll(Prune(old(missCounts), {}, old(unlinked), true), OfWorkspace(ws), grace)
    {
      hide Observe, ObserveAll, OfWorkspace;
      ok, valid := true, {};
      ghost var start := Prune(missCounts, {}, unlinked, true);
      ObserveNone(start, grace);
      for i := 0 to |ws|
        invariant ok && Prune(missCounts, valid, unlinked, ok) == ObserveAll(start, OfWorkspace(ws[..i]), grace)
      {
        var b := ws[i];
        ghost var done := OfWorkspace(ws[..i]);
        WorkspaceNext(ws, i);
        assert done + OfBinding(b, 0) == done;
        for j := 0 to |b.worktrees|
          invariant ok && Prune(missCounts, valid, unlinked, ok) == ObserveAll(start, done + OfBinding(b, j), grace)
        {
          var o := Obs(Key(b.repo, b.worktrees[j].path), b.worktrees[j]);
          ObserveNext(start, done + OfBinding(b, j), o, grace);
          assert done + OfBinding(b, j) + [o] == done + OfBinding(b, j + 1);
          ok, valid := ProbeWorktree(o, valid);
          if !ok {
            ghost var rest := RestOf(ws, i, j + 1);
            ErrorStops(start, done + OfBinding(b, j + 1), rest, grace);
            return;
          }
        }
      }
      assert ws[..|ws|] == ws;
    }

    /** One tick. `None` is a failed listing of the workspaces; `unreconciled` and `unlisted` say for
        which workspace the reconcile step or the listing of its bindings fails. Any failure ends the
        tick without collecting counters. */
    method TickOnce(workspaces: Option<seq<Workspace>>, unreconciled: nat -> bool,
                    unlisted: nat -> bool) returns (ok: bool)
      modifies this`missCounts, this`unlinked
      ensures workspaces.None? ==> !ok && missCounts == old(missCounts) && unlinked == old(unlinked)
      ensures workspaces.Some? && !prune ==>
                && missCounts == old(missCounts) && unlinked == old(unlinked)
                && ok == (FirstStop(|workspaces.value|, unreconciled, 0) == |workspaces.value|)
      ensures workspaces.Some? && prune ==>
                var n := FirstStop(|workspaces.value|, (i: nat) => unreconciled(i) || unlisted(i), 0);
                var end := EndOf(old(missCounts), Tick(workspaces.value[..n], n < |workspaces.value|), grace);
                ok == end.ok && unlinked == old(unlinked) + end.unlinked && missCounts == Collected(end)
    {
      if workspaces.None? {
        return false;
      }
      hide Workspaces, FirstStop;
      var all := workspaces.value;
      ghost var stops := (i: nat) => unreconciled(i) || (prune && unlisted(i));
      SameStop(|all|, stops, if prune then (i: nat) => unreconciled(i) || unlisted(i) else unreconciled, 0);
      ghost var n := FirstStop(|all|, stops, 0);
      LogShift(Prune(missCounts, {}, [], true), all[..n], grace, unlinked);
      assert unlinked + [] == unlinked;
      var allValid;
      ok, allValid := VisitWorkspaces(all, unreconciled, unlisted);
      if ok && prune {
        missCounts := map k | k in missCounts && k in allValid :: missCounts[k];
      }
    }

    /** The loop over the workspaces; false when a step failed. */
    method VisitWorkspaces(all: seq<Workspace>, unreconciled: nat -> bool, unlisted: nat -> bool)
      returns (ok: bool, allValid: set<Key>)
      modifies this`missCounts, this`unlinked
      ensures !prune ==> missCounts == old(missCounts) && unlinked == old(unlinked)
      ensures var n := FirstStop(|all|, (i: nat) => unreconciled(i) || (prune && unlisted(i)), 0);
              if !prune then ok == (n == |all|)
              else
                var end := Workspaces(Prune(old(missCounts), {}, old(unlinked), true), all[..n], grace);
                && ok == (end.ok && n == |all|) && missCounts == end.counts && unlinked == end.unlinked
                && (ok ==> allValid == end.valid)
    {
      hide Workspaces, FirstStop;
      allValid := {};
      ghost var start := Prune(missCounts, {}, unlinked, true);
      ghost var stops := (i: nat) => unreconciled(i) || (prune && unlisted(i));
      ghost var n := FirstStop(|all|, stops, 0);
      NoWorkspaces(start, all, grace);
      for i := 0 to |all|
        invariant i <= n
        invariant !prune ==> missCounts == old(missCounts) && unlinked == old(unlinked)
        invariant prune ==> Prune(missCounts, allValid, unlinked, true) == Workspaces(start, all[..i], grace)
      {
        if unreconciled(i) || (prune && unlisted(i)) {
          assert stops(i) && n == i;
          return false, {};
        }
        assert !stops(i) && i < n;
        if prune {
          NextWorkspace(start, all, i, grace);
          var done, valid := ApplyGracePrune(all[i]);
          if !done {
            assert all[..n][..i + 1] == all[..i + 1];
            FailedEarlier(start, all[..n], i + 1, grace);
            return false, {};
          }
          allValid := allValid + valid;
        }
      }
      assert all[..n] == all;
      ok := true;
    }
  }

  lemma NoWorkspaces(s: Prune, tick: seq<Workspace>, grace: nat)
    ensures Workspaces(s, tick[..0], grace) == s
  {
  }

  lemma NextWorkspace(s: Prune, tick: seq<Workspace>, i: nat, grace: nat)
    requires i < |tick|
    ensures var before := Workspaces(s, tick[..i], grace);
            var w := ObserveAll(before.(valid := {}), OfWorkspace(tick[i]), grace);
            Workspaces(s, tick[..i + 1], grace) == w.(valid := before.valid + w.valid)
  {
    assert tick[..i + 1][..i] == tick[..i];
  }

  /** The first index below `n` at which `stops` holds, or `n`. */
  function FirstStop(n: nat, stops: nat -> bool, from: nat): (k: nat)
    requires from <= n
    ensures from <= k <= n && (k < n ==> stops(k)) && forall i: nat :: from <= i < k ==> !stops(i)
    decreases n - from
  {
    if from == n || stops(from) then from else FirstStop(n, stops, from + 1)
  }

  lemma SameStop(n: nat, a: nat -> bool, b: nat -> bool, from: nat)
    requires from <= n && forall i: nat :: a(i) == b(i)
    ensures FirstStop(n, a, from) == FirstStop(n, b, from)
  {
  }

  /** A tick: the workspaces it got to, and whether a failed listing or reconcile step cut it short. */
  datatype Tick = Tick(workspaces: seq<Workspace>, cut: bool)

  /** The state a tick reaches, before counters are collected. */
  function EndOf(counts: map<Key, nat>, tick: Tick, grace: nat): Prune {
    var end := Workspaces(Prune(counts, {}, [], true), tick.workspaces, grace);
    end.(ok := end.ok && !tick.cut)
  }

  /** What a workspace pass still had to observe after worktree `j` of binding `i`. */
  ghost function RestOf(ws: Workspace, i: nat, j: nat): (rest: seq<Obs>)
    requires i < |ws| && j <= |ws[i].worktrees|
    ensures OfWorkspace(ws) == OfWorkspace(ws[..i]) + OfBinding(ws[i], j) + rest
  {
    PrefixOf(ws, i + 1);
    assert ws[..i + 1][..i] == ws[..i];
    var upTo := OfWorkspace(ws[..i]) + OfBinding(ws[i], j);
    assert upTo <= OfWorkspace(ws[..i + 1]);
    OfWorkspace(ws)[|upTo|..]
  }

  lemma {:induction false} PrefixOf(ws: Workspace, i: nat)
    requires i <= |ws|
    ensures OfWorkspace(ws[..i]) <= OfWorkspace(ws)
  {
    if i < |ws| {
      PrefixOf(ws[..|ws| - 1], i);
      assert ws[..|ws| - 1][..i] == ws[..i];
    } else {
      assert ws[..i] == ws;
    }
  }

  // ---------- One tick, key by key --------------------------------------------------------------------

  predicate Distinct(obs: seq<Obs>) {
    forall i, j :: 0 <= i < j < |obs| ==> obs[i].key != obs[j].key
  }

  predicate Names(obs: seq<Obs>, key: Key) {
    exists i :: 0 <= i < |obs| && obs[i].key == key
  }

  /** Two states agree about `key`. */
  predicate Same(a: Prune, b: Prune, key: Key) {
    && (key in a.counts <==> key in b.counts) && (key in a.counts ==> a.counts[key] == b.counts[key])
    && (key in a.valid <==> key in b.valid) && (key in a.unlinked <==> key in b.unlinked)
  }

  lemma {:induction false} OthersSame(s: Prune, obs: seq<Obs>, grace: nat, key: Key)
    requires !Names(obs, key)
    ensures Same(s, ObserveAll(s, obs, grace), key)
  {
    if obs != [] {
      var front, o := obs[..|obs| - 1], obs[|obs| - 1];
      assert forall i :: 0 <= i < |front| ==> front[i] == obs[i];
      OthersSame(s, front, grace, key);
      assert obs[|obs| - 1].key != key;
    }
  }

  /** Observation `i` is reached: nothing before it failed. */
  predicate Reached(s: Prune, obs: seq<Obs>, grace: nat, i: nat)
    requires i <= |obs|
  {
    ObserveAll(s, obs[..i], grace).ok
  }

  /** What a pass makes of the key of an observation, if it reaches it. */
  predicate Outcome(s: Prune, end: Prune, o: Obs, grace: nat, reached: bool) {
    var n := Bumped(s.counts, o.key);
    if !reached || !o.wt.marked || o.wt.probe.None? then Same(s, end, o.key)
    else if o.wt.probe.value then o.key !in end.counts && o.key !in end.valid && o.key !in end.unlinked
    else if n < grace then o.key in end.counts && end.counts[o.key] == n && o.key in end.valid && o.key !in end.unlinked
    else if o.wt.unlinkFails then o.key in end.counts && end.counts[o.key] == n && o.key !in end.unlinked && !end.ok
    else o.key !in end.counts && o.key !in end.valid && o.key in end.unlinked
  }

  lemma {:induction false} KeyObserved(s: Prune, obs: seq<Obs>, grace: nat, i: nat)
    requires Distinct(obs) && i < |obs| && s.valid == {} && s.unlinked == []
    ensures Outcome(s, ObserveAll(s, obs, grace), obs[i], grace, Reached(s, obs, grace, i))
  {
    var front, o := obs[..|obs| - 1], obs[|obs| - 1];
    assert front[..i] == obs[..i];
    if i < |front| {
      KeyObserved(s, front, grace, i);
      assert front[i] == obs[i] && o.key != obs[i].key;
    } else {
      OthersSame(s, front, grace, o.key);
      assert front == obs[..i];
    }
  }

  lemma OkReachesAll(s: Prune, obs: seq<Obs>, grace: nat, i: nat)
    requires i <= |obs| && ObserveAll(s, obs, grace).ok
    ensures Reached(s, obs, grace, i)
  {
    assert obs == obs[..i] + obs[i..];
    ErrorStops(s, obs[..i], obs[i..], grace);
  }

  /** Adding keys nobody observes to the valid set changes nothing else. */
  lemma {:induction false} ValidShift(s: Prune, obs: seq<Obs>, grace: nat, v: set<Key>)
    requires forall i :: 0 <= i < |obs| ==> obs[i].key !in v
    ensures var end := ObserveAll(s, obs, grace);
            ObserveAll(s.(valid := v + s.valid), obs, grace) == end.(valid := v + end.valid)
  {
    if obs != [] {
      ValidShift(s, obs[..|obs| - 1], grace, v);
      var end, o := ObserveAll(s, obs[..|obs| - 1], grace), obs[|obs| - 1];
      assert v + (end.valid + {o.key}) == v + end.valid + {o.key};
      assert v + (end.valid - {o.key}) == v + end.valid - {o.key};
    }
  }

  lemma {:induction false} ValidAreNamed(s: Prune, obs: seq<Obs>, grace: nat)
    requires s.valid == {}
    ensures forall k :: k in ObserveAll(s, obs, grace).valid ==> Names(obs, k)
  {
    if obs != [] {
      ValidAreNamed(s, obs[..|obs| - 1], grace);
      forall k | k in ObserveAll(s, obs, grace).valid
        ensures Names(obs, k)
      {
        if k == obs[|obs| - 1].key {
        } else {
          assert Names(obs[..|obs| - 1], k);
          var i :| 0 <= i < |obs| - 1 && obs[..|obs| - 1][i].key == k;
          assert obs[i].key == k;
        }
      }
    }
  }

  /** The pass over all workspaces is one pass over all worktrees: counters of one workspace are not
      lost to another. */
  lemma {:induction false} OnePass(s: Prune, tick: seq<Workspace>, grace: nat)
    requires Distinct(OfTick(tick)) && s.valid == {}
    ensures Workspaces(s, tick, grace) == ObserveAll(s, OfTick(tick), grace)
  {
    if tick != [] {
      var front, obs := OfTick(tick[..|tick| - 1]), OfWorkspace(tick[|tick| - 1]);
      assert OfTick(tick) == front + obs;
      assert forall i :: 0 <= i < |front| ==> front[i] == OfTick(tick)[i];
      OnePass(s, tick[..|tick| - 1], grace);
      var before := ObserveAll(s, front, grace);
      ValidAreNamed(s, front, grace);
      forall i | 0 <= i < |obs|
        ensures obs[i].key !in before.valid
      {
        assert obs[i] == OfTick(tick)[|front| + i];
      }
      ValidShift(before.(valid := {}), obs, grace, before.valid);
      assert before.valid + {} == before.valid;
      ErrorStops(s, front, obs, grace);
    }
  }

  predicate Missed(tick: seq<Workspace>, key: Key) {
    exists i :: 0 <= i < |OfTick(tick)| && OfTick(tick)[i].key == key && Missing(OfTick(tick)[i])
  }

  function Count(counts: map<Key, nat>, key: Key): nat {
    if key in counts then counts[key] else 0
  }

  /** One successful tick: a missed key counts one more, or is unlinked and forgotten on reaching the
      threshold; any other key has no counter and is not unlinked. */
  lemma TickByKey(counts: map<Key, nat>, tick: seq<Workspace>, grace: nat, key: Key)
    requires Distinct(OfTick(tick)) && Count(counts, key) < grace <= U32_MAX
    requires Workspaces(Prune(counts, {}, [], true), tick, grace).ok
    ensures var end := Workspaces(Prune(counts, {}, [], true), tick, grace);
            var reaches := Missed(tick, key) && Count(counts, key) + 1 == grace;
            && (key in end.unlinked <==> reaches)
            && (key in Collected(end) <==> Missed(tick, key) && !reaches)
            && (key in Collected(end) ==> Collected(end)[key] == Count(counts, key) + 1)
  {
    var s, obs := Prune(counts, {}, [], true), OfTick(tick);
    OnePass(s, tick, grace);
    if Names(obs, key) {
      var i :| 0 <= i < |obs| && obs[i].key == key;
      KeyObserved(s, obs, grace, i);
      OkReachesAll(s, obs, grace, i);
      assert Missed(tick, key) <==> Missing(obs[i]);
    } else {
      OthersSame(s, obs, grace, key);
    }
  }

  // ---------- Every run of ticks -----------------------------------------------------------------------

  function CountsAfter(ticks: seq<Tick>, grace: nat): map<Key, nat>
    decreases |ticks|, 1
  {
    if ticks == [] then map[] else Collected(TickEnd(ticks, grace))
  }

  /** The last tick of a run, before its counters are collected. */
  function TickEnd(ticks: seq<Tick>, grace: nat): Prune
    requires ticks != []
    decreases |ticks|, 0
  {
    EndOf(CountsAfter(ticks[..|ticks| - 1], grace), ticks[|ticks| - 1], grace)
  }

  predicate DistinctKeys(ticks: seq<Tick>) {
    forall k :: 0 <= k < |ticks| ==> Distinct(OfTick(ticks[k].workspaces))
  }

  ghost predicate Succeeded(ticks: seq<Tick>, grace: nat) {
    ticks == [] || (Succeeded(ticks[..|ticks| - 1], grace) && TickEnd(ticks, grace).ok)
  }

  /** How many of the latest ticks in a row missed the key. */
  function Misses(ticks: seq<Tick>, key: Key): nat {
    if ticks == [] || !Missed(ticks[|ticks| - 1].workspaces, key) then 0 else 1 + Misses(ticks[..|ticks| - 1], key)
  }

  lemma NextRemainder(m: nat, grace: nat)
    requires grace >= 1
    ensures (m + 1) % grace == if m % grace + 1 == grace then 0 else m % grace + 1
  {
    var q, r := m / grace, m % grace;
    if r + 1 == grace {
      SameRemainder((m + 1) / grace, (m + 1) % grace, q + 1, 0, grace);
    } else {
      SameRemainder((m + 1) / grace, (m + 1) % grace, q, r + 1, grace);
    }
  }

  lemma SameRemainder(q1: int, r1: nat, q2: int, r2: nat, d: nat)
    requires r1 < d && r2 < d && d * q1 + r1 == d * q2 + r2
    ensures r1 == r2
  {
    if q1 < q2 {
      MultipleGap(d, q1, q2);
    } else if q2 < q1 {
      MultipleGap(d, q2, q1);
    }
  }

  lemma {:induction false} MultipleGap(d: nat, a: int, b: int)
    requires a < b
    ensures d * b >= d * a + d
    decreases b - a
  {
    assert d * b == d * (b - 1) + d;
    if a < b - 1 {
      MultipleGap(d, a, b - 1);
    }
  }

  /** How far a run of `m` misses is into the current threshold's worth. */
  function Phase(m: nat, grace: nat): nat
    requires grace >= 1
  {
    m % grace
  }

  lemma NextPhase(m: nat, grace: nat)
    requires grace >= 1
    ensures Phase(m, grace) < grace && Phase(0, grace) == 0
    ensures Phase(m + 1, grace) == if Phase(m, grace) + 1 == grace then 0 else Phase(m, grace) + 1
  {
    NextRemainder(m, grace);
    NextRemainder(0, grace);
  }

  lemma {:induction false} CountersArePhases(ticks: seq<Tick>, grace: nat, key: Key)
    requires 1 <= grace <= U32_MAX && DistinctKeys(ticks) && Succeeded(ticks, grace)
    ensures Count(CountsAfter(ticks, grace), key) == Phase(Misses(ticks, key), grace)
    ensures key in CountsAfter(ticks, grace) <==> Phase(Misses(ticks, key), grace) != 0
    ensures ticks != [] ==>
              (key in TickEnd(ticks, grace).unlinked <==>
                 Misses(ticks, key) > 0 && Phase(Misses(ticks, key), grace) == 0)
  {
    hide Workspaces, Collected, Missed, Distinct, Phase;
    NextPhase(0, grace);
    if ticks != [] {
      var front, tick := ticks[..|ticks| - 1], ticks[|ticks| - 1];
      CountersArePhases(front, grace, key);
      NextPhase(Misses(front, key), grace);
      TickByKey(CountsAfter(front, grace), tick.workspaces, grace, key);
      assert TickEnd(ticks, grace)
          == Workspaces(Prune(CountsAfter(front, grace), {}, [], true), tick.workspaces, grace);
    }
  }

  /** Over every run of successful ticks, a counter is the length of the key's current run of misses,
      restarted at each unlink; a key is unlinked exactly on the ticks where that run reaches the
      threshold; a key that is not currently missed has no counter. */
  lemma CountersAreRunsOfMisses(ticks: seq<Tick>, grace: nat, key: Key)
    requires 1 <= grace <= U32_MAX && DistinctKeys(ticks) && Succeeded(ticks, grace)
    ensures Count(CountsAfter(ticks, grace), key) == Misses(ticks, key) % grace
    ensures key in CountsAfter(ticks, grace) <==> Misses(ticks, key) % grace != 0
    ensures ticks != [] ==>
              (key in TickEnd(ticks, grace).unlinked <==> Misses(ticks, key) > 0 && Misses(ticks, key) % grace == 0)
  {
    hide CountsAfter, TickEnd, Misses, Succeeded;
    CountersArePhases(ticks, grace, key);
    assert Phase(Misses(ticks, key), grace) == Misses(ticks, key) % grace;
  }

  // ---------- Runs in which ticks may fail ---------------------------------------------------------------

  /** What a tick, as far as it got, saw of a key: a marked worktree whose path was missing or there, or
      nothing. */
  datatype Sight = Miss(unlinkFails: bool) | Present | Unseen

  predicate SeenAt(counts: map<Key, nat>, tick: Tick, grace: nat, key: Key, i: int) {
    var obs := OfTick(tick.workspaces);
    && 0 <= i < |obs| && obs[i].key == key && obs[i].wt.marked && obs[i].wt.probe.Some?
    && Reached(Prune(counts, {}, [], true), obs, grace, i)
  }

  ghost function SightOf(counts: map<Key, nat>, tick: Tick, grace: nat, key: Key): Sight {
    if i: int :| SeenAt(counts, tick, grace, key, i) then
      var wt := OfTick(tick.workspaces)[i].wt;
      if wt.probe.value then Present else Miss(wt.unlinkFails)
    else Unseen
  }

  /** The misses seen of a key since it was last seen present, unlinked, or collected by a tick that
      succeeded without seeing it. */
  ghost function Tally(ticks: seq<Tick>, grace: nat, key: Key): nat {
    if ticks == [] then 0
    else
      var front := ticks[..|ticks| - 1];
      var before := Tally(front, grace, key);
      match SightOf(CountsAfter(front, grace), ticks[|ticks| - 1], grace, key)
      case Miss(unlinkFails) => if before + 1 >= grace && !unlinkFails then 0 else before + 1
      case Present => 0
      case Unseen => if TickEnd(ticks, grace).ok then 0 else before
  }

  function Saturated(n: nat): nat {
    if n < U32_MAX then n else U32_MAX
  }

  /** One tick, successful or not, for one key. */
  lemma AnyTickByKey(counts: map<Key, nat>, tick: Tick, grace: nat, key: Key)
    requires Distinct(OfTick(tick.workspaces)) && 1 <= grace <= U32_MAX
    ensures var end := EndOf(counts, tick, grace);
            var c, after := Count(counts, key), Count(Collected(end), key);
            match SightOf(counts, tick, grace, key)
            case Miss(unlinkFails) =>
              && (key in end.unlinked <==> Bumped(counts, key) >= grace && !unlinkFails)
              && after == if Bumped(counts, key) >= grace && !unlinkFails then 0 else Bumped(counts, key)
            case Present => key !in end.unlinked && after == 0
            case Unseen => key !in end.unlinked && after == if end.ok then 0 else c
  {
    var s, obs := Prune(counts, {}, [], true), OfTick(tick.workspaces);
    OnePass(s, tick.workspaces, grace);
    hide Workspaces, OfTick, ObserveAll, Distinct;
    if i: int :| SeenAt(counts, tick, grace, key, i) {
      KeyObserved(s, obs, grace, i);
      SeenOnce(counts, tick, grace, key, i);
    } else if Names(obs, key) {
      var i :| 0 <= i < |obs| && obs[i].key == key;
      KeyObserved(s, obs, grace, i);
      assert !SeenAt(counts, tick, grace, key, i);
    } else {
      OthersSame(s, obs, grace, key);
    }
  }

  lemma SeenOnce(counts: map<Key, nat>, tick: Tick, grace: nat, key: Key, i: int)
    requires Distinct(OfTick(tick.workspaces)) && SeenAt(counts, tick, grace, key, i)
    ensures var wt := OfTick(tick.workspaces)[i].wt;
            SightOf(counts, tick, grace, key) == if wt.probe.value then Present else Miss(wt.unlinkFails)
  {
    assert forall j :: SeenAt(counts, tick, grace, key, j) ==> j == i;
  }

  /** Over every run of ticks, failed ones included: a counter is the tally of misses, and a key is
      unlinked exactly when a tick misses it, its unlink works, and the tally reaches the threshold. */
  lemma {:induction false} CountersOverAnyTicks(ticks: seq<Tick>, grace: nat, key: Key)
    requires 1 <= grace <= U32_MAX && DistinctKeys(ticks)
    ensures Count(CountsAfter(ticks, grace), key) == Saturated(Tally(ticks, grace, key))
    ensures ticks != [] ==>
              var front := ticks[..|ticks| - 1];
              (key in TickEnd(ticks, grace).unlinked <==>
                 && SightOf(CountsAfter(front, grace), ticks[|ticks| - 1], grace, key) == Miss(false)
                 && Tally(front, grace, key) + 1 >= grace)
  {
    hide EndOf, Collected, SightOf, Distinct;
    if ticks != [] {
      var front := ticks[..|ticks| - 1];
      CountersOverAnyTicks(front, grace, key);
      AnyTickByKey(CountsAfter(front, grace), ticks[|ticks| - 1], grace, key);
    }
  }
}
