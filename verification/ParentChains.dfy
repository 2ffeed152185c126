/** Parent chains over a partial parent map that may be cyclic: ancestors, the tasks whose chain
    ends, and the subtrees below them. */
module ParentChains {
  import opened Options

  type Id = nat
  type Parents = map<Id, Option<Id>>

  /** Every named parent is itself in the map. */
  predicate Closed(par: Parents) {
    forall x :: x in par && par[x].Some? ==> par[x].value in par
  }

  function Up(par: Parents, x: Id, n: nat): Option<Id>
    decreases n
  {
    if n == 0 then Some(x)
    else if x in par && par[x].Some? then Up(par, par[x].value, n - 1)
    else None
  }

  /** The chain of parents from `x` runs out, rather than looping. */
  ghost predicate Ends(par: Parents, x: Id) {
    exists n: nat :: Up(par, x, n) == None
  }

  ghost predicate Above(par: Parents, a: Id, d: Id) {
    exists n: nat :: Up(par, d, n) == Some(a)
  }

  ghost function Below(par: Parents, x: Id): set<Id> {
    set d | d in par && Above(par, x, d)
  }

  lemma AboveSelf(par: Parents, x: Id)
    ensures Above(par, x, x)
  {
    assert Up(par, x, 0) == Some(x);
  }

  lemma AboveParent(par: Parents, x: Id, p: Id)
    requires x in par && par[x] == Some(p)
    ensures Above(par, p, x)
  {
    assert Up(par, x, 1) == Up(par, p, 0) == Some(p);
  }

  lemma {:induction false} UpAdd(par: Parents, x: Id, m: nat, n: nat)
    ensures Up(par, x, m + n) == match Up(par, x, m) case None => None case Some(y) => Up(par, y, n)
    decreases m
  {
    if m > 0 && x in par && par[x].Some? {
      UpAdd(par, par[x].value, m - 1, n);
    }
  }

  lemma AboveTransitive(par: Parents, a: Id, b: Id, c: Id)
    requires Above(par, a, b) && Above(par, b, c)
    ensures Above(par, a, c)
  {
    var m: nat :| Up(par, c, m) == Some(b);
    var n: nat :| Up(par, b, n) == Some(a);
    UpAdd(par, c, m, n);
  }

  /** A chain that ends never comes back to its start. */
  lemma {:induction false} NoLoop(par: Parents, x: Id, n: nat, m: nat)
    requires Up(par, x, m) == None && n > 0
    ensures Up(par, x, n) != Some(x)
    decreases m
  {
    if Up(par, x, n) == Some(x) {
      if m <= n {
        UpAdd(par, x, m, n - m);
      } else {
        UpAdd(par, x, n, m - n);
        NoLoop(par, x, n, m - n);
      }
    }
  }

  lemma ParentEnds(par: Parents, x: Id, p: Id)
    requires x in par && par[x] == Some(p)
    ensures Ends(par, x) <==> Ends(par, p)
  {
    if Ends(par, x) {
      var n: nat :| Up(par, x, n) == None;
      assert n > 0 && Up(par, p, n - 1) == None;
    }
    if Ends(par, p) {
      var n: nat :| Up(par, p, n) == None;
      assert Up(par, x, n + 1) == None;
    }
  }

  /** Everything below a task shares its fate. */
  lemma BelowEnds(par: Parents, a: Id, d: Id)
    requires Above(par, a, d)
    ensures Ends(par, a) <==> Ends(par, d)
  {
    var m: nat :| Up(par, d, m) == Some(a);
    if Ends(par, a) {
      var n: nat :| Up(par, a, n) == None;
      UpAdd(par, d, m, n);
    }
    if Ends(par, d) {
      var n: nat :| Up(par, d, n) == None;
      if n <= m {
        UpAdd(par, d, n, m - n);
      } else {
        UpAdd(par, d, m, n - m);
      }
    }
  }

  /** A child's subtree is a proper part of its parent's. */
  lemma ChildShrinks(par: Parents, x: Id, c: Id)
    requires Ends(par, x) && x in par && c in par && par[c] == Some(x)
    ensures Below(par, c) < Below(par, x) && x !in Below(par, c)
  {
    forall d | d in Below(par, c) ensures d in Below(par, x) {
      AboveParent(par, c, x);
      AboveTransitive(par, x, c, d);
    }
    if x in Below(par, c) {
      var n: nat :| Up(par, x, n) == Some(c);
      UpAdd(par, x, n, 1);
      assert Up(par, c, 1) == Up(par, x, 0);
      var m: nat :| Up(par, x, m) == None;
      NoLoop(par, x, n + 1, m);
    }
    AboveSelf(par, x);
    assert x in Below(par, x);
  }

  /** Two children of one task have nothing in common below them. */
  lemma SiblingsDisjoint(par: Parents, x: Id, c1: Id, c2: Id)
    requires Ends(par, x) && c1 in par && c2 in par && par[c1] == Some(x) && par[c2] == Some(x) && c1 != c2
    ensures Below(par, c1) !! Below(par, c2)
  {
    forall d | d in par && Above(par, c1, d) && Above(par, c2, d) ensures false {
      var n1: nat :| Up(par, d, n1) == Some(c1);
      var n2: nat :| Up(par, d, n2) == Some(c2);
      if n1 <= n2 {
        SiblingsMeet(par, x, c1, c2, d, n1, n2);
      } else {
        SiblingsMeet(par, x, c2, c1, d, n2, n1);
      }
    }
  }

  lemma SiblingsMeet(par: Parents, x: Id, c1: Id, c2: Id, d: Id, n1: nat, n2: nat)
    requires Ends(par, x) && c1 in par && c2 in par && par[c1] == Some(x) && par[c2] == Some(x)
    requires Up(par, d, n1) == Some(c1) && Up(par, d, n2) == Some(c2) && n1 <= n2
    ensures c1 == c2
  {
    UpAdd(par, d, n1, n2 - n1);
    if n1 < n2 {
      assert Up(par, x, n2 - n1 - 1) == Some(c2);
      UpAdd(par, x, n2 - n1 - 1, 1);
      assert Up(par, c2, 1) == Up(par, x, 0);
      var m: nat :| Up(par, x, m) == None;
      NoLoop(par, x, n2 - n1, m);
    }
  }

  /** A task's subtree is the task and its children's subtrees. */
  lemma BelowSplits(par: Parents, x: Id, d: Id)
    requires Closed(par) && x in par && d in par
    ensures Above(par, x, d) <==> d == x || exists c :: c in par && par[c] == Some(x) && Above(par, c, d)
  {
    if Above(par, x, d) && d != x {
      var n: nat :| Up(par, d, n) == Some(x);
      UpAdd(par, d, n - 1, 1);
      var c := Up(par, d, n - 1).value;
      UpStays(par, d, n - 1);
      assert Up(par, c, 1) == Some(x);
      assert par[c].Some? && Up(par, par[c].value, 0) == Some(x);
      assert c in par && par[c] == Some(x) && Above(par, c, d);
    }
    if exists c :: c in par && par[c] == Some(x) && Above(par, c, d) {
      var c :| c in par && par[c] == Some(x) && Above(par, c, d);
      AboveParent(par, c, x);
      AboveTransitive(par, x, c, d);
    }
    AboveSelf(par, x);
  }

  lemma {:induction false} UpStays(par: Parents, x: Id, n: nat)
    requires Closed(par) && x in par
    ensures Up(par, x, n).Some? ==> Up(par, x, n).value in par
    decreases n
  {
    if n > 0 && par[x].Some? {
      UpStays(par, par[x].value, n - 1);
    }
  }

  /** A chain that ends has a top. */
  lemma {:induction false} Top(par: Parents, x: Id, n: nat) returns (top: Id)
    requires Closed(par) && x in par && Up(par, x, n) == None
    ensures top in par && par[top] == None && Above(par, top, x)
    decreases n
  {
    if par[x].None? {
      AboveSelf(par, x);
      top := x;
    } else {
      top := Top(par, par[x].value, n - 1);
      AboveParent(par, x, par[x].value);
      AboveTransitive(par, top, par[x].value, x);
    }
  }

  lemma TopEnds(par: Parents, x: Id)
    requires x in par && par[x] == None
    ensures Ends(par, x)
  {
    assert Up(par, x, 1) == None;
  }

  /** No task is below two different tops. */
  lemma TopsDisjoint(par: Parents, a: Id, b: Id)
    requires a in par && b in par && par[a] == None && par[b] == None && a != b
    ensures Below(par, a) !! Below(par, b)
  {
    forall d | d in par && Above(par, a, d) && Above(par, b, d) ensures false {
      var m: nat :| Up(par, d, m) == Some(a);
      var n: nat :| Up(par, d, n) == Some(b);
      if m <= n {
        UpAdd(par, d, m, n - m);
      } else {
        UpAdd(par, d, n, m - n);
      }
    }
  }
}
