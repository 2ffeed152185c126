/** Packing paragraphs into chunks, and what the chunks of a task hold. */
module Packing {
  import opened Utf8
  import opened Chunker

  // ---------- What a list of chunks holds -------------------------------------------

  /** A chunk payload is either whole paragraphs joined by blank lines, or one piece of a
      paragraph that was cut over several consecutive chunks. */
  datatype Group = Packed(paras: seq<string>) | Cut(pieces: seq<string>)

  function Payloads(gs: seq<Group>): seq<string> {
    if gs == [] then []
    else
      var g := gs[|gs| - 1];
      Payloads(gs[..|gs| - 1]) + if g.Packed? then [Join(g.paras)] else g.pieces
  }

  function Paragraphs(gs: seq<Group>): seq<string> {
    if gs == [] then []
    else
      var g := gs[|gs| - 1];
      Paragraphs(gs[..|gs| - 1]) + if g.Packed? then g.paras else [Concat(g.pieces)]
  }

  function Headed(header: string, payloads: seq<string>): seq<string> {
    seq(|payloads|, i requires 0 <= i < |payloads| => header + payloads[i])
  }

  predicate AllNonEmpty(ss: seq<string>) {
    forall i :: 0 <= i < |ss| ==> ss[i] != ""
  }

  /** Every chunk fits, give or take one scalar under a header with no real room left. */
  predicate Sized(header: string, chunks: seq<string>) {
    forall i :: 0 <= i < |chunks| ==>
      Len(chunks[i]) <= CHUNK_BUDGET_BYTES || (Room(header) < 4 && Len(chunks[i]) <= CHUNK_BUDGET_BYTES + 4)
  }

  lemma JoinSnoc(ps: seq<string>, p: string)
    ensures Join(ps + [p]) == if ps == [] then p else Join(ps) + "\n\n" + p
  {
    assert (ps + [p])[..|ps + [p]| - 1] == ps;
  }

  lemma ConcatSnoc(ps: seq<string>, p: string)
    ensures Concat(ps + [p]) == Concat(ps) + p
  {
    assert (ps + [p])[..|ps + [p]| - 1] == ps;
  }

  lemma GroupSnoc(gs: seq<Group>, g: Group)
    ensures Payloads(gs + [g]) == Payloads(gs) + if g.Packed? then [Join(g.paras)] else g.pieces
    ensures Paragraphs(gs + [g]) == Paragraphs(gs) + if g.Packed? then g.paras else [Concat(g.pieces)]
  {
    assert (gs + [g])[..|gs + [g]| - 1] == gs;
  }

  lemma {:induction false} JoinNonEmpty(ps: seq<string>)
    requires AllNonEmpty(ps) && ps != []
    ensures Join(ps) != "" && Len(Join(ps)) > 0
  {
  }

  lemma HeadedSnoc(header: string, payloads: seq<string>, p: string)
    ensures Headed(header, payloads + [p]) == Headed(header, payloads) + [header + p]
  {
  }

  // ---------- Packing -------------------------------------------------------------------

  lemma CutOne(header: string, pieces: seq<string>, chunks: seq<string>, rest: string)
    requires rest != "" && Len(header) <= CHUNK_BUDGET_BYTES
    requires AllNonEmpty(pieces) && chunks == Headed(header, pieces) && Sized(header, chunks)
    ensures var head := rest[..CutPoint(header, rest)];
            && AllNonEmpty(pieces + [head]) && chunks + [header + head] == Headed(header, pieces + [head])
            && Sized(header, chunks + [header + head])
            && Concat(pieces + [head]) + rest[CutPoint(header, rest)..] == Concat(pieces) + rest
            && pieces + [head] + Pieces(header, rest[CutPoint(header, rest)..]) == pieces + Pieces(header, rest)
  {
    hide Bytes, Len, CutPoint, Concat;
    var head := rest[..CutPoint(header, rest)];
    CutFits(header, rest);
    ConcatSnoc(pieces, head);
    HeadedSnoc(header, pieces, head);
    assert rest == head + rest[CutPoint(header, rest)..];
    assert Concat(pieces) + rest == Concat(pieces) + head + rest[CutPoint(header, rest)..];
  }

  /** The pieces of a paragraph: cut, and cut the rest again. */
  function Pieces(header: string, p: string): seq<string> {
    if p == "" then [] else [p[..CutPoint(header, p)]] + Pieces(header, p[CutPoint(header, p)..])
  }

  /** Cut one paragraph into pieces under `header`; each round takes at least one scalar. */
  method CutParagraph(header: string, p: string) returns (chunks: seq<string>, ghost pieces: seq<string>)
    requires p != "" && Len(header) <= CHUNK_BUDGET_BYTES
    ensures Concat(pieces) == p && AllNonEmpty(pieces) && pieces == Pieces(header, p)
    ensures chunks == Headed(header, pieces) && Sized(header, chunks)
  {
    hide Bytes, Len, CutPoint, Sized, Headed, Concat, Pieces, AllNonEmpty;
    chunks, pieces := [], [];
    NothingCut(header);
    assert [] + Pieces(header, p) == Pieces(header, p);
    var rest := p;
    while rest != ""
      invariant Concat(pieces) + rest == p && AllNonEmpty(pieces) && pieces + Pieces(header, rest) == Pieces(header, p)
      invariant chunks == Headed(header, pieces) && Sized(header, chunks)
      decreases |rest|
    {
      CutOne(header, pieces, chunks, rest);
      var head, rem := SplitParagraphFragment(header, rest);
      chunks, pieces, rest := chunks + [header + head], pieces + [head], rem;
    }
  }

  lemma NothingCut(header: string)
    ensures Headed(header, []) == [] && Sized(header, []) && AllNonEmpty([])
    ensures Concat([]) == "" && Pieces(header, "") == []
  {
  }

  /** `chunks` are finished chunks under `header` holding `groups`. */
  ghost predicate Holds(header: string, groups: seq<Group>, chunks: seq<string>) {
    chunks == Headed(header, Payloads(groups)) && AllNonEmpty(Payloads(groups)) && Sized(header, chunks)
  }

  /** The running chunk holds the paragraphs `open` and fits. */
  ghost predicate Running(header: string, open: seq<string>, cur: string) {
    AllNonEmpty(open) && cur == header + Join(open) && Len(cur) <= CHUNK_BUDGET_BYTES
  }

  lemma HoldsOpen(header: string, groups: seq<Group>, chunks: seq<string>, open: seq<string>, cur: string)
    requires Holds(header, groups, chunks) && Running(header, open, cur) && open != []
    ensures Holds(header, groups + [Packed(open)], chunks + [cur])
    ensures Paragraphs(groups + [Packed(open)]) == Paragraphs(groups) + open
  {
    hide Bytes, Len;
    GroupSnoc(groups, Packed(open));
    JoinNonEmpty(open);
    HeadedSnoc(header, Payloads(groups), Join(open));
  }

  lemma HoldsCut(header: string, groups: seq<Group>, chunks: seq<string>, pieces: seq<string>, more: seq<string>)
    requires Holds(header, groups, chunks) && AllNonEmpty(pieces) && more == Headed(header, pieces)
               && Sized(header, more)
    ensures Holds(header, groups + [Cut(pieces)], chunks + more)
    ensures Paragraphs(groups + [Cut(pieces)]) == Paragraphs(groups) + [Concat(pieces)]
  {
    hide Bytes, Len;
    GroupSnoc(groups, Cut(pieces));
  }

  lemma RunningGrows(header: string, open: seq<string>, cur: string, p: string)
    requires Running(header, open, cur) && p != ""
    ensures Len(cur) > Len(header) <==> open != []
    ensures var cand := cur + (if Len(cur) > Len(header) then "\n\n" else "") + p;
            && (Len(cand) <= CHUNK_BUDGET_BYTES ==> Running(header, open + [p], cand))
            && (Len(cand) <= CHUNK_BUDGET_BYTES <==> Fits(header, open + [p]))
    ensures Fits(header, open)
  {
    hide Bytes, Len;
    HeaderGrown(header, open);
    JoinSnoc(open, p);
    assert open == [] ==> Join(open) == "";
    assert cur + (if open != [] then "\n\n" else "") + p == header + Join(open + [p]);
  }

  lemma NonEmptySnoc(ps: seq<string>, i: nat)
    requires i < |ps|
    ensures NonEmpty(ps[..i + 1]) == NonEmpty(ps[..i]) + if ps[i] == "" then [] else [ps[i]]
  {
    assert ps[..i + 1][..i] == ps[..i];
  }

  /** The paragraphs fit into one chunk. */
  predicate Fits(header: string, paras: seq<string>) {
    Len(header + Join(paras)) <= CHUNK_BUDGET_BYTES
  }

  /** What precedes group `k` in a chunk of its own: the paragraphs of a packed group, or nothing. */
  function Preceding(groups: seq<Group>, k: nat): seq<string>
    requires k < |groups|
  {
    if k > 0 && groups[k - 1].Packed? then groups[k - 1].paras else []
  }

  /** A packed group holds paragraphs that fit, and is only ended by a cut paragraph; a paragraph is cut
      only because it does not fit behind what precedes it, and then exactly at its cut points. */
  predicate GreedyAt(header: string, groups: seq<Group>, k: nat)
    requires k < |groups|
  {
    match groups[k]
    case Packed(paras) =>
      paras != [] && Fits(header, paras) && (k + 1 < |groups| ==> groups[k + 1].Cut?)
    case Cut(pieces) =>
      pieces == Pieces(header, Concat(pieces)) && !Fits(header, Preceding(groups, k) + [Concat(pieces)])
  }

  predicate Greedy(header: string, groups: seq<Group>) {
    forall k :: 0 <= k < |groups| ==> GreedyAt(header, groups, k)
  }

  /** Between paragraphs, everything finished ends with a cut. */
  predicate EndsCut(groups: seq<Group>) {
    groups != [] ==> groups[|groups| - 1].Cut?
  }

  lemma GreedyOpen(header: string, groups: seq<Group>, open: seq<string>)
    requires Greedy(header, groups) && EndsCut(groups) && open != [] && Fits(header, open)
    ensures Greedy(header, groups + [Packed(open)])
  {
    hide Pieces, Fits, Concat;
    var all := groups + [Packed(open)];
    forall k | 0 <= k < |all|
      ensures GreedyAt(header, all, k)
    {
      if k < |groups| {
        assert GreedyAt(header, groups, k) && Preceding(all, k) == Preceding(groups, k);
      }
    }
  }

  lemma GreedyCut(header: string, groups: seq<Group>, open: seq<string>, p: string, pieces: seq<string>)
    requires Greedy(header, groups) && pieces == Pieces(header, p) && Concat(pieces) == p && !Fits(header, open + [p])
    requires if open == [] then EndsCut(groups) else groups != [] && groups[|groups| - 1] == Packed(open)
    ensures Greedy(header, groups + [Cut(pieces)])
  {
    hide Pieces, Fits, Concat;
    var all := groups + [Cut(pieces)];
    forall k | 0 <= k < |all|
      ensures GreedyAt(header, all, k)
    {
      if k < |groups| {
        assert GreedyAt(header, groups, k) && Preceding(all, k) == Preceding(groups, k);
      } else {
        assert Preceding(all, k) == open;
      }
    }
  }

  /** The chunks hold exactly the nonempty paragraphs of `body`, in order, packed greedily. */
  ghost predicate Packs(header: string, body: string, chunks: seq<string>) {
    exists groups ::
      Paragraphs(groups) == NonEmpty(SplitParagraphs(body)) && Holds(header, groups, chunks) && Greedy(header, groups)
  }

  /** Pack the paragraphs of a body under `header`. */
  method PackBody(header: string, body: string) returns (chunks: seq<string>)
    requires Len(header) <= CHUNK_BUDGET_BYTES
    ensures Packs(header, body, chunks)
  {
    hide Bytes, Len, Join, Concat, Paragraphs, Payloads, Holds, Running, NonEmpty, SplitParagraphs;
    hide Greedy, Fits, Pieces;
    StartsEmpty(header);
    var paragraphs := SplitParagraphs(body);
    ghost var groups: seq<Group> := [];
    chunks := [];
    var cur := header;
    ghost var open: seq<string> := [];
    for i := 0 to |paragraphs|
      invariant Paragraphs(groups) + open == NonEmpty(paragraphs[..i])
      invariant Holds(header, groups, chunks) && Running(header, open, cur)
      invariant Greedy(header, groups) && EndsCut(groups)
    {
      var p := paragraphs[i];
      NonEmptySnoc(paragraphs, i);
      if p == "" {
        continue;
      }
      RunningGrows(header, open, cur, p);
      var sep := if Len(cur) > Len(header) then "\n\n" else "";
      var cand := cur + sep + p;
      if Len(cand) <= CHUNK_BUDGET_BYTES {
        assert Paragraphs(groups) + (open + [p]) == Paragraphs(groups) + open + [p];
        cur, open := cand, open + [p];
        continue;
      }
      ghost var before := open;
      if Len(cur) > Len(header) {
        HoldsOpen(header, groups, chunks, open, cur);
        GreedyOpen(header, groups, open);
        chunks, groups := chunks + [cur], groups + [Packed(open)];
        cur, open := header, [];
      }
      assert Paragraphs(groups) == NonEmpty(paragraphs[..i]);
      var more, pieces := CutParagraph(header, p);
      HoldsCut(header, groups, chunks, pieces, more);
      GreedyCut(header, groups, before, p, pieces);
      chunks, groups := chunks + more, groups + [Cut(pieces)];
    }
    assert paragraphs[..|paragraphs|] == paragraphs;
    RunningGrows(header, open, cur, "p");
    if Len(cur) > Len(header) {
      HoldsOpen(header, groups, chunks, open, cur);
      GreedyOpen(header, groups, open);
      chunks, groups := chunks + [cur], groups + [Packed(open)];
    }
  }

  // ---------- The packing is forced -------------------------------------------------------

  function ParasOf(g: Group): seq<string> {
    if g.Packed? then g.paras else [Concat(g.pieces)]
  }

  lemma {:induction false} ParagraphsFront(gs: seq<Group>)
    requires gs != []
    ensures Paragraphs(gs) == ParasOf(gs[0]) + Paragraphs(gs[1..])
  {
    var n := |gs| - 1;
    if n > 0 {
      ParagraphsFront(gs[..n]);
      assert gs[..n][1..] == gs[1..][..n - 1];
    } else {
      assert gs[..0] == [] && gs[1..] == [];
    }
  }

  lemma {:induction false} FitsPrefix(header: string, b: seq<string>, n: nat)
    requires n <= |b| && Fits(header, b)
    ensures Fits(header, b[..n])
    decreases |b|
  {
    if n == |b| {
      assert b[..n] == b;
    } else {
      var front, last := b[..|b| - 1], b[|b| - 1];
      JoinSnoc(front, last);
      assert b == front + [last];
      JoinLonger(header, front, last);
      FitsPrefix(header, front, n);
      assert front[..n] == b[..n];
    }
  }

  lemma JoinLonger(header: string, front: seq<string>, last: string)
    ensures Len(header + Join(front)) <= Len(header + Join(front + [last]))
  {
    hide Bytes, Len, Join;
    JoinSnoc(front, last);
    EmptyJoin();
    if front == [] {
      assert header + "" == header;
      BytesAdd(header, last);
    } else {
      BytesAdd(header + Join(front), "\n\n" + last);
      assert header + Join(front + [last]) == header + Join(front) + ("\n\n" + last);
    }
  }

  lemma EmptyJoin()
    ensures Join([]) == ""
  {
  }

  /** Dropping whole leading groups up to a cut leaves a greedy packing. */
  lemma GreedyTail(header: string, gs: seq<Group>, n: nat)
    requires Greedy(header, gs) && 0 < n <= |gs| && gs[n - 1].Cut?
    ensures Greedy(header, gs[n..])
  {
    hide Pieces, Fits, Concat;
    forall k | 0 <= k < |gs[n..]|
      ensures GreedyAt(header, gs[n..], k)
    {
      assert GreedyAt(header, gs, n + k) && Preceding(gs, n + k) == Preceding(gs[n..], k);
    }
  }

  /** A packed first group is not followed by a longer one in another packing of the same paragraphs. */
  lemma NoShorter(header: string, gs: seq<Group>, b: seq<string>, tail: seq<string>)
    requires Greedy(header, gs) && gs != [] && gs[0].Packed? && Paragraphs(gs) == b + tail && Fits(header, b)
    ensures |gs[0].paras| >= |b|
  {
    hide Fits, Pieces, Paragraphs, Concat;
    assert GreedyAt(header, gs, 0);
    var a := gs[0].paras;
    ParagraphsFront(gs);
    if |a| < |b| {
      NoParagraphs();
      assert |Paragraphs(gs)| == |a| + |Paragraphs(gs[1..])|;
      ParagraphsFront(gs[1..]);
      assert GreedyAt(header, gs, 1);
      var p := Concat(gs[1].pieces);
      assert (b + tail)[|a|] == p && (b + tail)[..|a|] == a;
      assert b[..|a| + 1] == a + [p];
      FitsPrefix(header, b, |a| + 1);
    }
  }

  lemma NoParagraphs()
    ensures Paragraphs([]) == []
  {
  }

  /** Every group holds a paragraph. */
  lemma GroupsHoldParagraphs(gs: seq<Group>)
    requires forall k :: 0 <= k < |gs| && gs[k].Packed? ==> gs[k].paras != []
    ensures Paragraphs(gs) == [] <==> gs == []
  {
    hide Paragraphs, Concat;
    NoParagraphs();
    if gs != [] {
      ParagraphsFront(gs);
    }
  }

  lemma GreedyHolds(header: string, gs: seq<Group>)
    requires Greedy(header, gs)
    ensures Paragraphs(gs) == [] <==> gs == []
  {
    hide Fits, Pieces, Paragraphs, Concat;
    forall k | 0 <= k < |gs| && gs[k].Packed?
      ensures gs[k].paras != []
    {
      assert GreedyAt(header, gs, k);
    }
    GroupsHoldParagraphs(gs);
  }

  /** Whether the first group is packed is decided by its first paragraph alone. */
  lemma PackedExactlyWhenFits(header: string, gs: seq<Group>)
    requires gs != [] && GreedyAt(header, gs, 0)
    ensures Paragraphs(gs) != [] && (gs[0].Packed? <==> Fits(header, [Paragraphs(gs)[0]]))
  {
    hide Fits, Pieces, Paragraphs, Concat;
    ParagraphsFront(gs);
    if gs[0].Packed? {
      FitsPrefix(header, gs[0].paras, 1);
      assert gs[0].paras[..1] == [Paragraphs(gs)[0]];
    } else {
      assert [] + [Concat(gs[0].pieces)] == [Paragraphs(gs)[0]];
    }
  }

  lemma SameFirst(header: string, gs: seq<Group>, hs: seq<Group>)
    requires Greedy(header, gs) && Greedy(header, hs) && gs != [] && hs != [] && Paragraphs(gs) == Paragraphs(hs)
    ensures gs[0] == hs[0] && Paragraphs(gs[1..]) == Paragraphs(hs[1..])
  {
    hide Fits, Pieces, Paragraphs, Concat;
    assert GreedyAt(header, gs, 0) && GreedyAt(header, hs, 0);
    PackedExactlyWhenFits(header, gs);
    PackedExactlyWhenFits(header, hs);
    ParagraphsFront(gs);
    ParagraphsFront(hs);
    if gs[0].Packed? {
      NoShorter(header, gs, hs[0].paras, Paragraphs(hs[1..]));
      NoShorter(header, hs, gs[0].paras, Paragraphs(gs[1..]));
      assert gs[0].paras == Paragraphs(gs)[..|gs[0].paras|] == hs[0].paras;
    } else {
      assert Paragraphs(gs)[0] == Concat(gs[0].pieces) && Paragraphs(hs)[0] == Concat(hs[0].pieces);
    }
    assert Paragraphs(gs[1..]) == Paragraphs(gs)[|ParasOf(gs[0])|..];
    assert Paragraphs(hs[1..]) == Paragraphs(hs)[|ParasOf(hs[0])|..];
  }

  /** Behind equal packed groups both packings go on with the same cut, or end. */
  lemma SameSecond(header: string, gs: seq<Group>, hs: seq<Group>)
    requires Greedy(header, gs) && Greedy(header, hs) && gs != [] && hs != []
    requires gs[0].Packed? && hs[0].Packed? && Paragraphs(gs[1..]) == Paragraphs(hs[1..])
    ensures |gs| == 1 <==> |hs| == 1
    ensures |gs| > 1 ==> gs[1] == hs[1] && gs[1].Cut? && Paragraphs(gs[2..]) == Paragraphs(hs[2..])
  {
    hide Fits, Pieces, Paragraphs, Concat;
    assert GreedyAt(header, gs, 0) && GreedyAt(header, hs, 0);
    assert forall k :: 0 <= k < |gs[1..]| ==> GreedyAt(header, gs, k + 1) && gs[1..][k] == gs[k + 1];
    assert forall k :: 0 <= k < |hs[1..]| ==> GreedyAt(header, hs, k + 1) && hs[1..][k] == hs[k + 1];
    GroupsHoldParagraphs(gs[1..]);
    GroupsHoldParagraphs(hs[1..]);
    if |gs| > 1 {
      assert GreedyAt(header, gs, 1) && GreedyAt(header, hs, 1);
      ParagraphsFront(gs[1..]);
      ParagraphsFront(hs[1..]);
      assert gs[1..][1..] == gs[2..] && hs[1..][1..] == hs[2..];
      var p := Paragraphs(gs[1..]);
      assert p[0] == Concat(gs[1].pieces) == Concat(hs[1].pieces);
      assert p[1..] == Paragraphs(gs[2..]) == Paragraphs(hs[2..]);
    }
  }

  lemma {:induction false} SameGroups(header: string, gs: seq<Group>, hs: seq<Group>)
    requires Greedy(header, gs) && Greedy(header, hs) && Paragraphs(gs) == Paragraphs(hs)
    ensures gs == hs
    decreases |gs|
  {
    hide Fits, Pieces, Paragraphs, Concat, Preceding;
    GreedyHolds(header, gs);
    GreedyHolds(header, hs);
    if gs != [] {
      SameFirst(header, gs, hs);
      if gs[0].Cut? {
        GreedyTail(header, gs, 1);
        GreedyTail(header, hs, 1);
        SameGroups(header, gs[1..], hs[1..]);
        assert gs == [gs[0]] + gs[1..] && hs == [hs[0]] + hs[1..];
      } else {
        SameSecond(header, gs, hs);
        if |gs| > 1 {
          GreedyTail(header, gs, 2);
          GreedyTail(header, hs, 2);
          SameGroups(header, gs[2..], hs[2..]);
          assert gs == [gs[0], gs[1]] + gs[2..] && hs == [hs[0], hs[1]] + hs[2..];
        }
      }
    }
  }

  /** A body has one packing under a header: the chunks are forced by the paragraphs and the budget. */
  lemma PackingIsForced(header: string, body: string, a: seq<string>, b: seq<string>)
    requires Packs(header, body, a) && Packs(header, body, b)
    ensures a == b
  {
    hide Greedy, Paragraphs, NonEmpty, SplitParagraphs, Sized, AllNonEmpty;
    var gs :| Paragraphs(gs) == NonEmpty(SplitParagraphs(body)) && Holds(header, gs, a) && Greedy(header, gs);
    var hs :| Paragraphs(hs) == NonEmpty(SplitParagraphs(body)) && Holds(header, hs, b) && Greedy(header, hs);
    SameGroups(header, gs, hs);
  }

  lemma StartsEmpty(header: string)
    requires Len(header) <= CHUNK_BUDGET_BYTES
    ensures Holds(header, [], []) && Running(header, [], header)
    ensures Paragraphs([]) == [] && NonEmpty([]) == [] && Greedy(header, [])
  {
  }

  /** The running chunk is longer than its header exactly when it holds a paragraph. */
  lemma HeaderGrown(header: string, open: seq<string>)
    requires AllNonEmpty(open)
    ensures Len(header + Join(open)) > Len(header) <==> open != []
  {
    BytesAdd(header, Join(open));
    if open != [] {
      JoinNonEmpty(open);
    }
  }
}
