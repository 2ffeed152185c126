/** The chunks of one title and body: headers, the bounded anchor, and what survives chunking. */
module Chunks {
  import opened Utf8
  import opened Chunker
  import opened Packing

  const BODY_ALLOWANCE: nat := 300
  const ELLIPSIS: string := "\U{2026}"

  datatype ChunkKind = Core | Comment

  function Label(kind: ChunkKind): string {
    match kind
    case Core => "Description"
    case Comment => "Comment"
  }

  function TitleOnly(title: string, kind: ChunkKind): string {
    "Title: " + title + "\n\n" + Label(kind) + ":"
  }

  function Header(title: string, kind: ChunkKind): string {
    TitleOnly(title, kind) + "\n"
  }

  lemma HeaderLen(title: string, kind: ChunkKind)
    ensures Len(Header(title, kind)) == Len(Header("", kind)) + Len(title)
    ensures Len(Header("", kind)) == if kind.Core? then 22 else 18
    ensures Len(ELLIPSIS) == 3
  {
    hide Bytes, Len, Label;
    var tail := "\n\n" + Label(kind) + ":\n";
    assert Header(title, kind) == "Title: " + title + tail;
    assert Header("", kind) == "Title: " + tail;
    BytesAdd("Title: " + title, tail);
    BytesAdd("Title: ", title);
    BytesAdd("Title: ", tail);
    FixedLen(kind);
    EllipsisLen();
  }

  /** The formats, letter by letter. */
  lemma HeadersRead(title: string)
    ensures TitleOnly(title, Core) == "Title: " + title + "\n\nDescription:"
    ensures TitleOnly(title, Comment) == "Title: " + title + "\n\nComment:"
    ensures Header(title, Core) == "Title: " + title + "\n\nDescription:\n"
    ensures Header(title, Comment) == "Title: " + title + "\n\nComment:\n"
  {
  }

  /** An anchor keeps at most 575 bytes of a task's title, 579 on a comment. */
  lemma AnchorLimits()
    ensures MaxTitle(Core) == 575 && MaxTitle(Comment) == 579
  {
    hide Len;
    HeaderLen("", Core);
    HeaderLen("", Comment);
  }

  lemma FixedLen(kind: ChunkKind)
    ensures Len(Header("", kind)) == if kind.Core? then 22 else 18
  {
    hide Bytes, Len;
    AsciiLen(Header("", kind));
  }

  lemma EllipsisLen()
    ensures Len(ELLIPSIS) == 3
  {
    assert Bytes(ELLIPSIS) == Encode(ELLIPSIS[0]) + Bytes(ELLIPSIS[1..]);
  }

  /** The longest title an anchor keeps whole. */
  function MaxTitle(kind: ChunkKind): nat {
    var reserved := Len(Header("", kind)) + Len(ELLIPSIS) + BODY_ALLOWANCE;
    if CHUNK_BUDGET_BYTES < reserved then 0 else CHUNK_BUDGET_BYTES - reserved
  }

  /** A prefix of the title, marked when it was shortened, that leaves 300 bytes for the body.
      It is the longest such prefix: one more scalar would pass the limit. */
  method BoundedAnchor(title: string, kind: ChunkKind) returns (anchor: string, ghost kept: nat)
    ensures kept <= |title| && anchor == title[..kept] + if kept < |title| then ELLIPSIS else ""
    ensures kept == |title| <==> Len(title) <= MaxTitle(kind)
    ensures Len(title[..kept]) <= MaxTitle(kind) && (kept < |title| ==> MaxTitle(kind) < Len(title[..kept + 1]))
    ensures Room(Header(anchor, kind)) >= BODY_ALLOWANCE
  {
    hide Bytes, Len;
    HeaderLen("", kind);
    var maxTitle := MaxTitle(kind);
    kept := ScalarsIn(title, maxTitle);
    ScalarsFit(title, maxTitle);
    assert title[..|title|] == title;
    PrefixOrder(title, kept, |title|);
    if Len(title) <= maxTitle {
      if kept < |title| {
        PrefixOrder(title, |title|, kept + 1);
      }
      HeaderLen(title, kind);
      return title, |title|;
    }
    var cut := maxTitle;
    while cut > 0 && !IsCharBoundary(title, cut)
      invariant Len(title[..kept]) <= cut <= maxTitle
    {
      FitIsBoundary(title, kept);
      cut := cut - 1;
    }
    if cut == 0 {
      FitIsBoundary(title, 0);
      assert title[..0] == "";
      LenEmpty();
    }
    BoundaryBelow(title, maxTitle, cut);
    PrefixScalars(title, kept);
    anchor := title[..ScalarsIn(title, cut)] + ELLIPSIS;
    HeaderLen(anchor, kind);
    BytesAdd(title[..kept], ELLIPSIS);
  }

  lemma LenEmpty()
    ensures Len("") == 0
  {
  }

  // ---------- Losing nothing -----------------------------------------------------------

  lemma {:induction false} JoinFront(p: string, ps: seq<string>)
    requires ps != []
    ensures Join([p] + ps) == p + "\n\n" + Join(ps)
  {
    var all, n := [p] + ps, |ps|;
    assert all[..n] == [p] + ps[..n - 1];
    if n > 1 {
      JoinFront(p, ps[..n - 1]);
    } else {
      assert Join(all[..1]) == p;
    }
  }

  lemma JoinPush(c: char, ps: seq<string>)
    requires ps != []
    ensures Join([[c] + ps[0]] + ps[1..]) == [c] + Join(ps)
  {
    assert ps == [ps[0]] + ps[1..];
    if |ps| > 1 {
      JoinFront(ps[0], ps[1..]);
      JoinFront([c] + ps[0], ps[1..]);
    }
  }

  /** Paragraphs joined by blank lines give the text back. */
  lemma {:induction false} JoinSplits(s: string)
    ensures Join(SplitParagraphs(s)) == s
  {
    if |s| >= 2 {
      if s[0] == '\n' && s[1] == '\n' {
        JoinSplits(s[2..]);
        JoinFront("", SplitParagraphs(s[2..]));
        assert s == "\n\n" + s[2..];
      } else {
        JoinSplits(s[1..]);
        JoinPush(s[0], SplitParagraphs(s[1..]));
      }
    }
  }

  predicate HasBreak(s: string) {
    exists i :: 0 <= i < |s| - 1 && s[i] == '\n' && s[i + 1] == '\n'
  }

  predicate EndsLine(s: string) {
    s != "" && s[|s| - 1] == '\n'
  }

  /** No paragraph holds a blank-line break, and only the last can end in a line feed: the text is split
      at the first break, then at the first break of the rest, and so on. The first paragraph starts as
      the text does, unless the text opens with a break. */
  lemma {:induction false} SplitIsFine(s: string)
    ensures forall i :: 0 <= i < |SplitParagraphs(s)| ==> !HasBreak(SplitParagraphs(s)[i])
    ensures var p := SplitParagraphs(s)[0]; p == "" || p[0] == s[0]
    ensures SplitParagraphs(s)[0] <= s
    ensures forall i :: 0 <= i < |SplitParagraphs(s)| - 1 ==> !EndsLine(SplitParagraphs(s)[i])
  {
    if |s| >= 2 {
      if s[0] == '\n' && s[1] == '\n' {
        SplitIsFine(s[2..]);
      } else {
        SplitIsFine(s[1..]);
        var rest := SplitParagraphs(s[1..]);
        var p := [s[0]] + rest[0];
        if HasBreak(p) {
          var i :| 0 <= i < |p| - 1 && p[i] == '\n' && p[i + 1] == '\n';
          assert i > 0 ==> rest[0][i - 1] == p[i];
        }
      }
    }
  }

  /** The text without its line-break characters. */
  function Inline(s: string): string {
    if s == [] then []
    else Inline(s[..|s| - 1]) + if s[|s| - 1] == '\n' || s[|s| - 1] == '\r' then [] else [s[|s| - 1]]
  }

  lemma {:induction false} InlineAdd(a: string, b: string)
    ensures Inline(a + b) == Inline(a) + Inline(b)
  {
    if b == [] {
      assert a + b == a;
    } else {
      InlineAdd(a, b[..|b| - 1]);
      assert (a + b)[..|a + b| - 1] == a + b[..|b| - 1];
    }
  }

  lemma {:induction false} InlineCrlf(s: string)
    ensures Inline(NormalizeCrlf(s)) == Inline(s)
  {
    if s != [] {
      var k := if |s| >= 2 && s[0] == '\r' && s[1] == '\n' then 2 else 1;
      InlineCrlf(s[k..]);
      assert s == s[..k] + s[k..];
      InlineAdd(s[..k], s[k..]);
      if k == 2 {
        assert s[..2] == "\r" + "\n";
        InlineAdd("\r", "\n");
        InlineAdd("\n", NormalizeCrlf(s[2..]));
      } else {
        assert s[..1] == [s[0]];
        InlineAdd([s[0]], NormalizeCrlf(s[1..]));
      }
    }
  }

  /** Every CRLF becomes a line feed, wherever it stands. */
  lemma {:induction false} CrlfIsReplaced(a: string, b: string)
    ensures NormalizeCrlf(a + "\r\n" + b) == NormalizeCrlf(a) + "\n" + NormalizeCrlf(b)
  {
    var s := a + "\r\n" + b;
    if a == "" {
      assert s[2..] == b;
    } else {
      var k := if |a| >= 2 && a[0] == '\r' && a[1] == '\n' then 2 else 1;
      assert s[k..] == a[k..] + "\r\n" + b;
      assert |a| == 1 ==> s[1] == '\r';
      CrlfIsReplaced(a[k..], b);
    }
  }

  predicate HasCrlf(s: string) {
    exists i :: 0 <= i < |s| - 1 && s[i] == '\r' && s[i + 1] == '\n'
  }

  /** Text without CRLF is left alone; with `CrlfIsReplaced` this fixes the normalisation of any text. */
  lemma {:induction false} NoCrlfNoChange(s: string)
    requires !HasCrlf(s)
    ensures NormalizeCrlf(s) == s
  {
    if s != "" {
      assert |s| >= 2 ==> !(s[0] == '\r' && s[0 + 1] == '\n');
      NoCrlfNoChange(s[1..]);
    }
  }

  lemma {:induction false} InlineJoin(ps: seq<string>)
    ensures Inline(Join(ps)) == Inline(Concat(ps))
  {
    if ps != [] {
      var front, last := ps[..|ps| - 1], ps[|ps| - 1];
      InlineJoin(front);
      InlineAdd(Concat(front), last);
      if |ps| > 1 {
        InlineAdd(Join(front) + "\n\n", last);
        InlineAdd(Join(front), "\n\n");
        InlineAdd("\n", "\n");
        assert "\n\n" == "\n" + "\n";
      }
    }
  }

  lemma {:induction false} ConcatAdd(a: seq<string>, b: seq<string>)
    ensures Concat(a + b) == Concat(a) + Concat(b)
  {
    if b == [] {
      assert a + b == a;
    } else {
      ConcatAdd(a, b[..|b| - 1]);
      assert (a + b)[..|a + b| - 1] == a + b[..|b| - 1];
    }
  }

  lemma {:induction false} ConcatNonEmpty(ps: seq<string>)
    ensures Concat(NonEmpty(ps)) == Concat(ps)
  {
    if ps != [] {
      ConcatNonEmpty(ps[..|ps| - 1]);
      var front := NonEmpty(ps[..|ps| - 1]);
      ConcatSnoc(front, ps[|ps| - 1]);
      assert front + [] == front;
    }
  }

  lemma {:induction false} InlineGroups(gs: seq<Group>)
    ensures Inline(Concat(Payloads(gs))) == Inline(Concat(Paragraphs(gs)))
  {
    hide Inline, Concat, Join;
    if gs != [] {
      var front, g := gs[..|gs| - 1], gs[|gs| - 1];
      InlineGroups(front);
      var payloads := if g.Packed? then [Join(g.paras)] else g.pieces;
      var paras := if g.Packed? then g.paras else [Concat(g.pieces)];
      InlineGroup(Payloads(front), payloads);
      InlineGroup(Paragraphs(front), paras);
      if g.Packed? {
        InlineJoin(g.paras);
        ConcatOne(Join(g.paras));
      } else {
        ConcatOne(Concat(g.pieces));
      }
    }
  }

  lemma InlineGroup(a: seq<string>, b: seq<string>)
    ensures Inline(Concat(a + b)) == Inline(Concat(a)) + Inline(Concat(b))
  {
    ConcatAdd(a, b);
    InlineAdd(Concat(a), Concat(b));
  }

  lemma ConcatOne(s: string)
    ensures Concat([s]) == s
  {
    ConcatSnoc([], s);
  }

  /** Whatever the grouping, the payloads read in order are the body, line breaks aside. */
  lemma PayloadsKeepText(body: string, gs: seq<Group>)
    requires Paragraphs(gs) == NonEmpty(SplitParagraphs(NormalizeCrlf(body)))
    ensures Inline(Concat(Payloads(gs))) == Inline(body)
  {
    var text := NormalizeCrlf(body);
    InlineGroups(gs);
    ConcatNonEmpty(SplitParagraphs(text));
    InlineJoin(SplitParagraphs(text));
    JoinSplits(text);
    InlineCrlf(body);
  }

  lemma {:induction false} SomeParagraph(s: string) returns (i: nat)
    requires !IsBlank(s)
    ensures i < |SplitParagraphs(s)| && SplitParagraphs(s)[i] != ""
  {
    if |s| >= 2 && s[0] == '\n' && s[1] == '\n' {
      assert s == "\n\n" + s[2..];
      i := SomeParagraph(s[2..]);
      i := i + 1;
    } else {
      i := 0;
    }
  }

  lemma {:induction false} SomeNonEmpty(ps: seq<string>, i: nat)
    requires i < |ps| && ps[i] != ""
    ensures NonEmpty(ps) != []
  {
    if i < |ps| - 1 {
      SomeNonEmpty(ps[..|ps| - 1], i);
    }
  }

  lemma {:induction false} NonEmptyAll(ps: seq<string>)
    ensures AllNonEmpty(NonEmpty(ps))
  {
    if ps != [] {
      NonEmptyAll(ps[..|ps| - 1]);
    }
  }

  lemma {:induction false} SomePayload(gs: seq<Group>, i: nat)
    requires i < |Paragraphs(gs)| && Paragraphs(gs)[i] != ""
    ensures Payloads(gs) != []
  {
    if i < |Paragraphs(gs[..|gs| - 1])| {
      SomePayload(gs[..|gs| - 1], i);
    }
  }

  lemma BodyHasChunk(text: string, gs: seq<Group>)
    requires !IsBlank(text) && Paragraphs(gs) == NonEmpty(SplitParagraphs(text))
    ensures Payloads(gs) != []
  {
    var ps := SplitParagraphs(text);
    var i := SomeParagraph(text);
    SomeNonEmpty(ps, i);
    NonEmptyAll(ps);
    SomePayload(gs, 0);
  }

  // ---------- The chunks of one title and body ---------------------------------------------

  /** `chunks` carry all of `body` under `header`: every one starts with the header and has a
      payload, the paragraphs are whole and in order, and no character but a line break is lost,
      added or moved. */
  ghost predicate Carries(header: string, chunks: seq<string>, body: string) {
    && chunks != []
    && exists groups ::
         && Holds(header, groups, chunks) && Greedy(header, groups)
         && Paragraphs(groups) == NonEmpty(SplitParagraphs(NormalizeCrlf(body)))
         && Inline(Concat(Payloads(groups))) == Inline(body)
  }

  /** Body chunks under the first `k` scalars of a title that is too long for a header. */
  ghost predicate CarriesAnchored(title: string, kind: ChunkKind, k: nat, chunks: seq<string>, body: string)
    requires k <= |title|
  {
    var header := Header(title[..k] + ELLIPSIS, kind);
    && Carries(header, chunks, body)
    && Room(header) >= BODY_ALLOWANCE
    && forall i :: 0 <= i < |chunks| ==> Len(chunks[i]) <= CHUNK_BUDGET_BYTES
  }

  method ChunkFormatted(title: string, body: string, kind: ChunkKind,
                        allowTitleOnly: bool) returns (chunks: seq<string>)
    ensures IsBlank(NormalizeCrlf(body)) ==> chunks == if allowTitleOnly then [TitleOnly(title, kind)] else []
    ensures !IsBlank(NormalizeCrlf(body)) && Len(Header(title, kind)) <= CHUNK_BUDGET_BYTES ==>
              Carries(Header(title, kind), chunks, body)
    ensures !IsBlank(NormalizeCrlf(body)) && Len(Header(title, kind)) > CHUNK_BUDGET_BYTES ==>
              && |chunks| > 1 && chunks[0] == TitleOnly(title, kind)
              && exists k :: 0 <= k < |title| && CarriesAnchored(title, kind, k, chunks[1..], body)
  {
    hide Bytes, Len, SplitParagraphs, NonEmpty, NormalizeCrlf, IsBlank, Packs, Carries;
    var text := NormalizeCrlf(body);
    if IsBlank(text) {
      return if allowTitleOnly then [TitleOnly(title, kind)] else [];
    }
    HeaderLen(title, kind);
    if Len(Header(title, kind)) > CHUNK_BUDGET_BYTES {
      chunks := [TitleOnly(title, kind)];
      var anchor, kept := BoundedAnchor(title, kind);
      var h := Header(anchor, kind);
      assert h == Header(title[..kept] + ELLIPSIS, kind);
      var bodyChunks := PackBody(h, text);
      Carried(h, bodyChunks, body);
      AnchoredFit(h, text, bodyChunks);
      assert CarriesAnchored(title, kind, kept, bodyChunks, body);
      chunks := chunks + bodyChunks;
      CarriesSome(h, bodyChunks, body);
      assert chunks[1..] == bodyChunks;
    } else {
      chunks := PackBody(Header(title, kind), text);
      Carried(Header(title, kind), chunks, body);
    }
  }

  lemma CarriesSome(header: string, chunks: seq<string>, body: string)
    requires Carries(header, chunks, body)
    ensures chunks != []
  {
  }

  lemma Carried(header: string, chunks: seq<string>, body: string)
    requires Packs(header, NormalizeCrlf(body), chunks) && !IsBlank(NormalizeCrlf(body))
    ensures Carries(header, chunks, body)
  {
    var groups :|
      && Paragraphs(groups) == NonEmpty(SplitParagraphs(NormalizeCrlf(body)))
      && Holds(header, groups, chunks) && Greedy(header, groups);
    PayloadsKeepText(body, groups);
    BodyHasChunk(NormalizeCrlf(body), groups);
  }

  lemma AnchoredFit(header: string, text: string, chunks: seq<string>)
    requires Packs(header, text, chunks) && Room(header) >= BODY_ALLOWANCE
    ensures forall i :: 0 <= i < |chunks| ==> Len(chunks[i]) <= CHUNK_BUDGET_BYTES
  {
  }
}
