/** The search chunker: paragraphs packed under a title header within a byte budget. */
module Chunker {
  import opened Options
  import opened Utf8

  const CHUNK_BUDGET_BYTES: nat := 900

  // ---------- Text helpers ------------------------------------------------------

  predicate IsWhitespace(c: char) {
    var n := c as int;
    9 <= n <= 13 || n == 0x20 || n == 0x85 || n == 0xA0 || n == 0x1680 || 0x2000 <= n <= 0x200A
    || n == 0x2028 || n == 0x2029 || n == 0x202F || n == 0x205F || n == 0x3000
  }

  predicate IsBlank(s: string) {
    forall i :: 0 <= i < |s| ==> IsWhitespace(s[i])
  }

  function NormalizeCrlf(s: string): string {
    if s == [] then []
    else if |s| >= 2 && s[0] == '\r' && s[1] == '\n' then ['\n'] + NormalizeCrlf(s[2..])
    else [s[0]] + NormalizeCrlf(s[1..])
  }

  /** Split at each leftmost blank-line break. */
  function SplitParagraphs(s: string): (ps: seq<string>)
    ensures ps != []
  {
    if |s| < 2 then [s]
    else if s[0] == '\n' && s[1] == '\n' then [""] + SplitParagraphs(s[2..])
    else
      var rest := SplitParagraphs(s[1..]);
      [[s[0]] + rest[0]] + rest[1..]
  }

  function Concat(ss: seq<string>): string {
    if ss == [] then "" else Concat(ss[..|ss| - 1]) + ss[|ss| - 1]
  }

  /** Paragraphs joined by a blank line. */
  function Join(ps: seq<string>): string {
    if ps == [] then "" else if |ps| == 1 then ps[0] else Join(ps[..|ps| - 1]) + "\n\n" + ps[|ps| - 1]
  }

  function NonEmpty(ps: seq<string>): seq<string> {
    if ps == [] then []
    else NonEmpty(ps[..|ps| - 1]) + if ps[|ps| - 1] == "" then [] else [ps[|ps| - 1]]
  }

  predicate IsTerminator(b: int) {
    b == '.' as int || b == '?' as int || b == '!' as int || b == '\n' as int
  }

  // ---------- Cutting an oversized paragraph ---------------------------------------

  function Room(header: string): nat {
    if Len(header) < CHUNK_BUDGET_BYTES then CHUNK_BUDGET_BYTES - Len(header) else 0
  }

  /** Just after the last sentence or line terminator, or `None`. */
  function SentenceEnd(s: string): (end: Option<nat>)
    ensures end.Some? ==> 0 < end.value <= |s| && IsTerminator(s[end.value - 1] as int)
    ensures forall i :: (if end.Some? then end.value else 0) <= i < |s| ==> !IsTerminator(s[i] as int)
  {
    if s == [] then None
    else if IsTerminator(s[|s| - 1] as int) then Some(|s|)
    else SentenceEnd(s[..|s| - 1])
  }

  /** Where a paragraph is cut, in scalars: at the last sentence end of the longest prefix that
      fits, at the end of that prefix when it has none, and after one scalar when nothing fits. */
  function CutPoint(header: string, text: string): (k: nat)
    requires text != []
    ensures 0 < k <= |text|
  {
    var fit := ScalarsIn(text, Room(header));
    if fit == 0 then 1
    else match SentenceEnd(text[..fit])
      case Some(end) => end
      case None => fit
  }

  predicate Ends(c: char) {
    c == '.' || c == '?' || c == '!' || c == '\n'
  }

  /** The cut point, read off the text: with `fit` the longest prefix that fits the room left, the cut is
      after one scalar if nothing fits, after the last sentence end in that prefix if it has one, and
      else at its end. */
  lemma CutPointMeans(header: string, text: string) returns (fit: nat)
    requires text != []
    ensures fit <= |text| && Len(text[..fit]) <= Room(header) && (fit < |text| ==> Room(header) < Len(text[..fit + 1]))
    ensures var k := CutPoint(header, text);
            && (fit == 0 ==> k == 1)
            && (fit > 0 ==> k <= fit && (forall i :: k <= i < fit ==> !Ends(text[i])))
            && (fit > 0 && (exists i :: 0 <= i < fit && Ends(text[i])) ==> Ends(text[k - 1]))
            && (fit > 0 && (forall i :: 0 <= i < fit ==> !Ends(text[i])) ==> k == fit)
  {
    fit := ScalarsIn(text, Room(header));
    ScalarsFit(text, Room(header));
    assert forall i :: 0 <= i < fit ==> text[..fit][i] == text[i];
    hide SentenceEnd, ScalarsIn, Bytes, Len;
  }

  /** `pos` is the last terminator byte before `limit`. */
  predicate LastTerminator(text: string, limit: nat, pos: Option<nat>) {
    && limit <= Len(text)
    && (pos.Some? ==> pos.value < limit && IsTerminator(Bytes(text)[pos.value]))
    && (forall p :: (if pos.Some? then pos.value + 1 else 0) <= p < limit ==> !IsTerminator(Bytes(text)[p]))
  }

  /** The byte-level search for the last terminator before `limit`. */
  method LastSentenceBoundary(text: string, limit: nat) returns (pos: Option<nat>)
    requires limit <= Len(text)
    ensures LastTerminator(text, limit, pos)
  {
    var i := limit;
    while i > 0
      invariant 0 <= i <= limit
      invariant forall p :: i <= p < limit ==> !IsTerminator(Bytes(text)[p])
    {
      i := i - 1;
      if IsTerminator(Bytes(text)[i]) {
        return Some(i);
      }
    }
    pos := None;
  }

  lemma ByteIsScalar(text: string, fit: nat, pos: Option<nat>) returns (k: nat)
    requires fit <= |text| && LastTerminator(text, Len(text[..fit]), pos) && pos.Some?
    ensures k < fit && pos.value == Len(text[..k]) && pos.value + 1 == Len(text[..k + 1])
    ensures SentenceEnd(text[..fit]).Some? && k < SentenceEnd(text[..fit]).value
  {
    hide SentenceEnd;
    k := AsciiByte(text, pos.value);
    PrefixOrder(text, k, fit);
    assert IsTerminator(text[..fit][k] as int);
  }

  lemma ScalarIsByte(text: string, fit: nat, pos: Option<nat>)
    requires fit <= |text| && LastTerminator(text, Len(text[..fit]), pos) && SentenceEnd(text[..fit]).Some?
    ensures pos.Some? && Len(text[..SentenceEnd(text[..fit]).value - 1]) <= pos.value
  {
    hide SentenceEnd;
    var last := SentenceEnd(text[..fit]).value - 1;
    assert text[..fit][last] == text[last];
    TerminatorByte(text, last);
    PrefixOrder(text, last, fit);
  }

  /** The byte just after the last terminator byte is where the last terminator scalar ends. */
  lemma SentenceEndInBytes(text: string, fit: nat, pos: Option<nat>)
    requires fit <= |text| && LastTerminator(text, Len(text[..fit]), pos)
    ensures match SentenceEnd(text[..fit])
            case Some(end) => pos.Some? && pos.value + 1 == Len(text[..end])
            case None => pos.None?
  {
    hide SentenceEnd, LastTerminator;
    if pos.Some? {
      var k := ByteIsScalar(text, fit, pos);
      ScalarIsByte(text, fit, pos);
      PrefixOrder(text, k, SentenceEnd(text[..fit]).value - 1);
    } else if SentenceEnd(text[..fit]).Some? {
      ScalarIsByte(text, fit, pos);
    }
  }

  lemma TerminatorByte(text: string, k: nat)
    requires k < |text| && text[k] as int < 0x80
    ensures Len(text[..k]) < Len(text) && Bytes(text)[Len(text[..k])] == text[k] as int
  {
    assert text == text[..k] + text[k..];
    BytesAdd(text[..k], text[k..]);
    assert Bytes(text[k..]) == Encode(text[k]) + Bytes(text[k..][1..]);
  }

  /** The largest boundary at or below the budget is the end of the longest prefix that fits. */
  lemma BoundaryBelow(text: string, room: nat, cut: nat)
    requires IsCharBoundary(text, cut) && Len(text[..ScalarsIn(text, room)]) <= cut <= room
    ensures cut == Len(text[..ScalarsIn(text, room)])
  {
    var fit, k := ScalarsIn(text, room), ScalarsIn(text, cut);
    BoundaryIsPrefix(text, cut);
    ScalarsFit(text, room);
    if fit < k {
      if fit + 1 < k {
        PrefixMonotone(text, fit + 1, k);
      }
    } else if k < fit {
      PrefixMonotone(text, k, fit);
    }
  }

  method SplitParagraphFragment(header: string, text: string) returns (head: string, rest: string)
    requires text != []
    ensures head == text[..CutPoint(header, text)] && rest == text[CutPoint(header, text)..]
  {
    var avail := if CHUNK_BUDGET_BYTES < Len(header) then 0 else CHUNK_BUDGET_BYTES - Len(header);
    if avail == 0 {
      return text[..1], text[1..];
    }
    ghost var fit := ScalarsIn(text, avail);
    ScalarsFit(text, avail);
    LenSplit(text, fit);
    var cut := if avail < Len(text) then avail else Len(text);
    while cut > 0 && !IsCharBoundary(text, cut)
      invariant Len(text[..fit]) <= cut <= avail && cut <= Len(text)
    {
      BoundaryIsPrefix(text, Len(text[..fit]));
      FitIsBoundary(text, fit);
      cut := cut - 1;
    }
    BoundaryBelow(text, avail, cut);
    PrefixOrder(text, 0, fit);
    if cut == 0 {
      return text[..1], text[1..];
    }
    var pos := LastSentenceBoundary(text, cut);
    SentenceEndInBytes(text, fit, pos);
    if pos.Some? {
      cut := pos.value + 1;
    }
    assert fit > 0;
    ghost var k := CutPoint(header, text);
    PrefixScalars(text, k);
    head, rest := text[..ScalarsIn(text, cut)], text[ScalarsIn(text, cut)..];
  }

  /** A cut piece fits the budget, unless it is a single scalar under a header that leaves fewer
      than four bytes of room. */
  lemma CutFits(header: string, text: string)
    requires text != [] && Len(header) <= CHUNK_BUDGET_BYTES
    ensures var size := Len(header + text[..CutPoint(header, text)]);
            && (Room(header) >= 4 ==> size <= CHUNK_BUDGET_BYTES)
            && size <= CHUNK_BUDGET_BYTES + 4
  {
    var k, fit := CutPoint(header, text), ScalarsIn(text, Room(header));
    BytesAdd(header, text[..k]);
    ScalarsFit(text, Room(header));
    PrefixStep(text, 0);
    assert text[..0] == [];
    if fit > 0 && k < fit {
      PrefixMonotone(text, k, fit);
    }
  }
}
