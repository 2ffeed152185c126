/** Case-fold literal search: matches found in folded text, reported as raw byte spans. The fold of
    one scalar is any function from a scalar to a string. */
module Fold {
  import opened Options
  import opened Utf8

  type CaseFold = char -> string

  datatype Span = Span(start: nat, end: nat)

  datatype FoldChar = FoldChar(foldedStart: nat, foldedEnd: nat, sourceStart: nat, sourceEnd: nat)

  datatype FoldedSource = FoldedSource(text: string, chars: seq<FoldChar>)

  function FoldPlain(f: CaseFold, s: string): string {
    if s == [] then [] else FoldPlain(f, s[..|s| - 1]) + f(s[|s| - 1])
  }

  // ---------- Where folded characters come from -----------------------------------------

  /** For each folded character, the index of the source scalar that produced it. */
  function Origins(f: CaseFold, s: string): (o: seq<nat>)
    ensures |o| == |FoldPlain(f, s)|
    ensures forall j :: 0 <= j < |o| ==> o[j] < |s|
  {
    if s == [] then []
    else Origins(f, s[..|s| - 1]) + seq(|f(s[|s| - 1])|, i => |s| - 1)
  }

  lemma {:induction false} FoldAdd(f: CaseFold, a: string, b: string)
    ensures FoldPlain(f, a + b) == FoldPlain(f, a) + FoldPlain(f, b)
  {
    if b == [] {
      assert a + b == a;
    } else {
      FoldAdd(f, a, b[..|b| - 1]);
      assert (a + b)[..|a + b| - 1] == a + b[..|b| - 1];
    }
  }

  lemma FoldGrows(f: CaseFold, s: string, j: nat, k: nat)
    requires j <= k <= |s|
    ensures |FoldPlain(f, s[..j])| <= |FoldPlain(f, s[..k])| <= |FoldPlain(f, s)|
  {
    assert s[..k] == s[..j] + s[j..k] && s == s[..k] + s[k..];
    FoldAdd(f, s[..j], s[j..k]);
    FoldAdd(f, s[..k], s[k..]);
  }

  /** Character `j` was folded out of scalar `Origins[j]`: it lies in that scalar's part. */
  lemma {:induction false} OriginIsOwner(f: CaseFold, s: string, j: nat)
    requires j < |FoldPlain(f, s)|
    ensures var o := Origins(f, s)[j];
            |FoldPlain(f, s[..o])| <= j < |FoldPlain(f, s[..o + 1])|
  {
    var front := s[..|s| - 1];
    if j < |FoldPlain(f, front)| {
      OriginIsOwner(f, front, j);
      var o := Origins(f, front)[j];
      assert front[..o] == s[..o] && front[..o + 1] == s[..o + 1];
    } else {
      assert s[..|s|] == s;
    }
  }

  /** Record `j` of the fold: its own bytes, and the bytes of the scalar it came from. */
  ghost predicate Recorded(f: CaseFold, s: string, src: FoldedSource) {
    && src.text == FoldPlain(f, s)
    && |src.chars| == |src.text|
    && forall j :: 0 <= j < |src.chars| ==> RecordAt(src, s, j, Origins(f, s)[j])
  }

  ghost predicate RecordAt(src: FoldedSource, s: string, j: nat, o: nat)
    requires j < |src.chars| == |src.text| && o < |s|
  {
    src.chars[j] == FoldChar(Len(src.text[..j]), Len(src.text[..j + 1]), Len(s[..o]), Len(s[..o + 1]))
  }

  lemma RecordsKeep(src: FoldedSource, s: string, more: FoldedSource, t: string, j: nat, o: nat)
    requires j < |src.chars| == |src.text| && o < |s| && RecordAt(src, s, j, o)
    requires src.text <= more.text && src.chars <= more.chars && |more.text| == |more.chars| && s <= t
    ensures RecordAt(more, t, j, o)
  {
    hide Len;
    assert more.text[..j] == src.text[..j] && more.text[..j + 1] == src.text[..j + 1];
    assert t[..o] == s[..o] && t[..o + 1] == s[..o + 1];
  }

  method FoldScalar(f: CaseFold, s: string, k: nat, byteOff: nat, src: FoldedSource) returns (more: FoldedSource)
    requires k < |s| && byteOff == Len(s[..k]) && Recorded(f, s[..k], src)
    ensures Recorded(f, s[..k + 1], more)
  {
    hide Len, Encode;
    var c, t := s[k], s[..k + 1];
    assert t[..|t| - 1] == s[..k] && t[..k + 1] == t;
    PrefixStep(s, k);
    var end := byteOff + |Encode(c)|;
    more := src;
    for i := 0 to |f(c)|
      invariant |more.text| == |more.chars| == |src.text| + i
      invariant more.text == src.text + f(c)[..i] && src.chars <= more.chars
      invariant forall j :: |src.text| <= j < |more.text| ==> RecordAt(more, t, j, k)
    {
      var fc := f(c)[i];
      ghost var was := more;
      PushRecord(was, FoldChar(Len(more.text), Len(more.text + [fc]), byteOff, end), fc, t, k, |src.text|);
      more := FoldedSource(more.text + [fc],
        more.chars + [FoldChar(Len(more.text), Len(more.text + [fc]), byteOff, end)]);
      assert f(c)[..i + 1] == f(c)[..i] + [fc];
    }
    assert f(c)[..|f(c)|] == f(c);
    forall j | 0 <= j < |more.chars|
      ensures RecordAt(more, t, j, Origins(f, t)[j])
    {
      if j < |src.text| {
        RecordsKeep(src, s[..k], more, t, j, Origins(f, s[..k])[j]);
      }
    }
  }

  lemma PushRecord(src: FoldedSource, r: FoldChar, fc: char, t: string, k: nat, from: nat)
    requires k < |t| && |src.text| == |src.chars|
    requires forall j :: from <= j < |src.text| ==> RecordAt(src, t, j, k)
    requires r == FoldChar(Len(src.text), Len(src.text + [fc]), Len(t[..k]), Len(t[..k + 1]))
    ensures var more := FoldedSource(src.text + [fc], src.chars + [r]);
            forall j :: from <= j < |more.text| ==> RecordAt(more, t, j, k)
  {
    hide Len;
    var more := FoldedSource(src.text + [fc], src.chars + [r]);
    forall j | from <= j < |more.text|
      ensures RecordAt(more, t, j, k)
    {
      if j < |src.text| {
        RecordsKeep(src, t, more, t, j, k);
      } else {
        assert more.text[..j] == src.text && more.text[..j + 1] == more.text;
      }
    }
  }

  /** Fold a text, recording for every folded character the bytes it came from. */
  method FoldSource(f: CaseFold, s: string) returns (src: FoldedSource)
    ensures Recorded(f, s, src)
  {
    hide Recorded, Encode;
    src := FoldedSource("", []);
    FoldStarts(f);
    var byteOff := 0;
    for k := 0 to |s|
      invariant byteOff == Len(s[..k]) && Recorded(f, s[..k], src)
    {
      PrefixStep(s, k);
      src := FoldScalar(f, s, k, byteOff, src);
      byteOff := byteOff + |Encode(s[k])|;
    }
    assert s[..|s|] == s;
  }

  lemma RecordedText(f: CaseFold, s: string, src: FoldedSource)
    requires Recorded(f, s, src)
    ensures src.text == FoldPlain(f, s)
  {
  }

  lemma FoldStarts(f: CaseFold)
    ensures Recorded(f, "", FoldedSource("", []))
  {
  }

  // ---------- Finding a folded needle ------------------------------------------------------

  predicate Occurs(hay: string, needle: string, j: nat) {
    j + |needle| <= |hay| && hay[j..j + |needle|] == needle
  }

  /** All places the needle occurs at or after `from`, overlapping ones included, in order. */
  function Occurrences(hay: string, needle: string, from: nat): (places: seq<nat>)
    ensures forall j :: j in places <==> from <= j && Occurs(hay, needle, j)
    ensures forall a, b :: 0 <= a < b < |places| ==> places[a] < places[b]
    decreases |hay| - from
  {
    if from + |needle| > |hay| then []
    else if |needle| == 0 && from == |hay| then [from]
    else
      var rest := Occurrences(hay, needle, from + 1);
      assert forall b :: 0 <= b < |rest| ==> rest[b] in rest;
      if Occurs(hay, needle, from) then [from] + rest else rest
  }

  lemma {:induction false} SkipTo(hay: string, needle: string, from: nat, to: nat)
    requires from <= to <= |hay| && needle != ""
    requires forall j :: from <= j < to ==> !Occurs(hay, needle, j)
    ensures Occurrences(hay, needle, from) == Occurrences(hay, needle, to)
    decreases |hay| - from
  {
    if from < to {
      SkipTo(hay, needle, from + 1, to);
    }
  }

  predicate OccursInBytes(hay: seq<int>, needle: seq<int>, p: nat) {
    p + |needle| <= |hay| && hay[p..p + |needle|] == needle
  }

  /** `str::find`: the first byte offset where the needle's bytes occur. */
  function Find(hay: seq<int>, needle: seq<int>, from: nat): (p: Option<nat>)
    requires from <= |hay|
    ensures p.Some? ==> from <= p.value && OccursInBytes(hay, needle, p.value)
    ensures forall q :: from <= q < (if p.Some? then p.value else |hay| + 1) ==> !OccursInBytes(hay, needle, q)
    decreases |hay| - from
  {
    if OccursInBytes(hay, needle, from) then Some(from)
    else if from == |hay| then None
    else Find(hay, needle, from + 1)
  }

  /** UTF-8 is prefix free, so bytes that begin alike decode to text that begins alike. */
  lemma {:induction false} PrefixDecodes(a: string, b: string)
    ensures Bytes(a) <= Bytes(b) <==> a <= b
  {
    if a != [] {
      if b != [] {
        PrefixDecodes(a[1..], b[1..]);
        if Bytes(a) <= Bytes(b) {
          FirstScalar(a, b);
          assert Bytes(b)[|Encode(b[0])|..] == Bytes(b[1..]);
          assert Bytes(a)[|Encode(a[0])|..] == Bytes(a[1..]);
        }
        if a <= b {
          assert a[1..] <= b[1..];
        }
      }
    }
  }

  lemma FirstScalar(a: string, b: string)
    requires a != [] && b != [] && Bytes(a) <= Bytes(b)
    ensures a[0] == b[0]
  {
    hide Encode, Decode;
    var x, y := Encode(a[0]), Encode(b[0]);
    assert Bytes(a)[0] == x[0] && Bytes(b)[0] == y[0];
    LeadByte(a[0], b[0]);
    assert forall i :: 0 <= i < |x| ==> Bytes(a)[i] == x[i] && Bytes(b)[i] == y[i];
    assert x == y;
    DecodeEncode(a[0]);
    DecodeEncode(b[0]);
  }

  lemma LeadByte(c: char, d: char)
    requires Encode(c)[0] == Encode(d)[0]
    ensures |Encode(c)| == |Encode(d)|
  {
  }

  /** A match of whole scalars at a scalar boundary is a match of the bytes there. */
  lemma OccursAtBoundary(hay: string, needle: string, j: nat)
    requires j <= |hay|
    ensures Occurs(hay, needle, j) <==> OccursInBytes(Bytes(hay), Bytes(needle), Len(hay[..j]))
  {
    var tail := hay[j..];
    assert hay == hay[..j] + tail;
    BytesAdd(hay[..j], tail);
    var p := Len(hay[..j]);
    PrefixDecodes(needle, tail);
    assert needle <= tail <==> Occurs(hay, needle, j);
    assert Bytes(hay)[p..] == Bytes(tail);
    assert OccursInBytes(Bytes(hay), Bytes(needle), p) <==> Bytes(needle) <= Bytes(tail) by {
      if OccursInBytes(Bytes(hay), Bytes(needle), p) {
        assert Bytes(hay)[p..][..Len(needle)] == Bytes(needle);
      }
      if Bytes(needle) <= Bytes(tail) {
        assert Bytes(hay)[p..p + Len(needle)] == Bytes(tail)[..Len(needle)];
      }
    }
  }

  /** UTF-8 is self-synchronising, so the bytes of a needle only occur at a boundary. */
  lemma BytesMatchAtBoundary(hay: string, needle: string, p: nat)
    requires needle != "" && OccursInBytes(Bytes(hay), Bytes(needle), p)
    ensures ScalarsIn(hay, p) < |hay| && p == Len(hay[..ScalarsIn(hay, p)]) && Occurs(hay, needle, ScalarsIn(hay, p))
  {
    var j := ScalarsIn(hay, p);
    assert Bytes(needle)[0] == Encode(needle[0])[0];
    assert Bytes(hay)[p..p + Len(needle)][0] == Bytes(hay)[p];
    BoundaryIsPrefix(hay, p);
    OccursAtBoundary(hay, needle, j);
  }

  // ---------- Back to raw bytes ---------------------------------------------------------------

  /** The first record that ends after `mstart`. */
  function FirstEndingAfter(chars: seq<FoldChar>, mstart: nat, from: nat): (i: Option<nat>)
    requires from <= |chars|
    ensures i.Some? ==> from <= i.value < |chars| && chars[i.value].foldedEnd > mstart
    ensures forall j :: from <= j < (if i.Some? then i.value else |chars|) ==> chars[j].foldedEnd <= mstart
    decreases |chars| - from
  {
    if from == |chars| then None
    else if chars[from].foldedEnd > mstart then Some(from)
    else FirstEndingAfter(chars, mstart, from + 1)
  }

  /** The last record that starts before `mend`. */
  function LastStartingBefore(chars: seq<FoldChar>, mend: nat): (i: Option<nat>)
    ensures i.Some? ==> i.value < |chars| && chars[i.value].foldedStart < mend
    ensures forall j :: (if i.Some? then i.value + 1 else 0) <= j < |chars| ==> chars[j].foldedStart >= mend
  {
    if chars == [] then None
    else if chars[|chars| - 1].foldedStart < mend then Some(|chars| - 1)
    else LastStartingBefore(chars[..|chars| - 1], mend)
  }

  function MapToRaw(chars: seq<FoldChar>, mstart: nat, mend: nat): Option<Span> {
    match FirstEndingAfter(chars, mstart, 0)
    case None => None
    case Some(first) =>
      var last := match LastStartingBefore(chars, mend) { case Some(l) => l case None => first };
      Some(Span(chars[first].sourceStart, chars[last].sourceEnd))
  }

  /** The raw bytes of the scalars that folded characters `j .. j + n` came from. */
  function Cover(f: CaseFold, s: string, j: nat, n: nat): Span
    requires 0 < n && j + n <= |FoldPlain(f, s)|
  {
    var lo, hi := Origins(f, s)[j], Origins(f, s)[j + n - 1] + 1;
    Span(Len(s[..lo]), Len(s[..hi]))
  }

  lemma MapsToCover(f: CaseFold, s: string, src: FoldedSource, j: nat, n: nat)
    requires Recorded(f, s, src) && 0 < n && j + n <= |src.text|
    ensures MapToRaw(src.chars, Len(src.text[..j]), Len(src.text[..j + n])) == Some(Cover(f, s, j, n))
  {
    hide Origins, Len, FoldPlain;
    var t := src.text;
    forall i | 0 <= i < |t|
      ensures src.chars[i].foldedEnd > Len(t[..j]) <==> i >= j
      ensures src.chars[i].foldedStart < Len(t[..j + n]) <==> i < j + n
    {
      assert RecordAt(src, s, i, Origins(f, s)[i]);
      PrefixOrder(t, j, i + 1);
      PrefixOrder(t, i, j + n);
    }
    assert src.chars[j].foldedEnd > Len(t[..j]) && src.chars[j + n - 1].foldedStart < Len(t[..j + n]);
    var first, last := FirstEndingAfter(src.chars, Len(t[..j]), 0), LastStartingBefore(src.chars, Len(t[..j + n]));
    assert first.Some? && src.chars[first.value].foldedEnd > Len(t[..j]);
    assert last.Some? && src.chars[last.value].foldedStart < Len(t[..j + n]);
    assert RecordAt(src, s, j, Origins(f, s)[j]);
    assert RecordAt(src, s, j + n - 1, Origins(f, s)[j + n - 1]);
  }

  /** The scalars of the cover fold to text that contains the match. */
  lemma CoverContainsMatch(f: CaseFold, s: string, needle: string, j: nat)
    requires needle != "" && Occurs(FoldPlain(f, s), needle, j)
    ensures var lo, hi := Origins(f, s)[j], Origins(f, s)[j + |needle| - 1] + 1;
            && lo < hi && |FoldPlain(f, s[..lo])| <= j
            && Occurs(FoldPlain(f, s[lo..hi]), needle, j - |FoldPlain(f, s[..lo])|)
  {
    hide FoldPlain, Origins;
    var n := |needle|;
    var lo, hi := Origins(f, s)[j], Origins(f, s)[j + n - 1] + 1;
    OriginIsOwner(f, s, j);
    OriginIsOwner(f, s, j + n - 1);
    if hi <= lo {
      FoldGrows(f, s, hi, lo);
    }
    assert s[..hi] == s[..lo] + s[lo..hi] && s == s[..hi] + s[hi..];
    FoldAdd(f, s[..lo], s[lo..hi]);
    FoldAdd(f, s[..hi], s[hi..]);
    var at := j - |FoldPlain(f, s[..lo])|;
    assert FoldPlain(f, s[lo..hi])[at..at + n] == FoldPlain(f, s)[j..j + n];
  }

  /** Any range of whole scalars whose fold covers the match covers the reported span. */
  lemma CoverIsSmallest(f: CaseFold, s: string, j: nat, n: nat, lo: nat, hi: nat)
    requires 0 < n && j + n <= |FoldPlain(f, s)| && lo <= hi <= |s|
    requires |FoldPlain(f, s[..lo])| <= j && j + n <= |FoldPlain(f, s[..hi])|
    ensures var span := Cover(f, s, j, n);
            Len(s[..lo]) <= span.start < span.end <= Len(s[..hi])
  {
    hide Len, FoldPlain, Origins;
    var a, b := Origins(f, s)[j], Origins(f, s)[j + n - 1];
    OriginIsOwner(f, s, j);
    OriginIsOwner(f, s, j + n - 1);
    if a < lo {
      FoldGrows(f, s, a + 1, lo);
    }
    if b + 1 > hi {
      FoldGrows(f, s, hi, b);
    }
    if b < a {
      FoldGrows(f, s, b + 1, a);
    }
    PrefixOrder(s, a, lo);
    PrefixOrder(s, hi, b + 1);
    PrefixOrder(s, a, b + 1);
  }

  function Covers(f: CaseFold, s: string, n: nat, places: seq<nat>): seq<Span>
    requires 0 < n && forall i :: 0 <= i < |places| ==> places[i] + n <= |FoldPlain(f, s)|
  {
    seq(|places|, i requires 0 <= i < |places| => Cover(f, s, places[i], n))
  }

  /** The spans of a search: one per occurrence of the folded needle in the folded text. */
  function Spans(f: CaseFold, s: string, needle: string, from: nat): seq<Span>
    requires needle != ""
  {
    var places := Occurrences(FoldPlain(f, s), needle, from);
    assert forall i :: 0 <= i < |places| ==> places[i] in places;
    Covers(f, s, |needle|, places)
  }

  /** A search that finds nothing from scalar `k` on has nothing left to report. */
  lemma NoMatch(f: CaseFold, s: string, needle: string, k: nat)
    requires needle != "" && k <= |FoldPlain(f, s)|
    requires Find(Bytes(FoldPlain(f, s)[k..]), Bytes(needle), 0) == None
    ensures Spans(f, s, needle, k) == []
  {
    hide Len, Bytes, FoldPlain, Occurrences;
    var hay := FoldPlain(f, s);
    assert hay[k..][..|hay| - k] == hay[k..];
    AllBytes(hay[k..]);
    NoneBefore(hay, needle, k, |hay|, |Bytes(hay[k..])|);
    SkipTo(hay, needle, k, |hay|);
    Unfold(hay, needle, |hay|);
  }

  lemma AllBytes(s: string)
    ensures Len(s) == |Bytes(s)|
  {
  }

  /** The byte search from scalar `k` on stops at the first scalar where the needle occurs. */
  lemma MatchPlace(hay: string, needle: string, k: nat, p: nat)
    requires needle != "" && k <= |hay| && Find(Bytes(hay[k..]), Bytes(needle), 0) == Some(p)
    ensures var j := k + ScalarsIn(hay[k..], p);
            && j < |hay| && Occurs(hay, needle, j) && Len(hay[..j]) == Len(hay[..k]) + p
            && forall i :: k <= i < j ==> !Occurs(hay, needle, i)
  {
    hide Len, Bytes, ScalarsIn;
    var tail := hay[k..];
    BytesMatchAtBoundary(tail, needle, p);
    var j := k + ScalarsIn(tail, p);
    NoneBefore(hay, needle, k, j, p);
    OccursShift(hay, needle, k, j);
    assert hay[..j] == hay[..k] + tail[..j - k];
    BytesAdd(hay[..k], tail[..j - k]);
  }

  /** What is left to report from scalar `k` on starts with the cover of the next match. */
  lemma SpansNext(f: CaseFold, s: string, needle: string, k: nat, j: nat)
    requires needle != "" && k <= j && Occurs(FoldPlain(f, s), needle, j)
    requires forall i :: k <= i < j ==> !Occurs(FoldPlain(f, s), needle, i)
    ensures Spans(f, s, needle, k) == [Cover(f, s, j, |needle|)] + Spans(f, s, needle, j + 1)
  {
    hide FoldPlain, Cover, Occurrences;
    SkipTo(FoldPlain(f, s), needle, k, j);
    Unfold(FoldPlain(f, s), needle, j);
  }

  lemma OccursShift(hay: string, needle: string, k: nat, j: nat)
    requires k <= j <= |hay|
    ensures Occurs(hay[k..], needle, j - k) <==> Occurs(hay, needle, j)
  {
    if j + |needle| <= |hay| {
      assert hay[k..][j - k..j - k + |needle|] == hay[j..j + |needle|];
    }
  }

  lemma Unfold(hay: string, needle: string, j: nat)
    requires needle != "" && j <= |hay|
    ensures Occurs(hay, needle, j) ==> Occurrences(hay, needle, j) == [j] + Occurrences(hay, needle, j + 1)
    ensures j == |hay| ==> Occurrences(hay, needle, j) == []
  {
  }

  lemma NoneBefore(hay: string, needle: string, k: nat, j: nat, p: nat)
    requires k <= j <= |hay| && Len(hay[k..][..j - k]) <= p
    requires forall q :: 0 <= q < p ==> !OccursInBytes(Bytes(hay[k..]), Bytes(needle), q)
    ensures forall i :: k <= i < j ==> !Occurs(hay, needle, i)
  {
    hide Len, Bytes;
    var tail := hay[k..];
    forall i | k <= i < j
      ensures !Occurs(hay, needle, i)
    {
      OccursShift(hay, needle, k, i);
      OccursAtBoundary(tail, needle, i - k);
      PrefixOrder(tail, i - k, j - k);
    }
  }

  method FindLiteralSpans(f: CaseFold, text: string, needle: string) returns (out: seq<Span>)
    ensures needle == "" || FoldPlain(f, needle) == "" ==> out == []
    ensures FoldPlain(f, needle) != "" ==> out == Spans(f, text, FoldPlain(f, needle), 0)
  {
    hide Bytes, Len, Spans, Cover, Recorded, ScalarsIn, Find, MapToRaw, Occurs, Encode, FoldPlain;
    if needle == "" {
      FoldEmpty(f);
      return [];
    }
    var src := FoldSource(f, text);
    RecordedText(f, text, src);
    var folded := FoldPlain(f, needle);
    if folded == "" {
      return [];
    }
    out := [];
    var searchFrom := 0;
    ghost var k := 0;
    OffsetZero(src.text);
    while true
      invariant k <= |src.text| && searchFrom == Len(src.text[..k])
      invariant out + Spans(f, text, folded, k) == Spans(f, text, folded, 0)
      decreases |src.text| - k
    {
      PrefixScalars(src.text, k);
      var tail := src.text[ScalarsIn(src.text, searchFrom)..];
      var pos := Find(Bytes(tail), Bytes(folded), 0);
      if pos.None? {
        NoMatch(f, text, folded, k);
        break;
      }
      var mstart := searchFrom + pos.value;
      var mend := mstart + Len(folded);
      ghost var j := k + ScalarsIn(tail, pos.value);
      MatchPlace(src.text, folded, k, pos.value);
      SpansNext(f, text, folded, k, j);
      MatchEnd(src.text, folded, j);
      MapsToCover(f, text, src, j, |folded|);
      var span := MapToRaw(src.chars, mstart, mend);
      if span.Some? {
        out := out + [span.value];
      }
      PrefixScalars(src.text, j);
      var c := src.text[ScalarsIn(src.text, mstart)..][0];
      PrefixStep(src.text, j);
      searchFrom := mstart + |Encode(c)|;
      k := j + 1;
    }
  }

  lemma FoldEmpty(f: CaseFold)
    ensures FoldPlain(f, "") == ""
  {
  }

  lemma OffsetZero(s: string)
    ensures Len(s[..0]) == 0
  {
  }

  lemma MatchEnd(hay: string, needle: string, j: nat)
    requires Occurs(hay, needle, j)
    ensures j + |needle| <= |hay| && Len(hay[..j + |needle|]) == Len(hay[..j]) + Len(needle)
  {
    assert hay[..j + |needle|] == hay[..j] + needle;
    BytesAdd(hay[..j], needle);
  }

  // ---------- Excerpts ------------------------------------------------------------------------------

  /** A window of whole scalars around a span: half the limit on either side, as far as there is text,
      widened by at most three bytes to whole scalars, and marked exactly where text was cut off. */
  ghost predicate IsExcerpt(raw: string, span: Span, limit: nat, out: string) {
    exists lo, hi :: 0 <= lo <= hi <= |raw| && Window(raw, span, limit, out, lo, hi)
  }

  predicate Window(raw: string, span: Span, limit: nat, out: string, lo: nat, hi: nat)
    requires lo <= hi <= |raw|
  {
    && out == (if lo > 0 then "\U{2026}" else "") + raw[lo..hi] + (if hi < |raw| then "\U{2026}" else "")
    && Len(raw[..lo]) <= span.start && span.end <= Len(raw[..hi])
    && (lo > 0 ==> Len(raw[..lo]) <= span.start - limit / 2 <= Len(raw[..lo]) + 3)
    && (lo == 0 ==> span.start - limit / 2 <= 3)
    && (hi < |raw| ==> span.end + limit / 2 <= Len(raw[..hi]) <= span.end + limit / 2 + 3)
    && (hi == |raw| ==> Len(raw) <= span.end + limit / 2 + 3)
  }

  method Excerpt(raw: string, span: Span, limit: nat) returns (out: string)
    requires span.start <= span.end <= Len(raw)
    ensures IsExcerpt(raw, span, limit, out)
  {
    hide Bytes, Len, IsCharBoundary, ScalarsIn;
    var start := if span.start < limit / 2 then 0 else span.start - limit / 2;
    var end := if span.end + limit / 2 < Len(raw) then span.end + limit / 2 else Len(raw);
    ghost var lo := ScalarsIn(raw, start);
    ScalarsFit(raw, start);
    PrefixScalars(raw, lo);
    BoundaryIsPrefix(raw, Len(raw[..lo]));
    var s := start;
    while s > 0 && !IsCharBoundary(raw, s)
      invariant Len(raw[..lo]) <= s <= start
    {
      s := s - 1;
    }
    assert raw[..|raw|] == raw;
    BoundaryFloor(raw, start, s);
    ghost var hi := CeilingScalar(raw, end);
    PrefixOrder(raw, |raw|, hi);
    var e := end;
    while e < Len(raw) && !IsCharBoundary(raw, e)
      invariant end <= e <= Len(raw[..hi])
    {
      PrefixScalars(raw, hi);
      BoundaryIsPrefix(raw, Len(raw[..hi]));
      e := e + 1;
    }
    BoundaryCeiling(raw, end, e, hi);
    PrefixOrder(raw, lo, hi);
    PrefixOrder(raw, hi, lo);
    PrefixOrder(raw, hi, |raw|);
    PrefixScalars(raw, hi);
    OffsetZero(raw);
    PrefixOrder(raw, 0, lo);
    out := if s > 0 then "\U{2026}" else "";
    out := out + raw[ScalarsIn(raw, s)..ScalarsIn(raw, e)];
    if e < Len(raw) {
      out := out + "\U{2026}";
    }
    assert Window(raw, span, limit, out, lo, hi);
  }

  lemma BoundaryFloor(raw: string, start: nat, s: nat)
    requires s <= start <= Len(raw) && (s == 0 || IsCharBoundary(raw, s)) && Len(raw[..ScalarsIn(raw, start)]) <= s
    ensures s == Len(raw[..ScalarsIn(raw, start)]) && start <= s + 3
  {
    hide Len, ScalarsIn, Bytes;
    var lo, k := ScalarsIn(raw, start), ScalarsIn(raw, s);
    BoundaryIsPrefix(raw, s);
    ScalarsFit(raw, start);
    OffsetZero(raw);
    assert IsCharBoundary(raw, s);
    PrefixOrder(raw, k, lo);
    if lo < |raw| {
      PrefixOrder(raw, k, lo + 1);
      PrefixStep(raw, lo);
    } else {
      assert raw[..lo] == raw;
    }
  }

  lemma CeilingScalar(raw: string, end: nat) returns (hi: nat)
    requires end <= Len(raw)
    ensures hi <= |raw| && end <= Len(raw[..hi]) <= end + 3
    ensures hi > 0 ==> Len(raw[..hi - 1]) < end
  {
    hide Len, ScalarsIn, Bytes;
    var k := ScalarsIn(raw, end);
    ScalarsFit(raw, end);
    assert raw[..|raw|] == raw;
    if Len(raw[..k]) == end {
      hi := k;
      if k > 0 {
        PrefixOrder(raw, k - 1, k);
      }
    } else {
      PrefixOrder(raw, k, |raw|);
      hi := k + 1;
      PrefixStep(raw, k);
    }
  }

  lemma BoundaryCeiling(raw: string, end: nat, e: nat, hi: nat)
    requires hi <= |raw| && end <= e <= Len(raw[..hi]) && (hi > 0 ==> Len(raw[..hi - 1]) < end)
    requires e == Len(raw) || IsCharBoundary(raw, e)
    ensures e == Len(raw[..hi])
  {
    hide Len, ScalarsIn, Bytes;
    var k := ScalarsIn(raw, e);
    assert IsCharBoundary(raw, e);
    BoundaryIsPrefix(raw, e);
    PrefixOrder(raw, hi, k);
    PrefixOrder(raw, k, hi);
    OffsetZero(raw);
    if hi > 0 {
      PrefixOrder(raw, hi - 1, k);
    }
  }
}
