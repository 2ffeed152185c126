/** The full-text match expression of a query, and a reader of such expressions. */
module MatchExpr {
  import opened Options
  import opened Chunker

  // ---------- Whitespace terms --------------------------------------------------------

  function SplitWhitespace(s: string): (parts: seq<string>)
    ensures parts != []
  {
    if s == [] then [""]
    else Push(SplitWhitespace(s[..|s| - 1]), s[|s| - 1])
  }

  /** One more scalar starts a new part or extends the last one. */
  function Push(parts: seq<string>, c: char): (r: seq<string>)
    requires parts != []
    ensures r != []
  {
    if IsWhitespace(c) then parts + [""] else parts[..|parts| - 1] + [parts[|parts| - 1] + [c]]
  }

  lemma PushRight(a: seq<string>, b: seq<string>, c: char)
    requires b != []
    ensures Push(a + b, c) == a + Push(b, c)
  {
  }

  function Terms(query: string): seq<string> {
    NonEmpty(SplitWhitespace(query))
  }

  predicate Word(s: string) {
    s != "" && forall i :: 0 <= i < |s| ==> !IsWhitespace(s[i])
  }

  lemma {:induction false} NonEmptyAdd(a: seq<string>, b: seq<string>)
    ensures NonEmpty(a + b) == NonEmpty(a) + NonEmpty(b)
  {
    if b == [] {
      assert a + b == a;
    } else {
      NonEmptyAdd(a, b[..|b| - 1]);
      assert (a + b)[..|a + b| - 1] == a + b[..|b| - 1];
    }
  }

  lemma SplitSnoc(s: string, c: char)
    ensures SplitWhitespace(s + [c]) == Push(SplitWhitespace(s), c)
  {
    assert (s + [c])[..|s + [c]| - 1] == s;
  }

  lemma {:induction false} SplitAtSpace(a: string, w: char, b: string)
    requires IsWhitespace(w)
    ensures SplitWhitespace(a + [w] + b) == SplitWhitespace(a) + SplitWhitespace(b)
  {
    if b == [] {
      SplitSnoc(a, w);
      assert a + [w] + b == a + [w];
    } else {
      SplitAtSpace(a, w, b[..|b| - 1]);
      SplitAfterSpace(a, w, b[..|b| - 1], b[|b| - 1]);
      assert b == b[..|b| - 1] + [b[|b| - 1]];
    }
  }

  lemma SplitAfterSpace(a: string, w: char, front: string, c: char)
    requires SplitWhitespace(a + [w] + front) == SplitWhitespace(a) + SplitWhitespace(front)
    ensures SplitWhitespace(a + [w] + (front + [c])) == SplitWhitespace(a) + SplitWhitespace(front + [c])
  {
    hide SplitWhitespace, Push;
    SplitSnoc(a + [w] + front, c);
    SplitSnoc(front, c);
    PushRight(SplitWhitespace(a), SplitWhitespace(front), c);
    assert a + [w] + (front + [c]) == a + [w] + front + [c];
  }

  lemma {:induction false} SplitWord(s: string)
    requires Word(s) || s == ""
    ensures SplitWhitespace(s) == [s]
  {
    if s != "" {
      var front, c := s[..|s| - 1], s[|s| - 1];
      SplitWord(front);
      assert !IsWhitespace(c) && s == front + [c];
    }
  }

  /** A whitespace scalar separates terms and belongs to none. */
  lemma TermsSplit(a: string, w: char, b: string)
    requires IsWhitespace(w)
    ensures Terms(a + [w] + b) == Terms(a) + Terms(b)
  {
    SplitAtSpace(a, w, b);
    NonEmptyAdd(SplitWhitespace(a), SplitWhitespace(b));
  }

  /** Text without whitespace is one term; with `TermsSplit` this fixes the terms of any query. */
  lemma TermsOfWord(s: string)
    requires Word(s)
    ensures Terms(s) == [s] && Terms("") == []
  {
    SplitWord(s);
    SplitWord("");
    assert NonEmpty([s]) == NonEmpty([]) + [s] by { assert [s][..0] == []; }
    assert NonEmpty([""]) == NonEmpty([]) by { assert [""][..0] == []; }
  }

  // ---------- The expression ----------------------------------------------------------------

  function Doubled(t: string): string {
    if t == "" then "" else (if t[0] == '"' then "\"\"" else [t[0]]) + Doubled(t[1..])
  }

  function Quoted(t: string): string {
    "\"" + Doubled(t) + "\""
  }

  function JoinOr(ts: seq<string>): string {
    if ts == [] then "" else if |ts| == 1 then Quoted(ts[0]) else Quoted(ts[0]) + " OR " + JoinOr(ts[1..])
  }

  function BuildMatchExpr(query: string): string {
    JoinOr(Terms(query))
  }

  // ---------- The reader ------------------------------------------------------------------------

  /** Read up to the closing quote of a string whose inner quotes are doubled. */
  function ReadString(s: string): (r: Option<(string, string)>)
    ensures r.Some? ==> |r.value.1| < |s|
  {
    if s == "" then None
    else if s[0] != '"' then Extend(s[0], ReadString(s[1..]))
    else if |s| >= 2 && s[1] == '"' then Extend('"', ReadString(s[2..]))
    else Some(("", s[1..]))
  }

  function Extend(c: char, r: Option<(string, string)>): Option<(string, string)> {
    match r
    case None => None
    case Some(p) => Some(([c] + p.0, p.1))
  }

  /** Read quoted strings separated by ` OR `. */
  function Read(expr: string): Option<seq<string>>
    decreases |expr|
  {
    if expr == "" then Some([]) else ReadOne(expr)
  }

  function ReadOne(expr: string): Option<seq<string>>
    decreases |expr|, 0
  {
    if expr == "" || expr[0] != '"' then None
    else match ReadString(expr[1..])
      case None => None
      case Some(p) =>
        if p.1 == "" then Some([p.0])
        else if " OR " <= p.1 then
          match ReadOne(p.1[4..])
          case None => None
          case Some(ts) => Some([p.0] + ts)
        else None
  }

  /** A string's reader stops exactly at its own closing quote. */
  lemma {:induction false} ReadQuoted(t: string, rest: string)
    requires rest == "" || rest[0] != '"'
    ensures ReadString(Doubled(t) + "\"" + rest) == Some((t, rest))
  {
    var s := Doubled(t) + "\"" + rest;
    if t == "" {
      assert s[1..] == rest;
    } else {
      ReadQuoted(t[1..], rest);
      var tail := Doubled(t[1..]) + "\"" + rest;
      assert t == [t[0]] + t[1..];
      if t[0] == '"' {
        assert s == "\"\"" + tail;
        assert s[2..] == tail;
      } else {
        assert s == [t[0]] + tail;
        assert s[1..] == tail;
      }
    }
  }

  lemma {:induction false} JoinOrSteps(ts: seq<string>)
    requires ts != []
    ensures JoinOr(ts) == Quoted(ts[0]) + if |ts| == 1 then "" else " OR " + JoinOr(ts[1..])
  {
  }

  lemma {:induction false} ReadJoined(ts: seq<string>)
    requires ts != []
    ensures ReadOne(JoinOr(ts)) == Some(ts)
  {
    hide Doubled, ReadString, JoinOr;
    JoinOrSteps(ts);
    var rest := if |ts| == 1 then "" else " OR " + JoinOr(ts[1..]);
    var expr := JoinOr(ts);
    assert expr == "\"" + (Doubled(ts[0]) + "\"" + rest);
    assert expr[0] == '"' && expr[1..] == Doubled(ts[0]) + "\"" + rest;
    ReadQuoted(ts[0], rest);
    assert ts == [ts[0]] + ts[1..];
    if |ts| > 1 {
      ReadJoined(ts[1..]);
      assert " OR " <= rest && rest[4..] == JoinOr(ts[1..]);
      assert ReadOne(expr) == Some([ts[0]] + ts[1..]);
    } else {
      assert ts == [ts[0]];
    }
  }

  /** Whatever characters a query holds, its expression reads back as exactly its terms. */
  lemma ReadsBackTerms(query: string)
    ensures Read(BuildMatchExpr(query)) == Some(Terms(query))
  {
    if Terms(query) != [] {
      ReadJoined(Terms(query));
      assert JoinOr(Terms(query)) != "";
    }
  }

  lemma ExpressionsAreDistinct(q1: string, q2: string)
    ensures BuildMatchExpr(q1) == BuildMatchExpr(q2) <==> Terms(q1) == Terms(q2)
  {
    ReadsBackTerms(q1);
    ReadsBackTerms(q2);
  }
}
