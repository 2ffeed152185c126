/** UTF-8 (section 3 of RFC 3629): the bytes of a string, and byte offsets that fall on scalar
    boundaries, as `str::len`, `str::is_char_boundary` and byte slicing see them. */
module Utf8 {
  function Encode(c: char): (bytes: seq<int>)
    ensures 1 <= |bytes| <= 4
    ensures !IsContinuation(bytes[0])
    ensures forall i :: 1 <= i < |bytes| ==> IsContinuation(bytes[i])
    ensures |bytes| == 1 <==> bytes[0] < 0x80
    ensures |bytes| == 1 ==> bytes[0] == c as int
    ensures c as int < 0x80 ==> |bytes| == 1
  {
    var n := c as int;
    if n < 0x80 then [n]
    else if n < 0x800 then [0xC0 + n / 64, 0x80 + n % 64]
    else if n < 0x10000 then [0xE0 + n / 4096, 0x80 + n / 64 % 64, 0x80 + n % 64]
    else [0xF0 + n / 262144, 0x80 + n / 4096 % 64, 0x80 + n / 64 % 64, 0x80 + n % 64]
  }

  /** The scalar value a byte sequence encodes. */
  function Decode(bytes: seq<int>): int {
    match |bytes|
    case 1 => bytes[0]
    case 2 => (bytes[0] - 0xC0) * 64 + bytes[1] - 0x80
    case 3 => (bytes[0] - 0xE0) * 4096 + (bytes[1] - 0x80) * 64 + bytes[2] - 0x80
    case 4 => (bytes[0] - 0xF0) * 262144 + (bytes[1] - 0x80) * 4096 + (bytes[2] - 0x80) * 64 + bytes[3] - 0x80
    case _ => 0
  }

  lemma DecodeEncode(c: char)
    ensures Decode(Encode(c)) == c as int
  {
    var n := c as int;
    assert n / 4096 == n / 64 / 64 && n / 262144 == n / 4096 / 64;
  }

  predicate IsContinuation(b: int) {
    0x80 <= b < 0xC0
  }

  function Bytes(s: string): seq<int> {
    if s == [] then [] else Encode(s[0]) + Bytes(s[1..])
  }

  /** `str::len`. */
  function Len(s: string): nat {
    |Bytes(s)|
  }

  /** `str::is_char_boundary`. */
  predicate IsCharBoundary(s: string, i: nat) {
    i == 0 || i == Len(s) || (i < Len(s) && !IsContinuation(Bytes(s)[i]))
  }

  /** How many whole scalars fit in the first `i` bytes. */
  function ScalarsIn(s: string, i: nat): (k: nat)
    ensures k <= |s|
  {
    if s == [] || i < |Encode(s[0])| then 0 else 1 + ScalarsIn(s[1..], i - |Encode(s[0])|)
  }

  lemma {:induction false} BytesAdd(a: string, b: string)
    ensures Bytes(a + b) == Bytes(a) + Bytes(b)
    ensures Len(a + b) == Len(a) + Len(b)
  {
    hide Encode;
    if a == [] {
      assert a + b == b;
    } else {
      BytesAdd(a[1..], b);
      assert (a + b)[0] == a[0] && (a + b)[1..] == a[1..] + b;
      assert Bytes(a + b) == Encode(a[0]) + (Bytes(a[1..]) + Bytes(b));
    }
  }

  lemma LenSplit(s: string, k: nat)
    requires k <= |s|
    ensures Len(s) == Len(s[..k]) + Len(s[k..])
  {
    assert s == s[..k] + s[k..];
    BytesAdd(s[..k], s[k..]);
  }

  lemma PrefixStep(s: string, k: nat)
    requires k < |s|
    ensures Len(s[..k + 1]) == Len(s[..k]) + |Encode(s[k])|
  {
    assert s[..k + 1] == s[..k] + [s[k]];
    BytesAdd(s[..k], [s[k]]);
    assert Bytes([s[k]]) == Encode(s[k]) + Bytes([]);
  }

  lemma {:induction false} PrefixMonotone(s: string, j: nat, k: nat)
    requires j < k <= |s|
    ensures Len(s[..j]) < Len(s[..k])
    decreases k
  {
    PrefixStep(s, k - 1);
    if j < k - 1 {
      PrefixMonotone(s, j, k - 1);
    }
  }

  lemma PrefixOrder(s: string, j: nat, k: nat)
    requires j <= |s| && k <= |s|
    ensures Len(s[..j]) < Len(s[..k]) <==> j < k
  {
    if j < k {
      PrefixMonotone(s, j, k);
    } else if k < j {
      PrefixMonotone(s, k, j);
    }
  }

  /** The scalars in the first `i` bytes end at or before `i`, and one more would not fit. */
  lemma {:induction false} ScalarsFit(s: string, i: nat)
    ensures var k := ScalarsIn(s, i);
            Len(s[..k]) <= i && (k < |s| ==> i < Len(s[..k + 1]))
  {
    if s != [] {
      var w := |Encode(s[0])|;
      if i >= w {
        ScalarsFit(s[1..], i - w);
        var k := ScalarsIn(s[1..], i - w);
        assert s[..k + 1] == [s[0]] + s[1..][..k];
        BytesAdd([s[0]], s[1..][..k]);
        PrefixStep(s, 0);
        if k < |s[1..]| {
          assert s[..k + 2] == [s[0]] + s[1..][..k + 1];
          BytesAdd([s[0]], s[1..][..k + 1]);
        }
        assert Len([s[0]]) == w by { assert s[..1] == [s[0]] && s[..0] == []; }
      } else {
        PrefixStep(s, 0);
      }
    }
  }

  /** The scalar whose bytes hold offset `p`. */
  lemma {:induction false} Owner(s: string, p: nat) returns (k: nat)
    requires p < Len(s)
    ensures k < |s| && Len(s[..k]) <= p < Len(s[..k + 1])
    ensures p - Len(s[..k]) < |Encode(s[k])| && Bytes(s)[p] == Encode(s[k])[p - Len(s[..k])]
  {
    k := ScalarsIn(s, p);
    ScalarsFit(s, p);
    assert s[..|s|] == s;
    var head, tail := s[..k], s[k..];
    assert s == head + tail;
    BytesAdd(head, tail);
    PrefixStep(s, k);
    assert Bytes(tail) == Encode(s[k]) + Bytes(tail[1..]);
  }

  /** A boundary offset is exactly the length of a prefix of whole scalars. */
  lemma BoundaryIsPrefix(s: string, i: nat)
    ensures IsCharBoundary(s, i) <==> i == Len(s[..ScalarsIn(s, i)])
  {
    var k := ScalarsIn(s, i);
    ScalarsFit(s, i);
    assert s[..|s|] == s && s[..0] == [];
    if i < Len(s) {
      var o := Owner(s, i);
      PrefixStep(s, o);
      if o < k {
        PrefixMonotone(s, o, k);
        if o + 1 < k {
          PrefixMonotone(s, o + 1, k);
        }
      } else if k < o {
        PrefixMonotone(s, k, o);
        if k + 1 < o {
          PrefixMonotone(s, k + 1, o);
        }
      }
    } else if k < |s| {
      PrefixMonotone(s, k, |s|);
      if k + 1 < |s| {
        PrefixMonotone(s, k + 1, |s|);
      }
    }
  }

  lemma FitIsBoundary(text: string, k: nat)
    requires k <= |text|
    ensures IsCharBoundary(text, Len(text[..k]))
  {
    PrefixScalars(text, k);
    BoundaryIsPrefix(text, Len(text[..k]));
  }

  /** Counting the scalars of a prefix's bytes gives the prefix back. */
  lemma PrefixScalars(text: string, k: nat)
    requires k <= |text|
    ensures ScalarsIn(text, Len(text[..k])) == k
  {
    var i := Len(text[..k]);
    ScalarsFit(text, i);
    var j := ScalarsIn(text, i);
    if j < k {
      if j + 1 < k {
        PrefixMonotone(text, j + 1, k);
      }
    } else if k < j {
      PrefixMonotone(text, k, j);
    }
  }

  /** A byte below 0x80 is a whole scalar. */
  lemma AsciiByte(s: string, p: nat) returns (k: nat)
    requires p < Len(s) && Bytes(s)[p] < 0x80
    ensures k < |s| && p == Len(s[..k]) && p + 1 == Len(s[..k + 1]) && s[k] as int == Bytes(s)[p]
  {
    k := Owner(s, p);
    PrefixStep(s, k);
  }

  predicate Ascii(s: string) {
    forall i :: 0 <= i < |s| ==> s[i] as int < 0x80
  }

  lemma {:induction false} AsciiLen(s: string)
    requires Ascii(s)
    ensures Len(s) == |s|
  {
    if s != [] {
      AsciiLen(s[1..]);
    }
  }
}
