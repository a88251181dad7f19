/**
 * The array methods the registry is built from: `filter`, `findIndex` and
 * `join`, with what each promises about order and contents.
 */
module Seqs {

  /** `r` is `s` with some elements left out, the others kept in their order. */
  predicate IsSubsequence<T(==)>(r: seq<T>, s: seq<T>)
    decreases |s|
  {
    if s == [] then r == []
    else (r != [] && r[0] == s[0] && IsSubsequence(r[1..], s[1..])) || IsSubsequence(r, s[1..])
  }

  /** `s.filter(keep)`: exactly the elements that pass, each as often as in `s`. */
  function Filter<T(!new)>(s: seq<T>, keep: T -> bool): (r: seq<T>)
    ensures |r| <= |s|
    ensures forall x :: x in r <==> x in s && keep(x)
    ensures forall x :: multiset(r)[x] == if keep(x) then multiset(s)[x] else 0
  {
    if s == [] then []
    else
      assert s == [s[0]] + s[1..];
      (if keep(s[0]) then [s[0]] else []) + Filter(s[1..], keep)
  }

  /** A filter keeps the order of what it keeps. */
  lemma {:induction false} FilterIsSubsequence<T(!new)>(s: seq<T>, keep: T -> bool)
    ensures IsSubsequence(Filter(s, keep), s)
  {
    if s != [] {
      FilterIsSubsequence(s[1..], keep);
      var r := Filter(s, keep);
      if keep(s[0]) {
        assert r[0] == s[0] && r[1..] == Filter(s[1..], keep);
      } else {
        assert r == Filter(s[1..], keep);
      }
    }
  }

  /** Two filters in a row are one filter with both tests. */
  lemma {:induction false} FilterFilter<T(!new)>(s: seq<T>, f: T -> bool, g: T -> bool, h: T -> bool)
    requires forall x :: h(x) == (f(x) && g(x))
    ensures Filter(Filter(s, f), g) == Filter(s, h)
  {
    if s != [] {
      FilterFilter(s[1..], f, g, h);
      var fs, rest := Filter(s, f), Filter(s[1..], f);
      if f(s[0]) {
        assert fs == [s[0]] + rest;
        assert fs[1..] == rest;
        assert Filter(fs, g) == (if g(s[0]) then [s[0]] else []) + Filter(rest, g);
      } else {
        assert fs == rest;
      }
    }
  }

  /** A filter that every element passes changes nothing. */
  lemma {:induction false} FilterKeepsAll<T(!new)>(s: seq<T>, keep: T -> bool)
    ensures (forall x :: x in s ==> keep(x)) ==> Filter(s, keep) == s
  {
    if s != [] && forall x :: x in s ==> keep(x) {
      FilterKeepsAll(s[1..], keep);
      assert s == [s[0]] + s[1..];
    }
  }

  /** `s.findIndex(p)`: the first index whose element passes, or -1 when none does. */
  function FindIndex<T>(s: seq<T>, p: T -> bool): (i: int)
    ensures -1 <= i < |s|
    ensures i == -1 <==> forall j :: 0 <= j < |s| ==> !p(s[j])
    ensures 0 <= i ==> p(s[i]) && forall j :: 0 <= j < i ==> !p(s[j])
  {
    if s == [] then -1
    else if p(s[0]) then 0
    else
      var k := FindIndex(s[1..], p);
      if k == -1 then -1 else k + 1
  }

  /** `parts.join(sep)`. */
  function Join(parts: seq<string>, sep: string): string {
    if |parts| == 0 then ""
    else if |parts| == 1 then parts[0]
    else parts[0] + sep + Join(parts[1..], sep)
  }

  /** Where the `i`-th part starts in `Join(parts, sep)`: every part before it and one separator each. */
  function Offset(parts: seq<string>, sep: string, i: nat): nat
    requires i <= |parts|
  {
    if i == 0 then 0 else |parts[0]| + |sep| + Offset(parts[1..], sep, i - 1)
  }

  /** A slice of `a + b` that lies in `b`. */
  lemma SliceInSecond(a: string, b: string, lo: nat, hi: nat)
    requires lo <= hi <= |b|
    ensures (a + b)[|a| + lo..|a| + hi] == b[lo..hi]
  {
  }

  /**
   * Every part appears, unchanged and in order, at its offset in the joined
   * text, followed by a separator unless it is the last.
   */
  lemma {:induction false} JoinPartAt(parts: seq<string>, sep: string, i: nat)
    requires i < |parts|
    ensures Offset(parts, sep, i) + |parts[i]| <= |Join(parts, sep)|
    ensures Join(parts, sep)[Offset(parts, sep, i)..Offset(parts, sep, i) + |parts[i]|] == parts[i]
    ensures i + 1 < |parts| ==>
      Offset(parts, sep, i) + |parts[i]| + |sep| <= |Join(parts, sep)| &&
      Join(parts, sep)[Offset(parts, sep, i) + |parts[i]|..Offset(parts, sep, i) + |parts[i]| + |sep|] == sep
  {
    if |parts| == 1 {
      assert Offset(parts, sep, i) == 0;
    } else if i == 0 {
      JoinHead(parts, sep);
    } else {
      JoinPartAt(parts[1..], sep, i - 1);
      assert parts[1..][i - 1] == parts[i];
      var head, tail := parts[0] + sep, Join(parts[1..], sep);
      assert Join(parts, sep) == head + tail;
      assert Offset(parts, sep, i) == |head| + Offset(parts[1..], sep, i - 1);
      PartInSuffix(head, tail, Offset(parts[1..], sep, i - 1), parts[i], sep, i + 1 < |parts|);
    }
  }

  /** With two parts or more, the text starts with the first part and a separator. */
  lemma JoinHead(parts: seq<string>, sep: string)
    requires |parts| > 1
    ensures |parts[0]| + |sep| <= |Join(parts, sep)|
    ensures Join(parts, sep)[..|parts[0]|] == parts[0]
    ensures Join(parts, sep)[|parts[0]|..|parts[0]| + |sep|] == sep
  {
    var j := Join(parts, sep);
    assert j == parts[0] + (sep + Join(parts[1..], sep));
    assert j[..|parts[0]|] == parts[0];
    SliceInSecond(parts[0], sep + Join(parts[1..], sep), 0, |sep|);
  }

  /** A part found in `tail`, and the separator after it, are found `|head|` further on in `head + tail`. */
  lemma PartInSuffix(head: string, tail: string, o: nat, part: string, sep: string, more: bool)
    requires o + |part| <= |tail| && tail[o..o + |part|] == part
    requires more ==> o + |part| + |sep| <= |tail| && tail[o + |part|..o + |part| + |sep|] == sep
    ensures |head| + o + |part| <= |head + tail|
    ensures (head + tail)[|head| + o..|head| + o + |part|] == part
    ensures more ==>
      |head| + o + |part| + |sep| <= |head + tail| &&
      (head + tail)[|head| + o + |part|..|head| + o + |part| + |sep|] == sep
  {
    SliceInSecond(head, tail, o, o + |part|);
    if more {
      SliceInSecond(head, tail, o + |part|, o + |part| + |sep|);
    }
  }

  /** The joined text is the parts and the separators between them, nothing more. */
  lemma {:induction false} JoinLength(parts: seq<string>, sep: string)
    requires parts != []
    ensures |Join(parts, sep)| == Offset(parts, sep, |parts| - 1) + |parts[|parts| - 1]|
  {
    if |parts| > 1 {
      JoinLength(parts[1..], sep);
    }
  }
}
