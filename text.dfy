/**
 * The string operations the registry uses: `String.prototype.trim` (over the
 * fixed ECMAScript white-space and line-terminator set), `toLowerCase` and
 * `toUpperCase` (ASCII letters only), `includes` and `startsWith`.
 */
module Text {

  /** ECMAScript WhiteSpace and LineTerminator code points, the set `trim` removes. */
  predicate IsSpace(c: char) {
    var n := c as int;
    n == 0x09 || n == 0x0A || n == 0x0B || n == 0x0C || n == 0x0D || n == 0x20 ||
    n == 0xA0 || n == 0x1680 || (0x2000 <= n <= 0x200A) || n == 0x2028 || n == 0x2029 ||
    n == 0x202F || n == 0x205F || n == 0x3000 || n == 0xFEFF
  }

  predicate AllSpace(s: string) {
    forall i :: 0 <= i < |s| ==> IsSpace(s[i])
  }

  /** `s` with its leading white space removed. */
  function TrimStart(s: string): (r: string)
    ensures |r| <= |s|
  {
    if |s| > 0 && IsSpace(s[0]) then TrimStart(s[1..]) else s
  }

  /** `TrimStart` keeps a suffix of `s` and drops only white space. */
  lemma {:induction false} TrimStartIsSuffix(s: string)
    ensures TrimStart(s) == s[|s| - |TrimStart(s)|..]
    ensures AllSpace(s[..|s| - |TrimStart(s)|])
    ensures TrimStart(s) != [] ==> !IsSpace(TrimStart(s)[0])
  {
    if |s| > 0 && IsSpace(s[0]) {
      TrimStartIsSuffix(s[1..]);
      var n := |s| - |TrimStart(s)|;
      assert s[1..][..n - 1] == s[1..n];
      forall i | 0 <= i < n ensures IsSpace(s[..n][i]) {
        if i > 0 { assert s[..n][i] == s[1..][..n - 1][i - 1]; }
      }
    }
  }

  /** `s` with its trailing white space removed. */
  function TrimEnd(s: string): (r: string)
    ensures |r| <= |s|
  {
    if |s| > 0 && IsSpace(s[|s| - 1]) then TrimEnd(s[..|s| - 1]) else s
  }

  /** `TrimEnd` keeps a prefix of `s` and drops only white space. */
  lemma {:induction false} TrimEndIsPrefix(s: string)
    ensures TrimEnd(s) == s[..|TrimEnd(s)|]
    ensures AllSpace(s[|TrimEnd(s)|..])
    ensures TrimEnd(s) != [] ==> !IsSpace(TrimEnd(s)[|TrimEnd(s)| - 1])
  {
    if |s| > 0 && IsSpace(s[|s| - 1]) {
      var s' := s[..|s| - 1];
      TrimEndIsPrefix(s');
      var n := |TrimEnd(s)|;
      assert s'[..n] == s[..n];
      forall i | n <= i < |s| ensures IsSpace(s[i]) {
        if i < |s| - 1 { assert s'[n..][i - n] == s[i]; }
      }
      assert forall i :: 0 <= i < |s| - n ==> s[n..][i] == s[n + i];
    }
  }

  /** How many white-space characters `s` starts with. */
  function Leading(s: string): (n: nat)
    ensures n <= |s|
  {
    |s| - |TrimStart(s)|
  }

  /** `String.prototype.trim`: `s` without its leading and trailing white space. */
  function Trim(s: string): (r: string)
    ensures |r| <= |s|
  {
    TrimEnd(TrimStart(s))
  }

  /** What `trim` removes is white space at the two ends, and what it keeps is the infix between. */
  lemma TrimIsInfix(s: string)
    ensures Leading(s) + |Trim(s)| <= |s| && Trim(s) == s[Leading(s)..Leading(s) + |Trim(s)|]
    ensures AllSpace(s[..Leading(s)]) && AllSpace(s[Leading(s) + |Trim(s)|..])
    ensures Trim(s) != [] ==> !IsSpace(Trim(s)[0]) && !IsSpace(Trim(s)[|Trim(s)| - 1])
  {
    var t := TrimStart(s);
    var r := TrimEnd(t);
    TrimStartIsSuffix(s);
    TrimEndIsPrefix(t);
    assert s[Leading(s) + |r|..] == t[|r|..];
    if r != [] {
      assert r[0] == t[0];
    }
  }

  /** Trimming twice is trimming once. */
  lemma TrimIdempotent(s: string)
    ensures Trim(Trim(s)) == Trim(s)
  {
    TrimIsInfix(s);
    StripNothing(Trim(s));
  }

  /** A string with no white space at either end is its own trim. */
  lemma StripNothing(t: string)
    requires t != [] ==> !IsSpace(t[0]) && !IsSpace(t[|t| - 1])
    ensures Trim(t) == t
  {
    assert TrimStart(t) == t;
    assert TrimEnd(t) == t;
  }

  /** `trim()` yields the empty string exactly when the whole string is white space. */
  lemma TrimEmptyIff(s: string)
    ensures Trim(s) == [] <==> AllSpace(s)
  {
    var r, a := Trim(s), Leading(s);
    TrimIsInfix(s);
    if r == [] {
      var t := TrimStart(s);
      TrimStartIsSuffix(s);
      TrimEndIsPrefix(t);
      forall i | 0 <= i < |s| ensures IsSpace(s[i]) {
        assert s[..a][i] == s[i];
      }
    } else {
      assert s[a] == r[0];
    }
  }

  function LowerChar(c: char): char {
    if 'A' <= c <= 'Z' then (c as int + 32) as char else c
  }

  function UpperChar(c: char): char {
    if 'a' <= c <= 'z' then (c as int - 32) as char else c
  }

  /** `toLowerCase`, on ASCII letters. */
  function Lower(s: string): (r: string)
    ensures |r| == |s|
  {
    seq(|s|, i requires 0 <= i < |s| => LowerChar(s[i]))
  }

  /** `toUpperCase`, on ASCII letters. */
  function Upper(s: string): (r: string)
    ensures |r| == |s|
  {
    seq(|s|, i requires 0 <= i < |s| => UpperChar(s[i]))
  }

  /** `s.startsWith(p)`. */
  predicate StartsWith(s: string, p: string) {
    |p| <= |s| && s[..|p|] == p
  }

  /** `s.includes(q)`: `q` occurs somewhere in `s`. */
  predicate Contains(s: string, q: string) {
    exists i :: 0 <= i <= |s| && StartsWith(s[i..], q)
  }
}
