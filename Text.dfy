/** String helpers that stand for the Python string operations the scripts use:
    slicing `s[:n]`, `startswith`, the `in` substring test, `lower()` and
    `split('/')[-1]`. */
module Text {

  /** Python's `s[:n]` for n >= 0: the first n elements, or all of s when it is shorter. */
  function Take<T>(s: seq<T>, n: nat): (r: seq<T>)
    ensures |r| == Min(|s|, n)
    ensures r == s[..|r|]
  {
    if |s| <= n then s else s[..n]
  }

  function Min(a: nat, b: nat): nat
  {
    if a <= b then a else b
  }

  /** Python's `s.startswith(p)`. */
  predicate StartsWith(s: string, p: string)
  {
    |p| <= |s| && s[..|p|] == p
  }

  /** Python's `s.endswith(p)`. */
  predicate EndsWith(s: string, p: string)
  {
    |p| <= |s| && s[|s| - |p|..] == p
  }

  /** Python's `sub in s`: sub occurs somewhere in s. */
  predicate Contains(s: string, sub: string)
    decreases |s|
  {
    StartsWith(s, sub) || (|s| > 0 && Contains(s[1..], sub))
  }

  /** Prefixing a string keeps every substring it already had. */
  lemma {:induction false} ContainsAfterPrefix(p: string, s: string, sub: string)
    requires Contains(s, sub)
    ensures Contains(p + s, sub)
    decreases |p|
  {
    if p != [] {
      assert (p + s)[1..] == p[1..] + s;
      ContainsAfterPrefix(p[1..], s, sub);
    } else {
      assert p + s == s;
    }
  }

  /** A non-empty pattern never occurs in a shorter string, in particular not in "". */
  lemma {:induction false} ContainsNeedsLength(s: string, sub: string)
    requires Contains(s, sub)
    ensures |sub| <= |s|
    decreases |s|
  {
    if !StartsWith(s, sub) {
      ContainsNeedsLength(s[1..], sub);
    }
  }

  /** An occurrence at a given position is an occurrence. */
  lemma {:induction false} ContainsAt(s: string, sub: string, i: nat)
    requires i + |sub| <= |s| && s[i..i + |sub|] == sub
    ensures Contains(s, sub)
    decreases i
  {
    if i > 0 {
      assert s[1..][i - 1..i - 1 + |sub|] == s[i..i + |sub|];
      ContainsAt(s[1..], sub, i - 1);
    }
  }

  /** ASCII lower-casing of one character. */
  function LowerChar(c: char): char
  {
    if 'A' <= c <= 'Z' then (c as int - 'A' as int + 'a' as int) as char else c
  }

  /** Python's `s.lower()`, restricted to the ASCII letters. */
  function Lower(s: string): string
  {
    seq(|s|, i requires 0 <= i < |s| => LowerChar(s[i]))
  }

  /** Lower-casing keeps the length, leaves no upper-case ASCII letter, changes
      exactly the upper-case letters, each to the letter 32 code points further on,
      and changes nothing when applied a second time. */
  lemma LowerRule(s: string)
    ensures |Lower(s)| == |s|
    ensures forall i :: 0 <= i < |Lower(s)| ==> !('A' <= Lower(s)[i] <= 'Z')
    ensures forall i :: 0 <= i < |s| ==> (Lower(s)[i] != s[i] <==> 'A' <= s[i] <= 'Z')
    ensures forall i :: 0 <= i < |s| && 'A' <= s[i] <= 'Z' ==> Lower(s)[i] as int == s[i] as int + 32
    ensures Lower(Lower(s)) == Lower(s)
  {
    var r := Lower(s);
    assert |Lower(r)| == |r|;
    forall i | 0 <= i < |r| ensures Lower(r)[i] == r[i] {
      assert !('A' <= r[i] <= 'Z');
    }
  }

  /** Python's `s.split('/')[-1]`: the text after the last '/' of s, or all of s
      when it has no '/'. */
  function LastSegment(s: string): string
    decreases |s|
  {
    if s == [] then []
    else if s[|s| - 1] == '/' then []
    else LastSegment(s[..|s| - 1]) + [s[|s| - 1]]
  }

  /** The last segment has no '/', ends s, and is all of s or preceded by a '/'. */
  lemma {:induction false} LastSegmentShape(s: string)
    ensures '/' !in LastSegment(s)
    ensures EndsWith(s, LastSegment(s))
    ensures |LastSegment(s)| < |s| ==> s[|s| - |LastSegment(s)| - 1] == '/'
    decreases |s|
  {
    if s != [] && s[|s| - 1] != '/' {
      var init := s[..|s| - 1];
      LastSegmentShape(init);
      var r0 := LastSegment(init);
      assert LastSegment(s) == r0 + [s[|s| - 1]];
      assert s[|s| - |r0| - 1..] == init[|init| - |r0|..] + [s[|s| - 1]];
    }
  }

  /** The last segment of `prefix + "/" + seg` is seg whenever seg has no '/'. */
  lemma {:induction false} LastSegmentOfJoin(prefix: string, seg: string)
    requires '/' !in seg
    ensures LastSegment(prefix + "/" + seg) == seg
    decreases |seg|
  {
    var s := prefix + "/" + seg;
    if seg == [] {
      assert s[|s| - 1] == '/';
    } else {
      var init := seg[..|seg| - 1];
      assert s[..|s| - 1] == prefix + "/" + init;
      assert s[|s| - 1] == seg[|seg| - 1];
      assert '/' !in init by {
        forall k | 0 <= k < |init| ensures init[k] != '/' { assert init[k] == seg[k]; }
      }
      LastSegmentOfJoin(prefix, init);
      assert seg == init + [seg[|seg| - 1]];
    }
  }
}
