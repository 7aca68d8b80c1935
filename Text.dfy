/** String operations of JavaScript that the form relies on: `trim`, the
    `||` fallback on strings, `includes` and `Array.prototype.join`. */
module Text {

  /** The characters ECMAScript's `String.prototype.trim` strips: the
      WhiteSpace and LineTerminator productions (Tab, VT, FF, space, NBSP,
      ZWNBSP, every other "Zs" space, LF, CR, LS and PS). */
  predicate IsJsWhitespace(c: char) {
    c == '\t' || c == '\n' || c == '\U{000B}' || c == '\U{000C}' || c == '\r' ||
    c == ' ' || c == '\U{00A0}' || c == '\U{1680}' ||
    ('\U{2000}' <= c <= '\U{200A}') ||
    c == '\U{2028}' || c == '\U{2029}' || c == '\U{202F}' || c == '\U{205F}' ||
    c == '\U{3000}' || c == '\U{FEFF}'
  }

  predicate AllWhitespace(s: string) {
    forall i :: 0 <= i < |s| ==> IsJsWhitespace(s[i])
  }

  /** `s.trimStart()`: the longest suffix of `s` that does not start with whitespace. */
  function TrimStart(s: string): (r: string)
    ensures |r| <= |s| && r == s[|s| - |r|..]
    ensures forall i :: 0 <= i < |s| - |r| ==> IsJsWhitespace(s[i])
    ensures r == [] || !IsJsWhitespace(r[0])
  {
    if s == [] || !IsJsWhitespace(s[0]) then s else TrimStart(s[1..])
  }

  /** `s.trimEnd()`: the longest prefix of `s` that does not end with whitespace. */
  function TrimEnd(s: string): (r: string)
    ensures |r| <= |s| && r == s[..|r|]
    ensures forall i :: |r| <= i < |s| ==> IsJsWhitespace(s[i])
    ensures r == [] || !IsJsWhitespace(r[|r| - 1])
  {
    if s == [] || !IsJsWhitespace(s[|s| - 1]) then s else TrimEnd(s[..|s| - 1])
  }

  /** `s.trim()`: `s` with leading and trailing whitespace removed. The result
      is the slice of `s` starting at `TrimOffset(s)`, everything around it is
      whitespace, and it neither starts nor ends with whitespace. */
  function Trim(s: string): (r: string)
    ensures TrimOffset(s) + |r| <= |s| && r == s[TrimOffset(s)..TrimOffset(s) + |r|]
    ensures forall i :: 0 <= i < TrimOffset(s) ==> IsJsWhitespace(s[i])
    ensures forall i :: TrimOffset(s) + |r| <= i < |s| ==> IsJsWhitespace(s[i])
    ensures r == [] || (!IsJsWhitespace(r[0]) && !IsJsWhitespace(r[|r| - 1]))
  {
    var t := TrimStart(s);
    TrimEnd(t)
  }

  /** Number of leading whitespace characters `trim` removes. */
  function TrimOffset(s: string): nat {
    |s| - |TrimStart(s)|
  }

  /** `trim` yields the empty string exactly when the input is all whitespace. */
  lemma TrimEmptyIff(s: string)
    ensures Trim(s) == "" <==> AllWhitespace(s)
  {
    if Trim(s) != "" {
      var i := TrimOffset(s);
      assert !IsJsWhitespace(s[i]);
    }
  }

  /** Trimming twice is trimming once. */
  lemma TrimIdempotent(s: string)
    ensures Trim(Trim(s)) == Trim(s)
  {
    var r := Trim(s);
    assert TrimStart(r) == r;
    assert TrimEnd(r) == r;
  }

  /** JavaScript's `a || b` on strings: the empty string is falsy, so the
      result is `s` unless `s` is empty, then `fallback`; it is empty only
      when both are. */
  function OrElse(s: string, fallback: string): (r: string)
    ensures s != "" ==> r == s
    ensures s == "" ==> r == fallback
    ensures r == "" <==> s == "" && fallback == ""
  {
    if s == "" then fallback else s
  }

  /** `sub` occurs in `s` starting at offset `i`. */
  predicate OccursAt(s: string, sub: string, i: int) {
    0 <= i <= |s| - |sub| && s[i..i + |sub|] == sub
  }

  /** `s.includes(sub)`: `sub` occurs in `s` at some offset. */
  predicate Contains(s: string, sub: string) {
    exists i :: 0 <= i <= |s| - |sub| && OccursAt(s, sub, i)
  }

  /** A string without the first character of `sub` cannot contain `sub`. */
  lemma MissingFirstCharNotContained(s: string, sub: string)
    requires |sub| > 0
    requires forall i :: 0 <= i < |s| ==> s[i] != sub[0]
    ensures !Contains(s, sub)
  {
    forall i | 0 <= i <= |s| - |sub|
      ensures !OccursAt(s, sub, i)
    {
      assert s[i..i + |sub|][0] == s[i];
    }
  }

  /** A concatenation contains its left part. */
  lemma ContainsLeft(a: string, b: string)
    ensures Contains(a + b, a)
  {
    assert (a + b)[0..|a|] == a;
    assert OccursAt(a + b, a, 0);
  }

  /** A concatenation contains its right part. */
  lemma ContainsRight(a: string, b: string)
    ensures Contains(a + b, b)
  {
    assert (a + b)[|a|..|a| + |b|] == b;
    assert OccursAt(a + b, b, |a|);
  }

  /** What occurs in a part occurs in the whole. */
  lemma ContainsTransitive(a: string, b: string, c: string)
    requires Contains(a, b) && Contains(b, c)
    ensures Contains(a, c)
  {
    var i :| 0 <= i <= |a| - |b| && OccursAt(a, b, i);
    var j :| 0 <= j <= |b| - |c| && OccursAt(b, c, j);
    assert a[i..i + |b|] == b;
    forall k | 0 <= k < |c|
      ensures a[i + j..i + j + |c|][k] == c[k]
    {
      assert a[i + j + k] == a[i..i + |b|][j + k] == b[j + k];
    }
    assert OccursAt(a, c, i + j);
  }

  /** `xs.join(sep)`: the empty list joins to the empty string; otherwise the
      join is as long as the items plus one separator between each two. */
  function Join(xs: seq<string>, sep: string): (r: string)
    ensures xs == [] ==> r == ""
    ensures xs != [] ==> |r| + |sep| == JoinOffset(xs, sep, |xs|)
  {
    if |xs| == 0 then ""
    else if |xs| == 1 then xs[0]
    else xs[0] + sep + Join(xs[1..], sep)
  }

  /** Where the `k`-th item starts in `Join(xs, sep)`. */
  function JoinOffset(xs: seq<string>, sep: string, k: nat): nat
    requires k <= |xs|
  {
    if k == 0 then 0 else |xs[0]| + |sep| + JoinOffset(xs[1..], sep, k - 1)
  }

  /** An occurrence in `b` is an occurrence in `a + b`, shifted by `|a|`. */
  lemma OccursAtRight(a: string, b: string, x: string, i: int)
    requires OccursAt(b, x, i)
    ensures OccursAt(a + b, x, |a| + i)
  {
    assert (a + b)[|a| + i..|a| + i + |x|] == b[i..i + |x|];
  }

  /** An occurrence in `a` is an occurrence in `a + b`. */
  lemma OccursAtLeft(a: string, b: string, x: string, i: int)
    requires OccursAt(a, x, i)
    ensures OccursAt(a + b, x, i)
  {
    assert (a + b)[i..i + |x|] == a[i..i + |x|];
  }

  /** Two adjacent occurrences make one occurrence of the concatenation. */
  lemma OccursAtAdjacent(s: string, x: string, y: string, i: int)
    requires OccursAt(s, x, i) && OccursAt(s, y, i + |x|)
    ensures OccursAt(s, x + y, i)
  {
    assert s[i..i + |x| + |y|] == s[i..i + |x|] + s[i + |x|..i + |x| + |y|];
  }

  /** Every item of a join sits at its offset, each item but the last is
      followed by exactly one separator, and the join ends with the last item. */
  lemma {:induction false} JoinAt(xs: seq<string>, sep: string, k: nat)
    requires k < |xs|
    ensures OccursAt(Join(xs, sep), xs[k], JoinOffset(xs, sep, k))
    ensures k + 1 < |xs| ==> OccursAt(Join(xs, sep), sep, JoinOffset(xs, sep, k) + |xs[k]|)
    ensures k + 1 == |xs| ==> |Join(xs, sep)| == JoinOffset(xs, sep, k) + |xs[k]|
    decreases k
  {
    if |xs| == 1 {
      assert Join(xs, sep) == xs[0];
      assert OccursAt(xs[0], xs[0], 0);
    } else {
      var head := xs[0] + sep;
      var rest := Join(xs[1..], sep);
      assert Join(xs, sep) == head + rest;
      if k == 0 {
        assert OccursAt(xs[0], xs[0], 0);
        OccursAtLeft(xs[0], sep, xs[0], 0);
        OccursAtLeft(head, rest, xs[0], 0);
        assert OccursAt(sep, sep, 0);
        OccursAtRight(xs[0], sep, sep, 0);
        OccursAtLeft(head, rest, sep, |xs[0]|);
      } else {
        var tail := xs[1..];
        JoinAt(tail, sep, k - 1);
        var o := JoinOffset(tail, sep, k - 1);
        assert tail[k - 1] == xs[k];
        OccursAtRight(head, rest, xs[k], o);
        if k + 1 < |xs| {
          OccursAtRight(head, rest, sep, o + |xs[k]|);
        }
      }
    }
  }

  /** Every item of a join occurs in it. */
  lemma JoinContains(xs: seq<string>, sep: string, k: nat)
    requires k < |xs|
    ensures Contains(Join(xs, sep), xs[k])
  {
    JoinAt(xs, sep, k);
    assert OccursAt(Join(xs, sep), xs[k], JoinOffset(xs, sep, k));
  }

  /** The offset of the next item is just past this item and one separator. */
  lemma {:induction false} JoinOffsetStep(xs: seq<string>, sep: string, k: nat)
    requires k + 1 <= |xs|
    ensures JoinOffset(xs, sep, k + 1) == JoinOffset(xs, sep, k) + |xs[k]| + |sep|
    decreases k
  {
    if k > 0 {
      JoinOffsetStep(xs[1..], sep, k - 1);
    }
  }

  /** Consecutive items of a join appear with one separator between them. */
  lemma JoinAdjacent(xs: seq<string>, sep: string, k: nat)
    requires k + 1 < |xs|
    ensures Contains(Join(xs, sep), xs[k] + sep + xs[k + 1])
  {
    var j := Join(xs, sep);
    JoinAt(xs, sep, k);
    JoinAt(xs, sep, k + 1);
    JoinOffsetStep(xs, sep, k);
    var o := JoinOffset(xs, sep, k);
    OccursAtAdjacent(j, xs[k], sep, o);
    OccursAtAdjacent(j, xs[k] + sep, xs[k + 1], o);
    assert OccursAt(j, xs[k] + sep + xs[k + 1], o);
  }

  /** Whatever holds a join holds every item and every pair of consecutive
      items with the separator between them. */
  lemma JoinParts(s: string, xs: seq<string>, sep: string)
    requires Contains(s, Join(xs, sep))
    ensures forall k :: 0 <= k < |xs| ==> Contains(s, xs[k])
    ensures forall k :: 0 <= k < |xs| - 1 ==> Contains(s, xs[k] + sep + xs[k + 1])
  {
    forall k | 0 <= k < |xs|
      ensures Contains(s, xs[k])
    {
      JoinContains(xs, sep, k);
      ContainsTransitive(s, Join(xs, sep), xs[k]);
    }
    forall k | 0 <= k < |xs| - 1
      ensures Contains(s, xs[k] + sep + xs[k + 1])
    {
      JoinAdjacent(xs, sep, k);
      ContainsTransitive(s, Join(xs, sep), xs[k] + sep + xs[k + 1]);
    }
  }
}
