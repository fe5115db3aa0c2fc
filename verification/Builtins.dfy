/**
 The few Python built-ins whose exact behaviour the scheduler and the alert
 dispatcher depend on: `max`/`min` of two numbers and of a non-empty list,
 `int()` on a number, list subscripting with negative indices, `str.join`,
 and a list comprehension with a filter (kept as the indices it selects).
 */
module Builtins {
  import opened Wrappers

  /** `max(a, b)` */
  function Max(a: real, b: real): (m: real)
    ensures m >= a && m >= b
    ensures m == a || m == b
  {
    if a >= b then a else b
  }

  /** `min(xs)` over a non-empty list; Python raises `ValueError` on an empty one. */
  function MinOf(xs: seq<real>): (m: real)
    requires |xs| > 0
    ensures forall i :: 0 <= i < |xs| ==> m <= xs[i]
    ensures exists i :: 0 <= i < |xs| && m == xs[i]
  {
    if |xs| == 1 then xs[0]
    else
      var rest := MinOf(xs[1..]);
      assert exists i :: 1 <= i < |xs| && rest == xs[i] by {
        var j :| 0 <= j < |xs[1..]| && rest == xs[1..][j];
        assert rest == xs[j + 1];
      }
      if xs[0] <= rest then xs[0] else rest
  }

  /** `max(xs)` over a non-empty list; Python raises `ValueError` on an empty one. */
  function MaxOf(xs: seq<real>): (m: real)
    requires |xs| > 0
    ensures forall i :: 0 <= i < |xs| ==> xs[i] <= m
    ensures exists i :: 0 <= i < |xs| && m == xs[i]
  {
    if |xs| == 1 then xs[0]
    else
      var rest := MaxOf(xs[1..]);
      assert exists i :: 1 <= i < |xs| && rest == xs[i] by {
        var j :| 0 <= j < |xs[1..]| && rest == xs[1..][j];
        assert rest == xs[j + 1];
      }
      if xs[0] >= rest then xs[0] else rest
  }

  /** `int(x)` on a number: truncation toward zero (not Dafny's `.Floor`). */
  function Trunc(x: real): (n: int)
    ensures 0.0 <= x ==> n as real <= x < n as real + 1.0
    ensures x < 0.0 ==> n as real - 1.0 < x <= n as real
  {
    if x >= 0.0 then x.Floor else -((-x).Floor)
  }

  /** `xs[i]` on a Python list: a negative index counts from the end, and an
      index outside `-len(xs) .. len(xs)-1` raises `IndexError` (here `None`). */
  function PyIndex<T>(xs: seq<T>, i: int): (r: Option<T>)
    ensures r.Some? <==> -|xs| <= i < |xs|
    ensures r.Some? ==> r.value == xs[i % |xs|]
  {
    if 0 <= i < |xs| then Some(xs[i])
    else if -|xs| <= i < 0 then Some(xs[|xs| + i])
    else None
  }

  /** `sep.join(xs)`: empty for no pieces; otherwise it starts with the first
      piece and ends with the last. */
  function Join(sep: string, xs: seq<string>): (r: string)
    ensures |xs| == 0 ==> r == ""
    ensures |xs| > 0 ==> OccursAt(r, xs[0], 0)
    ensures |xs| > 0 ==> OccursAt(r, xs[|xs| - 1], |r| - |xs[|xs| - 1]|)
  {
    if |xs| == 0 then ""
    else if |xs| == 1 then
      assert OccursAt(xs[0], xs[0], 0);
      xs[0]
    else
      var rest := Join(sep, xs[1..]);
      var last := xs[|xs| - 1];
      assert xs[1..][|xs[1..]| - 1] == last;
      OccursInPrefix(xs[0], sep + rest, xs[0], 0);
      OccursInSuffix(xs[0] + sep, rest, last, |rest| - |last|);
      xs[0] + sep + rest
  }

  /** An occurrence in `a` is an occurrence in `a + b`. */
  lemma OccursInPrefix(a: string, b: string, needle: string, k: int)
    requires OccursAt(a, needle, k)
    ensures OccursAt(a + b, needle, k)
  {
    assert (a + b)[k..k + |needle|] == a[k..k + |needle|];
  }

  /** An occurrence in `b` is an occurrence in `a + b`, shifted by `|a|`. */
  lemma OccursInSuffix(a: string, b: string, needle: string, k: int)
    requires OccursAt(b, needle, k)
    ensures OccursAt(a + b, needle, |a| + k)
  {
    assert (a + b)[|a| + k..|a| + k + |needle|] == b[k..k + |needle|];
  }

  /** `needle` occurs in `hay` starting at offset `k`. */
  ghost predicate OccursAt(hay: string, needle: string, k: int)
  {
    0 <= k <= |hay| - |needle| && hay[k..k + |needle|] == needle
  }

  /** `needle in hay` for strings. */
  ghost predicate Contains(hay: string, needle: string)
  {
    exists k :: OccursAt(hay, needle, k)
  }

  /** Joining one more piece appends the separator and that piece. */
  lemma {:induction false} JoinAppend(sep: string, xs: seq<string>, x: string)
    requires |xs| > 0
    ensures Join(sep, xs + [x]) == Join(sep, xs) + sep + x
  {
    if |xs| > 1 {
      assert (xs + [x])[1..] == xs[1..] + [x];
      JoinAppend(sep, xs[1..], x);
    }
  }

  /** A joined string is empty exactly when nothing non-empty was joined. */
  lemma JoinEmptyIff(sep: string, xs: seq<string>)
    requires forall i :: 0 <= i < |xs| ==> |xs[i]| > 0
    ensures Join(sep, xs) == "" <==> xs == []
  {
  }

  /** Every joined piece occurs in the joined string. */
  lemma {:induction false} JoinContainsEach(sep: string, xs: seq<string>, i: nat)
    requires i < |xs|
    ensures Contains(Join(sep, xs), xs[i])
  {
    var j := Join(sep, xs);
    if |xs| == 1 {
      assert OccursAt(j, xs[0], 0);
    } else if i == 0 {
      assert j == xs[0] + (sep + Join(sep, xs[1..]));
      assert OccursAt(j, xs[0], 0);
    } else {
      var rest := Join(sep, xs[1..]);
      JoinContainsEach(sep, xs[1..], i - 1);
      assert xs[1..][i - 1] == xs[i];
      var k :| OccursAt(rest, xs[i], k);
      var off := |xs[0]| + |sep|;
      assert j == (xs[0] + sep) + rest;
      assert j[off + k..off + k + |xs[i]|] == rest[k..k + |xs[i]|];
      assert OccursAt(j, xs[i], off + k);
    }
  }

  /** Every joined piece occurs in the joined string, all at once. */
  lemma JoinContainsAll(sep: string, xs: seq<string>)
    ensures forall i :: 0 <= i < |xs| ==> Contains(Join(sep, xs), xs[i])
  {
    forall i | 0 <= i < |xs|
      ensures Contains(Join(sep, xs), xs[i])
    {
      JoinContainsEach(sep, xs, i);
    }
  }

  /** The indices `i < n` satisfying `p`, in increasing order: the positions a
      comprehension `[x for x in xs if p(x)]` keeps. */
  function Where(n: nat, p: nat -> bool): (r: seq<nat>)
    ensures |r| <= n
    ensures forall k :: 0 <= k < |r| ==> r[k] < n && p(r[k])
    ensures forall i :: 0 <= i < n && p(i) ==> i in r
    ensures forall j, k :: 0 <= j < k < |r| ==> r[j] < r[k]
  {
    if n == 0 then []
    else
      var r := Where(n - 1, p);
      if p(n - 1) then r + [n - 1] else r
  }
}
