/** Text helpers shared by the prompt builder and the email service: where one
    string occurs inside another, and Python's `sep.join(items)`. */
module Strings {

  /** `sub` occurs in `s` starting at index `k`. */
  predicate OccursAt(s: string, sub: string, k: int)
  {
    0 <= k && k + |sub| <= |s| && s[k..k + |sub|] == sub
  }

  /** Python's `sub in s`. */
  ghost predicate Contains(s: string, sub: string)
  {
    exists k :: OccursAt(s, sub, k)
  }

  /** Python's `s.endswith(suffix)`. */
  predicate EndsWith(s: string, suffix: string)
  {
    |suffix| <= |s| && s[|s| - |suffix|..] == suffix
  }

  /** Sum of the lengths of `items`. */
  function TotalLength(items: seq<string>): nat
  {
    if |items| == 0 then 0 else |items[0]| + TotalLength(items[1..])
  }

  /** Python's `sep.join(items)`: the items in their order, `sep` between
      neighbours, nothing before the first or after the last. An empty list
      gives the empty string. */
  function Join(items: seq<string>, sep: string): (r: string)
    ensures |items| == 0 ==> |r| == 0
    ensures |items| > 0 ==> |r| == TotalLength(items) + (|items| - 1) * |sep|
  {
    if |items| == 0 then ""
    else if |items| == 1 then items[0]
    else items[0] + sep + Join(items[1..], sep)
  }

  /** Index at which `items[i]` starts in `Join(items, sep)`. */
  function Offset(items: seq<string>, sep: string, i: nat): nat
    requires i < |items|
  {
    if i == 0 then 0 else |items[0]| + |sep| + Offset(items[1..], sep, i - 1)
  }

  lemma OccursAtShift(a: string, b: string, sub: string, k: int)
    requires OccursAt(b, sub, k)
    ensures OccursAt(a + b, sub, |a| + k)
  {
    assert (a + b)[|a| + k..|a| + k + |sub|] == b[k..k + |sub|];
  }

  lemma OccursAtPrefix(a: string, b: string, sub: string, k: int)
    requires OccursAt(a, sub, k)
    ensures OccursAt(a + b, sub, k)
  {
    assert (a + b)[k..k + |sub|] == a[k..k + |sub|];
  }

  /** Two occurrences side by side are an occurrence of their concatenation. */
  lemma OccursAtAdjacent(s: string, a: string, b: string, k: int)
    requires OccursAt(s, a, k) && OccursAt(s, b, k + |a|)
    ensures OccursAt(s, a + b, k)
  {
    assert s[k..k + |a| + |b|] == s[k..k + |a|] + s[k + |a|..k + |a| + |b|];
  }

  /** An occurrence that reaches the end of `s` is a suffix of it. */
  lemma OccursAtEnd(s: string, sub: string)
    requires OccursAt(s, sub, |s| - |sub|)
    ensures EndsWith(s, sub)
  {
  }

  /** An occurrence inside an occurrence. */
  lemma OccursWithin(s: string, outer: string, at: int, inner: string, k: int)
    requires OccursAt(s, outer, at) && OccursAt(outer, inner, k)
    ensures OccursAt(s, inner, at + k)
  {
    var window := s[at..at + |outer|];
    assert window == outer;
    forall i | 0 <= i < |inner|
      ensures s[at + k..at + k + |inner|][i] == inner[i]
    {
      assert window[k + i] == outer[k..k + |inner|][i];
    }
  }

  /** The next item starts after this one and a separator. */
  lemma {:induction false} OffsetStep(items: seq<string>, sep: string, i: nat)
    requires i + 1 < |items|
    ensures Offset(items, sep, i + 1) == Offset(items, sep, i) + |items[i]| + |sep|
  {
    if i > 0 {
      OffsetStep(items[1..], sep, i - 1);
    }
  }

  /** Each item sits at its offset, followed by `sep` unless it is the last
      one, and the last one ends the joined string: the join is exactly the
      items in order with separators between them. */
  lemma {:induction false} JoinPlacesItem(items: seq<string>, sep: string, i: nat)
    requires i < |items|
    ensures OccursAt(Join(items, sep), items[i], Offset(items, sep, i))
    ensures i + 1 < |items| ==>
      OccursAt(Join(items, sep), sep, Offset(items, sep, i) + |items[i]|)
    ensures i + 1 < |items| ==>
      Offset(items, sep, i + 1) == Offset(items, sep, i) + |items[i]| + |sep|
    ensures i + 1 == |items| ==> |Join(items, sep)| == Offset(items, sep, i) + |items[i]|
  {
    if |items| == 1 {
    } else if i == 0 {
      var r := Join(items[1..], sep);
      assert Join(items, sep) == items[0] + (sep + r);
      OccursAtPrefix(items[0], sep + r, items[0], 0);
      OccursAtPrefix(sep, r, sep, 0);
      OccursAtShift(items[0], sep + r, sep, 0);
    } else {
      var rest := items[1..];
      var r := Join(rest, sep);
      var lead := items[0] + sep;
      assert Join(items, sep) == lead + r;
      assert rest[i - 1] == items[i];
      JoinPlacesItem(rest, sep, i - 1);
      OccursAtShift(lead, r, items[i], Offset(rest, sep, i - 1));
      if i + 1 < |items| {
        OccursAtShift(lead, r, sep, Offset(rest, sep, i - 1) + |items[i]|);
      }
    }
  }

  /** The items keep their order: a later item starts after an earlier one
      and the separator that follows it. */
  lemma {:induction false} JoinKeepsOrder(items: seq<string>, sep: string, i: nat, j: nat)
    requires i < j < |items|
    ensures Offset(items, sep, i) + |items[i]| + |sep| <= Offset(items, sep, j)
    decreases j - i
  {
    JoinPlacesItem(items, sep, j - 1);
    if i < j - 1 {
      JoinKeepsOrder(items, sep, i, j - 1);
    }
  }

  lemma {:induction false} TotalLengthUpdate(items: seq<string>, i: nat, x: string)
    requires i < |items|
    ensures TotalLength(items[i := x]) == TotalLength(items) - |items[i]| + |x|
  {
    if i > 0 {
      assert items[i := x][1..] == items[1..][i - 1 := x];
      TotalLengthUpdate(items[1..], i - 1, x);
    }
  }

  /** Replacing one item changes the length of the join by the change in
      that item's length. */
  lemma JoinLengthUpdate(items: seq<string>, sep: string, i: nat, x: string)
    requires i < |items|
    ensures |Join(items[i := x], sep)| == |Join(items, sep)| - |items[i]| + |x|
  {
    TotalLengthUpdate(items, i, x);
  }

  /** A string in which the first character of `sub` never occurs cannot
      contain `sub`. */
  lemma AbsentWithoutFirst(s: string, sub: string)
    requires |sub| > 0 && sub[0] !in s
    ensures !Contains(s, sub)
  {
    forall k | 0 <= k && k + |sub| <= |s|
      ensures !OccursAt(s, sub, k)
    {
      assert s[k..k + |sub|][0] == s[k];
    }
  }

  /** No occurrence of `sub` in `a + b` starts in `a` and ends in `b`. */
  ghost predicate NoStraddle(a: string, b: string, sub: string)
  {
    forall k :: 0 <= k < |a| < k + |sub| ==> !OccursAt(a + b, sub, k)
  }

  /** An occurrence in `a + b` lies in `a`, in `b`, or across the seam. */
  lemma AbsentFromConcat(a: string, b: string, sub: string)
    requires !Contains(a, sub) && !Contains(b, sub) && NoStraddle(a, b, sub)
    ensures !Contains(a + b, sub)
  {
    forall k | 0 <= k && k + |sub| <= |a + b|
      ensures !OccursAt(a + b, sub, k)
    {
      if k + |sub| <= |a| {
        assert a[k..k + |sub|] == (a + b)[k..k + |sub|];
        assert !OccursAt(a, sub, k);
      } else if |a| <= k {
        assert b[k - |a|..k - |a| + |sub|] == (a + b)[k..k + |sub|];
        assert !OccursAt(b, sub, k - |a|);
      }
    }
  }

  /** Nothing straddles a seam where `b` opens with a character absent
      from `sub`. */
  lemma NoStraddleAtOpening(a: string, b: string, sub: string)
    requires |b| > 0 && b[0] !in sub
    ensures NoStraddle(a, b, sub)
  {
    forall k | 0 <= k < |a| < k + |sub| && k + |sub| <= |a + b|
      ensures !OccursAt(a + b, sub, k)
    {
      assert (a + b)[k..k + |sub|][|a| - k] == b[0];
    }
  }

  /** Nothing straddles a seam after an `a` that never holds the first
      character of `sub`. */
  lemma NoStraddleAfterFree(a: string, b: string, sub: string)
    requires |sub| > 0 && sub[0] !in a
    ensures NoStraddle(a, b, sub)
  {
    forall k | 0 <= k < |a| < k + |sub| && k + |sub| <= |a + b|
      ensures !OccursAt(a + b, sub, k)
    {
      assert (a + b)[k..k + |sub|][0] == a[k];
    }
  }

  /** Nothing straddles a seam where `b` opens with the last character of
      `sub` only if that character is not followed by `b[1]` in `sub`: here,
      `b[0]` differs from the last character of `sub` and `b[1]` is absent
      from `sub` altogether. */
  lemma NoStraddleAtOpeningPair(a: string, b: string, sub: string)
    requires |b| >= 2 && |sub| > 0
    requires b[0] != sub[|sub| - 1] && b[1] !in sub
    ensures NoStraddle(a, b, sub)
  {
    forall k | 0 <= k < |a| < k + |sub| && k + |sub| <= |a + b|
      ensures !OccursAt(a + b, sub, k)
    {
      var w := (a + b)[k..k + |sub|];
      var j := |a| - k;
      if j == |sub| - 1 {
        assert w[j] == b[0];
      } else {
        assert w[j + 1] == b[1];
      }
    }
  }

  /** A join never contains `sub` when no item does and the separator keeps
      occurrences from reaching across it. */
  lemma {:induction false} JoinAbsent(items: seq<string>, sep: string, sub: string)
    requires |sub| > 0 && |sep| > 0
    requires sep[0] !in sub && sub[0] !in sep
    requires forall i :: 0 <= i < |items| ==> !Contains(items[i], sub)
    ensures !Contains(Join(items, sep), sub)
  {
    if |items| == 0 {
      AbsentWithoutFirst("", sub);
    } else if |items| == 1 {
      assert !Contains(items[0], sub);
    } else {
      var r := Join(items[1..], sep);
      JoinAbsent(items[1..], sep, sub);
      AbsentWithoutFirst(sep, sub);
      NoStraddleAfterFree(sep, r, sub);
      AbsentFromConcat(sep, r, sub);
      NoStraddleAtOpening(items[0], sep + r, sub);
      assert !Contains(items[0], sub);
      AbsentFromConcat(items[0], sep + r, sub);
      assert Join(items, sep) == items[0] + (sep + r);
    }
  }
}
