/** Generic helpers shared by the model: an optional value, the
    order-preserving filter that stands for a queryset `filter(...)`, a
    first-match lookup that stands for `get(...)`, pairwise properties of
    sequences, and splitting a string around a fixed head and tail. */
module Util {

  datatype Option<+T> = None | Some(value: T)

  /** The elements of `s` that satisfy `p`, in their original order. */
  function Filter<T(!new)>(s: seq<T>, p: T -> bool): (r: seq<T>)
    ensures |r| <= |s|
    ensures forall x :: x in r <==> x in s && p(x)
  {
    if s == [] then [] else (if p(s[0]) then [s[0]] else []) + Filter(s[1..], p)
  }

  /** The first element of `s` that satisfies `p`, if any. */
  function FindFirst<T(!new)>(s: seq<T>, p: T -> bool): (r: Option<T>)
    ensures r.Some? ==> r.value in s && p(r.value)
    ensures r.None? <==> forall x :: x in s ==> !p(x)
  {
    if s == [] then None else if p(s[0]) then Some(s[0]) else FindFirst(s[1..], p)
  }

  /** `rel` holds between every element and every element after it. */
  ghost predicate Pairwise<T>(s: seq<T>, rel: (T, T) -> bool)
  {
    forall i, j :: 0 <= i < j < |s| ==> rel(s[i], s[j])
  }

  /** Two values differ; as a relation it makes `Pairwise` mean "no repetitions". */
  ghost predicate Differ<T>(a: T, b: T)
  {
    a != b
  }

  /** No element occurs twice. */
  ghost predicate Distinct<T>(s: seq<T>)
  {
    Pairwise(s, Differ)
  }

  /** Filtering keeps whatever held between earlier and later elements. */
  lemma {:induction false} FilterKeepsPairwise<T(!new)>(s: seq<T>, p: T -> bool, rel: (T, T) -> bool)
    requires Pairwise(s, rel)
    ensures Pairwise(Filter(s, p), rel)
  {
    if s != [] {
      var tail := s[1..];
      assert Pairwise(tail, rel) by {
        forall i, j | 0 <= i < j < |tail| ensures rel(tail[i], tail[j]) {
          assert tail[i] == s[i + 1] && tail[j] == s[j + 1];
        }
      }
      FilterKeepsPairwise(tail, p, rel);
      var rest := Filter(tail, p);
      if p(s[0]) {
        forall x | x in tail ensures rel(s[0], x) {
          var k :| 0 <= k < |tail| && tail[k] == x;
          assert s[k + 1] == x;
        }
        var r := [s[0]] + rest;
        assert Filter(s, p) == r;
        forall i, j | 0 <= i < j < |r| ensures rel(r[i], r[j]) {
          assert r[j] == rest[j - 1] && r[j] in rest;
          if i > 0 {
            assert r[i] == rest[i - 1];
          }
        }
      } else {
        assert Filter(s, p) == rest;
      }
    }
  }

  /** Filtering a sequence without repetitions gives one without repetitions. */
  lemma FilterKeepsDistinct<T(!new)>(s: seq<T>, p: T -> bool)
    requires Distinct(s)
    ensures Distinct(Filter(s, p))
  {
    FilterKeepsPairwise(s, p, Differ);
  }

  /** Joining two sequences without repetitions that share no element gives
      one without repetitions. */
  lemma ConcatDistinct<T>(a: seq<T>, b: seq<T>)
    requires Distinct(a) && Distinct(b)
    requires forall x :: x in a ==> x !in b
    ensures Distinct(a + b)
  {
    var s := a + b;
    forall i, j | 0 <= i < j < |s| ensures Differ(s[i], s[j]) {
      if j < |a| {
        assert s[i] == a[i] && s[j] == a[j];
      } else if i >= |a| {
        assert s[i] == b[i - |a|] && s[j] == b[j - |a|];
      } else {
        assert s[i] == a[i] && s[j] == b[j - |a|];
        assert s[i] in a && s[j] in b;
      }
    }
  }

  /** The pieces `f` gives for the elements of `s`, joined in order. */
  function FlatMap<A, B>(s: seq<A>, f: A -> seq<B>): seq<B>
  {
    if s == [] then [] else f(s[0]) + FlatMap(s[1..], f)
  }

  lemma {:induction false} FlatMapConcat<A, B>(a: seq<A>, b: seq<A>, f: A -> seq<B>)
    ensures FlatMap(a + b, f) == FlatMap(a, f) + FlatMap(b, f)
  {
    if a != [] {
      FlatMapConcat(a[1..], b, f);
      assert (a + b)[1..] == a[1..] + b;
    } else {
      assert a + b == b;
    }
  }

  lemma FlatMapOne<A, B>(x: A, f: A -> seq<B>)
    ensures FlatMap([x], f) == f(x)
  {
    assert [x][1..] == [];
    assert f(x) + [] == f(x);
  }

  /** Extending the input by one element extends the output by that element's piece. */
  lemma FlatMapSnoc<A, B>(s: seq<A>, i: nat, f: A -> seq<B>)
    requires i < |s|
    ensures FlatMap(s[..i + 1], f) == FlatMap(s[..i], f) + f(s[i])
  {
    assert s[..i + 1] == s[..i] + [s[i]];
    FlatMapConcat(s[..i], [s[i]], f);
    FlatMapOne(s[i], f);
  }

  lemma AppendTwo<T>(u: seq<T>, a: seq<T>, b: seq<T>)
    ensures u + a + b == u + (a + b)
  {
  }

  lemma AppendThree<T>(u: seq<T>, a: seq<T>, b: seq<T>, c: seq<T>)
    ensures u + a + b + c == u + (a + b + c)
  {
  }

  /** The elements of `s` from last to first. */
  function Reverse<T>(s: seq<T>): (r: seq<T>)
    ensures |r| == |s|
    ensures forall i :: 0 <= i < |s| ==> r[i] == s[|s| - 1 - i]
  {
    if s == [] then [] else Reverse(s[1..]) + [s[0]]
  }

  /** The part of `s` between a fixed `head` and a fixed `tail`, when `s`
      starts with `head` and ends with `tail` without the two overlapping. */
  function Between(s: string, head: string, tail: string): (r: Option<string>)
    ensures r.Some? <==> |head| + |tail| <= |s| && s[..|head|] == head && s[|s| - |tail|..] == tail
    ensures r.Some? ==> s == head + r.value + tail
  {
    if |head| + |tail| <= |s| && s[..|head|] == head && s[|s| - |tail|..] == tail then
      var mid := s[|head|..|s| - |tail|];
      assert s == s[..|head|] + mid + s[|s| - |tail|..];
      Some(mid)
    else
      None
  }

  /** Gluing a middle part between `head` and `tail` and splitting again gives it back. */
  lemma BetweenOfConcat(head: string, mid: string, tail: string)
    ensures Between(head + mid + tail, head, tail) == Some(mid)
  {
    var s := head + mid + tail;
    assert s[..|head|] == head;
    assert s[|s| - |tail|..] == tail;
    assert s[|head|..|s| - |tail|] == mid;
  }
}
