/** The list operations of the .NET library the core leans on: LINQ's
    order-keeping `Where` filter and `Select` map, `List<T>.Remove`, which drops
    the first element equal to its argument, `Enumerable.Repeat`, and the
    concatenation of groups. */
module Collections {

  /** `s.Where(p)`: the elements satisfying `p`, in their original order. */
  function Filter<T>(s: seq<T>, p: T -> bool): (r: seq<T>)
    ensures |r| <= |s|
    ensures forall i :: 0 <= i < |r| ==> p(r[i])
    ensures (forall i :: 0 <= i < |s| ==> p(s[i])) ==> r == s
    ensures forall i :: 0 <= i < |r| ==> r[i] in s
    ensures forall i :: 0 <= i < |s| && p(s[i]) ==> s[i] in r
  {
    if |s| == 0 then [] else (if p(s[0]) then [s[0]] else []) + Filter(s[1..], p)
  }

  /** Filtering distributes over concatenation, so the relative order of the
      kept elements is the input order. */
  lemma {:induction false} FilterConcat<T>(a: seq<T>, b: seq<T>, p: T -> bool)
    ensures Filter(a + b, p) == Filter(a, p) + Filter(b, p)
    decreases |a|
  {
    if |a| == 0 {
      assert a + b == b;
    } else {
      assert (a + b)[1..] == a[1..] + b;
      FilterConcat(a[1..], b, p);
    }
  }

  lemma {:induction false} FilterNone<T>(s: seq<T>, p: T -> bool)
    requires forall i :: 0 <= i < |s| ==> !p(s[i])
    ensures Filter(s, p) == []
    decreases |s|
  {
    if |s| > 0 {
      FilterNone(s[1..], p);
    }
  }

  /** `s.Select(f)`: `f` of every element, in order. */
  function Select<A, B>(s: seq<A>, f: A -> B): (r: seq<B>)
    ensures |r| == |s| && forall i :: 0 <= i < |s| ==> r[i] == f(s[i])
  {
    seq(|s|, i requires 0 <= i < |s| => f(s[i]))
  }

  lemma SelectPrepend<A, B>(x: A, s: seq<A>, f: A -> B)
    ensures Select([x] + s, f) == [f(x)] + Select(s, f)
  {
    var l := Select([x] + s, f);
    var r := [f(x)] + Select(s, f);
    forall i | 0 <= i < |l| ensures l[i] == r[i] {
      if i > 0 {
        assert ([x] + s)[i] == s[i - 1];
      }
    }
  }

  lemma FilterSingle<T>(x: T, p: T -> bool)
    ensures Filter([x], p) == if p(x) then [x] else []
  {
    assert [x][1..] == [];
  }

  /** An element the filter refuses makes no difference wherever it stands. */
  lemma FilterDrop<T>(a: seq<T>, x: T, b: seq<T>, p: T -> bool)
    requires !p(x)
    ensures Filter(a + [x] + b, p) == Filter(a + b, p)
  {
    FilterConcat(a, [x], p);
    FilterConcat(a + [x], b, p);
    FilterConcat(a, b, p);
    FilterSingle(x, p);
    assert Filter(a, p) + [] == Filter(a, p);
  }

  /** An element the filter keeps stays where it stands. */
  lemma FilterKeep<T>(a: seq<T>, x: T, b: seq<T>, p: T -> bool)
    requires p(x)
    ensures Filter(a + [x] + b, p) == Filter(a, p) + [x] + Filter(b, p)
  {
    FilterConcat(a, [x], p);
    FilterConcat(a + [x], b, p);
    FilterSingle(x, p);
  }

  /** `List<T>.Remove(x)`: one fewer `x` when present, nothing else changes. */
  function RemoveFirst<T(==)>(s: seq<T>, x: T): (r: seq<T>)
    ensures x in s ==> multiset(r) == multiset(s) - multiset{x} && |r| == |s| - 1
    ensures x !in s ==> r == s
  {
    if |s| == 0 then
      []
    else if s[0] == x then
      assert s == [s[0]] + s[1..];
      s[1..]
    else
      assert s == [s[0]] + s[1..];
      [s[0]] + RemoveFirst(s[1..], x)
  }

  /** `Enumerable.Repeat(x, n)`: `n` copies of `x`. */
  function Repeat<T>(x: T, n: nat): (r: seq<T>)
    ensures |r| == n && forall i :: 0 <= i < n ==> r[i] == x
  {
    seq(n, _ => x)
  }

  /** Concatenation of the groups in order: repeated `AddRange` into one list. */
  function Flatten<T>(groups: seq<seq<T>>): seq<T>
    decreases |groups|
  {
    if |groups| == 0 then [] else Flatten(groups[..|groups| - 1]) + groups[|groups| - 1]
  }
}
