/** Collecting the values that a list's elements have, and choosing elements. */
module Lists {
  import opened Wrappers
  import opened Sorting

  /** The values of f that are there, in order. */
  function Collect<S, T>(xs: seq<S>, f: S -> Option<T>): seq<T> {
    if xs == [] then [] else Listed(f(xs[0])) + Collect(xs[1..], f)
  }

  function Listed<T>(o: Option<T>): seq<T> {
    if o.Some? then [o.value] else []
  }

  lemma {:induction false} CollectConcat<S, T>(a: seq<S>, b: seq<S>, f: S -> Option<T>)
    ensures Collect(a + b, f) == Collect(a, f) + Collect(b, f)
  {
    if a == [] {
      assert a + b == b;
    } else {
      var whole, head := a + b, Listed(f(a[0]));
      assert whole[1..] == a[1..] + b && whole[0] == a[0];
      CollectConcat(a[1..], b, f);
      assert head + (Collect(a[1..], f) + Collect(b, f)) == (head + Collect(a[1..], f)) + Collect(b, f);
    }
  }

  lemma RemoveAt<T>(xs: seq<T>, i: nat)
    requires i < |xs|
    ensures multiset(xs[..i] + xs[i + 1..]) == multiset(xs) - multiset{xs[i]}
  {
    assert xs == xs[..i] + [xs[i]] + xs[i + 1..];
  }

  lemma SplitAt<T>(xs: seq<T>, i: nat) returns (before: seq<T>, one: seq<T>, after: seq<T>, rest: seq<T>)
    requires i < |xs|
    ensures xs == before + one + after && one == [xs[i]] && rest == before + after == xs[..i] + xs[i + 1..]
  {
    before, one, after := xs[..i], [xs[i]], xs[i + 1..];
    rest := before + after;
  }

  lemma CollectAround<S, T>(before: seq<S>, one: seq<S>, after: seq<S>, f: S -> Option<T>)
    ensures multiset(Collect(before + one + after, f)) == multiset(Collect(before + after, f)) + multiset(Collect(one, f))
  {
    CollectConcat(before + one, after, f);
    CollectConcat(before, one, f);
    CollectConcat(before, after, f);
  }

  lemma CollectAt<S, T>(xs: seq<S>, i: nat, f: S -> Option<T>)
    requires i < |xs|
    ensures multiset(Collect(xs, f)) == multiset(Collect(xs[..i] + xs[i + 1..], f)) + multiset(Collect([xs[i]], f))
  {
    var before, one, after, rest := SplitAt(xs, i);
    CollectAround(before, one, after, f);
  }

  /** The collected values, counted, do not depend on the order of the list. */
  lemma {:induction false} CollectOfPermutation<S, T>(a: seq<S>, b: seq<S>, f: S -> Option<T>)
    requires multiset(a) == multiset(b)
    ensures multiset(Collect(a, f)) == multiset(Collect(b, f))
  {
    SameElements(a, b);
    if a != [] {
      assert a[0] in b;
      var i :| 0 <= i < |b| && b[i] == a[0];
      var front, back := a[1..], b[..i] + b[i + 1..];
      SameWithoutOne(a, b, i);
      CollectOfPermutation(front, back, f);
      CollectAt(b, i, f);
      CollectHead(a, f);
    }
  }

  lemma SameWithoutOne<T>(a: seq<T>, b: seq<T>, i: nat)
    requires multiset(a) == multiset(b) && i < |b| && a != [] && b[i] == a[0]
    ensures multiset(a[1..]) == multiset(b[..i] + b[i + 1..])
  {
    RemoveAt(b, i);
    assert a == [a[0]] + a[1..];
  }

  lemma CollectHead<S, T>(a: seq<S>, f: S -> Option<T>)
    requires a != []
    ensures multiset(Collect(a, f)) == multiset(Collect(a[1..], f)) + multiset(Collect([a[0]], f))
  {
    assert a == [a[0]] + a[1..];
    CollectConcat([a[0]], a[1..], f);
  }

  /** The elements that meet a condition. */
  function Filter<T>(xs: seq<T>, f: T -> bool): seq<T> {
    if xs == [] then [] else (if f(xs[0]) then [xs[0]] else []) + Filter(xs[1..], f)
  }

  /** Only the element at i meets the condition. */
  ghost predicate OnlyAt<T>(xs: seq<T>, f: T -> bool, i: int) {
    0 <= i < |xs| && f(xs[i]) && forall j :: 0 <= j < |xs| && j != i ==> !f(xs[j])
  }

  lemma {:induction false} FilterOfNone<T>(xs: seq<T>, f: T -> bool)
    ensures Filter(xs, f) == [] <==> forall j :: 0 <= j < |xs| ==> !f(xs[j])
  {
    if xs != [] {
      FilterOfNone(xs[1..], f);
      assert forall j :: 0 < j < |xs| ==> xs[j] == xs[1..][j - 1];
      assert forall j :: 0 <= j < |xs[1..]| ==> xs[1..][j] == xs[j + 1];
    }
  }

  lemma {:induction false} FilterOfOne<T>(xs: seq<T>, f: T -> bool, i: int)
    requires OnlyAt(xs, f, i)
    ensures Filter(xs, f) == [xs[i]]
  {
    var rest := xs[1..];
    assert forall j :: 0 <= j < |rest| ==> rest[j] == xs[j + 1];
    if i == 0 { FilterOfNone(rest, f); } else { FilterOfOne(rest, f, i - 1); }
  }

  lemma {:induction false} OneInFilter<T>(xs: seq<T>, f: T -> bool) returns (i: int)
    requires |Filter(xs, f)| == 1
    ensures OnlyAt(xs, f, i) && Filter(xs, f) == [xs[i]]
  {
    var rest := xs[1..];
    assert forall j :: 0 < j < |xs| ==> xs[j] == rest[j - 1];
    if f(xs[0]) {
      i := 0;
      FilterOfNone(rest, f);
    } else {
      i := OneInFilter(rest, f);
      i := i + 1;
    }
  }

  lemma {:induction false} FilterSnoc<T>(xs: seq<T>, last: T, f: T -> bool)
    ensures Filter(xs + [last], f) == Filter(xs, f) + if f(last) then [last] else []
  {
    if xs == [] {
      assert xs + [last] == [last] && [last][1..] == [];
    } else {
      assert (xs + [last])[1..] == xs[1..] + [last];
      FilterSnoc(xs[1..], last, f);
    }
  }

  /** Two conditions that exclude each other, and either of them. */
  lemma {:induction false} FilterOfEither<T(!new)>(xs: seq<T>, f: T -> bool, g: T -> bool, h: T -> bool)
    requires forall x :: (h(x) <==> f(x) || g(x)) && !(f(x) && g(x))
    ensures |Filter(xs, h)| == |Filter(xs, f)| + |Filter(xs, g)|
  {
    if xs != [] { FilterOfEither(xs[1..], f, g, h); }
  }

  lemma {:induction false} SameFilter<T(!new)>(xs: seq<T>, f: T -> bool, g: T -> bool)
    requires forall x :: f(x) <==> g(x)
    ensures Filter(xs, f) == Filter(xs, g)
  {
    if xs != [] { SameFilter(xs[1..], f, g); }
  }
}
