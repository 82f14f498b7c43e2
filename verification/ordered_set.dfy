/** The JavaScript `Set` as the signalling server uses it: a collection that
    iterates in insertion order and never holds an element twice. It is
    represented here by a sequence without duplicates. */
module OrderedSet {

  /** No element occurs twice in `xs`. */
  ghost predicate NoDup<T>(xs: seq<T>) {
    forall i, j :: 0 <= i < j < |xs| ==> xs[i] != xs[j]
  }

  /** `Set.prototype.add`: `x` becomes a member, existing members keep their
      positions (so the first member stays first). */
  function Add<T(==,!new)>(xs: seq<T>, x: T): (r: seq<T>)
    ensures forall y :: y in r <==> y in xs || y == x
    ensures |xs| <= |r| <= |xs| + 1 && r[..|xs|] == xs
    ensures |r| == |xs| <==> x in xs
    ensures NoDup(xs) ==> NoDup(r)
  {
    if x in xs then xs else xs + [x]
  }

  /** `Set.prototype.delete`: `x` stops being a member. That the other members
      keep their relative order is `DeleteKeepsOrder`, below. */
  function Delete<T(==,!new)>(xs: seq<T>, x: T): (r: seq<T>)
    ensures forall y :: y in r <==> y in xs && y != x
    ensures |r| <= |xs|
    ensures x !in xs ==> r == xs
    ensures NoDup(xs) ==> NoDup(r)
    ensures NoDup(xs) && x in xs ==> |r| == |xs| - 1
  {
    if xs == [] then []
    else if xs[0] == x then Delete(xs[1..], x)
    else
      assert NoDup(xs) ==> NoDup(xs[1..]) && xs[0] !in xs[1..];
      [xs[0]] + Delete(xs[1..], x)
  }

  /** Deleting distributes over concatenation. */
  lemma {:induction false} DeleteAppend<T(!new)>(a: seq<T>, b: seq<T>, x: T)
    ensures Delete(a + b, x) == Delete(a, x) + Delete(b, x)
  {
    if a == [] {
      assert a + b == b;
    } else {
      assert (a + b)[1..] == a[1..] + b;
      DeleteAppend(a[1..], b, x);
    }
  }

  /** Deleting the one occurrence of `x` closes the gap it leaves: the members
      before it and after it stay in their order. */
  lemma DeleteKeepsOrder<T(!new)>(a: seq<T>, x: T, b: seq<T>)
    requires x !in a && x !in b
    ensures Delete(a + [x] + b, x) == a + b
  {
    DeleteAppend(a + [x], b, x);
    DeleteAppend(a, [x], x);
    assert Delete(a, x) == a;
    assert Delete(b, x) == b;
    assert Delete([x], x) == [];
    assert Delete(a + [x], x) == a;
  }

  /** Adding a new member and deleting it again gives back the original set,
      in its original order. */
  lemma {:induction false} DeleteAdd<T(!new)>(xs: seq<T>, x: T)
    requires x !in xs
    ensures Delete(Add(xs, x), x) == xs
  {
    DeleteAppend(xs, [x], x);
    assert Delete([x], x) == [];
    assert Delete(xs, x) == xs;
  }
}
