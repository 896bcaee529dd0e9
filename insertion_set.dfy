/**
 * A JavaScript `Set` as the registry uses it: a collection without repeated
 * members that iterates in insertion order. It is represented by a sequence
 * that never holds the same element twice.
 */
module InsertionSet {

  /** No element occurs twice. */
  ghost predicate NoDup<T>(s: seq<T>) {
    forall i, j :: 0 <= i < j < |s| ==> s[i] != s[j]
  }

  /**
   * `Set.prototype.add`: a new member goes to the end of the iteration
   * order; adding a member already present changes nothing.
   */
  function Add<T(==)>(s: seq<T>, x: T): (r: seq<T>)
    ensures x in r && forall y :: y in s ==> y in r
    ensures forall y :: y in r ==> y in s || y == x
    ensures x in s ==> r == s
    ensures x !in s ==> |r| == |s| + 1 && r[..|s|] == s && r[|s|] == x
    ensures NoDup(s) ==> NoDup(r)
  {
    if x in s then s else s + [x]
  }

  /**
   * `Set.prototype.delete`: the member is gone, every other member stays in
   * its place in the iteration order, and removing an absent member changes
   * nothing.
   */
  function Delete<T(==)>(s: seq<T>, x: T): (r: seq<T>)
    ensures x !in r && forall y :: y in s && y != x ==> y in r
    ensures forall y :: y in r ==> y in s
    ensures x !in s ==> r == s
    ensures |r| <= |s|
    ensures NoDup(s) ==> NoDup(r)
  {
    if s == [] then []
    else if s[0] == x then Delete(s[1..], x)
    else
      var rest := Delete(s[1..], x);
      assert NoDup(s) ==> s[0] !in rest by {
        if NoDup(s) {
          assert forall k :: 0 <= k < |s[1..]| ==> s[1..][k] == s[k + 1] != s[0];
        }
      }
      [s[0]] + rest
  }

  /**
   * Deleting the member at position `i` of a set without repeats closes the
   * gap: every other member keeps its place in the iteration order.
   */
  lemma {:induction false} DeleteKeepsOrder<T>(s: seq<T>, i: nat)
    requires NoDup(s) && i < |s|
    ensures Delete(s, s[i]) == s[..i] + s[i + 1..]
  {
    assert s == s[..i] + [s[i]] + s[i + 1..];
    DeleteAppend(s[..i] + [s[i]], s[i + 1..], s[i]);
    DeleteAppend(s[..i], [s[i]], s[i]);
    assert Delete([s[i]], s[i]) == [];
    assert s[i] !in s[..i] && s[i] !in s[i + 1..];
  }

  /** Deleting from a concatenation deletes from each part. */
  lemma {:induction false} DeleteAppend<T>(a: seq<T>, b: seq<T>, x: T)
    ensures Delete(a + b, x) == Delete(a, x) + Delete(b, x)
  {
    if a != [] {
      assert (a + b)[1..] == a[1..] + b;
      DeleteAppend(a[1..], b, x);
    } else {
      assert a + b == b;
    }
  }

  /** Adding an absent member and deleting it again gives back the same set, in the same order. */
  lemma {:induction false} AddThenDelete<T>(s: seq<T>, x: T)
    requires x !in s
    ensures Delete(Add(s, x), x) == s
  {
    DeleteAppend(s, [x], x);
    assert Delete([x], x) == [];
  }
}
