/** What several components need about sequences. */
module Sequences {

  datatype Option<T> = None | Some(value: T)

  lemma Assoc<T>(a: seq<T>, b: seq<T>, c: seq<T>)
    ensures a + b + c == a + (b + c)
  {
  }

  lemma EmptyFirst<T>(s: seq<T>)
    ensures [] + s == s
  {
  }

  /** The last element of `b` comes last in `a` + `b`. */
  lemma LastApart<T>(a: seq<T>, b: seq<T>)
    requires b != []
    ensures b == b[..|b| - 1] + [b[|b| - 1]] && a + b == a + b[..|b| - 1] + [b[|b| - 1]]
  {
  }

  lemma EmptyLast<T>(s: seq<T>)
    ensures s + [] == s
  {
  }

  lemma SliceOfSlice<T>(s: seq<T>, lo: nat, hi: nat, i: nat, j: nat)
    requires lo <= hi <= |s| && i <= j <= hi - lo
    ensures s[lo..hi][i..j] == s[lo + i..lo + j]
  {
    var a, b := s[lo..hi][i..j], s[lo + i..lo + j];
    assert |a| == |b| && forall k | 0 <= k < |a| :: a[k] == b[k];
  }

  /** No element occurs twice. */
  ghost predicate Distinct<T>(items: seq<T>) {
    items == [] || (items[|items| - 1] !in items[..|items| - 1] && Distinct(items[..|items| - 1]))
  }

  lemma {:induction false} DistinctAt<T>(items: seq<T>, i: nat)
    requires Distinct(items) && i < |items|
    ensures forall k | 0 <= k < |items| && k != i :: items[k] != items[i]
  {
    var init := items[..|items| - 1];
    if i < |items| - 1 {
      DistinctAt(init, i);
      assert init[i] in init;
    }
    forall k | 0 <= k < |items| && k != i ensures items[k] != items[i] {
      assert k < |items| - 1 ==> items[k] == init[k] && init[k] in init;
    }
  }

  lemma {:induction false} DistinctWithout<T>(items: seq<T>, i: nat)
    requires Distinct(items) && i < |items|
    ensures Distinct(items[..i] + items[i + 1..])
  {
    var init := items[..|items| - 1];
    if i < |items| - 1 {
      DistinctWithout(init, i);
      var r := items[..i] + items[i + 1..];
      assert r[..|r| - 1] == init[..i] + init[i + 1..];
    } else {
      assert items[..i] + items[i + 1..] == init;
    }
  }
}
