// Vocabulary shared by the other modules.
module Common {
  datatype Option<+T> = None | Some(value: T)

  type Address = string

  // No two positions hold the same element.
  ghost predicate Distinct<T(!new)>(s: seq<T>) {
    forall i, j :: 0 <= i < j < |s| ==> s[i] != s[j]
  }

  // Python's `list.remove`: drops the first occurrence, if there is one.
  function Without<T(==)>(s: seq<T>, x: T): (r: seq<T>)
    ensures x !in s ==> r == s
    ensures forall y :: y in r ==> y in s
    ensures forall y :: y in s && y != x ==> y in r
  {
    if s == [] then []
    else if s[0] == x then s[1..]
    else [s[0]] + Without(s[1..], x)
  }

  // Python's `list.index` on a list that contains `x`.
  function IndexOf<T(==)>(s: seq<T>, x: T): (i: nat)
    requires x in s
    ensures i < |s| && s[i] == x
    ensures forall j :: 0 <= j < i ==> s[j] != x
  {
    if s[0] == x then 0 else 1 + IndexOf(s[1..], x)
  }

  // Python's `del s[i]`.
  function DeleteAt<T>(s: seq<T>, i: nat): (r: seq<T>)
    requires i < |s|
    ensures |r| == |s| - 1
  {
    s[..i] + s[i + 1..]
  }

  // Python's `list.insert`.
  function InsertAt<T>(s: seq<T>, i: nat, x: T): (r: seq<T>)
    requires i <= |s|
    ensures |r| == |s| + 1
  {
    s[..i] + [x] + s[i..]
  }

  lemma InsertAtCounts<T>(s: seq<T>, i: nat, x: T)
    requires i <= |s|
    ensures multiset(InsertAt(s, i, x)) == multiset(s) + multiset{x}
  {
    assert s == s[..i] + s[i..];
  }

  // Removing an element by value and removing it by its index agree.
  lemma {:induction false} WithoutIsDeleteAt<T>(s: seq<T>, x: T)
    requires x in s
    ensures Without(s, x) == DeleteAt(s, IndexOf(s, x))
  {
    if s[0] != x {
      WithoutIsDeleteAt(s[1..], x);
      DeleteLater(s, IndexOf(s[1..], x));
    }
  }

  lemma DeleteLater<T>(s: seq<T>, i: nat)
    requires i + 1 < |s|
    ensures DeleteAt(s, i + 1) == [s[0]] + DeleteAt(s[1..], i)
  {
  }

  lemma InsertLater<T>(s: seq<T>, i: nat, x: T)
    requires i + 1 <= |s|
    ensures InsertAt(s, i + 1, x) == [s[0]] + InsertAt(s[1..], i, x)
  {
  }

  lemma InsertedAt<T>(s: seq<T>, i: nat, x: T, k: nat)
    requires i <= |s| && k <= |s|
    ensures InsertAt(s, i, x)[k] == if k < i then s[k] else if k == i then x else s[k - 1]
  {
  }

  lemma Associates<T>(a: seq<T>, b: seq<T>, c: seq<T>)
    ensures a + (b + c) == a + b + c
  {
  }

  lemma {:induction false} WithoutAppended<T>(s: seq<T>, x: T)
    requires x !in s
    ensures Without(s + [x], x) == s
  {
    if s == [] {
    } else {
      assert (s + [x])[1..] == s[1..] + [x];
      WithoutAppended(s[1..], x);
    }
  }

  lemma WithoutFacts<T(!new)>(s: seq<T>, x: T)
    requires Distinct(s)
    ensures Distinct(Without(s, x))
    ensures forall y :: y in Without(s, x) <==> y in s && y != x
  {
    if x in s {
      WithoutIsDeleteAt(s, x);
      DeletedDistinct(s, IndexOf(s, x));
    }
  }

  lemma DeletedDistinct<T(!new)>(s: seq<T>, i: nat)
    requires Distinct(s) && i < |s|
    ensures Distinct(DeleteAt(s, i)) && s[i] !in DeleteAt(s, i)
  {
    var after := DeleteAt(s, i);
    forall j | 0 <= j < |after| ensures after[j] != s[i] {
      assert after[j] == s[if j < i then j else j + 1];
    }
  }

  // ---------------------------------------------------------------- arithmetic

  lemma MulOrder(f: int, x: int, y: int)
    requires f > 0
    ensures x <= y <==> f * x <= f * y
    ensures x < y <==> f * x < f * y
  {
    assert f * y - f * x == f * (y - x);
  }

  lemma MulDiv(d: int, q: int, r: int)
    requires 0 <= r < d
    ensures (d * q + r) / d == q && (d * q + r) % d == r
  {
    var n := d * q + r;
    var k := n / d;
    assert d * k + n % d == n;
    assert d * (q + 1) == d * q + d && d * (k + 1) == d * k + d;
    MulOrder(d, q, k + 1);
    MulOrder(d, k, q + 1);
  }

  // Numbers less than `n` apart have different remainders.
  lemma NearbyRemainders(n: int, p: int, q: int)
    requires n > 0 && p < q < p + n
    ensures p % n != q % n
  {
    var k := q / n - p / n;
    assert q - p == n * k + (q % n - p % n);
    MulOrder(n, 0, k);
    MulOrder(n, k, 1);
  }
}
