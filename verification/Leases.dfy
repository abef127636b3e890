/** Leases: the reservations handed out, and what the load balancer's arrays should say
    about them. */
module Leases {
  import opened Common
  import opened Registry
  import opened LoadBalancer

  // One scheduled instance.  It is tracked when the load balancer counted it.
  datatype Lease = Lease(role: Role, address: Address, length: int, tracked: bool, released: bool)

  // ---------------------------------------------------------------- totals

  function Total(ls: seq<Lease>, w: Lease -> int): int {
    if ls == [] then 0 else Total(ls[..|ls| - 1], w) + w(ls[|ls| - 1])
  }

  // The unreleased leases on an address; those tracked; the lengths of those tracked.
  function Held(a: Address): Lease -> int {
    (l: Lease) => if !l.released && l.address == a then 1 else 0
  }

  function Batched(a: Address): Lease -> int {
    (l: Lease) => if !l.released && l.address == a && l.tracked then 1 else 0
  }

  function Lengths(a: Address): Lease -> int {
    (l: Lease) => if !l.released && l.address == a && l.tracked then l.length else 0
  }

  lemma TotalAppend(ls: seq<Lease>, l: Lease, w: Lease -> int)
    ensures Total(ls + [l], w) == Total(ls, w) + w(l)
  {
    assert (ls + [l])[..|ls|] == ls;
  }

  lemma {:induction false} TotalUpdate(ls: seq<Lease>, k: nat, l: Lease, w: Lease -> int)
    requires k < |ls|
    ensures Total(ls[k := l], w) == Total(ls, w) - w(ls[k]) + w(l)
  {
    var n := |ls| - 1;
    if k == n {
      assert ls[k := l][..n] == ls[..n];
    } else {
      TotalUpdate(ls[..n], k, l, w);
      assert ls[k := l][..n] == ls[..n][k := l];
    }
  }

  // A weight that is never negative has a total at least each of its values.
  lemma {:induction false} TotalAtLeast(ls: seq<Lease>, k: nat, w: Lease -> int)
    requires k < |ls| && forall l: Lease :: w(l) >= 0
    ensures Total(ls, w) >= w(ls[k]) && Total(ls, w) >= 0
  {
    var n := |ls| - 1;
    TotalNonNegative(ls[..n], w);
    if k < n {
      TotalAtLeast(ls[..n], k, w);
    }
  }

  lemma {:induction false} TotalNonNegative(ls: seq<Lease>, w: Lease -> int)
    requires forall l: Lease :: w(l) >= 0
    ensures Total(ls, w) >= 0
  {
    if ls != [] {
      TotalNonNegative(ls[..|ls| - 1], w);
    }
  }

  // Without a tracked lease on an address there are no tokens on it.
  lemma {:induction false} NoBatchNoTokens(ls: seq<Lease>, a: Address)
    requires Total(ls, Batched(a)) == 0
    ensures Total(ls, Lengths(a)) == 0
  {
    if ls != [] {
      TotalNonNegative(ls[..|ls| - 1], Batched(a));
      NoBatchNoTokens(ls[..|ls| - 1], a);
    }
  }

  ghost predicate Unleased(ls: seq<Lease>, a: Address) {
    forall k :: 0 <= k < |ls| ==> ls[k].released || ls[k].address != a
  }

  lemma {:induction false} UnleasedTotals(ls: seq<Lease>, a: Address)
    ensures Total(ls, Held(a)) >= 0
    ensures Unleased(ls, a) <==> Total(ls, Held(a)) == 0
    ensures Unleased(ls, a) ==> Total(ls, Batched(a)) == 0 && Total(ls, Lengths(a)) == 0
  {
    if ls != [] {
      UnleasedTotals(ls[..|ls| - 1], a);
    }
  }

  // ---------------------------------------------------------------- one role's arrays

  datatype Roster = Roster(addresses: seq<Address>, pool: Pool)

  // Where the list has `a`, the arrays say what the leases on `a` say.
  ghost predicate AgreesOn(r: Roster, ls: seq<Lease>, a: Address)
    requires Sized(r.pool, |r.addresses|)
  {
    forall i :: 0 <= i < |r.addresses| && r.addresses[i] == a ==>
      r.pool.batch[i] == Total(ls, Batched(a)) && r.pool.tokens[i] == Total(ls, Lengths(a))
  }

  // The arrays say what the leases say, for every address.
  ghost predicate Agrees(r: Roster, ls: seq<Lease>) {
    Sized(r.pool, |r.addresses|) && Distinct(r.addresses) && forall a :: AgreesOn(r, ls, a)
  }

  lemma PositionOf(addresses: seq<Address>, i: nat)
    requires Distinct(addresses) && i < |addresses|
    ensures IndexOf(addresses, addresses[i]) == i
  {
    var j := IndexOf(addresses, addresses[i]);
    assert j >= i;
  }

  // A new lease, counted at its position, leaves the arrays right for every address they
  // were right for.
  lemma LeaseOn(r: Roster, ls: seq<Lease>, l: Lease, a: Address)
    requires Sized(r.pool, |r.addresses|) && Distinct(r.addresses) && AgreesOn(r, ls, a)
    requires l.address in r.addresses && !l.released && l.tracked
    ensures AgreesOn(r.(pool := Bump(r.pool, IndexOf(r.addresses, l.address), l.length)), ls + [l], a)
  {
    TotalAppend(ls, l, Batched(a));
    TotalAppend(ls, l, Lengths(a));
  }

  // A new lease elsewhere, or an untracked one, leaves the arrays right as they are.
  lemma LeaseElsewhere(r: Roster, ls: seq<Lease>, l: Lease, a: Address)
    requires Sized(r.pool, |r.addresses|) && AgreesOn(r, ls, a)
    requires l.tracked ==> l.address != a || a !in r.addresses
    ensures AgreesOn(r, ls + [l], a)
  {
    TotalAppend(ls, l, Batched(a));
    TotalAppend(ls, l, Lengths(a));
  }

  function MarkReleased(ls: seq<Lease>, k: nat): seq<Lease>
    requires k < |ls|
  {
    ls[k := ls[k].(released := true)]
  }

  // The released lease was not counted for `a`.
  lemma ReleaseElsewhere(r: Roster, ls: seq<Lease>, k: nat, a: Address)
    requires Sized(r.pool, |r.addresses|) && AgreesOn(r, ls, a) && k < |ls|
    requires ls[k].tracked ==> ls[k].address != a || a !in r.addresses
    ensures AgreesOn(r, MarkReleased(ls, k), a)
  {
    TotalUpdate(ls, k, ls[k].(released := true), Batched(a));
    TotalUpdate(ls, k, ls[k].(released := true), Lengths(a));
  }

  // Completing at another position, or at an idle one, leaves `a` right: a reset only ever
  // clears tokens of positions without a request.
  lemma CompletionElsewhere(r: Roster, ls: seq<Lease>, j: nat, length: int, a: Address)
    requires Sized(r.pool, |r.addresses|) && AgreesOn(r, ls, a) && j < |r.addresses|
    requires r.addresses[j] != a || Total(ls, Batched(a)) == 0
    ensures AgreesOn(r.(pool := Complete(r.pool, j, length)), ls, a)
  {
    if Total(ls, Batched(a)) == 0 {
      NoBatchNoTokens(ls, a);
    }
    var q, batch := Complete(r.pool, j, length), r.pool.batch[j := r.pool.batch[j] - 1];
    forall i | 0 <= i < |r.addresses| && r.addresses[i] == a
      ensures q.batch[i] == Total(ls, Batched(a)) && q.tokens[i] == Total(ls, Lengths(a))
    {
      assert i == j ==> r.pool.batch[j] == 0;
      assert i != j && Idle(batch) ==> batch[i] == 0;
    }
  }

  // Completing a tracked lease where it was counted.
  lemma CompletionOn(r: Roster, ls: seq<Lease>, k: nat, a: Address)
    requires Sized(r.pool, |r.addresses|) && Distinct(r.addresses) && AgreesOn(r, ls, a) && k < |ls|
    requires !ls[k].released && ls[k].tracked && ls[k].address in r.addresses
    ensures ls[k].address == a ==> r.pool.batch[IndexOf(r.addresses, a)] > 0
    ensures AgreesOn(r.(pool := Complete(r.pool, IndexOf(r.addresses, ls[k].address), ls[k].length)), MarkReleased(ls, k), a)
  {
    var after, j := MarkReleased(ls, k), IndexOf(r.addresses, ls[k].address);
    if ls[k].address != a {
      CompletionElsewhere(r, ls, j, ls[k].length, a);
      ReleaseElsewhere(r.(pool := Complete(r.pool, j, ls[k].length)), ls, k, a);
    } else {
      TotalAtLeast(ls, k, Batched(a));
      TotalUpdate(ls, k, ls[k].(released := true), Batched(a));
      TotalUpdate(ls, k, ls[k].(released := true), Lengths(a));
      assert forall i :: 0 <= i < |r.addresses| && r.addresses[i] == a ==> i == j;
      if Idle(r.pool.batch[j := r.pool.batch[j] - 1]) {
        assert r.pool.batch[j := r.pool.batch[j] - 1][j] == 0;
        NoBatchNoTokens(after, a);
      }
    }
  }

  /** Counting a new lease at its position keeps the arrays in agreement with the leases. */
  lemma LeaseAgrees(r: Roster, ls: seq<Lease>, l: Lease)
    requires Agrees(r, ls) && l.address in r.addresses && !l.released && l.tracked
    ensures Agrees(r.(pool := Bump(r.pool, IndexOf(r.addresses, l.address), l.length)), ls + [l])
  {
    forall a ensures AgreesOn(r.(pool := Bump(r.pool, IndexOf(r.addresses, l.address), l.length)), ls + [l], a) {
      LeaseOn(r, ls, l, a);
    }
  }

  /** Completing a tracked lease: the zero-count guard does not fire, the idle reset leaves
      exactly what plain subtraction leaves, and the arrays agree again. */
  lemma CompletionAgrees(r: Roster, ls: seq<Lease>, k: nat, i: nat)
    requires Agrees(r, ls) && k < |ls| && i < |r.addresses|
    requires !ls[k].released && ls[k].tracked && ls[k].address == r.addresses[i]
    ensures r.pool.batch[i] > 0
    ensures Complete(r.pool, i, ls[k].length) == Drop(r.pool, i, ls[k].length)
    ensures Agrees(r.(pool := Complete(r.pool, i, ls[k].length)), MarkReleased(ls, k))
  {
    var after, p := MarkReleased(ls, k), Drop(r.pool, i, ls[k].length);
    PositionOf(r.addresses, i);
    CompletionOn(r, ls, k, r.addresses[i]);
    forall a ensures AgreesOn(r.(pool := Complete(r.pool, i, ls[k].length)), after, a) {
      CompletionOn(r, ls, k, a);
    }
    if Idle(p.batch) {
      forall j | 0 <= j < |r.addresses| ensures p.tokens[j] == 0 {
        DroppedOn(r, ls, k, i, j);
      }
      assert p.tokens == Zeros(|r.pool.tokens|);
    }
  }

  // At a position left without requests plain subtraction leaves no tokens.
  lemma DroppedOn(r: Roster, ls: seq<Lease>, k: nat, i: nat, j: nat)
    requires Agrees(r, ls) && k < |ls| && i < |r.addresses| && j < |r.addresses|
    requires !ls[k].released && ls[k].tracked && ls[k].address == r.addresses[i]
    ensures var p := Drop(r.pool, i, ls[k].length); p.batch[j] == 0 ==> p.tokens[j] == 0
  {
    var a, after := r.addresses[j], MarkReleased(ls, k);
    assert AgreesOn(r, ls, a);
    TotalUpdate(ls, k, ls[k].(released := true), Batched(a));
    TotalUpdate(ls, k, ls[k].(released := true), Lengths(a));
    if Total(after, Batched(a)) == 0 {
      NoBatchNoTokens(after, a);
    }
  }

  lemma ExtensionOn(r: Roster, ls: seq<Lease>, a: Address, limit: int, b: Address)
    requires Sized(r.pool, |r.addresses|) && a !in r.addresses && AgreesOn(r, ls, b) && (b == a ==> Unleased(ls, a))
    ensures AgreesOn(Roster(r.addresses + [a], Extend(r.pool, limit)), ls, b)
  {
    UnleasedTotals(ls, a);
  }

  lemma ShrinkOn(r: Roster, ls: seq<Lease>, a: Address, b: Address)
    requires Sized(r.pool, |r.addresses|) && Distinct(r.addresses) && a in r.addresses && AgreesOn(r, ls, b)
    ensures var q := Roster(Without(r.addresses, a), Shrink(r.pool, IndexOf(r.addresses, a)));
            Sized(q.pool, |q.addresses|) && AgreesOn(q, ls, b)
  {
    WithoutIsDeleteAt(r.addresses, a);
    var i := IndexOf(r.addresses, a);
    var q := Roster(DeleteAt(r.addresses, i), Shrink(r.pool, i));
    forall j | 0 <= j < |q.addresses| && q.addresses[j] == b
      ensures q.pool.batch[j] == Total(ls, Batched(b)) && q.pool.tokens[j] == Total(ls, Lengths(b))
    {
      ShrunkAt(r, i, j);
    }
  }

  /** Deleting an instance's entries keeps the arrays in agreement with list and leases. */
  lemma ShrinkAgrees(r: Roster, ls: seq<Lease>, a: Address)
    requires Agrees(r, ls) && a in r.addresses
    ensures Agrees(Roster(Without(r.addresses, a), Shrink(r.pool, IndexOf(r.addresses, a))), ls)
    ensures a !in Without(r.addresses, a)
  {
    WithoutFacts(r.addresses, a);
    WithoutIsDeleteAt(r.addresses, a);
    forall b ensures var q := Roster(Without(r.addresses, a), Shrink(r.pool, IndexOf(r.addresses, a)));
                     Sized(q.pool, |q.addresses|) && AgreesOn(q, ls, b) {
      ShrinkOn(r, ls, a, b);
    }
  }

  // After deleting position `i`, position `j` holds what `j` or `j + 1` held.
  lemma ShrunkAt(r: Roster, i: nat, j: nat)
    requires Sized(r.pool, |r.addresses|) && i < |r.addresses| && j < |r.addresses| - 1
    ensures var k := if j < i then j else j + 1;
            && DeleteAt(r.addresses, i)[j] == r.addresses[k]
            && Shrink(r.pool, i).batch[j] == r.pool.batch[k]
            && Shrink(r.pool, i).tokens[j] == r.pool.tokens[k]
            && Shrink(r.pool, i).limits[j] == r.pool.limits[k]
  {
  }
}
