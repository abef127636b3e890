/** The load-balanced policy: counter arrays addressed by position in an address list
    that other objects share and edit. */
module LoadBalancer {
  import opened Common
  import opened Registry

  // One role's parallel arrays.
  datatype Pool = Pool(batch: seq<int>, tokens: seq<int>, limits: seq<int>)

  const EmptyPool := Pool([], [], [])

  predicate Sized(p: Pool, n: nat) {
    |p.batch| == n && |p.tokens| == n && |p.limits| == n
  }

  function Zeros(n: nat): seq<int> {
    seq(n, i => 0)
  }

  // ---------------------------------------------------------------- counter updates

  function Bump(p: Pool, i: nat, length: int): Pool
    requires i < |p.batch| && i < |p.tokens|
  {
    p.(batch := p.batch[i := p.batch[i] + 1], tokens := p.tokens[i := p.tokens[i] + length])
  }

  predicate Idle(batch: seq<int>) {
    forall i :: 0 <= i < |batch| ==> batch[i] == 0
  }

  // What plain subtraction leaves.
  function Drop(p: Pool, i: nat, length: int): Pool
    requires i < |p.batch| && i < |p.tokens|
  {
    p.(batch := p.batch[i := p.batch[i] - 1], tokens := p.tokens[i := p.tokens[i] - length])
  }

  // What completing does: nothing when the batch counter is already zero, and a reset of
  // every token counter when the last request of the role completes.
  function Complete(p: Pool, i: nat, length: int): Pool
    requires i < |p.batch| && i < |p.tokens|
  {
    if p.batch[i] == 0 then p
    else if Idle(p.batch[i := p.batch[i] - 1]) then
      p.(batch := p.batch[i := p.batch[i] - 1], tokens := Zeros(|p.tokens|))
    else Drop(p, i, length)
  }

  /** When the last counted request of the role completes, no tokens are left anywhere, however
      the token counters had drifted; and nothing is completed where nothing is counted. */
  lemma LastCompletionClears(p: Pool, i: nat, length: int)
    requires i < |p.batch| == |p.tokens|
    ensures p.batch[i] == 0 ==> Complete(p, i, length) == p
    ensures p.batch[i] == 1 && (forall j :: 0 <= j < |p.batch| && j != i ==> p.batch[j] == 0) ==>
              forall j :: 0 <= j < |p.batch| ==> Complete(p, i, length).batch[j] == 0 && Complete(p, i, length).tokens[j] == 0
    ensures p.batch[i] != 0 && (p.batch[i] != 1 || exists j :: 0 <= j < |p.batch| && j != i && p.batch[j] != 0) ==>
              var q := Complete(p, i, length);
              && q.batch == p.batch[i := p.batch[i] - 1]
              && q.tokens == p.tokens[i := p.tokens[i] - length]
  {
    var batch := p.batch[i := p.batch[i] - 1];
    assert batch[i] == p.batch[i] - 1;
    if j :| 0 <= j < |p.batch| && j != i && p.batch[j] != 0 {
      assert batch[j] != 0;
    }
  }

  function Extend(p: Pool, limit: int): Pool {
    Pool(p.batch + [0], p.tokens + [0], p.limits + [limit])
  }

  function Shrink(p: Pool, i: nat): Pool
    requires i < |p.batch| && i < |p.tokens| && i < |p.limits|
  {
    Pool(DeleteAt(p.batch, i), DeleteAt(p.tokens, i), DeleteAt(p.limits, i))
  }

  lemma ExtendThenShrink(p: Pool, limit: int)
    requires |p.batch| == |p.tokens| == |p.limits|
    ensures Shrink(Extend(p, limit), |p.batch|) == p
  {
    var q := Extend(p, limit);
    assert DeleteAt(q.batch, |p.batch|) == p.batch;
    assert DeleteAt(q.tokens, |p.batch|) == p.tokens;
    assert DeleteAt(q.limits, |p.batch|) == p.limits;
  }

  // ---------------------------------------------------------------- selection

  // Position `i` may serve a request of this size.
  predicate Eligible(p: Pool, addresses: seq<Address>, need: int, available: set<Address>, i: nat) {
    i < |p.limits| && i < |addresses| && need <= p.limits[i] && addresses[i] in available
  }

  ghost predicate NoneEligible(p: Pool, addresses: seq<Address>, need: int, available: set<Address>) {
    forall j: nat :: !Eligible(p, addresses, need, available, j)
  }

  // The prefill choice: least tokens, then least index.
  ghost predicate PrefillChoice(p: Pool, addresses: seq<Address>, need: int, available: set<Address>, i: nat)
    requires Sized(p, |addresses|)
  {
    && Eligible(p, addresses, need, available, i)
    && forall j: nat :: Eligible(p, addresses, need, available, j) ==>
         p.tokens[i] < p.tokens[j] || (p.tokens[i] == p.tokens[j] && i <= j)
  }

  // What the decode selection computes: a least batch; at batch zero simply the first
  // such position, otherwise the first of least tokens among the least batches.
  ghost predicate DecodeChoice(p: Pool, addresses: seq<Address>, need: int, available: set<Address>, i: nat)
    requires Sized(p, |addresses|)
  {
    && Eligible(p, addresses, need, available, i)
    && forall j: nat :: Eligible(p, addresses, need, available, j) ==>
         p.batch[i] <= p.batch[j] &&
         (p.batch[i] == p.batch[j] ==>
            if p.batch[i] == 0 then i <= j
            else p.tokens[i] < p.tokens[j] || (p.tokens[i] == p.tokens[j] && i <= j))
  }

  // The lexicographic minimum of (batch, tokens, index).
  ghost predicate LexicographicChoice(p: Pool, addresses: seq<Address>, need: int, available: set<Address>, i: nat)
    requires Sized(p, |addresses|)
  {
    && Eligible(p, addresses, need, available, i)
    && forall j: nat :: Eligible(p, addresses, need, available, j) ==>
         || p.batch[i] < p.batch[j]
         || (p.batch[i] == p.batch[j] && p.tokens[i] < p.tokens[j])
         || (p.batch[i] == p.batch[j] && p.tokens[i] == p.tokens[j] && i <= j)
  }

  /** If an idle position never carries tokens, the zero-batch shortcut agrees with the
      general branch: the decode choice is the lexicographic minimum. */
  lemma ShortcutAgrees(p: Pool, addresses: seq<Address>, need: int, available: set<Address>, i: nat)
    requires Sized(p, |addresses|) && forall j :: 0 <= j < |addresses| && p.batch[j] == 0 ==> p.tokens[j] == 0
    ensures DecodeChoice(p, addresses, need, available, i) <==> LexicographicChoice(p, addresses, need, available, i)
  {
  }

  /** And it is needed: with tokens left on an idle position the shortcut picks otherwise. */
  lemma ShortcutNeedsIdleEmpty(a: Address, b: Address)
    ensures var p := Pool([0, 0], [5, 0], [10, 10]);
            && DecodeChoice(p, [a, b], 1, {a, b}, 0)
            && LexicographicChoice(p, [a, b], 1, {a, b}, 1)
            && !LexicographicChoice(p, [a, b], 1, {a, b}, 0)
  {
    var p := Pool([0, 0], [5, 0], [10, 10]);
    assert Eligible(p, [a, b], 1, {a, b}, 0) && Eligible(p, [a, b], 1, {a, b}, 1);
  }

  // ---------------------------------------------------------------- the shared list

  // A mutable list of addresses, shared by reference.
  class AddressList {
    var items: seq<Address>

    constructor (items: seq<Address>)
      ensures this.items == items
    {
      this.items := items;
    }

    method Append(a: Address)
      modifies this
      ensures items == old(items) + [a]
    {
      items := items + [a];
    }

    // Drops the first occurrence; the caller has checked that there is one.
    method Remove(a: Address)
      requires a in items
      modifies this
      ensures items == Without(old(items), a)
    {
      items := Without(items, a);
    }
  }

  // ---------------------------------------------------------------- the scheduler

  class LoadBalancedScheduler {
    const prefillInstances: AddressList
    const decodeInstances: AddressList
    var prefill: Pool
    var decode: Pool

    // The arrays describe the shared lists, position by position.
    predicate Aligned()
      reads this, prefillInstances, decodeInstances
    {
      Sized(prefill, |prefillInstances.items|) && Sized(decode, |decodeInstances.items|)
    }

    // `limits` are the model lengths each instance reported.
    constructor (
      prefillInstances: AddressList, decodeInstances: AddressList, prefillLimits: seq<int>, decodeLimits: seq<int>)
      requires |prefillLimits| == |prefillInstances.items| && |decodeLimits| == |decodeInstances.items|
      ensures this.prefillInstances == prefillInstances && this.decodeInstances == decodeInstances
      ensures Aligned()
      ensures prefill == Pool(Zeros(|prefillLimits|), Zeros(|prefillLimits|), prefillLimits)
      ensures decode == Pool(Zeros(|decodeLimits|), Zeros(|decodeLimits|), decodeLimits)
    {
      this.prefillInstances, this.decodeInstances := prefillInstances, decodeInstances;
      prefill := Pool(Zeros(|prefillLimits|), Zeros(|prefillLimits|), prefillLimits);
      decode := Pool(Zeros(|decodeLimits|), Zeros(|decodeLimits|), decodeLimits);
    }

    method AddInstanceState(role: Role, maxModelLen: int)
      modifies this
      ensures prefill == if role.Prefill? then Extend(old(prefill), maxModelLen) else old(prefill)
      ensures decode == if role.Prefill? then old(decode) else Extend(old(decode), maxModelLen)
    {
      if role == Prefill {
        prefill := Pool(prefill.batch + [0], prefill.tokens + [0], prefill.limits + [maxModelLen]);
      } else {
        decode := Pool(decode.batch + [0], decode.tokens + [0], decode.limits + [maxModelLen]);
      }
    }

    method RemoveInstanceState(role: Role, index: nat)
      requires role.Prefill? ==> Sized(prefill, |prefill.batch|) && index < |prefill.batch|
      requires !role.Prefill? ==> Sized(decode, |decode.batch|) && index < |decode.batch|
      modifies this
      ensures prefill == if role.Prefill? then Shrink(old(prefill), index) else old(prefill)
      ensures decode == if role.Prefill? then old(decode) else Shrink(old(decode), index)
    {
      if role == Prefill {
        prefill := Pool(DeleteAt(prefill.batch, index), DeleteAt(prefill.tokens, index), DeleteAt(prefill.limits, index));
      } else {
        decode := Pool(DeleteAt(decode.batch, index), DeleteAt(decode.tokens, index), DeleteAt(decode.limits, index));
      }
    }

    method SchedulePrefill(requestLen: int, maxTokens: int, available: set<Address>)
      returns (r: Option<Address>, ghost i: nat)
      requires Aligned()
      modifies this
      ensures r.None? <==> NoneEligible(old(prefill), prefillInstances.items, requestLen + maxTokens, available)
      ensures r.None? ==> prefill == old(prefill)
      ensures r.Some? ==>
                && i < |prefillInstances.items| && r.value == prefillInstances.items[i]
                && PrefillChoice(old(prefill), prefillInstances.items, requestLen + maxTokens, available, i)
                && prefill == Bump(old(prefill), i, requestLen)
      ensures decode == old(decode)
    {
      i := 0;
      var addresses := prefillInstances.items;
      var candidates := Candidates(prefill, addresses, requestLen + maxTokens, available);
      if candidates == [] {
        return None, 0;
      }
      var minIndex := FirstLeast(prefill.tokens, candidates);
      i := minIndex;
      prefill := prefill.(batch := prefill.batch[minIndex := prefill.batch[minIndex] + 1]);
      prefill := prefill.(tokens := prefill.tokens[minIndex := prefill.tokens[minIndex] + requestLen]);
      return Some(addresses[minIndex]), i;
    }

    method ScheduleDecode(requestLen: int, maxTokens: int, available: set<Address>)
      returns (r: Option<Address>, ghost i: nat)
      requires Aligned()
      modifies this
      ensures r.None? <==> NoneEligible(old(decode), decodeInstances.items, requestLen + maxTokens, available)
      ensures r.None? ==> decode == old(decode)
      ensures r.Some? ==>
                && i < |decodeInstances.items| && r.value == decodeInstances.items[i]
                && DecodeChoice(old(decode), decodeInstances.items, requestLen + maxTokens, available, i)
                && decode == Bump(old(decode), i, requestLen)
      ensures prefill == old(prefill)
    {
      i := 0;
      var addresses := decodeInstances.items;
      var candidates := Candidates(decode, addresses, requestLen + maxTokens, available);
      if candidates == [] {
        return None, 0;
      }
      var minIndex := FirstLeast(decode.batch, candidates);
      if decode.batch[minIndex] != 0 {
        var minIndices := EqualTo(decode.batch, candidates, decode.batch[minIndex]);
        minIndex := FirstLeast(decode.tokens, minIndices);
      }
      i := minIndex;
      decode := decode.(batch := decode.batch[minIndex := decode.batch[minIndex] + 1]);
      decode := decode.(tokens := decode.tokens[minIndex := decode.tokens[minIndex] + requestLen]);
      return Some(addresses[minIndex]), i;
    }

    method CompletePrefill(instance: Address, length: int) returns (r: Raised)
      requires Aligned()
      modifies this
      ensures r == if instance in prefillInstances.items then Fine else ValueError
      ensures prefill == if r.Fine? then Complete(old(prefill), IndexOf(prefillInstances.items, instance), length) else old(prefill)
      ensures decode == old(decode)
    {
      if instance !in prefillInstances.items {
        return ValueError;
      }
      var index := IndexOf(prefillInstances.items, instance);
      if prefill.batch[index] == 0 {
        return Fine;
      }
      prefill := prefill.(batch := prefill.batch[index := prefill.batch[index] - 1]);
      var idle := AllZero(prefill.batch);
      if idle {
        prefill := prefill.(tokens := Zeros(|prefillInstances.items|));
      } else {
        prefill := prefill.(tokens := prefill.tokens[index := prefill.tokens[index] - length]);
      }
      return Fine;
    }

    method CompleteDecode(instance: Address, length: int) returns (r: Raised)
      requires Aligned()
      modifies this
      ensures r == if instance in decodeInstances.items then Fine else ValueError
      ensures decode == if r.Fine? then Complete(old(decode), IndexOf(decodeInstances.items, instance), length) else old(decode)
      ensures prefill == old(prefill)
    {
      if instance !in decodeInstances.items {
        return ValueError;
      }
      var index := IndexOf(decodeInstances.items, instance);
      if decode.batch[index] == 0 {
        return Fine;
      }
      decode := decode.(batch := decode.batch[index := decode.batch[index] - 1]);
      var idle := AllZero(decode.batch);
      if idle {
        decode := decode.(tokens := Zeros(|decodeInstances.items|));
      } else {
        decode := decode.(tokens := decode.tokens[index := decode.tokens[index] - length]);
      }
      return Fine;
    }
  }

  // ---------------------------------------------------------------- the loops of the selection

  ghost predicate AscendingIndices(c: seq<nat>) {
    forall k, l :: 0 <= k < l < |c| ==> c[k] < c[l]
  }

  method Candidates(p: Pool, addresses: seq<Address>, need: int, available: set<Address>) returns (c: seq<nat>)
    requires Sized(p, |addresses|)
    ensures AscendingIndices(c)
    ensures forall j: nat :: j in c <==> Eligible(p, addresses, need, available, j)
  {
    c := [];
    for i := 0 to |p.limits|
      invariant AscendingIndices(c)
      invariant forall j: nat :: j in c <==> j < i && Eligible(p, addresses, need, available, j)
      invariant forall k :: 0 <= k < |c| ==> c[k] < i
    {
      if need <= p.limits[i] && addresses[i] in available {
        c := c + [i];
      }
    }
  }

  method FirstLeast(key: seq<int>, c: seq<nat>) returns (i: nat)
    requires c != [] && AscendingIndices(c) && forall j :: j in c ==> j < |key|
    ensures i in c && i < |key|
    ensures forall j :: j in c ==> key[i] < key[j] || (key[i] == key[j] && i <= j)
  {
    assert forall k :: 0 <= k < |c| ==> c[k] in c;
    i := c[0];
    ghost var at := 0;
    for k := 1 to |c|
      invariant 0 <= at < k && c[at] == i
      invariant forall l :: 0 <= l < k ==> key[i] < key[c[l]] || (key[i] == key[c[l]] && i <= c[l])
    {
      assert c[at] < c[k];
      if key[c[k]] < key[i] {
        i := c[k];
        at := k;
      }
    }
  }

  method EqualTo(key: seq<int>, c: seq<nat>, value: int) returns (out: seq<nat>)
    requires AscendingIndices(c) && forall j :: j in c ==> j < |key|
    ensures AscendingIndices(out)
    ensures forall j :: j in out <==> j in c && key[j] == value
  {
    out := [];
    assert forall k :: 0 <= k < |c| ==> c[k] in c;
    for k := 0 to |c|
      invariant AscendingIndices(out)
      invariant forall j :: j in out ==> j < |key| && key[j] == value && j in c
      invariant forall l :: 0 <= l < k && key[c[l]] == value ==> c[l] in out
      invariant forall l :: 0 <= l < |out| ==> k < |c| ==> out[l] < c[k]
    {
      if key[c[k]] == value {
        out := out + [c[k]];
      }
    }
  }

  method AllZero(batch: seq<int>) returns (r: bool)
    ensures r <==> Idle(batch)
  {
    for i := 0 to |batch|
      invariant forall j :: 0 <= j < i ==> batch[j] == 0
    {
      if batch[i] != 0 {
        return false;
      }
    }
    return true;
  }
}
