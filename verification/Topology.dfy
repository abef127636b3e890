/** Expansion of nodes plus tensor/data-parallel sizes into instance endpoints. */
module Topology {
  import opened Common

  // ---------------------------------------------------------------- powers of two

  function Pow2(k: nat): (p: nat)
    ensures p >= 1
  {
    if k == 0 then 1 else 2 * Pow2(k - 1)
  }

  ghost predicate IsPow2(n: int) {
    exists k: nat :: n == Pow2(k)
  }

  // Bitwise and of two unbounded non-negative integers, bit by bit.
  function BitAnd(a: nat, b: nat): nat {
    if a == 0 || b == 0 then 0
    else 2 * BitAnd(a / 2, b / 2) + if a % 2 == 1 && b % 2 == 1 then 1 else 0
  }

  predicate IsPowerOfTwo(n: int) {
    n > 0 && BitAnd(n, n - 1) == 0
  }

  lemma Pow2Double(n: int)
    requires n > 0 && n % 2 == 0
    ensures IsPow2(n) <==> IsPow2(n / 2)
  {
    if IsPow2(n) {
      var k: nat :| n == Pow2(k);
      assert k > 0 && n / 2 == Pow2(k - 1);
    }
    if IsPow2(n / 2) {
      var k: nat :| n / 2 == Pow2(k);
      assert n == Pow2(k + 1);
    }
  }

  lemma Pow2Odd(n: int)
    requires n > 0 && n % 2 == 1
    ensures IsPow2(n) <==> n == 1
  {
    assert Pow2(0) == 1;
    if IsPow2(n) {
      var k: nat :| n == Pow2(k);
    }
  }

  lemma {:induction false} BitAndZero(n: nat)
    ensures BitAnd(n, n) == n
  {
    if n > 0 {
      BitAndZero(n / 2);
    }
  }

  /** The bit test recognises exactly the powers of two. */
  lemma {:induction false} BitTest(n: int)
    ensures IsPowerOfTwo(n) <==> IsPow2(n)
    decreases if n < 0 then 0 else n
  {
    if n > 0 {
      if n % 2 == 0 {
        // The low bits are 0 and 1; the high parts are those of n/2 and n/2 - 1.
        BitTest(n / 2);
        Pow2Double(n);
        assert (n - 1) / 2 == n / 2 - 1;
      } else {
        // n and n - 1 share every bit above the lowest.
        Pow2Odd(n);
        assert (n - 1) / 2 == n / 2 && (n - 1) % 2 == 0;
        BitAndZero(n / 2);
      }
    }
  }

  lemma EvenProduct(a: int, b: int)
    requires a % 2 == 1 && b % 2 == 1
    ensures (a * b) % 2 == 1
  {
    var x, y := a / 2, b / 2;
    assert a * b == 2 * (2 * x * y + x + y) + 1;
  }

  // A factor of a power of two is a power of two.
  lemma {:induction false} FactorsArePow2(a: int, b: int, k: nat)
    requires a > 0 && b > 0 && a * b == Pow2(k)
    ensures IsPow2(a) && IsPow2(b)
    decreases k
  {
    if k == 0 {
      MulOrder(a, 1, b);
      MulOrder(b, 1, a);
      assert Pow2(0) == 1;
    } else if a % 2 == 0 {
      var h := a / 2;
      assert a * b == 2 * (h * b);
      FactorsArePow2(h, b, k - 1);
      Pow2Double(a);
    } else if b % 2 == 0 {
      var h := b / 2;
      assert a * b == 2 * (a * h);
      FactorsArePow2(a, h, k - 1);
      Pow2Double(b);
    } else {
      EvenProduct(a, b);
      assert false;
    }
  }

  lemma {:induction false} Pow2Sum(i: nat, j: nat)
    ensures Pow2(i) * Pow2(j) == Pow2(i + j)
    decreases i
  {
    if i > 0 {
      Pow2Sum(i - 1, j);
      assert Pow2(i) * Pow2(j) == 2 * (Pow2(i - 1) * Pow2(j));
    }
  }

  // Of two powers of two, the smaller divides the larger.
  lemma SmallerDivides(a: int, b: int)
    requires IsPow2(a) && IsPow2(b) && a <= b
    ensures a * (b / a) == b && b % a == 0 && b / a >= 1
  {
    var i: nat :| a == Pow2(i);
    var j: nat :| b == Pow2(j);
    Pow2Order(i, j);
    Pow2Sum(i, j - i);
    MulDiv(a, Pow2(j - i), 0);
  }

  lemma {:induction false} Pow2Order(i: nat, j: nat)
    ensures Pow2(i) <= Pow2(j) ==> i <= j
  {
    if i > 0 && j > 0 {
      Pow2Order(i - 1, j - 1);
    }
  }

  // ---------------------------------------------------------------- division facts

  lemma DivBound(n: int, d: int, q: int)
    requires d > 0 && 0 <= n < d * q
    ensures 0 <= n / d < q
  {
    assert d * (n / d) <= n;
    MulOrder(d, n / d, q);
  }

  // ---------------------------------------------------------------- the configuration

  datatype Result<T> = Good(value: T) | ValueError

  // A node after `rsplit(":", 1)` and integer conversion of its port.
  datatype Node = Node(host: string, basePort: int)

  predicate Valid(nodeCount: nat, tp: int, dp: int, world: int) {
    && tp >= 1 && dp >= 1 && world >= 1
    && IsPowerOfTwo(tp) && IsPowerOfTwo(dp)
    && tp * dp == nodeCount * world
  }

  /** The configurations accepted are those of powers of two that add up. */
  lemma ValidExactly(nodeCount: nat, tp: int, dp: int, world: int)
    ensures Valid(nodeCount, tp, dp, world) <==> IsPow2(tp) && IsPow2(dp) && world >= 1 && tp * dp == nodeCount * world
  {
    BitTest(tp);
    BitTest(dp);
  }

  lemma ValidatedPow2(nodeCount: nat, tp: int, dp: int, world: int)
    requires Valid(nodeCount, tp, dp, world)
    ensures IsPow2(tp) && IsPow2(world) && IsPow2(nodeCount) && nodeCount > 0
  {
    BitTest(tp);
    BitTest(dp);
    var i: nat :| tp == Pow2(i);
    var j: nat :| dp == Pow2(j);
    Pow2Sum(i, j);
    assert nodeCount > 0;
    FactorsArePow2(nodeCount, world, i + j);
  }

  lemma ShapeOf(nodeCount: nat, tp: int, dp: int, world: int)
    requires tp >= 1 && world >= 1 && tp * dp == nodeCount * world
    requires IsPow2(tp) && IsPow2(world) && tp <= world
    ensures world / tp >= 1 && tp * (world / tp) == world && dp == nodeCount * (world / tp)
  {
    SmallerDivides(tp, world);
    RatioShape(nodeCount, tp, dp, world, world / tp);
  }

  /** A validated topology has a node count and a world size that are themselves
      powers of two, so one of TP size and world size divides the other. */
  lemma ValidatedShape(nodeCount: nat, tp: int, dp: int, world: int)
    requires Valid(nodeCount, tp, dp, world)
    ensures IsPow2(nodeCount) && IsPow2(world)
    ensures tp <= world ==> world / tp >= 1 && tp * (world / tp) == world && dp == nodeCount * (world / tp)
    ensures world <= tp ==> tp / world >= 1 && world * (tp / world) == tp && nodeCount == dp * (tp / world)
  {
    ValidatedPow2(nodeCount, tp, dp, world);
    DenseShape(nodeCount, tp, dp, world);
    SparseShape(nodeCount, tp, dp, world);
  }

  lemma DenseShape(nodeCount: nat, tp: int, dp: int, world: int)
    requires Valid(nodeCount, tp, dp, world)
    ensures tp <= world ==> world / tp >= 1 && tp * (world / tp) == world && dp == nodeCount * (world / tp)
  {
    ValidatedPow2(nodeCount, tp, dp, world);
    if tp <= world {
      ShapeOf(nodeCount, tp, dp, world);
    }
  }

  lemma SparseShape(nodeCount: nat, tp: int, dp: int, world: int)
    requires Valid(nodeCount, tp, dp, world)
    ensures world <= tp ==> tp / world >= 1 && world * (tp / world) == tp && nodeCount == dp * (tp / world)
  {
    ValidatedPow2(nodeCount, tp, dp, world);
    if world <= tp {
      ShapeOf(dp, world, nodeCount, tp);
    }
  }

  lemma RatioShape(outer: int, small: int, inner: int, large: int, d: int)
    requires small > 0 && small * d == large && small * inner == outer * large
    ensures inner == outer * d
  {
    assert outer * (small * d) == small * (outer * d);
    MulOrder(small, inner, outer * d);
  }

  // ---------------------------------------------------------------- the closed form

  // The node instance `i` starts on, and its rank among the instances of that node.
  function MainNode(i: nat, tp: int, world: int): int
    requires world >= 1
  {
    i * tp / world
  }

  function LocalIndex(i: nat, tp: int, world: int): int
    requires tp >= 1 && world >= 1
  {
    if tp <= world then i % (world / tp) else 0
  }

  lemma ClosedForm(nodeCount: nat, tp: int, dp: int, world: int, i: nat)
    requires Valid(nodeCount, tp, dp, world) && i < dp
    ensures 0 <= MainNode(i, tp, world) < nodeCount
    ensures tp <= world ==> MainNode(i, tp, world) == i / (world / tp)
    ensures world <= tp ==> MainNode(i, tp, world) == i * (tp / world)
  {
    ValidatedShape(nodeCount, tp, dp, world);
    NodeInRange(nodeCount, tp, dp, world, i);
    if tp <= world {
      DenseNode(i, tp, world, world / tp);
    }
    if world <= tp {
      SparseNode(i, tp, world, tp / world);
    }
  }

  lemma NodeInRange(nodeCount: nat, tp: int, dp: int, world: int, i: nat)
    requires tp >= 1 && world >= 1 && tp * dp == nodeCount * world && i < dp
    ensures 0 <= i * tp / world < nodeCount
  {
    MulOrder(tp, i, dp);
    MulOrder(tp, 0, i);
    DivBound(i * tp, world, nodeCount);
  }

  // Several instances to a node: `d` of them.
  lemma DenseNode(i: nat, tp: int, world: int, d: int)
    requires tp > 0 && d > 0 && tp * d == world
    ensures i * tp / world == i / d
  {
    var q, r := i / d, i % d;
    MulOrder(tp, r, d);
    assert 0 <= tp * r < world;
    assert i * tp == (d * q + r) * tp == (tp * d) * q + tp * r;
    MulDiv(world, q, tp * r);
  }

  // Several nodes to an instance: `d` of them.
  lemma SparseNode(i: nat, tp: int, world: int, d: int)
    requires world > 0 && world * d == tp
    ensures i * tp / world == i * d
  {
    assert i * (world * d) == world * (i * d);
    MulDiv(world, i * d, 0);
  }

  // How many of the first `n` instances start on node `m`.
  function HostedBy(n: nat, m: int, tp: int, world: int): nat
    requires world >= 1
  {
    if n == 0 then 0
    else HostedBy(n - 1, m, tp, world) + if MainNode(n - 1, tp, world) == m then 1 else 0
  }

  // The instances placed on node `m` once the first `n` have been placed, `d` to a node.
  function DenseCount(n: nat, m: nat, d: nat): int {
    if n <= d * m then 0 else if n >= d * m + d then d else n - d * m
  }

  lemma {:induction false} DenseSoFar(n: nat, m: nat, tp: int, world: int, d: nat)
    requires tp > 0 && d > 0 && tp * d == world && world > 0
    ensures HostedBy(n, m, tp, world) == DenseCount(n, m, d)
  {
    MulOrder(d, 0, m + 1);
    if n > 0 {
      DenseSoFar(n - 1, m, tp, world, d);
      DenseNode(n - 1, tp, world, d);
      DenseStep(n - 1, m, d);
    }
  }

  lemma DenseStep(n: nat, m: nat, d: nat)
    requires d > 0
    ensures DenseCount(n + 1, m, d) == DenseCount(n, m, d) + if n / d == m then 1 else 0
  {
    var q := n / d;
    assert d * q <= n < d * q + d;
    assert d * (q + 1) == d * q + d && d * (m + 1) == d * m + d;
    MulOrder(d, q + 1, m);
    MulOrder(d, m + 1, q);
  }

  // The same when an instance spans `d` nodes.
  lemma {:induction false} SparseSoFar(n: nat, m: nat, tp: int, world: int, d: nat)
    requires world > 0 && d > 0 && world * d == tp
    ensures HostedBy(n, m, tp, world) == if m % d == 0 && m / d < n then 1 else 0
  {
    if n > 0 {
      SparseSoFar(n - 1, m, tp, world, d);
      SparseNode(n - 1, tp, world, d);
      SparseStep(n - 1, m, d);
    }
  }

  lemma SparseStep(n: nat, m: nat, d: nat)
    requires d > 0
    ensures n * d == m <==> m % d == 0 && m / d == n
  {
    MulDiv(d, n, 0);
    assert d * (m / d) + m % d == m;
  }

  /** Each node hosts exactly world/tp instances; when an instance spans several
      nodes, every (tp/world)-th node hosts one and the others none. */
  lemma InstancesPerNode(nodeCount: nat, tp: int, dp: int, world: int, m: nat)
    requires Valid(nodeCount, tp, dp, world) && m < nodeCount
    ensures tp <= world ==> HostedBy(dp, m, tp, world) == world / tp
    ensures world < tp ==> HostedBy(dp, m, tp, world) == if m % (tp / world) == 0 then 1 else 0
  {
    ValidatedShape(nodeCount, tp, dp, world);
    if tp <= world {
      DensePerNode(nodeCount, tp, dp, world, m, world / tp);
    } else {
      SparsePerNode(nodeCount, tp, dp, world, m, tp / world);
    }
  }

  lemma DensePerNode(nodeCount: nat, tp: int, dp: nat, world: int, m: nat, d: nat)
    requires tp > 0 && d > 0 && world > 0 && tp * d == world && dp == nodeCount * d && m < nodeCount
    ensures HostedBy(dp, m, tp, world) == d
  {
    DenseSoFar(dp, m, tp, world, d);
    MulOrder(d, m + 1, nodeCount);
    assert d * (m + 1) == d * m + d;
  }

  lemma SparsePerNode(nodeCount: nat, tp: int, dp: nat, world: int, m: nat, d: nat)
    requires world > 0 && d > 0 && world * d == tp && nodeCount == dp * d && m < nodeCount
    ensures HostedBy(dp, m, tp, world) == if m % d == 0 then 1 else 0
  {
    SparseSoFar(dp, m, tp, world, d);
    DivBound(m, d, dp);
  }

  lemma HostedIsLocalIndex(nodeCount: nat, tp: int, dp: int, world: int, i: nat)
    requires Valid(nodeCount, tp, dp, world) && i < dp
    ensures HostedBy(i, MainNode(i, tp, world), tp, world) == LocalIndex(i, tp, world)
  {
    ValidatedShape(nodeCount, tp, dp, world);
    if tp <= world {
      DenseRank(i, tp, world, world / tp);
    } else {
      SparseRank(i, tp, world, tp / world);
    }
  }

  lemma DenseRank(i: nat, tp: int, world: int, d: nat)
    requires tp > 0 && d > 0 && world > 0 && tp * d == world
    ensures HostedBy(i, MainNode(i, tp, world), tp, world) == i % d
  {
    var m := MainNode(i, tp, world);
    DenseNode(i, tp, world, d);
    DenseSoFar(i, m, tp, world, d);
    DenseRemainder(i, d);
  }

  lemma DenseRemainder(i: nat, d: nat)
    requires d > 0
    ensures DenseCount(i, i / d, d) == i % d
  {
    var q := i / d;
    assert d * q + i % d == i;
  }

  lemma SparseRank(i: nat, tp: int, world: int, d: nat)
    requires world > 0 && d > 0 && world * d == tp
    ensures HostedBy(i, MainNode(i, tp, world), tp, world) == 0
  {
    SparseNode(i, tp, world, d);
    MulOrder(d, 0, i + 1);
    SparseSoFar(i, i * d, tp, world, d);
    SparseStep(i, i * d, d);
  }

  // ---------------------------------------------------------------- text

  const DIGITS := "0123456789"

  function Digits(n: nat): (s: string)
    ensures |s| >= 1 && forall i :: 0 <= i < |s| ==> '0' <= s[i] <= '9'
  {
    if n < 10 then [DIGITS[n]] else Digits(n / 10) + [DIGITS[n % 10]]
  }

  function Decimal(n: int): (s: string)
    ensures ':' !in s && s != "" && (s[0] == '-' <==> n < 0)
  {
    if n < 0 then "-" + Digits(-n) else Digits(n)
  }

  // The number that decimal digits denote.
  function ValueOf(s: string): int {
    if s == "" then 0 else 10 * ValueOf(s[..|s| - 1]) + (s[|s| - 1] as int - '0' as int)
  }

  /** The decimal text of a number denotes it. */
  lemma {:induction false} DigitsDenote(n: nat)
    ensures ValueOf(Digits(n)) == n
    ensures n > 0 ==> Digits(n)[0] != '0'
  {
    var s := Digits(n);
    LastDigit(n);
    assert DIGITS[n % 10] as int - '0' as int == n % 10;
    if n >= 10 {
      DigitsDenote(n / 10);
    } else {
      assert s[..|s| - 1] == "";
    }
  }

  lemma LastDigit(n: nat)
    ensures var s := Digits(n); s[|s| - 1] == DIGITS[n % 10] && (n >= 10 ==> s[..|s| - 1] == Digits(n / 10)) && (n < 10 <==> |s| == 1)
  {
  }

  lemma DigitInjective(i: nat, j: nat)
    requires i < 10 && j < 10 && DIGITS[i] == DIGITS[j]
    ensures i == j
  {
  }

  lemma {:induction false} DigitsInjective(m: nat, n: nat)
    requires Digits(m) == Digits(n)
    ensures m == n
  {
    LastDigit(m);
    LastDigit(n);
    DigitInjective(m % 10, n % 10);
    if m >= 10 && n >= 10 {
      DigitsInjective(m / 10, n / 10);
    }
  }

  lemma DecimalInjective(m: int, n: int)
    requires Decimal(m) == Decimal(n)
    ensures m == n
  {
    assert m < 0 <==> n < 0;
    if m < 0 {
      AfterSign(m);
      AfterSign(n);
      DigitsInjective(-m, -n);
    } else {
      DigitsInjective(m, n);
    }
  }

  lemma AfterSign(n: int)
    requires n < 0
    ensures Decimal(n)[1..] == Digits(-n)
  {
  }

  function Endpoint(host: string, port: int): string {
    host + ":" + Decimal(port)
  }

  // ---------------------------------------------------------------- parsing a node

  // `entry.rsplit(":", 1)`: everything before and after the last colon.
  function LastColon(s: string): (r: Option<nat>)
    ensures r.None? <==> ':' !in s
    ensures r.Some? ==> r.value < |s| && s[r.value] == ':' && forall k :: r.value < k < |s| ==> s[k] != ':'
  {
    if s == [] then None
    else if s[|s| - 1] == ':' then Some(|s| - 1)
    else
      LastColon(s[..|s| - 1])
  }

  // The text determines host and port: the last colon separates them.
  lemma EndpointInjective(h1: string, p1: int, h2: string, p2: int)
    requires Endpoint(h1, p1) == Endpoint(h2, p2)
    ensures h1 == h2 && p1 == p2
  {
    var s := Endpoint(h1, p1);
    EndpointSplits(h1, p1);
    EndpointSplits(h2, p2);
    assert h1 == s[..|h1|] == h2;
    assert Decimal(p1) == s[|h1| + 1..] == Decimal(p2);
    DecimalInjective(p1, p2);
  }

  lemma EndpointSplits(host: string, port: int)
    ensures LastColon(Endpoint(host, port)) == Some(|host|)
    ensures Endpoint(host, port)[..|host|] == host && Endpoint(host, port)[|host| + 1..] == Decimal(port)
  {
    SplitsAt(host, Decimal(port));
  }

  lemma SplitsAt(host: string, tail: string)
    requires ':' !in tail
    ensures var s := host + ":" + tail; LastColon(s) == Some(|host|) && s[..|host|] == host && s[|host| + 1..] == tail
  {
    var s := host + ":" + tail;
    assert s[|host|] == ':';
    forall k | |host| < k < |s| ensures s[k] != ':' {
      assert s[k] == tail[k - |host| - 1];
    }
    LastColonIs(s, |host|);
  }

  lemma LastColonIs(s: string, i: nat)
    requires i < |s| && s[i] == ':' && forall k :: i < k < |s| ==> s[k] != ':'
    ensures LastColon(s) == Some(i)
  {
    var r := LastColon(s);
    assert ':' in s;
  }

  // `parseInt` stands for Python's integer conversion of the port text.
  function ParseNode(entry: string, parseInt: string -> Option<int>): Result<Node> {
    match LastColon(entry)
    case None => ValueError
    case Some(i) =>
      match parseInt(entry[i + 1..])
      case None => ValueError
      case Some(port) => Good(Node(entry[..i], port))
  }

  // ---------------------------------------------------------------- the expansion

  method ValidateTopology(nodeCount: nat, tp: int, dp: int, world: int) returns (ok: bool)
    ensures ok <==> Valid(nodeCount, tp, dp, world)
  {
    if tp < 1 { return false; }
    if dp < 1 { return false; }
    if world < 1 { return false; }
    if !IsPowerOfTwo(tp) { return false; }
    if !IsPowerOfTwo(dp) { return false; }
    if tp * dp != nodeCount * world { return false; }
    return true;
  }

  // Instance `i`'s endpoint: its node's base port plus its rank on that node.
  ghost predicate ClosedFormEndpoint(nodes: seq<Node>, tp: int, world: int, i: nat, endpoint: string)
    requires tp >= 1 && world >= 1
  {
    var m := MainNode(i, tp, world);
    && 0 <= m < |nodes|
    && endpoint == Endpoint(nodes[m].host, nodes[m].basePort + LocalIndex(i, tp, world))
  }

  method ParseNodes(nodes: seq<string>, parseInt: string -> Option<int>) returns (r: Result<seq<Node>>)
    ensures r.Good? <==> forall m :: 0 <= m < |nodes| ==> ParseNode(nodes[m], parseInt).Good?
    ensures r.Good? ==> |r.value| == |nodes|
    ensures r.Good? ==> forall m :: 0 <= m < |nodes| ==> ParseNode(nodes[m], parseInt) == Good(r.value[m])
  {
    var parsed: seq<Node> := [];
    for m := 0 to |nodes|
      invariant |parsed| == m
      invariant forall k :: 0 <= k < m ==> ParseNode(nodes[k], parseInt) == Good(parsed[k])
    {
      var node := ParseNode(nodes[m], parseInt);
      if node.ValueError? {
        return ValueError;
      }
      parsed := parsed + [node.value];
    }
    return Good(parsed);
  }

  function CountOn(counts: map<int, int>, m: int): int {
    if m in counts then counts[m] else 0
  }

  // The counters after the first `i` instances.
  ghost predicate CountsHosted(counts: map<int, int>, nodeCount: nat, i: nat, tp: int, world: int)
    requires world >= 1
  {
    forall m :: 0 <= m < nodeCount ==> CountOn(counts, m) == HostedBy(i, m, tp, world)
  }

  lemma CountedOneMore(counts: map<int, int>, nodeCount: nat, i: nat, tp: int, world: int)
    requires world >= 1 && CountsHosted(counts, nodeCount, i, tp, world) && 0 <= MainNode(i, tp, world) < nodeCount
    ensures var m := MainNode(i, tp, world);
            CountsHosted(counts[m := CountOn(counts, m) + 1], nodeCount, i + 1, tp, world)
  {
    var m := MainNode(i, tp, world);
    var after := counts[m := CountOn(counts, m) + 1];
    forall n | 0 <= n < nodeCount ensures CountOn(after, n) == HostedBy(i + 1, n, tp, world) {
      HostedStep(i, n, tp, world);
    }
  }

  lemma HostedStep(i: nat, m: int, tp: int, world: int)
    requires world >= 1
    ensures HostedBy(i + 1, m, tp, world) == HostedBy(i, m, tp, world) + if MainNode(i, tp, world) == m then 1 else 0
  {
  }

  // The node instance `i` goes to; the out-of-range error is never raised.
  method MainNodeOf(nodeCount: nat, tp: int, dp: int, world: int, i: nat) returns (r: Result<int>)
    requires Valid(nodeCount, tp, dp, world) && i < dp
    ensures r == Good(MainNode(i, tp, world)) && 0 <= MainNode(i, tp, world) < nodeCount
    ensures HostedBy(i, MainNode(i, tp, world), tp, world) == LocalIndex(i, tp, world)
  {
    ClosedForm(nodeCount, tp, dp, world, i);
    HostedIsLocalIndex(nodeCount, tp, dp, world, i);
    var startRank := i * tp;
    var mainNode := startRank / world;
    if mainNode >= nodeCount {
      assert false;
      return ValueError;
    }
    return Good(mainNode);
  }

  // The placement loop.
  method PlaceInstances(parsed: seq<Node>, tp: int, dp: int, world: int) returns (r: Result<seq<string>>)
    requires Valid(|parsed|, tp, dp, world)
    ensures r.Good? && |r.value| == dp
    ensures forall i :: 0 <= i < dp ==> ClosedFormEndpoint(parsed, tp, world, i, r.value[i])
  {
    var counts: map<int, int> := map[];
    var endpoints: seq<string> := [];
    for i := 0 to dp
      invariant |endpoints| == i && CountsHosted(counts, |parsed|, i, tp, world)
      invariant forall k :: 0 <= k < i ==> ClosedFormEndpoint(parsed, tp, world, k, endpoints[k])
    {
      var main := MainNodeOf(|parsed|, tp, dp, world, i);
      if main.ValueError? {
        return ValueError;
      }
      var endpoint;
      endpoint, counts := PlaceOn(parsed, tp, world, i, counts, main.value);
      endpoints := endpoints + [endpoint];
    }
    return Good(endpoints);
  }

  // The next port of the node.
  method PlaceOn(parsed: seq<Node>, tp: int, world: int, i: nat, counts: map<int, int>, mainNode: int)
    returns (endpoint: string, after: map<int, int>)
    requires tp >= 1 && world >= 1 && CountsHosted(counts, |parsed|, i, tp, world)
    requires mainNode == MainNode(i, tp, world) && 0 <= mainNode < |parsed|
    requires HostedBy(i, mainNode, tp, world) == LocalIndex(i, tp, world)
    ensures ClosedFormEndpoint(parsed, tp, world, i, endpoint) && CountsHosted(after, |parsed|, i + 1, tp, world)
  {
    var localIndex := CountOn(counts, mainNode);
    CountedOneMore(counts, |parsed|, i, tp, world);
    var node := parsed[mainNode];
    var port := node.basePort + localIndex;
    after := counts[mainNode := localIndex + 1];
    endpoint := Endpoint(node.host, port);
  }

  /** Expansion fails exactly on an invalid configuration or an unparsable node.
      Otherwise instance `i` gets the closed-form node and port. */
  method ExpandTopology(nodes: seq<string>, parseInt: string -> Option<int>, tp: int, dp: int, world: int)
    returns (r: Result<seq<string>>, ghost parsed: seq<Node>)
    ensures r.Good? <==>
            Valid(|nodes|, tp, dp, world) && forall m :: 0 <= m < |nodes| ==> ParseNode(nodes[m], parseInt).Good?
    ensures r.Good? ==> |parsed| == |nodes| && |r.value| == dp
    ensures r.Good? ==> forall m :: 0 <= m < |nodes| ==> ParseNode(nodes[m], parseInt) == Good(parsed[m])
    ensures r.Good? ==> forall i :: 0 <= i < dp ==> ClosedFormEndpoint(parsed, tp, world, i, r.value[i])
  {
    parsed := [];
    var ok := ValidateTopology(|nodes|, tp, dp, world);
    if !ok {
      return ValueError, [];
    }
    var p := ParseNodes(nodes, parseInt);
    if p.ValueError? {
      return ValueError, [];
    }
    parsed := p.value;
    r := PlaceInstances(p.value, tp, dp, world);
  }

  // The node's instance of each rank.
  lemma {:induction false} RankReached(n: nat, m: int, tp: int, world: int, p: nat) returns (i: nat)
    requires world >= 1 && p < HostedBy(n, m, tp, world)
    ensures i < n && MainNode(i, tp, world) == m && HostedBy(i, m, tp, world) == p
  {
    if p == HostedBy(n - 1, m, tp, world) {
      i := n - 1;
    } else {
      i := RankReached(n - 1, m, tp, world, p);
    }
  }

  /** The instances of a node take its ports one by one from the base port on, in order. */
  lemma PortsInOrder(nodes: seq<Node>, tp: int, dp: int, world: int, endpoints: seq<string>, m: nat, p: nat) returns (i: nat)
    requires Valid(|nodes|, tp, dp, world) && |endpoints| == dp && m < |nodes| && p < HostedBy(dp, m, tp, world)
    requires forall k :: 0 <= k < dp ==> ClosedFormEndpoint(nodes, tp, world, k, endpoints[k])
    ensures i < dp && MainNode(i, tp, world) == m && HostedBy(i, m, tp, world) == p
    ensures endpoints[i] == nodes[m].host + ":" + Decimal(nodes[m].basePort + p)
  {
    i := RankReached(dp, m, tp, world, p);
    HostedIsLocalIndex(|nodes|, tp, dp, world, i);
    assert ClosedFormEndpoint(nodes, tp, world, i, endpoints[i]);
  }

  /** An endpoint is parsed back into its host and port. */
  lemma EndpointParsed(host: string, port: int, parseInt: string -> Option<int>)
    requires parseInt(Decimal(port)) == Some(port)
    ensures ParseNode(Endpoint(host, port), parseInt) == Good(Node(host, port))
  {
    EndpointSplits(host, port);
  }

  lemma SameNodeOtherRank(nodeCount: nat, tp: int, dp: int, world: int, i: nat, j: nat)
    requires Valid(nodeCount, tp, dp, world) && i < j < dp
    requires MainNode(i, tp, world) == MainNode(j, tp, world)
    ensures LocalIndex(i, tp, world) != LocalIndex(j, tp, world)
  {
    HostedIsLocalIndex(nodeCount, tp, dp, world, i);
    HostedIsLocalIndex(nodeCount, tp, dp, world, j);
    HostedGrows(i + 1, j, MainNode(i, tp, world), tp, world);
  }

  lemma {:induction false} HostedGrows(i: nat, j: nat, m: int, tp: int, world: int)
    requires world >= 1 && i <= j
    ensures HostedBy(i, m, tp, world) <= HostedBy(j, m, tp, world)
    decreases j
  {
    if i < j {
      HostedGrows(i, j - 1, m, tp, world);
    }
  }

  lemma NodeOf(nodeCount: nat, tp: int, dp: int, world: int, i: nat)
    requires Valid(nodeCount, tp, dp, world) && i < dp
    ensures 0 <= MainNode(i, tp, world) < nodeCount
  {
    ClosedForm(nodeCount, tp, dp, world, i);
  }

  /** With pairwise distinct hosts, the expansion yields pairwise distinct endpoints. */
  lemma EndpointsDistinct(nodes: seq<Node>, tp: int, dp: int, world: int, i: nat, j: nat)
    requires Valid(|nodes|, tp, dp, world) && i < j < dp
    requires forall a, b :: 0 <= a < b < |nodes| ==> nodes[a].host != nodes[b].host
    ensures 0 <= MainNode(i, tp, world) < |nodes| && 0 <= MainNode(j, tp, world) < |nodes|
    ensures var a, b := nodes[MainNode(i, tp, world)], nodes[MainNode(j, tp, world)];
            Endpoint(a.host, a.basePort + LocalIndex(i, tp, world)) != Endpoint(b.host, b.basePort + LocalIndex(j, tp, world))
  {
    NodeOf(|nodes|, tp, dp, world, i);
    NodeOf(|nodes|, tp, dp, world, j);
    RanksApart(|nodes|, tp, dp, world, i, j);
    PlacesApart(nodes, MainNode(i, tp, world), LocalIndex(i, tp, world), MainNode(j, tp, world), LocalIndex(j, tp, world));
  }

  lemma RanksApart(nodeCount: nat, tp: int, dp: int, world: int, i: nat, j: nat)
    requires Valid(nodeCount, tp, dp, world) && i < j < dp
    ensures MainNode(i, tp, world) == MainNode(j, tp, world) ==> LocalIndex(i, tp, world) != LocalIndex(j, tp, world)
  {
    if MainNode(i, tp, world) == MainNode(j, tp, world) {
      SameNodeOtherRank(nodeCount, tp, dp, world, i, j);
    }
  }

  lemma PlacesApart(nodes: seq<Node>, m: nat, p: int, n: nat, q: int)
    requires m < |nodes| && n < |nodes| && (m == n ==> p != q)
    requires forall a, b :: 0 <= a < b < |nodes| ==> nodes[a].host != nodes[b].host
    ensures Endpoint(nodes[m].host, nodes[m].basePort + p) != Endpoint(nodes[n].host, nodes[n].basePort + q)
  {
    if Endpoint(nodes[m].host, nodes[m].basePort + p) == Endpoint(nodes[n].host, nodes[n].basePort + q) {
      EndpointInjective(nodes[m].host, nodes[m].basePort + p, nodes[n].host, nodes[n].basePort + q);
      assert false;
    }
  }
}
