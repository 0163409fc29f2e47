/**
  The generator's table of states: nodes in the order they came, chained by the hash of
  their basis. When the nodes run out the table doubles and every chain is built anew.
 */
module StateTable {
  import opened Options
  import opened LrDriver

  type Key = seq<Item>

  const NIL := -1
  const UNSIGNED_RANGE := 0x1_0000_0000
  const INITIAL_SIZE := 128

  datatype Node = Node(data: nat, key: Key, next: int)

  // ----- keys -----

  function ItemCompare(a: Item, b: Item): int {
    if a.rule != b.rule then a.rule - b.rule else a.dot - b.dot
  }

  /** Negative, zero or positive; a list that ends first is the smaller one. */
  function StateCompare(a: Key, b: Key): int {
    if a == [] && b == [] then 0
    else if b == [] then 1
    else if a == [] then -1
    else if ItemCompare(a[0], b[0]) != 0 then ItemCompare(a[0], b[0])
    else StateCompare(a[1..], b[1..])
  }

  function StateHashFrom(h: nat, a: Key): nat
    decreases |a|
  {
    if a == [] then h else StateHashFrom((h * 571 + a[0].rule * 37 + a[0].dot) % UNSIGNED_RANGE, a[1..])
  }

  function StateHash(a: Key): nat {
    StateHashFrom(0, a)
  }

  /** The comparison finds two bases equal exactly when they are, and then they hash equally. */
  lemma {:induction false} CompareIsEquality(a: Key, b: Key)
    ensures StateCompare(a, b) == 0 <==> a == b
    ensures StateCompare(a, b) == 0 ==> StateHash(a) == StateHash(b)
  {
    if a != [] && b != [] {
      CompareIsEquality(a[1..], b[1..]);
      assert a == [a[0]] + a[1..] && b == [b[0]] + b[1..];
    }
  }

  // ----- chains -----

  predicate PowerOfTwo(n: nat) {
    n == 1 || (n > 1 && n % 2 == 0 && PowerOfTwo(n / 2))
  }

  /** The bits set in both. */
  function BitAnd(a: nat, b: nat): nat {
    if a == 0 || b == 0 then 0 else 2 * BitAnd(a / 2, b / 2) + if a % 2 == 1 && b % 2 == 1 then 1 else 0
  }

  /** Masking with one less than a power of two is the remainder by it. */
  lemma {:induction false} MaskIsRemainder(h: nat, n: nat)
    requires PowerOfTwo(n)
    ensures BitAnd(h, n - 1) == h % n
    decreases n
  {
    if n > 1 {
      MaskIsRemainder(h / 2, n / 2);
      assert (n - 1) / 2 == n / 2 - 1 && (n - 1) % 2 == 1;
      HalvedRemainder(h, n / 2);
    }
  }

  lemma HalvedRemainder(h: nat, k: nat)
    requires k > 0
    ensures h % (2 * k) == 2 * (h / 2 % k) + h % 2
  {
    var d, e := h / 2 / k, h / 2 % k;
    var rest := 2 * e + h % 2;
    assert h == (2 * k) * d + rest && 0 <= rest < 2 * k;
    Remainder(h, 2 * k, d, rest);
  }

  lemma Remainder(h: nat, n: nat, d: nat, rest: nat)
    requires h == n * d + rest && rest < n
    ensures h % n == rest
  {
    var q := h / n;
    assert h == n * q + h % n;
    if d < q { Apart(n, d, q); }
    if q < d { Apart(n, q, d); }
  }

  lemma {:induction false} Apart(n: nat, a: nat, b: nat)
    requires a < b
    ensures n * a + n <= n * b
    decreases b - a
  {
    assert n * b == n * (b - 1) + n;
    if a + 1 < b { Apart(n, a, b - 1); }
  }

  function Bucket(key: Key, size: nat): nat
    requires size > 0
  {
    StateHash(key) % size
  }

  /** Chain `b` links exactly the first `n` nodes of bucket `b`, once each. */
  ghost predicate ChainOk(nodes: seq<Node>, ht: seq<int>, chain: seq<nat>, n: nat, b: nat)
    requires n <= |nodes| && 0 < |ht| && b < |ht|
  {
    && ht[b] == (if chain == [] then NIL else chain[0])
    && (forall k :: 0 <= k < |chain| ==> chain[k] < n && NextIs(nodes, chain, k))
    && (forall k, l :: 0 <= k < l < |chain| ==> chain[k] != chain[l])
    && (forall i :: 0 <= i < n ==> (i in chain <==> Bucket(nodes[i].key, |ht|) == b))
  }

  predicate NextIs(nodes: seq<Node>, chain: seq<nat>, k: nat)
    requires k < |chain|
  {
    chain[k] < |nodes| && nodes[chain[k]].next == if k + 1 < |chain| then chain[k + 1] else NIL
  }

  ghost predicate Chained(nodes: seq<Node>, ht: seq<int>, chains: seq<seq<nat>>, n: nat) {
    && n <= |nodes| && 0 < |ht| == |chains|
    && forall b :: 0 <= b < |ht| ==> ChainOk(nodes, ht, chains[b], n, b)
  }

  /** A node put in front of its chain. */
  function Link(nodes: seq<Node>, ht: seq<int>, n: nat, data: nat, key: Key): (seq<Node>, seq<int>)
    requires n < |nodes| && 0 < |ht|
  {
    (nodes[n := Node(data, key, ht[Bucket(key, |ht|)])], ht[Bucket(key, |ht|) := n])
  }

  lemma LinkKeeps(nodes: seq<Node>, ht: seq<int>, chains: seq<seq<nat>>, n: nat, data: nat, key: Key)
    returns (more: seq<seq<nat>>)
    requires Chained(nodes, ht, chains, n) && n < |nodes|
    ensures Chained(Link(nodes, ht, n, data, key).0, Link(nodes, ht, n, data, key).1, more, n + 1)
  {
    hide ChainOk;
    var h := Bucket(key, |ht|);
    more := chains[h := [n] + chains[h]];
    forall b | 0 <= b < |ht|
      ensures ChainOk(Link(nodes, ht, n, data, key).0, Link(nodes, ht, n, data, key).1, more[b], n + 1, b)
    {
      if b == h {
        LinkHere(nodes, ht, chains[b], n, data, key);
      } else {
        LinkElsewhere(nodes, ht, chains[b], n, data, key, b);
      }
    }
  }

  lemma LinkHere(nodes: seq<Node>, ht: seq<int>, chain: seq<nat>, n: nat, data: nat, key: Key)
    requires n < |nodes| && 0 < |ht| && ChainOk(nodes, ht, chain, n, Bucket(key, |ht|))
    ensures ChainOk(Link(nodes, ht, n, data, key).0, Link(nodes, ht, n, data, key).1, [n] + chain, n + 1,
                    Bucket(key, |ht|))
  {
    hide StateHash;
    var more, after := [n] + chain, Link(nodes, ht, n, data, key).0;
    forall k | 0 <= k < |more|
      ensures more[k] < n + 1 && NextIs(after, more, k)
    {
      if k > 0 { assert more[k] == chain[k - 1] && NextIs(nodes, chain, k - 1); }
    }
  }

  lemma LinkElsewhere(nodes: seq<Node>, ht: seq<int>, chain: seq<nat>, n: nat, data: nat, key: Key, b: nat)
    requires n < |nodes| && b < |ht| && ChainOk(nodes, ht, chain, n, b) && b != Bucket(key, |ht|)
    ensures ChainOk(Link(nodes, ht, n, data, key).0, Link(nodes, ht, n, data, key).1, chain, n + 1, b)
  {
    hide StateHash;
    var after := Link(nodes, ht, n, data, key).0;
    forall k | 0 <= k < |chain|
      ensures chain[k] < n + 1 && NextIs(after, chain, k)
    {
      assert NextIs(nodes, chain, k);
    }
  }

  // ----- the contents -----

  /** What was inserted: each key with the first data it came with. */
  ghost function Contents(nodes: seq<Node>, n: nat): map<Key, nat>
    requires n <= |nodes|
  {
    if n == 0 then map[]
    else
      var before := Contents(nodes, n - 1);
      if nodes[n - 1].key in before then before else before[nodes[n - 1].key := nodes[n - 1].data]
  }

  lemma {:induction false} ContentsKept(nodes: seq<Node>, more: seq<Node>, n: nat)
    requires n <= |nodes| && n <= |more|
             && forall i :: 0 <= i < n ==> more[i].key == nodes[i].key && more[i].data == nodes[i].data
    ensures Contents(more, n) == Contents(nodes, n)
  {
    if n > 0 {
      ContentsKept(nodes, more, n - 1);
    }
  }

  ghost predicate DistinctKeys(nodes: seq<Node>, n: nat)
    requires n <= |nodes|
  {
    forall i, j :: 0 <= i < j < n ==> nodes[i].key != nodes[j].key
  }

  lemma {:induction false} ContentsMember(nodes: seq<Node>, n: nat, key: Key)
    requires n <= |nodes|
    ensures key in Contents(nodes, n) <==> exists i :: 0 <= i < n && nodes[i].key == key
    ensures DistinctKeys(nodes, n) ==> forall i :: 0 <= i < n && nodes[i].key == key ==>
            Contents(nodes, n)[key] == nodes[i].data
  {
    if n > 0 {
      ContentsMember(nodes, n - 1, key);
      ContentsMember(nodes, n - 1, nodes[n - 1].key);
    }
  }

  class Table {
    var size: nat
    var count: nat
    var tbl: array<Node>
    var ht: array<int>
    ghost var chains: seq<seq<nat>>

    ghost predicate Valid()
      reads this, tbl, ht
    {
      && PowerOfTwo(size) && size == tbl.Length == ht.Length && count <= size
      && Chained(tbl[..], ht[..], chains, count) && DistinctKeys(tbl[..], count)
    }

    ghost function States(): map<Key, nat>
      reads this, tbl
      requires count <= tbl.Length
    {
      Contents(tbl[..], count)
    }

    constructor ()
      ensures Valid() && States() == map[] && fresh(tbl) && fresh(ht)
    {
      size, count := INITIAL_SIZE, 0;
      tbl := new Node[INITIAL_SIZE](_ => Node(0, [], NIL));
      ht := new int[INITIAL_SIZE](_ => NIL);
      chains := seq(INITIAL_SIZE, _ => []);
      new;
      assert PowerOfTwo(INITIAL_SIZE);
    }

    /** The node with the key, or none. */
    method FindNode(key: Key) returns (np: int)
      requires Valid()
      ensures np == NIL || 0 <= np < count
      ensures np == NIL ==> key !in States()
      ensures np != NIL ==> tbl[np].key == key && key in States() && States()[key] == tbl[np].data
    {
      hide StateHash, StateCompare, Contents, DistinctKeys, BitAnd, PowerOfTwo;
      MaskIsRemainder(StateHash(key), size);
      var h := BitAnd(StateHash(key), size - 1);
      ghost var chain, k := chains[h], 0;
      ContentsMember(tbl[..], count, key);
      assert ChainOk(tbl[..], ht[..], chain, count, h);
      np := ht[h];
      while np != NIL
        invariant 0 <= k <= |chain| && np == if k < |chain| then chain[k] else NIL
        invariant forall l :: 0 <= l < k ==> tbl[chain[l]].key != key
        decreases |chain| - k
      {
        assert NextIs(tbl[..], chain, k);
        CompareIsEquality(tbl[np].key, key);
        if StateCompare(tbl[np].key, key) == 0 {
          return;
        }
        np := tbl[np].next;
        k := k + 1;
      }
      assert forall i :: 0 <= i < count && i in chain ==> tbl[i].key != key;
    }

    method Find(key: Key) returns (data: Option<nat>)
      requires Valid()
      ensures data == if key in States() then Some(States()[key]) else None
    {
      var np := FindNode(key);
      data := if np == NIL then None else Some(tbl[np].data);
    }

    /** Twice the room; every node keeps its place and is chained anew. */
    method Grow()
      requires Valid()
      modifies this
      ensures Valid() && count == old(count) && size == 2 * old(size) && States() == old(States())
      ensures fresh(tbl) && fresh(ht)
    {
      hide Chained, DistinctKeys, Contents, StateHash, PowerOfTwo, BitAnd;
      ghost var was := tbl[..];
      var arrSize := size * 2;
      var nodes := new Node[arrSize](_ => Node(0, [], NIL));
      var heads := new int[arrSize](_ => NIL);
      ghost var links: seq<seq<nat>> := seq(arrSize, _ => []);
      Doubled(size);
      NothingChained(nodes[..], heads[..], links);
      var i := 0;
      while i < count
        invariant count == old(count) && size == old(size) && tbl == old(tbl) && tbl[..] == was
        invariant 0 <= i <= count <= |was| && nodes.Length == heads.Length == arrSize == 2 * |was|
        invariant Chained(nodes[..], heads[..], links, i)
        invariant forall j :: 0 <= j < i ==> nodes[j].key == was[j].key && nodes[j].data == was[j].data
      {
        var oldnp := tbl[i];
        MaskIsRemainder(StateHash(oldnp.key), arrSize);
        var h := BitAnd(StateHash(oldnp.key), arrSize - 1);
        ghost var before, chained := nodes[..], heads[..];
        links := LinkKeeps(before, chained, links, i, oldnp.data, oldnp.key);
        nodes[i] := Node(oldnp.data, oldnp.key, heads[h]);
        heads[h] := i;
        assert nodes[..] == Link(before, chained, i, oldnp.data, oldnp.key).0;
        assert heads[..] == Link(before, chained, i, oldnp.data, oldnp.key).1;
        i := i + 1;
      }
      ContentsKept(was, nodes[..], count);
      DistinctKept(was, nodes[..], count);
      tbl, ht, size, chains := nodes, heads, arrSize, links;
    }

    /** A key that is there already keeps its data. */
    method Insert(data: nat, key: Key) returns (inserted: bool)
      requires Valid()
      modifies this, tbl, ht
      ensures Valid() && (tbl == old(tbl) || fresh(tbl)) && (ht == old(ht) || fresh(ht))
      ensures inserted == (key !in old(States()))
      ensures States() == if inserted then old(States())[key := data] else old(States())
      ensures count == old(count) + if inserted then 1 else 0
    {
      hide Chained, DistinctKeys, Contents, BitAnd, PowerOfTwo;
      var np := FindNode(key);
      if np != NIL {
        return false;
      }
      SizePositive(size);
      if count >= size {
        Grow();
      }
      SizePositive(size);
      MaskIsRemainder(StateHash(key), size);
      var h := BitAnd(StateHash(key), size - 1);
      ghost var was, heads := tbl[..], ht[..];
      OneMore(was, count, data, key, ht[h]);
      chains := LinkKeeps(was, heads, chains, count, data, key);
      tbl[count] := Node(data, key, ht[h]);
      ht[h] := count;
      assert tbl[..] == Link(was, heads, count, data, key).0 && ht[..] == Link(was, heads, count, data, key).1;
      count := count + 1;
      return true;
    }
  }

  lemma NothingChained(nodes: seq<Node>, ht: seq<int>, chains: seq<seq<nat>>)
    requires 0 < |ht| == |chains| && forall b :: 0 <= b < |ht| ==> ht[b] == NIL && chains[b] == []
    ensures Chained(nodes, ht, chains, 0)
  {
  }

  lemma DistinctKept(nodes: seq<Node>, more: seq<Node>, n: nat)
    requires n <= |nodes| && n <= |more| && DistinctKeys(nodes, n)
             && forall i :: 0 <= i < n ==> more[i].key == nodes[i].key
    ensures DistinctKeys(more, n)
  {
  }

  lemma SizePositive(n: nat)
    requires PowerOfTwo(n)
    ensures n > 0
  {
  }

  lemma Doubled(n: nat)
    requires PowerOfTwo(n)
    ensures PowerOfTwo(2 * n) && n > 0
  {
    assert 2 * n / 2 == n;
  }

  lemma OneMore(nodes: seq<Node>, n: nat, data: nat, key: Key, next: int)
    requires n < |nodes| && DistinctKeys(nodes, n) && key !in Contents(nodes, n)
    ensures var more := nodes[n := Node(data, key, next)];
            DistinctKeys(more, n + 1) && Contents(more, n + 1) == Contents(nodes, n)[key := data]
  {
    var more := nodes[n := Node(data, key, next)];
    ContentsKept(nodes, more, n);
    ContentsMember(nodes, n, key);
  }
}
