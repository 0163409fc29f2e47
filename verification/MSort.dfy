/**
  The generator's merge sort of linked lists. Nodes are numbers, their next-pointers an
  array; the sort only relinks. Bin i of the sort is empty or holds a sorted list of
  exactly 2^i nodes, so a new node is carried upwards like a one into a binary counter.
 */
module MSort {
  const NIL := -1
  const LISTSIZE := 30

  type Order = (nat, nat) -> bool

  ghost predicate TotalPreorder(le: Order) {
    && (forall x, y :: le(x, y) || le(y, x))
    && (forall x, y, z :: le(x, y) && le(y, z) ==> le(x, z))
  }

  ghost predicate Sorted(le: Order, s: seq<nat>) {
    forall i, j :: 0 <= i < j < |s| ==> le(s[i], s[j])
  }

  /** Following the next-pointers from `head` visits exactly the nodes of `s`, once each. */
  ghost predicate IsList(next: seq<int>, head: int, s: seq<nat>) {
    && head == (if s == [] then NIL else s[0])
    && (forall i :: 0 <= i < |s| ==> Follows(next, s, i))
    && (forall i, j :: 0 <= i < j < |s| ==> s[i] != s[j])
  }

  predicate Follows(next: seq<int>, s: seq<nat>, i: nat)
    requires i < |s|
  {
    s[i] < |next| && next[s[i]] == if i + 1 < |s| then s[i + 1] else NIL
  }

  ghost predicate Disjoint(a: seq<nat>, b: seq<nat>) {
    forall x :: x in a ==> x !in b
  }

  /** A list stays a list when the pointers of other nodes change. */
  lemma ListKept(next: seq<int>, after: seq<int>, head: int, s: seq<nat>)
    requires IsList(next, head, s) && |after| == |next|
    requires forall x :: x in s && x < |next| ==> after[x] == next[x]
    ensures IsList(after, head, s)
  {
    forall i | 0 <= i < |s|
      ensures Follows(after, s, i)
    {
      assert Follows(next, s, i);
    }
  }

  lemma ListTail(next: seq<int>, head: int, s: seq<nat>)
    requires IsList(next, head, s) && s != []
    ensures head == s[0] && s[0] < |next| && IsList(next, next[s[0]], s[1..]) && s[0] !in s[1..]
  {
    assert Follows(next, s, 0);
    forall i | 0 <= i < |s[1..]|
      ensures Follows(next, s[1..], i)
    {
      assert Follows(next, s, i + 1);
    }
  }

  // ----- merging -----

  /** What merging leaves, in order. */
  function Merged(le: Order, a: seq<nat>, b: seq<nat>): seq<nat> {
    if a == [] then b
    else if b == [] then a
    else if le(a[0], b[0]) then [a[0]] + Merged(le, a[1..], b)
    else [b[0]] + Merged(le, a, b[1..])
  }

  lemma {:induction false} MergedBag(le: Order, a: seq<nat>, b: seq<nat>)
    ensures multiset(Merged(le, a, b)) == multiset(a) + multiset(b)
    ensures forall x :: x in Merged(le, a, b) <==> x in a || x in b
    decreases |a| + |b|
  {
    if a != [] && b != [] {
      assert a == [a[0]] + a[1..] && b == [b[0]] + b[1..];
      if le(a[0], b[0]) {
        MergedBag(le, a[1..], b);
      } else {
        MergedBag(le, a, b[1..]);
      }
    }
  }

  lemma {:induction false} MergedSorted(le: Order, a: seq<nat>, b: seq<nat>)
    requires TotalPreorder(le) && Sorted(le, a) && Sorted(le, b)
    ensures Sorted(le, Merged(le, a, b))
    decreases |a| + |b|
  {
    if a != [] && b != [] {
      if le(a[0], b[0]) {
        MergedSorted(le, a[1..], b);
        LeastFirst(le, a[0], a[1..], b);
      } else {
        MergedSorted(le, a, b[1..]);
        LeastFirst(le, b[0], a, b[1..]);
      }
    }
  }

  /** A node not above the first of each list goes in front of their merge. */
  lemma LeastFirst(le: Order, x: nat, a: seq<nat>, b: seq<nat>)
    requires TotalPreorder(le) && Sorted(le, a) && Sorted(le, b) && Sorted(le, Merged(le, a, b))
    requires (a != [] ==> le(x, a[0])) && (b != [] ==> le(x, b[0]))
    ensures Sorted(le, [x] + Merged(le, a, b))
  {
    MergedBag(le, a, b);
    hide Merged;
    var m := Merged(le, a, b);
    forall j | 0 <= j < |m|
      ensures le(x, m[j])
    {
      assert m[j] in m;
      if m[j] in a {
        var i :| 0 <= i < |a| && a[i] == m[j];
        assert i > 0 ==> le(a[0], a[i]);
      } else {
        var i :| 0 <= i < |b| && b[i] == m[j];
        assert i > 0 ==> le(b[0], b[i]);
      }
    }
  }

  /** The nodes linked so far, `done`, end in `ptr`; the two remaining lists follow. */
  ghost predicate Linked(next: seq<int>, done: seq<nat>) {
    && (forall i :: 0 <= i < |done| ==> done[i] < |next|)
    && (forall i :: 0 <= i < |done| - 1 ==> next[done[i]] == done[i + 1])
    && (forall i, j :: 0 <= i < j < |done| ==> done[i] != done[j])
  }

  lemma LinkedThenList(next: seq<int>, done: seq<nat>, head: int, s: seq<nat>)
    requires Linked(next, done) && done != [] && IsList(next, head, s) && Disjoint(done, s)
    requires next[done[|done| - 1]] == head
    ensures IsList(next, done[0], done + s)
  {
    var whole := done + s;
    forall i | 0 <= i < |whole|
      ensures Follows(next, whole, i)
    {
      if i >= |done| { assert Follows(next, s, i - |done|); }
    }
    forall i, j | 0 <= i < j < |whole|
      ensures whole[i] != whole[j]
    {
      if i < |done| <= j { assert done[i] in done && s[j - |done|] in s; }
    }
  }

  /** One node moved from the front of a list to the end of the nodes linked so far. */
  lemma Moved(before: seq<int>, done: seq<nat>, ptr: nat, a: int, x: seq<nat>, b: int, y: seq<nat>)
    requires Linked(before, done) && done != [] && done[|done| - 1] == ptr
    requires IsList(before, a, x) && IsList(before, b, y) && a != NIL
    requires Disjoint(x, y) && Disjoint(done, x) && Disjoint(done, y)
    ensures x != [] && a == x[0] < |before| && a != ptr < |before|
    ensures var after := before[ptr := a];
            && Linked(after, done + [x[0]]) && IsList(after, after[a], x[1..]) && IsList(after, b, y)
    ensures Disjoint(x[1..], y) && Disjoint(done + [x[0]], x[1..]) && Disjoint(done + [x[0]], y)
  {
    ListTail(before, a, x);
    assert done[|done| - 1] in done && x[0] in x && forall k :: k in x[1..] ==> k in x;
    var after := before[ptr := a];
    ListKept(before, after, after[a], x[1..]);
    ListKept(before, after, b, y);
  }

  method Merge(next: array<int>, a0: int, b0: int, le: Order, ghost s: seq<nat>, ghost u: seq<nat>) returns (head: int)
    requires IsList(next[..], a0, s) && IsList(next[..], b0, u) && Disjoint(s, u)
    modifies next
    ensures IsList(next[..], head, Merged(le, s, u))
    ensures forall x :: 0 <= x < next.Length && x !in s && x !in u ==> next[x] == old(next[x])
  {
    hide IsList, Linked, Disjoint, Merged;
    NilList(next[..], a0, s);
    NilList(next[..], b0, u);
    MergedFirst(le, s, u);
    var a, b := a0, b0;
    if a == NIL {
      return b;
    }
    if b == NIL {
      return a;
    }
    ghost var x, y, done := s, u, [];
    var ptr: nat;
    if le(a, b) {
      ptr := a;
      FirstNode(next[..], a, x, y);
      a := next[a];
      x, done := x[1..], [x[0]];
    } else {
      ptr := b;
      DisjointBack(x, y);
      FirstNode(next[..], b, y, x);
      b := next[b];
      y, done := y[1..], [y[0]];
    }
    head := ptr;
    while a != NIL && b != NIL
      invariant Merged(le, s, u) == done + Merged(le, x, y)
      invariant Linked(next[..], done) && done != [] && done[0] == head && done[|done| - 1] == ptr
      invariant IsList(next[..], a, x) && IsList(next[..], b, y)
      invariant Disjoint(x, y) && Disjoint(y, x) && Disjoint(done, x) && Disjoint(done, y)
      invariant forall k :: k in done || k in x || k in y ==> k in s || k in u
      invariant forall k :: 0 <= k < next.Length && k !in s && k !in u ==> next[k] == old(next[k])
      decreases |x| + |y|
    {
      ghost var before := next[..];
      NilList(before, a, x);
      NilList(before, b, y);
      if le(a, b) {
        Moved(before, done, ptr, a, x, b, y);
        MergedStep(le, x, y, done);
        next[ptr] := a;
        assert next[..] == before[ptr := a];
        ptr := a;
        a := next[a];
        done, x := done + [x[0]], x[1..];
        DisjointBack(x, y);
      } else {
        Moved(before, done, ptr, b, y, a, x);
        MergedStep(le, x, y, done);
        next[ptr] := b;
        assert next[..] == before[ptr := b];
        ptr := b;
        b := next[b];
        done, y := done + [y[0]], y[1..];
        DisjointBack(y, x);
      }
    }
    ghost var before, rest := next[..], if a != NIL then x else y;
    var last := if a != NIL then a else b;
    NilList(before, a, x);
    NilList(before, b, y);
    LastLink(before, done, ptr, last, rest);
    MergedStep(le, x, y, done);
    next[ptr] := last;
    assert next[..] == before[ptr := last];
    assert Merged(le, x, y) == rest;
  }

  lemma MergedFirst(le: Order, x: seq<nat>, y: seq<nat>)
    ensures x == [] ==> Merged(le, x, y) == y
    ensures y == [] ==> Merged(le, x, y) == x
    ensures x != [] && y != [] ==>
            Merged(le, x, y) == if le(x[0], y[0]) then [x[0]] + Merged(le, x[1..], y)
            else [y[0]] + Merged(le, x, y[1..])
  {
  }

  lemma MergedStep(le: Order, x: seq<nat>, y: seq<nat>, done: seq<nat>)
    ensures x == [] ==> Merged(le, x, y) == y
    ensures y == [] ==> Merged(le, x, y) == x
    ensures x != [] && y != [] && le(x[0], y[0]) ==> done + Merged(le, x, y) == done + [x[0]] + Merged(le, x[1..], y)
    ensures x != [] && y != [] && !le(x[0], y[0]) ==> done + Merged(le, x, y) == done + [y[0]] + Merged(le, x, y[1..])
  {
  }

  lemma NilList(next: seq<int>, head: int, s: seq<nat>)
    requires IsList(next, head, s)
    ensures head == NIL <==> s == []
    ensures s != [] ==> head == s[0]
  {
  }

  lemma DisjointBack(a: seq<nat>, b: seq<nat>)
    requires Disjoint(a, b)
    ensures Disjoint(b, a)
  {
  }

  lemma FirstNode(next: seq<int>, a: int, x: seq<nat>, y: seq<nat>)
    requires IsList(next, a, x) && x != [] && Disjoint(x, y)
    ensures a == x[0] < |next| && IsList(next, next[a], x[1..]) && Linked(next, [x[0]])
    ensures Disjoint(x[1..], y) && Disjoint(y, x[1..]) && Disjoint([x[0]], x[1..]) && Disjoint([x[0]], y)
    ensures forall k :: k in x[1..] ==> k in x
  {
    ListTail(next, a, x);
  }

  /** Whatever is left of one list goes behind the nodes linked so far. */
  lemma LastLink(before: seq<int>, done: seq<nat>, ptr: nat, last: int, rest: seq<nat>)
    requires Linked(before, done) && done != [] && done[|done| - 1] == ptr && IsList(before, last, rest)
             && Disjoint(done, rest)
    ensures ptr < |before| && IsList(before[ptr := last], done[0], done + rest)
  {
    assert done[|done| - 1] in done;
    var after := before[ptr := last];
    ListKept(before, after, last, rest);
    LinkedThenList(after, done, last, rest);
  }

  // ----- bins -----

  function Power(i: nat): nat {
    if i == 0 then 1 else 2 * Power(i - 1)
  }

  function Bag(bins: seq<seq<nat>>): multiset<nat> {
    if bins == [] then multiset{} else Bag(bins[..|bins| - 1]) + multiset(bins[|bins| - 1])
  }

  lemma Rearranged(a: multiset<nat>, b: multiset<nat>, c: multiset<nat>, d: multiset<nat>, e: multiset<nat>)
    requires a + b == c + d
    ensures (a + e) + b == (c + e) + d && a + (e + b) == c + (d + e) && a + (b + e) == c + (d + e)
  {
    assert (a + e) + b == (a + b) + e && (c + e) + d == (c + d) + e;
    assert a + (e + b) == (a + b) + e && c + (d + e) == (c + d) + e && a + (b + e) == (a + b) + e;
  }

  lemma {:induction false} BagUpdate(bins: seq<seq<nat>>, i: nat, s: seq<nat>)
    requires i < |bins|
    ensures Bag(bins[i := s]) + multiset(bins[i]) == Bag(bins) + multiset(s)
    ensures multiset(bins[i]) <= Bag(bins)
  {
    var n, after := |bins| - 1, bins[i := s];
    if i < n {
      BagUpdate(bins[..n], i, s);
      assert after[..n] == bins[..n][i := s] && after[n] == bins[n] && bins[..n][i] == bins[i];
      Rearranged(Bag(bins[..n][i := s]), multiset(bins[i]), Bag(bins[..n]), multiset(s), multiset(bins[n]));
    } else {
      assert after[..n] == bins[..n];
    }
  }

  /** Bin i is empty or a sorted list of 2^i nodes. */
  ghost predicate Bin(next: seq<int>, le: Order, head: int, i: nat, s: seq<nat>) {
    IsList(next, head, s) && Sorted(le, s) && (s == [] || |s| == Power(i))
  }

  ghost predicate Bins(next: seq<int>, le: Order, heads: seq<int>, bins: seq<seq<nat>>) {
    && |heads| == |bins| == LISTSIZE
    && (forall i :: 0 <= i < LISTSIZE ==> Bin(next, le, heads[i], i, bins[i]))
    && (forall i, j :: 0 <= i < j < LISTSIZE ==> Disjoint(bins[i], bins[j]))
  }

  ghost predicate Apart(bins: seq<seq<nat>>, s: seq<nat>) {
    forall i :: 0 <= i < |bins| ==> Disjoint(s, bins[i])
  }

  lemma BinsKept(next: seq<int>, after: seq<int>, le: Order, heads: seq<int>, bins: seq<seq<nat>>)
    requires Bins(next, le, heads, bins) && |after| == |next|
    requires forall i, x :: 0 <= i < |bins| && x in bins[i] && x < |next| ==> after[x] == next[x]
    ensures Bins(after, le, heads, bins)
  {
    forall i | 0 <= i < LISTSIZE
      ensures Bin(after, le, heads[i], i, bins[i])
    {
      assert Bin(next, le, heads[i], i, bins[i]);
      ListKept(next, after, heads[i], bins[i]);
    }
  }

  /** A new node is merged with the full bins from the first on, and the result fills the next one. */
  method InsertBin(next: array<int>, bin: array<int>, le: Order, ep0: int, ghost s0: seq<nat>,
                   ghost bins0: seq<seq<nat>>, ghost rest: seq<nat>, ghost list: int)
    returns (ghost bins: seq<seq<nat>>)
    requires next != bin && TotalPreorder(le)
    requires IsList(next[..], ep0, s0) && |s0| == 1 && Bins(next[..], le, bin[..], bins0)
             && IsList(next[..], list, rest)
    requires Apart(bins0, s0) && Apart(bins0, rest) && Disjoint(rest, s0)
    requires |Bag(bins0)| + 1 < Power(LISTSIZE)
    modifies next, bin
    ensures Bins(next[..], le, bin[..], bins) && Apart(bins, rest) && IsList(next[..], list, rest)
    ensures Bag(bins) == Bag(bins0) + multiset(s0)
    ensures forall x ::
             0 <= x < next.Length && x !in s0 && (forall j :: 0 <= j < |bins0| ==> x !in bins0[j]) ==>
             next[x] == old(next[x])
  {
    hide Bag, Merged, TotalPreorder, Bins, Bin, IsList, Apart, Disjoint, Power, Sorted;
    BinsSize(next[..], le, bin[..], bins0);
    OneSorted(le, s0);
    bins := bins0;
    ghost var s := s0;
    var ep, i := ep0, 0;
    while i < LISTSIZE - 1 && bin[i] != NIL
      invariant 0 <= i <= LISTSIZE - 1 && |s| == Power(i)
      invariant IsList(next[..], ep, s) && Sorted(le, s)
      invariant Bins(next[..], le, bin[..], bins) && IsList(next[..], list, rest)
      invariant Apart(bins, s) && Apart(bins, rest) && Disjoint(rest, s)
      invariant Bag(bins) + multiset(s) == Bag(bins0) + multiset(s0)
      invariant |bins| == LISTSIZE && forall j :: i <= j < LISTSIZE ==> bins[j] == bins0[j]
      invariant forall x :: x in s ==> x in s0 || exists j :: 0 <= j < |bins0| && x in bins0[j]
      invariant forall x ::
               0 <= x < next.Length && x !in s0 && (forall j :: 0 <= j < |bins0| ==> x !in bins0[j]) ==>
               next[x] == old(next[x])
    {
      ep, s, bins := Carry(next, bin, le, ep, s, bins, rest, list, i);
      i := i + 1;
    }
    RoomForBin(next[..], le, bin[..], bins, i, s, Bag(bins0) + multiset(s0));
    ghost var before, heads := bins, bin[..];
    BagUpdate(bins, i, s);
    bin[i] := ep;
    bins := bins[i := s];
    BinFilled(next[..], le, before, heads, bin[..], i, s, rest);
  }

  lemma BinsSize(next: seq<int>, le: Order, heads: seq<int>, bins: seq<seq<nat>>)
    requires Bins(next, le, heads, bins)
    ensures |heads| == |bins| == LISTSIZE && Power(0) == 1
  {
  }

  lemma OneSorted(le: Order, s: seq<nat>)
    requires |s| == 1
    ensures Sorted(le, s)
  {
  }

  /** The bin the carry stops at is empty: were it full, the list would have 2^30 nodes. */
  lemma RoomForBin(next: seq<int>, le: Order, heads: seq<int>, bins: seq<seq<nat>>, i: nat, s: seq<nat>,
                   all: multiset<nat>)
    requires Bins(next, le, heads, bins) && i < LISTSIZE && (i < LISTSIZE - 1 ==> heads[i] == NIL)
    requires |s| == Power(i) && Bag(bins) + multiset(s) == all && |all| < Power(LISTSIZE)
    ensures bins[i] == []
  {
    assert Bin(next, le, heads[i], i, bins[i]);
    BagUpdate(bins, i, s);
    hide Bag, Bins, IsList;
    BagSize(multiset(bins[i]), Bag(bins));
    assert |Bag(bins) + multiset(s)| == |all|;
    assert i == LISTSIZE - 1 ==> Power(LISTSIZE) == 2 * Power(i);
  }

  lemma {:induction false} BagSize(a: multiset<nat>, b: multiset<nat>)
    requires a <= b
    ensures |a| <= |b|
  {
    assert b == a + (b - a);
  }

  /** One carry: the new list takes up the bin, which becomes empty. */
  method Carry(next: array<int>, bin: array<int>, le: Order, ep0: int, ghost s0: seq<nat>, ghost bins0: seq<seq<nat>>,
               ghost rest: seq<nat>, ghost list: int, i: nat)
    returns (ep: int, ghost s: seq<nat>, ghost bins: seq<seq<nat>>)
    requires next != bin && TotalPreorder(le) && i < LISTSIZE - 1 && |s0| == Power(i)
    requires IsList(next[..], ep0, s0) && Sorted(le, s0) && Bins(next[..], le, bin[..], bins0)
             && IsList(next[..], list, rest)
    requires Apart(bins0, s0) && Apart(bins0, rest) && Disjoint(rest, s0) && bin[i] != NIL
    modifies next, bin
    ensures bins == bins0[i := []] && |s| == Power(i + 1)
    ensures IsList(next[..], ep, s) && Sorted(le, s) && Bins(next[..], le, bin[..], bins)
            && IsList(next[..], list, rest)
    ensures Apart(bins, s) && Apart(bins, rest) && Disjoint(rest, s)
    ensures Bag(bins) + multiset(s) == Bag(bins0) + multiset(s0)
    ensures forall x :: x in s <==> x in s0 || x in bins0[i]
    ensures forall x :: 0 <= x < next.Length && x !in s0 && x !in bins0[i] ==> next[x] == old(next[x])
  {
    hide Bag, Merged, TotalPreorder, Sorted;
    assert Bin(next[..], le, bin[i], i, bins0[i]);
    MergedSorted(le, s0, bins0[i]);
    MergedBag(le, s0, bins0[i]);
    ghost var none: seq<nat> := [];
    BagUpdate(bins0, i, none);
    assert multiset(none) == multiset{};
    s := Merged(le, s0, bins0[i]);
    assert |multiset(s)| == |multiset(s0) + multiset(bins0[i])|;
    Rearranged(Bag(bins0[i := none]), multiset(bins0[i]), Bag(bins0), multiset(none), multiset(s0));
    assert multiset(none) + multiset(s0) == multiset(s0);
    ghost var before := next[..];
    ep := Merge(next, ep0, bin[i], le, s0, bins0[i]);
    ListKept(before, next[..], list, rest);
    bins := bins0[i := []];
    bin[i] := NIL;
    BinsEmptied(before, next[..], le, old(bin[..]), bins0, bin[..], i);
  }

  lemma BinsEmptied(next: seq<int>, after: seq<int>, le: Order, heads: seq<int>, bins: seq<seq<nat>>, later: seq<int>,
                    i: nat)
    requires Bins(next, le, heads, bins) && i < LISTSIZE && later == heads[i := NIL] && |after| == |next|
    requires forall j, x :: 0 <= j < |bins| && j != i && x in bins[j] && x < |next| ==> after[x] == next[x]
    ensures Bins(after, le, later, bins[i := []])
  {
    forall j | 0 <= j < LISTSIZE
      ensures Bin(after, le, later[j], j, bins[i := []][j])
    {
      assert Bin(next, le, heads[j], j, bins[j]);
      if j != i { ListKept(next, after, heads[j], bins[j]); }
    }
  }

  lemma BinFilled(next: seq<int>, le: Order, bins: seq<seq<nat>>, heads: seq<int>, later: seq<int>, i: nat,
                  s: seq<nat>, rest: seq<nat>)
    requires Apart(bins, rest) && Disjoint(rest, s)
    requires Bins(next, le, heads, bins) && i < LISTSIZE && |later| == LISTSIZE && later == heads[i := later[i]]
             && bins[i] == []
    requires IsList(next, later[i], s) && Sorted(le, s) && |s| == Power(i) && Apart(bins, s)
    ensures Bins(next, le, later, bins[i := s]) && Apart(bins[i := s], rest)
  {
    var filled := bins[i := s];
    forall j | 0 <= j < LISTSIZE
      ensures Bin(next, le, later[j], j, filled[j])
    {
      assert Bin(next, le, heads[j], j, bins[j]);
    }
    forall j, k | 0 <= j < k < LISTSIZE
      ensures Disjoint(filled[j], filled[k])
    {
      assert Disjoint(s, bins[j]) && Disjoint(s, bins[k]) && Disjoint(bins[j], bins[k]);
    }
  }

  /** Sorts any list of fewer than 2^30 nodes by relinking it. */
  method Msort(next: array<int>, list0: int, le: Order, ghost nodes: seq<nat>)
    returns (head: int, ghost sorted: seq<nat>)
    requires TotalPreorder(le) && IsList(next[..], list0, nodes) && |nodes| < Power(LISTSIZE)
    modifies next
    ensures IsList(next[..], head, sorted) && Sorted(le, sorted) && multiset(sorted) == multiset(nodes)
    ensures forall x :: 0 <= x < next.Length && x !in nodes ==> next[x] == old(next[x])
  {
    hide TotalPreorder, Merged, Bag, Bins, Bin, IsList, Apart, Disjoint, Sorted, Power;
    var bin := new int[LISTSIZE](_ => NIL);
    ghost var bins: seq<seq<nat>> := seq(LISTSIZE, _ => []);
    EmptyBins(next[..], le, bin[..], bins, nodes);
    var list := list0;
    ghost var rest := nodes;
    NilList(next[..], list, rest);
    while list != NIL
      invariant IsList(next[..], list, rest) && (list == NIL <==> rest == [])
      invariant Bins(next[..], le, bin[..], bins) && Apart(bins, rest)
      invariant multiset(rest) + Bag(bins) == multiset(nodes)
      invariant forall x :: 0 <= x < next.Length && x !in nodes ==> next[x] == old(next[x])
      decreases |rest|
    {
      Detached(next[..], list, le, bin[..], rest, bins, nodes);
      var ep := list;
      list := next[list];
      ghost var one := [rest[0]];
      next[ep] := NIL;
      rest := rest[1..];
      ghost var before := bins;
      bins := InsertBin(next, bin, le, ep, one, bins, rest, list);
      NilList(next[..], list, rest);
      assert multiset(rest) + Bag(bins) == (multiset(one) + multiset(rest)) + Bag(before);
    }
    NothingLeft(Bag(bins), rest);
    head, sorted := MergeBins(next, bin, le, bins);
    forall x | 0 <= x < next.Length && x !in nodes
      ensures next[x] == old(next[x])
    {
      assert x !in multiset(nodes);
    }
  }

  lemma NothingLeft(b: multiset<nat>, rest: seq<nat>)
    requires rest == []
    ensures multiset(rest) + b == b
  {
  }

  lemma {:induction false} InBag(bins: seq<seq<nat>>, x: nat)
    ensures x in Bag(bins) <==> exists j :: 0 <= j < |bins| && x in bins[j]
  {
    if bins != [] {
      var n := |bins| - 1;
      InBag(bins[..n], x);
      assert bins == bins[..n] + [bins[n]];
    }
  }

  lemma {:induction false} EmptyBag(bins: seq<seq<nat>>)
    requires forall j :: 0 <= j < |bins| ==> bins[j] == []
    ensures Bag(bins) == multiset{}
  {
    if bins != [] {
      EmptyBag(bins[..|bins| - 1]);
    }
  }

  lemma EmptyBins(next: seq<int>, le: Order, heads: seq<int>, bins: seq<seq<nat>>, nodes: seq<nat>)
    requires |heads| == |bins| == LISTSIZE && forall j :: 0 <= j < LISTSIZE ==> heads[j] == NIL && bins[j] == []
    ensures Bins(next, le, heads, bins) && Apart(bins, nodes) && multiset(nodes) + Bag(bins) == multiset(nodes)
  {
    EmptyBag(bins);
  }

  /** The first node of the remaining list, made a list of its own. */
  lemma Detached(next: seq<int>, list: int, le: Order, heads: seq<int>, rest: seq<nat>, bins: seq<seq<nat>>,
                 nodes: seq<nat>)
    requires IsList(next, list, rest) && rest != [] && Bins(next, le, heads, bins) && Apart(bins, rest)
    requires multiset(rest) + Bag(bins) == multiset(nodes) && |nodes| < Power(LISTSIZE)
    ensures list == rest[0] < |next|
    ensures var after := next[list := NIL];
            IsList(after, list, [rest[0]]) && IsList(after, next[list], rest[1..]) && Bins(after, le, heads, bins)
    ensures Apart(bins, [rest[0]]) && Apart(bins, rest[1..]) && Disjoint(rest[1..], [rest[0]])
    ensures |Bag(bins)| + 1 < Power(LISTSIZE)
    ensures multiset(rest) == multiset([rest[0]]) + multiset(rest[1..])
    ensures rest[0] in nodes && forall j, x :: 0 <= j < |bins| && x in bins[j] ==> x in nodes
  {
    hide Bag, Bins, Bin, Power, IsList, Sorted;
    ListTail(next, list, rest);
    var after := next[list := NIL];
    Counted(rest, bins, nodes);
    BinsSize(next, le, heads, bins);
    assert rest[0] in rest && forall x :: x in rest[1..] ==> x in rest;
    assert forall j :: 0 <= j < |bins| ==> Disjoint(rest, bins[j]);
    ListKept(next, after, next[list], rest[1..]);
    BinsKept(next, after, le, heads, bins);
    OneNode(after, rest[0]);
    assert rest == [rest[0]] + rest[1..];
  }

  lemma OneNode(next: seq<int>, node: nat)
    requires node < |next| && next[node] == NIL
    ensures IsList(next, node, [node])
  {
    assert Follows(next, [node], 0);
  }

  lemma Counted(rest: seq<nat>, bins: seq<seq<nat>>, nodes: seq<nat>)
    requires rest != [] && multiset(rest) + Bag(bins) == multiset(nodes)
    ensures |Bag(bins)| + 1 <= |nodes|
    ensures rest[0] in nodes && forall j, x :: 0 <= j < |bins| && x in bins[j] ==> x in nodes
  {
    assert |multiset(rest) + Bag(bins)| == |multiset(nodes)|;
    assert rest[0] in rest && rest[0] in multiset(rest) + Bag(bins);
    assert rest[0] in multiset(nodes);
    forall j, x | 0 <= j < |bins| && x in bins[j]
      ensures x in nodes
    {
      InBag(bins, x);
      assert x in multiset(rest) + Bag(bins) && x in multiset(nodes);
    }
  }

  /** The bins merged, smallest first. */
  method MergeBins(next: array<int>, bin: array<int>, le: Order, ghost bins0: seq<seq<nat>>)
    returns (ep: int, ghost s: seq<nat>)
    requires next != bin && TotalPreorder(le) && Bins(next[..], le, bin[..], bins0)
    modifies next
    ensures IsList(next[..], ep, s) && Sorted(le, s) && multiset(s) == Bag(bins0)
    ensures forall x :: 0 <= x < next.Length && x !in Bag(bins0) ==> next[x] == old(next[x])
  {
    hide TotalPreorder, Merged, Bag;
    ep, s := NIL, [];
    ghost var bins := bins0;
    var i := 0;
    while i < LISTSIZE
      invariant 0 <= i <= LISTSIZE && |bins| == LISTSIZE
      invariant IsList(next[..], ep, s) && Sorted(le, s)
      invariant forall j :: i <= j < LISTSIZE ==> Bin(next[..], le, bin[j], j, bins[j])
      invariant forall j :: 0 <= j < i ==> bins[j] == []
      invariant forall j, k :: 0 <= j < k < LISTSIZE ==> Disjoint(bins[j], bins[k])
      invariant Apart(bins, s)
      invariant multiset(s) + Bag(bins) == Bag(bins0)
      invariant forall x :: 0 <= x < next.Length && x !in Bag(bins0) ==> next[x] == old(next[x])
    {
      assert Bin(next[..], le, bin[i], i, bins[i]);
      if bin[i] != NIL {
        ep, s, bins := MergeBin(next, bin, le, ep, s, bins, i);
      }
      i := i + 1;
    }
    EmptyBag(bins);
  }

  method MergeBin(next: array<int>, bin: array<int>, le: Order, ep0: int, ghost s0: seq<nat>,
                  ghost bins0: seq<seq<nat>>, i: nat)
    returns (ep: int, ghost s: seq<nat>, ghost bins: seq<seq<nat>>)
    requires next != bin && bin.Length == |bins0| == LISTSIZE && i < LISTSIZE && TotalPreorder(le)
    requires IsList(next[..], ep0, s0) && Sorted(le, s0) && Apart(bins0, s0)
    requires forall j :: i <= j < LISTSIZE ==> Bin(next[..], le, bin[j], j, bins0[j])
    requires forall j, k :: 0 <= j < k < LISTSIZE ==> Disjoint(bins0[j], bins0[k])
    modifies next
    ensures bins == bins0[i := []] && IsList(next[..], ep, s) && Sorted(le, s) && Apart(bins, s)
    ensures forall j :: i < j < LISTSIZE ==> Bin(next[..], le, bin[j], j, bins[j])
    ensures forall j, k :: 0 <= j < k < LISTSIZE ==> Disjoint(bins[j], bins[k])
    ensures multiset(s) + Bag(bins) == multiset(s0) + Bag(bins0)
    ensures forall x :: 0 <= x < next.Length && x !in multiset(s0) + Bag(bins0) ==> next[x] == old(next[x])
  {
    hide TotalPreorder, Merged, Bag, Sorted;
    assert Bin(next[..], le, bin[i], i, bins0[i]);
    MergedSorted(le, bins0[i], s0);
    MergedBag(le, bins0[i], s0);
    ghost var none: seq<nat> := [];
    BagUpdate(bins0, i, none);
    assert multiset(none) == multiset{};
    s := Merged(le, bins0[i], s0);
    Rearranged(Bag(bins0[i := none]), multiset(bins0[i]), Bag(bins0), multiset(none), multiset(s0));
    assert multiset(none) + multiset(s0) == multiset(s0);
    assert multiset(s) + Bag(bins0[i := none]) == Bag(bins0[i := none]) + multiset(s);
    ghost var before := next[..];
    ep := Merge(next, bin[i], ep0, le, bins0[i], s0);
    bins := bins0[i := []];
    forall j | i < j < LISTSIZE
      ensures Bin(next[..], le, bin[j], j, bins[j])
    {
      assert Bin(before, le, bin[j], j, bins0[j]);
      assert Disjoint(bins0[i], bins0[j]) && Disjoint(s0, bins0[j]);
      ListKept(before, next[..], bin[j], bins[j]);
    }
    forall x | 0 <= x < next.Length && x !in multiset(s0) + Bag(bins0)
      ensures next[x] == old(next[x])
    {
      InBag(bins0, x);
    }
  }
}
