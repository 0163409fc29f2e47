/**
  Construction of the LR(0) states. A state is found by its sorted basis or made, with
  the closure of that basis; its successors are built at once, recursively, before the
  next symbol of the state that asked for it is looked at.
 */
module Lr0 {
  import opened Grammars
  import opened Sets
  import opened LrDriver

  datatype State = State(basis: seq<Item>, items: seq<Item>, shifts: seq<(Symbol, nat)>)

  predicate ValidItem(g: Grammar, i: Item) {
    i.rule < |g.rules| && i.dot <= |g.rules[i.rule].rhs|
  }

  function ItemSet(s: seq<Item>): set<Item> {
    set i | i in s
  }

  predicate DistinctItems(s: seq<Item>) {
    forall i, j :: 0 <= i < j < |s| ==> s[i] != s[j]
  }

  // ----- sorted lists of configurations -----

  predicate Before(a: Item, b: Item) {
    a.rule < b.rule || (a.rule == b.rule && a.dot < b.dot)
  }

  predicate Increasing(s: seq<Item>) {
    forall i, j :: 0 <= i < j < |s| ==> Before(s[i], s[j])
  }

  function Insert(s: seq<Item>, x: Item): (r: seq<Item>)
    ensures ItemSet(r) == ItemSet(s) + {x}
  {
    ConsSet(x, s);
    if s == [] then [x]
    else if Before(x, s[0]) then [x] + s
    else
      ConsSet(s[0], s[1..]);
      ConsSet(s[0], Insert(s[1..], x));
      [s[0]] + Insert(s[1..], x)
  }

  lemma ConsSet(h: Item, s: seq<Item>)
    ensures ItemSet([h] + s) == {h} + ItemSet(s)
    ensures ([h] + s)[0] == h && ([h] + s)[1..] == s
    ensures h in ItemSet([h] + s)
  {
  }

  /** The order of the list after a sort by rule and dot (module MSort sorts it in place). */
  function SortedItems(s: seq<Item>): (r: seq<Item>)
    ensures ItemSet(r) == ItemSet(s)
  {
    if s == [] then []
    else
      assert s == [s[0]] + s[1..];
      Insert(SortedItems(s[1..]), s[0])
  }

  lemma {:induction false} InsertIncreasing(s: seq<Item>, x: Item)
    requires Increasing(s) && x !in s
    ensures Increasing(Insert(s, x))
  {
    if s != [] && !Before(x, s[0]) {
      InsertIncreasing(s[1..], x);
      assert s[0] in s;
      forall y | y in Insert(s[1..], x)
        ensures Before(s[0], y)
      {
        assert y in ItemSet(Insert(s[1..], x));
      }
    }
  }

  lemma {:induction false} SortedIncreasing(s: seq<Item>)
    requires DistinctItems(s)
    ensures Increasing(SortedItems(s))
  {
    if s != [] {
      SortedIncreasing(s[1..]);
      assert s[0] !in s[1..];
      assert s[0] !in ItemSet(SortedItems(s[1..]));
      InsertIncreasing(SortedItems(s[1..]), s[0]);
    }
  }

  /** Sorted, a set of configurations is one list only; so looking bases up as lists is exact. */
  lemma {:induction false} SortedUnique(s: seq<Item>, t: seq<Item>)
    requires Increasing(s) && Increasing(t) && ItemSet(s) == ItemSet(t)
    ensures s == t
  {
    NotEmpty(s);
    NotEmpty(t);
    if s != [] {
      assert s[0] in t && t[0] in s;
      var i :| 0 <= i < |t| && t[i] == s[0];
      var j :| 0 <= j < |s| && s[j] == t[0];
      assert i == 0;
      forall x
        ensures x in ItemSet(s[1..]) <==> x in ItemSet(t[1..])
      {
        TailMember(s, x);
        TailMember(t, x);
        assert x in ItemSet(s) <==> x in ItemSet(t);
      }
      SortedUnique(s[1..], t[1..]);
    }
  }

  lemma NotEmpty(s: seq<Item>)
    ensures s != [] ==> s[0] in ItemSet(s)
  {
  }

  lemma TailMember(s: seq<Item>, x: Item)
    requires Increasing(s) && s != []
    ensures x in s[1..] <==> x in s && x != s[0]
  {
    assert s == [s[0]] + s[1..];
  }

  // ----- closures -----

  predicate Asks(g: Grammar, i: Item, rule: nat) {
    ValidItem(g, i) && i.dot < |g.rules[i.rule].rhs| && rule < |g.rules|
      && g.rules[i.rule].rhs[i.dot] == Nonterminal(g.rules[rule].lhs)
  }

  /** Whatever nonterminal is after a dot, its rules are in too. */
  ghost predicate Closed(g: Grammar, s: set<Item>) {
    forall i, rule: nat :: i in s && Asks(g, i, rule) ==> Item(rule, 0) in s
  }

  ghost predicate IsClosure(g: Grammar, basis: set<Item>, s: set<Item>) {
    && basis <= s && Closed(g, s)
    && forall t :: basis <= t && Closed(g, t) ==> s <= t
  }

  ghost function AllItems(g: Grammar): set<Item> {
    set r: nat, d: nat | r < |g.rules| && d <= |g.rules[r].rhs| :: Item(r, d)
  }

  lemma AllItemsHas(g: Grammar, i: Item)
    ensures i in AllItems(g) <==> ValidItem(g, i)
  {
  }

  ghost predicate OnlyValid(g: Grammar, s: seq<Item>) {
    forall i :: i in s ==> ValidItem(g, i)
  }

  lemma {:induction false} ListSize(g: Grammar, s: seq<Item>)
    requires DistinctItems(s) && OnlyValid(g, s)
    ensures |s| <= |AllItems(g)|
  {
    forall i | i in ItemSet(s)
      ensures i in AllItems(g)
    {
      AllItemsHas(g, i);
    }
    SetSize(s);
    Cardinality(ItemSet(s), AllItems(g));
  }

  lemma {:induction false} SetSize(s: seq<Item>)
    requires DistinctItems(s)
    ensures |ItemSet(s)| == |s|
  {
    if s != [] {
      SetSize(s[1..]);
      assert s == [s[0]] + s[1..];
      assert ItemSet(s) == {s[0]} + ItemSet(s[1..]) && s[0] !in s[1..];
    }
  }

  /** The closure adds configurations with the dot in front only. */
  lemma ClosureAddsFresh(g: Grammar, basis: set<Item>, s: set<Item>)
    requires IsClosure(g, basis, s) && forall i :: i in basis ==> ValidItem(g, i)
    ensures forall i :: i in s && i.dot > 0 ==> i in basis
    ensures forall i :: i in s ==> ValidItem(g, i)
  {
    var t := basis + set i | i in AllItems(g) && i.dot == 0;
    forall i, rule: nat | i in t && Asks(g, i, rule)
      ensures Item(rule, 0) in t
    {
      AllItemsHas(g, Item(rule, 0));
    }
    assert s <= t;
    forall i | i in s
      ensures ValidItem(g, i)
    {
      AllItemsHas(g, i);
    }
  }

  // ----- shifts -----

  predicate CanShift(g: Grammar, i: Item, x: Symbol) {
    ValidItem(g, i) && i.dot < |g.rules[i.rule].rhs| && g.rules[i.rule].rhs[i.dot] == x
  }

  /** The configurations with `x` after the dot, moved over it. */
  function Advance(g: Grammar, s: set<Item>, x: Symbol): set<Item> {
    set i | i in s && CanShift(g, i, x) :: Item(i.rule, i.dot + 1)
  }

  predicate HasShift(s: State, x: Symbol) {
    exists k :: 0 <= k < |s.shifts| && s.shifts[k].0 == x
  }

  predicate ShiftRight(g: Grammar, states: seq<State>, s: State, k: nat)
    requires k < |s.shifts|
  {
    && s.shifts[k].1 < |states|
    && ItemSet(states[s.shifts[k].1].basis) == Advance(g, ItemSet(s.items), s.shifts[k].0)
    && exists i :: i in s.items && CanShift(g, i, s.shifts[k].0)
  }

  /** Exactly one shift for each symbol after a dot, to the state of the moved configurations. */
  ghost predicate ShiftsExact(g: Grammar, states: seq<State>, s: State) {
    && (forall k :: 0 <= k < |s.shifts| ==> ShiftRight(g, states, s, k))
    && (forall k, l :: 0 <= k < l < |s.shifts| ==> s.shifts[k].0 != s.shifts[l].0)
    && (forall i, x :: i in s.items && CanShift(g, i, x) ==> HasShift(s, x))
  }

  ghost predicate ValidState(g: Grammar, s: State) {
    && Increasing(s.basis) && OnlyValid(g, s.basis) && DistinctItems(s.items) && OnlyValid(g, s.items)
    && IsClosure(g, ItemSet(s.basis), ItemSet(s.items))
  }

  ghost predicate ValidStates(g: Grammar, states: seq<State>) {
    && (forall i :: 0 <= i < |states| ==> ValidState(g, states[i]))
    && forall i, j :: 0 <= i < j < |states| ==> states[i].basis != states[j].basis
  }

  /** The bases not made into states yet; every new state takes one. */
  ghost function Bases(states: seq<State>): set<set<Item>> {
    set i | 0 <= i < |states| :: ItemSet(states[i].basis)
  }

  ghost function Remaining(g: Grammar, states: seq<State>): nat {
    |(set s: set<Item> | s <= AllItems(g)) - Bases(states)|
  }

  lemma RemainingShrinks(g: Grammar, states: seq<State>, more: seq<State>, s: State)
    requires ValidStates(g, states) && ValidState(g, s) && more == states + [s]
    requires forall i :: 0 <= i < |states| ==> states[i].basis != s.basis
    ensures Remaining(g, more) < Remaining(g, states)
  {
    hide IsClosure;
    var b := ItemSet(s.basis);
    NewBasis(g, states, s);
    BasesAppend(states, s);
    forall i | i in b
      ensures i in AllItems(g)
    {
      AllItemsHas(g, i);
    }
    hide ValidStates, ValidState, Bases, AllItems;
    var all := set t: set<Item> | t <= AllItems(g);
    assert b in all;
    assert all - Bases(more) == (all - Bases(states)) - {b};
  }

  lemma NewBasis(g: Grammar, states: seq<State>, s: State)
    requires ValidStates(g, states) && ValidState(g, s)
    requires forall i :: 0 <= i < |states| ==> states[i].basis != s.basis
    ensures ItemSet(s.basis) !in Bases(states)
  {
    hide IsClosure;
    forall i | 0 <= i < |states|
      ensures ItemSet(states[i].basis) != ItemSet(s.basis)
    {
      if ItemSet(states[i].basis) == ItemSet(s.basis) {
        assert ValidState(g, states[i]);
        SortedUnique(states[i].basis, s.basis);
      }
    }
  }

  lemma BasesAppend(states: seq<State>, s: State)
    ensures Bases(states + [s]) == Bases(states) + {ItemSet(s.basis)}
  {
    var more := states + [s];
    forall b
      ensures b in Bases(more) <==> b in Bases(states) + {ItemSet(s.basis)}
    {
      if b in Bases(states) {
        var i :| 0 <= i < |states| && ItemSet(states[i].basis) == b;
        assert ItemSet(more[i].basis) == b;
      }
      assert ItemSet(more[|states|].basis) in Bases(more);
    }
  }

  lemma RemainingMonotone(g: Grammar, states: seq<State>, more: seq<State>)
    requires |states| <= |more| && forall i :: 0 <= i < |states| ==> more[i].basis == states[i].basis
    ensures Remaining(g, more) <= Remaining(g, states)
  {
    var all := set t: set<Item> | t <= AllItems(g);
    assert Bases(states) <= Bases(more) by {
      forall i | 0 <= i < |states|
        ensures ItemSet(states[i].basis) in Bases(more)
      {
        assert ItemSet(more[i].basis) in Bases(more);
      }
    }
    Cardinality(all - Bases(more), all - Bases(states));
  }

  /** The same bases, and more states. */
  predicate SameBases(states: seq<State>, more: seq<State>) {
    |states| <= |more| && forall i :: 0 <= i < |states| ==> more[i].basis == states[i].basis
  }

  predicate Kept(states: seq<State>, more: seq<State>) {
    |states| <= |more| && forall i :: 0 <= i < |states| ==> more[i] == states[i]
  }

  predicate AllMoved(basis: seq<Item>) {
    forall i :: i in basis ==> i.dot > 0
  }

  /** Only the first state's basis has dots in front. */
  predicate Later(states: seq<State>) {
    forall s :: 0 < s < |states| ==> AllMoved(states[s].basis)
  }

  /** An earlier state shifts into this one. */
  ghost predicate HasSource(states: seq<State>, s: nat) {
    exists p: nat, k: nat :: ShiftsInto(states, p, k, s)
  }

  predicate ShiftsInto(states: seq<State>, p: nat, k: nat, s: nat) {
    p < s && p < |states| && k < |states[p].shifts| && states[p].shifts[k].1 == s
  }

  /** Every state from `from` on was come to from an earlier one, but for one that still has to be. */
  ghost predicate EnteredFrom(states: seq<State>, from: nat, pending: nat) {
    forall s :: from <= s < |states| && s != pending ==> HasSource(states, s)
  }

  ghost predicate Connected(states: seq<State>) {
    EnteredFrom(states, 0, 0)
  }

  lemma SourceKept(states: seq<State>, more: seq<State>, s: nat)
    requires HasSource(states, s) && |states| <= |more|
    requires forall i :: 0 <= i < |states| ==> states[i].shifts <= more[i].shifts
    ensures HasSource(more, s)
  {
    var p: nat, k: nat :| ShiftsInto(states, p, k, s);
    assert ShiftsInto(more, p, k, s);
  }

  /** More states, all but one with their sources, leave the other sources as they were. */
  lemma EnteredKept(states: seq<State>, more: seq<State>, from: nat, pending: nat)
    requires Kept(states, more) && from <= |states|
    requires EnteredFrom(states, from, |states|) && EnteredFrom(more, |states|, pending)
    ensures EnteredFrom(more, from, if pending < |states| then |more| else pending)
  {
    hide HasSource;
    forall s | from <= s < |states|
      ensures HasSource(more, s)
    {
      SourceKept(states, more, s);
    }
  }

  /** A shift to the pending state is its source. */
  lemma SourceAdded(states: seq<State>, stp: nat, shift: (Symbol, nat), from: nat, pending: nat)
    requires stp < from <= |states| && EnteredFrom(states, from, pending)
    requires shift.1 == pending || pending >= |states|
    ensures var more := states[stp := states[stp].(shifts := states[stp].shifts + [shift])];
            EnteredFrom(more, from, |more|)
  {
    var more := states[stp := states[stp].(shifts := states[stp].shifts + [shift])];
    assert ShiftsInto(more, stp, |states[stp].shifts|, shift.1) || shift.1 <= stp;
    hide HasSource, ShiftsInto;
    forall s | from <= s < |more|
      ensures HasSource(more, s)
    {
      if s == pending {
        SourceIs(more, stp, |states[stp].shifts|, s);
      } else {
        SourceKept(states, more, s);
      }
    }
  }

  lemma SourceIs(states: seq<State>, p: nat, k: nat, s: nat)
    requires ShiftsInto(states, p, k, s)
    ensures HasSource(states, s)
  {
  }

  lemma SameMoved(s: seq<Item>, t: seq<Item>)
    requires ItemSet(s) == ItemSet(t) && AllMoved(s)
    ensures AllMoved(t)
  {
    assert forall i :: i in t ==> i in ItemSet(t);
  }

  ghost predicate ExactFrom(g: Grammar, states: seq<State>, from: nat) {
    forall i :: from <= i < |states| ==> ShiftsExact(g, states, states[i])
  }

  lemma ShiftRightKept(g: Grammar, states: seq<State>, more: seq<State>, s: State, k: nat)
    requires SameBases(states, more) && k < |s.shifts| && ShiftRight(g, states, s, k)
    ensures ShiftRight(g, more, s, k)
  {
  }

  lemma ShiftsKept(g: Grammar, states: seq<State>, more: seq<State>, s: State)
    requires SameBases(states, more) && ShiftsExact(g, states, s)
    ensures ShiftsExact(g, more, s)
  {
    forall k | 0 <= k < |s.shifts|
      ensures ShiftRight(g, more, s, k)
    {
      ShiftRightKept(g, states, more, s, k);
    }
  }

  /** Adding one shift to one state leaves every finished state as it was. */
  lemma ShiftAdded(g: Grammar, states: seq<State>, stp: nat, shift: (Symbol, nat), from: nat)
    requires stp < from <= |states| && ValidStates(g, states) && ExactFrom(g, states, from)
    ensures var more := states[stp := states[stp].(shifts := states[stp].shifts + [shift])];
            SameBases(states, more) && ValidStates(g, more) && ExactFrom(g, more, from)
  {
    hide ShiftsExact, ValidState;
    var more := states[stp := states[stp].(shifts := states[stp].shifts + [shift])];
    forall i | from <= i < |more|
      ensures ShiftsExact(g, more, more[i])
    {
      ShiftsKept(g, states, more, more[i]);
    }
    ValidShift(g, states[stp], shift);
  }

  lemma ValidShift(g: Grammar, s: State, shift: (Symbol, nat))
    requires ValidState(g, s)
    ensures ValidState(g, s.(shifts := s.shifts + [shift]))
  {
  }

  /** How far the shifts of a state have got: which symbols after a dot they cover. */
  ghost predicate Covered(g: Grammar, s: State, complete: seq<bool>) {
    && |complete| == |s.items|
    && forall b :: 0 <= b < |s.items| ==>
       (complete[b] <==> exists l :: 0 <= l < |s.shifts| && CanShift(g, s.items[b], s.shifts[l].0))
  }

  ghost predicate PartlyExact(g: Grammar, states: seq<State>, s: State) {
    && (forall k :: 0 <= k < |s.shifts| ==> ShiftRight(g, states, s, k))
    && (forall k, l :: 0 <= k < l < |s.shifts| ==> s.shifts[k].0 != s.shifts[l].0)
  }

  /** The configurations moved over `x`, and the coverage after their shift is added. */
  lemma OneMore(g: Grammar, states: seq<State>, s: State, complete: seq<bool>, k: nat, x: Symbol, target: nat,
                after: seq<bool>)
    requires PartlyExact(g, states, s) && Covered(g, s, complete) && k < |s.items| && !complete[k]
             && CanShift(g, s.items[k], x)
    requires target < |states| && ItemSet(states[target].basis) == Advance(g, ItemSet(s.items), x)
    requires |after| == |complete|
             && forall b :: 0 <= b < |after| ==> (after[b] <==> complete[b] || CanShift(g, s.items[b], x))
    ensures var t := s.(shifts := s.shifts + [(x, target)]);
            PartlyExact(g, states, t) && Covered(g, t, after)
  {
    var t := s.(shifts := s.shifts + [(x, target)]);
    assert forall l :: 0 <= l < |s.shifts| ==> t.shifts[l] == s.shifts[l];
    assert t.shifts[|s.shifts|] == (x, target);
    forall l | 0 <= l < |s.shifts|
      ensures s.shifts[l].0 != x && ShiftRight(g, states, t, l)
    {
      assert ShiftRight(g, states, s, l);
      assert !CanShift(g, s.items[k], s.shifts[l].0);
    }
    assert s.items[k] in t.items;
    forall b | 0 <= b < |t.items|
      ensures after[b] <==> exists l :: 0 <= l < |t.shifts| && CanShift(g, t.items[b], t.shifts[l].0)
    {
      if complete[b] {
        var l :| 0 <= l < |s.shifts| && CanShift(g, s.items[b], s.shifts[l].0);
        assert CanShift(g, t.items[b], t.shifts[l].0);
      }
      if CanShift(g, s.items[b], x) {
        assert CanShift(g, t.items[b], t.shifts[|s.shifts|].0);
      }
    }
  }

  /** No configuration in front of an uncovered one has its symbol after the dot. */
  lemma AdvanceFrom(g: Grammar, s: State, complete: seq<bool>, k: nat, x: Symbol, moved: set<Item>)
    requires Covered(g, s, complete) && k < |s.items| && !complete[k] && CanShift(g, s.items[k], x)
    requires forall b ::
             0 <= b < k && s.items[b].rule < |g.rules| && s.items[b].dot < |g.rules[s.items[b].rule].rhs| ==>
             complete[b]
    requires moved == set b | k <= b < |s.items| && !complete[b]
             && CanShift(g, s.items[b], x) :: Item(s.items[b].rule, s.items[b].dot + 1)
    ensures moved == Advance(g, ItemSet(s.items), x)
  {
    forall b | 0 <= b < |s.items| && CanShift(g, s.items[b], x)
      ensures !complete[b] && k <= b
    {
      assert forall l :: 0 <= l < |s.shifts| ==>
             (CanShift(g, s.items[b], s.shifts[l].0) <==> CanShift(g, s.items[k], s.shifts[l].0));
    }
    forall j | j in Advance(g, ItemSet(s.items), x)
      ensures j in moved
    {
      var i :| i in ItemSet(s.items) && CanShift(g, i, x) && j == Item(i.rule, i.dot + 1);
      var b :| 0 <= b < |s.items| && s.items[b] == i;
    }
    forall j | j in moved
      ensures j in Advance(g, ItemSet(s.items), x)
    {
      var b :| k <= b < |s.items| && !complete[b] && CanShift(g, s.items[b], x)
        && j == Item(s.items[b].rule, s.items[b].dot + 1);
      assert s.items[b] in ItemSet(s.items);
    }
  }

  /** The states of a grammar, all of them come to from the first one. */
  ghost predicate FoundStates(g: Grammar, start: nat, states: seq<State>) {
    && ValidGrammar(g) && ValidStates(g, states) && ExactFrom(g, states, 0) && |states| > 0 && Connected(states)
    && Later(states)
    && ItemSet(states[0].basis) == set r | 0 <= r < |g.rules| && g.rules[r].lhs == start :: Item(r, 0)
  }

  class Builder {
    const g: Grammar
    var states: seq<State>
    var current: seq<Item>

    constructor (g: Grammar)
      ensures this.g == g && states == [] && current == []
    {
      this.g := g;
      states, current := [], [];
    }

    /** The same configuration is never listed twice. */
    method Add(rule: nat, dot: nat)
      requires DistinctItems(current) && OnlyValid(g, current) && ValidItem(g, Item(rule, dot))
      modifies this`current
      ensures DistinctItems(current) && OnlyValid(g, current)
              && ItemSet(current) == ItemSet(old(current)) + {Item(rule, dot)}
      ensures |old(current)| <= |current| && current[..|old(current)|] == old(current)
    {
      if Item(rule, dot) !in current {
        current := current + [Item(rule, dot)];
      }
    }

    /** The list grows while it is walked, until every configuration on it has been looked at. */
    method Closure()
      requires DistinctItems(current) && OnlyValid(g, current)
      modifies this`current
      ensures DistinctItems(current) && OnlyValid(g, current)
      ensures IsClosure(g, ItemSet(old(current)), ItemSet(current))
    {
      ghost var basis := ItemSet(current);
      var k := 0;
      ListSize(g, current);
      while k < |current|
        invariant 0 <= k <= |current| <= |AllItems(g)|
        invariant DistinctItems(current) && OnlyValid(g, current) && basis <= ItemSet(current)
        invariant forall b, rule: nat :: 0 <= b < k && Asks(g, current[b], rule) ==> Item(rule, 0) in current
        invariant forall t :: basis <= t && Closed(g, t) ==> ItemSet(current) <= t
        decreases |AllItems(g)| - k
      {
        AddRulesFor(k, basis);
        ListSize(g, current);
        k := k + 1;
      }
    }

    /** One configuration: the rules of the nonterminal after its dot, if there is one. */
    method AddRulesFor(k: nat, ghost basis: set<Item>)
      requires k < |current| && DistinctItems(current) && OnlyValid(g, current)
      requires forall t :: basis <= t && Closed(g, t) ==> ItemSet(current) <= t
      modifies this`current
      ensures DistinctItems(current) && OnlyValid(g, current)
      ensures |old(current)| <= |current| && current[..|old(current)|] == old(current)
      ensures forall rule: nat :: Asks(g, old(current)[k], rule) ==> Item(rule, 0) in current
      ensures forall t :: basis <= t && Closed(g, t) ==> ItemSet(current) <= t
    {
      var i := current[k];
      assert i in current;
      var rhs := g.rules[i.rule].rhs;
      if i.dot >= |rhs| || !rhs[i.dot].Nonterminal? {
        return;
      }
      ghost var was := current;
      assert forall t :: basis <= t && Closed(g, t) ==> i in t by { assert i in ItemSet(current); }
      var r := 0;
      while r < |g.rules|
        invariant 0 <= r <= |g.rules| && DistinctItems(current) && OnlyValid(g, current)
        invariant |was| <= |current| && current[..|was|] == was
        invariant forall rule: nat :: rule < r && Asks(g, i, rule) ==> Item(rule, 0) in ItemSet(current)
        invariant forall t :: basis <= t && Closed(g, t) ==> ItemSet(current) <= t
      {
        if g.rules[r].lhs == rhs[i.dot].index {
          assert Asks(g, i, r);
          Add(r, 0);
        }
        r := r + 1;
      }
      assert forall rule: nat :: Asks(g, i, rule) ==> rule < r;
    }

    /** The state with the current basis, found or made. */
    method GetState() returns (index: nat)
      requires ValidGrammar(g) && ValidStates(g, states) && DistinctItems(current) && OnlyValid(g, current)
      requires Later(states) && (states != [] ==> AllMoved(current))
      modifies this
      ensures ValidStates(g, states) && Kept(old(states), states) && ExactFrom(g, states, |old(states)|)
              && Later(states)
      ensures index < |states| && ItemSet(states[index].basis) == ItemSet(old(current))
      ensures |old(states)| == 0 ==> index == 0
      ensures EnteredFrom(states, |old(states)|, index)
      decreases Remaining(g, states), 0
    {
      hide IsClosure, ShiftsExact, Remaining, HasSource;
      var bp := SortedItems(current);
      SortedIncreasing(current);
      index := 0;
      while index < |states|
        invariant 0 <= index <= |states|
        invariant forall i :: 0 <= i < index ==> states[i].basis != bp
      {
        if states[index].basis == bp {
          return;
        }
        index := index + 1;
      }
      SameItems(g, current, bp);
      if states != [] { SameMoved(current, bp); }
      Closure();
      var cfp := SortedItems(current);
      SortedIncreasing(current);
      SameItems(g, current, cfp);
      IncreasingDistinct(cfp);
      var stp := State(bp, cfp, []);
      ghost var was := states;
      states := states + [stp];
      RemainingShrinks(g, was, states, stp);
      BuildShifts(index);
    }

    /** The successors of a state, one for each symbol after a dot. */
    method BuildShifts(stp: nat)
      requires ValidGrammar(g) && ValidStates(g, states) && stp + 1 == |states| && states[stp].shifts == []
               && Later(states)
      modifies this
      ensures ValidStates(g, states) && |old(states)| <= |states| && ExactFrom(g, states, stp) && Later(states)
      ensures forall i :: 0 <= i < stp ==> states[i] == old(states)[i]
      ensures states[stp].(shifts := []) == old(states)[stp]
      ensures EnteredFrom(states, stp + 1, |states|)
      decreases Remaining(g, states), 1
    {
      hide IsClosure, ShiftsExact, Remaining, PartlyExact, Covered, Increasing, DistinctItems, EnteredFrom;
      var items := states[stp].items;
      var complete := new bool[|items|](_ => false);
      ghost var first := states;
      NothingCovered(g, states, states[stp], complete[..]);
      NoneEntered(states, stp + 1);
      ValidItems(g, states, stp);
      var k := 0;
      while k < |items|
        invariant 0 <= k <= |items| && stp < |first| <= |states| && states[stp].items == items
                  && complete.Length == |items|
        invariant ValidStates(g, states) && SameBases(first, states) && ExactFrom(g, states, stp + 1) && Later(states)
        invariant forall i :: 0 <= i < stp ==> states[i] == first[i]
        invariant states[stp].(shifts := []) == first[stp] && EnteredFrom(states, stp + 1, |states|)
        invariant PartlyExact(g, states, states[stp]) && Covered(g, states[stp], complete[..])
        invariant forall b :: 0 <= b < k && items[b].dot < |g.rules[items[b].rule].rhs| ==> complete[b]
      {
        if !complete[k] && items[k].dot < |g.rules[items[k].rule].rhs| {
          var sp := g.rules[items[k].rule].rhs[items[k].dot];
          ghost var before, was := states, complete[..];
          BuildBasis(items, k, sp, complete);
          AdvanceFrom(g, states[stp], was, k, sp, ItemSet(current));
          MovedBasis(items, current);
          RemainingMonotone(g, first, states);
          var newstp := GetState();
          PartlyKept(g, before, states, stp, stp + 1);
          EnteredKept(before, states, stp + 1, newstp);
          OneMore(g, states, states[stp], was, k, sp, newstp, complete[..]);
          ShiftAdded(g, states, stp, (sp, newstp), stp + 1);
          SourceAdded(states, stp, (sp, newstp), stp + 1, if newstp < |before| then |states| else newstp);
          before := states;
          states := states[stp := states[stp].(shifts := states[stp].shifts + [(sp, newstp)])];
          PartlySame(g, before, states, states[stp]);
        }
        k := k + 1;
      }
      AllCovered(g, states, states[stp], complete[..]);
    }

    /** The configurations from `k` on with `sp` after the dot, each used once, moved over it. */
    method BuildBasis(items: seq<Item>, k: nat, sp: Symbol, complete: array<bool>)
      requires complete.Length == |items| && k <= |items| && OnlyValid(g, items)
      modifies this`current, complete
      ensures DistinctItems(current) && OnlyValid(g, current)
      ensures ItemSet(current) == set b | k <= b < |items| && !old(complete[b])
              && CanShift(g, items[b], sp) :: Item(items[b].rule, items[b].dot + 1)
      ensures forall b :: 0 <= b < |items| ==>
              complete[b] == (old(complete[b]) || (k <= b && CanShift(g, items[b], sp)))
    {
      current := [];
      var b := k;
      while b < |items|
        invariant k <= b <= |items| && DistinctItems(current) && OnlyValid(g, current)
        invariant ItemSet(current) == set c | k <= c < b && !old(complete[c])
                  && CanShift(g, items[c], sp) :: Item(items[c].rule, items[c].dot + 1)
        invariant forall c :: 0 <= c < |items| ==>
                  complete[c] == (old(complete[c]) || (k <= c < b && CanShift(g, items[c], sp)))
      {
        assert items[b] in items;
        if !complete[b] && items[b].dot < |g.rules[items[b].rule].rhs|
            && g.rules[items[b].rule].rhs[items[b].dot] == sp {
          assert CanShift(g, items[b], sp);
          complete[b] := true;
          Add(items[b].rule, items[b].dot + 1);
        }
        b := b + 1;
      }
    }

    lemma MovedBasis(items: seq<Item>, moved: seq<Item>)
      requires exists x :: ItemSet(moved) == Advance(g, ItemSet(items), x)
      ensures AllMoved(moved)
    {
      var x :| ItemSet(moved) == Advance(g, ItemSet(items), x);
      forall i | i in moved
        ensures i.dot > 0
      {
        assert i in ItemSet(moved);
      }
    }

    /** The first state's basis is the rules of the start symbol; every other state follows from it. */
    method FindStates(start: nat)
      requires ValidGrammar(g) && states == []
      modifies this
      ensures FoundStates(g, start, states)
    {
      current := [];
      var r := 0;
      while r < |g.rules|
        invariant 0 <= r <= |g.rules| && states == [] && DistinctItems(current) && OnlyValid(g, current)
        invariant ItemSet(current) == set q | 0 <= q < r && g.rules[q].lhs == start :: Item(q, 0)
      {
        if g.rules[r].lhs == start {
          Add(r, 0);
        }
        r := r + 1;
      }
      var _ := GetState();
    }
  }

  lemma SameItems(g: Grammar, s: seq<Item>, t: seq<Item>)
    requires OnlyValid(g, s) && ItemSet(s) == ItemSet(t)
    ensures OnlyValid(g, t)
  {
    forall i | i in t
      ensures ValidItem(g, i)
    {
      assert i in ItemSet(t) && i in s;
    }
  }

  lemma IncreasingDistinct(s: seq<Item>)
    requires Increasing(s)
    ensures DistinctItems(s)
  {
  }

  lemma NoneEntered(states: seq<State>, from: nat)
    requires |states| <= from
    ensures EnteredFrom(states, from, |states|)
  {
  }

  lemma NothingCovered(g: Grammar, states: seq<State>, s: State, complete: seq<bool>)
    requires s.shifts == [] && |complete| == |s.items| && forall b :: 0 <= b < |complete| ==> !complete[b]
    ensures PartlyExact(g, states, s) && Covered(g, s, complete)
  {
  }

  lemma ValidItems(g: Grammar, states: seq<State>, stp: nat)
    requires ValidStates(g, states) && stp < |states|
    ensures OnlyValid(g, states[stp].items)
    ensures forall b :: 0 <= b < |states[stp].items| ==> ValidItem(g, states[stp].items[b])
  {
    assert ValidState(g, states[stp]);
  }

  lemma AllCovered(g: Grammar, states: seq<State>, s: State, complete: seq<bool>)
    requires PartlyExact(g, states, s) && Covered(g, s, complete)
    requires forall b ::
             0 <= b < |s.items| && ValidItem(g, s.items[b]) && s.items[b].dot < |g.rules[s.items[b].rule].rhs| ==>
             complete[b]
    ensures ShiftsExact(g, states, s)
  {
    forall i, x | i in s.items && CanShift(g, i, x)
      ensures HasShift(s, x)
    {
      var b :| 0 <= b < |s.items| && s.items[b] == i;
      var l :| 0 <= l < |s.shifts| && CanShift(g, s.items[b], s.shifts[l].0);
      assert s.shifts[l].0 == x;
    }
  }

  lemma PartlySame(g: Grammar, states: seq<State>, more: seq<State>, s: State)
    requires PartlyExact(g, states, s) && SameBases(states, more)
    ensures PartlyExact(g, more, s)
  {
    forall k | 0 <= k < |s.shifts|
      ensures ShiftRight(g, more, s, k)
    {
      ShiftRightKept(g, states, more, s, k);
    }
  }

  /** Making more states disturbs neither the finished ones nor the one being finished. */
  lemma PartlyKept(g: Grammar, before: seq<State>, states: seq<State>, stp: nat, from: nat)
    requires Kept(before, states) && stp < |before| && PartlyExact(g, before, before[stp])
    requires from <= |before| && ExactFrom(g, before, from) && ExactFrom(g, states, |before|)
    ensures PartlyExact(g, states, states[stp]) && ExactFrom(g, states, from) && SameBases(before, states)
  {
    hide ShiftsExact;
    forall k | 0 <= k < |before[stp].shifts|
      ensures ShiftRight(g, states, states[stp], k)
    {
      ShiftRightKept(g, before, states, before[stp], k);
    }
    forall i | from <= i < |states|
      ensures ShiftsExact(g, states, states[i])
    {
      if i < |before| { ShiftsKept(g, before, states, before[i]); }
    }
  }

  // ----- the automaton the driver needs -----

  function ItemSets(states: seq<State>): (sets: seq<set<Item>>)
    ensures |sets| == |states|
    ensures forall i :: 0 <= i < |states| ==> sets[i] == ItemSet(states[i].items)
  {
    if states == [] then [] else ItemSets(states[..|states| - 1]) + [ItemSet(states[|states| - 1].items)]
  }

  /** The constructed states satisfy what module LrDriver assumes of shifts and of the first state. */
  lemma ShiftsAreEdges(g: Grammar, states: seq<State>, start: nat, s: nat, k: nat, x: Symbol)
    requires ValidGrammar(g) && ValidStates(g, states) && ExactFrom(g, states, 0) && s < |states|
             && k < |states[s].shifts|
    requires ItemSet(states[0].basis) == set r | 0 <= r < |g.rules| && g.rules[r].lhs == start :: Item(r, 0)
    requires Matches(g, states[s].shifts[k].0, x)
    ensures Edge(g, Automaton(ItemSets(states), start), s, x, states[s].shifts[k].1)
    ensures forall i :: i in ItemSets(states)[0] ==> i.dot == 0
  {
    hide IsClosure, Increasing, DistinctItems, OnlyValid, ShiftsExact, ValidState, Advance;
    var sp, target := states[s].shifts[k].0, states[s].shifts[k].1;
    OneShift(g, states, s, k);
    FirstItems(g, states[0], start);
    StepItems(g, states[s], states[target], sp, x);
    var j :| j in states[target].basis && j.dot > 0;
    assert j in ItemSet(states[target].basis);
  }

  lemma OneShift(g: Grammar, states: seq<State>, s: nat, k: nat)
    requires ValidStates(g, states) && ExactFrom(g, states, 0) && s < |states| && k < |states[s].shifts|
    ensures ShiftRight(g, states, states[s], k)
    ensures ValidState(g, states[0]) && ValidState(g, states[s]) && ValidState(g, states[states[s].shifts[k].1])
  {
    hide ValidState;
    assert ShiftsExact(g, states, states[s]);
    assert ShiftRight(g, states, states[s], k);
  }

  lemma FirstItems(g: Grammar, s: State, start: nat)
    requires ValidState(g, s) && ItemSet(s.basis) == set r | 0 <= r < |g.rules| && g.rules[r].lhs == start :: Item(r, 0)
    ensures forall i :: i in s.basis ==> i.dot == 0
    ensures forall i :: i in ItemSet(s.items) ==> i.dot == 0
  {
    hide IsClosure, Increasing;
    FreshItems(g, s);
    assert forall i :: i in s.basis ==> i in ItemSet(s.basis);
  }

  /** What a shift's target has begun to recognise, its source had, one symbol back. */
  lemma StepItems(g: Grammar, s: State, t: State, sp: Symbol, x: Symbol)
    requires ValidState(g, s) && ValidState(g, t) && ItemSet(t.basis) == Advance(g, ItemSet(s.items), sp)
             && Matches(g, sp, x)
    requires exists i :: i in s.items && CanShift(g, i, sp)
    ensures forall j :: j in ItemSet(t.items) && j.dot > 0 ==>
              && j.rule < |g.rules| && j.dot <= |g.rules[j.rule].rhs|
              && Matches(g, g.rules[j.rule].rhs[j.dot - 1], x) && Item(j.rule, j.dot - 1) in ItemSet(s.items)
    ensures exists j :: j in t.basis && j.dot > 0
  {
    hide IsClosure, Increasing;
    FreshItems(g, t);
    forall j | j in t.items && j.dot > 0
      ensures j.rule < |g.rules| && j.dot <= |g.rules[j.rule].rhs|
      ensures Matches(g, g.rules[j.rule].rhs[j.dot - 1], x) && Item(j.rule, j.dot - 1) in ItemSet(s.items)
    {
      assert j in ItemSet(t.basis);
      var m :| m in ItemSet(s.items) && CanShift(g, m, sp) && j == Item(m.rule, m.dot + 1);
    }
    var i :| i in s.items && CanShift(g, i, sp);
    assert i in ItemSet(s.items);
    assert Item(i.rule, i.dot + 1) in Advance(g, ItemSet(s.items), sp);
    assert Item(i.rule, i.dot + 1) in ItemSet(t.basis);
  }

  lemma FreshItems(g: Grammar, s: State)
    requires ValidState(g, s)
    ensures forall i :: i in s.items && i.dot > 0 ==> i in s.basis
  {
    hide Closed;
    ClosureAddsFresh(g, ItemSet(s.basis), ItemSet(s.items));
    assert forall i :: i in s.items ==> i in ItemSet(s.items);
  }

  /** A rule that a state starts on is asked for by a configuration in it, or is in its basis. */
  lemma AskedFor(g: Grammar, s: State, rule: nat)
    requires ValidState(g, s) && Item(rule, 0) in s.items
    ensures Item(rule, 0) in s.basis || exists i :: i in s.items && Asks(g, i, rule)
  {
    var basis, items := ItemSet(s.basis), ItemSet(s.items);
    var t := set i | i in items && (i in basis || exists j :: j in items && i.dot == 0 && Asks(g, j, i.rule));
    assert Closed(g, t);
    assert Item(rule, 0) in t;
    if Item(rule, 0) !in s.basis {
      var j :| j in items && Asks(g, j, rule);
      assert j in s.items;
    }
  }
}
