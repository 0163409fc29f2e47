/**
  What the look-ahead sets of the generator are: a token can come after a configuration of
  a state exactly if some way down from the start symbol, along rules whose recognised parts
  lead to that state, leaves the token to come next. These are the LALR(1) look-aheads.
 */
module Lalr {
  import opened Grammars
  import opened Sets
  import opened LrDriver
  import opened Lr0
  import opened FirstSets
  import opened Links
  import opened CompressTables
  import FollowSets
  import Actions

  // ----- ways down from the start symbol -----

  /**
    The dots of the rules on the way, from the top: each has the nonterminal of the next
    rule after it, and the last one that of `rule`.
   */
  predicate Spine(g: Grammar, start: nat, steps: seq<Item>, rule: nat) {
    if steps == [] then rule < |g.rules| && g.rules[rule].lhs == start
    else
      var last := steps[|steps| - 1];
      Asks(g, last, rule) && Spine(g, start, steps[..|steps| - 1], last.rule)
  }

  function Begun(g: Grammar, i: Item): Form {
    if ValidItem(g, i) then g.rules[i.rule].rhs[..i.dot] else []
  }

  /** What stands left of the rule. */
  function Recognised(g: Grammar, steps: seq<Item>): Form {
    if steps == [] then []
    else Recognised(g, steps[..|steps| - 1]) + Begun(g, steps[|steps| - 1])
  }

  /** What is still to come after it. */
  function ToCome(g: Grammar, steps: seq<Item>): Form {
    if steps == [] then []
    else
      var last := steps[|steps| - 1];
      (if ValidItem(g, last) then Rest(g, last) else []) + ToCome(g, steps[..|steps| - 1])
  }

  /** The shifts over the symbols lead from the first state to this one. */
  ghost predicate LeadsTo(states: seq<State>, x: Form, s: nat) {
    if x == [] then s == 0 && |states| > 0
    else exists p: nat :: ShiftedFrom(states, x, p, s) && LeadsTo(states, x[..|x| - 1], p)
  }

  predicate ShiftedFrom(states: seq<State>, x: Form, p: nat, s: nat)
    requires x != []
  {
    p < |states| && s < |states| && (x[|x| - 1], s) in states[p].shifts
  }

  /** The token comes first, or the end of input where nothing need come. */
  ghost predicate Next(g: Grammar, x: Form, t: nat) {
    Begins(g, x, t) || (Derives(g, x, []) && t == 0)
  }

  /** A way down to the configuration's rule that leads to the state. */
  ghost predicate WayTo(g: Grammar, start: nat, states: seq<State>, steps: seq<Item>, s: nat, i: Item) {
    ValidItem(g, i) && Spine(g, start, steps, i.rule) && LeadsTo(states, Recognised(g, steps) + Begun(g, i), s)
  }

  ghost predicate ComesNext(g: Grammar, start: nat, states: seq<State>, s: nat, i: Item, t: nat) {
    exists steps :: WayTo(g, start, states, steps, s, i) && Next(g, ToCome(g, steps), t)
  }

  // ----- the way is a derivation -----

  /** The start symbol derives what is left of the rule, its nonterminal and what is to come. */
  lemma {:induction false} SpineDerives(g: Grammar, start: nat, steps: seq<Item>, rule: nat)
    requires Spine(g, start, steps, rule)
    ensures rule < |g.rules|
    ensures Derives(g, [Nonterminal(start)], Recognised(g, steps) + [Nonterminal(g.rules[rule].lhs)] + ToCome(g, steps))
  {
    var x := [Nonterminal(start)];
    if steps == [] {
      DerivesItself(g, x);
      assert Recognised(g, steps) + [Nonterminal(g.rules[rule].lhs)] + ToCome(g, steps) == x;
    } else {
      var init, last := steps[..|steps| - 1], steps[|steps| - 1];
      SpineDerives(g, start, init, last.rule);
      hide Derives, Spine;
      var r := g.rules[last.rule];
      RuleDerives(g, r);
      var l, z := Recognised(g, init), ToCome(g, init);
      DerivesWithin(g, [Nonterminal(r.lhs)], r.rhs, l, z);
      DerivesTransitive(g, x, l + [Nonterminal(r.lhs)] + z, l + r.rhs + z);
      AroundSymbol(l, r.rhs, last.dot, z);
    }
  }

  lemma AroundSymbol(l: Form, rhs: Form, k: nat, z: Form)
    requires k < |rhs|
    ensures l + rhs + z == (l + rhs[..k]) + [rhs[k]] + (rhs[k + 1..] + z)
  {
    assert rhs == rhs[..k] + [rhs[k]] + rhs[k + 1..];
  }

  // ----- what comes first of two parts -----

  lemma NothingOfBoth(g: Grammar, u: Form, v: Form)
    ensures Derives(g, u + v, []) <==> Derives(g, u, []) && Derives(g, v, [])
  {
    if Derives(g, u + v, []) {
      var n: nat :| DerivesIn(g, n, u + v, []);
      var n1, n2, w1, w2 := SplitDerivation(g, n, u, v, []);
      assert w1 == [] && w2 == [];
    }
    if Derives(g, u, []) && Derives(g, v, []) {
      var nothing: Form := [];
      DerivesBoth(g, u, nothing, v, nothing);
      assert nothing + nothing == nothing;
    }
  }

  lemma BeginsBoth(g: Grammar, u: Form, v: Form, t: nat)
    ensures Begins(g, u + v, t) <==> Begins(g, u, t) || (Derives(g, u, []) && Begins(g, v, t))
  {
    if Begins(g, u + v, t) {
      var rest :| Derives(g, u + v, [Terminal(t)] + rest);
      BegunByOne(g, u, v, t, rest);
    }
    hide Derives;
    if Begins(g, u, t) {
      var rest :| Derives(g, u, [Terminal(t)] + rest);
      HeadBegins(g, u, v, t, rest);
    }
    if Derives(g, u, []) && Begins(g, v, t) {
      var rest :| Derives(g, v, [Terminal(t)] + rest);
      DerivesBoth(g, u, [], v, [Terminal(t)] + rest);
      assert [] + ([Terminal(t)] + rest) == [Terminal(t)] + rest;
    }
  }

  lemma BegunByOne(g: Grammar, u: Form, v: Form, t: nat, rest: Form)
    requires Derives(g, u + v, [Terminal(t)] + rest)
    ensures Begins(g, u, t) || (Derives(g, u, []) && Begins(g, v, t))
  {
    var n: nat :| DerivesIn(g, n, u + v, [Terminal(t)] + rest);
    var n1, n2, w1, w2 := SplitDerivation(g, n, u, v, [Terminal(t)] + rest);
    assert Derives(g, u, w1) && Derives(g, v, w2);
    hide Derives;
    if w1 == [] {
      assert w2 == [Terminal(t)] + rest;
    } else {
      assert w1[0] == (w1 + w2)[0] == Terminal(t);
      assert w1 == [Terminal(t)] + w1[1..];
    }
  }

  lemma NextOfBoth(g: Grammar, u: Form, v: Form, t: nat)
    ensures Next(g, u + v, t) <==> Begins(g, u, t) || (Derives(g, u, []) && Next(g, v, t))
  {
    hide Begins, Derives;
    NothingOfBoth(g, u, v);
    BeginsBoth(g, u, v, t);
  }

  lemma NextOfNothing(g: Grammar, t: nat)
    ensures Next(g, [], t) <==> t == 0
  {
    var nothing: Form := [];
    DerivesItself(g, nothing);
  }

  lemma NextAtTop(g: Grammar, t: nat)
    ensures Next(g, ToCome(g, []), t) <==> t == 0
  {
    NextOfNothing(g, t);
  }

  // ----- every configuration of a state has a way to it -----

  ghost predicate Reached(g: Grammar, start: nat, states: seq<State>, s: nat, i: Item) {
    exists steps :: WayTo(g, start, states, steps, s, i)
  }

  /** The way goes on to a rule that the configuration asks for. */
  lemma WayDown(g: Grammar, start: nat, states: seq<State>, steps: seq<Item>, s: nat, i: Item, rule: nat)
    requires WayTo(g, start, states, steps, s, i) && Asks(g, i, rule)
    ensures WayTo(g, start, states, steps + [i], s, Item(rule, 0))
    ensures ToCome(g, steps + [i]) == Rest(g, i) + ToCome(g, steps)
  {
    var more := steps + [i];
    assert more[..|more| - 1] == steps && more[|more| - 1] == i;
    assert Recognised(g, more) + Begun(g, Item(rule, 0)) == Recognised(g, steps) + Begun(g, i);
  }

  /** It leads over the next symbol with a shift. */
  lemma WayOver(g: Grammar, start: nat, states: seq<State>, steps: seq<Item>, s: nat, i: Item, target: nat)
    requires WayTo(g, start, states, steps, s, i) && s < |states| && target < |states|
    requires MovesTo(g, states, Config(s, i), Config(target, Item(i.rule, i.dot + 1)))
    ensures WayTo(g, start, states, steps, target, Item(i.rule, i.dot + 1))
  {
    var j, rhs := Item(i.rule, i.dot + 1), g.rules[i.rule].rhs;
    var l := Recognised(g, steps);
    var x := l + Begun(g, j);
    assert rhs[..j.dot] == rhs[..i.dot] + [rhs[i.dot]];
    assert x[..|x| - 1] == l + Begun(g, i) && x[|x| - 1] == rhs[i.dot];
    assert ShiftedFrom(states, x, s, target);
  }

  lemma ReachedDown(g: Grammar, start: nat, states: seq<State>, s: nat, i: Item, rule: nat)
    requires Reached(g, start, states, s, i) && Asks(g, i, rule)
    ensures Reached(g, start, states, s, Item(rule, 0))
  {
    hide WayTo, Asks;
    var steps :| WayTo(g, start, states, steps, s, i);
    WayDown(g, start, states, steps, s, i, rule);
  }

  /** A closure is reached where its basis is. */
  lemma ClosureReached(g: Grammar, start: nat, states: seq<State>, s: nat)
    requires s < |states| && ValidState(g, states[s])
    requires forall i :: i in ItemSet(states[s].basis) ==> Reached(g, start, states, s, i)
    ensures forall i :: i in states[s].items ==> Reached(g, start, states, s, i)
  {
    hide Reached, Asks;
    var items := ItemSet(states[s].items);
    var reached := set i | i in items && Reached(g, start, states, s, i);
    forall i, rule: nat | i in reached && Asks(g, i, rule)
      ensures Item(rule, 0) in reached
    {
      ReachedDown(g, start, states, s, i, rule);
    }
    assert Closed(g, reached);
    forall i | i in states[s].items
      ensures Reached(g, start, states, s, i)
    {
      assert i in items && i in reached;
    }
  }

  lemma StateFacts(g: Grammar, start: nat, states: seq<State>, s: nat)
    requires FoundStates(g, start, states) && s < |states|
    ensures ValidState(g, states[s]) && ShiftsExact(g, states, states[s])
    ensures forall i :: i in states[s].items ==> ValidItem(g, i)
    ensures s > 0 ==> HasSource(states, s)
  {
  }

  lemma {:induction false} AllReached(g: Grammar, start: nat, states: seq<State>, s: nat)
    requires FoundStates(g, start, states) && s < |states|
    ensures forall i :: i in states[s].items ==> Reached(g, start, states, s, i)
  {
    StateFacts(g, start, states, s);
    hide FoundStates, ValidState, ShiftsExact, Reached;
    if s == 0 {
      FirstReached(g, start, states);
    } else {
      var p: nat, k: nat :| ShiftsInto(states, p, k, s);
      AllReached(g, start, states, p);
      StateFacts(g, start, states, p);
      MovedReached(g, start, states, p, k);
    }
    ClosureReached(g, start, states, s);
  }

  lemma FirstReached(g: Grammar, start: nat, states: seq<State>)
    requires FoundStates(g, start, states)
    ensures forall i :: i in ItemSet(states[0].basis) ==> Reached(g, start, states, 0, i)
  {
    forall i | i in ItemSet(states[0].basis)
      ensures Reached(g, start, states, 0, i)
    {
      assert Recognised(g, []) + Begun(g, i) == [];
      assert WayTo(g, start, states, [], 0, i);
    }
  }

  lemma MovedReached(g: Grammar, start: nat, states: seq<State>, p: nat, k: nat)
    requires p < |states| && k < |states[p].shifts| && ShiftsExact(g, states, states[p])
    requires forall i :: i in states[p].items ==> Reached(g, start, states, p, i)
    ensures states[p].shifts[k].1 < |states|
    ensures forall i :: i in ItemSet(states[states[p].shifts[k].1].basis) ==>
              Reached(g, start, states, states[p].shifts[k].1, i)
  {
    var target := states[p].shifts[k].1;
    assert ShiftRight(g, states, states[p], k);
    forall j | j in ItemSet(states[target].basis)
      ensures Reached(g, start, states, target, j)
    {
      var i :| i in ItemSet(states[p].items) && CanShift(g, i, states[p].shifts[k].0) && j == Item(i.rule, i.dot + 1);
      var steps :| WayTo(g, start, states, steps, p, i);
      WayOver(g, start, states, steps, p, i, target);
    }
  }

  // ----- what comes along the links comes next -----

  lemma StartComesNext(g: Grammar, start: nat, states: seq<State>, s: nat, i: Item)
    requires FoundStates(g, start, states) && AtEnd(states, Config(s, i))
    ensures ComesNext(g, start, states, s, i, 0)
  {
    assert i in ItemSet(states[0].basis);
    assert Recognised(g, []) + Begun(g, i) == [];
    assert WayTo(g, start, states, [], s, i);
    NextOfNothing(g, 0);
  }

  lemma PrecededComesNext(g: Grammar, start: nat, states: seq<State>, x: Config, y: Config, t: nat)
    requires FoundStates(g, start, states) && x.state < |states| && x.item in states[x.state].items
    requires MayPrecede(g, x, y, t)
    ensures ComesNext(g, start, states, y.state, y.item, t)
  {
    AllReached(g, start, states, x.state);
    hide FoundStates, WayTo, Next, Begins;
    var steps :| WayTo(g, start, states, steps, x.state, x.item);
    WayDown(g, start, states, steps, x.state, x.item, y.item.rule);
    NextOfBoth(g, Rest(g, x.item), ToCome(g, steps), t);
  }

  lemma LinkComesNext(g: Grammar, start: nat, states: seq<State>, x: Config, y: Config, t: nat)
    requires x.state < |states| && y.state < |states| && LinksTo(g, states, x, y)
    requires ComesNext(g, start, states, x.state, x.item, t)
    ensures ComesNext(g, start, states, y.state, y.item, t)
  {
    hide WayTo, Next, Derives;
    var steps :| WayTo(g, start, states, steps, x.state, x.item) && Next(g, ToCome(g, steps), t);
    if MovesTo(g, states, x, y) {
      WayOver(g, start, states, steps, x.state, x.item, y.state);
    } else {
      WayDown(g, start, states, steps, x.state, x.item, y.item.rule);
      NextOfBoth(g, Rest(g, x.item), ToCome(g, steps), t);
    }
  }

  lemma {:induction false} PathComesNext(g: Grammar, start: nat, states: seq<State>, links: FollowSets.Links, n: nat,
                                         c: nat, d: nat, t: nat)
    requires LinksRight(g, states, links) && FollowSets.Path(links, n, c, d)
    requires c < |Configs(states)| && d < |Configs(states)|
    requires ComesNext(g, start, states, Configs(states)[c].state, Configs(states)[c].item, t)
    ensures ComesNext(g, start, states, Configs(states)[d].state, Configs(states)[d].item, t)
    decreases n
  {
    hide Configs, ComesNext, LinksTo;
    if n > 0 {
      var e: nat :| FollowSets.Linked(links, c, e) && FollowSets.Path(links, n - 1, e, d);
      ConfigThere(states, c);
      ConfigThere(states, e);
      LinkComesNext(g, start, states, Configs(states)[c], Configs(states)[e], t);
      PathComesNext(g, start, states, links, n - 1, e, d, t);
    }
  }

  lemma ConfigThere(states: seq<State>, c: nat)
    requires c < |Configs(states)|
    ensures Configs(states)[c].state < |states| && Configs(states)[c].item in states[Configs(states)[c].state].items
  {
    var s, k := ConfigOf(states, |states|, c);
  }

  lemma AllowedComesNext(g: Grammar, start: nat, states: seq<State>, follow: Pairs, s: nat, i: Item, t: nat)
    requires FoundStates(g, start, states) && FollowRight(g, states, follow) && Allowed(states, follow, s, i, t)
    ensures ComesNext(g, start, states, s, i, t)
  {
    hide FoundStates, ComesNext, Configs, First, MayPrecede, AtEnd, LinksRight, FollowSets.Path;
    var k: nat :| k < |states[s].items| && states[s].items[k] == i && (First(states, s) + k, t) in follow;
    var d: nat := First(states, s) + k;
    ConfigIs(g, start, states, s, k);
    var links, init :| FollowFrom(g, states, links, init, follow);
    assert FollowSets.Comes(links, init, d, t);
    var c: nat :| (c, t) in init && FollowSets.Reaches(links, c, d);
    var n: nat :| FollowSets.Path(links, n, c, d);
    ConfigThere(states, c);
    var y := Configs(states)[c];
    if AtEnd(states, y) && t == 0 {
      StartComesNext(g, start, states, y.state, y.item);
    } else {
      var e: nat :| e < |Configs(states)| && MayPrecede(g, Configs(states)[e], y, t);
      ConfigThere(states, e);
      PrecededComesNext(g, start, states, Configs(states)[e], y, t);
    }
    PathComesNext(g, start, states, links, n, c, d, t);
  }

  lemma ConfigIs(g: Grammar, start: nat, states: seq<State>, s: nat, k: nat)
    requires s < |states| && k < |states[s].items|
    ensures First(states, s) + k < |Configs(states)|
    ensures Configs(states)[First(states, s) + k] == Config(s, states[s].items[k])
  {
    ConfigAt(states, |states|, s, k);
  }

  // ----- what comes next comes along the links -----

  /** The last step of a way that ends after a symbol. */
  lemma WayBack(g: Grammar, start: nat, states: seq<State>, steps: seq<Item>, s: nat, i: Item) returns (p: nat)
    requires WayTo(g, start, states, steps, s, i) && i.dot > 0
    ensures p < |states| && s < |states| && WayTo(g, start, states, steps, p, Item(i.rule, i.dot - 1))
    ensures ValidItem(g, i) && (g.rules[i.rule].rhs[i.dot - 1], s) in states[p].shifts
  {
    var j, rhs := Item(i.rule, i.dot - 1), g.rules[i.rule].rhs;
    var x := Recognised(g, steps) + Begun(g, i);
    assert rhs[..i.dot] == rhs[..j.dot] + [rhs[j.dot]];
    assert x[..|x| - 1] == Recognised(g, steps) + Begun(g, j) && x[|x| - 1] == rhs[j.dot];
    p :| ShiftedFrom(states, x, p, s) && LeadsTo(states, x[..|x| - 1], p);
  }

  /** The rule above the last one of a way. */
  lemma WayUp(g: Grammar, start: nat, states: seq<State>, steps: seq<Item>, s: nat, i: Item)
    requires WayTo(g, start, states, steps, s, i) && i.dot == 0 && steps != []
    ensures var init, last := steps[..|steps| - 1], steps[|steps| - 1];
            && WayTo(g, start, states, init, s, last) && Asks(g, last, i.rule)
            && ToCome(g, steps) == Rest(g, last) + ToCome(g, init)
  {
    var init, last := steps[..|steps| - 1], steps[|steps| - 1];
    assert Recognised(g, steps) + Begun(g, i) == Recognised(g, init) + Begun(g, last);
  }

  lemma TopOfWay(g: Grammar, start: nat, states: seq<State>, s: nat, i: Item)
    requires WayTo(g, start, states, [], s, i) && i.dot == 0
    ensures s == 0 && |states| > 0 && ValidItem(g, i) && g.rules[i.rule].lhs == start
  {
    assert Recognised(g, []) + Begun(g, i) == [];
  }

  /** A way to a configuration ends in a state that has it. */
  lemma {:induction false} WayEnds(g: Grammar, start: nat, states: seq<State>, steps: seq<Item>, s: nat, i: Item)
    requires FoundStates(g, start, states) && WayTo(g, start, states, steps, s, i)
    ensures s < |states| && i in states[s].items
    decreases |steps|, i.dot
  {
    hide FoundStates, Asks;
    if i.dot > 0 {
      hide WayTo;
      var p := WayBack(g, start, states, steps, s, i);
      var j := Item(i.rule, i.dot - 1);
      WayEnds(g, start, states, steps, p, j);
      StateHasMoved(g, start, states, p, j, s);
    } else if steps == [] {
      TopOfWay(g, start, states, s, i);
      FirstHas(g, start, states, i);
    } else {
      hide WayTo;
      WayUp(g, start, states, steps, s, i);
      WayEnds(g, start, states, steps[..|steps| - 1], s, steps[|steps| - 1]);
      StateHasAsked(g, start, states, s, steps[|steps| - 1], i.rule);
    }
  }

  lemma FirstHas(g: Grammar, start: nat, states: seq<State>, i: Item)
    requires FoundStates(g, start, states) && ValidItem(g, i) && i.dot == 0 && g.rules[i.rule].lhs == start
    ensures i in states[0].basis && i in states[0].items && AtEnd(states, Config(0, i))
  {
    assert ValidState(g, states[0]);
    assert i in ItemSet(states[0].basis);
    assert i in ItemSet(states[0].items);
  }

  lemma StateHasMoved(g: Grammar, start: nat, states: seq<State>, p: nat, j: Item, s: nat)
    requires FoundStates(g, start, states) && p < |states| && s < |states| && j in states[p].items && ValidItem(g, j)
    requires j.dot < |g.rules[j.rule].rhs| && (g.rules[j.rule].rhs[j.dot], s) in states[p].shifts
    ensures Item(j.rule, j.dot + 1) in states[s].items
  {
    StateFacts(g, start, states, p);
    StateFacts(g, start, states, s);
    hide FoundStates;
    var k: nat :| k < |states[p].shifts| && states[p].shifts[k] == (g.rules[j.rule].rhs[j.dot], s);
    assert ShiftRight(g, states, states[p], k);
    assert j in ItemSet(states[p].items) && CanShift(g, j, states[p].shifts[k].0);
    assert Item(j.rule, j.dot + 1) in ItemSet(states[s].basis);
    assert Item(j.rule, j.dot + 1) in ItemSet(states[s].items);
  }

  lemma StateHasAsked(g: Grammar, start: nat, states: seq<State>, s: nat, i: Item, rule: nat)
    requires FoundStates(g, start, states) && s < |states| && i in states[s].items && Asks(g, i, rule)
    ensures Item(rule, 0) in states[s].items
  {
    StateFacts(g, start, states, s);
    assert i in ItemSet(states[s].items);
    assert Item(rule, 0) in ItemSet(states[s].items);
  }

  // ----- every way leads to one state -----

  lemma {:induction false} WayLeads(g: Grammar, start: nat, states: seq<State>, steps: seq<Item>, i: Item)
    returns (s: nat)
    requires FoundStates(g, start, states) && ValidItem(g, i) && Spine(g, start, steps, i.rule)
    ensures WayTo(g, start, states, steps, s, i)
    decreases |steps|, i.dot
  {
    hide FoundStates, WayTo, LinksTo, Asks;
    if i.dot > 0 {
      var j := Item(i.rule, i.dot - 1);
      var p := WayLeads(g, start, states, steps, j);
      WayEnds(g, start, states, steps, p, j);
      s := ShiftThere(g, start, states, p, j);
      WayOver(g, start, states, steps, p, j, s);
    } else if steps == [] {
      s := 0;
      TopLeads(g, start, states, i);
    } else {
      var init, last := steps[..|steps| - 1], steps[|steps| - 1];
      AskingValid(g, last, i.rule);
      s := WayLeads(g, start, states, init, last);
      assert init + [last] == steps;
      WayDown(g, start, states, init, s, last, i.rule);
    }
  }

  lemma AskingValid(g: Grammar, i: Item, rule: nat)
    requires Asks(g, i, rule)
    ensures ValidItem(g, i)
  {
  }

  lemma TopLeads(g: Grammar, start: nat, states: seq<State>, i: Item)
    requires FoundStates(g, start, states) && ValidItem(g, i) && Spine(g, start, [], i.rule) && i.dot == 0
    ensures WayTo(g, start, states, [], 0, i)
  {
    assert Recognised(g, []) + Begun(g, i) == [];
  }

  lemma ShiftThere(g: Grammar, start: nat, states: seq<State>, p: nat, j: Item) returns (s: nat)
    requires FoundStates(g, start, states) && p < |states| && j in states[p].items && ValidItem(g, j)
    requires j.dot < |g.rules[j.rule].rhs|
    ensures s < |states| && MovesTo(g, states, Config(p, j), Config(s, Item(j.rule, j.dot + 1)))
  {
    StateFacts(g, start, states, p);
    hide FoundStates;
    var x := g.rules[j.rule].rhs[j.dot];
    assert CanShift(g, j, x) && HasShift(states[p], x);
    var k: nat :| k < |states[p].shifts| && states[p].shifts[k].0 == x;
    assert ShiftRight(g, states, states[p], k);
    s := states[p].shifts[k].1;
    assert states[p].shifts[k] == (x, s);
  }

  /** Symbols lead to one state only. */
  lemma {:induction false} LeadsToOne(g: Grammar, start: nat, states: seq<State>, x: Form, s1: nat, s2: nat)
    requires FoundStates(g, start, states) && LeadsTo(states, x, s1) && LeadsTo(states, x, s2)
    ensures s1 == s2
  {
    hide FoundStates;
    if x != [] {
      var p1: nat :| ShiftedFrom(states, x, p1, s1) && LeadsTo(states, x[..|x| - 1], p1);
      var p2: nat :| ShiftedFrom(states, x, p2, s2) && LeadsTo(states, x[..|x| - 1], p2);
      LeadsToOne(g, start, states, x[..|x| - 1], p1, p2);
      OneShiftOver(g, start, states, p1, x[|x| - 1], s1, s2);
    }
  }

  lemma OneShiftOver(g: Grammar, start: nat, states: seq<State>, p: nat, x: Symbol, s1: nat, s2: nat)
    requires FoundStates(g, start, states) && p < |states|
    requires (x, s1) in states[p].shifts && (x, s2) in states[p].shifts
    ensures s1 == s2
  {
    StateFacts(g, start, states, p);
    hide FoundStates;
  }

  // ----- what comes next is in the sets -----

  lemma {:induction false} WayAllowed(g: Grammar, start: nat, states: seq<State>, follow: Pairs, steps: seq<Item>,
                                      s: nat, i: Item, t: nat)
    requires FoundStates(g, start, states) && FollowRight(g, states, follow)
    requires WayTo(g, start, states, steps, s, i) && Next(g, ToCome(g, steps), t)
    ensures Allowed(states, follow, s, i, t)
    decreases |steps|, i.dot
  {
    hide FoundStates, FollowRight, Allowed, WayTo, Next, ToCome;
    if i.dot > 0 {
      var p := WayBack(g, start, states, steps, s, i);
      WayAllowed(g, start, states, follow, steps, p, Item(i.rule, i.dot - 1), t);
      OverAllowed(g, start, states, follow, steps, p, s, i, t);
    } else if steps == [] {
      TopAllowed(g, start, states, follow, s, i, t);
    } else {
      WayUp(g, start, states, steps, s, i);
      var init, last := steps[..|steps| - 1], steps[|steps| - 1];
      if Next(g, ToCome(g, init), t) {
        WayAllowed(g, start, states, follow, init, s, last, t);
      }
      DownAllowed(g, start, states, follow, steps, s, i, t);
    }
  }

  lemma OverAllowed(g: Grammar, start: nat, states: seq<State>, follow: Pairs, steps: seq<Item>, p: nat, s: nat,
                    i: Item, t: nat)
    requires FoundStates(g, start, states) && FollowRight(g, states, follow) && p < |states| && s < |states|
    requires WayTo(g, start, states, steps, s, i) && i.dot > 0
    requires ValidItem(g, i) && (g.rules[i.rule].rhs[i.dot - 1], s) in states[p].shifts
    requires WayTo(g, start, states, steps, p, Item(i.rule, i.dot - 1))
             && Allowed(states, follow, p, Item(i.rule, i.dot - 1), t)
    ensures Allowed(states, follow, s, i, t)
  {
    WayEnds(g, start, states, steps, s, i);
    StatesValid(g, start, states);
    hide FoundStates, FollowRight, Allowed, WayTo, ValidStates, MayEnd;
    LinkAllows(g, states, follow, p, Item(i.rule, i.dot - 1), s, i, t);
  }

  lemma TopAllowed(g: Grammar, start: nat, states: seq<State>, follow: Pairs, s: nat, i: Item, t: nat)
    requires FoundStates(g, start, states) && FollowRight(g, states, follow)
    requires WayTo(g, start, states, [], s, i) && i.dot == 0 && Next(g, ToCome(g, []), t)
    ensures Allowed(states, follow, s, i, t)
  {
    StatesValid(g, start, states);
    hide FoundStates, FollowRight, Allowed, WayTo, Next, ToCome, ValidStates, AtEnd, MayPrecede;
    TopOfWay(g, start, states, s, i);
    FirstHas(g, start, states, i);
    NextAtTop(g, t);
    InitAllows(g, states, follow, s, i, t);
  }

  lemma DownAllowed(g: Grammar, start: nat, states: seq<State>, follow: Pairs, steps: seq<Item>, s: nat, i: Item,
                    t: nat)
    requires FoundStates(g, start, states) && FollowRight(g, states, follow)
    requires WayTo(g, start, states, steps, s, i) && i.dot == 0 && steps != [] && Next(g, ToCome(g, steps), t)
    requires Next(g, ToCome(g, steps[..|steps| - 1]), t) ==> Allowed(states, follow, s, steps[|steps| - 1], t)
    ensures Allowed(states, follow, s, i, t)
  {
    StatesValid(g, start, states);
    hide FoundStates, FollowRight, Allowed, WayTo, Next, ToCome, ValidStates, Begins, Derives, Asks, Rest;
    WayUp(g, start, states, steps, s, i);
    var init, last := steps[..|steps| - 1], steps[|steps| - 1];
    NextOfBoth(g, Rest(g, last), ToCome(g, init), t);
    WayEnds(g, start, states, steps, s, i);
    WayEnds(g, start, states, init, s, last);
    AskedAllowed(g, states, follow, s, last, i, t);
  }

  /** What a configuration leaves to come comes after the rules that it asks for. */
  lemma AskedAllowed(g: Grammar, states: seq<State>, follow: Pairs, s: nat, x: Item, i: Item, t: nat)
    requires ValidStates(g, states) && FollowRight(g, states, follow) && s < |states|
    requires x in states[s].items && i in states[s].items && i.dot == 0 && Asks(g, x, i.rule)
    requires Begins(g, Rest(g, x), t) || (Derives(g, Rest(g, x), []) && Allowed(states, follow, s, x, t))
    ensures Allowed(states, follow, s, i, t)
  {
    hide ValidStates, FollowRight, Allowed, Begins, Derives;
    if Begins(g, Rest(g, x), t) {
      var k := ItemIndex(states, s, x);
      assert MayPrecede(g, Config(s, states[s].items[k]), Config(s, i), t);
      InitAllows(g, states, follow, s, i, t);
    } else {
      LinkAllows(g, states, follow, s, x, s, i, t);
    }
  }

  lemma StatesValid(g: Grammar, start: nat, states: seq<State>)
    requires FoundStates(g, start, states)
    ensures ValidStates(g, states)
  {
  }

  /**
    The look-ahead sets are exact: a token is in that of a configuration of a state iff some
    way down to its rule leads to the state and leaves the token to come next.
   */
  lemma LookaheadsExact(g: Grammar, start: nat, states: seq<State>, follow: Pairs, s: nat, i: Item, t: nat)
    requires FoundStates(g, start, states) && FollowRight(g, states, follow)
    ensures Allowed(states, follow, s, i, t) <==> ComesNext(g, start, states, s, i, t)
  {
    hide FoundStates, FollowRight, Allowed, WayTo, Next;
    if Allowed(states, follow, s, i, t) {
      AllowedComesNext(g, start, states, follow, s, i, t);
    }
    if ComesNext(g, start, states, s, i, t) {
      var steps :| WayTo(g, start, states, steps, s, i) && Next(g, ToCome(g, steps), t);
      WayAllowed(g, start, states, follow, steps, s, i, t);
    }
  }

  // ----- what a state has to do -----

  /** A shift, a reduce by a complete rule on a token that comes next, or the accept. */
  ghost predicate Due(g: Grammar, start: nat, states: seq<State>, s: nat, e: Action)
    requires s < |states|
  {
    match e.kind
    case Shift(target) => Actions.ShiftsTo(g, states[s], e.sp, target)
    case Reduce(rule) =>
      && 0 <= e.sp < g.nTerminals && rule < |g.rules|
      && ComesNext(g, start, states, s, Item(rule, |g.rules[rule].rhs|), e.sp)
    case Accept => s == 0 && e.sp == g.nTerminals + start
    case _ => false
  }

  /** The grammar is LALR(1): no state has two things to do on one symbol. */
  ghost predicate IsLalr1(g: Grammar, start: nat, states: seq<State>) {
    forall s: nat, e, f ::
      s < |states| && Due(g, start, states, s, e) && Due(g, start, states, s, f) && e.sp == f.sp ==>
      e == f
  }

  /** The actions a state collects are exactly those it has to do. */
  lemma WantedExact(g: Grammar, start: nat, states: seq<State>, follow: Pairs, s: nat, e: Action)
    requires FoundStates(g, start, states) && FollowRight(g, states, follow) && s < |states|
    ensures Actions.Wanted(g, start, states, follow, s, e) <==> Due(g, start, states, s, e)
  {
    hide FoundStates, FollowRight, ComesNext, Actions.ShiftsTo;
    if e.kind.Reduce? {
      ReducibleIs(g, start, states, follow, s, e.sp, e.kind.rule);
      if 0 <= e.sp && e.kind.rule < |g.rules| {
        LookaheadsExact(g, start, states, follow, s, Item(e.kind.rule, |g.rules[e.kind.rule].rhs|), e.sp);
      }
    }
  }

  lemma ReducibleIs(g: Grammar, start: nat, states: seq<State>, follow: Pairs, s: nat, sp: int, rule: nat)
    requires FoundStates(g, start, states) && FollowRight(g, states, follow) && s < |states|
    ensures Actions.Reducible(g, states, follow, s, sp, rule) <==>
              0 <= sp < g.nTerminals && rule < |g.rules|
              && Allowed(states, follow, s, Item(rule, |g.rules[rule].rhs|), sp)
  {
    StateFacts(g, start, states, s);
    StatesValid(g, start, states);
    hide FoundStates, FollowRight, Allowed, ValidStates, First, Configs;
    if Actions.Reducible(g, states, follow, s, sp, rule) {
      var k: nat :| k < |states[s].items| && Actions.ReduceOn(g, states[s].items[k], rule)
        && (First(states, s) + k, sp) in follow;
      AllowedAt(g, states, follow, s, k, sp);
    }
    if 0 <= sp < g.nTerminals && rule < |g.rules| && Allowed(states, follow, s, Item(rule, |g.rules[rule].rhs|), sp) {
      AllowedIndex(states, follow, s, Item(rule, |g.rules[rule].rhs|), sp);
    }
  }

  lemma AllowedIndex(states: seq<State>, follow: Pairs, s: nat, i: Item, t: nat)
    requires Allowed(states, follow, s, i, t)
    ensures s < |states| && exists k: nat ::
              k < |states[s].items| && states[s].items[k] == i && (First(states, s) + k, t) in follow
  {
  }
}
