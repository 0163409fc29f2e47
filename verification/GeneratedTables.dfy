/**
  The tables the generator writes: when the driver finds in them what the passes have made
  of each state's actions, they agree with the automaton, and rules of the start symbol are
  reduced on the end of input only. Module ParserGenerator writes such tables.
 */
module GeneratedTables {
  import opened Options
  import opened Grammars
  import opened LrDriver
  import opened Lr0
  import opened CompressTables
  import opened Sets
  import Actions
  import Links
  import Packing = ActTab
  import FollowSets

  /**
    The states, their actions before CompressTables, after its second pass and after all of
    it, the rule each state is left at once by, and the order in which states are numbered.
   */
  datatype Built = Built(
    g: Grammar, start: nat, states: seq<State>,
    was: seq<seq<Action>>, mid: seq<seq<Action>>, final: seq<seq<Action>>, left: seq<Option<nat>>, units: Units,
    sorted: seq<nat>, number: seq<nat>)

  // ----- the states -----

  function StartRules(g: Grammar, start: nat): set<nat> {
    set r | 0 <= r < |g.rules| && g.rules[r].lhs == start
  }

  ghost predicate StatesFound(b: Built) {
    FoundStates(b.g, b.start, b.states)
  }

  // ----- the actions -----

  predicate ReducesOn(b: Built, s: nat, sp: int, rule: nat)
    requires s < |b.states|
  {
    && 0 <= sp < b.g.nTerminals && rule < |b.g.rules| && Item(rule, |b.g.rules[rule].rhs|) in b.states[s].items
    && (rule in StartRules(b.g, b.start) ==> sp == 0)
  }

  /** What an action in a state may be for. */
  predicate Founded(b: Built, s: nat, sp: int, k: Kind)
    requires s < |b.states|
  {
    match k
    case Shift(target) => sp >= 0 && Actions.ShiftsTo(b.g, b.states[s], sp, target)
    case Reduce(rule) => ReducesOn(b, s, sp, rule)
    case Accept => s == 0 && sp == b.g.nTerminals + b.start
    case ShiftReduce(_) => false
    case _ => 0 <= sp < b.g.nTerminals
  }

  /**
    Shifts for the state's successors, reduces for its complete configurations; one active
    action per lookahead, ties aside.
   */
  ghost predicate ActionsFound(b: Built, s: nat)
    requires s < |b.states| && s < |b.was|
  {
    && Usable(b.was[s], StartRules(b.g, b.start), None) && GotosOnly(b.was[s], b.g.nTerminals)
    && Actions.HasGotos(b.g, b.start, b.states, s, b.was[s])
    && forall i :: 0 <= i < |b.was[s]| ==> Founded(b, s, b.was[s][i].sp, b.was[s][i].kind)
  }

  predicate UnitsRight(b: Built) {
    && b.units.nTerminals == b.g.nTerminals && |b.units.lhs| == |b.g.rules|
    && forall r :: 0 <= r < |b.g.rules| ==>
         b.units.lhs[r] == b.g.rules[r].lhs && (r < |b.units.skip| && b.units.skip[r] ==> |b.g.rules[r].rhs| == 1)
  }

  /** What module CompressTables establishes of its results. */
  ghost predicate PassesDone(b: Built) {
    && |b.left| == |b.was| && LeftBy(b.was, StartRules(b.g, b.start), b.left) && UnitsRight(b)
    && |b.mid| == |b.final| == |b.was|
    && forall s :: 0 <= s < |b.was| ==>
         Finished(b.was[s], StartRules(b.g, b.start), b.left, b.mid[s]) && Followed(b.units, b.mid[s], b.final[s])
  }

  // ----- the numbers -----

  /** The first state keeps its number; all states have one. */
  predicate Resorted(b: Built) {
    && |b.sorted| == |b.number| == |b.states| > 0 && b.sorted[0] == 0
    && (forall k :: 0 <= k < |b.sorted| ==> b.sorted[k] < |b.number| && b.number[b.sorted[k]] == k)
    && (forall s :: 0 <= s < |b.number| ==> b.number[s] < |b.sorted| && b.sorted[b.number[s]] == s)
  }

  /** Only states that are left at once may have no rows in the tables. */
  ghost predicate Rows(b: Built, t: Tables)
    requires Resorted(b) && |b.left| == |b.states|
  {
    && ValidTables(b.g, t) && t.maxShift < |b.states| && t.minShiftReduce == |b.states|
    && forall k :: t.maxShift < k < |b.states| ==> b.left[b.sorted[k]].Some?
  }

  /** The number that stands for an action; a shift-reduce over a nonterminal is the reduce alone. */
  function Code(number: seq<nat>, t: Tables, k: Kind, terminal: bool): int {
    match k
    case Shift(target) => if target < |number| then number[target] else -1
    case ShiftReduce(rule) => rule + if terminal then t.minShiftReduce else t.MinReduce()
    case Reduce(rule) => rule + t.MinReduce()
    case Accept => t.AcceptAction()
    case Error => t.ErrorAction()
    case Inactive => -1
  }

  function DefaultCode(number: seq<nat>, t: Tables, ap: seq<Action>): int {
    if Own(ap, DEFAULT).Reduce? then Code(number, t, Own(ap, DEFAULT), true) else t.ErrorAction()
  }

  function TokenCode(number: seq<nat>, t: Tables, ap: seq<Action>, token: nat): int {
    if Own(ap, token).Inactive? then DefaultCode(number, t, ap) else Code(number, t, Own(ap, token), true)
  }

  /** What the driver finds in the tables. */
  ghost predicate TokensWritten(b: Built, t: Tables)
    requires Resorted(b) && |b.final| == |b.states| && ValidTables(b.g, t) && t.maxShift < |b.states|
  {
    forall k: nat, token: nat {:trigger FindShiftAction(b.g, t, k, token)} ::
      k <= t.maxShift && token < b.g.nTerminals ==>
      FindShiftAction(b.g, t, k, token) == TokenCode(b.number, t, b.final[b.sorted[k]], token)
  }

  ghost predicate GotoWritten(b: Built, t: Tables, k: nat, major: nat)
    requires Resorted(b) && |b.final| == |b.states| && ValidTables(b.g, t) && k <= t.maxShift < |b.states|
  {
    !Own(b.final[b.sorted[k]], major).Inactive? ==>
      HasGoto(b.g, t, k, major)
        && FindReduceAction(b.g, t, k, major) == Code(b.number, t, Own(b.final[b.sorted[k]], major), false)
  }

  ghost predicate GotosWritten(b: Built, t: Tables)
    requires Resorted(b) && |b.final| == |b.states| && ValidTables(b.g, t) && t.maxShift < |b.states|
  {
    forall k: nat, major: nat :: k <= t.maxShift && b.g.nTerminals <= major < b.g.nTerminals + b.g.nNonterminals ==>
      GotoWritten(b, t, k, major)
  }

  /** Everything up to the tables themselves. */
  ghost predicate Constructed(b: Built) {
    && StatesFound(b) && Resorted(b) && |b.was| == |b.states| && PassesDone(b)
    && forall s :: 0 <= s < |b.states| ==> ActionsFound(b, s)
  }

  ghost predicate Written(b: Built, t: Tables)
    requires Constructed(b)
  {
    Rows(b, t) && TokensWritten(b, t) && GotosWritten(b, t)
  }

  /** The configurations of each state, by its number. */
  function Renumbered(states: seq<State>, sorted: seq<nat>): (sets: seq<set<Item>>)
    requires forall k :: 0 <= k < |sorted| ==> sorted[k] < |states|
    ensures |sets| == |sorted|
    ensures forall k :: 0 <= k < |sorted| ==> sets[k] == ItemSet(states[sorted[k]].items)
  {
    if sorted == [] then []
        else Renumbered(states, sorted[..|sorted| - 1]) + [ItemSet(states[sorted[|sorted| - 1]].items)]
  }

  function AutomatonOf(b: Built): Automaton
    requires Resorted(b)
  {
    Automaton(Renumbered(b.states, b.sorted), b.start)
  }

  // ----- shifts, in the driver's terms -----

  lemma ReadsMatches(g: Grammar, x: Symbol, sp: nat)
    requires Actions.Reads(g, x, sp) && ValidSymbol(g, x)
    ensures Matches(g, x, SymbolOf(g, sp))
  {
    match x
    case Terminal(i) => DerivesItself(g, [x]);
    case Nonterminal(i) => DerivesItself(g, [x]);
    case Class(tokens) =>
      ClassDerives(g, x, sp);
  }

  /** A shift's symbol is one of the grammar's. */
  lemma ShiftSymbol(b: Built, s: nat, k: nat)
    requires StatesFound(b) && s < |b.states| && k < |b.states[s].shifts|
    ensures ValidSymbol(b.g, b.states[s].shifts[k].0) && b.states[s].shifts[k].1 < |b.states|
  {
    hide IsClosure, Increasing, DistinctItems, OnlyValid, ValidState;
    OneShift(b.g, b.states, s, k);
    var i :| i in b.states[s].items && CanShift(b.g, i, b.states[s].shifts[k].0);
    assert ValidRule(b.g, b.g.rules[i.rule]);
  }

  /** Over the symbol of a shift the automaton has an edge between the states' numbers. */
  lemma ShiftIsEdge(b: Built, s: nat, sp: nat, target: nat)
    requires StatesFound(b) && Resorted(b) && s < |b.states| && Actions.ShiftsTo(b.g, b.states[s], sp, target)
    ensures 0 < target < |b.states|
    ensures Edge(b.g, AutomatonOf(b), b.number[s], SymbolOf(b.g, sp), b.number[target])
    ensures forall i :: i in b.states[target].items && i.dot > 0 ==>
              && i.rule < |b.g.rules| && i.dot <= |b.g.rules[i.rule].rhs|
              && Matches(b.g, b.g.rules[i.rule].rhs[i.dot - 1], SymbolOf(b.g, sp))
                 && Item(i.rule, i.dot - 1) in b.states[s].items
  {
    hide ValidStates, ExactFrom, Matches, SymbolOf;
    var k :| 0 <= k < |b.states[s].shifts| && b.states[s].shifts[k].1 == target
      && Actions.Reads(b.g, b.states[s].shifts[k].0, sp);
    ShiftSymbol(b, s, k);
    ReadsMatches(b.g, b.states[s].shifts[k].0, sp);
    ShiftsAreEdges(b.g, b.states, b.start, s, k, SymbolOf(b.g, sp));
    assert target == 0 <==> b.number[target] == 0;
    assert forall i :: i in b.states[target].items <==> i in ItemSet(b.states[target].items);
    assert forall i :: i in b.states[s].items <==> i in ItemSet(b.states[s].items);
  }

  // ----- what the generator starts the driver's conditions from -----

  /** A rule a state starts on has a goto there: a shift, or the accept in the first state. */
  lemma GotoOf(b: Built, s: nat, rule: nat)
    requires StatesFound(b) && s < |b.states| && s < |b.was| && ActionsFound(b, s) && rule < |b.g.rules|
             && Item(rule, 0) in b.states[s].items
    ensures var own := Own(b.was[s], b.g.nTerminals + b.g.rules[rule].lhs);
            own.Shift? || (own.Accept? && s == 0 && b.g.rules[rule].lhs == b.start)
  {
    hide IsClosure, Increasing, DistinctItems, OnlyValid;
    AskedFor(b.g, b.states[s], rule);
    if i :| i in b.states[s].items && Asks(b.g, i, rule) {
      var x := Nonterminal(b.g.rules[rule].lhs);
      assert CanShift(b.g, i, x);
      assert ShiftsExact(b.g, b.states, b.states[s]);
      var k :| 0 <= k < |b.states[s].shifts| && b.states[s].shifts[k].0 == x;
    } else {
      assert Item(rule, 0) in b.states[s].basis && s == 0;
      assert Item(rule, 0) in ItemSet(b.states[0].basis);
    }
  }

  /** A state that is left at once is left by a rule with something on its right-hand side. */
  lemma LeftByLonger(b: Built, s: nat, rule: nat)
    requires StatesFound(b) && 0 < s < |b.states| && s < |b.was| && ActionsFound(b, s) && OnlyAnswer(b.was[s], rule)
    ensures rule < |b.g.rules| && |b.g.rules[rule].rhs| > 0 && Item(rule, |b.g.rules[rule].rhs|) in b.states[s].items
  {
    hide ValidStates, ExactFrom, Actions.HasGotos, Usable;
    var i :| 0 <= i < |b.was[s]| && ReducesBy(b.was[s][i], rule);
    assert Founded(b, s, b.was[s][i].sp, b.was[s][i].kind);
    if b.g.rules[rule].rhs == [] {
      GotoOf(b, s, rule);
      var k := OwnFound(b.was[s], b.g.nTerminals + b.g.rules[rule].lhs);
    }
  }

  /** After a shift into such a state, its rule is complete. */
  lemma CompleteAfterShift(b: Built, s: nat, sp: nat, target: nat, rule: nat)
    requires StatesFound(b) && Resorted(b) && |b.was| == |b.states| && s < |b.states|
             && Actions.ShiftsTo(b.g, b.states[s], sp, target)
    requires 0 < target < |b.states| ==> ActionsFound(b, target) && OnlyAnswer(b.was[target], rule)
    ensures rule < |b.g.rules| && CompleteAfter(b.g, AutomatonOf(b), b.number[s], SymbolOf(b.g, sp), rule)
  {
    hide StatesFound, ActionsFound, OnlyAnswer, Matches, SymbolOf;
    ShiftIsEdge(b, s, sp, target);
    LeftByLonger(b, target, rule);
    var i := Item(rule, |b.g.rules[rule].rhs|);
    assert i in b.states[target].items && i.dot > 0;
    assert Item(rule, i.dot - 1) in ItemSet(b.states[s].items);
  }

  /** What an action founded in a state has become, and what that means. */
  ghost predicate BecameRight(b: Built, s: nat, sp: int, k: Kind)
    requires Resorted(b) && s < |b.states|
  {
    match k
    case Shift(target) => sp >= 0 && target < |b.states| && target < |b.left| && b.left[target].None?
      && Edge(b.g, AutomatonOf(b), b.number[s], SymbolOf(b.g, sp), b.number[target])
    case ShiftReduce(rule) =>
      sp >= 0 && rule < |b.g.rules| && rule !in StartRules(b.g, b.start)
        && CompleteAfter(b.g, AutomatonOf(b), b.number[s], SymbolOf(b.g, sp), rule)
    case Reduce(rule) => ReducesOn(b, s, sp, rule)
    case Accept => s == 0 && sp == b.g.nTerminals + b.start
    case Error => 0 <= sp < b.g.nTerminals
    case Inactive => true
  }

  /** The state's own action for a lookahead is one of its list. */
  lemma FoundedAt(b: Built, s: nat, sp: int)
    requires s < |b.states| && s < |b.was| && ActionsFound(b, s) && !Own(b.was[s], sp).Inactive?
    ensures Founded(b, s, sp, Own(b.was[s], sp))
  {
    var i := OwnFound(b.was[s], sp);
    assert Founded(b, s, b.was[s][i].sp, b.was[s][i].kind);
  }

  lemma ActionBecame(b: Built, s: nat, sp: int)
    requires Constructed(b) && s < |b.states| && sp >= 0
    ensures BecameRight(b, s, sp, Became(Own(b.was[s], sp), b.left))
  {
    hide StatesFound, Edge, CompleteAfter, Finished, OnlyAnswer, Followed, UnitsRight;
    assert ActionsFound(b, s);
    var k := Own(b.was[s], sp);
    if k.Inactive? {
      return;
    }
    FoundedAt(b, s, sp);
    if k.Shift? {
      ShiftIsEdge(b, s, sp, k.target);
      if b.left[k.target].Some? {
        var rule := b.left[k.target].value;
        assert ActionsFound(b, k.target);
        assert b.left[k.target] == Some(rule) <==>
               OnlyAnswer(b.was[k.target], rule) && rule !in StartRules(b.g, b.start);
        hide ActionsFound;
        CompleteAfterShift(b, s, sp, k.target, rule);
      }
    }
  }

  // ----- gotos that lead on -----

  /** What holds over a symbol holds over a symbol that it derives. */
  lemma EdgeThrough(g: Grammar, a: Automaton, s: nat, x: Symbol, y: Symbol, target: nat)
    requires Edge(g, a, s, x, target) && Derives(g, [x], [y])
    ensures Edge(g, a, s, y, target)
  {
    forall i | i in a.items[target] && i.dot > 0
      ensures i.rule < |g.rules| && i.dot <= |g.rules[i.rule].rhs|
      ensures Matches(g, g.rules[i.rule].rhs[i.dot - 1], y) && Item(i.rule, i.dot - 1) in a.items[s]
    {
      DerivesTransitive(g, [g.rules[i.rule].rhs[i.dot - 1]], [x], [y]);
    }
  }

  lemma CompleteThrough(g: Grammar, a: Automaton, s: nat, x: Symbol, y: Symbol, rule: nat)
    requires CompleteAfter(g, a, s, x, rule) && Derives(g, [x], [y])
    ensures CompleteAfter(g, a, s, y, rule)
  {
    DerivesTransitive(g, [g.rules[rule].rhs[|g.rules[rule].rhs| - 1]], [x], [y]);
  }

  /** A rule of one symbol that is complete after `x`: its left-hand side derives `x`. */
  lemma UnitDerives(b: Built, s: nat, x: Symbol, rule: nat)
    requires Resorted(b) && s < |b.states| && CompleteAfter(b.g, AutomatonOf(b), s, x, rule)
             && |b.g.rules[rule].rhs| == 1
    ensures Derives(b.g, [Nonterminal(b.g.rules[rule].lhs)], [x])
    ensures Item(rule, 0) in b.states[b.sorted[s]].items
  {
    var r := b.g.rules[rule];
    RuleDerives(b.g, r);
    assert r.rhs == [r.rhs[0]];
    DerivesTransitive(b.g, [Nonterminal(r.lhs)], r.rhs, [x]);
    assert Item(rule, 0) in ItemSet(b.states[b.sorted[s]].items);
  }

  /** The goto that a skipped rule leads to is right for the symbol it was skipped on. */
  lemma StepRight(b: Built, s: nat, sp: int, rule: nat)
    requires Constructed(b) && s < |b.states| && sp >= b.g.nTerminals
    requires BecameRight(b, s, sp, ShiftReduce(rule)) && Skips(b.units, b.units.nTerminals, ShiftReduce(rule))
    requires !Own(b.mid[s], b.units.Goto(rule)).Inactive?
    ensures BecameRight(b, s, sp, Own(b.mid[s], b.units.Goto(rule)))
  {
    hide StatesFound, Edge, CompleteAfter, Followed, ActionsFound, LeftBy;
    assert UnitsRight(b);
    var a, x, lhs := AutomatonOf(b), SymbolOf(b.g, sp), b.g.rules[rule].lhs;
    var major := b.g.nTerminals + lhs;
    UnitDerives(b, b.number[s], x, rule);
    ActionBecame(b, s, major);
    assert Finished(b.was[s], StartRules(b.g, b.start), b.left, b.mid[s]);
    var k := Own(b.mid[s], major);
    assert k == Became(Own(b.was[s], major), b.left);
    assert SymbolOf(b.g, major) == Nonterminal(lhs);
    match k
    case Shift(target) => EdgeThrough(b.g, a, b.number[s], Nonterminal(lhs), x, b.number[target]);
    case ShiftReduce(r) => CompleteThrough(b.g, a, b.number[s], Nonterminal(lhs), x, r);
    case _ =>
  }

  lemma {:induction false} LeadsRight(b: Built, s: nat, sp: int, n: nat, k: Kind, end: Kind)
    requires Constructed(b) && s < |b.states| && sp >= b.g.nTerminals
    requires BecameRight(b, s, sp, k) && Leads(b.units, b.mid[s], n, k, end)
    ensures BecameRight(b, s, sp, end)
    decreases n
  {
    assert |b.mid| == |b.states|;
    hide Constructed, BecameRight;
    if n > 0 {
      StepRight(b, s, sp, k.rule);
      LeadsRight(b, s, sp, n - 1, Own(b.mid[s], b.units.Goto(k.rule)), end);
    }
  }

  /** After all passes: what a state answers a lookahead with, its default aside. */
  lemma FinalRight(b: Built, s: nat, sp: int)
    requires Constructed(b) && s < |b.states| && sp >= 0
    ensures BecameRight(b, s, sp, Own(b.final[s], sp))
    ensures sp >= b.g.nTerminals && !Own(b.was[s], sp).Inactive? ==> !Own(b.final[s], sp).Inactive?
  {
    hide StatesFound, LeftBy, ActionsFound, Leads;
    ActionBecame(b, s, sp);
    MidOwn(b, s, sp);
    FollowedOwn(b.units, b.mid[s], b.final[s], sp);
    hide Finished, Followed;
    if sp >= b.g.nTerminals && !Own(b.mid[s], sp).Inactive? {
      var n: nat :| Leads(b.units, b.mid[s], n, Own(b.mid[s], sp), Own(b.final[s], sp));
      LeadsRight(b, s, sp, n, Own(b.mid[s], sp), Own(b.final[s], sp));
    }
  }

  /** Gotos are never made defaults. */
  lemma MidOwn(b: Built, s: nat, sp: int)
    requires Constructed(b) && s < |b.states| && sp >= 0
    ensures Own(b.mid[s], sp).Inactive? || Own(b.mid[s], sp) == Became(Own(b.was[s], sp), b.left)
    ensures sp >= b.g.nTerminals && !Own(b.was[s], sp).Inactive? ==> !Own(b.mid[s], sp).Inactive?
    ensures UnitsRight(b) && Followed(b.units, b.mid[s], b.final[s]) && OnePerLookahead(b.mid[s])
  {
    hide StatesFound, LeftBy, OnePerLookahead, Followed, UnitsRight;
    assert Finished(b.was[s], StartRules(b.g, b.start), b.left, b.mid[s]);
    assert ActionsFound(b, s);
    if sp >= b.g.nTerminals && !Own(b.was[s], sp).Inactive? {
      var i := OwnFound(b.was[s], sp);
      assert Lookup(b.mid[s], sp) == Became(Own(b.was[s], sp), b.left);
    }
  }

  // ----- agreement -----

  lemma TokenAgrees(b: Built, t: Tables, k: nat, token: nat)
    requires Constructed(b) && Written(b, t) && k <= t.maxShift && token < b.g.nTerminals
    ensures var act := FindShiftAction(b.g, t, k, token);
            && ShiftAgrees(b.g, AutomatonOf(b), t, k, token, act)
            && (ReducesTo(b.g, t, act, b.start) ==> token == 0) && !ShiftReducesTo(b.g, t, act, b.start)
  {
    assert |b.final| == |b.left| == |b.states|;
    hide StatesFound, Edge, CompleteAfter, ActionsFound, FindShiftAction, GotosWritten, PassesDone;
    assert t.nRule == |b.g.rules|;
    var s := b.sorted[k];
    var final, act := b.final[s], FindShiftAction(b.g, t, k, token);
    assert act == TokenCode(b.number, t, final, token);
    FinalRight(b, s, token);
    DefaultRight(b, s);
    NumberBound(b, t, b.left, Own(final, token));
    hide ValidTables, TokensWritten, BecameRight;
    if Own(final, token).Inactive? {
      var own := Own(final, DEFAULT);
      if own.Reduce? {
        CompleteItem(b, s, own.rule);
      }
    } else {
      CodeAgrees(b, t, k, token, Own(final, token));
    }
  }

  /** The number of a state's own action for a token is one that agrees. */
  lemma CodeAgrees(b: Built, t: Tables, k: nat, token: nat, own: Kind)
    requires Resorted(b) && |b.left| == |b.states| && t.nRule == |b.g.rules|
    requires Rows(b, t) && k <= t.maxShift < |b.states| && token < b.g.nTerminals
    requires BecameRight(b, b.sorted[k], token, own) && !own.Inactive?
    requires own.Shift? ==> b.number[own.target] <= t.maxShift
    ensures Code(b.number, t, own, true) >= 0
    ensures var act: nat := Code(b.number, t, own, true);
            && ShiftAgrees(b.g, AutomatonOf(b), t, k, token, act)
            && (ReducesTo(b.g, t, act, b.start) ==> token == 0) && !ShiftReducesTo(b.g, t, act, b.start)
  {
    hide Edge, CompleteAfter, ValidTables;
    if own.Reduce? {
      CompleteItem(b, b.sorted[k], own.rule);
    }
  }

  /** The default reduces by a rule that is complete in the state, and is none of the start symbol's. */
  lemma DefaultRight(b: Built, s: nat)
    requires Constructed(b) && s < |b.states|
    ensures var own := Own(b.final[s], DEFAULT);
            own.Inactive? ||
            (own.Reduce? && own.rule < |b.g.rules| && own.rule !in StartRules(b.g, b.start)
             && Item(own.rule, |b.g.rules[own.rule].rhs|) in b.states[s].items)
  {
    hide StatesFound, LeftBy, Leads;
    MidOwn(b, s, 0);
    FollowedOwn(b.units, b.mid[s], b.final[s], DEFAULT);
    var own := Own(b.mid[s], DEFAULT);
    assert Finished(b.was[s], StartRules(b.g, b.start), b.left, b.mid[s]);
    if own.Reduce? {
      var i :| 0 <= i < |b.was[s]| && b.was[s][i].kind == own;
      assert ActionsFound(b, s) && Founded(b, s, b.was[s][i].sp, b.was[s][i].kind);
    }
  }

  lemma CompleteItem(b: Built, s: nat, rule: nat)
    requires Resorted(b) && s < |b.states| && rule < |b.g.rules|
             && Item(rule, |b.g.rules[rule].rhs|) in b.states[s].items
    ensures Complete(b.g, AutomatonOf(b), b.number[s], rule)
  {
    assert Item(rule, |b.g.rules[rule].rhs|) in ItemSet(b.states[s].items);
  }

  /** A state that is still shifted into has a row. */
  lemma NumberBound(b: Built, t: Tables, left: seq<Option<nat>>, k: Kind)
    requires Resorted(b) && left == b.left && |left| == |b.states| && Rows(b, t)
    requires k.Shift? ==> k.target < |b.states| && left[k.target].None?
    ensures k.Shift? ==> b.number[k.target] <= t.maxShift
  {
    hide ValidTables;
  }

  lemma GotoRight(b: Built, t: Tables, k: nat, rule: nat)
    requires Constructed(b) && Written(b, t) && k <= t.maxShift && rule < |b.g.rules|
             && Item(rule, 0) in b.states[b.sorted[k]].items
    ensures var lhs := b.g.rules[rule].lhs; var major := b.g.nTerminals + lhs;
            && HasGoto(b.g, t, k, major)
            && GotoAgrees(b.g, AutomatonOf(b), t, k, lhs, FindReduceAction(b.g, t, k, major))
            && !ReducesTo(b.g, t, FindReduceAction(b.g, t, k, major), b.start)
  {
    hide Edge, CompleteAfter, FindShiftAction, HasGoto, ValidTables, TokensWritten, LeftBy;
    assert ValidRule(b.g, b.g.rules[rule]);
    hide StatesFound;
    var s, lhs := b.sorted[k], b.g.rules[rule].lhs;
    var major := b.g.nTerminals + lhs;
    assert ActionsFound(b, s);
    GotoOf(b, s, rule);
    hide ActionsFound, PassesDone;
    FinalRight(b, s, major);
    var own := Own(b.final[s], major);
    assert SymbolOf(b.g, major) == Nonterminal(lhs);
    assert GotoWritten(b, t, k, major);
    NumberBound(b, t, b.left, own);
  }

  lemma GotoRightAt(b: Built, t: Tables, k: nat, rule: nat)
    requires Constructed(b) && Written(b, t) && k <= t.maxShift && rule < |b.g.rules|
             && Item(rule, 0) in AutomatonOf(b).items[k]
    ensures var lhs := b.g.rules[rule].lhs; var major := b.g.nTerminals + lhs;
            && HasGoto(b.g, t, k, major)
            && GotoAgrees(b.g, AutomatonOf(b), t, k, lhs, FindReduceAction(b.g, t, k, major))
            && !ReducesTo(b.g, t, FindReduceAction(b.g, t, k, major), b.start)
  {
    hide StatesFound, PassesDone, ActionsFound, GotoAgrees, ReducesTo, HasGoto, FindReduceAction, ValidTables,
         TokensWritten, GotosWritten;
    GotoRight(b, t, k, rule);
  }

  /** The automaton has the numbered states, in a form that keeps out of the way. */
  lemma AutomatonFacts(b: Built, t: Tables)
    requires Constructed(b) && Written(b, t)
    ensures Resorted(b)
    ensures var a := AutomatonOf(b);
            |a.items| == |b.states| > t.maxShift && a.start == b.start && t.minShiftReduce == |b.states|
              && ValidTables(b.g, t) && ValidGrammar(b.g)
    ensures forall i :: i in AutomatonOf(b).items[0] ==> i.dot == 0
  {
    hide PassesDone, ActionsFound, ValidTables, TokensWritten, GotosWritten, ValidStates, ExactFrom, Later;
    FirstStateStarts(b);
  }

  /**
    The tables written for the states agree with the automaton, and reduce by rules of the
    start symbol on the end of input only.
   */
  lemma TablesAgree(b: Built, t: Tables)
    requires Constructed(b) && Written(b, t)
    ensures Agrees(b.g, AutomatonOf(b), t) && StartAtEnd(b.g, AutomatonOf(b), t)
  {
    hide Constructed, Written, AutomatonOf, FindShiftAction, HasGoto, FindReduceAction, ShiftAgrees, GotoAgrees,
         ReducesTo, ShiftReducesTo, ValidTables, ValidGrammar;
    AutomatonFacts(b, t);
    var a := AutomatonOf(b);
    forall s: nat, token: nat {:trigger FindShiftAction(b.g, t, s, token)} | s <= t.maxShift && token < b.g.nTerminals
      ensures var act := FindShiftAction(b.g, t, s, token);
              && ShiftAgrees(b.g, a, t, s, token, act)
              && (ReducesTo(b.g, t, act, b.start) ==> token == 0) && !ShiftReducesTo(b.g, t, act, b.start)
    {
      TokenAgrees(b, t, s, token);
    }
    forall s: nat, r: nat {:trigger Item(r, 0) in a.items[s]} | s <= t.maxShift && r < |b.g.rules|
      && Item(r, 0) in a.items[s]
      ensures var major := b.g.nTerminals + b.g.rules[r].lhs;
              && HasGoto(b.g, t, s, major)
                 && GotoAgrees(b.g, a, t, s, b.g.rules[r].lhs, FindReduceAction(b.g, t, s, major))
              && !ReducesTo(b.g, t, FindReduceAction(b.g, t, s, major), b.start)
    {
      GotoRightAt(b, t, s, r);
    }
  }

  lemma FirstStateStarts(b: Built)
    requires StatesFound(b) && Resorted(b)
    ensures ValidGrammar(b.g) && forall i :: i in AutomatonOf(b).items[0] ==> i.dot == 0
  {
    hide IsClosure, Increasing;
    assert ValidState(b.g, b.states[0]);
    FirstItems(b.g, b.states[0], b.start);
  }

  // ----- from the packed table to what the driver finds -----

  /** The numbers of a state's active actions for terminals, or for nonterminals. */
  ghost predicate Collected(b: Built, t: Tables, ap: seq<Action>, terminal: bool, entries: seq<Packing.Slot>) {
    && Packing.DistinctLookaheads(entries)
    && (forall e :: e in entries ==> e.action >= 0)
    && forall x: nat, a: int :: Packing.Slot(x, a) in entries <==>
         Among(b, x, terminal) && !Own(ap, x).Inactive? && a == Code(b.number, t, Own(ap, x), terminal)
  }

  predicate Among(b: Built, x: int, terminal: bool) {
    if terminal then 0 <= x < b.g.nTerminals else b.g.nTerminals <= x < b.g.nTerminals + b.g.nNonterminals
  }

  /** The rounds of all rows are exact in the packed table, and the tables are written from it. */
  ghost predicate Packed(b: Built, t: Tables, table: Packing.Table, tokens: seq<Packing.Round>,
                         gotos: seq<Packing.Round>)
    requires Resorted(b) && |b.final| == |b.states| && ValidTables(b.g, t) && t.maxShift < |b.states|
  {
    && Packing.ValidTable(table) && table.used <= |table.slots| && b.g.nTerminals + b.g.nNonterminals <= table.nsymbol
    && Packing.EmittedFrom(t, table.slots[..table.used], table.nsymbol, t.AcceptAction() + 1)
    && |tokens| > t.maxShift && |gotos| > t.maxShift
    && forall k: nat :: k <= t.maxShift ==> RowPacked(b, t, table, k, tokens[k], gotos[k])
  }

  ghost predicate RowPacked(b: Built, t: Tables, table: Packing.Table, k: nat, tokens: Packing.Round,
                            gotos: Packing.Round)
    requires Resorted(b) && |b.final| == |b.states| && ValidTables(b.g, t) && k <= t.maxShift < |b.states|
  {
    var ap := b.final[b.sorted[k]];
    && Collected(b, t, ap, true, tokens.entries) && Collected(b, t, ap, false, gotos.entries)
    && t.deflt[k] == DefaultCode(b.number, t, ap)
    && (if tokens.entries == [] then t.shiftOfst[k] == |t.action|
        else t.shiftOfst[k] == tokens.offset && Packing.Exact(table.slots, tokens))
    && (gotos.entries != [] ==>
        k < |t.reduceOfst| && t.reduceOfst[k] == gotos.offset && Packing.Exact(table.slots, gotos))
  }

  /** The slots after the used ones are empty, so they can be left out. */
  lemma ExactUsed(table: Packing.Table, r: Packing.Round)
    requires Packing.ValidTable(table) && table.used <= |table.slots| && Packing.Exact(table.slots, r)
    requires forall e :: e in r.entries ==> e.lookahead >= 0
    ensures Packing.Exact(table.slots[..table.used], r)
  {
    hide Packing.Cells;
    assert Packing.MatchSet(table.slots[..table.used], r.offset) == Packing.MatchSet(table.slots, r.offset);
    hide Packing.MatchSet;
    forall e | e in r.entries
      ensures 0 <= r.offset + e.lookahead < table.used
    {
      assert table.slots[r.offset + e.lookahead] == e;
    }
  }

  lemma CollectedLookaheads(b: Built, t: Tables, ap: seq<Action>, terminal: bool, entries: seq<Packing.Slot>)
    requires Collected(b, t, ap, terminal, entries) && forall e :: e in entries ==> e.lookahead >= 0
    ensures forall x: nat :: Among(b, x, terminal) && !Own(ap, x).Inactive? ==>
            Packing.Slot(x, Code(b.number, t, Own(ap, x), terminal)) in entries
    ensures forall x: nat :: Among(b, x, terminal) && Own(ap, x).Inactive? ==>
            forall a: int :: Packing.Slot(x, a) !in entries
  {
  }

  lemma TokenFound(b: Built, t: Tables, table: Packing.Table, k: nat, tokens: Packing.Round, gotos: Packing.Round,
                   token: nat)
    requires Resorted(b) && |b.final| == |b.states| && ValidTables(b.g, t) && k <= t.maxShift < |b.states|
             && token < b.g.nTerminals
    requires Packing.ValidTable(table) && table.used <= |table.slots|
             && b.g.nTerminals + b.g.nNonterminals <= table.nsymbol
    requires Packing.EmittedFrom(t, table.slots[..table.used], table.nsymbol, t.AcceptAction() + 1)
    requires RowPacked(b, t, table, k, tokens, gotos) && forall e :: e in tokens.entries ==> e.lookahead >= 0
    ensures FindShiftAction(b.g, t, k, token) == TokenCode(b.number, t, b.final[b.sorted[k]], token)
  {
    hide Packing.Exact, Packing.EmittedFrom, Packing.DistinctLookaheads, Code, Own, Packing.ValidTable;
    var ap := b.final[b.sorted[k]];
    CollectedLookaheads(b, t, ap, true, tokens.entries);
    if tokens.entries != [] {
      ExactUsed(table, tokens);
      Packing.ShiftLookup(b.g, t, table.slots[..table.used], table.nsymbol, t.AcceptAction() + 1, tokens, k, token);
      if !Own(ap, token).Inactive? {
        assert Packing.Gives(tokens, token, Code(b.number, t, Own(ap, token), true));
      }
    } else {
      assert Own(ap, token).Inactive?;
    }
  }

  lemma GotoFound(b: Built, t: Tables, table: Packing.Table, k: nat, tokens: Packing.Round, gotos: Packing.Round,
                  major: nat)
    requires Resorted(b) && |b.final| == |b.states| && ValidTables(b.g, t) && k <= t.maxShift < |b.states|
             && Among(b, major, false)
    requires Packing.ValidTable(table) && table.used <= |table.slots|
             && b.g.nTerminals + b.g.nNonterminals <= table.nsymbol
    requires Packing.EmittedFrom(t, table.slots[..table.used], table.nsymbol, t.AcceptAction() + 1)
    requires RowPacked(b, t, table, k, tokens, gotos) && forall e :: e in gotos.entries ==> e.lookahead >= 0
    ensures GotoWritten(b, t, k, major)
  {
    hide Packing.Exact, Packing.EmittedFrom, Packing.DistinctLookaheads, Code, Own, Packing.ValidTable, HasGoto,
         FindReduceAction;
    var ap := b.final[b.sorted[k]];
    CollectedLookaheads(b, t, ap, false, gotos.entries);
    if !Own(ap, major).Inactive? {
      var a := Code(b.number, t, Own(ap, major), false);
      assert Packing.Slot(major, a) in gotos.entries;
      ExactUsed(table, gotos);
      assert Packing.Gives(gotos, major, a);
      Packing.ReduceLookup(b.g, t, table.slots[..table.used], table.nsymbol, t.AcceptAction() + 1, gotos, k, major, a);
    }
  }

  /** Exact rounds are what the driver needs to find every state's own actions. */
  lemma PackedWritten(b: Built, t: Tables, table: Packing.Table, tokens: seq<Packing.Round>, gotos: seq<Packing.Round>)
    requires Constructed(b) && Rows(b, t) && Packed(b, t, table, tokens, gotos)
    requires forall k: nat, e :: k <= t.maxShift && (e in tokens[k].entries || e in gotos[k].entries) ==>
             e.lookahead >= 0
    ensures Written(b, t)
  {
    assert |b.final| == |b.states| && t.maxShift < |b.states|;
    hide StatesFound, PassesDone, ActionsFound, ValidTables, RowPacked, FindShiftAction, TokenCode, GotoWritten,
         Packing.EmittedFrom, Packing.ValidTable;
    forall k: nat, token: nat {:trigger FindShiftAction(b.g, t, k, token)} | k <= t.maxShift && token < b.g.nTerminals
      ensures FindShiftAction(b.g, t, k, token) == TokenCode(b.number, t, b.final[b.sorted[k]], token)
    {
      TokenFound(b, t, table, k, tokens[k], gotos[k], token);
    }
    forall k: nat, major: nat | k <= t.maxShift && b.g.nTerminals <= major < b.g.nTerminals + b.g.nNonterminals
      ensures GotoWritten(b, t, k, major)
    {
      GotoFound(b, t, table, k, tokens[k], gotos[k], major);
    }
  }

  /**
    A parser with written tables, fed with tokens until it stops shifting. It accepts at the
    end of input only, and then the tokens before it are derived from the start symbol. That
    the tables are `Written` is promised by ParserGenerator.GenerateTables.
   */
  method ParseGenerated(t: Tables, input: seq<nat>, depth: nat, limit: nat, g: Grammar, ghost b: Built)
    returns (at: nat, status: Status)
    requires Constructed(b) && Written(b, t) && b.g == g
    requires depth > 0 && forall i :: 0 <= i < |input| ==> input[i] < g.nTerminals
    ensures at <= |input| && (status == Shifted <==> at == |input|)
    ensures status == Accepted ==> input[at] == 0 && Derives(g, [Nonterminal(b.start)], Terminals(input[..at]))
    ensures ValidTables(g, t) && StopsAt(g, t, depth, limit, [Entry(0, 0)], input, at, status)
  {
    hide Constructed, Written, Agrees, StartAtEnd, Terminals, Outcome, ValidTables, Waiting;
    TablesAgree(b, t);
    AutomatonFacts(b, t);
    var parser := new Parser(g, t, AutomatonOf(b), depth);
    StartsWaiting(b, t);
    parser.TablesValid();
    ghost var stacks := [[Entry(0, 0)]];
    assert input[..0] == [] && Terminals([]) == [] by { NoTerminals(); }
    assert input[0..] == input;
    at := 0;
    while at < |input|
      invariant 0 <= at <= |input| && parser.Valid() && fresh(parser.yystack)
      invariant parser.g == g && parser.t == t && parser.a == AutomatonOf(b)
      invariant parser.Consumed() == Terminals(input[..at])
      invariant Waiting(g, AutomatonOf(b), t, parser.yystack[parser.yytos].stateno)
      invariant parser.yystack.Length == depth && |stacks| == at + 1 && stacks[0] == [Entry(0, 0)]
      invariant stacks[at] == parser.Stack()
      invariant forall i :: 0 <= i < at ==>
                  Outcome(g, t, depth, stacks[i], input[i], limit, Shifted, stacks[i + 1])
    {
      OneTokenMore(input, at);
      status := parser.Parse(input[at], limit);
      if status != Shifted {
        ShiftedUpTo(g, t, depth, limit, stacks, input, 0, at, status, parser.Stack());
        return;
      }
      stacks := stacks + [parser.Stack()];
      at := at + 1;
    }
    status := Shifted;
    ShiftedUpTo(g, t, depth, limit, stacks, input, 0, at, status, []);
  }

  lemma {:induction false} ShiftedUpTo(g: Grammar, t: Tables, depth: nat, limit: nat, stacks: seq<seq<Entry>>,
                                       input: seq<nat>, i: nat, at: nat, status: Status, after: seq<Entry>)
    requires ValidTables(g, t) && i <= at <= |input| && |stacks| == at + 1
    requires forall j :: 0 <= j < |input| ==> input[j] < g.nTerminals
    requires forall j :: 0 <= j < at ==> Outcome(g, t, depth, stacks[j], input[j], limit, Shifted, stacks[j + 1])
    requires status == Shifted <==> at == |input|
    requires at < |input| ==> Outcome(g, t, depth, stacks[at], input[at], limit, status, after)
    ensures StopsAt(g, t, depth, limit, stacks[i], input[i..], at - i, status)
    decreases at - i
  {
    hide Outcome;
    if i < at {
      assert input[i..][0] == input[i] && input[i..][1..] == input[i + 1..];
      ShiftedUpTo(g, t, depth, limit, stacks, input, i + 1, at, status, after);
    }
  }

  lemma StartsWaiting(b: Built, t: Tables)
    requires Resorted(b)
    ensures Waiting(b.g, AutomatonOf(b), t, 0)
  {
  }

  lemma NoTerminals()
    ensures Terminals([]) == []
  {
  }

  lemma OneTokenMore(input: seq<nat>, at: nat)
    requires at < |input|
    ensures Terminals(input[..at + 1]) == Terminals(input[..at]) + [Terminal(input[at])]
  {
    assert input[..at + 1][..at] == input[..at];
  }
}
