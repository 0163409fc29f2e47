/**
  Rules with one symbol on the right and no code, whose reduces the generator skips. When
  they do not lead in a circle, every goto that only applies one has another to follow, and
  the chains end.
 */
module UnitRules {
  import opened Options
  import opened Grammars
  import opened LrDriver
  import opened Lr0
  import opened CompressTables
  import opened GeneratedTables
  import Actions

  /** The rules' left-hand sides, and which of them have one symbol on the right and no code. */
  function UnitsOf(g: Grammar, noCode: set<nat>): (u: Units)
    ensures u.nTerminals == g.nTerminals && |u.lhs| == |u.skip| == |g.rules|
    ensures forall r :: 0 <= r < |g.rules| ==>
              u.lhs[r] == g.rules[r].lhs && (u.skip[r] <==> r in noCode && |g.rules[r].rhs| == 1)
  {
    Units(g.nTerminals, seq(|g.rules|, r requires 0 <= r < |g.rules| => g.rules[r].lhs),
          seq(|g.rules|, r requires 0 <= r < |g.rules| => r in noCode && |g.rules[r].rhs| == 1))
  }

  predicate SkipsOver(g: Grammar, noCode: set<nat>, r: nat) {
    r < |g.rules| && r in noCode && |g.rules[r].rhs| == 1 && g.rules[r].rhs[0].Nonterminal?
  }

  /** The rule's left-hand side ranks above its right-hand side. */
  predicate Rises(g: Grammar, r: nat, rank: seq<nat>, top: nat)
    requires r < |g.rules| && |g.rules[r].rhs| == 1 && g.rules[r].rhs[0].Nonterminal?
  {
    var from, to := g.rules[r].rhs[0].index, g.rules[r].lhs;
    from < |rank| && to < |rank| && rank[from] < rank[to] <= top
  }

  ghost predicate Ranked(g: Grammar, noCode: set<nat>, rank: seq<nat>, top: nat) {
    forall r: nat :: SkipsOver(g, noCode, r) ==> Rises(g, r, rank, top)
  }

  /** The skipped rules from nonterminal to nonterminal do not lead in a circle, nor on for more than `top` steps. */
  ghost predicate NoCircle(g: Grammar, noCode: set<nat>, top: nat) {
    exists rank :: Ranked(g, noCode, rank, top)
  }

  /** A rule that is complete after one goto begins with that nonterminal. */
  lemma UnitShifted(b: Built, s: nat, sp: nat, target: nat, rule: nat)
    requires StatesFound(b) && s < |b.states| && target < |b.states| && rule < |b.g.rules| && sp >= b.g.nTerminals
    requires Actions.ShiftsTo(b.g, b.states[s], sp, target)
    requires |b.g.rules[rule].rhs| == 1 && Item(rule, 1) in b.states[target].items
    ensures b.g.rules[rule].rhs == [Nonterminal(sp - b.g.nTerminals)] && Item(rule, 0) in b.states[s].items
  {
    hide IsClosure, Increasing, DistinctItems, ExactFrom;
    var k :| 0 <= k < |b.states[s].shifts| && b.states[s].shifts[k].1 == target
      && Actions.Reads(b.g, b.states[s].shifts[k].0, sp);
    ShiftSymbol(b, s, k);
    OneShift(b.g, b.states, s, k);
    var t := b.states[target];
    assert ValidState(b.g, t);
    assert forall i :: i in t.basis ==> i in ItemSet(t.basis) && ValidItem(b.g, i);
    ClosureAddsFresh(b.g, ItemSet(t.basis), ItemSet(t.items));
    assert Item(rule, 1) in ItemSet(t.items);
    assert Item(rule, 1) in Advance(b.g, ItemSet(b.states[s].items), b.states[s].shifts[k].0);
  }

  /** A goto that would only apply a one-symbol rule: the rule's left-hand side has a goto too. */
  lemma UnitGoto(b: Built, s: nat, sp: nat, rule: nat)
    requires Constructed(b) && s < |b.states| && sp >= b.g.nTerminals && rule < |b.g.rules|
    requires Own(b.mid[s], sp) == ShiftReduce(rule) && |b.g.rules[rule].rhs| == 1
    ensures b.g.rules[rule].rhs == [Nonterminal(sp - b.g.nTerminals)]
    ensures !Own(b.mid[s], b.g.nTerminals + b.g.rules[rule].lhs).Inactive?
  {
    hide StatesFound, Finished, OnlyAnswer, Followed, UnitsRight;
    MidOwn(b, s, sp);
    assert ActionsFound(b, s);
    FoundedAt(b, s, sp);
    var target := Own(b.was[s], sp).target;
    ShiftIsEdge(b, s, sp, target);
    assert ActionsFound(b, target) && OnlyAnswer(b.was[target], rule);
    LeftByLonger(b, target, rule);
    UnitShifted(b, s, sp, target, rule);
    GotoOf(b, s, rule);
    MidOwn(b, s, b.g.nTerminals + b.g.rules[rule].lhs);
  }

  lemma GotoClimbs(b: Built, s: nat, noCode: set<nat>, rank: seq<nat>, top: nat, i: nat)
    requires Constructed(b) && s < |b.states| && b.units == UnitsOf(b.g, noCode) && Ranked(b.g, noCode, rank, top)
    requires s < |b.mid| && i < |b.mid[s]| && OnePerLookahead(b.mid[s])
    requires Skips(b.units, b.mid[s][i].sp, b.mid[s][i].kind)
    ensures ClimbsAt(b.units, b.mid[s], rank, top, i)
  {
    hide Constructed, Ranked, ClimbsAt, UnitsOf;
    var rule := b.mid[s][i].kind.rule;
    OwnAt(b.mid[s], i);
    UnitGoto(b, s, b.mid[s][i].sp, rule);
    HigherGoto(b.g, noCode, rank, top, b.mid[s], i);
  }

  lemma HigherGoto(g: Grammar, noCode: set<nat>, rank: seq<nat>, top: nat, ap: seq<Action>, i: nat)
    requires Ranked(g, noCode, rank, top) && i < |ap| && Skips(UnitsOf(g, noCode), ap[i].sp, ap[i].kind)
    requires g.rules[ap[i].kind.rule].rhs == [Nonterminal(ap[i].sp - g.nTerminals)]
    requires !Own(ap, g.nTerminals + g.rules[ap[i].kind.rule].lhs).Inactive?
    ensures ClimbsAt(UnitsOf(g, noCode), ap, rank, top, i)
  {
    var rule := ap[i].kind.rule;
    assert SkipsOver(g, noCode, rule) && Rises(g, rule, rank, top);
    hide Ranked, SkipsOver, UnitsOf;
    var j := OwnFound(ap, g.nTerminals + g.rules[rule].lhs);
  }

  lemma GotosClimb(b: Built, s: nat, noCode: set<nat>, top: nat)
    requires Constructed(b) && s < |b.states| && b.units == UnitsOf(b.g, noCode) && NoCircle(b.g, noCode, top)
    ensures CanFollow(b.units, b.mid[s], top)
  {
    MidOwn(b, s, 0);
    assert s < |b.mid|;
    hide Constructed, OnePerLookahead, Ranked, ClimbsAt, Followed;
    var rank :| Ranked(b.g, noCode, rank, top);
    forall i | 0 <= i < |b.mid[s]| && Skips(b.units, b.mid[s][i].sp, b.mid[s][i].kind)
      ensures ClimbsAt(b.units, b.mid[s], rank, top, i)
    {
      GotoClimbs(b, s, noCode, rank, top, i);
    }
    assert Climbs(b.units, b.mid[s], rank, top);
  }
}
