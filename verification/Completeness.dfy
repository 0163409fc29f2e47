/**
  The other half of the driver's correctness: from a grammar without conflicts the generator
  makes tables with which every sentence is accepted, as soon as the stack is deep enough.
 */
module Completeness {
  import opened Options
  import opened Grammars
  import opened Sets
  import opened LrDriver
  import opened Lr0
  import opened CompressTables
  import opened GeneratedTables
  import FirstSets
  import Links
  import Lalr
  import Actions

  // ----- tables of a grammar without conflicts -----

  /** The follow sets are those of the states, and the actions what conflict resolution leaves of the wanted ones. */
  ghost predicate FromGrammar(b: Built, p: Actions.Precedences, follow: Pairs) {
    && |b.was| == |b.states| == |b.final| && Links.FollowRight(b.g, b.states, follow)
    && forall s :: 0 <= s < |b.states| ==> Resolved(b, p, follow, s) && Unskipped(b.units, b.final[s])
  }

  ghost predicate Resolves(b: Built, p: Actions.Precedences) {
    exists follow :: FromGrammar(b, p, follow)
  }

  ghost predicate Resolved(b: Built, p: Actions.Precedences, follow: Pairs, s: nat)
    requires s < |b.states| == |b.was|
  {
    exists collected :: Actions.Found(b.g, p, b.start, b.states, follow, s, collected, b.was[s])
  }

  ghost predicate Wants(b: Built, follow: Pairs, s: nat, e: Action)
    requires s < |b.states|
  {
    Actions.Wanted(b.g, b.start, b.states, follow, s, e)
  }

  /** No state has two things to do on one symbol. */
  ghost predicate ConflictFree(b: Built, follow: Pairs) {
    forall s: nat, e, f :: s < |b.states| && Wants(b, follow, s, e) && Wants(b, follow, s, f) && e.sp == f.sp ==> e == f
  }

  ghost predicate Setting(b: Built, t: Tables, p: Actions.Precedences, follow: Pairs) {
    Constructed(b) && Written(b, t) && FromGrammar(b, p, follow) && ConflictFree(b, follow)
  }

  // ----- what a state does with a symbol -----

  /** A wanted action is the state's own. */
  lemma OwnWanted(b: Built, p: Actions.Precedences, follow: Pairs, s: nat, e: Action)
    requires FromGrammar(b, p, follow) && ConflictFree(b, follow) && s < |b.states| && Wants(b, follow, s, e)
    ensures Own(b.was[s], e.sp) == e.kind
  {
    hide Links.FollowRight, Unskipped, Wants, Actions.Found, ConflictFree;
    assert Resolved(b, p, follow, s);
    var collected :| Actions.Found(b.g, p, b.start, b.states, follow, s, collected, b.was[s]);
    CollectedFrom(b, p, follow, s, collected);
    AllTheSame(b, p, follow, s, collected, e);
    OwnOnly(b, p, follow, s, collected, e);
  }

  lemma CollectedFrom(b: Built, p: Actions.Precedences, follow: Pairs, s: nat, collected: seq<Action>)
    requires s < |b.states| == |b.was| && Actions.Found(b.g, p, b.start, b.states, follow, s, collected, b.was[s])
    ensures Actions.Collected(b.g, b.start, b.states, follow, s, collected)
  {
  }

  lemma AllTheSame(b: Built, p: Actions.Precedences, follow: Pairs, s: nat, collected: seq<Action>, e: Action)
    requires ConflictFree(b, follow) && s < |b.states| && Wants(b, follow, s, e)
    requires Actions.Collected(b.g, b.start, b.states, follow, s, collected)
    ensures e in collected && forall f :: f in collected && f.sp == e.sp ==> f == e
  {
    forall f | f in collected && f.sp == e.sp
      ensures f == e
    {
      assert Wants(b, follow, s, f);
    }
    hide ConflictFree, Actions.BySymbol;
    assert Actions.Wanted(b.g, b.start, b.states, follow, s, e);
  }

  lemma OwnOnly(b: Built, p: Actions.Precedences, follow: Pairs, s: nat, collected: seq<Action>, e: Action)
    requires s < |b.states| == |b.was| && e in collected && (forall f :: f in collected && f.sp == e.sp ==> f == e)
    requires Actions.Found(b.g, p, b.start, b.states, follow, s, collected, b.was[s])
    ensures Own(b.was[s], e.sp) == e.kind
  {
    hide Actions.Collected, Actions.Decided, Own;
    var ap := b.was[s];
    var i :| 0 <= i < |collected| && collected[i] == e;
    assert ap[i].sp == e.sp && Actions.AnsweredAt(ap, ap[i].sp);
    var j :| 0 <= j < |ap| && ap[j].sp == e.sp && !ap[j].kind.Inactive?;
    Actions.OwnSome(ap, j);
    var k := OwnFound(ap, e.sp);
    assert collected[k] in collected && collected[k].sp == e.sp;
  }

  // ----- shifts and reduces that are wanted -----

  /** The state after a symbol, with the configuration moved over it. */
  lemma ShiftOver(b: Built, s: nat, i: Item) returns (target: nat)
    requires StatesFound(b) && s < |b.states| && i in b.states[s].items
    requires i.rule < |b.g.rules| && i.dot < |b.g.rules[i.rule].rhs|
    ensures target < |b.states| && (b.g.rules[i.rule].rhs[i.dot], target) in b.states[s].shifts
    ensures Item(i.rule, i.dot + 1) in b.states[target].items
  {
    hide IsClosure, Increasing, DistinctItems, Later;
    var x := b.g.rules[i.rule].rhs[i.dot];
    assert ValidState(b.g, b.states[s]) && ValidItem(b.g, i) && CanShift(b.g, i, x);
    assert ShiftsExact(b.g, b.states, b.states[s]);
    var k :| 0 <= k < |b.states[s].shifts| && b.states[s].shifts[k].0 == x;
    OneShift(b.g, b.states, s, k);
    target := b.states[s].shifts[k].1;
    assert i in ItemSet(b.states[s].items);
    assert Item(i.rule, i.dot + 1) in Advance(b.g, ItemSet(b.states[s].items), x);
    assert Item(i.rule, i.dot + 1) in ItemSet(b.states[target].basis);
    BasisInItems(b, target, Item(i.rule, i.dot + 1));
  }

  lemma BasisInItems(b: Built, s: nat, i: Item)
    requires StatesFound(b) && s < |b.states| && i in ItemSet(b.states[s].basis)
    ensures i in b.states[s].items
  {
    assert ValidState(b.g, b.states[s]);
    assert i in ItemSet(b.states[s].items);
  }

  /** The number of a symbol that is read: a nonterminal's own, or the token. */
  predicate ReadAs(g: Grammar, x: Symbol, sp: nat) {
    Actions.Reads(g, x, sp)
  }

  lemma ShiftWanted(b: Built, follow: Pairs, s: nat, x: Symbol, target: nat, sp: nat)
    requires s < |b.states| && (x, target) in b.states[s].shifts && ReadAs(b.g, x, sp)
    ensures Wants(b, follow, s, Action(sp, Shift(target))) && Actions.ShiftsTo(b.g, b.states[s], sp, target)
  {
    var k :| 0 <= k < |b.states[s].shifts| && b.states[s].shifts[k] == (x, target);
    assert b.states[s].shifts[k].1 == target;
  }

  lemma ReduceWanted(b: Built, follow: Pairs, s: nat, r: nat, t: nat)
    requires StatesFound(b) && s < |b.states| && r < |b.g.rules| && t < b.g.nTerminals
    requires Links.Allowed(b.states, follow, s, Item(r, |b.g.rules[r].rhs|), t)
    ensures Wants(b, follow, s, Action(t, Reduce(r)))
  {
    hide StatesFound;
    var k: nat :| k < |b.states[s].items| && b.states[s].items[k] == Item(r, |b.g.rules[r].rhs|)
      && (Links.First(b.states, s) + k, t) in follow;
    assert Actions.ReduceOn(b.g, b.states[s].items[k], r);
  }

  /** What a state that is left at once does is reduce by its rule. */
  lemma LeftOnlyReduces(b: Built, p: Actions.Precedences, follow: Pairs, s: nat, rule: nat, e: Action)
    requires Constructed(b) && FromGrammar(b, p, follow) && ConflictFree(b, follow)
    requires 0 < s < |b.states| && s < |b.left| && b.left[s] == Some(rule) && Wants(b, follow, s, e)
    ensures e.kind == Reduce(rule)
  {
    hide Constructed, FromGrammar, ConflictFree;
    LeftIs(b, s, rule);
    OwnWanted(b, p, follow, s, e);
    var i := OwnFound(b.was[s], e.sp);
  }

  lemma LeftIs(b: Built, s: nat, rule: nat)
    requires Constructed(b) && 0 < s < |b.states| && s < |b.left| && b.left[s] == Some(rule)
    ensures |b.was| == |b.states| && OnlyAnswer(b.was[s], rule)
  {
    hide StatesFound, ActionsFound, Finished, Followed, UnitsRight;
  }

  // ----- after all passes -----

  /** A shift is still there: as it is, or as the reduce of the state it would lead to. */
  lemma ShiftBecame(b: Built, p: Actions.Precedences, follow: Pairs, s: nat, sp: nat, target: nat)
    requires Constructed(b) && FromGrammar(b, p, follow) && ConflictFree(b, follow) && s < |b.states|
    requires Wants(b, follow, s, Action(sp, Shift(target)))
    ensures Own(b.mid[s], sp) == Became(Shift(target), b.left)
    ensures sp < b.g.nTerminals ==> Own(b.final[s], sp) == Became(Shift(target), b.left)
    ensures sp >= b.g.nTerminals ==> LeadsTo(b.units, b.mid[s], Became(Shift(target), b.left), Own(b.final[s], sp))
  {
    OwnWanted(b, p, follow, s, Action(sp, Shift(target)));
    hide FromGrammar, ConflictFree, StatesFound, LeftBy, LeadsTo;
    MidOwn(b, s, sp);
    FollowedOwn(b.units, b.mid[s], b.final[s], sp);
    assert Finished(b.was[s], StartRules(b.g, b.start), b.left, b.mid[s]);
  }

  /** A reduce is what the lookup of its token still gives. */
  lemma ReduceBecame(b: Built, p: Actions.Precedences, follow: Pairs, s: nat, t: nat, r: nat)
    requires Constructed(b) && FromGrammar(b, p, follow) && ConflictFree(b, follow) && s < |b.states|
    requires t < b.g.nTerminals && Wants(b, follow, s, Action(t, Reduce(r)))
    ensures Lookup(b.final[s], t) == Reduce(r)
  {
    OwnWanted(b, p, follow, s, Action(t, Reduce(r)));
    hide FromGrammar, ConflictFree, StatesFound, LeftBy, LeadsTo;
    MidOwn(b, s, t);
    FollowedOwn(b.units, b.mid[s], b.final[s], t);
    FollowedOwn(b.units, b.mid[s], b.final[s], DEFAULT);
    assert Finished(b.was[s], StartRules(b.g, b.start), b.left, b.mid[s]);
  }

  // ----- the driver's moves -----

  /** The driver reduces, or shifts the next token, `n` times. */
  ghost predicate Moves(g: Grammar, t: Tables, n: nat, stack: seq<Entry>, rest: seq<nat>, later: seq<Entry>,
                        left: seq<nat>)
    requires ValidTables(g, t)
  {
    if n == 0 then stack == later && rest == left
    else
      && stack != [] && rest != [] && rest[0] < g.nTerminals
      && if CanReduce(g, t, stack, rest[0])
         then Moves(g, t, n - 1, AfterReduce(g, t, stack, rest[0]), rest, later, left)
         else CanShiftToken(g, t, stack, rest[0])
              && Moves(g, t, n - 1, AfterShift(g, t, stack, rest[0]), rest[1..], later, left)
  }

  predicate CanShiftToken(g: Grammar, t: Tables, stack: seq<Entry>, token: nat)
    requires ValidTables(g, t) && token < g.nTerminals && stack != []
  {
    var act := FindShiftAction(g, t, TopOf(stack), token);
    act <= t.MaxShiftReduce() && ShiftedState(t, act) >= 0
  }

  function AfterShift(g: Grammar, t: Tables, stack: seq<Entry>, token: nat): seq<Entry>
    requires ValidTables(g, t) && token < g.nTerminals && stack != [] && CanShiftToken(g, t, stack, token)
  {
    stack + [Entry(ShiftedState(t, FindShiftAction(g, t, TopOf(stack), token)), token)]
  }

  ghost predicate Goes(g: Grammar, t: Tables, stack: seq<Entry>, rest: seq<nat>, later: seq<Entry>, left: seq<nat>)
    requires ValidTables(g, t)
  {
    exists n: nat :: Moves(g, t, n, stack, rest, later, left)
  }

  lemma {:induction false} MovesOn(g: Grammar, t: Tables, n: nat, m: nat, s1: seq<Entry>, r1: seq<nat>, s2: seq<Entry>,
                                   r2: seq<nat>, s3: seq<Entry>, r3: seq<nat>)
    requires ValidTables(g, t) && Moves(g, t, n, s1, r1, s2, r2) && Moves(g, t, m, s2, r2, s3, r3)
    ensures Moves(g, t, n + m, s1, r1, s3, r3)
    decreases n
  {
    hide CanReduce, AfterReduce, CanShiftToken, AfterShift;
    if n > 0 {
      if CanReduce(g, t, s1, r1[0]) {
        MovesOn(g, t, n - 1, m, AfterReduce(g, t, s1, r1[0]), r1, s2, r2, s3, r3);
      } else {
        MovesOn(g, t, n - 1, m, AfterShift(g, t, s1, r1[0]), r1[1..], s2, r2, s3, r3);
      }
    }
  }

  lemma GoesOn(g: Grammar, t: Tables, s1: seq<Entry>, r1: seq<nat>, s2: seq<Entry>, r2: seq<nat>, s3: seq<Entry>,
               r3: seq<nat>)
    requires ValidTables(g, t) && Goes(g, t, s1, r1, s2, r2) && Goes(g, t, s2, r2, s3, r3)
    ensures Goes(g, t, s1, r1, s3, r3)
  {
    var n: nat :| Moves(g, t, n, s1, r1, s2, r2);
    var m: nat :| Moves(g, t, m, s2, r2, s3, r3);
    MovesOn(g, t, n, m, s1, r1, s2, r2, s3, r3);
  }

  lemma GoesNowhere(g: Grammar, t: Tables, stack: seq<Entry>, rest: seq<nat>)
    requires ValidTables(g, t)
    ensures Goes(g, t, stack, rest, stack, rest)
  {
    assert Moves(g, t, 0, stack, rest, stack, rest);
  }

  lemma GoesByReduce(g: Grammar, t: Tables, stack: seq<Entry>, rest: seq<nat>)
    requires ValidTables(g, t) && stack != [] && rest != [] && rest[0] < g.nTerminals && CanReduce(g, t, stack, rest[0])
    ensures Goes(g, t, stack, rest, AfterReduce(g, t, stack, rest[0]), rest)
  {
    hide CanReduce, AfterReduce;
    assert Moves(g, t, 0, AfterReduce(g, t, stack, rest[0]), rest, AfterReduce(g, t, stack, rest[0]), rest);
    assert Moves(g, t, 1, stack, rest, AfterReduce(g, t, stack, rest[0]), rest);
  }

  lemma GoesByShift(g: Grammar, t: Tables, stack: seq<Entry>, rest: seq<nat>)
    requires ValidTables(g, t) && stack != [] && rest != [] && rest[0] < g.nTerminals
             && CanShiftToken(g, t, stack, rest[0])
    ensures Goes(g, t, stack, rest, AfterShift(g, t, stack, rest[0]), rest[1..])
  {
    assert !CanReduce(g, t, stack, rest[0]);
    hide CanReduce, AfterReduce, CanShiftToken, AfterShift;
    var later := AfterShift(g, t, stack, rest[0]);
    assert Moves(g, t, 0, later, rest[1..], later, rest[1..]);
    assert Moves(g, t, 1, stack, rest, later, rest[1..]);
  }

  // ----- the entry that stands for a symbol -----

  /** What the driver puts on its stack for an action. */
  function StateFor(b: Built, t: Tables, k: Kind): int {
    match k
    case Shift(target) => if target < |b.number| then b.number[target] else -1
    case ShiftReduce(rule) => rule + t.MinReduce()
    case Accept => t.AcceptAction()
    case _ => -1
  }

  /** The driver is in a state that has a row. */
  ghost predicate OnTop(b: Built, t: Tables, stack: seq<Entry>, s: nat) {
    stack != [] && s < |b.states| && s < |b.number| && TopOf(stack) == b.number[s] <= t.maxShift
  }

  lemma WrittenFacts(b: Built, t: Tables)
    requires Constructed(b) && Written(b, t)
    ensures Rows(b, t) && ValidTables(b.g, t) && t.nRule == |b.g.rules| && t.minShiftReduce == |b.states|
    ensures |b.number| == |b.states| == |b.final| == |b.left| == |b.mid| == |b.was|
  {
  }

  lemma TokenFoundAs(b: Built, t: Tables, s: nat, token: nat)
    requires Constructed(b) && Written(b, t) && s < |b.states| && s < |b.number| && b.number[s] <= t.maxShift
    requires token < b.g.nTerminals
    ensures ValidTables(b.g, t) && s < |b.final|
    ensures FindShiftAction(b.g, t, b.number[s], token) == TokenCode(b.number, t, b.final[s], token)
  {
    hide StatesFound, PassesDone, ActionsFound, GotosWritten, FindShiftAction, TokenCode;
    WrittenFacts(b, t);
    assert b.sorted[b.number[s]] == s;
  }

  lemma GotoFoundAs(b: Built, t: Tables, s: nat, lhs: nat)
    requires Constructed(b) && Written(b, t) && s < |b.states| && s < |b.number| && b.number[s] <= t.maxShift
    requires lhs < b.g.nNonterminals && s < |b.final| && !Own(b.final[s], b.g.nTerminals + lhs).Inactive?
    ensures ValidTables(b.g, t) && HasGoto(b.g, t, b.number[s], b.g.nTerminals + lhs)
    ensures FindReduceAction(b.g, t, b.number[s], b.g.nTerminals + lhs)
            == Code(b.number, t, Own(b.final[s], b.g.nTerminals + lhs), false)
  {
    hide StatesFound, PassesDone, ActionsFound, TokensWritten, FindReduceAction, HasGoto, Code;
    WrittenFacts(b, t);
    assert b.sorted[b.number[s]] == s;
    assert GotoWritten(b, t, b.number[s], b.g.nTerminals + lhs);
  }

  /** A rule that a state starts on: the entry for its left-hand side. */
  lemma GotoEntry(b: Built, t: Tables, s: nat, r: nat)
    requires Constructed(b) && Written(b, t) && s < |b.states| && s < |b.number| && b.number[s] <= t.maxShift
    requires r < |b.g.rules| && Item(r, 0) in b.states[s].items && s < |b.final|
    ensures ValidTables(b.g, t)
    ensures var major := b.g.nTerminals + b.g.rules[r].lhs;
            && HasGoto(b.g, t, b.number[s], major)
            && StateFor(b, t, Own(b.final[s], major)) == FindReduceAction(b.g, t, b.number[s], major)
  {
    hide Written, LeftBy, Finished, Followed, UnitsRight, HasGoto, FindReduceAction, Edge, CompleteAfter;
    var lhs := b.g.rules[r].lhs;
    var major := b.g.nTerminals + lhs;
    assert ValidRule(b.g, b.g.rules[r]);
    hide StatesFound;
    assert ActionsFound(b, s);
    GotoOf(b, s, r);
    FinalRight(b, s, major);
    GotoFoundAs(b, t, s, lhs);
  }

  /** A wanted shift of the next token is made. */
  lemma ReadToken(b: Built, t: Tables, p: Actions.Precedences, follow: Pairs, s: nat, stack: seq<Entry>, rest: seq<nat>,
                  x: Symbol, target: nat)
    requires Setting(b, t, p, follow) && OnTop(b, t, stack, s) && (x, target) in b.states[s].shifts
    requires rest != [] && rest[0] < b.g.nTerminals && ReadAs(b.g, x, rest[0])
    ensures ValidTables(b.g, t) && s < |b.final|
    ensures var state := StateFor(b, t, Own(b.final[s], rest[0]));
            state >= 0 && Goes(b.g, t, stack, rest, stack + [Entry(state, rest[0])], rest[1..])
  {
    hide Constructed, Written, FromGrammar, ConflictFree, Own, FindShiftAction, ReadAs, ValidTables;
    WrittenFacts(b, t);
    ShiftWanted(b, follow, s, x, target, rest[0]);
    ShiftBecame(b, p, follow, s, rest[0], target);
    TokenFoundAs(b, t, s, rest[0]);
    ShiftedCode(b, t, s, rest[0], target);
    GoesByShift(b.g, t, stack, rest);
  }

  /** The numbers of a shift, or of the reduce that it has become, are those of their tables' ranges. */
  lemma ShiftedCode(b: Built, t: Tables, s: nat, sp: nat, target: nat)
    requires Constructed(b) && Written(b, t) && s < |b.states| && Actions.ShiftsTo(b.g, b.states[s], sp, target)
    ensures |b.number| == |b.states| == |b.left| && ValidTables(b.g, t) && target < |b.states|
    ensures var k := Became(Shift(target), b.left);
            && 0 <= Code(b.number, t, k, true) <= t.MaxShiftReduce()
            && ShiftedState(t, Code(b.number, t, k, true)) == StateFor(b, t, k) >= 0
            && (b.left[target].None? ==> k == Shift(target) && b.number[target] <= t.maxShift)
            && (b.left[target].Some? ==> k == ShiftReduce(b.left[target].value) && k.rule < |b.g.rules|)
  {
    hide StatesFound, ActionsFound, Edge, TokensWritten, GotosWritten, Finished, Followed, UnitsRight, OnlyAnswer;
    WrittenFacts(b, t);
    ShiftIsEdge(b, s, sp, target);
    NumberBound(b, t, b.left, if b.left[target].None? then Shift(target) else Inactive);
    if b.left[target].Some? {
      var rule := b.left[target].value;
      LeftIs(b, target, rule);
      assert ActionsFound(b, target);
      LeftByLonger(b, target, rule);
    }
    hide ValidTables;
    TableOrder(b.g, t);
  }

  lemma TableOrder(g: Grammar, t: Tables)
    requires ValidTables(g, t)
    ensures t.maxShift < t.minShiftReduce && t.nRule == |g.rules|
  {
  }

  /** A reduce of the rule on top of the stack, down to a state the rule starts in. */
  lemma ReduceNow(b: Built, t: Tables, stack: seq<Entry>, rest: seq<nat>, r: nat, s: nat)
    requires Constructed(b) && Written(b, t) && r < |b.g.rules| && |b.g.rules[r].rhs| < |stack|
    requires OnTop(b, t, stack[..|stack| - |b.g.rules[r].rhs|], s) && Item(r, 0) in b.states[s].items
    requires rest != [] && rest[0] < b.g.nTerminals && ValidTables(b.g, t)
    requires FindShiftAction(b.g, t, TopOf(stack), rest[0]) == r + t.MinReduce()
    ensures s < |b.final|
    ensures var base, major := stack[..|stack| - |b.g.rules[r].rhs|], b.g.nTerminals + b.g.rules[r].lhs;
            var state := StateFor(b, t, Own(b.final[s], major));
            state >= 0 && Goes(b.g, t, stack, rest, base + [Entry(state, major)], rest)
  {
    hide Constructed, Written, Own, FindShiftAction, FindReduceAction, HasGoto, ValidTables;
    WrittenFacts(b, t);
    GotoEntry(b, t, s, r);
    GoesByReduce(b.g, t, stack, rest);
  }

  /** Where a rule is complete and the token can follow it, the rule is reduced. */
  lemma ReduceDue(b: Built, t: Tables, p: Actions.Precedences, follow: Pairs, s: nat, r: nat, token: nat)
    requires Setting(b, t, p, follow) && s < |b.states| && s < |b.number| && b.number[s] <= t.maxShift
    requires r < |b.g.rules| && token < b.g.nTerminals
    requires Links.Allowed(b.states, follow, s, Item(r, |b.g.rules[r].rhs|), token)
    ensures ValidTables(b.g, t) && FindShiftAction(b.g, t, b.number[s], token) == r + t.MinReduce()
  {
    hide Written, FromGrammar, ConflictFree, Own, FindShiftAction, Links.Allowed, ValidTables;
    ReduceWanted(b, follow, s, r, token);
    hide Constructed;
    ReduceBecame(b, p, follow, s, token, r);
    TokenFoundAs(b, t, s, token);
  }

  // ----- derivations taken apart -----

  lemma {:induction false} TerminalsAre(x: seq<nat>)
    ensures |Terminals(x)| == |x| && forall i :: 0 <= i < |x| ==> Terminals(x)[i] == Terminal(x[i])
  {
    if x != [] {
      TerminalsAre(x[..|x| - 1]);
    }
  }

  /** Two parts of a sequence of tokens are sequences of tokens. */
  lemma SplitTerminals(x: seq<nat>, w1: Form, w2: Form) returns (x1: seq<nat>, x2: seq<nat>)
    requires Terminals(x) == w1 + w2
    ensures x == x1 + x2 && Terminals(x1) == w1 && Terminals(x2) == w2
  {
    TerminalsAre(x);
    assert |x| == |w1| + |w2|;
    x1, x2 := x[..|w1|], x[|w1|..];
    TerminalsAre(x1);
    TerminalsAre(x2);
    forall i | 0 <= i < |w1|
      ensures Terminals(x1)[i] == w1[i]
    {
      assert (w1 + w2)[i] == w1[i];
    }
    forall i | 0 <= i < |w2|
      ensures Terminals(x2)[i] == w2[i]
    {
      assert (w1 + w2)[|w1| + i] == w2[i];
    }
  }

  /** Tokens derive from a nonterminal through one of its rules. */
  lemma FirstRule(g: Grammar, n: nat, a: nat, x: seq<nat>) returns (r: nat)
    requires DerivesIn(g, n, [Nonterminal(a)], Terminals(x))
    ensures n > 0 && r < |g.rules| && g.rules[r].lhs == a && DerivesIn(g, n - 1, g.rules[r].rhs, Terminals(x))
  {
    NotTokens(a, x);
    var y := [Nonterminal(a)];
    var z :| DerivesOnce(g, y, z) && DerivesIn(g, n - 1, z, Terminals(x));
    var i: nat, w: Form :| Rewrites(g, y, i, w, z);
    assert y[..0] + w + y[1..] == w;
    r :| 0 <= r < |g.rules| && g.rules[r] == Rule(a, w);
  }

  /** A token or a class derives one token, which is read as it. */
  lemma TokenDerived(g: Grammar, n: nat, s: Symbol, x: seq<nat>)
    requires !s.Nonterminal? && ValidSymbol(g, s) && DerivesIn(g, n, [s], Terminals(x))
    ensures |x| == 1 && x[0] < g.nTerminals && ReadAs(g, s, x[0])
  {
    TerminalsAre(x);
    if n == 0 {
      assert Terminals(x)[0] == Terminal(x[0]);
    } else {
      var y := [s];
      var z :| DerivesOnce(g, y, z) && DerivesIn(g, n - 1, z, Terminals(x));
      var i: nat, w: Form :| Rewrites(g, y, i, w, z);
      assert y[..0] + w + y[1..] == w;
      TokenStays(g, n - 1, w[0].index, Terminals(x));
    }
  }

  lemma NotTokens(a: nat, x: seq<nat>)
    ensures [Nonterminal(a)] != Terminals(x)
  {
    TerminalsAre(x);
  }

  lemma TokenStays(g: Grammar, n: nat, token: nat, w: Form)
    requires DerivesIn(g, n, [Terminal(token)], w)
    ensures w == [Terminal(token)] && n == 0
  {
    forall z
      ensures !DerivesOnce(g, [Terminal(token)], z)
    {
      forall i: nat, v: Form
        ensures !Rewrites(g, [Terminal(token)], i, v, z)
      {
      }
    }
  }

  // ----- what comes after a symbol -----

  /** Wherever a nonterminal is after the dot, its rules may be followed by what comes next. */
  lemma NextAllowed(b: Built, follow: Pairs, s: nat, i: Item, n: nat, y: seq<nat>, rest: seq<nat>, q: nat)
    requires StatesFound(b) && Links.FollowRight(b.g, b.states, follow) && s < |b.states| && i in b.states[s].items
    requires Asks(b.g, i, q) && DerivesIn(b.g, n, b.g.rules[i.rule].rhs[i.dot + 1..], Terminals(y)) && rest != []
    requires Links.Allowed(b.states, follow, s, i, rest[0])
    ensures Item(q, 0) in b.states[s].items && Links.Allowed(b.states, follow, s, Item(q, 0), (y + rest)[0])
  {
    hide Links.Allowed, Links.FollowRight, ExactFrom, Later;
    RulesIn(b, s, i, q);
    var x, z := Links.Config(s, i), Links.Config(s, Item(q, 0));
    assert Links.AsksFor(b.g, x, z);
    assert Derives(b.g, Links.Rest(b.g, i), Terminals(y));
    TerminalsAre(y);
    if y == [] {
      assert Links.MayEnd(b.g, x, z) && Links.LinksTo(b.g, b.states, x, z);
      Links.LinkAllows(b.g, b.states, follow, s, i, s, Item(q, 0), rest[0]);
    } else {
      assert Terminals(y) == [Terminal(y[0])] + Terminals(y)[1..];
      assert FirstSets.Begins(b.g, Links.Rest(b.g, i), y[0]);
      var k := Links.ItemIndex(b.states, s, i);
      assert Links.MayPrecede(b.g, Links.Config(s, b.states[s].items[k]), z, y[0]);
      Links.InitAllows(b.g, b.states, follow, s, Item(q, 0), y[0]);
    }
  }

  lemma RulesIn(b: Built, s: nat, i: Item, q: nat)
    requires StatesFound(b) && s < |b.states| && i in b.states[s].items && Asks(b.g, i, q)
    ensures Item(q, 0) in b.states[s].items
  {
    hide Increasing, DistinctItems, ExactFrom, Later;
    assert ValidState(b.g, b.states[s]);
    assert i in ItemSet(b.states[s].items) && Closed(b.g, ItemSet(b.states[s].items));
    assert Item(q, 0) in ItemSet(b.states[s].items);
  }

  /** Moving over a symbol does not change what can come after the rule. */
  lemma MovedAllowed(b: Built, follow: Pairs, s: nat, i: Item, target: nat, token: nat)
    requires StatesFound(b) && Links.FollowRight(b.g, b.states, follow) && s < |b.states| && i in b.states[s].items
    requires i.rule < |b.g.rules| && i.dot < |b.g.rules[i.rule].rhs| && target < |b.states|
    requires (b.g.rules[i.rule].rhs[i.dot], target) in b.states[s].shifts
    requires Item(i.rule, i.dot + 1) in b.states[target].items && Links.Allowed(b.states, follow, s, i, token)
    ensures Links.Allowed(b.states, follow, target, Item(i.rule, i.dot + 1), token)
  {
    hide Links.Allowed, Links.FollowRight, ExactFrom, Later, ValidStates;
    var x, z := Links.Config(s, i), Links.Config(target, Item(i.rule, i.dot + 1));
    assert Links.MovesTo(b.g, b.states, x, z) && Links.LinksTo(b.g, b.states, x, z);
    Links.LinkAllows(b.g, b.states, follow, s, i, target, Item(i.rule, i.dot + 1), token);
  }

  /** A state that is left at once has read the last symbol of the rule it is left by. */
  lemma LastSymbol(b: Built, t: Tables, p: Actions.Precedences, follow: Pairs, target: nat, i: Item, token: nat)
    requires Setting(b, t, p, follow) && 0 < target < |b.states| && target < |b.left| && b.left[target].Some?
    requires i in b.states[target].items && i.rule < |b.g.rules| && i.dot <= |b.g.rules[i.rule].rhs|
    requires token < b.g.nTerminals && Links.Allowed(b.states, follow, target, i, token)
    requires i.dot < |b.g.rules[i.rule].rhs| ==> Readable(b.g, b.g.rules[i.rule].rhs[i.dot])
    ensures i.dot == |b.g.rules[i.rule].rhs| && b.left[target] == Some(i.rule)
  {
    hide Written, FromGrammar, ConflictFree, Links.Allowed;
    var rule := b.left[target].value;
    if i.dot < |b.g.rules[i.rule].rhs| {
      var next := ShiftOver(b, target, i);
      var sp: nat :| ReadAs(b.g, b.g.rules[i.rule].rhs[i.dot], sp);
      hide Constructed;
      ShiftWanted(b, follow, target, b.g.rules[i.rule].rhs[i.dot], next, sp);
      LeftOnlyReduces(b, p, follow, target, rule, Action(sp, Shift(next)));
    } else {
      ReduceWanted(b, follow, target, i.rule, token);
      hide Constructed;
      LeftOnlyReduces(b, p, follow, target, rule, Action(token, Reduce(i.rule)));
    }
  }

  ghost predicate Readable(g: Grammar, x: Symbol) {
    exists sp: nat :: ReadAs(g, x, sp)
  }

  /** A symbol from which tokens are derived is read as something. */
  lemma ReadableFirst(g: Grammar, n: nat, v: Form, y: seq<nat>)
    requires v != [] && ValidSymbol(g, v[0]) && DerivesIn(g, n, v, Terminals(y))
    ensures Readable(g, v[0])
  {
    match v[0]
    case Terminal(k) => assert ReadAs(g, v[0], k);
    case Nonterminal(k) => assert ReadAs(g, v[0], g.nTerminals + k);
    case Class(_) =>
      assert v == [v[0]] + v[1..];
      var n1, n2, w1, w2 := SplitDerivation(g, n, [v[0]], v[1..], Terminals(y));
      var y1, y2 := SplitTerminals(y, w1, w2);
      TokenDerived(g, n1, v[0], y1);
  }

  // ----- gotos that skip rules -----

  lemma {:induction false} SameEnd(u: Units, ap: seq<Action>, n: nat, m: nat, k: Kind, e: Kind, f: Kind)
    requires Leads(u, ap, n, k, e) && Leads(u, ap, m, k, f)
    requires !Skips(u, u.nTerminals, e) && !Skips(u, u.nTerminals, f)
    ensures e == f
  {
    if n > 0 && m > 0 {
      SameEnd(u, ap, n - 1, m - 1, Own(ap, u.Goto(k.rule)), e, f);
    }
  }

  /** A goto for which a one-symbol rule is skipped is the goto of that rule's left-hand side. */
  lemma SkippedGoto(b: Built, p: Actions.Precedences, follow: Pairs, s: nat, sp: nat, r: nat)
    requires Constructed(b) && FromGrammar(b, p, follow) && s < |b.states| && sp >= b.g.nTerminals
    requires r < |b.g.rules| && |b.mid| == |b.final| == |b.states| && Own(b.mid[s], sp) == ShiftReduce(r)
    ensures var k := Own(b.final[s], sp);
            k == ShiftReduce(r)
            || (|b.g.rules[r].rhs| == 1 && k == Own(b.final[s], b.g.nTerminals + b.g.rules[r].lhs))
  {
    hide Links.FollowRight, StatesFound, Finished, LeftBy, Resolved, ActionsFound, Followed, Leads;
    MidOwn(b, s, sp);
    var u, mid, final := b.units, b.mid[s], b.final[s];
    FollowedOwn(u, mid, final, sp);
    assert UnitsRight(b) && Unskipped(u, final);
    hide Constructed, FromGrammar;
    var n: nat :| Leads(u, mid, n, ShiftReduce(r), Own(final, sp));
    FinalUnskipped(u, final, sp);
    LeadsUnfolds(u, mid, n, ShiftReduce(r), Own(final, sp));
    if n > 0 {
      var goto := u.Goto(r);
      FollowedOwn(u, mid, final, goto);
      FinalUnskipped(u, final, goto);
      var m: nat :| Leads(u, mid, m, Own(mid, goto), Own(final, goto));
      SameEnd(u, mid, n - 1, m, Own(mid, goto), Own(final, sp), Own(final, goto));
    }
  }

  lemma LeadsUnfolds(u: Units, ap: seq<Action>, n: nat, k: Kind, end: Kind)
    requires Leads(u, ap, n, k, end)
    ensures n == 0 ==> k == end
    ensures n > 0 ==> Skips(u, u.nTerminals, k) && !Own(ap, u.Goto(k.rule)).Inactive?
                      && Leads(u, ap, n - 1, Own(ap, u.Goto(k.rule)), end)
  {
  }

  lemma FinalUnskipped(u: Units, final: seq<Action>, sp: int)
    requires Unskipped(u, final) && sp >= u.nTerminals && !Own(final, sp).Inactive?
    ensures !Skips(u, u.nTerminals, Own(final, sp))
  {
    var i := OwnFound(final, sp);
  }

  // ----- reading what a symbol derives -----

  /** The rest of the input: tokens of the grammar, and there is always one to look at. */
  predicate Tokens(g: Grammar, rest: seq<nat>) {
    rest != [] && forall i :: 0 <= i < |rest| ==> rest[i] < g.nTerminals
  }

  function NumberOf(g: Grammar, x: Symbol, read: seq<nat>): nat {
    if x.Nonterminal? then g.nTerminals + x.index else if read == [] then 0 else read[0]
  }

  /** Whatever a symbol after a dot derives is read, and one entry for the symbol is put on the stack. */
  lemma {:induction false} Read(b: Built, t: Tables, p: Actions.Precedences, follow: Pairs, n: nat, stack: seq<Entry>,
                                s: nat, i: Item, x: seq<nat>, rest: seq<nat>) returns (e: Entry)
    requires Setting(b, t, p, follow) && OnTop(b, t, stack, s) && i in b.states[s].items
    requires i.rule < |b.g.rules| && i.dot < |b.g.rules[i.rule].rhs| && Tokens(b.g, rest) && Tokens(b.g, x + rest)
    requires DerivesIn(b.g, n, [b.g.rules[i.rule].rhs[i.dot]], Terminals(x))
    requires forall q: nat :: Asks(b.g, i, q) ==> Links.Allowed(b.states, follow, s, Item(q, 0), rest[0])
    ensures ValidTables(b.g, t) && Goes(b.g, t, stack, x + rest, stack + [e], rest)
    ensures SymbolEntry(b, t, s, b.g.rules[i.rule].rhs[i.dot], x, e)
    decreases n, 0, 0, 0
  {
    hide Setting, Constructed, Written, FromGrammar, Links.Allowed, Own, Goes, StateFor, StatesFound, DerivesIn,
         Terminals, ValidTables, ReadAs;
    var symbol := b.g.rules[i.rule].rhs[i.dot];
    SettingFacts(b, t, p, follow, s, i);
    if symbol.Nonterminal? {
      var r := FirstRule(b.g, n, symbol.index, x);
      RulesIn(b, s, i, r);
      assert stack[..|stack| - 0] == stack && b.g.rules[r].rhs[0..] == b.g.rules[r].rhs;
      e := ReadRest(b, t, p, follow, n - 1, stack, s, r, 0, s, x, rest);
    } else {
      TokenDerived(b.g, n, symbol, x);
      var target := ShiftOver(b, s, i);
      assert (x + rest)[0] == x[0] && (x + rest)[1..] == rest;
      ReadToken(b, t, p, follow, s, stack, x + rest, symbol, target);
      e := Entry(StateFor(b, t, Own(b.final[s], x[0])), x[0]);
    }
  }

  lemma SettingFacts(b: Built, t: Tables, p: Actions.Precedences, follow: Pairs, s: nat, i: Item)
    requires Setting(b, t, p, follow) && s < |b.states| && i in b.states[s].items
    ensures Constructed(b) && Written(b, t) && FromGrammar(b, p, follow)
    ensures StatesFound(b) && ValidGrammar(b.g) && ValidItem(b.g, i) && ValidTables(b.g, t)
    ensures |b.number| == |b.states| == |b.final| == |b.left| == |b.mid| == |b.was|
    ensures Links.FollowRight(b.g, b.states, follow)
    ensures i.dot < |b.g.rules[i.rule].rhs| ==> ValidSymbol(b.g, b.g.rules[i.rule].rhs[i.dot])
  {
    hide ConflictFree, Links.FollowRight;
    assert ValidState(b.g, b.states[s]) && ValidRule(b.g, b.g.rules[i.rule]);
  }

  /** The entry is for the symbol, which is read as its own number or as the one token `x`. */
  ghost predicate SymbolEntry(b: Built, t: Tables, s: nat, symbol: Symbol, x: seq<nat>, e: Entry) {
    && s < |b.final| && e.stateno == StateFor(b, t, Own(b.final[s], NumberOf(b.g, symbol, x)))
    && (!symbol.Nonterminal? ==> |x| == 1 && ReadAs(b.g, symbol, x[0]))
  }

  /** The driver has read `d` symbols of the rule since it was in the state `begun`. */
  ghost predicate InRule(b: Built, t: Tables, follow: Pairs, stack: seq<Entry>, s: nat, r: nat, d: nat, begun: nat,
                         token: nat) {
    && OnTop(b, t, stack, s) && r < |b.g.rules| && d <= |b.g.rules[r].rhs| && d < |stack|
    && Item(r, d) in b.states[s].items && Links.Allowed(b.states, follow, s, Item(r, d), token)
    && OnTop(b, t, stack[..|stack| - d], begun) && Item(r, 0) in b.states[begun].items && (d == 0 ==> s == begun)
  }

  /** The driver has an entry for the rule's left-hand side where it began to read the rule. */
  ghost predicate RuleRead(b: Built, t: Tables, stack: seq<Entry>, r: nat, base: seq<Entry>, begun: nat, y: seq<nat>,
                           rest: seq<nat>, e: Entry) {
    && ValidTables(b.g, t) && r < |b.g.rules| && begun < |b.final|
    && e.stateno == StateFor(b, t, Own(b.final[begun], b.g.nTerminals + b.g.rules[r].lhs))
    && Goes(b.g, t, stack, y + rest, base + [e], rest)
  }

  /** The rest of a rule is read and the rule reduced, down to the state it was begun in. */
  lemma {:induction false} ReadRest(b: Built, t: Tables, p: Actions.Precedences, follow: Pairs, n: nat,
                                    stack: seq<Entry>, s: nat, r: nat, d: nat, begun: nat, y: seq<nat>, rest: seq<nat>)
    returns (e: Entry)
    requires Setting(b, t, p, follow) && Tokens(b.g, rest) && Tokens(b.g, y + rest)
    requires InRule(b, t, follow, stack, s, r, d, begun, rest[0])
    requires DerivesIn(b.g, n, b.g.rules[r].rhs[d..], Terminals(y))
    ensures RuleRead(b, t, stack, r, stack[..|stack| - d], begun, y, rest, e)
    decreases n, 1, |b.g.rules[r].rhs| - d, 0
  {
    hide Setting, Constructed, Written, FromGrammar, Links.Allowed, Own, FindShiftAction, Goes, StateFor, StatesFound,
         DerivesIn, Terminals,
         ValidTables, ValidItem;
    var rhs := b.g.rules[r].rhs;
    SettingFacts(b, t, p, follow, s, Item(r, d));
    if d == |rhs| {
      e := ReadEnd(b, t, p, follow, n, stack, s, r, d, begun, y, rest);
    } else {
      assert rhs[d..] == [rhs[d]] + rhs[d + 1..];
      var n1, n2, w1, w2 := SplitDerivation(b.g, n, [rhs[d]], rhs[d + 1..], Terminals(y));
      var y1, y2 := SplitTerminals(y, w1, w2);
      assert y1 + (y2 + rest) == y + rest;
      TokensLeft(b.g, y1, y2 + rest);
      forall q: nat | Asks(b.g, Item(r, d), q)
        ensures Links.Allowed(b.states, follow, s, Item(q, 0), (y2 + rest)[0])
      {
        NextAllowed(b, follow, s, Item(r, d), n2, y2, rest, q);
      }
      var e1 := Read(b, t, p, follow, n1, stack, s, Item(r, d), y1, y2 + rest);
      e := ReadOn(b, t, p, follow, n2, stack, e1, s, r, d, begun, y1, y2, rest);
      GoesOn(b.g, t, stack, y + rest, stack + [e1], y2 + rest, stack[..|stack| - d] + [e], rest);
    }
  }

  lemma ReadEnd(b: Built, t: Tables, p: Actions.Precedences, follow: Pairs, n: nat, stack: seq<Entry>, s: nat, r: nat,
                d: nat, begun: nat, y: seq<nat>, rest: seq<nat>) returns (e: Entry)
    requires Setting(b, t, p, follow) && Tokens(b.g, rest) && InRule(b, t, follow, stack, s, r, d, begun, rest[0])
    requires d == |b.g.rules[r].rhs| && DerivesIn(b.g, n, b.g.rules[r].rhs[d..], Terminals(y))
    ensures RuleRead(b, t, stack, r, stack[..|stack| - d], begun, y, rest, e)
  {
    hide Setting, Constructed, Written, FromGrammar, Links.Allowed, Own, FindShiftAction, Goes, StateFor, StatesFound,
         DerivesIn, Terminals, ValidTables, ValidItem;
    SettingFacts(b, t, p, follow, s, Item(r, d));
    NothingDerived(b.g, n, b.g.rules[r].rhs[d..], y);
    assert y + rest == rest;
    ReduceDue(b, t, p, follow, s, r, rest[0]);
    ReduceNow(b, t, stack, rest, r, begun);
    var major := b.g.nTerminals + b.g.rules[r].lhs;
    e := Entry(StateFor(b, t, Own(b.final[begun], major)), major);
  }

  lemma NothingDerived(g: Grammar, n: nat, w: Form, y: seq<nat>)
    requires w == [] && DerivesIn(g, n, w, Terminals(y))
    ensures y == []
  {
    TerminalsAre(y);
    forall z
      ensures !DerivesOnce(g, w, z)
    {
    }
  }

  lemma TokensLeft(g: Grammar, x: seq<nat>, rest: seq<nat>)
    requires Tokens(g, x + rest) && rest != []
    ensures Tokens(g, rest)
  {
    assert forall i :: 0 <= i < |rest| ==> rest[i] == (x + rest)[|x| + i];
  }

  /** After one more symbol of a rule: its state has a row, or the rule is done. */
  lemma {:induction false} ReadOn(b: Built, t: Tables, p: Actions.Precedences, follow: Pairs, n: nat,
                                  stack: seq<Entry>, e1: Entry, s: nat, r: nat, d: nat, begun: nat, x: seq<nat>,
                                  y: seq<nat>, rest: seq<nat>)
    returns (e: Entry)
    requires Setting(b, t, p, follow) && Tokens(b.g, rest) && Tokens(b.g, y + rest)
    requires InRule(b, t, follow, stack, s, r, d, begun, rest[0]) && d < |b.g.rules[r].rhs|
    requires DerivesIn(b.g, n, b.g.rules[r].rhs[d + 1..], Terminals(y))
    requires SymbolEntry(b, t, s, b.g.rules[r].rhs[d], x, e1)
    ensures RuleRead(b, t, stack + [e1], r, stack[..|stack| - d], begun, y, rest, e)
    decreases n, 1, |b.g.rules[r].rhs| - d - 1, 1
  {
    hide Setting, Constructed, Written, FromGrammar, Links.Allowed, Own, FindShiftAction, NumberOf, ReadAs, Goes,
         StatesFound, DerivesIn, Terminals,
         ValidTables, ValidItem;
    var rhs, more := b.g.rules[r].rhs, stack + [e1];
    var i := Item(r, d);
    SettingFacts(b, t, p, follow, s, i);
    var target := ShiftOver(b, s, i);
    SettingFacts(b, t, p, follow, target, Item(r, d + 1));
    var sp := NumberOf(b.g, rhs[d], x);
    SymbolRead(b, t, p, follow, s, rhs[d], target, sp, x);
    MovedAllowed(b, follow, s, i, target, rest[0]);
    assert more[..|more| - (d + 1)] == stack[..|stack| - d];
    if b.left[target].None? {
      e := ReadRest(b, t, p, follow, n, more, target, r, d + 1, begun, y, rest);
    } else {
      if d + 1 < |rhs| {
        ReadableFirst(b.g, n, rhs[d + 1..], y);
      }
      LastSymbol(b, t, p, follow, target, Item(r, d + 1), rest[0]);
      NothingDerived(b.g, n, rhs[d + 1..], y);
      assert y + rest == rest;
      var major := b.g.nTerminals + b.g.rules[r].lhs;
      if e1.stateno == r + t.MinReduce() {
        PendingAction(b.g, t, e1.stateno, rest[0]);
        ReduceNow(b, t, more, rest, r, begun);
        e := Entry(StateFor(b, t, Own(b.final[begun], major)), major);
      } else {
        SkippedGoto(b, p, follow, s, sp, r);
        assert stack[..|stack| - d] == stack;
        GoesNowhere(b.g, t, more, rest);
        e := e1;
      }
    }
  }

  lemma PendingAction(g: Grammar, t: Tables, stateno: nat, token: nat)
    requires ValidTables(g, t) && token < g.nTerminals && stateno >= t.MinReduce()
    ensures FindShiftAction(g, t, stateno, token) == stateno
  {
  }

  /** The entry for a symbol that has been read is that of the state after it, or of what became of that state. */
  lemma SymbolRead(b: Built, t: Tables, p: Actions.Precedences, follow: Pairs, s: nat, symbol: Symbol, target: nat,
                   sp: nat, x: seq<nat>)
    requires Setting(b, t, p, follow) && s < |b.states| && (symbol, target) in b.states[s].shifts
             && ValidSymbol(b.g, symbol)
    requires sp == NumberOf(b.g, symbol, x) && (!symbol.Nonterminal? ==> |x| == 1 && ReadAs(b.g, symbol, x[0]))
    ensures |b.number| == |b.states| == |b.final| == |b.left| == |b.mid| && 0 < target < |b.states|
            && ReadAs(b.g, symbol, sp)
    ensures ValidTables(b.g, t)
    ensures b.left[target].None? ==>
              Own(b.final[s], sp) == Shift(target) && StateFor(b, t, Shift(target)) == b.number[target] <= t.maxShift
    ensures b.left[target].Some? ==> Own(b.mid[s], sp) == ShiftReduce(b.left[target].value)
    ensures b.left[target].Some? && sp < b.g.nTerminals ==> Own(b.final[s], sp) == ShiftReduce(b.left[target].value)
  {
    hide Written, FromGrammar, ConflictFree, Own;
    WrittenFacts(b, t);
    ShiftWanted(b, follow, s, symbol, target, sp);
    ShiftIsEdge(b, s, sp, target);
    hide Constructed;
    ShiftBecame(b, p, follow, s, sp, target);
    ShiftedCode(b, t, s, sp, target);
    if b.left[target].None? && sp >= b.g.nTerminals {
      var n: nat :| Leads(b.units, b.mid[s], n, Shift(target), Own(b.final[s], sp));
      LeadsUnfolds(b.units, b.mid[s], n, Shift(target), Own(b.final[s], sp));
    }
  }

  // ----- sentences -----

  const BOTTOM := Entry(0, 0)

  /** Before the end of input, a sentence leaves the accept action on the stack. */
  lemma SentenceRead(b: Built, t: Tables, p: Actions.Precedences, follow: Pairs, w: seq<nat>) returns (e: Entry)
    requires Setting(b, t, p, follow) && b.g.nTerminals > 0 && Tokens(b.g, w + [0])
    requires Derives(b.g, [Nonterminal(b.start)], Terminals(w))
    ensures ValidTables(b.g, t) && Goes(b.g, t, [BOTTOM], w + [0], [BOTTOM, e], [0]) && e.stateno == t.AcceptAction()
  {
    hide Setting, Constructed, Written, FromGrammar, Links.Allowed, Own, Goes, DerivesIn, Terminals, StatesFound;
    SettingHolds(b, t, p, follow);
    var n := SomeSteps(b.g, [Nonterminal(b.start)], Terminals(w));
    var r := FirstRule(b.g, n, b.start, w);
    FirstState(b, t, p, follow, r);
    assert b.g.rules[r].rhs[0..] == b.g.rules[r].rhs && [BOTTOM][..1 - 0] == [BOTTOM];
    e := ReadRest(b, t, p, follow, n - 1, [BOTTOM], 0, r, 0, 0, w, [0]);
    assert [BOTTOM] + [e] == [BOTTOM, e];
    AcceptGoto(b, t, p, follow);
  }

  lemma SomeSteps(g: Grammar, x: Form, y: Form) returns (n: nat)
    requires Derives(g, x, y)
    ensures DerivesIn(g, n, x, y)
  {
    n :| DerivesIn(g, n, x, y);
  }

  lemma SettingHolds(b: Built, t: Tables, p: Actions.Precedences, follow: Pairs)
    requires Setting(b, t, p, follow)
    ensures Constructed(b) && Written(b, t) && FromGrammar(b, p, follow) && StatesFound(b) && ValidTables(b.g, t)
  {
    hide FromGrammar, ConflictFree;
  }

  /** The first state begins every rule of the start symbol, and the end of input can come after it. */
  lemma FirstState(b: Built, t: Tables, p: Actions.Precedences, follow: Pairs, r: nat)
    requires Setting(b, t, p, follow) && r < |b.g.rules| && b.g.rules[r].lhs == b.start && b.g.nTerminals > 0
    ensures InRule(b, t, follow, [BOTTOM], 0, r, 0, 0, 0)
  {
    hide Written, FromGrammar, ConflictFree, Links.Allowed, IsClosure, Increasing, DistinctItems, ExactFrom, Later;
    assert Item(r, 0) in ItemSet(b.states[0].basis);
    BasisInItems(b, 0, Item(r, 0));
    StartAllowed(b, t, p, follow, r);
    WrittenFacts(b, t);
    assert b.sorted[b.number[0]] == 0 && b.number[b.sorted[0]] == 0;
    assert [BOTTOM][..1] == [BOTTOM];
  }

  lemma StartAllowed(b: Built, t: Tables, p: Actions.Precedences, follow: Pairs, r: nat)
    requires Setting(b, t, p, follow) && |b.states| > 0 && Item(r, 0) in b.states[0].basis
             && Item(r, 0) in b.states[0].items
    ensures Links.Allowed(b.states, follow, 0, Item(r, 0), 0)
  {
    hide ConflictFree, Links.Allowed, Links.FollowRight;
    assert Links.AtEnd(b.states, Links.Config(0, Item(r, 0)));
    Links.InitAllows(b.g, b.states, follow, 0, Item(r, 0), 0);
  }

  lemma AcceptGoto(b: Built, t: Tables, p: Actions.Precedences, follow: Pairs)
    requires Setting(b, t, p, follow)
    ensures |b.states| == |b.final| > 0 && Own(b.final[0], b.g.nTerminals + b.start) == Accept
  {
    hide Written, FromGrammar, ConflictFree, StatesFound, LeftBy, Leads;
    WrittenFacts(b, t);
    var sp := b.g.nTerminals + b.start;
    assert ActionsFound(b, 0) && Own(b.was[0], sp) == Accept;
    MidOwn(b, 0, sp);
    FollowedOwn(b.units, b.mid[0], b.final[0], sp);
    var n: nat :| Leads(b.units, b.mid[0], n, Own(b.mid[0], sp), Own(b.final[0], sp));
    LeadsUnfolds(b.units, b.mid[0], n, Own(b.mid[0], sp), Own(b.final[0], sp));
  }

  // ----- accepted, with enough room -----

  lemma {:induction false} ForcedFrom(g: Grammar, t: Tables, stack: seq<Entry>, token: nat, n: nat)
    requires ValidTables(g, t) && token < g.nTerminals && CanReduce(g, t, stack, token)
    ensures Forced(g, t, stack, token, n + 1) == Forced(g, t, AfterReduce(g, t, stack, token), token, n)
  {
    hide CanReduce, AfterReduce;
    if n > 0 {
      ForcedFrom(g, t, stack, token, n - 1);
    } else {
      assert Forced(g, t, stack, token, 0) == Some(stack);
    }
  }

  /** More room and more time do not change what a token does, if it did something. */
  lemma OutcomeLater(g: Grammar, t: Tables, depth: nat, stack: seq<Entry>, token: nat, limit: nat, status: Status,
                     after: seq<Entry>, depth2: nat, limit2: nat)
    requires ValidTables(g, t) && token < g.nTerminals && depth <= depth2 && limit <= limit2
    requires status == Shifted || status == Accepted || status == SyntaxError
    requires Outcome(g, t, depth, stack, token, limit, status, after)
    ensures Outcome(g, t, depth2, stack, token, limit2, status, after)
  {
    var n: nat, now :| OutcomeAt(g, t, depth, stack, token, limit, status, after, n, now);
    hide CanReduce, AfterReduce, Forced, FindShiftAction;
    assert OutcomeAt(g, t, depth2, stack, token, limit2, status, after, n, now);
  }

  /** One reduce before. */
  lemma OutcomeBefore(g: Grammar, t: Tables, depth: nat, stack: seq<Entry>, token: nat, limit: nat, status: Status,
                      after: seq<Entry>)
    requires ValidTables(g, t) && token < g.nTerminals && CanReduce(g, t, stack, token) && 0 < |stack| <= depth
    requires status == Shifted || status == Accepted
    requires Outcome(g, t, depth, AfterReduce(g, t, stack, token), token, limit, status, after)
    ensures Outcome(g, t, depth, stack, token, limit + 1, status, after)
  {
    var later := AfterReduce(g, t, stack, token);
    var n: nat, now :| OutcomeAt(g, t, depth, later, token, limit, status, after, n, now);
    hide CanReduce, AfterReduce, FindShiftAction;
    forall k | 0 <= k <= n + 1
      ensures Forced(g, t, stack, token, k).Some? && |Forced(g, t, stack, token, k).value| <= depth
    {
      if k > 0 {
        ForcedFrom(g, t, stack, token, k - 1);
        assert Forced(g, t, later, token, k - 1).Some?;
      }
    }
    ForcedFrom(g, t, stack, token, n);
    hide Forced;
    assert OutcomeAt(g, t, depth, stack, token, limit + 1, status, after, n + 1, now);
  }

  lemma {:induction false} AcceptedLater(g: Grammar, t: Tables, depth: nat, limit: nat, stack: seq<Entry>,
                                         tokens: seq<nat>, depth2: nat, limit2: nat)
    requires ValidTables(g, t) && g.nTerminals > 0 && (forall i :: 0 <= i < |tokens| ==> tokens[i] < g.nTerminals)
    requires AcceptedFrom(g, t, depth, limit, stack, tokens) && depth <= depth2 && limit <= limit2
    ensures AcceptedFrom(g, t, depth2, limit2, stack, tokens)
    decreases |tokens|
  {
    hide Outcome;
    if tokens == [] {
      var after :| Outcome(g, t, depth, stack, 0, limit, Accepted, after);
      OutcomeLater(g, t, depth, stack, 0, limit, Accepted, after, depth2, limit2);
    } else {
      var next :| Outcome(g, t, depth, stack, tokens[0], limit, Shifted, next)
        && AcceptedFrom(g, t, depth, limit, next, tokens[1..]);
      OutcomeLater(g, t, depth, stack, tokens[0], limit, Shifted, next, depth2, limit2);
      AcceptedLater(g, t, depth, limit, next, tokens[1..], depth2, limit2);
    }
  }

  /** Moves that end with the accept on top are those of an accepted input. */
  lemma {:induction false} MovesAccepted(g: Grammar, t: Tables, n: nat, stack: seq<Entry>, tokens: seq<nat>,
                                         last: seq<Entry>)
    requires ValidTables(g, t) && g.nTerminals > 0 && (forall i :: 0 <= i < |tokens| ==> tokens[i] < g.nTerminals)
    requires Moves(g, t, n, stack, tokens + [0], last, [0]) && last != [] && TopOf(last) == t.AcceptAction()
             && stack != []
    ensures AcceptedFrom(g, t, |stack| + n + 1, n + 1, stack, tokens)
    decreases n
  {
    hide CanReduce, AfterReduce, Outcome, FindShiftAction;
    var rest := tokens + [0];
    if n == 0 {
      assert tokens == [] by { assert |rest| == |tokens| + 1; }
      AcceptsNow(g, t, stack);
    } else if CanReduce(g, t, stack, rest[0]) {
      var later := AfterReduce(g, t, stack, rest[0]);
      ReducedSize(g, t, stack, rest[0]);
      MovesAccepted(g, t, n - 1, later, tokens, last);
      AcceptedLater(g, t, |later| + n, n, later, tokens, |stack| + n + 1, n);
      AcceptedBefore(g, t, |stack| + n + 1, n, stack, tokens);
    } else {
      EndStays(g, t, n, stack, tokens, last);
      var next := AfterShift(g, t, stack, rest[0]);
      assert rest[1..] == tokens[1..] + [0] && rest[0] == tokens[0];
      MovesAccepted(g, t, n - 1, next, tokens[1..], last);
      AcceptedLater(g, t, |next| + n, n, next, tokens[1..], |stack| + n + 1, n + 1);
      ShiftsNow(g, t, |stack| + n + 1, n + 1, stack, tokens[0]);
    }
  }

  lemma ReducedSize(g: Grammar, t: Tables, stack: seq<Entry>, token: nat)
    requires ValidTables(g, t) && token < g.nTerminals && CanReduce(g, t, stack, token)
    ensures 0 < |AfterReduce(g, t, stack, token)| <= |stack| + 1
  {
  }

  /** The end of input is not shifted on the way to an accept before it. */
  lemma EndStays(g: Grammar, t: Tables, n: nat, stack: seq<Entry>, tokens: seq<nat>, last: seq<Entry>)
    requires ValidTables(g, t) && n > 0 && Moves(g, t, n, stack, tokens + [0], last, [0])
    requires g.nTerminals > 0 && !CanReduce(g, t, stack, (tokens + [0])[0])
    ensures tokens != []
  {
    hide CanReduce, AfterReduce, FindShiftAction;
    var rest := tokens + [0];
    MovesShorten(g, t, n - 1, AfterShift(g, t, stack, rest[0]), rest[1..], last, [0]);
  }

  lemma {:induction false} MovesShorten(g: Grammar, t: Tables, n: nat, stack: seq<Entry>, rest: seq<nat>,
                                        later: seq<Entry>, left: seq<nat>)
    requires ValidTables(g, t) && Moves(g, t, n, stack, rest, later, left)
    ensures |left| <= |rest|
    decreases n
  {
    hide CanReduce, AfterReduce, CanShiftToken, AfterShift;
    if n > 0 {
      if CanReduce(g, t, stack, rest[0]) {
        MovesShorten(g, t, n - 1, AfterReduce(g, t, stack, rest[0]), rest, later, left);
      } else {
        MovesShorten(g, t, n - 1, AfterShift(g, t, stack, rest[0]), rest[1..], later, left);
      }
    }
  }

  lemma AcceptsNow(g: Grammar, t: Tables, stack: seq<Entry>)
    requires ValidTables(g, t) && g.nTerminals > 0 && stack != [] && TopOf(stack) == t.AcceptAction()
    ensures AcceptedFrom(g, t, |stack| + 1, 1, stack, [])
  {
    assert Forced(g, t, stack, 0, 0) == Some(stack);
    assert FindShiftAction(g, t, TopOf(stack), 0) == t.AcceptAction();
    assert OutcomeAt(g, t, |stack| + 1, stack, 0, 1, Accepted, stack[..|stack| - 1], 0, stack);
    assert Outcome(g, t, |stack| + 1, stack, 0, 1, Accepted, stack[..|stack| - 1]);
  }

  lemma AcceptedBefore(g: Grammar, t: Tables, depth: nat, limit: nat, stack: seq<Entry>, tokens: seq<nat>)
    requires ValidTables(g, t) && g.nTerminals > 0 && (forall i :: 0 <= i < |tokens| ==> tokens[i] < g.nTerminals)
    requires var token := (tokens + [0])[0];
             && CanReduce(g, t, stack, token) && 0 < |stack| <= depth
             && AcceptedFrom(g, t, depth, limit, AfterReduce(g, t, stack, token), tokens)
    ensures AcceptedFrom(g, t, depth, limit + 1, stack, tokens)
  {
    hide Outcome, CanReduce, AfterReduce;
    var token := (tokens + [0])[0];
    var later := AfterReduce(g, t, stack, token);
    if tokens == [] {
      var after :| Outcome(g, t, depth, later, 0, limit, Accepted, after);
      OutcomeBefore(g, t, depth, stack, 0, limit, Accepted, after);
    } else {
      var next :| Outcome(g, t, depth, later, tokens[0], limit, Shifted, next)
        && AcceptedFrom(g, t, depth, limit, next, tokens[1..]);
      OutcomeBefore(g, t, depth, stack, tokens[0], limit, Shifted, next);
      AcceptedLater(g, t, depth, limit, next, tokens[1..], depth, limit + 1);
    }
  }

  lemma ShiftsNow(g: Grammar, t: Tables, depth: nat, limit: nat, stack: seq<Entry>, token: nat)
    requires ValidTables(g, t) && token < g.nTerminals && stack != [] && CanShiftToken(g, t, stack, token)
    requires |stack| < depth && limit > 0
    ensures Outcome(g, t, depth, stack, token, limit, Shifted, AfterShift(g, t, stack, token))
  {
    assert Forced(g, t, stack, token, 0) == Some(stack);
    assert OutcomeAt(g, t, depth, stack, token, limit, Shifted, AfterShift(g, t, stack, token), 0, stack);
  }

  ghost predicate Sentence(g: Grammar, start: nat, w: seq<nat>) {
    Derives(g, [Nonterminal(start)], Terminals(w)) && forall i :: 0 <= i < |w| ==> w[i] < g.nTerminals
  }

  /** From this depth of the stack and number of reduces on, the driver accepts. */
  ghost predicate AcceptedWith(g: Grammar, t: Tables, w: seq<nat>, enough: nat) {
    && ValidTables(g, t) && g.nTerminals > 0 && (forall i :: 0 <= i < |w| ==> w[i] < g.nTerminals)
    && forall depth: nat, limit: nat :: depth >= enough && limit >= enough ==>
         AcceptedFrom(g, t, depth, limit, [BOTTOM], w)
  }

  ghost predicate AcceptedInRoom(g: Grammar, t: Tables, w: seq<nat>) {
    exists enough :: AcceptedWith(g, t, w, enough)
  }

  /**
    With a stack that is deep enough, and enough reduces allowed for each token, the driver
    accepts every sentence of a grammar without conflicts.
   */
  lemma SentenceAccepted(b: Built, t: Tables, p: Actions.Precedences, follow: Pairs, w: seq<nat>) returns (enough: nat)
    requires Setting(b, t, p, follow) && b.g.nTerminals > 0 && Sentence(b.g, b.start, w)
    ensures AcceptedWith(b.g, t, w, enough)
  {
    hide Setting, Moves, AcceptedFrom, Terminals;
    assert Tokens(b.g, w + [0]);
    var e := SentenceRead(b, t, p, follow, w);
    var n: nat :| Moves(b.g, t, n, [BOTTOM], w + [0], [BOTTOM, e], [0]);
    MovesAccepted(b.g, t, n, [BOTTOM], w, [BOTTOM, e]);
    enough := n + 2;
    forall depth: nat, limit: nat | depth >= enough && limit >= enough
      ensures AcceptedFrom(b.g, t, depth, limit, [BOTTOM], w)
    {
      AcceptedLater(b.g, t, 1 + n + 1, n + 1, [BOTTOM], w, depth, limit);
    }
  }

  // ----- with any stack -----

  /** What is accepted with enough room is not refused with less: the driver overflows, or goes on reducing. */
  lemma {:induction false} NotRefused(g: Grammar, t: Tables, depth: nat, limit: nat, stack: seq<Entry>, w: seq<nat>,
                                      at: nat, status: Status, depth2: nat, limit2: nat)
    requires ValidTables(g, t) && g.nTerminals > 0 && (forall i :: 0 <= i < |w| ==> w[i] < g.nTerminals)
    requires depth <= depth2 && limit <= limit2 && AcceptedFrom(g, t, depth2, limit2, stack, w)
    requires StopsAt(g, t, depth, limit, stack, w + [0], at, status)
    ensures (status == Accepted && at == |w|) || status == Overflowed || status == StillReducing
    decreases |w|
  {
    hide Outcome;
    var input := w + [0];
    if at == 0 {
      var after :| Outcome(g, t, depth, stack, input[0], limit, status, after);
      if status != Overflowed && status != StillReducing {
        OutcomeLater(g, t, depth, stack, input[0], limit, status, after, depth2, limit2);
        FirstOutcome(g, t, depth2, limit2, stack, w, status, after);
      }
    } else {
      var next :| Outcome(g, t, depth, stack, input[0], limit, Shifted, next)
        && StopsAt(g, t, depth, limit, next, input[1..], at - 1, status);
      OutcomeLater(g, t, depth, stack, input[0], limit, Shifted, next, depth2, limit2);
      FirstOutcome(g, t, depth2, limit2, stack, w, Shifted, next);
      assert input[1..] == w[1..] + [0];
      NotRefused(g, t, depth, limit, next, w[1..], at - 1, status, depth2, limit2);
    }
  }

  lemma FirstOutcome(g: Grammar, t: Tables, depth: nat, limit: nat, stack: seq<Entry>, w: seq<nat>, status: Status,
                     after: seq<Entry>)
    requires ValidTables(g, t) && g.nTerminals > 0 && (forall i :: 0 <= i < |w| ==> w[i] < g.nTerminals)
    requires AcceptedFrom(g, t, depth, limit, stack, w)
    requires Outcome(g, t, depth, stack, (w + [0])[0], limit, status, after)
    ensures w == [] ==> status == Accepted
    ensures w != [] ==> status == Shifted && AcceptedFrom(g, t, depth, limit, after, w[1..])
  {
    hide Outcome, AcceptedFrom;
    if w == [] {
      AcceptedEnd(g, t, depth, limit, stack, status, after);
    } else {
      AcceptedStep(g, t, depth, limit, stack, w, status, after);
    }
  }

  /** No state has two things to do on one symbol, with the follow sets that come along its links. */
  ghost predicate Unconflicted(b: Built) {
    forall follow :: Links.FollowRight(b.g, b.states, follow) ==> ConflictFree(b, follow)
  }

  lemma FreeIsLalr1(b: Built, follow: Pairs)
    requires StatesFound(b) && Links.FollowRight(b.g, b.states, follow)
    ensures ConflictFree(b, follow) <==> Lalr.IsLalr1(b.g, b.start, b.states)
  {
    forall s: nat, e | s < |b.states|
      ensures Wants(b, follow, s, e) <==> Lalr.Due(b.g, b.start, b.states, s, e)
    {
      Lalr.WantedExact(b.g, b.start, b.states, follow, s, e);
    }
    hide StatesFound, Links.FollowRight, Wants, Lalr.Due;
  }

  /** There are no conflicts exactly if the grammar is LALR(1). */
  lemma UnconflictedIsLalr1(b: Built, p: Actions.Precedences)
    requires Constructed(b) && Resolves(b, p)
    ensures Unconflicted(b) <==> Lalr.IsLalr1(b.g, b.start, b.states)
  {
    hide StatesFound, Links.FollowRight, ConflictFree, Lalr.IsLalr1;
    var follow :| FromGrammar(b, p, follow);
    FreeIsLalr1(b, follow);
    forall other | Links.FollowRight(b.g, b.states, other)
      ensures ConflictFree(b, other) <==> Lalr.IsLalr1(b.g, b.start, b.states)
    {
      FreeIsLalr1(b, other);
    }
  }

  /**
    However small the stack and the limit are: a sentence of a grammar without conflicts is
    accepted at its end, unless the stack overflows or the reduces do not end in time.
   */
  lemma SentenceNotRefused(b: Built, t: Tables, p: Actions.Precedences, follow: Pairs, w: seq<nat>, depth: nat,
                           limit: nat, at: nat, status: Status)
    requires Constructed(b) && Written(b, t) && FromGrammar(b, p, follow) && Unconflicted(b) && b.g.nTerminals > 0
    requires Sentence(b.g, b.start, w) && ValidTables(b.g, t)
    requires StopsAt(b.g, t, depth, limit, [BOTTOM], w + [0], at, status)
    ensures (status == Accepted && at == |w|) || status == Overflowed || status == StillReducing
  {
    assert Links.FollowRight(b.g, b.states, follow);
    hide Constructed, Written, ConflictFree, FromGrammar, AcceptedFrom, StopsAt, Terminals;
    var enough := SentenceAccepted(b, t, p, follow, w);
    var room := enough + depth + limit;
    NotRefused(b.g, t, depth, limit, [BOTTOM], w, at, status, room, room);
  }

  /** Both for every sentence, and for an input that is one. */
  lemma SentencesAccepted(b: Built, t: Tables, p: Actions.Precedences, depth: nat, limit: nat, input: seq<nat>,
                          at: nat, status: Status)
    requires Constructed(b) && Written(b, t) && Resolves(b, p) && Unconflicted(b) && b.g.nTerminals > 0
    requires ValidTables(b.g, t) && (forall i :: 0 <= i < |input| ==> input[i] < b.g.nTerminals)
    requires StopsAt(b.g, t, depth, limit, [BOTTOM], input, at, status)
    ensures forall w :: Sentence(b.g, b.start, w) && input == w + [0] ==>
              (status == Accepted && at == |w|) || status == Overflowed || status == StillReducing
    ensures forall w :: Sentence(b.g, b.start, w) ==> AcceptedInRoom(b.g, t, w)
  {
    hide Constructed, Written, Sentence, StopsAt, AcceptedWith, ConflictFree, Links.FollowRight;
    var follow := TheFollow(b, p);
    forall w | Sentence(b.g, b.start, w)
      ensures AcceptedInRoom(b.g, t, w)
      ensures input == w + [0] ==>
                (status == Accepted && at == |w|) || status == Overflowed || status == StillReducing
    {
      var enough := SentenceAccepted(b, t, p, follow, w);
      if input == w + [0] {
        SentenceNotRefused(b, t, p, follow, w, depth, limit, at, status);
      }
    }
  }

  lemma TheFollow(b: Built, p: Actions.Precedences) returns (follow: Pairs)
    requires Resolves(b, p) && Unconflicted(b)
    ensures FromGrammar(b, p, follow) && ConflictFree(b, follow)
  {
    hide ConflictFree, Links.FollowRight;
    follow :| FromGrammar(b, p, follow);
  }
}
