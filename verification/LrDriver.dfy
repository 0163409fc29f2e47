/**
  The shift-reduce driver. Its tables are only assumed to agree with the LR(0)
  configurations of each state; then the stack always spells symbols that derive the
  tokens shifted so far, every reduce finds its rule on top, and what is accepted is
  derived from the start symbol.
 */
module LrDriver {
  import opened Options
  import opened Grammars

  /** A rule with a dot in front of `rhs[dot]`. */
  datatype Item = Item(rule: nat, dot: nat)

  /** The configurations of each state; state 0 is the first. */
  datatype Automaton = Automaton(items: seq<set<Item>>, start: nat)

  /**
    The generated tables. Actions are numbered: shifts, then shift-reduces, then error,
    accept and no-action, then reduces.
   */
  datatype Tables = Tables(
    maxShift: nat, minShiftReduce: nat, nRule: nat,
    shiftOfst: seq<int>, reduceOfst: seq<int>, lookahead: seq<nat>, action: seq<nat>, deflt: seq<nat>)
  {
    function MaxShiftReduce(): int { minShiftReduce + nRule - 1 }
    function ErrorAction(): nat { minShiftReduce + nRule }
    function AcceptAction(): nat { minShiftReduce + nRule + 1 }
    function MinReduce(): nat { minShiftReduce + nRule + 3 }
  }

  predicate ValidTables(g: Grammar, t: Tables) {
    && t.maxShift < t.minShiftReduce && t.nRule == |g.rules|
    && |t.shiftOfst| > t.maxShift && |t.deflt| > t.maxShift
    && |t.action| <= |t.lookahead|
    && (forall s :: 0 <= s <= t.maxShift ==> t.shiftOfst[s] >= 0)
    && (forall i :: |t.action| <= i < |t.lookahead| ==> t.lookahead[i] >= g.nTerminals)
  }

  function FindShiftAction(g: Grammar, t: Tables, stateno: nat, token: nat): nat
    requires ValidTables(g, t) && token < g.nTerminals
  {
    if stateno > t.maxShift then stateno
    else
      var i := t.shiftOfst[stateno] + token;
      if i >= |t.lookahead| || t.lookahead[i] != token then t.deflt[stateno] else t.action[i]
  }

  /** The entry a goto must find: present, and for this very symbol. Trailing states without gotos have no offset. */
  predicate HasGoto(g: Grammar, t: Tables, stateno: nat, major: nat)
    requires ValidTables(g, t) && stateno <= t.maxShift
  {
    stateno < |t.reduceOfst| &&
    var i := t.reduceOfst[stateno] + major;
    0 <= i < |t.action| && t.lookahead[i] == major
  }

  function FindReduceAction(g: Grammar, t: Tables, stateno: nat, major: nat): nat
    requires ValidTables(g, t) && stateno <= t.maxShift && HasGoto(g, t, stateno, major)
  {
    t.action[t.reduceOfst[stateno] + major]
  }

  // ----- tables that agree with the automaton -----

  /**
    A symbol on the stack stands for a symbol of a rule that derives it: itself, a token of
    a class, or what the generator skipped a chain of one-symbol rules for.
   */
  ghost predicate Matches(g: Grammar, s: Symbol, x: Symbol) {
    Derives(g, [s], [x])
  }

  predicate HasItem(a: Automaton, s: nat, i: Item) {
    s < |a.items| && i in a.items[s]
  }

  /** Whatever the target has begun to recognise, the source had recognised one symbol less of. */
  ghost predicate Edge(g: Grammar, a: Automaton, s: nat, x: Symbol, target: nat) {
    && s < |a.items| && 0 < target < |a.items|
    && forall i :: i in a.items[target] && i.dot > 0 ==>
         && i.rule < |g.rules| && i.dot <= |g.rules[i.rule].rhs|
         && Matches(g, g.rules[i.rule].rhs[i.dot - 1], x) && Item(i.rule, i.dot - 1) in a.items[s]
  }

  predicate Complete(g: Grammar, a: Automaton, s: nat, rule: nat) {
    rule < |g.rules| && HasItem(a, s, Item(rule, |g.rules[rule].rhs|))
  }

  /** After `x` the rule is complete. */
  ghost predicate CompleteAfter(g: Grammar, a: Automaton, s: nat, x: Symbol, rule: nat) {
    && rule < |g.rules| && g.rules[rule].rhs != []
    && var rhs := g.rules[rule].rhs;
       HasItem(a, s, Item(rule, |rhs| - 1)) && Matches(g, rhs[|rhs| - 1], x)
  }

  ghost predicate ShiftAgrees(g: Grammar, a: Automaton, t: Tables, s: nat, token: nat, act: nat) {
    if act <= t.maxShift then Edge(g, a, s, Terminal(token), act)
    else if t.minShiftReduce <= act <= t.MaxShiftReduce()
      then CompleteAfter(g, a, s, Terminal(token), act - t.minShiftReduce)
    else if act >= t.MinReduce() then Complete(g, a, s, act - t.MinReduce())
    else act == t.ErrorAction()
  }

  ghost predicate GotoAgrees(g: Grammar, a: Automaton, t: Tables, s: nat, lhs: nat, act: nat) {
    if act <= t.maxShift then Edge(g, a, s, Nonterminal(lhs), act)
    else if act >= t.MinReduce() then CompleteAfter(g, a, s, Nonterminal(lhs), act - t.MinReduce())
    else act == t.AcceptAction() && s == 0 && lhs == a.start
  }

  ghost predicate Agrees(g: Grammar, a: Automaton, t: Tables) {
    && ValidGrammar(g) && ValidTables(g, t) && |a.items| > t.maxShift
    && (forall i :: i in a.items[0] ==> i.dot == 0)
    && (forall s: nat, token: nat {:trigger FindShiftAction(g, t, s, token)} ::
        s <= t.maxShift && token < g.nTerminals ==>
          ShiftAgrees(g, a, t, s, token, FindShiftAction(g, t, s, token)))
    && (forall s: nat, r: nat {:trigger Item(r, 0) in a.items[s]} ::
        s <= t.maxShift && r < |g.rules| && Item(r, 0) in a.items[s] ==>
          var major := g.nTerminals + g.rules[r].lhs;
          HasGoto(g, t, s, major) && GotoAgrees(g, a, t, s, g.rules[r].lhs, FindReduceAction(g, t, s, major)))
  }

  // ----- what the stack means -----

  datatype Entry = Entry(stateno: nat, major: nat)

  function SymbolOf(g: Grammar, major: nat): Symbol {
    if major < g.nTerminals then Terminal(major) else Nonterminal(major - g.nTerminals)
  }

  function Flatten(spans: seq<Form>): Form {
    if spans == [] then [] else Flatten(spans[..|spans| - 1]) + spans[|spans| - 1]
  }

  /** The entry below has the state that this one was reached from. */
  ghost predicate Linked(g: Grammar, a: Automaton, t: Tables, stack: seq<Entry>, i: nat) {
    && 0 < i < |stack| && stack[i].stateno <= t.maxShift
    && Edge(g, a, stack[i - 1].stateno, SymbolOf(g, stack[i].major), stack[i].stateno)
  }

  /** The rule the top entry can be reduced by at once: the second half of a shift-reduce or of a goto. */
  ghost predicate PendingTop(g: Grammar, a: Automaton, t: Tables, stack: seq<Entry>) {
    && |stack| > 1
    && var top := stack[|stack| - 1];
       top.stateno >= t.MinReduce()
         && CompleteAfter(g, a, stack[|stack| - 2].stateno, SymbolOf(g, top.major), top.stateno - t.MinReduce())
  }

  predicate AcceptTop(g: Grammar, a: Automaton, t: Tables, stack: seq<Entry>) {
    |stack| == 2 && stack[1].stateno == t.AcceptAction() && SymbolOf(g, stack[1].major) == Nonterminal(a.start)
  }

  ghost predicate TopFits(g: Grammar, a: Automaton, t: Tables, stack: seq<Entry>) {
    |stack| <= 1 || Linked(g, a, t, stack, |stack| - 1) || PendingTop(g, a, t, stack) || AcceptTop(g, a, t, stack)
  }

  /** Entry i's symbol derives `spans[i]`; entry 0 is the bottom of the stack. */
  ghost predicate Viable(g: Grammar, a: Automaton, t: Tables, stack: seq<Entry>, spans: seq<Form>) {
    && |stack| == |spans| > 0 && stack[0].stateno == 0 && spans[0] == []
    && (forall i :: 0 < i < |stack| - 1 ==> Linked(g, a, t, stack, i))
    && (forall i :: 0 < i < |stack| ==> Derives(g, [SymbolOf(g, stack[i].major)], spans[i]))
    && TopFits(g, a, t, stack)
  }

  function Symbols(g: Grammar, stack: seq<Entry>): (x: Form)
    ensures |x| == |stack|
    ensures forall i :: 0 <= i < |stack| ==> x[i] == SymbolOf(g, stack[i].major)
  {
    if stack == [] then [] else Symbols(g, stack[..|stack| - 1]) + [SymbolOf(g, stack[|stack| - 1].major)]
  }

  ghost predicate AllMatch(g: Grammar, rhs: Form, x: Form) {
    |rhs| == |x| && forall i :: 0 <= i < |rhs| ==> Matches(g, rhs[i], x[i])
  }

  /** The states along the stack have recognised exactly the symbols on it. */
  lemma {:induction false} PathSpells(g: Grammar, a: Automaton, t: Tables, stack: seq<Entry>, k: nat, i: Item)
    requires k < |stack| && stack[0].stateno == 0 && |a.items| > 0 && (forall j :: j in a.items[0] ==> j.dot == 0)
    requires forall j :: 0 < j <= k ==> Linked(g, a, t, stack, j)
    requires HasItem(a, stack[k].stateno, i) && i.rule < |g.rules| && i.dot <= |g.rules[i.rule].rhs|
    ensures i.dot <= k && HasItem(a, stack[k - i.dot].stateno, Item(i.rule, 0))
    ensures AllMatch(g, g.rules[i.rule].rhs[..i.dot], Symbols(g, stack)[k + 1 - i.dot..k + 1])
    decreases i.dot
  {
    if i.dot > 0 {
      assert k > 0;
      assert Linked(g, a, t, stack, k);
      PathSpells(g, a, t, stack, k - 1, Item(i.rule, i.dot - 1));
      OneMoreMatches(g, g.rules[i.rule].rhs, Symbols(g, stack), i.dot, k);
    }
  }

  lemma OneMoreMatches(g: Grammar, rhs: Form, x: Form, n: nat, k: nat)
    requires 0 < n <= |rhs| && n - 1 <= k < |x|
    requires AllMatch(g, rhs[..n - 1], x[k + 1 - n..k]) && Matches(g, rhs[n - 1], x[k])
    ensures AllMatch(g, rhs[..n], x[k + 1 - n..k + 1])
  {
    var before, after := x[k + 1 - n..k], x[k + 1 - n..k + 1];
    forall j | 0 <= j < n
      ensures Matches(g, rhs[..n][j], after[j])
    {
      if j < n - 1 {
        assert Matches(g, rhs[..n - 1][j], before[j]);
      }
    }
  }

  lemma {:induction false} MatchDerives(g: Grammar, rhs: Form, x: Form)
    requires AllMatch(g, rhs, x)
    ensures Derives(g, rhs, x)
  {
    if rhs == [] {
      DerivesItself(g, rhs);
    } else {
      MatchDerives(g, rhs[1..], x[1..]);
      assert Matches(g, rhs[0], x[0]);
      DerivesBoth(g, [rhs[0]], [x[0]], rhs[1..], x[1..]);
      assert [rhs[0]] + rhs[1..] == rhs && [x[0]] + x[1..] == x;
    }
  }

  lemma {:induction false} FlattenSplit(spans: seq<Form>, n: nat)
    requires n <= |spans|
    ensures Flatten(spans) == Flatten(spans[..n]) + Flatten(spans[n..])
    decreases |spans|
  {
    if n == |spans| {
      assert spans[..n] == spans && spans[n..] == [];
    } else {
      var m := |spans| - 1;
      FlattenSplit(spans[..m], n);
      assert spans[..m][..n] == spans[..n] && spans[..m][n..] == spans[n..][..m - n];
      assert spans[n..][m - n] == spans[m];
    }
  }

  lemma {:induction false} SymbolsDerive(g: Grammar, stack: seq<Entry>, spans: seq<Form>)
    requires |stack| == |spans| && forall i :: 0 <= i < |stack| ==> Derives(g, [SymbolOf(g, stack[i].major)], spans[i])
    ensures Derives(g, Symbols(g, stack), Flatten(spans))
  {
    if stack == [] {
      DerivesItself(g, []);
    } else {
      var m := |stack| - 1;
      SymbolsDerive(g, stack[..m], spans[..m]);
      DerivesBoth(g, Symbols(g, stack[..m]), Flatten(spans[..m]), [SymbolOf(g, stack[m].major)], spans[m]);
    }
  }

  /** The right-hand side on top of the stack, reduced to its left-hand side. */
  ghost predicate Reduces(g: Grammar, a: Automaton, t: Tables, stack: seq<Entry>, rule: nat) {
    && rule < |g.rules| && |g.rules[rule].rhs| < |stack|
    && var n := |stack| - |g.rules[rule].rhs|;
    && AllMatch(g, g.rules[rule].rhs, Symbols(g, stack)[n..])
    && stack[n - 1].stateno <= t.maxShift && HasItem(a, stack[n - 1].stateno, Item(rule, 0))
  }

  /** A reduce the tables ask for finds its right-hand side on top, pending or not. */
  lemma ReduceFindsRule(g: Grammar, a: Automaton, t: Tables, stack: seq<Entry>, spans: seq<Form>, rule: nat)
    requires Agrees(g, a, t) && Viable(g, a, t, stack, spans)
    requires var top := stack[|stack| - 1].stateno;
             if top <= t.maxShift then Complete(g, a, top, rule) else top == t.MinReduce() + rule
    ensures Reduces(g, a, t, stack, rule)
  {
    hide Agrees, Edge, Symbols, Derives, AllMatch, Viable;
    var k := |stack| - 1;
    StatesBelow(g, a, t, stack, spans);
    if stack[k].stateno <= t.maxShift {
      PathSpells(g, a, t, stack, k, Item(rule, |g.rules[rule].rhs|));
      WholeMatch(g, g.rules[rule].rhs, Symbols(g, stack));
    } else {
      var rhs := g.rules[rule].rhs;
      PathSpells(g, a, t, stack, k - 1, Item(rule, |rhs| - 1));
      MatchExtended(g, rhs, Symbols(g, stack));
    }
  }

  lemma WholeMatch(g: Grammar, rhs: Form, x: Form)
    requires |rhs| <= |x| && AllMatch(g, rhs[..|rhs|], x[|x| - |rhs|..|x|])
    ensures AllMatch(g, rhs, x[|x| - |rhs|..])
  {
    assert rhs[..|rhs|] == rhs && x[|x| - |rhs|..|x|] == x[|x| - |rhs|..];
  }

  lemma MatchExtended(g: Grammar, rhs: Form, x: Form)
    requires 0 < |rhs| <= |x| && AllMatch(g, rhs[..|rhs| - 1], x[|x| - |rhs|..|x| - 1])
             && Matches(g, rhs[|rhs| - 1], x[|x| - 1])
    ensures AllMatch(g, rhs, x[|x| - |rhs|..])
  {
    var n := |rhs| - 1;
    forall i | 0 <= i < |rhs|
      ensures Matches(g, rhs[i], x[|x| - |rhs|..][i])
    {
      assert i < n ==> Matches(g, rhs[..n][i], x[|x| - |rhs|..|x| - 1][i]);
    }
  }

  lemma StatesBelow(g: Grammar, a: Automaton, t: Tables, stack: seq<Entry>, spans: seq<Form>)
    requires Agrees(g, a, t) && Viable(g, a, t, stack, spans)
    ensures |stack| > 0 && forall i :: 0 <= i < |stack| - 1 ==> stack[i].stateno <= t.maxShift
    ensures |a.items| > 0 && (forall j :: j in a.items[0] ==> j.dot == 0)
    ensures ValidTables(g, t) && |stack| == |spans| > 0 && stack[0].stateno == 0
    ensures forall i :: 0 < i < |stack| - 1 ==> Linked(g, a, t, stack, i)
    ensures stack[|stack| - 1].stateno <= t.maxShift ==> forall i :: 0 < i < |stack| ==> Linked(g, a, t, stack, i)
    ensures stack[|stack| - 1].stateno >= t.MinReduce() ==> PendingTop(g, a, t, stack)
  {
    forall i | 0 <= i < |stack| - 1
      ensures stack[i].stateno <= t.maxShift
    {
      assert i > 0 ==> Linked(g, a, t, stack, i);
    }
  }

  // ----- the two moves -----

  /** A shift-reduce is stored as the reduce it will be followed by. */
  function ShiftedState(t: Tables, act: nat): int {
    if act > t.maxShift then act + t.MinReduce() - t.minShiftReduce else act
  }

  lemma ShiftKeepsViable(g: Grammar, a: Automaton, t: Tables, stack: seq<Entry>, spans: seq<Form>, token: nat)
    requires Agrees(g, a, t) && Viable(g, a, t, stack, spans) && token < g.nTerminals
    requires stack[|stack| - 1].stateno <= t.maxShift
    requires FindShiftAction(g, t, stack[|stack| - 1].stateno, token) <= t.MaxShiftReduce()
    ensures var next := ShiftedState(t, FindShiftAction(g, t, stack[|stack| - 1].stateno, token));
            next >= 0 && Viable(g, a, t, stack + [Entry(next, token)], spans + [[Terminal(token)]])
    ensures Flatten(spans + [[Terminal(token)]]) == Flatten(spans) + [Terminal(token)]
  {
    var s := stack[|stack| - 1].stateno;
    StatesBelow(g, a, t, stack, spans);
    var act := FindShiftAction(g, t, s, token);
    assert ShiftAgrees(g, a, t, s, token, act);
    hide Agrees, Edge, FindShiftAction;
    var next := ShiftedState(t, act);
    var later := stack + [Entry(next, token)];
    DerivesItself(g, [Terminal(token)]);
    assert (spans + [[Terminal(token)]])[..|spans|] == spans;
    assert act <= t.maxShift ==> Linked(g, a, t, later, |stack|);
    assert act > t.maxShift ==> PendingTop(g, a, t, later);
    forall i | 0 < i < |later| - 1
      ensures Linked(g, a, t, later, i)
    {
      assert Linked(g, a, t, stack, i);
    }
  }

  function Reduced(g: Grammar, stack: seq<Entry>, rule: nat, act: nat): seq<Entry>
    requires rule < |g.rules| && |g.rules[rule].rhs| < |stack|
  {
    stack[..|stack| - |g.rules[rule].rhs|] + [Entry(act, g.nTerminals + g.rules[rule].lhs)]
  }

  function Merged(spans: seq<Form>, n: nat): seq<Form>
    requires n <= |spans|
  {
    spans[..n] + [Flatten(spans[n..])]
  }

  lemma ReduceKeepsViable(g: Grammar, a: Automaton, t: Tables, stack: seq<Entry>, spans: seq<Form>, rule: nat)
    requires Agrees(g, a, t) && Viable(g, a, t, stack, spans) && Reduces(g, a, t, stack, rule)
    ensures var n, major := |stack| - |g.rules[rule].rhs|, g.nTerminals + g.rules[rule].lhs;
            && HasGoto(g, t, stack[n - 1].stateno, major)
            && Viable(g, a, t, Reduced(g, stack, rule, FindReduceAction(g, t, stack[n - 1].stateno, major)),
                      Merged(spans, n))
            && Flatten(Merged(spans, n)) == Flatten(spans)
  {
    hide Viable, AllMatch, Symbols, Edge;
    StatesBelow(g, a, t, stack, spans);
    var n := |stack| - |g.rules[rule].rhs|;
    var below := stack[n - 1].stateno;
    assert Item(rule, 0) in a.items[below];
    var act := FindReduceAction(g, t, below, g.nTerminals + g.rules[rule].lhs);
    assert GotoAgrees(g, a, t, below, g.rules[rule].lhs, act);
    hide Agrees, FindReduceAction, HasGoto;
    FlattenSplit(spans, n);
    GotoKeepsViable(g, a, t, stack, spans, rule, act);
  }

  lemma GotoKeepsViable(g: Grammar, a: Automaton, t: Tables, stack: seq<Entry>, spans: seq<Form>, rule: nat, act: nat)
    requires Agrees(g, a, t) && Viable(g, a, t, stack, spans) && Reduces(g, a, t, stack, rule)
    requires GotoAgrees(g, a, t, stack[|stack| - |g.rules[rule].rhs| - 1].stateno, g.rules[rule].lhs, act)
    ensures Viable(g, a, t, Reduced(g, stack, rule, act), Merged(spans, |stack| - |g.rules[rule].rhs|))
  {
    hide Agrees, Edge, AllMatch, Symbols, HasItem, CompleteAfter, Derives, Flatten;
    var n, lhs := |stack| - |g.rules[rule].rhs|, g.rules[rule].lhs;
    var later, merged := Reduced(g, stack, rule, act), Merged(spans, n);
    StatesBelow(g, a, t, stack, spans);
    SpanDerived(g, stack, spans, rule);
    assert SymbolOf(g, g.nTerminals + lhs) == Nonterminal(lhs);
    BottomIsFirst(g, a, t, stack, spans, n - 1);
    forall i | 0 < i < |later| - 1
      ensures Linked(g, a, t, later, i)
    {
      LinkedBelow(g, a, t, stack, spans, i);
    }
    assert act <= t.maxShift ==> Linked(g, a, t, later, n);
    assert act >= t.MinReduce() ==> PendingTop(g, a, t, later);
  }

  lemma LinkedBelow(g: Grammar, a: Automaton, t: Tables, stack: seq<Entry>, spans: seq<Form>, i: nat)
    requires Agrees(g, a, t) && Viable(g, a, t, stack, spans) && 0 < i < |stack| && stack[i].stateno <= t.maxShift
    ensures Linked(g, a, t, stack, i)
  {
    StatesBelow(g, a, t, stack, spans);
  }

  /** The first state is never come back to. */
  lemma BottomIsFirst(g: Grammar, a: Automaton, t: Tables, stack: seq<Entry>, spans: seq<Form>, i: nat)
    requires Agrees(g, a, t) && Viable(g, a, t, stack, spans) && i < |stack|
    ensures stack[i].stateno == 0 ==> i == 0
  {
    if 0 < i < |stack| - 1 { assert Linked(g, a, t, stack, i); }
  }

  lemma SpanDerived(g: Grammar, stack: seq<Entry>, spans: seq<Form>, rule: nat)
    requires rule < |g.rules| && |g.rules[rule].rhs| < |stack| == |spans|
    requires AllMatch(g, g.rules[rule].rhs, Symbols(g, stack)[|stack| - |g.rules[rule].rhs|..])
    requires forall i :: 0 < i < |stack| ==> Derives(g, [SymbolOf(g, stack[i].major)], spans[i])
    ensures Derives(g, [Nonterminal(g.rules[rule].lhs)], Flatten(spans[|stack| - |g.rules[rule].rhs|..]))
  {
    var n, rhs := |stack| - |g.rules[rule].rhs|, g.rules[rule].rhs;
    assert Symbols(g, stack)[n..] == Symbols(g, stack[n..]);
    MatchDerives(g, rhs, Symbols(g, stack[n..]));
    SymbolsDerive(g, stack[n..], spans[n..]);
    assert g.rules[rule] == Rule(g.rules[rule].lhs, rhs);
    RuleDerives(g, g.rules[rule]);
    DerivesTransitive(g, [Nonterminal(g.rules[rule].lhs)], rhs, Symbols(g, stack[n..]));
    DerivesTransitive(g, [Nonterminal(g.rules[rule].lhs)], Symbols(g, stack[n..]), Flatten(spans[n..]));
  }

  /** Accepting: the one symbol on the stack is the start symbol. */
  lemma AcceptDerives(g: Grammar, a: Automaton, t: Tables, stack: seq<Entry>, spans: seq<Form>)
    requires ValidTables(g, t) && Viable(g, a, t, stack, spans) && stack[|stack| - 1].stateno == t.AcceptAction()
    ensures |stack| == 2 && Derives(g, [Nonterminal(a.start)], Flatten(spans))
  {
    var one := spans[..1];
    assert one[..0] == [] && spans[..|spans| - 1] == one;
    assert Flatten(one) == Flatten(one[..0]) + one[0];
    assert Flatten(spans) == Flatten(one) + spans[1];
    assert [] + one[0] == one[0] && one[0] + spans[1] == spans[1];
  }

  /** Only a reduce to the start symbol leads to accepting. */
  lemma AcceptIsStart(g: Grammar, a: Automaton, t: Tables, stack: seq<Entry>, spans: seq<Form>, rule: nat)
    requires Agrees(g, a, t) && Viable(g, a, t, stack, spans) && Reduces(g, a, t, stack, rule)
    ensures var n, major := |stack| - |g.rules[rule].rhs|, g.nTerminals + g.rules[rule].lhs;
            && stack[n - 1].stateno <= t.maxShift && HasGoto(g, t, stack[n - 1].stateno, major)
            && (FindReduceAction(g, t, stack[n - 1].stateno, major) == t.AcceptAction() ==>
                ReducesTo(g, t, rule + t.MinReduce(), a.start))
            && (StartAtEnd(g, a, t) ==> !ReducesTo(g, t, FindReduceAction(g, t, stack[n - 1].stateno, major), a.start))
  {
    hide Viable, AllMatch, Symbols, Edge;
    var below := stack[|stack| - |g.rules[rule].rhs| - 1].stateno;
    assert Item(rule, 0) in a.items[below];
    assert GotoAgrees(g, a, t, below, g.rules[rule].lhs,
                      FindReduceAction(g, t, below, g.nTerminals + g.rules[rule].lhs));
  }

  lemma BottomViable(g: Grammar, a: Automaton, t: Tables, stack: seq<Entry>, spans: seq<Form>)
    requires Viable(g, a, t, stack, spans)
    ensures Viable(g, a, t, [stack[0]], [[]])
  {
  }

  /** What the looked-up action can be, given what is on top. */
  lemma ActionUnderstood(g: Grammar, a: Automaton, t: Tables, stack: seq<Entry>, spans: seq<Form>, token: nat)
    requires Agrees(g, a, t) && Viable(g, a, t, stack, spans) && token < g.nTerminals
    ensures var top := stack[|stack| - 1].stateno;
            var act := FindShiftAction(g, t, top, token);
            && (act >= t.MinReduce() || act <= t.MaxShiftReduce() || act == t.AcceptAction() || act == t.ErrorAction())
            && (act >= t.MinReduce() ==>
                if top <= t.maxShift then Complete(g, a, top, act - t.MinReduce()) else top == act)
            && (act <= t.MaxShiftReduce() || act == t.ErrorAction() ==> top <= t.maxShift)
            && (act == t.AcceptAction() ==> top == act)
            && (act <= t.MaxShiftReduce() ==> act <= t.maxShift || act >= t.minShiftReduce)
    ensures ValidTables(g, t)
  {
    var top := stack[|stack| - 1].stateno;
    if top <= t.maxShift {
      assert ShiftAgrees(g, a, t, top, token, FindShiftAction(g, t, top, token));
    }
  }

  // ----- accepting at the end of input only -----

  predicate ReducesTo(g: Grammar, t: Tables, act: nat, lhs: nat) {
    act >= t.MinReduce() && act - t.MinReduce() < |g.rules| && g.rules[act - t.MinReduce()].lhs == lhs
  }

  predicate ShiftReducesTo(g: Grammar, t: Tables, act: nat, lhs: nat) {
    t.minShiftReduce <= act <= t.MaxShiftReduce() && ReducesTo(g, t, act - t.minShiftReduce + t.MinReduce(), lhs)
  }

  /**
    A rule of the start symbol is reduced on the end of input only: the generator never
    makes it a default, nor the second half of a shift or of a goto.
   */
  ghost predicate StartAtEnd(g: Grammar, a: Automaton, t: Tables)
    requires ValidTables(g, t)
  {
    && (forall s: nat, token: nat {:trigger FindShiftAction(g, t, s, token)} ::
        s <= t.maxShift && token < g.nTerminals ==>
          var act := FindShiftAction(g, t, s, token);
          && (ReducesTo(g, t, act, a.start) ==> token == 0)
          && !ShiftReducesTo(g, t, act, a.start))
    && (forall s: nat, r: nat {:trigger Item(r, 0) in a.items[s]} ::
        s <= t.maxShift && s < |a.items| && r < |g.rules| && Item(r, 0) in a.items[s] ==>
          var major := g.nTerminals + g.rules[r].lhs;
          HasGoto(g, t, s, major) ==> !ReducesTo(g, t, FindReduceAction(g, t, s, major), a.start))
  }

  /** Neither accepting nor about to. */
  predicate Waiting(g: Grammar, a: Automaton, t: Tables, top: nat) {
    top != t.AcceptAction() && !ReducesTo(g, t, top, a.start)
  }

  lemma StartReducedAtEnd(g: Grammar, a: Automaton, t: Tables, top: nat, token: nat)
    requires ValidTables(g, t) && StartAtEnd(g, a, t) && token < g.nTerminals
    ensures var act := FindShiftAction(g, t, top, token);
            && (Waiting(g, a, t, top) && ReducesTo(g, t, act, a.start) ==> token == 0)
            && ((act <= t.maxShift || t.minShiftReduce <= act <= t.MaxShiftReduce()) && top <= t.maxShift ==>
                ShiftedState(t, act) >= 0 && Waiting(g, a, t, ShiftedState(t, act)))
  {
  }

  // ----- the reduces that a token forces -----

  function TopOf(stack: seq<Entry>): nat
    requires stack != []
  {
    stack[|stack| - 1].stateno
  }

  /** The action for the token is a reduce, and its right-hand side and goto are there. */
  predicate CanReduce(g: Grammar, t: Tables, stack: seq<Entry>, token: nat)
    requires ValidTables(g, t) && token < g.nTerminals
  {
    && stack != [] && FindShiftAction(g, t, TopOf(stack), token) >= t.MinReduce()
    && var rule := FindShiftAction(g, t, TopOf(stack), token) - t.MinReduce();
       CanReduceBy(g, t, stack, rule)
  }

  predicate CanReduceBy(g: Grammar, t: Tables, stack: seq<Entry>, rule: nat)
    requires ValidTables(g, t)
  {
    && rule < |g.rules| && |g.rules[rule].rhs| < |stack|
    && var below := stack[|stack| - |g.rules[rule].rhs| - 1].stateno;
       below <= t.maxShift && HasGoto(g, t, below, g.nTerminals + g.rules[rule].lhs)
  }

  function ReducedBy(g: Grammar, t: Tables, stack: seq<Entry>, rule: nat): seq<Entry>
    requires ValidTables(g, t) && CanReduceBy(g, t, stack, rule)
  {
    var below := stack[|stack| - |g.rules[rule].rhs| - 1].stateno;
    Reduced(g, stack, rule, FindReduceAction(g, t, below, g.nTerminals + g.rules[rule].lhs))
  }

  function AfterReduce(g: Grammar, t: Tables, stack: seq<Entry>, token: nat): seq<Entry>
    requires ValidTables(g, t) && token < g.nTerminals && CanReduce(g, t, stack, token)
  {
    ReducedBy(g, t, stack, FindShiftAction(g, t, TopOf(stack), token) - t.MinReduce())
  }

  /** The stack after `n` reduces, if the token forces so many. */
  function Forced(g: Grammar, t: Tables, stack: seq<Entry>, token: nat, n: nat): Option<seq<Entry>>
    requires ValidTables(g, t) && token < g.nTerminals
  {
    if n == 0 then Some(stack)
    else
      match Forced(g, t, stack, token, n - 1)
      case None => None
      case Some(now) => if CanReduce(g, t, now, token) then Some(AfterReduce(g, t, now, token)) else None
  }

  /** None of the stacks on the way has more than `depth` entries. */
  ghost predicate Reached(g: Grammar, t: Tables, depth: nat, stack: seq<Entry>, token: nat, n: nat, now: seq<Entry>)
    requires ValidTables(g, t) && token < g.nTerminals
  {
    && Forced(g, t, stack, token, n) == Some(now)
    && forall k :: 0 <= k <= n ==> Forced(g, t, stack, token, k).Some? && |Forced(g, t, stack, token, k).value| <= depth
  }

  /** What the driver does where the reduces end; there are fewer than `limit` of them. */
  ghost predicate Outcome(g: Grammar, t: Tables, depth: nat, stack: seq<Entry>, token: nat, limit: nat, status: Status,
                          after: seq<Entry>)
    requires ValidTables(g, t) && token < g.nTerminals
  {
    exists n: nat, now :: OutcomeAt(g, t, depth, stack, token, limit, status, after, n, now)
  }

  ghost predicate OutcomeAt(g: Grammar, t: Tables, depth: nat, stack: seq<Entry>, token: nat, limit: nat,
                            status: Status,
                            after: seq<Entry>, n: nat, now: seq<Entry>)
    requires ValidTables(g, t) && token < g.nTerminals
  {
    && stack != [] && now != [] && Reached(g, t, depth, stack, token, n, now)
    && var act := FindShiftAction(g, t, TopOf(now), token);
    if status == StillReducing then n == limit && after == now
    else
      && n < limit
      && match status
         case Shifted =>
           && act <= t.MaxShiftReduce() && |now| < depth && ShiftedState(t, act) >= 0
           && after == now + [Entry(ShiftedState(t, act), token)]
         case Accepted => act == t.AcceptAction() && after == now[..|now| - 1]
         case SyntaxError => act == t.ErrorAction() && after == if token == 0 then [stack[0]] else now
         case _ =>
           && after == [stack[0]]
           && if act <= t.MaxShiftReduce() then |now| == depth
              else CanReduce(g, t, now, token) && |AfterReduce(g, t, now, token)| > depth
  }

  lemma ReachedFirst(g: Grammar, t: Tables, depth: nat, stack: seq<Entry>, token: nat)
    requires ValidTables(g, t) && token < g.nTerminals && |stack| <= depth
    ensures Reached(g, t, depth, stack, token, 0, stack)
  {
  }

  lemma ReachedNext(g: Grammar, t: Tables, depth: nat, stack: seq<Entry>, token: nat, n: nat, now: seq<Entry>)
    requires ValidTables(g, t) && token < g.nTerminals && Reached(g, t, depth, stack, token, n, now)
    requires CanReduce(g, t, now, token) && |AfterReduce(g, t, now, token)| <= depth
    ensures Reached(g, t, depth, stack, token, n + 1, AfterReduce(g, t, now, token))
  {
    hide CanReduce, AfterReduce;
  }

  /** The bottom entry is never reduced. */
  lemma {:induction false} ForcedBottom(g: Grammar, t: Tables, depth: nat, stack: seq<Entry>, token: nat, n: nat,
                                        now: seq<Entry>)
    requires ValidTables(g, t) && token < g.nTerminals && stack != []
    requires Reached(g, t, depth, stack, token, n, now)
    ensures now != [] && now[0] == stack[0] && |now| <= depth
  {
    if n > 0 {
      ReachedSome(g, t, depth, stack, token, n, now, n - 1);
      var before := Forced(g, t, stack, token, n - 1).value;
      ForcedBottom(g, t, depth, stack, token, n - 1, before);
    }
  }

  lemma EndsHere(g: Grammar, t: Tables, depth: nat, stack: seq<Entry>, token: nat, limit: nat, status: Status,
                 after: seq<Entry>, n: nat, now: seq<Entry>)
    requires ValidTables(g, t) && token < g.nTerminals
    requires OutcomeAt(g, t, depth, stack, token, limit, status, after, n, now)
    ensures Outcome(g, t, depth, stack, token, limit, status, after)
  {
  }

  /** All tokens are shifted and the end of input is accepted. */
  ghost predicate AcceptedFrom(g: Grammar, t: Tables, depth: nat, limit: nat, stack: seq<Entry>, tokens: seq<nat>)
    requires ValidTables(g, t) && g.nTerminals > 0 && forall i :: 0 <= i < |tokens| ==> tokens[i] < g.nTerminals
    decreases |tokens|
  {
    if tokens == [] then exists after :: Outcome(g, t, depth, stack, 0, limit, Accepted, after)
    else exists next :: Outcome(g, t, depth, stack, tokens[0], limit, Shifted, next)
                        && AcceptedFrom(g, t, depth, limit, next, tokens[1..])
  }

  /** The first `at` tokens of the input are shifted, and the next one, if there is one, is not. */
  ghost predicate StopsAt(g: Grammar, t: Tables, depth: nat, limit: nat, stack: seq<Entry>, input: seq<nat>, at: nat,
                          status: Status)
    requires ValidTables(g, t) && forall i :: 0 <= i < |input| ==> input[i] < g.nTerminals
    decreases |input|
  {
    if input == [] then at == 0 && status == Shifted
    else if at == 0 then
      status != Shifted && exists after :: Outcome(g, t, depth, stack, input[0], limit, status, after)
    else
      exists next :: Outcome(g, t, depth, stack, input[0], limit, Shifted, next)
                     && StopsAt(g, t, depth, limit, next, input[1..], at - 1, status)
  }

  lemma AcceptedStep(g: Grammar, t: Tables, depth: nat, limit: nat, stack: seq<Entry>, tokens: seq<nat>, status: Status,
                     after: seq<Entry>)
    requires ValidTables(g, t) && tokens != [] && forall i :: 0 <= i < |tokens| ==> tokens[i] < g.nTerminals
    requires Outcome(g, t, depth, stack, tokens[0], limit, status, after)
    ensures AcceptedFrom(g, t, depth, limit, stack, tokens)
            <==> status == Shifted && AcceptedFrom(g, t, depth, limit, after, tokens[1..])
  {
    hide Outcome;
    if AcceptedFrom(g, t, depth, limit, stack, tokens) {
      var next :| Outcome(g, t, depth, stack, tokens[0], limit, Shifted, next)
        && AcceptedFrom(g, t, depth, limit, next, tokens[1..]);
      OneOutcome(g, t, depth, stack, tokens[0], limit, status, after, Shifted, next);
    }
  }

  lemma AcceptedEnd(g: Grammar, t: Tables, depth: nat, limit: nat, stack: seq<Entry>, status: Status, after: seq<Entry>)
    requires ValidTables(g, t) && g.nTerminals > 0 && Outcome(g, t, depth, stack, 0, limit, status, after)
    ensures AcceptedFrom(g, t, depth, limit, stack, []) <==> status == Accepted
  {
    hide Outcome;
    if AcceptedFrom(g, t, depth, limit, stack, []) {
      var other :| Outcome(g, t, depth, stack, 0, limit, Accepted, other);
      OneOutcome(g, t, depth, stack, 0, limit, status, after, Accepted, other);
    }
  }

  lemma {:induction false} ReachedSome(g: Grammar, t: Tables, depth: nat, stack: seq<Entry>, token: nat, n: nat,
                                       now: seq<Entry>, k: nat)
    requires ValidTables(g, t) && token < g.nTerminals && Reached(g, t, depth, stack, token, n, now) && k < n
    ensures Forced(g, t, stack, token, k).Some?
    ensures var between := Forced(g, t, stack, token, k).value;
            && CanReduce(g, t, between, token) && |AfterReduce(g, t, between, token)| <= depth
            && Reached(g, t, depth, stack, token, k, between)
  {
    hide CanReduce, AfterReduce;
    assert Forced(g, t, stack, token, k + 1).Some?;
  }

  /** A token has one outcome. */
  lemma OneOutcome(g: Grammar, t: Tables, depth: nat, stack: seq<Entry>, token: nat, limit: nat, s1: Status,
                   a1: seq<Entry>, s2: Status, a2: seq<Entry>)
    requires ValidTables(g, t) && token < g.nTerminals
    requires Outcome(g, t, depth, stack, token, limit, s1, a1) && Outcome(g, t, depth, stack, token, limit, s2, a2)
    ensures s1 == s2 && a1 == a2
  {
    hide OutcomeAt, Reached, ValidTables, Forced;
    var n1: nat, b1 :| OutcomeAt(g, t, depth, stack, token, limit, s1, a1, n1, b1);
    var n2: nat, b2 :| OutcomeAt(g, t, depth, stack, token, limit, s2, a2, n2, b2);
    OutcomeReached(g, t, depth, stack, token, limit, s1, a1, n1, b1);
    OutcomeReached(g, t, depth, stack, token, limit, s2, a2, n2, b2);
    OutcomeLast(g, t, depth, stack, token, limit, s1, a1, n1, b1, n2, b2);
    OutcomeLast(g, t, depth, stack, token, limit, s2, a2, n2, b2, n1, b1);
    SameStack(g, t, depth, stack, token, n1, b1);
    SameStack(g, t, depth, stack, token, n2, b2);
    SameOutcome(g, t, depth, stack, token, limit, s1, a1, s2, a2, n1, b1);
  }

  lemma OutcomeReached(g: Grammar, t: Tables, depth: nat, stack: seq<Entry>, token: nat, limit: nat, status: Status,
                       after: seq<Entry>, n: nat, now: seq<Entry>)
    requires ValidTables(g, t) && token < g.nTerminals
    requires OutcomeAt(g, t, depth, stack, token, limit, status, after, n, now)
    ensures Reached(g, t, depth, stack, token, n, now) && n <= limit && stack != [] && now != []
  {
  }

  /** Where the outcome is, the reduces end. */
  lemma OutcomeLast(g: Grammar, t: Tables, depth: nat, stack: seq<Entry>, token: nat, limit: nat, status: Status,
                    after: seq<Entry>, n: nat, now: seq<Entry>, k: nat, later: seq<Entry>)
    requires ValidTables(g, t) && token < g.nTerminals && k <= limit
    requires OutcomeAt(g, t, depth, stack, token, limit, status, after, n, now)
    requires Reached(g, t, depth, stack, token, k, later)
    ensures k <= n
  {
    hide CanReduce, AfterReduce, Reached, FindShiftAction;
    if n < k {
      ReachedSome(g, t, depth, stack, token, k, later, n);
      SameStack(g, t, depth, stack, token, n, now);
      NotWhileReducing(g, t, now, token);
    }
  }

  lemma SameOutcome(g: Grammar, t: Tables, depth: nat, stack: seq<Entry>, token: nat, limit: nat, s1: Status,
                    a1: seq<Entry>, s2: Status, a2: seq<Entry>, n: nat, now: seq<Entry>)
    requires ValidTables(g, t) && token < g.nTerminals
    requires OutcomeAt(g, t, depth, stack, token, limit, s1, a1, n, now)
    requires OutcomeAt(g, t, depth, stack, token, limit, s2, a2, n, now)
    ensures s1 == s2 && a1 == a2
  {
    hide CanReduce, AfterReduce, Reached, FindShiftAction;
    if CanReduce(g, t, now, token) { NotWhileReducing(g, t, now, token); }
  }

  lemma SameStack(g: Grammar, t: Tables, depth: nat, stack: seq<Entry>, token: nat, n: nat, now: seq<Entry>)
    requires ValidTables(g, t) && token < g.nTerminals && Reached(g, t, depth, stack, token, n, now)
    ensures Forced(g, t, stack, token, n) == Some(now) && |now| <= depth
  {
  }

  lemma NotWhileReducing(g: Grammar, t: Tables, now: seq<Entry>, token: nat)
    requires ValidTables(g, t) && token < g.nTerminals && CanReduce(g, t, now, token)
    ensures var act := FindShiftAction(g, t, TopOf(now), token);
            now != [] && act > t.MaxShiftReduce() && act != t.AcceptAction() && act != t.ErrorAction()
  {
  }

  // ----- the driver -----

  datatype Status = Shifted | Accepted | SyntaxError | Overflowed | StillReducing

  class Parser {
    const g: Grammar
    const t: Tables
    ghost const a: Automaton
    const yystack: array<Entry>
    var yytos: nat
    var yyerrcnt: int
    ghost var spans: seq<Form>

    ghost function Stack(): seq<Entry>
      reads this, yystack
      requires yytos < yystack.Length
    {
      yystack[..yytos + 1]
    }

    ghost predicate Valid()
      reads this, yystack
    {
      yytos < yystack.Length && Agrees(g, a, t) && Viable(g, a, t, Stack(), spans)
    }

    /** The tokens shifted since the stack was last empty. */
    ghost function Consumed(): Form
      reads this
    {
      Flatten(spans)
    }

    constructor (g: Grammar, t: Tables, ghost a: Automaton, depth: nat)
      requires Agrees(g, a, t) && depth > 0
      ensures Valid() && this.g == g && this.t == t && this.a == a && yytos == 0 && Consumed() == []
      ensures fresh(yystack) && yystack.Length == depth && Stack() == [Entry(0, 0)]
    {
      this.g, this.t, this.a := g, t, a;
      yystack := new Entry[depth](_ => Entry(0, 0));
      yytos, yyerrcnt := 0, -1;
      spans := [[]];
      new;
      assert Stack() == [Entry(0, 0)];
      EmptyStack();
    }

    lemma EmptyStack()
      ensures Flatten([[]]) == []
    {
      var one: seq<Form> := [[]];
      assert one[..0] == [];
    }

    /** Pops everything above the bottom entry. */
    method PopAll()
      requires Valid()
      modifies this
      ensures Valid() && yytos == 0 && Consumed() == [] && yyerrcnt == old(yyerrcnt)
    {
      ghost var was := Stack();
      while yytos > 0
        invariant yytos < yystack.Length
        invariant yystack[0] == was[0] && yyerrcnt == old(yyerrcnt)
      {
        yytos := yytos - 1;
      }
      spans := [[]];
      assert Stack() == [was[0]];
      EmptyStack();
    }

    method YyShift(newState: nat, major: nat) returns (ok: bool)
      requires Valid() && major < g.nTerminals && yystack[yytos].stateno <= t.maxShift
      requires newState == FindShiftAction(g, t, yystack[yytos].stateno, major) <= t.MaxShiftReduce()
      modifies this, yystack
      ensures Valid() && yyerrcnt == old(yyerrcnt)
      ensures ok ==> yytos == old(yytos) + 1 && Consumed() == old(Consumed()) + [Terminal(major)]
      ensures ok ==> yystack[yytos].stateno == ShiftedState(t, newState)
      ensures !ok ==> yytos == 0 && Consumed() == []
      ensures ok <==> |old(Stack())| < yystack.Length
      ensures ShiftedState(t, newState) >= 0
      ensures Stack() == if ok then old(Stack()) + [Entry(ShiftedState(t, newState), major)] else [old(Stack())[0]]
    {
      hide Agrees, Viable, Flatten;
      yytos := yytos + 1;
      if yytos > yystack.Length - 1 {
        yytos := yytos - 1;
        PopAll();
        return false;
      }
      ghost var was := yystack[..yytos];
      assert was == old(Stack());
      ShiftKeepsViable(g, a, t, was, spans, major);
      var stateno := ShiftedState(t, newState);
      yystack[yytos] := Entry(stateno, major);
      assert Stack() == was + [Entry(stateno, major)];
      spans := spans + [[Terminal(major)]];
      return true;
    }

    /** Every reduce finds the right-hand side of its rule on top of the stack. */
    method YyReduce(yyruleno: nat) returns (act: nat)
      requires Valid()
      requires if yystack[yytos].stateno <= t.maxShift then Complete(g, a, yystack[yytos].stateno, yyruleno)
               else yystack[yytos].stateno == t.MinReduce() + yyruleno
      modifies this, yystack
      ensures Valid() && yyerrcnt == old(yyerrcnt)
      ensures Reduces(g, a, t, old(Stack()), yyruleno)
      ensures yytos > 0 && act == t.AcceptAction() ==> ReducesTo(g, t, yyruleno + t.MinReduce(), a.start)
      ensures yytos > 0 && StartAtEnd(g, a, t) ==> !ReducesTo(g, t, act, a.start)
      ensures yytos > 0 ==> yystack[yytos].stateno == act && Consumed() == old(Consumed())
      ensures yytos == 0 ==> Consumed() == []
      ensures ValidTables(g, t) && CanReduceBy(g, t, old(Stack()), yyruleno)
      ensures yytos > 0 <==> |ReducedBy(g, t, old(Stack()), yyruleno)| <= yystack.Length
      ensures Stack() == if yytos > 0 then ReducedBy(g, t, old(Stack()), yyruleno) else [old(Stack())[0]]
    {
      hide Agrees, Viable, Flatten, HasItem, HasGoto, Symbols, AllMatch, Complete, StartAtEnd, ReducesTo,
           FindReduceAction, ValidTables, Linked;
      ghost var was, rule := Stack(), yyruleno;
      ReduceFindsRule(g, a, t, was, spans, rule);
      ReduceKeepsViable(g, a, t, was, spans, rule);
      StackSpans();
      AcceptIsStart(g, a, t, was, spans, rule);
      var nrhs := |g.rules[yyruleno].rhs|;
      if nrhs == 0 && yytos >= yystack.Length - 1 {
        PopAll();
        return 0;
      }
      var yygoto := g.nTerminals + g.rules[yyruleno].lhs;
      var yymsp := yytos - nrhs;
      act := FindReduceAction(g, t, yystack[yymsp].stateno, yygoto);
      yytos := yymsp + 1;
      yystack[yytos] := Entry(act, yygoto);
      assert Stack() == Reduced(g, was, rule, act);
      spans := Merged(spans, yytos);
    }

    lemma StackSpans()
      requires Valid()
      ensures ValidTables(g, t) && |Stack()| == |spans| == yytos + 1
    {
    }

    lemma TablesValid()
      requires Valid()
      ensures ValidTables(g, t)
    {
    }

    /** The start symbol is popped, and the parser ready for another input. */
    method YyAccept()
      requires Valid() && yystack[yytos].stateno == t.AcceptAction()
      modifies this
      ensures Valid() && yytos == 0 && Consumed() == [] && Derives(g, [Nonterminal(a.start)], old(Consumed()))
      ensures Stack() == old(Stack())[..|old(Stack())| - 1]
    {
      hide Agrees, Viable, Flatten;
      StackSpans();
      AcceptDerives(g, a, t, Stack(), spans);
      BottomViable(g, a, t, Stack(), spans);
      ghost var was := Stack();
      yytos := yytos - 1;
      spans := [[]];
      assert Stack() == [was[0]];
      EmptyStack();
      yyerrcnt := -1;
    }

    /** The token is dropped; at the end of input so is the stack. */
    method YySyntaxError(yymajor: nat)
      requires Valid()
      modifies this
      ensures Valid() && Consumed() == if yymajor == 0 then [] else old(Consumed())
      ensures Stack() == if yymajor == 0 then [old(Stack())[0]] else old(Stack())
    {
      hide Agrees, Viable, Flatten;
      yyerrcnt := 3;
      if yymajor == 0 {
        PopAll();
        yyerrcnt := -1;
      }
    }

    /**
      One token. What is accepted is the input before this token, derived from the start
      symbol; a token that fits nowhere is dropped, and at the end of input so is the
      whole stack. `limit` bounds the reduces.
     */
    method Parse(yymajor: nat, limit: nat) returns (status: Status)
      requires Valid() && yymajor < g.nTerminals
      modifies this, yystack
      ensures Valid()
      ensures status == Shifted ==> Consumed() == old(Consumed()) + [Terminal(yymajor)]
      ensures status == Accepted ==>
              Derives(g, [Nonterminal(a.start)], old(Consumed())) && yytos == 0 && Consumed() == []
      ensures status == SyntaxError ==> Consumed() == if yymajor == 0 then [] else old(Consumed())
      ensures status == Overflowed ==> yytos == 0 && Consumed() == []
      ensures status == StillReducing ==> Consumed() == old(Consumed())
      ensures StartAtEnd(g, a, t) && Waiting(g, a, t, old(yystack[yytos].stateno)) ==>
                && (status == Accepted ==> yymajor == 0)
                && (status == Shifted ==> Waiting(g, a, t, yystack[yytos].stateno))
      ensures ValidTables(g, t) && Outcome(g, t, yystack.Length, old(Stack()), yymajor, limit, status, Stack())
    {
      hide Agrees, Viable, Flatten, StartAtEnd, Complete, FindShiftAction, FindReduceAction, HasGoto, Reduces,
           ReducesTo, CanReduceBy, ReducedBy, ValidTables, Reached, Outcome;
      TablesValid();
      ghost var first := Stack();
      ReachedFirst(g, t, yystack.Length, first, yymajor);
      var yyact := yystack[yytos].stateno;
      var steps := 0;
      while steps < limit
        invariant Valid() && yyact == yystack[yytos].stateno && Consumed() == old(Consumed())
        invariant StartAtEnd(g, a, t) && Waiting(g, a, t, old(yystack[yytos].stateno)) ==>
                  yymajor == 0 || Waiting(g, a, t, yyact)
        invariant 0 <= steps <= limit && Reached(g, t, yystack.Length, first, yymajor, steps, Stack())
        decreases limit - steps
      {
        ghost var now := Stack();
        ForcedBottom(g, t, yystack.Length, first, yymajor, steps, now);
        ActionUnderstood(g, a, t, Stack(), spans, yymajor);
        if StartAtEnd(g, a, t) { StartReducedAtEnd(g, a, t, yyact, yymajor); }
        yyact := FindShiftAction(g, t, yyact, yymajor);
        if yyact >= t.MinReduce() {
          yyact := YyReduce(yyact - t.MinReduce());
          if !(yytos > 0) {
            EndsHere(g, t, yystack.Length, first, yymajor, limit, Overflowed, Stack(), steps, now);
            return Overflowed;
          }
          ReachedNext(g, t, yystack.Length, first, yymajor, steps, now);
        } else if yyact <= t.MaxShiftReduce() {
          var ok := YyShift(yyact, yymajor);
          yyerrcnt := yyerrcnt - 1;
          status := if ok then Shifted else Overflowed;
          EndsHere(g, t, yystack.Length, first, yymajor, limit, status, Stack(), steps, now);
          return;
        } else if yyact == t.AcceptAction() {
          YyAccept();
          EndsHere(g, t, yystack.Length, first, yymajor, limit, Accepted, Stack(), steps, now);
          return Accepted;
        } else {
          YySyntaxError(yymajor);
          EndsHere(g, t, yystack.Length, first, yymajor, limit, SyntaxError, Stack(), steps, now);
          return SyntaxError;
        }
        steps := steps + 1;
      }
      EndsHere(g, t, yystack.Length, first, yymajor, limit, StillReducing, Stack(), steps, Stack());
      return StillReducing;
    }

    /** A whole input: its tokens, then the end of input. Before its end, nothing is accepted. */
    method ParseInput(tokens: seq<nat>, limit: nat) returns (accepted: bool)
      requires Valid() && Consumed() == [] && g.nTerminals > 0
               && forall i :: 0 <= i < |tokens| ==> tokens[i] < g.nTerminals
      modifies this, yystack
      ensures Valid()
      ensures accepted ==> Derives(g, [Nonterminal(a.start)], Terminals(tokens))
      ensures ValidTables(g, t)
              && (accepted <==> AcceptedFrom(g, t, yystack.Length, limit, old(Stack()), tokens))
    {
      hide Agrees, Viable, Flatten, ValidTables, Outcome, AcceptedFrom, StartAtEnd, Waiting, Terminals;
      TablesValid();
      ghost var first := Stack();
      var i := 0;
      NoTokens();
      assert tokens[0..] == tokens && tokens[..0] == [];
      while i < |tokens|
        invariant 0 <= i <= |tokens| && Valid() && Consumed() == Terminals(tokens[..i])
        invariant AcceptedFrom(g, t, yystack.Length, limit, first, tokens)
                  <==> AcceptedFrom(g, t, yystack.Length, limit, Stack(), tokens[i..])
      {
        OneMoreToken(tokens, i);
        ghost var now := Stack();
        var status := Parse(tokens[i], limit);
        AcceptedStep(g, t, yystack.Length, limit, now, tokens[i..], status, Stack());
        if status != Shifted {
          return false;
        }
        i := i + 1;
      }
      assert tokens[..i] == tokens && tokens[i..] == [];
      ghost var now := Stack();
      var status := Parse(0, limit);
      AcceptedEnd(g, t, yystack.Length, limit, now, status, Stack());
      return status == Accepted;
    }
  }

  lemma NoTokens()
    ensures Terminals([]) == []
  {
  }

  lemma OneMoreToken(tokens: seq<nat>, i: nat)
    requires i < |tokens|
    ensures Terminals(tokens[..i + 1]) == Terminals(tokens[..i]) + [Terminal(tokens[i])]
    ensures tokens[i..][0] == tokens[i] && tokens[i..][1..] == tokens[i + 1..]
  {
    assert tokens[..i + 1][..i] == tokens[..i];
  }

  function Terminals(tokens: seq<nat>): Form {
    if tokens == [] then [] else Terminals(tokens[..|tokens| - 1]) + [Terminal(tokens[|tokens| - 1])]
  }

  // ----- a token left over -----

  const ONE_TOKEN_GRAMMAR := Grammar(2, 1, [Rule(0, [Terminal(1)])])
  const ONE_TOKEN_AUTOMATON := Automaton([{Item(0, 0)}, {Item(0, 1)}], 0)
  const ONE_TOKEN_TABLES := Tables(0, 2, 1, [0], [0], [3, 1, 2], [3, 2, 4], [3])

  /**
    Agreeing with the automaton is not enough for that. These tables for S ::= a make the
    reduce to S the second half of the shift, and then the input a a is accepted at its
    second token, which is never shifted, although the grammar does not derive it. They
    are not `StartAtEnd`.
   */
  lemma AcceptsWithTokenLeft()
    ensures Agrees(ONE_TOKEN_GRAMMAR, ONE_TOKEN_AUTOMATON, ONE_TOKEN_TABLES)
    ensures var g, t := ONE_TOKEN_GRAMMAR, ONE_TOKEN_TABLES;
            var pending := ShiftedState(t, FindShiftAction(g, t, 0, 1));
            && pending == t.MinReduce() && FindShiftAction(g, t, pending, 1) == t.MinReduce()
            && HasGoto(g, t, 0, 2) && FindShiftAction(g, t, FindReduceAction(g, t, 0, 2), 1) == t.AcceptAction()
    ensures !Derives(ONE_TOKEN_GRAMMAR, [Nonterminal(0)], [Terminal(1), Terminal(1)])
    ensures !StartAtEnd(ONE_TOKEN_GRAMMAR, ONE_TOKEN_AUTOMATON, ONE_TOKEN_TABLES)
  {
    var g := ONE_TOKEN_GRAMMAR;
    OneTokenAgrees();
    OneTokenRun();
    assert ShiftReducesTo(g, ONE_TOKEN_TABLES, FindShiftAction(g, ONE_TOKEN_TABLES, 0, 1), 0);
    hide Agrees, FindShiftAction, FindReduceAction, HasGoto;
    if Derives(g, [Nonterminal(0)], [Terminal(1), Terminal(1)]) {
      var n: nat :| DerivesIn(g, n, [Nonterminal(0)], [Terminal(1), Terminal(1)]);
      LengthOne(n, [Nonterminal(0)], [Terminal(1), Terminal(1)]);
    }
  }

  lemma OneTokenRun()
    ensures var g, t := ONE_TOKEN_GRAMMAR, ONE_TOKEN_TABLES;
            && ValidTables(g, t) && t.AcceptAction() == 4 && t.MinReduce() == 6
            && FindShiftAction(g, t, 0, 0) == 3 && FindShiftAction(g, t, 0, 1) == 2 && ShiftedState(t, 2) == 6
            && FindShiftAction(g, t, 6, 1) == 6 && HasGoto(g, t, 0, 2) && FindReduceAction(g, t, 0, 2) == 4
            && FindShiftAction(g, t, 4, 1) == 4
  {
  }

  lemma OneTokenAgrees()
    ensures Agrees(ONE_TOKEN_GRAMMAR, ONE_TOKEN_AUTOMATON, ONE_TOKEN_TABLES)
  {
    OneTokenRun();
    var g, a, t := ONE_TOKEN_GRAMMAR, ONE_TOKEN_AUTOMATON, ONE_TOKEN_TABLES;
    hide FindShiftAction, FindReduceAction, HasGoto, ValidTables;
    assert a.items[0] == {Item(0, 0)};
    forall s: nat, token: nat {:trigger FindShiftAction(g, t, s, token)} | s <= t.maxShift && token < g.nTerminals
      ensures ShiftAgrees(g, a, t, s, token, FindShiftAction(g, t, s, token))
    {
      assert s == 0 && (token == 0 || token == 1);
      DerivesItself(g, [Terminal(1)]);
      assert token == 1 ==> CompleteAfter(g, a, 0, Terminal(1), 0);
    }
    assert GotoAgrees(g, a, t, 0, 0, 4);
  }

  lemma {:induction false} LengthOne(n: nat, x: Form, y: Form)
    requires |x| == 1 && DerivesIn(ONE_TOKEN_GRAMMAR, n, x, y)
    ensures |y| == 1
  {
    if n > 0 && (x[0].Nonterminal? || x[0].Class?) {
      var z :| DerivesOnce(ONE_TOKEN_GRAMMAR, x, z) && DerivesIn(ONE_TOKEN_GRAMMAR, n - 1, z, y);
      LengthOne(n - 1, z, y);
    }
  }
}
