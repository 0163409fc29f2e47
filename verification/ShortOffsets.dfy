/**
  A grammar whose tables are cut short. The offsets of trailing states without token
  actions are not written, and the state that a parser for this grammar is in after its
  first token has only a goto and a default; so there is no offset where the driver looks.
 */
module ShortOffsets {
  import opened Options
  import opened Grammars
  import opened LrDriver
  import opened Lr0
  import opened CompressTables
  import opened GeneratedTables
  import opened TableWriter
  import opened UnitRules
  import opened ParserGenerator
  import Actions
  import Links
  import Packing = ActTab

  // ----- the grammar: S ::= X. X ::= X G D. X ::= . G ::= g. D ::= . -----

  const S := Nonterminal(0)
  const X := Nonterminal(1)
  const G := Nonterminal(2)
  const D := Nonterminal(3)
  const END: nat := 0
  const TOKEN: nat := 1

  const GRAMMAR :=
    Grammar(2, 4, [Rule(0, [X]), Rule(1, [X, G, D]), Rule(1, []), Rule(2, [Terminal(TOKEN)]), Rule(3, [])])

  lemma GrammarGenerable()
    ensures Generable(GRAMMAR, 0)
  {
  }

  /** One token is a sentence. */
  lemma SentenceDerived()
    ensures Derives(GRAMMAR, [S], [Terminal(TOKEN)])
  {
    hide Derives;
    var t: Form := [Terminal(TOKEN)];
    var nothing: Form := [];
    GrammarRules();
    assert [X] + [G] == [X, G] && [X, G] + [D] == [X, G, D] && nothing + t == t && t + nothing == t;
    DerivesBoth(GRAMMAR, [X], nothing, [G], t);
    DerivesBoth(GRAMMAR, [X, G], t, [D], nothing);
    DerivesTransitive(GRAMMAR, [S], [X], [X, G, D]);
    DerivesTransitive(GRAMMAR, [S], [X, G, D], t);
  }

  lemma GrammarRules()
    ensures Derives(GRAMMAR, [S], [X]) && Derives(GRAMMAR, [X], [X, G, D])
    ensures Derives(GRAMMAR, [X], []) && Derives(GRAMMAR, [G], [Terminal(TOKEN)]) && Derives(GRAMMAR, [D], [])
  {
    hide Derives;
    RuleDerives(GRAMMAR, GRAMMAR.rules[0]);
    RuleDerives(GRAMMAR, GRAMMAR.rules[1]);
    RuleDerives(GRAMMAR, GRAMMAR.rules[2]);
    RuleDerives(GRAMMAR, GRAMMAR.rules[3]);
    RuleDerives(GRAMMAR, GRAMMAR.rules[4]);
  }

  // ----- its states -----

  const STATE0 := State([Item(0, 0)], [Item(0, 0), Item(1, 0), Item(2, 0)], [(X, 1)])
  const STATE1 := State([Item(0, 1), Item(1, 1)], [Item(0, 1), Item(1, 1), Item(3, 0)], [(G, 2), (Terminal(TOKEN), 4)])
  const STATE2 := State([Item(1, 2)], [Item(1, 2), Item(4, 0)], [(D, 3)])
  const STATE3 := State([Item(1, 3)], [Item(1, 3)], [])
  const STATE4 := State([Item(3, 1)], [Item(3, 1)], [])
  const STATES := [STATE0, STATE1, STATE2, STATE3, STATE4]

  /** Which rules a nonterminal has. */
  lemma RulesOf(rule: nat)
    requires rule < 5
    ensures GRAMMAR.rules[rule].lhs == if rule == 0 then 0 else if rule <= 2 then 1 else rule - 1
  {
  }

  /** Which rules a configuration of one of the states asks for. */
  lemma AskedRules(i: Item, rule: nat)
    requires Asks(GRAMMAR, i, rule)
    ensures rule < 5
    ensures i == Item(0, 0) || i == Item(1, 0) ==> rule == 1 || rule == 2
    ensures i == Item(1, 1) ==> rule == 3
    ensures i == Item(1, 2) ==> rule == 4
    ensures i != Item(0, 1) && i != Item(1, 3) && i != Item(2, 0) && i != Item(3, 0) && i != Item(3, 1)
            && i != Item(4, 0)
  {
    RulesOf(rule);
  }

  lemma Valid0()
    ensures ValidState(GRAMMAR, STATE0)
  {
    var basis, items := ItemSet(STATE0.basis), ItemSet(STATE0.items);
    forall i, rule: nat | i in items && Asks(GRAMMAR, i, rule)
      ensures Item(rule, 0) in items
    {
      AskedRules(i, rule);
      assert Item(rule, 0) in STATE0.items;
    }
    forall t | basis <= t && Closed(GRAMMAR, t)
      ensures items <= t
    {
      assert Item(0, 0) in STATE0.basis && Item(0, 0) in basis;
      assert Asks(GRAMMAR, Item(0, 0), 1) && Asks(GRAMMAR, Item(0, 0), 2);
    }
    assert forall i :: i in STATE0.basis ==> i in STATE0.items;
  }

  lemma Valid1()
    ensures ValidState(GRAMMAR, STATE1)
  {
    var basis, items := ItemSet(STATE1.basis), ItemSet(STATE1.items);
    forall i, rule: nat | i in items && Asks(GRAMMAR, i, rule)
      ensures Item(rule, 0) in items
    {
      AskedRules(i, rule);
      assert Item(rule, 0) in STATE1.items;
    }
    forall t | basis <= t && Closed(GRAMMAR, t)
      ensures items <= t
    {
      assert Item(0, 1) in STATE1.basis && Item(1, 1) in STATE1.basis && Item(1, 1) in basis && Item(0, 1) in basis;
      assert Asks(GRAMMAR, Item(1, 1), 3);
    }
    assert forall i :: i in STATE1.basis ==> i in STATE1.items;
  }

  lemma Valid2()
    ensures ValidState(GRAMMAR, STATE2)
  {
    var basis, items := ItemSet(STATE2.basis), ItemSet(STATE2.items);
    forall i, rule: nat | i in items && Asks(GRAMMAR, i, rule)
      ensures Item(rule, 0) in items
    {
      AskedRules(i, rule);
      assert Item(rule, 0) in STATE2.items;
    }
    forall t | basis <= t && Closed(GRAMMAR, t)
      ensures items <= t
    {
      assert Item(1, 2) in STATE2.basis && Item(1, 2) in basis;
      assert Asks(GRAMMAR, Item(1, 2), 4);
    }
    assert forall i :: i in STATE2.basis ==> i in STATE2.items;
  }

  /** A state of one complete configuration. */
  lemma ValidComplete(s: State, i: Item)
    requires s.basis == s.items == [i] && (i == Item(1, 3) || i == Item(3, 1))
    ensures ValidState(GRAMMAR, s)
  {
    forall j, rule: nat | j in ItemSet(s.items)
      ensures !Asks(GRAMMAR, j, rule)
    {
      if Asks(GRAMMAR, j, rule) {
        AskedRules(j, rule);
      }
    }
  }

  /** A number for the first configuration of each basis. */
  function Head(k: nat): nat
    requires k < 5
  {
    10 * STATES[k].basis[0].rule + STATES[k].basis[0].dot
  }

  lemma BasesDiffer()
    ensures forall i, j :: 0 <= i < j < |STATES| ==> STATES[i].basis != STATES[j].basis
  {
    assert Head(0) == 0 && Head(1) == 1 && Head(2) == 12 && Head(3) == 13 && Head(4) == 31;
    forall i, j | 0 <= i < j < |STATES|
      ensures STATES[i].basis != STATES[j].basis
    {
      assert Head(i) < Head(j);
    }
  }

  lemma LaterStates()
    ensures Later(STATES)
  {
  }

  lemma EnteredStates()
    ensures Connected(STATES)
  {
    assert ShiftsInto(STATES, 0, 0, 1) && ShiftsInto(STATES, 1, 0, 2);
    assert ShiftsInto(STATES, 1, 1, 4) && ShiftsInto(STATES, 2, 0, 3);
  }

  lemma AllValid()
    ensures ValidStates(GRAMMAR, STATES) && Later(STATES) && Connected(STATES)
  {
    EnteredStates();
    Valid0();
    Valid1();
    Valid2();
    ValidComplete(STATE3, Item(1, 3));
    ValidComplete(STATE4, Item(3, 1));
    BasesDiffer();
    LaterStates();
    hide ValidState, GRAMMAR, STATE0, STATE1, STATE2, STATE3, STATE4;
  }

  /** The symbol after a configuration's dot, for those of the states. */
  function Next(i: Item): Option<Symbol> {
    if i == Item(0, 0) || i == Item(1, 0) then Some(X)
    else if i == Item(1, 1) then Some(G)
    else if i == Item(1, 2) then Some(D)
    else if i == Item(3, 0) then Some(Terminal(TOKEN))
    else None
  }

  lemma NextIs()
    ensures forall i, x :: CanShift(GRAMMAR, i, x) <==> Next(i) == Some(x)
  {
  }

  /** The configurations of a state with `x` after the dot, moved over it, are a basis. */
  lemma ItemsOf(items: seq<Item>, basis: seq<Item>, x: Symbol)
    requires forall i :: i in items && CanShift(GRAMMAR, i, x) ==> Item(i.rule, i.dot + 1) in basis
    requires forall j :: j in basis ==> j.dot > 0 && Item(j.rule, j.dot - 1) in items
                                        && CanShift(GRAMMAR, Item(j.rule, j.dot - 1), x)
    ensures ItemSet(basis) == Advance(GRAMMAR, ItemSet(items), x)
  {
    hide CanShift;
    forall j
      ensures j in ItemSet(basis) <==> j in Advance(GRAMMAR, ItemSet(items), x)
    {
      if j in basis {
        var i := Item(j.rule, j.dot - 1);
        assert i in ItemSet(items) && Item(i.rule, i.dot + 1) == j;
      }
    }
  }

  lemma RightShift(s: State, k: nat, target: nat, i: Item)
    requires k < |s.shifts| && target < |STATES| && s.shifts[k].1 == target && i in s.items
    requires CanShift(GRAMMAR, i, s.shifts[k].0)
    requires var basis, x := STATES[target].basis, s.shifts[k].0;
             && (forall i :: i in s.items && CanShift(GRAMMAR, i, x) ==> Item(i.rule, i.dot + 1) in basis)
             && forall j :: j in basis ==> j.dot > 0 && Item(j.rule, j.dot - 1) in s.items
                                           && CanShift(GRAMMAR, Item(j.rule, j.dot - 1), x)
    ensures ShiftRight(GRAMMAR, STATES, s, k)
  {
    ItemsOf(s.items, STATES[target].basis, s.shifts[k].0);
    hide CanShift, Advance;
  }

  lemma CoversAll(s: State)
    requires |s.shifts| <= 2 && forall k :: 0 <= k < |s.shifts| ==> ShiftRight(GRAMMAR, STATES, s, k)
    requires |s.shifts| == 2 ==> s.shifts[0].0 != s.shifts[1].0
    requires forall i, x :: i in s.items && CanShift(GRAMMAR, i, x) ==>
               (|s.shifts| > 0 && s.shifts[0].0 == x) || (|s.shifts| > 1 && s.shifts[1].0 == x)
    ensures ShiftsExact(GRAMMAR, STATES, s)
  {
    hide CanShift, ShiftRight;
  }

  lemma Shift00()
    ensures ShiftRight(GRAMMAR, STATES, STATE0, 0)
  {
    NextIs();
    hide CanShift, GRAMMAR, ShiftRight;
    RightShift(STATE0, 0, 1, Item(0, 0));
  }

  lemma Exact0()
    ensures ShiftsExact(GRAMMAR, STATES, STATE0)
  {
    NextIs();
    Shift00();
    hide CanShift, GRAMMAR, ShiftRight, STATES;
    CoversAll(STATE0);
  }

  lemma Shift10()
    ensures ShiftRight(GRAMMAR, STATES, STATE1, 0)
  {
    NextIs();
    hide CanShift, GRAMMAR, ShiftRight;
    RightShift(STATE1, 0, 2, Item(1, 1));
  }

  lemma Shift11()
    ensures ShiftRight(GRAMMAR, STATES, STATE1, 1)
  {
    NextIs();
    hide CanShift, GRAMMAR, ShiftRight;
    RightShift(STATE1, 1, 4, Item(3, 0));
  }

  lemma Exact1()
    ensures ShiftsExact(GRAMMAR, STATES, STATE1)
  {
    NextIs();
    Shift10();
    Shift11();
    hide CanShift, GRAMMAR, ShiftRight, STATES;
    CoversAll(STATE1);
  }

  lemma Shift20()
    ensures ShiftRight(GRAMMAR, STATES, STATE2, 0)
  {
    NextIs();
    hide CanShift, GRAMMAR, ShiftRight;
    RightShift(STATE2, 0, 3, Item(1, 2));
  }

  lemma Exact2()
    ensures ShiftsExact(GRAMMAR, STATES, STATE2)
  {
    NextIs();
    Shift20();
    hide CanShift, GRAMMAR, ShiftRight, STATES;
    CoversAll(STATE2);
  }

  lemma ExactComplete(s: State, i: Item)
    requires s.items == [i] && s.shifts == [] && (i == Item(1, 3) || i == Item(3, 1))
    ensures ShiftsExact(GRAMMAR, STATES, s)
  {
    forall j, x | j in s.items
      ensures !CanShift(GRAMMAR, j, x)
    {
      NextIs();
    }
  }

  lemma AllExact()
    ensures ExactFrom(GRAMMAR, STATES, 0)
  {
    Exact0();
    Exact1();
    Exact2();
    ExactComplete(STATE3, Item(1, 3));
    ExactComplete(STATE4, Item(3, 1));
    hide ShiftsExact, GRAMMAR, STATE0, STATE1, STATE2, STATE3, STATE4;
  }

  // ----- its actions, before and after the passes -----

  const WAS0 := [Action(END, Reduce(2)), Action(TOKEN, Reduce(2)), Action(2, Accept), Action(3, Shift(1))]
  const WAS1 := [Action(END, Reduce(0)), Action(TOKEN, Shift(4)), Action(4, Shift(2))]
  const WAS2 := [Action(END, Reduce(4)), Action(TOKEN, Reduce(4)), Action(5, Shift(3))]
  const WAS3 := [Action(END, Reduce(1)), Action(TOKEN, Reduce(1))]
  const WAS4 := [Action(END, Reduce(3)), Action(TOKEN, Reduce(3))]
  const WAS := [WAS0, WAS1, WAS2, WAS3, WAS4]

  const LEFT: seq<Option<nat>> := [None, None, None, Some(1), Some(3)]

  const FINAL0 := [Action(DEFAULT, Reduce(2)), Action(TOKEN, Inactive), Action(2, Accept), Action(3, Shift(1))]
  const FINAL1 := [Action(END, Reduce(0)), Action(TOKEN, ShiftReduce(3)), Action(4, Shift(2))]
  const FINAL2 := [Action(DEFAULT, Reduce(4)), Action(TOKEN, Inactive), Action(5, ShiftReduce(1))]
  const FINAL3 := [Action(DEFAULT, Reduce(1)), Action(TOKEN, Inactive)]
  const FINAL4 := [Action(DEFAULT, Reduce(3)), Action(TOKEN, Inactive)]
  const FINAL := [FINAL0, FINAL1, FINAL2, FINAL3, FINAL4]

  /** State 2, with one goto and no token action, is the last that has a row. */
  const ORDER := [0, 1, 2, 4, 3]

  const BUILT := Built(GRAMMAR, 0, STATES, WAS, FINAL, FINAL, LEFT, UnitsOf(GRAMMAR, {}), ORDER, ORDER)

  lemma OnlyStartRule()
    ensures StartRules(GRAMMAR, 0) == {0}
  {
    forall r
      ensures r in StartRules(GRAMMAR, 0) <==> r == 0
    {
      if r in StartRules(GRAMMAR, 0) {
        RulesOf(r);
      }
    }
  }

  /** One by one: an action that has become what its target asks for, the default, or one merged into it. */
  predicate FinishedAt(was: Action, left: seq<Option<nat>>, rule: Option<nat>, final: Action) {
    && was.sp >= 0 && !was.kind.Inactive? && !was.kind.Error?
    && if rule.Some? && was.kind == Reduce(rule.value)
       then final == Action(DEFAULT, was.kind) || final == Action(was.sp, Inactive)
       else final == Action(was.sp, Became(was.kind, left)) && !final.kind.Inactive?
  }

  /** Lists whose entries correspond, with one default if a rule is given. */
  ghost predicate FinishedOneByOne(was: seq<Action>, left: seq<Option<nat>>, rule: Option<nat>, final: seq<Action>) {
    && |was| == |final| && OnePerLookahead(was) && OnePerLookahead(final)
    && (forall i :: 0 <= i < |was| ==> FinishedAt(was[i], left, rule, final[i]))
    && (rule.Some? ==> rule.value != 0 && Action(DEFAULT, Reduce(rule.value)) in final)
  }

  lemma FinishedByHand(was: seq<Action>, left: seq<Option<nat>>, rule: Option<nat>, final: seq<Action>)
    requires FinishedOneByOne(was, left, rule, final)
    ensures Finished(was, {0}, left, final)
  {
    hide OnePerLookahead, Became;
    forall sp: int | sp != DEFAULT
      ensures Own(final, sp) == Inactive || Own(final, sp) == Became(Own(was, sp), left)
      ensures !Own(was, sp).Inactive? ==> Lookup(final, sp) == Became(Own(was, sp), left)
    {
      OneLookahead(was, left, rule, final, sp);
    }
    if !Own(final, DEFAULT).Inactive? {
      var i := OwnFound(final, DEFAULT);
      assert FinishedAt(was[i], left, rule, final[i]);
    }
  }

  lemma OneLookahead(was: seq<Action>, left: seq<Option<nat>>, rule: Option<nat>, final: seq<Action>, sp: int)
    requires FinishedOneByOne(was, left, rule, final) && sp != DEFAULT
    ensures Own(final, sp) == Inactive || Own(final, sp) == Became(Own(was, sp), left)
    ensures !Own(was, sp).Inactive? ==> Lookup(final, sp) == Became(Own(was, sp), left)
  {
    hide OnePerLookahead;
    if !Own(final, sp).Inactive? {
      var i := OwnFound(final, sp);
      assert FinishedAt(was[i], left, rule, final[i]);
      OwnAt(was, i);
    }
    if !Own(was, sp).Inactive? {
      var i := OwnFound(was, sp);
      assert FinishedAt(was[i], left, rule, final[i]);
      if !final[i].kind.Inactive? && final[i].sp == sp {
        OwnAt(final, i);
      } else {
        var k :| 0 <= k < |final| && final[k] == Action(DEFAULT, Reduce(rule.value));
        OwnAt(final, k);
      }
    }
  }

  lemma FinishedReducing()
    ensures Finished(WAS0, {0}, LEFT, FINAL0) && Finished(WAS2, {0}, LEFT, FINAL2)
  {
    hide Finished;
    FinishedByHand(WAS0, LEFT, Some(2), FINAL0) by { assert FINAL0[0] in FINAL0; }
    FinishedByHand(WAS2, LEFT, Some(4), FINAL2) by { assert FINAL2[0] in FINAL2; }
  }

  lemma FinishedShifting()
    ensures Finished(WAS1, {0}, LEFT, FINAL1)
  {
    hide Finished;
    FinishedByHand(WAS1, LEFT, None, FINAL1);
  }

  lemma FinishedLeft()
    ensures Finished(WAS3, {0}, LEFT, FINAL3) && Finished(WAS4, {0}, LEFT, FINAL4)
  {
    hide Finished;
    FinishedByHand(WAS3, LEFT, Some(1), FINAL3) by { assert FINAL3[0] in FINAL3; }
    FinishedByHand(WAS4, LEFT, Some(3), FINAL4) by { assert FINAL4[0] in FINAL4; }
  }

  lemma AllFinished()
    ensures forall s :: 0 <= s < 5 ==> Finished(WAS[s], {0}, LEFT, FINAL[s])
  {
    FinishedReducing();
    FinishedShifting();
    FinishedLeft();
    hide Finished, WAS0, WAS1, WAS2, WAS3, WAS4, FINAL0, FINAL1, FINAL2, FINAL3, FINAL4, LEFT;
  }

  lemma AllLeftAtOnce()
    ensures LeftBy(WAS, {0}, LEFT)
  {
    forall s: nat, rule: nat {:trigger OnlyAnswer(WAS[s], rule)} | 0 < s < 5
      ensures LEFT[s] == Some(rule) <==> OnlyAnswer(WAS[s], rule) && rule !in {0}
    {
      LeftAtOnce(s, rule);
    }
  }

  lemma LeftAtOnce(s: nat, rule: nat)
    requires 0 < s < 5
    ensures LEFT[s] == Some(rule) <==> OnlyAnswer(WAS[s], rule) && rule !in {0}
  {
    if s == 3 || s == 4 {
      assert OnlyAnswer(WAS[s], rule) ==> ReducesBy(WAS[s][0], rule);
      if LEFT[s] == Some(rule) {
        assert ReducesBy(WAS[s][0], rule);
      }
    } else {
      assert WAS[s][2].kind.Shift?;
    }
  }

  // ----- every condition on what the generator has built is met -----

  lemma OneEach()
    ensures forall s :: 0 <= s < 5 ==> OnePerLookahead(WAS[s]) && OnePerLookahead(FINAL[s])
  {
  }

  /** One active action for each lookahead, with a symbol that has one number. */
  lemma Found(s: nat)
    requires s < 5
    ensures ActionsFound(BUILT, s)
  {
    OneEach();
    OnlyStartRule();
    assert OneButTies(WAS[s]);
    FoundEach(s);
    FoundGotos(s);
    hide OnePerLookahead, OneButTies, StartRules, Founded, Actions.HasGotos, GRAMMAR, STATES;
    assert NoDefault(WAS[s]) && GotosOnly(WAS[s], 2);
    assert forall i :: 0 <= i < |WAS[s]| ==> !WAS[s][i].kind.ShiftReduce?;
  }

  lemma FoundGotos(s: nat)
    requires s < 5
    ensures Actions.HasGotos(GRAMMAR, 0, STATES, s, WAS[s])
  {
    OneEach();
    hide OnePerLookahead;
    if s == 0 {
      OwnAt(WAS0, 2);
      OwnAt(WAS0, 3);
    } else if s == 1 {
      OwnAt(WAS1, 2);
    } else if s == 2 {
      OwnAt(WAS2, 2);
    }
  }

  lemma FoundEach(s: nat)
    requires s < 5
    ensures forall i :: 0 <= i < |WAS[s]| ==> Founded(BUILT, s, WAS[s][i].sp, WAS[s][i].kind)
  {
    OnlyStartRule();
    ShiftsListed();
    hide StartRules, Actions.ShiftsTo;
    forall i | 0 <= i < |WAS[s]|
      ensures Founded(BUILT, s, WAS[s][i].sp, WAS[s][i].kind)
    {
      assert STATE0.items[2] == Item(2, 0) && STATE1.items[0] == Item(0, 1) && STATE2.items[1] == Item(4, 0);
      assert STATE3.items[0] == Item(1, 3) && STATE4.items[0] == Item(3, 1);
    }
  }

  lemma ShiftsListed()
    ensures Actions.ShiftsTo(GRAMMAR, STATE0, 3, 1)
    ensures Actions.ShiftsTo(GRAMMAR, STATE1, TOKEN, 4) && Actions.ShiftsTo(GRAMMAR, STATE1, 4, 2)
    ensures Actions.ShiftsTo(GRAMMAR, STATE2, 5, 3)
  {
    assert STATE0.shifts[0] == (X, 1) && STATE2.shifts[0] == (D, 3);
    assert STATE1.shifts[0] == (G, 2) && STATE1.shifts[1] == (Terminal(TOKEN), 4);
  }

  lemma FirstBasis()
    ensures ItemSet(STATE0.basis) == set r | 0 <= r < |GRAMMAR.rules| && GRAMMAR.rules[r].lhs == 0 :: Item(r, 0)
  {
    forall i
      ensures i in ItemSet(STATE0.basis) <==>
                i in set r | 0 <= r < |GRAMMAR.rules| && GRAMMAR.rules[r].lhs == 0 :: Item(r, 0)
    {
      if r :| 0 <= r < |GRAMMAR.rules| && GRAMMAR.rules[r].lhs == 0 && i == Item(r, 0) {
        RulesOf(r);
      }
    }
  }

  lemma BuiltConstructed()
    ensures Constructed(BUILT)
  {
    GrammarGenerable();
    AllValid();
    AllExact();
    FirstBasis();
    OnlyStartRule();
    AllFinished();
    AllLeftAtOnce();
    forall s | 0 <= s < 5
      ensures ActionsFound(BUILT, s)
      ensures Followed(BUILT.units, FINAL[s], FINAL[s])
    {
      Found(s);
      NothingFollowed(BUILT.units, FINAL[s]);
    }
    assert StatesFound(BUILT) && Resorted(BUILT) && UnitsRight(BUILT);
    hide StatesFound, Resorted, UnitsRight, ActionsFound, Finished, Followed, LeftBy, StartRules, GRAMMAR, STATES;
  }

  // ----- the tables -----

  const ROWS := RowLists([FINAL0, FINAL1, FINAL2], ORDER, Tables(2, 5, 5, [], [], [], [], []), 2, 6)

  lemma RowsBuilt()
    ensures RowsOf(BUILT, ROWS) && RowsPackable(ROWS)
  {
    OneEach();
    hide OnePerLookahead;
    assert Resorted(BUILT);
  }

  // ----- every round finds a place -----

  /** What one more action of a row adds to its round. */
  function Entry(a: Action, terminal: bool): seq<Packing.Slot> {
    if Counted(a, 2, terminal) then [Packing.Slot(a.sp, Code(ORDER, ROWS.t, a.kind, terminal))] else []
  }

  function RowEntries(ap: seq<Action>, terminal: bool): seq<Packing.Slot> {
    Entries(ORDER, ROWS.t, ap, 2, terminal)
  }

  lemma EntriesMore(ap: seq<Action>, a: Action, terminal: bool)
    ensures RowEntries([], terminal) == []
            && RowEntries(ap + [a], terminal) == RowEntries(ap, terminal) + Entry(a, terminal)
  {
    assert (ap + [a])[..|ap|] == ap;
  }

  lemma EntriesOf(ap: seq<Action>, terminal: bool)
    requires 3 <= |ap| <= 4
    ensures RowEntries(ap, terminal)
            == Entry(ap[0], terminal) + Entry(ap[1], terminal) + Entry(ap[2], terminal)
               + if |ap| == 4 then Entry(ap[3], terminal) else []
  {
    hide Entry, RowEntries, ORDER, ROWS;
    assert [] + [ap[0]] == ap[..1] && ap[..1] + [ap[1]] == ap[..2] && ap[..2] + [ap[2]] == ap[..3];
    EntriesMore([], ap[0], terminal);
    EntriesMore(ap[..1], ap[1], terminal);
    EntriesMore(ap[..2], ap[2], terminal);
    if |ap| == 4 {
      assert ap[..3] + [ap[3]] == ap;
      EntriesMore(ap[..3], ap[3], terminal);
    } else {
      assert ap[..3] == ap;
    }
  }

  /** Least and greatest lookahead of each round. */
  function Extremes(id: nat): Option<(int, int)> {
    if id == 1 then Some((2, 3)) else if id == 2 then Some((0, 1)) else if id == 3 then Some((4, 4))
    else if id == 5 then Some((5, 5)) else None
  }

  lemma RoundExtremes(id: nat)
    requires id < 6
    ensures ROWS.Count(id) == 0 <==> Extremes(id).None?
    ensures Extremes(id).Some? ==>
              var entries := ROWS.RoundEntries(id);
              entries != [] && (Packing.Least(entries), Packing.Greatest(entries)) == Extremes(id).value
  {
    EntriesOf(FINAL0, id % 2 == 0);
    EntriesOf(FINAL1, id % 2 == 0);
    EntriesOf(FINAL2, id % 2 == 0);
    hide Code, Entries;
  }

  function Costs(id: nat): nat {
    if id == 1 then 5 else if id == 2 then 4 else if id == 3 then 6 else if id == 5 then 7 else 0
  }

  lemma CostsAre()
    ensures forall id :: 0 <= id < 6 ==>
              CostOf(ROWS, id) == Costs(id)
  {
    hide Entries, ActionCount, Packing.Least, Packing.Greatest, ROWS;
    RowsSizes();
    forall id | 0 <= id < 6
      ensures CostOf(ROWS, id) == Costs(id)
    {
      RoundExtremes(id);
    }
  }

  lemma RowsSizes()
    ensures |ROWS.lists| == 3 && ROWS.nTerminals == 2 && ROWS.nsymbol == 6
  {
  }

  lemma SpentIs(ids: set<nat>)
    ensures SpentOn(ROWS, ids, 6)
            == (if 1 in ids then 5 else 0) + (if 2 in ids then 4 else 0) + (if 3 in ids then 6 else 0)
               + (if 5 in ids then 7 else 0)
  {
    CostsAre();
    RowsSizes();
    hide CostOf, ROWS;
    assert SpentOn(ROWS, ids, 0) == 0 && SpentOn(ROWS, ids, 1) == 0;
    assert SpentOn(ROWS, ids, 2) == if 1 in ids then 5 else 0;
    assert SpentOn(ROWS, ids, 4) == SpentOn(ROWS, ids, 2) + (if 2 in ids then 4 else 0) + (if 3 in ids then 6 else 0);
  }

  lemma RowsSmall()
    ensures AllSmall(ROWS)
  {
    hide Entries, ActionCount, Packing.Least, Packing.Greatest, SpentOn, ROWS;
    RowsSizes();
    forall id | 0 <= id < 6
      ensures RoundSmall(ROWS, id)
    {
      RoundExtremes(id);
      SpentIs(AllBut(ROWS, id));
    }
  }

  // ----- the offset that is not there -----

  /** The driver reduces X and shifts the token, whose rule is then reduced, and goes to state 2. */
  lemma AfterToken()
    ensures Lookup(FINAL0, TOKEN) == Reduce(2) && Lookup(FINAL0, 3) == Shift(1)
    ensures Lookup(FINAL1, TOKEN) == ShiftReduce(3) && Lookup(FINAL1, 4) == Shift(2)
  {
    OneEach();
    hide OnePerLookahead;
    OwnAt(FINAL0, 0);
    OwnAt(FINAL0, 3);
    if !Own(FINAL0, TOKEN).Inactive? {
      var i := OwnFound(FINAL0, TOKEN);
    }
    OwnAt(FINAL1, 1);
    OwnAt(FINAL1, 2);
  }

  /** All rounds find a place, and still there is no offset for the tokens of state 2. */
  method ReportShort() returns (t: Option<Tables>)
    ensures Constructed(BUILT) && RowsOf(BUILT, ROWS)
    ensures t.Some? && BUILT.number[2] == t.value.maxShift == 2 && |t.value.shiftOfst| <= 2 && !Written(BUILT, t.value)
  {
    BuiltConstructed();
    RowsBuilt();
    RowsSmall();
    RoundExtremes(4);
    RowsSizes();
    WrittenNeeds();
    assert BUILT.number[2] == 2;
    hide Constructed, Written, AllSmall, RowsOf, RowsPackable, WrittenFrom, ActionCount, Packing.Runs,
         Packing.ValidTable,
         BUILT, ROWS, GRAMMAR, STATES, WAS, FINAL;
    var placed; ghost var tables, rounds;
    t, placed, tables, rounds := ReportTable(ROWS);
    ShortRows(t.value, tables, rounds);
  }

  lemma ShortRows(t: Tables, tables: seq<Packing.Table>, rounds: seq<Packing.Insertion>)
    requires Packing.Runs(tables, rounds) && WrittenFrom(ROWS, t, tables[|rounds|], rounds)
    ensures t.maxShift == 2
  {
  }

  lemma WrittenNeeds()
    ensures forall b: Built, t: Tables :: Constructed(b) && |t.shiftOfst| <= t.maxShift ==> !Written(b, t)
  {
  }
}
