/**
  From a grammar to a parser: first sets, states, follow sets, actions, compressed and
  packed, and the driver that runs on the tables. What it accepts is derived from the start
  symbol, and it accepts at the end of input only; a sentence of an LALR(1) grammar is accepted.
 */
module ParserGenerator {
  import opened Options
  import opened Grammars
  import opened Sets
  import opened LrDriver
  import opened Lr0
  import opened CompressTables
  import opened GeneratedTables
  import opened TableWriter
  import opened UnitRules
  import opened Completeness
  import FirstSets
  import FollowSets
  import Links
  import Lalr
  import Actions
  import Packing = ActTab

  // ----- follow sets -----

  method ComputeFollow(states: seq<State>, sets: FirstSets.GrammarSets) returns (fws: SetTable)
    requires sets.Valid() && ValidStates(sets.g, states) && ExactFrom(sets.g, states, 0) && 0 < |states|
    requires FirstSets.SoundNullable(sets.g, sets.nullable) && FirstSets.ClosedNullable(sets.g, sets.nullable)
    requires FirstSets.SoundFirst(sets.g, sets.First()) && FirstSets.ClosedFirst(sets.g, sets.nullable, sets.First())
    requires sets.g.nTerminals > 0
    ensures fresh(fws) && fresh(fws.bits) && fws.Valid()
    ensures fws.rows == |Links.Configs(states)| && fws.size == sets.g.nTerminals
    ensures Links.FollowRight(sets.g, states, fws.pairs)
  {
    hide FirstSets.SoundNullable, FirstSets.ClosedNullable, FirstSets.SoundFirst, FirstSets.ClosedFirst, ValidStates,
         ExactFrom, Links.Configs, Links.FollowRight, Links.EndsRight, Links.MovesRight, Links.TurnedTo,
           FollowSets.Comes;
    var recorder := new Links.Recorder(states, sets);
    fws := recorder.fws;
    recorder.StartSets();
    var forward := recorder.RecordClosures();
    var back := recorder.RecordMoves();
    BackInside(sets.g, states, back);
    var links := Links.FindLinks(back, forward);
    ghost var init := fws.pairs;
    LinksAreRight(sets.g, states, forward, back, links);
    StartsAreRight(sets.g, states, init);
    var propagation := new FollowSets.Propagation(links, fws);
    propagation.FindFollowSets();
    assert Links.FollowFrom(sets.g, states, links, init, fws.pairs);
    FollowIs(sets.g, states, links, init, fws.pairs);
  }

  lemma FollowIs(g: Grammar, states: seq<State>, links: FollowSets.Links, init: Pairs, follow: Pairs)
    requires Links.FollowFrom(g, states, links, init, follow)
    ensures Links.FollowRight(g, states, follow)
  {
  }

  lemma BackInside(g: Grammar, states: seq<State>, back: seq<seq<nat>>)
    requires |back| == |Links.Configs(states)|
    requires forall d: nat :: d < |back| ==> Links.MovesRight(g, states, d, back[d])
    ensures forall d, j :: 0 <= d < |back| && 0 <= j < |back[d]| ==> back[d][j] < |back|
  {
    hide Links.Configs, Links.MovesTo;
    forall d, j | 0 <= d < |back| && 0 <= j < |back[d]|
      ensures back[d][j] < |back|
    {
      assert Links.MovesRight(g, states, d, back[d]) && back[d][j] in back[d];
    }
  }

  lemma LinksAreRight(g: Grammar, states: seq<State>, forward: seq<seq<nat>>, back: seq<seq<nat>>,
                      links: FollowSets.Links)
    requires |forward| == |back| == |links| == |Links.Configs(states)|
    requires forall c: nat :: c < |forward| ==> Links.EndsRight(g, Links.Configs(states), c, forward[c])
    requires forall d: nat :: d < |back| ==> Links.MovesRight(g, states, d, back[d])
    requires forall c: nat :: c < |links| ==> Links.TurnedTo(back, forward[c], |back|, c, links[c])
    ensures Links.LinksRight(g, states, links) && FollowSets.ValidLinks(links)
  {
    hide Links.Configs, Links.MovesTo, Links.MayEnd;
    forall c: nat, d: nat
      ensures FollowSets.Linked(links, c, d) <==>
              c < |links| && d < |links| && Links.LinksTo(g, states, Links.Configs(states)[c], Links.Configs(states)[d])
    {
      if c < |links| {
        assert Links.TurnedTo(back, forward[c], |back|, c, links[c])
               && Links.EndsRight(g, Links.Configs(states), c, forward[c]);
        assert d < |back| ==> Links.MovesRight(g, states, d, back[d]);
      }
    }
    forall c, j | 0 <= c < |links| && 0 <= j < |links[c]|
      ensures links[c][j] < |links|
    {
      assert links[c][j] in links[c] && FollowSets.Linked(links, c, links[c][j]);
    }
  }

  lemma StartsAreRight(g: Grammar, states: seq<State>, init: Pairs)
    requires forall p :: p in init <==>
               (p.0 < |Links.Configs(states)| && Links.AtEnd(states, Links.Configs(states)[p.0]) && p.1 == 0)
               || (p.0 < |Links.Configs(states)|
                   && Links.Preceded(g, Links.Configs(states), |Links.Configs(states)|, p.0, p.1))
    ensures Links.StartsRight(g, states, init)
  {
    hide Links.Configs, Links.Preceded, Links.AtEnd;
    forall d: nat, t: nat
      ensures (d, t) in init <==>
                d < |Links.Configs(states)| &&
                ((Links.AtEnd(states, Links.Configs(states)[d]) && t == 0)
                 || Links.Preceded(g, Links.Configs(states), |Links.Configs(states)|, d, t))
    {
      assert (d, t).0 == d && (d, t).1 == t;
    }
  }

  // ----- actions -----

  /** A reduce by a rule of the start symbol is on the end of input, whatever the conflicts. */
  lemma ReducibleOn(b: Built, follow: Pairs, s: nat, sp: int, rule: nat)
    requires s < |b.states| && !Links.OnRight(b.g, b.start) && Links.FollowRight(b.g, b.states, follow)
    requires Actions.Reducible(b.g, b.states, follow, s, sp, rule)
    ensures ReducesOn(b, s, sp, rule)
  {
    hide FollowSets.Comes, Links.LinksRight, Links.StartsRight, Links.Configs, Links.OnRight;
    var links, init :| Links.FollowFrom(b.g, b.states, links, init, follow);
    var k :| 0 <= k < |b.states[s].items| && Actions.ReduceOn(b.g, b.states[s].items[k], rule)
      && (Links.First(b.states, s) + k, sp) in follow;
    var c: nat := Links.First(b.states, s) + k;
    assert b.states[s].items[k] == Item(rule, |b.g.rules[rule].rhs|);
    if rule in StartRules(b.g, b.start) {
      ConfigNumber(b.g, b.states, links, s, k);
      assert FollowSets.Comes(links, init, c, sp);
      hide Links.FollowRight, Links.FollowFrom, Actions.Reducible, Links.First;
      Links.StartFollowsEnd(b.g, b.start, b.states, links, init, c, sp);
    }
  }

  lemma ConfigNumber(g: Grammar, states: seq<State>, links: FollowSets.Links, s: nat, k: nat)
    requires s < |states| && k < |states[s].items| && Links.LinksRight(g, states, links)
    ensures Links.First(states, s) + k < |Links.Configs(states)| == |links|
    ensures Links.Configs(states)[Links.First(states, s) + k] == Links.Config(s, states[s].items[k])
  {
    Links.ConfigAt(states, |states|, s, k);
  }

  /** What FindActions leaves is what the passes and the driver build on, unless ties are left. */
  lemma FoundActions(b: Built, p: Actions.Precedences, follow: Pairs, s: nat, was: seq<Action>)
    requires StatesFound(b) && s < |b.states| == |b.was| && Links.FollowRight(b.g, b.states, follow)
    requires !Links.OnRight(b.g, b.start)
    requires Actions.Found(b.g, p, b.start, b.states, follow, s, was, b.was[s])
    requires Settled(b.was[s], StartRules(b.g, b.start), None)
    ensures ActionsFound(b, s)
  {
    hide Settled, GotosOnly, Actions.HasGotos, Actions.Found, Actions.ShiftsTo, Actions.Reducible, Links.FollowRight,
         ValidStates, ExactFrom, Links.OnRight;
    Actions.StateFacts(b.g, b.start, b.states, s);
    Actions.FoundFounded(b.g, p, b.start, b.states, follow, s, was, b.was[s]);
    Actions.FoundGotos(b.g, p, b.start, b.states, follow, s, was, b.was[s]);
    forall i | 0 <= i < |b.was[s]|
      ensures Founded(b, s, b.was[s][i].sp, b.was[s][i].kind) && b.was[s][i].sp != DEFAULT
              && !b.was[s][i].kind.ShiftReduce?
    {
      var e := b.was[s][i];
      assert Actions.Founded(b.g, b.start, b.states, follow, s, e);
      if e.kind.Reduce? {
        ReducibleOn(b, follow, s, e.sp, e.kind.rule);
      }
    }
  }

  // ----- the passes over all states -----

  /** The states' lists as objects, all different. */
  method MakeStates(lists: seq<seq<Action>>) returns (states: seq<ParserState>)
    ensures |states| == |lists| && AllDistinct(states)
    ensures forall s :: 0 <= s < |states| ==>
              fresh(states[s]) && states[s].ap == lists[s] && states[s].pDfltReduce == None && !states[s].autoReduce
  {
    states := [];
    while |states| < |lists|
      invariant |states| <= |lists| && AllDistinct(states)
      invariant forall s :: 0 <= s < |states| ==>
                  fresh(states[s]) && states[s].ap == lists[s] && states[s].pDfltReduce == None && !states[s].autoReduce
      decreases |lists| - |states|
    {
      var made := new ParserState(lists[|states|]);
      states := states + [made];
    }
  }

  /** The results of the passes as values. */
  method ReadStates(states: seq<ParserState>) returns (lists: seq<seq<Action>>, left: seq<bool>)
    ensures |lists| == |left| == |states|
    ensures forall s :: 0 <= s < |states| ==>
              lists[s] == states[s].ap && left[s] == Left(states[s].autoReduce, states[s].pDfltReduce).Some?
  {
    lists, left := [], [];
    while |lists| < |states|
      invariant |lists| == |left| <= |states|
      invariant forall s :: 0 <= s < |lists| ==>
                  lists[s] == states[s].ap && left[s] == Left(states[s].autoReduce, states[s].pDfltReduce).Some?
      decreases |states| - |lists|
    {
      var state := states[|lists|];
      left := left + [state.autoReduce && state.pDfltReduce.Some?];
      lists := lists + [state.ap];
    }
  }

  /** Where an error has tied with a reduce, the state reduces by one rule only. */
  predicate AllSettled(lists: seq<seq<Action>>, start: set<nat>) {
    forall s :: 0 <= s < |lists| ==> Settled(lists[s], start, None)
  }

  method Compress(g: Grammar, start: nat, lists: seq<seq<Action>>, noCode: set<nat>, limit: nat)
    returns (ok: bool, final: seq<seq<Action>>, autoReduce: seq<bool>,
             ghost left: seq<Option<nat>>, ghost mid: seq<seq<Action>>)
    requires WellShifted(lists)
    requires forall s :: 0 <= s < |lists| ==>
               Usable(lists[s], StartRules(g, start), None) && GotosOnly(lists[s], g.nTerminals)
    ensures |left| == |mid| == |autoReduce| == |final| == |lists| && LeftBy(lists, StartRules(g, start), left)
    ensures forall s :: 0 <= s < |lists| ==>
              Finished(lists[s], StartRules(g, start), left, mid[s]) && autoReduce[s] == left[s].Some?
    ensures ok ==> forall s :: 0 <= s < |lists| ==>
              Followed(UnitsOf(g, noCode), mid[s], final[s]) && Unskipped(UnitsOf(g, noCode), final[s])
    ensures (forall s :: 0 <= s < |lists| ==> CanFollow(UnitsOf(g, noCode), mid[s], limit)) ==> ok
  {
    hide Usable, GotosOnly, WellShifted, Finished, LeftBy, Followed, Unskipped, CanFollow, Left, AllDistinct;
    var states := MakeStates(lists);
    ListsAre(states, lists);
    ok, left, mid := CompressTables.CompressTables(states, StartRules(g, start), None, UnitsOf(g, noCode), limit);
    final, autoReduce := ReadStates(states);
  }

  lemma ListsAre(states: seq<ParserState>, lists: seq<seq<Action>>)
    requires |states| == |lists| && forall s :: 0 <= s < |states| ==> states[s].ap == lists[s]
    ensures Lists(states) == lists
  {
    forall s | 0 <= s < |states|
      ensures Lists(states)[s] == lists[s]
    {
      ListsAt(states, s);
    }
  }

  // ----- what the passes may rely on -----

  /** The states before they are numbered, and numbered as they were made. */
  function Unsorted(g: Grammar, start: nat, states: seq<State>, was: seq<seq<Action>>): Built {
    var ids := seq(|states|, s => s);
    Built(g, start, states, was, [], [], [], UnitsOf(g, {}), ids, ids)
  }

  lemma ShiftsAhead(b: Built)
    requires StatesFound(b) && |b.was| == |b.states| && forall s :: 0 <= s < |b.states| ==> ActionsFound(b, s)
    ensures WellShifted(b.was)
  {
    var b0 := Unsorted(b.g, b.start, b.states, b.was);
    assert StatesFound(b0) && Resorted(b0);
    hide StatesFound, Resorted;
    forall s, i | 0 <= s < |b.was| && 0 <= i < |b.was[s]|
      ensures b.was[s][i].kind.Shift? ==> 0 < b.was[s][i].kind.target < |b.was|
      ensures b.was[s][i].kind.Accept? ==> s == 0
    {
      assert ActionsFound(b, s) && Founded(b, s, b.was[s][i].sp, b.was[s][i].kind);
      if b.was[s][i].kind.Shift? {
        ShiftIsEdge(b0, s, b.was[s][i].sp, b.was[s][i].kind.target);
      }
    }
  }

  /** Only symbols of the grammar have actions. */
  lemma SymbolRange(b: Built, s: nat, sp: int)
    requires StatesFound(b) && s < |b.states| && s < |b.was| && ActionsFound(b, s) && b.start < b.g.nNonterminals
    requires !Own(b.was[s], sp).Inactive?
    ensures 0 <= sp < b.g.nTerminals + b.g.nNonterminals
  {
    hide StatesFound, Actions.HasGotos, Usable;
    FoundedAt(b, s, sp);
    var own := Own(b.was[s], sp);
    if own.Shift? {
      var k :| 0 <= k < |b.states[s].shifts| && b.states[s].shifts[k].1 == own.target
        && Actions.Reads(b.g, b.states[s].shifts[k].0, sp);
      ShiftSymbol(b, s, k);
    }
  }

  lemma FinalPackable(b: Built, s: nat)
    requires Constructed(b) && s < |b.states| && b.start < b.g.nNonterminals
    ensures Packable(b.number, b.final[s], b.g.nTerminals + b.g.nNonterminals)
  {
    var ap := b.final[s];
    MidOwn(b, s, 0);
    FollowedOwn(b.units, b.mid[s], ap, 0);
    assert |b.number| == |b.states|;
    forall i | 0 <= i < |ap| && !ap[i].kind.Inactive?
      ensures ap[i].sp < b.g.nTerminals + b.g.nNonterminals
      ensures ap[i].kind.Shift? ==> ap[i].kind.target < |b.number|
    {
      EntryInside(b, s, i);
    }
  }

  lemma EntryInside(b: Built, s: nat, i: nat)
    requires Constructed(b) && s < |b.states| && b.start < b.g.nNonterminals
    requires i < |b.final[s]| && !b.final[s][i].kind.Inactive?
    ensures b.final[s][i].sp < b.g.nTerminals + b.g.nNonterminals
    ensures b.final[s][i].kind.Shift? ==> b.final[s][i].kind.target < |b.states|
  {
    hide StatesFound, LeftBy, ActionsFound, Followed, Finished, UnitsRight;
    var sp := b.final[s][i].sp;
    MidOwn(b, s, 0);
    FollowedOwn(b.units, b.mid[s], b.final[s], sp);
    OwnAt(b.final[s], i);
    if sp >= 0 {
      FinalRight(b, s, sp);
      MidOwn(b, s, sp);
      assert ActionsFound(b, s);
      SymbolRange(b, s, sp);
    } else {
      NegativeIsDefault(b, s, sp);
      DefaultRight(b, s);
    }
  }

  /** The only action for something that is no symbol is the default. */
  lemma NegativeIsDefault(b: Built, s: nat, sp: int)
    requires Constructed(b) && s < |b.states| && sp < 0 && !Own(b.final[s], sp).Inactive? && b.start < b.g.nNonterminals
    ensures sp == DEFAULT
  {
    hide StatesFound, LeftBy, Followed, UnitsRight;
    MidOwn(b, s, 0);
    FollowedOwn(b.units, b.mid[s], b.final[s], sp);
    assert Finished(b.was[s], StartRules(b.g, b.start), b.left, b.mid[s]) && ActionsFound(b, s);
    hide Constructed;
    if sp != DEFAULT {
      SymbolRange(b, s, sp);
    }
  }

  // ----- the generator -----

  /** What the generator demands of a grammar: it reports an error where the start symbol is on a right-hand side. */
  predicate Generable(g: Grammar, start: nat) {
    ValidGrammar(g) && g.nTerminals > 0 && start < g.nNonterminals && !Links.OnRight(g, start)
  }

  /** The states, from first sets to actions. `lists` has no value after a failed assertion. */
  method BuildStates(g: Grammar, start: nat, p: Actions.Precedences)
    returns (states: seq<State>, lists: Option<seq<seq<Action>>>, ghost follow: Pairs, ghost was: seq<seq<Action>>)
    requires Generable(g, start)
    ensures FoundStates(g, start, states)
    ensures Links.FollowRight(g, states, follow)
    ensures lists.None? ==> Actions.SomeTie(p) && Actions.TiedEarly(g, p, start, states, follow)
    ensures lists.Some? ==> |lists.value| == |was| == |states| && forall s :: 0 <= s < |states| ==>
            Actions.Found(g, p, start, states, follow, s, was[s], lists.value[s])
  {
    hide ValidStates, ExactFrom, Links.FollowRight, Actions.Found, Actions.SomeTie, Later, Connected, Links.OnRight,
         Links.Configs;
    var sets := new FirstSets.GrammarSets(g);
    sets.FindFirstSets();
    var builder := new Builder(g);
    builder.FindStates(start);
    states := builder.states;
    var fws := ComputeFollow(states, sets);
    follow := fws.pairs;
    var ok, found;
    ok, found, was := Actions.FindActions(g, start, states, fws, p);
    lists := if ok then Some(found) else None;
  }

  lemma StatesAre(b: Built)
    requires FoundStates(b.g, b.start, b.states)
    ensures StatesFound(b) && |b.states| > 0
  {
  }

  /** Without ties there is nothing to settle. */
  lemma UntiedSettled(g: Grammar, start: nat, p: Actions.Precedences, states: seq<State>, follow: Pairs,
                      was: seq<seq<Action>>, lists: seq<seq<Action>>)
    requires |lists| == |was| == |states| && !Actions.SomeTie(p)
    requires forall s :: 0 <= s < |states| ==> Actions.Found(g, p, start, states, follow, s, was[s], lists[s])
    ensures AllSettled(lists, StartRules(g, start))
  {
    assert forall sp: int, rule: nat :: !Actions.Ties(p, sp, rule);
    hide Actions.Ties, Actions.Collected, Actions.ResolvedFrom, Actions.Answered, Actions.SomeTie;
    forall s | 0 <= s < |lists|
      ensures Settled(lists[s], StartRules(g, start), None)
    {
      assert Actions.Found(g, p, start, states, follow, s, was[s], lists[s]);
      Actions.UntiedFound(g, p, start, states, follow, s, was[s], lists[s]);
    }
  }

  /**
    With what can follow in the built states, some state's actions have a tie that an
    assertion fails on, or one whose error stays beside a reduce that is no default.
   */
  ghost predicate Undecided(b: Built, p: Actions.Precedences) {
    exists follow ::
      Links.FollowRight(b.g, b.states, follow)
      && (Actions.TiedEarly(b.g, p, b.start, b.states, follow) || ErrorStays(b, p, follow))
  }

  ghost predicate ErrorStays(b: Built, p: Actions.Precedences, follow: Pairs) {
    exists s: nat, was, ap ::
      s < |b.states| && Actions.Found(b.g, p, b.start, b.states, follow, s, was, ap)
      && !Settled(ap, StartRules(b.g, b.start), None)
  }

  lemma TieLeft(b: Built, p: Actions.Precedences, follow: Pairs)
    requires Links.FollowRight(b.g, b.states, follow) && Actions.TiedEarly(b.g, p, b.start, b.states, follow)
    ensures Undecided(b, p)
  {
  }

  lemma ErrorLeft(b: Built, p: Actions.Precedences, follow: Pairs, was: seq<seq<Action>>, lists: seq<seq<Action>>)
    requires |lists| == |was| == |b.states| && Links.FollowRight(b.g, b.states, follow)
    requires forall s :: 0 <= s < |b.states| ==>
               Actions.Found(b.g, p, b.start, b.states, follow, s, was[s], lists[s])
    requires !AllSettled(lists, StartRules(b.g, b.start))
    ensures Undecided(b, p)
  {
    hide Actions.Found, Settled, Links.FollowRight;
    var s :| 0 <= s < |lists| && !Settled(lists[s], StartRules(b.g, b.start), None);
    assert Actions.Found(b.g, p, b.start, b.states, follow, s, was[s], lists[s]);
    assert ErrorStays(b, p, follow);
  }

  /** Settled lists are ready for the passes. */
  lemma ReadyToCompress(b: Built, p: Actions.Precedences, follow: Pairs, was: seq<seq<Action>>)
    requires StatesFound(b) && |was| == |b.was| == |b.states| && Links.FollowRight(b.g, b.states, follow)
    requires !Links.OnRight(b.g, b.start) && AllSettled(b.was, StartRules(b.g, b.start))
    requires forall s :: 0 <= s < |b.states| ==>
               Actions.Found(b.g, p, b.start, b.states, follow, s, was[s], b.was[s])
    ensures WellShifted(b.was) && forall s :: 0 <= s < |b.states| ==>
              ActionsFound(b, s) && Usable(b.was[s], StartRules(b.g, b.start), None)
              && GotosOnly(b.was[s], b.g.nTerminals)
  {
    hide StatesFound, Links.FollowRight, Settled, Actions.Found, Actions.HasGotos, WellShifted, Founded, Usable,
         GotosOnly;
    forall s | 0 <= s < |b.states|
      ensures ActionsFound(b, s) && Usable(b.was[s], StartRules(b.g, b.start), None)
              && GotosOnly(b.was[s], b.g.nTerminals)
    {
      FoundActions(b, p, follow, s, was[s]);
    }
    ShiftsAhead(b);
  }

  predicate LastRowHasTokens(r: RowLists) {
    |r.lists| > 0 && r.Count(2 * |r.lists| - 2) > 0
  }

  /**
    A grammar's tables. There are rows for them unless in some state a token without
    associativity ties with a rule and the error cannot be settled, or skipped rules lead on
    for more than `limit` steps; and tables, unless a round is laid or may be read outside the
    array. When every round found a place, the driver finds
    in the tables what has become of each state's actions, exactly when the last state that
    has a row has an action for a token.
   */
  method GenerateTables(g: Grammar, start: nat, p: Actions.Precedences, noCode: set<nat>, limit: nat)
    returns (t: Option<Tables>, placed: bool, rows: Option<RowLists>, ghost b: Built)
    requires Generable(g, start)
    ensures t.Some? ==> rows.Some? && Constructed(b) && b.g == g && b.start == start && RowsOf(b, rows.value)
    ensures t.Some? ==> Resolves(b, p)
    ensures t.Some? && placed ==> (Written(b, t.value) <==> LastRowHasTokens(rows.value))
    ensures rows.None? ==> Actions.SomeTie(p) || !NoCircle(g, noCode, limit)
    ensures rows.None? ==> StatesFound(b) && (Undecided(b, p) || !NoCircle(g, noCode, limit))
    ensures rows.Some? && AllSmall(rows.value) ==> t.Some? && placed
  {
    hide Resolves, Undecided, StatesFound, Generable, Constructed, Written, RowsOf, AllSmall, AllPlaced, WrittenFrom,
         RowsPackable, Packing.Runs, Packing.ValidTable, ActionCount, Actions.SomeTie, NoCircle;
    t, placed := None, false;
    rows, b := BuildRows(g, start, p, noCode, limit);
    if rows.None? {
      return;
    }
    ghost var tables, rounds;
    t, placed, tables, rounds := ReportTable(rows.value);
    if t.Some? && placed {
      WrittenIff(b, rows.value, t.value, tables, rounds);
    }
  }

  /** Everything up to the rows of the tables. */
  method BuildRows(g: Grammar, start: nat, p: Actions.Precedences, noCode: set<nat>, limit: nat)
    returns (rows: Option<RowLists>, ghost b: Built)
    requires Generable(g, start)
    ensures rows.None? ==> Actions.SomeTie(p) || !NoCircle(g, noCode, limit)
    ensures StatesFound(b) && (rows.None? ==> Undecided(b, p) || !NoCircle(g, noCode, limit))
    ensures rows.Some? ==>
              && Constructed(b) && b.g == g && b.start == start && 0 < |rows.value.lists|
              && RowsOf(b, rows.value) && RowsPackable(rows.value) && Resolves(b, p)
  {
    hide Resolves, Undecided, FoundStates, Actions.TiedEarly, ValidStates, ExactFrom, Links.FollowRight, Actions.Found,
         Later, Links.OnRight, Settled, StatesFound, ActionsFound, WellShifted, Usable, GotosOnly, Constructed, RowsOf,
         RowsPackable, AllSettled, Actions.SomeTie, NoCircle;
    rows := None;
    var states, lists; ghost var follow, was;
    states, lists, follow, was := BuildStates(g, start, p);
    b := Unsorted(g, start, states, []);
    if lists.Some? && !Actions.SomeTie(p) {
      UntiedSettled(g, start, p, states, follow, was, lists.value);
    }
    StatesAre(b);
    if lists.None? || !AllSettled(lists.value, StartRules(g, start)) {
      if lists.None? {
        TieLeft(b, p, follow);
      } else {
        ErrorLeft(b, p, follow, was, lists.value);
      }
      return;
    }
    b := b.(was := lists.value);
    StatesAre(b);
    ReadyToCompress(b, p, follow, was);
    rows, b := CompressStates(g, start, states, lists.value, noCode, limit, b);
    StatesAre(b);
    if rows.Some? {
      ResolvesFound(b, p, follow, was);
    }
  }

  lemma ResolvesFound(b: Built, p: Actions.Precedences, follow: Pairs, was: seq<seq<Action>>)
    requires |was| == |b.was| == |b.states| == |b.final| && Links.FollowRight(b.g, b.states, follow)
    requires forall s :: 0 <= s < |b.states| ==>
               Actions.Found(b.g, p, b.start, b.states, follow, s, was[s], b.was[s]) && Unskipped(b.units, b.final[s])
    ensures Resolves(b, p)
  {
    hide Links.FollowRight, Actions.Found, Unskipped;
    forall s | 0 <= s < |b.states|
      ensures Resolved(b, p, follow, s) && Unskipped(b.units, b.final[s])
    {
      assert Actions.Found(b.g, p, b.start, b.states, follow, s, was[s], b.was[s]);
    }
    assert FromGrammar(b, p, follow);
  }

  /** The passes, the numbers, and the lists of the states that have rows. */
  method CompressStates(g: Grammar, start: nat, states: seq<State>, lists: seq<seq<Action>>, noCode: set<nat>,
                        limit: nat, ghost before: Built)
    returns (rows: Option<RowLists>, ghost b: Built)
    requires StatesFound(before) && before.g == g && before.start == start && before.states == states
             && before.was == lists
    requires |lists| == |states| > 0 && start < g.nNonterminals && WellShifted(lists)
    requires forall s :: 0 <= s < |states| ==>
               ActionsFound(before, s) && Usable(lists[s], StartRules(g, start), None)
               && GotosOnly(lists[s], g.nTerminals)
    ensures b.g == g && b.start == start && b.states == states
    ensures rows.None? ==> !NoCircle(g, noCode, limit)
    ensures rows.Some? ==>
              && Constructed(b) && b.g == g && b.start == start && b.states == states && 0 < |rows.value.lists|
              && RowsOf(b, rows.value) && RowsPackable(rows.value)
              && b.was == lists && |b.final| == |states|
                 && forall s :: 0 <= s < |states| ==> Unskipped(b.units, b.final[s])
  {
    hide StatesFound, ActionsFound, WellShifted, Usable, GotosOnly, Finished, LeftBy, Followed, Constructed, RowsOf,
         RowsPackable, NoCircle, CanFollow, Unskipped;
    rows, b := None, before;
    var ok, final, autoReduce; ghost var left, mid;
    ok, final, autoReduce, left, mid := Compress(g, start, lists, noCode, limit);
    if !ok {
      NoCircleFollowed(before, left, mid, noCode, limit);
      return;
    }
    var sorted, number, n := ResortStates(final, g.nTerminals, autoReduce);
    b := Built(g, start, states, lists, mid, final, left, UnitsOf(g, noCode), sorted, number);
    AllConstructed(before, b);
    var r := RowLists(seq(n, k requires 0 <= k < n => final[sorted[k]]), number,
                      Tables(n - 1, |states|, |g.rules|, [], [], [], [], []), g.nTerminals,
                        g.nTerminals + g.nNonterminals);
    RowsAre(b, r, n);
    rows := Some(r);
  }

  /** After the second pass every goto can be followed, unless the skipped rules lead in a circle. */
  lemma NoCircleFollowed(before: Built, left: seq<Option<nat>>, mid: seq<seq<Action>>, noCode: set<nat>, limit: nat)
    requires StatesFound(before) && |before.was| == |before.states|
    requires forall s :: 0 <= s < |before.states| ==> ActionsFound(before, s)
    requires |left| == |mid| == |before.was| && LeftBy(before.was, StartRules(before.g, before.start), left)
    requires forall s :: 0 <= s < |mid| ==>
               Finished(before.was[s], StartRules(before.g, before.start), left, mid[s])
    ensures NoCircle(before.g, noCode, limit) ==>
              forall s :: 0 <= s < |mid| ==> CanFollow(UnitsOf(before.g, noCode), mid[s], limit)
  {
    var ids := seq(|before.states|, s => s);
    var b := Built(before.g, before.start, before.states, before.was, mid, mid, left, UnitsOf(before.g, noCode), ids,
                   ids);
    assert UnitsRight(b) && |b.states| > 0 && Resorted(b);
    hide StatesFound, ActionsFound, LeftBy, Finished, Followed, UnitsRight, Resorted, NoCircle, CanFollow, Constructed;
    forall s | 0 <= s < |b.was|
      ensures Followed(b.units, b.mid[s], b.final[s])
    {
      NothingFollowed(b.units, b.mid[s]);
    }
    AllConstructed(before, b);
    if NoCircle(b.g, noCode, limit) {
      forall s | 0 <= s < |b.states|
        ensures CanFollow(b.units, b.mid[s], limit)
      {
        GotosClimb(b, s, noCode, limit);
      }
    }
  }

  lemma AllConstructed(before: Built, b: Built)
    requires StatesFound(before) && before.g == b.g && before.start == b.start && before.states == b.states
             && before.was == b.was && |b.was| == |b.states|
    requires forall s :: 0 <= s < |b.states| ==> ActionsFound(before, s)
    requires Resorted(b) && |b.left| == |b.mid| == |b.final| == |b.was|
             && LeftBy(b.was, StartRules(b.g, b.start), b.left)
    requires UnitsRight(b)
    requires forall s :: 0 <= s < |b.was| ==>
               Finished(b.was[s], StartRules(b.g, b.start), b.left, b.mid[s]) && Followed(b.units, b.mid[s], b.final[s])
    ensures Constructed(b)
  {
    hide LeftBy, Finished, Followed, UnitsRight, Resorted, Usable, GotosOnly, Actions.HasGotos;
    forall s | 0 <= s < |b.states|
      ensures ActionsFound(b, s)
    {
      assert ActionsFound(before, s);
      forall i | 0 <= i < |b.was[s]|
        ensures Founded(b, s, b.was[s][i].sp, b.was[s][i].kind)
      {
        assert Founded(before, s, b.was[s][i].sp, b.was[s][i].kind);
      }
    }
  }

  lemma RowsAre(b: Built, r: RowLists, n: nat)
    requires Constructed(b) && 0 < n <= |b.states| && b.start < b.g.nNonterminals
    requires r.lists == seq(n, k requires 0 <= k < n => b.final[b.sorted[k]]) && r.number == b.number
    requires r.t == Tables(n - 1, |b.states|, |b.g.rules|, [], [], [], [], [])
    requires r.nTerminals == b.g.nTerminals && r.nsymbol == b.g.nTerminals + b.g.nNonterminals
    requires forall k :: n <= k < |b.states| ==> b.left[b.sorted[k]].Some?
    ensures RowsOf(b, r) && RowsPackable(r)
  {
    forall k | 0 <= k < |r.lists|
      ensures Packable(r.number, r.lists[k], r.nsymbol)
    {
      FinalPackable(b, b.sorted[k]);
    }
  }

  lemma WrittenIff(b: Built, r: RowLists, t: Tables, tables: seq<Packing.Table>, rounds: seq<Packing.Insertion>)
    requires Constructed(b) && RowsOf(b, r) && RowsPackable(r)
    requires Packing.Runs(tables, rounds) && Packing.ValidTable(tables[|rounds|]) && AllPlaced(tables, rounds)
    requires WrittenFrom(r, t, tables[|rounds|], rounds) && |t.shiftOfst| <= |r.lists|
    requires |t.shiftOfst| == |r.lists| <==> r.Count(2 * |r.lists| - 2) > 0
    ensures Written(b, t) <==> r.Count(2 * |r.lists| - 2) > 0
  {
    hide Constructed, RowsPackable, Packing.Runs, Packing.ValidTable, AllPlaced, ActionCount;
    if r.Count(2 * |r.lists| - 2) > 0 {
      TablesWritten(b, r, t, tables, rounds);
    } else {
      assert |t.shiftOfst| <= t.maxShift;
    }
  }

  /**
    From a grammar to an accepted input. `made` says that there are tables, that their rounds
    all found a place, and that the last row has its offset. What is accepted is a sentence.
    If the grammar is LALR(1), a sentence is accepted, unless the stack overflows or the reduces for
    one token do not end in time; with room and time enough neither happens.
   */
  method GenerateAndParse(g: Grammar, start: nat, p: Actions.Precedences, noCode: set<nat>, input: seq<nat>,
                          depth: nat, limit: nat)
    returns (made: bool, at: nat, status: Status, rows: Option<RowLists>, ghost b: Built, ghost t: Option<Tables>)
    requires Generable(g, start)
    requires depth > 0 && forall i :: 0 <= i < |input| ==> input[i] < g.nTerminals
    ensures rows.None? ==> Actions.SomeTie(p) || !NoCircle(g, noCode, limit)
    ensures rows.Some? && AllSmall(rows.value) ==> (made <==> LastRowHasTokens(rows.value))
    ensures made ==> at <= |input| && (status == Shifted <==> at == |input|)
    ensures made && status == Accepted ==> input[at] == 0 && Derives(g, [Nonterminal(start)], Terminals(input[..at]))
    ensures made ==> t.Some? && Constructed(b) && b.g == g && b.start == start && Written(b, t.value)
    ensures made && Lalr.IsLalr1(g, start, b.states) ==> forall w :: Sentence(g, start, w) && input == w + [0] ==>
              (status == Accepted && at == |w|) || status == Overflowed || status == StillReducing
    ensures made && Lalr.IsLalr1(g, start, b.states) ==> forall w :: Sentence(g, start, w) ==>
            AcceptedInRoom(g, t.value, w)
  {
    hide Resolves, Unconflicted, Lalr.IsLalr1, StopsAt, AcceptedInRoom, Sentence, Derives, Generable, Constructed,
         Written, RowsOf,
         AllSmall, Terminals, ActionCount, Actions.SomeTie, NoCircle, StatesFound, Undecided;
    made, at, status := false, 0, Shifted;
    var tables, placed;
    tables, placed, rows, b := GenerateTables(g, start, p, noCode, limit);
    t := tables;
    if tables.None? || !placed || !LastRowHasTokens(rows.value) {
      return;
    }
    made := true;
    at, status := ParseGenerated(tables.value, input, depth, limit, g, b);
    SomeTerminals(g, start);
    UnconflictedIsLalr1(b, p);
    if Unconflicted(b) {
      SentencesAccepted(b, tables.value, p, depth, limit, input, at, status);
    }
  }

  lemma SomeTerminals(g: Grammar, start: nat)
    requires Generable(g, start)
    ensures g.nTerminals > 0
  {
    hide Links.OnRight;
  }
}
