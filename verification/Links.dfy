/**
  The links along which follow sets spread, and the sets they start from. The generator
  records both while it builds the states; here they are recorded from the finished ones.
  A configuration passes its set on to itself one symbol further, and to the rules of the
  nonterminal after its dot when the rest can be empty.
 */
module Links {
  import opened Grammars
  import opened Sets
  import opened LrDriver
  import opened Lr0
  import opened FirstSets
  import FollowSets

  /** A configuration of a state. */
  datatype Config = Config(state: nat, item: Item)

  // ----- all configurations, state by state -----

  function ConfigsOf(s: nat, items: seq<Item>): (r: seq<Config>)
    ensures |r| == |items| && forall k :: 0 <= k < |r| ==> r[k] == Config(s, items[k])
  {
    seq(|items|, k requires 0 <= k < |items| => Config(s, items[k]))
  }

  function ConfigsTo(states: seq<State>, n: nat): seq<Config>
    requires n <= |states|
  {
    if n == 0 then [] else ConfigsTo(states, n - 1) + ConfigsOf(n - 1, states[n - 1].items)
  }

  function Configs(states: seq<State>): seq<Config> {
    ConfigsTo(states, |states|)
  }

  /** The number of a state's first configuration. */
  function First(states: seq<State>, s: nat): nat
    requires s <= |states|
  {
    |ConfigsTo(states, s)|
  }

  lemma {:induction false} ConfigAt(states: seq<State>, n: nat, s: nat, k: nat)
    requires s < n <= |states| && k < |states[s].items|
    ensures First(states, s) + k < |ConfigsTo(states, n)|
    ensures ConfigsTo(states, n)[First(states, s) + k] == Config(s, states[s].items[k])
  {
    if s < n - 1 {
      ConfigAt(states, n - 1, s, k);
    }
  }

  lemma {:induction false} ConfigOf(states: seq<State>, n: nat, c: nat) returns (s: nat, k: nat)
    requires n <= |states| && c < |ConfigsTo(states, n)|
    ensures s < n && k < |states[s].items| && c == First(states, s) + k
    ensures ConfigsTo(states, n)[c] == Config(s, states[s].items[k])
  {
    if c < |ConfigsTo(states, n - 1)| {
      s, k := ConfigOf(states, n - 1, c);
    } else {
      s, k := n - 1, c - |ConfigsTo(states, n - 1)|;
    }
  }

  /** A configuration is listed once. */
  lemma SameConfig(g: Grammar, states: seq<State>, c: nat, d: nat)
    requires ValidStates(g, states) && c < |Configs(states)| && d < |Configs(states)|
             && Configs(states)[c] == Configs(states)[d]
    ensures c == d
  {
    hide IsClosure;
    var s, k := ConfigOf(states, |states|, c);
    var t, l := ConfigOf(states, |states|, d);
    assert ValidState(g, states[s]);
  }

  // ----- what is passed on -----

  function Rest(g: Grammar, i: Item): Form
    requires ValidItem(g, i)
  {
    if i.dot < |g.rules[i.rule].rhs| then g.rules[i.rule].rhs[i.dot + 1..] else []
  }

  /** The second is a rule of the nonterminal after the first one's dot. */
  predicate AsksFor(g: Grammar, x: Config, y: Config) {
    x.state == y.state && y.item.dot == 0 && Asks(g, x.item, y.item.rule)
  }

  ghost predicate MayEnd(g: Grammar, x: Config, y: Config) {
    AsksFor(g, x, y) && Derives(g, Rest(g, x.item), [])
  }

  ghost predicate MayPrecede(g: Grammar, x: Config, y: Config, t: nat) {
    AsksFor(g, x, y) && Begins(g, Rest(g, x.item), t)
  }

  predicate MovesTo(g: Grammar, states: seq<State>, x: Config, y: Config) {
    && x.state < |states| && ValidItem(g, x.item) && x.item.dot < |g.rules[x.item.rule].rhs|
    && y.item == Item(x.item.rule, x.item.dot + 1)
    && (g.rules[x.item.rule].rhs[x.item.dot], y.state) in states[x.state].shifts
  }

  /** The end of input follows the rules of the first state's basis. */
  predicate AtEnd(states: seq<State>, y: Config) {
    y.state == 0 && |states| > 0 && y.item in states[0].basis
  }

  class Recorder {
    const g: Grammar
    const states: seq<State>
    const sets: GrammarSets
    const fws: SetTable

    ghost predicate Settled()
      reads sets, sets.lambda, sets.firstset, sets.firstset.bits
    {
      && sets.Valid() && sets.g == g
      && SoundNullable(g, sets.nullable) && ClosedNullable(g, sets.nullable)
      && SoundFirst(g, sets.First()) && ClosedFirst(g, sets.nullable, sets.First())
    }

    ghost predicate Valid()
      reads this, fws, fws.bits, sets, sets.lambda, sets.firstset, sets.firstset.bits
    {
      && Settled() && ValidStates(g, states) && ExactFrom(g, states, 0)
      && fws.Valid() && fws.rows == |Configs(states)| && fws.size == g.nTerminals
      && fws != sets.firstset && fws.bits != sets.firstset.bits
    }

    constructor (states: seq<State>, sets: GrammarSets)
      requires sets.Valid() && ValidStates(sets.g, states) && ExactFrom(sets.g, states, 0)
      requires SoundNullable(sets.g, sets.nullable) && ClosedNullable(sets.g, sets.nullable)
      requires SoundFirst(sets.g, sets.First()) && ClosedFirst(sets.g, sets.nullable, sets.First())
      ensures Valid() && this.g == sets.g && this.states == states && this.sets == sets && fws.pairs == {}
      ensures fresh(fws) && fresh(fws.bits)
    {
      this.g, this.states, this.sets := sets.g, states, sets;
      fws := new SetTable(|Configs(states)|, sets.g.nTerminals);
    }

    /** The number of a configuration. */
    method Find(y: Config) returns (d: nat)
      requires ValidStates(g, states) && y.state < |states| && y.item in states[y.state].items
      ensures d < |Configs(states)| && Configs(states)[d] == y
      ensures forall e :: 0 <= e < |Configs(states)| && Configs(states)[e] == y ==> e == d
    {
      hide ValidStates;
      var items, k := states[y.state].items, 0;
      while items[k] != y.item
        invariant 0 <= k < |items| && forall j :: 0 <= j < k ==> items[j] != y.item
        decreases |items| - k
      {
        k := k + 1;
      }
      ConfigAt(states, |states|, y.state, k);
      d := First(states, y.state) + k;
      forall e | 0 <= e < |Configs(states)| && Configs(states)[e] == y
        ensures e == d
      {
        SameConfig(g, states, e, d);
      }
    }

    /** What a form can begin with is added to one set; the result says whether it can be empty. */
    method AddRest(d: nat, rest: Form) returns (empty: bool)
      requires Valid() && d < fws.rows && forall k :: 0 <= k < |rest| ==> ValidSymbol(g, rest[k])
      modifies fws, fws.bits
      ensures Valid() && (empty <==> AllNullable(sets.nullable, rest))
      ensures forall p :: p in fws.pairs <==>
              p in old(fws.pairs) || (p.0 == d && p.1 in FirstOf(sets.nullable, sets.First(), rest))
    {
      hide SoundNullable, ClosedNullable, SoundFirst, ClosedFirst, ValidStates, ExactFrom;
      ghost var was, nullable, first := fws.pairs, sets.nullable, sets.First();
      var i := 0;
      while i < |rest|
        invariant 0 <= i <= |rest| && Valid() && AllNullable(nullable, rest[..i])
        invariant forall p :: p in fws.pairs <==> p in was || (p.0 == d && p.1 in FirstOf(nullable, first, rest[..i]))
      {
        var s := rest[i];
        ghost var before := fws.pairs;
        AddSymbol(d, s);
        FirstOfConcat(nullable, first, rest[..i], [s]);
        assert rest[..i + 1] == rest[..i] + [s];
        if !s.Nonterminal? || !sets.lambda[s.index] {
          FirstOfConcat(nullable, first, rest[..i + 1], rest[i + 1..]);
          assert rest[..i + 1] + rest[i + 1..] == rest;
          assert !AllNullable(nullable, rest[..i + 1]) by { assert rest[..i + 1][i] == s; }
          assert !AllNullable(nullable, rest) by { assert rest[i] == s; }
          return false;
        }
        i := i + 1;
      }
      assert rest[..i] == rest;
      return true;
    }

    method AddSymbol(d: nat, s: Symbol)
      requires Valid() && d < fws.rows && ValidSymbol(g, s)
      modifies fws, fws.bits
      ensures Valid()
      ensures forall p :: p in fws.pairs <==>
              p in old(fws.pairs) || (p.0 == d && p.1 in FirstOf(sets.nullable, sets.First(), [s]))
    {
      hide SoundNullable, ClosedNullable, SoundFirst, ClosedFirst, ValidStates, ExactFrom, RowOf;
      ghost var was := fws.pairs;
      FirstOfOne(sets.nullable, sets.First(), s);
      match s {
        case Terminal(t) =>
          var _ := fws.SetAdd(d, t);
        case Class(subsym) =>
          var j := 0;
          while j < |subsym|
            invariant 0 <= j <= |subsym| && Valid()
            invariant forall p :: p in fws.pairs <==> p in was || (p.0 == d && p.1 in subsym[..j])
          {
            var _ := fws.SetAdd(d, subsym[j]);
            assert subsym[..j + 1] == subsym[..j] + [subsym[j]];
            j := j + 1;
          }
          assert subsym[..j] == subsym;
        case Nonterminal(a) =>
          var t := 0;
          while t < g.nTerminals
            invariant 0 <= t <= g.nTerminals && Valid()
            invariant forall p :: p in fws.pairs <==> p in was || (p.0 == d && p.1 < t && (a, p.1) in sets.First())
          {
            assert (a, t) in sets.First() <==> sets.firstset.bits[a, t];
            if sets.firstset.bits[a, t] {
              var _ := fws.SetAdd(d, t);
            }
            t := t + 1;
          }
          forall x: nat
            ensures x in RowOf(sets.First(), a) <==> x < t && (a, x) in sets.First()
          {
            RowMember(sets.First(), a, x);
          }
      }
    }

    lemma RestExact(rest: Form)
      requires Settled()
      ensures AllNullable(sets.nullable, rest) <==> Derives(g, rest, [])
      ensures forall t: nat :: t in FirstOf(sets.nullable, sets.First(), rest) <==> Begins(g, rest, t)
    {
      hide FirstOf, AllNullable, Begins, SoundNullable, ClosedNullable, SoundFirst, ClosedFirst;
      NullableExact(g, sets.nullable, rest);
      forall t: nat
        ensures t in FirstOf(sets.nullable, sets.First(), rest) <==> Begins(g, rest, t)
      {
        FirstExact(g, sets.nullable, sets.First(), rest, t);
      }
    }

    /** What the configuration `c` asks for is in its state, under one number. */
    lemma AskedIsThere(c: nat, rule: nat)
      requires ValidStates(g, states) && c < |Configs(states)| && Asks(g, Configs(states)[c].item, rule)
      ensures Configs(states)[c].state < |states| && ValidItem(g, Configs(states)[c].item)
      ensures Item(rule, 0) in states[Configs(states)[c].state].items
    {
      hide Closed;
      var s, k := ConfigOf(states, |states|, c);
      assert ValidState(g, states[s]);
      assert Closed(g, ItemSet(states[s].items));
      ClosedHas(states[s].items, states[s].items[k], rule);
    }

    lemma ClosedHas(items: seq<Item>, i: Item, rule: nat)
      requires Closed(g, ItemSet(items)) && i in items && Asks(g, i, rule)
      ensures Item(rule, 0) in items
    {
      assert i in ItemSet(items);
      assert Item(rule, 0) in ItemSet(items);
    }

    /** One rule that a configuration asks for. */
    method AddRule(c: nat, r: nat) returns (d: nat, empty: bool)
      requires Valid() && c < |Configs(states)| && Asks(g, Configs(states)[c].item, r)
      modifies fws, fws.bits
      ensures Valid()
      ensures d < |Configs(states)| && Configs(states)[d].item.rule == r
      ensures forall e: nat :: e < |Configs(states)| && Configs(states)[e].item.rule == r ==>
                (MayEnd(g, Configs(states)[c], Configs(states)[e]) <==> e == d && empty)
      ensures forall p :: p in fws.pairs <==>
                p in old(fws.pairs)
                  || (p.0 < |Configs(states)| && Configs(states)[p.0].item.rule == r
                      && MayPrecede(g, Configs(states)[c], Configs(states)[p.0], p.1))
    {
      ConfigValid(c);
      AskedIsThere(c, r);
      hide Settled, ValidStates, ExactFrom, Configs, Begins, Asks;
      var x := Configs(states)[c];
      d := Find(Config(x.state, Item(r, 0)));
      AskedOnce(x, r, d);
      RestExact(Rest(g, x.item));
      empty := AddRest(d, Rest(g, x.item));
    }

    /** A configuration's rules: their sets get what the rest begins with, and a link where it can be empty. */
    method AddRules(c: nat) returns (targets: seq<nat>)
      requires Valid() && c < |Configs(states)|
      modifies fws, fws.bits
      ensures Valid()
      ensures forall d: nat :: d in targets <==>
              d < |Configs(states)| && MayEnd(g, Configs(states)[c], Configs(states)[d])
      ensures forall p :: p in fws.pairs <==>
                p in old(fws.pairs)
                  || (p.0 < |Configs(states)| && MayPrecede(g, Configs(states)[c], Configs(states)[p.0], p.1))
    {
      ConfigValid(c);
      OnlyAsked(c);
      hide Settled, ValidStates, ExactFrom, Configs, MayPrecede, MayEnd;
      ghost var was := fws.pairs;
      targets := [];
      var x := Configs(states)[c];
      var rhs := g.rules[x.item.rule].rhs;
      if x.item.dot >= |rhs| || !rhs[x.item.dot].Nonterminal? {
        return;
      }
      var r := 0;
      while r < |g.rules|
        invariant 0 <= r <= |g.rules| && Valid()
        invariant forall d: nat :: d in targets <==>
                    d < |Configs(states)| && Configs(states)[d].item.rule < r && MayEnd(g, x, Configs(states)[d])
        invariant forall p :: p in fws.pairs <==>
                    p in was || (p.0 < |Configs(states)| && Configs(states)[p.0].item.rule < r
                                 && MayPrecede(g, x, Configs(states)[p.0], p.1))
      {
        if g.rules[r].lhs == rhs[x.item.dot].index {
          var d, empty := AddRule(c, r);
          if empty {
            targets := targets + [d];
          }
        }
        r := r + 1;
      }
    }

    lemma OnlyAsked(c: nat)
      requires c < |Configs(states)|
      ensures forall d: nat :: d < |Configs(states)| && MayEnd(g, Configs(states)[c], Configs(states)[d]) ==>
                Asks(g, Configs(states)[c].item, Configs(states)[d].item.rule)
      ensures forall d: nat, t: nat ::
                d < |Configs(states)| && MayPrecede(g, Configs(states)[c], Configs(states)[d], t) ==>
                Asks(g, Configs(states)[c].item, Configs(states)[d].item.rule)
    {
      hide Configs, Asks;
    }

    lemma AskedOnce(x: Config, r: nat, d: nat)
      requires Asks(g, x.item, r) && d < |Configs(states)| && Configs(states)[d] == Config(x.state, Item(r, 0))
      requires forall e :: 0 <= e < |Configs(states)| && Configs(states)[e] == Config(x.state, Item(r, 0)) ==> e == d
      ensures forall e: nat :: e < |Configs(states)| && Configs(states)[e].item.rule == r ==>
                (AsksFor(g, x, Configs(states)[e]) <==> e == d)
    {
      hide Configs, Asks;
    }

    lemma ConfigValid(c: nat)
      requires ValidGrammar(g) && ValidStates(g, states) && c < |Configs(states)|
      ensures var x := Configs(states)[c];
              && x.state < |states| && x.item in states[x.state].items && ValidItem(g, x.item)
              && forall k :: 0 <= k < |Rest(g, x.item)| ==> ValidSymbol(g, Rest(g, x.item)[k])
    {
      hide IsClosure, Increasing;
      var s, k := ConfigOf(states, |states|, c);
      assert ValidState(g, states[s]);
      assert states[s].items[k] in states[s].items;
      assert ValidRule(g, g.rules[states[s].items[k].rule]);
    }

    /** The sets of the first state's basis start with the end of input. */
    method StartSets()
      requires Valid() && |states| > 0 && g.nTerminals > 0
      modifies fws, fws.bits
      ensures Valid()
      ensures forall p :: p in fws.pairs <==>
              p in old(fws.pairs) || (p.0 < |Configs(states)| && AtEnd(states, Configs(states)[p.0]) && p.1 == 0)
    {
      hide Settled, ValidStates, ExactFrom, Configs;
      var c := 0;
      while c < |Configs(states)|
        invariant 0 <= c <= |Configs(states)| && Valid()
        invariant forall p :: p in fws.pairs <==>
                    p in old(fws.pairs) || (p.0 < c && AtEnd(states, Configs(states)[p.0]) && p.1 == 0)
      {
        if AtEnd(states, Configs(states)[c]) {
          var _ := fws.SetAdd(c, 0);
        }
        c := c + 1;
      }
    }

    /** The sets and links that a closure leaves behind, for every configuration. */
    method RecordClosures() returns (forward: seq<seq<nat>>)
      requires Valid()
      modifies fws, fws.bits
      ensures Valid() && |forward| == |Configs(states)|
      ensures forall c: nat :: c < |forward| ==> EndsRight(g, Configs(states), c, forward[c])
      ensures forall p :: p in fws.pairs <==>
                p in old(fws.pairs) || (p.0 < |forward| && Preceded(g, Configs(states), |forward|, p.0, p.1))
    {
      hide Settled, ValidStates, ExactFrom, Configs, MayEnd, MayPrecede;
      ghost var was := fws.pairs;
      forward := [];
      while |forward| < |Configs(states)|
        invariant |forward| <= |Configs(states)| && Valid()
        invariant forall c: nat :: c < |forward| ==> EndsRight(g, Configs(states), c, forward[c])
        invariant forall p :: p in fws.pairs <==>
                    p in was || (p.0 < |Configs(states)| && Preceded(g, Configs(states), |forward|, p.0, p.1))
        decreases |Configs(states)| - |forward|
      {
        var n := |forward|;
        var targets := AddRules(n);
        forall d: nat, t: nat | d < |Configs(states)|
          ensures Preceded(g, Configs(states), n + 1, d, t) <==>
                  Preceded(g, Configs(states), n, d, t) || MayPrecede(g, Configs(states)[n], Configs(states)[d], t)
        {
          PrecededStep(g, Configs(states), n, d, t);
        }
        assert EndsRight(g, Configs(states), n, targets);
        forward := forward + [targets];
      }
    }

    /** The links that shifts leave behind: from each configuration back to those it was moved from. */
    method RecordMoves() returns (back: seq<seq<nat>>)
      requires Valid()
      ensures |back| == |Configs(states)|
      ensures forall d: nat :: d < |back| ==> MovesRight(g, states, d, back[d])
    {
      hide Settled, ValidStates, ExactFrom, Configs, MovesTo;
      back := [];
      while |back| < |Configs(states)|
        invariant |back| <= |Configs(states)|
        invariant forall d: nat :: d < |back| ==> MovesRight(g, states, d, back[d])
        decreases |Configs(states)| - |back|
      {
        var from: seq<nat> := [];
        var c: nat := 0;
        while c < |Configs(states)|
          invariant 0 <= c <= |Configs(states)|
          invariant forall e: nat :: e in from <==>
                      e < c && MovesTo(g, states, Configs(states)[e], Configs(states)[|back|])
        {
          if MovesTo(g, states, Configs(states)[c], Configs(states)[|back|]) {
            from := from + [c];
          }
          c := c + 1;
        }
        assert MovesRight(g, states, |back|, from);
        back := back + [from];
      }
    }
  }

  ghost predicate EndsRight(g: Grammar, configs: seq<Config>, c: nat, targets: seq<nat>)
    requires c < |configs|
  {
    forall d: nat :: d in targets <==> d < |configs| && MayEnd(g, configs[c], configs[d])
  }

  ghost predicate MovesRight(g: Grammar, states: seq<State>, d: nat, from: seq<nat>)
    requires d < |Configs(states)|
  {
    forall c: nat :: c in from <==> c < |Configs(states)| && MovesTo(g, states, Configs(states)[c], Configs(states)[d])
  }

  /** One of the first `n` configurations asks for this one, and `t` can come next. */
  ghost predicate Preceded(g: Grammar, configs: seq<Config>, n: nat, d: nat, t: nat)
    requires n <= |configs| && d < |configs|
  {
    exists c :: 0 <= c < n && MayPrecede(g, configs[c], configs[d], t)
  }

  lemma PrecededStep(g: Grammar, configs: seq<Config>, n: nat, d: nat, t: nat)
    requires n < |configs| && d < |configs|
    ensures Preceded(g, configs, n + 1, d, t) <==>
            Preceded(g, configs, n, d, t) || MayPrecede(g, configs[n], configs[d], t)
  {
    hide MayPrecede;
  }

  // ----- forward links only -----

  /** The links of `c`, when those back from the first `n` configurations have been turned around. */
  ghost predicate TurnedTo(back: seq<seq<nat>>, forward: seq<nat>, n: nat, c: nat, links: seq<nat>)
    requires n <= |back|
  {
    forall d: nat :: d in links <==> d in forward || (d < n && c in back[d])
  }

  /** Every back link is turned around; only forward links are used afterwards. */
  method FindLinks(back: seq<seq<nat>>, forward: seq<seq<nat>>) returns (links: FollowSets.Links)
    requires |back| == |forward| && forall d, j :: 0 <= d < |back| && 0 <= j < |back[d]| ==> back[d][j] < |back|
    ensures |links| == |forward|
    ensures forall c: nat :: c < |links| ==> TurnedTo(back, forward[c], |back|, c, links[c])
  {
    links := forward;
    var n: nat := 0;
    while n < |back|
      invariant 0 <= n <= |back| && |links| == |forward|
      invariant forall c: nat :: c < |links| ==> TurnedTo(back, forward[c], n, c, links[c])
    {
      ghost var before := links;
      var j := 0;
      while j < |back[n]|
        invariant 0 <= j <= |back[n]| && |links| == |forward|
        invariant forall c: nat :: c < |links| ==> OneTurned(before[c], n, c in back[n][..j], links[c])
      {
        var other := back[n][j];
        assert back[n][..j + 1] == back[n][..j] + [other];
        links := links[other := [n] + links[other]];
        j := j + 1;
      }
      assert back[n][..j] == back[n];
      forall c: nat | c < |links|
        ensures TurnedTo(back, forward[c], n + 1, c, links[c])
      {
        assert TurnedTo(back, forward[c], n, c, before[c]) && OneTurned(before[c], n, c in back[n], links[c]);
      }
      n := n + 1;
    }
  }

  ghost predicate OneTurned(before: seq<nat>, d: nat, there: bool, links: seq<nat>) {
    forall e: nat :: e in links <==> e in before || (e == d && there)
  }

  // ----- the end of input after the start symbol's rules -----

  predicate OnRight(g: Grammar, lhs: nat) {
    exists r, k :: 0 <= r < |g.rules| && 0 <= k < |g.rules[r].rhs| && g.rules[r].rhs[k] == Nonterminal(lhs)
  }

  /** Links lead on in the same rule, or into a rule of the nonterminal after the dot. */
  ghost predicate LinksRight(g: Grammar, states: seq<State>, links: FollowSets.Links) {
    && |links| == |Configs(states)|
    && forall c: nat, d: nat :: FollowSets.Linked(links, c, d) <==>
         c < |links| && d < |links| && LinksTo(g, states, Configs(states)[c], Configs(states)[d])
  }

  ghost predicate LinksTo(g: Grammar, states: seq<State>, x: Config, y: Config) {
    MovesTo(g, states, x, y) || MayEnd(g, x, y)
  }

  /** The first state's rules start with the end of input; others with what can follow their nonterminal. */
  ghost predicate StartsRight(g: Grammar, states: seq<State>, init: Pairs) {
    forall d: nat, t: nat :: (d, t) in init <==>
      d < |Configs(states)| &&
      ((AtEnd(states, Configs(states)[d]) && t == 0) || Preceded(g, Configs(states), |Configs(states)|, d, t))
  }

  /** What can come after each configuration, by the links between the states' configurations. */
  ghost predicate FollowRight(g: Grammar, states: seq<State>, follow: Pairs) {
    exists links, init :: FollowFrom(g, states, links, init, follow)
  }

  ghost predicate FollowFrom(g: Grammar, states: seq<State>, links: FollowSets.Links, init: Pairs, follow: Pairs) {
    && LinksRight(g, states, links) && StartsRight(g, states, init)
    && forall c: nat, t: nat :: (c, t) in follow <==> FollowSets.Comes(links, init, c, t)
  }

  // ----- what can come after a configuration of a state -----

  /** The token can come after the configuration. */
  ghost predicate Allowed(states: seq<State>, follow: Pairs, s: nat, i: Item, t: nat) {
    && s < |states|
    && exists k: nat ::
      k < |states[s].items| && states[s].items[k] == i && (First(states, s) + k, t) in follow
  }

  lemma AllowedAt(g: Grammar, states: seq<State>, follow: Pairs, s: nat, k: nat, t: nat)
    requires ValidStates(g, states) && s < |states| && k < |states[s].items|
    ensures Allowed(states, follow, s, states[s].items[k], t) <==> (First(states, s) + k, t) in follow
    ensures First(states, s) + k < |Configs(states)|
            && Configs(states)[First(states, s) + k] == Config(s, states[s].items[k])
  {
    hide ValidStates;
    ConfigAt(states, |states|, s, k);
    if Allowed(states, follow, s, states[s].items[k], t) {
      var l: nat :| l < |states[s].items| && states[s].items[l] == states[s].items[k]
        && (First(states, s) + l, t) in follow;
      ConfigAt(states, |states|, s, l);
      SameConfig(g, states, First(states, s) + k, First(states, s) + l);
    }
  }

  lemma ItemIndex(states: seq<State>, s: nat, i: Item) returns (k: nat)
    requires s < |states| && i in states[s].items
    ensures k < |states[s].items| && states[s].items[k] == i
  {
    k :| 0 <= k < |states[s].items| && states[s].items[k] == i;
  }

  /** What comes along a link goes on along the next. */
  lemma ComesOn(links: FollowSets.Links, init: Pairs, c: nat, d: nat, t: nat)
    requires FollowSets.Comes(links, init, c, t) && FollowSets.Linked(links, c, d)
    ensures FollowSets.Comes(links, init, d, t)
  {
    var b :| (b, t) in init && FollowSets.Reaches(links, b, c);
    var n: nat :| FollowSets.Path(links, n, b, c);
    FollowSets.PathLonger(links, n, b, c, d);
  }

  lemma LinkAllows(g: Grammar, states: seq<State>, follow: Pairs, s: nat, i: Item, r: nat, j: Item, t: nat)
    requires ValidStates(g, states) && FollowRight(g, states, follow) && Allowed(states, follow, s, i, t)
    requires r < |states| && j in states[r].items && LinksTo(g, states, Config(s, i), Config(r, j))
    ensures Allowed(states, follow, r, j, t)
  {
    hide ValidStates, LinksTo, FollowSets.Comes, StartsRight, Configs, First;
    var links, init :| FollowFrom(g, states, links, init, follow);
    var k := ItemIndex(states, s, i);
    var l := ItemIndex(states, r, j);
    AllowedAt(g, states, follow, s, k, t);
    AllowedAt(g, states, follow, r, l, t);
    ComesOn(links, init, First(states, s) + k, First(states, r) + l, t);
  }

  /** A start is a link of no length. */
  lemma InitAllows(g: Grammar, states: seq<State>, follow: Pairs, s: nat, i: Item, t: nat)
    requires ValidStates(g, states) && FollowRight(g, states, follow) && s < |states| && i in states[s].items
    requires (AtEnd(states, Config(s, i)) && t == 0)
             || exists k: nat :: k < |states[s].items| && MayPrecede(g, Config(s, states[s].items[k]), Config(s, i), t)
    ensures Allowed(states, follow, s, i, t)
  {
    hide ValidStates, MayPrecede, LinksRight, Configs, First, AtEnd;
    var links, init :| FollowFrom(g, states, links, init, follow);
    var l := ItemIndex(states, s, i);
    AllowedAt(g, states, follow, s, l, t);
    var d: nat := First(states, s) + l;
    if !(AtEnd(states, Config(s, i)) && t == 0) {
      var k: nat :| k < |states[s].items| && MayPrecede(g, Config(s, states[s].items[k]), Config(s, i), t);
      AllowedAt(g, states, follow, s, k, t);
      assert MayPrecede(g, Configs(states)[First(states, s) + k], Configs(states)[d], t);
      assert Preceded(g, Configs(states), |Configs(states)|, d, t);
    }
    assert (d, t) in init && FollowSets.Path(links, 0, d, d);
    assert FollowSets.Comes(links, init, d, t);
  }

  /**
    Where the start symbol is on no right-hand side, nothing but the end of input follows
    its rules, so that is the only lookahead they are reduced on.
   */
  lemma StartFollowsEnd(g: Grammar, start: nat, states: seq<State>, links: FollowSets.Links, init: Pairs, c: nat,
                        token: nat)
    requires LinksRight(g, states, links) && StartsRight(g, states, init) && !OnRight(g, start)
    requires c < |links| && Configs(states)[c].item.rule < |g.rules|
             && g.rules[Configs(states)[c].item.rule].lhs == start
    requires FollowSets.Comes(links, init, c, token)
    ensures token == 0
  {
    hide Configs;
    var d :| (d, token) in init && FollowSets.Reaches(links, d, c);
    var n: nat :| FollowSets.Path(links, n, d, c);
    assert d < |Configs(states)|;
    SameRuleBack(g, start, states, links, n, d, c);
    if Preceded(g, Configs(states), |Configs(states)|, d, token) {
      var e :| 0 <= e < |Configs(states)| && MayPrecede(g, Configs(states)[e], Configs(states)[d], token);
      AskedOnRight(g, start, Configs(states)[e], Configs(states)[d]);
    }
  }

  lemma AskedOnRight(g: Grammar, start: nat, x: Config, y: Config)
    requires AsksFor(g, x, y) && g.rules[y.item.rule].lhs == start
    ensures OnRight(g, start)
  {
    assert g.rules[x.item.rule].rhs[x.item.dot] == Nonterminal(start);
  }

  lemma {:induction false} SameRuleBack(g: Grammar, start: nat, states: seq<State>, links: FollowSets.Links, n: nat,
                                        d: nat, c: nat)
    requires LinksRight(g, states, links) && !OnRight(g, start) && FollowSets.Path(links, n, d, c)
    requires c < |Configs(states)| && d < |Configs(states)| && Configs(states)[c].item.rule < |g.rules|
             && g.rules[Configs(states)[c].item.rule].lhs == start
    ensures Configs(states)[d].item.rule == Configs(states)[c].item.rule
    decreases n
  {
    hide Configs, MovesTo, MayEnd;
    if n > 0 {
      var e: nat :| FollowSets.Linked(links, d, e) && FollowSets.Path(links, n - 1, e, c);
      assert LinksTo(g, states, Configs(states)[d], Configs(states)[e]);
      SameRuleBack(g, start, states, links, n - 1, e, c);
      LinkInRule(g, start, states, Configs(states)[d], Configs(states)[e]);
    }
  }

  lemma LinkInRule(g: Grammar, start: nat, states: seq<State>, x: Config, y: Config)
    requires LinksTo(g, states, x, y) && !OnRight(g, start) && y.item.rule < |g.rules|
             && g.rules[y.item.rule].lhs == start
    ensures x.item.rule == y.item.rule
  {
    if MayEnd(g, x, y) {
      AskedOnRight(g, start, x, y);
    }
  }
}
