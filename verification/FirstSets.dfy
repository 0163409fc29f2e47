/**
  Nullable nonterminals and first sets: what the tables mean, and the two loops that
  fill them until a pass over the rules changes nothing.
 */
module FirstSets {
  import opened Grammars
  import opened Sets

  predicate AllNullable(nullable: set<nat>, x: Form) {
    forall i :: 0 <= i < |x| ==> x[i].Nonterminal? && x[i].index in nullable
  }

  /** The tokens the tables let a sentential form begin with. */
  function FirstOf(nullable: set<nat>, first: Pairs, x: Form): set<nat> {
    if x == [] then {}
    else
      match x[0]
      case Terminal(t) => {t}
      case Class(tokens) => set t | t in tokens
      case Nonterminal(a) => RowOf(first, a) + (if a in nullable then FirstOf(nullable, first, x[1..]) else {})
  }

  ghost predicate Begins(g: Grammar, x: Form, t: nat) {
    exists rest :: Derives(g, x, [Terminal(t)] + rest)
  }

  // ----- sound: every entry has a derivation -----

  ghost predicate SoundNullable(g: Grammar, nullable: set<nat>) {
    forall a :: a in nullable ==> Derives(g, [Nonterminal(a)], [])
  }

  ghost predicate SoundFirst(g: Grammar, first: Pairs) {
    forall p :: p in first ==> Begins(g, [Nonterminal(p.0)], p.1)
  }

  lemma {:induction false} NullableDerives(g: Grammar, nullable: set<nat>, x: Form)
    requires SoundNullable(g, nullable) && AllNullable(nullable, x)
    ensures Derives(g, x, [])
  {
    if x == [] {
      DerivesItself(g, x);
    } else {
      NullableDerives(g, nullable, x[1..]);
      var nothing: Form := [];
      DerivesBoth(g, [x[0]], nothing, x[1..], nothing);
      assert [x[0]] + x[1..] == x && nothing + nothing == nothing;
    }
  }

  lemma {:induction false} FirstDerives(g: Grammar, nullable: set<nat>, first: Pairs, x: Form, t: nat)
    requires SoundNullable(g, nullable) && SoundFirst(g, first) && t in FirstOf(nullable, first, x)
    ensures Begins(g, x, t)
  {
    var head, tail := [x[0]], x[1..];
    assert head + tail == x;
    match x[0]
    case Terminal(_) =>
      assert x == [Terminal(t)] + tail;
      DerivesItself(g, x);
    case Class(_) =>
      ClassDerives(g, x[0], t);
      assert [Terminal(t)] + [] == [Terminal(t)];
      HeadBegins(g, head, tail, t, []);
    case Nonterminal(a) =>
      RowMember(first, a, t);
      if (a, t) in first {
        assert Begins(g, [Nonterminal((a, t).0)], (a, t).1);
        var rest :| Derives(g, head, [Terminal(t)] + rest);
        HeadBegins(g, head, tail, t, rest);
      } else {
        FirstDerives(g, nullable, first, tail, t);
        var rest :| Derives(g, tail, [Terminal(t)] + rest);
        DerivesBoth(g, head, [], tail, [Terminal(t)] + rest);
        assert [] + ([Terminal(t)] + rest) == [Terminal(t)] + rest;
      }
  }

  lemma FirstOfOne(nullable: set<nat>, first: Pairs, s: Symbol)
    ensures s.Nonterminal? ==> FirstOf(nullable, first, [s]) == RowOf(first, s.index)
  {
    assert [s][1..] == [];
  }

  lemma HeadBegins(g: Grammar, head: Form, tail: Form, t: nat, rest: Form)
    requires Derives(g, head, [Terminal(t)] + rest)
    ensures Begins(g, head + tail, t)
  {
    DerivesWithin(g, head, [Terminal(t)] + rest, [], tail);
    assert [] + head + tail == head + tail && [] + ([Terminal(t)] + rest) + tail == [Terminal(t)] + (rest + tail);
  }

  // ----- closed: no rule adds an entry -----

  /** The row of a nonterminal has every token the form begins with. */
  predicate Covers(nullable: set<nat>, first: Pairs, a: nat, x: Form) {
    FirstOf(nullable, first, x) <= RowOf(first, a)
  }

  predicate ClosedNullable(g: Grammar, nullable: set<nat>) {
    forall r :: r in g.rules && AllNullable(nullable, r.rhs) ==> r.lhs in nullable
  }

  predicate ClosedFirst(g: Grammar, nullable: set<nat>, first: Pairs) {
    forall r :: r in g.rules ==> Covers(nullable, first, r.lhs, r.rhs)
  }

  lemma {:induction false} ErasedIsNullable(g: Grammar, nullable: set<nat>, n: nat, x: Form)
    requires ClosedNullable(g, nullable) && DerivesIn(g, n, x, [])
    ensures AllNullable(nullable, x)
  {
    if n > 0 {
      var y :| DerivesOnce(g, x, y) && DerivesIn(g, n - 1, y, []);
      hide AllNullable, ClosedNullable, Rewrites, Produces;
      var i: nat, w: Form :| Rewrites(g, x, i, w, y);
      ErasedIsNullable(g, nullable, n - 1, y);
      RewrittenNullable(g, nullable, x, i, w, y);
    } else {
      assert AllNullable(nullable, []);
    }
  }

  lemma RewrittenNullable(g: Grammar, nullable: set<nat>, x: Form, i: nat, w: Form, y: Form)
    requires ClosedNullable(g, nullable) && Rewrites(g, x, i, w, y) && AllNullable(nullable, y)
    ensures AllNullable(nullable, x)
  {
    var l, r := x[..i], x[i + 1..];
    assert x == l + [x[i]] + r && y == l + w + r;
    AllNullableConcat(nullable, l + w, r);
    AllNullableConcat(nullable, l, w);
    assert AllNullable(nullable, [x[i]]) by {
      if x[i].Nonterminal? { assert Rule(x[i].index, w) in g.rules; }
    }
    AllNullableConcat(nullable, l + [x[i]], r);
    AllNullableConcat(nullable, l, [x[i]]);
  }

  lemma AllNullableConcat(nullable: set<nat>, x: Form, y: Form)
    ensures AllNullable(nullable, x + y) <==> AllNullable(nullable, x) && AllNullable(nullable, y)
  {
    if AllNullable(nullable, x + y) {
      assert forall i :: 0 <= i < |x| ==> x[i] == (x + y)[i];
      assert forall i :: 0 <= i < |y| ==> y[i] == (x + y)[|x| + i];
    }
  }

  lemma {:induction false} FirstOfConcat(nullable: set<nat>, first: Pairs, x: Form, y: Form)
    ensures FirstOf(nullable, first, x + y) == FirstOf(nullable, first, x) + if AllNullable(nullable, x)
            then FirstOf(nullable, first, y) else {}
  {
    if x == [] {
      assert x + y == y;
    } else {
      assert (x + y)[1..] == x[1..] + y;
      FirstOfConcat(nullable, first, x[1..], y);
      assert [x[0]] + x[1..] == x;
      AllNullableConcat(nullable, [x[0]], x[1..]);
    }
  }

  lemma {:induction false} BeginningIsFirst(g: Grammar, nullable: set<nat>, first: Pairs, n: nat, x: Form, t: nat,
                                            rest: Form)
    requires ClosedNullable(g, nullable) && ClosedFirst(g, nullable, first) && DerivesIn(g, n, x, [Terminal(t)] + rest)
    ensures t in FirstOf(nullable, first, x)
  {
    if n > 0 {
      var y :| DerivesOnce(g, x, y) && DerivesIn(g, n - 1, y, [Terminal(t)] + rest);
      hide FirstOf, ClosedFirst, ClosedNullable, Rewrites, Produces;
      var i: nat, w: Form :| Rewrites(g, x, i, w, y);
      BeginningIsFirst(g, nullable, first, n - 1, y, t, rest);
      RewritingFirst(g, nullable, first, x, i, w, y);
    }
  }

  lemma RewritingFirst(g: Grammar, nullable: set<nat>, first: Pairs, x: Form, i: nat, w: Form, y: Form)
    requires ClosedNullable(g, nullable) && ClosedFirst(g, nullable, first) && Rewrites(g, x, i, w, y)
    ensures FirstOf(nullable, first, y) <= FirstOf(nullable, first, x)
  {
    var l, r := x[..i], x[i + 1..];
    RewrittenFirst(g, nullable, first, x[i], w);
    assert x == l + ([x[i]] + r) && y == l + (w + r);
    hide FirstOf, ClosedFirst, ClosedNullable, Produces, AllNullable;
    FirstOfConcat(nullable, first, l, w + r);
    FirstOfConcat(nullable, first, l, [x[i]] + r);
    FirstOfConcat(nullable, first, w, r);
    FirstOfConcat(nullable, first, [x[i]], r);
  }

  /** Rewriting a symbol gives it no beginning it did not have. */
  lemma RewrittenFirst(g: Grammar, nullable: set<nat>, first: Pairs, s: Symbol, w: Form)
    requires ClosedNullable(g, nullable) && ClosedFirst(g, nullable, first) && Produces(g, s, w)
    ensures FirstOf(nullable, first, w) <= FirstOf(nullable, first, [s])
    ensures AllNullable(nullable, w) ==> AllNullable(nullable, [s])
  {
    if s.Nonterminal? {
      var r := Rule(s.index, w);
      assert r in g.rules && Covers(nullable, first, r.lhs, r.rhs);
    }
  }

  // ----- exact -----

  /** The table of nullable nonterminals is right for every sentential form. */
  lemma NullableExact(g: Grammar, nullable: set<nat>, x: Form)
    requires SoundNullable(g, nullable) && ClosedNullable(g, nullable)
    ensures AllNullable(nullable, x) <==> Derives(g, x, [])
  {
    if AllNullable(nullable, x) {
      NullableDerives(g, nullable, x);
    }
    if Derives(g, x, []) {
      var n: nat :| DerivesIn(g, n, x, []);
      ErasedIsNullable(g, nullable, n, x);
    }
  }

  /** A sentential form can begin with a token exactly when the tables say so. */
  lemma FirstExact(g: Grammar, nullable: set<nat>, first: Pairs, x: Form, t: nat)
    requires SoundNullable(g, nullable) && ClosedNullable(g, nullable)
    requires SoundFirst(g, first) && ClosedFirst(g, nullable, first)
    ensures t in FirstOf(nullable, first, x) <==> Begins(g, x, t)
  {
    if t in FirstOf(nullable, first, x) {
      FirstDerives(g, nullable, first, x, t);
    }
    if Begins(g, x, t) {
      var rest :| Derives(g, x, [Terminal(t)] + rest);
      var n: nat :| DerivesIn(g, n, x, [Terminal(t)] + rest);
      BeginningIsFirst(g, nullable, first, n, x, t, rest);
    }
  }

  // ----- the loops -----

  class GrammarSets {
    const g: Grammar
    const lambda: array<bool>
    const firstset: SetTable
    ghost var nullable: set<nat>

    ghost function First(): Pairs
      reads firstset
    {
      firstset.pairs
    }

    ghost predicate Valid()
      reads this, lambda, firstset, firstset.bits
    {
      && ValidGrammar(g)
      && lambda.Length == g.nNonterminals
      && (forall a :: a in nullable <==> 0 <= a < lambda.Length && lambda[a])
      && firstset.Valid() && firstset.rows == g.nNonterminals && firstset.size == g.nTerminals
    }

    constructor (g: Grammar)
      requires ValidGrammar(g)
      ensures Valid() && this.g == g && nullable == {} && First() == {}
      ensures fresh(lambda) && fresh(firstset) && fresh(firstset.bits)
    {
      this.g := g;
      lambda := new bool[g.nNonterminals](_ => false);
      firstset := new SetTable(g.nNonterminals, g.nTerminals);
      nullable := {};
    }

    ghost function Nonterminals(): set<nat> {
      set a: nat {:trigger Rule(a, [])} | a < g.nNonterminals
    }

    ghost function AllPairs(): Pairs {
      set a: nat, t: nat | a < g.nNonterminals && t < g.nTerminals :: (a, t)
    }

    lemma Room()
      requires Valid()
      ensures nullable <= Nonterminals() && First() <= AllPairs()
    {
      forall p | p in First()
        ensures p in AllPairs()
      {
        assert (p.0, p.1) in First();
      }
    }

    method AddLambda(rp: Rule) returns (progress: bool)
      requires Valid() && rp in g.rules && SoundNullable(g, nullable)
      modifies this`nullable, lambda
      ensures Valid() && SoundNullable(g, nullable) && old(nullable) <= nullable
              && (progress <==> nullable != old(nullable))
      ensures !progress ==> AllNullable(nullable, rp.rhs) ==> rp.lhs in nullable
    {
      assert ValidRule(g, rp);
      if lambda[rp.lhs] {
        return false;
      }
      var i := 0;
      while i < |rp.rhs|
        invariant 0 <= i <= |rp.rhs|
        invariant AllNullable(nullable, rp.rhs[..i])
      {
        assert ValidSymbol(g, rp.rhs[i]);
        if !rp.rhs[i].Nonterminal? || !lambda[rp.rhs[i].index] {
          return false;
        }
        i := i + 1;
      }
      assert rp.rhs[..i] == rp.rhs;
      NullableDerives(g, nullable, rp.rhs);
      RuleDerives(g, rp);
      DerivesTransitive(g, [Nonterminal(rp.lhs)], rp.rhs, []);
      lambda[rp.lhs] := true;
      nullable := nullable + {rp.lhs};
      return true;
    }

    method FindLambdas()
      requires Valid() && SoundNullable(g, nullable)
      modifies this`nullable, lambda
      ensures Valid() && SoundNullable(g, nullable) && ClosedNullable(g, nullable)
    {
      var progress := true;
      while progress
        invariant Valid() && SoundNullable(g, nullable)
        invariant !progress ==> ClosedNullable(g, nullable)
        decreases |Nonterminals() - nullable|, if progress then 1 else 0
      {
        progress := false;
        ghost var before := nullable;
        var k := 0;
        while k < |g.rules|
          invariant 0 <= k <= |g.rules| && Valid() && SoundNullable(g, nullable)
          invariant before <= nullable && (progress <==> nullable != before)
          invariant !progress ==> forall j :: 0 <= j < k && AllNullable(nullable, g.rules[j].rhs) ==>
                    g.rules[j].lhs in nullable
        {
          var p := AddLambda(g.rules[k]);
          progress := progress || p;
          k := k + 1;
        }
        Room();
        Shrinks(Nonterminals(), before, nullable);
      }
    }

    /** What one rule gives the first set of its left-hand side. */
    method AddRule(rp: Rule) returns (progress: bool)
      requires Valid() && rp in g.rules && SoundNullable(g, nullable) && SoundFirst(g, First())
      modifies firstset, firstset.bits
      ensures Valid() && SoundFirst(g, First()) && old(First()) <= First() && (progress <==> First() != old(First()))
      ensures progress || Covers(nullable, First(), rp.lhs, rp.rhs)
    {
      progress := false;
      ghost var was := First();
      assert ValidRule(g, rp);
      var i := 0;
      while i < |rp.rhs|
        invariant 0 <= i <= |rp.rhs| && Valid() && SoundFirst(g, First())
        invariant was <= First() && (progress <==> First() != was)
        invariant AllNullable(nullable, rp.rhs[..i])
        invariant progress || Covers(nullable, First(), rp.lhs, rp.rhs[..i])
      {
        var s := rp.rhs[i];
        assert ValidSymbol(g, s);
        assert rp.rhs[..i + 1] == rp.rhs[..i] + [s];
        PrefixFirst(g, nullable, First(), rp, i);
        var p := AddSymbol(rp.lhs, s);
        progress := progress || p;
        FirstOfConcat(nullable, First(), rp.rhs[..i], [s]);
        if !s.Nonterminal? || !lambda[s.index] {
          FirstOfConcat(nullable, First(), rp.rhs[..i + 1], rp.rhs[i + 1..]);
          assert rp.rhs[..i + 1] + rp.rhs[i + 1..] == rp.rhs;
          return;
        }
        i := i + 1;
      }
      assert rp.rhs[..i] == rp.rhs;
    }

    method AddSymbol(lhs: nat, s: Symbol) returns (progress: bool)
      requires Valid() && lhs < g.nNonterminals && ValidSymbol(g, s) && SoundFirst(g, First())
      requires forall t :: t in FirstOf(nullable, First(), [s]) ==> Begins(g, [Nonterminal(lhs)], t)
      modifies firstset, firstset.bits
      ensures Valid() && SoundFirst(g, First()) && old(First()) <= First() && (progress <==> First() != old(First()))
      ensures progress || Covers(nullable, First(), lhs, [s])
    {
      hide RowOf, SoundNullable, Begins;
      progress := false;
      ghost var was, tokens := First(), FirstOf(nullable, First(), [s]);
      FirstOfOne(nullable, First(), s);
      match s {
        case Terminal(t) =>
          progress := firstset.SetAdd(lhs, t);
        case Class(subsym) =>
          var j := 0;
          while j < |subsym|
            invariant 0 <= j <= |subsym| && Valid() && was <= First() && (progress <==> First() != was)
            invariant forall p :: p in First() <==> p in was || (p.0 == lhs && p.1 in subsym[..j])
          {
            var p := firstset.SetAdd(lhs, subsym[j]);
            progress := progress || p;
            assert subsym[..j + 1] == subsym[..j] + [subsym[j]];
            j := j + 1;
          }
          assert subsym[..j] == subsym;
        case Nonterminal(a) =>
          if a != lhs {
            progress := firstset.SetUnion(lhs, a);
          }
      }
      forall p | p in First()
        ensures Begins(g, [Nonterminal(p.0)], p.1)
      {
        assert p in was || (p.0 == lhs && p.1 in tokens);
      }
      forall t | t in tokens
        ensures t in RowOf(First(), lhs)
      {
        RowMember(First(), lhs, t);
        match s
        case Terminal(_) => assert (lhs, t) in First();
        case Class(subsym) => assert (lhs, t) in First();
        case Nonterminal(a) =>
          RowMember(was, a, t);
          assert t in RowOf(was, a);
          if a != lhs { JoinedMember(was, lhs, a, (lhs, t)); }
      }
      assert progress || First() == was;
    }

    /** The second loop, after the first has settled which nonterminals are nullable. */
    method FindFirsts()
      requires Valid() && SoundNullable(g, nullable) && ClosedNullable(g, nullable) && SoundFirst(g, First())
      modifies firstset, firstset.bits
      ensures Valid() && SoundFirst(g, First()) && ClosedFirst(g, nullable, First())
    {
      hide Covers, SoundFirst, SoundNullable, ClosedNullable, ValidGrammar, AllPairs;
      var progress := true;
      while progress
        invariant Valid() && SoundFirst(g, First())
        invariant !progress ==> ClosedFirst(g, nullable, First())
        decreases |AllPairs() - First()|, if progress then 1 else 0
      {
        progress := false;
        ghost var before := First();
        var k := 0;
        while k < |g.rules|
          invariant 0 <= k <= |g.rules| && Valid() && SoundFirst(g, First())
          invariant before <= First() && (progress <==> First() != before)
          invariant !progress ==> forall j :: 0 <= j < k ==> Covers(nullable, First(), g.rules[j].lhs, g.rules[j].rhs)
        {
          var p := AddRule(g.rules[k]);
          progress := progress || p;
          k := k + 1;
        }
        Room();
        Shrinks(AllPairs(), before, First());
      }
    }

    /** Both tables are exact: they hold what the grammar derives, nothing more and nothing less. */
    method FindFirstSets()
      requires Valid() && nullable == {} && First() == {}
      modifies this, lambda, firstset, firstset.bits
      ensures Valid()
      ensures SoundNullable(g, nullable) && ClosedNullable(g, nullable)
      ensures SoundFirst(g, First()) && ClosedFirst(g, nullable, First())
      ensures forall a :: 0 <= a < g.nNonterminals ==> (lambda[a] <==> Derives(g, [Nonterminal(a)], []))
      ensures forall a, t :: 0 <= a < g.nNonterminals && 0 <= t < g.nTerminals ==>
              (firstset.bits[a, t] <==> Begins(g, [Nonterminal(a)], t))
    {
      FindLambdas();
      FindFirsts();
      forall a | 0 <= a < g.nNonterminals
        ensures lambda[a] <==> Derives(g, [Nonterminal(a)], [])
      {
        NullableExact(g, nullable, [Nonterminal(a)]);
        assert AllNullable(nullable, [Nonterminal(a)]) <==> a in nullable;
      }
      forall a, t | 0 <= a < g.nNonterminals && 0 <= t < g.nTerminals
        ensures firstset.bits[a, t] <==> Begins(g, [Nonterminal(a)], t)
      {
        FirstExact(g, nullable, First(), [Nonterminal(a)], t);
        assert (a, t) in First() ==> (a, t).1 in RowOf(First(), a);
      }
    }
  }

  /** The symbol after a nullable prefix of a rule begins what its left-hand side begins. */
  lemma PrefixFirst(g: Grammar, nullable: set<nat>, first: Pairs, rp: Rule, i: nat)
    requires rp in g.rules && i < |rp.rhs| && SoundNullable(g, nullable) && SoundFirst(g, first)
             && AllNullable(nullable, rp.rhs[..i])
    ensures forall t :: t in FirstOf(nullable, first, [rp.rhs[i]]) ==> Begins(g, [Nonterminal(rp.lhs)], t)
  {
    FirstOfConcat(nullable, first, rp.rhs[..i], rp.rhs[i..]);
    FirstOfConcat(nullable, first, [rp.rhs[i]], rp.rhs[i + 1..]);
    assert rp.rhs[..i] + rp.rhs[i..] == rp.rhs && [rp.rhs[i]] + rp.rhs[i + 1..] == rp.rhs[i..];
    forall t | t in FirstOf(nullable, first, [rp.rhs[i]])
      ensures Begins(g, [Nonterminal(rp.lhs)], t)
    {
      FirstDerives(g, nullable, first, rp.rhs, t);
      var rest :| Derives(g, rp.rhs, [Terminal(t)] + rest);
      RuleDerives(g, rp);
      DerivesTransitive(g, [Nonterminal(rp.lhs)], rp.rhs, [Terminal(t)] + rest);
    }
  }
}
