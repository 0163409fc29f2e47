/** Context-free grammars as the generator holds them, and what they derive. */
module Grammars {
  /** A token class stands for any one of its tokens. */
  datatype Symbol = Terminal(index: nat) | Nonterminal(index: nat) | Class(tokens: seq<nat>)

  datatype Rule = Rule(lhs: nat, rhs: seq<Symbol>)

  datatype Grammar = Grammar(nTerminals: nat, nNonterminals: nat, rules: seq<Rule>)

  type Form = seq<Symbol>

  predicate ValidSymbol(g: Grammar, s: Symbol) {
    match s
    case Terminal(i) => i < g.nTerminals
    case Nonterminal(i) => i < g.nNonterminals
    case Class(tokens) => forall k :: 0 <= k < |tokens| ==> tokens[k] < g.nTerminals
  }

  predicate ValidRule(g: Grammar, r: Rule) {
    r.lhs < g.nNonterminals && forall k :: 0 <= k < |r.rhs| ==> ValidSymbol(g, r.rhs[k])
  }

  predicate ValidGrammar(g: Grammar) {
    forall i :: 0 <= i < |g.rules| ==> ValidRule(g, g.rules[i])
  }

  /** One symbol rewritten. */
  predicate Produces(g: Grammar, s: Symbol, w: Form) {
    match s
    case Terminal(_) => false
    case Nonterminal(a) => Rule(a, w) in g.rules
    case Class(tokens) => |w| == 1 && w[0].Terminal? && w[0].index in tokens
  }

  /** `y` is `x` with the symbol at `i` rewritten to `w`. */
  predicate Rewrites(g: Grammar, x: Form, i: nat, w: Form, y: Form) {
    i < |x| && Produces(g, x[i], w) && y == x[..i] + w + x[i + 1..]
  }

  ghost predicate DerivesOnce(g: Grammar, x: Form, y: Form) {
    exists i: nat, w: Form :: Rewrites(g, x, i, w, y)
  }

  ghost predicate DerivesIn(g: Grammar, n: nat, x: Form, y: Form) {
    if n == 0 then x == y else exists z :: DerivesOnce(g, x, z) && DerivesIn(g, n - 1, z, y)
  }

  ghost predicate Derives(g: Grammar, x: Form, y: Form) {
    exists n: nat :: DerivesIn(g, n, x, y)
  }

  lemma DerivesItself(g: Grammar, x: Form)
    ensures Derives(g, x, x)
  {
    assert DerivesIn(g, 0, x, x);
  }

  lemma {:induction false} DerivesAppend(g: Grammar, n: nat, m: nat, x: Form, y: Form, z: Form)
    requires DerivesIn(g, n, x, y) && DerivesIn(g, m, y, z)
    ensures DerivesIn(g, n + m, x, z)
  {
    if n > 0 {
      var x1 :| DerivesOnce(g, x, x1) && DerivesIn(g, n - 1, x1, y);
      DerivesAppend(g, n - 1, m, x1, y, z);
    }
  }

  lemma DerivesTransitive(g: Grammar, x: Form, y: Form, z: Form)
    requires Derives(g, x, y) && Derives(g, y, z)
    ensures Derives(g, x, z)
  {
    var n: nat :| DerivesIn(g, n, x, y);
    var m: nat :| DerivesIn(g, m, y, z);
    DerivesAppend(g, n, m, x, y, z);
  }

  /** A derivation goes through with other symbols around it. */
  lemma {:induction false} DerivesInContext(g: Grammar, n: nat, x: Form, y: Form, l: Form, r: Form)
    requires DerivesIn(g, n, x, y)
    ensures DerivesIn(g, n, l + x + r, l + y + r)
  {
    if n > 0 {
      var x1 :| DerivesOnce(g, x, x1) && DerivesIn(g, n - 1, x1, y);
      var i: nat, w: Form :| Rewrites(g, x, i, w, x1);
      DerivesInContext(g, n - 1, x1, y, l, r);
      RewritesInContext(g, x, i, w, x1, l, r);
      assert DerivesOnce(g, l + x + r, l + x1 + r);
    }
  }

  lemma RewritesInContext(g: Grammar, x: Form, i: nat, w: Form, y: Form, l: Form, r: Form)
    requires Rewrites(g, x, i, w, y)
    ensures Rewrites(g, l + x + r, |l| + i, w, l + y + r)
  {
    var a := l + x + r;
    assert a[..|l| + i] == l + x[..i] && a[|l| + i + 1..] == x[i + 1..] + r;
  }

  lemma DerivesWithin(g: Grammar, x: Form, y: Form, l: Form, r: Form)
    requires Derives(g, x, y)
    ensures Derives(g, l + x + r, l + y + r)
  {
    var n: nat :| DerivesIn(g, n, x, y);
    DerivesInContext(g, n, x, y, l, r);
  }

  lemma DerivesBoth(g: Grammar, x1: Form, y1: Form, x2: Form, y2: Form)
    requires Derives(g, x1, y1) && Derives(g, x2, y2)
    ensures Derives(g, x1 + x2, y1 + y2)
  {
    DerivesWithin(g, x1, y1, [], x2);
    DerivesWithin(g, x2, y2, y1, []);
    assert [] + x1 + x2 == x1 + x2 && [] + y1 + x2 == y1 + x2 && y1 + x2 + [] == y1 + x2 && y1 + y2 + [] == y1 + y2;
    DerivesTransitive(g, x1 + x2, y1 + x2, y1 + y2);
  }

  lemma RuleDerives(g: Grammar, r: Rule)
    requires r in g.rules
    ensures Derives(g, [Nonterminal(r.lhs)], r.rhs)
  {
    var x := [Nonterminal(r.lhs)];
    assert x[..0] + r.rhs + x[1..] == r.rhs;
    assert Rewrites(g, x, 0, r.rhs, r.rhs);
    assert DerivesOnce(g, x, r.rhs) && DerivesIn(g, 0, r.rhs, r.rhs);
    assert DerivesIn(g, 1, x, r.rhs);
  }

  lemma ClassDerives(g: Grammar, s: Symbol, t: nat)
    requires s.Class? && t in s.tokens
    ensures Derives(g, [s], [Terminal(t)])
  {
    var x, y := [s], [Terminal(t)];
    assert x[..0] + y + x[1..] == y;
    assert Rewrites(g, x, 0, y, y);
    assert DerivesOnce(g, x, y) && DerivesIn(g, 0, y, y);
    assert DerivesIn(g, 1, x, y);
  }

  /** A derivation of two parts is one of each. */
  lemma {:induction false} SplitDerivation(g: Grammar, n: nat, u: Form, v: Form, w: Form)
    returns (n1: nat, n2: nat, w1: Form, w2: Form)
    requires DerivesIn(g, n, u + v, w)
    ensures w == w1 + w2 && n1 + n2 == n && DerivesIn(g, n1, u, w1) && DerivesIn(g, n2, v, w2)
  {
    hide DerivesOnce;
    if n == 0 {
      n1, n2, w1, w2 := 0, 0, u, v;
    } else {
      var z :| DerivesOnce(g, u + v, z) && DerivesIn(g, n - 1, z, w);
      var inLeft, y := SplitStep(g, u, v, z);
      if inLeft {
        n1, n2, w1, w2 := SplitDerivation(g, n - 1, y, v, w);
        n1 := n1 + 1;
      } else {
        n1, n2, w1, w2 := SplitDerivation(g, n - 1, u, y, w);
        n2 := n2 + 1;
      }
    }
  }

  /** A step rewrites a symbol of one of the two parts. */
  lemma SplitStep(g: Grammar, u: Form, v: Form, z: Form) returns (inLeft: bool, y: Form)
    requires DerivesOnce(g, u + v, z)
    ensures if inLeft then DerivesOnce(g, u, y) && z == y + v else DerivesOnce(g, v, y) && z == u + y
  {
    var i: nat, x: Form :| Rewrites(g, u + v, i, x, z);
    inLeft := i < |u|;
    if inLeft {
      y := u[..i] + x + u[i + 1..];
      LeftStep(g, u, v, i, x, y);
    } else {
      y := v[..i - |u|] + x + v[i - |u| + 1..];
      RightStep(g, u, v, i, x, y);
    }
  }

  lemma LeftStep(g: Grammar, u: Form, v: Form, i: nat, x: Form, y: Form)
    requires i < |u| && Produces(g, (u + v)[i], x) && y == u[..i] + x + u[i + 1..]
    ensures DerivesOnce(g, u, y) && (u + v)[..i] + x + (u + v)[i + 1..] == y + v
  {
    assert (u + v)[..i] == u[..i] && (u + v)[i + 1..] == u[i + 1..] + v;
    assert Rewrites(g, u, i, x, y);
  }

  lemma RightStep(g: Grammar, u: Form, v: Form, i: nat, x: Form, y: Form)
    requires |u| <= i < |u + v| && Produces(g, (u + v)[i], x) && y == v[..i - |u|] + x + v[i - |u| + 1..]
    ensures DerivesOnce(g, v, y) && (u + v)[..i] + x + (u + v)[i + 1..] == u + y
  {
    var j := i - |u|;
    assert (u + v)[..i] == u + v[..j] && (u + v)[i + 1..] == v[j + 1..];
    assert Rewrites(g, v, j, x, y);
  }
}
