/**
  Default reductions: a state's most frequent reduce becomes its default, and a state
  that can do nothing else is entered and left in one action; a goto that would only apply
  a rule of one symbol takes the place of that rule's own goto. What the parser does on a
  lookahead that had an action does not change otherwise.
 */
module CompressTables {
  import opened Options

  /**
    `Error` is what a shift becomes that ties with a reduce on a token without
    associativity; `Inactive` is what resolved conflicts and merged reduces leave behind.
   */
  datatype Kind = Shift(target: nat) | Reduce(rule: nat) | ShiftReduce(rule: nat) | Accept | Error | Inactive

  datatype Action = Action(sp: int, kind: Kind)

  /** The symbol of the action for every other lookahead. */
  const DEFAULT := -1

  predicate OnePerLookahead(ap: seq<Action>) {
    forall i, j :: 0 <= i < j < |ap| && !ap[i].kind.Inactive? && !ap[j].kind.Inactive? ==> ap[i].sp != ap[j].sp
  }

  /** The reduce that such an error tied with stays active behind it. */
  predicate OneButTies(ap: seq<Action>) {
    forall i, j :: 0 <= i < j < |ap| && !ap[i].kind.Inactive? && !ap[j].kind.Inactive? && ap[i].sp == ap[j].sp ==>
      ap[i].kind.Error? && ap[j].kind.Reduce?
  }

  predicate NoDefault(ap: seq<Action>) {
    forall i :: 0 <= i < |ap| ==> ap[i].sp != DEFAULT
  }

  /** The first active action for a symbol. */
  function Own(ap: seq<Action>, sp: int): Kind {
    if ap == [] then Inactive
    else if ap[0].sp == sp && !ap[0].kind.Inactive? then ap[0].kind
    else Own(ap[1..], sp)
  }

  /** What the parser does: the lookahead's own action, or the default. */
  function Lookup(ap: seq<Action>, sp: int): Kind {
    if Own(ap, sp).Inactive? then Own(ap, DEFAULT) else Own(ap, sp)
  }

  lemma {:induction false} OwnAt(ap: seq<Action>, i: nat)
    requires i < |ap| && OnePerLookahead(ap) && !ap[i].kind.Inactive?
    ensures Own(ap, ap[i].sp) == ap[i].kind
  {
    if i > 0 {
      assert ap[0].kind.Inactive? || ap[0].sp != ap[i].sp;
      OwnAt(ap[1..], i - 1);
    }
  }

  lemma {:induction false} OwnFound(ap: seq<Action>, sp: int) returns (i: nat)
    requires !Own(ap, sp).Inactive?
    ensures i < |ap| && ap[i] == Action(sp, Own(ap, sp))
  {
    if ap[0].sp == sp && !ap[0].kind.Inactive? {
      i := 0;
    } else {
      var j := OwnFound(ap[1..], sp);
      i := j + 1;
    }
  }

  predicate ReducesBy(a: Action, rule: nat) {
    a.kind == Reduce(rule)
  }

  function Count(ap: seq<Action>, rule: nat): nat {
    if ap == [] then 0 else (if ReducesBy(ap[0], rule) then 1 else 0) + Count(ap[1..], rule)
  }

  lemma {:induction false} CountFrom(ap: seq<Action>, i: nat, rule: nat)
    requires i <= |ap|
    ensures Count(ap[i..], rule) <= Count(ap, rule)
    ensures (forall j :: 0 <= j < i ==> !ReducesBy(ap[j], rule)) ==> Count(ap[i..], rule) == Count(ap, rule)
  {
    if i == 0 {
      assert ap[0..] == ap;
    } else {
      CountFrom(ap[1..], i - 1, rule);
      assert ap[1..][i - 1..] == ap[i..];
      assert forall j :: 0 <= j < i - 1 ==> ap[1..][j] == ap[j + 1];
    }
  }

  /** A reduce of this state that may be its default. */
  predicate Candidate(ap: seq<Action>, lhsStart: set<nat>, i: nat)
    requires i < |ap|
  {
    ap[i].kind.Reduce? && ap[i].kind.rule !in lhsStart
  }

  method CountRest(ap: seq<Action>, i: nat) returns (n: nat)
    requires i < |ap| && ap[i].kind.Reduce?
    ensures n == Count(ap[i..], ap[i].kind.rule)
  {
    n := 1;
    var j := i + 1;
    while j < |ap|
      invariant i < j <= |ap|
      invariant n + Count(ap[j..], ap[i].kind.rule) == Count(ap[i..], ap[i].kind.rule)
    {
      assert ap[j..][1..] == ap[j + 1..];
      if ap[j].kind == Reduce(ap[i].kind.rule) {
        n := n + 1;
      }
      j := j + 1;
    }
  }

  /** A reduce by the rule comes first among those of rules that are as frequent. */
  predicate FirstOfEqual(ap: seq<Action>, rule: nat, i: nat)
    requires i < |ap|
  {
    exists k :: 0 <= k <= i && ReducesBy(ap[k], rule)
  }

  /** The first of the rules that no other is reduced by more often than; rules of the start symbol do not count. */
  method MostFrequent(ap: seq<Action>, lhsStart: set<nat>) returns (best: Option<nat>)
    ensures best.None? <==> forall i :: 0 <= i < |ap| ==> !Candidate(ap, lhsStart, i)
    ensures best.Some? ==> best.value !in lhsStart && Count(ap, best.value) > 0
    ensures best.Some? ==> forall i :: 0 <= i < |ap| && Candidate(ap, lhsStart, i) ==>
            Count(ap, ap[i].kind.rule) <= Count(ap, best.value)
    ensures best.Some? ==> forall i :: 0 <= i < |ap| && Candidate(ap, lhsStart, i) ==>
            (Count(ap, ap[i].kind.rule) == Count(ap, best.value) ==> FirstOfEqual(ap, best.value, i))
  {
    best := None;
    var nbest, i := 0, 0;
    while i < |ap|
      invariant 0 <= i <= |ap|
      invariant best.None? ==> nbest == 0 && forall j :: 0 <= j < i ==> !Candidate(ap, lhsStart, j)
      invariant best.Some? ==> best.value !in lhsStart && nbest == Count(ap, best.value) > 0
      invariant best.Some? ==> exists j :: 0 <= j < i && Candidate(ap, lhsStart, j) && ReducesBy(ap[j], best.value)
      invariant best.Some? ==> forall j :: 0 <= j < i && Candidate(ap, lhsStart, j) ==>
                (Count(ap, ap[j].kind.rule) == nbest ==> FirstOfEqual(ap, best.value, j))
      invariant forall j :: 0 <= j < i && Candidate(ap, lhsStart, j) ==> Count(ap, ap[j].kind.rule) <= nbest
    {
      if ap[i].kind.Reduce? && ap[i].kind.rule !in lhsStart && Some(ap[i].kind.rule) != best {
        var rp := ap[i].kind.rule;
        var n := CountRest(ap, i);
        CountFrom(ap, i, rp);
        assert Candidate(ap, lhsStart, i);
        assert forall j :: 0 <= j < i && ReducesBy(ap[j], rp) ==> Candidate(ap, lhsStart, j);
        if n > nbest {
          best, nbest := Some(rp), n;
        }
      }
      i := i + 1;
    }
  }

  /** The first reduce by `rule` becomes the default, the others are dropped. */
  function Combine(ap: seq<Action>, rule: nat, found: bool): (after: seq<Action>)
    ensures |after| == |ap|
  {
    if ap == [] then []
    else if !ReducesBy(ap[0], rule) then [ap[0]] + Combine(ap[1..], rule, found)
    else [if found then ap[0].(kind := Inactive) else ap[0].(sp := DEFAULT)] + Combine(ap[1..], rule, true)
  }

  lemma {:induction false} CombineOwn(ap: seq<Action>, rule: nat, found: bool, sp: int)
    requires NoDefault(ap) && OneButTies(ap)
    ensures sp != DEFAULT ==>
            Own(Combine(ap, rule, found), sp) == if Own(ap, sp) == Reduce(rule) then Inactive else Own(ap, sp)
    ensures Own(Combine(ap, rule, found), DEFAULT) == if !found && Count(ap, rule) > 0 then Reduce(rule) else Inactive
  {
    if ap != [] {
      var rest := Combine(ap[1..], rule, found || ReducesBy(ap[0], rule));
      assert Combine(ap, rule, found)[1..] == rest;
      CombineOwn(ap[1..], rule, found || ReducesBy(ap[0], rule), sp);
      if ap[0].sp == sp && ReducesBy(ap[0], rule) {
        OnlyOne(ap, sp);
      }
    }
  }

  lemma OnlyOne(ap: seq<Action>, sp: int)
    requires ap != [] && OneButTies(ap) && ap[0].sp == sp && ap[0].kind.Reduce?
    ensures Own(ap[1..], sp) == Inactive
  {
    if !Own(ap[1..], sp).Inactive? {
      var i := OwnFound(ap[1..], sp);
    }
  }

  predicate UsesWildcard(ap: seq<Action>, wildcard: Option<int>) {
    exists j :: 0 <= j < |ap| && ap[j].kind.Shift? && Some(ap[j].sp) == wildcard
  }

  /** Every tie is with a reduce by this rule. */
  predicate TiesBy(ap: seq<Action>, rule: nat) {
    forall i, j :: 0 <= i < j < |ap| && !ap[i].kind.Inactive? && !ap[j].kind.Inactive? && ap[i].sp == ap[j].sp ==>
      ReducesBy(ap[j], rule)
  }

  lemma {:induction false} CombineOne(ap: seq<Action>, rule: nat, found: bool)
    requires NoDefault(ap) && OneButTies(ap) && TiesBy(ap, rule)
    ensures OnePerLookahead(Combine(ap, rule, found))
  {
    var after := Combine(ap, rule, found);
    CombineKeeps(ap, rule, found);
    CombineDefaults(ap, rule, found);
    forall i, j | 0 <= i < j < |after| && !after[i].kind.Inactive? && !after[j].kind.Inactive?
      ensures after[i].sp != after[j].sp
    {
      assert !IsDefaultEntry(after[i]) || !IsDefaultEntry(after[j]);
    }
  }

  predicate IsDefaultEntry(a: Action) {
    a.sp == DEFAULT && !a.kind.Inactive?
  }

  /** There is one default at most, and no reduce by the rule stays as it was. */
  lemma {:induction false} CombineDefaults(ap: seq<Action>, rule: nat, found: bool)
    requires NoDefault(ap)
    ensures forall i :: 0 <= i < |ap| && ReducesBy(ap[i], rule) ==> Combine(ap, rule, found)[i] != ap[i]
    ensures found ==> forall i :: 0 <= i < |ap| ==> !IsDefaultEntry(Combine(ap, rule, found)[i])
    ensures forall i, j :: 0 <= i < j < |ap| ==>
              !IsDefaultEntry(Combine(ap, rule, found)[i]) || !IsDefaultEntry(Combine(ap, rule, found)[j])
  {
    if ap != [] {
      var now := found || ReducesBy(ap[0], rule);
      var after, rest := Combine(ap, rule, found), Combine(ap[1..], rule, now);
      CombineDefaults(ap[1..], rule, now);
      assert after[1..] == rest;
      forall i | 1 <= i < |ap|
        ensures after[i] == rest[i - 1] && ap[i] == ap[1..][i - 1]
      {
        assert after[1..][i - 1] == after[i];
      }
      assert IsDefaultEntry(after[0]) ==> now;
      hide Combine;
      forall i, j | 0 <= i < j < |ap|
        ensures !IsDefaultEntry(after[i]) || !IsDefaultEntry(after[j])
      {
        assert after[j] == rest[j - 1];
      }
      forall i | 0 <= i < |ap|
        ensures ReducesBy(ap[i], rule) ==> after[i] != ap[i]
        ensures found ==> !IsDefaultEntry(after[i])
      {
        if i > 0 {
          assert ap[1..][i - 1] == ap[i];
        }
      }
    }
  }

  lemma {:induction false} CombineKeeps(ap: seq<Action>, rule: nat, found: bool)
    ensures forall i :: 0 <= i < |ap| ==>
              var b := Combine(ap, rule, found)[i];
              && (b == ap[i] || b.kind.Inactive? || (!found && b == Action(DEFAULT, Reduce(rule))))
              && (b.sp == ap[i].sp || b.sp == DEFAULT)
  {
    if ap != [] {
      var now := found || ReducesBy(ap[0], rule);
      CombineKeeps(ap[1..], rule, now);
      var after := Combine(ap, rule, found);
      assert after[1..] == Combine(ap[1..], rule, now);
      assert forall i :: 1 <= i < |ap| ==> after[i] == after[1..][i - 1] && ap[i] == ap[1..][i - 1];
    }
  }

  /** No shift, and no reduce but by the default rule. */
  predicate OnlyReduces(ap: seq<Action>, rule: nat) {
    forall i :: 0 <= i < |ap| ==> !ap[i].kind.Shift? && (ap[i].kind.Reduce? ==> ap[i].kind.rule == rule)
  }

  lemma {:induction false} CountPositive(ap: seq<Action>, rule: nat)
    requires Count(ap, rule) > 0
    ensures exists k :: 0 <= k < |ap| && ReducesBy(ap[k], rule)
  {
    if !ReducesBy(ap[0], rule) {
      CountPositive(ap[1..], rule);
      var k :| 0 <= k < |ap[1..]| && ReducesBy(ap[1..][k], rule);
      assert ReducesBy(ap[k + 1], rule);
    } else {
      assert ReducesBy(ap[0], rule);
    }
  }

  lemma {:induction false} CombinedAll(was: seq<Action>, rule: nat, after: seq<Action>)
    requires |after| == |was|
             && forall k :: 0 <= k < |was| ==>
             after[k] == if ReducesBy(was[k], rule) then was[k].(kind := Inactive) else was[k]
    ensures after == Combine(was, rule, true)
  {
    if was != [] {
      CombinedAll(was[1..], rule, after[1..]);
      assert after == [after[0]] + after[1..];
    }
  }

  lemma {:induction false} CombinedFirst(was: seq<Action>, rule: nat, first: nat, after: seq<Action>)
    requires first < |was| == |after| && ReducesBy(was[first], rule)
             && forall k :: 0 <= k < first ==> !ReducesBy(was[k], rule)
    requires after[first] == was[first].(sp := DEFAULT)
    requires forall k :: 0 <= k < |was| && k != first ==>
             after[k] == if ReducesBy(was[k], rule) then was[k].(kind := Inactive) else was[k]
    ensures after == Combine(was, rule, false)
  {
    assert after == [after[0]] + after[1..];
    if first == 0 {
      CombinedAll(was[1..], rule, after[1..]);
    } else {
      CombinedFirst(was[1..], rule, first - 1, after[1..]);
    }
  }

  // ----- gotos that only lead on -----

  /** The rules' left-hand sides, and which rules have one symbol on the right and no code. */
  datatype Units = Units(nTerminals: nat, lhs: seq<nat>, skip: seq<bool>)
  {
    function Goto(rule: nat): int {
      if rule < |lhs| then nTerminals + lhs[rule] else DEFAULT
    }
  }

  predicate Skips(u: Units, sp: int, k: Kind) {
    sp >= u.nTerminals && k.ShiftReduce? && k.rule < |u.lhs| && k.rule < |u.skip| && u.skip[k.rule]
  }

  predicate ActiveGotos(ap: seq<Action>, nTerminals: nat) {
    forall i :: 0 <= i < |ap| && ap[i].sp >= nTerminals ==> !ap[i].kind.Inactive?
  }

  /** From one goto to another along `n` such rules. */
  ghost predicate Leads(u: Units, ap: seq<Action>, n: nat, k: Kind, end: Kind) {
    if n == 0 then k == end
    else
      && Skips(u, u.nTerminals, k) && !Own(ap, u.Goto(k.rule)).Inactive?
      && Leads(u, ap, n - 1, Own(ap, u.Goto(k.rule)), end)
  }

  lemma {:induction false} LeadsOn(u: Units, ap: seq<Action>, n: nat, m: nat, a: Kind, b: Kind, c: Kind)
    requires Leads(u, ap, n, a, b) && Leads(u, ap, m, b, c)
    ensures Leads(u, ap, n + m, a, c)
  {
    if n > 0 {
      LeadsOn(u, ap, n - 1, m, Own(ap, u.Goto(a.rule)), b, c);
    }
  }

  ghost predicate LeadsTo(u: Units, ap: seq<Action>, k: Kind, end: Kind) {
    exists n: nat :: Leads(u, ap, n, k, end)
  }

  /** Every goto has been replaced by one it leads to; nothing else has changed. */
  ghost predicate Followed(u: Units, mid: seq<Action>, final: seq<Action>) {
    && |final| == |mid|
    && forall i :: 0 <= i < |mid| ==>
         && final[i].sp == mid[i].sp && (final[i].kind.Inactive? <==> mid[i].kind.Inactive?)
         && if mid[i].sp < u.nTerminals then final[i] == mid[i] else LeadsTo(u, mid, mid[i].kind, final[i].kind)
  }

  /** No goto is left that would only apply such a rule. */
  predicate Unskipped(u: Units, ap: seq<Action>) {
    forall i :: 0 <= i < |ap| ==> !Skips(u, ap[i].sp, ap[i].kind)
  }

  /** Such a rule has another goto to follow, which ranks higher than the one that applies it. */
  predicate Climbs(u: Units, ap: seq<Action>, rank: seq<nat>, top: nat) {
    forall i :: 0 <= i < |ap| && Skips(u, ap[i].sp, ap[i].kind) ==> ClimbsAt(u, ap, rank, top, i)
  }

  predicate ClimbsAt(u: Units, ap: seq<Action>, rank: seq<nat>, top: nat, i: nat)
    requires i < |ap| && Skips(u, ap[i].sp, ap[i].kind)
  {
    var from, to := ap[i].sp - u.nTerminals, u.lhs[ap[i].kind.rule];
    && from < |rank| && to < |rank| && rank[from] < rank[to] <= top
    && exists j :: 0 <= j < |ap| && ap[j].sp == u.nTerminals + to
  }

  ghost predicate CanFollow(u: Units, ap: seq<Action>, top: nat) {
    exists rank :: Climbs(u, ap, rank, top)
  }

  /** Taking over what such a goto leads to is a step up, and leaves the others where they were. */
  lemma StepClimbs(u: Units, ap: seq<Action>, rank: seq<nat>, top: nat, i: nat, j: nat)
    requires Climbs(u, ap, rank, top) && i < |ap| && j < |ap|
    requires Skips(u, ap[i].sp, ap[i].kind) && ap[j].sp == u.Goto(ap[i].kind.rule)
    ensures var after := ap[i := ap[i].(kind := ap[j].kind)];
            && Climbs(u, after, rank, top)
            && (Skips(u, after[i].sp, after[i].kind) ==>
                  rank[u.lhs[ap[i].kind.rule]] < rank[u.lhs[after[i].kind.rule]])
  {
    var after := ap[i := ap[i].(kind := ap[j].kind)];
    assert ClimbsAt(u, ap, rank, top, i);
    forall k | 0 <= k < |after| && Skips(u, after[k].sp, after[k].kind)
      ensures ClimbsAt(u, after, rank, top, k)
    {
      var o := if k == i then j else k;
      assert ClimbsAt(u, ap, rank, top, o);
      var l :| 0 <= l < |ap| && ap[l].sp == u.nTerminals + u.lhs[ap[o].kind.rule];
      assert after[l].sp == ap[l].sp;
    }
  }

  lemma NothingFollowed(u: Units, mid: seq<Action>)
    ensures Followed(u, mid, mid)
  {
    forall i | 0 <= i < |mid|
      ensures LeadsTo(u, mid, mid[i].kind, mid[i].kind)
    {
      assert Leads(u, mid, 0, mid[i].kind, mid[i].kind);
    }
  }

  lemma StepFollowed(u: Units, mid: seq<Action>, ap: seq<Action>, i: nat, j: nat)
    requires OnePerLookahead(mid) && ActiveGotos(mid, u.nTerminals) && Followed(u, mid, ap)
    requires i < |ap| && j < |ap| && Skips(u, ap[i].sp, ap[i].kind) && ap[j].sp == u.Goto(ap[i].kind.rule)
    ensures Followed(u, mid, ap[i := ap[i].(kind := ap[j].kind)])
  {
    hide OnePerLookahead;
    var a, b, c := mid[i].kind, ap[i].kind, ap[j].kind;
    OwnAt(mid, j);
    assert LeadsTo(u, mid, a, b) && LeadsTo(u, mid, mid[j].kind, c);
    var n: nat :| Leads(u, mid, n, a, b);
    var m: nat :| Leads(u, mid, m, mid[j].kind, c);
    assert Leads(u, mid, m + 1, b, c);
    LeadsOn(u, mid, n, m + 1, a, b, c);
  }

  /** The same, lookahead by lookahead. */
  lemma FollowedOwn(u: Units, mid: seq<Action>, final: seq<Action>, sp: int)
    requires OnePerLookahead(mid) && Followed(u, mid, final)
    ensures OnePerLookahead(final)
    ensures sp < u.nTerminals ==> Own(final, sp) == Own(mid, sp)
    ensures Own(final, sp).Inactive? <==> Own(mid, sp).Inactive?
    ensures sp >= u.nTerminals && !Own(mid, sp).Inactive? ==> LeadsTo(u, mid, Own(mid, sp), Own(final, sp))
  {
    hide LeadsTo;
    assert OnePerLookahead(final);
    hide OnePerLookahead;
    if !Own(mid, sp).Inactive? {
      var i := OwnFound(mid, sp);
      OwnAt(final, i);
    }
    if !Own(final, sp).Inactive? {
      var i := OwnFound(final, sp);
      OwnAt(mid, i);
    }
  }

  class ParserState {
    var ap: seq<Action>
    var pDfltReduce: Option<nat>
    var autoReduce: bool

    constructor (ap: seq<Action>)
      ensures this.ap == ap && pDfltReduce == None && !autoReduce
    {
      this.ap, pDfltReduce, autoReduce := ap, None, false;
    }

    method WildcardUsed(wildcard: Option<int>) returns (uses: bool)
      ensures uses <==> UsesWildcard(ap, wildcard)
    {
      uses := false;
      var i := 0;
      while i < |ap|
        invariant 0 <= i <= |ap|
        invariant uses <==> exists j :: 0 <= j < i && ap[j].kind.Shift? && Some(ap[j].sp) == wildcard
      {
        uses := uses || (ap[i].kind.Shift? && Some(ap[i].sp) == wildcard);
        i := i + 1;
      }
    }

    /** The matching reduces combined into a single default, in place. */
    method MergeReduces(rule: nat)
      requires Count(ap, rule) > 0
      modifies this`ap
      ensures ap == Combine(old(ap), rule, false)
    {
      ghost var was := ap;
      CountPositive(ap, rule);
      var i := 0;
      while ap[i].kind != Reduce(rule)
        invariant 0 <= i < |ap| && ap == was
        invariant forall k :: 0 <= k < i ==> !ReducesBy(was[k], rule)
        decreases |ap| - i
      {
        i := i + 1;
      }
      ghost var first := i;
      ap := ap[i := ap[i].(sp := DEFAULT)];
      i := i + 1;
      while i < |ap|
        invariant first < i <= |ap| == |was|
        invariant forall k :: 0 <= k < i && k != first ==>
                  ap[k] == if ReducesBy(was[k], rule) then was[k].(kind := Inactive) else was[k]
        invariant ap[first] == was[first].(sp := DEFAULT)
        invariant forall k :: i <= k < |ap| ==> ap[k] == was[k]
      {
        if ap[i].kind == Reduce(rule) {
          ap := ap[i := ap[i].(kind := Inactive)];
        }
        i := i + 1;
      }
      CombinedFirst(was, rule, first, ap);
    }

    method NothingElse(rule: nat) returns (only: bool)
      ensures only <==> OnlyReduces(ap, rule)
    {
      var i := 0;
      while i < |ap|
        invariant 0 <= i <= |ap|
        invariant forall j :: 0 <= j < i ==> !ap[j].kind.Shift? && (ap[j].kind.Reduce? ==> ap[j].kind.rule == rule)
      {
        if ap[i].kind.Shift? || (ap[i].kind.Reduce? && ap[i].kind.rule != rule) {
          return false;
        }
        i := i + 1;
      }
      return true;
    }

    /**
      Every lookahead that had an action keeps an equivalent one, its own or the default.
      `autoReduce` is set when nothing but reduces by the default rule is left.
     */
    method Compress(lhsStart: set<nat>, wildcard: Option<int>)
      requires Usable(ap, lhsStart, wildcard) && pDfltReduce == None && !autoReduce
      modifies this
      ensures |ap| == |old(ap)| && OnePerLookahead(ap)
      ensures forall sp :: sp != DEFAULT && !Own(old(ap), sp).Inactive? ==> Lookup(ap, sp) == Own(old(ap), sp)
      ensures Compressed(old(ap), lhsStart, wildcard, ap, Left(autoReduce, pDfltReduce))
    {
      ghost var was := ap;
      var best := MostFrequent(ap, lhsStart);
      var uses := WildcardUsed(wildcard);
      if best.None? || uses {
        NoDefaultOwn(ap);
        return;
      }
      MergeReduces(best.value);
      CombineOwn(was, best.value, false, DEFAULT);
      forall sp | sp != DEFAULT && !Own(was, sp).Inactive?
        ensures Lookup(ap, sp) == Own(was, sp)
      {
        CombineOwn(was, best.value, false, sp);
      }
      SettledTies(was, lhsStart, wildcard, best.value);
      CombineOne(was, best.value, false);
      autoReduce := NothingElse(best.value);
      if autoReduce {
        pDfltReduce := best;
      }
      assert CompressedBy(was, lhsStart, best.value, ap, Left(autoReduce, pDfltReduce));
    }

    /** Shifts into states that are left at once become shift-reduces; all other actions stay. */
    method MakeShiftReduces(others: seq<ParserState>)
      requires forall i :: 0 <= i < |ap| && ap[i].kind.Shift? ==> ap[i].kind.target < |others|
      modifies this`ap
      ensures ap == Turned(old(ap), old(AllLeft(others)))
    {
      ghost var left := AllLeft(others);
      forall j | 0 <= j < |others|
        ensures left[j] == Left(others[j].autoReduce, others[j].pDfltReduce)
      {
        AllLeftAt(others, j);
      }
      var i := 0;
      while i < |ap|
        invariant 0 <= i <= |ap| == |old(ap)|
        invariant forall j :: 0 <= j < i ==> ap[j] == TurnedAction(old(ap)[j], left)
        invariant forall j :: i <= j < |ap| ==> ap[j] == old(ap)[j]
      {
        if ap[i].kind.Shift? {
          var next := others[ap[i].kind.target];
          if next.autoReduce && next.pDfltReduce.Some? {
            ap := ap[i := ap[i].(kind := ShiftReduce(next.pDfltReduce.value))];
          }
        }
        i := i + 1;
      }
      TurnedIs(old(ap), left, ap);
    }

    /** The first action for the symbol other than the one at `i`. */
    method FindOther(i: nat, sp: int) returns (j: nat)
      requires i < |ap|
      ensures j <= |ap| && (j < |ap| ==> j != i && ap[j].sp == sp)
      ensures forall k :: 0 <= k < j && k != i ==> ap[k].sp != sp
    {
      j := 0;
      while j < |ap| && (j == i || ap[j].sp != sp)
        invariant 0 <= j <= |ap|
        invariant forall k :: 0 <= k < j && k != i ==> ap[k].sp != sp
      {
        j := j + 1;
      }
    }

    /**
      A goto that would only apply a rule of one symbol without code takes the place of the
      goto of that rule's left-hand side, again and again. `false` is a failed assertion, or
      a chain of more than `limit` steps: where such rules lead in a circle the C code need
      not stop.
     */
    method FollowUnits(u: Units, limit: nat) returns (ok: bool)
      requires OnePerLookahead(ap) && ActiveGotos(ap, u.nTerminals)
      modifies this`ap
      ensures ok ==> Followed(u, old(ap), ap) && Unskipped(u, ap)
      ensures CanFollow(u, old(ap), limit) ==> ok
    {
      hide Leads, OnePerLookahead, Followed, Climbs;
      ghost var mid, can := ap, CanFollow(u, ap, limit);
      ghost var rank := [];
      if can {
        rank :| Climbs(u, ap, rank, limit);
      }
      NothingFollowed(u, mid);
      FirstStep(u, ap, rank, limit, 0);
      var i, left := 0, limit;
      while i < |ap|
        invariant 0 <= i <= |ap| == |mid| && left >= 0
        invariant Followed(u, mid, ap) && forall k :: 0 <= k < i ==> !Skips(u, ap[k].sp, ap[k].kind)
        invariant can ==> Climbs(u, ap, rank, limit) && (i < |ap| ==> StepsLeft(u, ap, rank, limit, i, left))
        decreases |ap| - i, left
      {
        if !Skips(u, ap[i].sp, ap[i].kind) {
          i, left := i + 1, limit;
          FirstStep(u, ap, rank, limit, i);
        } else {
          var j := FindOther(i, u.Goto(ap[i].kind.rule));
          if j == |ap| || left == 0 {
            if can {
              StepThere(u, ap, rank, limit, i, left);
            }
            return false;
          }
          StepFollowed(u, mid, ap, i, j);
          if can {
            StepClimbs(u, ap, rank, limit, i, j);
            FewerSteps(u, ap, rank, limit, i, j, left);
          }
          ap := ap[i := ap[i].(kind := ap[j].kind)];
          left := left - 1;
        }
      }
      return true;
    }
  }

  /** As many steps are left as there are ranks above. */
  predicate StepsLeft(u: Units, ap: seq<Action>, rank: seq<nat>, top: nat, i: nat, left: int)
    requires i < |ap|
  {
    Skips(u, ap[i].sp, ap[i].kind) ==> ClimbsAt(u, ap, rank, top, i) && rank[u.lhs[ap[i].kind.rule]] + left > top
  }

  lemma FirstStep(u: Units, ap: seq<Action>, rank: seq<nat>, top: nat, i: nat)
    ensures Climbs(u, ap, rank, top) && i < |ap| ==> StepsLeft(u, ap, rank, top, i, top)
  {
  }

  lemma StepThere(u: Units, ap: seq<Action>, rank: seq<nat>, top: nat, i: nat, left: int)
    requires i < |ap| && Skips(u, ap[i].sp, ap[i].kind) && StepsLeft(u, ap, rank, top, i, left)
    ensures left > 0 && exists j :: 0 <= j < |ap| && j != i && ap[j].sp == u.Goto(ap[i].kind.rule)
  {
    var j :| 0 <= j < |ap| && ap[j].sp == u.nTerminals + u.lhs[ap[i].kind.rule];
    assert j != i;
  }

  lemma FewerSteps(u: Units, ap: seq<Action>, rank: seq<nat>, top: nat, i: nat, j: nat, left: int)
    requires i < |ap| && j < |ap| && Skips(u, ap[i].sp, ap[i].kind) && ap[j].sp == u.Goto(ap[i].kind.rule)
    requires Climbs(u, ap, rank, top) && StepsLeft(u, ap, rank, top, i, left)
    ensures StepsLeft(u, ap[i := ap[i].(kind := ap[j].kind)], rank, top, i, left - 1)
  {
    StepClimbs(u, ap, rank, top, i, j);
    var after := ap[i := ap[i].(kind := ap[j].kind)];
    if Skips(u, after[i].sp, after[i].kind) {
      assert ClimbsAt(u, after, rank, top, i);
    }
  }

  // ----- both passes -----

  /** The rule a state is left at once by, if it is. */
  function Left(autoReduce: bool, pDfltReduce: Option<nat>): Option<nat> {
    if autoReduce then pDfltReduce else None
  }

  ghost function AllLeft(states: seq<ParserState>): (left: seq<Option<nat>>)
    reads states
    ensures |left| == |states|
  {
    if states == [] then []
    else AllLeft(states[..|states| - 1]) + [Left(states[|states| - 1].autoReduce, states[|states| - 1].pDfltReduce)]
  }

  lemma {:induction false} AllLeftAt(states: seq<ParserState>, i: nat)
    requires i < |states|
    ensures AllLeft(states)[i] == Left(states[i].autoReduce, states[i].pDfltReduce)
    decreases |states|
  {
    if i < |states| - 1 {
      AllLeftAt(states[..|states| - 1], i);
    }
  }

  /** An action once it is known which states are left at once. */
  function TurnedAction(a: Action, left: seq<Option<nat>>): Action {
    if a.kind.Shift? && a.kind.target < |left| && left[a.kind.target].Some?
    then a.(kind := ShiftReduce(left[a.kind.target].value)) else a
  }

  function Turned(ap: seq<Action>, left: seq<Option<nat>>): (after: seq<Action>)
    ensures |after| == |ap|
    ensures forall i :: 0 <= i < |ap| ==> after[i] == TurnedAction(ap[i], left)
  {
    if ap == [] then [] else Turned(ap[..|ap| - 1], left) + [TurnedAction(ap[|ap| - 1], left)]
  }

  lemma TurnedIs(ap: seq<Action>, left: seq<Option<nat>>, after: seq<Action>)
    requires |after| == |ap| && forall i :: 0 <= i < |ap| ==> after[i] == TurnedAction(ap[i], left)
    ensures after == Turned(ap, left)
  {
  }

  /** What the first pass makes of a state's actions, and the rule it is then left at once by. */
  ghost predicate Compressed(was: seq<Action>, lhsStart: set<nat>, wildcard: Option<int>, after: seq<Action>,
                             left: Option<nat>) {
    if UsesWildcard(was, wildcard) || (forall i :: 0 <= i < |was| ==> !Candidate(was, lhsStart, i))
    then after == was && left == None
    else exists rule: nat :: CompressedBy(was, lhsStart, rule, after, left)
  }

  predicate CompressedBy(was: seq<Action>, lhsStart: set<nat>, rule: nat, after: seq<Action>, left: Option<nat>) {
    && IsDefault(was, lhsStart, rule) && after == Combine(was, rule, false)
    && left == if OnlyReduces(after, rule) then Some(rule) else None
  }

  predicate OneReduce(ap: seq<Action>, lhsStart: set<nat>) {
    exists i :: 0 <= i < |ap| && Candidate(ap, lhsStart, i)
      && forall j :: 0 <= j < |ap| && ap[j].kind.Reduce? ==> ap[j].kind == ap[i].kind
  }

  /** Where an error has tied with a reduce, the state has no reduce by another rule, so a default takes it away. */
  predicate Settled(ap: seq<Action>, lhsStart: set<nat>, wildcard: Option<int>) {
    && OneButTies(ap)
    && (OnePerLookahead(ap) || (!UsesWildcard(ap, wildcard) && OneReduce(ap, lhsStart)))
  }

  predicate Usable(ap: seq<Action>, lhsStart: set<nat>, wildcard: Option<int>) {
    NoDefault(ap) && Settled(ap, lhsStart, wildcard) && forall i :: 0 <= i < |ap| ==> !ap[i].kind.ShiftReduce?
  }

  lemma SettledTies(ap: seq<Action>, lhsStart: set<nat>, wildcard: Option<int>, rule: nat)
    requires Settled(ap, lhsStart, wildcard) && IsDefault(ap, lhsStart, rule)
    ensures TiesBy(ap, rule)
  {
    CountPositive(ap, rule);
    var k :| 0 <= k < |ap| && ReducesBy(ap[k], rule);
  }

  /** Nothing is done in the state but reducing by the rule; an error is not looked at. */
  predicate OnlyAnswer(ap: seq<Action>, rule: nat) {
    && (exists i :: 0 <= i < |ap| && ReducesBy(ap[i], rule))
    && forall i :: 0 <= i < |ap| ==> ap[i].kind.Inactive? || ap[i].kind.Error? || ReducesBy(ap[i], rule)
  }

  /**
    A state without an accept is left at once by a rule exactly when, before any default
    was made, it did nothing but reduce by that rule, errors aside, and the rule is none of
    the start symbol's.
   */
  lemma LeftIff(was: seq<Action>, lhsStart: set<nat>, wildcard: Option<int>, after: seq<Action>, left: Option<nat>,
                rule: nat)
    requires Usable(was, lhsStart, wildcard) && Compressed(was, lhsStart, wildcard, after, left)
    requires forall i :: 0 <= i < |was| ==> !was[i].kind.Accept?
    ensures left == Some(rule) <==> OnlyAnswer(was, rule) && rule !in lhsStart
  {
    if left == Some(rule) {
      assert CompressedBy(was, lhsStart, rule, after, left);
      AnsweredOnly(was, rule, after);
    }
    if OnlyAnswer(was, rule) && rule !in lhsStart {
      OnlyOneRule(was, lhsStart, wildcard, rule);
      var r: nat :| CompressedBy(was, lhsStart, r, after, left);
      OnlyDefault(was, lhsStart, rule, r);
      NothingElseLeft(was, rule, after);
    }
  }

  lemma AnsweredOnly(was: seq<Action>, rule: nat, after: seq<Action>)
    requires Count(was, rule) > 0 && after == Combine(was, rule, false) && OnlyReduces(after, rule)
    requires forall i :: 0 <= i < |was| ==> !was[i].kind.Accept? && !was[i].kind.ShiftReduce?
    ensures OnlyAnswer(was, rule)
  {
    hide Combine, Count;
    CountPositive(was, rule);
    forall i | 0 <= i < |was|
      ensures was[i].kind.Inactive? || was[i].kind.Error? || ReducesBy(was[i], rule)
    {
      if !ReducesBy(was[i], rule) {
        CombineAt(was, rule, false, i);
      }
    }
  }

  lemma {:induction false} CombineAt(ap: seq<Action>, rule: nat, found: bool, i: nat)
    requires i < |ap| && !ReducesBy(ap[i], rule)
    ensures Combine(ap, rule, found)[i] == ap[i]
  {
    if i > 0 {
      CombineAt(ap[1..], rule, found || ReducesBy(ap[0], rule), i - 1);
    }
  }

  lemma OnlyOneRule(was: seq<Action>, lhsStart: set<nat>, wildcard: Option<int>, rule: nat)
    requires OnlyAnswer(was, rule) && rule !in lhsStart
    ensures !UsesWildcard(was, wildcard) && exists i :: 0 <= i < |was| && Candidate(was, lhsStart, i)
  {
    var i :| 0 <= i < |was| && ReducesBy(was[i], rule);
    assert Candidate(was, lhsStart, i);
  }

  lemma OnlyDefault(was: seq<Action>, lhsStart: set<nat>, rule: nat, r: nat)
    requires OnlyAnswer(was, rule) && IsDefault(was, lhsStart, r)
    ensures r == rule
  {
    CountPositive(was, r);
    var k :| 0 <= k < |was| && ReducesBy(was[k], r);
  }

  lemma NothingElseLeft(was: seq<Action>, rule: nat, after: seq<Action>)
    requires OnlyAnswer(was, rule) && after == Combine(was, rule, false)
    ensures OnlyReduces(after, rule)
  {
    CombineKeeps(was, rule, false);
  }

  /** After a comparison, when nothing binds tighter: an error on another one, a reduce on it and at the end. */
  function AfterComparison(token: nat, rule: nat): seq<Action> {
    [Action(token, Error), Action(token, Reduce(rule)), Action(0, Reduce(rule))]
  }

  lemma ComparisonUsable(token: nat, rule: nat, lhsStart: set<nat>)
    requires rule !in lhsStart && token > 0
    ensures Usable(AfterComparison(token, rule), lhsStart, None) && OnlyAnswer(AfterComparison(token, rule), rule)
    ensures Own(AfterComparison(token, rule), token) == Error
  {
    var was := AfterComparison(token, rule);
    assert Candidate(was, lhsStart, 1) && ReducesBy(was[1], rule);
  }

  /**
    What a token without associativity is for is lost in such a state: its error is still
    there, but the state is left before the token is looked at.
   */
  lemma ErrorPassedOver(token: nat, rule: nat, lhsStart: set<nat>, after: seq<Action>, left: Option<nat>)
    requires rule !in lhsStart && token > 0
    requires Compressed(AfterComparison(token, rule), lhsStart, None, after, left)
    ensures Own(AfterComparison(token, rule), token) == Lookup(after, token) == Error
    ensures left == Some(rule)
  {
    var was := AfterComparison(token, rule);
    ComparisonUsable(token, rule, lhsStart);
    assert forall i :: 0 <= i < |was| ==> !was[i].kind.Accept?;
    hide Combine, Count, AfterComparison, Own, OnlyReduces, IsDefault, OneButTies;
    LeftIff(was, lhsStart, None, after, left, rule);
    OnlyOneRule(was, lhsStart, None, rule);
    var r: nat :| CompressedBy(was, lhsStart, r, after, left);
    OnlyDefault(was, lhsStart, rule, r);
    CombineOwn(was, rule, false, token);
  }

  // ----- what the final actions mean -----

  /** What an action for a lookahead has become after both passes. */
  function Became(k: Kind, left: seq<Option<nat>>): Kind {
    TurnedAction(Action(0, k), left).kind
  }

  lemma {:induction false} TurnedOwn(ap: seq<Action>, left: seq<Option<nat>>, sp: int)
    ensures Own(Turned(ap, left), sp) == Became(Own(ap, sp), left)
  {
    if ap != [] {
      var after := Turned(ap, left);
      TurnedOwn(ap[1..], left, sp);
      TurnedIs(ap[1..], left, after[1..]);
    }
  }

  /** The final actions of a state: what each lookahead is answered by, and the default. */
  ghost predicate Finished(was: seq<Action>, lhsStart: set<nat>, left: seq<Option<nat>>, final: seq<Action>) {
    && OnePerLookahead(final)
    && (forall sp :: sp != DEFAULT ==> Own(final, sp) == Inactive || Own(final, sp) == Became(Own(was, sp), left))
    && (forall sp :: sp != DEFAULT && !Own(was, sp).Inactive? ==> Lookup(final, sp) == Became(Own(was, sp), left))
    && (Own(final, DEFAULT) == Inactive ||
        (Own(final, DEFAULT).Reduce? && Own(final, DEFAULT).rule !in lhsStart
         && exists i :: 0 <= i < |was| && was[i].kind == Own(final, DEFAULT)))
  }

  lemma PassesFinish(was: seq<Action>, lhsStart: set<nat>, wildcard: Option<int>, mid: seq<Action>, own: Option<nat>,
                     left: seq<Option<nat>>)
    requires Usable(was, lhsStart, wildcard) && Compressed(was, lhsStart, wildcard, mid, own)
    ensures Finished(was, lhsStart, left, Turned(mid, left))
  {
    var final := Turned(mid, left);
    NoDefaultOwn(was);
    TurnedOwn(mid, left, DEFAULT);
    TurnedOne(was, lhsStart, wildcard, mid, own, left);
    if mid == was {
      forall sp: int
        ensures Own(final, sp) == Became(Own(was, sp), left)
      {
        TurnedOwn(mid, left, sp);
      }
    } else {
      var rule: nat :| CompressedBy(was, lhsStart, rule, mid, own);
      CombinedFinish(was, lhsStart, wildcard, rule, mid, left);
    }
  }

  lemma CombinedFinish(was: seq<Action>, lhsStart: set<nat>, wildcard: Option<int>, rule: nat, mid: seq<Action>,
                       left: seq<Option<nat>>)
    requires Usable(was, lhsStart, wildcard) && IsDefault(was, lhsStart, rule) && mid == Combine(was, rule, false)
             && OnePerLookahead(Turned(mid, left))
    ensures Finished(was, lhsStart, left, Turned(mid, left))
  {
    hide Turned, Combine, Count, IsDefault, OnePerLookahead, OneButTies, NoDefault, Settled;
    DefaultFacts(was, lhsStart, wildcard, rule);
    var final := Turned(mid, left);
    TurnedOwn(mid, left, DEFAULT);
    CombineOwn(was, rule, false, DEFAULT);
    forall sp: int | sp != DEFAULT
      ensures Own(final, sp) == Became(if Own(was, sp) == Reduce(rule) then Inactive else Own(was, sp), left)
    {
      TurnedOwn(mid, left, sp);
      CombineOwn(was, rule, false, sp);
    }
    CountPositive(was, rule);
    var k :| 0 <= k < |was| && ReducesBy(was[k], rule);
    assert was[k].kind == Reduce(rule);
  }

  lemma DefaultFacts(was: seq<Action>, lhsStart: set<nat>, wildcard: Option<int>, rule: nat)
    requires Usable(was, lhsStart, wildcard) && IsDefault(was, lhsStart, rule)
    ensures NoDefault(was) && OneButTies(was) && rule !in lhsStart && Count(was, rule) > 0
  {
  }

  lemma TurnedOne(was: seq<Action>, lhsStart: set<nat>, wildcard: Option<int>, mid: seq<Action>, own: Option<nat>,
                  left: seq<Option<nat>>)
    requires Usable(was, lhsStart, wildcard) && Compressed(was, lhsStart, wildcard, mid, own)
    ensures OnePerLookahead(mid) && OnePerLookahead(Turned(mid, left))
  {
    hide OnePerLookahead, OneButTies, NoDefault, Combine, Count;
    if !UsesWildcard(was, wildcard) && exists i :: 0 <= i < |was| && Candidate(was, lhsStart, i) {
      var rule: nat :| CompressedBy(was, lhsStart, rule, mid, own);
      SettledTies(was, lhsStart, wildcard, rule);
      CombineOne(was, rule, false);
    }
    TurnedDistinct(mid, left);
  }

  lemma TurnedDistinct(mid: seq<Action>, left: seq<Option<nat>>)
    requires OnePerLookahead(mid)
    ensures OnePerLookahead(Turned(mid, left))
  {
    hide Turned;
  }

  ghost function Lists(states: seq<ParserState>): (lists: seq<seq<Action>>)
    reads states
    ensures |lists| == |states|
  {
    if states == [] then [] else Lists(states[..|states| - 1]) + [states[|states| - 1].ap]
  }

  lemma {:induction false} ListsAt(states: seq<ParserState>, i: nat)
    requires i < |states|
    ensures Lists(states)[i] == states[i].ap
    decreases |states|
  {
    if i < |states| - 1 {
      ListsAt(states[..|states| - 1], i);
    }
  }

  /** An accept is in the first state only, which no shift leads to. */
  predicate WellShifted(lists: seq<seq<Action>>) {
    forall s, i :: 0 <= s < |lists| && 0 <= i < |lists[s]| ==>
      && (lists[s][i].kind.Shift? ==> 0 < lists[s][i].kind.target < |lists|)
      && (lists[s][i].kind.Accept? ==> s == 0)
  }

  /** The rule a state that is a shift's target is left at once by. */
  ghost predicate LeftBy(was: seq<seq<Action>>, lhsStart: set<nat>, left: seq<Option<nat>>) {
    && |left| == |was|
    && forall s: nat, rule: nat {:trigger OnlyAnswer(was[s], rule)} :: 0 < s < |was| ==>
         (left[s] == Some(rule) <==> OnlyAnswer(was[s], rule) && rule !in lhsStart)
  }

  predicate AllDistinct(states: seq<ParserState>) {
    forall i, j :: 0 <= i < j < |states| ==> states[i] != states[j]
  }

  /** For nonterminals there are no conflicts to resolve and no reduces. */
  predicate GotosOnly(ap: seq<Action>, nTerminals: nat) {
    forall i :: 0 <= i < |ap| && ap[i].sp >= nTerminals ==> ap[i].kind.Shift? || ap[i].kind.Accept?
  }

  lemma GotosStay(was: seq<Action>, lhsStart: set<nat>, wildcard: Option<int>, mid: seq<Action>, own: Option<nat>,
                  left: seq<Option<nat>>, nTerminals: nat)
    requires Compressed(was, lhsStart, wildcard, mid, own) && GotosOnly(was, nTerminals)
    ensures ActiveGotos(Turned(mid, left), nTerminals)
  {
    hide Combine, Count;
    if mid != was {
      var rule: nat :| CompressedBy(was, lhsStart, rule, mid, own);
      CombineKeeps(was, rule, false);
      forall i | 0 <= i < |mid| && mid[i].sp >= nTerminals
        ensures mid[i] == was[i]
      {
        if !ReducesBy(was[i], rule) { CombineAt(was, rule, false, i); }
      }
    }
  }

  /**
    All states, all passes. What a lookahead was answered by it still is, through its own
    entry or the default; but a shift into a state that does nothing but reduce by one rule,
    not of the start symbol, has become that shift-reduce, and a goto may have been replaced
    by one that it leads to. `mid` are the lists after the second pass.
   */
  method CompressTables(states: seq<ParserState>, lhsStart: set<nat>, wildcard: Option<int>, u: Units, limit: nat)
    returns (ok: bool, ghost left: seq<Option<nat>>, ghost mid: seq<seq<Action>>)
    requires AllDistinct(states) && WellShifted(Lists(states))
    requires forall i :: 0 <= i < |states| ==>
               Usable(states[i].ap, lhsStart, wildcard) && GotosOnly(states[i].ap, u.nTerminals)
                 && states[i].pDfltReduce == None && !states[i].autoReduce
    modifies states
    ensures |left| == |mid| == |states| && LeftBy(old(Lists(states)), lhsStart, left)
    ensures forall s :: 0 <= s < |states| ==>
              Finished(old(states[s].ap), lhsStart, left, mid[s])
              && left[s] == Left(states[s].autoReduce, states[s].pDfltReduce)
    ensures ok ==> forall s :: 0 <= s < |states| ==> Followed(u, mid[s], states[s].ap) && Unskipped(u, states[s].ap)
    ensures (forall s :: 0 <= s < |states| ==> CanFollow(u, mid[s], limit)) ==> ok
  {
    hide Usable, Compressed, Finished, WellShifted, LeftBy, Left, AllDistinct, OnePerLookahead, GotosOnly, ActiveGotos,
         Followed, Unskipped, CanFollow;
    ghost var was := Lists(states);
    forall s | 0 <= s < |states|
      ensures was[s] == states[s].ap
    {
      ListsAt(states, s);
    }
    left := CompressAll(states, lhsStart, wildcard);
    ghost var first := Lists(states);
    AllCompressed(was, lhsStart, wildcard, first, left);
    TurnAll(states, first, left);
    mid := Lists(states);
    forall s | 0 <= s < |states|
      ensures mid[s] == states[s].ap && OnePerLookahead(mid[s]) && ActiveGotos(mid[s], u.nTerminals)
      ensures Finished(old(states[s].ap), lhsStart, left, mid[s])
    {
      ListsAt(states, s);
      PassesFinish(was[s], lhsStart, wildcard, first[s], left[s], left);
      TurnedOne(was[s], lhsStart, wildcard, first[s], left[s], left);
      GotosStay(was[s], lhsStart, wildcard, first[s], left[s], left, u.nTerminals);
    }
    ok := FollowAll(states, u, limit, mid);
  }

  method FollowAll(states: seq<ParserState>, u: Units, limit: nat, ghost mid: seq<seq<Action>>) returns (ok: bool)
    requires AllDistinct(states) && |mid| == |states|
    requires forall s :: 0 <= s < |states| ==>
               mid[s] == states[s].ap && OnePerLookahead(mid[s]) && ActiveGotos(mid[s], u.nTerminals)
    modifies states
    ensures forall s :: 0 <= s < |states| ==>
              states[s].autoReduce == old(states[s].autoReduce) && states[s].pDfltReduce == old(states[s].pDfltReduce)
    ensures ok ==> forall s :: 0 <= s < |states| ==> Followed(u, mid[s], states[s].ap) && Unskipped(u, states[s].ap)
    ensures (forall s :: 0 <= s < |states| ==> CanFollow(u, mid[s], limit)) ==> ok
  {
    hide OnePerLookahead, ActiveGotos, Followed, Unskipped, CanFollow;
    var k := 0;
    while k < |states|
      invariant 0 <= k <= |states|
      invariant forall s :: 0 <= s < |states| ==>
                  states[s].autoReduce == old(states[s].autoReduce)
                    && states[s].pDfltReduce == old(states[s].pDfltReduce)
      invariant forall s :: 0 <= s < k ==> Followed(u, mid[s], states[s].ap) && Unskipped(u, states[s].ap)
      invariant forall s :: k <= s < |states| ==> states[s].ap == mid[s]
    {
      ok := states[k].FollowUnits(u, limit);
      if !ok {
        return;
      }
      k := k + 1;
    }
    return true;
  }

  method CompressAll(states: seq<ParserState>, lhsStart: set<nat>, wildcard: Option<int>)
    returns (ghost left: seq<Option<nat>>)
    requires AllDistinct(states)
    requires forall i :: 0 <= i < |states| ==>
             Usable(states[i].ap, lhsStart, wildcard) && states[i].pDfltReduce == None && !states[i].autoReduce
    modifies states
    ensures |left| == |states| && left == AllLeft(states)
    ensures forall s :: 0 <= s < |states| ==>
              Usable(old(Lists(states))[s], lhsStart, wildcard)
                && Compressed(old(Lists(states))[s], lhsStart, wildcard, Lists(states)[s], left[s])
  {
    hide Usable, Compressed, Left;
    ghost var was := Lists(states);
    forall s | 0 <= s < |states|
      ensures was[s] == states[s].ap
    {
      ListsAt(states, s);
    }
    var i := 0;
    while i < |states|
      invariant 0 <= i <= |states|
      invariant forall j :: 0 <= j < i ==>
                  Compressed(was[j], lhsStart, wildcard, states[j].ap,
                             Left(states[j].autoReduce, states[j].pDfltReduce))
      invariant forall j :: i <= j < |states| ==>
                states[j].ap == was[j] && states[j].pDfltReduce == None && !states[j].autoReduce
    {
      states[i].Compress(lhsStart, wildcard);
      i := i + 1;
    }
    left := AllLeft(states);
    forall s | 0 <= s < |states|
      ensures Lists(states)[s] == states[s].ap && left[s] == Left(states[s].autoReduce, states[s].pDfltReduce)
    {
      ListsAt(states, s);
      AllLeftAt(states, s);
    }
  }

  method TurnAll(states: seq<ParserState>, ghost mid: seq<seq<Action>>, ghost left: seq<Option<nat>>)
    requires AllDistinct(states) && mid == Lists(states) && left == AllLeft(states)
    requires forall s, i :: 0 <= s < |mid| && 0 <= i < |mid[s]| && mid[s][i].kind.Shift? ==>
             mid[s][i].kind.target < |states|
    modifies states
    ensures forall s :: 0 <= s < |states| ==> Left(states[s].autoReduce, states[s].pDfltReduce) == left[s]
    ensures forall s :: 0 <= s < |states| ==> states[s].ap == Turned(mid[s], left)
  {
    hide Left, Turned;
    forall s | 0 <= s < |states|
      ensures mid[s] == states[s].ap && left[s] == Left(states[s].autoReduce, states[s].pDfltReduce)
    {
      ListsAt(states, s);
      AllLeftAt(states, s);
    }
    var k := 0;
    while k < |states|
      invariant 0 <= k <= |states|
      invariant forall j :: 0 <= j < |states| ==> Left(states[j].autoReduce, states[j].pDfltReduce) == left[j]
      invariant forall j :: 0 <= j < k ==> states[j].ap == Turned(mid[j], left)
      invariant forall j :: k <= j < |states| ==> states[j].ap == mid[j]
    {
      SameLeft(states, left);
      states[k].MakeShiftReduces(states);
      k := k + 1;
    }
  }

  lemma {:induction false} SameLeft(states: seq<ParserState>, left: seq<Option<nat>>)
    requires |left| == |states|
             && forall i :: 0 <= i < |states| ==> Left(states[i].autoReduce, states[i].pDfltReduce) == left[i]
    ensures AllLeft(states) == left
    decreases |states|
  {
    if states != [] {
      SameLeft(states[..|states| - 1], left[..|states| - 1]);
    }
  }

  lemma AllCompressed(was: seq<seq<Action>>, lhsStart: set<nat>, wildcard: Option<int>, mid: seq<seq<Action>>,
                      left: seq<Option<nat>>)
    requires |was| == |mid| == |left| && WellShifted(was)
    requires forall s :: 0 <= s < |was| ==>
             Usable(was[s], lhsStart, wildcard) && Compressed(was[s], lhsStart, wildcard, mid[s], left[s])
    ensures LeftBy(was, lhsStart, left)
    ensures forall s, i :: 0 <= s < |mid| && 0 <= i < |mid[s]| && mid[s][i].kind.Shift? ==>
            mid[s][i].kind.target < |was|
  {
    hide Usable, Compressed, OnlyAnswer;
    forall s: nat, rule: nat {:trigger OnlyAnswer(was[s], rule)} | 0 < s < |was|
      ensures left[s] == Some(rule) <==> OnlyAnswer(was[s], rule) && rule !in lhsStart
    {
      LeftIff(was[s], lhsStart, wildcard, mid[s], left[s], rule);
    }
    forall s, i | 0 <= s < |mid| && 0 <= i < |mid[s]| && mid[s][i].kind.Shift?
      ensures mid[s][i].kind.target < |was|
    {
      ShiftsKept(was[s], lhsStart, wildcard, mid[s], left[s], i);
    }
  }

  lemma ShiftsKept(was: seq<Action>, lhsStart: set<nat>, wildcard: Option<int>, mid: seq<Action>, left: Option<nat>,
                   i: nat)
    requires Usable(was, lhsStart, wildcard) && Compressed(was, lhsStart, wildcard, mid, left) && i < |mid|
             && mid[i].kind.Shift?
    ensures |was| == |mid| && mid[i] == was[i]
  {
    if mid != was {
      var rule: nat :| CompressedBy(was, lhsStart, rule, mid, left);
      CombineKeeps(was, rule, false);
    }
  }

  /** No candidate is reduced by more often, and it is one itself. */
  predicate IsDefault(ap: seq<Action>, lhsStart: set<nat>, rule: nat) {
    && rule !in lhsStart && Count(ap, rule) > 0
    && forall i :: 0 <= i < |ap| && Candidate(ap, lhsStart, i) ==>
         && Count(ap, ap[i].kind.rule) <= Count(ap, rule)
         && (Count(ap, ap[i].kind.rule) == Count(ap, rule) ==> FirstOfEqual(ap, rule, i))
  }

  lemma {:induction false} NoDefaultOwn(ap: seq<Action>)
    requires NoDefault(ap)
    ensures Own(ap, DEFAULT).Inactive?
  {
    if !Own(ap, DEFAULT).Inactive? {
      var i := OwnFound(ap, DEFAULT);
    }
  }

}
