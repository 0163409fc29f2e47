/**
  The actions of each state: a shift for each successor, a reduce on every token that
  can follow a complete configuration, the accept. Where two have one lookahead, at most
  one of them stays active, unless they tie on a token without associativity.
 */
module Actions {
  import opened Options
  import opened Grammars
  import opened Sets
  import opened LrDriver
  import opened Lr0
  import opened CompressTables
  import Links

  datatype Assoc = LeftAssoc | RightAssoc | NoAssoc

  /** The level and associativity of each token, and the token each rule takes its level from. */
  datatype Precedences = Precedences(level: seq<int>, assoc: seq<Assoc>, ofRule: seq<Option<nat>>)

  /** Negative where none is defined. */
  function Level(p: Precedences, token: int): int {
    if 0 <= token < |p.level| then p.level[token] else -1
  }

  function RuleLevel(p: Precedences, rule: nat): int {
    if rule < |p.ofRule| && p.ofRule[rule].Some? then Level(p, p.ofRule[rule].value) else -1
  }

  function AssocOf(p: Precedences, token: int): Assoc {
    if 0 <= token < |p.assoc| then p.assoc[token] else NoAssoc
  }

  // ----- two actions for one lookahead -----

  /** What becomes of both. There is no answer where the C code fails an assertion. */
  function ResolveConflict(p: Precedences, x: Kind, y: Kind, sp: int): Option<(Kind, Kind)> {
    if x.Shift? && y.Shift? then Some((x, Inactive))
    else if x.Shift? && y.Reduce? then
      var shift, reduce := Level(p, sp), RuleLevel(p, y.rule);
      if shift < 0 || reduce < 0 || shift > reduce then Some((x, Inactive))
      else if shift < reduce then Some((Inactive, y))
      else
        (match AssocOf(p, sp)
         case RightAssoc => Some((x, Inactive))
         case LeftAssoc => Some((Inactive, y))
         case NoAssoc => Some((Error, y)))
    else if x.Reduce? && y.Reduce? then
      var first, second := RuleLevel(p, x.rule), RuleLevel(p, y.rule);
      Some(if first < 0 || second < 0 || first >= second then (x, Inactive) else (Inactive, y))
    else if x.Inactive? || y.Inactive? then Some((x, y))
    else None
  }

  /**
    At most one of the two stays active, but a tie on a token without associativity leaves
    both: exactly when both levels are defined and equal and the token has none.
   */
  lemma TieIff(p: Precedences, x: Kind, y: Kind, sp: int)
    requires ResolveConflict(p, x, y, sp).Some? && !x.Inactive? && !y.Inactive?
    ensures var r := ResolveConflict(p, x, y, sp).value;
            && (r.0.Inactive? || r.1.Inactive? || (r.0.Error? && r.1.Reduce?))
            && (r.0.Error? <==> (x.Shift? && y.Reduce? && Ties(p, sp, y.rule)) || x.Error?)
  {
  }

  function Rank(k: Kind): nat {
    match k
    case Shift(_) => 0
    case Accept => 1
    case Reduce(_) => 2
    case _ => 3
  }

  predicate Precedes(a: Action, b: Action) {
    a.sp < b.sp ||
    (a.sp == b.sp && (Rank(a.kind) < Rank(b.kind) ||
                      (a.kind.Reduce? && b.kind.Reduce? && a.kind.rule < b.kind.rule)))
  }

  function CountOf(ap: seq<Action>, sp: int): nat {
    if ap == [] then 0 else (if ap[0].sp == sp then 1 else 0) + CountOf(ap[1..], sp)
  }

  function Placed(ap: seq<Action>, x: Action): (r: seq<Action>)
    ensures |r| == |ap| + 1 && forall e :: e in r <==> e in ap || e == x
    ensures forall sp :: CountOf(r, sp) == CountOf(ap, sp) + if x.sp == sp then 1 else 0
  {
    if ap == [] || Precedes(x, ap[0]) then
      assert ([x] + ap)[1..] == ap;
      [x] + ap
    else
      var rest := Placed(ap[1..], x);
      assert ([ap[0]] + rest)[1..] == rest;
      assert forall e :: e in ap <==> e == ap[0] || e in ap[1..];
      [ap[0]] + rest
  }

  /** The order of the list after a sort (module MSort sorts it in place). */
  function SortedActions(ap: seq<Action>): (r: seq<Action>)
    ensures |r| == |ap| && forall e :: e in r <==> e in ap
    ensures forall sp :: CountOf(r, sp) == CountOf(ap, sp)
  {
    if ap == [] then []
    else
      assert forall e :: e in ap <==> e == ap[0] || e in ap[1..];
      Placed(SortedActions(ap[1..]), ap[0])
  }

  /** Shifts come before reduces for the same symbol, and reduces in the order of their rules. */
  predicate NotAfter(a: Action, b: Action) {
    a.sp < b.sp ||
    (a.sp == b.sp && Rank(a.kind) <= Rank(b.kind)
     && (a.kind.Reduce? && b.kind.Reduce? ==> a.kind.rule <= b.kind.rule))
  }

  predicate BySymbol(ap: seq<Action>) {
    forall i, j :: 0 <= i < j < |ap| ==> NotAfter(ap[i], ap[j])
  }

  lemma {:induction false} PlacedBySymbol(ap: seq<Action>, x: Action)
    requires BySymbol(ap)
    ensures BySymbol(Placed(ap, x))
  {
    if ap != [] && !Precedes(x, ap[0]) {
      PlacedBySymbol(ap[1..], x);
      var rest := Placed(ap[1..], x);
      forall e | e in rest
        ensures NotAfter(ap[0], e)
      {
        if e != x {
          assert e in ap[1..];
        }
      }
    }
  }

  lemma {:induction false} SortedBySymbol(ap: seq<Action>)
    ensures BySymbol(SortedActions(ap))
  {
    if ap != [] {
      SortedBySymbol(ap[1..]);
      PlacedBySymbol(SortedActions(ap[1..]), ap[0]);
    }
  }

  // ----- all conflicts of a state -----

  predicate Unresolved(ap: seq<Action>) {
    forall i :: 0 <= i < |ap| ==> ap[i].kind.Shift? || ap[i].kind.Reduce? || ap[i].kind.Accept?
  }

  /** The accept has its symbol to itself. */
  predicate AcceptAlone(ap: seq<Action>) {
    forall i :: 0 <= i < |ap| && ap[i].kind.Accept? ==> !Shared(ap, i)
  }

  predicate Shared(ap: seq<Action>, i: nat)
    requires i < |ap|
  {
    exists j :: 0 <= j < |ap| && j != i && ap[j].sp == ap[i].sp
  }

  /** The token ties with a reduce by the rule and has no associativity to decide. */
  predicate Ties(p: Precedences, sp: int, rule: nat) {
    Level(p, sp) == RuleLevel(p, rule) >= 0 && AssocOf(p, sp) == NoAssoc
  }

  ghost predicate SomeTie(p: Precedences) {
    exists sp: int, rule: nat :: Ties(p, sp, rule)
  }

  predicate TieBeside(p: Precedences, ap: seq<Action>, sp: int) {
    exists j :: 0 <= j < |ap| && ap[j].sp == sp && ap[j].kind.Reduce? && Ties(p, sp, ap[j].kind.rule)
  }

  /** Actions lose their effect in conflicts only, and errors stand where a shift tied with a reduce. */
  predicate ResolvedFrom(p: Precedences, was: seq<Action>, ap: seq<Action>) {
    && |ap| == |was|
    && forall i :: 0 <= i < |ap| ==>
         && ap[i].sp == was[i].sp
         && (ap[i] == was[i] || (Shared(was, i) && (ap[i].kind.Inactive? || ap[i].kind.Error?)))
         && (ap[i].kind.Error? ==> was[i].kind.Shift? && TieBeside(p, was, ap[i].sp))
  }

  // ----- which action stays -----

  /** An action gives way to a later one for its symbol. */
  predicate Yields(p: Precedences, sp: int, x: Kind, y: Kind) {
    if x.Shift? && y.Reduce? then
      && 0 <= Level(p, sp) <= RuleLevel(p, y.rule)
      && (Level(p, sp) == RuleLevel(p, y.rule) ==> AssocOf(p, sp) != RightAssoc)
    else x.Reduce? && y.Reduce? && 0 <= RuleLevel(p, x.rule) < RuleLevel(p, y.rule)
  }

  /** The action that is left of those for one symbol up to index `k`: each gives way, or the next one goes. */
  function Holder(p: Precedences, was: seq<Action>, k: nat): (q: nat)
    requires k < |was|
    ensures q <= k && was[q].sp == was[k].sp
  {
    if k == 0 || was[k - 1].sp != was[k].sp then k
    else
      var q := Holder(p, was, k - 1);
      if Yields(p, was[k].sp, was[q].kind, was[k].kind) then k else q
  }

  function LastFor(was: seq<Action>, k: nat): (l: nat)
    requires k < |was|
    ensures k <= l < |was| && was[l].sp == was[k].sp && (l + 1 < |was| ==> was[l + 1].sp != was[l].sp)
    decreases |was| - k
  {
    if k + 1 < |was| && was[k + 1].sp == was[k].sp then LastFor(was, k + 1) else k
  }

  /** The action at `k` takes over from a shift that ties with it. */
  predicate TieAt(p: Precedences, was: seq<Action>, k: nat)
    requires k < |was|
  {
    && 0 < k && was[k - 1].sp == was[k].sp && was[Holder(p, was, k - 1)].kind.Shift?
    && was[k].kind.Reduce? && Ties(p, was[k].sp, was[k].kind.rule)
  }

  /** What becomes of an action: it is left as it is, or an error, or goes. */
  function Fate(p: Precedences, was: seq<Action>, k: nat): Kind
    requires k < |was|
  {
    var l := LastFor(was, k);
    if Holder(p, was, l) == k then was[k].kind
    else if TieAt(p, was, l) && Holder(p, was, l - 1) == k then Error
    else Inactive
  }

  ghost predicate Decided(p: Precedences, was: seq<Action>, ap: seq<Action>) {
    |ap| == |was| && forall k :: 0 <= k < |ap| ==> ap[k] == was[k].(kind := Fate(p, was, k))
  }

  /** A shift ties before the last action for its symbol; comparing the error with the next one fails. */
  predicate EarlyTie(p: Precedences, was: seq<Action>) {
    exists k :: 0 <= k < |was| && TieBefore(p, was, k)
  }

  predicate TieBefore(p: Precedences, was: seq<Action>, k: nat)
    requires k < |was|
  {
    k + 1 < |was| && was[k].sp == was[k + 1].sp && TieAt(p, was, k)
  }

  /** Such ties only where the comparison has not come yet. */
  ghost predicate TiesLater(p: Precedences, was: seq<Action>, i: nat, j: nat) {
    forall k :: 0 <= k < |was| && TieBefore(p, was, k) ==>
      Holder(p, was, k - 1) >= i && (Holder(p, was, k - 1) == i ==> k + 1 >= j)
  }

  /** After the first `i` actions have been compared with all that follow. */
  ghost predicate DecidedTo(p: Precedences, was: seq<Action>, ap: seq<Action>, i: nat) {
    && |ap| == |was|
    && (forall k :: 0 <= k < i && k < |ap| ==> ap[k] == was[k].(kind := Fate(p, was, k)))
    && (forall k :: i <= k < |ap| ==>
          ap[k] == if Holder(p, was, k) < i then was[k].(kind := Inactive) else was[k])
    && TiesLater(p, was, i, 0)
  }

  /** In the middle of comparing action `i`: up to `j`. */
  ghost predicate DecidedIn(p: Precedences, was: seq<Action>, ap: seq<Action>, i: nat, j: nat)
    requires i < j <= |was|
  {
    && |ap| == |was| && (forall k :: i <= k < j ==> was[k].sp == was[i].sp)
    && (forall k :: 0 <= k < i ==> ap[k] == was[k].(kind := Fate(p, was, k)))
    && ap[i] == was[i].(kind := Meanwhile(p, was, i, j))
    && (forall k :: i < k < j ==> ap[k] == if Holder(p, was, k) <= i then was[k].(kind := Inactive) else was[k])
    && (forall k :: j <= k < |ap| ==> ap[k] == if Holder(p, was, k) < i then was[k].(kind := Inactive) else was[k])
    && TiesLater(p, was, i, j)
  }

  /** What has become of action `i` before it is compared with the one at `j`. */
  function Meanwhile(p: Precedences, was: seq<Action>, i: nat, j: nat): Kind
    requires i < j <= |was|
  {
    if Holder(p, was, j - 1) == i then was[i].kind
    else if TieAt(p, was, j - 1) && Holder(p, was, j - 2) == i then Error
    else Inactive
  }

  /** Wherever there were actions for a lookahead, one of them is active. */
  predicate Answered(ap: seq<Action>) {
    forall i :: 0 <= i < |ap| ==> AnsweredAt(ap, ap[i].sp)
  }

  predicate AnsweredAt(ap: seq<Action>, sp: int) {
    exists j :: 0 <= j < |ap| && ap[j].sp == sp && !ap[j].kind.Inactive?
  }

  predicate TieOrLess(a: Action, b: Action) {
    a.sp == b.sp && !a.kind.Inactive? && !b.kind.Inactive? ==> a.kind.Error? && b.kind.Reduce?
  }

  /** The first `n` actions have been compared with all that follow them. */
  predicate Compared(ap: seq<Action>, n: int) {
    forall a, b :: 0 <= a < n && a < b < |ap| ==> TieOrLess(ap[a], ap[b])
  }

  /** Each action against those after it with the same lookahead; `false` is a failed assertion, and needs a tie. */
  method ResolveConflicts(p: Precedences, was: seq<Action>) returns (ok: bool, ap: seq<Action>)
    requires BySymbol(was) && Unresolved(was) && AcceptAlone(was)
    ensures ok ==> OneButTies(ap) && ResolvedFrom(p, was, ap) && Answered(ap)
    ensures ok ==> Decided(p, was, ap)
    ensures ok <==> !EarlyTie(p, was)
    ensures !ok ==> SomeTie(p)
  {
    hide Answered, TieOrLess, ResolvedFrom, DecidedTo, EarlyTie, BySymbol;
    ap := was;
    FirstResolved(p, was);
    FirstDecided(p, was);
    var i := 0;
    while i + 1 < |ap|
      invariant 0 <= i && (|was| > 0 ==> i < |was|) && |ap| == |was|
      invariant ResolvedFrom(p, was, ap) && Compared(ap, i) && Answered(ap) && DecidedTo(p, was, ap, i)
    {
      ok, ap := CompareWithRest(p, was, ap, i);
      if !ok {
        return;
      }
      i := i + 1;
    }
    AllCompared(ap);
    AllDecided(p, was, ap, i);
    ok := true;
  }

  lemma RestCompared(p: Precedences, was: seq<Action>, ap: seq<Action>, i: nat, j: nat)
    requires BySymbol(was) && ResolvedFrom(p, was, ap) && Compared(ap, i) && i < j <= |ap|
    requires forall b :: i < b < j ==> TieOrLess(ap[i], ap[b])
    requires j < |ap| ==> ap[j].sp != ap[i].sp
    ensures Compared(ap, i + 1)
  {
    assert forall k :: 0 <= k < |ap| ==> ap[k].sp == was[k].sp;
    hide ResolvedFrom, Rank;
    forall b | i < b < |ap|
      ensures TieOrLess(ap[i], ap[b])
    {
      if b >= j {
        assert b > j ==> NotAfter(was[j], was[b]);
        assert NotAfter(was[i], was[j]);
      }
    }
  }

  lemma FirstResolved(p: Precedences, was: seq<Action>)
    requires Unresolved(was)
    ensures ResolvedFrom(p, was, was) && Answered(was)
  {
  }

  lemma AllCompared(ap: seq<Action>)
    requires Compared(ap, |ap| - 1)
    ensures OneButTies(ap)
  {
    forall a, b | 0 <= a < b < |ap|
      ensures TieOrLess(ap[a], ap[b])
    {
    }
  }

  /** One action against all that follow it with its lookahead. */
  method CompareWithRest(p: Precedences, was: seq<Action>, ap0: seq<Action>, i: nat) returns (ok: bool, ap: seq<Action>)
    requires BySymbol(was) && Unresolved(was) && AcceptAlone(was) && i < |was| == |ap0|
    requires ResolvedFrom(p, was, ap0) && Compared(ap0, i) && Answered(ap0) && DecidedTo(p, was, ap0, i)
    ensures !ok ==> EarlyTie(p, was) && SomeTie(p)
    ensures ok ==> |ap| == |was| && ResolvedFrom(p, was, ap) && Compared(ap, i + 1) && Answered(ap)
    ensures ok ==> DecidedTo(p, was, ap, i + 1)
  {
    hide Answered, Compared, BySymbol, Unresolved, AcceptAlone, DecidedTo, DecidedIn, EarlyTie;
    ap := ap0;
    StartDecided(p, was, ap, i);
    var j := i + 1;
    while j < |ap| && ap[j].sp == ap[i].sp
      invariant i < j <= |was| && ResolvedFrom(p, was, ap) && Compared(ap, i) && Answered(ap)
      invariant DecidedIn(p, was, ap, i, j)
      invariant forall b :: i < b < j ==> ap[b].sp == ap[i].sp && TieOrLess(ap[i], ap[b])
    {
      var r := ResolveConflict(p, ap[i].kind, ap[j].kind, ap[i].sp);
      if r.None? {
        Unresolvable(p, was, ap, i, j);
        FailedEarly(p, was, ap, i, j);
        return false, ap;
      }
      OneCompared(p, was, ap, i, j);
      StillAnswered(p, ap, i, j);
      OneDecided(p, was, ap, i, j);
      ghost var after := Compare(p, ap, i, j);
      ap := ap[i := ap[i].(kind := r.value.0)][j := ap[j].(kind := r.value.1)];
      assert ap == after;
      j := j + 1;
    }
    RestCompared(p, was, ap, i, j);
    RestDecided(p, was, ap, i, j);
    ok := true;
  }

  lemma FirstDecided(p: Precedences, was: seq<Action>)
    ensures DecidedTo(p, was, was, 0)
  {
  }

  lemma StartDecided(p: Precedences, was: seq<Action>, ap: seq<Action>, i: nat)
    requires i < |was| && DecidedTo(p, was, ap, i)
    ensures DecidedIn(p, was, ap, i, i + 1)
  {
    hide Holder, TieAt, TieBefore, Fate;
  }

  /** Two actions of a state are told apart by levels and associativity. */
  lemma PairAnswered(p: Precedences, was: seq<Action>, i: nat, j: nat)
    requires BySymbol(was) && Unresolved(was) && AcceptAlone(was) && i < j < |was| && was[j].sp == was[i].sp
    ensures ResolveConflict(p, was[i].kind, was[j].kind, was[i].sp)
            == if !Yields(p, was[i].sp, was[i].kind, was[j].kind) then Some((was[i].kind, Inactive))
               else if was[i].kind.Shift? && Ties(p, was[i].sp, was[j].kind.rule) then Some((Error, was[j].kind))
               else Some((Inactive, was[j].kind))
  {
    assert Shared(was, i) && Shared(was, j) && NotAfter(was[i], was[j]);
  }

  lemma TieTakesOver(p: Precedences, was: seq<Action>, k: nat)
    requires k < |was| && TieAt(p, was, k)
    ensures Holder(p, was, k) == k
  {
  }

  lemma NextHolder(p: Precedences, was: seq<Action>, j: nat)
    requires 0 < j < |was| && was[j - 1].sp == was[j].sp
    ensures var q := Holder(p, was, j - 1);
            Holder(p, was, j) == if Yields(p, was[j].sp, was[q].kind, was[j].kind) then j else q
    ensures TieAt(p, was, j) <==>
              was[Holder(p, was, j - 1)].kind.Shift? && was[j].kind.Reduce? && Ties(p, was[j].sp, was[j].kind.rule)
  {
  }

  /** One more action compared. */
  lemma MoreDecided(p: Precedences, was: seq<Action>, ap: seq<Action>, after: seq<Action>, i: nat, j: nat)
    requires i < j < |was| && was[j].sp == was[i].sp && DecidedIn(p, was, ap, i, j)
    requires |after| == |ap| && forall k :: 0 <= k < |ap| && k != i && k != j ==> after[k] == ap[k]
    requires after[i] == was[i].(kind := Meanwhile(p, was, i, j + 1))
    requires after[j] == if Holder(p, was, j) <= i then was[j].(kind := Inactive) else was[j]
    requires TieBefore(p, was, j - 1) ==> Holder(p, was, j - 2) != i
    ensures DecidedIn(p, was, after, i, j + 1)
  {
    hide Meanwhile, Fate, Holder, TieBefore, TiesLater;
    TiesPassed(p, was, i, j);
  }

  lemma TiesPassed(p: Precedences, was: seq<Action>, i: nat, j: nat)
    requires TiesLater(p, was, i, j) && 0 < j < |was|
    requires TieBefore(p, was, j - 1) ==> Holder(p, was, j - 2) != i
    ensures TiesLater(p, was, i, j + 1)
  {
    hide Holder, TieBefore;
  }

  lemma InTheMiddle(p: Precedences, was: seq<Action>, ap: seq<Action>, i: nat, j: nat)
    requires i < j < |was| && was[j].sp == was[i].sp && DecidedIn(p, was, ap, i, j)
    ensures |ap| == |was| && was[j - 1].sp == was[j].sp == ap[i].sp == ap[j].sp
    ensures ap[i] == was[i].(kind := Meanwhile(p, was, i, j))
    ensures ap[j] == if Holder(p, was, j) < i then was[j].(kind := Inactive) else was[j]
  {
    hide Holder, Meanwhile, TiesLater;
  }

  lemma KindsBefore(was: seq<Action>, i: nat)
    requires Unresolved(was) && i < |was|
    ensures was[i].kind.Shift? || was[i].kind.Reduce? || was[i].kind.Accept?
  {
  }

  lemma TieTaken(p: Precedences, was: seq<Action>, j: nat)
    requires 0 < j <= |was|
    ensures TieAt(p, was, j - 1) ==> Holder(p, was, j - 1) == j - 1
  {
    if TieAt(p, was, j - 1) { TieTakesOver(p, was, j - 1); }
  }

  lemma OneDecided(p: Precedences, was: seq<Action>, ap: seq<Action>, i: nat, j: nat)
    requires BySymbol(was) && Unresolved(was) && AcceptAlone(was)
    requires i < j < |was| && was[j].sp == was[i].sp && DecidedIn(p, was, ap, i, j) && |ap| == |was|
    requires ap[i].sp == ap[j].sp && ResolveConflict(p, ap[i].kind, ap[j].kind, ap[i].sp).Some?
    ensures DecidedIn(p, was, Compare(p, ap, i, j), i, j + 1)
  {
    hide DecidedIn, Holder, TieAt, Ties, Yields, BySymbol, Unresolved, AcceptAlone;
    InTheMiddle(p, was, ap, i, j);
    NextHolder(p, was, j);
    PairAnswered(p, was, i, j);
    KindsBefore(was, i);
    KindsBefore(was, j);
    TieTaken(p, was, j);
    TieTaken(p, was, j + 1);
    MoreDecided(p, was, ap, Compare(p, ap, i, j), i, j);
  }

  lemma FailedEarly(p: Precedences, was: seq<Action>, ap: seq<Action>, i: nat, j: nat)
    requires BySymbol(was) && Unresolved(was) && AcceptAlone(was)
    requires i < j < |was| && was[j].sp == was[i].sp && DecidedIn(p, was, ap, i, j) && |ap| == |was|
    requires ResolveConflict(p, ap[i].kind, ap[j].kind, ap[i].sp).None?
    ensures EarlyTie(p, was)
  {
    hide DecidedIn, Holder, TieAt, Ties, Yields, BySymbol, Unresolved, AcceptAlone;
    InTheMiddle(p, was, ap, i, j);
    PairAnswered(p, was, i, j);
    assert TieBefore(p, was, j - 1);
  }

  lemma {:induction false} StillBelow(p: Precedences, was: seq<Action>, i: nat, j: nat)
    requires i <= j < |was| && Holder(p, was, i) < i && forall k :: i <= k <= j ==> was[k].sp == was[i].sp
    ensures Holder(p, was, j) != i
  {
    if i < j {
      StillBelow(p, was, i, j - 1);
    }
  }

  lemma RestDecided(p: Precedences, was: seq<Action>, ap: seq<Action>, i: nat, j: nat)
    requires BySymbol(was) && i < j <= |was| && DecidedIn(p, was, ap, i, j) && (j < |was| ==> was[j].sp != was[i].sp)
    ensures DecidedTo(p, was, ap, i + 1)
  {
    hide Holder, TieAt, TieBefore, BySymbol, Meanwhile, Fate, TiesLater;
    LaterGroups(p, was, i, j);
    MeanwhileFate(p, was, i, j);
    NoneLeft(p, was, i, j);
  }

  lemma NoneLeft(p: Precedences, was: seq<Action>, i: nat, j: nat)
    requires i < j <= |was| && TiesLater(p, was, i, j) && (j < |was| ==> was[j].sp != was[i].sp)
             && forall k :: i <= k < j ==> was[k].sp == was[i].sp
    requires forall k :: j <= k < |was| ==> Holder(p, was, k) >= j
    ensures TiesLater(p, was, i + 1, 0)
  {
    forall k | 0 <= k < |was| && TieBefore(p, was, k)
      ensures Holder(p, was, k - 1) >= i + 1
    {
      assert was[Holder(p, was, k - 1)].sp == was[k - 1].sp == was[k].sp == was[k + 1].sp;
    }
  }

  lemma MeanwhileFate(p: Precedences, was: seq<Action>, i: nat, j: nat)
    requires i < j <= |was| && (j < |was| ==> was[j].sp != was[i].sp)
    requires forall k :: i <= k < j ==> was[k].sp == was[i].sp
    ensures Meanwhile(p, was, i, j) == Fate(p, was, i)
  {
    LastIs(was, i, j - 1);
  }

  lemma LaterGroups(p: Precedences, was: seq<Action>, i: nat, j: nat)
    requires BySymbol(was) && i < j <= |was| && (j < |was| ==> was[j].sp != was[i].sp)
    requires forall k :: i <= k < j ==> was[k].sp == was[i].sp
    ensures forall k :: j <= k < |was| ==> Holder(p, was, k) >= j
  {
    forall k | j <= k < |was|
      ensures Holder(p, was, k) >= j
    {
      var q := Holder(p, was, k);
      assert NotAfter(was[i], was[j]) && (j < k ==> NotAfter(was[j], was[k]));
      assert q < i ==> NotAfter(was[q], was[i]);
    }
  }

  lemma {:induction false} LastIs(was: seq<Action>, i: nat, l: nat)
    requires i <= l < |was| && (forall k :: i <= k <= l ==> was[k].sp == was[i].sp)
             && (l + 1 < |was| ==> was[l + 1].sp != was[i].sp)
    ensures LastFor(was, i) == l
    decreases l - i
  {
    if i < l {
      LastIs(was, i + 1, l);
    }
  }

  lemma AllDecided(p: Precedences, was: seq<Action>, ap: seq<Action>, i: nat)
    requires DecidedTo(p, was, ap, i) && i + 1 >= |was|
    ensures Decided(p, was, ap) && !EarlyTie(p, was)
  {
  }

  /** Only beside an error do two actions meet that the generator has no answer for. */
  lemma Unresolvable(p: Precedences, was: seq<Action>, ap: seq<Action>, i: nat, j: nat)
    requires BySymbol(was) && Unresolved(was) && AcceptAlone(was) && ResolvedFrom(p, was, ap)
    requires i < j < |ap| && ap[i].sp == ap[j].sp && ResolveConflict(p, ap[i].kind, ap[j].kind, ap[i].sp).None?
    ensures SomeTie(p)
  {
    assert was[i].sp == was[j].sp && Shared(was, i) && Shared(was, j) && NotAfter(was[i], was[j]);
    var e := if ap[i].kind.Error? then i else j;
    assert ap[e].kind.Error?;
    var k :| 0 <= k < |was| && was[k].sp == ap[e].sp && was[k].kind.Reduce? && Ties(p, ap[e].sp, was[k].kind.rule);
  }

  /** The list once the conflict of two actions is resolved. */
  function Compare(p: Precedences, ap: seq<Action>, i: nat, j: nat): (after: seq<Action>)
    requires i < j < |ap| && ResolveConflict(p, ap[i].kind, ap[j].kind, ap[i].sp).Some?
  {
    var r := ResolveConflict(p, ap[i].kind, ap[j].kind, ap[i].sp).value;
    ap[i := ap[i].(kind := r.0)][j := ap[j].(kind := r.1)]
  }

  lemma OneCompared(p: Precedences, was: seq<Action>, ap: seq<Action>, i: nat, j: nat)
    requires Unresolved(was) && ResolvedFrom(p, was, ap) && Compared(ap, i)
    requires i < j < |ap| && ap[i].sp == ap[j].sp && ResolveConflict(p, ap[i].kind, ap[j].kind, ap[i].sp).Some?
    requires forall b :: i < b < j ==> ap[b].sp == ap[i].sp && TieOrLess(ap[i], ap[b])
    ensures var after := Compare(p, ap, i, j);
            && ResolvedFrom(p, was, after) && Compared(after, i)
            && forall b :: i < b <= j ==> after[b].sp == after[i].sp && TieOrLess(after[i], after[b])
  {
    FromKept(p, was, ap, i, j);
    var after := Compare(p, ap, i, j);
    assert LessActive(ap[i], after[i]) && LessActive(ap[j], after[j]);
    assert TieOrLess(after[i], after[j]);
    hide ResolveConflict, ResolvedFrom, Unresolved;
    assert forall b :: 0 <= b < |ap| && b != i && b != j ==> after[b] == ap[b];
    hide Compare;
    forall a, b | 0 <= a < i && a < b < |after|
      ensures TieOrLess(after[a], after[b])
    {
      assert TieOrLess(ap[a], ap[b]);
    }
  }

  lemma FirstAnswered(was: seq<Action>)
    requires Unresolved(was)
    ensures Answered(was)
  {
  }

  lemma StillAnswered(p: Precedences, ap: seq<Action>, i: nat, j: nat)
    requires i < j < |ap| && ap[i].sp == ap[j].sp && ResolveConflict(p, ap[i].kind, ap[j].kind, ap[i].sp).Some?
    requires Answered(ap)
    ensures Answered(Compare(p, ap, i, j))
  {
    var after := Compare(p, ap, i, j);
    forall a | 0 <= a < |after|
      ensures AnsweredAt(after, after[a].sp)
    {
      assert AnsweredAt(ap, ap[a].sp);
      var b :| 0 <= b < |ap| && ap[b].sp == ap[a].sp && !ap[b].kind.Inactive?;
      var c := if b == i || b == j then (if after[i].kind.Inactive? then j else i) else b;
      assert after[c].sp == after[a].sp && !after[c].kind.Inactive?;
    }
  }

  /** A reduce stays as it is or goes; an action that is not active stays so. */
  predicate LessActive(a: Action, b: Action) {
    && a.sp == b.sp && (a.kind.Inactive? ==> b.kind.Inactive?)
    && (a.kind.Reduce? ==> b.kind.Inactive? || b.kind.Reduce?) && (a.kind.Error? ==> b.kind.Inactive? || b.kind.Error?)
    && (a.kind.Accept? ==> b.kind.Inactive? || b.kind.Accept?)
  }

  lemma FromKept(p: Precedences, was: seq<Action>, ap: seq<Action>, i: nat, j: nat)
    requires Unresolved(was) && ResolvedFrom(p, was, ap)
    requires i < j < |ap| && ap[i].sp == ap[j].sp && ResolveConflict(p, ap[i].kind, ap[j].kind, ap[i].sp).Some?
    ensures ResolvedFrom(p, was, Compare(p, ap, i, j))
  {
    assert was[i].sp == was[j].sp && Shared(was, i) && Shared(was, j);
    var after := Compare(p, ap, i, j);
    if after[i].kind.Error? && !ap[i].kind.Error? {
      assert was[j].kind.Reduce?;
      assert TieBeside(p, was, ap[i].sp);
    }
    hide Shared, TieBeside;
  }

  lemma {:induction false} CountTwo(ap: seq<Action>, sp: int, i: nat, j: nat)
    requires i < j < |ap| && ap[i].sp == ap[j].sp == sp
    ensures CountOf(ap, sp) >= 2
  {
    if i > 0 {
      CountTwo(ap[1..], sp, i - 1, j - 1);
    } else {
      CountSome(ap[1..], sp, j - 1);
    }
  }

  lemma {:induction false} CountSome(ap: seq<Action>, sp: int, i: nat)
    requires i < |ap| && ap[i].sp == sp
    ensures CountOf(ap, sp) >= 1
  {
    if i > 0 {
      CountSome(ap[1..], sp, i - 1);
    }
  }

  /** An action alone for its lookahead is untouched and the state's own. */
  lemma AloneKept(p: Precedences, was: seq<Action>, ap: seq<Action>, e: Action)
    requires ResolvedFrom(p, was, ap) && e in was && CountOf(was, e.sp) <= 1 && !e.kind.Inactive?
    ensures e in ap && Own(ap, e.sp) == e.kind
  {
    hide TieBeside;
    var i :| 0 <= i < |was| && was[i] == e;
    if Shared(was, i) {
      var j :| 0 <= j < |was| && j != i && was[j].sp == was[i].sp;
      CountTwo(was, e.sp, if i < j then i else j, if i < j then j else i);
      assert false;
    }
    assert ap[i] == e;
    var k := OwnFound(ap, e.sp) by { OwnSome(ap, i); }
    assert k == i;
  }

  lemma {:induction false} OwnSome(ap: seq<Action>, i: nat)
    requires i < |ap| && !ap[i].kind.Inactive?
    ensures !Own(ap, ap[i].sp).Inactive?
  {
    if i > 0 {
      OwnSome(ap[1..], i - 1);
    }
  }

  // ----- the actions before conflicts are resolved -----

  /** The symbol with index `sp`, terminals first, is one that `x` stands for. */
  predicate Reads(g: Grammar, x: Symbol, sp: int) {
    match x
    case Terminal(i) => sp == i
    case Nonterminal(i) => sp == g.nTerminals + i
    case Class(tokens) => sp >= 0 && sp in tokens
  }

  predicate ShiftsTo(g: Grammar, s: State, sp: int, target: nat) {
    exists k :: 0 <= k < |s.shifts| && s.shifts[k].1 == target && Reads(g, s.shifts[k].0, sp)
  }

  function ClassShifts(tokens: seq<nat>, target: nat): (ap: seq<Action>)
    ensures forall e :: e in ap <==> e.kind == Shift(target) && e.sp >= 0 && e.sp in tokens
  {
    if tokens == [] then []
    else
      assert forall t: nat :: t in tokens <==> t == tokens[0] || t in tokens[1..];
      [Action(tokens[0], Shift(target))] + ClassShifts(tokens[1..], target)
  }

  /** A class is shifted token by token. */
  function SymbolShifts(g: Grammar, x: Symbol, target: nat): (ap: seq<Action>)
    ensures forall e :: e in ap <==> e.kind == Shift(target) && Reads(g, x, e.sp)
  {
    match x
    case Terminal(i) => [Action(i, Shift(target))]
    case Nonterminal(i) => [Action(g.nTerminals + i, Shift(target))]
    case Class(tokens) => ClassShifts(tokens, target)
  }

  function ShiftActions(g: Grammar, shifts: seq<(Symbol, nat)>): (ap: seq<Action>)
    ensures forall e :: e in ap <==>
              e.kind.Shift?
              && exists k :: 0 <= k < |shifts| && shifts[k].1 == e.kind.target && Reads(g, shifts[k].0, e.sp)
  {
    if shifts == [] then []
    else
      var last := shifts[|shifts| - 1];
      ShiftActions(g, shifts[..|shifts| - 1]) + SymbolShifts(g, last.0, last.1)
  }

  predicate ShiftsSymbol(shifts: seq<(Symbol, nat)>, x: Symbol) {
    exists k :: 0 <= k < |shifts| && shifts[k].0 == x
  }

  lemma ShiftsLast(shifts: seq<(Symbol, nat)>, x: Symbol)
    requires shifts != []
    ensures ShiftsSymbol(shifts, x) <==> shifts[|shifts| - 1].0 == x || ShiftsSymbol(shifts[..|shifts| - 1], x)
  {
    var before := shifts[..|shifts| - 1];
    if ShiftsSymbol(before, x) {
      var k :| 0 <= k < |before| && before[k].0 == x;
      assert shifts[k].0 == x;
    }
  }

  /** Nonterminals are shifted once at most; tokens may be shifted alone and in a class. */
  lemma {:induction false} GotosOnce(g: Grammar, shifts: seq<(Symbol, nat)>, sp: int)
    requires forall k :: 0 <= k < |shifts| ==> ValidSymbol(g, shifts[k].0)
    requires forall k, l :: 0 <= k < l < |shifts| ==> shifts[k].0 != shifts[l].0
    requires sp >= g.nTerminals
    ensures CountOf(ShiftActions(g, shifts), sp)
            == if ShiftsSymbol(shifts, Nonterminal(sp - g.nTerminals)) then 1 else 0
  {
    if shifts != [] {
      var before, last := shifts[..|shifts| - 1], shifts[|shifts| - 1];
      GotosOnce(g, before, sp);
      CountConcat(ShiftActions(g, before), SymbolShifts(g, last.0, last.1), sp);
      SymbolOnce(g, last.0, last.1, sp);
      ShiftsLast(shifts, Nonterminal(sp - g.nTerminals));
      assert last.0 == Nonterminal(sp - g.nTerminals) ==> !ShiftsSymbol(before, last.0);
      hide SymbolShifts, CountOf, ValidSymbol;
    }
  }

  lemma SymbolOnce(g: Grammar, x: Symbol, target: nat, sp: int)
    requires ValidSymbol(g, x) && sp >= g.nTerminals
    ensures CountOf(SymbolShifts(g, x, target), sp) == if x == Nonterminal(sp - g.nTerminals) then 1 else 0
  {
    if x.Class? {
      NoneCounted(SymbolShifts(g, x, target), sp);
    } else {
      assert SymbolShifts(g, x, target)[1..] == [];
    }
  }

  lemma {:induction false} NoneCounted(ap: seq<Action>, sp: int)
    requires forall e :: e in ap ==> e.sp != sp
    ensures CountOf(ap, sp) == 0
  {
    if ap != [] {
      NoneCounted(ap[1..], sp);
    }
  }

  lemma {:induction false} CountConcat(a: seq<Action>, b: seq<Action>, sp: int)
    ensures CountOf(a + b, sp) == CountOf(a, sp) + CountOf(b, sp)
  {
    if a == [] {
      assert a + b == b;
    } else {
      CountConcat(a[1..], b, sp);
      assert (a + b)[1..] == a[1..] + b;
    }
  }

  /** The configuration number `c` is complete, and the token may follow it. */
  predicate ReduceOn(g: Grammar, i: Item, rule: nat) {
    i.rule == rule && rule < |g.rules| && i.dot == |g.rules[rule].rhs|
  }

  /** A reduce on each token of the set of each complete configuration among the first `n`. */
  ghost predicate ReducesRight(g: Grammar, items: seq<Item>, first: nat, follow: Pairs, n: nat, ap: seq<Action>)
    requires n <= |items|
  {
    forall e :: e in ap <==>
      e.kind.Reduce? && 0 <= e.sp < g.nTerminals
        && exists k :: 0 <= k < n && ReduceOn(g, items[k], e.kind.rule) && (first + k, e.sp) in follow
  }

  /** For every token in the set of a complete configuration, a reduce by its rule. */
  method AddReduces(g: Grammar, items: seq<Item>, first: nat, fws: SetTable) returns (ap: seq<Action>)
    requires fws.Valid() && first + |items| <= fws.rows && fws.size == g.nTerminals
    requires forall k :: 0 <= k < |items| ==> ValidItem(g, items[k])
    ensures ReducesRight(g, items, first, fws.pairs, |items|, ap)
  {
    ap := [];
    var k := 0;
    while k < |items|
      invariant 0 <= k <= |items| && ReducesRight(g, items, first, fws.pairs, k, ap)
    {
      ghost var before := ap;
      if items[k].dot == |g.rules[items[k].rule].rhs| {
        var j := 0;
        while j < g.nTerminals
          invariant 0 <= j <= g.nTerminals
          invariant forall e :: e in ap <==>
                      e in before || (e.kind == Reduce(items[k].rule) && 0 <= e.sp < j
                                      && (first + k, e.sp) in fws.pairs)
        {
          assert (first + k, j) in fws.pairs <==> fws.bits[first + k, j];
          if fws.bits[first + k, j] {
            ap := ap + [Action(j, Reduce(items[k].rule))];
          }
          j := j + 1;
        }
        OneReduced(g, items, first, fws.pairs, k, before, ap);
      } else {
        NoneReduced(g, items, first, fws.pairs, k, ap);
      }
      k := k + 1;
    }
  }

  lemma OneReduced(g: Grammar, items: seq<Item>, first: nat, follow: Pairs, k: nat, before: seq<Action>,
                   ap: seq<Action>)
    requires k < |items| && ReducesRight(g, items, first, follow, k, before) && ReduceOn(g, items[k], items[k].rule)
    requires forall e :: e in ap <==>
               e in before || (e.kind == Reduce(items[k].rule) && 0 <= e.sp < g.nTerminals
                               && (first + k, e.sp) in follow)
    ensures ReducesRight(g, items, first, follow, k + 1, ap)
  {
    forall e
      ensures e in ap <==>
                e.kind.Reduce? && 0 <= e.sp < g.nTerminals
                  && exists l :: 0 <= l < k + 1 && ReduceOn(g, items[l], e.kind.rule) && (first + l, e.sp) in follow
    {
      if e.kind == Reduce(items[k].rule) && 0 <= e.sp < g.nTerminals && (first + k, e.sp) in follow {
        assert ReduceOn(g, items[k], e.kind.rule);
      }
    }
  }

  lemma NoneReduced(g: Grammar, items: seq<Item>, first: nat, follow: Pairs, k: nat, ap: seq<Action>)
    requires k < |items| && ReducesRight(g, items, first, follow, k, ap) && !ReduceOn(g, items[k], items[k].rule)
    ensures ReducesRight(g, items, first, follow, k + 1, ap)
  {
    forall e
      ensures e in ap <==>
                e.kind.Reduce? && 0 <= e.sp < g.nTerminals
                  && exists l :: 0 <= l < k + 1 && ReduceOn(g, items[l], e.kind.rule) && (first + l, e.sp) in follow
    {
    }
  }

  // ----- the actions of all states -----

  /** What an action of a state is for, before conflicts are resolved. */
  ghost predicate Wanted(g: Grammar, start: nat, states: seq<State>, follow: Pairs, s: nat, e: Action)
    requires s < |states|
  {
    match e.kind
    case Shift(target) => ShiftsTo(g, states[s], e.sp, target)
    case Reduce(rule) => Reducible(g, states, follow, s, e.sp, rule)
    case Accept => s == 0 && e.sp == g.nTerminals + start
    case _ => false
  }

  /** A configuration of the state is complete by the rule, and the token can follow it there. */
  ghost predicate Reducible(g: Grammar, states: seq<State>, follow: Pairs, s: nat, sp: int, rule: nat)
    requires s < |states|
  {
    && 0 <= sp < g.nTerminals
    && exists k :: 0 <= k < |states[s].items| && ReduceOn(g, states[s].items[k], rule)
                   && (Links.First(states, s) + k, sp) in follow
  }

  /** All wanted actions and no other, in order; nonterminals have one each. */
  ghost predicate Collected(g: Grammar, start: nat, states: seq<State>, follow: Pairs, s: nat, was: seq<Action>)
    requires s < |states|
  {
    && (forall e :: e in was <==> Wanted(g, start, states, follow, s, e))
    && BySymbol(was) && forall sp :: sp >= g.nTerminals ==> CountOf(was, sp) <= 1
  }

  method CollectActions(g: Grammar, start: nat, states: seq<State>, fws: SetTable, s: nat) returns (ap: seq<Action>)
    requires ValidGrammar(g) && ValidStates(g, states) && ExactFrom(g, states, 0) && s < |states|
    requires start < g.nNonterminals && !Links.OnRight(g, start)
    requires fws.Valid() && fws.rows == |Links.Configs(states)| && fws.size == g.nTerminals
    ensures Collected(g, start, states, fws.pairs, s, ap)
  {
    StateFacts(g, start, states, s);
    hide ValidStates, ExactFrom, ValidGrammar, Links.Configs;
    var shifts := ShiftActions(g, states[s].shifts);
    var reduces := AddReduces(g, states[s].items, Links.First(states, s), fws);
    var accept := if s == 0 then [Action(g.nTerminals + start, Accept)] else [];
    ap := SortedActions(shifts + reduces + accept);
    SortedBySymbol(shifts + reduces + accept);
    forall sp | sp >= g.nTerminals
      ensures CountOf(ap, sp) <= 1
    {
      GotoCount(g, start, states[s].shifts, reduces, accept, sp);
    }
    hide CountOf, BySymbol, ReducesRight;
    AllWanted(g, start, states, fws.pairs, s, reduces, accept, ap);
  }

  lemma AllWanted(g: Grammar, start: nat, states: seq<State>, follow: Pairs, s: nat, reduces: seq<Action>,
                  accept: seq<Action>, ap: seq<Action>)
    requires s < |states|
    requires ReducesRight(g, states[s].items, Links.First(states, s), follow, |states[s].items|, reduces)
    requires accept == if s == 0 then [Action(g.nTerminals + start, Accept)] else []
    requires forall e :: e in ap <==> e in ShiftActions(g, states[s].shifts) + reduces + accept
    ensures forall e :: e in ap <==> Wanted(g, start, states, follow, s, e)
  {
    var shifts := ShiftActions(g, states[s].shifts);
    forall e
      ensures e in ap <==> Wanted(g, start, states, follow, s, e)
    {
      assert e in ap <==> e in shifts || e in reduces || e in accept;
      assert e in shifts <==> e.kind.Shift? && ShiftsTo(g, states[s], e.sp, e.kind.target);
    }
  }

  lemma GotoCount(g: Grammar, start: nat, shifts: seq<(Symbol, nat)>, reduces: seq<Action>, accept: seq<Action>,
                  sp: int)
    requires forall k :: 0 <= k < |shifts| ==> ValidSymbol(g, shifts[k].0) && shifts[k].0 != Nonterminal(start)
    requires forall k, l :: 0 <= k < l < |shifts| ==> shifts[k].0 != shifts[l].0
    requires (forall e :: e in reduces ==> e.sp < g.nTerminals) && sp >= g.nTerminals
    requires accept == [] || accept == [Action(g.nTerminals + start, Accept)]
    ensures CountOf(ShiftActions(g, shifts) + reduces + accept, sp) <= 1
  {
    GotosOnce(g, shifts, sp);
    NoneCounted(reduces, sp);
    CountConcat(ShiftActions(g, shifts), reduces, sp);
    CountConcat(ShiftActions(g, shifts) + reduces, accept, sp);
    assert accept != [] ==> accept[1..] == [];
    assert sp == g.nTerminals + start ==> !ShiftsSymbol(shifts, Nonterminal(sp - g.nTerminals));
  }

  lemma StateFacts(g: Grammar, start: nat, states: seq<State>, s: nat)
    requires ValidGrammar(g) && ValidStates(g, states) && ExactFrom(g, states, 0) && s < |states|
    requires !Links.OnRight(g, start)
    ensures forall k :: 0 <= k < |states[s].items| ==> ValidItem(g, states[s].items[k])
    ensures forall k :: 0 <= k < |states[s].shifts| ==>
              ValidSymbol(g, states[s].shifts[k].0) && states[s].shifts[k].0 != Nonterminal(start)
              && states[s].shifts[k].1 < |states|
    ensures forall k, l :: 0 <= k < l < |states[s].shifts| ==> states[s].shifts[k].0 != states[s].shifts[l].0
    ensures Links.First(states, s) + |states[s].items| <= |Links.Configs(states)|
  {
    hide IsClosure, Increasing;
    assert ValidState(g, states[s]) && ShiftsExact(g, states, states[s]);
    forall k | 0 <= k < |states[s].shifts|
      ensures ValidSymbol(g, states[s].shifts[k].0) && states[s].shifts[k].0 != Nonterminal(start)
      ensures states[s].shifts[k].1 < |states|
    {
      assert ShiftRight(g, states, states[s], k);
      var i :| i in states[s].items && CanShift(g, i, states[s].shifts[k].0);
      assert ValidRule(g, g.rules[i.rule]) && g.rules[i.rule].rhs[i.dot] == states[s].shifts[k].0;
    }
    if states[s].items != [] {
      Links.ConfigAt(states, |states|, s, |states[s].items| - 1);
    } else {
      FirstBelow(states, s, |states|);
    }
  }

  lemma {:induction false} FirstBelow(states: seq<State>, s: nat, n: nat)
    requires s <= n <= |states|
    ensures Links.First(states, s) <= Links.First(states, n)
  {
    if s < n {
      FirstBelow(states, s, n - 1);
    }
  }

  /** In some state a shift ties before the last of the collected actions for its symbol. */
  ghost predicate TiedEarly(g: Grammar, p: Precedences, start: nat, states: seq<State>, follow: Pairs) {
    exists s: nat, was :: s < |states| && Collected(g, start, states, follow, s, was) && EarlyTie(p, was)
  }

  /** Every state's actions, conflicts resolved; `false` is a failed assertion. */
  method FindActions(g: Grammar, start: nat, states: seq<State>, fws: SetTable, p: Precedences)
    returns (ok: bool, lists: seq<seq<Action>>, ghost was: seq<seq<Action>>)
    requires ValidGrammar(g) && ValidStates(g, states) && ExactFrom(g, states, 0)
    requires start < g.nNonterminals && !Links.OnRight(g, start)
    requires fws.Valid() && fws.rows == |Links.Configs(states)| && fws.size == g.nTerminals
    ensures !ok ==> SomeTie(p) && TiedEarly(g, p, start, states, fws.pairs)
    ensures ok ==> |lists| == |was| == |states|
    ensures ok ==> forall s :: 0 <= s < |states| ==> Found(g, p, start, states, fws.pairs, s, was[s], lists[s])
  {
    hide ValidGrammar, ValidStates, ExactFrom, Links.OnRight, Links.Configs, Found, Collected, EarlyTie;
    lists, was := [], [];
    while |lists| < |states|
      invariant |lists| == |was| <= |states|
      invariant forall s :: 0 <= s < |lists| ==> Found(g, p, start, states, fws.pairs, s, was[s], lists[s])
      decreases |states| - |lists|
    {
      var collected := CollectActions(g, start, states, fws, |lists|);
      CollectedFacts(g, start, states, fws.pairs, |lists|, collected);
      var ap;
      ok, ap := ResolveConflicts(p, collected);
      if !ok {
        return;
      }
      FoundIs(g, p, start, states, fws.pairs, |lists|, collected, ap);
      was := was + [collected];
      lists := lists + [ap];
    }
    ok := true;
  }

  /** What is left of the collected actions. */
  ghost predicate Found(g: Grammar, p: Precedences, start: nat, states: seq<State>, follow: Pairs, s: nat,
                        was: seq<Action>, ap: seq<Action>)
    requires s < |states|
  {
    && Collected(g, start, states, follow, s, was) && OneButTies(ap) && ResolvedFrom(p, was, ap) && Answered(ap)
    && Decided(p, was, ap)
  }

  lemma CollectedFacts(g: Grammar, start: nat, states: seq<State>, follow: Pairs, s: nat, was: seq<Action>)
    requires s < |states| && Collected(g, start, states, follow, s, was)
    ensures BySymbol(was) && Unresolved(was) && AcceptAlone(was)
  {
    forall i | 0 <= i < |was| && was[i].kind.Accept?
      ensures !Shared(was, i)
    {
      assert was[i] in was && Wanted(g, start, states, follow, s, was[i]);
      if j :| 0 <= j < |was| && j != i && was[j].sp == was[i].sp {
        CountTwo(was, was[i].sp, if i < j then i else j, if i < j then j else i);
      }
    }
    forall i | 0 <= i < |was|
      ensures was[i].kind.Shift? || was[i].kind.Reduce? || was[i].kind.Accept?
    {
      assert was[i] in was;
      assert Wanted(g, start, states, follow, s, was[i]);
    }
  }

  lemma FoundIs(g: Grammar, p: Precedences, start: nat, states: seq<State>, follow: Pairs, s: nat, was: seq<Action>,
                ap: seq<Action>)
    requires s < |states| && Collected(g, start, states, follow, s, was)
             && OneButTies(ap) && ResolvedFrom(p, was, ap) && Answered(ap) && Decided(p, was, ap)
    ensures Found(g, p, start, states, follow, s, was, ap)
  {
  }

  // ----- what is left, in the terms of the passes that follow -----

  /** What an action of a state is for, when conflicts are resolved. */
  ghost predicate Founded(g: Grammar, start: nat, states: seq<State>, follow: Pairs, s: nat, e: Action)
    requires s < |states|
  {
    match e.kind
    case Shift(_) => Wanted(g, start, states, follow, s, e)
    case Reduce(_) => Wanted(g, start, states, follow, s, e)
    case Accept => Wanted(g, start, states, follow, s, e)
    case ShiftReduce(_) => false
    case _ => 0 <= e.sp < g.nTerminals
  }

  predicate HasGotos(g: Grammar, start: nat, states: seq<State>, s: nat, ap: seq<Action>)
    requires s < |states|
  {
    && (forall k :: 0 <= k < |states[s].shifts| && states[s].shifts[k].0.Nonterminal? ==>
          Own(ap, g.nTerminals + states[s].shifts[k].0.index) == Shift(states[s].shifts[k].1))
    && (s == 0 ==> Own(ap, g.nTerminals + start) == Accept)
  }

  lemma WantedRange(g: Grammar, start: nat, states: seq<State>, follow: Pairs, s: nat, e: Action)
    requires s < |states| && Wanted(g, start, states, follow, s, e)
    ensures e.sp >= 0 && (e.sp >= g.nTerminals ==> e.kind.Shift? || e.kind.Accept?)
    ensures e.kind.Shift? || e.kind.Reduce? || e.kind.Accept?
  {
  }

  lemma FoundFounded(g: Grammar, p: Precedences, start: nat, states: seq<State>, follow: Pairs, s: nat,
                     was: seq<Action>, ap: seq<Action>)
    requires s < |states| && Found(g, p, start, states, follow, s, was, ap)
    requires forall k :: 0 <= k < |states[s].shifts| ==> ValidSymbol(g, states[s].shifts[k].0)
    ensures forall i :: 0 <= i < |ap| ==> ap[i].sp >= 0 && Founded(g, start, states, follow, s, ap[i])
    ensures GotosOnly(ap, g.nTerminals)
  {
    hide BySymbol, OneButTies, Answered, Decided, CountOf, ShiftsTo, Reducible;
    forall i | 0 <= i < |ap|
      ensures ap[i].sp >= 0 && Founded(g, start, states, follow, s, ap[i])
      ensures ap[i].sp >= g.nTerminals ==> ap[i].kind.Shift? || ap[i].kind.Accept?
    {
      assert was[i] in was;
      WantedRange(g, start, states, follow, s, was[i]);
      if was[i].sp >= g.nTerminals && Shared(was, i) {
        var j :| 0 <= j < |was| && j != i && was[j].sp == was[i].sp;
        CountTwo(was, was[i].sp, if i < j then i else j, if i < j then j else i);
        assert false;
      }
    }
  }

  lemma FoundGotos(g: Grammar, p: Precedences, start: nat, states: seq<State>, follow: Pairs, s: nat,
                   was: seq<Action>, ap: seq<Action>)
    requires s < |states| && Found(g, p, start, states, follow, s, was, ap)
    ensures HasGotos(g, start, states, s, ap)
  {
    hide BySymbol, OneButTies, Answered, Decided, Reducible, CountOf, ResolvedFrom, Own;
    forall k | 0 <= k < |states[s].shifts| && states[s].shifts[k].0.Nonterminal?
      ensures Own(ap, g.nTerminals + states[s].shifts[k].0.index) == Shift(states[s].shifts[k].1)
    {
      var e := Action(g.nTerminals + states[s].shifts[k].0.index, Shift(states[s].shifts[k].1));
      assert Reads(g, states[s].shifts[k].0, e.sp);
      assert Wanted(g, start, states, follow, s, e);
      AloneKept(p, was, ap, e);
    }
    if s == 0 {
      var e := Action(g.nTerminals + start, Accept);
      assert Wanted(g, start, states, follow, s, e);
      AloneKept(p, was, ap, e);
    }
  }

  // ----- what the precedences decide -----

  /** Two actions have a symbol to themselves. */
  predicate Pair(was: seq<Action>, i: nat, j: nat) {
    && i < |was| && j < |was| && i != j && was[i].sp == was[j].sp
    && forall k :: 0 <= k < |was| && was[k].sp == was[i].sp ==> k == i || k == j
  }

  /** In an ordered list they are neighbours. */
  lemma PairNeighbours(was: seq<Action>, i: nat, j: nat)
    requires BySymbol(was) && Pair(was, i, j) && i < j
    ensures j == i + 1 && (i > 0 ==> was[i - 1].sp != was[i].sp) && (j + 1 < |was| ==> was[j + 1].sp != was[j].sp)
  {
    SymbolOrder(was, i, i + 1);
    SymbolOrder(was, i + 1, j);
  }

  lemma SymbolOrder(was: seq<Action>, i: nat, j: nat)
    requires BySymbol(was) && i <= j < |was|
    ensures was[i].sp <= was[j].sp
  {
    assert i < j ==> NotAfter(was[i], was[j]);
  }

  lemma FateAt(p: Precedences, was: seq<Action>, ap: seq<Action>, k: nat)
    requires Decided(p, was, ap) && k < |was|
    ensures |ap| == |was| && ap[k] == was[k].(kind := Fate(p, was, k))
  {
  }

  lemma FirstHolder(p: Precedences, was: seq<Action>, k: nat)
    requires k < |was| && (k > 0 ==> was[k - 1].sp != was[k].sp)
    ensures Holder(p, was, k) == k
  {
  }

  lemma PairFate(p: Precedences, was: seq<Action>, ap: seq<Action>, i: nat, j: nat)
    requires BySymbol(was) && Unresolved(was) && Pair(was, i, j) && i < j && Decided(p, was, ap) && |ap| == |was|
    ensures ap[i] == (if !Yields(p, was[i].sp, was[i].kind, was[j].kind) then was[i]
                      else if was[i].kind.Shift? && was[j].kind.Reduce? && Ties(p, was[j].sp, was[j].kind.rule)
                      then was[i].(kind := Error) else was[i].(kind := Inactive))
    ensures ap[j] == if !Yields(p, was[i].sp, was[i].kind, was[j].kind) then was[j].(kind := Inactive) else was[j]
  {
    hide Holder, TieAt, Decided, LastFor, Yields, Ties, BySymbol, Unresolved;
    PairNeighbours(was, i, j);
    hide Pair;
    LastIs(was, i, j);
    LastIs(was, j, j);
    FirstHolder(p, was, i);
    NextHolder(p, was, j);
    FateAt(p, was, ap, i);
    FateAt(p, was, ap, j);
  }

  lemma FoundFacts(g: Grammar, p: Precedences, start: nat, states: seq<State>, follow: Pairs, s: nat,
                   was: seq<Action>, ap: seq<Action>)
    requires s < |states| && Found(g, p, start, states, follow, s, was, ap)
    ensures BySymbol(was) && Unresolved(was) && AcceptAlone(was) && Decided(p, was, ap) && |ap| == |was|
  {
    CollectedFacts(g, start, states, follow, s, was);
  }

  lemma RankOrder(was: seq<Action>, i: nat, j: nat)
    requires BySymbol(was) && i < |was| && j < |was| && i != j && was[i].sp == was[j].sp
    ensures was[i].kind.Shift? && was[j].kind.Reduce? ==> i < j
    ensures was[i].kind.Reduce? && was[j].kind.Reduce? && was[i].kind.rule < was[j].kind.rule ==> i < j
  {
    assert i > j ==> NotAfter(was[j], was[i]);
  }

  /**
    A shift and a reduce for one token. The shift stays exactly when a level is missing, the
    token's level is higher, or the levels are equal and the token is right associative; the
    reduce exactly when the token's level is lower, or the levels are equal and the token is
    left associative. Equal levels without associativity make the shift an error.
   */
  lemma ShiftOrReduce(g: Grammar, p: Precedences, start: nat, states: seq<State>, follow: Pairs, s: nat,
                      was: seq<Action>, ap: seq<Action>, i: nat, j: nat)
    requires s < |states| && Found(g, p, start, states, follow, s, was, ap)
    requires Pair(was, i, j) && was[i].kind.Shift? && was[j].kind.Reduce?
    ensures |ap| == |was|
    ensures var token, rule := Level(p, was[i].sp), RuleLevel(p, was[j].kind.rule);
            var assoc := AssocOf(p, was[i].sp);
            && (ap[i] == was[i] && ap[j].kind == Inactive <==>
                  token < 0 || rule < 0 || token > rule || (token == rule && assoc == RightAssoc))
            && (ap[j] == was[j] && ap[i].kind == Inactive <==>
                  token >= 0 && rule >= 0 && (token < rule || (token == rule && assoc == LeftAssoc)))
            && (ap[j] == was[j] && ap[i].kind == Error <==> token == rule >= 0 && assoc == NoAssoc)
  {
    hide Found, BySymbol, Unresolved, AcceptAlone, Decided;
    FoundFacts(g, p, start, states, follow, s, was, ap);
    RankOrder(was, i, j);
    PairFate(p, was, ap, i, j);
  }

  /**
    Two reduces for one token: the rule with the higher level stays, and without two
    different levels the one with the smaller number.
   */
  lemma ReduceOrReduce(g: Grammar, p: Precedences, start: nat, states: seq<State>, follow: Pairs, s: nat,
                       was: seq<Action>, ap: seq<Action>, i: nat, j: nat)
    requires s < |states| && Found(g, p, start, states, follow, s, was, ap)
    requires Pair(was, i, j) && was[i].kind.Reduce? && was[j].kind.Reduce? && was[i].kind.rule != was[j].kind.rule
    ensures |ap| == |was|
    ensures var a, b := RuleLevel(p, was[i].kind.rule), RuleLevel(p, was[j].kind.rule);
            var told := a >= 0 && b >= 0 && a != b;
            && (ap[i] == was[i] && ap[j].kind == Inactive <==>
                  if told then a > b else was[i].kind.rule < was[j].kind.rule)
            && (ap[j] == was[j] && ap[i].kind == Inactive <==>
                  if told then b > a else was[j].kind.rule < was[i].kind.rule)
  {
    hide Found, BySymbol, Unresolved, AcceptAlone, Decided;
    FoundFacts(g, p, start, states, follow, s, was, ap);
    RankOrder(was, i, j);
    RankOrder(was, j, i);
    if i < j {
      PairFate(p, was, ap, i, j);
    } else {
      PairFate(p, was, ap, j, i);
    }
  }

  /** With more of them, the action that is left gives way to none that comes after it. */
  lemma {:induction false} HolderStays(p: Precedences, was: seq<Action>, k: nat, j: nat)
    requires k < |was| && Holder(p, was, k) < j <= k
    ensures was[j].sp == was[k].sp && !Yields(p, was[k].sp, was[Holder(p, was, k)].kind, was[j].kind)
  {
    if j < k {
      HolderStays(p, was, k - 1, j);
    }
  }

  /** Without ties there is one active action for each lookahead. */
  lemma UntiedFound(g: Grammar, p: Precedences, start: nat, states: seq<State>, follow: Pairs, s: nat,
                    was: seq<Action>, ap: seq<Action>)
    requires s < |states| && Found(g, p, start, states, follow, s, was, ap)
    requires forall sp: int, rule: nat :: !Ties(p, sp, rule)
    ensures OnePerLookahead(ap)
  {
    hide Ties, Collected, Decided;
  }
}
