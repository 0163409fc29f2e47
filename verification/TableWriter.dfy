/**
  The last steps of the generator: states are numbered so that those with most to do come
  first, their actions are packed into one table, and the table is written out with the
  offsets of each state.
 */
module TableWriter {
  import opened Options
  import opened Grammars
  import opened LrDriver
  import opened Lr0
  import opened CompressTables
  import opened GeneratedTables
  import Packing = ActTab

  // ----- sorting by three keys, the greatest first -----

  type Keys = seq<(int, int, int)>

  predicate More(keys: Keys, a: nat, b: nat)
    requires a < |keys| && b < |keys|
  {
    var x, y := keys[a], keys[b];
    x.0 > y.0 || (x.0 == y.0 && (x.1 > y.1 || (x.1 == y.1 && x.2 > y.2)))
  }

  predicate Ordered(keys: Keys, ids: seq<nat>) {
    && (forall i :: 0 <= i < |ids| ==> ids[i] < |keys|)
    && forall i, j :: 0 <= i < j < |ids| ==> More(keys, ids[i], ids[j])
  }

  function InsertId(keys: Keys, ids: seq<nat>, x: nat): (r: seq<nat>)
    requires x < |keys| && forall i :: 0 <= i < |ids| ==> ids[i] < |keys|
    ensures |r| == |ids| + 1 && forall y :: y in r <==> y in ids || y == x
  {
    if ids == [] || More(keys, x, ids[0]) then [x] + ids
    else
      assert forall y :: y in ids <==> y == ids[0] || y in ids[1..];
      [ids[0]] + InsertId(keys, ids[1..], x)
  }

  /** No two of the numbers below `n` have the same keys. */
  predicate Distinct(keys: Keys, from: nat, n: nat)
    requires n <= |keys|
  {
    forall a, b :: from <= a < b < n ==> keys[a] != keys[b]
  }

  lemma MoreFacts(keys: Keys, a: nat, b: nat)
    requires a < |keys| && b < |keys|
    ensures keys[a] != keys[b] ==> More(keys, a, b) || More(keys, b, a)
    ensures forall c: nat :: c < |keys| && More(keys, a, b) && More(keys, b, c) ==> More(keys, a, c)
  {
  }

  lemma {:induction false} InsertOrdered(keys: Keys, ids: seq<nat>, x: nat)
    requires x < |keys| && Ordered(keys, ids) && forall i :: 0 <= i < |ids| ==> keys[ids[i]] != keys[x]
    ensures Ordered(keys, InsertId(keys, ids, x))
  {
    if ids != [] {
      MoreFacts(keys, x, ids[0]);
      MoreFacts(keys, ids[0], x);
      hide More;
      if !More(keys, x, ids[0]) {
        InsertOrdered(keys, ids[1..], x);
        var rest := InsertId(keys, ids[1..], x);
        forall j | 0 <= j < |rest|
          ensures rest[j] < |keys| && More(keys, ids[0], rest[j])
        {
          assert rest[j] in rest;
          if rest[j] != x {
            assert rest[j] in ids[1..];
          }
        }
        hide InsertId;
      }
    }
  }

  /** The numbers from `from` up to `n`, sorted (qsort in C). */
  function SortedIds(keys: Keys, from: nat, n: nat): (ids: seq<nat>)
    requires from <= n <= |keys|
    ensures |ids| == n - from && forall y :: y in ids <==> from <= y < n
  {
    if n == from then []
    else
      var ids := SortedIds(keys, from, n - 1);
      assert forall i :: 0 <= i < |ids| ==> ids[i] in ids;
      InsertId(keys, ids, n - 1)
  }

  lemma {:induction false} SortedOrdered(keys: Keys, from: nat, n: nat)
    requires from <= n <= |keys| && Distinct(keys, from, n)
    ensures Ordered(keys, SortedIds(keys, from, n))
  {
    if n > from {
      SortedOrdered(keys, from, n - 1);
      var ids := SortedIds(keys, from, n - 1);
      forall i | 0 <= i < |ids|
        ensures keys[ids[i]] != keys[n - 1]
      {
        assert ids[i] in ids;
      }
      InsertOrdered(keys, ids, n - 1);
    }
  }

  // ----- numbering the states -----

  /** Active actions for tokens, or for nonterminals; the default is neither. */
  predicate Counted(a: Action, nTerminals: nat, terminal: bool) {
    !a.kind.Inactive? && if terminal then 0 <= a.sp < nTerminals else a.sp >= nTerminals
  }

  function ActionCount(ap: seq<Action>, nTerminals: nat, terminal: bool): nat {
    if ap == [] then 0
    else ActionCount(ap[..|ap| - 1], nTerminals, terminal)
         + if Counted(ap[|ap| - 1], nTerminals, terminal) then 1 else 0
  }

  /** States with more gotos first, then with more token actions, then the later ones. */
  function StateKeys(lists: seq<seq<Action>>, nTerminals: nat): (keys: Keys)
    ensures |keys| == |lists|
  {
    seq(|lists|, s requires 0 <= s < |lists| =>
      (ActionCount(lists[s], nTerminals, false), ActionCount(lists[s], nTerminals, true), s))
  }

  /** The state has more gotos, or as many and more token actions, or as many of both and was made later. */
  predicate BusierThan(lists: seq<seq<Action>>, nTerminals: nat, a: nat, b: nat)
    requires a < |lists| && b < |lists|
  {
    var gotos, tokens := |Entered(lists[a], nTerminals, false)| - |Entered(lists[b], nTerminals, false)|,
                         |Entered(lists[a], nTerminals, true)| - |Entered(lists[b], nTerminals, true)|;
    gotos > 0 || (gotos == 0 && (tokens > 0 || (tokens == 0 && a > b)))
  }

  /** The active actions for tokens, or for nonterminals. */
  function Entered(ap: seq<Action>, nTerminals: nat, terminal: bool): set<nat> {
    set i | 0 <= i < |ap| && Counted(ap[i], nTerminals, terminal)
  }

  lemma {:induction false} EnteredCounted(ap: seq<Action>, nTerminals: nat, terminal: bool)
    ensures |Entered(ap, nTerminals, terminal)| == ActionCount(ap, nTerminals, terminal)
  {
    if ap != [] {
      var n := |ap| - 1;
      EnteredCounted(ap[..n], nTerminals, terminal);
      assert Entered(ap, nTerminals, terminal)
             == Entered(ap[..n], nTerminals, terminal) + if Counted(ap[n], nTerminals, terminal) then {n} else {};
    }
  }

  lemma OrderedIsBusier(lists: seq<seq<Action>>, nTerminals: nat, ids: seq<nat>)
    requires Ordered(StateKeys(lists, nTerminals), ids)
    ensures forall i :: 0 <= i < |ids| ==> ids[i] < |lists|
    ensures forall i, j :: 0 <= i < j < |ids| ==> BusierThan(lists, nTerminals, ids[i], ids[j])
  {
    forall i, j | 0 <= i < j < |ids|
      ensures ids[i] < |lists| && ids[j] < |lists| && BusierThan(lists, nTerminals, ids[i], ids[j])
    {
      assert More(StateKeys(lists, nTerminals), ids[i], ids[j]);
      EnteredCounted(lists[ids[i]], nTerminals, true);
      EnteredCounted(lists[ids[i]], nTerminals, false);
      EnteredCounted(lists[ids[j]], nTerminals, true);
      EnteredCounted(lists[ids[j]], nTerminals, false);
    }
  }

  /** All states but the first are sorted; those at the end that are left at once get no rows. */
  method ResortStates(lists: seq<seq<Action>>, nTerminals: nat, autoReduce: seq<bool>)
    returns (sorted: seq<nat>, number: seq<nat>, rows: nat)
    requires |lists| == |autoReduce| > 0
    ensures |sorted| == |number| == |lists| && sorted[0] == 0
    ensures forall k :: 0 <= k < |sorted| ==> sorted[k] < |number| && number[sorted[k]] == k
    ensures forall s :: 0 <= s < |number| ==> number[s] < |sorted| && sorted[number[s]] == s
    ensures forall i, j :: 0 < i < j < |sorted| ==>
              sorted[i] < |lists| && sorted[j] < |lists| && BusierThan(lists, nTerminals, sorted[i], sorted[j])
    ensures 0 < rows <= |lists| && forall k :: rows <= k < |sorted| ==> autoReduce[sorted[k]]
    ensures rows > 1 ==> !autoReduce[sorted[rows - 1]]
  {
    var keys, n := StateKeys(lists, nTerminals), |lists|;
    KeysApart(lists, nTerminals);
    SortedOrdered(keys, 1, n);
    OrderedIsBusier(lists, nTerminals, SortedIds(keys, 1, n));
    hide StateKeys, Distinct, Ordered, More, BusierThan;
    var rest := SortedIds(keys, 1, n);
    sorted := [0] + rest;
    FirstThenRest(sorted, rest, n);
    number := NumberStates(keys, sorted);
    rows := CountRows(sorted, autoReduce);
  }

  method CountRows(sorted: seq<nat>, autoReduce: seq<bool>) returns (rows: nat)
    requires |sorted| == |autoReduce| > 0 && forall k :: 0 <= k < |sorted| ==> sorted[k] < |autoReduce|
    ensures 0 < rows <= |sorted| && forall k :: rows <= k < |sorted| ==> autoReduce[sorted[k]]
    ensures rows > 1 ==> !autoReduce[sorted[rows - 1]]
  {
    rows := |sorted|;
    while rows > 1 && autoReduce[sorted[rows - 1]]
      invariant 0 < rows <= |sorted|
      invariant forall k :: rows <= k < |sorted| ==> autoReduce[sorted[k]]
    {
      rows := rows - 1;
    }
  }

  lemma KeysApart(lists: seq<seq<Action>>, nTerminals: nat)
    ensures forall from: nat :: from <= |lists| ==> Distinct(StateKeys(lists, nTerminals), from, |lists|)
  {
  }

  lemma FirstThenRest(sorted: seq<nat>, rest: seq<nat>, n: nat)
    requires sorted == [0] + rest && |rest| + 1 == n && forall y :: y in rest <==> 1 <= y < n
    ensures sorted[1..] == rest && forall k :: 0 <= k < n ==> sorted[k] < n
    ensures forall k :: 0 < k < n ==> sorted[k] != 0
    ensures forall s :: 0 <= s < n ==> s in sorted
  {
    forall k | 0 < k < n
      ensures sorted[k] != 0 && sorted[k] < n
    {
      assert sorted[k] == rest[k - 1] && rest[k - 1] in rest;
    }
  }

  method NumberStates(keys: Keys, sorted: seq<nat>) returns (number: seq<nat>)
    requires |sorted| == |keys| > 0 && sorted[0] == 0 && Ordered(keys, sorted[1..])
    requires (forall k :: 0 <= k < |sorted| ==> sorted[k] < |keys|) && forall k :: 0 < k < |sorted| ==> sorted[k] != 0
    requires forall s :: 0 <= s < |sorted| ==> s in sorted
    ensures |number| == |sorted|
    ensures forall k :: 0 <= k < |sorted| ==> number[sorted[k]] == k
    ensures forall s :: 0 <= s < |number| ==> number[s] < |sorted| && sorted[number[s]] == s
  {
    AllDifferent(keys, sorted);
    number := seq(|sorted|, _ => 0);
    var k := 0;
    while k < |sorted|
      invariant 0 <= k <= |sorted| == |number|
      invariant forall j :: 0 <= j < k ==> number[sorted[j]] == j
    {
      number := number[sorted[k] := k];
      k := k + 1;
    }
    forall s | 0 <= s < |number|
      ensures number[s] < |sorted| && sorted[number[s]] == s
    {
      assert s in sorted;
      var j :| 0 <= j < |sorted| && sorted[j] == s;
    }
  }

  lemma AllDifferent(keys: Keys, sorted: seq<nat>)
    requires |sorted| == |keys| > 0 && sorted[0] == 0 && Ordered(keys, sorted[1..])
    requires (forall k :: 0 <= k < |sorted| ==> sorted[k] < |keys|) && forall k :: 0 < k < |sorted| ==> sorted[k] != 0
    ensures forall j, k :: 0 <= j < k < |sorted| ==> sorted[j] != sorted[k]
  {
    forall j, k | 0 <= j < k < |sorted|
      ensures sorted[j] != sorted[k]
    {
      if j > 0 {
        assert More(keys, sorted[1..][j - 1], sorted[1..][k - 1]);
      }
    }
  }

  // ----- the round of a state's tokens, or of its gotos -----

  /** What is counted, with its number, in the order of the list. */
  function Entries(number: seq<nat>, t: Tables, ap: seq<Action>, nTerminals: nat,
                   terminal: bool): (r: seq<Packing.Slot>)
    ensures |r| == ActionCount(ap, nTerminals, terminal)
  {
    if ap == [] then []
    else
      var a := ap[|ap| - 1];
      Entries(number, t, ap[..|ap| - 1], nTerminals, terminal)
      + if Counted(a, nTerminals, terminal) then [Packing.Slot(a.sp, Code(number, t, a.kind, terminal))] else []
  }

  lemma {:induction false} EntriesAre(number: seq<nat>, t: Tables, ap: seq<Action>, nTerminals: nat, terminal: bool)
    ensures forall e :: e in Entries(number, t, ap, nTerminals, terminal) <==>
              exists i :: 0 <= i < |ap| && EntryOf(number, t, ap[i], nTerminals, terminal, e)
  {
    if ap != [] {
      var before, a := ap[..|ap| - 1], ap[|ap| - 1];
      EntriesAre(number, t, before, nTerminals, terminal);
      forall e
        ensures e in Entries(number, t, ap, nTerminals, terminal) <==>
                  exists i :: 0 <= i < |ap| && EntryOf(number, t, ap[i], nTerminals, terminal, e)
      {
        assert e in Entries(number, t, ap, nTerminals, terminal) <==>
               e in Entries(number, t, before, nTerminals, terminal) || EntryOf(number, t, a, nTerminals, terminal, e);
        if i :| 0 <= i < |before| && EntryOf(number, t, before[i], nTerminals, terminal, e) {
          assert EntryOf(number, t, ap[i], nTerminals, terminal, e);
        }
        if i :| 0 <= i < |ap| && EntryOf(number, t, ap[i], nTerminals, terminal, e) {
          assert i < |before| ==> EntryOf(number, t, before[i], nTerminals, terminal, e);
        }
      }
    }
  }

  predicate EntryOf(number: seq<nat>, t: Tables, a: Action, nTerminals: nat, terminal: bool, e: Packing.Slot) {
    Counted(a, nTerminals, terminal) && e == Packing.Slot(a.sp, Code(number, t, a.kind, terminal))
  }

  /** Symbols and numbers that the tables have room for, each symbol once. */
  predicate Packable(number: seq<nat>, ap: seq<Action>, nsymbol: nat) {
    && OnePerLookahead(ap)
    && forall i :: 0 <= i < |ap| && !ap[i].kind.Inactive? ==>
         ap[i].sp < nsymbol && (ap[i].kind.Shift? ==> ap[i].kind.target < |number|)
  }

  lemma {:induction false} EntriesDistinct(number: seq<nat>, t: Tables, ap: seq<Action>, nTerminals: nat,
                                           terminal: bool)
    requires OnePerLookahead(ap)
    ensures Packing.DistinctLookaheads(Entries(number, t, ap, nTerminals, terminal))
  {
    if ap != [] {
      var before, a := ap[..|ap| - 1], ap[|ap| - 1];
      EntriesDistinct(number, t, before, nTerminals, terminal);
      EntriesAre(number, t, before, nTerminals, terminal);
      var entries := Entries(number, t, before, nTerminals, terminal);
      forall e | e in entries && !a.kind.Inactive?
        ensures e.lookahead != a.sp
      {
        var i :| 0 <= i < |before| && EntryOf(number, t, before[i], nTerminals, terminal, e);
        assert ap[i] == before[i];
      }
    }
  }

  lemma EntriesActions(number: seq<nat>, t: Tables, ap: seq<Action>, nTerminals: nat, terminal: bool, nsymbol: nat)
    requires Packable(number, ap, nsymbol)
    ensures forall e :: e in Entries(number, t, ap, nTerminals, terminal) ==> e.lookahead >= 0 && e.action >= 0
  {
    EntriesAre(number, t, ap, nTerminals, terminal);
    hide Entries, OnePerLookahead;
  }

  /** The round of a list is what the driver is to find. */
  lemma EntriesCollected(b: Built, t: Tables, ap: seq<Action>, terminal: bool)
    requires Packable(b.number, ap, b.g.nTerminals + b.g.nNonterminals)
    ensures Collected(b, t, ap, terminal, Entries(b.number, t, ap, b.g.nTerminals, terminal))
  {
    var entries := Entries(b.number, t, ap, b.g.nTerminals, terminal);
    EntriesAre(b.number, t, ap, b.g.nTerminals, terminal);
    EntriesDistinct(b.number, t, ap, b.g.nTerminals, terminal);
    EntriesActions(b.number, t, ap, b.g.nTerminals, terminal, b.g.nTerminals + b.g.nNonterminals);
    hide Entries, Packing.DistinctLookaheads, OnePerLookahead, Own, Code;
    forall x: nat, a: int
      ensures Packing.Slot(x, a) in entries <==>
                Among(b, x, terminal) && !Own(ap, x).Inactive? && a == Code(b.number, t, Own(ap, x), terminal)
    {
      if Packing.Slot(x, a) in entries {
        var i :| 0 <= i < |ap| && EntryOf(b.number, t, ap[i], b.g.nTerminals, terminal, Packing.Slot(x, a));
        OwnAt(ap, i);
      }
      if Among(b, x, terminal) && !Own(ap, x).Inactive? && a == Code(b.number, t, Own(ap, x), terminal) {
        var i := OwnFound(ap, x);
        assert EntryOf(b.number, t, ap[i], b.g.nTerminals, terminal, Packing.Slot(x, a));
      }
    }
  }

  /** A round is collected action by action and inserted. */
  method InsertRound(acttab: Packing.ActTab, number: seq<nat>, t: Tables, ap: seq<Action>, nTerminals: nat,
                     terminal: bool)
    returns (offset: Option<int>, placed: bool)
    requires acttab.Valid() && acttab.aLookahead == [] && Packable(number, ap, acttab.nsymbol)
    requires ActionCount(ap, nTerminals, terminal) > 0
    modifies acttab, acttab.aAction
    ensures acttab.aAction == old(acttab.aAction) || fresh(acttab.aAction)
    ensures var entries := Entries(number, t, ap, nTerminals, terminal);
            offset.Some? ==>
              && acttab.Valid() && acttab.aLookahead == []
              && Packing.Inserts(old(acttab.Contents()), entries, terminal, acttab.Contents(),
                                 offset.value + Packing.Least(entries))
              && (terminal ==> offset.value >= 0)
    ensures placed <==>
            Packing.FindsPlace(old(acttab.Contents()), Entries(number, t, ap, nTerminals, terminal), terminal)
    ensures Packing.ValidEntries(old(acttab.Contents()), Entries(number, t, ap, nTerminals, terminal))
    ensures offset.None? ==> !placed
  {
    hide Packing.Inserts, Packing.FindsPlace, Packing.Least, Packing.ActTab.Valid, Packable;
    CollectRound(acttab, number, t, ap, nTerminals, terminal);
    RoundValid(acttab, acttab.aLookahead);
    ValidNow(acttab);
    offset, placed := acttab.Insert(terminal);
  }

  lemma RoundValid(acttab: Packing.ActTab, entries: seq<Packing.Slot>)
    requires acttab.Valid() && acttab.aLookahead == entries != []
    ensures Packing.ValidEntries(acttab.Contents(), entries)
  {
  }

  method CollectRound(acttab: Packing.ActTab, number: seq<nat>, t: Tables, ap: seq<Action>, nTerminals: nat,
                      terminal: bool)
    requires acttab.Valid() && acttab.aLookahead == [] && Packable(number, ap, acttab.nsymbol)
    modifies acttab`aLookahead, acttab`mnLookahead, acttab`mnAction, acttab`mxLookahead
    ensures acttab.Valid() && acttab.aLookahead == Entries(number, t, ap, nTerminals, terminal)
  {
    hide Packing.ActTab.Valid, OnePerLookahead;
    var i := 0;
    while i < |ap|
      invariant 0 <= i <= |ap| && acttab.Valid()
      invariant acttab.aLookahead == Entries(number, t, ap[..i], nTerminals, terminal)
    {
      assert ap[..i + 1][..i] == ap[..i] && ap[..i + 1][i] == ap[i];
      if Counted(ap[i], nTerminals, terminal) {
        EntryNew(number, t, ap, i, nTerminals, terminal);
        acttab.Action(ap[i].sp, Code(number, t, ap[i].kind, terminal));
      }
      i := i + 1;
    }
    assert ap[..i] == ap;
  }

  lemma EntryNew(number: seq<nat>, t: Tables, ap: seq<Action>, i: nat, nTerminals: nat, terminal: bool)
    requires i < |ap| && OnePerLookahead(ap) && Counted(ap[i], nTerminals, terminal)
    ensures forall e :: e in Entries(number, t, ap[..i], nTerminals, terminal) ==> e.lookahead != ap[i].sp
  {
    EntriesAre(number, t, ap[..i], nTerminals, terminal);
    forall e | e in Entries(number, t, ap[..i], nTerminals, terminal)
      ensures e.lookahead != ap[i].sp
    {
      var j :| 0 <= j < |ap[..i]| && EntryOf(number, t, ap[..i][j], nTerminals, terminal, e);
      assert ap[..i][j] == ap[j];
    }
  }

  // ----- all rounds -----

  /** The rows' lists; row `k` has round `2 * k` for its tokens and the next one for its gotos. */
  datatype RowLists = RowLists(lists: seq<seq<Action>>, number: seq<nat>, t: Tables, nTerminals: nat, nsymbol: nat)
  {
    function Terminal(id: nat): bool { id % 2 == 0 }

    function List(id: nat): seq<Action>
      requires id < 2 * |lists|
    {
      lists[id / 2]
    }

    function Count(id: nat): nat
      requires id < 2 * |lists|
    {
      ActionCount(List(id), nTerminals, Terminal(id))
    }

    function RoundEntries(id: nat): (entries: seq<Packing.Slot>)
      requires id < 2 * |lists|
      ensures |entries| == Count(id)
    {
      Entries(number, t, List(id), nTerminals, Terminal(id))
    }

    /** Long rounds first, then in the order of their numbers. */
    function Keys(): (keys: Keys)
      ensures |keys| == 2 * |lists|
    {
      seq(2 * |lists|, id requires 0 <= id < 2 * |lists| => (Count(id), -id, 0))
    }
  }

  /** Room enough for the round, whatever the table. */
  function CostOf(r: RowLists, id: nat): nat
    requires id < 2 * |r.lists|
  {
    if r.Count(id) == 0 then 0 else Packing.Cost(r.RoundEntries(id), r.Terminal(id), r.nTerminals)
  }

  /** What the rounds in `ids` below `n` can use of the table. */
  function SpentOn(r: RowLists, ids: set<nat>, n: nat): nat
    requires n <= 2 * |r.lists|
  {
    if n == 0 then 0 else SpentOn(r, ids, n - 1) + if n - 1 in ids then CostOf(r, n - 1) else 0
  }

  predicate Others(id: nat, j: nat) {
    j != id
  }

  function AllBut(r: RowLists, id: nat): set<nat> {
    set j | 0 <= j < 2 * |r.lists| && Others(id, j)
  }

  /** The round is small for what the others can use. */
  predicate RoundSmall(r: RowLists, id: nat)
    requires id < 2 * |r.lists|
  {
    r.Count(id) > 0 ==>
      Packing.Small(r.RoundEntries(id), r.Terminal(id), r.nsymbol, r.nTerminals,
                    SpentOn(r, AllBut(r, id), 2 * |r.lists|))
  }

  predicate AllSmall(r: RowLists) {
    forall id :: 0 <= id < 2 * |r.lists| ==> RoundSmall(r, id)
  }

  predicate RowsPackable(r: RowLists) {
    r.nTerminals <= r.nsymbol && forall k :: 0 <= k < |r.lists| ==> Packable(r.number, r.lists[k], r.nsymbol)
  }

  /** The round was inserted as number `j` and has this offset. */
  ghost predicate InsertedAs(r: RowLists, id: nat, rounds: seq<Packing.Insertion>, j: nat, offset: Option<int>)
    requires id < 2 * |r.lists| && j < |rounds|
  {
    && rounds[j].entries == r.RoundEntries(id) != [] && rounds[j].makeItSafe == r.Terminal(id)
    && offset == Some(rounds[j].i - Packing.Least(rounds[j].entries)) && (r.Terminal(id) ==> offset.value >= 0)
  }

  ghost predicate AllInserted(r: RowLists, rounds: seq<Packing.Insertion>, offsets: seq<Option<int>>)
    requires |offsets| == 2 * |r.lists|
  {
    forall id :: 0 <= id < |offsets| ==>
      if r.Count(id) == 0 then offsets[id] == None
      else exists j :: 0 <= j < |rounds| && InsertedAs(r, id, rounds, j, offsets[id])
  }

  /** One round more in a run. */
  method PackRound(acttab: Packing.ActTab, r: RowLists, id: nat, ghost tables: seq<Packing.Table>,
                   ghost rounds: seq<Packing.Insertion>)
    returns (offset: Option<int>, placed: bool, ghost round: Packing.Insertion)
    requires acttab.Valid() && acttab.aLookahead == [] && RowsPackable(r)
    requires acttab.nsymbol == r.nsymbol && acttab.nterminal == r.nTerminals
    requires id < 2 * |r.lists| && r.Count(id) > 0
    requires Packing.Runs(tables, rounds) && tables[|rounds|] == acttab.Contents()
    modifies acttab, acttab.aAction
    ensures acttab.aAction == old(acttab.aAction) || fresh(acttab.aAction)
    ensures offset.Some? ==>
              && acttab.Valid() && acttab.aLookahead == [] && (r.Terminal(id) ==> offset.value >= 0)
              && round == Packing.Insertion(r.RoundEntries(id), r.Terminal(id),
                                            offset.value + Packing.Least(r.RoundEntries(id)))
              && Packing.Runs(tables + [acttab.Contents()], rounds + [round])
    ensures Packing.ValidEntries(tables[|rounds|], r.RoundEntries(id))
    ensures placed <==> Packing.FindsPlace(tables[|rounds|], r.RoundEntries(id), r.Terminal(id))
    ensures offset.None? ==> !placed
  {
    hide Packing.Runs, Packing.Least, Packing.Inserts, Packing.FindsPlace, Packing.ValidEntries, Packing.ActTab.Valid,
         Packable, Entries, ActionCount;
    ValidNow(acttab);
    round := Packing.Insertion([], false, 0);
    offset, placed := InsertRound(acttab, r.number, r.t, r.List(id), r.nTerminals, r.Terminal(id));
    if offset.Some? {
      round := Packing.Insertion(r.RoundEntries(id), r.Terminal(id),
                                 offset.value + Packing.Least(r.RoundEntries(id)));
      RunsOn(tables, rounds, acttab.Contents(), round);
    }
  }

  /** Long rounds first; empty ones come last and are not inserted. */
  method PackRounds(r: RowLists) returns (acttab: Packing.ActTab, offsets: Option<seq<Option<int>>>, placed: bool,
                                      ghost tables: seq<Packing.Table>, ghost rounds: seq<Packing.Insertion>)
    requires RowsPackable(r)
    ensures fresh(acttab) && fresh(acttab.aAction)
    ensures offsets.Some? ==>
              && acttab.Valid() && acttab.nsymbol == r.nsymbol && |offsets.value| == 2 * |r.lists|
              && Packing.Runs(tables, rounds) && tables[|rounds|] == acttab.Contents()
              && AllInserted(r, rounds, offsets.value)
              && tables[0] == Packing.Table(r.nsymbol, r.nTerminals, [], 0)
              && (placed <==> AllPlaced(tables, rounds))
              && (AllSmall(r) ==> Packing.AreSmall(rounds, |rounds|, r.nsymbol, r.nTerminals))
    ensures AllSmall(r) ==> offsets.Some?
  {
    assert r.nTerminals <= r.nsymbol;
    hide Packing.Runs, Packing.ActTab.Valid, Packing.FindsPlace, OrderRight, SoFar, AllInserted, AllPlaced,
         RowsPackable,
         RoundSmall;
    acttab := new Packing.ActTab(r.nsymbol, r.nTerminals);
    var order := OrderRounds(r);
    var found: seq<Option<int>> := seq(2 * |r.lists|, _ => None);
    tables, rounds := [acttab.Contents()], [];
    StartsRun(tables, rounds);
    NothingYet(r, order, found);
    placed := true;
    NothingPlaced(tables, rounds);
    var i := 0;
    OrderBounds(r, order);
    while i < |order| && r.Count(order[i]) > 0
      invariant 0 <= i <= |order| && fresh(acttab) && fresh(acttab.aAction) && acttab.Valid() && acttab.aLookahead == []
      invariant acttab.nsymbol == r.nsymbol && acttab.nterminal == r.nTerminals && |found| == |order|
      invariant |rounds| == i && |tables| == i + 1 && tables[0] == Packing.Table(r.nsymbol, r.nTerminals, [], 0)
      invariant Packing.Runs(tables, rounds) && tables[i] == acttab.Contents()
      invariant SoFar(r, order, rounds, found) && (placed <==> AllPlaced(tables, rounds))
    {
      var offset, here; ghost var round;
      ValidNow(acttab);
      offset, here, round := PackRound(acttab, r, order[i], tables, rounds);
      if offset.None? {
        if AllSmall(r) {
          SmallNext(r, order, tables, rounds, found);
        }
        return acttab, None, placed, tables, rounds;
      }
      InsertedNext(r, order, rounds, round, found, offset);
      PlacedNext(tables, rounds, acttab.Contents(), round);
      placed := placed && here;
      tables, rounds := tables + [acttab.Contents()], rounds + [round];
      found := found[order[i] := offset];
      i := i + 1;
    }
    InsertedAll(r, order, rounds, found);
    if AllSmall(r) {
      SmallSoFar(r, order, rounds, found);
    }
    offsets := Some(found);
  }

  lemma NothingPlaced(tables: seq<Packing.Table>, rounds: seq<Packing.Insertion>)
    requires |tables| == 1 && rounds == []
    ensures AllPlaced(tables, rounds)
  {
  }

  lemma PlacedNext(tables: seq<Packing.Table>, rounds: seq<Packing.Insertion>, after: Packing.Table,
                   round: Packing.Insertion)
    requires |tables| == |rounds| + 1 && round.entries != []
    ensures AllPlaced(tables + [after], rounds + [round])
            <==> AllPlaced(tables, rounds) && Packing.FindsPlace(tables[|rounds|], round.entries, round.makeItSafe)
  {
    hide Packing.FindsPlace;
    var more, longer := tables + [after], rounds + [round];
    forall k | 0 <= k < |rounds|
      ensures more[k] == tables[k] && longer[k] == rounds[k]
    {
    }
    if AllPlaced(more, longer) {
      forall k | 0 <= k < |rounds|
        ensures rounds[k].entries != [] && Packing.FindsPlace(tables[k], rounds[k].entries, rounds[k].makeItSafe)
      {
        assert longer[k].entries != [] && Packing.FindsPlace(more[k], longer[k].entries, longer[k].makeItSafe);
      }
      assert Packing.FindsPlace(more[|rounds|], longer[|rounds|].entries, longer[|rounds|].makeItSafe);
    }
  }

  /** Every round once, the longer ones first. */
  ghost predicate OrderRight(r: RowLists, order: seq<nat>) {
    && |order| == 2 * |r.lists| && (forall j :: 0 <= j < |order| ==> order[j] < 2 * |r.lists|)
    && (forall y :: y in order <==> 0 <= y < 2 * |r.lists|)
    && forall j, k :: 0 <= j < k < |order| ==>
         && order[j] != order[k] && r.Count(order[j]) >= r.Count(order[k])
         && (r.Count(order[j]) == r.Count(order[k]) ==> order[j] < order[k])
  }

  method OrderRounds(r: RowLists) returns (order: seq<nat>)
    ensures OrderRight(r, order)
  {
    order := SortedIds(r.Keys(), 0, 2 * |r.lists|);
    SortedOrdered(r.Keys(), 0, 2 * |r.lists|);
    forall j, k | 0 <= j < k < |order|
      ensures order[j] != order[k] && r.Count(order[j]) >= r.Count(order[k])
      ensures r.Count(order[j]) == r.Count(order[k]) ==> order[j] < order[k]
    {
      assert More(r.Keys(), order[j], order[k]);
    }
  }

  lemma OrderBounds(r: RowLists, order: seq<nat>)
    requires OrderRight(r, order)
    ensures |order| == 2 * |r.lists| && forall j :: 0 <= j < |order| ==> order[j] < 2 * |r.lists|
  {
  }

  /** The first rounds of the order have been inserted, the others not. */
  ghost predicate SoFar(r: RowLists, order: seq<nat>, rounds: seq<Packing.Insertion>, found: seq<Option<int>>) {
    && OrderRight(r, order) && |found| == |order| && |rounds| <= |order|
    && (forall j :: 0 <= j < |rounds| ==> InsertedAs(r, order[j], rounds, j, found[order[j]]))
    && forall j :: |rounds| <= j < |order| ==> found[order[j]] == None
  }

  lemma NothingYet(r: RowLists, order: seq<nat>, found: seq<Option<int>>)
    requires OrderRight(r, order) && |found| == 2 * |r.lists| && forall id :: 0 <= id < |found| ==> found[id] == None
    ensures SoFar(r, order, [], found)
  {
  }

  /** One more round of the order has been inserted. */
  lemma InsertedNext(r: RowLists, order: seq<nat>, rounds: seq<Packing.Insertion>, round: Packing.Insertion,
                     found: seq<Option<int>>, offset: Option<int>)
    requires SoFar(r, order, rounds, found) && |rounds| < |order| && order[|rounds|] < 2 * |r.lists|
    requires var id := order[|rounds|];
             && r.Count(id) > 0 && offset.Some? && (r.Terminal(id) ==> offset.value >= 0)
             && round == Packing.Insertion(r.RoundEntries(id), r.Terminal(id),
                                           offset.value + Packing.Least(r.RoundEntries(id)))
    ensures order[|rounds|] < |found| && SoFar(r, order, rounds + [round], found[order[|rounds|] := offset])
  {
    hide Packing.Least, Entries, ActionCount;
    var after, more := found[order[|rounds|] := offset], rounds + [round];
    forall j | 0 <= j <= |rounds|
      ensures InsertedAs(r, order[j], more, j, after[order[j]])
    {
      if j < |rounds| {
        assert InsertedAs(r, order[j], rounds, j, found[order[j]]);
      }
    }
  }

  lemma InsertedAll(r: RowLists, order: seq<nat>, rounds: seq<Packing.Insertion>, found: seq<Option<int>>)
    requires SoFar(r, order, rounds, found)
    requires |rounds| < |order| ==> order[|rounds|] < 2 * |r.lists| && r.Count(order[|rounds|]) == 0
    ensures |found| == 2 * |r.lists| && AllInserted(r, rounds, found)
  {
    hide Packing.Least;
    forall id | 0 <= id < |found|
      ensures if r.Count(id) == 0 then found[id] == None
              else exists j :: 0 <= j < |rounds| && InsertedAs(r, id, rounds, j, found[id])
    {
      assert id in order;
      var j :| 0 <= j < |order| && order[j] == id;
      if j < |rounds| {
        assert InsertedAs(r, order[j], rounds, j, found[order[j]]);
      } else {
        assert r.Count(order[|rounds|]) >= r.Count(order[j]);
      }
    }
  }

  // ----- small rounds all find a place -----

  lemma {:induction false} SpentOnMore(r: RowLists, ids: set<nat>, id: nat, n: nat)
    requires n <= 2 * |r.lists| && id < 2 * |r.lists| && id !in ids
    ensures SpentOn(r, ids + {id}, n) == SpentOn(r, ids, n) + if id < n then CostOf(r, id) else 0
  {
    if n > 0 {
      SpentOnMore(r, ids, id, n - 1);
    }
  }

  lemma {:induction false} SpentOnFewer(r: RowLists, ids: set<nat>, more: set<nat>, n: nat)
    requires n <= 2 * |r.lists| && ids <= more
    ensures SpentOn(r, ids, n) <= SpentOn(r, more, n)
  {
    if n > 0 {
      SpentOnFewer(r, ids, more, n - 1);
    }
  }

  function First(order: seq<nat>, k: nat): set<nat>
    requires k <= |order|
  {
    set j | 0 <= j < k :: order[j]
  }

  /** The rounds inserted so far have used no more than they cost. */
  lemma {:induction false} SpentSoFar(r: RowLists, order: seq<nat>, rounds: seq<Packing.Insertion>,
                                      found: seq<Option<int>>, k: nat)
    requires SoFar(r, order, rounds, found) && k <= |rounds| <= |order| == 2 * |r.lists|
    ensures Packing.Spent(rounds[..k], r.nTerminals) <= SpentOn(r, First(order, k), 2 * |r.lists|)
  {
    hide Packing.Cost, Packing.Least, Entries, ActionCount;
    if k > 0 {
      SpentSoFar(r, order, rounds, found, k - 1);
      var id := order[k - 1];
      assert InsertedAs(r, id, rounds, k - 1, found[id]);
      assert rounds[..k][..k - 1] == rounds[..k - 1] && rounds[..k][k - 1] == rounds[k - 1];
      assert First(order, k) == First(order, k - 1) + {id};
      SpentOnMore(r, First(order, k - 1), id, 2 * |r.lists|);
    }
  }

  /** A round that is small for what all others use is small for what those before it use. */
  lemma SmallInOrder(r: RowLists, order: seq<nat>, rounds: seq<Packing.Insertion>, found: seq<Option<int>>, k: nat)
    requires SoFar(r, order, rounds, found) && k <= |rounds| <= |order| == 2 * |r.lists| && k < |order|
    requires order[k] < 2 * |r.lists| && r.Count(order[k]) > 0 && RoundSmall(r, order[k])
    ensures Packing.Small(r.RoundEntries(order[k]), r.Terminal(order[k]), r.nsymbol, r.nTerminals,
                          Packing.Spent(rounds[..k], r.nTerminals))
  {
    hide Packing.Spent, Packing.Least, Packing.Greatest, Entries, ActionCount;
    SpentSoFar(r, order, rounds, found, k);
    SpentOnFewer(r, First(order, k), AllBut(r, order[k]), 2 * |r.lists|);
  }

  lemma SmallSoFar(r: RowLists, order: seq<nat>, rounds: seq<Packing.Insertion>, found: seq<Option<int>>)
    requires SoFar(r, order, rounds, found) && AllSmall(r)
    ensures Packing.AreSmall(rounds, |rounds|, r.nsymbol, r.nTerminals)
  {
    hide Packing.Spent, Packing.Least, Packing.Small, Entries, ActionCount, RoundSmall;
    forall k | 0 <= k < |rounds|
      ensures Packing.Small(rounds[k].entries, rounds[k].makeItSafe, r.nsymbol, r.nTerminals,
                            Packing.Spent(rounds[..k], r.nTerminals))
    {
      assert InsertedAs(r, order[k], rounds, k, found[order[k]]) && RoundSmall(r, order[k]);
      SmallInOrder(r, order, rounds, found, k);
    }
  }

  lemma SmallNext(r: RowLists, order: seq<nat>, tables: seq<Packing.Table>, rounds: seq<Packing.Insertion>,
                  found: seq<Option<int>>)
    requires SoFar(r, order, rounds, found) && AllSmall(r) && r.nTerminals <= r.nsymbol
    requires |rounds| < |order| && order[|rounds|] < 2 * |r.lists| && r.Count(order[|rounds|]) > 0
    requires Packing.Runs(tables, rounds) && tables[0] == Packing.Table(r.nsymbol, r.nTerminals, [], 0)
    requires Packing.ValidTable(tables[|rounds|])
             && Packing.ValidEntries(tables[|rounds|], r.RoundEntries(order[|rounds|]))
    ensures Packing.FindsPlace(tables[|rounds|], r.RoundEntries(order[|rounds|]), r.Terminal(order[|rounds|]))
  {
    SmallSoFar(r, order, rounds, found);
    assert RoundSmall(r, order[|rounds|]);
    SmallInOrder(r, order, rounds, found, |rounds|);
    hide Packing.Runs, Packing.ValidTable, Packing.ValidEntries, Packing.FindsPlace, Packing.Small, Packing.AreSmall,
         Packing.Begun, Packing.Spent, AllSmall, SoFar, Entries, ActionCount;
    Packing.SmallRun(tables, rounds, |rounds|, r.nsymbol, r.nTerminals);
    assert rounds[..|rounds|] == rounds;
    Packing.SmallPlaced(tables[|rounds|], r.RoundEntries(order[|rounds|]), r.Terminal(order[|rounds|]),
                        Packing.Spent(rounds, r.nTerminals));
  }

  lemma ValidNow(acttab: Packing.ActTab)
    requires acttab.Valid()
    ensures Packing.ValidTable(acttab.Contents())
  {
  }

  lemma StartsRun(tables: seq<Packing.Table>, rounds: seq<Packing.Insertion>)
    requires |tables| == 1 && rounds == [] && tables[0].slots == [] && tables[0].used == 0
    ensures Packing.Runs(tables, rounds)
  {
  }

  lemma RunsOn(tables: seq<Packing.Table>, rounds: seq<Packing.Insertion>, after: Packing.Table,
               round: Packing.Insertion)
    requires Packing.Runs(tables, rounds) && Packing.ValidTable(tables[|rounds|])
    requires Packing.ValidEntries(tables[|rounds|], round.entries)
             && Packing.Inserts(tables[|rounds|], round.entries, round.makeItSafe, after, round.i)
    ensures Packing.Runs(tables + [after], rounds + [round])
  {
    hide Packing.Inserts, Packing.ValidEntries, Packing.ValidTable;
    var more, longer := tables + [after], rounds + [round];
    forall k | 0 <= k < |longer|
      ensures Packing.RunsStep(more, longer, k)
    {
      if k < |rounds| {
        assert Packing.RunsStep(tables, rounds, k);
      }
    }
  }

  // ----- writing the tables -----

  /** One kind of offset of each row; the rows at the end that have none are left out. */
  method TrimOffsets(found: seq<Option<int>>, rows: nat, kind: nat, missing: int) returns (ofst: seq<int>)
    requires |found| == 2 * rows && kind < 2
    ensures |ofst| <= rows && (0 < |ofst| ==> found[2 * (|ofst| - 1) + kind].Some?)
    ensures forall k :: 0 <= k < |ofst| ==>
              ofst[k] == if found[2 * k + kind].Some? then found[2 * k + kind].value else missing
    ensures forall k :: |ofst| <= k < rows ==> found[2 * k + kind].None?
  {
    var n := rows;
    while n > 0 && found[2 * (n - 1) + kind].None?
      invariant 0 <= n <= rows && forall k :: n <= k < rows ==> found[2 * k + kind].None?
    {
      n := n - 1;
    }
    ofst := seq(n, k requires 0 <= k < n =>
      if found[2 * k + kind].Some? then found[2 * k + kind].value else missing);
  }

  /** The least offset of a goto round, or 0. */
  method LeastGoto(found: seq<Option<int>>, rows: nat) returns (least: int)
    requires |found| == 2 * rows
    ensures least <= 0
    ensures forall k :: 0 <= k < rows && found[2 * k + 1].Some? ==> least <= found[2 * k + 1].value
  {
    least := 0;
    var k := 0;
    while k < rows
      invariant 0 <= k <= rows && least <= 0
      invariant forall j :: 0 <= j < k && found[2 * j + 1].Some? ==> least <= found[2 * j + 1].value
    {
      if found[2 * k + 1].Some? && found[2 * k + 1].value < least {
        least := found[2 * k + 1].value;
      }
      k := k + 1;
    }
  }

  /** Every round found a place when it was inserted. */
  ghost predicate AllPlaced(tables: seq<Packing.Table>, rounds: seq<Packing.Insertion>) {
    && |tables| == |rounds| + 1
    && forall k :: 0 <= k < |rounds| ==>
         rounds[k].entries != [] && Packing.FindsPlace(tables[k], rounds[k].entries, rounds[k].makeItSafe)
  }

  /** The offset in the table is that of an inserted round. */
  ghost predicate OffsetRight(r: RowLists, id: nat, rounds: seq<Packing.Insertion>, offset: int)
    requires id < 2 * |r.lists|
  {
    exists j :: 0 <= j < |rounds| && InsertedAs(r, id, rounds, j, Some(offset))
  }

  ghost predicate RowRight(r: RowLists, t: Tables, rounds: seq<Packing.Insertion>, k: nat)
    requires k < |r.lists| == |t.deflt|
  {
    && t.deflt[k] == DefaultCode(r.number, r.t, r.lists[k])
    && (if r.Count(2 * k) == 0 then k < |t.shiftOfst| ==> t.shiftOfst[k] == |t.action|
        else k < |t.shiftOfst| && t.shiftOfst[k] >= 0 && OffsetRight(r, 2 * k, rounds, t.shiftOfst[k]))
    && (r.Count(2 * k + 1) > 0 ==> k < |t.reduceOfst| && OffsetRight(r, 2 * k + 1, rounds, t.reduceOfst[k]))
  }

  /** What has been written, for a run of the packing that ended in `table`. */
  ghost predicate WrittenFrom(r: RowLists, t: Tables, table: Packing.Table, rounds: seq<Packing.Insertion>) {
    && table.nsymbol == r.nsymbol && table.used <= |table.slots|
    && Packing.EmittedFrom(t, table.slots[..table.used], r.nsymbol, r.t.AcceptAction() + 1)
    && t.maxShift == r.t.maxShift && t.minShiftReduce == r.t.minShiftReduce && t.nRule == r.t.nRule
    && |t.deflt| == |r.lists| && forall k :: 0 <= k < |r.lists| ==> RowRight(r, t, rounds, k)
  }

  /**
    Packs and writes the rows. There are no tables when a round would be laid outside the
    array, or when the last one leaves the used slots ending past it. Every row has its
    offset for tokens exactly when the last row has an action for a token.
   */
  method ReportTable(r: RowLists)
    returns (t: Option<Tables>, placed: bool, ghost tables: seq<Packing.Table>, ghost rounds: seq<Packing.Insertion>)
    requires RowsPackable(r) && 0 < |r.lists|
    ensures t.Some? ==>
              && Packing.Runs(tables, rounds) && Packing.ValidTable(tables[|rounds|])
              && WrittenFrom(r, t.value, tables[|rounds|], rounds)
              && |t.value.shiftOfst| <= |r.lists|
              && (|t.value.shiftOfst| == |r.lists| <==> r.Count(2 * |r.lists| - 2) > 0)
              && (placed <==> AllPlaced(tables, rounds))
    ensures AllSmall(r) ==> t.Some? && placed
  {
    assert r.nTerminals <= r.nsymbol;
    hide Packing.Runs, Packing.ValidTable, RowsPackable, AllInserted, AllSmall, AllPlaced, Packing.EmitLookahead,
         Packing.EmitAction,
         Packing.ActionSize, ActionCount, Entries, DefaultCode;
    var acttab, offsets;
    acttab, offsets, placed, tables, rounds := PackRounds(r);
    if offsets.Some? && AllSmall(r) {
      SmallRounds(r, tables, rounds);
    }
    if offsets.None? || acttab.nAction > acttab.aAction.Length {
      return None, placed, tables, rounds;
    }
    ValidNow(acttab);
    assert acttab.aAction[..][..acttab.nAction] == acttab.aAction[..acttab.nAction];
    var written := WriteRows(r, acttab.aAction[..acttab.nAction], offsets.value, rounds);
    t := Some(written);
  }

  /** The arrays that the generated parser is made with. */
  method WriteRows(r: RowLists, slots: seq<Packing.Slot>, found: seq<Option<int>>, ghost rounds: seq<Packing.Insertion>)
    returns (t: Tables)
    requires 0 < |r.lists| && |found| == 2 * |r.lists| && AllInserted(r, rounds, found)
    ensures Packing.EmittedFrom(t, slots, r.nsymbol, r.t.AcceptAction() + 1)
    ensures t.maxShift == r.t.maxShift && t.minShiftReduce == r.t.minShiftReduce && t.nRule == r.t.nRule
    ensures |t.deflt| == |r.lists| && forall k :: 0 <= k < |r.lists| ==> RowRight(r, t, rounds, k)
    ensures |t.shiftOfst| <= |r.lists| && (|t.shiftOfst| == |r.lists| <==> r.Count(2 * |r.lists| - 2) > 0)
  {
    hide AllInserted, Packing.EmitLookahead, Packing.EmitAction, Packing.ActionSize, ActionCount, Entries, DefaultCode;
    var rows := |r.lists|;
    var lookahead := Packing.EmitLookahead(slots, r.nsymbol);
    var action := Packing.EmitAction(slots[..Packing.ActionSize(slots)], r.t.AcceptAction() + 1);
    var shiftOfst := TrimOffsets(found, rows, 0, |action|);
    var least := LeastGoto(found, rows);
    var reduceOfst := TrimOffsets(found, rows, 1, least - 1);
    DefaultsNatural(r);
    var deflt: seq<nat> := seq(rows, k requires 0 <= k < rows => DefaultCode(r.number, r.t, r.lists[k]));
    t := r.t.(shiftOfst := shiftOfst, reduceOfst := reduceOfst, lookahead := lookahead, action := action,
              deflt := deflt);
    OffsetsWritten(r, t, rounds, found);
  }

  lemma SmallRounds(r: RowLists, tables: seq<Packing.Table>, rounds: seq<Packing.Insertion>)
    requires Packing.Runs(tables, rounds) && r.nTerminals <= r.nsymbol
    requires Packing.AreSmall(rounds, |rounds|, r.nsymbol, r.nTerminals)
    requires tables[0] == Packing.Table(r.nsymbol, r.nTerminals, [], 0)
    ensures AllPlaced(tables, rounds) && tables[|rounds|].used <= |tables[|rounds|].slots|
  {
    hide Packing.AreSmall, Packing.FindsPlace, Packing.RunsStep, Packing.Spent, Packing.Begun;
    Packing.SmallRun(tables, rounds, |rounds|, r.nsymbol, r.nTerminals);
  }

  lemma DefaultsNatural(r: RowLists)
    ensures forall k :: 0 <= k < |r.lists| ==> DefaultCode(r.number, r.t, r.lists[k]) >= 0
  {
  }

  lemma OffsetsWritten(r: RowLists, t: Tables, rounds: seq<Packing.Insertion>, found: seq<Option<int>>)
    requires 0 < |r.lists| == |t.deflt| && |found| == 2 * |r.lists| && AllInserted(r, rounds, found)
    requires forall k :: 0 <= k < |r.lists| ==> t.deflt[k] == DefaultCode(r.number, r.t, r.lists[k])
    requires |t.shiftOfst| <= |r.lists| && (0 < |t.shiftOfst| ==> found[2 * (|t.shiftOfst| - 1)].Some?)
    requires forall k :: 0 <= k < |t.shiftOfst| ==>
               t.shiftOfst[k] == if found[2 * k].Some? then found[2 * k].value else |t.action|
    requires forall k :: |t.shiftOfst| <= k < |r.lists| ==> found[2 * k].None?
    requires |t.reduceOfst| <= |r.lists|
             && forall k :: |t.reduceOfst| <= k < |r.lists| ==> found[2 * k + 1].None?
    requires forall k :: 0 <= k < |t.reduceOfst| && found[2 * k + 1].Some? ==> t.reduceOfst[k] == found[2 * k + 1].value
    ensures forall k :: 0 <= k < |r.lists| ==> RowRight(r, t, rounds, k)
    ensures |t.shiftOfst| == |r.lists| <==> r.Count(2 * |r.lists| - 2) > 0
  {
    hide ActionCount, Entries, DefaultCode, Packing.Least;
    forall k | 0 <= k < |r.lists|
      ensures RowRight(r, t, rounds, k)
    {
      FoundOffset(r, rounds, found, 2 * k);
      FoundOffset(r, rounds, found, 2 * k + 1);
      assert r.Terminal(2 * k);
    }
    var last := |r.lists| - 1;
    FoundOffset(r, rounds, found, 2 * last);
    assert |t.shiftOfst| <= last ==> found[2 * last].None?;
  }

  lemma FoundOffset(r: RowLists, rounds: seq<Packing.Insertion>, found: seq<Option<int>>, id: nat)
    requires |found| == 2 * |r.lists| && AllInserted(r, rounds, found) && id < |found|
    ensures found[id].Some? <==> r.Count(id) > 0
    ensures found[id].Some? ==> OffsetRight(r, id, rounds, found[id].value) && (r.Terminal(id) ==> found[id].value >= 0)
  {
    hide ActionCount, Entries, Packing.Least;
  }

  // ----- from the packed rows to what the driver finds -----

  /** The rows are the final lists of the states that have any, in their order. */
  ghost predicate RowsOf(b: Built, r: RowLists) {
    && Resorted(b) && |b.final| == |b.states| == |b.left| && 0 < |r.lists| <= |b.states|
    && r.number == b.number && r.nTerminals == b.g.nTerminals && r.nsymbol == b.g.nTerminals + b.g.nNonterminals
    && r.t == Tables(|r.lists| - 1, |b.states|, |b.g.rules|, [], [], [], [], [])
    && (forall k :: 0 <= k < |r.lists| ==> r.lists[k] == b.final[b.sorted[k]])
    && forall k :: |r.lists| <= k < |b.states| ==> b.left[b.sorted[k]].Some?
  }

  /** What an exact round at an offset is for. */
  ghost predicate ReadAt(slots: seq<Packing.Slot>, entries: seq<Packing.Slot>, offset: int) {
    Packing.Exact(slots, Packing.Round(offset, entries))
  }

  lemma OffsetExact(r: RowLists, id: nat, tables: seq<Packing.Table>, rounds: seq<Packing.Insertion>, offset: int)
    requires id < 2 * |r.lists| && OffsetRight(r, id, rounds, offset)
    requires Packing.Runs(tables, rounds) && AllPlaced(tables, rounds)
    ensures ReadAt(tables[|rounds|].slots, r.RoundEntries(id), offset)
  {
    hide Packing.Runs, Packing.FindsPlace, Packing.Exact, Packing.Least, Entries, ActionCount;
    Packing.AllRoundsExact(tables, rounds, |rounds|);
    var j :| 0 <= j < |rounds| && InsertedAs(r, id, rounds, j, Some(offset));
    assert Packing.RoundAt(rounds[j].entries, rounds[j].i) == Packing.Round(offset, rounds[j].entries);
  }

  /**
    Tables written from rounds that all found a place are what module GeneratedTables asks
    for, when the last row has an action for a token.
   */
  lemma TablesWritten(b: Built, r: RowLists, t: Tables, tables: seq<Packing.Table>, rounds: seq<Packing.Insertion>)
    requires Constructed(b) && RowsOf(b, r) && RowsPackable(r)
    requires Packing.Runs(tables, rounds) && Packing.ValidTable(tables[|rounds|]) && AllPlaced(tables, rounds)
    requires WrittenFrom(r, t, tables[|rounds|], rounds) && |t.shiftOfst| == |r.lists|
    ensures Written(b, t)
  {
    TablesValid(r, t, tables[|rounds|], rounds, b.g);
    var tokens, gotos := RoundsOf(r, t.shiftOfst, 0), RoundsOf(r, t.reduceOfst, 1);
    assert |b.final| == |b.states|;
    hide Constructed, Packing.Runs, Packing.ValidTable, AllPlaced, Packing.EmittedFrom, Entries, ActionCount, Packable,
         ValidTables, RowPacked;
    forall k: nat | k <= t.maxShift
      ensures RowPacked(b, t, tables[|rounds|], k, tokens[k], gotos[k])
      ensures forall e :: e in tokens[k].entries || e in gotos[k].entries ==> e.lookahead >= 0
    {
      RowWritten(b, r, t, tables, rounds, k, tokens[k], gotos[k]);
    }
    PackedWritten(b, t, tables[|rounds|], tokens, gotos);
  }

  /** The rounds of one kind at their offsets. */
  function RoundsOf(r: RowLists, ofst: seq<int>, kind: nat): (rounds: seq<Packing.Round>)
    requires kind < 2
    ensures |rounds| == |r.lists|
    ensures forall k :: 0 <= k < |r.lists| ==>
              rounds[k] == Packing.Round(if k < |ofst| then ofst[k] else 0, r.RoundEntries(2 * k + kind))
  {
    seq(|r.lists|, k requires 0 <= k < |r.lists| =>
      Packing.Round(if k < |ofst| then ofst[k] else 0, r.RoundEntries(2 * k + kind)))
  }

  lemma TablesValid(r: RowLists, t: Tables, table: Packing.Table, rounds: seq<Packing.Insertion>, g: Grammar)
    requires WrittenFrom(r, t, table, rounds) && RowsPackable(r) && |t.shiftOfst| == |r.lists| > 0
    requires r.nTerminals == g.nTerminals
    requires t.maxShift == |r.lists| - 1 < t.minShiftReduce && t.nRule == |g.rules|
    ensures ValidTables(g, t)
  {
    hide Entries, ActionCount, OffsetRight, Packable, DefaultCode;
    forall s | 0 <= s <= t.maxShift
      ensures t.shiftOfst[s] >= 0
    {
      assert RowRight(r, t, rounds, s);
    }
  }

  lemma RowWritten(b: Built, r: RowLists, t: Tables, tables: seq<Packing.Table>, rounds: seq<Packing.Insertion>, k: nat,
                   tokens: Packing.Round, gotos: Packing.Round)
    requires RowsOf(b, r) && RowsPackable(r) && k < |r.lists| && ValidTables(b.g, t) && t.maxShift < |b.states|
    requires Packing.Runs(tables, rounds) && AllPlaced(tables, rounds)
    requires WrittenFrom(r, t, tables[|rounds|], rounds) && |t.shiftOfst| == |r.lists|
    requires tokens == Packing.Round(t.shiftOfst[k], r.RoundEntries(2 * k))
    requires gotos == Packing.Round(if k < |t.reduceOfst| then t.reduceOfst[k] else 0, r.RoundEntries(2 * k + 1))
    ensures RowPacked(b, t, tables[|rounds|], k, tokens, gotos)
    ensures forall e :: e in tokens.entries || e in gotos.entries ==> e.lookahead >= 0
  {
    hide Packing.Runs, AllPlaced, Packing.EmittedFrom, Packing.Exact, Entries, ActionCount, OffsetRight, Packable,
         ValidTables,
         Collected, Code;
    var ap := r.lists[k];
    assert RowRight(r, t, rounds, k) && Packable(r.number, ap, r.nsymbol);
    SameCodes(r.number, r.t, t, ap, r.nTerminals);
    EntriesCollected(b, t, ap, true);
    EntriesCollected(b, t, ap, false);
    EntriesActions(r.number, r.t, ap, r.nTerminals, true, r.nsymbol);
    EntriesActions(r.number, r.t, ap, r.nTerminals, false, r.nsymbol);
    if r.Count(2 * k) > 0 {
      OffsetExact(r, 2 * k, tables, rounds, t.shiftOfst[k]);
    }
    if r.Count(2 * k + 1) > 0 {
      OffsetExact(r, 2 * k + 1, tables, rounds, t.reduceOfst[k]);
    }
  }

  /** The numbers of actions only depend on how many states and rules there are. */
  lemma {:induction false} SameCodes(number: seq<nat>, t: Tables, u: Tables, ap: seq<Action>, nTerminals: nat)
    requires t.minShiftReduce == u.minShiftReduce && t.nRule == u.nRule
    ensures Entries(number, t, ap, nTerminals, true) == Entries(number, u, ap, nTerminals, true)
    ensures Entries(number, t, ap, nTerminals, false) == Entries(number, u, ap, nTerminals, false)
    ensures DefaultCode(number, t, ap) == DefaultCode(number, u, ap)
  {
    if ap != [] {
      SameCodes(number, t, u, ap[..|ap| - 1], nTerminals);
    }
  }
}
