/**
  The packed action table. The actions of one state are a round; a round is laid over
  the table at an offset, possibly through the gaps of other rounds, and is found again
  because each slot records the lookahead it is for.
 */
module ActTab {
  import opened Options
  import opened Grammars
  import opened Sets
  import opened LrDriver

  datatype Slot = Slot(lookahead: int, action: int)

  const EMPTY := Slot(-1, -1)

  datatype Round = Round(offset: int, entries: seq<Slot>)

  /** The slots a reader at this offset takes for its own. */
  function MatchSet(table: seq<Slot>, offset: int): set<int> {
    set j | 0 <= j < |table| && table[j].lookahead >= 0 && table[j].lookahead == j - offset
  }

  function Cells(r: Round): set<int> {
    set e | e in r.entries :: r.offset + e.lookahead
  }

  /** Reading at the round's offset gives the round's actions for its lookaheads and nothing for others. */
  predicate Exact(table: seq<Slot>, r: Round) {
    && MatchSet(table, r.offset) == Cells(r)
    && forall e :: e in r.entries ==> 0 <= r.offset + e.lookahead < |table| && table[r.offset + e.lookahead] == e
  }

  predicate DistinctLookaheads(entries: seq<Slot>) {
    forall i, j :: 0 <= i < j < |entries| ==> entries[i].lookahead != entries[j].lookahead
  }

  /** What the round maps a lookahead to. */
  predicate Gives(r: Round, lookahead: int, action: int) {
    Slot(lookahead, action) in r.entries
  }

  predicate Found(table: seq<Slot>, offset: int, x: int) {
    0 <= offset + x < |table| && table[offset + x].lookahead == x
  }

  /** Exactness, lookahead by lookahead: present iff in the round, and then with its action. */
  lemma ExactReads(table: seq<Slot>, r: Round, x: nat)
    requires Exact(table, r) && DistinctLookaheads(r.entries)
    ensures Found(table, r.offset, x) <==> exists a :: Gives(r, x, a)
    ensures Found(table, r.offset, x) ==> Gives(r, x, table[r.offset + x].action)
    ensures forall a :: Gives(r, x, a) ==> Found(table, r.offset, x) && table[r.offset + x].action == a
  {
    if Found(table, r.offset, x) {
      assert r.offset + x in MatchSet(table, r.offset);
      var e :| e in r.entries && r.offset + e.lookahead == r.offset + x;
      assert e == Slot(x, e.action) && Gives(r, x, e.action);
    }
  }

  // ----- laying a round into empty slots -----

  /** The round's slots are empty, and nothing else would be read at its offset. */
  predicate Fits(table: seq<Slot>, r: Round) {
    && MatchSet(table, r.offset) == {}
    && forall e :: e in r.entries ==>
       0 <= r.offset + e.lookahead < |table| && table[r.offset + e.lookahead].lookahead < 0
  }

  /** `after` is `table` with the round's slots filled. */
  predicate Laid(table: seq<Slot>, r: Round, after: seq<Slot>) {
    && |after| == |table|
    && (forall e :: e in r.entries ==> 0 <= r.offset + e.lookahead < |table| && after[r.offset + e.lookahead] == e)
    && forall k :: 0 <= k < |table| && k !in Cells(r) ==> after[k] == table[k]
  }

  lemma LaidExact(table: seq<Slot>, r: Round, after: seq<Slot>)
    requires Fits(table, r) && Laid(table, r, after) && forall e :: e in r.entries ==> e.lookahead >= 0
    ensures Exact(after, r)
  {
    CellsOf(r);
    hide Cells;
    forall j
      ensures j in MatchSet(after, r.offset) <==> j in Cells(r)
    {
      if j in Cells(r) {
        var e := CellEntry(r, j);
      } else {
        assert j in MatchSet(after, r.offset) ==> j in MatchSet(table, r.offset);
      }
    }
  }

  lemma CellsOf(r: Round)
    ensures forall e :: e in r.entries ==> r.offset + e.lookahead in Cells(r)
  {
  }

  /** Earlier rounds read as before: theirs are other offsets. */
  lemma LaidKeeps(table: seq<Slot>, r: Round, after: seq<Slot>, old_round: Round)
    requires Fits(table, r) && Laid(table, r, after) && Exact(table, old_round) && old_round.entries != []
    ensures Exact(after, old_round)
  {
    hide MatchSet, Cells, Fits;
    OffsetsDiffer(table, r, old_round);
    OtherMatches(table, r, after, old_round.offset);
    forall e | e in old_round.entries
      ensures after[old_round.offset + e.lookahead] == e
    {
      CellUsed(table, r, old_round, e);
    }
  }

  lemma OtherMatches(table: seq<Slot>, r: Round, after: seq<Slot>, offset: int)
    requires Fits(table, r) && Laid(table, r, after) && offset != r.offset
    ensures MatchSet(after, offset) == MatchSet(table, offset)
  {
    hide Cells;
    forall j
      ensures j in MatchSet(after, offset) <==> j in MatchSet(table, offset)
    {
      if j in Cells(r) {
        var e := CellEntry(r, j);
      } else {
        assert 0 <= j < |table| ==> after[j] == table[j];
      }
    }
  }

  lemma CellEntry(r: Round, j: int) returns (e: Slot)
    requires j in Cells(r)
    ensures e in r.entries && j == r.offset + e.lookahead
  {
    e :| e in r.entries && j == r.offset + e.lookahead;
  }

  lemma OffsetsDiffer(table: seq<Slot>, r: Round, old_round: Round)
    requires Fits(table, r) && Exact(table, old_round) && old_round.entries != []
    ensures old_round.offset != r.offset
  {
    assert old_round.entries[0] in old_round.entries;
    assert old_round.offset + old_round.entries[0].lookahead in Cells(old_round);
  }

  lemma CellUsed(table: seq<Slot>, r: Round, old_round: Round, e: Slot)
    requires Fits(table, r) && Exact(table, old_round) && e in old_round.entries
    ensures old_round.offset + e.lookahead !in Cells(r)
  {
    var j := old_round.offset + e.lookahead;
    assert j in Cells(old_round) && j in MatchSet(table, old_round.offset);
    assert forall f :: f in r.entries ==> r.offset + f.lookahead != j;
  }

  // ----- recognising a round that is there already -----

  lemma {:induction false} EntriesCount(r: Round)
    requires DistinctLookaheads(r.entries)
    ensures |Cells(r)| == |r.entries|
    decreases |r.entries|
  {
    hide Cells, DistinctLookaheads;
    NoCells(r);
    if r.entries != [] {
      LastCell(r);
      EntriesCount(Round(r.offset, r.entries[..|r.entries| - 1]));
    }
  }

  lemma NoCells(r: Round)
    ensures r.entries == [] ==> Cells(r) == {}
  {
  }

  lemma LastCell(r: Round)
    requires r.entries != [] && DistinctLookaheads(r.entries)
    ensures var less, c := Round(r.offset, r.entries[..|r.entries| - 1]),
            r.offset + r.entries[|r.entries| - 1].lookahead;
            DistinctLookaheads(less.entries) && Cells(r) == Cells(less) + {c} && c !in Cells(less)
  {
    var n := |r.entries| - 1;
    assert r.entries == r.entries[..n] + [r.entries[n]];
    assert forall e :: e in r.entries[..n] ==> e.lookahead != r.entries[n].lookahead;
  }

  lemma SameSize(a: set<int>, b: set<int>)
    requires a <= b && |a| == |b|
    ensures a == b
  {
    if exists x :: x in b && x !in a {
      var x :| x in b && x !in a;
      Cardinality(a, b - {x});
    }
  }

  /** All the entries are there and there are no more: the offset can be shared. */
  lemma DuplicateExact(table: seq<Slot>, r: Round)
    requires DistinctLookaheads(r.entries) && |MatchSet(table, r.offset)| == |r.entries|
    requires forall e :: e in r.entries ==>
             e.lookahead >= 0 && 0 <= r.offset + e.lookahead < |table| && table[r.offset + e.lookahead] == e
    ensures Exact(table, r)
  {
    EntriesCount(r);
    assert Cells(r) <= MatchSet(table, r.offset);
    SameSize(Cells(r), MatchSet(table, r.offset));
  }

  function Least(entries: seq<Slot>): int
    requires entries != []
  {
    if |entries| == 1 then entries[0].lookahead
    else
      var m := Least(entries[..|entries| - 1]);
      var x := entries[|entries| - 1].lookahead;
      if m > x then x else m
  }

  function Greatest(entries: seq<Slot>): int
    requires entries != []
  {
    if |entries| == 1 then entries[0].lookahead
    else
      var m := Greatest(entries[..|entries| - 1]);
      var x := entries[|entries| - 1].lookahead;
      if m < x then x else m
  }

  lemma {:induction false} Bounds(entries: seq<Slot>)
    requires entries != []
    ensures forall e :: e in entries ==> Least(entries) <= e.lookahead <= Greatest(entries)
    ensures exists e :: e in entries && e.lookahead == Least(entries)
    ensures exists e :: e in entries && e.lookahead == Greatest(entries)
    decreases |entries|
  {
    var n := |entries| - 1;
    assert entries == entries[..n] + [entries[n]];
    if n > 0 {
      Bounds(entries[..n]);
    }
    assert entries[n] in entries;
  }

  /**
    The test of the hole search. It rejects an offset for an empty slot too, when that
    slot is the one just below the offset.
   */
  predicate IsHole(table: seq<Slot>, nAction: nat, r: Round)
    requires nAction <= |table|
  {
    && (forall e :: e in r.entries ==>
        0 <= r.offset + e.lookahead < |table| && table[r.offset + e.lookahead].lookahead < 0)
    && forall j :: 0 <= j < nAction ==> table[j].lookahead != j - r.offset
  }

  lemma HoleFits(table: seq<Slot>, nAction: nat, r: Round)
    requires nAction <= |table| && IsHole(table, nAction, r)
             && forall k :: nAction <= k < |table| ==> table[k].lookahead < 0
    ensures Fits(table, r)
  {
  }

  /**
    Far enough to the right there is always a hole: past the used slots, and so far past
    them that none of them could be mistaken for one of the round's own.
   */
  lemma HoleAtEnd(table: seq<Slot>, nAction: nat, r: Round)
    requires nAction <= |table| && forall k :: 0 <= k < |table| ==> table[k].lookahead >= -1
    requires forall k :: nAction <= k < |table| ==> table[k].lookahead < 0
    requires r.offset > nAction && forall e :: e in r.entries ==> 0 <= e.lookahead && r.offset + e.lookahead < |table|
    ensures IsHole(table, nAction, r)
  {
  }

  /** The round being collected, one entry longer. */
  lemma Appended(entries: seq<Slot>, x: Slot)
    requires DistinctLookaheads(entries) && forall e :: e in entries ==> e.lookahead != x.lookahead
    ensures DistinctLookaheads(entries + [x])
    ensures Least(entries + [x])
            == if entries == [] || Least(entries) > x.lookahead then x.lookahead else Least(entries)
    ensures Greatest(entries + [x])
            == if entries == [] || Greatest(entries) < x.lookahead then x.lookahead else Greatest(entries)
    ensures forall e :: e in entries + [x] <==> e in entries || e == x
  {
    var more := entries + [x];
    assert more[..|entries|] == entries;
    assert forall i :: 0 <= i < |entries| ==> entries[i] in entries;
  }

  // ----- what happens when a round is laid over other rounds -----

  /**
    Laid over anything at all, the round is exact iff nothing else could be read at its
    offset. An earlier round at another offset stays exact iff no slot of it is written.
   */
  lemma OverlaidExact(table: seq<Slot>, r: Round, after: seq<Slot>, old_round: Round)
    requires Laid(table, r, after) && forall e :: e in r.entries ==> e.lookahead >= 0
    requires Exact(table, old_round)
    ensures Exact(after, r) <==> MatchSet(table, r.offset) <= Cells(r)
    ensures old_round.offset != r.offset ==> (Exact(after, old_round) <==> Cells(old_round) !! Cells(r))
  {
    hide Exact, MatchSet, Cells, Laid;
    OverlaidOwn(table, r, after);
    if old_round.offset != r.offset {
      OverlaidOther(table, r, after, old_round);
    }
  }

  lemma OverlaidOwn(table: seq<Slot>, r: Round, after: seq<Slot>)
    requires Laid(table, r, after) && forall e :: e in r.entries ==> e.lookahead >= 0
    ensures Exact(after, r) <==> MatchSet(table, r.offset) <= Cells(r)
  {
    OwnMatches(table, r, after);
    hide MatchSet, Cells;
  }

  lemma OverlaidOther(table: seq<Slot>, r: Round, after: seq<Slot>, old_round: Round)
    requires Laid(table, r, after) && Exact(table, old_round) && old_round.offset != r.offset
    ensures Exact(after, old_round) <==> Cells(old_round) !! Cells(r)
  {
    hide Laid, MatchSet, Cells;
    OverlaidMatches(table, r, after, old_round.offset);
    assert MatchSet(after, old_round.offset) == Cells(old_round) - Cells(r);
    if Cells(old_round) !! Cells(r) {
      StillThere(table, r, after, old_round);
    }
  }

  lemma StillThere(table: seq<Slot>, r: Round, after: seq<Slot>, old_round: Round)
    requires Laid(table, r, after) && Exact(table, old_round) && Cells(old_round) !! Cells(r)
    ensures forall e :: e in old_round.entries ==>
              0 <= old_round.offset + e.lookahead < |after| && after[old_round.offset + e.lookahead] == e
  {
    hide MatchSet, Cells;
    CellsOf(old_round);
    forall e | e in old_round.entries
      ensures after[old_round.offset + e.lookahead] == e
    {
      assert old_round.offset + e.lookahead !in Cells(r);
    }
  }

  lemma OwnMatches(table: seq<Slot>, r: Round, after: seq<Slot>)
    requires Laid(table, r, after) && forall e :: e in r.entries ==> e.lookahead >= 0
    ensures MatchSet(after, r.offset) == MatchSet(table, r.offset) + Cells(r)
  {
    CellsOf(r);
    hide Cells;
    forall j
      ensures j in MatchSet(after, r.offset) <==> j in MatchSet(table, r.offset) || j in Cells(r)
    {
      if j in Cells(r) {
        var e := CellEntry(r, j);
      } else {
        assert 0 <= j < |table| ==> after[j] == table[j];
      }
    }
  }

  lemma OverlaidMatches(table: seq<Slot>, r: Round, after: seq<Slot>, offset: int)
    requires Laid(table, r, after) && offset != r.offset
    ensures MatchSet(after, offset) == MatchSet(table, offset) - Cells(r)
  {
    hide Cells;
    forall j
      ensures j in MatchSet(after, offset) <==> j in MatchSet(table, offset) && j !in Cells(r)
    {
      if j in Cells(r) {
        var e := CellEntry(r, j);
      } else {
        assert 0 <= j < |table| ==> after[j] == table[j];
      }
    }
  }

  // ----- the table, and what inserting a round does to it -----

  /** `used` is the number of slots up to the last one in use. */
  datatype Table = Table(nsymbol: nat, nterminal: nat, slots: seq<Slot>, used: nat)

  /** The number of slots once room for a whole round has been made. */
  function Room(t: Table): nat {
    var n := t.nsymbol + 1;
    if t.used + n >= |t.slots| then t.used + n + |t.slots| + 20 else |t.slots|
  }

  function Roomy(t: Table): seq<Slot> {
    Grown(t.slots, Room(t))
  }

  /** The round's least lookahead is at index `i`. */
  function RoundAt(entries: seq<Slot>, i: int): Round
    requires entries != []
  {
    Round(i - Least(entries), entries)
  }

  /** The round is there already, and nothing else is read at its offset. */
  predicate IsDuplicate(slots: seq<Slot>, used: nat, r: Round) {
    && (forall e :: e in r.entries ==>
        0 <= r.offset + e.lookahead < used <= |slots| && slots[r.offset + e.lookahead] == e)
    && |MatchSet(slots, r.offset)| == |r.entries|
  }

  predicate DuplicateAt(slots: seq<Slot>, used: nat, entries: seq<Slot>, i: int) {
    entries != [] && IsDuplicate(slots, used, RoundAt(entries, i))
  }

  predicate HoleAt(slots: seq<Slot>, used: nat, entries: seq<Slot>, i: int) {
    entries != [] && used <= |slots| && IsHole(slots, used, RoundAt(entries, i))
  }

  predicate HasDuplicate(slots: seq<Slot>, used: nat, entries: seq<Slot>, start: int) {
    exists i :: start <= i < used && DuplicateAt(slots, used, entries, i)
  }

  /** The search for a hole stops at one. */
  predicate HasHole(slots: seq<Slot>, used: nat, entries: seq<Slot>, start: int) {
    entries != [] && exists i :: start <= i < |slots| - Greatest(entries) && HoleAt(slots, used, entries, i)
  }

  function Start(entries: seq<Slot>, makeItSafe: bool): int
    requires entries != []
  {
    if makeItSafe then Least(entries) else 0
  }

  /** The index the searches end at: a duplicate, else the first hole, else where the hole search gives up. */
  predicate IsChosen(slots: seq<Slot>, used: nat, entries: seq<Slot>, start: int, i: int)
    requires entries != []
  {
    if HasDuplicate(slots, used, entries, start) then
      && start <= i < used && DuplicateAt(slots, used, entries, i)
      && forall j :: i < j < used ==> !DuplicateAt(slots, used, entries, j)
    else if HasHole(slots, used, entries, start) then
      && start <= i < |slots| - Greatest(entries) && HoleAt(slots, used, entries, i)
      && forall j :: start <= j < i ==> !HoleAt(slots, used, entries, j)
    else
      i == if start < |slots| - Greatest(entries) then |slots| - Greatest(entries) else start
  }

  /** Inserting a round: it is laid over the table unless it is there already. */
  predicate Inserts(t: Table, entries: seq<Slot>, makeItSafe: bool, after: Table, i: int)
    requires entries != []
  {
    var slots, start := Roomy(t), Start(entries, makeItSafe);
    && IsChosen(slots, t.used, entries, start, i)
    && after.nsymbol == t.nsymbol && after.nterminal == t.nterminal
    && (if HasDuplicate(slots, t.used, entries, start) then after.slots == slots
        && after.used == SafelyUsed(t, t.used, makeItSafe, i)
        else && Laid(slots, RoundAt(entries, i), after.slots)
             && after.used == SafelyUsed(t, AtLeast(t.used, i - Least(entries) + Greatest(entries) + 1), makeItSafe, i))
  }

  /**
    The chosen index is one where all entries are inside the table, unless there is no
    place for a round from lookahead 0 on.
   */
  lemma ChosenInside(slots: seq<Slot>, used: nat, entries: seq<Slot>, makeItSafe: bool, i: int, nsymbol: nat)
    requires entries != [] && forall e :: e in entries ==> 0 <= e.lookahead < nsymbol
    requires used + nsymbol + 1 < |slots| && IsChosen(slots, used, entries, Start(entries, makeItSafe), i)
    ensures i >= 0 && (makeItSafe ==> i >= Least(entries))
    ensures var start := Start(entries, makeItSafe);
            !HasDuplicate(slots, used, entries, start) ==>
              && (i + Greatest(entries) - Least(entries) < |slots| <==>
                  HasHole(slots, used, entries, start) || Least(entries) > 0)
              && (i + Greatest(entries) - Least(entries) < |slots| ==>
                    forall e :: e in entries ==> 0 <= i - Least(entries) + e.lookahead < |slots|)
  {
    hide DuplicateAt, HoleAt, Least, Greatest;
    Bounds(entries);
  }

  function AtLeast(n: nat, m: int): nat {
    if m > n then m else n
  }

  /** A safe round is read inside the used slots for every terminal. */
  function SafelyUsed(t: Table, used: nat, makeItSafe: bool, i: int): nat {
    if makeItSafe then AtLeast(used, i + t.nterminal + 1) else used
  }

  /** The search finds the round, or a place for it. */
  predicate FindsPlace(t: Table, entries: seq<Slot>, makeItSafe: bool)
    requires entries != []
  {
    var slots, start := Roomy(t), Start(entries, makeItSafe);
    HasDuplicate(slots, t.used, entries, start) || HasHole(slots, t.used, entries, start)
  }

  /** The used slots may end past the table; making room for the next round mends that. */
  ghost predicate ValidTable(t: Table) {
    && (forall k :: t.used <= k < |t.slots| ==> t.slots[k].lookahead < 0)
    && forall k :: 0 <= k < |t.slots| ==> t.slots[k].lookahead >= -1
  }

  predicate ValidEntries(t: Table, entries: seq<Slot>) {
    entries != [] && DistinctLookaheads(entries)
      && forall e :: e in entries ==> 0 <= e.lookahead < t.nsymbol && e.action >= 0
  }

  /**
    A round whose least and greatest lookaheads add up to no more than the number of
    symbols always finds a place, whatever the table.
   */
  lemma Headroom(t: Table, entries: seq<Slot>, makeItSafe: bool)
    requires ValidTable(t) && ValidEntries(t, entries) && Least(entries) + Greatest(entries) <= t.nsymbol
    ensures FindsPlace(t, entries, makeItSafe)
  {
    HoleAfterUsed(t, entries, makeItSafe);
  }

  /** There is a hole behind the used slots as soon as the table reaches that far. */
  lemma HoleAfterUsed(t: Table, entries: seq<Slot>, makeItSafe: bool)
    requires ValidTable(t) && ValidEntries(t, entries) && t.used + 1 + Least(entries) + Greatest(entries) < Room(t)
    ensures HoleAt(Roomy(t), t.used, entries, t.used + 1 + Least(entries)) && FindsPlace(t, entries, makeItSafe)
  {
    hide DistinctLookaheads;
    Bounds(entries);
    var slots, i := Roomy(t), t.used + 1 + Least(entries);
    HoleAtEnd(slots, t.used, RoundAt(entries, i));
    assert HoleAt(slots, t.used, entries, i);
  }

  /** When the round finds a place, it and all rounds that were exact before are exact. */
  lemma PlacedExact(t: Table, entries: seq<Slot>, makeItSafe: bool, after: Table, i: int, old_round: Round)
    requires ValidTable(t) && ValidEntries(t, entries) && Inserts(t, entries, makeItSafe, after, i)
             && FindsPlace(t, entries, makeItSafe)
    requires old_round.entries != [] && Exact(t.slots, old_round)
    ensures Exact(after.slots, RoundAt(entries, i)) && Exact(after.slots, old_round)
  {
    hide Exact, MatchSet, Cells, Laid, IsHole, Fits, Least, Greatest, DistinctLookaheads, Grown;
    var slots, r := Roomy(t), RoundAt(entries, i);
    ExactGrown(t.slots, slots, old_round);
    NewRoundExact(t, Insertion(entries, makeItSafe, i), after);
    if !HasDuplicate(slots, t.used, entries, Start(entries, makeItSafe)) {
      HoleFits(slots, t.used, r);
      LaidKeeps(slots, r, after.slots, old_round);
    }
  }

  /**
    When it does not, the round is exact iff nothing else was read at its offset, and a
    round that was exact before stays exact iff none of its slots is written.
   */
  lemma MisplacedExact(t: Table, entries: seq<Slot>, makeItSafe: bool, after: Table, i: int, old_round: Round)
    requires ValidTable(t) && ValidEntries(t, entries) && Inserts(t, entries, makeItSafe, after, i)
             && !FindsPlace(t, entries, makeItSafe)
    requires old_round.entries != [] && Exact(t.slots, old_round)
    ensures var r := RoundAt(entries, i);
            && (Exact(after.slots, r) <==> MatchSet(Roomy(t), r.offset) <= Cells(r))
            && (old_round.offset != r.offset ==> (Exact(after.slots, old_round) <==> Cells(old_round) !! Cells(r)))
  {
    hide Exact, MatchSet, Cells, Laid, IsHole, Fits, Least, Greatest, DistinctLookaheads;
    ExactGrown(t.slots, Roomy(t), old_round);
    OverlaidExact(Roomy(t), RoundAt(entries, i), after.slots, old_round);
  }

  class ActTab {
    const nsymbol: nat
    const nterminal: nat
    var aAction: array<Slot>
    var nAction: nat
    var aLookahead: seq<Slot>
    var mnLookahead: int
    var mnAction: int
    var mxLookahead: int

    predicate Pending()
      reads this
    {
      && DistinctLookaheads(aLookahead)
      && (forall e :: e in aLookahead ==> 0 <= e.lookahead < nsymbol && e.action >= 0)
      && (aLookahead != [] ==>
            && mnLookahead == Least(aLookahead) && mxLookahead == Greatest(aLookahead)
            && Slot(mnLookahead, mnAction) in aLookahead)
    }

    ghost function Contents(): Table
      reads this, aAction
    {
      Table(nsymbol, nterminal, aAction[..], nAction)
    }

    ghost predicate Valid()
      reads this, aAction
    {
      nterminal <= nsymbol && Pending() && ValidTable(Contents())
    }

    constructor (nsymbol: nat, nterminal: nat)
      requires nterminal <= nsymbol
      ensures Valid() && fresh(aAction) && Contents() == Table(nsymbol, nterminal, [], 0) && aLookahead == []
    {
      this.nsymbol, this.nterminal := nsymbol, nterminal;
      aAction := new Slot[0];
      nAction, aLookahead := 0, [];
      mnLookahead, mnAction, mxLookahead := 0, 0, 0;
    }

    /** One action of the round being collected; a lookahead comes once per round. */
    method Action(lookahead: nat, action: nat)
      requires Valid() && lookahead < nsymbol && forall e :: e in aLookahead ==> e.lookahead != lookahead
      modifies this`aLookahead, this`mnLookahead, this`mnAction, this`mxLookahead
      ensures Valid() && aLookahead == old(aLookahead) + [Slot(lookahead, action)]
    {
      hide Least, Greatest, DistinctLookaheads, ValidTable;
      if aLookahead == [] {
        mxLookahead, mnLookahead, mnAction := lookahead, lookahead, action;
      } else {
        if mxLookahead < lookahead {
          mxLookahead := lookahead;
        }
        if mnLookahead > lookahead {
          mnLookahead, mnAction := lookahead, action;
        }
      }
      Appended(aLookahead, Slot(lookahead, action));
      aLookahead := aLookahead + [Slot(lookahead, action)];
    }

    method Grow()
      requires Valid()
      modifies this`aAction
      ensures Valid() && (aAction == old(aAction) || fresh(aAction))
      ensures aAction[..] == Roomy(old(Contents())) && nAction + nsymbol + 1 < aAction.Length
    {
      hide Grown, Least, Greatest, DistinctLookaheads;
      GrownIs(aAction[..], aAction[..]);
      var n := nsymbol + 1;
      if nAction + n >= aAction.Length {
        var more := new Slot[nAction + n + aAction.Length + 20](_ => EMPTY);
        forall i | 0 <= i < aAction.Length {
          more[i] := aAction[i];
        }
        assert more[..] == Grown(aAction[..], more.Length) by {
          assert forall k :: aAction.Length <= k < more.Length ==> more[k] == EMPTY;
          GrownIs(aAction[..], more[..]);
        }
        aAction := more;
      }
    }

    /** The last index at which the round is in the table already, if there is one. */
    method FindDuplicate(end: int) returns (i: int)
      requires Valid() && aLookahead != [] && end >= 0 && nAction <= aAction.Length
      ensures i < nAction && (i >= end ==> DuplicateAt(aAction[..], nAction, aLookahead, i))
      ensures forall j :: i < j < nAction && end <= j ==> !DuplicateAt(aAction[..], nAction, aLookahead, j)
    {
      hide Least, Greatest, DistinctLookaheads, DuplicateAt, ValidTable, MatchSet;
      i := nAction - 1;
      while i >= end
        invariant i < nAction
        invariant forall j :: i < j < nAction && end <= j ==> !DuplicateAt(aAction[..], nAction, aLookahead, j)
        decreases i
      {
        LeastEntryThere(i);
        if aAction[i].lookahead == mnLookahead && aAction[i].action == mnAction {
          var same := EntriesAt(i);
          if same {
            var n := CountMatches(i - mnLookahead);
            if n == |aLookahead| {
              return;
            }
          }
        }
        i := i - 1;
      }
    }

    lemma LeastEntryThere(i: int)
      requires Valid() && aLookahead != [] && 0 <= i < nAction <= aAction.Length
      ensures DuplicateAt(aAction[..], nAction, aLookahead, i) <==>
                && (forall e :: e in aLookahead ==>
                    0 <= i - mnLookahead + e.lookahead < nAction && aAction[i - mnLookahead + e.lookahead] == e)
                && |MatchSet(aAction[..], i - mnLookahead)| == |aLookahead|
      ensures DuplicateAt(aAction[..], nAction, aLookahead, i) ==> aAction[i] == Slot(mnLookahead, mnAction)
    {
      hide Least, Greatest, DistinctLookaheads, MatchSet;
      if DuplicateAt(aAction[..], nAction, aLookahead, i) {
        var e := Slot(mnLookahead, mnAction);
        assert e in aLookahead && aAction[..][i - mnLookahead + e.lookahead] == e;
      }
    }

    method EntriesAt(i: int) returns (same: bool)
      requires nAction <= aAction.Length
      ensures same <==> forall e :: e in aLookahead ==>
                          0 <= i - mnLookahead + e.lookahead < nAction && aAction[i - mnLookahead + e.lookahead] == e
    {
      var j := 0;
      while j < |aLookahead|
        invariant 0 <= j <= |aLookahead|
        invariant forall l :: 0 <= l < j ==>
                    0 <= i - mnLookahead + aLookahead[l].lookahead < nAction
                      && aAction[i - mnLookahead + aLookahead[l].lookahead] == aLookahead[l]
      {
        var k := aLookahead[j].lookahead - mnLookahead + i;
        if k < 0 || k >= nAction || aLookahead[j] != aAction[k] {
          assert aLookahead[j] in aLookahead;
          return false;
        }
        j := j + 1;
      }
      return true;
    }

    method CountMatches(offset: int) returns (n: nat)
      requires Valid() && nAction <= aAction.Length
      ensures n == |MatchSet(aAction[..], offset)|
    {
      n := 0;
      var j := 0;
      while j < nAction
        invariant 0 <= j <= nAction && n == |MatchSet(aAction[..j], offset)|
      {
        MatchSetStep(aAction[..], j, offset);
        if aAction[j].lookahead >= 0 && aAction[j].lookahead == j - offset {
          n := n + 1;
        }
        j := j + 1;
      }
      assert MatchSet(aAction[..nAction], offset) == MatchSet(aAction[..], offset);
    }

    /** The first hole from index `start` on. The search gives up where the greatest lookahead leaves the table. */
    method FindHole(start: int) returns (i: int)
      requires Valid() && aLookahead != [] && start >= 0 && nAction <= aAction.Length
      ensures i < aAction.Length - mxLookahead <==> HasHole(aAction[..], nAction, aLookahead, start)
      ensures start <= i && forall j :: start <= j < i && j < aAction.Length - mxLookahead ==>
              !HoleAt(aAction[..], nAction, aLookahead, j)
      ensures i < aAction.Length - mxLookahead ==> HoleAt(aAction[..], nAction, aLookahead, i)
      ensures i >= aAction.Length - mxLookahead ==>
              i == if start < aAction.Length - mxLookahead then aAction.Length - mxLookahead else start
    {
      hide Least, Greatest, DistinctLookaheads, MatchSet, IsHole, HoleAt, ValidTable;
      i := start;
      while i < aAction.Length - mxLookahead
        invariant start <= i
        invariant i > start ==> i <= aAction.Length - mxLookahead
        invariant forall j :: start <= j < i ==> !HoleAt(aAction[..], nAction, aLookahead, j)
        decreases aAction.Length - mxLookahead - i
      {
        var hole := TestHole(i);
        if hole {
          return;
        }
        i := i + 1;
      }
    }

    method TestHole(i: nat) returns (hole: bool)
      requires Valid() && aLookahead != [] && i < aAction.Length - mxLookahead && nAction <= aAction.Length
      ensures hole <==> HoleAt(aAction[..], nAction, aLookahead, i)
    {
      hide Least, Greatest, DistinctLookaheads, MatchSet;
      hole := SlotsFree(i);
      if hole {
        hole := NoneMatches(i);
      }
    }

    method SlotsFree(i: nat) returns (free: bool)
      requires Valid() && aLookahead != [] && i < aAction.Length - mxLookahead
      ensures free <==> forall e :: e in aLookahead ==>
                          0 <= i - mnLookahead + e.lookahead < aAction.Length
                            && aAction[i - mnLookahead + e.lookahead].lookahead < 0
    {
      hide Least, Greatest, DistinctLookaheads, ValidTable;
      Bounds(aLookahead);
      ghost var least :| least in aLookahead && least.lookahead == mnLookahead;
      if aAction[i].lookahead >= 0 {
        assert i - mnLookahead + least.lookahead == i;
        return false;
      }
      var j := 0;
      while j < |aLookahead|
        invariant 0 <= j <= |aLookahead|
        invariant forall l :: 0 <= l < j ==>
                    0 <= i - mnLookahead + aLookahead[l].lookahead < aAction.Length
                      && aAction[i - mnLookahead + aLookahead[l].lookahead].lookahead < 0
      {
        assert aLookahead[j] in aLookahead;
        var k := aLookahead[j].lookahead - mnLookahead + i;
        if k < 0 || aAction[k].lookahead >= 0 {
          return false;
        }
        j := j + 1;
      }
      return true;
    }

    method NoneMatches(i: int) returns (clear: bool)
      requires nAction <= aAction.Length
      ensures clear <==> forall j :: 0 <= j < nAction ==> aAction[j].lookahead != j - (i - mnLookahead)
    {
      var j := 0;
      while j < nAction
        invariant 0 <= j <= nAction
        invariant forall l :: 0 <= l < j ==> aAction[l].lookahead != l + mnLookahead - i
      {
        if aAction[j].lookahead == j + mnLookahead - i {
          return false;
        }
        j := j + 1;
      }
      return true;
    }

    /** The entries copied into their slots, whatever is in them. */
    method Place(i: int)
      requires Valid() && aLookahead != [] && nAction <= aAction.Length
      requires forall e :: e in aLookahead ==> 0 <= i - mnLookahead + e.lookahead < aAction.Length
      modifies this`nAction, aAction
      ensures Laid(old(aAction[..]), RoundAt(aLookahead, i), aAction[..])
      ensures nAction == AtLeast(old(nAction), i - mnLookahead + mxLookahead + 1) <= aAction.Length
              && ValidTable(Contents())
    {
      hide Least, Greatest, Exact, Laid, Cells, DistinctLookaheads, MatchSet, ValidTable, Used;
      ghost var table, offset := aAction[..], i - mnLookahead;
      var j := 0;
      NothingLaid(table, offset);
      assert aLookahead[..0] == [];
      UsedSoFar(aLookahead, nAction, offset, 0);
      while j < |aLookahead|
        invariant 0 <= j <= |aLookahead| && nAction <= aAction.Length
        invariant Laid(table, Round(offset, aLookahead[..j]), aAction[..])
        invariant ValidTable(Contents())
        invariant nAction == Used(aLookahead[..j], old(nAction), offset)
      {
        assert aLookahead[j] in aLookahead;
        OneLaid(table, offset, aLookahead, j, aAction[..]);
        UsedSoFar(aLookahead, old(nAction), offset, j + 1);
        var k := aLookahead[j].lookahead - mnLookahead + i;
        ghost var before := Contents();
        aAction[k] := aLookahead[j];
        if k >= nAction {
          nAction := k + 1;
        }
        assert aAction[..] == before.slots[k := aLookahead[j]];
        OneWritten(before, k, aLookahead[j], nAction);
        j := j + 1;
      }
      assert aLookahead[..j] == aLookahead;
      UsedInAll(aLookahead, old(nAction), offset);
    }

    /**
      The offset for the round, in a table that is the old one with the round laid over it
      unless it was there. There is none when the round would be written outside the table:
      when no place is found for it and it starts at lookahead 0.
     */
    method Insert(makeItSafe: bool) returns (offset: Option<int>, placed: bool)
      requires Valid() && aLookahead != []
      modifies this`aAction, this`nAction, this`aLookahead, aAction
      ensures aAction == old(aAction) || fresh(aAction)
      ensures placed <==> FindsPlace(old(Contents()), old(aLookahead), makeItSafe)
      ensures offset.None? <==> !placed && Least(old(aLookahead)) == 0
      ensures offset.Some? ==>
                && Valid() && aLookahead == []
                && Inserts(old(Contents()), old(aLookahead), makeItSafe, Contents(),
                           offset.value + Least(old(aLookahead)))
                && (makeItSafe ==> offset.value >= 0 && offset.value + nterminal < nAction)
    {
      hide Least, Greatest, Exact, Laid, DistinctLookaheads, MatchSet, IsChosen, ValidTable, HasDuplicate, HasHole,
           Roomy;
      Grow();
      var i, duplicate := Locate(makeItSafe);
      ChosenInside(aAction[..], nAction, aLookahead, makeItSafe, i, nsymbol);
      placed := duplicate || i < aAction.Length - mxLookahead;
      if !duplicate {
        if i + mxLookahead - mnLookahead >= aAction.Length {
          return None, placed;
        }
        Place(i);
      }
      if makeItSafe && i + nterminal >= nAction {
        UsedMore(i + nterminal + 1);
        nAction := i + nterminal + 1;
      }
      offset := Some(i - mnLookahead);
      aLookahead := [];
      NoEntries();
    }

    /** A duplicate if there is one, else a place. */
    method Locate(makeItSafe: bool) returns (i: int, duplicate: bool)
      requires Valid() && aLookahead != [] && nAction <= aAction.Length
      ensures IsChosen(aAction[..], nAction, aLookahead, Start(aLookahead, makeItSafe), i)
      ensures duplicate <==> HasDuplicate(aAction[..], nAction, aLookahead, Start(aLookahead, makeItSafe))
      ensures !duplicate ==>
                (i < aAction.Length - mxLookahead <==>
                 HasHole(aAction[..], nAction, aLookahead, Start(aLookahead, makeItSafe)))
    {
      hide Least, Greatest, DistinctLookaheads, DuplicateAt, HoleAt, ValidTable;
      Bounds(aLookahead);
      var end := if makeItSafe then mnLookahead else 0;
      i := FindDuplicate(end);
      duplicate := i >= end;
      if !duplicate {
        i := FindHole(end);
      }
    }

    lemma UsedMore(n: nat)
      requires ValidTable(Contents()) && nAction <= n
      ensures ValidTable(Contents().(used := n))
    {
    }
  }

  function Grown(table: seq<Slot>, n: nat): (more: seq<Slot>)
    ensures |more| == if |table| >= n then |table| else n
    ensures more[..|table|] == table && forall k :: |table| <= k < |more| ==> more[k] == EMPTY
  {
    if |table| >= n then table else Grown(table, n - 1) + [EMPTY]
  }

  /** The number of used slots after the entries have been written one by one. */
  function Used(entries: seq<Slot>, used: nat, offset: int): nat {
    if entries == [] then used
    else AtLeast(Used(entries[..|entries| - 1], used, offset), offset + entries[|entries| - 1].lookahead + 1)
  }

  lemma UsedSoFar(entries: seq<Slot>, used: nat, offset: int, j: nat)
    requires j <= |entries|
    ensures j == 0 ==> Used(entries[..j], used, offset) == used
    ensures j > 0 ==>
            Used(entries[..j], used, offset)
            == AtLeast(Used(entries[..j - 1], used, offset), offset + entries[j - 1].lookahead + 1)
  {
    if j > 0 { assert entries[..j][..j - 1] == entries[..j - 1]; }
  }

  lemma {:induction false} UsedInAll(entries: seq<Slot>, used: nat, offset: int)
    requires entries != []
    ensures Used(entries, used, offset) == AtLeast(used, offset + Greatest(entries) + 1)
    decreases |entries|
  {
    if |entries| > 1 {
      UsedInAll(entries[..|entries| - 1], used, offset);
    } else {
      assert Used(entries[..0], used, offset) == used;
    }
  }

  lemma OneWritten(t: Table, k: nat, e: Slot, used: nat)
    requires ValidTable(t) && k < |t.slots| && e.lookahead >= 0 && used == AtLeast(t.used, k + 1)
    ensures ValidTable(t.(slots := t.slots[k := e], used := used))
  {
  }

  lemma NothingLaid(table: seq<Slot>, offset: int)
    ensures Laid(table, Round(offset, []), table)
  {
  }

  lemma OneLaid(table: seq<Slot>, offset: int, entries: seq<Slot>, j: nat, now: seq<Slot>)
    requires j < |entries| && DistinctLookaheads(entries) && Laid(table, Round(offset, entries[..j]), now)
    requires 0 <= offset + entries[j].lookahead < |table|
    ensures |now| == |table|
            && Laid(table, Round(offset, entries[..j + 1]), now[offset + entries[j].lookahead := entries[j]])
  {
    hide Cells;
    Earlier(entries, j);
    CellsUpTo(offset, entries, j);
    hide DistinctLookaheads;
    var e, cell := entries[j], offset + entries[j].lookahead;
    var after := now[cell := e];
    assert after[cell] == e;
    forall k | 0 <= k < |table| && k != cell
      ensures after[k] == now[k]
    {
    }
  }

  lemma Earlier(entries: seq<Slot>, j: nat)
    requires j < |entries| && DistinctLookaheads(entries)
    ensures forall e :: e in entries[..j] ==> e.lookahead != entries[j].lookahead
    ensures forall e :: e in entries[..j + 1] <==> e in entries[..j] || e == entries[j]
  {
    assert entries[..j + 1] == entries[..j] + [entries[j]];
  }

  lemma CellsUpTo(offset: int, entries: seq<Slot>, j: nat)
    requires j < |entries|
    ensures Cells(Round(offset, entries[..j + 1]))
            == Cells(Round(offset, entries[..j])) + {offset + entries[j].lookahead}
  {
    assert entries[..j + 1] == entries[..j] + [entries[j]];
  }

  lemma NoEntries()
    ensures DistinctLookaheads([])
  {
  }

  lemma {:induction false} GrownIs(table: seq<Slot>, more: seq<Slot>)
    requires |table| <= |more| && more[..|table|] == table && forall k :: |table| <= k < |more| ==> more[k] == EMPTY
    ensures more == Grown(table, |more|)
    decreases |more|
  {
    var g := Grown(table, |more|);
    assert forall k :: 0 <= k < |table| ==> more[k] == table[k] && g[k] == g[..|table|][k];
  }

  lemma ExactGrown(was: seq<Slot>, now: seq<Slot>, r: Round)
    requires Exact(was, r) && |was| <= |now| && now[..|was|] == was
             && forall k :: |was| <= k < |now| ==> now[k] == EMPTY
    ensures Exact(now, r)
  {
    assert forall k :: 0 <= k < |was| ==> now[k] == was[k];
    assert MatchSet(now, r.offset) == MatchSet(was, r.offset);
  }

  lemma MatchSetStep(table: seq<Slot>, j: nat, offset: int)
    requires j < |table|
    ensures MatchSet(table[..j + 1], offset) ==
            MatchSet(table[..j], offset) + if table[j].lookahead >= 0
              && table[j].lookahead == j - offset then {j} else {}
    ensures j !in MatchSet(table[..j], offset)
  {
  }

  // ----- whole runs -----

  /** A round inserted, with the index found for its least lookahead. */
  datatype Insertion = Insertion(entries: seq<Slot>, makeItSafe: bool, i: int)

  ghost predicate Runs(tables: seq<Table>, rounds: seq<Insertion>) {
    && |tables| == |rounds| + 1 && tables[0].slots == [] && tables[0].used == 0
    && forall k :: 0 <= k < |rounds| ==> RunsStep(tables, rounds, k)
  }

  ghost predicate RunsStep(tables: seq<Table>, rounds: seq<Insertion>, k: nat)
    requires k < |rounds| && |tables| == |rounds| + 1
  {
    && ValidTable(tables[k]) && ValidEntries(tables[k], rounds[k].entries)
    && Inserts(tables[k], rounds[k].entries, rounds[k].makeItSafe, tables[k + 1], rounds[k].i)
  }

  /** As long as every round finds a place, all rounds inserted so far are exact. */
  lemma {:induction false} AllRoundsExact(tables: seq<Table>, rounds: seq<Insertion>, n: nat)
    requires Runs(tables, rounds) && n <= |rounds|
    requires forall k :: 0 <= k < n ==>
             rounds[k].entries != [] && FindsPlace(tables[k], rounds[k].entries, rounds[k].makeItSafe)
    ensures forall k :: 0 <= k < n ==>
            rounds[k].entries != [] && Exact(tables[n].slots, RoundAt(rounds[k].entries, rounds[k].i))
  {
    hide Exact, Inserts, FindsPlace, ValidTable, ValidEntries, Least;
    if n > 0 {
      AllRoundsExact(tables, rounds, n - 1);
      var t, r := tables[n - 1], rounds[n - 1];
      assert RunsStep(tables, rounds, n - 1);
      NewRoundExact(t, r, tables[n]);
      forall k | 0 <= k < n - 1
        ensures Exact(tables[n].slots, RoundAt(rounds[k].entries, rounds[k].i))
      {
        PlacedExact(t, r.entries, r.makeItSafe, tables[n], r.i, RoundAt(rounds[k].entries, rounds[k].i));
      }
    }
  }

  /** How many slots more than one per symbol there are behind the used ones, if at most `spent` are used. */
  function Slack(spent: nat): nat {
    if spent < 19 then 19 - spent else 0
  }

  /** Least and greatest lookahead leave enough room; a safe round must also end inside the table for every terminal. */
  predicate Small(entries: seq<Slot>, makeItSafe: bool, nsymbol: nat, nterminal: nat, spent: nat) {
    && entries != [] && Least(entries) + Greatest(entries) <= nsymbol + Slack(spent)
    && (makeItSafe ==> Least(entries) + nterminal <= nsymbol + Slack(spent))
  }

  /** How far a round that finds a place can move the end of the used slots. */
  function Cost(entries: seq<Slot>, makeItSafe: bool, nterminal: nat): nat
    requires entries != []
  {
    AtLeast(AtLeast(0, Greatest(entries) + 2), if makeItSafe then Least(entries) + nterminal + 2 else 0)
  }

  function Spent(rounds: seq<Insertion>, nterminal: nat): nat {
    if rounds == [] then 0
    else
      var r := rounds[|rounds| - 1];
      Spent(rounds[..|rounds| - 1], nterminal) + if r.entries == [] then 0 else Cost(r.entries, r.makeItSafe, nterminal)
  }

  /** Nothing allocated yet, or at least what the first allocation gives. */
  predicate Begun(t: Table) {
    t.slots == [] || |t.slots| >= t.nsymbol + 21
  }

  lemma SmallPlaced(t: Table, entries: seq<Slot>, makeItSafe: bool, spent: nat)
    requires ValidTable(t) && ValidEntries(t, entries) && Begun(t) && t.used <= spent
    requires Small(entries, makeItSafe, t.nsymbol, t.nterminal, spent)
    ensures FindsPlace(t, entries, makeItSafe)
  {
    hide FindsPlace, Least, Greatest, DistinctLookaheads;
    HoleAfterUsed(t, entries, makeItSafe);
  }

  /** A small round leaves the used slots inside the table. */
  lemma UsedInside(t: Table, r: Insertion, after: Table, spent: nat)
    requires ValidTable(t) && ValidEntries(t, r.entries) && Inserts(t, r.entries, r.makeItSafe, after, r.i)
    requires Begun(t) && t.used <= spent && Small(r.entries, r.makeItSafe, t.nsymbol, t.nterminal, spent)
    ensures after.used <= |after.slots| && after.nsymbol == t.nsymbol && after.nterminal == t.nterminal
    ensures Begun(after) && after.used <= t.used + Cost(r.entries, r.makeItSafe, t.nterminal)
  {
    hide DistinctLookaheads, MatchSet, Cells, Exact, DuplicateAt, IsHole, Least, Greatest;
    HoleAfterUsed(t, r.entries, r.makeItSafe);
    Bounds(r.entries);
    var slots, start := Roomy(t), Start(r.entries, r.makeItSafe);
    assert |slots| >= t.used + t.nsymbol + 2 && |slots| >= t.nsymbol + 21;
    if !HasDuplicate(slots, t.used, r.entries, start) {
      assert HasHole(slots, t.used, r.entries, start) && r.i <= t.used + 1 + Least(r.entries);
    }
  }

  /** The rounds are small for what those before them can have used. */
  ghost predicate AreSmall(rounds: seq<Insertion>, n: nat, nsymbol: nat, nterminal: nat)
    requires n <= |rounds|
  {
    forall k :: 0 <= k < n ==>
      Small(rounds[k].entries, rounds[k].makeItSafe, nsymbol, nterminal, Spent(rounds[..k], nterminal))
  }

  /** Runs of such rounds: every one finds a place, and the used slots stay inside the table. */
  lemma {:induction false} SmallRun(tables: seq<Table>, rounds: seq<Insertion>, n: nat, nsymbol: nat, nterminal: nat)
    requires Runs(tables, rounds) && n <= |rounds| && nterminal <= nsymbol && AreSmall(rounds, n, nsymbol, nterminal)
    requires tables[0].nsymbol == nsymbol && tables[0].nterminal == nterminal
    ensures tables[n].nsymbol == nsymbol && tables[n].nterminal == nterminal && tables[n].used <= |tables[n].slots|
    ensures Begun(tables[n]) && tables[n].used <= Spent(rounds[..n], nterminal)
    ensures forall k :: 0 <= k < n ==>
              rounds[k].entries != [] && FindsPlace(tables[k], rounds[k].entries, rounds[k].makeItSafe)
  {
    hide FindsPlace, ValidTable, ValidEntries, Inserts, Least, Greatest, Cost, Slack, Begun;
    if n > 0 {
      SmallRun(tables, rounds, n - 1, nsymbol, nterminal);
      var before, r := tables[n - 1], rounds[n - 1];
      var spent := Spent(rounds[..n - 1], nterminal);
      assert RunsStep(tables, rounds, n - 1);
      assert Small(r.entries, r.makeItSafe, nsymbol, nterminal, spent);
      UsedInside(before, r, tables[n], spent);
      SmallPlaced(before, r.entries, r.makeItSafe, spent);
      assert rounds[..n][..n - 1] == rounds[..n - 1] && rounds[..n][n - 1] == r;
    } else {
      StartsEmpty(tables, rounds);
    }
  }

  lemma StartsEmpty(tables: seq<Table>, rounds: seq<Insertion>)
    requires Runs(tables, rounds)
    ensures Begun(tables[0]) && tables[0].used == 0
  {
  }

  lemma NewRoundExact(t: Table, r: Insertion, after: Table)
    requires ValidTable(t) && ValidEntries(t, r.entries) && Inserts(t, r.entries, r.makeItSafe, after, r.i)
             && FindsPlace(t, r.entries, r.makeItSafe)
    ensures Exact(after.slots, RoundAt(r.entries, r.i))
  {
    hide Exact, MatchSet, Cells, Laid, IsHole, Fits, Least, Greatest, DistinctLookaheads, Grown;
    var slots := Roomy(t);
    if HasDuplicate(slots, t.used, r.entries, Start(r.entries, r.makeItSafe)) {
      DuplicateExact(slots, RoundAt(r.entries, r.i));
    } else {
      HoleFits(slots, t.used, RoundAt(r.entries, r.i));
      LaidExact(slots, RoundAt(r.entries, r.i), after.slots);
    }
  }

  // ----- a run in which a round finds no place -----

  /** The rounds in the order the generator takes them: long ones first, and only those of terminals safe. */
  predicate AsGenerated(rounds: seq<Insertion>, nterminal: nat) {
    && (forall k, e :: 0 <= k < |rounds| && e in rounds[k].entries ==>
          if rounds[k].makeItSafe then e.lookahead < nterminal else e.lookahead >= nterminal)
    && forall k :: 0 < k < |rounds| ==> |rounds[k].entries| <= |rounds[k - 1].entries|
  }

  /** Twenty nonterminals after the terminals. */
  function Twenty(nterminal: nat, slots: seq<Slot>, used: nat): Table {
    Table(nterminal + 20, nterminal, slots, used)
  }

  /** Gotos of sixteen nonterminals, the first of which is `t`, with a gap for three rounds of one. */
  function WithGap(t: nat): (entries: seq<Slot>)
    ensures |entries| == 16 && entries[0] == Slot(t, 0)
            && forall k :: 1 <= k < 16 ==> entries[k] == Slot(t + k + 3, 0)
  {
    [Slot(t, 0)] + seq(15, k => Slot(t + k + 4, 0))
  }

  /** The slots once the first `n` of the small rounds are in the gap. */
  function GapFilled(t: nat, n: nat): (slots: seq<Slot>)
    ensures |slots| == 41 + t
    ensures forall k :: 0 <= k < |slots| ==>
            slots[k] == if k == 0 || 4 <= k < 19 then Slot(t + k, 0)
                        else if 0 < k <= n && k < 4 then Slot(t, k) else EMPTY
  {
    seq(41 + t, k => if k == 0 || 4 <= k < 19 then Slot(t + k, 0)
                     else if 0 < k <= n && k < 4 then Slot(t, k) else EMPTY)
  }

  /** Three states with another goto of the first nonterminal, one with a goto of the last, one that reduces. */
  function Crowded(t: nat): seq<Insertion> {
    [Insertion(WithGap(t), false, 0), Insertion([Slot(t, 1)], false, 1), Insertion([Slot(t, 2)], false, 2),
     Insertion([Slot(t, 3)], false, 3), Insertion([Slot(t + 19, 0)], false, 22), Insertion([Slot(0, 4)], true, 19)]
  }

  /** The table when the last goto has been laid past the others. */
  function Overfull(t: nat): seq<Slot> {
    GapFilled(t, 3)[22 := Slot(t + 19, 0)]
  }

  function CrowdedTables(t: nat): seq<Table> {
    [Twenty(t, [], 0), Twenty(t, GapFilled(t, 0), 19), Twenty(t, GapFilled(t, 1), 19), Twenty(t, GapFilled(t, 2), 19),
     Twenty(t, GapFilled(t, 3), 19), Twenty(t, Overfull(t), 23),
     Twenty(t, Grown(Overfull(t), 105 + 2 * t)[19 := Slot(0, 4)], AtLeast(23, 20 + t))]
  }

  lemma WithGapBounds(t: nat)
    ensures ValidEntries(Twenty(t, [], 0), WithGap(t)) && Least(WithGap(t)) == t && Greatest(WithGap(t)) == t + 18
    ensures forall e :: e in WithGap(t) <==> e.action == 0 && (e.lookahead == t || t + 4 <= e.lookahead < t + 19)
  {
    hide WithGap;
    var entries := WithGap(t);
    assert entries[15] == Slot(t + 18, 0);
    forall e
      ensures e in entries <==> e.action == 0 && (e.lookahead == t || t + 4 <= e.lookahead < t + 19)
    {
      if e.action == 0 && t + 4 <= e.lookahead < t + 19 {
        assert entries[e.lookahead - t - 3] == e;
      }
    }
    Bounds(entries);
    hide Least, Greatest;
  }

  /** The first round starts the table. */
  lemma FirstRoundPlaced(t: nat)
    ensures Inserts(Twenty(t, [], 0), WithGap(t), false, Twenty(t, GapFilled(t, 0), 19), 0)
  {
    hide WithGap, GapFilled, Least, Greatest, Grown, Cells, HoleAt, Laid, HasDuplicate;
    WithGapBounds(t);
    FirstRoom(t);
    var slots := Roomy(Twenty(t, [], 0));
    GapLaid(t, slots);
    NoneYet(slots, WithGap(t));
    FirstHole(slots, 0, WithGap(t), 0);
    hide Roomy, IsChosen, RoundAt;
    assert IsChosen(slots, 0, WithGap(t), Start(WithGap(t), false), 0);
    assert Laid(slots, RoundAt(WithGap(t), 0), GapFilled(t, 0));
  }

  /** A hole right where the search starts. */
  lemma FirstHole(slots: seq<Slot>, used: nat, entries: seq<Slot>, i: int)
    requires entries != [] && !HasDuplicate(slots, used, entries, i) && i < |slots| - Greatest(entries)
             && HoleAt(slots, used, entries, i)
    ensures IsChosen(slots, used, entries, i, i)
  {
    hide Greatest, HoleAt, HasDuplicate;
  }

  lemma FirstRoom(t: nat)
    ensures var slots := Roomy(Twenty(t, [], 0));
            |slots| == 41 + t && forall k :: 0 <= k < |slots| ==> slots[k] == EMPTY
  {
    hide Grown;
  }

  lemma NoneYet(slots: seq<Slot>, entries: seq<Slot>)
    ensures !HasDuplicate(slots, 0, entries, 0)
  {
    hide DuplicateAt;
  }

  lemma GapLaid(t: nat, slots: seq<Slot>)
    requires |slots| == 41 + t && forall k :: 0 <= k < |slots| ==> slots[k] == EMPTY
    ensures HoleAt(slots, 0, WithGap(t), 0) && Laid(slots, RoundAt(WithGap(t), 0), GapFilled(t, 0))
  {
    hide WithGap, GapFilled, Least, Greatest, Cells;
    WithGapBounds(t);
    GapCells(t, RoundAt(WithGap(t), 0));
  }

  lemma GapCells(t: nat, r: Round)
    requires r.offset + t == 0
    requires forall e :: e in r.entries <==> e.action == 0 && (e.lookahead == t || t + 4 <= e.lookahead < t + 19)
    ensures forall k {:trigger k in Cells(r)} :: k in Cells(r) <==> k == 0 || 4 <= k < 19
  {
    forall k {:trigger k in Cells(r)}
      ensures k in Cells(r) <==> k == 0 || 4 <= k < 19
    {
      if k == 0 || 4 <= k < 19 {
        assert Slot(t + k, 0) in r.entries;
      }
    }
  }

  lemma NoGrowth(t: Table)
    requires t.used + t.nsymbol + 1 < |t.slots|
    ensures Roomy(t) == t.slots
  {
  }

  lemma OneEntry(e: Slot)
    ensures Least([e]) == Greatest([e]) == e.lookahead && DistinctLookaheads([e])
    ensures forall f :: f in [e] <==> f == e
  {
  }

  lemma OneCell(e: Slot, i: int)
    ensures Cells(RoundAt([e], i)) == {i}
  {
    assert Least([e]) == e.lookahead && e in [e];
    hide Least;
  }

  lemma NotThere(slots: seq<Slot>, used: nat, e: Slot, start: int)
    requires used <= |slots| && start >= 0 && forall i :: 0 <= i < used ==> slots[i] != e
    ensures !HasDuplicate(slots, used, [e], start)
  {
    OneEntry(e);
    hide Least, MatchSet;
    forall i | start <= i < used
      ensures !DuplicateAt(slots, used, [e], i)
    {
      assert e in [e];
    }
  }

  /** Where a round of one entry may be put. */
  lemma OneHole(slots: seq<Slot>, used: nat, e: Slot, i: nat)
    requires used <= |slots| && i < |slots|
    ensures HoleAt(slots, used, [e], i) <==>
              slots[i].lookahead < 0 && forall j :: 0 <= j < used ==> slots[j].lookahead != j - i + e.lookahead
  {
    OneEntry(e);
    hide Least, Greatest, Cells, MatchSet;
    assert e in [e];
  }

  /** A goto of the first nonterminal goes into the first slot of the gap. */
  lemma SmallRoundPlaced(t: nat, n: nat)
    requires n < 3
    ensures Inserts(Twenty(t, GapFilled(t, n), 19), [Slot(t, n + 1)], false, Twenty(t, GapFilled(t, n + 1), 19), n + 1)
  {
    hide GapFilled, Least, Greatest, Grown, Cells, HoleAt, HasDuplicate, MatchSet;
    var slots, e := GapFilled(t, n), Slot(t, n + 1);
    NoGrowth(Twenty(t, slots, 19));
    OneEntry(e);
    NotThere(slots, 19, e, 0);
    forall i | 0 <= i <= n + 1
      ensures HoleAt(slots, 19, [e], i) <==> i == n + 1
    {
      OneHole(slots, 19, e, i);
    }
    assert HoleAt(slots, 19, [e], n + 1);
    OneCell(e, n + 1);
    assert GapFilled(t, n + 1) == slots[n + 1 := e];
    assert Laid(slots, RoundAt([e], n + 1), GapFilled(t, n + 1));
  }

  /** Every index the search tries is in use, or would read a round that is there already. */
  lemma LastGotoMisplaced(t: nat)
    ensures var table := Twenty(t, GapFilled(t, 3), 19);
            && Inserts(table, [Slot(t + 19, 0)], false, Twenty(t, Overfull(t), 23), 22)
            && !FindsPlace(table, [Slot(t + 19, 0)], false)
  {
    hide GapFilled, Least, Greatest, Grown, Cells, HoleAt, HasDuplicate, MatchSet;
    var slots, e := GapFilled(t, 3), Slot(t + 19, 0);
    NoGrowth(Twenty(t, slots, 19));
    OneEntry(e);
    NotThere(slots, 19, e, 0);
    forall i | 0 <= i < 22
      ensures !HoleAt(slots, 19, [e], i)
    {
      OneHole(slots, 19, e, i);
      assert i >= 19 ==> slots[i - 19].lookahead == t;
    }
    OneCell(e, 22);
    assert Laid(slots, RoundAt([e], 22), slots[22 := e]);
  }

  /** The round of a terminal that follows is put into the first empty slot, and repairs nothing. */
  lemma TokenRoundPlaced(t: nat)
    requires t > 0
    ensures Inserts(CrowdedTables(t)[5], [Slot(0, 4)], true, CrowdedTables(t)[6], 19)
  {
    hide GapFilled, Least, Greatest, Grown, Cells, HoleAt, HasDuplicate, MatchSet;
    var table, e := Twenty(t, Overfull(t), 23), Slot(0, 4);
    var slots := Roomy(table);
    assert slots == Grown(Overfull(t), 105 + 2 * t);
    OneEntry(e);
    assert forall i :: 0 <= i < 23 ==> slots[i] == Overfull(t)[i];
    NotThere(slots, 23, e, 0);
    forall i | 0 <= i <= 19
      ensures HoleAt(slots, 23, [e], i) <==> i == 19
    {
      OneHole(slots, 23, e, i);
    }
    assert HoleAt(slots, 23, [e], 19);
    OneCell(e, 19);
    assert Laid(slots, RoundAt([e], 19), slots[19 := e]);
  }

  /**
    For every number of terminals: five states' gotos of twenty nonterminals and then a
    round of a terminal, in an order the generator takes rounds in. The search for a place
    of the fifth gives up, and from then on neither that round nor the fourth is exact: each
    is read where the other was meant.
   */
  lemma CrowdedRun(t: nat)
    requires t > 0
    ensures Runs(CrowdedTables(t), Crowded(t)) && AsGenerated(Crowded(t), t)
    ensures !FindsPlace(CrowdedTables(t)[4], Crowded(t)[4].entries, Crowded(t)[4].makeItSafe)
    ensures forall k :: 5 <= k <= 6 ==>
              var slots := CrowdedTables(t)[k].slots;
              && !Exact(slots, RoundAt(Crowded(t)[4].entries, 22)) && !Exact(slots, RoundAt(Crowded(t)[3].entries, 3))
              && Found(slots, 3 - t, t) && Found(slots, 3 - t, t + 19)
  {
    hide WithGap, GapFilled, Inserts, FindsPlace, Least, Exact, Overfull, Grown;
    WithGapBounds(t);
    FirstRoundPlaced(t);
    OneEntry(Slot(t, 1));
    OneEntry(Slot(t, 2));
    OneEntry(Slot(t, 3));
    OneEntry(Slot(t + 19, 0));
    OneEntry(Slot(0, 4));
    SmallRoundPlaced(t, 0);
    SmallRoundPlaced(t, 1);
    SmallRoundPlaced(t, 2);
    LastGotoMisplaced(t);
    TokenRoundPlaced(t);
    CrowdedValid(t);
    CrowdedSteps(t);
    CrowdedSlots(t);
    BothMisread(t, CrowdedTables(t)[5].slots);
    BothMisread(t, CrowdedTables(t)[6].slots);
  }

  lemma CrowdedValid(t: nat)
    ensures forall k :: 0 <= k < 7 ==> ValidTable(CrowdedTables(t)[k])
  {
    hide GapFilled, Grown;
    var slots := Grown(Overfull(t), 105 + 2 * t);
    assert forall k :: 0 <= k < 41 + t ==> slots[k] == Overfull(t)[k];
    forall k | 0 <= k < 7
      ensures ValidTable(CrowdedTables(t)[k])
    {
      assert k == 0 || k == 1 || k == 2 || k == 3 || k == 4 || k == 5 || k == 6;
    }
  }

  lemma CrowdedSteps(t: nat)
    requires Inserts(Twenty(t, [], 0), WithGap(t), false, Twenty(t, GapFilled(t, 0), 19), 0)
    requires forall n: nat :: n < 3 ==>
             Inserts(Twenty(t, GapFilled(t, n), 19), [Slot(t, n + 1)], false, Twenty(t, GapFilled(t, n + 1), 19), n + 1)
    requires Inserts(Twenty(t, GapFilled(t, 3), 19), [Slot(t + 19, 0)], false, Twenty(t, Overfull(t), 23), 22)
    requires Inserts(CrowdedTables(t)[5], [Slot(0, 4)], true, CrowdedTables(t)[6], 19)
    requires ValidEntries(Twenty(t, [], 0), WithGap(t)) && forall k :: 0 <= k < 7 ==> ValidTable(CrowdedTables(t)[k])
    ensures Runs(CrowdedTables(t), Crowded(t))
  {
    hide WithGap, GapFilled, Inserts, ValidTable, Overfull, Grown;
    var tables, rounds := CrowdedTables(t), Crowded(t);
    forall k | 0 <= k < 6
      ensures RunsStep(tables, rounds, k)
    {
      assert k == 0 || k == 1 || k == 2 || k == 3 || k == 4 || k == 5;
    }
  }

  lemma CrowdedSlots(t: nat)
    ensures forall k :: 5 <= k <= 6 ==>
              var slots := CrowdedTables(t)[k].slots;
              22 < |slots| && slots[3] == Slot(t, 3) && slots[22] == Slot(t + 19, 0)
  {
    hide GapFilled, Grown;
    var slots := Grown(Overfull(t), 105 + 2 * t);
    assert slots[3] == Overfull(t)[3] && slots[22] == Overfull(t)[22];
  }

  lemma BothMisread(t: nat, slots: seq<Slot>)
    requires 22 < |slots| && slots[3] == Slot(t, 3) && slots[22] == Slot(t + 19, 0)
    ensures !Exact(slots, RoundAt([Slot(t + 19, 0)], 22)) && !Exact(slots, RoundAt([Slot(t, 3)], 3))
    ensures Found(slots, 3 - t, t) && Found(slots, 3 - t, t + 19)
  {
    hide Cells;
    OneCell(Slot(t + 19, 0), 22);
    OneCell(Slot(t, 3), 3);
    OneEntry(Slot(t + 19, 0));
    OneEntry(Slot(t, 3));
    assert 3 in MatchSet(slots, 3 - t) && 22 in MatchSet(slots, 3 - t);
  }

  // ----- the tables as they are written out, and read by the driver -----

  function EmitLookahead(table: seq<Slot>, nsymbol: nat): (out: seq<nat>)
    ensures |out| == |table|
    ensures forall i :: 0 <= i < |table| ==> out[i] == if table[i].lookahead < 0 then nsymbol else table[i].lookahead
  {
    if table == [] then []
    else
      var x := table[|table| - 1];
      EmitLookahead(table[..|table| - 1], nsymbol) + [if x.lookahead < 0 then nsymbol else x.lookahead]
  }

  /** The trailing empty slots are not written. */
  function ActionSize(table: seq<Slot>): (n: nat)
    ensures n <= |table| && forall i :: n <= i < |table| ==> table[i].lookahead < 0
  {
    if table == [] || table[|table| - 1].lookahead >= 0 then |table| else ActionSize(table[..|table| - 1])
  }

  function EmitAction(table: seq<Slot>, noAction: nat): (out: seq<nat>)
    ensures |out| == |table|
    ensures forall i :: 0 <= i < |table| ==> out[i] == if table[i].action < 0 then noAction else table[i].action
  {
    if table == [] then []
    else
      var x := table[|table| - 1];
      EmitAction(table[..|table| - 1], noAction) + [if x.action < 0 then noAction else x.action]
  }

  predicate EmittedFrom(t: Tables, table: seq<Slot>, nsymbol: nat, noAction: nat) {
    t.lookahead == EmitLookahead(table, nsymbol) && t.action == EmitAction(table[..ActionSize(table)], noAction)
  }

  lemma EmittedAt(t: Tables, table: seq<Slot>, nsymbol: nat, noAction: nat, i: int, x: nat)
    requires EmittedFrom(t, table, nsymbol, noAction) && x < nsymbol
    ensures 0 <= i < |t.lookahead| && t.lookahead[i] == x <==> 0 <= i < |table| && table[i].lookahead == x
    ensures 0 <= i < |table| && table[i].lookahead == x ==>
              0 <= i < |t.action| && (table[i].action >= 0 ==> t.action[i] == table[i].action)
  {
  }

  /** The driver's lookup of a terminal is the state's own map, and its default everywhere else. */
  lemma ShiftLookup(g: Grammar, t: Tables, table: seq<Slot>, nsymbol: nat, noAction: nat, r: Round, s: nat, token: nat)
    requires ValidTables(g, t) && EmittedFrom(t, table, nsymbol, noAction) && g.nTerminals <= nsymbol
    requires s <= t.maxShift && t.shiftOfst[s] == r.offset && Exact(table, r) && DistinctLookaheads(r.entries)
             && token < g.nTerminals
    requires forall e :: e in r.entries ==> e.action >= 0
    ensures forall a :: Gives(r, token, a) ==> FindShiftAction(g, t, s, token) == a
    ensures (forall a :: !Gives(r, token, a)) ==> FindShiftAction(g, t, s, token) == t.deflt[s]
  {
    hide Exact, DistinctLookaheads, EmittedFrom;
    ExactReads(table, r, token);
    EmittedAt(t, table, nsymbol, noAction, r.offset + token, token);
    assert t.shiftOfst[s] >= 0;
  }

  /** A goto that is in the state's map is found, with its action. */
  lemma ReduceLookup(g: Grammar, t: Tables, table: seq<Slot>, nsymbol: nat, noAction: nat, r: Round, s: nat,
                     major: nat, a: int)
    requires ValidTables(g, t) && EmittedFrom(t, table, nsymbol, noAction) && major < nsymbol
    requires s <= t.maxShift && s < |t.reduceOfst| && t.reduceOfst[s] == r.offset && Exact(table, r)
             && DistinctLookaheads(r.entries)
    requires Gives(r, major, a) && a >= 0
    ensures HasGoto(g, t, s, major) && FindReduceAction(g, t, s, major) == a
  {
    hide Exact, DistinctLookaheads, EmittedFrom;
    ExactReads(table, r, major);
    EmittedAt(t, table, nsymbol, noAction, r.offset + major, major);
  }
}
