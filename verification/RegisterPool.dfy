/**
  The register allocator on values: registers that were given back, most recent
  first, then the ones never used, in ascending order. The generator's class keeps
  the same free list threaded through an array.
 */
module RegisterPool {
  const MAX_REGISTERS := 250
  const UNUSED := -1

  /** A variable of a scope, or the temporary with the given number in a scope. */
  datatype Key = Named(name: string, level: nat) | Temp(level: nat, counter: nat)

  datatype Pool = Pool(recycled: seq<nat>, used: nat, owner: map<Key, nat>, temps: set<nat>)

  const EMPTY_POOL := Pool([], 0, map[], {})

  predicate Full(p: Pool) {
    p.recycled == [] && p.used >= MAX_REGISTERS
  }

  /** The register the next allocation takes. */
  function Next(p: Pool): nat {
    if p.recycled != [] then p.recycled[0] else p.used
  }

  function Taken(p: Pool): Pool {
    if p.recycled != [] then p.(recycled := p.recycled[1..]) else p.(used := p.used + 1)
  }

  function GivenBack(p: Pool, r: nat): Pool {
    p.(recycled := [r] + p.recycled)
  }

  /** The pool afterwards; the register returned is `Allocated`. */
  function Allocate(p: Pool, key: Key): Pool {
    if Full(p) || key in p.owner then p else Taken(p).(owner := p.owner[key := Next(p)])
  }

  function Allocated(p: Pool, key: Key): int {
    if Full(p) then UNUSED else if key in p.owner then p.owner[key] else Next(p)
  }

  function Deallocate(p: Pool, key: Key): Pool {
    if key in p.owner then GivenBack(p, p.owner[key]).(owner := p.owner - {key}) else p
  }

  function AllocateTemporary(p: Pool): Pool {
    if Full(p) then p else Taken(p).(temps := p.temps + {Next(p)})
  }

  function AllocatedTemporary(p: Pool): int {
    if Full(p) then UNUSED else Next(p)
  }

  function DeallocateTemporary(p: Pool, r: int): Pool
    requires r == UNUSED || r >= 0
  {
    if r == UNUSED then p else GivenBack(p, r).(temps := p.temps - {r})
  }

  function RegisterFor(p: Pool, key: Key): int {
    if key in p.owner then p.owner[key] else UNUSED
  }

  function MaxRegisterCount(p: Pool): nat {
    if p.used == 0 then 1 else p.used
  }

  function Live(p: Pool): nat {
    |p.owner| + |p.temps|
  }

  predicate Injective(m: map<Key, nat>) {
    forall j, k :: j in m && k in m && j != k ==> m[j] != m[k]
  }

  predicate Distinct(s: seq<nat>) {
    forall i, j :: 0 <= i < j < |s| ==> s[i] != s[j]
  }

  /** The register is given back, a temporary, or somebody's. */
  predicate Known(p: Pool, r: nat) {
    r in p.recycled || r in p.temps || exists k :: k in p.owner && p.owner[k] == r
  }

  /**
    Owners have distinct registers; owned, temporary and given-back registers are
    disjoint; together they are exactly the registers used so far.
   */
  ghost predicate Inv(p: Pool) {
    && p.used <= MAX_REGISTERS
    && Distinct(p.recycled)
    && Injective(p.owner)
    && (forall r :: r in p.recycled ==> r < p.used && r !in p.temps)
    && (forall k :: k in p.owner ==> p.owner[k] < p.used && p.owner[k] !in p.recycled && p.owner[k] !in p.temps)
    && (forall r :: r in p.temps ==> r < p.used)
    && (forall r :: 0 <= r < p.used ==> Known(p, r))
    && |p.recycled| + Live(p) == p.used
  }

  lemma TakenInv(p: Pool)
    requires Inv(p) && !Full(p)
    ensures forall r :: r in Taken(p).recycled <==> r in p.recycled && r != Next(p)
    ensures Distinct(Taken(p).recycled) && Next(p) < Taken(p).used <= MAX_REGISTERS && p.used <= Taken(p).used
    ensures |Taken(p).recycled| + Live(p) + 1 == Taken(p).used
    ensures Next(p) !in p.temps && forall k :: k in p.owner ==> p.owner[k] != Next(p)
    ensures Taken(p).used > p.used ==> Next(p) == p.used == Taken(p).used - 1
  {
    if p.recycled != [] {
      assert p.recycled == [p.recycled[0]] + p.recycled[1..];
      assert p.recycled[0] in p.recycled;
    }
  }

  lemma OwnerAdded(owner: map<Key, nat>, key: Key, r: nat)
    requires Injective(owner) && key !in owner && forall k :: k in owner ==> owner[k] != r
    ensures Injective(owner[key := r]) && |owner[key := r]| == |owner| + 1
  {
  }

  lemma OwnerRemoved(owner: map<Key, nat>, key: Key)
    requires Injective(owner) && key in owner
    ensures Injective(owner - {key}) && |owner| == |owner - {key}| + 1
    ensures forall k :: k in owner - {key} ==> owner[k] != owner[key]
  {
    assert owner == (owner - {key})[key := owner[key]];
  }

  lemma RecycledMore(recycled: seq<nat>, r: nat)
    requires Distinct(recycled) && r !in recycled
    ensures Distinct([r] + recycled) && forall x :: x in [r] + recycled <==> x == r || x in recycled
  {
  }

  lemma AllocateInv(p: Pool, key: Key)
    requires Inv(p)
    ensures Inv(Allocate(p, key))
  {
    if !Full(p) && key !in p.owner {
      TakenInv(p);
      OwnerAdded(p.owner, key, Next(p));
      hide Injective, Distinct;
      var q := Allocate(p, key);
      forall r | 0 <= r < q.used
        ensures Known(q, r)
      {
        if r == Next(p) {
          assert q.owner[key] == r;
        } else if r !in p.recycled && r !in p.temps {
          assert Known(p, r);
          var k :| k in p.owner && p.owner[k] == r;
          assert q.owner[k] == r;
        }
      }
    }
  }

  lemma AllocateTemporaryInv(p: Pool)
    requires Inv(p)
    ensures Inv(AllocateTemporary(p))
  {
    if !Full(p) {
      TakenInv(p);
      var q := AllocateTemporary(p);
      assert |q.temps| == |p.temps| + 1;
      forall r | 0 <= r < q.used
        ensures Known(q, r)
      {
        assert r != Next(p) ==> r < p.used && Known(p, r);
      }
    }
  }

  lemma DeallocateInv(p: Pool, key: Key)
    requires Inv(p)
    ensures Inv(Deallocate(p, key))
  {
    if key in p.owner {
      var q, r0 := Deallocate(p, key), p.owner[key];
      OwnerRemoved(p.owner, key);
      RecycledMore(p.recycled, r0);
      hide Injective, Distinct;
      forall r | 0 <= r < q.used
        ensures Known(q, r)
      {
        assert Known(p, r);
        if r != r0 && r !in p.recycled && r !in p.temps {
          var k :| k in p.owner && p.owner[k] == r;
          assert k in q.owner && q.owner[k] == r;
        }
      }
    }
  }

  lemma DeallocateTemporaryInv(p: Pool, r: nat)
    requires Inv(p) && r in p.temps
    ensures Inv(DeallocateTemporary(p, r))
  {
    var q := DeallocateTemporary(p, r);
    RecycledMore(p.recycled, r);
    hide Injective, Distinct;
    assert |p.temps| == |q.temps| + 1;
    forall x | 0 <= x < q.used
      ensures Known(q, x)
    {
      assert Known(p, x);
    }
  }

  // ----- every history -----

  datatype Request =
    | Acquire(key: Key)
    | Release(key: Key)
    | AcquireTemporary
    | ReleaseTemporary(reg: nat)

  /** A temporary is released only while it is live. */
  predicate Legal(p: Pool, q: Request) {
    q.ReleaseTemporary? ==> q.reg in p.temps
  }

  function Apply(p: Pool, q: Request): Pool {
    match q
    case Acquire(key) => Allocate(p, key)
    case Release(key) => Deallocate(p, key)
    case AcquireTemporary => AllocateTemporary(p)
    case ReleaseTemporary(r) => DeallocateTemporary(p, r)
  }

  /** The pool after a history of requests, counted from a reset. */
  function After(history: seq<Request>): Pool {
    if history == [] then EMPTY_POOL else Apply(After(history[..|history| - 1]), history[|history| - 1])
  }

  predicate LegalHistory(history: seq<Request>) {
    history == [] ||
    (LegalHistory(history[..|history| - 1]) && Legal(After(history[..|history| - 1]), history[|history| - 1]))
  }

  /** The largest number of registers live at once at any time in the history. */
  function Peak(history: seq<Request>): nat {
    if history == [] then 0
    else
      var before := Peak(history[..|history| - 1]);
      if Live(After(history)) > before then Live(After(history)) else before
  }

  lemma ApplyInv(p: Pool, q: Request)
    requires Inv(p) && Legal(p, q)
    ensures Inv(Apply(p, q))
    ensures Apply(p, q).used == if Live(Apply(p, q)) > p.used then Live(Apply(p, q)) else p.used
  {
    match q
    case Acquire(key) =>
      AllocateInv(p, key);
      if !Full(p) && key !in p.owner { assert |Allocate(p, key).owner| == |p.owner| + 1; }
    case Release(key) =>
      DeallocateInv(p, key);
    case AcquireTemporary =>
      AllocateTemporaryInv(p);
      if !Full(p) { TakenInv(p); }
    case ReleaseTemporary(r) =>
      DeallocateTemporaryInv(p, r);
  }

  /**
    After every history the invariant holds, a new owner is refused exactly when all
    250 registers are live, and the count reported for the function header is the
    peak number of live registers, or 1 when none was ever live.
   */
  lemma {:induction false} AllocationIsPeakOptimal(history: seq<Request>)
    requires LegalHistory(history)
    ensures Inv(After(history))
    ensures Full(After(history)) <==> Live(After(history)) == MAX_REGISTERS
    ensures MaxRegisterCount(After(history)) == if Peak(history) == 0 then 1 else Peak(history)
  {
    HistoryInv(history);
  }

  lemma {:induction false} HistoryInv(history: seq<Request>)
    requires LegalHistory(history)
    ensures Inv(After(history)) && After(history).used == Peak(history)
  {
    if history != [] {
      HistoryInv(history[..|history| - 1]);
      ApplyInv(After(history[..|history| - 1]), history[|history| - 1]);
    }
  }
}
