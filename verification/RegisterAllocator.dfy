/** The generator's register allocator: a free list threaded through an array. */
module RegisterAllocation {
  import P = RegisterPool
  import opened RegisterPool

  /** The registers never used yet. */
  function Fresh(used: nat): seq<nat>
    decreases MAX_REGISTERS - used
  {
    if used >= MAX_REGISTERS then [] else [used] + Fresh(used + 1)
  }

  lemma {:induction false} FreshBounds(used: nat)
    ensures forall r :: r in Fresh(used) <==> used <= r < MAX_REGISTERS
    decreases MAX_REGISTERS - used
  {
    if used < MAX_REGISTERS {
      FreshBounds(used + 1);
    }
  }

  lemma NothingUsed()
    ensures Inv(EMPTY_POOL) && [] + Fresh(0) == Fresh(0)
  {
  }

  /** Following the links from `head` visits exactly the registers of `free`, in order. */
  predicate Chain(links: seq<int>, head: int, free: seq<nat>)
    decreases |free|
  {
    if free == [] then head == UNUSED
    else head == free[0] && head < |links| && Chain(links, links[head], free[1..])
  }

  lemma {:induction false} ChainUpdate(links: seq<int>, head: int, free: seq<nat>, i: nat, v: int)
    requires Chain(links, head, free) && i < |links| && i !in free
    ensures Chain(links[i := v], head, free)
    decreases |free|
  {
    if free != [] {
      assert free[0] in free;
      assert forall r :: r in free[1..] ==> r in free;
      ChainUpdate(links, links[head], free[1..], i, v);
    }
  }

  lemma {:induction false} ChainFresh(links: seq<int>, used: nat)
    requires |links| == MAX_REGISTERS && used <= MAX_REGISTERS
    requires forall i :: used <= i < MAX_REGISTERS ==> links[i] == if i + 1 < MAX_REGISTERS then i + 1 else UNUSED
    ensures Chain(links, if used < MAX_REGISTERS then used else UNUSED, Fresh(used))
    decreases MAX_REGISTERS - used
  {
    if used < MAX_REGISTERS {
      ChainFresh(links, used + 1);
      assert Fresh(used)[1..] == Fresh(used + 1);
    }
  }

  class RegisterAllocator {
    var maxRegister: int
    var nextFreeRegister: int
    const registerPool: array<int>
    var registerMap: map<Key, nat>
    ghost var recycled: seq<nat>
    ghost var used: nat
    ghost var temps: set<nat>

    ghost function State(): Pool
      reads this
    {
      Pool(recycled, used, registerMap, temps)
    }

    ghost predicate Valid()
      reads this, registerPool
    {
      && registerPool.Length == MAX_REGISTERS
      && Inv(State())
      && Chain(registerPool[..], nextFreeRegister, recycled + Fresh(used))
      && maxRegister == (if used == 0 then 0 else used - 1)
    }

    constructor ()
      ensures Valid() && fresh(registerPool)
      ensures State() == EMPTY_POOL
    {
      registerPool := new int[MAX_REGISTERS];
      new;
      Reset();
    }

    method Reset()
      requires registerPool.Length == MAX_REGISTERS
      modifies this, registerPool
      ensures Valid() && State() == EMPTY_POOL
    {
      hide Inv, Chain, Fresh;
      var i := 0;
      while i < MAX_REGISTERS - 1
        invariant 0 <= i <= MAX_REGISTERS - 1
        invariant forall j :: 0 <= j < i ==> registerPool[j] == j + 1
      {
        registerPool[i] := i + 1;
        i := i + 1;
      }
      registerPool[i] := UNUSED;
      maxRegister, nextFreeRegister, registerMap := 0, 0, map[];
      recycled, used, temps := [], 0, {};
      ChainFresh(registerPool[..], 0);
      NothingUsed();
    }

    /** The head of the free list is the next register, or nothing is left. */
    lemma FreeHead()
      requires Valid()
      ensures nextFreeRegister == UNUSED <==> Full(State())
      ensures !Full(State()) ==> nextFreeRegister == Next(State()) && 0 <= nextFreeRegister < MAX_REGISTERS
      ensures !Full(State()) ==> nextFreeRegister < Taken(State()).used
      ensures !Full(State()) ==>
              Chain(registerPool[..], registerPool[nextFreeRegister],
                    Taken(State()).recycled + Fresh(Taken(State()).used))
      ensures !Full(State()) ==> Next(State()) !in Taken(State()).recycled + Fresh(Taken(State()).used)
    {
      var free := recycled + Fresh(used);
      if !Full(State()) {
        TakenInv(State());
        FreshBounds(Taken(State()).used);
        if recycled == [] {
          assert free == Fresh(used);
        }
        assert free[1..] == Taken(State()).recycled + Fresh(Taken(State()).used);
      }
    }

    method Allocate(key: Key) returns (r: int)
      requires Valid()
      modifies this, registerPool
      ensures Valid()
      ensures r == Allocated(old(State()), key)
      ensures State() == P.Allocate(old(State()), key)
    {
      hide Inv, Chain, Fresh;
      FreeHead();
      AllocateInv(State(), key);
      if nextFreeRegister == UNUSED {
        return UNUSED;
      }
      if key in registerMap {
        r := registerMap[key];
      } else {
        ghost var next := P.Allocate(State(), key);
        r := nextFreeRegister;
        maxRegister := if r > maxRegister then r else maxRegister;
        nextFreeRegister := registerPool[r];
        ChainUpdate(registerPool[..], nextFreeRegister, next.recycled + Fresh(next.used), r, UNUSED);
        ghost var links := registerPool[..];
        registerPool[r] := UNUSED;
        assert registerPool[..] == links[r := UNUSED];
        registerMap := registerMap[key := r];
        recycled, used := next.recycled, next.used;
        assert State() == next;
      }
    }

    method Deallocate(key: Key)
      requires Valid()
      modifies this, registerPool
      ensures Valid()
      ensures State() == P.Deallocate(old(State()), key)
    {
      if key in registerMap {
        DeallocateInv(State(), key);
        FreshBounds(used);
        var r := registerMap[key];
        GiveBack(r);
        registerMap := registerMap - {key};
      }
    }

    /** Links a live register in at the head of the free list. */
    method GiveBack(r: nat)
      requires registerPool.Length == MAX_REGISTERS && r < MAX_REGISTERS
      requires Chain(registerPool[..], nextFreeRegister, recycled + Fresh(used)) && r !in recycled + Fresh(used)
      modifies `nextFreeRegister, `recycled, registerPool
      ensures recycled == [r] + old(recycled)
      ensures Chain(registerPool[..], nextFreeRegister, recycled + Fresh(used))
    {
      ChainUpdate(registerPool[..], nextFreeRegister, recycled + Fresh(used), r, nextFreeRegister);
      registerPool[r] := nextFreeRegister;
      nextFreeRegister := r;
      assert ([r] + recycled + Fresh(used))[1..] == recycled + Fresh(used);
      recycled := [r] + recycled;
    }

    method AllocateTemporary() returns (r: int)
      requires Valid()
      modifies this, registerPool
      ensures Valid()
      ensures r == AllocatedTemporary(old(State()))
      ensures State() == P.AllocateTemporary(old(State()))
    {
      hide Inv, Chain, Fresh;
      FreeHead();
      if nextFreeRegister == UNUSED {
        return UNUSED;
      }
      AllocateTemporaryInv(State());
      ghost var next := P.AllocateTemporary(State());
      r := nextFreeRegister;
      maxRegister := if r > maxRegister then r else maxRegister;
      nextFreeRegister := registerPool[r];
      recycled, used, temps := next.recycled, next.used, next.temps;
      assert State() == next;
    }

    method DeallocateTemporary(r: int)
      requires Valid()
      requires r == UNUSED || (r >= 0 && r in temps)
      modifies this, registerPool
      ensures Valid()
      ensures State() == P.DeallocateTemporary(old(State()), r)
    {
      if r != UNUSED {
        DeallocateTemporaryInv(State(), r);
        FreshBounds(used);
        GiveBack(r);
        temps := temps - {r};
      }
    }

    method RegisterForVariable(key: Key) returns (r: int)
      requires Valid()
      ensures r == RegisterFor(State(), key)
    {
      r := if key in registerMap then registerMap[key] else UNUSED;
    }

    method MaxRegisterCount() returns (n: int)
      requires Valid()
      ensures n == P.MaxRegisterCount(State())
    {
      n := maxRegister + 1;
    }
  }
}
