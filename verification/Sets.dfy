/** The generator's bit sets, one row a set. A change is reported, never undone. */
module Sets {
  type Pairs = set<(nat, nat)>

  function RowOf(pairs: Pairs, a: nat): set<nat> {
    set p | p in pairs && p.0 == a :: p.1
  }

  lemma RowMember(pairs: Pairs, a: nat, t: nat)
    ensures t in RowOf(pairs, a) <==> (a, t) in pairs
  {
    assert (a, t) in pairs ==> (a, t).1 in RowOf(pairs, a);
  }

  /** Row `a` with everything of row `b` added. */
  function Joined(pairs: Pairs, a: nat, b: nat): Pairs {
    pairs + set t | t in RowOf(pairs, b) :: (a, t)
  }

  lemma JoinedMember(pairs: Pairs, a: nat, b: nat, p: (nat, nat))
    ensures p in Joined(pairs, a, b) <==> p in pairs || (p.0 == a && (b, p.1) in pairs)
  {
    RowMember(pairs, b, p.1);
    if p.0 == a && p.1 in RowOf(pairs, b) {
      assert p in (set t | t in RowOf(pairs, b) :: (a, t));
    }
  }

  class SetTable {
    const rows: nat
    const size: nat
    const bits: array2<bool>
    ghost var pairs: Pairs

    ghost predicate Valid()
      reads this, bits
    {
      && bits.Length0 == rows && bits.Length1 == size
      && (forall a, t :: (a, t) in pairs <==> 0 <= a < rows && 0 <= t < size && bits[a, t])
    }

    constructor (rows: nat, size: nat)
      ensures Valid() && fresh(bits) && this.rows == rows && this.size == size && pairs == {}
    {
      this.rows, this.size := rows, size;
      bits := new bool[rows, size]((_, _) => false);
      pairs := {};
    }

    method SetAdd(a: nat, t: nat) returns (added: bool)
      requires Valid() && a < rows && t < size
      modifies this, bits
      ensures Valid() && pairs == old(pairs) + {(a, t)}
      ensures added <==> pairs != old(pairs)
    {
      added := !bits[a, t];
      bits[a, t] := true;
      pairs := pairs + {(a, t)};
    }

    method SetUnion(a: nat, b: nat) returns (progress: bool)
      requires Valid() && a < rows && b < rows
      modifies this, bits
      ensures Valid() && pairs == Joined(old(pairs), a, b)
      ensures progress <==> pairs != old(pairs)
    {
      progress := false;
      ghost var was := pairs;
      var t := 0;
      while t < size
        invariant 0 <= t <= size && Valid()
        invariant forall p :: p in pairs <==> p in was || (p.0 == a && p.1 < t && (b, p.1) in was)
        invariant progress <==> pairs != was
      {
        assert (b, t) in pairs <==> (b, t) in was;
        if bits[b, t] && !bits[a, t] {
          progress := true;
          bits[a, t] := true;
          pairs := pairs + {(a, t)};
          assert (a, t) !in was;
        }
        t := t + 1;
      }
      forall p
        ensures p in pairs <==> p in Joined(was, a, b)
      {
        JoinedMember(was, a, b, p);
      }
    }
  }

  // ----- passes that make progress -----

  /** Every pass that makes progress leaves fewer entries to make. */
  lemma Shrinks<T>(all: set<T>, before: set<T>, after: set<T>)
    requires before <= after <= all
    ensures before != after ==> |all - after| < |all - before|
  {
    if before != after {
      var x :| x in after && x !in before;
      assert x in all - before && x !in all - after;
      Cardinality(all - after, (all - before) - {x});
    }
  }

  lemma {:induction false} Cardinality<T>(x: set<T>, y: set<T>)
    requires x <= y
    ensures |x| <= |y|
  {
    if x != {} {
      var e :| e in x;
      Cardinality(x - {e}, y - {e});
    }
  }
}
