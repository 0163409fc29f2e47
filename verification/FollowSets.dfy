/**
  Propagation of follow sets along the forward links between configurations. A
  configuration whose set has been passed on is skipped until its set grows again; the
  result is nevertheless the least one.
 */
module FollowSets {
  import opened Sets

  /** The forward links of each configuration. */
  type Links = seq<seq<nat>>

  predicate ValidLinks(links: Links) {
    forall c, j :: 0 <= c < |links| && 0 <= j < |links[c]| ==> links[c][j] < |links|
  }

  predicate Linked(links: Links, c: nat, d: nat) {
    c < |links| && d in links[c]
  }

  ghost predicate Path(links: Links, n: nat, b: nat, c: nat) {
    if n == 0 then b == c else exists d :: Linked(links, b, d) && Path(links, n - 1, d, c)
  }

  ghost predicate Reaches(links: Links, b: nat, c: nat) {
    exists n: nat :: Path(links, n, b, c)
  }

  lemma {:induction false} PathLonger(links: Links, n: nat, b: nat, c: nat, d: nat)
    requires Path(links, n, b, c) && Linked(links, c, d)
    ensures Path(links, n + 1, b, d)
  {
    if n == 0 {
      assert Path(links, 0, d, d);
    } else {
      var m :| Linked(links, b, m) && Path(links, n - 1, m, c);
      PathLonger(links, n - 1, m, c, d);
    }
  }

  /** Some configuration that reaches `c` started with `t`. */
  ghost predicate Comes(links: Links, init: Pairs, c: nat, t: nat) {
    exists b :: (b, t) in init && Reaches(links, b, c)
  }

  ghost predicate Sound(links: Links, init: Pairs, pairs: Pairs) {
    forall p :: p in pairs ==> Comes(links, init, p.0, p.1)
  }

  lemma SoundStart(links: Links, init: Pairs)
    ensures Sound(links, init, init)
  {
    forall p | p in init
      ensures Comes(links, init, p.0, p.1)
    {
      assert (p.0, p.1) in init && Path(links, 0, p.0, p.0);
    }
  }

  /** Passing a set on along a link adds only what comes along it. */
  lemma SoundJoined(links: Links, init: Pairs, pairs: Pairs, c: nat, d: nat)
    requires Sound(links, init, pairs) && Linked(links, c, d)
    ensures Sound(links, init, Joined(pairs, d, c))
  {
    forall p | p in Joined(pairs, d, c)
      ensures Comes(links, init, p.0, p.1)
    {
      JoinedMember(pairs, d, c, p);
      if p !in pairs {
        assert Comes(links, init, (c, p.1).0, (c, p.1).1);
        var b :| (b, p.1) in init && Reaches(links, b, c);
        var n: nat :| Path(links, n, b, c);
        PathLonger(links, n, b, c, d);
      }
    }
  }

  /** Everything of `c` is in all the configurations it links to. */
  ghost predicate Passed(links: Links, pairs: Pairs, c: nat) {
    forall d: nat, t: nat :: Linked(links, c, d) && (c, t) in pairs ==> (d, t) in pairs
  }

  lemma {:induction false} PassedAlong(links: Links, pairs: Pairs, n: nat, b: nat, c: nat, t: nat)
    requires (forall k :: 0 <= k < |links| ==> Passed(links, pairs, k)) && Path(links, n, b, c) && (b, t) in pairs
    ensures (c, t) in pairs
  {
    if n > 0 {
      var d :| Linked(links, b, d) && Path(links, n - 1, d, c);
      assert Passed(links, pairs, b);
      PassedAlong(links, pairs, n - 1, d, c, t);
    }
  }

  class Propagation {
    const links: Links
    const fws: SetTable
    const complete: array<bool>

    ghost predicate Valid()
      reads this, fws, fws.bits, complete
    {
      && ValidLinks(links) && fws.Valid() && fws.rows == |links| == complete.Length
      && (forall c :: 0 <= c < complete.Length && complete[c] ==> Passed(links, fws.pairs, c))
    }

    /** The sets start as they were collected while the states were built. */
    constructor (links: Links, fws: SetTable)
      requires ValidLinks(links) && fws.Valid() && fws.rows == |links|
      ensures Valid() && this.links == links && this.fws == fws && fresh(complete)
    {
      this.links, this.fws := links, fws;
      complete := new bool[|links|](_ => false);
    }

    ghost function AllPairs(): Pairs {
      set c: nat, t: nat | c < fws.rows && t < fws.size :: (c, t)
    }

    lemma Room()
      requires Valid()
      ensures fws.pairs <= AllPairs()
    {
      forall p | p in fws.pairs
        ensures p in AllPairs()
      {
        assert (p.0, p.1) in fws.pairs;
      }
    }

    /** The set of one configuration, along all its links. */
    method PassOn(c: nat, ghost init: Pairs) returns (progress: bool)
      requires Valid() && c < |links| && Sound(links, init, fws.pairs)
      modifies fws, fws.bits, complete
      ensures Valid() && Sound(links, init, fws.pairs) && old(fws.pairs) <= fws.pairs && complete[c]
      ensures progress <==> fws.pairs != old(fws.pairs)
      ensures !progress ==> forall k :: 0 <= k < complete.Length && old(complete[k]) ==> complete[k]
    {
      hide Sound;
      progress := false;
      ghost var was := fws.pairs;
      var j := 0;
      while j < |links[c]|
        invariant 0 <= j <= |links[c]| && Valid() && Sound(links, init, fws.pairs)
        invariant was <= fws.pairs && (progress <==> fws.pairs != was)
        invariant !progress ==> forall k :: 0 <= k < complete.Length && old(complete[k]) ==> complete[k]
        invariant forall t :: (c, t) in fws.pairs <==> (c, t) in was
        invariant forall i, t :: 0 <= i < j && (c, t) in was ==> (links[c][i], t) in fws.pairs
      {
        var d := links[c][j];
        ghost var before := fws.pairs;
        SoundJoined(links, init, before, c, d);
        forall p
          ensures p in Joined(before, d, c) <==> p in before || (p.0 == d && (c, p.1) in before)
        {
          JoinedMember(before, d, c, p);
        }
        var change := fws.SetUnion(d, c);
        if change {
          complete[d] := false;
          progress := true;
        }
        j := j + 1;
      }
      complete[c] := true;
    }

    /**
      Every configuration ends with exactly what the configurations that reach it along
      forward links started with.
     */
    method FindFollowSets()
      requires Valid()
      modifies fws, fws.bits, complete
      ensures Valid()
      ensures forall c: nat, t: nat :: (c, t) in fws.pairs <==> Comes(links, old(fws.pairs), c, t)
    {
      hide Sound, Passed, Comes, ValidLinks;
      ghost var init := fws.pairs;
      SoundStart(links, init);
      var progress := true;
      while progress
        invariant Valid() && Sound(links, init, fws.pairs) && init <= fws.pairs
        invariant !progress ==> forall k :: 0 <= k < complete.Length ==> complete[k]
        decreases |AllPairs() - fws.pairs|, if progress then 1 else 0
      {
        progress := false;
        ghost var before := fws.pairs;
        var i := 0;
        while i < |links|
          invariant 0 <= i <= |links| && Valid() && Sound(links, init, fws.pairs)
          invariant before <= fws.pairs && (progress <==> fws.pairs != before)
          invariant !progress ==> forall k :: 0 <= k < i ==> complete[k]
        {
          if !complete[i] {
            var p := PassOn(i, init);
            progress := progress || p;
          }
          i := i + 1;
        }
        Room();
        Shrinks(AllPairs(), before, fws.pairs);
      }
      LeastSolution(links, init, fws.pairs);
    }
  }

  lemma LeastSolution(links: Links, init: Pairs, pairs: Pairs)
    requires Sound(links, init, pairs) && init <= pairs && forall k :: 0 <= k < |links| ==> Passed(links, pairs, k)
    ensures forall c: nat, t: nat :: (c, t) in pairs <==> Comes(links, init, c, t)
  {
    forall c: nat, t: nat
      ensures (c, t) in pairs <==> Comes(links, init, c, t)
    {
      if (c, t) in pairs {
        assert Comes(links, init, (c, t).0, (c, t).1);
      }
      if Comes(links, init, c, t) {
        var b :| (b, t) in init && Reaches(links, b, c);
        var n: nat :| Path(links, n, b, c);
        PassedAlong(links, pairs, n, b, c, t);
      }
    }
  }
}
