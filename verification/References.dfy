/**
 References to catalogue entries by ordinal, and what deleting entries does to them. The
 deletion walks the ordinals one after another and shifts every reference as it goes; it is
 compared with removing the whole set at once.
 */
module References {
  import opened Ordinals
  import opened Options

  datatype TouchType = ServerType | SubscriptionType | SubServerType

  /** Ids count from 1, subscription ordinals from 0. */
  datatype NodeRef = NodeRef(typ: TouchType, id: int, sub: int, outbound: string)

  // --------------------------------------------------- the fate of one ordinal

  /** An ordinal after the deletions `ds`, done one by one. */
  function Fate(x: int, ds: seq<int>): Option<int>
    decreases |ds|
  {
    if ds == [] then Some(x)
    else if x == ds[0] then None
    else Fate(if ds[0] < x then x - 1 else x, ds[1..])
  }

  function Dead(ds: seq<int>): set<int> { set d | d in ds }

  lemma {:induction false} FateSnoc(x: int, ds: seq<int>, d: int)
    ensures Fate(x, ds + [d]) == var f := Fate(x, ds); if f.None? then None else Fate(f.value, [d])
    decreases |ds|
  {
    if ds == [] {
      assert ds + [d] == [d];
    } else {
      assert (ds + [d])[1..] == ds[1..] + [d];
      if x != ds[0] { FateSnoc(if ds[0] < x then x - 1 else x, ds[1..], d); }
    }
  }

  lemma {:induction false} FateOne(x: int, d: int)
    ensures Fate(x, [d]) == if x == d then None else if d < x then Some(x - 1) else Some(x)
  {
    assert [d][1..] == [];
  }

  /** What removing the set at once would do. */
  function Due(x: nat, ds: seq<int>): Option<int>
  {
    if x in Dead(ds) then None else Some(Rank(Dead(ds), x))
  }

  predicate Descending(ds: seq<int>) { forall i, j | 0 <= i < j < |ds| :: ds[i] > ds[j] }
  predicate NonAscending(ds: seq<int>) { forall i, j | 0 <= i < j < |ds| :: ds[i] >= ds[j] }
  predicate Distinct(ds: seq<int>) { forall i, j | 0 <= i < j < |ds| :: ds[i] != ds[j] }
  predicate Within(ds: seq<int>, n: nat) { forall d | d in ds :: 0 <= d < n }

  lemma {:induction false} RankAbove(dead: set<int>, d: int, x: nat)
    requires d in dead && 0 <= d && forall e | e in dead :: e <= d
    ensures x <= d ==> Rank(dead, x) == Rank(dead - {d}, x)
    ensures x > d ==> Rank(dead, x) == Rank(dead - {d}, x - 1)
    decreases x
  {
    if x > 0 {
      RankAbove(dead, d, x - 1);
      if x == d + 1 { RankAbove(dead, d, d); }
    }
  }

  lemma {:induction false} TailOf(ds: seq<int>)
    requires ds != []
    ensures forall e :: e in ds <==> e == ds[0] || e in ds[1..]
    ensures NonAscending(ds) ==> NonAscending(ds[1..]) && forall e | e in ds :: e <= ds[0]
    ensures Descending(ds) ==> Descending(ds[1..]) && forall e | e in ds[1..] :: e < ds[0]
  {
    assert ds == [ds[0]] + ds[1..];
  }

  lemma {:induction false} DeadCons(ds: seq<int>)
    requires ds != []
    ensures Dead(ds) == Dead(ds[1..]) + {ds[0]}
  {
    assert ds == [ds[0]] + ds[1..];
  }

  lemma {:induction false} DeadNext(ds: seq<int>, i: nat)
    requires i < |ds|
    ensures Dead(ds[..i + 1]) == Dead(ds[..i]) + {ds[i]}
  {
    assert ds[..i + 1] == ds[..i] + [ds[i]];
  }

  /** The first ordinal of a list is above all the others: one step of both readings. */
  lemma {:induction false} DueStep(x: nat, ds: seq<int>)
    requires ds != [] && 0 <= ds[0] && x != ds[0] && forall d | d in ds[1..] :: d < ds[0]
    ensures Due(x, ds) == Due(if ds[0] < x then x - 1 else x, ds[1..])
  {
    DeadCons(ds);
    assert ds[0] !in ds[1..];
    assert Dead(ds) - {ds[0]} == Dead(ds[1..]);
    RankAbove(Dead(ds), ds[0], x);
  }

  /** Deleting from the highest ordinal down is removing the set. */
  lemma {:induction false} DescendingIsRight(x: nat, ds: seq<int>)
    requires Descending(ds) && forall d | d in ds :: 0 <= d
    ensures Fate(x, ds) == Due(x, ds)
    decreases |ds|
  {
    if ds == [] {
      NoDead(x);
    } else {
      TailOf(ds);
      assert ds[0] in ds;
      if x != ds[0] {
        DueStep(x, ds);
        DescendingIsRight(if ds[0] < x then x - 1 else x, ds[1..]);
      }
    }
  }

  lemma {:induction false} NoDead(x: nat)
    ensures Due(x, []) == Some(x)
    decreases x
  {
    assert Dead([]) == {};
    NoRank(x);
  }

  lemma NoRank(x: nat)
    ensures Rank({}, x) == x
  {}

  /** A repeated ordinal does no harm only if nothing survives above it. */
  ghost predicate RepeatsAreLast(ds: seq<int>, n: nat)
  {
    forall i, j, x | 0 <= i < j < |ds| && ds[i] == ds[j] && ds[i] < x < n :: x in ds
  }

  lemma {:induction false} RepeatedIsRight(x: nat, ds: seq<int>, n: nat)
    requires x < n && NonAscending(ds) && Within(ds, n) && RepeatsAreLast(ds, n)
    ensures Fate(x, ds) == Due(x, ds)
    decreases |ds|
  {
    if ds == [] {
      NoDead(x);
    } else {
      var d, tail := ds[0], ds[1..];
      TailOf(ds);
      assert d in ds;
      if x != d {
        if tail != [] && tail[0] == d {
          assert ds[1] == d && (d < n - 1 ==> n - 1 in ds);
          assert Dead(ds) == Dead(tail);
          RepeatedTail(ds, n, n);
          RepeatedIsRight(x, tail, n);
        } else {
          assert forall e | e in tail :: e < d;
          DueStep(x, ds);
          RepeatedTail(ds, n, n - 1);
          RepeatedIsRight(if d < x then x - 1 else x, tail, n - 1);
        }
      }
    }
  }

  lemma {:induction false} RepeatedTail(ds: seq<int>, n: nat, m: nat)
    requires ds != [] && NonAscending(ds) && Within(ds, n) && RepeatsAreLast(ds, n)
    requires if m == n then |ds| > 1 && ds[1] == ds[0] else m == n - 1 && forall e | e in ds[1..] :: e < ds[0]
    ensures Within(ds[1..], m) && RepeatsAreLast(ds[1..], m) && NonAscending(ds[1..])
  {
    var d, tail := ds[0], ds[1..];
    TailOf(ds);
    assert d in ds;
    forall e | e in tail
      ensures 0 <= e < m
    {
      assert e in ds;
    }
    forall i, j, x | 0 <= i < j < |tail| && tail[i] == tail[j] && tail[i] < x < m
      ensures x in tail
    {
      RepeatAt(ds, n, i + 1, j + 1, x);
      if m == n - 1 {
        RepeatAt(ds, n, i + 1, j + 1, x + 1);
        AtMost(ds, x + 1);
      }
    }
  }

  lemma {:induction false} RepeatAt(ds: seq<int>, n: nat, i: nat, j: nat, x: int)
    requires RepeatsAreLast(ds, n) && i < j < |ds| && ds[i] == ds[j] && ds[i] < x < n
    ensures x in ds
  {}

  lemma {:induction false} AtMost(ds: seq<int>, x: int)
    requires NonAscending(ds) && x in ds
    ensures x <= ds[0]
  {}

  /** The lowest survivor above a repeated ordinal is taken for it. */
  lemma {:induction false} RepeatedTakes(ds: seq<int>, i: nat, j: nat, x: int)
    requires NonAscending(ds) && i < j < |ds| && ds[i] == ds[j] < x && x !in ds
    requires forall y | ds[j] < y < x :: y in ds
    ensures Fate(x, ds) == None
    decreases |ds|
  {
    var d, h, tail := ds[j], ds[0], ds[1..];
    TailOf(ds);
    if h > x {
      forall y | d < y < x
        ensures y in tail
      {
        assert y in ds;
      }
      RepeatedTakes(tail, i - 1, j - 1, x);
    } else {
      assert d < x - 1 ==> x - 1 in ds;
      assert h == x - 1;
      if tail[0] != h {
        assert d < h && i > 0;
        forall y | d < y < x - 1
          ensures y in tail
        {
          assert y in ds;
        }
        RepeatedTakes(tail, i - 1, j - 1, x - 1);
      }
    }
  }

  lemma {:induction false} LowestSurvivor(ds: seq<int>, d: int, x: int) returns (y: int)
    requires d < x && x !in ds
    ensures d < y <= x && y !in ds && forall z | d < z < y :: z in ds
    decreases x - d
  {
    if d + 1 !in ds {
      y := d + 1;
    } else {
      y := LowestSurvivor(ds, d + 1, x);
    }
  }

  /**
   Server ordinals are walked from high to low but may repeat. Every reference into a list of
   `n` comes out right if and only if no repeated ordinal has a survivor above it.
   */
  lemma {:induction false} RepeatsIff(ds: seq<int>, n: nat)
    requires NonAscending(ds) && Within(ds, n)
    ensures (forall x: nat | x < n :: Fate(x, ds) == Due(x, ds)) <==> RepeatsAreLast(ds, n)
  {
    if RepeatsAreLast(ds, n) {
      forall x: nat | x < n
        ensures Fate(x, ds) == Due(x, ds)
      {
        RepeatedIsRight(x, ds, n);
      }
    } else {
      var i, j, x :| 0 <= i < j < |ds| && ds[i] == ds[j] && ds[i] < x < n && x !in ds;
      var y := LowestSurvivor(ds, ds[j], x);
      RepeatedTakes(ds, i, j, y);
      assert ds[j] in ds;
      assert Fate(y, ds) != Due(y, ds);
    }
  }

  // ------------------------------------------------------ order of the ordinals

  /** The ordinal that stands at `v` once `ds` are deleted. */
  function Lift(v: int, ds: seq<int>): int
  {
    if ds == [] then v
    else
      var w := Lift(v, ds[1..]);
      if w < ds[0] then w else w + 1
  }

  lemma {:induction false} LiftUp(v: int, ds: seq<int>)
    ensures Lift(v, ds) >= v
    ensures Lift(v, ds) == v ==> forall d | d in ds :: v < d
    decreases |ds|
  {
    if ds != [] {
      LiftUp(v, ds[1..]);
      assert ds == [ds[0]] + ds[1..];
    }
  }

  /** Which deletion takes an ordinal. */
  lemma {:induction false} TakenBy(x: int, ds: seq<int>) returns (r: nat)
    requires Fate(x, ds) == None
    ensures r < |ds| && Lift(ds[r], ds[..r]) == x
    decreases |ds|
  {
    if x == ds[0] {
      r := 0;
    } else {
      var r' := TakenBy(if ds[0] < x then x - 1 else x, ds[1..]);
      r := r' + 1;
      assert ds[..r][1..] == ds[1..][..r'];
    }
  }

  lemma {:induction false} TakesItself(ds: seq<int>, i: nat, n: nat)
    requires Distinct(ds) && Within(ds, n) && i < |ds| && forall x: nat | x < n :: Fate(x, ds) == Due(x, ds)
    ensures Lift(ds[i], ds[..i]) == ds[i]
    decreases ds[i]
  {
    var d := ds[i];
    assert d in ds && Fate(d, ds) == Due(d, ds) == None;
    var r := TakenBy(d, ds);
    LiftUp(ds[r], ds[..r]);
    assert ds[r] in ds;
    if ds[r] < d { TakesItself(ds, r, n); }
  }

  /** Distinct ordinals: every reference comes out right if and only if they are walked from high to low. */
  lemma {:induction false} OrderIff(ds: seq<int>, n: nat)
    requires Distinct(ds) && Within(ds, n)
    ensures (forall x: nat | x < n :: Fate(x, ds) == Due(x, ds)) <==> Descending(ds)
  {
    if Descending(ds) {
      forall x: nat | x < n
        ensures Fate(x, ds) == Due(x, ds)
      {
        DescendingIsRight(x, ds);
      }
    }
    if forall x: nat | x < n :: Fate(x, ds) == Due(x, ds) {
      forall i, j | 0 <= i < j < |ds|
        ensures ds[i] > ds[j]
      {
        TakesItself(ds, j, n);
        LiftUp(ds[j], ds[..j]);
        assert ds[..j][i] == ds[i];
        assert ds[i] in ds[..j];
      }
    }
  }

  // ---------------------------------------------------- any ordinals in any order

  /** The ordinals the walk takes, as they stood before it. */
  function Taken(ds: seq<int>): set<int> { set r | 0 <= r < |ds| :: Lift(ds[r], ds[..r]) }

  lemma {:induction false} TakenSnoc(ds: seq<int>, d: int)
    ensures Taken(ds + [d]) == Taken(ds) + {Lift(d, ds)}
  {
    var es := ds + [d];
    assert es[..|ds|] == ds;
    assert forall r | 0 <= r < |ds| :: es[r] == ds[r] && es[..r] == ds[..r];
    assert forall r | 0 <= r < |es| :: es[r] == (if r < |ds| then ds[r] else d);
    assert Lift(es[|ds|], es[..|ds|]) in Taken(es);
    forall x | x in Taken(ds)
      ensures x in Taken(es)
    {
      var r :| 0 <= r < |ds| && x == Lift(ds[r], ds[..r]);
      assert x == Lift(es[r], es[..r]);
    }
  }

  lemma {:induction false} LiftBack(v: int, ds: seq<int>)
    ensures Fate(Lift(v, ds), ds) == Some(v)
    decreases |ds|
  {
    if ds != [] { LiftBack(v, ds[1..]); }
  }

  /** One more ordinal taken, and its rank known. */
  lemma {:induction false} RankTakes(dead: set<int>, l: nat, x: nat)
    requires l !in dead
    ensures Rank(dead + {l}, x) == Rank(dead, x) - if l < x then 1 else 0
    decreases x
  {
    if x > 0 { RankTakes(dead, l, x - 1); }
  }

  /** The walk, whatever its ordinals: it removes, at once, what it takes. */
  lemma {:induction false} FateIs(x: nat, ds: seq<int>)
    requires forall d | d in ds :: 0 <= d
    ensures Fate(x, ds) == if x in Taken(ds) then None else Some(Rank(Taken(ds), x))
    decreases |ds|
  {
    if ds == [] {
      assert Taken(ds) == {};
      NoRank(x);
    } else {
      var front, d := ds[..|ds| - 1], ds[|ds| - 1];
      var l := Lift(d, front);
      assert ds == front + [d] && d in ds && forall e | e in front :: e in ds;
      LiftUp(d, front);
      LiftBack(d, front);
      FateIs(l, front);
      FateIs(x, front);
      TakenSnoc(front, d);
      FateSnoc(x, front, d);
      if x !in Taken(front) {
        FateOne(Rank(Taken(front), x), d);
        RankTakes(Taken(front), l, x);
        RankOrder(Taken(front), l, x);
      }
    }
  }

  lemma {:induction false} RankOrder(dead: set<int>, i: nat, j: nat)
    requires i !in dead && j !in dead
    ensures i < j <==> Rank(dead, i) < Rank(dead, j)
    ensures i == j <==> Rank(dead, i) == Rank(dead, j)
  {
    if i < j { RankStep(dead, i, j); }
    if j < i { RankStep(dead, j, i); }
  }

  /** The walk takes, in a list of `n`, the ordinals it names and no others. */
  ghost predicate Exact(ds: seq<int>, n: nat) { forall x: nat | x < n :: x in Taken(ds) <==> x in ds }

  lemma {:induction false} RankAlike(a: set<int>, b: set<int>, x: nat)
    requires forall y: nat | y < x :: y in a <==> y in b
    ensures Rank(a, x) == Rank(b, x)
    decreases x
  {
    if x > 0 { RankAlike(a, b, x - 1); }
  }

  /** For any ordinals in any order: every reference into a list of `n` comes out right exactly if the walk is exact. */
  lemma {:induction false} ExactIff(ds: seq<int>, n: nat)
    requires Within(ds, n)
    ensures (forall x: nat | x < n :: Fate(x, ds) == Due(x, ds)) <==> Exact(ds, n)
  {
    forall x: nat | x < n
      ensures Fate(x, ds) == if x in Taken(ds) then None else Some(Rank(Taken(ds), x))
      ensures Exact(ds, n) ==> Fate(x, ds) == Due(x, ds)
      ensures Fate(x, ds) == Due(x, ds) ==> (x in Taken(ds) <==> x in ds)
    {
      FateIs(x, ds);
      if Exact(ds, n) { RankAlike(Taken(ds), Dead(ds), x); }
    }
  }
}
