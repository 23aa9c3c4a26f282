/** A bounded list of distinct keys, most recently used first: what least-recently-used means. */
module LruList {

  datatype Effect<K> = Keep | Front(key: K) | Drop(key: K) | Wipe

  predicate Distinct<K(==)>(ks: seq<K>) { forall i, j | 0 <= i < j < |ks| :: ks[i] != ks[j] }

  function Removed<K(==)>(ks: seq<K>, k: K): seq<K>
  {
    if ks == [] then [] else if ks[0] == k then ks[1..] else [ks[0]] + Removed(ks[1..], k)
  }

  function Step<K(==)>(e: Effect<K>, ks: seq<K>, max: nat): seq<K>
  {
    match e
    case Keep => ks
    case Front(k) => var l := [k] + Removed(ks, k); if |l| > max then l[..max] else l
    case Drop(k) => Removed(ks, k)
    case Wipe => []
  }

  function Run<K(==)>(es: seq<Effect<K>>, ks: seq<K>, max: nat): seq<K>
  {
    if es == [] then ks else Run(es[1..], Step(es[0], ks, max), max)
  }

  function Touched<K(==)>(es: seq<Effect<K>>): set<K>
  {
    if es == [] then {} else TouchedBy(es[0]) + Touched(es[1..])
  }

  function TouchedBy<K(==)>(e: Effect<K>): set<K> { if e.Front? then {e.key} else {} }

  /** The keys used more recently than `k`. */
  function Ahead<K(==)>(ks: seq<K>, k: K): set<K>
  {
    if ks == [] || ks[0] == k then {} else {ks[0]} + Ahead(ks[1..], k)
  }

  lemma {:induction false} RemovedProps<K>(ks: seq<K>, k: K)
    requires Distinct(ks)
    ensures Distinct(Removed(ks, k)) && k !in Removed(ks, k)
    ensures forall x :: x in Removed(ks, k) <==> x in ks && x != k
    ensures |Removed(ks, k)| == |ks| - if k in ks then 1 else 0
    decreases |ks|
  {
    if ks != [] {
      assert forall i | 0 <= i < |ks| - 1 :: ks[1..][i] == ks[i + 1];
      assert forall x :: x in ks <==> x == ks[0] || x in ks[1..];
      RemovedProps(ks[1..], k);
      if ks[0] != k {
        var r := Removed(ks[1..], k);
        assert forall i | 1 <= i < |r| + 1 :: ([ks[0]] + r)[i] == r[i - 1] && r[i - 1] in r;
      }
    }
  }

  lemma {:induction false} StepDistinct<K>(e: Effect<K>, ks: seq<K>, max: nat)
    requires Distinct(ks) && |ks| <= max
    ensures Distinct(Step(e, ks, max)) && |Step(e, ks, max)| <= max
  {
    if e.Front? || e.Drop? {
      RemovedProps(ks, e.key);
      var r := Removed(ks, e.key);
      assert forall i | 1 <= i < |r| + 1 :: ([e.key] + r)[i] == r[i - 1] && r[i - 1] in r;
    }
  }

  lemma AheadIn<K>(ks: seq<K>, k: K)
    ensures k !in Ahead(ks, k) && forall x | x in Ahead(ks, k) :: x in ks
  {}

  /** Dropping another key: it is no longer ahead, everything else is as it was. */
  lemma {:induction false} DistinctTail<K>(ks: seq<K>)
    requires ks != [] && Distinct(ks)
    ensures Distinct(ks[1..]) && ks[0] !in ks[1..]
  {
    assert forall i | 0 <= i < |ks| - 1 :: ks[1..][i] == ks[i + 1];
  }

  lemma {:induction false} AheadRemoved<K>(ks: seq<K>, x: K, k: K)
    requires Distinct(ks) && x != k
    ensures Ahead(Removed(ks, x), k) == if k in ks then Ahead(ks, k) - {x} else Ahead(Removed(ks, x), k)
    ensures k in ks ==> k in Removed(ks, x)
    decreases |ks|
  {
    if ks != [] {
      assert ks == [ks[0]] + ks[1..];
      DistinctTail(ks);
      AheadRemoved(ks[1..], x, k);
      if ks[0] != x {
        var r := Removed(ks[1..], x);
        assert ([ks[0]] + r)[1..] == r;
      } else {
        AheadIn(ks[1..], k);
      }
    }
  }

  lemma {:induction false} AheadCount<K>(ks: seq<K>, k: K)
    requires Distinct(ks) && k in ks
    ensures |Ahead(ks, k)| < |ks| && ks[|Ahead(ks, k)|] == k
    decreases |ks|
  {
    if ks[0] != k {
      var tail := ks[1..];
      DistinctTail(ks);
      assert ks == [ks[0]] + tail;
      AheadCount(tail, k);
      AheadIn(tail, k);
      var n := |Ahead(tail, k)|;
      assert Ahead(ks, k) == {ks[0]} + Ahead(tail, k) && |Ahead(ks, k)| == n + 1;
      assert ks[n + 1] == tail[n];
    }
  }

  lemma {:induction false} AheadConcat<K>(a: seq<K>, b: seq<K>, k: K)
    requires k in a
    ensures Ahead(a + b, k) == Ahead(a, k)
    decreases |a|
  {
    if a[0] != k {
      assert a == [a[0]] + a[1..] && (a + b)[1..] == a[1..] + b;
      AheadConcat(a[1..], b, k);
    }
  }

  lemma {:induction false} AheadTake<K>(ks: seq<K>, k: K, n: nat)
    requires Distinct(ks) && k in ks && n <= |ks|
    ensures k in ks[..n] <==> |Ahead(ks, k)| < n
    ensures |Ahead(ks, k)| < n ==> Ahead(ks[..n], k) == Ahead(ks, k)
  {
    AheadCount(ks, k);
    var p := |Ahead(ks, k)|;
    assert ks == ks[..n] + ks[n..];
    if p < n { assert ks[..n][p] == k; }
    if k in ks[..n] {
      AheadConcat(ks[..n], ks[n..], k);
      AheadCount(ks[..n], k);
    }
  }

  /** Using another key puts it ahead; `k` falls out exactly when that makes `max` keys ahead. */
  lemma {:induction false} FrontAhead<K>(x: K, ks: seq<K>, max: nat, k: K)
    requires Distinct(ks) && |ks| <= max && k in ks && x != k
    ensures var ks' := Step(Front(x), ks, max);
            if |Ahead(ks, k) + {x}| < max then k in ks' && Ahead(ks', k) == Ahead(ks, k) + {x} else k !in ks'
  {
    RemovedProps(ks, x);
    AheadRemoved(ks, x, k);
    var r := Removed(ks, x);
    var l := [x] + r;
    assert l[1..] == r && k in l;
    assert Distinct(l) by { assert forall i | 1 <= i < |l| :: l[i] == r[i - 1] && r[i - 1] in r; }
    assert Ahead(l, k) == Ahead(ks, k) + {x};
    AheadCount(l, k);
    if |l| > max { AheadTake(l, k, max); }
  }

  lemma {:induction false} Subset<K>(a: set<K>, b: set<K>)
    requires a <= b
    ensures |a| <= |b|
    decreases a
  {
    if a != {} {
      var x :| x in a;
      Subset(a - {x}, b - {x});
    }
  }

  lemma {:induction false} StepAhead<K>(e: Effect<K>, ks: seq<K>, max: nat, k: K)
    requires Distinct(ks) && |ks| <= max && k in ks && !e.Wipe? && e != Drop(k)
    requires |Ahead(ks, k) + (TouchedBy(e) - {k})| < max
    ensures var ks' := Step(e, ks, max); k in ks' && Ahead(ks', k) <= Ahead(ks, k) + (TouchedBy(e) - {k})
  {
    match e {
      case Front(x) =>
        if x == k {
          RemovedProps(ks, k);
          assert Step(e, ks, max)[0] == k;
        } else {
          assert TouchedBy(e) - {k} == {x};
          FrontAhead(x, ks, max, k);
        }
      case Drop(x) => AheadRemoved(ks, x, k);
      case Keep =>
    }
  }

  /** A key stays while it is not dropped and fewer than `max` others are ahead or get used. */
  lemma {:induction false} Keeps<K>(es: seq<Effect<K>>, ks: seq<K>, max: nat, k: K)
    requires Distinct(ks) && |ks| <= max && k in ks && Wipe !in es && Drop(k) !in es
    requires |Ahead(ks, k) + (Touched(es) - {k})| < max
    ensures k in Run(es, ks, max)
    decreases |es|
  {
    if es != [] {
      var e, ks' := es[0], Step(es[0], ks, max);
      var all := Ahead(ks, k) + (Touched(es) - {k});
      Subset(Ahead(ks, k) + (TouchedBy(e) - {k}), all);
      assert e in es;
      StepAhead(e, ks, max, k);
      StepDistinct(e, ks, max);
      Subset(Ahead(ks', k) + (Touched(es[1..]) - {k}), all);
      Keeps(es[1..], ks', max, k);
    }
  }

  /**
   From both sides: while keys leave only by eviction, a key that is not used again is in the list
   exactly as long as fewer than `max` other keys were used.
   */
  lemma {:induction false} Exact<K>(es: seq<Effect<K>>, ks: seq<K>, max: nat, k: K, ahead: set<K>)
    requires Distinct(ks) && |ks| <= max && k !in Touched(es)
    requires forall e | e in es :: e.Keep? || e.Front?
    requires if k in ks then Ahead(ks, k) == ahead else |ahead| >= max
    ensures k in Run(es, ks, max) <==> |ahead + Touched(es)| < max
    decreases |es|
  {
    if es == [] {
      assert ahead + Touched(es) == ahead;
      if k in ks { AheadCount(ks, k); }
    } else {
      var e, tail := es[0], es[1..];
      assert e in es && forall x | x in tail :: x in es;
      StepDistinct(e, ks, max);
      ExactStep(e, ks, max, k, ahead);
      Exact(tail, Step(e, ks, max), max, k, ahead + TouchedBy(e));
      Union(ahead, TouchedBy(e), Touched(tail));
    }
  }

  lemma {:induction false} Union<K>(a: set<K>, b: set<K>, c: set<K>)
    ensures a + b + c == a + (b + c)
  {}

  /** One use of another key: those ahead of `k` grow by it, and if they are too many `k` is out. */
  lemma {:induction false} ExactStep<K>(e: Effect<K>, ks: seq<K>, max: nat, k: K, ahead: set<K>)
    requires Distinct(ks) && |ks| <= max && (e.Keep? || e.Front?) && k !in TouchedBy(e)
    requires if k in ks then Ahead(ks, k) == ahead else |ahead| >= max
    ensures var ks', ahead' := Step(e, ks, max), ahead + TouchedBy(e);
            if k in ks' then Ahead(ks', k) == ahead' else |ahead'| >= max
  {
    var ahead' := ahead + TouchedBy(e);
    if e.Front? {
      if k in ks {
        FrontAhead(e.key, ks, max, k);
      } else {
        RemovedProps(ks, e.key);
        Subset(ahead, ahead');
      }
    } else {
      assert ahead' == ahead;
    }
  }
}
