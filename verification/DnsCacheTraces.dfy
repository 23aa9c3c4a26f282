/**
 What a caller may count on from the cache, said of the operations alone: how long an answer is
 served, when it must still be there, and when a hit asks for a prefetch.
 */
module DnsCacheTraces {
  import LruList
  import opened Options
  import opened DnsCacheSpec

  // ---------------------------------------------------------------- how long

  /**
   A key that is held after a trace, whatever the trace was, is answered exactly so long after it was
   last stored: 60, 30, 10 and 5 seconds for the failures, and for a success its TTL within the limits.
   */
  lemma {:induction false} AnsweredFor<R>(ops: seq<Op<R>>, k: CacheKey, now: int, cfg: Config, maxSize: nat)
    requires maxSize > 0 && Holds(Run(ops, [], cfg, maxSize), k)
    ensures LastStored(ops, cfg, k).Some?
    ensures var st := LastStored(ops, cfg, k).value;
            var answered := Found(k, now, Run(ops, [], cfg, maxSize)).Some?;
            && (st.rcode == 3 ==> (answered <==> now - st.at <= 60_000_000_000))
            && (st.rcode == 2 ==> (answered <==> now - st.at <= 30_000_000_000))
            && (st.rcode == 5 ==> (answered <==> now - st.at <= 10_000_000_000))
            && (st.rcode !in {0, 2, 3, 5} ==> (answered <==> now - st.at <= 5_000_000_000))
            && (st.rcode == 0 && 0 < cfg.minTTL < 0x1_0000_0000 && 0 < cfg.maxTTL < 0x1_0000_0000 ==>
                  (answered <==> now - st.at <= Least(Most(cfg.minTTL, st.ttl), cfg.maxTTL) * 1_000_000_000))
            && (st.rcode == 0 && cfg.minTTL <= 0 && cfg.maxTTL <= 0 ==>
                  (answered <==> now - st.at <= Least(Most(60, st.ttl), 86400) * 1_000_000_000))
  {
    HitsAreLastStored(ops, k, now, cfg, maxSize);
  }

  // ------------------------------------------------------------ while it is used

  /** The keys asked for or stored. */
  function Named<R>(ops: seq<Op<R>>): set<CacheKey>
  {
    if ops == [] then {} else (if ops[0].Get? || ops[0].Set? then {ops[0].key} else {}) + Named(ops[1..])
  }

  /** Nobody removes `k`, and it is only read while it is good. `past` is all that came before. */
  ghost predicate Minded<R>(past: seq<Op<R>>, ops: seq<Op<R>>, k: CacheKey, cfg: Config)
  {
    forall i | 0 <= i < |ops| ::
      && ops[i] != Clear && ops[i] != Remove(k)
      && (ops[i].Get? && ops[i].key == k ==>
            var st := LastStored(past + ops[..i], cfg, k); st.Some? ==> ops[i].now <= Until(st.value, cfg))
  }

  /** A use of `k` after `past`: an answer is stored under it, or found under it. */
  ghost predicate Uses<R>(op: Op<R>, past: seq<Op<R>>, k: CacheKey, cfg: Config, maxSize: nat)
    requires maxSize > 0
  {
    || (op.Set? && op.key == k && Cacheable(op.rcode, cfg))
    || (op.Get? && op.key == k && Found(k, op.now, Run(past, [], cfg, maxSize)).Some?)
  }

  lemma {:induction false} RunConcat<R>(a: seq<Op<R>>, b: seq<Op<R>>, s: seq<Entry<R>>, cfg: Config, maxSize: nat)
    requires maxSize > 0
    ensures Run(a + b, s, cfg, maxSize) == Run(b, Run(a, s, cfg, maxSize), cfg, maxSize)
    decreases |a|
  {
    if a == [] {
      assert a + b == b;
    } else {
      assert (a + b)[1..] == a[1..] + b;
      RunConcat(a[1..], b, Next(a[0], s, cfg, maxSize), cfg, maxSize);
    }
  }

  lemma {:induction false} MindedTail<R>(past: seq<Op<R>>, ops: seq<Op<R>>, k: CacheKey, cfg: Config)
    requires ops != [] && Minded(past, ops, k, cfg)
    ensures Minded(past + [ops[0]], ops[1..], k, cfg)
  {
    forall i | 0 <= i < |ops| - 1
      ensures ops[1..][i] == ops[i + 1] && past + [ops[0]] + ops[1..][..i] == past + ops[..i + 1]
    {
      assert [ops[0]] + ops[1..][..i] == ops[..i + 1];
    }
  }

  /** One operation of a minded trace does not take `k` out, and uses no key but the one it names. */
  lemma {:induction false} MindedEffect<R>(past: seq<Op<R>>, ops: seq<Op<R>>, k: CacheKey, cfg: Config, maxSize: nat)
    requires maxSize > 0 && ops != [] && Minded(past, ops, k, cfg)
    ensures var e := Effect(ops[0], Run(past, [], cfg, maxSize), cfg);
            !e.Wipe? && e != LruList.Drop(k) && LruList.TouchedBy(e) <= Named([ops[0]])
  {
    var s, op := Run(past, [], cfg, maxSize), ops[0];
    RunRefines(past, cfg, maxSize);
    assert past + ops[..0] == past;
    if op.Get? && op.key == k && Holds(s, k) { assert s[Pos(s, k)] in s; }
  }

  lemma {:induction false} MindedEffects<R>(past: seq<Op<R>>, ops: seq<Op<R>>, k: CacheKey, cfg: Config, maxSize: nat)
    requires maxSize > 0 && Minded(past, ops, k, cfg)
    ensures var es := Effects(ops, Run(past, [], cfg, maxSize), cfg, maxSize);
            LruList.Wipe !in es && LruList.Drop(k) !in es && LruList.Touched(es) <= Named(ops)
    decreases |ops|
  {
    if ops != [] {
      var s := Run(past, [], cfg, maxSize);
      MindedEffect(past, ops, k, cfg, maxSize);
      MindedTail(past, ops, k, cfg);
      RunSnoc(past, ops[0], [], cfg, maxSize);
      MindedEffects(past + [ops[0]], ops[1..], k, cfg, maxSize);
      var tail := Effects(ops[1..], Next(ops[0], s, cfg, maxSize), cfg, maxSize);
      assert Effects(ops, s, cfg, maxSize)[1..] == tail;
    }
  }

  /**
   After any history: once `k` was stored or found, it is still there as long as it is not removed or
   read too late, and fewer than maxSize other keys are asked for or stored.
   */
  lemma {:induction false} StaysHeld<R>(before: seq<Op<R>>, touch: Op<R>, after: seq<Op<R>>, k: CacheKey, cfg: Config,
                                        maxSize: nat)
    requires maxSize > 0 && Uses(touch, before, k, cfg, maxSize) && Minded(before + [touch], after, k, cfg)
    requires |Named(after) - {k}| < maxSize
    ensures Holds(Run(before + [touch] + after, [], cfg, maxSize), k)
  {
    var s := Run(before, [], cfg, maxSize);
    RunSnoc(before, touch, [], cfg, maxSize);
    RunConcat(before + [touch], after, [], cfg, maxSize);
    MindedEffects(before + [touch], after, k, cfg, maxSize);
    LruList.Subset(Touched(after, Next(touch, s, cfg, maxSize), cfg, maxSize) - {k}, Named(after) - {k});
    LruPromise(before, touch, after, cfg, maxSize, k);
  }

  /** So it is answered, with what was last stored, until that is no longer good. */
  lemma {:induction false} StaysAnswered<R>(before: seq<Op<R>>, touch: Op<R>, after: seq<Op<R>>, k: CacheKey, now: int,
                                            cfg: Config, maxSize: nat)
    requires maxSize > 0 && Uses(touch, before, k, cfg, maxSize) && Minded(before + [touch], after, k, cfg)
    requires |Named(after) - {k}| < maxSize
    ensures var ops := before + [touch] + after;
            var e, st := Found(k, now, Run(ops, [], cfg, maxSize)), LastStored(ops, cfg, k);
            && st.Some? && (e.Some? <==> now <= Until(st.value, cfg))
            && (e.Some? ==> e.value.response == st.value.resp)
  {
    var ops := before + [touch] + after;
    StaysHeld(before, touch, after, k, cfg, maxSize);
    AnsweredFor(ops, k, now, cfg, maxSize);
    HitsAreLastStored(ops, k, now, cfg, maxSize);
  }

  // ------------------------------------------------------------------ prefetching

  /** What became of the prefetches of a key: failures since the last success, when, and whether one runs. */
  datatype Fate = Fate(fails: nat, lastFail: int, pending: bool)

  function FateStep<R>(f: Fate, op: Op<R>, k: CacheKey, cfg: Config): Fate
  {
    if op.Clear? || op.key != k then f
    else match op
      case Set(_, _, rcode, _, _) =>
        if !Cacheable(rcode, cfg) then f else Fate(if rcode == 0 then 0 else f.fails, f.lastFail, false)
      case MarkPrefetch(_, status) => f.(pending := status)
      case PrefetchFailed(_, now) => Fate(f.fails + 1, now, false)
      case PrefetchSucceeded(_) => Fate(0, f.lastFail, false)
      case _ => f
  }

  /** From an answer just stored: nothing has failed yet and nothing runs. */
  function FateAfter<R>(ops: seq<Op<R>>, k: CacheKey, cfg: Config): Fate
  {
    if ops == [] then Fate(0, 0, false)
    else var n := |ops| - 1; FateStep(FateAfter(ops[..n], k, cfg), ops[n], k, cfg)
  }

  /** The pause after the first, the second and any further failure. */
  function Pause(fails: nat): int
  {
    match fails case 0 => 0 case 1 => 5_000_000_000 case 2 => 30_000_000_000 case _ => 120_000_000_000
  }

  predicate Bears<R>(e: Entry<R>, f: Fate)
  {
    && e.failCount == f.fails && e.prefetching == f.pending && e.backoff == Pause(f.fails)
    && (f.fails > 0 ==> e.lastFail == f.lastFail)
  }

  function EntryOf<R>(s: seq<Entry<R>>, k: CacheKey): Entry<R>
    requires Holds(s, k)
  {
    s[Pos(s, k)]
  }

  lemma {:induction false} PosLater<R>(e: Entry<R>, s: seq<Entry<R>>, k: CacheKey)
    requires e.key != k
    ensures Pos([e] + s, k) == 1 + Pos(s, k)
  {
    assert ([e] + s)[1..] == s;
  }

  lemma {:induction false} PosTake<R>(s: seq<Entry<R>>, k: CacheKey, n: nat)
    requires n <= |s| && Holds(s[..n], k)
    ensures Pos(s, k) == Pos(s[..n], k)
    decreases n
  {
    if n > 0 && s[0].key != k {
      assert s[..n][1..] == s[1..][..n - 1];
      PosTake(s[1..], k, n - 1);
    }
  }

  lemma {:induction false} MinusOther<R>(s: seq<Entry<R>>, k: CacheKey, other: CacheKey)
    requires other != k && Holds(Minus(s, other), k)
    ensures Holds(s, k) && EntryOf(Minus(s, other), k) == EntryOf(s, k)
    decreases |s|
  {
    if s[0].key == other {
    } else if s[0].key != k {
      PosLater(s[0], Minus(s[1..], other), k);
      MinusOther(s[1..], k, other);
    }
  }

  lemma {:induction false} AmendOther<R>(s: seq<Entry<R>>, i: nat, e: Entry<R>, k: CacheKey)
    requires i < |s| && e.key == s[i].key != k
    ensures Pos(s[i := e], k) == Pos(s, k)
    decreases i
  {
    if i == 0 {
      assert s[0 := e][1..] == s[1..];
    } else if s[0].key != k {
      assert s[i := e][1..] == s[1..][i - 1 := e];
      AmendOther(s[1..], i - 1, e, k);
    }
  }

  lemma {:induction false} AmendOwn<R>(s: seq<Entry<R>>, k: CacheKey, e: Entry<R>)
    requires Holds(s, k) && e.key == k
    ensures Pos(s[Pos(s, k) := e], k) == Pos(s, k)
    decreases |s|
  {
    if s[0].key != k {
      assert s[Pos(s, k) := e][1..] == s[1..][Pos(s[1..], k) := e];
      AmendOwn(s[1..], k, e);
    }
  }

  /** An operation on another key leaves the entry of `k` as it is. */
  lemma {:induction false} OtherKey<R>(op: Op<R>, s: seq<Entry<R>>, k: CacheKey, cfg: Config, maxSize: nat)
    requires maxSize > 0 && !op.Clear? && op.key != k && Holds(s, k) && Holds(Next(op, s, cfg, maxSize), k)
    ensures EntryOf(Next(op, s, cfg, maxSize), k) == EntryOf(s, k)
  {
    var i, s' := Pos(s, op.key), Next(op, s, cfg, maxSize);
    match op {
      case Get(_, now) =>
        if i < |s| {
          if Expired(s[i], now) { MinusOther(s, k, op.key); }
          else { OtherFronted(s[i].(hitCount := s[i].hitCount + 1), s, k); }
        }
      case Set(_, _, _, _, _) => OtherSet(op, s, k, cfg, maxSize);
      case Remove(_) => MinusOther(s, k, op.key);
      case MarkPrefetch(_, _) => if i < |s| { OtherAmended(s, i, s'[i], k); }
      case PrefetchFailed(_, _) => if i < |s| { OtherAmended(s, i, s'[i], k); }
      case PrefetchSucceeded(_) => if i < |s| { OtherAmended(s, i, s'[i], k); }
    }
  }

  lemma {:induction false} OtherAmended<R>(s: seq<Entry<R>>, i: nat, e: Entry<R>, k: CacheKey)
    requires i < |s| && e.key == s[i].key != k && Holds(s, k)
    ensures Holds(s[i := e], k) && EntryOf(s[i := e], k) == EntryOf(s, k)
  {
    AmendOther(s, i, e, k);
  }

  lemma {:induction false} OtherSet<R>(op: Op<R>, s: seq<Entry<R>>, k: CacheKey, cfg: Config, maxSize: nat)
    requires maxSize > 0 && op.Set? && op.key != k && Holds(s, k) && Holds(Next(op, s, cfg, maxSize), k)
    ensures EntryOf(Next(op, s, cfg, maxSize), k) == EntryOf(s, k)
  {
    var i := Pos(s, op.key);
    if Accepted(op.rcode, cfg) {
      if i < |s| {
        OtherFronted(Refreshed(s[i], op.resp, op.rcode, op.ttl, op.now, cfg), s, k);
      } else {
        OtherPushed(NewEntry(op.key, op.resp, op.rcode, op.ttl, op.now, cfg), s, k);
      }
    }
  }

  lemma {:induction false} OtherFronted<R>(e: Entry<R>, s: seq<Entry<R>>, k: CacheKey)
    requires e.key != k && Holds([e] + Minus(s, e.key), k)
    ensures Holds(s, k) && EntryOf([e] + Minus(s, e.key), k) == EntryOf(s, k)
  {
    PosLater(e, Minus(s, e.key), k);
    MinusOther(s, k, e.key);
  }

  lemma {:induction false} OtherPushed<R>(e: Entry<R>, s: seq<Entry<R>>, k: CacheKey)
    requires e.key != k && Holds(s, k)
    ensures var l := [e] + s;
            && Holds(l, k) && EntryOf(l, k) == EntryOf(s, k)
            && (Holds(l[..|s|], k) ==> EntryOf(l[..|s|], k) == EntryOf(s, k))
  {
    var l := [e] + s;
    PosLater(e, s, k);
    if Holds(l[..|s|], k) { PosTake(l, k, |s|); }
  }

  /** One operation on `k` while it stays there: its entry goes on as the fate does. */
  lemma {:induction false} OwnKey<R>(op: Op<R>, s: seq<Entry<R>>, k: CacheKey, f: Fate, cfg: Config, maxSize: nat)
    requires maxSize > 0 && Valid(s, maxSize) && !op.Clear? && op.key == k
    requires Holds(s, k) && Holds(Next(op, s, cfg, maxSize), k) && Bears(EntryOf(s, k), f)
    ensures Bears(EntryOf(Next(op, s, cfg, maxSize), k), FateStep(f, op, k, cfg))
  {
    var i, s' := Pos(s, k), Next(op, s, cfg, maxSize);
    Gone(s, k, maxSize);
    if op.MarkPrefetch? || op.PrefetchFailed? || op.PrefetchSucceeded? { AmendOwn(s, k, s'[i]); }
  }

  lemma {:induction false} Gone<R>(s: seq<Entry<R>>, k: CacheKey, maxSize: nat)
    requires Valid(s, maxSize)
    ensures !Holds(Minus(s, k), k)
  {
    MinusKeys(s, k);
    LruList.RemovedProps(Keys(s), k);
    AbsentKey(Minus(s, k), k);
  }

  lemma {:induction false} BearsOn<R>(op: Op<R>, s: seq<Entry<R>>, k: CacheKey, f: Fate, cfg: Config, maxSize: nat)
    requires maxSize > 0 && Valid(s, maxSize)
    requires Holds(s, k) && Holds(Next(op, s, cfg, maxSize), k) && Bears(EntryOf(s, k), f)
    ensures Bears(EntryOf(Next(op, s, cfg, maxSize), k), FateStep(f, op, k, cfg))
  {
    if !op.Clear? {
      if op.key == k { OwnKey(op, s, k, f, cfg, maxSize); } else { OtherKey(op, s, k, cfg, maxSize); }
    }
  }

  lemma {:induction false} BearsThen<R>(ops: seq<Op<R>>, op: Op<R>, k: CacheKey, f: Fate, cfg: Config, maxSize: nat)
    requires maxSize > 0
    requires var s := Run(ops, [], cfg, maxSize); Holds(s, k) && Bears(EntryOf(s, k), f)
    requires Holds(Run(ops + [op], [], cfg, maxSize), k)
    ensures Bears(EntryOf(Run(ops + [op], [], cfg, maxSize), k), FateStep(f, op, k, cfg))
  {
    RunSnoc(ops, op, [], cfg, maxSize);
    RunRefines(ops, cfg, maxSize);
    BearsOn(op, Run(ops, [], cfg, maxSize), k, f, cfg, maxSize);
  }

  lemma {:induction false} Regrouped<T>(a: seq<T>, b: seq<T>)
    requires b != []
    ensures a + b == a + b[..|b| - 1] + [b[|b| - 1]]
  {}

  lemma {:induction false} MindedTake<R>(past: seq<Op<R>>, ops: seq<Op<R>>, n: nat, k: CacheKey, cfg: Config,
                                         maxSize: nat)
    requires n <= |ops| && Minded(past, ops, k, cfg) && |Named(ops) - {k}| < maxSize
    ensures Minded(past, ops[..n], k, cfg) && |Named(ops[..n]) - {k}| < maxSize
  {
    assert forall i | 0 <= i < n :: ops[..n][..i] == ops[..i];
    NamedTake(ops, n);
    LruList.Subset(Named(ops[..n]) - {k}, Named(ops) - {k});
  }

  lemma {:induction false} NamedTake<R>(ops: seq<Op<R>>, n: nat)
    requires n <= |ops|
    ensures Named(ops[..n]) <= Named(ops)
    decreases n
  {
    if n > 0 {
      assert ops[..n][1..] == ops[1..][..n - 1];
      NamedTake(ops[1..], n - 1);
    }
  }

  lemma {:induction false} JustStored<R>(before: seq<Op<R>>, touch: Op<R>, k: CacheKey, cfg: Config, maxSize: nat)
    requires maxSize > 0 && touch.Set? && touch.key == k && touch.rcode == 0
    ensures var s := Run(before + [touch], [], cfg, maxSize);
            Holds(s, k) && Bears(EntryOf(s, k), Fate(0, 0, false))
  {
    RunSnoc(before, touch, [], cfg, maxSize);
  }

  /** From a successful answer on, while it stays, the entry of `k` is as its prefetches went. */
  lemma {:induction false} EntryBears<R>(before: seq<Op<R>>, touch: Op<R>, after: seq<Op<R>>, k: CacheKey, cfg: Config,
                                         maxSize: nat)
    requires maxSize > 0 && touch.Set? && touch.key == k && touch.rcode == 0
    requires Minded(before + [touch], after, k, cfg) && |Named(after) - {k}| < maxSize
    ensures var s := Run(before + [touch] + after, [], cfg, maxSize);
            Holds(s, k) && Bears(EntryOf(s, k), FateAfter(after, k, cfg))
    decreases |after|
  {
    StaysHeld(before, touch, after, k, cfg, maxSize);
    if after == [] {
      assert before + [touch] + after == before + [touch];
      JustStored(before, touch, k, cfg, maxSize);
    } else {
      var n := |after| - 1;
      MindedTake(before + [touch], after, n, k, cfg, maxSize);
      EntryBears(before, touch, after[..n], k, cfg, maxSize);
      Regrouped(before + [touch], after);
      BearsThen(before + [touch] + after[..n], after[n], k, FateAfter(after[..n], k, cfg), cfg, maxSize);
    }
  }

  /**
   A successful answer, any operations after it, and then a look at the entry: a prefetch is due just
   if prefetching is on and none runs, less than three failed, the pause after the last failure is over,
   and the entry is in the last tenth of its time or within the threshold of its end.
   */
  lemma {:induction false} DueExactly<R>(before: seq<Op<R>>, touch: Op<R>, after: seq<Op<R>>, k: CacheKey, now: int,
                                         cfg: Config, maxSize: nat)
    requires maxSize > 0 && touch.Set? && touch.key == k && touch.rcode == 0
    requires Minded(before + [touch], after, k, cfg) && |Named(after) - {k}| < maxSize
    ensures var ops := before + [touch] + after;
            var s, st, f := Run(ops, [], cfg, maxSize), LastStored(ops, cfg, k), FateAfter(after, k, cfg);
            && Holds(s, k) && st.Some?
            && var end, whole := Until(st.value, cfg), Until(st.value, cfg) - st.value.at;
               ShouldPrefetch(EntryOf(s, k), now, cfg) <==>
               && cfg.prefetch && !f.pending
               && (f.fails == 0 || (f.fails == 1 && now - f.lastFail >= 5_000_000_000) ||
                   (f.fails == 2 && now - f.lastFail >= 30_000_000_000))
               && ((whole > 0 && 10 * (end - now) < whole) ||
                   end - now < (if cfg.threshold > 0 then cfg.threshold else 30) * 1_000_000_000)
  {
    var ops := before + [touch] + after;
    var s := Run(ops, [], cfg, maxSize);
    EntryBears(before, touch, after, k, cfg, maxSize);
    RunRefines(ops, cfg, maxSize);
    assert EntryOf(s, k) in s;
    var st := LastStored(ops, cfg, k).value;
    Tenth(Lasts(st.rcode, st.ttl, cfg), Until(st, cfg) - now);
  }

  lemma {:induction false} Tenth(seconds: nat, rest: int)
    ensures rest < seconds * 1_000_000_000 / 10 <==> 10 * rest < seconds * 1_000_000_000
  {}
}
