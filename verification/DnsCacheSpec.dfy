/**
 The DNS answer cache as a list of entries, most recently used first. Operations carry their
 own clock reading, in nanoseconds; traces of operations are arbitrary.
 */
module DnsCacheSpec {
  import LruList
  import opened Options

  /** Upstream, channel, name and type: an answer is only ever served to the same four. */
  datatype CacheKey = CacheKey(upstreamAddr: string, proxyTag: string, name: string, qtype: nat)

  datatype Record = Record(rrtype: nat, ttl: nat, data: string)

  datatype Response = Response(
    rcode: nat, answer: seq<Record>, authority: seq<Record>, additional: seq<Record>, ttl: nat, cached: bool)

  datatype Config = Config(minTTL: int, maxTTL: int, negativeCache: bool, prefetch: bool, threshold: int)

  /** `R` is how the answer is held: by value, or as the object it is shared through. */
  datatype Entry<R> = Entry(
    key: CacheKey, response: R, originalTTL: nat, effectiveTTL: nat, storedAt: int, expiresAt: int,
    hitCount: nat, prefetching: bool, negative: bool, failCount: nat, backoff: int, lastFail: int)

  const SECOND: int := 1_000_000_000
  const UINT32: int := 0x1_0000_0000
  const SUCCESS := 0
  const SERVFAIL := 2
  const NXDOMAIN := 3
  const REFUSED := 5
  const TYPE_OPT := 41
  const TYPE_TSIG := 250

  // --------------------------------------------------------------------- TTLs

  function ToUint32(n: int): nat { n % UINT32 }

  function ClampedTTL(originalTTL: nat, minTTL: int, maxTTL: int): nat
  {
    var lo := ToUint32(if minTTL <= 0 then 60 else minTTL);
    var hi := ToUint32(if maxTTL <= 0 then 86400 else maxTTL);
    var raised := if originalTTL < lo then lo else originalTTL;
    if raised > hi then hi else raised
  }

  function NegativeTTL(rcode: nat): nat
  {
    if rcode == NXDOMAIN then 60 else if rcode == SERVFAIL then 30 else if rcode == REFUSED then 10 else 5
  }

  function EffectiveTTL(rcode: nat, originalTTL: nat, cfg: Config): nat
  {
    if rcode != SUCCESS then NegativeTTL(rcode) else ClampedTTL(originalTTL, cfg.minTTL, cfg.maxTTL)
  }

  function PrefetchBackoff(failCount: nat): int
  {
    if failCount == 0 then 0 else if failCount == 1 then 5 * SECOND else if failCount == 2 then 30 * SECOND
    else 120 * SECOND
  }

  function MinTTL(configured: int): nat { if configured > 0 then ToUint32(configured) else 60 }

  function ElapsedSeconds(elapsed: int): nat { if elapsed > 0 then ToUint32(elapsed / SECOND) else 0 }

  function AgedRecord(r: Record, elapsed: nat, minTTL: nat): Record
  {
    if r.rrtype == TYPE_OPT || r.rrtype == TYPE_TSIG then r
    else
      var left := if r.ttl > elapsed then r.ttl - elapsed else 0;
      r.(ttl := if left < minTTL then minTTL else left)
  }

  function AgedRecords(rs: seq<Record>, elapsed: nat, minTTL: nat): seq<Record>
  {
    seq(|rs|, i requires 0 <= i < |rs| => AgedRecord(rs[i], elapsed, minTTL))
  }

  function LeastTTL(rs: seq<Record>): (m: nat)
    requires rs != []
    ensures (exists i | 0 <= i < |rs| :: rs[i].ttl == m) && forall i | 0 <= i < |rs| :: m <= rs[i].ttl
  {
    if |rs| == 1 then rs[0].ttl
    else
      var front := LeastTTL(rs[..|rs| - 1]);
      var last := rs[|rs| - 1].ttl;
      assert forall i | 0 <= i < |rs| - 1 :: rs[..|rs| - 1][i] == rs[i];
      if last < front then last else front
  }

  lemma {:induction false} LeastAt(rs: seq<Record>, at: nat)
    requires at < |rs| && forall i | 0 <= i < |rs| :: rs[at].ttl <= rs[i].ttl
    ensures LeastTTL(rs) == rs[at].ttl
  {
    var m := LeastTTL(rs);
    assert m <= rs[at].ttl && exists i | 0 <= i < |rs| :: rs[i].ttl == m;
  }

  /** What a hit serves: the stored answer, its TTLs brought down by the time it lay here. */
  function Aged(resp: Response, elapsed: int, configuredMinTTL: int): Response
  {
    var e, m := ElapsedSeconds(elapsed), MinTTL(configuredMinTTL);
    var answer := AgedRecords(resp.answer, e, m);
    Response(resp.rcode, answer, AgedRecords(resp.authority, e, m), AgedRecords(resp.additional, e, m),
             if answer == [] then resp.ttl else LeastTTL(answer), true)
  }

  // --------------------------------------------------------------- operations

  /** A Set comes with the code its answer had when it was stored. */
  datatype Op<R> =
    | Get(key: CacheKey, now: int)
    | Set(key: CacheKey, resp: R, rcode: nat, ttl: nat, now: int)
    | Remove(key: CacheKey)
    | Clear
    | MarkPrefetch(key: CacheKey, status: bool)
    | PrefetchFailed(key: CacheKey, now: int)
    | PrefetchSucceeded(key: CacheKey)

  function Pos<R>(s: seq<Entry<R>>, k: CacheKey): (i: nat)
    ensures i <= |s| && (i < |s| ==> s[i].key == k) && forall j | 0 <= j < i :: s[j].key != k
  {
    if s == [] then 0 else if s[0].key == k then 0 else 1 + Pos(s[1..], k)
  }

  predicate Holds<R>(s: seq<Entry<R>>, k: CacheKey) { Pos(s, k) < |s| }

  function Minus<R>(s: seq<Entry<R>>, k: CacheKey): seq<Entry<R>>
  {
    if s == [] then [] else if s[0].key == k then s[1..] else [s[0]] + Minus(s[1..], k)
  }

  predicate Accepted(rcode: nat, cfg: Config)
  {
    cfg.negativeCache || (rcode != NXDOMAIN && rcode != SERVFAIL && rcode != REFUSED)
  }

  function NewEntry<R>(k: CacheKey, resp: R, rcode: nat, ttl: nat, now: int, cfg: Config): Entry<R>
  {
    var eff := EffectiveTTL(rcode, ttl, cfg);
    Entry(k, resp, ttl, eff, now, now + eff * SECOND, 0, false, rcode != SUCCESS, 0, 0, 0)
  }

  function Refreshed<R>(e: Entry<R>, resp: R, rcode: nat, ttl: nat, now: int, cfg: Config): Entry<R>
  {
    var eff := EffectiveTTL(rcode, ttl, cfg);
    e.(response := resp, originalTTL := ttl, effectiveTTL := eff, storedAt := now, expiresAt := now + eff * SECOND,
       prefetching := false, negative := rcode != SUCCESS,
       failCount := if rcode == SUCCESS then 0 else e.failCount,
       backoff := if rcode == SUCCESS then 0 else e.backoff)
  }

  predicate Expired<R>(e: Entry<R>, now: int) { now > e.expiresAt }

  function Got<R>(s: seq<Entry<R>>, k: CacheKey, now: int): seq<Entry<R>>
  {
    var i := Pos(s, k);
    if i == |s| then s
    else if Expired(s[i], now) then Minus(s, k)
    else [s[i].(hitCount := s[i].hitCount + 1)] + Minus(s, k)
  }

  function Put<R>(s: seq<Entry<R>>, k: CacheKey, resp: R, rcode: nat, ttl: nat, now: int, cfg: Config, maxSize: nat)
    : seq<Entry<R>>
    requires maxSize > 0
  {
    var i := Pos(s, k);
    if !Accepted(rcode, cfg) then s
    else if i < |s| then [Refreshed(s[i], resp, rcode, ttl, now, cfg)] + Minus(s, k)
    else
      var s' := [NewEntry(k, resp, rcode, ttl, now, cfg)] + s;
      if |s'| > maxSize then s'[..|s'| - 1] else s'
  }

  function Marked<R>(s: seq<Entry<R>>, k: CacheKey, status: bool): seq<Entry<R>>
  {
    var i := Pos(s, k);
    if i == |s| then s else s[i := s[i].(prefetching := status)]
  }

  function FailureNoted<R>(s: seq<Entry<R>>, k: CacheKey, now: int): seq<Entry<R>>
  {
    var i := Pos(s, k);
    if i == |s| then s
    else s[i := s[i].(failCount := s[i].failCount + 1, lastFail := now, prefetching := false,
                      backoff := PrefetchBackoff(s[i].failCount + 1))]
  }

  function SuccessNoted<R>(s: seq<Entry<R>>, k: CacheKey): seq<Entry<R>>
  {
    var i := Pos(s, k);
    if i == |s| then s else s[i := s[i].(failCount := 0, backoff := 0, prefetching := false)]
  }

  function Next<R>(op: Op<R>, s: seq<Entry<R>>, cfg: Config, maxSize: nat): seq<Entry<R>>
    requires maxSize > 0
  {
    match op
    case Get(k, now) => Got(s, k, now)
    case Set(k, resp, rcode, ttl, now) => Put(s, k, resp, rcode, ttl, now, cfg, maxSize)
    case Remove(k) => Minus(s, k)
    case Clear => []
    case MarkPrefetch(k, status) => Marked(s, k, status)
    case PrefetchFailed(k, now) => FailureNoted(s, k, now)
    case PrefetchSucceeded(k) => SuccessNoted(s, k)
  }

  /** The entry a Get answers from. */
  function Found<R>(k: CacheKey, now: int, s: seq<Entry<R>>): Option<Entry<R>>
  {
    var i := Pos(s, k);
    if i == |s| || Expired(s[i], now) then None else Some(s[i])
  }

  /** Whether a hit at `now` should start a prefetch: near the end of its life, and not after three failures. */
  predicate ShouldPrefetch<R>(e: Entry<R>, now: int, cfg: Config)
  {
    var backoff := PrefetchBackoff(e.failCount);
    var remaining, total := e.expiresAt - now, e.expiresAt - e.storedAt;
    var threshold := if cfg.threshold <= 0 then 30 else cfg.threshold;
    && cfg.prefetch && !e.prefetching && e.failCount < 3 && !(backoff > 0 && now - e.lastFail < backoff)
    && ((total > 0 && remaining < total / 10) || remaining < threshold * SECOND)
  }

  function Run<R>(ops: seq<Op<R>>, s: seq<Entry<R>>, cfg: Config, maxSize: nat): seq<Entry<R>>
    requires maxSize > 0
  {
    if ops == [] then s else Run(ops[1..], Next(ops[0], s, cfg, maxSize), cfg, maxSize)
  }

  // ----------------------------------------------------------- invariant and LRU

  function Keys<R>(s: seq<Entry<R>>): seq<CacheKey> { seq(|s|, i requires 0 <= i < |s| => s[i].key) }

  /** Each key once, and never more entries than the size. */
  ghost predicate Valid<R>(s: seq<Entry<R>>, maxSize: nat) { LruList.Distinct(Keys(s)) && |s| <= maxSize }

  /** What an operation does to the order of use. */
  function Effect<R>(op: Op<R>, s: seq<Entry<R>>, cfg: Config): LruList.Effect<CacheKey>
  {
    match op
    case Get(k, now) =>
      var i := Pos(s, k);
      if i == |s| then LruList.Keep else if Expired(s[i], now) then LruList.Drop(k) else LruList.Front(k)
    case Set(k, _, rcode, _, _) => if Accepted(rcode, cfg) then LruList.Front(k) else LruList.Keep
    case Remove(k) => LruList.Drop(k)
    case Clear => LruList.Wipe
    case _ => LruList.Keep
  }

  function Effects<R>(ops: seq<Op<R>>, s: seq<Entry<R>>, cfg: Config, maxSize: nat): seq<LruList.Effect<CacheKey>>
    requires maxSize > 0
  {
    if ops == [] then []
    else [Effect(ops[0], s, cfg)] + Effects(ops[1..], Next(ops[0], s, cfg, maxSize), cfg, maxSize)
  }

  lemma {:induction false} MinusKeys<R>(s: seq<Entry<R>>, k: CacheKey)
    ensures Keys(Minus(s, k)) == LruList.Removed(Keys(s), k)
    decreases |s|
  {
    if s != [] {
      assert Keys(s)[1..] == Keys(s[1..]);
      MinusKeys(s[1..], k);
      if s[0].key != k { assert Keys([s[0]] + Minus(s[1..], k)) == [s[0].key] + Keys(Minus(s[1..], k)); }
    }
  }

  lemma {:induction false} AbsentKey<R>(s: seq<Entry<R>>, k: CacheKey)
    ensures Pos(s, k) == |s| <==> k !in Keys(s)
    ensures k !in Keys(s) ==> LruList.Removed(Keys(s), k) == Keys(s)
    decreases |s|
  {
    if s != [] {
      assert Keys(s) == [s[0].key] + Keys(s[1..]);
      AbsentKey(s[1..], k);
    }
  }

  lemma {:induction false} ConsKeys<R>(e: Entry<R>, s: seq<Entry<R>>)
    ensures Keys([e] + s) == [e.key] + Keys(s)
  {}

  /** The order of use moves as a least-recently-used list does. */
  lemma {:induction false} NextKeys<R>(op: Op<R>, s: seq<Entry<R>>, cfg: Config, maxSize: nat)
    requires maxSize > 0 && Valid(s, maxSize)
    ensures Keys(Next(op, s, cfg, maxSize)) == LruList.Step(Effect(op, s, cfg), Keys(s), maxSize)
  {
    if !op.Clear? {
      var k, i := op.key, Pos(s, op.key);
      AbsentKey(s, k);
      MinusKeys(s, k);
      LruList.RemovedProps(Keys(s), k);
      if op.Get? || op.Set? {
        if i < |s| {
          ConsKeys(s[i], Minus(s, k));
          if op.Get? { ConsKeys(s[i].(hitCount := s[i].hitCount + 1), Minus(s, k)); }
          else { ConsKeys(Refreshed(s[i], op.resp, op.rcode, op.ttl, op.now, cfg), Minus(s, k)); }
        } else if op.Set? {
          PushKeys(NewEntry(k, op.resp, op.rcode, op.ttl, op.now, cfg), s, maxSize);
        }
      }
    }
  }

  lemma {:induction false} PushKeys<R>(e: Entry<R>, s: seq<Entry<R>>, maxSize: nat)
    requires |s| <= maxSize
    ensures var l, ks := [e] + s, [e.key] + Keys(s);
            if |s| + 1 > maxSize then Keys(l[..|l| - 1]) == ks[..maxSize] else Keys(l) == ks
  {
    ConsKeys(e, s);
    if |s| + 1 > maxSize { assert Keys(([e] + s)[..maxSize]) == ([e.key] + Keys(s))[..maxSize]; }
  }

  lemma {:induction false} NextValid<R>(op: Op<R>, s: seq<Entry<R>>, cfg: Config, maxSize: nat)
    requires maxSize > 0 && Valid(s, maxSize)
    ensures Valid(Next(op, s, cfg, maxSize), maxSize)
  {
    NextKeys(op, s, cfg, maxSize);
    LruList.StepDistinct(Effect(op, s, cfg), Keys(s), maxSize);
    assert |Keys(Next(op, s, cfg, maxSize))| == |Next(op, s, cfg, maxSize)|;
  }

  lemma {:induction false} RunKeys<R>(ops: seq<Op<R>>, s: seq<Entry<R>>, cfg: Config, maxSize: nat)
    requires maxSize > 0 && Valid(s, maxSize)
    ensures Valid(Run(ops, s, cfg, maxSize), maxSize)
    ensures Keys(Run(ops, s, cfg, maxSize)) == LruList.Run(Effects(ops, s, cfg, maxSize), Keys(s), maxSize)
    decreases |ops|
  {
    if ops != [] {
      var s' := Next(ops[0], s, cfg, maxSize);
      NextValid(ops[0], s, cfg, maxSize);
      NextKeys(ops[0], s, cfg, maxSize);
      RunKeys(ops[1..], s', cfg, maxSize);
      assert Effects(ops, s, cfg, maxSize)[1..] == Effects(ops[1..], s', cfg, maxSize);
    }
  }

  /** The keys stored or hit. */
  function Touched<R>(ops: seq<Op<R>>, s: seq<Entry<R>>, cfg: Config, maxSize: nat): set<CacheKey>
    requires maxSize > 0
  {
    LruList.Touched(Effects(ops, s, cfg, maxSize))
  }

  lemma {:induction false} FrontIsFirst<R>(op: Op<R>, s: seq<Entry<R>>, cfg: Config, maxSize: nat, k: CacheKey)
    requires maxSize > 0 && Valid(s, maxSize) && Effect(op, s, cfg) == LruList.Front(k)
    ensures var ks := Keys(Next(op, s, cfg, maxSize)); ks != [] && ks[0] == k && LruList.Ahead(ks, k) == {}
  {
    NextKeys(op, s, cfg, maxSize);
  }

  /**
   Least recently used, over whole traces. After any history, an operation that stores or hits
   `k`, and any further operations that neither remove nor clear it, nor read it expired, and
   that touch fewer than maxSize other keys, `k` is still cached.
   */
  lemma {:induction false} LruPromise<R>(before: seq<Op<R>>, touch: Op<R>, after: seq<Op<R>>, cfg: Config, maxSize: nat,
                                         k: CacheKey)
    requires maxSize > 0
    requires var s := Run(before, [], cfg, maxSize);
             var s' := Next(touch, s, cfg, maxSize);
             var es := Effects(after, s', cfg, maxSize);
             && Effect(touch, s, cfg) == LruList.Front(k)
             && LruList.Wipe !in es && LruList.Drop(k) !in es && |Touched(after, s', cfg, maxSize) - {k}| < maxSize
    ensures Holds(Run(after, Next(touch, Run(before, [], cfg, maxSize), cfg, maxSize), cfg, maxSize), k)
  {
    var s := Run(before, [], cfg, maxSize);
    RunKeys(before, [], cfg, maxSize);
    var s' := Next(touch, s, cfg, maxSize);
    FrontIsFirst(touch, s, cfg, maxSize, k);
    NextValid(touch, s, cfg, maxSize);
    RunKeys(after, s', cfg, maxSize);
    var es := Effects(after, s', cfg, maxSize);
    assert LruList.Ahead(Keys(s'), k) + (LruList.Touched(es) - {k}) == LruList.Touched(es) - {k};
    LruList.Keeps(es, Keys(s'), maxSize, k);
    AbsentKey(Run(after, s', cfg, maxSize), k);
  }

  /**
   The same from both sides: if meanwhile entries leave only by eviction and `k` is not touched
   again, it is still cached if and only if fewer than maxSize other keys were touched.
   */
  lemma {:induction false} LruExact<R>(before: seq<Op<R>>, touch: Op<R>, after: seq<Op<R>>, cfg: Config, maxSize: nat,
                                       k: CacheKey)
    requires maxSize > 0
    requires var s := Run(before, [], cfg, maxSize);
             var s' := Next(touch, s, cfg, maxSize);
             && Effect(touch, s, cfg) == LruList.Front(k) && k !in Touched(after, s', cfg, maxSize)
             && forall e | e in Effects(after, s', cfg, maxSize) :: e.Keep? || e.Front?
    ensures var s' := Next(touch, Run(before, [], cfg, maxSize), cfg, maxSize);
            Holds(Run(after, s', cfg, maxSize), k) <==> |Touched(after, s', cfg, maxSize)| < maxSize
  {
    var s := Run(before, [], cfg, maxSize);
    RunKeys(before, [], cfg, maxSize);
    var s' := Next(touch, s, cfg, maxSize);
    FrontIsFirst(touch, s, cfg, maxSize, k);
    NextValid(touch, s, cfg, maxSize);
    RunKeys(after, s', cfg, maxSize);
    var es := Effects(after, s', cfg, maxSize);
    assert {} + LruList.Touched(es) == LruList.Touched(es);
    LruList.Exact(es, Keys(s'), maxSize, k, {});
    AbsentKey(Run(after, s', cfg, maxSize), k);
  }

  // ----------------------------------------------------------------- timed map

  datatype Stored<R> = Stored(resp: R, rcode: nat, ttl: nat, at: int)

  /** Without negative caching the answers NXDOMAIN, SERVFAIL and REFUSED are not stored. */
  predicate Cacheable(rcode: nat, cfg: Config) { rcode in {2, 3, 5} ==> cfg.negativeCache }

  function Least(a: int, b: int): int { if a < b then a else b }

  function Most(a: int, b: int): int { if a < b then b else a }

  /** A configured number of seconds, as 32 bits; what is not positive means the usual one. */
  function Limit(configured: int, usual: nat): nat
  {
    if configured > 0 then configured % 0x1_0000_0000 else usual
  }

  /**
   The seconds an answer is good for: a minute for NXDOMAIN, half a minute for SERVFAIL, ten for REFUSED,
   five for another failure, and for a success its own TTL between the two limits.
   */
  function Lasts(rcode: nat, ttl: nat, cfg: Config): int
  {
    match rcode
    case 0 => Least(Most(Limit(cfg.minTTL, 60), ttl), Limit(cfg.maxTTL, 86400))
    case 3 => 60
    case 2 => 30
    case 5 => 10
    case _ => 5
  }

  /** The last moment, in nanoseconds, at which what was stored is good. */
  function Until<R>(st: Stored<R>, cfg: Config): int { st.at + Lasts(st.rcode, st.ttl, cfg) * 1_000_000_000 }

  /** What a plain map with no capacity and no clock would hold under `k` after the trace. */
  function LastStored<R>(ops: seq<Op<R>>, cfg: Config, k: CacheKey): Option<Stored<R>>
  {
    if ops == [] then None
    else
      var n := |ops| - 1;
      match ops[n]
      case Set(k', resp, rcode, ttl, now) =>
        if k' == k && Cacheable(rcode, cfg) then Some(Stored(resp, rcode, ttl, now)) else LastStored(ops[..n], cfg, k)
      case Remove(k') => if k' == k then None else LastStored(ops[..n], cfg, k)
      case Clear => None
      case _ => LastStored(ops[..n], cfg, k)
  }

  ghost predicate Agrees<R>(e: Entry<R>, st: Option<Stored<R>>, cfg: Config)
  {
    && st.Some? && st.value.resp == e.response && st.value.ttl == e.originalTTL && st.value.at == e.storedAt
    && e.effectiveTTL == Lasts(st.value.rcode, e.originalTTL, cfg) && e.expiresAt == Until(st.value, cfg)
    && (e.negative <==> st.value.rcode != 0)
  }

  ghost predicate Refines<R>(s: seq<Entry<R>>, ops: seq<Op<R>>, cfg: Config)
  {
    forall e | e in s :: Agrees(e, LastStored(ops, cfg, e.key), cfg)
  }

  lemma {:induction false} MinusIn<R>(s: seq<Entry<R>>, k: CacheKey, maxSize: nat)
    requires Valid(s, maxSize)
    ensures forall e | e in Minus(s, k) :: e in s && e.key != k
  {
    MinusKeys(s, k);
    LruList.RemovedProps(Keys(s), k);
    MinusSub(s, k);
    forall e | e in Minus(s, k)
      ensures e.key != k
    {
      var i :| 0 <= i < |Minus(s, k)| && Minus(s, k)[i] == e;
      assert Keys(Minus(s, k))[i] == e.key;
    }
  }

  lemma MinusSub<R>(s: seq<Entry<R>>, k: CacheKey)
    ensures forall e | e in Minus(s, k) :: e in s
  {}

  /** Everything but the bookkeeping of the entry. */
  ghost predicate SameAnswer<R>(e: Entry<R>, f: Entry<R>)
  {
    && e.key == f.key && e.response == f.response && e.originalTTL == f.originalTTL && e.storedAt == f.storedAt
    && e.effectiveTTL == f.effectiveTTL && e.expiresAt == f.expiresAt && e.negative == f.negative
  }

  /** Entries after a step: the one just stored, or one that was there with the same answer. */
  lemma {:induction false} NextEntries<R>(op: Op<R>, s: seq<Entry<R>>, cfg: Config, maxSize: nat, e: Entry<R>)
    requires maxSize > 0 && Valid(s, maxSize) && e in Next(op, s, cfg, maxSize)
    ensures if op.Set? && Accepted(op.rcode, cfg) && e.key == op.key
            then SameAnswer(e, NewEntry(op.key, op.resp, op.rcode, op.ttl, op.now, cfg))
            else (exists f | f in s :: SameAnswer(e, f)) && !op.Clear? && !(op.Remove? && op.key == e.key)
  {
    if !op.Clear? {
      var k, i := op.key, Pos(s, op.key);
      MinusIn(s, k, maxSize);
      if e in s {
        assert SameAnswer(e, e);
        if op.Set? && Accepted(op.rcode, cfg) && e.key == k { SetReplaces(op, s, cfg, maxSize, e); }
        if op.Remove? && i < |s| { assert e in Minus(s, k); }
        if op.Remove? && i == |s| { AbsentKey(s, k); KeyIn(s, e); }
      } else if i < |s| {
        assert s[i] in s;
      }
    }
  }

  lemma {:induction false} KeyIn<R>(s: seq<Entry<R>>, e: Entry<R>)
    requires e in s
    ensures e.key in Keys(s)
  {
    var j :| 0 <= j < |s| && s[j] == e;
    assert Keys(s)[j] == e.key;
  }

  lemma {:induction false} SetReplaces<R>(op: Op<R>, s: seq<Entry<R>>, cfg: Config, maxSize: nat, e: Entry<R>)
    requires maxSize > 0 && Valid(s, maxSize) && op.Set? && Accepted(op.rcode, cfg) && e.key == op.key
    requires e in Next(op, s, cfg, maxSize)
    ensures SameAnswer(e, NewEntry(op.key, op.resp, op.rcode, op.ttl, op.now, cfg))
  {
    var i := Pos(s, op.key);
    MinusIn(s, op.key, maxSize);
    if i == |s| {
      AbsentKey(s, op.key);
      if e in s { KeyIn(s, e); }
    }
  }

  lemma {:induction false} RefinesStep<R>(s: seq<Entry<R>>, ops: seq<Op<R>>, op: Op<R>, cfg: Config, maxSize: nat)
    requires maxSize > 0 && Valid(s, maxSize) && Refines(s, ops, cfg)
    ensures Refines(Next(op, s, cfg, maxSize), ops + [op], cfg)
  {
    assert (ops + [op])[..|ops|] == ops;
    forall e | e in Next(op, s, cfg, maxSize)
      ensures Agrees(e, LastStored(ops + [op], cfg, e.key), cfg)
    {
      NextEntries(op, s, cfg, maxSize, e);
    }
  }

  lemma {:induction false} RunRefines<R>(ops: seq<Op<R>>, cfg: Config, maxSize: nat)
    requires maxSize > 0
    ensures Valid(Run(ops, [], cfg, maxSize), maxSize) && Refines(Run(ops, [], cfg, maxSize), ops, cfg)
    decreases |ops|
  {
    if ops != [] {
      var n := |ops| - 1;
      RunRefines(ops[..n], cfg, maxSize);
      assert ops == ops[..n] + [ops[n]];
      RunSnoc(ops[..n], ops[n], [], cfg, maxSize);
      var s := Run(ops[..n], [], cfg, maxSize);
      NextValid(ops[n], s, cfg, maxSize);
      RefinesStep(s, ops[..n], ops[n], cfg, maxSize);
    }
  }

  lemma {:induction false} RunSnoc<R>(ops: seq<Op<R>>, op: Op<R>, s: seq<Entry<R>>, cfg: Config, maxSize: nat)
    requires maxSize > 0
    ensures Run(ops + [op], s, cfg, maxSize) == Next(op, Run(ops, s, cfg, maxSize), cfg, maxSize)
    decreases |ops|
  {
    if ops == [] {
      assert ops + [op] == [op] && [op][1..] == [];
    } else {
      assert (ops + [op])[1..] == ops[1..] + [op];
      RunSnoc(ops[1..], op, Next(ops[0], s, cfg, maxSize), cfg, maxSize);
    }
  }

  /**
   After any trace, a key is answered from what was last stored under it and not removed since. While
   it is held, it is answered exactly until that is no longer good.
   */
  lemma {:induction false} HitsAreLastStored<R>(ops: seq<Op<R>>, k: CacheKey, now: int, cfg: Config, maxSize: nat)
    requires maxSize > 0
    ensures var s, st := Run(ops, [], cfg, maxSize), LastStored(ops, cfg, k);
            var e := Found(k, now, s);
            && (Holds(s, k) ==> st.Some?)
            && (e.Some? <==> Holds(s, k) && now <= Until(st.value, cfg))
            && (e.Some? ==> e.value.response == st.value.resp && e.value.storedAt == st.value.at)
  {
    var s := Run(ops, [], cfg, maxSize);
    RunRefines(ops, cfg, maxSize);
    if Holds(s, k) { assert s[Pos(s, k)] in s; }
  }

  /** A section as a hit shows it: max(minTTL, ttl - whole seconds elapsed), the rest as stored. */
  ghost predicate ShownAs(shown: seq<Record>, stored: seq<Record>, seconds: nat, minTTL: nat)
  {
    && |shown| == |stored|
    && forall i | 0 <= i < |stored| ::
         && shown[i].rrtype == stored[i].rrtype && shown[i].data == stored[i].data
         && shown[i].ttl == (if stored[i].rrtype == 41 || stored[i].rrtype == 250 then stored[i].ttl
                             else Most(minTTL, stored[i].ttl - seconds))
  }

  /**
   The records of a hit, after any trace, with `says` what each held answer says: each TTL served is
   what is left of the one in the answer last stored, with no 32-bit truncation left in it, whatever
   the clock and whatever minimum is configured. Its own TTL is the least of its answer records.
   */
  lemma {:induction false} HitTTLs<R>(ops: seq<Op<R>>, k: CacheKey, now: int, cfg: Config, maxSize: nat, e: Entry<R>,
                                      says: R -> Response)
    returns (st: Stored<R>)
    requires maxSize > 0 && Found(k, now, Run(ops, [], cfg, maxSize)) == Some(e)
    ensures LastStored(ops, cfg, k) == Some(st) && e.response == st.resp && e.storedAt == st.at
    ensures ShownRight(says(st.resp), now - st.at, cfg)
  {
    st := HitStored(ops, k, now, cfg, maxSize, e);
    StoredShows(says(st.resp), st, now, cfg);
  }

  /** What is served of an answer so many nanoseconds after it was stored is what it should show. */
  ghost predicate ShownRight(v: Response, elapsed: int, cfg: Config)
  {
    var r := Aged(v, elapsed, cfg.minTTL);
    Shows(r, v, elapsed, cfg) && OwnTTL(r, v)
  }

  lemma {:induction false} AgedOwn(v: Response, elapsed: int, minTTL: int)
    ensures OwnTTL(Aged(v, elapsed, minTTL), v)
  {
    var answer := Aged(v, elapsed, minTTL).answer;
    if answer != [] { LeastIs(answer); }
  }

  lemma {:induction false} StoredShows<R>(v: Response, st: Stored<R>, now: int, cfg: Config)
    requires now <= Until(st, cfg)
    ensures ShownRight(v, now - st.at, cfg)
  {
    AgedShows(v, now - st.at, Lasts(st.rcode, st.ttl, cfg), cfg);
    AgedOwn(v, now - st.at, cfg.minTTL);
  }

  lemma {:induction false} HitStored<R>(ops: seq<Op<R>>, k: CacheKey, now: int, cfg: Config, maxSize: nat, e: Entry<R>)
    returns (st: Stored<R>)
    requires maxSize > 0 && Found(k, now, Run(ops, [], cfg, maxSize)) == Some(e)
    ensures LastStored(ops, cfg, k) == Some(st) && e.response == st.resp && e.storedAt == st.at
    ensures now <= Until(st, cfg)
  {
    HitsAreLastStored(ops, k, now, cfg, maxSize);
    st := LastStored(ops, cfg, k).value;
  }

  /** The whole seconds in so many nanoseconds. */
  function Seconds(elapsed: int): nat { Most(0, elapsed) / 1_000_000_000 }

  /** The whole answer as a hit shows it. */
  ghost predicate Shows(r: Response, stored: Response, elapsed: int, cfg: Config)
  {
    && r.rcode == stored.rcode && r.cached
    && ShownAs(r.answer, stored.answer, Seconds(elapsed), Limit(cfg.minTTL, 60))
    && ShownAs(r.authority, stored.authority, Seconds(elapsed), Limit(cfg.minTTL, 60))
    && ShownAs(r.additional, stored.additional, Seconds(elapsed), Limit(cfg.minTTL, 60))
  }

  /** The TTL of the whole answer: the least of its answer records, or the stored one if it has none. */
  ghost predicate OwnTTL(r: Response, stored: Response)
  {
    if r.answer == [] then r.ttl == stored.ttl else IsLeast(r.ttl, r.answer)
  }

  ghost predicate IsLeast(ttl: nat, records: seq<Record>)
  {
    (exists r | r in records :: r.ttl == ttl) && forall r | r in records :: ttl <= r.ttl
  }

  lemma {:induction false} AgedShows(v: Response, elapsed: int, life: nat, cfg: Config)
    requires life < UINT32 && elapsed <= life * SECOND
    ensures Shows(Aged(v, elapsed, cfg.minTTL), v, elapsed, cfg)
  {
    var m := Limit(cfg.minTTL, 60);
    WholeSeconds(elapsed, life);
    AgedShown(v.answer, Seconds(elapsed), m);
    AgedShown(v.authority, Seconds(elapsed), m);
    AgedShown(v.additional, Seconds(elapsed), m);
  }

  lemma {:induction false} LeastIs(rs: seq<Record>)
    requires rs != []
    ensures IsLeast(LeastTTL(rs), rs)
  {
    var i :| 0 <= i < |rs| && rs[i].ttl == LeastTTL(rs);
    assert rs[i] in rs;
  }

  lemma {:induction false} AgedShown(rs: seq<Record>, seconds: nat, minTTL: nat)
    ensures ShownAs(AgedRecords(rs, seconds, minTTL), rs, seconds, minTTL)
  {}

  /** Within the life of an entry the seconds fit 32 bits. */
  lemma {:induction false} WholeSeconds(elapsed: int, n: nat)
    requires n < UINT32 && elapsed <= n * SECOND
    ensures ElapsedSeconds(elapsed) == Seconds(elapsed)
  {
    if elapsed > 0 { assert 0 <= elapsed / SECOND <= n; }
  }

  /** With sane limits a successful answer lives at least the minimum and at most the maximum. */
  lemma {:induction false} ClampedWithin(originalTTL: nat, minTTL: int, maxTTL: int)
    requires 0 < minTTL <= maxTTL < 0x1_0000_0000
    ensures minTTL <= ClampedTTL(originalTTL, minTTL, maxTTL) <= maxTTL
    ensures minTTL <= originalTTL <= maxTTL ==> ClampedTTL(originalTTL, minTTL, maxTTL) == originalTTL
  {}

  // ------------------------------------------------------------------------ keys

  datatype Upstream = Upstream(addr: string, proxyTag: string)

  /** buildCacheKey: no tag is the direct channel. */
  function BuildCacheKey(name: string, qtype: nat, upstream: Option<Upstream>): CacheKey
  {
    var tag := if upstream.Some? && upstream.value.proxyTag != "" then upstream.value.proxyTag else "direct";
    CacheKey(if upstream.Some? then upstream.value.addr else "", tag, name, qtype)
  }

  predicate SameChannel(a: string, b: string) { a == b || (a in ["", "direct"] && b in ["", "direct"]) }

  /**
   An answer stored for one query is served to another, over any trace, only if both ask the
   same name and type of the same upstream address over the same channel.
   */
  lemma {:induction false} AnswersStayApart<R>(ops: seq<Op<R>>, now: int, cfg: Config, maxSize: nat,
                                               n: string, t: nat, u: Upstream, n': string, t': nat, u': Upstream)
    requires maxSize > 0 && forall op | op in ops && op.Set? :: op.key == BuildCacheKey(n, t, Some(u))
    requires Found(BuildCacheKey(n', t', Some(u')), now, Run(ops, [], cfg, maxSize)).Some?
    ensures n == n' && t == t' && u.addr == u'.addr && SameChannel(u.proxyTag, u'.proxyTag)
  {
    var k := BuildCacheKey(n', t', Some(u'));
    HitsAreLastStored(ops, k, now, cfg, maxSize);
    StoredBySet(ops, cfg, k);
  }

  /** What is stored under a key was put there by a Set of that key. */
  lemma {:induction false} StoredBySet<R>(ops: seq<Op<R>>, cfg: Config, k: CacheKey)
    requires LastStored(ops, cfg, k).Some?
    ensures var st := LastStored(ops, cfg, k).value; Set(k, st.resp, st.rcode, st.ttl, st.at) in ops
    decreases |ops|
  {
    var n := |ops| - 1;
    if !(ops[n].Set? && ops[n].key == k && Cacheable(ops[n].rcode, cfg)) { StoredBySet(ops[..n], cfg, k); }
  }
}
