/** When the handler starts prefetches: the flag on an entry, over runs of queries and ends of prefetches. */
module DnsPrefetch {
  import opened Options
  import opened DnsCacheSpec
  import opened DnsHandler
  import LruList
  import Routing = DnsRouter

  /** The entry under a key. */
  function At<R>(s: seq<Entry<R>>, k: CacheKey): Option<Entry<R>>
  {
    var i := Pos(s, k); if i < |s| then Some(s[i]) else None
  }

  lemma {:induction false} AtCons<R>(e: Entry<R>, s: seq<Entry<R>>, k: CacheKey)
    ensures At([e] + s, k) == if e.key == k then Some(e) else At(s, k)
  {
    assert ([e] + s)[1..] == s;
  }

  lemma {:induction false} AtMinus<R>(s: seq<Entry<R>>, k: CacheKey, other: CacheKey)
    requires k != other
    ensures At(Minus(s, other), k) == At(s, k)
    decreases |s|
  {
    if s != [] {
      AtMinus(s[1..], k, other);
      AtCons(s[0], s[1..], k);
      assert s == [s[0]] + s[1..];
      if s[0].key != other { AtCons(s[0], Minus(s[1..], other), k); }
    }
  }

  lemma {:induction false} AtGone<R>(s: seq<Entry<R>>, k: CacheKey, maxSize: nat)
    requires Valid(s, maxSize)
    ensures At(Minus(s, k), k) == None
  {
    MinusKeys(s, k);
    LruList.RemovedProps(Keys(s), k);
    AbsentKey(Minus(s, k), k);
  }

  lemma {:induction false} AtFront<R>(s: seq<Entry<R>>, k: CacheKey, n: nat)
    requires n <= |s|
    ensures At(s[..n], k) == None || At(s[..n], k) == At(s, k)
    decreases n
  {
    if n > 0 && s[0].key != k {
      assert s[..n] == [s[0]] + s[1..][..n - 1] && s == [s[0]] + s[1..];
      AtCons(s[0], s[1..][..n - 1], k);
      AtCons(s[0], s[1..], k);
      AtFront(s[1..], k, n - 1);
    }
  }

  lemma {:induction false} AtUpdate<R>(s: seq<Entry<R>>, i: nat, e: Entry<R>, k: CacheKey)
    requires i < |s| && i == Pos(s, e.key)
    ensures At(s[i := e], k) == if e.key == k then Some(e) else At(s, k)
    decreases i
  {
    if i == 0 {
      assert s[0 := e] == [e] + s[1..] && s == [s[0]] + s[1..];
      AtCons(e, s[1..], k);
      AtCons(s[0], s[1..], k);
    } else {
      assert s[i := e] == [s[0]] + s[1..][i - 1 := e] && s == [s[0]] + s[1..];
      AtCons(s[0], s[1..][i - 1 := e], k);
      AtCons(s[0], s[1..], k);
      AtUpdate(s[1..], i - 1, e, k);
    }
  }

  // ------------------------------------------------------------------ one operation

  lemma {:induction false} AtGot<R>(s: seq<Entry<R>>, key: CacheKey, now: int, k: CacheKey, maxSize: nat)
    requires Valid(s, maxSize)
    ensures At(Got(s, key, now), k) ==
            if key != k then At(s, k)
            else if Found(k, now, s).None? then None
            else Some(At(s, k).value.(hitCount := At(s, k).value.hitCount + 1))
  {
    var i := Pos(s, key);
    if i < |s| {
      AtCons(s[i].(hitCount := s[i].hitCount + 1), Minus(s, key), k);
      if key == k { AtGone(s, k, maxSize); } else { AtMinus(s, k, key); }
    }
  }

  /** Storing under a key leaves it without the flag; another key keeps its entry or is pushed out. */
  lemma {:induction false} AtPut<R>(s: seq<Entry<R>>, key: CacheKey, resp: R, rcode: nat, ttl: nat, now: int,
                                    cfg: Config, k: CacheKey, maxSize: nat)
    requires maxSize > 0 && |s| <= maxSize
    ensures var a := At(Put(s, key, resp, rcode, ttl, now, cfg, maxSize), k);
            if !Accepted(rcode, cfg) then a == At(s, k)
            else if key == k then a.Some? && !a.value.prefetching
            else a.None? || a == At(s, k)
  {
    var i := Pos(s, key);
    if Accepted(rcode, cfg) {
      if i < |s| {
        AtCons(Refreshed(s[i], resp, rcode, ttl, now, cfg), Minus(s, key), k);
        if key != k { AtMinus(s, k, key); }
      } else {
        AtPushed(NewEntry(key, resp, rcode, ttl, now, cfg), s, k, maxSize);
      }
    }
  }

  lemma {:induction false} AtPushed<R>(e: Entry<R>, s: seq<Entry<R>>, k: CacheKey, maxSize: nat)
    requires 0 < maxSize && |s| <= maxSize
    ensures var l := [e] + s;
            var a := At(if |l| > maxSize then l[..|l| - 1] else l, k);
            if e.key == k then a == Some(e) else a.None? || a == At(s, k)
  {
    var l := [e] + s;
    AtCons(e, s, k);
    AtFront(l, k, |s|);
    if e.key == k && |l| > maxSize { assert l[..|s|] == [e] + l[1..|s|]; AtCons(e, l[1..|s|], k); }
  }

  /** The bookkeeping of one entry leaves the others as they are. */
  lemma {:induction false} AtNoted<R>(s: seq<Entry<R>>, key: CacheKey, now: int, status: bool, k: CacheKey)
    ensures var a := At(Marked(s, key, status), k);
            if key == k then (a.Some? ==> a.value.prefetching == status) && (a.Some? <==> At(s, k).Some?)
            else a == At(s, k)
    ensures var a := At(FailureNoted(s, key, now), k);
            if key == k then a.Some? ==> !a.value.prefetching else a == At(s, k)
    ensures var a := At(SuccessNoted(s, key), k);
            if key == k then a.Some? ==> !a.value.prefetching else a == At(s, k)
  {
    var i := Pos(s, key);
    if i < |s| {
      AtUpdate(s, i, s[i].(prefetching := status), k);
      AtUpdate(s, i, s[i].(failCount := 0, backoff := 0, prefetching := false), k);
      AtUpdate(s, i, s[i].(failCount := s[i].failCount + 1, lastFail := now, prefetching := false,
                           backoff := PrefetchBackoff(s[i].failCount + 1)), k);
    }
  }

  // ----------------------------------------------------------------------- one step

  ghost predicate ValidState<R>(s: State<R>, maxSize: nat) { s.cache.Some? ==> Valid(s.cache.value, maxSize) }

  /** The entry under `k` is marked as being prefetched. */
  predicate Flagged<R>(s: State<R>, k: CacheKey)
  {
    s.cache.Some? && At(s.cache.value, k).Some? && At(s.cache.value, k).value.prefetching
  }

  /** The key a query is looked up under, if it is forwarded at all. */
  function LookedUp<R>(step: Step<R>): Option<CacheKey>
    requires step.Ask?
  {
    var u := Chosen(step.net, step.res.upstream);
    if step.res.action !in ["reject", "bypass"] && u.Some? then Some(BuildCacheKey(step.q.name, step.q.qtype, u))
    else None
  }

  /** The step starts a prefetch for `k`. */
  predicate Starts<R>(s: State<R>, step: Step<R>, k: CacheKey, cfg: Config, maxSize: nat)
    requires maxSize > 0
  {
    step.Ask? &&
    var job := Handled(s.cache, step.q, step.res, step.net, step.w, cfg, maxSize).job;
    job.Some? && job.value.Key() == k
  }

  /**
   The steps that take the mark off: the end of a prefetch for the key, a query that finds the entry
   expired, upkeep of that entry, and whatever removes the entry or pushes it out.
   */
  predicate Frees<R>(s: State<R>, step: Step<R>, k: CacheKey, cfg: Config, maxSize: nat)
    requires maxSize > 0
  {
    var t := Advance(s, step, cfg, maxSize);
    || t.cache.None? || At(t.cache.value, k).None?
    || (step.Finish? && step.i < |s.jobs| && s.jobs[step.i].Key() == k)
    || (step.Ask? && s.cache.Some? && LookedUp(step) == Some(k) && Found(k, step.w.now, s.cache.value).None?)
    || (step.Tend? && (step.op == MarkPrefetch(k, false) || Notes(step.op, k)))
  }

  predicate Notes<R>(op: Op<R>, k: CacheKey) { (op.PrefetchFailed? || op.PrefetchSucceeded?) && op.key == k }

  lemma {:induction false} KeptValid<R>(s: seq<Entry<R>>, k: CacheKey, o: Outcome<R>, later: int, cfg: Config,
                                        maxSize: nat)
    requires maxSize > 0 && Valid(s, maxSize)
    ensures Valid(Kept(s, k, o, later, cfg, maxSize), maxSize)
  {
    if o.Brought? { NextValid(Set(k, o.resp, o.rcode, o.ttl, later), s, cfg, maxSize); }
  }

  lemma {:induction false} AdvanceValid<R>(s: State<R>, step: Step<R>, cfg: Config, maxSize: nat)
    requires maxSize > 0 && ValidState(s, maxSize)
    ensures ValidState(Advance(s, step, cfg, maxSize), maxSize)
  {
    if s.cache.Some? {
      var c := s.cache.value;
      match step {
        case Ask(q, res, net, w) =>
          if LookedUp(step).Some? { AskedValid(c, q, Chosen(net, res.upstream).value, w, cfg, maxSize); }
        case Finish(i, w) =>
          if i < |s.jobs| {
            var k := s.jobs[i].Key();
            KeptValid(c, k, w.outcome, w.later, cfg, maxSize);
            NextValid(PrefetchSucceeded(k), Kept(c, k, w.outcome, w.later, cfg, maxSize), cfg, maxSize);
            NextValid(PrefetchFailed(k, w.later), c, cfg, maxSize);
          }
        case Tend(op) => NextValid(op, c, cfg, maxSize);
      }
    }
  }

  lemma {:induction false} AskedValid<R>(s: seq<Entry<R>>, q: Asked, u: Upstream, w: World<R>, cfg: Config,
                                         maxSize: nat)
    requires maxSize > 0 && Valid(s, maxSize)
    ensures var c := Forwarded(Some(s), q, u, w, cfg, maxSize).cache; c.Some? && Valid(c.value, maxSize)
  {
    var k := BuildCacheKey(q.name, q.qtype, Some(u));
    NextValid(Get(k, w.now), s, cfg, maxSize);
    NextValid(MarkPrefetch(k, true), Got(s, k, w.now), cfg, maxSize);
    KeptValid(Got(s, k, w.now), k, w.outcome, w.later, cfg, maxSize);
  }

  lemma {:induction false} AtKept<R>(s: seq<Entry<R>>, key: CacheKey, o: Outcome<R>, later: int, cfg: Config,
                                     k: CacheKey, maxSize: nat)
    requires maxSize > 0 && |s| <= maxSize
    ensures var a := At(Kept(s, key, o, later, cfg, maxSize), k);
            if key == k then a == At(s, k) || (a.Some? && !a.value.prefetching) else a.None? || a == At(s, k)
  {
    if o.Brought? { AtPut(s, key, o.resp, o.rcode, o.ttl, later, cfg, k, maxSize); }
  }

  /** A query: the mark stays unless it finds the entry expired or pushes it out, and a start sets it. */
  lemma {:induction false} FlagAsked<R>(s: seq<Entry<R>>, q: Asked, u: Upstream, w: World<R>, k: CacheKey, cfg: Config,
                                        maxSize: nat)
    requires maxSize > 0 && Valid(s, maxSize)
    ensures var key := BuildCacheKey(q.name, q.qtype, Some(u));
            var f := Forwarded(Some(s), q, u, w, cfg, maxSize);
            var was, now := At(s, k), At(f.cache.value, k);
            && (key == k && f.job.Some? ==> now.Some? && now.value.prefetching)
            && (was.Some? && was.value.prefetching ==>
                  && (key == k ==> f.job.None?)
                  && (now.Some? && now.value.prefetching <==>
                      now.Some? && !(key == k && Found(k, w.now, s).None?)))
  {
    var key := BuildCacheKey(q.name, q.qtype, Some(u));
    var g := Got(s, key, w.now);
    AtGot(s, key, w.now, k, maxSize);
    AtNoted(g, key, w.now, true, k);
    NextValid(Get(key, w.now), s, cfg, maxSize);
    AtKept(g, key, w.outcome, w.later, cfg, k, maxSize);
  }

  /** A marked entry: no query for it starts a prefetch, and the mark stays exactly through the other steps. */
  lemma {:induction false} FlagIff<R>(s: State<R>, step: Step<R>, k: CacheKey, cfg: Config, maxSize: nat)
    requires maxSize > 0 && ValidState(s, maxSize) && Flagged(s, k)
    ensures !Starts(s, step, k, cfg, maxSize)
    ensures Flagged(Advance(s, step, cfg, maxSize), k) <==> !Frees(s, step, k, cfg, maxSize)
  {
    var c := s.cache.value;
    match step {
      case Ask(q, res, net, w) =>
        if LookedUp(step).Some? { FlagAsked(c, q, Chosen(net, res.upstream).value, w, k, cfg, maxSize); }
      case Finish(i, w) => if i < |s.jobs| { FlagFinished(c, s.jobs[i], w, k, cfg, maxSize); }
      case Tend(op) => if !op.Set? { FlagTended(c, op, k, cfg, maxSize); }
    }
  }

  lemma {:induction false} FlagFinished<R>(s: seq<Entry<R>>, j: Job, w: World<R>, k: CacheKey, cfg: Config,
                                           maxSize: nat)
    requires maxSize > 0 && Valid(s, maxSize)
    ensures var a := At(Prefetched(s, j, w, cfg, maxSize), k);
            if j.Key() == k then a.Some? ==> !a.value.prefetching else a.None? || a == At(s, k)
  {
    var t := Kept(s, j.Key(), w.outcome, w.later, cfg, maxSize);
    AtKept(s, j.Key(), w.outcome, w.later, cfg, k, maxSize);
    AtNoted(t, j.Key(), w.later, true, k);
    AtNoted(s, j.Key(), w.later, true, k);
  }

  lemma {:induction false} FlagTended<R>(s: seq<Entry<R>>, op: Op<R>, k: CacheKey, cfg: Config, maxSize: nat)
    requires maxSize > 0 && Valid(s, maxSize) && !op.Set? && At(s, k).Some? && At(s, k).value.prefetching
    ensures var a := At(Next(op, s, cfg, maxSize), k);
            a.Some? && a.value.prefetching <==> a.Some? && !(op == MarkPrefetch(k, false) || Notes(op, k))
  {
    if !op.Clear? {
      if op.Get? { AtGot(s, op.key, op.now, k, maxSize); }
      if op.Remove? { if op.key == k { AtGone(s, k, maxSize); } else { AtMinus(s, k, op.key); } }
      AtNoted(s, op.key, if op.PrefetchFailed? then op.now else 0, op.MarkPrefetch? && op.status, k);
    }
  }

  /** A start leaves the entry marked. */
  lemma {:induction false} StartFlags<R>(s: State<R>, step: Step<R>, k: CacheKey, cfg: Config, maxSize: nat)
    requires maxSize > 0 && ValidState(s, maxSize) && Starts(s, step, k, cfg, maxSize)
    ensures Flagged(Advance(s, step, cfg, maxSize), k)
  {
    FlagAsked(s.cache.value, step.q, Chosen(step.net, step.res.upstream).value, step.w, k, cfg, maxSize);
  }

  // --------------------------------------------------------------------------- runs

  /** The state before step `i`. */
  function Before<R>(steps: seq<Step<R>>, i: nat, start: State<R>, cfg: Config, maxSize: nat): State<R>
    requires maxSize > 0 && i <= |steps|
  {
    After(steps[..i], start, cfg, maxSize)
  }

  lemma {:induction false} BeforeNext<R>(steps: seq<Step<R>>, i: nat, start: State<R>, cfg: Config, maxSize: nat)
    requires maxSize > 0 && i < |steps|
    ensures Before(steps, i + 1, start, cfg, maxSize) ==
            Advance(Before(steps, i, start, cfg, maxSize), steps[i], cfg, maxSize)
  {
    assert steps[..i + 1][..i] == steps[..i];
  }

  lemma {:induction false} BeforeValid<R>(steps: seq<Step<R>>, i: nat, start: State<R>, cfg: Config, maxSize: nat)
    requires maxSize > 0 && i <= |steps| && ValidState(start, maxSize)
    ensures ValidState(Before(steps, i, start, cfg, maxSize), maxSize)
    decreases i
  {
    if i > 0 {
      BeforeValid(steps, i - 1, start, cfg, maxSize);
      BeforeNext(steps, i - 1, start, cfg, maxSize);
      AdvanceValid(Before(steps, i - 1, start, cfg, maxSize), steps[i - 1], cfg, maxSize);
    }
  }

  ghost predicate StartsAt<R>(steps: seq<Step<R>>, i: nat, k: CacheKey, start: State<R>, cfg: Config, maxSize: nat)
    requires maxSize > 0
  {
    i < |steps| && Starts(Before(steps, i, start, cfg, maxSize), steps[i], k, cfg, maxSize)
  }

  ghost predicate FreesAt<R>(steps: seq<Step<R>>, i: nat, k: CacheKey, start: State<R>, cfg: Config, maxSize: nat)
    requires maxSize > 0
  {
    i < |steps| && Frees(Before(steps, i, start, cfg, maxSize), steps[i], k, cfg, maxSize)
  }

  lemma {:induction false} MarkedFirst<R>(steps: seq<Step<R>>, i: nat, k: CacheKey, start: State<R>, cfg: Config,
                                          maxSize: nat)
    requires maxSize > 0 && ValidState(start, maxSize) && StartsAt(steps, i, k, start, cfg, maxSize)
    ensures Flagged(Before(steps, i + 1, start, cfg, maxSize), k)
  {
    BeforeNext(steps, i, start, cfg, maxSize);
    BeforeValid(steps, i, start, cfg, maxSize);
    StartFlags(Before(steps, i, start, cfg, maxSize), steps[i], k, cfg, maxSize);
  }

  lemma {:induction false} MarkedNext<R>(steps: seq<Step<R>>, j: nat, k: CacheKey, start: State<R>, cfg: Config,
                                         maxSize: nat)
    requires maxSize > 0 && ValidState(start, maxSize) && j < |steps|
    requires Flagged(Before(steps, j, start, cfg, maxSize), k) && !FreesAt(steps, j, k, start, cfg, maxSize)
    ensures Flagged(Before(steps, j + 1, start, cfg, maxSize), k)
  {
    BeforeNext(steps, j, start, cfg, maxSize);
    BeforeValid(steps, j, start, cfg, maxSize);
    FlagIff(Before(steps, j, start, cfg, maxSize), steps[j], k, cfg, maxSize);
  }

  lemma {:induction false} NotMarked<R>(steps: seq<Step<R>>, j: nat, k: CacheKey, start: State<R>, cfg: Config,
                                        maxSize: nat)
    requires maxSize > 0 && ValidState(start, maxSize) && StartsAt(steps, j, k, start, cfg, maxSize)
    ensures !Flagged(Before(steps, j, start, cfg, maxSize), k)
  {
    BeforeValid(steps, j, start, cfg, maxSize);
    var s, step := Before(steps, j, start, cfg, maxSize), steps[j];
    FlagAsked(s.cache.value, step.q, Chosen(step.net, step.res.upstream).value, step.w, k, cfg, maxSize);
  }

  /** What is marked stays so up to `j` unless it is freed before. */
  lemma {:induction false} StaysOrFreed(marked: set<nat>, freed: set<nat>, i: nat, j: nat) returns (m: nat)
    requires i < j && i + 1 in marked && forall n: nat | i < n < j && n in marked && n !in freed :: n + 1 in marked
    ensures i < m <= j && if m == j then j in marked else m in freed
    decreases j
  {
    if i + 1 == j {
      m := j;
    } else {
      m := StaysOrFreed(marked, freed, i, j - 1);
      if m == j - 1 && m !in freed { m := j; }
    }
  }

  /**
   Over every run: between two starts of a prefetch for one key a step took the mark off, by the end
   of a prefetch for that key, by finding the entry expired, or by removing it or pushing it out.
   */
  lemma {:induction false} OnePrefetch<R>(steps: seq<Step<R>>, i: nat, j: nat, k: CacheKey, start: State<R>,
                                          cfg: Config, maxSize: nat)
    returns (m: nat)
    requires maxSize > 0 && ValidState(start, maxSize) && i < j
    requires StartsAt(steps, i, k, start, cfg, maxSize) && StartsAt(steps, j, k, start, cfg, maxSize)
    ensures i < m < j && FreesAt(steps, m, k, start, cfg, maxSize)
  {
    MarkedFirst(steps, i, k, start, cfg, maxSize);
    NotMarked(steps, j, k, start, cfg, maxSize);
    MarkedOn(steps, i, j, k, start, cfg, maxSize);
    m := StaysOrFreed(MarkedAt(steps, k, start, cfg, maxSize), FreedAt(steps, k, start, cfg, maxSize), i, j);
  }

  ghost function MarkedAt<R>(steps: seq<Step<R>>, k: CacheKey, start: State<R>, cfg: Config, maxSize: nat): set<nat>
    requires maxSize > 0
  {
    set n: nat | n <= |steps| && Flagged(Before(steps, n, start, cfg, maxSize), k)
  }

  ghost function FreedAt<R>(steps: seq<Step<R>>, k: CacheKey, start: State<R>, cfg: Config, maxSize: nat): set<nat>
    requires maxSize > 0
  {
    set n: nat | n < |steps| && FreesAt(steps, n, k, start, cfg, maxSize)
  }

  lemma {:induction false} MarkedOn<R>(steps: seq<Step<R>>, i: nat, j: nat, k: CacheKey, start: State<R>, cfg: Config,
                                       maxSize: nat)
    requires maxSize > 0 && ValidState(start, maxSize) && j < |steps|
    ensures var marked, freed := MarkedAt(steps, k, start, cfg, maxSize), FreedAt(steps, k, start, cfg, maxSize);
            forall n: nat | i < n < j && n in marked && n !in freed :: n + 1 in marked
  {
    var marked, freed := MarkedAt(steps, k, start, cfg, maxSize), FreedAt(steps, k, start, cfg, maxSize);
    forall n: nat | i < n < j && n in marked && n !in freed
      ensures n + 1 in marked
    {
      MarkedNext(steps, n, k, start, cfg, maxSize);
    }
  }

  // -------------------------------------------------------------- two at the same time

  const SERVER := Upstream("1.1.1.1:53", "direct")
  const KEY := BuildCacheKey("a.", 1, Some(SERVER))
  const SETTINGS := Config(60, 86400, true, true, 30)

  /** One question, by one rule, to one upstream, at a given second. */
  function Query<R>(at: int, o: Outcome<R>): Step<R>
  {
    Ask(Asked("a.", 1, false), Routing.Result("u", "", "route", "", "single", ""),
        Net([], Some(Manager(map["u" := SERVER], map[]))), World(at * SECOND, o, at * SECOND))
  }

  lemma {:induction false} QueryIs<R>(s: State<R>, at: int, o: Outcome<R>, maxSize: nat)
    requires maxSize > 0
    ensures var step := Query(at, o);
            Handled(s.cache, step.q, step.res, step.net, step.w, SETTINGS, maxSize) ==
            Forwarded(s.cache, Asked("a.", 1, false), SERVER, World(at * SECOND, o, at * SECOND), SETTINGS, maxSize)
  {
    assert Chosen(Query(at, o).net, "u") == Some(SERVER);
  }

  function Stored<R>(r: R, at: int): Entry<R> { NewEntry(KEY, r, SUCCESS, 60, at * SECOND, SETTINGS) }

  /** Nothing there that has not expired: the answer is stored. */
  lemma {:induction false} MissAt<R>(s: State<R>, at: int, r: R, maxSize: nat)
    requires maxSize > 0 && s.cache.Some? && |s.cache.value| <= 1
    requires |s.cache.value| == 1 ==> s.cache.value[0].key == KEY && Expired(s.cache.value[0], at * SECOND)
    ensures var t := Advance(s, Query(at, Brought(r, SUCCESS, 60)), SETTINGS, maxSize);
            t.cache == Some([Stored(r, at)]) && t.jobs == s.jobs
  {
    QueryIs(s, at, Brought(r, SUCCESS, 60), maxSize);
    assert Got(s.cache.value, KEY, at * SECOND) == [];
    assert [Stored(r, at)] + [] == [Stored(r, at)];
  }

  /** An entry due for a prefetch: marked, and one more prefetch runs. */
  lemma {:induction false} HitAt<R>(s: State<R>, at: int, e: Entry<R>, maxSize: nat)
    requires maxSize > 0 && s.cache == Some([e]) && e.key == KEY && !Expired(e, at * SECOND)
    requires ShouldPrefetch(e, at * SECOND, SETTINGS)
    ensures var t := Advance(s, Query(at, Nothing), SETTINGS, maxSize);
            && t.cache == Some([e.(hitCount := e.hitCount + 1, prefetching := true)])
            && t.jobs == s.jobs + [Job(SERVER, "a.", 1)]
  {
    QueryIs(s, at, Nothing, maxSize);
    var f := e.(hitCount := e.hitCount + 1);
    assert Minus([e], KEY) == [] && [f] + [] == [f];
    assert Got([e], KEY, at * SECOND) == [f];
    assert Marked([f], KEY, true) == [f.(prefetching := true)];
  }

  lemma {:induction false} FailAt<R>(s: State<R>, at: int, e: Entry<R>, maxSize: nat)
    requires maxSize > 0 && s.cache == Some([e]) && e.key == KEY && s.jobs != [] && s.jobs[0] == Job(SERVER, "a.", 1)
    ensures var t := Advance(s, Finish(0, World(at * SECOND, Failed, at * SECOND)), SETTINGS, maxSize);
            && t.cache == Some([e.(failCount := e.failCount + 1, lastFail := at * SECOND, prefetching := false,
                                   backoff := PrefetchBackoff(e.failCount + 1))])
            && t.jobs == s.jobs[1..]
  {
    assert s.jobs[..0] + s.jobs[1..] == s.jobs[1..];
    assert Job(SERVER, "a.", 1).Key() == KEY && Pos([e], KEY) == 0;
    assert FailureNoted([e], KEY, at * SECOND) ==
           [e.(failCount := e.failCount + 1, lastFail := at * SECOND, prefetching := false,
               backoff := PrefetchBackoff(e.failCount + 1))];
  }

  /**
   The mark is by key, not by prefetch. A prefetch that outlives its entry fails after the entry was
   stored anew and is being prefetched again: it takes the mark off, and the next hit starts a
   second prefetch of the same entry beside the one that runs.
   */
  lemma {:induction false} TwoAtOnce<R>(r: R, maxSize: nat)
    requires maxSize > 0
    ensures var o := Brought(r, SUCCESS, 60);
            var late := Finish(0, World(101 * SECOND, Failed, 101 * SECOND));
            var hits := (Query(40, Nothing), Query(100, Nothing), Query(107, Nothing));
            var steps := [Query(0, o), hits.0, Query(61, o), hits.1, late, hits.2];
            var j := Job(SERVER, "a.", 1);
            After(steps, State(Some([]), [], []), SETTINGS, maxSize).jobs == [j, j]
  {
    var o := Brought(r, SUCCESS, 60);
    var late := Finish(0, World(101 * SECOND, Failed, 101 * SECOND));
    var s0 := State(Some([]), [], []);
    var j := Job(SERVER, "a.", 1);
    MissAt(s0, 0, r, maxSize);
    var s1 := Advance(s0, Query(0, o), SETTINGS, maxSize);
    HitAt(s1, 40, Stored(r, 0), maxSize);
    var s2 := Advance(s1, Query(40, Nothing), SETTINGS, maxSize);
    MissAt(s2, 61, r, maxSize);
    var s3 := Advance(s2, Query(61, o), SETTINGS, maxSize);
    HitAt(s3, 100, Stored(r, 61), maxSize);
    var s4 := Advance(s3, Query(100, Nothing), SETTINGS, maxSize);
    FailAt(s4, 101, s4.cache.value[0], maxSize);
    var s5 := Advance(s4, late, SETTINGS, maxSize);
    HitAt(s5, 107, s5.cache.value[0], maxSize);
    var s6 := Advance(s5, Query(107, Nothing), SETTINGS, maxSize);
    assert s6.jobs == [j, j];
    SixSteps(Query(0, o), Query(40, Nothing), Query(61, o), Query(100, Nothing), late, Query(107, Nothing), s0,
             maxSize);
  }

  lemma {:induction false} SixSteps<R>(a: Step<R>, b: Step<R>, c: Step<R>, d: Step<R>, e: Step<R>, f: Step<R>,
                                       s: State<R>, maxSize: nat)
    requires maxSize > 0
    ensures var s3 := Advance(Advance(Advance(s, a, SETTINGS, maxSize), b, SETTINGS, maxSize), c, SETTINGS, maxSize);
            After([a, b, c, d, e, f], s, SETTINGS, maxSize) ==
            Advance(Advance(Advance(s3, d, SETTINGS, maxSize), e, SETTINGS, maxSize), f, SETTINGS, maxSize)
  {
    AfterSnoc([], a, s, maxSize);
    AfterSnoc([a], b, s, maxSize);
    AfterSnoc([a, b], c, s, maxSize);
    AfterSnoc([a, b, c], d, s, maxSize);
    AfterSnoc([a, b, c, d], e, s, maxSize);
    AfterSnoc([a, b, c, d, e], f, s, maxSize);
    assert [] + [a] == [a] && [a] + [b] == [a, b] && [a, b] + [c] == [a, b, c] && [a, b, c] + [d] == [a, b, c, d];
    assert [a, b, c, d] + [e] == [a, b, c, d, e] && [a, b, c, d, e] + [f] == [a, b, c, d, e, f];
  }

  lemma {:induction false} AfterSnoc<R>(steps: seq<Step<R>>, step: Step<R>, s: State<R>, maxSize: nat)
    requires maxSize > 0
    ensures After(steps + [step], s, SETTINGS, maxSize) ==
            Advance(After(steps, s, SETTINGS, maxSize), step, SETTINGS, maxSize)
  {
    assert (steps + [step])[..|steps|] == steps;
  }
}
