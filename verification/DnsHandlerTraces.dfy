/**
 The handler seen from outside: whom it asks, under which key it keeps the answer, and what a run
 of queries and prefetches amounts to for the cache.
 */
module DnsHandlerTraces {
  import opened Options
  import opened DnsCacheSpec
  import opened DnsHandler
  import Routing = DnsRouter
  import Traces = DnsCacheTraces

  /** The address, the channel, `direct` if it has no name, and the question. */
  function KeyFor(u: Upstream, name: string, qtype: nat): CacheKey
  {
    CacheKey(u.addr, if u.proxyTag == "" then "direct" else u.proxyTag, name, qtype)
  }

  /** What a client gets for an exchange: its answer, an empty one if nothing came, an error if it failed. */
  ghost predicate Answers<R>(reply: Reply<R>, o: Outcome<R>)
  {
    match o
    case Failed => reply == Failure
    case Nothing => reply == Stub
    case Brought(resp, _, _) => reply == FromUpstream(resp)
  }

  function Stores<R>(k: CacheKey, w: World<R>): seq<Op<R>>
  {
    if w.outcome.Brought? then [Set(k, w.outcome.resp, w.outcome.rcode, w.outcome.ttl, w.later)] else []
  }

  /** A query that goes by the cache: the operations it makes there, and whom it asks. */
  ghost predicate GoesByCache<R>(f: Effect<R>, s: seq<Entry<R>>, q: Asked, u: Upstream, w: World<R>, cfg: Config,
                                 maxSize: nat)
    requires maxSize > 0
  {
    var k := KeyFor(u, q.name, q.qtype);
    var e := Found(k, w.now, s);
    if e.Some? then
      var due := ShouldPrefetch(e.value, w.now, cfg);
      && f.sent == [] && f.reply == FromCache(e.value)
      && f.job == (if due then Some(Job(u, q.name, q.qtype)) else None)
      && f.cache == Some(Run([Get(k, w.now)] + if due then [MarkPrefetch(k, true)] else [], s, cfg, maxSize))
    else
      && f.sent == [u] && Answers(f.reply, w.outcome) && f.job == None
      && f.cache == Some(Run([Get(k, w.now)] + if q.bootstrap then [] else Stores(k, w), s, cfg, maxSize))
  }

  lemma {:induction false} RunOne<R>(a: Op<R>, s: seq<Entry<R>>, cfg: Config, maxSize: nat)
    requires maxSize > 0
    ensures Run([a], s, cfg, maxSize) == Next(a, s, cfg, maxSize)
  {
    assert [a][1..] == [];
  }

  lemma {:induction false} RunTwo<R>(a: Op<R>, b: Op<R>, s: seq<Entry<R>>, cfg: Config, maxSize: nat)
    requires maxSize > 0
    ensures Run([a] + [b], s, cfg, maxSize) == Next(b, Next(a, s, cfg, maxSize), cfg, maxSize)
  {
    RunOne(a, s, cfg, maxSize);
    RunSnoc([a], b, s, cfg, maxSize);
  }

  lemma {:induction false} ForwardedGoes<R>(s: seq<Entry<R>>, q: Asked, u: Upstream, w: World<R>, cfg: Config,
                                            maxSize: nat)
    requires maxSize > 0
    ensures GoesByCache(Forwarded(Some(s), q, u, w, cfg, maxSize), s, q, u, w, cfg, maxSize)
  {
    var k := KeyFor(u, q.name, q.qtype);
    assert k == BuildCacheKey(q.name, q.qtype, Some(u));
    var get: Op<R> := Get(k, w.now);
    RunOne(get, s, cfg, maxSize);
    RunTwo(get, MarkPrefetch(k, true), s, cfg, maxSize);
    assert [get] + [] == [get];
    if w.outcome.Brought? { RunTwo(get, Stores(k, w)[0], s, cfg, maxSize); }
  }

  /**
   A query that is for somebody. A refused one asks nobody. A bypass asks the upstream it is for, past
   the cache. Any other asks it unless the cache answers, under the key of that upstream and question.
   */
  lemma {:induction false} GoesTo<R>(cache: Option<seq<Entry<R>>>, q: Asked, res: Routing.Result, net: Net, w: World<R>,
                                     u: Upstream, cfg: Config, maxSize: nat)
    requires maxSize > 0 && IsFor(net, res.upstream, res.action != "bypass", u)
    ensures var f := Handled(cache, q, res, net, w, cfg, maxSize);
            if res.action == "reject" then f == Effect(Refused, cache, [], None)
            else if res.action == "bypass" || cache.None? then
              f.sent == [u] && Answers(f.reply, w.outcome) && f.cache == cache && f.job == None
            else GoesByCache(f, cache.value, q, u, w, cfg, maxSize)
  {
    ChosenIs(net, res.upstream, res.action != "bypass");
    if cache.Some? { ForwardedGoes(cache.value, q, u, w, cfg, maxSize); }
  }

  ghost predicate ForNobody(net: Net, id: string, any: bool) { forall u :: !IsFor(net, id, any, u) }

  /** One that is for nobody is refused or gets an empty answer, and nothing else happens. */
  lemma {:induction false} GoesNowhere<R>(cache: Option<seq<Entry<R>>>, q: Asked, res: Routing.Result, net: Net,
                                          w: World<R>, cfg: Config, maxSize: nat)
    requires maxSize > 0 && ForNobody(net, res.upstream, res.action != "bypass")
    ensures Handled(cache, q, res, net, w, cfg, maxSize) ==
            Effect(if res.action == "reject" then Refused else Stub, cache, [], None)
  {
    SomeoneIs(net, res.upstream);
  }

  /** The end of a prefetch, for the cache. */
  function Ends<R>(job: Job, w: World<R>): seq<Op<R>>
  {
    var k := KeyFor(job.upstream, job.name, job.qtype);
    if w.outcome.Brought? then Stores(k, w) + [PrefetchSucceeded(k)] else [PrefetchFailed(k, w.later)]
  }

  lemma {:induction false} PrefetchedEnds<R>(s: seq<Entry<R>>, job: Job, w: World<R>, cfg: Config, maxSize: nat)
    requires maxSize > 0
    ensures Prefetched(s, job, w, cfg, maxSize) == Run(Ends(job, w), s, cfg, maxSize)
  {
    var k := KeyFor(job.upstream, job.name, job.qtype);
    assert k == job.Key();
    if w.outcome.Brought? { RunTwo(Stores(k, w)[0], PrefetchSucceeded(k), s, cfg, maxSize); }
    else { RunOne(PrefetchFailed(k, w.later), s, cfg, maxSize); }
  }

  // ------------------------------------------------------------------------- runs

  /** An exchange brought what was stored, of the upstream and to the question of its key. */
  ghost predicate FromExchange<R>(op: Op<R>, x: Exchange<R>)
  {
    op.Set? && op.key == KeyFor(x.upstream, x.name, x.qtype) && x.outcome == Brought(op.resp, op.rcode, op.ttl)
  }

  ghost predicate AllFrom<R>(ops: seq<Op<R>>, log: seq<Exchange<R>>)
  {
    forall op | op in ops && op.Set? :: exists x | x in log :: FromExchange(op, x)
  }

  lemma {:induction false} FromMore<R>(ops: seq<Op<R>>, more: seq<Op<R>>, log: seq<Exchange<R>>, x: seq<Exchange<R>>)
    requires AllFrom(ops, log) && forall op | op in more && op.Set? :: exists y | y in x :: FromExchange(op, y)
    ensures AllFrom(ops + more, log + x)
  {
    forall op | op in ops + more && op.Set?
      ensures exists y | y in log + x :: FromExchange(op, y)
    {
      if op in ops { var y :| y in log && FromExchange(op, y); assert y in log + x; }
      else { var y :| y in x && FromExchange(op, y); assert y in log + x; }
    }
  }

  /** What one step does to the cache, as operations, and the exchanges it makes. */
  lemma {:induction false} StepOps<R>(s: State<R>, step: Step<R>, cfg: Config, maxSize: nat)
    returns (ops: seq<Op<R>>, made: seq<Exchange<R>>)
    requires maxSize > 0 && s.cache.Some?
    ensures var t := Advance(s, step, cfg, maxSize);
            && t.cache == Some(Run(ops, s.cache.value, cfg, maxSize)) && t.log == s.log + made
            && forall op | op in ops && op.Set? :: exists x | x in made :: FromExchange(op, x)
  {
    var c := s.cache.value;
    ops, made := [], Advance(s, step, cfg, maxSize).log[|s.log|..];
    match step {
      case Tend(op) =>
        if !op.Set? { ops := [op]; RunOne(op, c, cfg, maxSize); }
      case Finish(i, w) =>
        if i < |s.jobs| {
          ops := Ends(s.jobs[i], w);
          PrefetchedEnds(c, s.jobs[i], w, cfg, maxSize);
          assert made == [Exchange(s.jobs[i].upstream, s.jobs[i].name, s.jobs[i].qtype, w.outcome)];
          assert forall op | op in ops && op.Set? :: FromExchange(op, made[0]);
        }
      case Ask(q, res, net, w) => ops := AskOps(s, step, made, cfg, maxSize);
    }
  }

  lemma {:induction false} AskOps<R>(s: State<R>, step: Step<R>, made: seq<Exchange<R>>, cfg: Config, maxSize: nat)
    returns (ops: seq<Op<R>>)
    requires maxSize > 0 && s.cache.Some? && step.Ask?
    requires made == Advance(s, step, cfg, maxSize).log[|s.log|..]
    ensures var t := Advance(s, step, cfg, maxSize);
            && t.cache == Some(Run(ops, s.cache.value, cfg, maxSize)) && t.log == s.log + made
            && forall op | op in ops && op.Set? :: exists x | x in made :: FromExchange(op, x)
  {
    var q, res, net, w := step.q, step.res, step.net, step.w;
    var u := Chosen(net, res.upstream);
    ops := [];
    if res.action !in ["reject", "bypass"] && u.Some? {
      var k := KeyFor(u.value, q.name, q.qtype);
      var f := Forwarded(s.cache, q, u.value, w, cfg, maxSize);
      ForwardedGoes(s.cache.value, q, u.value, w, cfg, maxSize);
      if f.sent == [] {
        ops := [Get(k, w.now)] + if f.job.Some? then [MarkPrefetch(k, true)] else [];
      } else {
        ops := [Get(k, w.now)] + if q.bootstrap then [] else Stores(k, w);
        assert made == [Exchange(u.value, q.name, q.qtype, w.outcome)];
        assert forall op | op in ops && op.Set? :: FromExchange(op, made[0]);
      }
    }
  }

  /** Over every run, the cache is what a trace of operations makes of an empty one, its answers all from exchanges. */
  lemma {:induction false} RunIsTrace<R>(steps: seq<Step<R>>, cfg: Config, maxSize: nat) returns (ops: seq<Op<R>>)
    requires maxSize > 0
    ensures var s := After(steps, State(Some([]), [], []), cfg, maxSize);
            s.cache == Some(Run(ops, [], cfg, maxSize)) && AllFrom(ops, s.log)
    decreases |steps|
  {
    ops := [];
    if steps != [] {
      var n := |steps| - 1;
      var s := After(steps[..n], State(Some([]), [], []), cfg, maxSize);
      var front := RunIsTrace(steps[..n], cfg, maxSize);
      var more, made := StepOps(s, steps[n], cfg, maxSize);
      ops := front + more;
      Traces.RunConcat(front, more, [], cfg, maxSize);
      FromMore(front, more, s.log, made);
    }
  }

  /**
   After any run, a query answered from the cache gets what an exchange with the upstream it is for brought
   for its question, no later after it was stored than such an answer is good for.
   */
  lemma {:induction false} CachedInTime<R>(steps: seq<Step<R>>, q: Asked, res: Routing.Result, net: Net, w: World<R>,
                                           cfg: Config, maxSize: nat)
    returns (x: Exchange<R>, u: Upstream)
    requires maxSize > 0
    requires var s := After(steps, State(Some([]), [], []), cfg, maxSize);
             Handled(s.cache, q, res, net, w, cfg, maxSize).reply.FromCache?
    ensures var s := After(steps, State(Some([]), [], []), cfg, maxSize);
            var e := Handled(s.cache, q, res, net, w, cfg, maxSize).reply.entry;
            && IsFor(net, res.upstream, true, u) && x in s.log && x.outcome.Brought?
            && x.outcome.resp == e.response && KeyFor(x.upstream, x.name, x.qtype) == KeyFor(u, q.name, q.qtype)
            && w.now <= e.storedAt + Lasts(x.outcome.rcode, x.outcome.ttl, cfg) * 1_000_000_000
  {
    var s := After(steps, State(Some([]), [], []), cfg, maxSize);
    ChosenIs(net, res.upstream, true);
    u := Chosen(net, res.upstream).value;
    GoesTo(s.cache, q, res, net, w, u, cfg, maxSize);
    var ops := RunIsTrace(steps, cfg, maxSize);
    var k := KeyFor(u, q.name, q.qtype);
    HitsAreLastStored(ops, k, w.now, cfg, maxSize);
    StoredBySet(ops, cfg, k);
    var st := LastStored(ops, cfg, k).value;
    x :| x in s.log && FromExchange(Set(k, st.resp, st.rcode, st.ttl, st.at), x);
  }
}
