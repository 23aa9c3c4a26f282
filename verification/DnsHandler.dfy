/**
 The query handler: routing, then the cache, then an upstream. The outcome of an exchange and the
 clock are parameters; `R` is how an answer is held.
 */
module DnsHandler {
  import opened Options
  import opened DnsCacheSpec
  import Routing = DnsRouter
  import Rules = DnsRules
  import Cache = DnsCacheImpl

  /** A configured upstream, and the instances the manager keeps, by id and by address and channel. */
  datatype Server = Server(id: string, addr: string, bootstrap: bool)

  datatype Manager = Manager(byId: map<string, Upstream>, byKey: map<string, Upstream>)

  datatype Net = Net(servers: seq<Server>, manager: Option<Manager>)

  datatype Asked = Asked(name: string, qtype: nat, bootstrap: bool)

  /** An exchange fails, comes back empty, or brings an answer with its code and TTL. */
  datatype Outcome<R> = Failed | Nothing | Brought(resp: R, rcode: nat, ttl: nat)

  /** What the world contributes to one query: two clock readings, and the outcome of an exchange. */
  datatype World<R> = World(now: int, outcome: Outcome<R>, later: int)

  /** A prefetch: the question, and whom to ask. */
  datatype Job = Job(upstream: Upstream, name: string, qtype: nat)
  {
    function Key(): CacheKey { BuildCacheKey(name, qtype, Some(upstream)) }
  }

  datatype Reply<R> = Refused | Stub | Failure | FromCache(entry: Entry<R>) | FromUpstream(resp: R)

  /** What handling a query does: the entries after it, the exchanges made, and the prefetch left running. */
  datatype Effect<R> = Effect(reply: Reply<R>, cache: Option<seq<Entry<R>>>, sent: seq<Upstream>, job: Option<Job>)

  // ------------------------------------------------------------- choosing an upstream

  function Instance(m: Manager, id: string): Option<Upstream>
  {
    if id in m.byId then Some(m.byId[id]) else if id in m.byKey then Some(m.byKey[id]) else None
  }

  function OfServer(m: Manager, s: Server): Option<Upstream>
  {
    var u := Instance(m, s.id);
    if u.Some? then u else Instance(m, s.addr)
  }

  function FirstPlain(servers: seq<Server>): (i: nat)
    ensures i <= |servers| && (i < |servers| ==> !servers[i].bootstrap)
    ensures forall k | 0 <= k < i :: servers[k].bootstrap
  {
    if servers == [] || !servers[0].bootstrap then 0 else 1 + FirstPlain(servers[1..])
  }

  /** The upstream of a result by its id, else the first one that is not for bootstrapping. */
  function Direct(net: Net, id: string): Option<Upstream>
  {
    if net.manager.None? then None
    else
      var u := if id != "" then Instance(net.manager.value, id) else None;
      var i := FirstPlain(net.servers);
      if u.Some? then u else if i < |net.servers| then OfServer(net.manager.value, net.servers[i]) else None
  }

  /** As for a bypass, and failing that the first upstream of all. */
  function Chosen(net: Net, id: string): Option<Upstream>
  {
    var u := Direct(net, id);
    if u.Some? || net.manager.None? || net.servers == [] then u else OfServer(net.manager.value, net.servers[0])
  }

  /** The manager keeps `u` by that name: by id, and only if no id is so by address and channel. */
  ghost predicate Known(m: Manager, name: string, u: Upstream)
  {
    (name in m.byId && m.byId[name] == u) || (name !in m.byId && name in m.byKey && m.byKey[name] == u)
  }

  ghost predicate Unknown(m: Manager, name: string) { name !in m.byId && name !in m.byKey }

  ghost predicate Serves(m: Manager, s: Server, u: Upstream)
  {
    Known(m, s.id, u) || (Unknown(m, s.id) && Known(m, s.addr, u))
  }

  /** The first upstream of the configuration that is not for bootstrapping. */
  ghost predicate IsFirstPlain(servers: seq<Server>, s: Server)
  {
    exists i | 0 <= i < |servers| :: servers[i] == s && !s.bootstrap && forall k | 0 <= k < i :: servers[k].bootstrap
  }

  /**
   Whom a query is for. The upstream its rule names, if it names one that is known; only else the first
   that is not for bootstrapping; and only if that one is not known, and `any` will do, the first of all.
   */
  ghost predicate IsFor(net: Net, id: string, any: bool, u: Upstream)
  {
    && net.manager.Some?
    && var m := net.manager.value;
       if id != "" && !Unknown(m, id) then Known(m, id, u)
       else
         || (exists s | s in net.servers :: IsFirstPlain(net.servers, s) && Serves(m, s, u))
         || (any && net.servers != [] && Serves(m, net.servers[0], u)
             && forall s | s in net.servers && IsFirstPlain(net.servers, s) :: Unknown(m, s.id) && Unknown(m, s.addr))
  }

  lemma {:induction false} FirstPlainIs(servers: seq<Server>, s: Server)
    ensures IsFirstPlain(servers, s) <==>
            var i := FirstPlain(servers); i < |servers| && s == servers[i]
  {}

  /** The choice is the upstream the query is for, and there is none just if it is for nobody. */
  lemma {:induction false} ChosenIs(net: Net, id: string, any: bool)
    ensures var c := if any then Chosen(net, id) else Direct(net, id);
            forall u :: IsFor(net, id, any, u) <==> c == Some(u)
  {
    var i := FirstPlain(net.servers);
    forall s
      ensures IsFirstPlain(net.servers, s) <==> i < |net.servers| && s == net.servers[i]
    {
      FirstPlainIs(net.servers, s);
    }
    if i < |net.servers| { assert net.servers[i] in net.servers; }
  }

  // ----------------------------------------------------------------- one query

  function Handled<R>(cache: Option<seq<Entry<R>>>, q: Asked, res: Routing.Result, net: Net, w: World<R>, cfg: Config,
                      maxSize: nat): Effect<R>
    requires maxSize > 0
  {
    var u := Chosen(net, res.upstream);
    if res.action !in ["reject", "bypass"] && u.Some? then Forwarded(cache, q, u.value, w, cfg, maxSize)
    else Aside(cache, res, net, w.outcome)
  }

  /** What does not go by the cache: a refusal, a bypass, and a query with no upstream to ask. */
  function Aside<R>(cache: Option<seq<Entry<R>>>, res: Routing.Result, net: Net, o: Outcome<R>): Effect<R>
  {
    var u := Direct(net, res.upstream);
    if res.action == "reject" then Effect(Refused, cache, [], None)
    else if res.action == "bypass" && u.Some? then Effect(ReplyOf(o), cache, [u.value], None)
    else Effect(Stub, cache, [], None)
  }

  function ReplyOf<R>(o: Outcome<R>): Reply<R>
  {
    match o
    case Failed => Failure
    case Nothing => Stub
    case Brought(resp, _, _) => FromUpstream(resp)
  }

  /** A hit answers at once and may start a prefetch; a miss asks the upstream and stores what it says. */
  function Forwarded<R>(cache: Option<seq<Entry<R>>>, q: Asked, u: Upstream, w: World<R>, cfg: Config, maxSize: nat)
    : Effect<R>
    requires maxSize > 0
  {
    var k := BuildCacheKey(q.name, q.qtype, Some(u));
    if cache.None? then Effect(ReplyOf(w.outcome), None, [u], None)
    else
      var s := Got(cache.value, k, w.now);
      var hit := Found(k, w.now, cache.value);
      if hit.Some? then
        if Due(s, k, w.now, cfg)
        then Effect(FromCache(hit.value), Some(Marked(s, k, true)), [], Some(Job(u, q.name, q.qtype)))
        else Effect(FromCache(hit.value), Some(s), [], None)
      else
        var s' := if q.bootstrap then s else Kept(s, k, w.outcome, w.later, cfg, maxSize);
        Effect(ReplyOf(w.outcome), Some(s'), [u], None)
  }

  predicate Due<R>(s: seq<Entry<R>>, k: CacheKey, now: int, cfg: Config)
  {
    var i := Pos(s, k);
    i < |s| && ShouldPrefetch(s[i], now, cfg)
  }

  function Kept<R>(s: seq<Entry<R>>, k: CacheKey, o: Outcome<R>, later: int, cfg: Config, maxSize: nat): seq<Entry<R>>
    requires maxSize > 0
  {
    match o
    case Brought(resp, rcode, ttl) => Put(s, k, resp, rcode, ttl, later, cfg, maxSize)
    case _ => s
  }

  /** The end of a prefetch: an answer is stored and counted as a success, anything else as a failure. */
  function Prefetched<R>(s: seq<Entry<R>>, job: Job, w: World<R>, cfg: Config, maxSize: nat): seq<Entry<R>>
    requires maxSize > 0
  {
    var k := job.Key();
    if w.outcome.Brought? then SuccessNoted(Kept(s, k, w.outcome, w.later, cfg, maxSize), k)
    else FailureNoted(s, k, w.later)
  }

  /** The exchanges of a query, with the one of the prefetch it starts. */
  function Cost<R>(f: Effect<R>): nat { |f.sent| + if f.job.Some? then 1 else 0 }

  /**
   No query costs more than one exchange, and exactly these cost one: with an upstream to ask, a
   bypass, a query the cache does not answer, and one it answers from an entry due for a prefetch.
   */
  lemma {:induction false} CostIs<R>(cache: Option<seq<Entry<R>>>, q: Asked, res: Routing.Result, net: Net, w: World<R>,
                                     cfg: Config, maxSize: nat)
    requires maxSize > 0
    ensures var f := Handled(cache, q, res, net, w, cfg, maxSize);
            && Cost(f) <= 1
            && (Cost(f) == 1 <==>
                || (res.action == "bypass" && exists u :: IsFor(net, res.upstream, false, u))
                || (res.action !in ["bypass", "reject"] && (exists u :: IsFor(net, res.upstream, true, u)) &&
                    (f.reply.FromCache? ==> ShouldPrefetch(f.reply.entry, w.now, cfg))))
  {
    SomeoneIs(net, res.upstream);
  }

  lemma {:induction false} SomeoneIs(net: Net, id: string)
    ensures Direct(net, id).Some? <==> exists u :: IsFor(net, id, false, u)
    ensures Chosen(net, id).Some? <==> exists u :: IsFor(net, id, true, u)
  {
    ChosenIs(net, id, false);
    ChosenIs(net, id, true);
    var d, c := Direct(net, id), Chosen(net, id);
    assert d.Some? ==> IsFor(net, id, false, d.value);
    assert c.Some? ==> IsFor(net, id, true, c.value);
  }

  /** Whoever is asked, at once or by the prefetch left running, is whom the query is for. */
  ghost predicate AsksRight<R>(f: Effect<R>, res: Routing.Result, net: Net)
  {
    forall u | u in f.sent || (f.job.Some? && f.job.value.upstream == u) ::
      res.action != "reject" && IsFor(net, res.upstream, res.action != "bypass", u)
  }

  lemma {:induction false} HandledAsks<R>(cache: Option<seq<Entry<R>>>, q: Asked, res: Routing.Result, net: Net,
                                          w: World<R>, cfg: Config, maxSize: nat)
    requires maxSize > 0
    ensures AsksRight(Handled(cache, q, res, net, w, cfg, maxSize), res, net)
  {
    ChosenIs(net, res.upstream, false);
    ChosenIs(net, res.upstream, true);
  }

  // ------------------------------------------------------------------------ runs

  datatype Exchange<R> = Exchange(upstream: Upstream, name: string, qtype: nat, outcome: Outcome<R>)

  datatype State<R> = State(cache: Option<seq<Entry<R>>>, jobs: seq<Job>, log: seq<Exchange<R>>)

  /** Queries with whatever routing and upstreams are in force, ends of prefetches, and other upkeep of the cache. */
  datatype Step<R> =
    | Ask(q: Asked, res: Routing.Result, net: Net, w: World<R>)
    | Finish(i: nat, w: World<R>)
    | Tend(op: Op<R>)

  function Removed<T>(s: seq<T>, i: nat): seq<T>
    requires i < |s|
  {
    s[..i] + s[i + 1..]
  }

  function Advance<R>(s: State<R>, step: Step<R>, cfg: Config, maxSize: nat): State<R>
    requires maxSize > 0
  {
    match step
    case Ask(q, res, net, w) =>
      var f := Handled(s.cache, q, res, net, w, cfg, maxSize);
      State(f.cache, s.jobs + (if f.job.Some? then [f.job.value] else []),
            s.log + seq(|f.sent|, j requires 0 <= j < |f.sent| => Exchange(f.sent[j], q.name, q.qtype, w.outcome)))
    case Finish(i, w) =>
      if i >= |s.jobs| || s.cache.None? then s
      else
        var j := s.jobs[i];
        State(Some(Prefetched(s.cache.value, j, w, cfg, maxSize)), Removed(s.jobs, i),
              s.log + [Exchange(j.upstream, j.name, j.qtype, w.outcome)])
    case Tend(op) => if s.cache.None? || op.Set? then s else s.(cache := Some(Next(op, s.cache.value, cfg, maxSize)))
  }

  function After<R>(steps: seq<Step<R>>, start: State<R>, cfg: Config, maxSize: nat): State<R>
    requires maxSize > 0
  {
    if steps == [] then start
    else Advance(After(steps[..|steps| - 1], start, cfg, maxSize), steps[|steps| - 1], cfg, maxSize)
  }

  function Asks<R>(steps: seq<Step<R>>): nat
  {
    if steps == [] then 0 else Asks(steps[..|steps| - 1]) + if steps[|steps| - 1].Ask? then 1 else 0
  }

  lemma {:induction false} StepCost<R>(s: State<R>, step: Step<R>, cfg: Config, maxSize: nat)
    requires maxSize > 0
    ensures var t := Advance(s, step, cfg, maxSize);
            |t.log| + |t.jobs| <= |s.log| + |s.jobs| + if step.Ask? then 1 else 0
  {
    if step.Ask? { CostIs(s.cache, step.q, step.res, step.net, step.w, cfg, maxSize); }
  }

  /** Over every run, exchanges made and prefetches still to be made are no more than the queries. */
  lemma {:induction false} RunCost<R>(steps: seq<Step<R>>, cache: Option<seq<Entry<R>>>, cfg: Config, maxSize: nat)
    requires maxSize > 0
    ensures var s := After(steps, State(cache, [], []), cfg, maxSize);
            |s.log| + |s.jobs| <= Asks(steps)
    decreases |steps|
  {
    if steps != [] {
      var n := |steps| - 1;
      RunCost(steps[..n], cache, cfg, maxSize);
      StepCost(After(steps[..n], State(cache, [], []), cfg, maxSize), steps[n], cfg, maxSize);
    }
  }

  // ------------------------------------------------------------------ where answers come from

  /** The exchange that brought the answer of `e` asked its question of its upstream. */
  ghost predicate Sourced<R>(e: Entry<R>, x: Exchange<R>)
  {
    x.outcome.Brought? && x.outcome.resp == e.response && e.key == BuildCacheKey(x.name, x.qtype, Some(x.upstream))
  }

  ghost predicate AllSourced<R>(s: seq<Entry<R>>, log: seq<Exchange<R>>)
  {
    forall e | e in s :: exists x | x in log :: Sourced(e, x)
  }

  ghost predicate Honest<R>(s: State<R>, maxSize: nat)
  {
    s.cache.Some? ==> Valid(s.cache.value, maxSize) && AllSourced(s.cache.value, s.log)
  }

  lemma {:induction false} SourcedMore<R>(s: seq<Entry<R>>, log: seq<Exchange<R>>, more: seq<Exchange<R>>)
    requires AllSourced(s, log)
    ensures AllSourced(s, log + more)
  {
    forall e | e in s
      ensures exists x | x in log + more :: Sourced(e, x)
    {
      var x :| x in log && Sourced(e, x);
      assert x in log + more;
    }
  }

  /** An operation other than Set changes no answer. */
  lemma {:induction false} SourcedNext<R>(op: Op<R>, s: seq<Entry<R>>, log: seq<Exchange<R>>, cfg: Config, maxSize: nat)
    requires maxSize > 0 && Valid(s, maxSize) && AllSourced(s, log)
    requires op.Set? ==> exists x | x in log :: SetBy(op, x)
    ensures var s' := Next(op, s, cfg, maxSize); Valid(s', maxSize) && AllSourced(s', log)
  {
    NextValid(op, s, cfg, maxSize);
    forall e | e in Next(op, s, cfg, maxSize)
      ensures exists x | x in log :: Sourced(e, x)
    {
      NextEntries(op, s, cfg, maxSize, e);
      if op.Set? && Accepted(op.rcode, cfg) && e.key == op.key {
        var x :| x in log && SetBy(op, x);
        assert Sourced(e, x);
      } else {
        var f :| f in s && SameAnswer(e, f);
        var x :| x in log && Sourced(f, x);
        assert Sourced(e, x);
      }
    }
  }

  ghost predicate SetBy<R>(op: Op<R>, x: Exchange<R>)
    requires op.Set?
  {
    x.outcome.Brought? && x.outcome.resp == op.resp && op.key == BuildCacheKey(x.name, x.qtype, Some(x.upstream))
  }

  lemma {:induction false} SourcedKept<R>(s: seq<Entry<R>>, u: Upstream, name: string, qtype: nat, w: World<R>,
                                          log: seq<Exchange<R>>, cfg: Config, maxSize: nat)
    requires maxSize > 0 && Valid(s, maxSize) && AllSourced(s, log)
    ensures var s' := Kept(s, BuildCacheKey(name, qtype, Some(u)), w.outcome, w.later, cfg, maxSize);
            Valid(s', maxSize) && AllSourced(s', log + [Exchange(u, name, qtype, w.outcome)])
  {
    var x := Exchange(u, name, qtype, w.outcome);
    SourcedMore(s, log, [x]);
    if w.outcome.Brought? {
      var op := Set(BuildCacheKey(name, qtype, Some(u)), w.outcome.resp, w.outcome.rcode, w.outcome.ttl, w.later);
      assert x in log + [x] && SetBy(op, x);
      SourcedNext(op, s, log + [x], cfg, maxSize);
    }
  }

  lemma {:induction false} SourcedPrefetched<R>(s: seq<Entry<R>>, j: Job, w: World<R>, log: seq<Exchange<R>>,
                                                cfg: Config, maxSize: nat)
    requires maxSize > 0 && Valid(s, maxSize) && AllSourced(s, log)
    ensures var s' := Prefetched(s, j, w, cfg, maxSize);
            Valid(s', maxSize) && AllSourced(s', log + [Exchange(j.upstream, j.name, j.qtype, w.outcome)])
  {
    var x := Exchange(j.upstream, j.name, j.qtype, w.outcome);
    if w.outcome.Brought? {
      SourcedKept(s, j.upstream, j.name, j.qtype, w, log, cfg, maxSize);
      var s' := Kept(s, j.Key(), w.outcome, w.later, cfg, maxSize);
      SourcedNext(PrefetchSucceeded(j.Key()), s', log + [x], cfg, maxSize);
    } else {
      SourcedMore(s, log, [x]);
      SourcedNext(PrefetchFailed(j.Key(), w.later), s, log + [x], cfg, maxSize);
    }
  }

  lemma {:induction false} HonestAsk<R>(s: State<R>, step: Step<R>, cfg: Config, maxSize: nat)
    requires maxSize > 0 && Honest(s, maxSize) && step.Ask?
    ensures Honest(Advance(s, step, cfg, maxSize), maxSize)
  {
    if s.cache.Some? {
      var u := Chosen(step.net, step.res.upstream);
      var log := Advance(s, step, cfg, maxSize).log;
      if step.res.action !in ["reject", "bypass"] && u.Some? {
        HonestForwarded(s.cache.value, step.q, u.value, step.w, s.log, cfg, maxSize);
        var f := Forwarded(s.cache, step.q, u.value, step.w, cfg, maxSize);
        var x := Exchange(u.value, step.q.name, step.q.qtype, step.w.outcome);
        assert log == s.log + if f.sent == [] then [] else [x];
      } else {
        SourcedMore(s.cache.value, s.log, log[|s.log|..]);
      }
    }
  }

  lemma {:induction false} HonestForwarded<R>(s: seq<Entry<R>>, q: Asked, u: Upstream, w: World<R>,
                                              log: seq<Exchange<R>>, cfg: Config, maxSize: nat)
    requires maxSize > 0 && Valid(s, maxSize) && AllSourced(s, log)
    ensures var f := Forwarded(Some(s), q, u, w, cfg, maxSize);
            && f.cache.Some? && Valid(f.cache.value, maxSize) && (f.sent == [] || f.sent == [u])
            && AllSourced(f.cache.value, log + if f.sent == [] then [] else [Exchange(u, q.name, q.qtype, w.outcome)])
  {
    var k, x := BuildCacheKey(q.name, q.qtype, Some(u)), Exchange(u, q.name, q.qtype, w.outcome);
    var s' := Got(s, k, w.now);
    SourcedNext(Get(k, w.now), s, log, cfg, maxSize);
    SourcedNext(MarkPrefetch(k, true), s', log, cfg, maxSize);
    SourcedKept(s', u, q.name, q.qtype, w, log, cfg, maxSize);
    SourcedMore(s', log, [x]);
    assert log + [] == log;
  }

  lemma {:induction false} HonestStep<R>(s: State<R>, step: Step<R>, cfg: Config, maxSize: nat)
    requires maxSize > 0 && Honest(s, maxSize)
    ensures Honest(Advance(s, step, cfg, maxSize), maxSize)
  {
    if step.Ask? {
      HonestAsk(s, step, cfg, maxSize);
    } else if s.cache.Some? {
      var c := s.cache.value;
      if step.Tend? && !step.op.Set? {
        SourcedNext(step.op, c, s.log, cfg, maxSize);
      } else if step.Finish? && step.i < |s.jobs| {
        SourcedPrefetched(c, s.jobs[step.i], step.w, s.log, cfg, maxSize);
      }
    }
  }

  lemma {:induction false} RunsAreHonest<R>(steps: seq<Step<R>>, cfg: Config, maxSize: nat)
    requires maxSize > 0
    ensures Honest(After(steps, State(Some([]), [], []), cfg, maxSize), maxSize)
    decreases |steps|
  {
    if steps != [] {
      var n := |steps| - 1;
      RunsAreHonest(steps[..n], cfg, maxSize);
      HonestStep(After(steps[..n], State(Some([]), [], []), cfg, maxSize), steps[n], cfg, maxSize);
    }
  }

  /**
   After any run, through any changes of routing and upstreams, a query answered from the cache gets
   what an upstream of the same address, over the same channel, brought for the same name and type.
   */
  lemma {:induction false} CachedAnswersAreTheirs<R>(steps: seq<Step<R>>, q: Asked, res: Routing.Result, net: Net,
                                                     w: World<R>, cfg: Config, maxSize: nat)
    returns (x: Exchange<R>, u: Upstream)
    requires maxSize > 0
    requires var s := After(steps, State(Some([]), [], []), cfg, maxSize);
             Handled(s.cache, q, res, net, w, cfg, maxSize).reply.FromCache?
    ensures var s := After(steps, State(Some([]), [], []), cfg, maxSize);
            var f := Handled(s.cache, q, res, net, w, cfg, maxSize);
            && x in s.log && x.outcome.Brought? && x.outcome.resp == f.reply.entry.response
            && x.name == q.name && x.qtype == q.qtype
            && IsFor(net, res.upstream, true, u)
            && x.upstream.addr == u.addr && SameChannel(x.upstream.proxyTag, u.proxyTag)
  {
    ChosenIs(net, res.upstream, true);
    u := Chosen(net, res.upstream).value;
    RunsAreHonest(steps, cfg, maxSize);
    var s := After(steps, State(Some([]), [], []), cfg, maxSize);
    HitHeld(s.cache, q, res, net, w, cfg, maxSize);
    x :| x in s.log && Sourced(Handled(s.cache, q, res, net, w, cfg, maxSize).reply.entry, x);
  }

  lemma {:induction false} HitHeld<R>(cache: Option<seq<Entry<R>>>, q: Asked, res: Routing.Result, net: Net,
                                      w: World<R>, cfg: Config, maxSize: nat)
    requires maxSize > 0 && Handled(cache, q, res, net, w, cfg, maxSize).reply.FromCache?
    ensures var e := Handled(cache, q, res, net, w, cfg, maxSize).reply.entry;
            && cache.Some? && e in cache.value && Chosen(net, res.upstream).Some?
            && e.key == BuildCacheKey(q.name, q.qtype, Chosen(net, res.upstream))
  {}

  // ------------------------------------------------------------------------ as it runs

  /** What Exchange returned: an error, no message, or one. */
  datatype Returned = Error | Nil | Message(m: Cache.Msg)

  ghost function OutcomeOf(r: Returned): Outcome<Cache.Msg>
    reads if r.Message? then {r.m} else {}
  {
    match r
    case Error => Failed
    case Nil => Nothing
    case Message(m) => Brought(m, m.rcode, m.ttl)
  }

  method EmptyAnswer(rcode: nat) returns (m: Cache.Msg)
    ensures fresh(m) && Empty(m, rcode)
  {
    m := new Cache.Msg(rcode, [], [], [], 0, false);
  }

  ghost predicate Empty(m: Cache.Msg, rcode: nat)
    reads m
  {
    m.rcode == rcode && m.answer + m.authority + m.additional == []
  }

  /** How an answer stands for a reply; one from the cache is what Get makes of the entry. */
  ghost predicate Stands(answer: Cache.Msg?, reply: Reply<Cache.Msg>)
    reads answer
  {
    match reply
    case Refused => answer != null && Empty(answer, REFUSED)
    case Stub => answer != null && Empty(answer, SUCCESS)
    case Failure => answer == null
    case FromCache(_) => answer != null
    case FromUpstream(m) => answer == m
  }

  method OfServerNow(m: Manager, s: Server) returns (u: Option<Upstream>)
    ensures u == OfServer(m, s)
  {
    u := Instance(m, s.id);
    if u.None? { u := Instance(m, s.addr); }
  }

  /** The first upstream in the list that is not for bootstrapping, if the manager knows it. */
  method FindPlain(m: Manager, servers: seq<Server>) returns (u: Option<Upstream>)
    ensures var i := FirstPlain(servers); u == if i < |servers| then OfServer(m, servers[i]) else None
  {
    for i := 0 to |servers|
      invariant forall k | 0 <= k < i :: servers[k].bootstrap
    {
      if !servers[i].bootstrap {
        u := OfServerNow(m, servers[i]);
        return;
      }
    }
    u := None;
  }

  ghost predicate Reads(m: Cache.Msg, v: Response)
    reads m, m.Records()
  {
    m.Value() == v
  }

  ghost predicate Comes<R>(f: Effect<R>, cache: Option<seq<Entry<R>>>, q: Asked, res: Routing.Result, net: Net,
                           w: World<R>, cfg: Config, maxSize: nat)
  {
    maxSize > 0 && f == Handled(cache, q, res, net, w, cfg, maxSize)
  }

  lemma {:induction false} ComesCheap<R>(f: Effect<R>, cache: Option<seq<Entry<R>>>, q: Asked, res: Routing.Result,
                                         net: Net, w: World<R>, cfg: Config, maxSize: nat)
    requires Comes(f, cache, q, res, net, w, cfg, maxSize)
    ensures Cost(f) <= 1
  {
    CostIs(cache, q, res, net, w, cfg, maxSize);
  }

  class Handler {
    const router: Routing.Router?
    const cache: Cache.DnsCache?
    var net: Net
    /** The upstreams asked, in order. */
    var sent: seq<Upstream>

    constructor (router: Routing.Router?, cache: Cache.DnsCache?, net: Net)
      ensures this.router == router && this.cache == cache && this.net == net && sent == []
    {
      this.router, this.cache, this.net, sent := router, cache, net, [];
    }

    ghost function Entries(): Option<seq<Entry<Cache.Msg>>>
      reads cache, if cache == null then {} else cache.Elements()
    {
      if cache == null then None else Some(cache.Slots())
    }

    ghost predicate Valid()
      reads router, cache, if cache == null then {} else cache.Elements()
    {
      (router != null ==> router.Valid()) && (cache != null ==> cache.Valid())
    }

    ghost function Size(): nat { if cache == null then 1 else cache.maxSize }

    ghost function Settings(): Config { if cache == null then Config(0, 0, false, false, 0) else cache.config }

    ghost function Footprint(): set<object>
      reads cache
    {
      if cache == null then {} else {cache} + cache.Elements()
    }

    method Exchange(u: Upstream, r: Returned) returns (o: Returned)
      modifies `sent
      ensures o == r && sent == old(sent) + [u]
    {
      sent := sent + [u];
      o := r;
    }

    method Choose(id: string, anyOther: bool) returns (u: Option<Upstream>)
      ensures u == if anyOther then Chosen(net, id) else Direct(net, id)
    {
      if net.manager.None? { return None; }
      var m := net.manager.value;
      u := None;
      if id != "" { u := Instance(m, id); }
      if u.None? { u := FindPlain(m, net.servers); }
      if anyOther && u.None? && |net.servers| > 0 { u := OfServerNow(m, net.servers[0]); }
    }

    /** An exchange, and the answer it comes to. */
    method Query(u: Upstream, r: Returned) returns (answer: Cache.Msg?)
      modifies `sent
      ensures sent == old(sent) + [u] && Stands(answer, ReplyOf(OutcomeOf(r)))
    {
      var o := Exchange(u, r);
      match o
      case Error => answer := null;
      case Nil => answer := EmptyAnswer(SUCCESS);
      case Message(m) => answer := m;
    }

    /** A hit, with the prefetch it may start. */
    method Look(c: Cache.DnsCache, key: CacheKey, now: int, ghost v: Response) returns (answer: Cache.Msg?, due: bool)
      requires c.Valid()
      requires var e := Found(key, now, c.Slots()); e.Some? ==> v == e.value.response.Value()
      modifies c, c.Elements()
      ensures c.Valid() && c.Elements() <= old(c.Elements())
      ensures answer == null <==> Found(key, now, old(c.Slots())).None?
      ensures due == (answer != null && Due(Got(old(c.Slots()), key, now), key, now, c.config))
      ensures var s := Got(old(c.Slots()), key, now); c.Slots() == if due then Marked(s, key, true) else s
      ensures answer != null ==> Cache.Says(answer, v, Found(key, now, old(c.Slots())).value.storedAt, now, c.config)
    {
      answer := c.Get(key, now);
      due := false;
      label got:
      if answer != null {
        due := StartPrefetch(c, key, now, answer);
        Cache.Unwritten@got(answer);
      }
    }

    method StartPrefetch(c: Cache.DnsCache, key: CacheKey, now: int, ghost answer: Cache.Msg) returns (due: bool)
      requires c.Valid()
      modifies c.Elements()
      ensures c.Valid() && c.Elements() == old(c.Elements())
      ensures due == Due(old(c.Slots()), key, now, c.config)
      ensures unchanged(answer) && unchanged(answer.Records())
      ensures c.Slots() == if due then Marked(old(c.Slots()), key, true) else old(c.Slots())
    {
      due := c.ShouldPrefetch(key, now);
      if due { c.SetPrefetching(key, true); }
    }

    /** A miss: the upstream is asked, and its answer stored. */
    method Miss(c: Cache.DnsCache, key: CacheKey, u: Upstream, r: Returned, later: int, store: bool)
      returns (answer: Cache.Msg?)
      requires c.Valid()
      modifies `sent, c, c.Elements()
      ensures c.Valid() && sent == old(sent) + [u] && Stands(answer, ReplyOf(old(OutcomeOf(r))))
      ensures var s := old(c.Slots());
              c.Slots() == if store then Kept(s, key, old(OutcomeOf(r)), later, c.config, c.maxSize) else s
    {
      answer := Query(u, r);
      if store && r.Message? { c.Set(key, r.m, r.m.ttl, later); }
    }

    /** The cache, then the upstream: handleRoute once it has its upstream. */
    method Forward(q: Asked, u: Upstream, now: int, r: Returned, later: int, ghost f: Effect<Cache.Msg>,
                   ghost v: Response)
      returns (answer: Cache.Msg?, job: Option<Job>)
      requires Valid() && f == Forwarded(Entries(), q, u, World(now, OutcomeOf(r), later), Settings(), Size())
      requires f.reply.FromCache? ==> v == f.reply.entry.response.Value()
      modifies `sent, Footprint()
      ensures Valid()
      ensures Entries() == f.cache && sent == old(sent) + f.sent && job == f.job && Stands(answer, f.reply)
      ensures f.reply.FromCache? ==> Cache.Says(answer, v, f.reply.entry.storedAt, now, Settings())
    {
      if cache == null {
        answer := Query(u, r);
        job := None;
      } else {
        answer, job := ForwardCached(cache, q, u, now, r, later, f, v);
      }
    }

    method ForwardCached(c: Cache.DnsCache, q: Asked, u: Upstream, now: int, r: Returned, later: int,
                         ghost f: Effect<Cache.Msg>, ghost v: Response)
      returns (answer: Cache.Msg?, job: Option<Job>)
      requires c.Valid()
      requires f == Forwarded(Some(c.Slots()), q, u, World(now, OutcomeOf(r), later), c.config, c.maxSize)
      requires f.reply.FromCache? ==> v == f.reply.entry.response.Value()
      modifies `sent, c, c.Elements()
      ensures c.Valid()
      ensures Some(c.Slots()) == f.cache && sent == old(sent) + f.sent && job == f.job && Stands(answer, f.reply)
      ensures f.reply.FromCache? ==> Cache.Says(answer, v, f.reply.entry.storedAt, now, c.config)
    {
      var key, due := BuildCacheKey(q.name, q.qtype, Some(u)), false;
      answer, due := Look(c, key, now, v);
      job := if due then Some(Job(u, q.name, q.qtype)) else None;
      if answer == null { answer := Miss(c, key, u, r, later, !q.bootstrap); }
    }

    /** The three ways of an action: refuse, ask without the cache, or forward. */
    method Act(res: Routing.Result, q: Asked, now: int, r: Returned, later: int, ghost f: Effect<Cache.Msg>,
               ghost v: Response)
      returns (answer: Cache.Msg?, job: Option<Job>)
      requires Valid() && f == Handled(Entries(), q, res, net, World(now, OutcomeOf(r), later), Settings(), Size())
      requires f.reply.FromCache? ==> v == f.reply.entry.response.Value()
      modifies `sent, Footprint()
      ensures Valid()
      ensures Entries() == f.cache && sent == old(sent) + f.sent && job == f.job && Stands(answer, f.reply)
      ensures f.reply.FromCache? ==> Cache.Says(answer, v, f.reply.entry.storedAt, now, Settings())
    {
      if res.action !in ["reject", "bypass"] {
        var u := Choose(res.upstream, true);
        if u.Some? {
          answer, job := Forward(q, u.value, now, r, later, f, v);
          return;
        }
      }
      job := None;
      answer := StepAside(res, r, f);
    }

    /** handleReject, handleBypass, and the stub of a query with no upstream to ask. */
    method StepAside(res: Routing.Result, r: Returned, ghost f: Effect<Cache.Msg>) returns (answer: Cache.Msg?)
      requires f == Aside(Entries(), res, net, OutcomeOf(r))
      modifies `sent
      ensures f.cache == Entries() && f.job == None && !f.reply.FromCache?
      ensures sent == old(sent) + f.sent && Stands(answer, f.reply)
    {
      if res.action == "reject" {
        answer := EmptyAnswer(REFUSED);
        return;
      }
      if res.action == "bypass" {
        var u := Choose(res.upstream, false);
        if u.Some? {
          answer := Query(u.value, r);
          return;
        }
      }
      answer := EmptyAnswer(SUCCESS);
    }

    /** What the router says of the query, or the default where there is none. */
    ghost function Decision(q: Rules.Query): Routing.Result
      reads router
    {
      if router == null then NO_ROUTER else router.Outcome(q)
    }

    /** Routing writes nothing: the entries are as they were, and a message still says `v`. */
    method Decide(q: Rules.Query, ghost m: Option<Cache.Msg>, ghost v: Response) returns (res: Routing.Result)
      requires Valid() && (m.Some? ==> Reads(m.value, v))
      ensures Valid() && res == old(Decision(q)) && Entries() == old(Entries())
      ensures m.Some? ==> Reads(m.value, v)
    {
      res := NO_ROUTER;
      if router != null { res := router.Route(q); }
      if m.Some? { Cache.Unwritten(m.value); }
    }

    /**
     HandleQuery: whatever it does, with the prefetch it starts it asks upstreams at most once, and then
     the one the query is for. `f` is
     what handling comes to and `v` what the message stored in the cache said, if that answers.
     */
    method HandleQuery(q: Rules.Query, bootstrap: bool, now: int, r: Returned, later: int, ghost w: World<Cache.Msg>)
      returns (answer: Cache.Msg?, job: Option<Job>, ghost f: Effect<Cache.Msg>, ghost v: Response)
      requires Valid() && w == World(now, OutcomeOf(r), later)
      modifies `sent, Footprint()
      ensures Valid()
      ensures Comes(f, old(Entries()), Asked(q.name, q.qtype, bootstrap), old(Decision(q)), net, w, Settings(), Size())
      ensures Entries() == f.cache && sent == old(sent) + f.sent && job == f.job && Stands(answer, f.reply)
      ensures f.reply.FromCache? ==> old(Reads(f.reply.entry.response, v))
      ensures f.reply.FromCache? ==> Cache.Says(answer, v, f.reply.entry.storedAt, now, Settings())
      ensures AsksRight(f, old(Decision(q)), net)
      ensures |sent| + (if job.Some? then 1 else 0) <= |old(sent)| + 1
    {
      var asked := Asked(q.name, q.qtype, bootstrap);
      ghost var was, res := Entries(), Decision(q);
      f, v := Plan(asked, res, w);
      assert Comes(f, was, asked, res, net, w, Settings(), Size()) && AsksRight(f, res, net);
      var result := Decide(q, if f.reply.FromCache? then Some(f.reply.entry.response) else None, v);
      answer, job := Act(result, asked, now, r, later, f, v);
    }

    lemma {:induction false} Plan(q: Asked, res: Routing.Result, w: World<Cache.Msg>)
      returns (f: Effect<Cache.Msg>, v: Response)
      requires Valid()
      ensures Comes(f, Entries(), q, res, net, w, Settings(), Size()) && Cost(f) <= 1 && AsksRight(f, res, net)
      ensures f.reply.FromCache? ==> Reads(f.reply.entry.response, v)
    {
      f := Handled(Entries(), q, res, net, w, Settings(), Size());
      v := if f.reply.FromCache? then f.reply.entry.response.Value() else NO_RESPONSE;
      ComesCheap(f, Entries(), q, res, net, w, Settings(), Size());
      HandledAsks(Entries(), q, res, net, w, Settings(), Size());
    }

    method Refresh(c: Cache.DnsCache, key: CacheKey, m: Cache.Msg, later: int)
      requires c.Valid()
      modifies c, c.Elements()
      ensures c.Valid()
      ensures c.Slots() == SuccessNoted(Put(old(c.Slots()), key, m, m.rcode, m.ttl, later, c.config, c.maxSize), key)
    {
      c.Set(key, m, m.ttl, later);
      c.RecordPrefetchSuccess(key);
    }

    /** prefetchAsync: one exchange, and the entry brought up to date or the failure noted. */
    method PrefetchAsync(c: Cache.DnsCache, job: Job, r: Returned, later: int)
      requires c == cache && Valid()
      modifies `sent, Footprint()
      ensures Valid() && sent == old(sent) + [job.upstream]
      ensures c.Slots() ==
              Prefetched(old(c.Slots()), job, World(later, old(OutcomeOf(r)), later), c.config, c.maxSize)
    {
      ghost var s := c.Slots();
      var o := Exchange(job.upstream, r);
      assert c.Slots() == s;
      var key := job.Key();
      if o.Message? {
        Refresh(c, key, o.m, later);
      } else {
        c.RecordPrefetchFailure(key, later);
      }
    }
  }

  const NO_RESPONSE := Response(SUCCESS, [], [], [], 0, false)

  const NO_ROUTER := Routing.Result("", "", "route", "", "single", "")
}
