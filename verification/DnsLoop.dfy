/**
 Resolver loops: this process, its clients, and forwarders that may send its queries back to
 it. What a forwarder may turn a query into is a parameter.
 */
module DnsLoop {
  import opened Options
  import opened DnsMessages
  import Cache = DnsCacheSpec
  import H = DnsHandler
  import Routing = DnsRouter

  type Extra = seq<Record>

  type Size = n: nat | n > 0 witness 1

  /** One run of the program: its token, and its cache's settings. */
  datatype Process = Process(token: Bytes, cfg: Cache.Config, maxSize: Size)

  /** Queries on their way to this process, queries it sent, the clients' queries so far, and the handler. */
  datatype State = State(inbox: seq<Extra>, sent: seq<Extra>, clients: nat, handler: H.State<Cache.Response>)

  /** What the handler is asked, with whatever rules, upstreams, cache and clock there are at that moment. */
  datatype Question = Question(q: H.Asked, res: Routing.Result, net: H.Net, w: H.World<Cache.Response>)

  /** `ip` is the client's address and `copies` how often an exchange sends its query. */
  datatype Step =
    | Client(extra: Extra)
    | Handle(i: nat, question: Question, ip: Option<Bytes>, copies: nat)
    | Prefetch(i: nat, w: H.World<Cache.Response>, ip: Option<Bytes>, copies: nat)
    | Tend(op: Cache.Op<Cache.Response>)
    | Back(i: nat, extra: Extra)

  function Remove<T>(s: seq<T>, i: nat): seq<T>
    requires i < |s|
  {
    s[..i] + s[i + 1..]
  }

  /** A step of the handler; each exchange it makes puts queries on the wire. */
  function Worked(s: State, step: H.Step<Cache.Response>, ip: Option<Bytes>, copies: nat, p: Process): State
  {
    var h := H.Advance(s.handler, step, p.cfg, p.maxSize);
    var more := if |h.log| > |s.handler.log| then seq(copies, _ => BuiltExtra(p.token, ip)) else [];
    s.(handler := h, sent := s.sent + more)
  }

  /** handlePacket on one query: one that carries the token is refused, whatever it asks. */
  function Received(s: State, i: nat, k: Question, ip: Option<Bytes>, copies: nat, p: Process): State
    requires i < |s.inbox|
  {
    var rest := s.(inbox := Remove(s.inbox, i));
    if Carries(s.inbox[i], p.token) then rest else Worked(rest, H.Ask(k.q, k.res, k.net, k.w), ip, copies, p)
  }

  function Next(s: State, step: Step, p: Process): State
  {
    match step
    case Client(e) => s.(inbox := s.inbox + [e], clients := s.clients + 1)
    case Handle(i, k, ip, copies) => if i < |s.inbox| then Received(s, i, k, ip, copies, p) else s
    case Prefetch(i, w, ip, copies) => Worked(s, H.Finish(i, w), ip, copies, p)
    case Tend(op) => Worked(s, H.Tend(op), None, 0, p)
    case Back(_, e) => s.(inbox := s.inbox + [e])
  }

  /** A query may come back if the forwarders turn one that was sent into it. */
  ghost predicate Enabled(s: State, step: Step, turns: (Extra, Extra) -> bool)
  {
    step.Back? ==> step.i < |s.sent| && turns(s.sent[step.i], step.extra)
  }

  function Start(): State { State([], [], 0, H.State(Some([]), [], [])) }

  function After(steps: seq<Step>, p: Process): State
  {
    if steps == [] then Start() else Next(After(steps[..|steps| - 1], p), steps[|steps| - 1], p)
  }

  ghost predicate Runs(steps: seq<Step>, p: Process, turns: (Extra, Extra) -> bool)
  {
    steps == [] ||
    (Runs(steps[..|steps| - 1], p, turns) && Enabled(After(steps[..|steps| - 1], p), steps[|steps| - 1], turns))
  }

  ghost predicate Built(e: Extra, token: Bytes) { exists ip :: e == BuiltExtra(token, ip) }

  /** Whatever the forwarders turn one of this process's queries into still carries its token. */
  ghost predicate TokenKept(token: Bytes, turns: (Extra, Extra) -> bool)
  {
    forall m: Extra, e: Extra :: Built(m, token) && turns(m, e) ==> Carries(e, token)
  }

  /** Queries in the inbox that will be let in. */
  function Fresh(inbox: seq<Extra>, token: Bytes): nat
  {
    if inbox == [] then 0 else Fresh(inbox[..|inbox| - 1], token) + if Carries(inbox[|inbox| - 1], token) then 0 else 1
  }

  lemma {:induction false} FreshRemove(inbox: seq<Extra>, i: nat, token: Bytes)
    requires i < |inbox|
    ensures Fresh(inbox, token) == Fresh(Remove(inbox, i), token) + if Carries(inbox[i], token) then 0 else 1
    decreases |inbox|
  {
    var n := |inbox| - 1;
    if i == n {
      assert Remove(inbox, i) == inbox[..n];
    } else {
      var r := Remove(inbox, i);
      assert r[..|r| - 1] == Remove(inbox[..n], i) && r[|r| - 1] == inbox[n];
      FreshRemove(inbox[..n], i, token);
    }
  }

  lemma {:induction false} FreshSnoc(inbox: seq<Extra>, e: Extra, token: Bytes)
    ensures Fresh(inbox + [e], token) == Fresh(inbox, token) + if Carries(e, token) then 0 else 1
  {
    assert (inbox + [e])[..|inbox|] == inbox;
  }

  /** Exchanges made, prefetches to be made and queries to be let in are no more than the clients' queries. */
  ghost predicate Bounded(s: State, token: Bytes)
  {
    && |s.handler.log| + |s.handler.jobs| + Fresh(s.inbox, token) <= s.clients
    && forall i | 0 <= i < |s.sent| :: Built(s.sent[i], token)
  }

  lemma {:induction false} BoundedStep(s: State, step: Step, p: Process, turns: (Extra, Extra) -> bool)
    requires TokenKept(p.token, turns) && Bounded(s, p.token) && Enabled(s, step, turns)
    ensures Bounded(Next(s, step, p), p.token)
  {
    match step {
      case Client(e) => FreshSnoc(s.inbox, e, p.token);
      case Handle(i, k, ip, copies) => if i < |s.inbox| { BoundedReceived(s, i, k, ip, copies, p); }
      case Prefetch(i, w, ip, copies) => BoundedWorked(s, H.Finish(i, w), ip, copies, p);
      case Tend(op) => BoundedWorked(s, H.Tend(op), None, 0, p);
      case Back(i, e) =>
        assert Built(s.sent[i], p.token) && Carries(e, p.token);
        FreshSnoc(s.inbox, e, p.token);
    }
  }

  lemma {:induction false} BoundedReceived(s: State, i: nat, k: Question, ip: Option<Bytes>, copies: nat, p: Process)
    requires Bounded(s, p.token) && i < |s.inbox|
    ensures Bounded(Received(s, i, k, ip, copies, p), p.token)
  {
    FreshRemove(s.inbox, i, p.token);
    if !Carries(s.inbox[i], p.token) {
      BoundedWorked(s.(inbox := Remove(s.inbox, i)), H.Ask(k.q, k.res, k.net, k.w), ip, copies, p);
    }
  }

  lemma {:induction false} BoundedWorked(s: State, step: H.Step<Cache.Response>, ip: Option<Bytes>, copies: nat,
                                         p: Process)
    requires Bounded(s, p.token)
    requires step.Ask? ==> |s.handler.log| + |s.handler.jobs| + Fresh(s.inbox, p.token) < s.clients
    ensures Bounded(Worked(s, step, ip, copies, p), p.token)
  {
    H.StepCost(s.handler, step, p.cfg, p.maxSize);
    assert Built(BuiltExtra(p.token, ip), p.token);
  }

  /** With forwarders that keep the token, exchanges never outnumber the clients' queries. */
  lemma {:induction false} LoopIsBounded(steps: seq<Step>, p: Process, turns: (Extra, Extra) -> bool)
    requires TokenKept(p.token, turns) && Runs(steps, p, turns)
    ensures Bounded(After(steps, p), p.token)
    decreases |steps|
  {
    if steps != [] {
      var front := steps[..|steps| - 1];
      LoopIsBounded(front, p, turns);
      BoundedStep(After(front, p), steps[|steps| - 1], p, turns);
    }
  }

  // ------------------------------------------------------ when the token is lost

  /** A question under a rule that bypasses the cache to a known upstream. */
  function Bypass(): Question
  {
    var net := H.Net([], Some(H.Manager(map["u" := Cache.Upstream("10.0.0.1:53", "direct")], map[])));
    Question(H.Asked("a.", 1, false), Routing.Result("u", "", "bypass", "", "", ""), net, H.World(0, H.Nothing, 0))
  }

  /** One client query, answered by going round a loop that loses the token. */
  function Round(ip: Option<Bytes>, e: Extra, n: nat): seq<Step>
  {
    if n == 0 then [Client(e), Handle(0, Bypass(), ip, 1)]
    else Round(ip, e, n - 1) + [Back(0, e), Handle(0, Bypass(), ip, 1)]
  }

  lemma {:induction false} StepSnoc(steps: seq<Step>, step: Step, p: Process, turns: (Extra, Extra) -> bool)
    ensures After(steps + [step], p) == Next(After(steps, p), step, p)
    ensures Runs(steps + [step], p, turns) <==> Runs(steps, p, turns) && Enabled(After(steps, p), step, turns)
  {
    assert (steps + [step])[..|steps|] == steps;
  }

  ghost predicate Turned(s: State, ip: Option<Bytes>, token: Bytes, n: nat)
  {
    s.clients == 1 && |s.handler.log| == n && s.inbox == [] && |s.sent| > 0 && s.sent[0] == BuiltExtra(token, ip)
  }

  /** A query without the token is let in and sent on. */
  lemma {:induction false} LetIn(s: State, ip: Option<Bytes>, e: Extra, p: Process)
    requires s.inbox == [e] && !Carries(e, p.token)
    ensures var t := Next(s, Handle(0, Bypass(), ip, 1), p);
            && t.clients == s.clients && |t.handler.log| == |s.handler.log| + 1 && t.inbox == []
            && t.sent == s.sent + [BuiltExtra(p.token, ip)]
  {
    assert Remove(s.inbox, 0) == [];
    assert seq(1, _ => BuiltExtra(p.token, ip)) == [BuiltExtra(p.token, ip)];
  }

  lemma {:induction false} OneMore(s: State, ip: Option<Bytes>, e: Extra, p: Process, n: nat)
    requires Turned(s, ip, p.token, n) && !Carries(e, p.token)
    ensures Turned(Next(Next(s, Back(0, e), p), Handle(0, Bypass(), ip, 1), p), ip, p.token, n + 1)
  {
    var t := Next(s, Back(0, e), p);
    assert t.inbox == [e];
    LetIn(t, ip, e, p);
  }

  /** Such a loop makes as many exchanges as one likes out of one query. */
  lemma {:induction false} RunsAway(ip: Option<Bytes>, e: Extra, n: nat, p: Process, turns: (Extra, Extra) -> bool)
    requires turns(BuiltExtra(p.token, ip), e) && !Carries(e, p.token)
    ensures Runs(Round(ip, e, n), p, turns) && Turned(After(Round(ip, e, n), p), ip, p.token, n + 1)
    decreases n
  {
    if n == 0 {
      FirstRound(ip, e, p, turns);
    } else {
      RunsAway(ip, e, n - 1, p, turns);
      NextRound(Round(ip, e, n - 1), ip, e, n, p, turns);
    }
  }

  lemma {:induction false} FirstRound(ip: Option<Bytes>, e: Extra, p: Process, turns: (Extra, Extra) -> bool)
    requires !Carries(e, p.token)
    ensures var steps := [Client(e), Handle(0, Bypass(), ip, 1)];
            Runs(steps, p, turns) && Turned(After(steps, p), ip, p.token, 1)
  {
    var h := Handle(0, Bypass(), ip, 1);
    StepSnoc([], Client(e), p, turns);
    StepSnoc([Client(e)], h, p, turns);
    assert [] + [Client(e)] == [Client(e)] && [Client(e)] + [h] == [Client(e), h];
    var s := After([Client(e)], p);
    assert s.inbox == [e];
    LetIn(s, ip, e, p);
  }

  lemma {:induction false} NextRound(r: seq<Step>, ip: Option<Bytes>, e: Extra, n: nat, p: Process,
                                     turns: (Extra, Extra) -> bool)
    requires Runs(r, p, turns) && Turned(After(r, p), ip, p.token, n)
    requires turns(BuiltExtra(p.token, ip), e) && !Carries(e, p.token)
    ensures var steps := r + [Back(0, e), Handle(0, Bypass(), ip, 1)];
            Runs(steps, p, turns) && Turned(After(steps, p), ip, p.token, n + 1)
  {
    var h := Handle(0, Bypass(), ip, 1);
    StepSnoc(r, Back(0, e), p, turns);
    StepSnoc(r + [Back(0, e)], h, p, turns);
    assert r + [Back(0, e)] + [h] == r + [Back(0, e), h];
    OneMore(After(r, p), ip, e, p, n);
  }

  ghost predicate Holds(steps: seq<Step>, p: Process, turns: (Extra, Extra) -> bool)
  {
    Runs(steps, p, turns) ==> |After(steps, p).handler.log| <= After(steps, p).clients
  }

  /** The bound holds of every run if and only if the forwarders keep the token on this process's queries. */
  lemma {:induction false} BoundedIff(p: Process, turns: (Extra, Extra) -> bool)
    ensures (forall steps :: Holds(steps, p, turns)) <==> TokenKept(p.token, turns)
  {
    if TokenKept(p.token, turns) {
      forall steps
        ensures Holds(steps, p, turns)
      {
        if Runs(steps, p, turns) { LoopIsBounded(steps, p, turns); }
      }
    } else {
      var m: Extra, e: Extra :| Built(m, p.token) && turns(m, e) && !Carries(e, p.token);
      var ip :| m == BuiltExtra(p.token, ip);
      RunsAway(ip, e, 1, p, turns);
      assert !Holds(Round(ip, e, 1), p, turns);
    }
  }

  // ------------------------------------------------------------------- forwarders

  /** A forwarder that passes on the EDNS options it was sent, and may add records and options of its own. */
  ghost predicate KeepsOptions(a: Extra, b: Extra)
  {
    var i, j := LastOpt(a), LastOpt(b);
    i >= 0 ==> j >= 0 && forall o | o in a[i].options :: o in b[j].options
  }

  lemma {:induction false} HopKeeps(a: Extra, b: Extra, token: Bytes)
    requires KeepsOptions(a, b) && Carries(a, token)
    ensures Carries(b, token)
  {
    var os, os' := a[LastOpt(a)].options, b[LastOpt(b)].options;
    var k :| 0 <= k < |os| && IsToken(os[k], token);
    assert os[k] in os';
  }

  /** A chain of forwarders, each turning a query into the next. */
  ghost predicate Chain(path: seq<Extra>, a: Extra, b: Extra)
  {
    && |path| > 0 && path[0] == a && path[|path| - 1] == b
    && forall i | 0 <= i < |path| - 1 :: KeepsOptions(path[i], path[i + 1])
  }

  lemma {:induction false} AlongChain(path: seq<Extra>, a: Extra, b: Extra, token: Bytes, n: nat)
    requires Chain(path, a, b) && n < |path| && Carries(a, token)
    ensures Carries(path[n], token)
    decreases n
  {
    if n > 0 {
      AlongChain(path, a, b, token, n - 1);
      assert KeepsOptions(path[n - 1], path[n - 1 + 1]);
      HopKeeps(path[n - 1], path[n], token);
    }
  }

  /** Forwarders that pass EDNS options on, in chains of any length, keep the token: the bound holds. */
  lemma {:induction false} ChainKeeps(p: Process, turns: (Extra, Extra) -> bool)
    requires forall a: Extra, b: Extra :: turns(a, b) ==> exists path :: Chain(path, a, b)
    ensures TokenKept(p.token, turns) && forall steps :: Holds(steps, p, turns)
  {
    forall m: Extra, e: Extra | Built(m, p.token) && turns(m, e)
      ensures Carries(e, p.token)
    {
      var ip :| m == BuiltExtra(p.token, ip);
      BuiltOnce(p.token, ip);
      var path :| Chain(path, m, e);
      AlongChain(path, m, e, p.token, |path| - 1);
    }
    BoundedIff(p, turns);
  }

  /** Another instance of this program is a forwarder that loses it: it writes its queries anew. */
  lemma {:induction false} OtherInstanceLoses(token: Bytes, other: Bytes, ip: Option<Bytes>)
    requires other != token
    ensures !Carries(BuiltExtra(other, ip), token)
  {
    BuiltOnce(other, ip);
    NotMine(BuiltExtra(other, ip), token, other);
  }

  lemma {:induction false} NotMine(e: Extra, token: Bytes, other: Bytes)
    requires |e| == 1 && e[0].Opt? && |e[0].options| > 0 && LoopOptions(e[0].options) == 1
        && IsToken(e[0].options[0], other)
    requires other != token
    ensures !Carries(e, token)
  {
    LastOptIs(e, 0);
    OnlyOne(e[0].options, token, other);
  }

  lemma {:induction false} OnlyOne(os: seq<EdnsOption>, token: Bytes, other: Bytes)
    requires |os| > 0 && LoopOptions(os) == 1 && IsToken(os[0], other) && other != token
    ensures forall k | 0 <= k < |os| :: !IsToken(os[k], token)
    decreases |os|
  {
    var n := |os| - 1;
    if n > 0 {
      AtLeast(os[..n]);
      assert os[..n][0] == os[0];
      OnlyOne(os[..n], token, other);
      assert forall k | 0 <= k < n :: os[..n][k] == os[k];
    }
  }

  lemma {:induction false} AtLeast(os: seq<EdnsOption>)
    requires |os| > 0 && IsLoopOption(os[0])
    ensures LoopOptions(os) >= 1
    decreases |os|
  {
    if |os| > 1 {
      assert os[..|os| - 1][0] == os[0];
      AtLeast(os[..|os| - 1]);
    }
  }
}
