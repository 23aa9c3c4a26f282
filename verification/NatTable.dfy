/**
 The nat table as iptables sees it: chains of rules, the commands that edit them, and the
 traversal that decides a packet. Tables of other programs are arbitrary: their matches and
 verdicts are opaque identifiers, so every statement made here holds next to any of them.
 */
module NatTable {
  import opened Options

  datatype Chain = Prerouting | Output | TpOut | TpPre | TpRule | DnsRedirect | Other(name: string)

  datatype Proto = Tcp | Udp | OtherProto(number: nat)

  /** A network as iptables stores it, its low `hostBits` cleared. */
  datatype Cidr = Cidr(network: int, hostBits: nat)

  datatype Match =
    | Protocol(proto: Proto)
    | DestPort(port: nat)
    | Dest(net: Cidr)
    | Bypass                      // -m mark --mark 0x80/0x80
    | InIface(pattern: string)
    | OutIface(pattern: string)
    | InSet(set_: string)         // -m set --match-set NAME dst
    | Foreign(id: nat)

  datatype Target = Return | Redirect(port: nat) | Jump(chain: Chain) | Final(id: nat) | Pass(id: nat)

  datatype Rule = Rule(matches: seq<Match>, target: Target)

  type Table = map<Chain, seq<Rule>>
  type Sets = map<string, set<Cidr>>

  datatype Packet = Packet(
    proto: Proto, dport: nat, dst: nat, mark: nat,
    inIface: string, outIface: string, traits: set<nat>)

  datatype Command =
    | New(chain: Chain)
    | Append(chain: Chain, rule: Rule)
    | Insert(chain: Chain, rule: Rule)
    | Delete(chain: Chain, rule: Rule)
    | Flush(chain: Chain)
    | Drop(chain: Chain)

  datatype Verdict = Redirected(port: nat) | Decided(id: nat)
  datatype Outcome = Stop(verdict: Verdict) | Returned | FellThrough

  const TO_PROXY := 52345
  const TO_DNS := 52353

  predicate BuiltIn(c: Chain) { c == Prerouting || c == Output }

  // ---------------------------------------------------------------- commands

  predicate Referenced(t: Table, x: Chain)
  {
    exists c, i | c in t && 0 <= i < |t[c]| :: t[c][i].target == Jump(x)
  }

  /** What the kernel checks before it accepts a rule. */
  predicate Loadable(r: Rule, t: Table, sets: Sets)
  {
    && (r.target.Jump? ==> r.target.chain in t && !BuiltIn(r.target.chain))
    && (forall m | m in r.matches :: m.InSet? ==> m.set_ in sets)
  }

  function RemoveFirst(s: seq<Rule>, r: Rule): seq<Rule>
  {
    if s == [] then [] else if s[0] == r then s[1..] else [s[0]] + RemoveFirst(s[1..], r)
  }

  /** One iptables invocation; None is a non-zero exit, which changes nothing. */
  function Step(cmd: Command, t: Table, sets: Sets): Option<Table>
  {
    match cmd
    case New(c) => if c in t then None else Some(t[c := []])
    case Append(c, r) => if c in t && Loadable(r, t, sets) then Some(t[c := t[c] + [r]]) else None
    case Insert(c, r) => if c in t && Loadable(r, t, sets) then Some(t[c := [r] + t[c]]) else None
    case Delete(c, r) => if c in t && r in t[c] then Some(t[c := RemoveFirst(t[c], r)]) else None
    case Flush(c) => if c in t then Some(t[c := []]) else None
    case Drop(c) =>
      if c in t && !BuiltIn(c) && t[c] == [] && !Referenced(t, c) then Some(t - {c}) else None
  }

  // --------------------------------------------------------------- traversal

  function Pow2(n: nat): nat
  {
    if n == 0 then 1 else 2 * Pow2(n - 1)
  }

  lemma Pow2Positive(n: nat)
    ensures Pow2(n) > 0
  {}

  /** iptables clears the host bits of the address it is given. */
  function Masked(address: int, hostBits: nat): Cidr
  {
    Pow2Positive(hostBits);
    Cidr(address - address % Pow2(hostBits), hostBits)
  }

  function Network(c: Cidr): Cidr { Masked(c.network, c.hostBits) }

  predicate InNet(ip: nat, c: Cidr) { Masked(ip, c.hostBits) == Network(c) }

  /** The same, said of the addresses: those that agree above the host bits. */
  predicate InCidr(ip: nat, c: Cidr)
  {
    Pow2Positive(c.hostBits);
    ip / Pow2(c.hostBits) == c.network / Pow2(c.hostBits)
  }

  lemma {:induction false} InNetIs(ip: nat, c: Cidr)
    ensures InNet(ip, c) <==> InCidr(ip, c)
  {
    Pow2Positive(c.hostBits);
    var m := Pow2(c.hostBits);
    var a, b := ip / m, c.network / m;
    assert ip - ip % m == m * a && c.network - c.network % m == m * b;
    if m * a == m * b { BelowOne(m, a - b); assert m * (a - b) == 0; }
  }

  lemma {:induction false} MaskedTwice(x: int, m: nat)
    requires m > 0
    ensures (x - x % m) % m == 0
  {
    var q := x / m;
    assert x - x % m == m * q;
    Multiple(m, q);
  }

  lemma {:induction false} Multiple(m: nat, q: int)
    requires m > 0
    ensures (m * q) % m == 0
  {
    var p := m * q;
    var t := p / m;
    assert p == m * t + p % m;
    assert m * q - m * t == m * (q - t);
    BelowOne(m, q - t);
  }

  lemma {:induction false} BelowOne(m: nat, k: int)
    ensures 0 <= m * k < m ==> k == 0
  {
    if k >= 1 { assert m * k == m + m * (k - 1) && m * (k - 1) >= 0; }
    if k <= -1 { assert m * k == m * (k + 1) - m && m * (k + 1) <= 0; }
  }

  /** An address is in a network just if it is in the network with its host bits cleared. */
  lemma {:induction false} NetworkSame(ip: nat, c: Cidr)
    ensures Network(Network(c)) == Network(c) && (InNet(ip, Network(c)) <==> InNet(ip, c))
  {
    Pow2Positive(c.hostBits);
    MaskedTwice(c.network, Pow2(c.hostBits));
  }

  /** A trailing `+` matches any interface with that prefix. */
  predicate IfaceMatches(pattern: string, name: string)
  {
    if pattern != "" && pattern[|pattern| - 1] == '+' then pattern[..|pattern| - 1] <= name
    else pattern == name
  }

  predicate HasBypassMark(p: Packet) { (p.mark / 0x80) % 2 == 1 }

  predicate Holds(m: Match, p: Packet, sets: Sets)
  {
    match m
    case Protocol(proto) => p.proto == proto
    case DestPort(port) => p.dport == port
    case Dest(net) => InNet(p.dst, net)
    case Bypass => HasBypassMark(p)
    case InIface(pattern) => IfaceMatches(pattern, p.inIface)
    case OutIface(pattern) => IfaceMatches(pattern, p.outIface)
    case InSet(s) => s in sets && exists c | c in sets[s] :: InNet(p.dst, c)
    case Foreign(id) => id in p.traits
  }

  predicate Applies(r: Rule, p: Packet, sets: Sets)
  {
    forall m | m in r.matches :: Holds(m, p, sets)
  }

  type Ranks = map<Chain, nat>

  /** The kernel refuses a table whose jumps form a loop: every jump goes down a ranking. */
  ghost predicate JumpsBelow(rules: seq<Rule>, t: Table, rank: Ranks, bound: nat)
  {
    && t.Keys <= rank.Keys
    && forall r | r in rules :: r.target.Jump? ==> r.target.chain in t && rank[r.target.chain] < bound
  }

  ghost predicate Ranked(t: Table, rank: Ranks)
  {
    t.Keys <= rank.Keys && forall c | c in t :: JumpsBelow(t[c], t, rank, rank[c])
  }

  /** Walks `rules` for one packet. RETURN, and the end of a chain, resume the caller. */
  ghost function Walk(rules: seq<Rule>, p: Packet, t: Table, sets: Sets, rank: Ranks, bound: nat): Outcome
    requires Ranked(t, rank) && JumpsBelow(rules, t, rank, bound)
    decreases bound, |rules|
  {
    if rules == [] then FellThrough
    else
      var rest := rules[1..];
      assert JumpsBelow(rest, t, rank, bound);
      if !Applies(rules[0], p, sets) then Walk(rest, p, t, sets, rank, bound)
      else
        match rules[0].target
        case Return => Returned
        case Redirect(port) => Stop(Redirected(port))
        case Final(id) => Stop(Decided(id))
        case Pass(_) => Walk(rest, p, t, sets, rank, bound)
        case Jump(c) =>
          assert rules[0] in rules;
          var inner := Walk(t[c], p, t, sets, rank, rank[c]);
          if inner.Stop? then inner else Walk(rest, p, t, sets, rank, bound)
  }

  /** Two rankings of one table, and any two bounds, give the same traversal. */
  lemma {:induction false} RankIrrelevant(
    rules: seq<Rule>, p: Packet, t: Table, sets: Sets, rank: Ranks, bound: nat, rank': Ranks, bound': nat)
    requires Ranked(t, rank) && JumpsBelow(rules, t, rank, bound)
    requires Ranked(t, rank') && JumpsBelow(rules, t, rank', bound')
    ensures Walk(rules, p, t, sets, rank, bound) == Walk(rules, p, t, sets, rank', bound')
    decreases bound, |rules|
  {
    if rules != [] {
      RankIrrelevant(rules[1..], p, t, sets, rank, bound, rank', bound');
      if rules[0].target.Jump? {
        var c := rules[0].target.chain;
        assert rules[0] in rules;
        RankIrrelevant(t[c], p, t, sets, rank, rank[c], rank', rank'[c]);
      }
    }
  }

  /** A chain written as two parts is walked part by part. */
  lemma {:induction false} WalkConcat(
    a: seq<Rule>, b: seq<Rule>, p: Packet, t: Table, sets: Sets, rank: Ranks, bound: nat)
    requires Ranked(t, rank) && JumpsBelow(a + b, t, rank, bound)
    ensures JumpsBelow(a, t, rank, bound) && JumpsBelow(b, t, rank, bound)
    ensures var first := Walk(a, p, t, sets, rank, bound);
            Walk(a + b, p, t, sets, rank, bound) ==
            if first.FellThrough? then Walk(b, p, t, sets, rank, bound) else first
    decreases |a|
  {
    assert forall r | r in a :: r in a + b;
    assert forall r | r in b :: r in a + b;
    if a == [] {
      assert a + b == b;
    } else {
      assert (a + b)[1..] == a[1..] + b;
      WalkConcat(a[1..], b, p, t, sets, rank, bound);
    }
  }

  /**
   Chains that never reach an edited chain are decided alike in both tables. `t'` may hold
   more chains, more sets and a different ranking.
   */
  lemma {:induction false} WalkUnaffected(
    rules: seq<Rule>, p: Packet, t: Table, sets: Sets, rank: Ranks, bound: nat,
    t': Table, sets': Sets, rank': Ranks, bound': nat)
    requires Ranked(t, rank) && JumpsBelow(rules, t, rank, bound)
    requires Ranked(t', rank') && JumpsBelow(rules, t', rank', bound')
    requires forall c | c in t && !BuiltIn(c) :: c in t' && t'[c] == t[c]
    requires forall r | r in rules :: SetsOf(r) <= sets.Keys && (r.target.Jump? ==> !BuiltIn(r.target.chain))
    requires forall c, r | c in t && r in t[c] ::
               SetsOf(r) <= sets.Keys && (r.target.Jump? ==> !BuiltIn(r.target.chain))
    requires forall s | s in sets :: s in sets' && sets'[s] == sets[s]
    ensures Walk(rules, p, t, sets, rank, bound) == Walk(rules, p, t', sets', rank', bound')
    decreases bound, |rules|
  {
    if rules != [] {
      WalkUnaffected(rules[1..], p, t, sets, rank, bound, t', sets', rank', bound');
      assert rules[0] in rules;
      SameApplies(rules[0], p, sets, sets');
      if rules[0].target.Jump? {
        var c := rules[0].target.chain;
        WalkUnaffected(t[c], p, t, sets, rank, rank[c], t', sets', rank', rank'[c]);
      }
    }
  }

  function SetsOf(r: Rule): set<string>
  {
    set m | m in r.matches && m.InSet? :: m.set_
  }

  lemma {:induction false} SameApplies(r: Rule, p: Packet, sets: Sets, sets': Sets)
    requires SetsOf(r) <= sets.Keys
    requires forall s | s in sets :: s in sets' && sets'[s] == sets[s]
    ensures Applies(r, p, sets) == Applies(r, p, sets')
  {
    forall m | m in r.matches
      ensures Holds(m, p, sets) == Holds(m, p, sets')
    {
      if m.InSet? { assert m.set_ in SetsOf(r); }
    }
  }

  /** A stretch of RETURN rules returns exactly when one of them applies. */
  lemma {:induction false} WalkReturns(rules: seq<Rule>, p: Packet, t: Table, sets: Sets, rank: Ranks, bound: nat)
    requires Ranked(t, rank) && JumpsBelow(rules, t, rank, bound)
    requires forall r | r in rules :: r.target == Return
    ensures Walk(rules, p, t, sets, rank, bound) ==
            if exists r | r in rules :: Applies(r, p, sets) then Returned else FellThrough
    decreases |rules|
  {
    if rules != [] {
      WalkReturns(rules[1..], p, t, sets, rank, bound);
      assert rules == [rules[0]] + rules[1..];
      assert rules[0] in rules;
    }
  }
}
