/**
 What a completed setup does to every packet, whatever the tables held before and whichever
 form the whitelist took.
 */
module RedirectMeaning {
  import opened Options
  import opened NatTable
  import opened RedirectExempt
  import opened RedirectScript

  predicate Own(c: Chain) { c in {TpOut, TpPre, TpRule, DnsRedirect} }

  /** Tables the kernel can hold in which v2rayA is not installed. */
  ghost predicate Untouched(t: NatTable.Table, sets: Sets)
  {
    && Prerouting in t && Output in t
    && (forall c | Own(c) :: c !in t)
    && (forall c, r | c in t && r in t[c] ::
          && SetsOf(r) <= sets.Keys
          && (r.target.Jump? ==> r.target.chain in t && !BuiltIn(r.target.chain)))
  }

  /** The sets that are not this program's. */
  function Others(sets: Sets): Sets { sets - {SetName(V4), SetName(V6)} }

  /** None of this program's chains, and no rule on its sets; a set left over from before may lie there. */
  ghost predicate UntouchedWorld(w: World)
  {
    Untouched(w.nat4, Others(w.sets)) && Untouched(w.nat6, Others(w.sets))
  }

  /** The host without the program's sets: itself, unless one was left over. */
  function Swept(w: World): World { w.(sets := Others(w.sets)) }

  function OtherFamily(f: Family): Family { if f.V4? then V6 else V4 }

  // ------------------------------------------------------ running straight through

  ghost function RunAll(lines: seq<Line>, w: World): Option<World>
  {
    if lines == [] then Some(w)
    else
      var r := ExecLine(lines[0], w);
      if r.None? then None else RunAll(lines[1..], r.value)
  }

  lemma RunStopAll(lines: seq<Line>, budget: nat, w: World)
    requires RunStop(lines, budget, w).1
    ensures RunAll(lines, w) == Some(RunStop(lines, budget, w).0)
  {}

  lemma {:induction false} RunAllConcat(a: seq<Line>, b: seq<Line>, w: World)
    ensures RunAll(a + b, w) == if RunAll(a, w).None? then None else RunAll(b, RunAll(a, w).value)
    decreases |a|
  {
    if a == [] {
      assert a + b == b;
    } else {
      assert (a + b)[1..] == a[1..] + b;
      var r := ExecLine(a[0], w);
      if r.Some? { RunAllConcat(a[1..], b, r.value); }
    }
  }

  /** The same on one table. */
  ghost function Apply(cmds: seq<Command>, t: NatTable.Table, sets: Sets): Option<NatTable.Table>
  {
    if cmds == [] then Some(t)
    else
      var r := Step(cmds[0], t, sets);
      if r.None? then None else Apply(cmds[1..], r.value, sets)
  }

  lemma {:induction false} ApplyConcat(a: seq<Command>, b: seq<Command>, t: NatTable.Table, sets: Sets)
    ensures Apply(a + b, t, sets) == if Apply(a, t, sets).None? then None else Apply(b, Apply(a, t, sets).value, sets)
    decreases |a|
  {
    if a == [] {
      assert a + b == b;
    } else {
      assert (a + b)[1..] == a[1..] + b;
      var r := Step(a[0], t, sets);
      if r.Some? { ApplyConcat(a[1..], b, r.value, sets); }
    }
  }

  lemma {:induction false} RunLines(f: Family, cmds: seq<Command>, w: World)
    ensures RunAll(Lines(f, cmds), w) ==
            var r := Apply(cmds, w.Table(f), w.sets); if r.None? then None else Some(w.With(f, r.value))
    decreases |cmds|
  {
    if cmds != [] {
      assert Lines(f, cmds)[1..] == Lines(f, cmds[1..]);
      var r := Step(cmds[0], w.Table(f), w.sets);
      if r.Some? { RunLines(f, cmds[1..], w.With(f, r.value)); }
    }
  }

  ghost predicate Plain(rules: seq<Rule>)
  {
    forall r | r in rules :: !r.target.Jump? && forall m | m in r.matches :: !m.InSet?
  }

  lemma {:induction false} ApplyAppends(c: Chain, rules: seq<Rule>, t: NatTable.Table, sets: Sets)
    requires c in t && Plain(rules)
    ensures Apply(Appends(c, rules), t, sets) == Some(t[c := t[c] + rules])
    decreases |rules|
  {
    if rules == [] {
      assert t[c] + rules == t[c];
      assert t[c := t[c]] == t;
    } else {
      assert rules[0] in rules;
      var t' := t[c := t[c] + [rules[0]]];
      assert Appends(c, rules)[1..] == Appends(c, rules[1..]);
      ApplyAppends(c, rules[1..], t', sets);
      assert t[c] + [rules[0]] + rules[1..] == t[c] + rules;
      assert t'[c := t[c] + rules] == t[c := t[c] + rules];
    }
  }

  lemma {:induction false} PlainReturns(cidrs: seq<Cidr>)
    ensures Plain(ReturnsTo(cidrs)) && Plain(ReturnsTo(cidrs) + [ReturnMarked])
  {}

  lemma {:induction false} PlainOthers(ifaces: seq<string>, port: nat)
    ensures Plain(IfaceRules(ifaces)) && Plain(DnsRules(port))
  {}

  // --------------------------------------------------------- the table it leaves

  function Opened(t: NatTable.Table, rules: seq<Rule>, dns: seq<Rule>): NatTable.Table
  {
    t[TpOut := []][TpPre := []][TpRule := rules][DnsRedirect := dns]
  }

  function Installed(t: NatTable.Table, rules: seq<Rule>, dns: seq<Rule>): NatTable.Table
    requires Prerouting in t && Output in t
  {
    t[TpOut := [ToTpRule]][TpPre := [ToTpRule]][TpRule := rules + [TcpRedirect]][DnsRedirect := dns]
     [Prerouting := [TcpDns, UdpDns, TcpToTpPre] + t[Prerouting]]
     [Output := [TcpDns, UdpDns, TcpToTpOut] + t[Output]]
  }

  lemma {:induction false} ApplyNews(t: NatTable.Table, sets: Sets)
    requires forall c | Own(c) :: c !in t
    ensures Apply(NewChains, t, sets) == Some(Opened(t, [], []))
  {
    assert Own(TpOut) && Own(TpPre) && Own(TpRule) && Own(DnsRedirect);
    var a: seq<Command>, b: seq<Command> := [New(TpOut), New(TpPre)], [New(TpRule), New(DnsRedirect)];
    var t' := t[TpOut := []][TpPre := []];
    assert Apply(a, t, sets) == Some(t') by { Two(a[0], a[1], t, t[TpOut := []], t', sets); }
    assert Apply(b, t', sets) == Some(Opened(t, [], [])) by {
      Two(b[0], b[1], t', t'[TpRule := []], Opened(t, [], []), sets);
    }
    ApplyConcat(a, b, t, sets);
    assert NewChains == a + b;
  }

  lemma {:induction false} Two(a: Command, b: Command, t0: NatTable.Table, t1: NatTable.Table, t2: NatTable.Table,
                               sets: Sets)
    requires Step(a, t0, sets) == Some(t1) && Step(b, t1, sets) == Some(t2)
    ensures Apply([a, b], t0, sets) == Some(t2)
  {
    var none: seq<Command> := [];
    assert [b][1..] == none;
    assert Apply(none, t2, sets) == Some(t2);
    assert Apply([b], t1, sets) == Some(t2);
    assert [a, b][1..] == [b];
  }

  lemma {:induction false} ApplyFill(f: Family, base: seq<Rule>, dns: seq<Rule>, t: NatTable.Table, sets: Sets)
    requires Plain(base) && Plain(dns)
    ensures Apply(Fill(f, base, dns), Opened(t, [], []), sets) == Some(Opened(t, base, dns))
  {
    var o := Opened(t, [], []);
    assert [] + base == base && [] + dns == dns;
    if f.V4? {
      ApplyAppends(TpRule, base, o, sets);
      ApplyAppends(DnsRedirect, dns, o[TpRule := base], sets);
      ApplyConcat(Appends(TpRule, base), Appends(DnsRedirect, dns), o, sets);
      assert o[TpRule := base][DnsRedirect := dns] == Opened(t, base, dns);
    } else {
      ApplyAppends(DnsRedirect, dns, o, sets);
      ApplyAppends(TpRule, base, o[DnsRedirect := dns], sets);
      ApplyConcat(Appends(DnsRedirect, dns), Appends(TpRule, base), o, sets);
      assert o[DnsRedirect := dns][TpRule := base] == Opened(t, base, dns);
    }
  }

  lemma {:induction false} ApplyBefore(f: Family, cfg: Config, t: NatTable.Table, sets: Sets)
    requires forall c | Own(c) :: c !in t
    ensures Apply(Before(f, cfg), t, sets) == Some(Opened(t, BaseRules(f, cfg), DnsRules(TO_DNS)))
  {
    PlainReturns(Reserved(f));
    PlainOthers(cfg.interfaces, TO_DNS);
    ApplyBeforeWith(f, ReturnsTo(Reserved(f)) + [ReturnMarked], IfaceRules(cfg.interfaces), DnsRules(TO_DNS), t,
        sets);
  }

  lemma {:induction false} ApplyBeforeWith(f: Family, base: seq<Rule>, ifs: seq<Rule>, dns: seq<Rule>,
                                           t: NatTable.Table, sets: Sets)
    requires forall c | Own(c) :: c !in t
    requires Plain(base) && Plain(ifs) && Plain(dns)
    ensures Apply(NewChains + Fill(f, base, dns) + Appends(TpRule, ifs), t, sets) == Some(Opened(t, base + ifs, dns))
  {
    ApplyNews(t, sets);
    ApplyFill(f, base, dns, t, sets);
    ApplyConcat(NewChains, Fill(f, base, dns), t, sets);
    ApplyAppends(TpRule, ifs, Opened(t, base, dns), sets);
    ApplyConcat(NewChains + Fill(f, base, dns), Appends(TpRule, ifs), t, sets);
    assert Opened(t, base, dns)[TpRule := base + ifs] == Opened(t, base + ifs, dns);
  }

  lemma {:induction false} ApplyJumpIn(t: NatTable.Table, t3: NatTable.Table, sets: Sets)
    requires {Prerouting, Output, TpOut, TpPre, TpRule} <= t.Keys
    requires t3 == t[TpRule := t[TpRule] + [TcpRedirect]][Prerouting := [TcpToTpPre] + t[Prerouting]]
                    [Output := [TcpToTpOut] + t[Output]]
    ensures Apply(JumpIn, t, sets) == Some(t3)
  {
    var t1 := t[TpRule := t[TpRule] + [TcpRedirect]];
    var t2 := t1[Prerouting := [TcpToTpPre] + t[Prerouting]];
    assert Step(JumpIn[0], t, sets) == Some(t1);
    Two(JumpIn[1], JumpIn[2], t1, t2, t3, sets);
    assert JumpIn[1..] == [JumpIn[1], JumpIn[2]];
  }

  lemma {:induction false} ApplyJumpOn(t: NatTable.Table, t2: NatTable.Table, sets: Sets)
    requires {TpOut, TpPre, TpRule} <= t.Keys && t[TpPre] == [] && t[TpOut] == []
    requires t2 == t[TpPre := [ToTpRule]][TpOut := [ToTpRule]]
    ensures Apply(JumpOn, t, sets) == Some(t2)
  {
    var none: seq<Rule> := [];
    assert none + [ToTpRule] == [ToTpRule];
    Two(JumpOn[0], JumpOn[1], t, t[TpPre := [ToTpRule]], t2, sets);
    assert JumpOn == [JumpOn[0], JumpOn[1]];
  }

  lemma {:induction false} ApplyAfter(rules: seq<Rule>, dns: seq<Rule>, t: NatTable.Table, sets: Sets)
    requires Prerouting in t && Output in t
    ensures Apply(After(), Opened(t, rules, dns), sets) == Some(Installed(t, rules, dns))
  {
    var o := Opened(t, rules, dns);
    var t1 := o[TpRule := rules + [TcpRedirect]];
    var t2 := t1[Prerouting := [TcpToTpPre] + t[Prerouting]];
    var t3 := t2[Output := [TcpToTpOut] + t[Output]];
    var t5 := t3[TpPre := [ToTpRule]][TpOut := [ToTpRule]];
    ApplyJumpIn(o, t3, sets);
    ApplyJumpOn(t3, t5, sets);
    ApplyDns(t5, sets);
    ApplyConcat(JumpIn, JumpOn, o, sets);
    ApplyConcat(JumpIn + JumpOn, JumpDns, o, sets);
    InstalledIs(t, rules, dns, t5);
  }

  /** The jumps of DNS in front of the general ones. */
  lemma {:induction false} InstalledIs(t: NatTable.Table, rules: seq<Rule>, dns: seq<Rule>, t5: NatTable.Table)
    requires Prerouting in t && Output in t
    requires t5 == Opened(t, rules, dns)[TpRule := rules + [TcpRedirect]][Prerouting := [TcpToTpPre] + t[Prerouting]]
                   [Output := [TcpToTpOut] + t[Output]][TpPre := [ToTpRule]][TpOut := [ToTpRule]]
    ensures t5[Prerouting := [TcpDns, UdpDns] + t5[Prerouting]][Output := [TcpDns, UdpDns] + t5[Output]] ==
            Installed(t, rules, dns)
  {
    assert [TcpDns, UdpDns] + t5[Prerouting] == [TcpDns, UdpDns, TcpToTpPre] + t[Prerouting];
    assert [TcpDns, UdpDns] + t5[Output] == [TcpDns, UdpDns, TcpToTpOut] + t[Output];
  }

  lemma {:induction false} ApplyDns(t: NatTable.Table, sets: Sets)
    requires {Prerouting, Output, DnsRedirect} <= t.Keys
    ensures Apply(JumpDns, t, sets) ==
            Some(t[Prerouting := [TcpDns, UdpDns] + t[Prerouting]][Output := [TcpDns, UdpDns] + t[Output]])
  {
    var pre, out := [TcpDns, UdpDns] + t[Prerouting], [TcpDns, UdpDns] + t[Output];
    var t2 := t[Prerouting := pre];
    assert [TcpDns] + ([UdpDns] + t[Prerouting]) == pre && [TcpDns] + ([UdpDns] + t[Output]) == out;
    assert t[Prerouting := [UdpDns] + t[Prerouting]][Prerouting := pre] == t2;
    assert t2[Output := [UdpDns] + t[Output]][Output := out] == t2[Output := out];
    Two(JumpDns[0], JumpDns[1], t, t[Prerouting := [UdpDns] + t[Prerouting]], t2, sets);
    Two(JumpDns[2], JumpDns[3], t2, t2[Output := [UdpDns] + t[Output]], t2[Output := out], sets);
    ApplyConcat([JumpDns[0], JumpDns[1]], [JumpDns[2], JumpDns[3]], t, sets);
    assert JumpDns == [JumpDns[0], JumpDns[1]] + [JumpDns[2], JumpDns[3]];
  }

  // ------------------------------------------------------------- the whitelist

  ghost predicate SomeApplies(rules: seq<Rule>, p: Packet, sets: Sets)
  {
    exists r | r in rules :: Applies(r, p, sets)
  }

  /** `whites` are RETURN rules that together match exactly the destinations in `cidrs`. */
  ghost predicate Means(whites: seq<Rule>, cidrs: seq<Cidr>, sets: Sets)
  {
    && (forall r | r in whites :: r.target == Return && SetsOf(r) <= sets.Keys)
    && forall p: Packet :: SomeApplies(whites, p, sets) <==> InSome(p.dst, cidrs)
  }

  /** What a whitelist step that reports success may have done. */
  ghost predicate Whitelisted(f: Family, cidrs: seq<Cidr>, w: World, w': World, whites: seq<Rule>)
    requires TpRule in w.Table(f)
  {
    && w'.Table(f) == w.Table(f)[TpRule := w.Table(f)[TpRule] + whites]
    && w'.Table(OtherFamily(f)) == w.Table(OtherFamily(f))
    && SetsKept(f, w.sets, w'.sets)
    && (forall r | r in whites :: SetsOf(r) <= {SetName(f)})
    && Means(whites, cidrs, w'.sets)
  }

  ghost predicate SetsKept(f: Family, sets: Sets, sets': Sets)
  {
    sets' - {SetName(f)} == sets - {SetName(f)}
  }

  lemma {:induction false} AppliesOne(m: Match, target: Target, p: Packet, sets: Sets)
    ensures Applies(Rule([m], target), p, sets) == Holds(m, p, sets)
  {
    assert m in [m];
  }

  lemma {:induction false} AppliesTwo(m: Match, n: Match, target: Target, p: Packet, sets: Sets)
    ensures Applies(Rule([m, n], target), p, sets) == (Holds(m, p, sets) && Holds(n, p, sets))
  {
    assert m in [m, n] && n in [m, n];
  }

  lemma {:induction false} PerCidr(cidrs: seq<Cidr>, p: Packet, sets: Sets)
    ensures SomeApplies(ReturnsTo(cidrs), p, sets) <==> InSome(p.dst, cidrs)
  {
    if InSome(p.dst, cidrs) {
      var c :| c in cidrs && InCidr(p.dst, c);
      var i :| 0 <= i < |cidrs| && cidrs[i] == c;
      NetworkSame(p.dst, c);
      InNetIs(p.dst, c);
      AppliesOne(Dest(Network(c)), Return, p, sets);
      assert ReturnsTo(cidrs)[i] == ReturnTo(c);
      assert ReturnTo(c) in ReturnsTo(cidrs);
    }
    if SomeApplies(ReturnsTo(cidrs), p, sets) {
      var r :| r in ReturnsTo(cidrs) && Applies(r, p, sets);
      var i :| 0 <= i < |cidrs| && ReturnsTo(cidrs)[i] == r;
      NetworkSame(p.dst, cidrs[i]);
      InNetIs(p.dst, cidrs[i]);
      AppliesOne(Dest(Network(cidrs[i])), Return, p, sets);
      assert cidrs[i] in cidrs;
    }
  }

  lemma {:induction false} PerCidrMeans(cidrs: seq<Cidr>, sets: Sets)
    ensures Means(ReturnsTo(cidrs), cidrs, sets)
    ensures forall r | r in ReturnsTo(cidrs) :: SetsOf(r) == {}
  {
    forall p: Packet
      ensures SomeApplies(ReturnsTo(cidrs), p, sets) <==> InSome(p.dst, cidrs)
    {
      PerCidr(cidrs, p, sets);
    }
  }

  lemma {:induction false} SetMeans(f: Family, cidrs: seq<Cidr>, sets: Sets)
    requires SetName(f) in sets && sets[SetName(f)] == set c | c in cidrs :: Network(c)
    ensures Means([MatchSetRule(f)], cidrs, sets)
    ensures SetsOf(MatchSetRule(f)) == {SetName(f)}
  {
    var r := MatchSetRule(f);
    assert r.matches[0] in r.matches;
    assert SetsOf(r) == {SetName(f)};
    forall p: Packet
      ensures SomeApplies([r], p, sets) <==> InSome(p.dst, cidrs)
    {
      assert r in [r];
      AppliesOne(InSet(SetName(f)), Return, p, sets);
      if InSome(p.dst, cidrs) {
        var c :| c in cidrs && InCidr(p.dst, c);
        NetworkSame(p.dst, c);
        InNetIs(p.dst, c);
        assert Network(c) in sets[SetName(f)];
      }
      if SomeApplies([r], p, sets) {
        var n :| n in sets[SetName(f)] && InNet(p.dst, n);
        var c :| c in cidrs && Network(c) == n;
        NetworkSame(p.dst, c);
        InNetIs(p.dst, c);
      }
    }
  }

  lemma {:induction false} RestoredKeeps(f: Family, cidrs: seq<Cidr>, env: Env, w: World)
    ensures var w1 := RestoredSet(SetName(f), cidrs, env.setLines, w);
            && w1.nat4 == w.nat4 && w1.nat6 == w.nat6 && SetsKept(f, w.sets, w1.sets)
            && SetsKept(f, w.sets, Destroyed(SetName(f), w1).sets)
  {}

  /** Whichever of the three forms was used, and after any fallback: the same destinations return. */
  lemma {:induction false} WhitelistFormsAgree(f: Family, cidrs: seq<Cidr>, env: Env, w: World)
    returns (whites: seq<Rule>)
    requires TpRule in w.Table(f) && RunWhitelist(f, cidrs, env, w).1
    ensures Whitelisted(f, cidrs, w, RunWhitelist(f, cidrs, env, w).0, whites)
  {
    RestoredKeeps(f, cidrs, env, w);
    var w1 := if env.ipset then RestoredSet(SetName(f), cidrs, env.setLines, w) else w;
    var matched := ExecLine(Nat(f, Append(TpRule, MatchSetRule(f))), w1);
    if env.ipset && env.setLines >= 2 + |cidrs| && env.matchOk && matched.Some? {
      whites := [MatchSetRule(f)];
      assert cidrs[..|cidrs|] == cidrs;
      SetMeans(f, cidrs, w1.sets);
    } else {
      whites := ReturnsTo(cidrs);
      var w2 := if env.ipset && env.destroyOk then Destroyed(SetName(f), w1) else w1;
      PerCidrMeans(cidrs, w2.sets);
      if !(env.restoreTool && env.restoreOk) { PerLineTable(f, cidrs, env.budget, w2); }
    }
  }

  /** One rule per CIDR, all of them appended. */
  lemma {:induction false} PerLineTable(f: Family, cidrs: seq<Cidr>, budget: nat, w: World)
    requires TpRule in w.Table(f) && RunStop(PerLine(f, cidrs), budget, w).1
    ensures RunStop(PerLine(f, cidrs), budget, w).0
        == w.With(f, w.Table(f)[TpRule := w.Table(f)[TpRule] + ReturnsTo(cidrs)])
  {
    RunStopAll(PerLine(f, cidrs), budget, w);
    RunLines(f, Appends(TpRule, ReturnsTo(cidrs)), w);
    PlainReturns(cidrs);
    ApplyAppends(TpRule, ReturnsTo(cidrs), w.Table(f), w.sets);
  }

  // ---------------------------------------------------------------- the verdict

  ghost predicate Exempt(f: Family, cfg: Config, p: Packet)
  {
    ReservedAddress(f, p.dst) || OnSome(cfg.interfaces, p) || InSome(p.dst, cfg.White(f))
  }

  predicate IsDns(p: Packet) { (p.proto == Tcp || p.proto == Udp) && p.dport == 53 }

  /** What the design promises for a packet that used to get `before` from this hook. */
  function Promised(exempt: bool, dnsPort: nat, p: Packet, before: Outcome): Outcome
  {
    if Marked(p) then before
    else if IsDns(p) then Stop(Redirected(dnsPort))
    else if p.proto == Tcp && !exempt then Stop(Redirected(52345))
    else before
  }

  lemma {:induction false} IfacesMean(ifaces: seq<string>, p: Packet, sets: Sets)
    ensures SomeApplies(IfaceRules(ifaces), p, sets) <==> OnSome(ifaces, p)
  {
    if OnSome(ifaces, p) { IfacesApply(ifaces, p, sets); }
    if SomeApplies(IfaceRules(ifaces), p, sets) {
      var rules, n := IfaceRules(ifaces), |ifaces|;
      var r :| r in rules && Applies(r, p, sets);
      var i :| 0 <= i < |rules| && rules[i] == r;
      var j := if i < n then i else i - n;
      IfaceRule(ifaces, j, p, sets);
      assert ifaces[j] in ifaces;
    }
  }

  lemma {:induction false} IfacesApply(ifaces: seq<string>, p: Packet, sets: Sets)
    requires OnSome(ifaces, p)
    ensures SomeApplies(IfaceRules(ifaces), p, sets)
  {
    var rules, n := IfaceRules(ifaces), |ifaces|;
    var v :| v in ifaces && (Covers(v, p.inIface) || Covers(v, p.outIface));
    var i :| 0 <= i < n && ifaces[i] == v;
    IfaceRule(ifaces, i, p, sets);
    if Applies(rules[i], p, sets) { assert rules[i] in rules; } else { assert rules[n + i] in rules; }
  }

  lemma {:induction false} IfaceRule(ifaces: seq<string>, i: nat, p: Packet, sets: Sets)
    requires i < |ifaces|
    ensures |IfaceRules(ifaces)| == 2 * |ifaces|
    ensures Applies(IfaceRules(ifaces)[i], p, sets) == Covers(ifaces[i], p.inIface)
    ensures Applies(IfaceRules(ifaces)[|ifaces| + i], p, sets) == Covers(ifaces[i], p.outIface)
  {
    PatternCovers(ifaces[i], p.inIface);
    PatternCovers(ifaces[i], p.outIface);
    AppliesOne(InIface(Pattern(ifaces[i])), Return, p, sets);
    AppliesOne(OutIface(Pattern(ifaces[i])), Return, p, sets);
  }

  lemma {:induction false} SomeConcat(a: seq<Rule>, b: seq<Rule>, p: Packet, sets: Sets)
    ensures SomeApplies(a + b, p, sets) <==> SomeApplies(a, p, sets) || SomeApplies(b, p, sets)
  {
    assert forall r | r in a :: r in a + b;
    assert forall r | r in b :: r in a + b;
  }

  /** TP_RULE up to its last rule returns exactly the marked and the exempt packets. */
  lemma {:induction false} RulesMean(f: Family, cfg: Config, whites: seq<Rule>, p: Packet, sets: Sets)
    requires Means(whites, cfg.White(f), sets)
    ensures forall r | r in BaseRules(f, cfg) + whites :: r.target == Return
    ensures SomeApplies(BaseRules(f, cfg) + whites, p, sets) <==> Marked(p) || Exempt(f, cfg, p)
  {
    MarkedIs(p);
    ReservedIs(f, p.dst);
    var nets := ReturnsTo(Reserved(f));
    var ifs := IfaceRules(cfg.interfaces);
    PerCidr(Reserved(f), p, sets);
    IfacesMean(cfg.interfaces, p, sets);
    AppliesOne(Bypass, Return, p, sets);
    assert SomeApplies([ReturnMarked], p, sets) == Marked(p) by { assert ReturnMarked in [ReturnMarked]; }
    SomeConcat(nets, [ReturnMarked], p, sets);
    SomeConcat(nets + [ReturnMarked], ifs, p, sets);
    SomeConcat(BaseRules(f, cfg), whites, p, sets);
  }

  function NewRank(rank: Ranks): Ranks
  {
    (map c | c in rank.Keys :: rank[c] + 2)[TpRule := 0][DnsRedirect := 0][TpPre := 1][TpOut := 1]
  }

  lemma {:induction false} InstalledRanked(t: NatTable.Table, sets: Sets, rank: Ranks, rules: seq<Rule>, dns: seq<Rule>)
    requires Untouched(t, sets) && Ranked(t, rank)
    requires (forall r | r in rules :: !r.target.Jump?) && (forall r | r in dns :: !r.target.Jump?)
    ensures Ranked(Installed(t, rules, dns), NewRank(rank))
  {
    var t', k := Installed(t, rules, dns), NewRank(rank);
    forall c | c in t'
      ensures JumpsBelow(t'[c], t', k, k[c])
    {
      if !Own(c) {
        assert c in t && JumpsBelow(t[c], t, rank, rank[c]);
        forall r | r in t[c] && r.target.Jump?
          ensures r.target.chain in t' && k[r.target.chain] < k[c]
        {
          assert !Own(r.target.chain);
        }
      }
    }
  }

  lemma {:induction false} WalkSingle(r: Rule, p: Packet, t: NatTable.Table, sets: Sets, rank: Ranks, bound: nat)
    requires Ranked(t, rank) && JumpsBelow([r], t, rank, bound)
    ensures Walk([r], p, t, sets, rank, bound) ==
            if !Applies(r, p, sets) then FellThrough
            else match r.target
              case Return => Returned
              case Redirect(port) => Stop(Redirected(port))
              case Final(id) => Stop(Decided(id))
              case Pass(_) => FellThrough
              case Jump(c) => assert r in [r]; var inner := Walk(t[c], p, t, sets, rank, rank[c]);
                              if inner.Stop? then inner else FellThrough
  {
    assert r in [r];
    assert [r][1..] == [];
  }

  lemma {:induction false} TpRuleWalk(rules: seq<Rule>, p: Packet, t: NatTable.Table, sets: Sets, rank: Ranks,
                                      bound: nat)
    requires Ranked(t, rank) && JumpsBelow(rules + [TcpRedirect], t, rank, bound)
    requires forall r | r in rules :: r.target == Return
    ensures Walk(rules + [TcpRedirect], p, t, sets, rank, bound) ==
            if SomeApplies(rules, p, sets) then Returned
            else if p.proto == Tcp then Stop(Redirected(52345)) else FellThrough
  {
    WalkConcat(rules, [TcpRedirect], p, t, sets, rank, bound);
    WalkReturns(rules, p, t, sets, rank, bound);
    AppliesOne(Protocol(Tcp), Redirect(TO_PROXY), p, sets);
    WalkSingle(TcpRedirect, p, t, sets, rank, bound);
  }

  lemma {:induction false} DnsWalk(port: nat, p: Packet, t: NatTable.Table, sets: Sets, rank: Ranks, bound: nat)
    requires Ranked(t, rank) && JumpsBelow(DnsRules(port), t, rank, bound)
    ensures Walk(DnsRules(port), p, t, sets, rank, bound) ==
            if Marked(p) then Returned
            else if p.proto == Tcp || p.proto == Udp then Stop(Redirected(port)) else FellThrough
  {
    MarkedIs(p);
    var tcp, udp := Rule([Protocol(Tcp)], Redirect(port)), Rule([Protocol(Udp)], Redirect(port));
    assert DnsRules(port) == [ReturnMarked] + ([tcp] + [udp]);
    WalkConcat([ReturnMarked], [tcp] + [udp], p, t, sets, rank, bound);
    WalkConcat([tcp], [udp], p, t, sets, rank, bound);
    AppliesOne(Bypass, Return, p, sets);
    AppliesOne(Protocol(Tcp), Redirect(port), p, sets);
    AppliesOne(Protocol(Udp), Redirect(port), p, sets);
    WalkSingle(ReturnMarked, p, t, sets, rank, bound);
    WalkSingle(tcp, p, t, sets, rank, bound);
    WalkSingle(udp, p, t, sets, rank, bound);
  }

  /** One hook of a table that holds the installed chains; `last` is its jump to TP_PRE or TP_OUT. */
  lemma {:induction false} HookVerdict(rules: seq<Rule>, port: nat, last: Rule, original: seq<Rule>, p: Packet,
                                       t: NatTable.Table, sets: Sets, rank: Ranks, bound: nat)
    requires Ranked(t, rank) && JumpsBelow([TcpDns, UdpDns, last] + original, t, rank, bound)
    requires last in {TcpToTpPre, TcpToTpOut} && {TpRule, DnsRedirect, last.target.chain} <= t.Keys
    requires t[DnsRedirect] == DnsRules(port) && t[TpRule] == rules + [TcpRedirect]
    requires t[last.target.chain] == [ToTpRule]
    requires forall r | r in rules :: r.target == Return
    requires Marked(p) ==> SomeApplies(rules, p, sets)
    ensures JumpsBelow(original, t, rank, bound)
    ensures Walk([TcpDns, UdpDns, last] + original, p, t, sets, rank, bound) ==
            Promised(SomeApplies(rules, p, sets), port, p, Walk(original, p, t, sets, rank, bound))
  {
    var via := last.target.chain;
    assert JumpsBelow(t[via], t, rank, rank[via]) && JumpsBelow(t[TpRule], t, rank, rank[TpRule])
        && JumpsBelow(t[DnsRedirect], t, rank, rank[DnsRedirect]);
    TpRuleWalk(rules, p, t, sets, rank, rank[TpRule]);
    DnsWalk(port, p, t, sets, rank, rank[DnsRedirect]);
    assert [TcpDns, UdpDns, last] + original == [TcpDns] + ([UdpDns] + ([last] + original));
    WalkConcat([TcpDns], [UdpDns] + ([last] + original), p, t, sets, rank, bound);
    WalkConcat([UdpDns], [last] + original, p, t, sets, rank, bound);
    WalkConcat([last], original, p, t, sets, rank, bound);
    JumpWalks(last, via, p, t, sets, rank, bound);
  }

  lemma {:induction false} JumpWalks(last: Rule, via: Chain, p: Packet, t: NatTable.Table, sets: Sets, rank: Ranks,
                                     bound: nat)
    requires Ranked(t, rank) && {TpRule, DnsRedirect, via} <= t.Keys && t[via] == [ToTpRule]
    requires last == Rule([Protocol(Tcp)], Jump(via))
    requires JumpsBelow([TcpDns], t, rank, bound) && JumpsBelow([UdpDns], t, rank, bound)
    requires JumpsBelow([last], t, rank, bound)
    ensures var dns := Walk(t[DnsRedirect], p, t, sets, rank, rank[DnsRedirect]);
            var tp := Walk(t[TpRule], p, t, sets, rank, rank[TpRule]);
            && Walk([TcpDns], p, t, sets, rank, bound) ==
               (if p.proto == Tcp && p.dport == 53 && dns.Stop? then dns else FellThrough)
            && Walk([UdpDns], p, t, sets, rank, bound) ==
               (if p.proto == Udp && p.dport == 53 && dns.Stop? then dns else FellThrough)
            && Walk([last], p, t, sets, rank, bound) == (if p.proto == Tcp && tp.Stop? then tp else FellThrough)
  {
    AppliesTwo(Protocol(Tcp), DestPort(53), Jump(DnsRedirect), p, sets);
    AppliesTwo(Protocol(Udp), DestPort(53), Jump(DnsRedirect), p, sets);
    AppliesOne(Protocol(Tcp), Jump(via), p, sets);
    WalkSingle(TcpDns, p, t, sets, rank, bound);
    WalkSingle(UdpDns, p, t, sets, rank, bound);
    WalkSingle(last, p, t, sets, rank, bound);
    assert JumpsBelow(t[via], t, rank, rank[via]);
    WalkSingle(ToTpRule, p, t, sets, rank, rank[via]);
  }
}
