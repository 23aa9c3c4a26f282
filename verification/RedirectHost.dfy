/** The runner as the service executes it, and the address watcher. */
module RedirectHost {
  import opened Options
  import opened NatTable
  import opened RedirectExempt
  import opened RedirectScript
  import opened RedirectMeaning
  import opened RedirectSetup
  import opened RedirectCleanup

  /** legacyRedirect.GetSetupCommands: the constant parts, and one rule per interface and direction. */
  method GetSetupCommands(cfg: Config) returns (commands: seq<Line>)
    ensures commands == SetupScript(cfg)
  {
    commands := Lines(V4, NewChains + Fill(V4, ReturnsTo(Reserved(V4)) + [ReturnMarked], DnsRules(TO_DNS)));
    var ifaces := AppendInterfaces(V4, cfg.interfaces);
    LinesConcat(V4, NewChains + Fill(V4, ReturnsTo(Reserved(V4)) + [ReturnMarked], DnsRules(TO_DNS)),
                Appends(TpRule, IfaceRules(cfg.interfaces)));
    commands := commands + ifaces + [Marker(V4)] + Lines(V4, After());
    if cfg.ipv6 {
      var half := Lines(V6, NewChains + Fill(V6, ReturnsTo(Reserved(V6)) + [ReturnMarked], DnsRules(TO_DNS)));
      var ifaces6 := AppendInterfaces(V6, cfg.interfaces);
      LinesConcat(V6, NewChains + Fill(V6, ReturnsTo(Reserved(V6)) + [ReturnMarked], DnsRules(TO_DNS)),
                  Appends(TpRule, IfaceRules(cfg.interfaces)));
      commands := commands + (half + ifaces6 + [Marker(V6)] + Lines(V6, After()));
    } else {
      commands := commands + [];
    }
  }

  lemma {:induction false} LinesConcat(f: Family, a: seq<Command>, b: seq<Command>)
    ensures Lines(f, a + b) == Lines(f, a) + Lines(f, b)
  {}

  method AppendInterfaces(f: Family, interfaces: seq<string>) returns (lines: seq<Line>)
    ensures lines == Lines(f, Appends(TpRule, IfaceRules(interfaces)))
  {
    var n := |interfaces|;
    ghost var all := Lines(f, Appends(TpRule, IfaceRules(interfaces)));
    lines := [];
    for i := 0 to n
      invariant lines == all[..i]
    {
      lines := lines + [Nat(f, Append(TpRule, Rule([InIface(Pattern(interfaces[i]))], Return)))];
    }
    for i := 0 to n
      invariant lines == all[..n + i]
    {
      lines := lines + [Nat(f, Append(TpRule, Rule([OutIface(Pattern(interfaces[i]))], Return)))];
    }
  }

  method PerLineCommands(f: Family, cidrs: seq<Cidr>) returns (lines: seq<Line>)
    ensures lines == PerLine(f, cidrs)
  {
    lines := [];
    for i := 0 to |cidrs|
      invariant lines == PerLine(f, cidrs)[..i]
    {
      lines := lines + [Nat(f, Append(TpRule, ReturnTo(cidrs[i])))];
    }
  }

  /** newLegacyWhitelistSetter: cut the script at each family's marker in turn. */
  method NewWhitelistSetter(script: seq<Line>, white4: seq<Cidr>, white6: seq<Cidr>) returns (steps: seq<SetterStep>)
    ensures steps == Split(script, white4, white6)
  {
    var commands := script;
    steps := [];
    var families := [V4, V6];
    for i := 0 to 2
      invariant i == 0 ==> (steps, commands) == ([], script)
      invariant i == 1 ==> (steps, commands) == CutOnce(V4, script, white4)
      invariant i == 2 ==>
        var (head, rest) := CutOnce(V4, script, white4);
        var (middle, last) := CutOnce(V6, rest, white6);
        steps == head + middle && commands == last
    {
      var family := families[i];
      var cidrs := if family.V4? then white4 else white6;
      var (cut, rest) := CutOnce(family, commands, cidrs);
      assert i == 0 ==> steps + cut == cut;
      steps, commands := steps + cut, rest;
    }
    steps := steps + [Commands(commands)];
  }

  class Host {
    var world: World

    constructor (w: World)
      ensures world == w
    {
      world := w;
    }

    method Exec(line: Line) returns (ok: bool)
      modifies this
      ensures ok == ExecLine(line, old(world)).Some?
      ensures world == if ok then ExecLine(line, old(world)).value else old(world)
    {
      var r := ExecLine(line, world);
      ok := r.Some?;
      if ok { world := r.value; }
    }

    /** ExecCommands. The lines in `refused` are refused from outside. */
    method ExecCommands(lines: seq<Line>, stopWhenError: bool, refused: set<nat>) returns (failed: bool)
      modifies this
      ensures stopWhenError ==> (world, !failed) == RunStop(lines, Budget(refused, |lines|), old(world))
      ensures !stopWhenError ==> (world, !failed) == RunPast(lines, refused, 0, old(world))
      ensures !stopWhenError && refused == {} ==> world == RunIgnoring(lines, old(world))
    {
      failed := false;
      RunPastIs(lines, 0, world);
      assert lines[0..] == lines;
      ghost var budget := Budget(refused, |lines|);
      for i := 0 to |lines|
        invariant stopWhenError ==>
          !failed && i <= budget && RunStop(lines[i..], budget - i, world) == RunStop(lines, budget, old(world))
        invariant !stopWhenError ==>
          var (w, ok) := RunPast(lines, refused, i, world); (w, ok && !failed) == RunPast(lines, refused, 0, old(world))
      {
        assert lines[i..][1..] == lines[i + 1..];
        var ok := false;
        if i !in refused { ok := Exec(lines[i]); }
        if !ok {
          failed := true;
          if stopWhenError { return; }
        }
      }
    }

    /** legacyWhitelist.run. */
    method RunWhitelist(f: Family, cidrs: seq<Cidr>, env: Env, stopAtError: bool) returns (ok: bool)
      modifies this
      ensures (world, ok) == if stopAtError then RunStep(Whitelist(f, cidrs), env, old(world))
                             else RunStepPast(Whitelist(f, cidrs), env, old(world))
    {
      ok := RunFast(f, cidrs, env);
      if ok { return; }
      var lines := PerLineCommands(f, cidrs);
      BudgetFrom(lines, env.budget, world);
      var failed := ExecCommands(lines, stopAtError, From(env.budget, |lines|));
      ok := !failed;
    }

    method RunFast(f: Family, cidrs: seq<Cidr>, env: Env) returns (ok: bool)
      modifies this
      ensures (world, ok) == RedirectScript.RunFast(f, cidrs, env, old(world))
    {
      if env.ipset {
        world := RestoredSet(SetName(f), cidrs, env.setLines, world);
        if env.setLines >= 2 + |cidrs| && env.matchOk {
          ok := Exec(Nat(f, Append(TpRule, MatchSetRule(f))));
          if ok { return; }
        }
        if env.destroyOk { world := Destroyed(SetName(f), world); }
      }
      ok := env.restoreTool && env.restoreOk && TpRule in world.Table(f);
      if ok { world := world.With(f, world.Table(f)[TpRule := world.Table(f)[TpRule] + ReturnsTo(cidrs)]); }
    }

    method RunOne(step: SetterStep, env: Env, stopAtError: bool) returns (ok: bool)
      modifies this
      ensures (world, ok) == if stopAtError then RunStep(step, env, old(world)) else RunStepPast(step, env, old(world))
    {
      match step
      case Commands(lines) =>
        BudgetFrom(lines, env.budget, world);
        var failed := ExecCommands(lines, stopAtError, From(env.budget, |lines|));
        ok := !failed;
      case Whitelist(f, cidrs) => ok := RunWhitelist(f, cidrs, env, stopAtError);
    }

    /** Setter.run, over steps; the hooks before and after them say whether they succeed. */
    method RunSetter(steps: seq<SetterStep>, envs: seq<Env>, stopAtError: bool, before: bool, after: bool)
      returns (ok: bool)
      requires |envs| == |steps|
      modifies this
      ensures stopAtError && !before ==> world == old(world) && !ok
      ensures stopAtError && before ==>
                var (w, done) := RunSteps(steps, envs, old(world)); world == w && ok == (done && after)
      ensures !stopAtError ==>
                var (w, done) := RunStepsPast(steps, envs, old(world)); world == w && ok == (before && done && after)
    {
      ok := before;
      if stopAtError && !before { return; }
      for i := 0 to |steps|
        invariant stopAtError ==> ok && RunSteps(steps[i..], envs[i..], world) == RunSteps(steps, envs, old(world))
        invariant !stopAtError ==>
          var (w, done) := RunStepsPast(steps[i..], envs[i..], world);
          var (v, all) := RunStepsPast(steps, envs, old(world));
          w == v && (ok && done) == (before && all)
      {
        assert steps[i..][1..] == steps[i + 1..] && envs[i..][1..] == envs[i + 1..];
        var done := RunOne(steps[i], envs[i], stopAtError);
        ok := ok && done;
        if stopAtError && !ok { return; }
      }
      ok := ok && after;
    }

    /** legacyRedirect.RemoveIPWhitelist; a failing command changes nothing. */
    method RemoveIPWhitelist(f: Family, net: Cidr)
      modifies this
      ensures world == After1(WatchDelete(f, net), old(world))
    {
      var _ := Exec(Nat(f, Delete(TpRule, ReturnTo(net))));
    }

    /** legacyRedirect.AddIPWhitelist: take an equal rule out first. */
    method AddIPWhitelist(f: Family, net: Cidr)
      modifies this
      ensures world == Added(f, net, old(world))
    {
      RemoveIPWhitelist(f, net);
      var _ := Exec(Nat(f, Insert(TpRule, ReturnTo(net))));
    }
  }

  // ------------------------------------------------------------------- watcher

  function Added(f: Family, net: Cidr, w: World): World
  {
    After1(WatchInsert(f, net), After1(WatchDelete(f, net), w))
  }

  function Removed(f: Family, net: Cidr, w: World): World { After1(WatchDelete(f, net), w) }

  /** Adding an address exempts its network and keeps every other exemption. */
  lemma {:induction false} AddExempts(f: Family, net: Cidr, w: World, rules: seq<Rule>, p: Packet)
    requires TpRule in w.Table(f) && w.Table(f)[TpRule] == rules + [TcpRedirect]
    ensures var t' := Added(f, net, w).Table(f);
            && TpRule in t' && t'[TpRule] == [ReturnTo(net)] + RemoveFirst(rules, ReturnTo(net)) + [TcpRedirect]
            && (SomeApplies([ReturnTo(net)] + RemoveFirst(rules, ReturnTo(net)), p, w.sets) <==>
                SomeApplies(rules, p, w.sets) || InCidr(p.dst, net))
  {
    var r := ReturnTo(net);
    RemoveBefore(rules, TcpRedirect, r);
    if r !in w.Table(f)[TpRule] { RemoveAbsent(w.Table(f)[TpRule], r); }
    var rest := RemoveFirst(rules, r);
    assert [r] + (rest + [TcpRedirect]) == [r] + rest + [TcpRedirect];
    NetworkSame(p.dst, net);
    InNetIs(p.dst, net);
    AppliesOne(Dest(Network(net)), Return, p, w.sets);
    SomeConcat([r], rest, p, w.sets);
    assert SomeApplies([r], p, w.sets) == Applies(r, p, w.sets) by { assert r in [r]; }
    RemoveFirstIn(rules, r);
    RemoveFirstOut(rules, r);
  }

  lemma {:induction false} RemoveBefore(rules: seq<Rule>, last: Rule, r: Rule)
    requires last != r
    ensures RemoveFirst(rules + [last], r) == RemoveFirst(rules, r) + [last]
    decreases |rules|
  {
    if rules == [] {
      assert rules + [last] == [last] && [last][1..] == [];
    } else {
      assert (rules + [last])[1..] == rules[1..] + [last];
      RemoveBefore(rules[1..], last, r);
    }
  }

  lemma RemoveFirstOut(s: seq<Rule>, r: Rule)
    ensures forall x | x in s && x != r :: x in RemoveFirst(s, r)
  {}

  /**
   An address that comes and goes takes the first equal rule of TP_RULE with it. The table is as
   before exactly when TP_RULE held no equal rule; otherwise one RETURN is lost.
   */
  lemma {:induction false} AddThenRemove(f: Family, net: Cidr, w: World)
    requires TpRule in w.Table(f)
    ensures var t, t' := w.Table(f), Removed(f, net, Added(f, net, w)).Table(f);
            && t' == t[TpRule := RemoveFirst(t[TpRule], ReturnTo(net))]
            && (t' == t <==> ReturnTo(net) !in t[TpRule])
  {
    var t, r := w.Table(f), ReturnTo(net);
    AddedTable(f, net, w);
    var rest := RemoveFirst(t[TpRule], r);
    RemovedTable(f, net, Added(f, net, w));
    assert ([r] + rest)[1..] == rest;
    assert RemoveFirst([r] + rest, r) == rest;
    assert t[TpRule := [r] + rest][TpRule := rest] == t[TpRule := rest];
    if r in t[TpRule] { RemoveShortens(t[TpRule], r); } else { RemoveAbsent(t[TpRule], r); }
  }

  lemma {:induction false} RemovedTable(f: Family, net: Cidr, w: World)
    requires TpRule in w.Table(f)
    ensures Removed(f, net, w).Table(f) == w.Table(f)[TpRule := RemoveFirst(w.Table(f)[TpRule], ReturnTo(net))]
  {
    var s := w.Table(f)[TpRule];
    if ReturnTo(net) !in s { RemoveAbsent(s, ReturnTo(net)); }
  }

  lemma {:induction false} AddedTable(f: Family, net: Cidr, w: World)
    requires TpRule in w.Table(f)
    ensures Added(f, net, w).Table(f) ==
            w.Table(f)[TpRule := [ReturnTo(net)] + RemoveFirst(w.Table(f)[TpRule], ReturnTo(net))]
  {
    RemovedTable(f, net, w);
    assert Added(f, net, w) == After1(WatchInsert(f, net), Removed(f, net, w));
  }

  lemma RemoveShortens(s: seq<Rule>, r: Rule)
    requires r in s
    ensures |RemoveFirst(s, r)| == |s| - 1
  {}

  /** 10.0.0.5/8 on an interface is, once masked, the reserved range 10.0.0.0/8. */
  lemma {:induction false} InterfaceAddressIsReserved(cfg: Config)
    ensures ReturnTo(Cidr(0x0a00_0005, 24)) in BaseRules(V4, cfg)
  {
    SizeIs(1, 8);
    assert Network(Cidr(0x0a00_0005, 24)) == Network(Reserved4[1]);
    assert ReturnsTo(Reserved(V4))[1] == ReturnTo(Reserved4[1]);
    assert BaseRules(V4, cfg)[1] == ReturnTo(Reserved4[1]);
  }
}
