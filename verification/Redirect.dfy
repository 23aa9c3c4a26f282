/**
 The redirect-mode firewall script of v2rayA for legacy iptables, the whitelist that is
 spliced into it, and the runner that executes both. A command can also fail for reasons the
 table does not show (a missing module, a held lock): an `Env` says, per step, which
 invocations the outside world lets through, so every way a setup can go is some `Env`.
 */
module RedirectScript {
  import opened Options
  import opened NatTable

  datatype Family = V4 | V6

  datatype World = World(nat4: Table, nat6: Table, sets: Sets) {
    function Table(f: Family): NatTable.Table { if f.V4? then nat4 else nat6 }
    function With(f: Family, t: NatTable.Table): World { if f.V4? then this.(nat4 := t) else this.(nat6 := t) }
  }

  /** What the script depends on: configuration and host support, all parameters here. */
  datatype Config = Config(interfaces: seq<string>, white4: seq<Cidr>, white6: seq<Cidr>, ipv6: bool) {
    function White(f: Family): seq<Cidr> { if f.V4? then white4 else white6 }
  }

  datatype Line = Nat(family: Family, command: Command) | DestroySet(name: string) | Marker(family: Family)
  datatype SetterStep = Commands(lines: seq<Line>) | Whitelist(family: Family, cidrs: seq<Cidr>)

  datatype Env = Env(
    budget: nat,          // commands of this step that succeed before one is refused from outside
    ipset: bool,          // the ipset binary exists
    setLines: nat,        // lines of `ipset restore` that are accepted
    matchOk: bool,        // the kernel has xt_set
    destroyOk: bool,
    restoreTool: bool,    // ip(6)tables-restore exists
    restoreOk: bool)

  // ------------------------------------------------------------------- rules

  const Reserved4: seq<Cidr> := [
    Cidr(0x0, 0), // 0.0.0.0/32
    Cidr(0xa00_0000, 24), // 10.0.0.0/8
    Cidr(0x6440_0000, 22), // 100.64.0.0/10
    Cidr(0x7f00_0000, 24), // 127.0.0.0/8
    Cidr(0xa9fe_0000, 16), // 169.254.0.0/16
    Cidr(0xac10_0000, 20), // 172.16.0.0/12
    Cidr(0xc000_0000, 8), // 192.0.0.0/24
    Cidr(0xc000_0200, 8), // 192.0.2.0/24
    Cidr(0xc058_6300, 8), // 192.88.99.0/24
    Cidr(0xc0a8_0000, 16), // 192.168.0.0/16
    Cidr(0xc612_0000, 17), // 198.18.0.0/15
    Cidr(0xc633_6400, 8), // 198.51.100.0/24
    Cidr(0xcb00_7100, 8), // 203.0.113.0/24
    Cidr(0xe000_0000, 28), // 224.0.0.0/4
    Cidr(0xf000_0000, 28) // 240.0.0.0/4
  ]

  const Reserved6: seq<Cidr> := [
    Cidr(0x0, 0), // ::/128
    Cidr(0x1, 0), // ::1/128
    Cidr(0x64_ff9b_0000_0000_0000_0000_0000_0000, 32), // 64:ff9b::/96
    Cidr(0x100_0000_0000_0000_0000_0000_0000_0000, 64), // 100::/64
    Cidr(0x2001_0000_0000_0000_0000_0000_0000_0000, 96), // 2001::/32
    Cidr(0x2001_0020_0000_0000_0000_0000_0000_0000, 100), // 2001:20::/28
    Cidr(0x2001_0db8_0000_0000_0000_0000_0000_0000, 96), // 2001:db8::/32
    Cidr(0x2002_0000_0000_0000_0000_0000_0000_0000, 112), // 2002::/16
    Cidr(0xfc00_0000_0000_0000_0000_0000_0000_0000, 121), // fc00::/7
    Cidr(0xfe80_0000_0000_0000_0000_0000_0000_0000, 118), // fe80::/10
    Cidr(0xff00_0000_0000_0000_0000_0000_0000_0000, 120) // ff00::/8
  ]

  function Reserved(f: Family): seq<Cidr> { if f.V4? then Reserved4 else Reserved6 }

  function ReturnTo(c: Cidr): Rule { Rule([Dest(Network(c))], Return) }

  function ReturnsTo(cs: seq<Cidr>): seq<Rule> { seq(|cs|, i requires 0 <= i < |cs| => ReturnTo(cs[i])) }

  /** `strings.ReplaceAll(v, "*", "+")` */
  function Pattern(v: string): string
  {
    seq(|v|, i requires 0 <= i < |v| => if v[i] == '*' then '+' else v[i])
  }

  function IfaceRules(ifaces: seq<string>): seq<Rule>
  {
    seq(|ifaces|, i requires 0 <= i < |ifaces| => Rule([InIface(Pattern(ifaces[i]))], Return)) +
    seq(|ifaces|, i requires 0 <= i < |ifaces| => Rule([OutIface(Pattern(ifaces[i]))], Return))
  }

  const ReturnMarked := Rule([Bypass], Return)
  const ToTpRule := Rule([], Jump(TpRule))
  const TcpToTpPre := Rule([Protocol(Tcp)], Jump(TpPre))
  const TcpToTpOut := Rule([Protocol(Tcp)], Jump(TpOut))
  const UdpDns := Rule([Protocol(Udp), DestPort(53)], Jump(DnsRedirect))
  const TcpDns := Rule([Protocol(Tcp), DestPort(53)], Jump(DnsRedirect))
  const TcpRedirect := Rule([Protocol(Tcp)], Redirect(TO_PROXY))

  function DnsRules(port: nat): seq<Rule>
  {
    [ReturnMarked, Rule([Protocol(Tcp)], Redirect(port)), Rule([Protocol(Udp)], Redirect(port))]
  }

  function BaseRules(f: Family, cfg: Config): seq<Rule>
  {
    ReturnsTo(Reserved(f)) + [ReturnMarked] + IfaceRules(cfg.interfaces)
  }

  // ----------------------------------------------------------------- scripts

  function Lines(f: Family, cmds: seq<Command>): seq<Line>
  {
    seq(|cmds|, i requires 0 <= i < |cmds| => Nat(f, cmds[i]))
  }

  function Appends(c: Chain, rules: seq<Rule>): seq<Command>
  {
    seq(|rules|, i requires 0 <= i < |rules| => Append(c, rules[i]))
  }

  const NewChains: seq<Command> := [New(TpOut), New(TpPre), New(TpRule), New(DnsRedirect)]

  /** The IPv6 half writes the DNS chain before TP_RULE, the IPv4 half after. */
  function Fill(f: Family, base: seq<Rule>, dns: seq<Rule>): seq<Command>
  {
    if f.V4? then Appends(TpRule, base) + Appends(DnsRedirect, dns)
    else Appends(DnsRedirect, dns) + Appends(TpRule, base)
  }

  function Before(f: Family, cfg: Config): seq<Command>
  {
    NewChains + Fill(f, ReturnsTo(Reserved(f)) + [ReturnMarked], DnsRules(TO_DNS)) +
    Appends(TpRule, IfaceRules(cfg.interfaces))
  }

  const JumpIn: seq<Command> :=
    [Append(TpRule, TcpRedirect), Insert(Prerouting, TcpToTpPre), Insert(Output, TcpToTpOut)]
  const JumpOn: seq<Command> := [Append(TpPre, ToTpRule), Append(TpOut, ToTpRule)]

  /** Inserted last, so these end up ahead of the general jumps. */
  const JumpDns: seq<Command> :=
    [Insert(Prerouting, UdpDns), Insert(Prerouting, TcpDns), Insert(Output, UdpDns), Insert(Output, TcpDns)]

  function After(): seq<Command> { JumpIn + JumpOn + JumpDns }

  function SetupScript(cfg: Config): seq<Line>
  {
    Lines(V4, Before(V4, cfg)) + [Marker(V4)] + Lines(V4, After()) +
    (if cfg.ipv6 then Lines(V6, Before(V6, cfg)) + [Marker(V6)] + Lines(V6, After()) else [])
  }

  const CleanDns: seq<Command> :=
    [ Flush(DnsRedirect),
      Delete(Prerouting, UdpDns), Delete(Prerouting, TcpDns), Delete(Output, UdpDns), Delete(Output, TcpDns),
      Drop(DnsRedirect) ]
  const CleanOut: seq<Command> := [Flush(TpOut), Delete(Output, TcpToTpOut), Drop(TpOut)]
  const CleanPre: seq<Command> := [Flush(TpPre), Delete(Prerouting, TcpToTpPre), Drop(TpPre)]
  const CleanRule: seq<Command> := [Flush(TpRule), Drop(TpRule)]

  function CleanFamily(): seq<Command> { CleanDns + CleanOut + CleanPre + CleanRule }

  function SetName(f: Family): string { if f.V4? then "v2raya_white4" else "v2raya_white6" }

  function CleanScript(ipv6: bool): seq<Line>
  {
    Lines(V4, CleanFamily()) + (if ipv6 then Lines(V6, CleanFamily()) else []) +
    [DestroySet(SetName(V4)), DestroySet(SetName(V6))]
  }

  function PerLine(f: Family, cidrs: seq<Cidr>): seq<Line> { Lines(f, Appends(TpRule, ReturnsTo(cidrs))) }

  // --------------------------------------------------------------- execution

  predicate SetReferenced(t: NatTable.Table, name: string)
  {
    exists c, i | c in t && 0 <= i < |t[c]| :: name in SetsOf(t[c][i])
  }

  /** `ipset destroy NAME || true`: the kernel keeps a set some rule still names. */
  function Destroyed(name: string, w: World): World
  {
    if SetReferenced(w.nat4, name) || SetReferenced(w.nat6, name) then w else w.(sets := w.sets - {name})
  }

  /** A marker left in place would be handed to the shell and fail. */
  function ExecLine(l: Line, w: World): Option<World>
  {
    match l
    case Nat(f, cmd) =>
      var r := Step(cmd, w.Table(f), w.sets);
      if r.Some? then Some(w.With(f, r.value)) else None
    case DestroySet(name) => Some(Destroyed(name, w))
    case Marker(_) => None
  }

  /** ExecCommands with stopWhenError, `budget` commands being let through. */
  function RunStop(lines: seq<Line>, budget: nat, w: World): (World, bool)
  {
    if lines == [] then (w, true)
    else if budget == 0 then (w, false)
    else
      var r := ExecLine(lines[0], w);
      if r.None? then (w, false) else RunStop(lines[1..], budget - 1, r.value)
  }

  /** ExecCommands without stopWhenError. */
  function RunIgnoring(lines: seq<Line>, w: World): World
  {
    if lines == [] then w
    else
      var r := ExecLine(lines[0], w);
      RunIgnoring(lines[1..], if r.None? then w else r.value)
  }

  /** ExecCommands without stopWhenError from line `i` on, with the lines in `refused` refused from outside. */
  function RunPast(lines: seq<Line>, refused: set<nat>, i: nat, w: World): (World, bool)
    decreases |lines| - i
  {
    if i >= |lines| then (w, true)
    else
      var r := if i in refused then None else ExecLine(lines[i], w);
      var (w', ok) := RunPast(lines, refused, i + 1, if r.None? then w else r.value);
      (w', ok && r.Some?)
  }

  /** With nothing refused this is the plain run past errors. */
  lemma {:induction false} RunPastIs(lines: seq<Line>, i: nat, w: World)
    requires i <= |lines|
    ensures RunPast(lines, {}, i, w).0 == RunIgnoring(lines[i..], w)
    decreases |lines| - i
  {
    if i < |lines| {
      var r := ExecLine(lines[i], w);
      assert lines[i..][1..] == lines[i + 1..];
      RunPastIs(lines, i + 1, if r.None? then w else r.value);
    }
  }

  /** How many lines come before the first refused one. */
  function Budget(refused: set<nat>, n: nat): (b: nat)
    ensures b <= n && (forall i | 0 <= i < b :: i !in refused) && (b < n ==> b in refused)
  {
    if n == 0 then 0
    else
      var b := Budget(refused, n - 1);
      if b < n - 1 || n - 1 in refused then b else n
  }

  /** The lines after the first `budget`. */
  function From(budget: nat, n: nat): (r: set<nat>)
    ensures forall i :: i in r <==> budget <= i < n
  {
    if n <= budget then {} else From(budget, n - 1) + {n - 1}
  }

  lemma {:induction false} BudgetFrom(lines: seq<Line>, budget: nat, w: World)
    ensures RunStop(lines, Budget(From(budget, |lines|), |lines|), w) == RunStop(lines, budget, w)
  {
    var b := Budget(From(budget, |lines|), |lines|);
    if budget < |lines| {
      assert budget in From(budget, |lines|);
      assert b == budget;
    } else {
      assert From(budget, |lines|) == {};
      EnoughLeft(lines, b, budget, w);
    }
  }

  lemma {:induction false} EnoughLeft(lines: seq<Line>, a: nat, b: nat, w: World)
    requires |lines| <= a <= b
    ensures RunStop(lines, a, w) == RunStop(lines, b, w)
    decreases |lines|
  {
    if lines != [] {
      var r := ExecLine(lines[0], w);
      if r.Some? { EnoughLeft(lines[1..], a - 1, b - 1, r.value); }
    }
  }

  /** The first `n` lines of the ipset payload: create, flush, then one add per CIDR. */
  function RestoredSet(name: string, cidrs: seq<Cidr>, n: nat, w: World): World
  {
    if n == 0 then w
    else if n == 1 then (if name in w.sets then w else w.(sets := w.sets[name := {}]))
    else
      var k := if n - 2 <= |cidrs| then n - 2 else |cidrs|;
      w.(sets := w.sets[name := set c | c in cidrs[..k] :: Network(c)])
  }

  function MatchSetRule(f: Family): Rule { Rule([InSet(SetName(f))], Return) }

  /** ipset, else one atomic restore; false if neither did it. */
  function RunFast(f: Family, cidrs: seq<Cidr>, env: Env, w: World): (World, bool)
  {
    var w1 := if env.ipset then RestoredSet(SetName(f), cidrs, env.setLines, w) else w;
    var matched := ExecLine(Nat(f, Append(TpRule, MatchSetRule(f))), w1);
    if env.ipset && env.setLines >= 2 + |cidrs| && env.matchOk && matched.Some? then (matched.value, true)
    else
      var w2 := if env.ipset && env.destroyOk then Destroyed(SetName(f), w1) else w1;
      if env.restoreTool && env.restoreOk && TpRule in w2.Table(f) then
        (w2.With(f, w2.Table(f)[TpRule := w2.Table(f)[TpRule] + ReturnsTo(cidrs)]), true)
      else (w2, false)
  }

  /** legacyWhitelist.run: a fast form, else one command per CIDR. */
  function RunWhitelist(f: Family, cidrs: seq<Cidr>, env: Env, w: World): (World, bool)
  {
    var (w', done) := RunFast(f, cidrs, env, w);
    if done then (w', true) else RunStop(PerLine(f, cidrs), env.budget, w')
  }

  function RunStep(step: SetterStep, env: Env, w: World): (World, bool)
  {
    match step
    case Commands(lines) => RunStop(lines, env.budget, w)
    case Whitelist(f, cidrs) => RunWhitelist(f, cidrs, env, w)
  }

  /** A step without stopAtError. */
  function RunStepPast(step: SetterStep, env: Env, w: World): (World, bool)
  {
    match step
    case Commands(lines) => RunPast(lines, From(env.budget, |lines|), 0, w)
    case Whitelist(f, cidrs) =>
      var (w', done) := RunFast(f, cidrs, env, w);
      if done then (w', true) else RunPast(PerLine(f, cidrs), From(env.budget, |PerLine(f, cidrs)|), 0, w')
  }

  /** Setter.run without stopAtError: every step runs, and any failure is reported. */
  function RunStepsPast(steps: seq<SetterStep>, envs: seq<Env>, w: World): (World, bool)
    requires |envs| == |steps|
  {
    if steps == [] then (w, true)
    else
      var (w', ok) := RunStepPast(steps[0], envs[0], w);
      var (w'', rest) := RunStepsPast(steps[1..], envs[1..], w');
      (w'', ok && rest)
  }

  /** Setter.run with stopAtError; `envs` lists what each step meets, missing entries refuse. */
  function RunSteps(steps: seq<SetterStep>, envs: seq<Env>, w: World): (World, bool)
  {
    if steps == [] then (w, true)
    else if envs == [] then (w, false)
    else
      var (w', ok) := RunStep(steps[0], envs[0], w);
      if ok then RunSteps(steps[1..], envs[1..], w') else (w', false)
  }

  /** Going on past errors reports success exactly when stopping at the first would, and then did the same. */
  lemma {:induction false} PastIsStop(lines: seq<Line>, i: nat, budget: nat, w: World)
    requires i <= |lines| && i <= budget
    ensures var (w', ok) := RunPast(lines, From(budget, |lines|), i, w);
            var (w'', ok') := RunStop(lines[i..], budget - i, w);
            (ok <==> ok') && (ok ==> w' == w'')
    decreases |lines| - i
  {
    if i < |lines| && i < budget {
      var r := ExecLine(lines[i], w);
      assert lines[i..][1..] == lines[i + 1..];
      PastIsStop(lines, i + 1, budget, if r.None? then w else r.value);
    }
  }

  lemma {:induction false} StepPastIs(step: SetterStep, env: Env, w: World)
    ensures var (w', ok) := RunStepPast(step, env, w);
            var (w'', ok') := RunStep(step, env, w);
            (ok <==> ok') && (ok ==> w' == w'')
  {
    match step
    case Commands(lines) =>
      PastIsStop(lines, 0, env.budget, w);
      assert lines[0..] == lines;
    case Whitelist(f, cidrs) =>
      var lines := PerLine(f, cidrs);
      PastIsStop(lines, 0, env.budget, RunFast(f, cidrs, env, w).0);
      assert lines[0..] == lines;
  }

  lemma {:induction false} StepsPastAgree(steps: seq<SetterStep>, envs: seq<Env>, w: World)
    requires |envs| == |steps|
    ensures var (w', ok) := RunStepsPast(steps, envs, w);
            var (w'', ok') := RunSteps(steps, envs, w);
            (ok <==> ok') && (ok ==> w' == w'')
    decreases |steps|
  {
    if steps != [] {
      StepPastIs(steps[0], envs[0], w);
      StepsPastAgree(steps[1..], envs[1..], RunStepPast(steps[0], envs[0], w).0);
    }
  }

  // ------------------------------------------------------- splitting a script

  function IndexOf(lines: seq<Line>, l: Line): (i: nat)
    ensures i <= |lines| && (i < |lines| <==> l in lines) && (i < |lines| ==> lines[i] == l && l !in lines[..i])
  {
    if lines == [] then 0 else if lines[0] == l then 0 else 1 + IndexOf(lines[1..], l)
  }

  /** What stands before the marker of `f`, as steps, and the lines left; nothing without a marker. */
  function CutOnce(f: Family, lines: seq<Line>, cidrs: seq<Cidr>): (seq<SetterStep>, seq<Line>)
  {
    var i := IndexOf(lines, Marker(f));
    if i == |lines| then ([], lines) else (Cut(f, lines[..i], cidrs), lines[i + 1..])
  }

  /** The steps a script with the given whitelists is cut into. */
  function Split(lines: seq<Line>, white4: seq<Cidr>, white6: seq<Cidr>): seq<SetterStep>
  {
    var (head, rest) := CutOnce(V4, lines, white4);
    var (middle, last) := CutOnce(V6, rest, white6);
    head + (middle + [Commands(last)])
  }

  function Cut(f: Family, before: seq<Line>, cidrs: seq<Cidr>): seq<SetterStep>
  {
    [Commands(before)] + if cidrs == [] then [] else [Whitelist(f, cidrs)]
  }

  function SetupSteps(cfg: Config): seq<SetterStep> { Split(SetupScript(cfg), cfg.white4, cfg.white6) }
}
