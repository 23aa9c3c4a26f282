/** From the steps a setup runs to the verdict of every packet. */
module RedirectSetup {
  import opened Options
  import opened NatTable
  import opened RedirectExempt
  import opened RedirectScript
  import opened RedirectMeaning

  // ------------------------------------------------------- splitting at markers

  ghost predicate Unmarked(lines: seq<Line>) { Marker(V4) !in lines && Marker(V6) !in lines }

  lemma {:induction false} LinesUnmarked(f: Family, cmds: seq<Command>)
    ensures Unmarked(Lines(f, cmds))
  {}

  lemma {:induction false} IndexIs(lines: seq<Line>, l: Line, i: nat)
    requires i < |lines| && lines[i] == l && forall j | 0 <= j < i :: lines[j] != l
    ensures IndexOf(lines, l) == i
    decreases i
  {
    if i > 0 { IndexIs(lines[1..], l, i - 1); }
  }

  lemma {:induction false} IndexAfter(a: seq<Line>, l: Line, b: seq<Line>)
    requires l !in a
    ensures IndexOf(a + [l] + b, l) == |a|
    ensures (a + [l] + b)[..|a|] == a && (a + [l] + b)[|a| + 1..] == b
  {
    IndexIs(a + [l] + b, l, |a|);
  }

  /** The setup script by its parts. */
  function Script(b4: seq<Line>, a4: seq<Line>, ipv6: bool, b6: seq<Line>, a6: seq<Line>): seq<Line>
  {
    b4 + [Marker(V4)] + a4 + if ipv6 then b6 + [Marker(V6)] + a6 else []
  }

  function Steps(b4: seq<Line>, white4: seq<Cidr>, a4: seq<Line>, ipv6: bool,
                 b6: seq<Line>, white6: seq<Cidr>, a6: seq<Line>): seq<SetterStep>
  {
    Cut(V4, b4, white4) + if ipv6 then Cut(V6, a4 + b6, white6) + [Commands(a6)] else [Commands(a4)]
  }

  lemma {:induction false} SplitScript(b4: seq<Line>, white4: seq<Cidr>, a4: seq<Line>, ipv6: bool,
                                       b6: seq<Line>, white6: seq<Cidr>, a6: seq<Line>)
    requires Unmarked(b4) && Unmarked(a4) && Unmarked(b6) && Unmarked(a6)
    ensures Split(Script(b4, a4, ipv6, b6, a6), white4, white6) == Steps(b4, white4, a4, ipv6, b6, white6, a6)
  {
    ScriptIs(b4, a4, b6, a6);
    if ipv6 { SplitTwo(b4, a4, b6, a6, white4, white6); } else { SplitOne(b4, a4, white4, white6); }
  }

  lemma {:induction false} ScriptIs(b4: seq<Line>, a4: seq<Line>, b6: seq<Line>, a6: seq<Line>)
    ensures Script(b4, a4, true, b6, a6) == b4 + [Marker(V4)] + (a4 + b6 + [Marker(V6)] + a6)
    ensures Script(b4, a4, false, b6, a6) == b4 + [Marker(V4)] + a4
  {
    var m4, m6 := [Marker(V4)], [Marker(V6)];
    assert a4 + (b6 + m6 + a6) == a4 + b6 + m6 + a6;
    assert b4 + m4 + a4 + (b6 + m6 + a6) == b4 + m4 + (a4 + (b6 + m6 + a6));
  }

  lemma {:induction false} SetupStepsAre(cfg: Config)
    ensures SetupSteps(cfg) ==
            Steps(Lines(V4, Before(V4, cfg)), cfg.white4, Lines(V4, After()), cfg.ipv6,
                  Lines(V6, Before(V6, cfg)), cfg.white6, Lines(V6, After()))
  {
    LinesUnmarked(V4, Before(V4, cfg)); LinesUnmarked(V4, After());
    LinesUnmarked(V6, Before(V6, cfg)); LinesUnmarked(V6, After());
    SplitScript(Lines(V4, Before(V4, cfg)), cfg.white4, Lines(V4, After()), cfg.ipv6,
                Lines(V6, Before(V6, cfg)), cfg.white6, Lines(V6, After()));
  }

  lemma {:induction false} SplitTwo(b4: seq<Line>, a4: seq<Line>, b6: seq<Line>, a6: seq<Line>, white4: seq<Cidr>,
                                    white6: seq<Cidr>)
    requires Unmarked(b4) && Unmarked(a4) && Unmarked(b6) && Unmarked(a6)
    ensures Split(b4 + [Marker(V4)] + (a4 + b6 + [Marker(V6)] + a6), white4, white6) ==
            Cut(V4, b4, white4) + (Cut(V6, a4 + b6, white6) + [Commands(a6)])
  {
    IndexAfter(b4, Marker(V4), a4 + b6 + [Marker(V6)] + a6);
    IndexAfter(a4 + b6, Marker(V6), a6);
  }

  lemma {:induction false} SplitOne(b4: seq<Line>, a4: seq<Line>, white4: seq<Cidr>, white6: seq<Cidr>)
    requires Unmarked(b4) && Unmarked(a4)
    ensures Split(b4 + [Marker(V4)] + a4, white4, white6) == Cut(V4, b4, white4) + [Commands(a4)]
  {
    IndexAfter(b4, Marker(V4), a4);
  }

  /** The script with each marker replaced by one rule per CIDR. */
  function Replaced(lines: seq<Line>, white4: seq<Cidr>, white6: seq<Cidr>): seq<Line>
  {
    if lines == [] then []
    else
      (match lines[0]
       case Marker(V4) => PerLine(V4, white4)
       case Marker(V6) => PerLine(V6, white6)
       case _ => [lines[0]]) + Replaced(lines[1..], white4, white6)
  }

  /** The per-CIDR commands a list of steps stands for. */
  function Expanded(steps: seq<SetterStep>): seq<Line>
  {
    if steps == [] then []
    else
      (match steps[0]
       case Commands(lines) => lines
       case Whitelist(f, cidrs) => PerLine(f, cidrs)) + Expanded(steps[1..])
  }

  lemma {:induction false} ReplacedConcat(a: seq<Line>, b: seq<Line>, white4: seq<Cidr>, white6: seq<Cidr>)
    ensures Replaced(a + b, white4, white6) == Replaced(a, white4, white6) + Replaced(b, white4, white6)
    decreases |a|
  {
    if a == [] {
      assert a + b == b;
    } else {
      assert (a + b)[1..] == a[1..] + b;
      ReplacedConcat(a[1..], b, white4, white6);
    }
  }

  lemma {:induction false} ReplacedPlain(a: seq<Line>, white4: seq<Cidr>, white6: seq<Cidr>)
    requires a != [] && a[0] != Marker(V4) && a[0] != Marker(V6)
    ensures Replaced(a, white4, white6) == [a[0]] + Replaced(a[1..], white4, white6)
  {}

  lemma {:induction false} ReplacedUnmarked(a: seq<Line>, white4: seq<Cidr>, white6: seq<Cidr>)
    requires Unmarked(a)
    ensures Replaced(a, white4, white6) == a
    decreases |a|
  {
    if a != [] {
      var tail := a[1..];
      assert a == [a[0]] + tail;
      assert a[0] in a && Unmarked(tail);
      ReplacedUnmarked(tail, white4, white6);
      ReplacedPlain(a, white4, white6);
    }
  }

  lemma {:induction false} ExpandedConcat(a: seq<SetterStep>, b: seq<SetterStep>)
    ensures Expanded(a + b) == Expanded(a) + Expanded(b)
    decreases |a|
  {
    if a == [] {
      assert a + b == b;
    } else {
      assert (a + b)[1..] == a[1..] + b;
      ExpandedConcat(a[1..], b);
    }
  }

  lemma {:induction false} ExpandedCut(f: Family, before: seq<Line>, cidrs: seq<Cidr>)
    ensures Expanded(Cut(f, before, cidrs)) == before + PerLine(f, cidrs)
  {
    var first: seq<SetterStep> := [Commands(before)];
    var second: seq<SetterStep> := if cidrs == [] then [] else [Whitelist(f, cidrs)];
    ExpandedConcat(first, second);
    assert first[1..] == [] && Expanded(first) == before + [];
    if cidrs != [] { assert second[1..] == [] && Expanded(second) == PerLine(f, cidrs) + []; }
  }

  lemma {:induction false} ReplacedMarker(f: Family, b: seq<Line>, white4: seq<Cidr>, white6: seq<Cidr>)
    ensures Replaced([Marker(f)] + b, white4, white6) ==
            PerLine(f, if f.V4? then white4 else white6) + Replaced(b, white4, white6)
  {
    assert ([Marker(f)] + b)[1..] == b;
  }

  lemma {:induction false} ReplacedPart(f: Family, a: seq<Line>, b: seq<Line>, white4: seq<Cidr>, white6: seq<Cidr>)
    requires Unmarked(a)
    ensures Replaced(a + [Marker(f)] + b, white4, white6) ==
            a + PerLine(f, if f.V4? then white4 else white6) + Replaced(b, white4, white6)
  {
    assert a + [Marker(f)] + b == a + ([Marker(f)] + b);
    ReplacedConcat(a, [Marker(f)] + b, white4, white6);
    ReplacedUnmarked(a, white4, white6);
    ReplacedMarker(f, b, white4, white6);
  }

  lemma {:induction false} ExpandedOne(lines: seq<Line>)
    ensures Expanded([Commands(lines)]) == lines
  {
    assert [Commands(lines)][1..] == [];
  }

  lemma {:induction false} ExpandedSteps(b4: seq<Line>, white4: seq<Cidr>, a4: seq<Line>, ipv6: bool,
                                         b6: seq<Line>, white6: seq<Cidr>, a6: seq<Line>)
    ensures Expanded(Steps(b4, white4, a4, ipv6, b6, white6, a6)) ==
            b4 + PerLine(V4, white4) + if ipv6 then a4 + b6 + PerLine(V6, white6) + a6 else a4
  {
    ExpandedCut(V4, b4, white4);
    ExpandedCut(V6, a4 + b6, white6);
    ExpandedOne(a4);
    ExpandedOne(a6);
    ExpandedConcat(Cut(V6, a4 + b6, white6), [Commands(a6)]);
    ExpandedConcat(Cut(V4, b4, white4), if ipv6 then Cut(V6, a4 + b6, white6) + [Commands(a6)] else [Commands(a4)]);
  }

  lemma {:induction false} ReplacedScript(b4: seq<Line>, white4: seq<Cidr>, a4: seq<Line>, ipv6: bool,
                                          b6: seq<Line>, white6: seq<Cidr>, a6: seq<Line>)
    requires Unmarked(b4) && Unmarked(a4) && Unmarked(b6) && Unmarked(a6)
    ensures Replaced(Script(b4, a4, ipv6, b6, a6), white4, white6) ==
            b4 + PerLine(V4, white4) + if ipv6 then a4 + b6 + PerLine(V6, white6) + a6 else a4
  {
    ScriptIs(b4, a4, b6, a6);
    ReplacedUnmarked(a4, white4, white6);
    ReplacedUnmarked(a6, white4, white6);
    ReplacedPart(V4, b4, a4, white4, white6);
    ReplacedPart(V6, a4 + b6, a6, white4, white6);
    ReplacedPart(V4, b4, a4 + b6 + [Marker(V6)] + a6, white4, white6);
  }

  /** Cutting at the markers loses nothing and keeps the order. */
  lemma {:induction false} SplitKeepsScript(b4: seq<Line>, white4: seq<Cidr>, a4: seq<Line>, ipv6: bool,
                                            b6: seq<Line>, white6: seq<Cidr>, a6: seq<Line>)
    requires Unmarked(b4) && Unmarked(a4) && Unmarked(b6) && Unmarked(a6)
    ensures var script := Script(b4, a4, ipv6, b6, a6);
            Expanded(Split(script, white4, white6)) == Replaced(script, white4, white6)
  {
    SplitScript(b4, white4, a4, ipv6, b6, white6, a6);
    ExpandedSteps(b4, white4, a4, ipv6, b6, white6, a6);
    ReplacedScript(b4, white4, a4, ipv6, b6, white6, a6);
  }

  /** On a host with neither ipset nor a restore tool, refused by nothing but the tables. */
  function PlainHost(budget: nat): Env { Env(budget, false, 0, false, false, false, false) }

  lemma {:induction false} RunStopConcat(a: seq<Line>, b: seq<Line>, w: World)
    ensures RunStop(a + b, |a + b|, w) ==
            var r := RunStop(a, |a|, w); if r.1 then RunStop(b, |b|, r.0) else r
    decreases |a|
  {
    if a == [] {
      assert a + b == b;
    } else {
      assert (a + b)[1..] == a[1..] + b;
      var r := ExecLine(a[0], w);
      if r.Some? { RunStopConcat(a[1..], b, r.value); }
    }
  }

  /** Running the steps there is running the commands they stand for, failures included. */
  lemma {:induction false} StepsRunLikeScript(steps: seq<SetterStep>, envs: seq<Env>, w: World)
    requires |envs| == |steps|
    requires forall i | 0 <= i < |steps| :: envs[i] == PlainHost(|Expanded([steps[i]])|)
    ensures RunSteps(steps, envs, w) == RunStop(Expanded(steps), |Expanded(steps)|, w)
    decreases |steps|
  {
    if steps != [] {
      var first := Expanded([steps[0]]);
      assert steps == [steps[0]] + steps[1..];
      ExpandedConcat([steps[0]], steps[1..]);
      assert [steps[0]][1..] == [];
      RunStopConcat(first, Expanded(steps[1..]), w);
      var (w', ok) := RunStep(steps[0], envs[0], w);
      assert envs[0] == PlainHost(|first|);
      match steps[0] {
        case Commands(lines) => assert first == lines + [] == lines;
        case Whitelist(f, cidrs) => assert first == PerLine(f, cidrs) + [] == PerLine(f, cidrs);
      }
      assert (w', ok) == RunStop(first, |first|, w);
      if ok {
        forall i | 0 <= i < |steps[1..]|
          ensures envs[1..][i] == PlainHost(|Expanded([steps[1..][i]])|)
        {
          assert steps[1..][i] == steps[i + 1];
        }
        StepsRunLikeScript(steps[1..], envs[1..], w');
      }
    }
  }

  // -------------------------------------------------------------- running steps

  /** A successful run begins with a run of the cut and continues with the rest. */
  lemma {:induction false} CutRuns(f: Family, before: seq<Line>, cidrs: seq<Cidr>, rest: seq<SetterStep>,
                                   envs: seq<Env>, w: World)
    returns (w1: World, w2: World, whites: seq<Rule>, envs': seq<Env>)
    requires RunSteps(Cut(f, before, cidrs) + rest, envs, w).1
    ensures RunAll(before, w) == Some(w1)
    ensures TpRule in w1.Table(f) ==> Whitelisted(f, cidrs, w1, w2, whites)
    ensures RunSteps(rest, envs', w2) == RunSteps(Cut(f, before, cidrs) + rest, envs, w)
  {
    var steps := Cut(f, before, cidrs) + rest;
    RunStopAll(before, envs[0].budget, w);
    w1 := RunStop(before, envs[0].budget, w).0;
    if cidrs == [] {
      assert steps[1..] == rest;
      w2, whites, envs' := w1, [], envs[1..];
      if TpRule in w1.Table(f) {
        var t := w1.Table(f);
        assert t[TpRule] + whites == t[TpRule] && t[TpRule := t[TpRule]] == t;
      }
    } else {
      assert steps[1..] == [Whitelist(f, cidrs)] + rest && steps[1..][1..] == rest;
      w2, envs' := RunWhitelist(f, cidrs, envs[1], w1).0, envs[1..][1..];
      assert RunStep(steps[1..][0], envs[1..][0], w1) == RunWhitelist(f, cidrs, envs[1], w1);
      whites := [];
      if TpRule in w1.Table(f) { whites := WhitelistFormsAgree(f, cidrs, envs[1], w1); }
    }
  }

  lemma {:induction false} LastRuns(lines: seq<Line>, envs: seq<Env>, w: World)
    requires RunSteps([Commands(lines)], envs, w).1
    ensures RunAll(lines, w) == Some(RunSteps([Commands(lines)], envs, w).0)
  {
    RunStopAll(lines, envs[0].budget, w);
    assert [Commands(lines)][1..] == [];
  }

  /** `w` holds the installed rules of family `f` over what `w0` held. */
  ghost predicate InstalledFor(f: Family, cfg: Config, w0: World, w: World, whites: seq<Rule>)
  {
    && Prerouting in w0.Table(f) && Output in w0.Table(f)
    && w.Table(f) == Installed(w0.Table(f), BaseRules(f, cfg) + whites, DnsRules(TO_DNS))
    && (forall r | r in whites :: SetsOf(r) <= {SetName(f)})
    && Means(whites, cfg.White(f), w.sets)
  }

  ghost predicate OldSetsKept(w0: World, w: World)
  {
    w.sets - {SetName(V4), SetName(V6)} == w0.sets - {SetName(V4), SetName(V6)}
  }

  /** The means of a rule list do not depend on a set it does not name. */
  lemma {:induction false} MeansKept(whites: seq<Rule>, cidrs: seq<Cidr>, name: string, sets: Sets, sets': Sets)
    requires Means(whites, cidrs, sets) && (forall r | r in whites :: SetsOf(r) <= {name})
    requires (name in sets <==> name in sets') && (name in sets ==> sets'[name] == sets[name])
    ensures Means(whites, cidrs, sets')
  {
    var only: Sets := if name in sets then map[name := sets[name]] else map[];
    forall p: Packet
      ensures SomeApplies(whites, p, sets') <==> InSome(p.dst, cidrs)
    {
      forall r | r in whites
        ensures Applies(r, p, sets) == Applies(r, p, sets')
      {
        SameApplies(r, p, only, sets);
        SameApplies(r, p, only, sets');
      }
      assert SomeApplies(whites, p, sets) <==> InSome(p.dst, cidrs);
    }
  }

  lemma {:induction false} BeforeStep(f: Family, cfg: Config, w: World)
    requires forall c | Own(c) :: c !in w.Table(f)
    ensures RunAll(Lines(f, Before(f, cfg)), w) ==
            Some(w.With(f, Opened(w.Table(f), BaseRules(f, cfg), DnsRules(TO_DNS))))
  {
    RunLines(f, Before(f, cfg), w);
    ApplyBefore(f, cfg, w.Table(f), w.sets);
  }

  lemma {:induction false} AfterStep(f: Family, rules: seq<Rule>, dns: seq<Rule>, t: NatTable.Table, w: World)
    requires Prerouting in t && Output in t && w.Table(f) == Opened(t, rules, dns)
    ensures RunAll(Lines(f, After()), w) == Some(w.With(f, Installed(t, rules, dns)))
  {
    RunLines(f, After(), w);
    ApplyAfter(rules, dns, t, w.sets);
  }

  lemma {:induction false} OpenedPlus(t: NatTable.Table, base: seq<Rule>, whites: seq<Rule>, dns: seq<Rule>)
    ensures var o := Opened(t, base, dns); o[TpRule := o[TpRule] + whites] == Opened(t, base + whites, dns)
  {}

  /** The state between the two halves: the chains of `f` are open and whitelisted. */
  ghost predicate OpenFor(f: Family, cfg: Config, w0: World, w: World, whites: seq<Rule>)
  {
    && w.Table(f) == Opened(w0.Table(f), BaseRules(f, cfg) + whites, DnsRules(TO_DNS))
    && w.Table(OtherFamily(f)) == w0.Table(OtherFamily(f))
    && SetsKept(f, w0.sets, w.sets)
    && (forall r | r in whites :: SetsOf(r) <= {SetName(f)})
    && Means(whites, cfg.White(f), w.sets)
  }

  /** A cut whose commands end by opening the chains of `f` in world `w`. */
  lemma {:induction false} CutOpens(f: Family, cfg: Config, before: seq<Line>, rest: seq<SetterStep>, envs: seq<Env>,
                                    w0: World, w: World)
    returns (w2: World, whites: seq<Rule>, envs': seq<Env>)
    requires RunAll(before, w0) == RunAll(Lines(f, Before(f, cfg)), w) && forall c | Own(c) :: c !in w.Table(f)
    requires RunSteps(Cut(f, before, cfg.White(f)) + rest, envs, w0).1
    ensures OpenFor(f, cfg, w, w2, whites)
    ensures RunSteps(rest, envs', w2) == RunSteps(Cut(f, before, cfg.White(f)) + rest, envs, w0)
  {
    var w1;
    BeforeStep(f, cfg, w);
    w1, w2, whites, envs' := CutRuns(f, before, cfg.White(f), rest, envs, w0);
    OpenedPlus(w.Table(f), BaseRules(f, cfg), whites, DnsRules(TO_DNS));
  }

  lemma {:induction false} Closes(f: Family, cfg: Config, w0: World, w: World, whites: seq<Rule>)
    requires Untouched(w0.Table(f), Others(w0.sets)) && OpenFor(f, cfg, w0, w, whites)
    ensures var t := Installed(w0.Table(f), BaseRules(f, cfg) + whites, DnsRules(TO_DNS));
            RunAll(Lines(f, After()), w) == Some(w.With(f, t)) && InstalledFor(f, cfg, w0, w.With(f, t), whites)
  {
    AfterStep(f, BaseRules(f, cfg) + whites, DnsRules(TO_DNS), w0.Table(f), w);
  }

  lemma {:induction false} SetupInstalls(cfg: Config, envs: seq<Env>, w0: World)
    returns (whites4: seq<Rule>, whites6: seq<Rule>)
    requires UntouchedWorld(w0) && RunSteps(SetupSteps(cfg), envs, w0).1
    ensures var w := RunSteps(SetupSteps(cfg), envs, w0).0;
            && InstalledFor(V4, cfg, w0, w, whites4)
            && (if cfg.ipv6 then InstalledFor(V6, cfg, w0, w, whites6) else w.nat6 == w0.nat6)
            && OldSetsKept(w0, w)
  {
    SetupStepsAre(cfg);
    var b4, a4 := Lines(V4, Before(V4, cfg)), Lines(V4, After());
    var b6, a6 := Lines(V6, Before(V6, cfg)), Lines(V6, After());
    var rest := if cfg.ipv6 then Cut(V6, a4 + b6, cfg.white6) + [Commands(a6)] else [Commands(a4)];
    var w2, envs2;
    w2, whites4, envs2 := CutOpens(V4, cfg, b4, rest, envs, w0, w0);
    whites6 := [];
    Closes(V4, cfg, w0, w2, whites4);
    if cfg.ipv6 {
      whites6 := SecondHalf(cfg, envs2, w0, w2, whites4);
    } else {
      LastRuns(a4, envs2, w2);
      KeptBoth(w0.sets, w2.sets, w2.sets);
    }
  }

  lemma {:induction false} SecondHalf(cfg: Config, envs: seq<Env>, w0: World, w2: World, whites4: seq<Rule>)
    returns (whites6: seq<Rule>)
    requires UntouchedWorld(w0) && OpenFor(V4, cfg, w0, w2, whites4)
    requires var a4, b6, a6 := Lines(V4, After()), Lines(V6, Before(V6, cfg)), Lines(V6, After());
             RunSteps(Cut(V6, a4 + b6, cfg.white6) + [Commands(a6)], envs, w2).1
    ensures var a4, b6, a6 := Lines(V4, After()), Lines(V6, Before(V6, cfg)), Lines(V6, After());
            var w := RunSteps(Cut(V6, a4 + b6, cfg.white6) + [Commands(a6)], envs, w2).0;
            InstalledFor(V4, cfg, w0, w, whites4) && InstalledFor(V6, cfg, w0, w, whites6) && OldSetsKept(w0, w)
  {
    var a4, b6, a6 := Lines(V4, After()), Lines(V6, Before(V6, cfg)), Lines(V6, After());
    Closes(V4, cfg, w0, w2, whites4);
    var t4 := Installed(w0.nat4, BaseRules(V4, cfg) + whites4, DnsRules(TO_DNS));
    var w3 := w2.With(V4, t4);
    RunAllConcat(a4, b6, w2);
    var w5, envs5;
    w5, whites6, envs5 := CutOpens(V6, cfg, a4 + b6, [Commands(a6)], envs, w2, w3);
    AfterStep(V6, BaseRules(V6, cfg) + whites6, DnsRules(TO_DNS), w0.nat6, w5);
    LastRuns(a6, envs5, w5);
    BothInstalled(cfg, w0, w3, w5, whites4, whites6);
  }

  lemma {:induction false} BothInstalled(cfg: Config, w0: World, w3: World, w5: World, whites4: seq<Rule>,
                                         whites6: seq<Rule>)
    requires UntouchedWorld(w0) && InstalledFor(V4, cfg, w0, w3, whites4) && SetsKept(V4, w0.sets, w3.sets)
    requires w3.nat6 == w0.nat6 && OpenFor(V6, cfg, w3, w5, whites6)
    ensures var w := w5.With(V6, Installed(w0.nat6, BaseRules(V6, cfg) + whites6, DnsRules(TO_DNS)));
            InstalledFor(V4, cfg, w0, w, whites4) && InstalledFor(V6, cfg, w0, w, whites6) && OldSetsKept(w0, w)
  {
    KeptName(w3.sets, w5.sets);
    MeansKept(whites4, cfg.white4, SetName(V4), w3.sets, w5.sets);
    KeptBoth(w0.sets, w3.sets, w5.sets);
  }

  lemma {:induction false} KeptName(sets: Sets, sets': Sets)
    requires SetsKept(V6, sets, sets')
    ensures (SetName(V4) in sets <==> SetName(V4) in sets')
    ensures SetName(V4) in sets ==> sets'[SetName(V4)] == sets[SetName(V4)]
  {
    var a, b := SetName(V4), SetName(V6);
    assert a != b by { assert a[12] != b[12]; }
    assert a in sets <==> a in sets - {b};
    assert a in sets' <==> a in sets' - {b};
    if a in sets { assert (sets - {b})[a] == (sets' - {b})[a]; }
  }

  lemma {:induction false} KeptBoth(s0: Sets, s1: Sets, s2: Sets)
    requires SetsKept(V4, s0, s1) && SetsKept(V6, s1, s2)
    ensures s2 - {SetName(V4), SetName(V6)} == s0 - {SetName(V4), SetName(V6)}
  {
    var a, b := SetName(V4), SetName(V6);
    assert s0 - {a, b} == s0 - {a} - {b};
    assert s1 - {a, b} == s1 - {a} - {b} == s1 - {b} - {a};
    assert s2 - {a, b} == s2 - {b} - {a};
  }

  // ----------------------------------------------------------------- the theorem

  lemma {:induction false} JumpFree(f: Family, cfg: Config, whites: seq<Rule>, sets: Sets)
    requires Means(whites, cfg.White(f), sets)
    ensures forall r | r in BaseRules(f, cfg) + whites :: !r.target.Jump?
    ensures forall r | r in DnsRules(TO_DNS) :: !r.target.Jump?
  {
    PlainReturns(Reserved(f));
    PlainOthers(cfg.interfaces, TO_DNS);
  }

  lemma {:induction false} UntouchedWalk(hook: Chain, p: Packet, t: NatTable.Table, sets: Sets, rank: Ranks,
                                         t': NatTable.Table, sets': Sets, rank': Ranks, bound': nat)
    requires Untouched(t, sets) && BuiltIn(hook) && Ranked(t, rank)
    requires Ranked(t', rank') && JumpsBelow(t[hook], t', rank', bound')
    requires forall c | c in t && !BuiltIn(c) :: c in t' && t'[c] == t[c]
    requires forall s | s in sets :: s in sets' && sets'[s] == sets[s]
    ensures Walk(t[hook], p, t, sets, rank, rank[hook]) == Walk(t[hook], p, t', sets', rank', bound')
  {
    assert JumpsBelow(t[hook], t, rank, rank[hook]);
    WalkUnaffected(t[hook], p, t, sets, rank, rank[hook], t', sets', rank', bound');
  }

  /**
   After a setup that reported success, through any fallbacks, for every packet at either hook
   of either family, over any tables: a packet with mark bit 0x80 keeps its old verdict; DNS goes
   to the DNS port even if exempt; other TCP goes to the proxy exactly when not exempt; the rest
   keeps its old verdict. The new table is loop-free, and `rank` is any ranking of it.
   */
  lemma {:induction false} SetupVerdicts(cfg: Config, envs: seq<Env>, w0: World, f: Family, hook: Chain, p: Packet,
                                         rank0: Ranks, rank: Ranks)
    requires UntouchedWorld(w0) && RunSteps(SetupSteps(cfg), envs, w0).1
    requires (f.V4? || cfg.ipv6) && BuiltIn(hook) && Ranked(w0.Table(f), rank0)
    ensures var w := RunSteps(SetupSteps(cfg), envs, w0).0;
            var t := w.Table(f);
            && Ranked(t, NewRank(rank0))
            && (Ranked(t, rank) ==>
                && hook in t
                && Walk(t[hook], p, t, w.sets, rank, rank[hook]) ==
                   Promised(Exempt(f, cfg, p), 52353, p,
                            Walk(w0.Table(f)[hook], p, w0.Table(f), w0.sets, rank0, rank0[hook])))
  {
    var w := RunSteps(SetupSteps(cfg), envs, w0).0;
    var whites4, whites6 := SetupInstalls(cfg, envs, w0);
    var whites := if f.V4? then whites4 else whites6;
    InstalledVerdict(cfg, w0, w, f, hook, p, rank0, rank, whites);
  }

  lemma {:induction false} InstalledVerdict(cfg: Config, w0: World, w: World, f: Family, hook: Chain, p: Packet,
                                            rank0: Ranks, rank: Ranks, whites: seq<Rule>)
    requires UntouchedWorld(w0) && InstalledFor(f, cfg, w0, w, whites) && OldSetsKept(w0, w)
    requires BuiltIn(hook) && Ranked(w0.Table(f), rank0)
    ensures var t := w.Table(f);
            && Ranked(t, NewRank(rank0))
            && (Ranked(t, rank) ==>
                && hook in t
                && Walk(t[hook], p, t, w.sets, rank, rank[hook]) ==
                   Promised(Exempt(f, cfg, p), 52353, p,
                            Walk(w0.Table(f)[hook], p, w0.Table(f), w0.sets, rank0, rank0[hook])))
  {
    var rules := BaseRules(f, cfg) + whites;
    JumpFree(f, cfg, whites, w.sets);
    RulesMean(f, cfg, whites, p, w.sets);
    InstalledWalk(rules, TO_DNS, w0, w, f, hook, p, rank0, rank);
  }

  lemma {:induction false} InstalledWalk(rules: seq<Rule>, port: nat, w0: World, w: World, f: Family, hook: Chain,
                                         p: Packet, rank0: Ranks, rank: Ranks)
    requires UntouchedWorld(w0) && OldSetsKept(w0, w) && BuiltIn(hook) && Ranked(w0.Table(f), rank0)
    requires w.Table(f) == Installed(w0.Table(f), rules, DnsRules(port))
    requires (forall r | r in rules :: r.target == Return) && (forall r | r in DnsRules(port) :: !r.target.Jump?)
    requires Marked(p) ==> SomeApplies(rules, p, w.sets)
    ensures var t := w.Table(f);
            && Ranked(t, NewRank(rank0))
            && (Ranked(t, rank) ==>
                && hook in t
                && Walk(t[hook], p, t, w.sets, rank, rank[hook]) ==
                   Promised(SomeApplies(rules, p, w.sets), port, p,
                            Walk(w0.Table(f)[hook], p, w0.Table(f), w0.sets, rank0, rank0[hook])))
  {
    InstalledRanked(w0.Table(f), Others(w0.sets), rank0, rules, DnsRules(port));
    if Ranked(w.Table(f), rank) {
      OldSets(w0, w);
      HookWalk(rules, port, w0.Table(f), Others(w0.sets), w.Table(f), w.sets, hook, p, rank0, rank);
      UntouchedWalk(hook, p, w0.Table(f), Others(w0.sets), rank0, w0.Table(f), w0.sets, rank0, rank0[hook]);
    }
  }

  lemma {:induction false} HookWalk(rules: seq<Rule>, port: nat, t0: NatTable.Table, sets0: Sets, t: NatTable.Table,
                                    sets: Sets,
                                    hook: Chain, p: Packet, rank0: Ranks, rank: Ranks)
    requires Untouched(t0, sets0) && BuiltIn(hook) && Ranked(t0, rank0) && Ranked(t, rank)
    requires t == Installed(t0, rules, DnsRules(port)) && forall s | s in sets0 :: s in sets && sets[s] == sets0[s]
    requires (forall r | r in rules :: r.target == Return) && (forall r | r in DnsRules(port) :: !r.target.Jump?)
    requires Marked(p) ==> SomeApplies(rules, p, sets)
    ensures hook in t
    ensures Walk(t[hook], p, t, sets, rank, rank[hook]) ==
            Promised(SomeApplies(rules, p, sets), port, p, Walk(t0[hook], p, t0, sets0, rank0, rank0[hook]))
  {
    var last := if hook == Prerouting then TcpToTpPre else TcpToTpOut;
    assert JumpsBelow(t[hook], t, rank, rank[hook]);
    assert t[hook] == [TcpDns, UdpDns, last] + t0[hook];
    HookVerdict(rules, port, last, t0[hook], p, t, sets, rank, rank[hook]);
    OldChains(t0, sets0, rules, DnsRules(port));
    UntouchedWalk(hook, p, t0, sets0, rank0, t, sets, rank, rank[hook]);
  }

  lemma {:induction false} OldSets(w0: World, w: World)
    requires OldSetsKept(w0, w)
    ensures forall s | s in Others(w0.sets) :: s in w.sets && w.sets[s] == Others(w0.sets)[s]
  {
    forall s | s in Others(w0.sets)
      ensures s in w.sets && w.sets[s] == Others(w0.sets)[s]
    {
      assert Others(w.sets)[s] == Others(w0.sets)[s];
    }
  }

  lemma {:induction false} OldChains(t: NatTable.Table, sets: Sets, rules: seq<Rule>, dns: seq<Rule>)
    requires Untouched(t, sets)
    ensures forall c | c in t && !BuiltIn(c) :: c in Installed(t, rules, dns) && Installed(t, rules, dns)[c] == t[c]
  {}
}
