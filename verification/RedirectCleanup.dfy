/**
 Cleaning up. Whatever setups ran before, complete or stopped anywhere, with whatever the
 address watcher did in between, the clean script gives back the tables of before.
 */
module RedirectCleanup {
  import opened Options
  import opened NatTable
  import opened RedirectScript
  import opened RedirectMeaning
  import opened RedirectSetup

  // -------------------------------------------------------------- dirty tables

  ghost predicate Distinct(s: seq<Rule>) { forall i, j | 0 <= i < j < |s| :: s[i] != s[j] }

  predicate PreJump(r: Rule) { r == UdpDns || r == TcpDns || r == TcpToTpPre }
  predicate OutJump(r: Rule) { r == UdpDns || r == TcpDns || r == TcpToTpOut }

  /** Jumps inside the own chains lead from TP_PRE and TP_OUT to TP_RULE and nowhere else. */
  predicate InnerJump(c: Chain, r: Rule) { !r.target.Jump? || ((c == TpPre || c == TpOut) && r.target.chain == TpRule) }

  /**
   `t` is `t0` with some of the own chains, of any harmless content, and with the jumps `pre`
   and `out`, none twice, ahead of what the two hooks held.
   */
  ghost predicate Dirty(t0: NatTable.Table, t: NatTable.Table, pre: seq<Rule>, out: seq<Rule>)
  {
    && Prerouting in t0 && Output in t0 && Prerouting in t && Output in t
    && (forall c | c in t && !Own(c) && !BuiltIn(c) :: c in t0 && t[c] == t0[c])
    && (forall c | c in t0 && !BuiltIn(c) :: c in t && t[c] == t0[c])
    && t[Prerouting] == pre + t0[Prerouting] && t[Output] == out + t0[Output]
    && Distinct(pre) && (forall r | r in pre :: PreJump(r))
    && Distinct(out) && (forall r | r in out :: OutJump(r))
    && (forall c, r | Own(c) && c in t && r in t[c] :: InnerJump(c, r))
  }

  /** Commands that only touch own chains. */
  predicate Harmless(cmd: Command)
  {
    match cmd
    case New(c) => Own(c)
    case Append(c, r) => Own(c) && InnerJump(c, r)
    case Insert(c, r) => Own(c) && InnerJump(c, r)
    case Delete(c, _) => Own(c)
    case Flush(c) => Own(c)
    case Drop(c) => Own(c)
  }

  lemma RemoveFirstIn(s: seq<Rule>, r: Rule)
    ensures forall x | x in RemoveFirst(s, r) :: x in s
  {}

  lemma {:induction false} HarmlessKeeps(cmd: Command, t0: NatTable.Table, t: NatTable.Table, sets: Sets,
                                         pre: seq<Rule>, out: seq<Rule>)
    requires Untouched(t0, sets) || forall c | Own(c) :: c !in t0
    requires Dirty(t0, t, pre, out) && Harmless(cmd) && Step(cmd, t, sets).Some?
    ensures Dirty(t0, Step(cmd, t, sets).value, pre, out)
  {
    if cmd.Delete? { RemoveFirstIn(t[cmd.chain], cmd.rule); }
  }

  lemma {:induction false} InsertKeeps(c: Chain, j: Rule, t0: NatTable.Table, t: NatTable.Table, sets: Sets,
                                       pre: seq<Rule>, out: seq<Rule>)
    requires (forall c | Own(c) :: c !in t0) && Dirty(t0, t, pre, out) && Step(Insert(c, j), t, sets).Some?
    requires (c == Prerouting && PreJump(j) && j !in pre) || (c == Output && OutJump(j) && j !in out)
    ensures var t' := Step(Insert(c, j), t, sets).value;
            if c == Prerouting then Dirty(t0, t', [j] + pre, out) else Dirty(t0, t', pre, [j] + out)
  {
    assert [j] + (pre + t0[Prerouting]) == [j] + pre + t0[Prerouting];
    assert [j] + (out + t0[Output]) == [j] + out + t0[Output];
  }

  // --------------------------------------------------------- cleaning one table

  function Force(cmd: Command, t: NatTable.Table, sets: Sets): NatTable.Table
  {
    var r := Step(cmd, t, sets); if r.None? then t else r.value
  }

  function ForceAll(cmds: seq<Command>, t: NatTable.Table, sets: Sets): NatTable.Table
  {
    if cmds == [] then t else ForceAll(cmds[1..], Force(cmds[0], t, sets), sets)
  }

  lemma {:induction false} ForceConcat(a: seq<Command>, b: seq<Command>, t: NatTable.Table, sets: Sets)
    ensures ForceAll(a + b, t, sets) == ForceAll(b, ForceAll(a, t, sets), sets)
    decreases |a|
  {
    if a == [] {
      assert a + b == b;
    } else {
      assert (a + b)[1..] == a[1..] + b;
      ForceConcat(a[1..], b, Force(a[0], t, sets), sets);
    }
  }

  lemma {:induction false} RemoveFirstPrefix(a: seq<Rule>, b: seq<Rule>, r: Rule)
    requires Distinct(a) && r !in b
    ensures var s := RemoveFirst(a, r);
            && RemoveFirst(a + b, r) == s + b && Distinct(s) && r !in s
            && forall x | x in s :: x in a
    decreases |a|
  {
    if a == [] {
      RemoveAbsent(b, r);
      assert a + b == b;
    } else {
      assert (a + b)[1..] == a[1..] + b;
      assert forall i | 0 <= i < |a| - 1 :: a[1..][i] == a[i + 1];
      if a[0] != r {
        RemoveFirstPrefix(a[1..], b, r);
        var s := RemoveFirst(a[1..], r);
        assert RemoveFirst(a, r) == [a[0]] + s;
        DistinctCons(a, s);
      }
    }
  }

  lemma {:induction false} DistinctCons(a: seq<Rule>, s: seq<Rule>)
    requires a != [] && Distinct(a) && Distinct(s) && forall x | x in s :: x in a[1..]
    ensures Distinct([a[0]] + s)
  {
    forall x | x in s
      ensures x != a[0]
    {
      var i :| 0 <= i < |a[1..]| && a[1..][i] == x;
      assert a[i + 1] == x;
    }
    var l := [a[0]] + s;
    assert forall k | 1 <= k < |l| :: l[k] == s[k - 1] && l[k] in s;
  }

  lemma RemoveAbsent(b: seq<Rule>, r: Rule)
    requires r !in b
    ensures RemoveFirst(b, r) == b
  {}

  /** A `-D` of one of our jumps takes it out of the hook and nothing else. */
  lemma {:induction false} ForceDelete(c: Chain, r: Rule, t0: NatTable.Table, t: NatTable.Table, sets: Sets,
                                       pre: seq<Rule>, out: seq<Rule>)
    requires BuiltIn(c) && (forall c | Own(c) :: c !in t0) && Dirty(t0, t, pre, out) && r !in t0[c]
    ensures var t' := Force(Delete(c, r), t, sets);
            && t'.Keys == t.Keys && (forall x | Own(x) && x in t :: t'[x] == t[x])
            && (if c == Prerouting
                then Dirty(t0, t', RemoveFirst(pre, r), out) && r !in RemoveFirst(pre, r)
                     && (forall x | x in RemoveFirst(pre, r) :: x in pre)
                else Dirty(t0, t', pre, RemoveFirst(out, r)) && r !in RemoveFirst(out, r)
                     && (forall x | x in RemoveFirst(out, r) :: x in out))
  {
    var mine := if c == Prerouting then pre else out;
    RemoveFirstPrefix(mine, t0[c], r);
    if r !in t[c] { RemoveAbsent(t[c], r); RemoveAbsent(mine, r); }
    assert Force(Delete(c, r), t, sets)[c] == RemoveFirst(mine, r) + t0[c];
  }

  ghost predicate NoJumpTo(rules: seq<Rule>, x: Chain) { forall r | r in rules :: r.target != Jump(x) }

  /** `-F` then, with no jump left, `-X`: the chain is gone. */
  lemma {:induction false} ForceDrop(c: Chain, t0: NatTable.Table, t: NatTable.Table, sets: Sets, pre: seq<Rule>,
                                     out: seq<Rule>)
    requires Own(c) && Untouched(t0, sets) && Dirty(t0, t, pre, out)
    requires c in t ==> t[c] == []
    requires NoJumpTo(pre, c) && NoJumpTo(out, c)
    requires c == TpRule ==> TpPre !in t && TpOut !in t
    ensures var t' := Force(Drop(c), t, sets); Dirty(t0, t', pre, out) && t' == t - {c}
  {
    forall x, i | x in t && 0 <= i < |t[x]|
      ensures t[x][i].target != Jump(c)
    {
      var r := t[x][i];
      assert r in t[x];
      if Own(x) {
        assert InnerJump(x, r);
      } else {
        var mine := if x == Prerouting then pre else if x == Output then out else [];
        assert t[x] == mine + t0[x];
        assert r in mine || r in t0[x];
      }
    }
    if c !in t { assert t - {c} == t; }
  }

  lemma {:induction false} ForceFlush(c: Chain, t0: NatTable.Table, t: NatTable.Table, sets: Sets, pre: seq<Rule>,
                                      out: seq<Rule>)
    requires Own(c) && Dirty(t0, t, pre, out) && forall c | Own(c) :: c !in t0
    ensures var t' := Force(Flush(c), t, sets);
            Dirty(t0, t', pre, out) && t'.Keys == t.Keys && (c in t' ==> t'[c] == [])
  {}

  lemma {:induction false} NotOurs(t0: NatTable.Table, sets: Sets, c: Chain, r: Rule)
    requires Untouched(t0, sets) && c in t0 && r.target.Jump? && Own(r.target.chain)
    ensures r !in t0[c]
  {}

  lemma {:induction false} ForceThree(a: Command, b: Command, c: Command, t: NatTable.Table, sets: Sets)
    ensures ForceAll([a, b, c], t, sets) == Force(c, Force(b, Force(a, t, sets), sets), sets)
  {
    var none: seq<Command> := [];
    assert [c][1..] == none && [b, c][1..] == [c] && [a, b, c][1..] == [b, c];
    assert ForceAll([c], Force(b, Force(a, t, sets), sets), sets) == Force(c, Force(b, Force(a, t, sets), sets), sets);
    assert ForceAll([b, c], Force(a, t, sets), sets) == ForceAll([c], Force(b, Force(a, t, sets), sets), sets);
  }

  /** Both DNS jumps leave one hook. */
  lemma {:induction false} ForceDnsJumps(c: Chain, t0: NatTable.Table, t: NatTable.Table, sets: Sets, pre: seq<Rule>,
                                         out: seq<Rule>)
    requires BuiltIn(c) && Untouched(t0, sets) && Dirty(t0, t, pre, out)
    ensures var t' := Force(Delete(c, TcpDns), Force(Delete(c, UdpDns), t, sets), sets);
            var mine := WithoutDns(if c == Prerouting then pre else out);
            && t'.Keys == t.Keys && (forall x | Own(x) && x in t :: t'[x] == t[x])
            && TcpDns !in mine && UdpDns !in mine
            && (if c == Prerouting then Dirty(t0, t', mine, out) else Dirty(t0, t', pre, mine))
  {
    NotOurs(t0, sets, c, UdpDns);
    NotOurs(t0, sets, c, TcpDns);
    ForceDelete(c, UdpDns, t0, t, sets, pre, out);
    var t1 := Force(Delete(c, UdpDns), t, sets);
    if c == Prerouting {
      ForceDelete(c, TcpDns, t0, t1, sets, RemoveFirst(pre, UdpDns), out);
    } else {
      ForceDelete(c, TcpDns, t0, t1, sets, pre, RemoveFirst(out, UdpDns));
    }
  }

  function WithoutDns(s: seq<Rule>): seq<Rule> { RemoveFirst(RemoveFirst(s, UdpDns), TcpDns) }

  lemma {:induction false} CleanDnsIs(t: NatTable.Table, sets: Sets)
    ensures var t1 := Force(Flush(DnsRedirect), t, sets);
            var t3 := Force(Delete(Prerouting, TcpDns), Force(Delete(Prerouting, UdpDns), t1, sets), sets);
            var t5 := Force(Delete(Output, TcpDns), Force(Delete(Output, UdpDns), t3, sets), sets);
            ForceAll(CleanDns, t, sets) == Force(Drop(DnsRedirect), t5, sets)
  {
    var a, b := [CleanDns[0], CleanDns[1], CleanDns[2]], [CleanDns[3], CleanDns[4], CleanDns[5]];
    ForceThree(CleanDns[0], CleanDns[1], CleanDns[2], t, sets);
    ForceThree(CleanDns[3], CleanDns[4], CleanDns[5], ForceAll(a, t, sets), sets);
    ForceConcat(a, b, t, sets);
    assert CleanDns == a + b;
  }

  lemma {:induction false} CleanDnsDone(t0: NatTable.Table, t: NatTable.Table, sets: Sets, pre: seq<Rule>,
                                        out: seq<Rule>)
    returns (pre': seq<Rule>, out': seq<Rule>)
    requires Untouched(t0, sets) && Dirty(t0, t, pre, out)
    ensures var t' := ForceAll(CleanDns, t, sets);
            && Dirty(t0, t', pre', out') && DnsRedirect !in t'
            && (forall r | r in pre' :: r == TcpToTpPre) && (forall r | r in out' :: r == TcpToTpOut)
  {
    pre', out' := WithoutDns(pre), WithoutDns(out);
    CleanDnsIs(t, sets);
    var t1 := Force(Flush(DnsRedirect), t, sets);
    ForceFlush(DnsRedirect, t0, t, sets, pre, out);
    ForceDnsJumps(Prerouting, t0, t1, sets, pre, out);
    var t3 := Force(Delete(Prerouting, TcpDns), Force(Delete(Prerouting, UdpDns), t1, sets), sets);
    ForceDnsJumps(Output, t0, t3, sets, pre', out);
    var t5 := Force(Delete(Output, TcpDns), Force(Delete(Output, UdpDns), t3, sets), sets);
    ForceDrop(DnsRedirect, t0, t5, sets, pre', out');
  }

  /** The clean commands of one family bring any dirty table back. */
  lemma {:induction false} CleanTable(t0: NatTable.Table, t: NatTable.Table, sets: Sets, pre: seq<Rule>, out: seq<Rule>)
    requires Untouched(t0, sets) && Dirty(t0, t, pre, out)
    ensures ForceAll(CleanFamily(), t, sets) == t0
  {
    var pre1, out1 := CleanDnsDone(t0, t, sets, pre, out);
    var t1 := ForceAll(CleanDns, t, sets);
    ForceConcat(CleanDns, CleanOut, t, sets);
    ForceConcat(CleanDns + CleanOut, CleanPre, t, sets);
    ForceConcat(CleanDns + CleanOut + CleanPre, CleanRule, t, sets);
    CleanOutDone(t0, t1, sets, pre1, out1);
    var t2 := ForceAll(CleanOut, t1, sets);
    CleanPreDone(t0, t2, sets, pre1);
    var t3 := ForceAll(CleanPre, t2, sets);
    CleanRuleDone(t0, t3, sets);
  }

  lemma {:induction false} CleanOutDone(t0: NatTable.Table, t: NatTable.Table, sets: Sets, pre: seq<Rule>,
                                        out: seq<Rule>)
    requires Untouched(t0, sets) && Dirty(t0, t, pre, out) && DnsRedirect !in t
    requires (forall r | r in pre :: r == TcpToTpPre) && (forall r | r in out :: r == TcpToTpOut)
    ensures var t' := ForceAll(CleanOut, t, sets);
            Dirty(t0, t', pre, []) && TpOut !in t' && DnsRedirect !in t'
  {
    ForceFlush(TpOut, t0, t, sets, pre, out);
    NotOurs(t0, sets, Output, TcpToTpOut);
    var t1 := Force(CleanOut[0], t, sets);
    ForceDelete(Output, TcpToTpOut, t0, t1, sets, pre, out);
    var out' := RemoveFirst(out, TcpToTpOut);
    EmptyOf(out', TcpToTpOut);
    ForceDrop(TpOut, t0, Force(CleanOut[1], t1, sets), sets, pre, out');
    ForceThree(CleanOut[0], CleanOut[1], CleanOut[2], t, sets);
    assert CleanOut == [CleanOut[0], CleanOut[1], CleanOut[2]];
  }

  function Head(s: seq<Rule>): Rule { if s == [] then ReturnMarked else s[0] }

  lemma {:induction false} EmptyOf(s: seq<Rule>, r: Rule)
    requires r !in s && forall x | x in s :: x == r
    ensures s == []
  {
    assert s == [] || Head(s) in s;
  }

  lemma {:induction false} CleanPreDone(t0: NatTable.Table, t: NatTable.Table, sets: Sets, pre: seq<Rule>)
    requires Untouched(t0, sets) && Dirty(t0, t, pre, []) && DnsRedirect !in t && TpOut !in t
    requires forall r | r in pre :: r == TcpToTpPre
    ensures var t' := ForceAll(CleanPre, t, sets);
            Dirty(t0, t', [], []) && TpOut !in t' && TpPre !in t' && DnsRedirect !in t'
  {
    ForceFlush(TpPre, t0, t, sets, pre, []);
    NotOurs(t0, sets, Prerouting, TcpToTpPre);
    var t1 := Force(CleanPre[0], t, sets);
    ForceDelete(Prerouting, TcpToTpPre, t0, t1, sets, pre, []);
    var pre' := RemoveFirst(pre, TcpToTpPre);
    EmptyOf(pre', TcpToTpPre);
    ForceDrop(TpPre, t0, Force(CleanPre[1], t1, sets), sets, pre', []);
    ForceThree(CleanPre[0], CleanPre[1], CleanPre[2], t, sets);
    assert CleanPre == [CleanPre[0], CleanPre[1], CleanPre[2]];
  }

  lemma {:induction false} CleanRuleDone(t0: NatTable.Table, t: NatTable.Table, sets: Sets)
    requires Untouched(t0, sets) && Dirty(t0, t, [], []) && DnsRedirect !in t && TpOut !in t && TpPre !in t
    ensures ForceAll(CleanRule, t, sets) == t0
  {
    var t1 := Force(CleanRule[0], t, sets);
    ForceFlush(TpRule, t0, t, sets, [], []);
    ForceDrop(TpRule, t0, t1, sets, [], []);
    var t2 := Force(CleanRule[1], t1, sets);
    assert CleanRule[1..] == [CleanRule[1]] && [CleanRule[1]][1..] == [];
    assert ForceAll([CleanRule[1]], t1, sets) == t2;
    NothingLeft(t0, t2, sets);
  }

  /** A table with none of the chains and none of the jumps is the one there was. */
  lemma {:induction false} NothingLeft(t0: NatTable.Table, t: NatTable.Table, sets: Sets)
    requires Untouched(t0, sets) && Dirty(t0, t, [], []) && DnsRedirect !in t && TpOut !in t && TpPre !in t
        && TpRule !in t
    ensures t == t0
  {
    assert t[Prerouting] == t0[Prerouting] && t[Output] == t0[Output];
    assert Own(TpRule) && Own(TpOut) && Own(TpPre) && Own(DnsRedirect);
    assert t.Keys == t0.Keys;
  }

  // ---------------------------------------------------- what a setup can leave

  /** A run that stops is a complete run of some first `k` lines. */
  lemma {:induction false} RunStopPrefix(lines: seq<Line>, budget: nat, w: World) returns (k: nat)
    ensures k <= |lines| && RunAll(lines[..k], w) == Some(RunStop(lines, budget, w).0)
    ensures RunStop(lines, budget, w).1 <==> k == |lines|
    ensures k == 0 ==> RunStop(lines, budget, w).0 == w
    decreases |lines|
  {
    k := 0;
    if lines != [] && budget > 0 {
      var r := ExecLine(lines[0], w);
      if r.Some? {
        var k' := RunStopPrefix(lines[1..], budget - 1, r.value);
        k := k' + 1;
        assert lines[..k][1..] == lines[1..][..k'];
      }
    }
  }

  lemma {:induction false} FamilyPrefix(f: Family, cmds: seq<Command>, budget: nat, w: World) returns (k: nat)
    ensures var w' := RunStop(Lines(f, cmds), budget, w).0;
            && k <= |cmds| && Apply(cmds[..k], w.Table(f), w.sets) == Some(w'.Table(f))
            && w'.Table(OtherFamily(f)) == w.Table(OtherFamily(f)) && w'.sets == w.sets
            && (k == 0 ==> w' == w)
  {
    k := RunStopPrefix(Lines(f, cmds), budget, w);
    assert Lines(f, cmds)[..k] == Lines(f, cmds[..k]);
    RunLines(f, cmds[..k], w);
  }

  ghost predicate AllHarmless(cmds: seq<Command>) { forall c | c in cmds :: Harmless(c) && !c.Drop? }

  lemma {:induction false} HarmlessRun(cmds: seq<Command>, t0: NatTable.Table, t: NatTable.Table, sets: Sets,
                                       pre: seq<Rule>, out: seq<Rule>)
    requires AllHarmless(cmds) && Dirty(t0, t, pre, out) && forall c | Own(c) :: c !in t0
    ensures var r := Apply(cmds, t, sets); r.Some? ==> Dirty(t0, r.value, pre, out) && t.Keys <= r.value.Keys
    decreases |cmds|
  {
    if cmds != [] && Step(cmds[0], t, sets).Some? {
      assert cmds[0] in cmds;
      HarmlessKeeps(cmds[0], t0, t, sets, pre, out);
      HarmlessRun(cmds[1..], t0, Step(cmds[0], t, sets).value, sets, pre, out);
    }
  }

  lemma {:induction false} BeforeHarmless(f: Family, cfg: Config, cidrs: seq<Cidr>)
    ensures AllHarmless(Before(f, cfg)) && AllHarmless(Appends(TpRule, ReturnsTo(cidrs)))
  {
    PlainReturns(Reserved(f));
    PlainReturns(cidrs);
    PlainOthers(cfg.interfaces, TO_DNS);
    AppendsHarmless(TpRule, ReturnsTo(Reserved(f)) + [ReturnMarked]);
    AppendsHarmless(DnsRedirect, DnsRules(TO_DNS));
    AppendsHarmless(TpRule, IfaceRules(cfg.interfaces));
    AppendsHarmless(TpRule, ReturnsTo(cidrs));
  }

  lemma {:induction false} AppendsHarmless(c: Chain, rules: seq<Rule>)
    requires Own(c) && Plain(rules)
    ensures AllHarmless(Appends(c, rules))
  {}

  function PreAt(k: nat): seq<Rule>
  {
    if k < 2 then [] else if k < 6 then [TcpToTpPre]
    else if k < 7 then [UdpDns, TcpToTpPre] else [TcpDns, UdpDns, TcpToTpPre]
  }

  function OutAt(k: nat): seq<Rule>
  {
    if k < 3 then [] else if k < 8 then [TcpToTpOut]
    else if k < 9 then [UdpDns, TcpToTpOut] else [TcpDns, UdpDns, TcpToTpOut]
  }

  lemma {:induction false} AfterPrefix(k: nat, t0: NatTable.Table, t: NatTable.Table, sets: Sets)
    requires k <= |After()| && Dirty(t0, t, [], []) && forall c | Own(c) :: c !in t0
    ensures var r := Apply(After()[..k], t, sets);
            r.Some? ==> Dirty(t0, r.value, PreAt(k), OutAt(k)) && t.Keys <= r.value.Keys
    decreases k
  {
    if k > 0 {
      var cmd := After()[k - 1];
      AfterPrefix(k - 1, t0, t, sets);
      assert After()[..k] == After()[..k - 1] + [cmd];
      ApplyConcat(After()[..k - 1], [cmd], t, sets);
      var r := Apply(After()[..k - 1], t, sets);
      if r.Some? {
        ApplyOne(cmd, r.value, sets);
        if Step(cmd, r.value, sets).Some? { AfterStepKeeps(k - 1, t0, r.value, sets); }
      }
    }
  }

  lemma {:induction false} ApplyOne(cmd: Command, t: NatTable.Table, sets: Sets)
    ensures Apply([cmd], t, sets) == Step(cmd, t, sets)
  {
    assert [cmd][1..] == [];
  }

  lemma {:induction false} AfterStepKeeps(k: nat, t0: NatTable.Table, t: NatTable.Table, sets: Sets)
    requires k < |After()| && Dirty(t0, t, PreAt(k), OutAt(k)) && forall c | Own(c) :: c !in t0
    requires Step(After()[k], t, sets).Some?
    ensures var t' := Step(After()[k], t, sets).value;
            Dirty(t0, t', PreAt(k + 1), OutAt(k + 1)) && t.Keys <= t'.Keys
  {
    var pre, out := PreAt(k), OutAt(k);
    if k == 0 || k == 3 || k == 4 {
      HarmlessKeeps(After()[k], t0, t, sets, pre, out);
    } else if k == 1 {
      InsertKeeps(Prerouting, TcpToTpPre, t0, t, sets, pre, out);
      assert [TcpToTpPre] + pre == PreAt(2);
    } else if k == 2 {
      InsertKeeps(Output, TcpToTpOut, t0, t, sets, pre, out);
      assert [TcpToTpOut] + out == OutAt(3);
    } else {
      AfterDnsKeeps(k, t0, t, sets);
    }
  }

  lemma {:induction false} AfterDnsKeeps(k: nat, t0: NatTable.Table, t: NatTable.Table, sets: Sets)
    requires 5 <= k < |After()| && Dirty(t0, t, PreAt(k), OutAt(k)) && forall c | Own(c) :: c !in t0
    requires Step(After()[k], t, sets).Some?
    ensures var t' := Step(After()[k], t, sets).value;
            Dirty(t0, t', PreAt(k + 1), OutAt(k + 1)) && t.Keys <= t'.Keys
  {
    var c := if k <= 6 then Prerouting else Output;
    var j := if k == 5 || k == 7 then UdpDns else TcpDns;
    assert After()[k] == JumpDns[k - 5] == Insert(c, j);
    InsertKeeps(c, j, t0, t, sets, PreAt(k), OutAt(k));
    if c == Prerouting { assert [j] + PreAt(k) == PreAt(k + 1); } else { assert [j] + OutAt(k) == OutAt(k + 1); }
  }

  /** What one part of a setup may do to the tables of `f`, and all it does elsewhere. */
  ghost predicate Progress(f: Family, w: World, w': World)
  {
    && w'.Table(OtherFamily(f)) == w.Table(OtherFamily(f))
    && w.Table(f).Keys <= w'.Table(f).Keys
    && SetsKept(f, w.sets, w'.sets)
  }

  lemma {:induction false} BeforeLeaves(f: Family, cfg: Config, budget: nat, w: World, t0: NatTable.Table)
    requires Dirty(t0, w.Table(f), [], []) && forall c | Own(c) :: c !in t0
    ensures var w' := RunStop(Lines(f, Before(f, cfg)), budget, w).0;
            Dirty(t0, w'.Table(f), [], []) && Progress(f, w, w') && (w' == w || TpOut in w'.Table(f))
  {
    var cmds := Before(f, cfg);
    BeforeHarmless(f, cfg, []);
    var k := FamilyPrefix(f, cmds, budget, w);
    HarmlessRun(cmds[..k], t0, w.Table(f), w.sets, [], []);
    if k > 0 {
      var t, r := w.Table(f), Step(New(TpOut), w.Table(f), w.sets);
      StartsNew(f, cfg);
      assert cmds[..k][0] == New(TpOut);
      HarmlessKeeps(New(TpOut), t0, t, w.sets, [], []);
      HarmlessRun(cmds[..k][1..], t0, r.value, w.sets, [], []);
    }
  }

  lemma {:induction false} AfterLeaves(f: Family, budget: nat, w: World, t0: NatTable.Table)
    requires Dirty(t0, w.Table(f), [], []) && forall c | Own(c) :: c !in t0
    ensures var w' := RunStop(Lines(f, After()), budget, w).0; SomeDirty(t0, w'.Table(f)) && Progress(f, w, w')
  {
    var k := FamilyPrefix(f, After(), budget, w);
    AfterPrefix(k, t0, w.Table(f), w.sets);
  }

  lemma {:induction false} PerLineLeaves(f: Family, cidrs: seq<Cidr>, budget: nat, w: World, t0: NatTable.Table,
                                         pre: seq<Rule>, out: seq<Rule>)
    requires Dirty(t0, w.Table(f), pre, out) && forall c | Own(c) :: c !in t0
    ensures var w' := RunStop(PerLine(f, cidrs), budget, w).0; Dirty(t0, w'.Table(f), pre, out) && Progress(f, w, w')
  {
    var cmds := Appends(TpRule, ReturnsTo(cidrs));
    PlainReturns(cidrs);
    AppendsHarmless(TpRule, ReturnsTo(cidrs));
    var k := FamilyPrefix(f, cmds, budget, w);
    HarmlessRun(cmds[..k], t0, w.Table(f), w.sets, pre, out);
  }

  lemma {:induction false} RestoreLeaves(f: Family, cidrs: seq<Cidr>, w: World, t0: NatTable.Table, pre: seq<Rule>,
                                         out: seq<Rule>)
    requires Dirty(t0, w.Table(f), pre, out) && (forall c | Own(c) :: c !in t0) && TpRule in w.Table(f)
    ensures var w' := w.With(f, w.Table(f)[TpRule := w.Table(f)[TpRule] + ReturnsTo(cidrs)]);
            Dirty(t0, w'.Table(f), pre, out) && Progress(f, w, w')
  {
    PlainReturns(cidrs);
  }

  lemma {:induction false} MatchLeaves(f: Family, w: World, t0: NatTable.Table, pre: seq<Rule>, out: seq<Rule>)
    requires Dirty(t0, w.Table(f), pre, out) && forall c | Own(c) :: c !in t0
    ensures var r := ExecLine(Nat(f, Append(TpRule, MatchSetRule(f))), w);
            r.Some? ==> Dirty(t0, r.value.Table(f), pre, out) && Progress(f, w, r.value)
  {
    if Step(Append(TpRule, MatchSetRule(f)), w.Table(f), w.sets).Some? {
      HarmlessKeeps(Append(TpRule, MatchSetRule(f)), t0, w.Table(f), w.sets, pre, out);
    }
  }

  lemma {:induction false} WhitelistLeaves(f: Family, cidrs: seq<Cidr>, env: Env, w: World, t0: NatTable.Table,
                                           pre: seq<Rule>, out: seq<Rule>)
    requires Dirty(t0, w.Table(f), pre, out) && forall c | Own(c) :: c !in t0
    ensures var w' := RunWhitelist(f, cidrs, env, w).0; Dirty(t0, w'.Table(f), pre, out) && Progress(f, w, w')
  {
    RestoredKeeps(f, cidrs, env, w);
    var w1 := if env.ipset then RestoredSet(SetName(f), cidrs, env.setLines, w) else w;
    var w2 := if env.ipset && env.destroyOk then Destroyed(SetName(f), w1) else w1;
    var w' := RunWhitelist(f, cidrs, env, w).0;
    MatchLeaves(f, w1, t0, pre, out);
    PerLineLeaves(f, cidrs, env.budget, w2, t0, pre, out);
    if TpRule in w2.Table(f) { RestoreLeaves(f, cidrs, w2, t0, pre, out); }
    if SetsKept(f, w1.sets, w'.sets) { KeptTwice(f, w.sets, w1.sets, w'.sets); }
    if SetsKept(f, w2.sets, w'.sets) { KeptTwice(f, w.sets, w2.sets, w'.sets); }
  }

  ghost predicate SomeDirty(t0: NatTable.Table, t: NatTable.Table)
  {
    exists pre, out :: Dirty(t0, t, pre, out)
  }

  /** Everything a host can look like between a setup and its clean. */
  ghost predicate DirtyWorld(w0: World, w: World)
  {
    && SomeDirty(w0.nat4, w.nat4) && SomeDirty(w0.nat6, w.nat6) && OldSetsKept(w0, w)
    && (w == w0 || TpOut in w.nat4) && (w.nat6 == w0.nat6 || TpOut in w.nat6)
  }

  lemma {:induction false} UntouchedDirty(t0: NatTable.Table, sets: Sets)
    requires Untouched(t0, sets)
    ensures Dirty(t0, t0, [], [])
  {
    var none: seq<Rule> := [];
    assert none + t0[Prerouting] == t0[Prerouting] && none + t0[Output] == t0[Output];
  }

  /** Where a run of a cut and what follows can end. */
  lemma {:induction false} CutCases(f: Family, before: seq<Line>, cidrs: seq<Cidr>, rest: seq<SetterStep>,
                                    envs: seq<Env>, w: World)
    returns (budget: nat, env: Env, envs': seq<Env>)
    ensures var w1 := RunStop(before, budget, w).0;
            var w2 := RunWhitelist(f, cidrs, env, w1).0;
            var r := RunSteps(Cut(f, before, cidrs) + rest, envs, w);
            || r.0 == w || r.0 == w1
            || (RunStop(before, budget, w).1 &&
                (r.0 == w2 || r == RunSteps(rest, envs', w1) || r == RunSteps(rest, envs', w2)))
  {
    var steps := Cut(f, before, cidrs) + rest;
    budget, env, envs' := 0, PlainHost(0), [];
    if envs != [] {
      budget := envs[0].budget;
      if cidrs == [] {
        assert steps[1..] == rest;
        envs' := envs[1..];
      } else {
        assert steps[1..] == [Whitelist(f, cidrs)] + rest && steps[1..][1..] == rest;
        if |envs| > 1 { env, envs' := envs[1], envs[1..][1..]; }
      }
    }
  }

  lemma {:induction false} CutLeaves(f: Family, cfg: Config, rest: seq<SetterStep>, envs: seq<Env>, w: World,
                                     t0: NatTable.Table)
    returns (w2: World, envs': seq<Env>)
    requires Dirty(t0, w.Table(f), [], []) && forall c | Own(c) :: c !in t0
    ensures var r := RunSteps(Cut(f, Lines(f, Before(f, cfg)), cfg.White(f)) + rest, envs, w);
            && Dirty(t0, w2.Table(f), [], []) && Progress(f, w, w2) && (w2 == w || TpOut in w2.Table(f))
            && (r.0 == w2 || (r == RunSteps(rest, envs', w2) && TpOut in w2.Table(f)))
  {
    var before, cidrs := Lines(f, Before(f, cfg)), cfg.White(f);
    var budget, env;
    budget, env, envs' := CutCases(f, before, cidrs, rest, envs, w);
    var r := RunSteps(Cut(f, before, cidrs) + rest, envs, w);
    var w1 := RunStop(before, budget, w).0;
    BeforeLeaves(f, cfg, budget, w, t0);
    if RunStop(before, budget, w).1 {
      RunStopAll(before, budget, w);
      Opens(f, cfg, w, w1);
    }
    WhitelistLeaves(f, cidrs, env, w1, t0, [], []);
    if r.0 == w { w2 := w; assert SetsKept(f, w.sets, w.sets); }
    else if r.0 == w1 || r == RunSteps(rest, envs', w1) { w2 := w1; }
    else { w2 := RunWhitelist(f, cidrs, env, w1).0; KeptTwice(f, w.sets, w1.sets, w2.sets); }
  }

  lemma {:induction false} KeptTwice(f: Family, a: Sets, b: Sets, c: Sets)
    requires SetsKept(f, a, b) && SetsKept(f, b, c)
    ensures SetsKept(f, a, c)
  {}

  lemma {:induction false} Opens(f: Family, cfg: Config, w: World, w1: World)
    requires RunAll(Lines(f, Before(f, cfg)), w) == Some(w1)
    ensures TpOut in w1.Table(f)
  {
    RunLines(f, Before(f, cfg), w);
    StartsNew(f, cfg);
    BeforeHarmless(f, cfg, []);
    OpensFirst(Before(f, cfg), w.Table(f), w.sets);
  }

  lemma {:induction false} StartsNew(f: Family, cfg: Config)
    ensures Before(f, cfg) != [] && Before(f, cfg)[0] == New(TpOut)
  {
    assert Before(f, cfg)[0] == NewChains[0];
  }

  lemma {:induction false} OpensFirst(cmds: seq<Command>, t: NatTable.Table, sets: Sets)
    requires cmds != [] && cmds[0] == New(TpOut) && AllHarmless(cmds)
    ensures var r := Apply(cmds, t, sets); r.Some? ==> TpOut in r.value
  {
    var r := Step(cmds[0], t, sets);
    if r.Some? { KeysGrow(cmds[1..], r.value, sets); }
  }

  lemma {:induction false} KeysGrow(cmds: seq<Command>, t: NatTable.Table, sets: Sets)
    requires AllHarmless(cmds)
    ensures var r := Apply(cmds, t, sets); r.Some? ==> t.Keys <= r.value.Keys
    decreases |cmds|
  {
    if cmds != [] {
      var r := Step(cmds[0], t, sets);
      assert Harmless(cmds[0]) && !cmds[0].Drop?;
      if r.Some? { KeysGrow(cmds[1..], r.value, sets); }
    }
  }

  lemma {:induction false} RunStopSplit(a: seq<Line>, b: seq<Line>, budget: nat, w: World)
    ensures var r := RunStop(a, budget, w);
            if r.1 then budget >= |a| && RunStop(a + b, budget, w) == RunStop(b, budget - |a|, r.0)
            else RunStop(a + b, budget, w) == r
    decreases |a|
  {
    if a == [] {
      assert a + b == b;
    } else {
      assert (a + b)[1..] == a[1..] + b;
      if budget > 0 && ExecLine(a[0], w).Some? { RunStopSplit(a[1..], b, budget - 1, ExecLine(a[0], w).value); }
    }
  }

  /** The commands between the two markers: the end of IPv4, then the start of IPv6. */
  lemma {:induction false} MiddleLeaves(cfg: Config, budget: nat, w: World, w0: World)
    requires UntouchedWorld(w0) && Dirty(w0.nat4, w.nat4, [], []) && w.nat6 == w0.nat6
    ensures var a4, b6 := Lines(V4, After()), Lines(V6, Before(V6, cfg));
            var w' := RunStop(a4 + b6, budget, w).0;
            && SomeDirty(w0.nat4, w'.nat4) && Dirty(w0.nat6, w'.nat6, [], [])
            && w.nat4.Keys <= w'.nat4.Keys && w'.sets == w.sets
            && (w'.nat6 == w0.nat6 || TpOut in w'.nat6)
            && (RunStop(a4 + b6, budget, w).1 ==> TpOut in w'.nat6)
  {
    var a4, b6 := Lines(V4, After()), Lines(V6, Before(V6, cfg));
    UntouchedDirty(w0.nat6, Others(w0.sets));
    AfterLeaves(V4, budget, w, w0.nat4);
    var k := FamilyPrefix(V4, After(), budget, w);
    RunStopSplit(a4, b6, budget, w);
    var r := RunStop(a4, budget, w);
    if r.1 {
      BeforeLeaves(V6, cfg, budget - |a4|, r.0, w0.nat6);
      var k6 := FamilyPrefix(V6, Before(V6, cfg), budget - |a4|, r.0);
      if RunStop(b6, budget - |a4|, r.0).1 {
        RunStopAll(b6, budget - |a4|, r.0);
        Opens(V6, cfg, r.0, RunStop(b6, budget - |a4|, r.0).0);
      }
    }
  }

  lemma {:induction false} OneCommand(lines: seq<Line>, envs: seq<Env>, w: World) returns (budget: nat)
    ensures RunSteps([Commands(lines)], envs, w).0 == w ||
            RunSteps([Commands(lines)], envs, w).0 == RunStop(lines, budget, w).0
  {
    budget := if envs == [] then 0 else envs[0].budget;
    assert [Commands(lines)][1..] == [];
  }

  lemma {:induction false} OtherHalf(cfg: Config, envs: seq<Env>, w: World, w0: World)
    requires UntouchedWorld(w0) && Dirty(w0.nat4, w.nat4, [], []) && w.nat6 == w0.nat6
    requires SetsKept(V4, w0.sets, w.sets)
    ensures var a4, b6, a6 := Lines(V4, After()), Lines(V6, Before(V6, cfg)), Lines(V6, After());
            var w' := RunSteps(Cut(V6, a4 + b6, cfg.white6) + [Commands(a6)], envs, w).0;
            && SomeDirty(w0.nat4, w'.nat4) && SomeDirty(w0.nat6, w'.nat6)
            && w.nat4.Keys <= w'.nat4.Keys && OldSetsKept(w0, w') && (w'.nat6 == w0.nat6 || TpOut in w'.nat6)
  {
    var a4, b6, a6 := Lines(V4, After()), Lines(V6, Before(V6, cfg)), Lines(V6, After());
    var w' := RunSteps(Cut(V6, a4 + b6, cfg.white6) + [Commands(a6)], envs, w).0;
    var budget, env, envs' := CutCases(V6, a4 + b6, cfg.white6, [Commands(a6)], envs, w);
    UntouchedDirty(w0.nat6, Others(w0.sets));
    MiddleLeaves(cfg, budget, w, w0);
    var w1 := RunStop(a4 + b6, budget, w).0;
    WhitelistLeaves(V6, cfg.white6, env, w1, w0.nat6, [], []);
    var w2 := RunWhitelist(V6, cfg.white6, env, w1).0;
    KeptBoth(w0.sets, w.sets, w.sets);
    KeptBoth(w0.sets, w.sets, w2.sets);
    var n1 := OneCommand(a6, envs', w1);
    var n2 := OneCommand(a6, envs', w2);
    AfterLeaves(V6, n1, w1, w0.nat6);
    AfterLeaves(V6, n2, w2, w0.nat6);
    var k1 := FamilyPrefix(V6, After(), n1, w1);
    var k2 := FamilyPrefix(V6, After(), n2, w2);
  }

  /** A setup stopped anywhere, by anything, leaves a dirty host. */
  lemma {:induction false} SetupDirties(cfg: Config, envs: seq<Env>, w0: World)
    requires UntouchedWorld(w0)
    ensures var w := RunSteps(SetupSteps(cfg), envs, w0).0; DirtyWorld(w0, w) && (!cfg.ipv6 ==> w.nat6 == w0.nat6)
  {
    SetupStepsAre(cfg);
    var a4, b6, a6 := Lines(V4, After()), Lines(V6, Before(V6, cfg)), Lines(V6, After());
    var rest := if cfg.ipv6 then Cut(V6, a4 + b6, cfg.white6) + [Commands(a6)] else [Commands(a4)];
    UntouchedDirty(w0.nat4, Others(w0.sets));
    UntouchedDirty(w0.nat6, Others(w0.sets));
    var w2, envs' := CutLeaves(V4, cfg, rest, envs, w0, w0.nat4);
    KeptBoth(w0.sets, w2.sets, w2.sets);
    if cfg.ipv6 {
      OtherHalf(cfg, envs', w2, w0);
    } else {
      var n := OneCommand(a4, envs', w2);
      AfterLeaves(V4, n, w2, w0.nat4);
      var k := FamilyPrefix(V4, After(), n, w2);
    }
  }

  /** A second setup without a clean in between stops at its first command. */
  lemma {:induction false} SetupAgain(cfg: Config, envs: seq<Env>, w: World)
    requires TpOut in w.nat4
    ensures RunSteps(SetupSteps(cfg), envs, w).0 == w
  {
    SetupStepsAre(cfg);
    var b4 := Lines(V4, Before(V4, cfg));
    StartsNew(V4, cfg);
    assert b4[0] == Nat(V4, New(TpOut));
    StepsBegin(b4, cfg.white4, Lines(V4, After()), cfg.ipv6, Lines(V6, Before(V6, cfg)), cfg.white6,
               Lines(V6, After()));
    StopsAtOnce(SetupSteps(cfg), b4, envs, w);
  }

  lemma {:induction false} StepsBegin(b4: seq<Line>, white4: seq<Cidr>, a4: seq<Line>, ipv6: bool, b6: seq<Line>,
                                      white6: seq<Cidr>, a6: seq<Line>)
    ensures var steps := Steps(b4, white4, a4, ipv6, b6, white6, a6); steps != [] && steps[0] == Commands(b4)
  {}

  lemma {:induction false} StopsAtOnce(steps: seq<SetterStep>, lines: seq<Line>, envs: seq<Env>, w: World)
    requires steps != [] && steps[0] == Commands(lines) && lines != [] && ExecLine(lines[0], w).None?
    ensures RunSteps(steps, envs, w).0 == w
  {}

  // ------------------------------------------------------------------ histories

  /** Between two cleans: setup attempts, and single iptables calls of the address watcher. */
  datatype Event =
    | Setup(cfg: Config, envs: seq<Env>)
    | WatchInsert(family: Family, net: Cidr)
    | WatchDelete(family: Family, net: Cidr)

  function Ignoring(l: Line, w: World): World
  {
    var r := ExecLine(l, w); if r.None? then w else r.value
  }

  function After1(e: Event, w: World): World
  {
    match e
    case Setup(cfg, envs) => RunSteps(SetupSteps(cfg), envs, w).0
    case WatchInsert(f, net) => Ignoring(Nat(f, Insert(TpRule, ReturnTo(net))), w)
    case WatchDelete(f, net) => Ignoring(Nat(f, Delete(TpRule, ReturnTo(net))), w)
  }

  function Happen(events: seq<Event>, w: World): World
  {
    if events == [] then w else Happen(events[1..], After1(events[0], w))
  }

  lemma {:induction false} WatchKeeps(f: Family, cmd: Command, w0: World, w: World)
    requires UntouchedWorld(w0) && DirtyWorld(w0, w) && Harmless(cmd) && (cmd.Insert? || cmd.Delete?)
    ensures var w' := Ignoring(Nat(f, cmd), w);
            DirtyWorld(w0, w') && w'.Table(OtherFamily(f)) == w.Table(OtherFamily(f))
    ensures cmd.chain !in w.Table(f) ==> Ignoring(Nat(f, cmd), w) == w
  {
    var t0, t := w0.Table(f), w.Table(f);
    var pre, out :| Dirty(t0, t, pre, out);
    if Step(cmd, t, w.sets).Some? {
      assert w != w0 by { assert Own(cmd.chain) && cmd.chain !in w0.Table(f); }
      HarmlessKeeps(cmd, t0, t, w.sets, pre, out);
    }
  }

  ghost predicate WithinIPv6(events: seq<Event>, ipv6: bool)
  {
    forall e | e in events :: e.Setup? && e.cfg.ipv6 ==> ipv6
  }

  lemma {:induction false} HistoryDirty(events: seq<Event>, w0: World, w: World)
    requires UntouchedWorld(w0) && DirtyWorld(w0, w)
    ensures DirtyWorld(w0, Happen(events, w))
    ensures WithinIPv6(events, false) && w.nat6 == w0.nat6 ==> Happen(events, w).nat6 == w0.nat6
    decreases |events|
  {
    if events != [] {
      var e := events[0];
      assert e in events;
      match e {
        case Setup(cfg, envs) => if w == w0 { SetupDirties(cfg, envs, w0); } else { SetupAgain(cfg, envs, w); }
        case WatchInsert(f, net) => WatchKeeps(f, Insert(TpRule, ReturnTo(net)), w0, w); assert Own(TpRule);
        case WatchDelete(f, net) => WatchKeeps(f, Delete(TpRule, ReturnTo(net)), w0, w); assert Own(TpRule);
      }
      HistoryDirty(events[1..], w0, After1(e, w));
    }
  }

  lemma {:induction false} RunIgnoringLines(f: Family, cmds: seq<Command>, rest: seq<Line>, w: World)
    ensures RunIgnoring(Lines(f, cmds) + rest, w) ==
            RunIgnoring(rest, w.With(f, ForceAll(cmds, w.Table(f), w.sets)))
    decreases |cmds|
  {
    if cmds == [] {
      assert Lines(f, cmds) + rest == rest;
    } else {
      assert (Lines(f, cmds) + rest)[1..] == Lines(f, cmds[1..]) + rest;
      var w' := w.With(f, Force(cmds[0], w.Table(f), w.sets));
      RunIgnoringLines(f, cmds[1..], rest, w');
    }
  }

  /** The set lines at the end: each set is free by then, so each is destroyed. */
  lemma {:induction false} SetsDestroyed(w0: World, w: World)
    requires UntouchedWorld(w0) && w.nat4 == w0.nat4 && OldSetsKept(w0, w)
    ensures var w' := RunIgnoring([DestroySet(SetName(V4)), DestroySet(SetName(V6))], w);
            && w'.nat4 == w.nat4 && w'.nat6 == w.nat6 && (w.nat6 == w0.nat6 ==> w' == Swept(w0))
  {
    var a, b := SetName(V4), SetName(V6);
    var lines := [DestroySet(a), DestroySet(b)];
    assert lines[1..] == [DestroySet(b)] && [DestroySet(b)][1..] == [];
    var w1 := Destroyed(a, w);
    assert RunIgnoring(lines, w) == RunIgnoring([DestroySet(b)], w1) == Destroyed(b, w1);
    if w.nat6 == w0.nat6 {
      Unreferenced(w0, a);
      Unreferenced(w0, b);
      assert w.sets - {a} - {b} == Others(w.sets) == Others(w0.sets);
    }
  }

  lemma {:induction false} Unreferenced(w0: World, name: string)
    requires UntouchedWorld(w0) && name in [SetName(V4), SetName(V6)]
    ensures !SetReferenced(w0.nat4, name) && !SetReferenced(w0.nat6, name)
  {
    forall f: Family, c, i | c in w0.Table(f) && 0 <= i < |w0.Table(f)[c]|
      ensures name !in SetsOf(w0.Table(f)[c][i])
    {
      assert w0.Table(f)[c][i] in w0.Table(f)[c];
    }
    assert w0.Table(V4) == w0.nat4 && w0.Table(V6) == w0.nat6;
  }

  lemma {:induction false} CleanLeaves(w0: World, w: World, ipv6: bool)
    requires UntouchedWorld(w0) && DirtyWorld(w0, w)
    ensures var w' := RunIgnoring(CleanScript(ipv6), w);
            && w'.nat4 == w0.nat4
            && (if ipv6 || w.nat6 == w0.nat6 then w' == Swept(w0) else w'.nat6 == w.nat6)
  {
    var last := [DestroySet(SetName(V4)), DestroySet(SetName(V6))];
    var rest := if ipv6 then Lines(V6, CleanFamily()) else [];
    var pre4, out4 :| Dirty(w0.nat4, w.nat4, pre4, out4);
    OldSets(w0, w);
    UntouchedMore(w0.nat4, Others(w0.sets), w.sets);
    UntouchedMore(w0.nat6, Others(w0.sets), w.sets);
    CleanTable(w0.nat4, w.nat4, w.sets, pre4, out4);
    assert CleanScript(ipv6) == Lines(V4, CleanFamily()) + (rest + last);
    RunIgnoringLines(V4, CleanFamily(), rest + last, w);
    var w1 := w.With(V4, w0.nat4);
    if ipv6 {
      var pre6, out6 :| Dirty(w0.nat6, w.nat6, pre6, out6);
      CleanTable(w0.nat6, w.nat6, w.sets, pre6, out6);
      RunIgnoringLines(V6, CleanFamily(), last, w1);
      SetsDestroyed(w0, w1.With(V6, w0.nat6));
    } else {
      assert rest + last == last;
      SetsDestroyed(w0, w1);
    }
  }

  lemma {:induction false} UntouchedMore(t: NatTable.Table, sets: Sets, sets': Sets)
    requires Untouched(t, sets) && sets.Keys <= sets'.Keys
    ensures Untouched(t, sets')
  {}

  /**
   Any history of setup attempts, each stopped anywhere, and of watcher calls, followed by the
   clean script with errors ignored, gives back exactly the tables and sets of before, less the
   program's own sets if one was left over. The clean must cover IPv6 if a setup did.
   */
  lemma {:induction false} CleanRestores(events: seq<Event>, w0: World, ipv6: bool)
    requires UntouchedWorld(w0) && WithinIPv6(events, ipv6)
    ensures RunIgnoring(CleanScript(ipv6), Happen(events, w0)) == Swept(w0)
    ensures SetName(V4) !in w0.sets && SetName(V6) !in w0.sets ==> Swept(w0) == w0
  {
    UntouchedDirty(w0.nat4, Others(w0.sets));
    UntouchedDirty(w0.nat6, Others(w0.sets));
    HistoryDirty(events, w0, w0);
    CleanLeaves(w0, Happen(events, w0), ipv6);
  }

  /**
   Without the condition: the clean restores the host exactly when it covers IPv6 or the first of the
   program's chains is not in the IPv6 table at that moment.
   */
  lemma {:induction false} CleanRestoresIff(events: seq<Event>, w0: World, ipv6: bool)
    requires UntouchedWorld(w0)
    ensures RunIgnoring(CleanScript(ipv6), Happen(events, w0)) == Swept(w0) <==>
            ipv6 || TpOut !in Happen(events, w0).nat6
  {
    UntouchedDirty(w0.nat4, Others(w0.sets));
    UntouchedDirty(w0.nat6, Others(w0.sets));
    HistoryDirty(events, w0, w0);
    CleanLeaves(w0, Happen(events, w0), ipv6);
  }

  lemma {:induction false} RunsThrough(lines: seq<Line>, w: World, w': World)
    requires RunAll(lines, w) == Some(w')
    ensures RunStop(lines, |lines|, w) == (w', true)
    decreases |lines|
  {
    if lines != [] { RunsThrough(lines[1..], ExecLine(lines[0], w).value, w'); }
  }

  lemma {:induction false} RunNext(a: seq<Line>, rest: seq<SetterStep>, envs: seq<Env>, w: World, w': World)
    requires RunAll(a, w) == Some(w')
    ensures RunSteps([Commands(a)] + rest, [PlainHost(|a|)] + envs, w) == RunSteps(rest, envs, w')
  {
    RunsThrough(a, w, w');
    var steps, all := [Commands(a)] + rest, [PlainHost(|a|)] + envs;
    assert steps[1..] == rest && all[1..] == envs;
  }

  /** The two halves of a family, run on a host without its chains. */
  lemma {:induction false} FamilyRuns(f: Family, cfg: Config, w: World) returns (w1: World, w2: World)
    requires Untouched(w.Table(f), Others(w.sets))
    ensures RunAll(Lines(f, Before(f, cfg)), w) == Some(w1) && RunAll(Lines(f, After()), w1) == Some(w2)
    ensures w1.Table(OtherFamily(f)) == w2.Table(OtherFamily(f)) == w.Table(OtherFamily(f)) && w2.sets == w.sets
    ensures TpOut in w2.Table(f)
  {
    BeforeStep(f, cfg, w);
    w1, w2 := OpensAndCloses(f, BaseRules(f, cfg), DnsRules(TO_DNS), w);
  }

  lemma {:induction false} OpensAndCloses(f: Family, base: seq<Rule>, dns: seq<Rule>, w: World)
    returns (w1: World, w2: World)
    requires Untouched(w.Table(f), Others(w.sets))
    ensures w1 == w.With(f, Opened(w.Table(f), base, dns)) && RunAll(Lines(f, After()), w1) == Some(w2)
    ensures w1.Table(OtherFamily(f)) == w2.Table(OtherFamily(f)) == w.Table(OtherFamily(f)) && w2.sets == w.sets
    ensures TpOut in w2.Table(f)
  {
    w1 := w.With(f, Opened(w.Table(f), base, dns));
    AfterStep(f, base, dns, w.Table(f), w1);
    w2 := w1.With(f, Installed(w.Table(f), base, dns));
  }

  /** A setup with IPv6 and no whitelist, on any host that nothing gets in the way of. */
  lemma {:induction false} PlainSetup(w0: World, cfg: Config) returns (envs: seq<Env>, w: World)
    requires UntouchedWorld(w0) && cfg.ipv6 && cfg.white4 == [] == cfg.white6
    ensures RunSteps(SetupSteps(cfg), envs, w0) == (w, true) && TpOut in w.nat6
  {
    var b4, a4 := Lines(V4, Before(V4, cfg)), Lines(V4, After());
    var b6, a6 := Lines(V6, Before(V6, cfg)), Lines(V6, After());
    var w1, w2 := FamilyRuns(V4, cfg, w0);
    assert w2.nat6 == w2.Table(V6) == w0.nat6;
    var w3;
    w3, w := FamilyRuns(V6, cfg, w2);
    RunAllConcat(a4, b6, w1);
    envs := RunThree(b4, a4 + b6, a6, w0, w1, w3, w);
    PlainSteps(cfg);
  }

  lemma {:induction false} PlainSteps(cfg: Config)
    requires cfg.ipv6 && cfg.white4 == [] == cfg.white6
    ensures var middle := Lines(V4, After()) + Lines(V6, Before(V6, cfg));
            SetupSteps(cfg) ==
            [Commands(Lines(V4, Before(V4, cfg)))] + ([Commands(middle)] + ([Commands(Lines(V6, After()))] + []))
  {
    SetupStepsAre(cfg);
    ThreeSteps(Lines(V4, Before(V4, cfg)), Lines(V4, After()), Lines(V6, Before(V6, cfg)), Lines(V6, After()));
  }

  lemma {:induction false} ThreeSteps(b4: seq<Line>, a4: seq<Line>, b6: seq<Line>, a6: seq<Line>)
    ensures Steps(b4, [], a4, true, b6, [], a6) == [Commands(b4)] + ([Commands(a4 + b6)] + ([Commands(a6)] + []))
  {}

  lemma {:induction false} RunThree(a: seq<Line>, b: seq<Line>, c: seq<Line>, w: World, w1: World, w2: World, w3: World)
    returns (envs: seq<Env>)
    requires RunAll(a, w) == Some(w1) && RunAll(b, w1) == Some(w2) && RunAll(c, w2) == Some(w3)
    ensures RunSteps([Commands(a)] + ([Commands(b)] + ([Commands(c)] + [])), envs, w) == (w3, true)
  {
    var last := [Commands(c)] + [];
    RunNext(c, [], [], w2, w3);
    RunNext(b, last, [PlainHost(|c|)] + [], w1, w2);
    RunNext(a, [Commands(b)] + last, [PlainHost(|b|)] + ([PlainHost(|c|)] + []), w, w1);
    envs := [PlainHost(|a|)] + ([PlainHost(|b|)] + ([PlainHost(|c|)] + []));
  }

  /** The promise fails there: a clean without IPv6 after a setup with it leaves the IPv6 chains behind. */
  lemma {:induction false} IPv6LeftBehind(w0: World) returns (envs: seq<Env>)
    requires UntouchedWorld(w0)
    ensures var cfg := Config([], [], [], true);
            && RunSteps(SetupSteps(cfg), envs, w0).1
            && RunIgnoring(CleanScript(false), Happen([Setup(cfg, envs)], w0)) != Swept(w0)
            && RunIgnoring(CleanScript(true), Happen([Setup(cfg, envs)], w0)) == Swept(w0)
  {
    envs := LeftBehind(w0, Config([], [], [], true));
  }

  lemma {:induction false} LeftBehind(w0: World, cfg: Config) returns (envs: seq<Env>)
    requires UntouchedWorld(w0) && cfg.ipv6 && cfg.white4 == [] == cfg.white6
    ensures RunSteps(SetupSteps(cfg), envs, w0).1
    ensures RunIgnoring(CleanScript(false), Happen([Setup(cfg, envs)], w0)) != Swept(w0)
    ensures RunIgnoring(CleanScript(true), Happen([Setup(cfg, envs)], w0)) == Swept(w0)
  {
    var w;
    envs, w := PlainSetup(w0, cfg);
    var events := [Setup(cfg, envs)];
    assert events[1..] == [];
    CleanRestoresIff(events, w0, false);
    CleanRestoresIff(events, w0, true);
  }
}
