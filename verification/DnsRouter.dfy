/** The routing engine: first match in order, else the default; rules replaced as a whole or not at all. */
module DnsRouter {
  import opened Options
  import opened DnsRules

  datatype Upstream = Upstream(id: string, addr: string, tag: string)

  datatype Result = Result(upstream: string, addr: string, action: string, ruleId: string, policy: string, tag: string)

  function Lookup(m: map<string, string>, k: string): string { if k in m then m[k] else "" }

  function Addrs(us: seq<Upstream>): map<string, string>
  {
    if us == [] then map[]
    else
      var u := us[|us| - 1];
      var m := Addrs(us[..|us| - 1]);
      if u.id != "" then m[u.id := u.addr] else m
  }

  function Tags(us: seq<Upstream>): map<string, string>
  {
    if us == [] then map[]
    else
      var u := us[|us| - 1];
      var m := Tags(us[..|us| - 1]);
      if u.id != "" && u.tag != "" then m[u.id := u.tag] else m
  }

  /** The address of an id: that of the last upstream listed under it, empty if there is none. */
  ghost predicate AddressIs(us: seq<Upstream>, id: string, addr: string)
  {
    if id == "" || (forall i | 0 <= i < |us| :: us[i].id != id) then addr == ""
    else exists i | 0 <= i < |us| :: us[i].id == id && us[i].addr == addr && forall j | i < j < |us| :: us[j].id != id
  }

  /** The tag of an id: the last that any upstream listed under it has. */
  ghost predicate TagIs(us: seq<Upstream>, id: string, tag: string)
  {
    if id == "" || (forall i | 0 <= i < |us| :: us[i].id == id ==> us[i].tag == "") then tag == ""
    else
      exists i | 0 <= i < |us| ::
        us[i].id == id && us[i].tag == tag != "" && forall j | i < j < |us| :: us[j].id == id ==> us[j].tag == ""
  }

  lemma {:induction false} AddrsAre(us: seq<Upstream>, id: string)
    ensures AddressIs(us, id, Lookup(Addrs(us), id))
    ensures id in Addrs(us) <==> id != "" && exists i | 0 <= i < |us| :: us[i].id == id
    decreases |us|
  {
    if us != [] {
      var n := |us| - 1;
      AddrsAre(us[..n], id);
      assert forall i | 0 <= i < n :: us[..n][i] == us[i];
      if us[n].id == id { assert us[n].id == id; } else { AddressSkips(us, id, Lookup(Addrs(us[..n]), id)); }
    }
  }

  /** An upstream under another id makes no difference. */
  lemma {:induction false} AddressSkips(us: seq<Upstream>, id: string, addr: string)
    requires us != [] && us[|us| - 1].id != id && AddressIs(us[..|us| - 1], id, addr)
    ensures AddressIs(us, id, addr)
  {
    var n := |us| - 1;
    assert forall i | 0 <= i < n :: us[..n][i] == us[i];
    if i :| 0 <= i < n && us[..n][i].id == id && us[..n][i].addr == addr
            && forall j | i < j < n :: us[..n][j].id != id {
      assert us[i].id == id;
    }
  }

  lemma {:induction false} TagsAre(us: seq<Upstream>, id: string)
    ensures TagIs(us, id, Lookup(Tags(us), id))
    ensures id in Tags(us) <==> id != "" && exists i | 0 <= i < |us| :: us[i].id == id && us[i].tag != ""
    decreases |us|
  {
    if us != [] {
      var n := |us| - 1;
      TagsAre(us[..n], id);
      assert forall i | 0 <= i < n :: us[..n][i] == us[i];
      if us[n].id == id && us[n].tag != "" { assert us[n].id == id; }
      else { TagSkips(us, id, Lookup(Tags(us[..n]), id)); }
    }
  }

  /** Nor does one without a tag. */
  lemma {:induction false} TagSkips(us: seq<Upstream>, id: string, tag: string)
    requires us != [] && (us[|us| - 1].id == id ==> us[|us| - 1].tag == "") && TagIs(us[..|us| - 1], id, tag)
    ensures TagIs(us, id, tag)
  {
    var n := |us| - 1;
    assert forall i | 0 <= i < n :: us[..n][i] == us[i];
    if i :| 0 <= i < n && us[..n][i].id == id && us[..n][i].tag == tag != ""
            && forall j | i < j < n :: us[..n][j].id == id ==> us[..n][j].tag == "" {
      assert us[i].id == id;
    }
  }

  method MapUpstreams(us: seq<Upstream>) returns (addrs: map<string, string>, tags: map<string, string>)
    ensures addrs == Addrs(us) && tags == Tags(us)
    ensures forall id :: AddressIs(us, id, Lookup(addrs, id)) && TagIs(us, id, Lookup(tags, id))
  {
    addrs, tags := map[], map[];
    for i := 0 to |us|
      invariant addrs == Addrs(us[..i]) && tags == Tags(us[..i])
    {
      assert us[..i + 1][..i] == us[..i];
      if us[i].id != "" {
        addrs := addrs[us[i].id := us[i].addr];
        if us[i].tag != "" { tags := tags[us[i].id := us[i].tag]; }
      }
    }
    assert us[..|us|] == us;
    forall id: string
      ensures AddressIs(us, id, Lookup(addrs, id)) && TagIs(us, id, Lookup(tags, id))
    {
      AddrsAre(us, id);
      TagsAre(us, id);
    }
  }

  /** Where a rule sends a query; an action or policy left open has its default. */
  function Hit(r: Rule, addrs: map<string, string>, tags: map<string, string>): Result
  {
    Result(r.upstream, Lookup(addrs, r.upstream), if r.action == "" then "route" else r.action, r.id,
           if r.policy == "" then "single" else r.policy, Lookup(tags, r.upstream))
  }

  function Miss(default: string, addrs: map<string, string>, tags: map<string, string>): Result
  {
    Result(default, Lookup(addrs, default), "route", "", "single", Lookup(tags, default))
  }

  ghost predicate NoneBefore(i: nat, rules: seq<Rule>, resolver: Resolver, q: Query, lib: Library)
    requires i <= |rules|
  {
    forall k | 0 <= k < i :: !RuleHolds(rules[k], resolver, q, lib)
  }

  function CompiledAll(rules: seq<Rule>, resolver: Resolver): seq<seq<Matcher>>
  {
    if rules == [] then []
    else CompiledAll(rules[..|rules| - 1], resolver) + [Compiled(rules[|rules| - 1], resolver)]
  }

  predicate AllCompile(rules: seq<Rule>, lib: Library)
  {
    rules == [] || (AllCompile(rules[..|rules| - 1], lib) && Compiles(rules[|rules| - 1], lib))
  }

  lemma {:induction false} AllCompileIs(rules: seq<Rule>, lib: Library)
    ensures AllCompile(rules, lib) <==> forall i | 0 <= i < |rules| :: WellFormed(rules[i], lib)
    decreases |rules|
  {
    if rules != [] {
      assert forall i | 0 <= i < |rules| - 1 :: rules[..|rules| - 1][i] == rules[i];
      AllCompileIs(rules[..|rules| - 1], lib);
      assert WellFormed(rules[|rules| - 1], lib) <==> Compiles(rules[|rules| - 1], lib);
    }
  }

  lemma {:induction false} CompiledLength(rules: seq<Rule>, resolver: Resolver)
    ensures |CompiledAll(rules, resolver)| == |rules|
    decreases |rules|
  {
    if rules != [] { CompiledLength(rules[..|rules| - 1], resolver); }
  }

  lemma {:induction false} CompiledHolds(rules: seq<Rule>, resolver: Resolver, i: nat, q: Query, lib: Library)
    requires i < |rules|
    ensures |CompiledAll(rules, resolver)| == |rules|
    ensures AllMatch(CompiledAll(rules, resolver)[i], q, lib) <==> RuleHolds(rules[i], resolver, q, lib)
    decreases |rules|
  {
    var n := |rules| - 1;
    CompiledLength(rules, resolver);
    CompiledLength(rules[..n], resolver);
    if i == n {
      CompiledMeans(rules[n], resolver, q, lib);
    } else {
      CompiledHolds(rules[..n], resolver, i, q, lib);
      assert CompiledAll(rules, resolver)[i] == CompiledAll(rules[..n], resolver)[i] && rules[..n][i] == rules[i];
    }
  }

  lemma {:induction false} CompileStep(rules: seq<Rule>, i: nat, resolver: Resolver, lib: Library)
    requires i < |rules|
    ensures CompiledAll(rules[..i + 1], resolver) == CompiledAll(rules[..i], resolver) + [Compiled(rules[i], resolver)]
    ensures AllCompile(rules[..i + 1], lib) <==> AllCompile(rules[..i], lib) && Compiles(rules[i], lib)
  {
    assert rules[..i + 1][..i] == rules[..i];
  }

  lemma {:induction false} FrontCompiles(rules: seq<Rule>, i: nat, lib: Library)
    requires i <= |rules| && AllCompile(rules, lib)
    ensures AllCompile(rules[..i], lib)
    decreases |rules|
  {
    if i == |rules| {
      assert rules[..i] == rules;
    } else {
      assert rules[..|rules| - 1][..i] == rules[..i];
      FrontCompiles(rules[..|rules| - 1], i, lib);
    }
  }

  method BuildAll(rules: seq<Rule>, resolver: Resolver, lib: Library) returns (ms: Option<seq<seq<Matcher>>>)
    ensures ms == if AllCompile(rules, lib) then Some(CompiledAll(rules, resolver)) else None
  {
    var l := [];
    for i := 0 to |rules|
      invariant AllCompile(rules[..i], lib) && l == CompiledAll(rules[..i], resolver)
    {
      var m := BuildMatchers(rules[i], resolver, lib);
      CompileStep(rules, i, resolver, lib);
      if m.None? {
        if AllCompile(rules, lib) { FrontCompiles(rules, i + 1, lib); }
        return None;
      }
      l := l + [m.value];
    }
    assert rules[..|rules|] == rules;
    ms := Some(l);
  }

  method FirstMatch(ms: seq<seq<Matcher>>, q: Query, lib: Library) returns (i: nat)
    ensures FirstAt(ms, q, lib, i)
  {
    for k := 0 to |ms|
      invariant forall j | 0 <= j < k :: !AllMatch(ms[j], q, lib)
    {
      var hit := MatchAll(ms[k], q, lib);
      if hit { return k; }
    }
    i := |ms|;
  }

  ghost predicate FirstAt(ms: seq<seq<Matcher>>, q: Query, lib: Library, i: nat)
  {
    i <= |ms| && (i < |ms| ==> AllMatch(ms[i], q, lib)) && forall j | 0 <= j < i :: !AllMatch(ms[j], q, lib)
  }

  lemma {:induction false} FirstIs(rules: seq<Rule>, resolver: Resolver, i: nat, q: Query, lib: Library)
    requires FirstAt(CompiledAll(rules, resolver), q, lib, i)
    ensures i <= |rules| && NoneBefore(i, rules, resolver, q, lib)
    ensures i < |rules| ==> RuleHolds(rules[i], resolver, q, lib)
  {
    CompiledLength(rules, resolver);
    if i < |rules| { CompiledHolds(rules, resolver, i, q, lib); }
    forall k | 0 <= k < i
      ensures !RuleHolds(rules[k], resolver, q, lib)
    {
      CompiledHolds(rules, resolver, k, q, lib);
    }
  }

  /** A result that sends to `upstream`, with its address and tag, or none if it is not listed. */
  ghost predicate SendsTo(res: Result, upstream: string, addrs: map<string, string>, tags: map<string, string>)
  {
    && res.upstream == upstream
    && (if upstream in addrs then res.addr == addrs[upstream] else res.addr == "")
    && (if upstream in tags then res.tag == tags[upstream] else res.tag == "")
  }

  /** By a rule: its action and policy, `route` and `single` where it leaves them open. */
  ghost predicate SendsBy(res: Result, r: Rule, addrs: map<string, string>, tags: map<string, string>)
  {
    && SendsTo(res, r.upstream, addrs, tags) && res.ruleId == r.id
    && (if r.action == "" then res.action == "route" else res.action == r.action)
    && (if r.policy == "" then res.policy == "single" else res.policy == r.policy)
  }

  /** The result is that of the first rule that holds, or of the default when none does. */
  ghost predicate Routed(res: Result, rules: seq<Rule>, resolver: Resolver, q: Query, lib: Library,
                         addrs: map<string, string>, tags: map<string, string>, default: string)
  {
    || (exists i: nat | i < |rules| ::
          && NoneBefore(i, rules, resolver, q, lib) && RuleHolds(rules[i], resolver, q, lib)
          && SendsBy(res, rules[i], addrs, tags))
    || (NoneBefore(|rules|, rules, resolver, q, lib) && SendsTo(res, default, addrs, tags)
        && res.action == "route" && res.ruleId == "" && res.policy == "single")
  }

  /** The place of the first rule that holds, from `k` on. */
  ghost function First(rules: seq<Rule>, k: nat, resolver: Resolver, q: Query, lib: Library): (i: nat)
    requires k <= |rules|
    ensures i <= |rules|
    decreases |rules| - k
  {
    if k == |rules| || RuleHolds(rules[k], resolver, q, lib) then k else First(rules, k + 1, resolver, q, lib)
  }

  lemma {:induction false} FirstHolds(rules: seq<Rule>, k: nat, resolver: Resolver, q: Query, lib: Library)
    requires k <= |rules| && NoneBefore(k, rules, resolver, q, lib)
    ensures var i := First(rules, k, resolver, q, lib);
            NoneBefore(i, rules, resolver, q, lib) && (i < |rules| ==> RuleHolds(rules[i], resolver, q, lib))
    decreases |rules| - k
  {
    if k < |rules| && !RuleHolds(rules[k], resolver, q, lib) { FirstHolds(rules, k + 1, resolver, q, lib); }
  }

  /** The upstream a query is sent to, by its id. */
  ghost function Picked(rules: seq<Rule>, resolver: Resolver, q: Query, lib: Library, default: string): string
  {
    var i := First(rules, 0, resolver, q, lib);
    if i < |rules| then rules[i].upstream else default
  }

  ghost function Decision(rules: seq<Rule>, resolver: Resolver, q: Query, lib: Library, addrs: map<string, string>,
                          tags: map<string, string>, default: string): Result
  {
    var i := First(rules, 0, resolver, q, lib);
    if i < |rules| then Hit(rules[i], addrs, tags) else Miss(default, addrs, tags)
  }

  lemma {:induction false} RoutedAt(res: Result, i: nat, rules: seq<Rule>, resolver: Resolver, q: Query, lib: Library,
                                    addrs: map<string, string>, tags: map<string, string>, default: string)
    requires i <= |rules| && NoneBefore(i, rules, resolver, q, lib)
    requires if i < |rules| then RuleHolds(rules[i], resolver, q, lib) && res == Hit(rules[i], addrs, tags)
             else res == Miss(default, addrs, tags)
    ensures Routed(res, rules, resolver, q, lib, addrs, tags, default)
  {}

  /** Which rule is first is settled, so what a query is routed to is too. */
  lemma {:induction false} RoutedIs(res: Result, rules: seq<Rule>, resolver: Resolver, q: Query, lib: Library,
                                    addrs: map<string, string>, tags: map<string, string>, default: string)
    ensures Routed(res, rules, resolver, q, lib, addrs, tags, default) <==>
            res == Decision(rules, resolver, q, lib, addrs, tags, default)
  {
    var i := First(rules, 0, resolver, q, lib);
    FirstHolds(rules, 0, resolver, q, lib);
    assert forall j: nat | j <= |rules| && NoneBefore(j, rules, resolver, q, lib)
                           && (j < |rules| ==> RuleHolds(rules[j], resolver, q, lib)) :: j == i;
  }

  /** An upstream with the same address and tag in two sets of maps. */
  predicate SameUpstream(u: string, us: (map<string, string>, map<string, string>),
                         vs: (map<string, string>, map<string, string>))
  {
    Lookup(us.0, u) == Lookup(vs.0, u) && Lookup(us.1, u) == Lookup(vs.1, u)
  }

  class Router {
    const lib: Library
    const defaultUpstream: string
    var rules: seq<Rule>
    var matchers: seq<seq<Matcher>>
    var addrs: map<string, string>
    var tags: map<string, string>
    var resolver: Resolver
    /** The resolver the present matchers were built with. */
    ghost var builtWith: Resolver

    ghost predicate Valid()
      reads this
    {
      matchers == CompiledAll(rules, builtWith)
    }

    constructor (upstreams: seq<Upstream>, default: string, lib: Library)
      ensures Valid() && rules == [] && addrs == Addrs(upstreams) && tags == Tags(upstreams)
      ensures this.lib == lib && defaultUpstream == default && resolver == None
    {
      this.lib, defaultUpstream, rules, matchers, resolver, builtWith := lib, default, [], [], None, None;
      addrs, tags := map[], map[];
      new;
      addrs, tags := MapUpstreams(upstreams);
    }

    /** The first rule that holds decides; a rule holds as its matchers say. */
    method Route(q: Query) returns (res: Result)
      requires Valid()
      ensures Routed(res, rules, builtWith, q, lib, addrs, tags, defaultUpstream) && res == Outcome(q)
    {
      var i := FirstMatch(matchers, q, lib);
      FirstIs(rules, builtWith, i, q, lib);
      res := if i < |rules| then Hit(rules[i], addrs, tags) else Miss(defaultUpstream, addrs, tags);
      RoutedAt(res, i, rules, builtWith, q, lib, addrs, tags, defaultUpstream);
      RoutedIs(res, rules, builtWith, q, lib, addrs, tags, defaultUpstream);
    }

    /** UpdateRules: a rule that does not compile leaves everything as it was. */
    method UpdateRules(newRules: seq<Rule>) returns (ok: bool)
      requires Valid()
      modifies `rules, `matchers, `builtWith
      ensures Valid() && (ok <==> AllCompile(newRules, lib))
      ensures if ok then rules == newRules && builtWith == resolver
              else rules == old(rules) && matchers == old(matchers) && builtWith == old(builtWith)
    {
      var built := BuildAll(newRules, resolver, lib);
      if built.None? { return false; }
      rules, matchers, builtWith := newRules, built.value, resolver;
      ok := true;
    }

    /** Changing the resolver does not touch the matchers already built. */
    method SetGeositeResolver(r: Resolver)
      requires Valid()
      modifies `resolver
      ensures Valid() && resolver == r
    {
      resolver := r;
    }

    /** Reload puts the new upstreams in place first: after a failure the old rules run on them. */
    method Reload(newRules: seq<Rule>, upstreams: seq<Upstream>) returns (ok: bool)
      requires Valid()
      modifies `rules, `matchers, `builtWith, `addrs, `tags
      ensures Valid() && (ok <==> AllCompile(newRules, lib))
      ensures addrs == Addrs(upstreams) && tags == Tags(upstreams)
      ensures if ok then rules == newRules && builtWith == resolver
              else rules == old(rules) && matchers == old(matchers) && builtWith == old(builtWith)
      ensures !ok ==> forall q :: Outcome(q) == old(Outcome(q)) <==>
                                  SameUpstream(Picked(rules, builtWith, q, lib, defaultUpstream), old((addrs, tags)),
                                               (Addrs(upstreams), Tags(upstreams)))
    {
      addrs, tags := MapUpstreams(upstreams);
      ok := UpdateRules(newRules);
    }

    /** What a query is routed to. */
    ghost function Outcome(q: Query): Result
      reads this
    {
      Decision(rules, builtWith, q, lib, addrs, tags, defaultUpstream)
    }
  }

  /** One rule without conditions, sending to `u`. */
  const ANY := Rule("r", [], [], [], [], [], [], "u", "", "")

  lemma {:induction false} AnyDecides(q: Query, resolver: Resolver, lib: Library, addrs: map<string, string>,
                                      tags: map<string, string>)
    ensures Decision([ANY], resolver, q, lib, addrs, tags, "") ==
            Result("u", Lookup(addrs, "u"), "route", "r", "single", Lookup(tags, "u"))
  {
    assert RuleHolds([ANY][0], resolver, q, lib);
  }

  lemma {:induction false} Alone(r: Rule, lib: Library)
    ensures AllCompile([r], lib) <==> Compiles(r, lib)
  {
    assert [r][..0] == [];
  }

  /**
   The promise that a failed reload leaves routing alone fails: one rule whose upstream is taken off
   the list, reloaded together with a rule whose expression does not compile.
   */
  method FailedReload(q: Query, lib: Library) returns (before: Result, after: Result)
    requires !lib.compiles("(")
    ensures before == Result("u", "1.1.1.1:53", "route", "r", "single", "proxy")
    ensures after == Result("u", "", "route", "r", "single", "")
  {
    var u := Upstream("u", "1.1.1.1:53", "proxy");
    var router := new Router([u], "", lib);
    assert [u][..0] == [];
    Alone(ANY, lib);
    var _ := router.UpdateRules([ANY]);
    AnyDecides(q, router.builtWith, lib, router.addrs, router.tags);
    before := router.Route(q);
    var bad := ANY.(regex := ["("]);
    assert "(" in bad.regex;
    Alone(bad, lib);
    var _ := router.Reload([bad], []);
    AnyDecides(q, router.builtWith, lib, router.addrs, router.tags);
    after := router.Route(q);
  }

  /** After a reload that fails, an old rule whose upstream is no longer listed routes to no address. */
  lemma {:induction false} FailedReloadUnroutes(r: Rule, us: seq<Upstream>)
    requires forall i | 0 <= i < |us| :: us[i].id != r.upstream
    ensures Hit(r, Addrs(us), Tags(us)).addr == "" == Hit(r, Addrs(us), Tags(us)).tag
    decreases |us|
  {
    if us != [] {
      assert forall i | 0 <= i < |us| - 1 :: us[..|us| - 1][i] == us[i];
      FailedReloadUnroutes(r, us[..|us| - 1]);
    }
  }
}
