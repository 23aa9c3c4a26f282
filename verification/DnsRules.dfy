/** DNS rules: names and suffixes, the matchers a rule compiles to, and what they mean. */
module DnsRules {
  import opened Options

  datatype Query = Query(name: string, qtype: nat, client: Option<string>)

  datatype Rule = Rule(id: string, domain: seq<string>, suffix: seq<string>, regex: seq<string>, ip: seq<string>,
                       qtype: seq<int>, clientIp: seq<string>, upstream: string, action: string, policy: string)

  /** The libraries at work: which regular expressions and CIDRs parse, and what they match. */
  datatype Library = Library(
    compiles: string -> bool,
    matches: (string, string) -> bool,
    isCidr: string -> bool,
    contains: (string, string) -> bool)

  /** A geosite tag as its full domains and its suffixes. */
  type Resolver = Option<string -> (seq<string>, seq<string>)>

  // ------------------------------------------------------------- names and labels

  function TrimDot(s: string): string { if |s| > 0 && s[|s| - 1] == '.' then s[..|s| - 1] else s }

  predicate HasPrefix(s: string, p: string) { |s| >= |p| && s[..|p|] == p }

  predicate HasSuffix(s: string, p: string) { |s| >= |p| && s[|s| - |p|..] == p }

  /** A name split at its dots. */
  function Labels(s: string): (r: seq<string>)
    ensures |r| > 0
  {
    if s == [] then [""]
    else
      var rest := Labels(s[1..]);
      if s[0] == '.' then [""] + rest else [[s[0]] + rest[0]] + rest[1..]
  }

  function Join(ls: seq<string>): string
    requires |ls| > 0
  {
    if |ls| == 1 then ls[0] else ls[0] + "." + Join(ls[1..])
  }

  function Prepended(c: char, rest: seq<string>): seq<string>
    requires |rest| > 0
  {
    if c == '.' then [""] + rest else [[c] + rest[0]] + rest[1..]
  }

  lemma {:induction false} JoinPrepended(c: char, rest: seq<string>)
    requires |rest| > 0
    ensures Join(Prepended(c, rest)) == [c] + Join(rest)
  {
    var l := Prepended(c, rest);
    if c == '.' {
      assert l[1..] == rest;
    } else {
      assert l[1..] == rest[1..];
      if |rest| > 1 { assert [c] + rest[0] + "." + Join(rest[1..]) == [c] + (rest[0] + "." + Join(rest[1..])); }
    }
  }

  lemma {:induction false} JoinLabels(s: string)
    ensures Join(Labels(s)) == s
    decreases |s|
  {
    if s != [] {
      JoinLabels(s[1..]);
      JoinPrepended(s[0], Labels(s[1..]));
      assert s == [s[0]] + s[1..];
    }
  }

  lemma {:induction false} PrependedConcat(c: char, a: seq<string>, b: seq<string>)
    requires |a| > 0
    ensures Prepended(c, a + b) == Prepended(c, a) + b
  {
    assert (a + b)[0] == a[0] && (a + b)[1..] == a[1..] + b;
  }

  lemma {:induction false} LabelsCons(c: char, s: string)
    ensures Labels([c] + s) == Prepended(c, Labels(s))
  {
    assert ([c] + s)[1..] == s;
  }

  lemma {:induction false} LabelsDot(a: string, b: string)
    ensures Labels(a + "." + b) == Labels(a) + Labels(b)
    decreases |a|
  {
    if a == [] {
      assert a + "." + b == ['.'] + b;
      LabelsCons('.', b);
      assert Labels("") == [""];
    } else {
      assert a + "." + b == [a[0]] + (a[1..] + "." + b);
      assert a == [a[0]] + a[1..];
      LabelsCons(a[0], a[1..] + "." + b);
      LabelsCons(a[0], a[1..]);
      LabelsDot(a[1..], b);
      PrependedConcat(a[0], Labels(a[1..]), Labels(b));
    }
  }

  lemma {:induction false} JoinConcat(p: seq<string>, q: seq<string>)
    requires |p| > 0 && |q| > 0
    ensures Join(p + q) == Join(p) + "." + Join(q)
    decreases |p|
  {
    assert (p + q)[0] == p[0] && (p + q)[1..] == p[1..] + q;
    if |p| == 1 {
      assert p[1..] + q == q;
    } else {
      JoinConcat(p[1..], q);
      assert p[0] + "." + (Join(p[1..]) + "." + Join(q)) == p[0] + "." + Join(p[1..]) + "." + Join(q);
    }
  }

  predicate LabelSuffix(small: seq<string>, big: seq<string>) { |small| <= |big| && big[|big| - |small|..] == small }

  lemma {:induction false} DotThenLabels(name: string, d: string)
    requires HasSuffix(name, "." + d)
    ensures LabelSuffix(Labels(d), Labels(name)) && |Labels(name)| > |Labels(d)|
  {
    var a := name[..|name| - |d| - 1];
    assert name == a + ("." + d) == a + "." + d;
    LabelsDot(a, d);
    assert (Labels(a) + Labels(d))[|Labels(a)|..] == Labels(d);
  }

  lemma {:induction false} LabelsThenDot(name: string, d: string)
    requires LabelSuffix(Labels(d), Labels(name)) && |Labels(name)| > |Labels(d)|
    ensures HasSuffix(name, "." + d)
  {
    var front := Labels(name)[..|Labels(name)| - |Labels(d)|];
    assert Labels(name) == front + Labels(d);
    JoinConcat(front, Labels(d));
    JoinLabels(name);
    JoinLabels(d);
    EndsAfter(Join(front), name, d);
  }

  lemma {:induction false} EndsAfter(a: string, name: string, d: string)
    requires name == a + "." + d
    ensures HasSuffix(name, "." + d)
  {
    assert name == a + ("." + d);
  }

  lemma {:induction false} AfterDot(name: string, d: string)
    ensures HasSuffix(name, "." + d) <==> LabelSuffix(Labels(d), Labels(name)) && |Labels(name)| > |Labels(d)|
  {
    if HasSuffix(name, "." + d) { DotThenLabels(name, d); }
    if LabelSuffix(Labels(d), Labels(name)) && |Labels(name)| > |Labels(d)| { LabelsThenDot(name, d); }
  }

  lemma {:induction false} SameLabels(a: string, b: string)
    ensures a == b <==> Labels(a) == Labels(b)
  {
    JoinLabels(a);
    JoinLabels(b);
  }

  // -------------------------------------------------------------------- matchers

  datatype Leaf =
    | Exact(d: string)
    | Suffix(d: string)
    | Regex(d: string)
    | Ip(cidr: string)
    | QType(t: int)
    | ClientIp(cidr: string)

  datatype Matcher = One(leaf: Leaf) | Or(leaves: seq<Leaf>)

  predicate Inside(cidr: string, client: Option<string>, lib: Library)
  {
    client.Some? && lib.contains(cidr, client.value)
  }

  predicate MatchLeaf(l: Leaf, q: Query, lib: Library)
  {
    var name := TrimDot(q.name);
    match l
    case Exact(d) => name == TrimDot(d)
    case Suffix(d) =>
      var domain := TrimDot(d);
      if HasPrefix(domain, ".") then HasSuffix(name, domain) else name == domain || HasSuffix(name, "." + domain)
    case Regex(d) => lib.matches(d, name)
    case Ip(c) => Inside(c, q.client, lib)
    case QType(t) => t == q.qtype
    case ClientIp(c) => Inside(c, q.client, lib)
  }

  /**
   A suffix entry compares labels: without a leading dot it matches the domain itself and
   everything below it; with one it matches only what is below.
   */
  lemma {:induction false} SuffixByLabels(d: string, q: Query, lib: Library)
    ensures var name, domain := TrimDot(q.name), TrimDot(d);
            MatchLeaf(Suffix(d), q, lib) <==>
            if HasPrefix(domain, ".") then
              LabelSuffix(Labels(domain[1..]), Labels(name)) && |Labels(name)| > |Labels(domain[1..])|
            else LabelSuffix(Labels(domain), Labels(name))
  {
    var name, domain := TrimDot(q.name), TrimDot(d);
    if HasPrefix(domain, ".") {
      assert domain == "." + domain[1..] by { assert domain[..1] == "."; }
      AfterDot(name, domain[1..]);
    } else {
      AfterDot(name, domain);
      SameLabels(name, domain);
    }
  }

  /** A name as its labels, a dot at its end aside. */
  function NameLabels(s: string): (r: seq<string>)
    ensures |r| > 0
  {
    var ls := Labels(s);
    if |ls| > 1 && ls[|ls| - 1] == "" then ls[..|ls| - 1] else ls
  }

  /**
   What an entry says of a query: the same name; that name or one below it, or only one below if it
   begins with a dot; a name the expression matches; the type; a client in the network.
   */
  ghost predicate Fits(l: Leaf, q: Query, lib: Library)
  {
    var name := NameLabels(q.name);
    match l
    case Exact(d) => name == NameLabels(d)
    case Suffix(d) =>
      var ds := NameLabels(d);
      if |ds| > 1 && ds[0] == "" then LabelSuffix(ds[1..], name) && |name| >= |ds| else LabelSuffix(ds, name)
    case Regex(d) => lib.matches(d, Join(name))
    case QType(t) => t == q.qtype
    case Ip(c) => q.client.Some? && lib.contains(c, q.client.value)
    case ClientIp(c) => q.client.Some? && lib.contains(c, q.client.value)
  }

  lemma {:induction false} NameLabelsIs(s: string)
    ensures NameLabels(s) == Labels(TrimDot(s)) && Join(NameLabels(s)) == TrimDot(s)
  {
    JoinLabels(TrimDot(s));
    if TrimDot(s) != s { DotAtEnd(TrimDot(s), s); } else { NoDotAtEnd(s); }
  }

  lemma {:induction false} DotAtEnd(a: string, s: string)
    requires s == a + "."
    ensures NameLabels(s) == Labels(a)
  {
    assert s == a + "." + "" && Labels("") == [""];
    LabelsDot(a, "");
    assert (Labels(a) + [""])[..|Labels(a)|] == Labels(a);
  }

  /** A name that does not end in a dot has a last label, unless it is empty. */
  lemma {:induction false} NoDotAtEnd(s: string)
    requires s == "" || s[|s| - 1] != '.'
    ensures NameLabels(s) == Labels(s)
  {
    var ls := Labels(s);
    if |ls| > 1 && ls[|ls| - 1] == "" {
      var front := ls[..|ls| - 1];
      assert ls == front + [""];
      JoinConcat(front, [""]);
      JoinLabels(s);
    }
  }

  lemma {:induction false} FirstLabel(s: string)
    ensures var ls := Labels(s); HasPrefix(s, ".") <==> |ls| > 1 && ls[0] == ""
    ensures HasPrefix(s, ".") ==> Labels(s)[1..] == Labels(s[1..])
  {
    if s != [] {
      LabelsCons(s[0], s[1..]);
      assert s == [s[0]] + s[1..] && s[..1] == [s[0]];
    }
  }

  /** The matchers decide each entry as it is meant. */
  lemma {:induction false} LeafFits(l: Leaf, q: Query, lib: Library)
    ensures MatchLeaf(l, q, lib) <==> Fits(l, q, lib)
  {
    NameLabelsIs(q.name);
    if l.Exact? {
      NameLabelsIs(l.d);
      SameLabels(TrimDot(q.name), TrimDot(l.d));
    } else if l.Suffix? {
      NameLabelsIs(l.d);
      FirstLabel(TrimDot(l.d));
      SuffixByLabels(l.d, q, lib);
    }
  }

  method MatchOr(leaves: seq<Leaf>, q: Query, lib: Library) returns (b: bool)
    ensures b <==> exists i | 0 <= i < |leaves| :: MatchLeaf(leaves[i], q, lib)
  {
    for i := 0 to |leaves|
      invariant forall k | 0 <= k < i :: !MatchLeaf(leaves[k], q, lib)
    {
      if MatchLeaf(leaves[i], q, lib) { return true; }
    }
    b := false;
  }

  predicate Matches(m: Matcher, q: Query, lib: Library)
  {
    match m
    case One(l) => MatchLeaf(l, q, lib)
    case Or(ls) => exists i | 0 <= i < |ls| :: MatchLeaf(ls[i], q, lib)
  }

  method MatchAll(ms: seq<Matcher>, q: Query, lib: Library) returns (b: bool)
    ensures b <==> AllMatch(ms, q, lib)
  {
    for i := 0 to |ms|
      invariant forall k | 0 <= k < i :: Matches(ms[k], q, lib)
    {
      var m;
      match ms[i] {
        case One(l) => m := MatchLeaf(l, q, lib);
        case Or(ls) => m := MatchOr(ls, q, lib);
      }
      if !m { return false; }
    }
    b := true;
  }

  // ----------------------------------------------------------------- compilation

  const GEOSITE := "geosite:"

  predicate IsTag(d: string) { HasPrefix(d, GEOSITE) }

  /** A domain entry's leaves: a geosite tag becomes its domains and suffixes, or nothing. */
  function Expanded(d: string, resolver: Resolver): seq<Leaf>
    requires IsTag(d)
  {
    if resolver.None? then []
    else
      var (doms, sufs) := resolver.value(d[|GEOSITE|..]);
      seq(|doms|, i requires 0 <= i < |doms| => Exact(doms[i]))
      + seq(|sufs|, i requires 0 <= i < |sufs| => Suffix(sufs[i]))
  }

  method Expand(d: string, resolver: Resolver) returns (ls: seq<Leaf>)
    requires IsTag(d)
    ensures ls == Expanded(d, resolver)
  {
    ls := [];
    if resolver.None? { return; }
    var (doms, sufs) := resolver.value(d[|GEOSITE|..]);
    for i := 0 to |doms|
      invariant ls == seq(i, k requires 0 <= k < i => if k < |doms| then Exact(doms[k]) else Exact(""))
    {
      ls := ls + [Exact(doms[i])];
    }
    ghost var front := ls;
    for i := 0 to |sufs|
      invariant ls == front + seq(i, k requires 0 <= k < i => if k < |sufs| then Suffix(sufs[k]) else Suffix(""))
    {
      ls := ls + [Suffix(sufs[i])];
    }
    assert ls == Expanded(d, resolver);
  }

  function EntryLeaves(d: string, plain: Leaf, resolver: Resolver): seq<Leaf>
  {
    if IsTag(d) then Expanded(d, resolver) else [plain]
  }

  /** Whole domains, then suffixes, each a list of entries. */
  function ExactLeaves(ds: seq<string>, resolver: Resolver): seq<Leaf>
  {
    if ds == [] then []
    else ExactLeaves(ds[..|ds| - 1], resolver) + EntryLeaves(ds[|ds| - 1], Exact(ds[|ds| - 1]), resolver)
  }

  function SuffixLeaves(ds: seq<string>, resolver: Resolver): seq<Leaf>
  {
    if ds == [] then []
    else SuffixLeaves(ds[..|ds| - 1], resolver) + EntryLeaves(ds[|ds| - 1], Suffix(ds[|ds| - 1]), resolver)
  }

  function RegexLeaf(d: string): Leaf { Regex(d) }
  function IpLeaf(c: string): Leaf { Ip(c) }
  function QTypeLeaf(t: int): Leaf { QType(t) }
  function ClientIpLeaf(c: string): Leaf { ClientIp(c) }

  function Mapped<T>(xs: seq<T>, f: T -> Leaf): seq<Leaf> { seq(|xs|, i requires 0 <= i < |xs| => f(xs[i])) }

  function DomainLeaves(r: Rule, resolver: Resolver): seq<Leaf>
  {
    ExactLeaves(r.domain, resolver) + SuffixLeaves(r.suffix, resolver) + Mapped(r.regex, RegexLeaf)
  }

  method BuildExact(ds: seq<string>, resolver: Resolver) returns (ls: seq<Leaf>)
    ensures ls == ExactLeaves(ds, resolver)
  {
    ls := [];
    for i := 0 to |ds|
      invariant ls == ExactLeaves(ds[..i], resolver)
    {
      var d := ds[i];
      assert ds[..i + 1][..i] == ds[..i];
      if IsTag(d) {
        var more := Expand(d, resolver);
        ls := ls + more;
      } else {
        ls := ls + [Exact(d)];
      }
    }
    assert ds[..|ds|] == ds;
  }

  method BuildSuffix(ds: seq<string>, resolver: Resolver) returns (ls: seq<Leaf>)
    ensures ls == SuffixLeaves(ds, resolver)
  {
    ls := [];
    for i := 0 to |ds|
      invariant ls == SuffixLeaves(ds[..i], resolver)
    {
      var d := ds[i];
      assert ds[..i + 1][..i] == ds[..i];
      if IsTag(d) {
        var more := Expand(d, resolver);
        ls := ls + more;
      } else {
        ls := ls + [Suffix(d)];
      }
    }
    assert ds[..|ds|] == ds;
  }

  /** Entries that must parse, each becoming one leaf. */
  method BuildParsed(cs: seq<string>, f: string -> Leaf, parses: string -> bool) returns (ok: bool, ls: seq<Leaf>)
    ensures ok <==> forall c | c in cs :: parses(c)
    ensures ok ==> ls == Mapped(cs, f)
  {
    ls := [];
    for i := 0 to |cs|
      invariant forall k | 0 <= k < i :: parses(cs[k])
      invariant ls == Mapped(cs, f)[..i]
    {
      if !parses(cs[i]) { return false, []; }
      ls := ls + [f(cs[i])];
    }
    ok := true;
  }

  function Group(ls: seq<Leaf>): seq<Matcher> { if |ls| == 0 then [] else if |ls| == 1 then [One(ls[0])] else [Or(ls)] }

  predicate Compiles(r: Rule, lib: Library)
  {
    && (forall d | d in r.regex :: lib.compiles(d))
    && (forall c | c in r.ip :: lib.isCidr(c)) && (forall c | c in r.clientIp :: lib.isCidr(c))
  }

  /** Every expression compiles and every network is one. */
  ghost predicate WellFormed(r: Rule, lib: Library)
  {
    (forall d | d in r.regex :: lib.compiles(d)) && forall c | c in r.ip + r.clientIp :: lib.isCidr(c)
  }

  function Compiled(r: Rule, resolver: Resolver): seq<Matcher>
  {
    Group(DomainLeaves(r, resolver)) + Group(Mapped(r.ip, IpLeaf)) + Group(Mapped(r.qtype, QTypeLeaf))
    + Group(Mapped(r.clientIp, ClientIpLeaf))
  }

  /** BuildMatchers: None on a bad regular expression or CIDR. */
  method BuildMatchers(r: Rule, resolver: Resolver, lib: Library) returns (ms: Option<seq<Matcher>>)
    ensures ms == if Compiles(r, lib) then Some(Compiled(r, resolver)) else None
    ensures ms.Some? <==> WellFormed(r, lib)
  {
    var exact := BuildExact(r.domain, resolver);
    var suffixes := BuildSuffix(r.suffix, resolver);
    var ok, patterns := BuildParsed(r.regex, RegexLeaf, lib.compiles);
    if !ok { return None; }
    var ips;
    ok, ips := BuildParsed(r.ip, IpLeaf, lib.isCidr);
    if !ok { return None; }
    var types := [];
    for i := 0 to |r.qtype|
      invariant types == Mapped(r.qtype, QTypeLeaf)[..i]
    {
      types := types + [QTypeLeaf(r.qtype[i])];
      assert Mapped(r.qtype, QTypeLeaf)[i] == QTypeLeaf(r.qtype[i]);
    }
    assert types == Mapped(r.qtype, QTypeLeaf);
    var clients;
    ok, clients := BuildParsed(r.clientIp, ClientIpLeaf, lib.isCidr);
    if !ok { return None; }
    ms := Some(Group(exact + suffixes + patterns) + Group(ips) + Group(types) + Group(clients));
  }

  // --------------------------------------------------------------------- meaning

  /** What an entry in the domain or suffix list stands for. */
  predicate Stands(l: Leaf, d: string, plain: Leaf, resolver: Resolver)
  {
    if !("geosite:" <= d) then l == plain
    else if resolver.None? then false
    else
      var (doms, sufs) := resolver.value(d[8..]);
      (l.Exact? && l.d in doms) || (l.Suffix? && l.d in sufs)
  }

  ghost predicate DomainEntry(l: Leaf, r: Rule, resolver: Resolver)
  {
    || (exists d | d in r.domain :: Stands(l, d, Exact(d), resolver))
    || (exists d | d in r.suffix :: Stands(l, d, Suffix(d), resolver))
    || (l.Regex? && l.d in r.regex)
  }

  ghost predicate Entry(l: Leaf, field: nat, r: Rule, resolver: Resolver)
  {
    match field
    case 0 => DomainEntry(l, r, resolver)
    case 1 => l.Ip? && l.cidr in r.ip
    case 2 => l.QType? && l.t in r.qtype
    case _ => l.ClientIp? && l.cidr in r.clientIp
  }

  /** A field that stands for nothing constrains nothing; else one of its entries must match. */
  ghost predicate FieldHolds(field: nat, r: Rule, resolver: Resolver, q: Query, lib: Library)
  {
    (exists l :: Entry(l, field, r, resolver)) ==> exists l :: Entry(l, field, r, resolver) && MatchLeaf(l, q, lib)
  }

  ghost predicate RuleHolds(r: Rule, resolver: Resolver, q: Query, lib: Library)
  {
    forall field: nat | field < 4 :: FieldHolds(field, r, resolver, q, lib)
  }

  /** The same with each entry as it is meant: all the rule says of the query is true. */
  ghost predicate RuleFits(r: Rule, resolver: Resolver, q: Query, lib: Library)
  {
    forall field: nat | field < 4 :: FieldFits(field, r, resolver, q, lib)
  }

  ghost predicate FieldFits(field: nat, r: Rule, resolver: Resolver, q: Query, lib: Library)
  {
    (exists l :: Entry(l, field, r, resolver)) ==> exists l :: Entry(l, field, r, resolver) && Fits(l, q, lib)
  }

  lemma {:induction false} HoldsFits(r: Rule, resolver: Resolver, q: Query, lib: Library)
    ensures RuleHolds(r, resolver, q, lib) <==> RuleFits(r, resolver, q, lib)
  {
    forall field: nat | field < 4
      ensures FieldHolds(field, r, resolver, q, lib) <==> FieldFits(field, r, resolver, q, lib)
    {
      FieldMeans(field, r, resolver, q, lib);
    }
  }

  lemma {:induction false} FieldMeans(field: nat, r: Rule, resolver: Resolver, q: Query, lib: Library)
    ensures FieldHolds(field, r, resolver, q, lib) <==> FieldFits(field, r, resolver, q, lib)
  {
    if l :| Entry(l, field, r, resolver) && MatchLeaf(l, q, lib) { LeafFits(l, q, lib); }
    if l :| Entry(l, field, r, resolver) && Fits(l, q, lib) { LeafFits(l, q, lib); }
  }

  ghost predicate AllMatch(ms: seq<Matcher>, q: Query, lib: Library)
  {
    forall i | 0 <= i < |ms| :: Matches(ms[i], q, lib)
  }

  lemma {:induction false} EntryLeavesStand(l: Leaf, d: string, plain: Leaf, resolver: Resolver)
    ensures l in EntryLeaves(d, plain, resolver) <==> Stands(l, d, plain, resolver)
  {
    if IsTag(d) && resolver.Some? {
      var (doms, sufs) := resolver.value(d[|GEOSITE|..]);
      var a := seq(|doms|, i requires 0 <= i < |doms| => Exact(doms[i]));
      var b := seq(|sufs|, i requires 0 <= i < |sufs| => Suffix(sufs[i]));
      assert l in a <==> l.Exact? && l.d in doms by {
        if l.Exact? && l.d in doms {
          var i :| 0 <= i < |doms| && doms[i] == l.d;
          assert a[i] == l;
        }
      }
      assert l in b <==> l.Suffix? && l.d in sufs by {
        if l.Suffix? && l.d in sufs {
          var i :| 0 <= i < |sufs| && sufs[i] == l.d;
          assert b[i] == l;
        }
      }
    }
  }

  lemma {:induction false} ExactLeavesStand(l: Leaf, ds: seq<string>, resolver: Resolver)
    ensures l in ExactLeaves(ds, resolver) <==> exists d | d in ds :: Stands(l, d, Exact(d), resolver)
    decreases |ds|
  {
    if ds != [] {
      var n := |ds| - 1;
      assert ds == ds[..n] + [ds[n]];
      ExactLeavesStand(l, ds[..n], resolver);
      EntryLeavesStand(l, ds[n], Exact(ds[n]), resolver);
    }
  }

  lemma {:induction false} SuffixLeavesStand(l: Leaf, ds: seq<string>, resolver: Resolver)
    ensures l in SuffixLeaves(ds, resolver) <==> exists d | d in ds :: Stands(l, d, Suffix(d), resolver)
    decreases |ds|
  {
    if ds != [] {
      var n := |ds| - 1;
      assert ds == ds[..n] + [ds[n]];
      SuffixLeavesStand(l, ds[..n], resolver);
      EntryLeavesStand(l, ds[n], Suffix(ds[n]), resolver);
    }
  }

  lemma {:induction false} MappedHas<T>(xs: seq<T>, f: T -> Leaf, l: Leaf)
    ensures l in Mapped(xs, f) <==> exists x | x in xs :: f(x) == l
  {
    if x :| x in xs && f(x) == l {
      var i :| 0 <= i < |xs| && xs[i] == x;
      assert Mapped(xs, f)[i] == l;
    }
  }

  ghost function FieldLeaves(field: nat, r: Rule, resolver: Resolver): seq<Leaf>
  {
    match field
    case 0 => DomainLeaves(r, resolver)
    case 1 => Mapped(r.ip, IpLeaf)
    case 2 => Mapped(r.qtype, QTypeLeaf)
    case _ => Mapped(r.clientIp, ClientIpLeaf)
  }

  lemma {:induction false} FieldEntries(field: nat, r: Rule, resolver: Resolver, l: Leaf)
    ensures l in FieldLeaves(field, r, resolver) <==> Entry(l, field, r, resolver)
  {
    match field {
      case 0 =>
        ExactLeavesStand(l, r.domain, resolver);
        SuffixLeavesStand(l, r.suffix, resolver);
        MappedHas(r.regex, RegexLeaf, l);
      case 1 => MappedHas(r.ip, IpLeaf, l);
      case 2 => MappedHas(r.qtype, QTypeLeaf, l);
      case _ => MappedHas(r.clientIp, ClientIpLeaf, l);
    }
  }

  lemma {:induction false} GroupHolds(field: nat, r: Rule, resolver: Resolver, q: Query, lib: Library)
    ensures AllMatch(Group(FieldLeaves(field, r, resolver)), q, lib) <==> FieldHolds(field, r, resolver, q, lib)
  {
    var ls := FieldLeaves(field, r, resolver);
    forall l
      ensures l in ls <==> Entry(l, field, r, resolver)
    {
      FieldEntries(field, r, resolver, l);
    }
    assert ls != [] ==> ls[0] in ls && Entry(ls[0], field, r, resolver);
    GroupMeans(ls, q, lib);
  }

  /** A group matches when it is empty or one of its leaves does. */
  lemma {:induction false} GroupMeans(ls: seq<Leaf>, q: Query, lib: Library)
    ensures AllMatch(Group(ls), q, lib) <==> ls == [] || exists l | l in ls :: MatchLeaf(l, q, lib)
  {
    if |ls| == 1 {
      assert AllMatch(Group(ls), q, lib) <==> Matches(Group(ls)[0], q, lib);
      assert ls[0] in ls;
    } else if |ls| > 1 {
      assert AllMatch(Group(ls), q, lib) <==> Matches(Group(ls)[0], q, lib);
      if l :| l in ls && MatchLeaf(l, q, lib) {
        var i :| 0 <= i < |ls| && ls[i] == l;
        assert MatchLeaf(ls[i], q, lib);
      }
    }
  }

  lemma {:induction false} AllMatchConcat(a: seq<Matcher>, b: seq<Matcher>, q: Query, lib: Library)
    ensures AllMatch(a + b, q, lib) <==> AllMatch(a, q, lib) && AllMatch(b, q, lib)
  {
    if AllMatch(a + b, q, lib) {
      assert forall i | 0 <= i < |a| :: (a + b)[i] == a[i];
      assert forall i | 0 <= i < |b| :: (a + b)[|a| + i] == b[i];
    }
  }

  /** Compilation keeps the meaning: the matchers accept exactly the queries the rule describes. */
  lemma {:induction false} CompiledMeans(r: Rule, resolver: Resolver, q: Query, lib: Library)
    ensures AllMatch(Compiled(r, resolver), q, lib) <==> RuleHolds(r, resolver, q, lib)
  {
    var a, b := Group(FieldLeaves(0, r, resolver)), Group(FieldLeaves(1, r, resolver));
    var c, d := Group(FieldLeaves(2, r, resolver)), Group(FieldLeaves(3, r, resolver));
    FourMatch(a, b, c, d, q, lib);
    GroupHolds(0, r, resolver, q, lib);
    GroupHolds(1, r, resolver, q, lib);
    GroupHolds(2, r, resolver, q, lib);
    GroupHolds(3, r, resolver, q, lib);
    FourFields(r, resolver, q, lib);
  }

  lemma {:induction false} FourMatch(a: seq<Matcher>, b: seq<Matcher>, c: seq<Matcher>, d: seq<Matcher>, q: Query,
                                     lib: Library)
    ensures AllMatch(a + b + c + d, q, lib) <==>
            AllMatch(a, q, lib) && AllMatch(b, q, lib) && AllMatch(c, q, lib) && AllMatch(d, q, lib)
  {
    AllMatchConcat(a, b, q, lib);
    AllMatchConcat(a + b, c, q, lib);
    AllMatchConcat(a + b + c, d, q, lib);
  }

  lemma {:induction false} FourFields(r: Rule, resolver: Resolver, q: Query, lib: Library)
    ensures RuleHolds(r, resolver, q, lib) <==>
            FieldHolds(0, r, resolver, q, lib) && FieldHolds(1, r, resolver, q, lib) &&
            FieldHolds(2, r, resolver, q, lib) && FieldHolds(3, r, resolver, q, lib)
  {}
}
