/**
 DNS messages on their way out and back: the EDNS0 record of section 6.1.1 of RFC 6891, the
 loop token in it, and the reply made to fit what the client asked for.
 */
module DnsMessages {
  import opened Options

  const LOOP_OPTION_CODE := 65042
  const MIN_MSG_SIZE := 512

  type Bytes = seq<int>

  datatype EdnsOption =
    | Local(code: int, data: Bytes)
    | Subnet(family: int, mask: int, address: Bytes)
    | Foreign(code: int, data: Bytes)

  datatype Record = Opt(size: int, dnssec: bool, options: seq<EdnsOption>) | Sig(text: string) | Plain(text: string)

  // --------------------------------------------------------------- the OPT record

  /** IsEdns0 searches from the end; -1 if there is no OPT. */
  function LastOpt(extra: seq<Record>): (i: int)
    ensures -1 <= i < |extra|
    ensures i >= 0 ==> extra[i].Opt?
    ensures forall k | i < k < |extra| :: !extra[k].Opt?
  {
    if extra == [] then -1
    else if extra[|extra| - 1].Opt? then |extra| - 1
    else LastOpt(extra[..|extra| - 1])
  }

  predicate IsLoopOption(o: EdnsOption) { o.Local? && o.code == LOOP_OPTION_CODE }

  predicate IsToken(o: EdnsOption, token: Bytes) { IsLoopOption(o) && o.data == token }

  function Opts(rs: seq<Record>): nat
  {
    if rs == [] then 0 else Opts(rs[..|rs| - 1]) + if rs[|rs| - 1].Opt? then 1 else 0
  }

  function LoopOptions(os: seq<EdnsOption>): nat
  {
    if os == [] then 0 else LoopOptions(os[..|os| - 1]) + if IsLoopOption(os[|os| - 1]) then 1 else 0
  }

  /** carriesOwnToken. */
  predicate Carries(extra: seq<Record>, token: Bytes)
  {
    var i := LastOpt(extra);
    i >= 0 && exists k | 0 <= k < |extra[i].options| :: IsToken(extra[i].options[k], token)
  }

  /** The last OPT record there is holds the loop option, 65042, with the token. */
  ghost predicate HoldsToken(extra: seq<Record>, token: Bytes)
  {
    exists i | 0 <= i < |extra| ::
      && extra[i].Opt? && Local(65042, token) in extra[i].options
      && forall k | i < k < |extra| :: !extra[k].Opt?
  }

  lemma {:induction false} CarriesIs(extra: seq<Record>, token: Bytes)
    ensures Carries(extra, token) <==> HoldsToken(extra, token)
  {
    var i := LastOpt(extra);
    if HoldsToken(extra, token) {
      var j :| 0 <= j < |extra| && extra[j].Opt? && Local(65042, token) in extra[j].options
               && forall k | j < k < |extra| :: !extra[k].Opt?;
      var k :| 0 <= k < |extra[j].options| && extra[j].options[k] == Local(65042, token);
      assert IsToken(extra[i].options[k], token);
    }
  }

  /** The first loop option, or the number of options. */
  function FirstLoop(os: seq<EdnsOption>): (k: nat)
    ensures k <= |os| && (k < |os| ==> IsLoopOption(os[k])) && forall j | 0 <= j < k :: !IsLoopOption(os[j])
  {
    if os == [] then 0
    else
      var n := |os| - 1;
      var k := FirstLoop(os[..n]);
      assert forall j | 0 <= j < k :: os[..n][j] == os[j];
      if k < n then k else if IsLoopOption(os[n]) then n else n + 1
  }

  function WithToken(os: seq<EdnsOption>, token: Bytes): seq<EdnsOption>
  {
    var k := FirstLoop(os);
    if k < |os| then os[k := Local(LOOP_OPTION_CODE, token)] else os + [Local(LOOP_OPTION_CODE, token)]
  }

  /** markOutgoing. */
  function Marked(extra: seq<Record>, token: Bytes): seq<Record>
  {
    var i := LastOpt(extra);
    if i >= 0 then extra[i := extra[i].(options := WithToken(extra[i].options, token))]
    else extra + [Opt(4096, false, WithToken([], token))]
  }

  /** AddEDNS0 with one option. */
  function WithOption(extra: seq<Record>, size: int, o: EdnsOption): seq<Record>
  {
    var i := LastOpt(extra);
    if i >= 0 then extra[i := extra[i].(size := size, options := extra[i].options + [o])]
    else extra + [Opt(size, false, [o])]
  }

  /** The client subnet option: a /24 of an IPv4 address, a /48 of an IPv6 one. */
  function Ecs(ip: Bytes): EdnsOption { if |ip| == 4 then Subnet(1, 24, ip) else Subnet(2, 48, ip) }

  // ------------------------------------------------------------------- a message

  class Message {
    var answer: seq<Record>
    var authority: seq<Record>
    var extra: seq<Record>

    constructor ()
      ensures answer == [] && authority == [] && extra == []
    {
      answer, authority, extra := [], [], [];
    }

    method IsEdns0() returns (i: int)
      ensures i == LastOpt(extra)
    {
      i := |extra| - 1;
      while i >= 0 && !extra[i].Opt?
        invariant -1 <= i < |extra| && LastOpt(extra[..i + 1]) == LastOpt(extra)
      {
        assert extra[..i + 1][..i] == extra[..i];
        i := i - 1;
      }
      if i >= 0 { assert extra[..i + 1][i] == extra[i]; }
    }

    /** The library appends without looking for an OPT that is already there. */
    method SetEdns0(size: int, dnssec: bool)
      modifies `extra
      ensures extra == old(extra) + [Opt(size, dnssec, [])]
    {
      extra := extra + [Opt(size, dnssec, [])];
    }

    method MarkOutgoing(token: Bytes)
      modifies `extra
      ensures extra == Marked(old(extra), token)
    {
      var i := IsEdns0();
      if i < 0 {
        SetEdns0(4096, false);
        i := |extra| - 1;
      }
      var os := extra[i].options;
      var k := 0;
      while k < |os| && !IsLoopOption(os[k])
        invariant k <= |os| && forall j | 0 <= j < k :: !IsLoopOption(os[j])
      {
        k := k + 1;
      }
      assert k == FirstLoop(os);
      if k < |os| {
        extra := extra[i := extra[i].(options := os[k := Local(LOOP_OPTION_CODE, token)])];
      } else {
        extra := extra[i := extra[i].(options := os + [Local(LOOP_OPTION_CODE, token)])];
      }
    }

    method CarriesOwnToken(token: Bytes) returns (b: bool)
      ensures b == Carries(extra, token) && (b <==> HoldsToken(extra, token))
    {
      CarriesIs(extra, token);
      var i := IsEdns0();
      if i < 0 { return false; }
      var os := extra[i].options;
      for k := 0 to |os|
        invariant forall j | 0 <= j < k :: !IsToken(os[j], token)
      {
        if IsLoopOption(os[k]) && |os[k].data| == |token| {
          var same := SameBytes(os[k].data, token);
          if same { return true; }
        }
      }
      b := false;
    }

    method AddEcsSubnet(ip: Option<Bytes>)
      modifies `extra
      ensures extra == if ip.None? then old(extra) else WithOption(old(extra), 4096, Ecs(ip.value))
    {
      if ip.None? { return; }
      var o := Ecs(ip.value);
      var i := IsEdns0();
      if i >= 0 {
        extra := extra[i := extra[i].(size := 4096, options := extra[i].options + [o])];
      } else {
        extra := extra + [Opt(4096, false, [o])];
      }
    }

    /** sanitizeForClient; `client` is the OPT of the client's query. */
    method SanitizeForClient(client: Option<Record>)
      requires client.Some? ==> client.value.Opt?
      modifies this
      ensures answer == Fitting(old(answer), client) && authority == Fitting(old(authority), client)
      ensures extra == Fitting(WithoutOpts(old(extra)), client) + FreshOpt(client)
    {
      extra := DropOpts(extra);
      if client.None? || !client.value.dnssec {
        answer := DropSigs(answer);
        authority := DropSigs(authority);
        extra := DropSigs(extra);
      }
      if client.Some? {
        SetEdns0(if client.value.size < MIN_MSG_SIZE then MIN_MSG_SIZE else client.value.size, client.value.dnssec);
      }
    }
  }

  method SameBytes(a: Bytes, b: Bytes) returns (same: bool)
    requires |a| == |b|
    ensures same <==> a == b
  {
    for i := 0 to |b|
      invariant a[..i] == b[..i]
    {
      if a[i] != b[i] { return false; }
    }
    same := true;
  }

  // ------------------------------------------------------------- queries going out

  /** What every path builds: an OPT, the token, then perhaps the client subnet. */
  function BuiltExtra(token: Bytes, ip: Option<Bytes>): seq<Record>
  {
    var e := Marked([Opt(4096, true, [])], token);
    if ip.None? then e else WithOption(e, 4096, Ecs(ip.value))
  }

  method BuildQuery(token: Bytes, ip: Option<Bytes>) returns (m: Message)
    ensures fresh(m) && m.extra == BuiltExtra(token, ip) && m.answer == [] && m.authority == []
  {
    m := new Message();
    m.SetEdns0(4096, true);
    m.MarkOutgoing(token);
    m.AddEcsSubnet(ip);
  }

  lemma {:induction false} OneLast(r: Record)
    ensures LastOpt([r]) == if r.Opt? then 0 else -1
  {
    assert [r][..0] == [];
  }

  lemma {:induction false} MarkEmpty(token: Bytes)
    ensures WithToken([], token) == [Local(LOOP_OPTION_CODE, token)]
  {}

  /**
   Every query sent has one OPT, of 4096 bytes and with the DO bit: in it one loop option, the token, and the
   subnet of the client, if that is known, to 24 or to 48 bits. It is recognised when it returns.
   */
  lemma {:induction false} BuiltOnce(token: Bytes, ip: Option<Bytes>)
    ensures BuiltExtra(token, ip) ==
            [Opt(4096, true, if ip.None? then [Local(65042, token)]
                             else if |ip.value| == 4 then [Local(65042, token), Subnet(1, 24, ip.value)]
                             else [Local(65042, token), Subnet(2, 48, ip.value)])]
    ensures var e := BuiltExtra(token, ip);
            && Opts(e) == 1 && |e| == 1 && e[0].Opt? && |e[0].options| > 0 && LoopOptions(e[0].options) == 1
            && IsToken(e[0].options[0], token) && Carries(e, token)
  {
    var a := [Opt(4096, true, [])];
    OneLast(a[0]);
    MarkEmpty(token);
    var t := Local(LOOP_OPTION_CODE, token);
    var b := Marked(a, token);
    assert b == [Opt(4096, true, [t])];
    OneLast(b[0]);
    assert [t][..0] == [] && LoopOptions([t]) == 1;
    var e := BuiltExtra(token, ip);
    if ip.Some? {
      var o := Ecs(ip.value);
      assert [t] + [o] == [t, o] && [t, o][..1] == [t];
      assert LoopOptions([t, o]) == 1;
      assert e == [Opt(4096, true, [t, o])];
      OneLast(e[0]);
    }
    assert e[..0] == [] && Opts(e) == 1;
    assert IsToken(e[0].options[0], token);
  }

  // ------------------------------------------------------------- marking in general

  lemma {:induction false} LastOptIs(extra: seq<Record>, i: int)
    requires -1 <= i < |extra| && (i >= 0 ==> extra[i].Opt?) && forall k | i < k < |extra| :: !extra[k].Opt?
    ensures LastOpt(extra) == i
  {}

  lemma {:induction false} OptsUpdate(a: seq<Record>, i: nat, r: Record)
    requires i < |a| && a[i].Opt? && r.Opt?
    ensures Opts(a[i := r]) == Opts(a)
    decreases |a|
  {
    var n := |a| - 1;
    if i == n {
      assert a[i := r][..n] == a[..n];
    } else {
      assert a[i := r][..n] == a[..n][i := r];
      OptsUpdate(a[..n], i, r);
    }
  }

  lemma {:induction false} NoOpts(a: seq<Record>)
    requires LastOpt(a) == -1
    ensures Opts(a) == 0
    decreases |a|
  {
    if a != [] { NoOpts(a[..|a| - 1]); }
  }

  /** The token at the place of the first loop option, or after the last option; every other option in its place. */
  ghost predicate OnlyTokenSet(marked: seq<EdnsOption>, os: seq<EdnsOption>, token: Bytes)
  {
    var k := FirstLoop(os);
    && |marked| == (if k < |os| then |os| else |os| + 1) && IsToken(marked[k], token)
    && forall j | 0 <= j < |os| && j != k :: marked[j] == os[j]
  }

  /** Marking any query: it is recognised, it has no OPT too many, and nothing else is touched. */
  lemma {:induction false} MarkingWorks(extra: seq<Record>, token: Bytes)
    ensures var e, i := Marked(extra, token), LastOpt(extra);
            && Carries(e, token) && Opts(e) == (if i >= 0 then Opts(extra) else 1)
            && (if i < 0 then e == extra + [Opt(4096, false, [Local(65042, token)])]
                else
                  && |e| == |extra| && (forall k | 0 <= k < |e| && k != i :: e[k] == extra[k])
                  && e[i].Opt? && e[i].size == extra[i].size && e[i].dnssec == extra[i].dnssec
                  && OnlyTokenSet(e[i].options, extra[i].options, token))
  {
    var e, i := Marked(extra, token), LastOpt(extra);
    if i < 0 {
      LastOptIs(e, |extra|);
      NoOpts(extra);
      assert e[..|extra|] == extra;
      MarkEmpty(token);
      assert IsToken(e[|extra|].options[0], token);
    } else {
      LastOptIs(e, i);
      OptsUpdate(extra, i, e[i]);
      assert OnlyTokenSet(e[i].options, extra[i].options, token);
    }
  }

  /** Adding an option: to the last OPT there is, after its others, with the new size; else in a new OPT. */
  lemma {:induction false} AddingWorks(extra: seq<Record>, size: int, o: EdnsOption)
    ensures var e, i := WithOption(extra, size, o), LastOpt(extra);
            if i < 0 then e == extra + [Opt(size, false, [o])]
            else
              && |e| == |extra| && LastOpt(e) == i && e[i] == Opt(size, extra[i].dnssec, extra[i].options + [o])
              && forall k | 0 <= k < |e| && k != i :: e[k] == extra[k]
  {
    var e, i := WithOption(extra, size, o), LastOpt(extra);
    if i >= 0 { LastOptIs(e, i); }
  }

  // --------------------------------------------------------------- replies coming in

  function WithoutOpts(rs: seq<Record>): seq<Record>
  {
    if rs == [] then [] else WithoutOpts(rs[..|rs| - 1]) + if rs[|rs| - 1].Opt? then [] else [rs[|rs| - 1]]
  }

  function WithoutSigs(rs: seq<Record>): seq<Record>
  {
    if rs == [] then [] else WithoutSigs(rs[..|rs| - 1]) + if rs[|rs| - 1].Sig? then [] else [rs[|rs| - 1]]
  }

  function Fitting(rs: seq<Record>, client: Option<Record>): seq<Record>
  {
    if client.Some? && client.value.Opt? && client.value.dnssec then rs else WithoutSigs(rs)
  }

  function FreshOpt(client: Option<Record>): seq<Record>
  {
    if client.Some? && client.value.Opt? then
      [Opt(if client.value.size < MIN_MSG_SIZE then MIN_MSG_SIZE else client.value.size, client.value.dnssec, [])]
    else []
  }

  method DropOpts(rs: seq<Record>) returns (out: seq<Record>)
    ensures out == WithoutOpts(rs)
  {
    out := [];
    for i := 0 to |rs|
      invariant out == WithoutOpts(rs[..i])
    {
      assert rs[..i + 1][..i] == rs[..i];
      if !rs[i].Opt? { out := out + [rs[i]]; }
    }
    assert rs[..|rs|] == rs;
  }

  method DropSigs(rs: seq<Record>) returns (out: seq<Record>)
    ensures out == WithoutSigs(rs)
  {
    out := [];
    for i := 0 to |rs|
      invariant out == WithoutSigs(rs[..i])
    {
      assert rs[..i + 1][..i] == rs[..i];
      if !rs[i].Sig? { out := out + [rs[i]]; }
    }
    assert rs[..|rs|] == rs;
  }

  /** `at` says where each record of `out` stands in `rs`: nothing is moved, repeated or made up. */
  ghost predicate Picks(out: seq<Record>, rs: seq<Record>, at: seq<nat>)
  {
    && |at| == |out| && (forall i | 0 <= i < |at| :: at[i] < |rs| && out[i] == rs[at[i]])
    && forall i, j | 0 <= i < j < |at| :: at[i] < at[j]
  }

  /** Exactly the records that are neither OPT nor unwanted signature are kept, in their order. */
  ghost predicate KeptInOrder(out: seq<Record>, rs: seq<Record>, sigs: bool, opts: bool)
  {
    OrderKept(out, rs) && OnlyWanted(out, sigs, opts) && WantedKept(out, rs, sigs, opts)
  }

  ghost predicate OrderKept(out: seq<Record>, rs: seq<Record>) { exists at :: Picks(out, rs, at) }

  ghost predicate OnlyWanted(out: seq<Record>, sigs: bool, opts: bool)
  {
    forall i | 0 <= i < |out| :: Wanted(out[i], sigs, opts)
  }

  /** Every wanted record is there as often as before. */
  ghost predicate WantedKept(out: seq<Record>, rs: seq<Record>, sigs: bool, opts: bool)
  {
    forall r | Wanted(r, sigs, opts) :: multiset(out)[r] == multiset(rs)[r]
  }

  predicate Wanted(r: Record, sigs: bool, opts: bool) { (r.Opt? ==> opts) && (r.Sig? ==> sigs) }

  lemma {:induction false} WithoutSigsKeeps(rs: seq<Record>)
    ensures KeptInOrder(WithoutSigs(rs), rs, false, true)
    decreases |rs|
  {
    if rs == [] {
      assert Picks([], rs, []);
    } else {
      var n := |rs| - 1;
      WithoutSigsKeeps(rs[..n]);
      KeepsOneMore(WithoutSigs(rs[..n]), rs, rs[n].Sig?, false, true);
    }
  }

  lemma {:induction false} WithoutOptsKeeps(rs: seq<Record>)
    ensures KeptInOrder(WithoutOpts(rs), rs, true, false)
    decreases |rs|
  {
    if rs == [] {
      assert Picks([], rs, []);
    } else {
      var n := |rs| - 1;
      WithoutOptsKeeps(rs[..n]);
      KeepsOneMore(WithoutOpts(rs[..n]), rs, rs[n].Opt?, true, false);
    }
  }

  lemma {:induction false} KeepsOneMore(out: seq<Record>, rs: seq<Record>, drop: bool, sigs: bool, opts: bool)
    requires |rs| > 0 && KeptInOrder(out, rs[..|rs| - 1], sigs, opts) && drop == !Wanted(rs[|rs| - 1], sigs, opts)
    ensures KeptInOrder(out + if drop then [] else [rs[|rs| - 1]], rs, sigs, opts)
  {
    var front, r := rs[..|rs| - 1], rs[|rs| - 1];
    var at :| Picks(out, front, at);
    assert out + [] == out;
    assert WantedKept(out + if drop then [] else [r], rs, sigs, opts) by {
      assert rs == front + [r];
      WantedSnoc(out, front, r, sigs, opts);
    }
    if drop { PicksMore(out, rs, at); } else { PicksLast(out, rs, at); }
  }

  lemma {:induction false} WantedSnoc(out: seq<Record>, front: seq<Record>, r: Record, sigs: bool, opts: bool)
    requires WantedKept(out, front, sigs, opts)
    ensures Wanted(r, sigs, opts) ==> WantedKept(out + [r], front + [r], sigs, opts)
    ensures !Wanted(r, sigs, opts) ==> WantedKept(out, front + [r], sigs, opts)
  {
    forall x | Wanted(x, sigs, opts)
      ensures Wanted(r, sigs, opts) ==> multiset(out + [r])[x] == multiset(front + [r])[x]
      ensures !Wanted(r, sigs, opts) ==> multiset(out)[x] == multiset(front + [r])[x]
    {
      assert multiset(out)[x] == multiset(front)[x];
    }
  }

  lemma {:induction false} PicksMore(out: seq<Record>, rs: seq<Record>, at: seq<nat>)
    requires |rs| > 0 && Picks(out, rs[..|rs| - 1], at)
    ensures Picks(out, rs, at)
  {}

  lemma {:induction false} PicksLast(out: seq<Record>, rs: seq<Record>, at: seq<nat>)
    requires |rs| > 0 && Picks(out, rs[..|rs| - 1], at)
    ensures Picks(out + [rs[|rs| - 1]], rs, at + [|rs| - 1])
  {}

  /**
   A reply as the client gets it: one OPT if the client sent one, with its DO bit, else none;
   no signatures unless DO was set; all other records kept in their order.
   */
  lemma {:induction false} ReplyFits(rs: seq<Record>, client: Option<Record>)
    requires client.Some? ==> client.value.Opt?
    ensures var out := Fitting(WithoutOpts(rs), client) + FreshOpt(client);
            var sigs := client.Some? && client.value.dnssec;
            && Opts(out) == (if client.Some? then 1 else 0)
            && (client.Some? ==> out[|out| - 1].Opt? && out[|out| - 1].dnssec == client.value.dnssec
                                 && out[|out| - 1].options == []
                                 && (if client.value.size < 512 then out[|out| - 1].size == 512
                                     else out[|out| - 1].size == client.value.size))
            && KeptInOrder(Fitting(WithoutOpts(rs), client), rs, sigs, false)
  {
    FittingKeeps(rs, client);
    var b := Fitting(WithoutOpts(rs), client);
    NoneLeft(b);
    OneOpt(b, client);
  }

  lemma {:induction false} FittingKeeps(rs: seq<Record>, client: Option<Record>)
    requires client.Some? ==> client.value.Opt?
    ensures KeptInOrder(Fitting(WithoutOpts(rs), client), rs, client.Some? && client.value.dnssec, false)
  {
    var a := WithoutOpts(rs);
    WithoutOptsKeeps(rs);
    if !(client.Some? && client.value.dnssec) {
      WithoutSigsKeeps(a);
      PicksTwice(WithoutSigs(a), a, rs);
    }
  }

  lemma {:induction false} OneOpt(b: seq<Record>, client: Option<Record>)
    requires Opts(b) == 0 && (client.Some? ==> client.value.Opt?)
    ensures Opts(b + FreshOpt(client)) == if client.Some? then 1 else 0
  {
    if client.Some? {
      assert (b + FreshOpt(client))[..|b|] == b;
    } else {
      assert b + [] == b;
    }
  }

  lemma {:induction false} NoneLeft(rs: seq<Record>)
    requires forall r | r in rs :: !r.Opt?
    ensures Opts(rs) == 0
    decreases |rs|
  {
    if rs != [] {
      assert forall r | r in rs[..|rs| - 1] :: r in rs;
      NoneLeft(rs[..|rs| - 1]);
    }
  }

  lemma {:induction false} PicksTwice(out: seq<Record>, mid: seq<Record>, rs: seq<Record>)
    requires KeptInOrder(out, mid, false, true) && KeptInOrder(mid, rs, true, false)
    ensures KeptInOrder(out, rs, false, false)
  {
    var at :| Picks(out, mid, at);
    var bt :| Picks(mid, rs, bt);
    var ct := seq(|at|, i requires 0 <= i < |at| => bt[at[i]]);
    assert Picks(out, rs, ct);
  }
}
