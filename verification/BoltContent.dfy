/**
 What a migrated database holds, said of the Bolt file it came from: every server and subscription
 in its place and order, every system value and every outbound value under its key, nothing else.
 */
module BoltContent {
  import opened Options
  import opened Migration
  import opened BoltImport

  // ------------------------------------------------------------------ what is there

  /** The rows of one owner, in the order of the table. */
  function OwnedBy(rows: seq<ServerRow>, owner: Option<nat>): seq<ServerRow>
  {
    if rows == [] then []
    else
      var n := |rows| - 1;
      OwnedBy(rows[..n], owner) + if rows[n].owner == owner then [rows[n]] else []
  }

  /** The owner has these servers, numbered from zero. */
  ghost predicate Lists(rows: seq<ServerRow>, owner: Option<nat>, servers: seq<string>)
  {
    var own := OwnedBy(rows, owner);
    |own| == |servers| && forall j | 0 <= j < |servers| :: own[j].config == servers[j] && own[j].sort == j
  }

  /** A list that is not in the file is empty; one that is there is read as an array. */
  ghost predicate Reads(text: Option<string>, json: Json, items: seq<string>)
  {
    if text.None? then items == [] else json.elements(text.value) == Some(items)
  }

  ghost predicate IsArray(text: Option<string>, json: Json) { text.Some? ==> json.elements(text.value).Some? }

  /** Servers of the user's own, and each subscription with its servers, where they were. */
  ghost predicate ListsKept(t: Tables, servers: seq<string>, subs: seq<string>, json: Json)
  {
    && Lists(t.servers, None, servers)
    && |t.subs| == |subs|
    && (forall i | 0 <= i < |subs| ::
          var p := json.subscription(subs[i]);
          t.subs[i] == SubRow(p.config, false, i) && Lists(t.servers, Some(i), p.servers))
    && (forall i | i >= |subs| :: Lists(t.servers, Some(i), []))
  }

  /** One system value: as it was, except that a non-empty `setting` is what the policy makes of it. */
  ghost predicate PairKept(p: Pair, c: Config, json: Json)
  {
    && System(p.key) in c
    && if p.key == "setting" && p.value != "" then json.policy(p.value) == Some(c[System(p.key)])
       else c[System(p.key)] == p.value
  }

  ghost predicate SystemKept(ps: seq<Pair>, c: Config, json: Json)
  {
    && (forall i | 0 <= i < |ps| :: PairKept(ps[i], c, json))
    && (forall x | System(x) in c :: exists i | 0 <= i < |ps| :: ps[i].key == x)
  }

  ghost predicate StandsAs(c: Config, k: Key, v: Option<string>)
  {
    if v.None? then k !in c else k in c && c[k] == v.value
  }

  /** The outbound's two values stand under its keys, and only those. */
  ghost predicate BucketKept(u: Bucket, c: Config, auto: bool)
  {
    |u.name| > 9 && u.name[..9] == "outbound." ==>
      && (!(auto && u.name == "outbound.proxy") ==> StandsAs(c, Setting(u.name), u.setting))
      && StandsAs(c, Connected(u.name), u.connected)
  }

  ghost predicate NothingElse(bs: seq<Bucket>, c: Config, auto: bool)
  {
    forall k | k in c && (k.Setting? || k.Connected?) ::
      || (auto && k == Setting("outbound.proxy"))
      || exists i | 0 <= i < |bs| :: bs[i].name == k.bucket
  }

  /** Some subscription selected servers by itself. */
  ghost predicate SomeAuto(subs: seq<string>, json: Json)
  {
    exists i | 0 <= i < |subs| :: json.subscription(subs[i]).autoSelect
  }

  /** The bucket of that name, or one without values if there is none. */
  function BucketIn(bs: seq<Bucket>, name: string): Bucket
  {
    if bs == [] then Bucket(name, None, None) else if bs[0].name == name then bs[0] else BucketIn(bs[1..], name)
  }

  function AutoFlags(subs: seq<string>, json: Json): seq<bool>
  {
    seq(|subs|, i requires 0 <= i < |subs| => json.subscription(subs[i]).autoSelect)
  }

  const USUAL :=
    "{\"probeURL\":\"https://www.gstatic.com/generate_204\",\"probeInterval\":\"300s\",\"type\":\"leastping\"}"

  /** What the proxy outbound is set to when some subscription selected servers by itself, or that it cannot be. */
  function ProxyMade(bs: seq<Bucket>, subs: seq<string>, json: Json): Option<string>
  {
    var u := BucketIn(bs, "outbound.proxy");
    var manual := if u.connected.None? then Some(false) else json.manual(u.connected.value, AutoFlags(subs, json));
    if manual.None? then None else json.automatic(if u.setting.None? then USUAL else u.setting.value, manual.value)
  }

  // -------------------------------------------------------------------------- rows

  lemma {:induction false} OwnedConcat(a: seq<ServerRow>, b: seq<ServerRow>, owner: Option<nat>)
    ensures OwnedBy(a + b, owner) == OwnedBy(a, owner) + OwnedBy(b, owner)
    decreases |b|
  {
    if b == [] {
      assert a + b == a;
    } else {
      var n := |b| - 1;
      assert (a + b)[..|a| + n] == a + b[..n];
      OwnedConcat(a, b[..n], owner);
    }
  }

  lemma {:induction false} OwnedRows(items: seq<string>, of: Option<nat>, owner: Option<nat>)
    ensures OwnedBy(Rows(items, of), owner) == if owner == of then Rows(items, of) else []
    decreases |items|
  {
    if items != [] {
      var n := |items| - 1;
      assert Rows(items, of)[..n] == Rows(items[..n], of);
      OwnedRows(items[..n], of, owner);
    }
  }

  lemma {:induction false} OwnedMore(front: seq<ServerRow>, items: seq<string>, n: nat, i: nat)
    ensures OwnedBy(front + Rows(items, Some(n)), Some(i)) ==
            OwnedBy(front, Some(i)) + if i == n then Rows(items, Some(n)) else []
  {
    OwnedRows(items, Some(n), Some(i));
    OwnedConcat(front, Rows(items, Some(n)), Some(i));
  }

  lemma {:induction false} OwnedServers(subs: seq<string>, json: Json, i: nat)
    ensures OwnedBy(SubServers(subs, json), Some(i)) ==
            if i < |subs| then Rows(json.subscription(subs[i]).servers, Some(i)) else []
    decreases |subs|
  {
    if subs != [] {
      var n := |subs| - 1;
      OwnedServers(subs[..n], json, i);
      OwnedMore(SubServers(subs[..n], json), json.subscription(subs[n]).servers, n, i);
    }
  }

  lemma {:induction false} OwnedByNone(subs: seq<string>, json: Json)
    ensures OwnedBy(SubServers(subs, json), None) == []
    decreases |subs|
  {
    if subs != [] {
      var n := |subs| - 1;
      var last := json.subscription(subs[n]).servers;
      OwnedConcat(SubServers(subs[..n], json), Rows(last, Some(n)), None);
      OwnedRows(last, Some(n), None);
      OwnedByNone(subs[..n], json);
    }
  }

  lemma {:induction false} RowsList(rows: seq<ServerRow>, owner: Option<nat>, items: seq<string>)
    requires OwnedBy(rows, owner) == Rows(items, owner)
    ensures Lists(rows, owner, items)
  {}

  lemma {:induction false} PlainListed(servers: seq<string>, subs: seq<string>, json: Json)
    ensures Lists(Rows(servers, None) + SubServers(subs, json), None, servers)
  {
    OwnedConcat(Rows(servers, None), SubServers(subs, json), None);
    OwnedRows(servers, None, None);
    OwnedByNone(subs, json);
    RowsList(Rows(servers, None) + SubServers(subs, json), None, servers);
  }

  lemma {:induction false} SubListed(servers: seq<string>, subs: seq<string>, json: Json, i: nat)
    ensures Lists(Rows(servers, None) + SubServers(subs, json), Some(i),
                  if i < |subs| then json.subscription(subs[i]).servers else [])
  {
    OwnedConcat(Rows(servers, None), SubServers(subs, json), Some(i));
    OwnedRows(servers, None, Some(i));
    OwnedServers(subs, json, i);
    var own := if i < |subs| then json.subscription(subs[i]).servers else [];
    RowsList(Rows(servers, None) + SubServers(subs, json), Some(i), own);
  }

  lemma {:induction false} ListsAre(t: Tables, servers: seq<string>, subs: seq<string>, json: Json)
    requires t.servers == Rows(servers, None) + SubServers(subs, json)
    requires t.subs == if AnyAuto(SubRows(subs, json)) then Retired(SubRows(subs, json)) else SubRows(subs, json)
    ensures ListsKept(t, servers, subs, json)
  {
    PlainListed(servers, subs, json);
    forall i: nat
      ensures Lists(t.servers, Some(i), if i < |subs| then json.subscription(subs[i]).servers else [])
    {
      SubListed(servers, subs, json, i);
    }
    assert forall i | 0 <= i < |subs| :: SubRows(subs, json)[i].autoSelect == json.subscription(subs[i]).autoSelect;
  }

  // -------------------------------------------------------------------------- keys

  lemma {:induction false} SystemAt(ps: seq<Pair>, i: nat)
    requires i < |ps| && DistinctKeys(ps)
    ensures System(ps[i].key) in PutSystem(map[], ps) && PutSystem(map[], ps)[System(ps[i].key)] == ps[i].value
    decreases |ps|
  {
    var n := |ps| - 1;
    if i < n {
      assert forall j | 0 <= j < n :: ps[..n][j] == ps[j];
      SystemAt(ps[..n], i);
    }
  }

  lemma {:induction false} FilledSystem(b: Bolt, x: string)
    ensures System(x) in Filled(b) <==> System(x) in PutSystem(map[], SystemOf(b))
    ensures System(x) in Filled(b) ==> Filled(b)[System(x)] == PutSystem(map[], SystemOf(b))[System(x)]
  {
    PutBucketsSystem(PutSystem(map[], SystemOf(b)), b.buckets, System(x));
  }

  lemma {:induction false} SystemIs(b: Bolt, c: Config, json: Json)
    requires WellKept(b) && Policy(Filled(b), json).Some?
    requires forall k: Key | k.System? :: k in c <==> k in Policy(Filled(b), json).value
    requires forall k: Key | k.System? && k in c :: c[k] == Policy(Filled(b), json).value[k]
    ensures SystemKept(SystemOf(b), c, json)
  {
    var ps := SystemOf(b);
    forall i | 0 <= i < |ps|
      ensures PairKept(ps[i], c, json)
    {
      SystemAt(ps, i);
      FilledSystem(b, ps[i].key);
    }
    forall x | System(x) in c
      ensures exists i | 0 <= i < |ps| :: ps[i].key == x
    {
      FilledSystem(b, x);
      PutSystemHas(map[], ps, x);
    }
  }

  lemma {:induction false} BucketInIs(bs: seq<Bucket>, i: nat)
    requires i < |bs| && DistinctBuckets(bs)
    ensures BucketIn(bs, bs[i].name) == bs[i]
    decreases i
  {
    if i > 0 {
      assert forall j | 0 <= j < |bs| - 1 :: bs[1..][j] == bs[j + 1];
      BucketInIs(bs[1..], i - 1);
    }
  }

  lemma {:induction false} BucketInNone(bs: seq<Bucket>, name: string)
    requires forall i | 0 <= i < |bs| :: bs[i].name != name
    ensures BucketIn(bs, name) == Bucket(name, None, None)
    decreases |bs|
  {
    if bs != [] {
      assert forall j | 0 <= j < |bs| - 1 :: bs[1..][j] == bs[j + 1];
      BucketInNone(bs[1..], name);
    }
  }

  /** After filling, a name's keys hold what its bucket does. */
  lemma {:induction false} FilledAt(b: Bolt, name: string)
    requires WellKept(b) && Named(name)
    ensures var u := BucketIn(b.buckets, name);
            StandsAs(Filled(b), Setting(name), u.setting) && StandsAs(Filled(b), Connected(name), u.connected)
  {
    var c := PutSystem(map[], SystemOf(b));
    PutSystemOther(map[], SystemOf(b), Setting(name));
    PutSystemOther(map[], SystemOf(b), Connected(name));
    if i :| 0 <= i < |b.buckets| && b.buckets[i].name == name {
      PutBucketsAt(c, b.buckets, i);
      BucketInIs(b.buckets, i);
    } else {
      PutBucketsOther(c, b.buckets, Setting(name));
      PutBucketsOther(c, b.buckets, Connected(name));
      BucketInNone(b.buckets, name);
    }
  }

  lemma {:induction false} FilledFrom(b: Bolt, k: Key)
    requires (k.Setting? || k.Connected?) && k in Filled(b)
    ensures exists i | 0 <= i < |b.buckets| :: b.buckets[i].name == k.bucket
  {
    if forall i | 0 <= i < |b.buckets| :: b.buckets[i].name != k.bucket {
      PutSystemOther(map[], SystemOf(b), k);
      PutBucketsOther(PutSystem(map[], SystemOf(b)), b.buckets, k);
    }
  }

  // ------------------------------------------------------------------ the whole file

  /** The pairs of the system bucket. */
  function PairsOf(b: Bolt): seq<Pair> { if b.system.Some? then b.system.value else [] }

  /** All of the Bolt file, in the tables. */
  ghost predicate Carried(b: Bolt, servers: seq<string>, subs: seq<string>, json: Json, t: Tables)
  {
    var auto := SomeAuto(subs, json);
    && ListsKept(t, servers, subs, json)
    && SystemKept(PairsOf(b), t.config, json)
    && (forall i | 0 <= i < |b.buckets| :: BucketKept(b.buckets[i], t.config, auto))
    && NothingElse(b.buckets, t.config, auto)
    && (auto ==> var v := ProxyMade(b.buckets, subs, json); v.Some? && StandsAs(t.config, Setting("outbound.proxy"), v))
    && StandsAs(t.config, PolicyMarker, Some("1")) && StandsAs(t.config, AutoMarker, Some("1"))
  }

  lemma {:induction false} AutoIs(subs: seq<string>, json: Json)
    ensures AnyAuto(SubRows(subs, json)) <==> SomeAuto(subs, json)
    ensures Flags(SubRows(subs, json)) == AutoFlags(subs, json)
  {
    var rows := SubRows(subs, json);
    assert Flags(rows) == AutoFlags(subs, json) by {
      assert forall i | 0 <= i < |subs| :: Flags(rows)[i] == rows[i].autoSelect == AutoFlags(subs, json)[i];
    }
    if i :| 0 <= i < |subs| && json.subscription(subs[i]).autoSelect { assert rows[i].autoSelect; }
    if i :| 0 <= i < |rows| && rows[i].autoSelect { assert json.subscription(subs[i]).autoSelect; }
  }

  lemma {:induction false} MadeIs(b: Bolt, subs: seq<string>, c: Config, json: Json)
    requires WellKept(b) && forall k: Key | k.Setting? || k.Connected? :: k in c <==> k in Filled(b)
    requires forall k: Key | (k.Setting? || k.Connected?) && k in c :: c[k] == Filled(b)[k]
    ensures Rewritten(c, Flags(SubRows(subs, json)), json) == ProxyMade(b.buckets, subs, json)
  {
    AutoIs(subs, json);
    FilledAt(b, "outbound.proxy");
  }

  lemma {:induction false} BucketsAre(b: Bolt, c: Config, auto: bool)
    requires WellKept(b)
    requires forall k: Key | (k.Setting? || k.Connected?) && !(auto && k == Setting("outbound.proxy")) ::
               (k in c <==> k in Filled(b)) && (k in c ==> c[k] == Filled(b)[k])
    ensures forall i | 0 <= i < |b.buckets| :: BucketKept(b.buckets[i], c, auto)
    ensures NothingElse(b.buckets, c, auto)
  {
    forall i | 0 <= i < |b.buckets|
      ensures BucketKept(b.buckets[i], c, auto)
    {
      BucketInIs(b.buckets, i);
      if Named(b.buckets[i].name) { FilledAt(b, b.buckets[i].name); }
    }
    forall k | k in c && (k.Setting? || k.Connected?) && !(auto && k == Setting("outbound.proxy"))
      ensures exists i | 0 <= i < |b.buckets| :: b.buckets[i].name == k.bucket
    {
      FilledFrom(b, k);
    }
  }

  lemma {:induction false} ConfigKept(b: Bolt, json: Json, c: Config, subs: seq<string>)
    requires WellKept(b) && Policy(Filled(b), json).Some?
    requires var p := Policy(Filled(b), json).value;
             if SomeAuto(subs, json) then
               var v := Rewritten(p, Flags(SubRows(subs, json)), json);
               v.Some? && c == p[Setting(PROXY) := v.value][AutoMarker := "1"]
             else c == p[AutoMarker := "1"]
    ensures SystemKept(PairsOf(b), c, json)
    ensures forall i | 0 <= i < |b.buckets| :: BucketKept(b.buckets[i], c, SomeAuto(subs, json))
    ensures NothingElse(b.buckets, c, SomeAuto(subs, json))
    ensures SomeAuto(subs, json) ==> StandsAs(c, Setting("outbound.proxy"), ProxyMade(b.buckets, subs, json))
                                     && ProxyMade(b.buckets, subs, json).Some?
    ensures StandsAs(c, PolicyMarker, Some("1")) && StandsAs(c, AutoMarker, Some("1"))
  {
    PolicyKeeps(Filled(b), json);
    SystemIs(b, c, json);
    MadeIs(b, subs, Policy(Filled(b), json).value, json);
    BucketsAre(b, c, SomeAuto(subs, json));
  }

  /**
   Every migration that commits: the lists were arrays, and everything in the file stands in the
   tables, in its place, in its order, under its key; the tables hold nothing that was not there.
   */
  lemma {:induction false} ContentKept(b: Bolt, json: Json, t: Option<Tables>)
    returns (servers: seq<string>, subs: seq<string>)
    requires WellKept(b) && IsImport(b, json, t) && t.Some?
    ensures Reads(b.servers, json, servers) && Reads(b.subscriptions, json, subs)
    ensures Carried(b, servers, subs, json, t.value)
  {
    servers, subs := Items(b.servers, json).value, Items(b.subscriptions, json).value;
    AutoIs(subs, json);
    ListsAre(t.value, servers, subs, json);
    ConfigKept(b, json, t.value.config, subs);
  }

  // -------------------------------------------------------------- when it goes through

  /** A bucket of the outbound prefix: a value there has a name after the prefix, and is readable. */
  ghost predicate ValuesFit(u: Bucket, json: Json)
  {
    "outbound." <= u.name ==>
      && (u.setting.Some? ==> |u.name| > 9 && json.validSetting(u.setting.value))
      && (u.connected.Some? ==> |u.name| > 9 && json.validConnected(u.connected.value))
  }

  ghost predicate PolicyFits(p: Pair, json: Json)
  {
    p.key == "setting" && p.value != "" ==> json.policy(p.value).Some?
  }

  /** The proxy outbound can be made, and if it was set it comes out as it was. */
  ghost predicate ProxyFits(bs: seq<Bucket>, subs: seq<string>, json: Json)
  {
    var v, u := ProxyMade(bs, subs, json), BucketIn(bs, "outbound.proxy");
    v.Some? && (u.setting.Some? ==> u.setting == v)
  }

  /** What a Bolt file must be like to be migrated. */
  ghost predicate Migratable(b: Bolt, json: Json)
  {
    && IsArray(b.servers, json) && IsArray(b.subscriptions, json)
    && (forall i | 0 <= i < |PairsOf(b)| :: PolicyFits(PairsOf(b)[i], json))
    && (forall i | 0 <= i < |b.buckets| :: ValuesFit(b.buckets[i], json))
    && (forall subs | Reads(b.subscriptions, json, subs) && SomeAuto(subs, json) :: ProxyFits(b.buckets, subs, json))
  }

  lemma {:induction false} PolicyIff(b: Bolt, json: Json)
    requires WellKept(b)
    ensures Policy(Filled(b), json).Some? <==> forall i | 0 <= i < |PairsOf(b)| :: PolicyFits(PairsOf(b)[i], json)
  {
    var ps := PairsOf(b);
    FilledSystem(b, "setting");
    PutSystemHas(map[], ps, "setting");
    if i :| 0 <= i < |ps| && ps[i].key == "setting" {
      SystemAt(ps, i);
      assert forall j | 0 <= j < |ps| && ps[j].key == "setting" :: j == i;
    }
  }

  lemma {:induction false} ProxyIff(b: Bolt, subs: seq<string>, json: Json)
    requires WellKept(b) && Readable(b, json) && subs == Items(b.subscriptions, json).value
    ensures ProxyUnchanged(b, json) <==> SomeAuto(subs, json) ==> ProxyFits(b.buckets, subs, json)
  {
    AutoIs(subs, json);
    MadeIs(b, subs, Filled(b), json);
    if i :| 0 <= i < |b.buckets| && b.buckets[i].name == "outbound.proxy" {
      BucketInIs(b.buckets, i);
      assert forall j | 0 <= j < |b.buckets| && b.buckets[j].name == "outbound.proxy" :: j == i;
    } else {
      BucketInNone(b.buckets, "outbound.proxy");
    }
  }

  lemma {:induction false} MigratableIff(b: Bolt, json: Json)
    requires WellKept(b)
    ensures Migratable(b, json) <==>
            Readable(b, json) && Policy(Filled(b), json).Some? && BucketsFit(b, json) && ProxyUnchanged(b, json)
  {
    PolicyIff(b, json);
    assert forall u: Bucket :: ValuesFit(u, json) <==> FitBucket(u, json);
    if Readable(b, json) {
      var subs := Items(b.subscriptions, json).value;
      ProxyIff(b, subs, json);
      assert Reads(b.subscriptions, json, subs);
    }
  }

  /** What the check after the copy compares, on any tables. */
  ghost predicate Checked(b: Bolt, t: Tables, json: Json)
  {
    && (b.system.Some? ==> |b.system.value| == |set k | k in t.config && "system:" <= Text(k)|)
    && (b.servers.Some? ==> exists a :: CountedAs(b.servers.value, json, a) && a == |OwnedBy(t.servers, None)|)
    && (b.subscriptions.Some? ==> exists a :: CountedAs(b.subscriptions.value, json, a) && a == |t.subs|)
    && (forall i | 0 <= i < |b.buckets| ::
          "outbound." <= b.buckets[i].name ==> ValuesThere(b.buckets[i], t.config, json))
  }

  /** The length of an array; what is none has no elements. */
  ghost predicate CountedAs(text: string, json: Json, n: nat)
  {
    match json.elements(text) case None => n == 0 case Some(a) => n == |a|
  }

  ghost predicate ValuesThere(u: Bucket, c: Config, json: Json)
  {
    && (u.setting.Some? ==> StandsAs(c, Setting(u.name), u.setting) && json.validSetting(u.setting.value))
    && (u.connected.Some? ==> StandsAs(c, Connected(u.name), u.connected) && json.validConnected(u.connected.value))
  }

  lemma {:induction false} PlainIs(rows: seq<ServerRow>)
    ensures Plain(rows) == |OwnedBy(rows, None)|
    decreases |rows|
  {
    if rows != [] { PlainIs(rows[..|rows| - 1]); }
  }

  lemma {:induction false} SystemTexts(c: Config)
    requires forall k | k in c :: Proper(k)
    ensures SystemKeys(c) == set k | k in c && "system:" <= Text(k)
  {
    forall k | k in c
      ensures "system:" <= Text(k) <==> k.System?
    {
      LikeSystem(k);
    }
  }

  lemma {:induction false} VerifiedIs(b: Bolt, t: Tables, json: Json)
    requires forall k | k in t.config :: Proper(k)
    ensures Verified(b, t, json) <==> Checked(b, t, json)
  {
    SystemTexts(t.config);
    PlainIs(t.servers);
    if b.servers.Some? { assert CountedAs(b.servers.value, json, |Elements(b.servers.value, json)|); }
    if b.subscriptions.Some? { assert CountedAs(b.subscriptions.value, json, |Elements(b.subscriptions.value, json)|); }
    forall i | 0 <= i < |b.buckets|
      ensures SameBucket(b.buckets[i], t.config, json) <==>
              ("outbound." <= b.buckets[i].name ==> ValuesThere(b.buckets[i], t.config, json))
    {
    }
  }

  /** A database that the service has used: readable, with a system setting in it. */
  ghost predicate InUse(fs: Files<Bolt, Tables>)
  {
    Sqlite in fs && fs[Sqlite].SqliteFile? && exists x :: System(x) in fs[Sqlite].tables.config
  }

  lemma {:induction false} InUseIs(fs: Files<Bolt, Tables>)
    ensures InUse(fs) <==> Sqlite in fs && Holds(fs[Sqlite], HoldsData)
  {
    if Sqlite in fs && fs[Sqlite].SqliteFile? {
      var ks := SystemKeys(fs[Sqlite].tables.config);
      if ks != {} { var k :| k in ks; assert System(k.key) in fs[Sqlite].tables.config; }
      if x :| System(x) in fs[Sqlite].tables.config { assert System(x) in ks; }
    }
  }

  /**
   The whole migration, in terms of the Bolt file: an attempt without faults gets rid of it just if a
   database was in use or the file can be migrated. A database in use stays as it is; else all of the
   file is in the new one, if it can be migrated, and if not there is none. The file itself is in place or
   in a backup that was not there before.
   */
  lemma {:induction false} MigrationEnds(s: State<Bolt, Tables>, b: Bolt, json: Json, t: Option<Tables>, drawn: nat)
    returns (j: nat, servers: seq<string>, subs: seq<string>)
    requires s.pc == Start && BoltDb in s.fs && s.fs[BoltDb] == BoltFile(b) && WellKept(b) && IsImport(b, json, t)
    ensures var e := Iter(s, j, ImportOf(b, json, t), HoldsData, drawn);
            && e.pc.Done? && (BoltDb !in e.fs <==> InUse(s.fs) || Migratable(b, json))
            && (if InUse(s.fs) then Sqlite in e.fs && e.fs[Sqlite] == s.fs[Sqlite]
                else if Migratable(b, json) then
                  && Reads(b.servers, json, servers) && Reads(b.subscriptions, json, subs)
                  && Sqlite in e.fs && e.fs[Sqlite].SqliteFile? && Carried(b, servers, subs, json, e.fs[Sqlite].tables)
                else Sqlite !in e.fs)
            && Intact(e.fs, s.fs, b) && Tidy(e.fs, s.fs, drawn)
  {
    var imp := ImportOf(b, json, t);
    PassesIff(b, json, t);
    MigratableIff(b, json);
    servers, subs := [], [];
    if t.Some? { servers, subs := ContentKept(b, json, t); }
    j := Completes(s, imp, HoldsData, drawn);
    OutcomeHas(s.fs, b, imp, drawn);
  }

  /**
   Beside a new database nothing of a discarded one is left, nor of the temporary one; every other file
   that was there, older backups and leftovers of other attempts, is as it was.
   */
  ghost predicate Tidy(e: Files<Bolt, Tables>, fs: Files<Bolt, Tables>, drawn: nat)
  {
    && (!InUse(fs) && Sqlite in fs ==> SqliteWal !in e && SqliteShm !in e)
    && (!InUse(fs) ==> Temp(drawn) !in e && TempWal(drawn) !in e && TempShm(drawn) !in e)
    && forall x | x in fs && (x.Backup? || ((x.Temp? || x.TempWal? || x.TempShm?) && x.n != drawn)) ::
         x in e && e[x] == fs[x]
  }

  lemma {:induction false} OutcomeHas(fs: Files<Bolt, Tables>, b: Bolt, imp: Import<Tables>, drawn: nat)
    requires BoltDb in fs && fs[BoltDb] == BoltFile(b)
    ensures var e := Outcome(fs, imp, HoldsData, drawn);
            && Intact(e, fs, b) && (BoltDb !in e <==> InUse(fs) || imp.Passes())
            && if InUse(fs) then Sqlite in e && e[Sqlite] == fs[Sqlite]
               else if imp.Passes() then Sqlite in e && e[Sqlite] == SqliteFile(imp.tables.value)
               else Sqlite !in e
    ensures Tidy(Outcome(fs, imp, HoldsData, drawn), fs, drawn)
  {
    var e := Outcome(fs, imp, HoldsData, drawn);
    InUseIs(fs);
    if BoltDb !in e { assert SavedIn(e, fs, b, LeastFree(fs, 0)); }
  }
}
