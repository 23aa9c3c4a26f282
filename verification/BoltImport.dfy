/**
 What the migration writes into the new tables, and when verifyMigration accepts it.
 Reading and rewriting JSON is a parameter: `Json` lists the library calls made.
 */
module BoltImport {
  import opened Options
  import opened Migration

  datatype Pair = Pair(key: string, value: string)

  /** A top-level Bolt bucket with the two values an outbound bucket may hold. */
  datatype Bucket = Bucket(name: string, setting: Option<string>, connected: Option<string>)

  datatype Bolt = Bolt(system: Option<seq<Pair>>, servers: Option<string>, subscriptions: Option<string>,
                       buckets: seq<Bucket>)

  datatype Parsed = Parsed(config: string, autoSelect: bool, servers: seq<string>)

  datatype Json = Json(
    elements: string -> Option<seq<string>>,
    subscription: string -> Parsed,
    policy: string -> Option<string>,
    manual: (string, seq<bool>) -> Option<bool>,
    automatic: (string, bool) -> Option<string>,
    validSetting: string -> bool,
    validConnected: string -> bool)

  /** Keys of system_config; `Text` is the column's text. */
  datatype Key = System(key: string) | Setting(bucket: string) | Connected(bucket: string) | PolicyMarker | AutoMarker

  function Text(k: Key): string
  {
    match k
    case System(key) => "system:" + key
    case Setting(bucket) => bucket + ":setting"
    case Connected(bucket) => bucket + ":connectedServers"
    case PolicyMarker => "migration:subscription_update_policy_v1"
    case AutoMarker => "migration:auto_select_group_v1"
  }

  /** `owner` is None for type 'server', else the ordinal of the subscription. */
  datatype ServerRow = ServerRow(owner: Option<nat>, config: string, sort: nat)
  datatype SubRow = SubRow(config: string, autoSelect: bool, sort: nat)

  type Config = map<Key, string>
  datatype Tables = Tables(config: Config, servers: seq<ServerRow>, subs: seq<SubRow>)

  const PROXY := "outbound.proxy"
  const DEFAULT_SETTING :=
    "{\"probeURL\":\"https://www.gstatic.com/generate_204\",\"probeInterval\":\"300s\",\"type\":\"leastping\"}"

  predicate HasPrefix(s: string, prefix: string) { |s| >= |prefix| && s[..|prefix|] == prefix }

  // ----------------------------------------------------------- keys do not clash

  predicate OutboundName(bucket: string) { HasPrefix(bucket, "outbound.") }

  predicate Proper(k: Key) { k.Setting? || k.Connected? ==> OutboundName(k.bucket) }

  function First(k: Key): char { if k.System? then 's' else if k.Setting? || k.Connected? then 'o' else 'm' }

  /** How a key is read back from its text. */
  lemma {:induction false} TextShape(k: Key)
    requires Proper(k)
    ensures var t := Text(k); |t| >= 7 && t[0] == First(k)
    ensures k.System? ==> Text(k)[7..] == k.key && Text(k)[..7] == "system:"
    ensures var t := Text(k);
            k.Setting? ==> |t| > 8 && t[|t| - 8..] == ":setting" && t[|t| - 1] == 'g' && t[..|t| - 8] == k.bucket
    ensures var t := Text(k);
            k.Connected? ==>
              |t| > 17 && t[|t| - 17..] == ":connectedServers" && t[|t| - 1] == 's' && t[..|t| - 17] == k.bucket
    ensures k.PolicyMarker? ==> Text(k) == "migration:subscription_update_policy_v1"
    ensures k.AutoMarker? ==> Text(k) == "migration:auto_select_group_v1"
  {
    if k.Setting? || k.Connected? { assert Text(k)[0] == k.bucket[0] == k.bucket[..9][0]; }
  }

  /** Two rows of system_config never share a key text. */
  lemma {:induction false} TextInjective(a: Key, b: Key)
    requires Proper(a) && Proper(b) && Text(a) == Text(b)
    ensures a == b
  {
    TextShape(a);
    TextShape(b);
    assert |Text(PolicyMarker)| == 39 && |Text(AutoMarker)| == 30;
  }

  /** The pattern 'system:%' picks the system rows and no others. */
  lemma {:induction false} LikeSystem(k: Key)
    requires Proper(k)
    ensures HasPrefix(Text(k), "system:") <==> k.System?
  {
    TextShape(k);
    assert Text(k)[..7][0] == First(k);
  }

  // -------------------------------------------------------------- filling tables

  /** migrateSystemBucket. */
  function PutSystem(c: Config, ps: seq<Pair>): Config
  {
    if ps == [] then c
    else PutSystem(c, ps[..|ps| - 1])[System(ps[|ps| - 1].key) := ps[|ps| - 1].value]
  }

  method MigrateSystemBucket(c: Config, bucket: Option<seq<Pair>>) returns (r: Config)
    ensures r == PutSystem(c, if bucket.None? then [] else bucket.value)
  {
    r := c;
    if bucket.None? { return; }
    var ps := bucket.value;
    for i := 0 to |ps|
      invariant r == PutSystem(c, ps[..i])
    {
      assert ps[..i + 1][..i] == ps[..i];
      r := r[System(ps[i].key) := ps[i].value];
    }
    assert ps[..|ps|] == ps;
  }

  function Stored(v: Option<string>, k: Key, c: Config): Config { if v.None? then c else c[k := v.value] }

  /** A bucket counts as an outbound's when something follows the prefix. */
  predicate Named(name: string) { |name| > 9 && HasPrefix(name, "outbound.") }

  function PutBucket(c: Config, b: Bucket): Config
  {
    if Named(b.name) then Stored(b.connected, Connected(b.name), Stored(b.setting, Setting(b.name), c)) else c
  }

  function PutBuckets(c: Config, bs: seq<Bucket>): Config
  {
    if bs == [] then c else PutBucket(PutBuckets(c, bs[..|bs| - 1]), bs[|bs| - 1])
  }

  /** migrateOutboundsBucket, its settings and connections. */
  method MigrateBuckets(c: Config, bs: seq<Bucket>) returns (r: Config)
    ensures r == PutBuckets(c, bs)
  {
    r := c;
    for i := 0 to |bs|
      invariant r == PutBuckets(c, bs[..i])
    {
      assert bs[..i + 1][..i] == bs[..i];
      var b := bs[i];
      if Named(b.name) {
        if b.setting.Some? { r := r[Setting(b.name) := b.setting.value]; }
        if b.connected.Some? { r := r[Connected(b.name) := b.connected.value]; }
      }
    }
    assert bs[..|bs|] == bs;
  }

  function Rows(items: seq<string>, owner: Option<nat>): seq<ServerRow>
  {
    seq(|items|, i requires 0 <= i < |items| => ServerRow(owner, items[i], i))
  }

  method InsertRows(rows: seq<ServerRow>, items: seq<string>, owner: Option<nat>) returns (r: seq<ServerRow>)
    ensures r == rows + Rows(items, owner)
  {
    r := rows;
    for i := 0 to |items|
      invariant r == rows + Rows(items, owner)[..i]
    {
      r := r + [ServerRow(owner, items[i], i)];
    }
  }

  function SubRows(items: seq<string>, json: Json): seq<SubRow>
  {
    seq(|items|, i requires 0 <= i < |items| =>
      var p := json.subscription(items[i]); SubRow(p.config, p.autoSelect, i))
  }

  function SubServers(items: seq<string>, json: Json): seq<ServerRow>
  {
    if items == [] then []
    else
      var n := |items| - 1;
      SubServers(items[..n], json) + Rows(json.subscription(items[n]).servers, Some(n))
  }

  /** migrateSubscriptions on a readable array. */
  method InsertSubscriptions(rows: seq<ServerRow>, items: seq<string>, json: Json)
    returns (servers: seq<ServerRow>, subs: seq<SubRow>)
    ensures servers == rows + SubServers(items, json) && subs == SubRows(items, json)
  {
    servers, subs := rows, [];
    assert SubServers(items[..0], json) == [] && rows + [] == rows;
    for i := 0 to |items|
      invariant servers == rows + SubServers(items[..i], json) && subs == SubRows(items, json)[..i]
    {
      assert items[..i + 1][..i] == items[..i];
      var p := json.subscription(items[i]);
      subs := subs + [SubRow(p.config, p.autoSelect, i)];
      servers := InsertRows(servers, p.servers, Some(i));
    }
    assert items[..|items|] == items;
  }

  // ------------------------------------------------------- the two policy rewrites

  /** migrateSubscriptionUpdatePolicy, its effect on system_config. */
  function Policy(c: Config, json: Json): Option<Config>
  {
    if System("setting") in c && c[System("setting")] != "" then
      var v := json.policy(c[System("setting")]);
      if v.None? then None else Some(c[System("setting") := v.value][PolicyMarker := "1"])
    else Some(c[PolicyMarker := "1"])
  }

  function Flags(subs: seq<SubRow>): seq<bool> { seq(|subs|, i requires 0 <= i < |subs| => subs[i].autoSelect) }

  predicate AnyAuto(subs: seq<SubRow>) { exists i | 0 <= i < |subs| :: subs[i].autoSelect }

  /** The setting the automatic group starts from, and whether the group has members of the user's own. */
  function ProxySetting(c: Config): string { if Setting(PROXY) in c then c[Setting(PROXY)] else DEFAULT_SETTING }

  function Manual(c: Config, flags: seq<bool>, json: Json): Option<bool>
  {
    if Connected(PROXY) in c then json.manual(c[Connected(PROXY)], flags) else Some(false)
  }

  function Rewritten(c: Config, flags: seq<bool>, json: Json): Option<string>
  {
    var m := Manual(c, flags, json);
    if m.None? then None else json.automatic(ProxySetting(c), m.value)
  }

  function Retired(subs: seq<SubRow>): seq<SubRow>
  {
    seq(|subs|, i requires 0 <= i < |subs| => subs[i].(autoSelect := false))
  }

  /** migrateAutoSelectToAutomaticGroup on a database that has not had it. */
  method AutomaticGroup(c: Config, subs: seq<SubRow>, json: Json) returns (r: Option<Config>, subs': seq<SubRow>)
    ensures !AnyAuto(subs) ==> r == Some(c[AutoMarker := "1"]) && subs' == subs
    ensures AnyAuto(subs) ==>
              && subs' == Retired(subs)
              && var v := Rewritten(c, Flags(subs), json);
                 r == if v.None? then None else Some(c[Setting(PROXY) := v.value][AutoMarker := "1"])
  {
    var count := 0;
    for i := 0 to |subs|
      invariant count > 0 <==> exists k | 0 <= k < i :: subs[k].autoSelect
      invariant count >= 0
    {
      if subs[i].autoSelect { count := count + 1; }
    }
    if count == 0 { return Some(c[AutoMarker := "1"]), subs; }
    subs' := Retired(subs);
    var v := Rewritten(c, Flags(subs), json);
    r := if v.None? then None else Some(c[Setting(PROXY) := v.value][AutoMarker := "1"]);
  }

  // ------------------------------------------------------------------ the import

  /** A value that is absent is no items; one that is no array cannot be migrated. */
  function Items(text: Option<string>, json: Json): Option<seq<string>>
  {
    if text.None? then Some([]) else json.elements(text.value)
  }

  function SystemOf(b: Bolt): seq<Pair> { if b.system.None? then [] else b.system.value }

  function Filled(b: Bolt): Config { PutBuckets(PutSystem(map[], SystemOf(b)), b.buckets) }

  /** The tables a migration commits, as verifyMigration then sees them. */
  ghost predicate IsImport(b: Bolt, json: Json, t: Option<Tables>)
  {
    var servers, subs := Items(b.servers, json), Items(b.subscriptions, json);
    if servers.None? || subs.None? || Policy(Filled(b), json).None? then t.None?
    else
      var c, rows := Policy(Filled(b), json).value, SubRows(subs.value, json);
      var all := Rows(servers.value, None) + SubServers(subs.value, json);
      if !AnyAuto(rows) then t == Some(Tables(c[AutoMarker := "1"], all, rows))
      else
        var v := Rewritten(c, Flags(rows), json);
        t == if v.None? then None else Some(Tables(c[Setting(PROXY) := v.value][AutoMarker := "1"], all, Retired(rows)))
  }

  method Migrate(b: Bolt, json: Json) returns (t: Option<Tables>)
    ensures IsImport(b, json, t)
  {
    var c := MigrateSystemBucket(map[], b.system);
    var items := Items(b.servers, json);
    if items.None? { return None; }
    var servers := InsertRows([], items.value, None);
    assert [] + Rows(items.value, None) == Rows(items.value, None);
    items := Items(b.subscriptions, json);
    if items.None? { return None; }
    var subs;
    servers, subs := InsertSubscriptions(servers, items.value, json);
    c := MigrateBuckets(c, b.buckets);
    var p := Policy(c, json);
    if p.None? { return None; }
    var r;
    r, subs := AutomaticGroup(p.value, subs, json);
    t := if r.None? then None else Some(Tables(r.value, servers, subs));
  }

  // ---------------------------------------------------------------- verification

  function SystemKeys(c: Config): set<Key> { set k | k in c && k.System? }

  function Plain(rows: seq<ServerRow>): nat
  {
    if rows == [] then 0 else Plain(rows[..|rows| - 1]) + if rows[|rows| - 1].owner.None? then 1 else 0
  }

  /** One stored outbound value: there, unchanged and readable. */
  predicate SameValue(v: Option<string>, k: Key, c: Config, valid: string -> bool)
  {
    v.None? || (k in c && c[k] == v.value && valid(c[k]))
  }

  predicate SameBucket(b: Bucket, c: Config, json: Json)
  {
    !OutboundName(b.name) ||
    (SameValue(b.setting, Setting(b.name), c, json.validSetting)
     && SameValue(b.connected, Connected(b.name), c, json.validConnected))
  }

  predicate SameCounts(b: Bolt, t: Tables, json: Json)
  {
    && (b.system.Some? ==> |b.system.value| == |SystemKeys(t.config)|)
    && (b.servers.Some? ==> |Elements(b.servers.value, json)| == Plain(t.servers))
    && (b.subscriptions.Some? ==> |Elements(b.subscriptions.value, json)| == |t.subs|)
  }

  ghost predicate Verified(b: Bolt, t: Tables, json: Json)
  {
    SameCounts(b, t, json) && forall i | 0 <= i < |b.buckets| :: SameBucket(b.buckets[i], t.config, json)
  }

  /** verifyMigration: counts, then every outbound value. */
  method VerifyMigration(b: Bolt, t: Tables, json: Json) returns (ok: bool)
    ensures ok <==> Verified(b, t, json)
  {
    if b.system.Some? && |b.system.value| != |SystemKeys(t.config)| { return false; }
    if b.servers.Some? && |Elements(b.servers.value, json)| != Plain(t.servers) { return false; }
    if b.subscriptions.Some? && |Elements(b.subscriptions.value, json)| != |t.subs| { return false; }
    for i := 0 to |b.buckets|
      invariant forall k | 0 <= k < i :: SameBucket(b.buckets[k], t.config, json)
    {
      if !SameBucket(b.buckets[i], t.config, json) { return false; }
    }
    ok := true;
  }

  /** gjson's Array() of a text: empty when it is no array. */
  function Elements(text: string, json: Json): seq<string>
  {
    var a := json.elements(text);
    if a.None? then [] else a.value
  }

  // ----------------------------------------------------- when a migration passes

  ghost predicate DistinctKeys(ps: seq<Pair>) { forall i, j | 0 <= i < j < |ps| :: ps[i].key != ps[j].key }

  ghost predicate DistinctBuckets(bs: seq<Bucket>) { forall i, j | 0 <= i < j < |bs| :: bs[i].name != bs[j].name }

  /** Bolt keeps keys and bucket names apart. */
  ghost predicate WellKept(b: Bolt) { DistinctKeys(SystemOf(b)) && DistinctBuckets(b.buckets) }

  lemma {:induction false} PutSystemHas(c: Config, ps: seq<Pair>, x: string)
    ensures System(x) in PutSystem(c, ps) <==> System(x) in c || exists i | 0 <= i < |ps| :: ps[i].key == x
    decreases |ps|
  {
    if ps != [] {
      var n := |ps| - 1;
      PutSystemHas(c, ps[..n], x);
      if ps[n].key == x { assert ps[n].key == x; }
      if i :| 0 <= i < n && ps[..n][i].key == x { assert ps[i].key == x; }
      if i :| 0 <= i < n && ps[i].key == x { assert ps[..n][i].key == x; }
    }
  }

  lemma {:induction false} PutSystemKeys(c: Config, ps: seq<Pair>)
    requires DistinctKeys(ps) && SystemKeys(c) == {}
    ensures |SystemKeys(PutSystem(c, ps))| == |ps|
    decreases |ps|
  {
    if ps != [] {
      var n := |ps| - 1;
      var front, k := ps[..n], System(ps[n].key);
      assert forall i | 0 <= i < n :: front[i] == ps[i];
      PutSystemKeys(c, front);
      PutSystemHas(c, front, ps[n].key);
      assert k !in SystemKeys(c);
      assert k !in PutSystem(c, front);
      OneKey(PutSystem(c, front), k, ps[n].value);
    }
  }

  lemma {:induction false} OneKey(c: Config, k: Key, v: string)
    requires k.System? && k !in c
    ensures |SystemKeys(c[k := v])| == |SystemKeys(c)| + 1
  {
    assert SystemKeys(c[k := v]) == SystemKeys(c) + {k};
  }

  lemma {:induction false} PutSystemOther(c: Config, ps: seq<Pair>, k: Key)
    requires !k.System?
    ensures k in PutSystem(c, ps) <==> k in c
    decreases |ps|
  {
    if ps != [] { PutSystemOther(c, ps[..|ps| - 1], k); }
  }

  lemma {:induction false} PutBucketsSystem(c: Config, bs: seq<Bucket>, k: Key)
    requires !k.Setting? && !k.Connected?
    ensures k in PutBuckets(c, bs) <==> k in c
    ensures k in c ==> PutBuckets(c, bs)[k] == c[k]
    decreases |bs|
  {
    if bs != [] { PutBucketsSystem(c, bs[..|bs| - 1], k); }
  }

  /** Keys of buckets with another name are left alone. */
  lemma {:induction false} PutBucketsOther(c: Config, bs: seq<Bucket>, k: Key)
    requires k.Setting? || k.Connected?
    requires forall i | 0 <= i < |bs| :: bs[i].name != k.bucket
    ensures k in PutBuckets(c, bs) <==> k in c
    ensures k in c ==> PutBuckets(c, bs)[k] == c[k]
    decreases |bs|
  {
    if bs != [] {
      assert forall i | 0 <= i < |bs| - 1 :: bs[..|bs| - 1][i] == bs[i];
      PutBucketsOther(c, bs[..|bs| - 1], k);
    }
  }

  ghost predicate At(c: Config, k: Key, v: Option<string>) { if v.None? then k !in c else k in c && c[k] == v.value }

  /** A named bucket's values stand under its keys, and nothing does under those of the bare prefix. */
  lemma {:induction false} PutBucketsAt(c: Config, bs: seq<Bucket>, i: nat)
    requires i < |bs| && DistinctBuckets(bs) && OutboundName(bs[i].name)
    requires Setting(bs[i].name) !in c && Connected(bs[i].name) !in c
    ensures var r, b := PutBuckets(c, bs), bs[i];
            && At(r, Setting(b.name), if Named(b.name) then b.setting else None)
            && At(r, Connected(b.name), if Named(b.name) then b.connected else None)
    decreases |bs|
  {
    var n := |bs| - 1;
    var front := bs[..n];
    assert forall j | 0 <= j < n :: front[j] == bs[j];
    if i == n {
      PutBucketsOther(c, front, Setting(bs[i].name));
      PutBucketsOther(c, front, Connected(bs[i].name));
    } else {
      PutBucketsAt(c, front, i);
    }
  }

  // ------------------------------------------------------------------ the result

  ghost predicate FitBucket(b: Bucket, json: Json)
  {
    OutboundName(b.name) ==>
      && (b.setting.Some? ==> Named(b.name) && json.validSetting(b.setting.value))
      && (b.connected.Some? ==> Named(b.name) && json.validConnected(b.connected.value))
  }

  /** The values of all outbound buckets are readable, and the bare prefix names none. */
  ghost predicate BucketsFit(b: Bolt, json: Json) { forall i | 0 <= i < |b.buckets| :: FitBucket(b.buckets[i], json) }

  ghost predicate Readable(b: Bolt, json: Json) { Items(b.servers, json).Some? && Items(b.subscriptions, json).Some? }

  ghost function Subs(b: Bolt, json: Json): seq<SubRow>
    requires Readable(b, json)
  {
    SubRows(Items(b.subscriptions, json).value, json)
  }

  /** Retiring auto-select leaves a stored proxy setting as it is. */
  ghost predicate ProxyUnchanged(b: Bolt, json: Json)
    requires Readable(b, json)
  {
    AnyAuto(Subs(b, json)) ==>
      var v := Rewritten(Filled(b), Flags(Subs(b, json)), json);
      v.Some? && forall i | 0 <= i < |b.buckets| :: KeepsProxy(b.buckets[i], v.value)
  }

  ghost predicate KeepsProxy(b: Bucket, v: string) { b.name == PROXY && b.setting.Some? ==> b.setting.value == v }

  lemma {:induction false} PolicyKeeps(c: Config, json: Json)
    requires Policy(c, json).Some?
    ensures var p := Policy(c, json).value;
            && SystemKeys(p) == SystemKeys(c)
            && forall k: Key | k.Setting? || k.Connected? :: (k in p <==> k in c) && (k in c ==> p[k] == c[k])
  {}

  lemma {:induction false} FilledKeys(b: Bolt)
    requires WellKept(b)
    ensures |SystemKeys(Filled(b))| == |SystemOf(b)|
    ensures forall i | 0 <= i < |b.buckets| && OutboundName(b.buckets[i].name) :: Holding(b, i)
  {
    var c := PutSystem(map[], SystemOf(b));
    PutSystemKeys(map[], SystemOf(b));
    assert SystemKeys(Filled(b)) == SystemKeys(c) by {
      forall k: Key | k.System?
        ensures k in Filled(b) <==> k in c
      {
        PutBucketsSystem(c, b.buckets, k);
      }
    }
    forall i | 0 <= i < |b.buckets| && OutboundName(b.buckets[i].name)
      ensures Holding(b, i)
    {
      PutSystemOther(map[], SystemOf(b), Setting(b.buckets[i].name));
      PutSystemOther(map[], SystemOf(b), Connected(b.buckets[i].name));
      PutBucketsAt(c, b.buckets, i);
    }
  }

  ghost predicate Holding(b: Bolt, i: nat)
    requires i < |b.buckets|
  {
    var u, c := b.buckets[i], Filled(b);
    && At(c, Setting(u.name), if Named(u.name) then u.setting else None)
    && At(c, Connected(u.name), if Named(u.name) then u.connected else None)
  }

  lemma {:induction false} PlainRows(items: seq<string>, more: seq<string>, json: Json)
    ensures Plain(Rows(items, None) + SubServers(more, json)) == |items|
    decreases |items| + |more|
  {
    if more != [] {
      var n := |more| - 1;
      PlainRows(items, more[..n], json);
      PlainOwned(Rows(items, None) + SubServers(more[..n], json), json.subscription(more[n]).servers, n);
      assert Rows(items, None) + SubServers(more, json) ==
             Rows(items, None) + SubServers(more[..n], json) + Rows(json.subscription(more[n]).servers, Some(n));
    } else if items != [] {
      var n := |items| - 1;
      var rows := Rows(items, None);
      assert rows + [] == rows && rows[..n] == Rows(items[..n], None) && rows[..n] + [] == rows[..n];
      PlainRows(items[..n], more, json);
    }
  }

  lemma {:induction false} PlainOwned(rows: seq<ServerRow>, items: seq<string>, owner: nat)
    ensures Plain(rows + Rows(items, Some(owner))) == Plain(rows)
    decreases |items|
  {
    var r := rows + Rows(items, Some(owner));
    if items == [] {
      assert r == rows;
    } else {
      assert r[..|r| - 1] == rows + Rows(items[..|items| - 1], Some(owner));
      PlainOwned(rows, items[..|items| - 1], owner);
    }
  }

  lemma {:induction false} CountsMatch(b: Bolt, json: Json, t: Option<Tables>)
    requires WellKept(b) && IsImport(b, json, t) && t.Some?
    ensures SameCounts(b, t.value, json)
  {
    var servers, subs := Items(b.servers, json).value, Items(b.subscriptions, json).value;
    PlainRows(servers, subs, json);
    FilledKeys(b);
    PolicyKeeps(Filled(b), json);
    assert SystemKeys(t.value.config) == SystemKeys(Filled(b));
  }

  lemma {:induction false} BucketPasses(b: Bolt, json: Json, t: Option<Tables>, i: nat)
    requires WellKept(b) && IsImport(b, json, t) && t.Some? && i < |b.buckets|
    ensures var auto := AnyAuto(Subs(b, json));
            var v := Rewritten(Filled(b), Flags(Subs(b, json)), json);
            && (auto ==> v.Some?)
            && (SameBucket(b.buckets[i], t.value.config, json) <==>
                FitBucket(b.buckets[i], json) && (auto ==> KeepsProxy(b.buckets[i], v.value)))
  {
    FilledKeys(b);
    PolicyKeeps(Filled(b), json);
    var u := b.buckets[i];
    if OutboundName(u.name) { assert Holding(b, i); }
    assert Named(PROXY);
  }

  /**
   A migration commits and verifies if and only if the lists are arrays, the two rewrites
   succeed, every outbound value is readable, and no auto-select subscription makes it rewrite
   a stored proxy setting to something else.
   */
  lemma {:induction false} PassesIff(b: Bolt, json: Json, t: Option<Tables>)
    requires WellKept(b) && IsImport(b, json, t)
    ensures t.Some? && Verified(b, t.value, json) <==>
            Readable(b, json) && Policy(Filled(b), json).Some? && BucketsFit(b, json) && ProxyUnchanged(b, json)
  {
    if t.Some? {
      CountsMatch(b, json, t);
      forall i | 0 <= i < |b.buckets|
        ensures AnyAuto(Subs(b, json)) ==> Rewritten(Filled(b), Flags(Subs(b, json)), json).Some?
        ensures SameBucket(b.buckets[i], t.value.config, json) <==>
                FitBucket(b.buckets[i], json)
                && (AnyAuto(Subs(b, json)) ==>
                      KeepsProxy(b.buckets[i], Rewritten(Filled(b), Flags(Subs(b, json)), json).value))
      {
        BucketPasses(b, json, t, i);
      }
    }
    if Policy(Filled(b), json).Some? { PolicyKeeps(Filled(b), json); }
  }

  ghost predicate Adds(json: Json, x: string, manual: bool, withAutoAdd: iset<string>)
  {
    var v := json.automatic(x, manual);
    v.Some? ==> v.value in withAutoAdd
  }

  /** A stored proxy setting without the field that the rewrite always adds can never pass. */
  lemma {:induction false} AutoSelectRefused(b: Bolt, json: Json, t: Option<Tables>, withAutoAdd: iset<string>, i: nat)
    requires WellKept(b) && IsImport(b, json, t) && Readable(b, json) && AnyAuto(Subs(b, json))
    requires forall x, m :: Adds(json, x, m, withAutoAdd)
    requires i < |b.buckets| && b.buckets[i].name == PROXY && b.buckets[i].setting.Some?
    requires b.buckets[i].setting.value !in withAutoAdd
    ensures !(t.Some? && Verified(b, t.value, json))
  {
    PassesIff(b, json, t);
    var c, flags := Filled(b), Flags(Subs(b, json));
    var m, v := Manual(c, flags, json), Rewritten(c, flags, json);
    var stored := b.buckets[i].setting.value;
    assert m.Some? ==> Adds(json, ProxySetting(c), m.value, withAutoAdd);
    assert v.Some? ==> v.value != stored;
    assert v.Some? ==> !KeepsProxy(b.buckets[i], v.value);
    assert !ProxyUnchanged(b, json);
  }

  /** sqliteHoldsData on readable tables. */
  predicate HoldsData(t: Tables) { |SystemKeys(t.config)| > 0 }

  ghost function ImportOf(b: Bolt, json: Json, t: Option<Tables>): Import<Tables>
  {
    Import(t, t.Some? && Verified(b, t.value, json))
  }
}
