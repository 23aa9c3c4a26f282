/** The catalogue database: the same tables behind the operations the service calls. */
module CatalogueDb {
  import opened Options
  import opened Ordinals
  import opened Catalogue
  import opened References

  function Configs(l: seq<Row>): seq<string> { seq(|l|, i requires 0 <= i < |l| => l[i].config) }

  datatype Subscription = Subscription(config: string, servers: seq<string>)

  function View(r: Row, servers: seq<Row>): Subscription
  {
    Subscription(r.config, Configs(ListOf(servers, Some(r.id))))
  }

  function Views(subs: seq<Row>, servers: seq<Row>): seq<Subscription>
  {
    seq(|subs|, i requires 0 <= i < |subs| => View(subs[i], servers))
  }

  lemma {:induction false} KeptConfigs(l: seq<Row>, dead: set<int>)
    ensures Configs(Kept(l, dead)) == Kept(Configs(l), dead)
    decreases |l|
  {
    if l != [] {
      var n := |l| - 1;
      KeptConfigs(l[..n], dead);
      assert Configs(l)[..n] == Configs(l[..n]);
    }
  }

  lemma {:induction false} KeptViews(l: seq<Row>, servers: seq<Row>, dead: set<int>)
    ensures Views(Kept(l, dead), servers) == Kept(Views(l, servers), dead)
    decreases |l|
  {
    if l != [] {
      var n := |l| - 1;
      KeptViews(l[..n], servers, dead);
      assert Views(l, servers)[..n] == Views(l[..n], servers);
    }
  }

  /** DELETE of every row of one subscription. */
  function Purged(rows: seq<Row>, owner: Option<nat>): seq<Row>
  {
    if rows == [] then []
    else
      var n := |rows| - 1;
      Purged(rows[..n], owner) + if Mine(rows[n], owner) then [] else [rows[n]]
  }

  lemma {:induction false} PurgedLists(rows: seq<Row>, owner: Option<nat>, other: Option<nat>)
    ensures ListOf(Purged(rows, owner), other) == if other == owner then [] else ListOf(rows, other)
    decreases |rows|
  {
    if rows != [] {
      var n := |rows| - 1;
      PurgedLists(rows[..n], owner, other);
      var w := Purged(rows[..n], owner);
      assert w + [] == w;
      ListSnoc(w, rows[n], other);
    }
  }

  lemma {:induction false} PurgedIds(rows: seq<Row>, owner: Option<nat>, next: nat)
    requires IdsAscend(rows, next)
    ensures IdsAscend(Purged(rows, owner), next)
    ensures forall r | r in Purged(rows, owner) :: r in rows && r.owner != owner
    decreases |rows|
  {
    if rows != [] {
      var n := |rows| - 1;
      PurgedIds(rows[..n], owner, next);
      IdsSnoc(rows, Purged(rows[..n], owner), next);
      assert rows == rows[..n] + [rows[n]];
    }
  }

  /** SELECT ... WHERE sort = x: the first such row. */
  function FindSort(rows: seq<Row>, x: int): (r: Option<Row>)
    ensures r.Some? ==> r.value in rows && r.value.sort == x
    ensures r.None? ==> forall q | q in rows :: q.sort != x
  {
    if rows == [] then None else if rows[0].sort == x then Some(rows[0]) else FindSort(rows[1..], x)
  }

  /** The UPDATE of one row. */
  function LiveStep(live: seq<Row>, owner: Option<nat>, n: nat): seq<Row>
    requires n < |live|
  {
    if Mine(live[n], owner) then live[n := live[n].(sort := CountBelow(live, owner, live[n].sort))] else live
  }

  lemma {:induction false} RenumberStep(rows: seq<Row>, owner: Option<nat>, n: nat, live: seq<Row>)
    requires n < |rows| && InOrder(rows, owner) && (Mine(rows[n], owner) ==> 0 <= rows[n].sort)
    requires live == Renumbered(rows[..n], owner) + rows[n..]
    ensures |live| == |rows| && live[n] == rows[n]
    ensures Renumbered(rows[..n + 1], owner) + rows[n + 1..] ==
            LiveStep(live, owner, n)
  {
    var done := Renumbered(rows[..n], owner);
    RenumberedLength(rows[..n], owner);
    assert rows[..n + 1][..n] == rows[..n];
    assert rows[n..] == [rows[n]] + rows[n + 1..];
    if Mine(rows[n], owner) {
      LiveCount(rows, owner, n);
      UpdateAt(done, rows[n], rows[n + 1..], rows[n].(sort := |ListOf(rows[..n], owner)|));
    } else {
      UpdateAt(done, rows[n], rows[n + 1..], rows[n]);
    }
  }

  lemma {:induction false} UpdateAt(a: seq<Row>, x: Row, b: seq<Row>, y: Row)
    ensures (a + ([x] + b))[|a| := y] == a + [y] + b && (a + ([x] + b))[|a|] == x
    ensures a + ([x] + b) == a + [x] + b
  {}

  /** The rows of the list stand in sort order, none below zero. */
  ghost predicate Orderly(rows: seq<Row>, owner: Option<nat>)
  {
    InOrder(rows, owner) && forall i | 0 <= i < |rows| && Mine(rows[i], owner) :: 0 <= rows[i].sort
  }

  /** The first n rows are renumbered. */
  ghost predicate Upto(rows: seq<Row>, owner: Option<nat>, n: nat, live: seq<Row>)
  {
    n <= |rows| && live == Renumbered(rows[..n], owner) + rows[n..]
  }

  lemma {:induction false} UptoEnds(rows: seq<Row>, owner: Option<nat>)
    ensures Upto(rows, owner, 0, rows)
    ensures forall live | Upto(rows, owner, |rows|, live) :: live == Renumbered(rows, owner)
  {
    assert rows[0..] == rows && rows[..0] == [] && rows[..|rows|] == rows && rows[|rows|..] == [];
  }

  /** UPDATE ... SET sort = (SELECT COUNT(*) ...), one row after another on the live table. */
  method Renumber(rows: seq<Row>, owner: Option<nat>) returns (live: seq<Row>)
    requires Orderly(rows, owner)
    ensures live == Renumbered(rows, owner)
  {
    live := rows;
    UptoEnds(rows, owner);
    for n := 0 to |rows|
      invariant Upto(rows, owner, n, live)
    {
      live := RenumberRow(rows, owner, n, live);
    }
  }

  method RenumberRow(ghost rows: seq<Row>, owner: Option<nat>, n: nat, live: seq<Row>) returns (next: seq<Row>)
    requires n < |rows| && Orderly(rows, owner) && Upto(rows, owner, n, live)
    ensures Upto(rows, owner, n + 1, next)
  {
    RenumberStep(rows, owner, n, live);
    next := LiveStep(live, owner, n);
  }

  function Append(rows: seq<Row>, id: nat, owner: Option<nat>, config: string): seq<Row>
  {
    rows + [Row(id, owner, config, MaxSort(rows, owner) + 1)]
  }

  lemma {:induction false} AppendList(rows: seq<Row>, id: nat, owner: Option<nat>, config: string, other: Option<nat>)
    requires Dense(ListOf(rows, owner))
    ensures var rows' := Append(rows, id, owner, config);
            && ListOf(rows', other) ==
               ListOf(rows, other) + (if other == owner then [Row(id, owner, config, |ListOf(rows, owner)|)] else [])
            && Dense(ListOf(rows', owner))
  {
    MaxSortIs(rows, owner);
    ListSnoc(rows, Row(id, owner, config, MaxSort(rows, owner) + 1), other);
    ListSnoc(rows, Row(id, owner, config, MaxSort(rows, owner) + 1), owner);
  }

  ghost predicate ValidTables(servers: seq<Row>, subs: seq<Row>, nextServer: nat, nextSub: nat)
  {
    && IdsAscend(servers, nextServer) && IdsAscend(subs, nextSub)
    && Dense(ListOf(servers, None)) && Dense(subs)
    && (forall r | r in subs :: r.owner == None && Dense(ListOf(servers, Some(r.id))))
    && (forall r | r in servers && r.owner.Some? :: HasId(subs, r.owner.value))
  }

  ghost predicate HasId(rows: seq<Row>, id: nat) { exists q | q in rows :: q.id == id }

  lemma {:induction false} AllMine(rows: seq<Row>)
    requires forall r | r in rows :: r.owner == None
    ensures ListOf(rows, None) == rows
    decreases |rows|
  {
    if rows != [] {
      var n := |rows| - 1;
      assert rows[n] in rows;
      AllMine(rows[..n]);
      assert rows == rows[..n] + [rows[n]];
    }
  }

  lemma {:induction false} ListEmpty(rows: seq<Row>, owner: Option<nat>)
    requires forall r | r in rows :: r.owner != owner
    ensures ListOf(rows, owner) == []
    decreases |rows|
  {
    if rows != [] {
      assert rows[|rows| - 1] in rows;
      ListEmpty(rows[..|rows| - 1], owner);
    }
  }

  lemma {:induction false} RenumberedRows(rows: seq<Row>, owner: Option<nat>)
    ensures |Renumbered(rows, owner)| == |rows|
    ensures forall i | 0 <= i < |rows| ::
              var r := Renumbered(rows, owner)[i];
              r.id == rows[i].id && r.owner == rows[i].owner && r.config == rows[i].config
    decreases |rows|
  {
    if rows != [] { RenumberedRows(rows[..|rows| - 1], owner); }
  }

  /** A kept part of a dense list is still in sort order. */
  lemma {:induction false} KeptAscending(l: seq<Row>, dead: set<int>)
    requires Dense(l)
    ensures Ascending(Kept(l, dead)) && forall r | r in Kept(l, dead) :: 0 <= r.sort
  {
    var k := Kept(l, dead);
    forall i, j | 0 <= i < j < |k|
      ensures 0 <= k[i].sort < k[j].sort
    {
      var a := KeptFrom(l, dead, i);
      var b := KeptFrom(l, dead, j);
      KeptAt(l, dead, a);
      KeptAt(l, dead, b);
      if b < a { RankStep(dead, b, a); }
    }
    forall r | r in k
      ensures 0 <= r.sort
    {
      var i :| 0 <= i < |k| && k[i] == r;
      var a := KeptFrom(l, dead, i);
      KeptAt(l, dead, a);
    }
  }

  lemma {:induction false} WithoutInOrder(rows: seq<Row>, owner: Option<nat>, dead: set<int>)
    requires Dense(ListOf(rows, owner))
    ensures var w := Without(rows, owner, dead);
            && InOrder(w, owner) && forall i | 0 <= i < |w| && Mine(w[i], owner) :: 0 <= w[i].sort
  {
    var w := Without(rows, owner, dead);
    WithoutList(rows, owner, dead);
    KeptAscending(ListOf(rows, owner), dead);
    AscendingInOrder(w, owner);
    forall i | 0 <= i < |w| && Mine(w[i], owner)
      ensures 0 <= w[i].sort
    {
      ListIndex(w, owner, i);
    }
  }

  /** After a delete by ordinal and a renumbering. */
  function Removed(rows: seq<Row>, owner: Option<nat>, dead: set<int>): seq<Row>
  {
    Renumbered(Without(rows, owner, dead), owner)
  }

  lemma {:induction false} RemovedIds(rows: seq<Row>, owner: Option<nat>, dead: set<int>, next: nat)
    requires IdsAscend(rows, next)
    ensures IdsAscend(Removed(rows, owner, dead), next)
  {
    WithoutIds(rows, owner, dead, next);
    RenumberedRows(Without(rows, owner, dead), owner);
  }

  lemma {:induction false} RemovedOwn(rows: seq<Row>, owner: Option<nat>, dead: set<int>)
    requires Dense(ListOf(rows, owner))
    ensures var l := ListOf(Removed(rows, owner, dead), owner);
            Dense(l) && Configs(l) == Kept(Configs(ListOf(rows, owner)), dead)
  {
    var w := Without(rows, owner, dead);
    RenumberedList(w, owner, owner);
    WithoutList(rows, owner, dead);
    KeptConfigs(ListOf(rows, owner), dead);
    assert Configs(ListOf(Renumbered(w, owner), owner)) == Configs(ListOf(w, owner));
  }

  lemma {:induction false} RemovedOther(rows: seq<Row>, owner: Option<nat>, dead: set<int>, other: Option<nat>)
    requires other != owner
    ensures ListOf(Removed(rows, owner, dead), other) == ListOf(rows, other)
  {
    var w := Without(rows, owner, dead);
    RenumberedList(w, owner, other);
    WithoutOther(rows, owner, dead, other);
    assert ListOf(Renumbered(w, owner), other) == ListOf(w, other);
  }

  /** The whole effect of a removal on every list of the table. */
  lemma {:induction false} RemovedLists(rows: seq<Row>, owner: Option<nat>, dead: set<int>, other: Option<nat>,
                                        next: nat)
    requires Dense(ListOf(rows, owner)) && IdsAscend(rows, next)
    ensures var rows' := Removed(rows, owner, dead);
            && IdsAscend(rows', next)
            && (other == owner ==>
                && Dense(ListOf(rows', owner))
                && Configs(ListOf(rows', owner)) == Kept(Configs(ListOf(rows, owner)), dead))
            && (other != owner ==> ListOf(rows', other) == ListOf(rows, other))
  {
    RemovedIds(rows, owner, dead, next);
    if other == owner { RemovedOwn(rows, owner, dead); } else { RemovedOther(rows, owner, dead, other); }
  }

  /** The loop of subscriptionsRemove: per ordinal, the subscription's servers and then its row. */
  method Trim(servers0: seq<Row>, subs0: seq<Row>, indexes: seq<int>, ghost next: nat, ghost nextSub: nat)
    returns (servers: seq<Row>, subs: seq<Row>)
    requires ValidTables(servers0, subs0, next, nextSub)
    ensures subs == Without(subs0, None, Dead(indexes))
    ensures Trimmed(servers0, subs0, servers, Dead(indexes), next)
  {
    servers, subs := servers0, subs0;
    WithoutNone(subs0, None);
    TrimStart(servers0, subs0, next, nextSub);
    assert Dead(indexes[..0]) == {};
    for i := 0 to |indexes|
      invariant subs == Without(subs0, None, Dead(indexes[..i]))
      invariant Trimmed(servers0, subs0, servers, Dead(indexes[..i]), next)
    {
      ghost var dead := Dead(indexes[..i]);
      DeadNext(indexes, i);
      WithoutTwice(subs0, None, dead, {indexes[i]});
      WithoutMembers(subs0, dead);
      var row := FindSort(subs, indexes[i]);
      if row.Some? {
        TrimStep(servers0, subs0, servers, dead, next, nextSub, row.value);
        servers := Purged(servers, Some(row.value.id));
        subs := Without(subs, None, {indexes[i]});
      } else {
        WithoutAbsent(subs, indexes[i]);
        TrimSkip(servers0, subs0, servers, dead, next, indexes[i]);
      }
    }
    assert indexes[..|indexes|] == indexes;
  }

  method RemoveRows(servers0: seq<Row>, subs0: seq<Row>, indexes: seq<int>, ghost next: nat, ghost nextSub: nat)
    returns (servers: seq<Row>, subs: seq<Row>)
    requires ValidTables(servers0, subs0, next, nextSub)
    ensures ValidTables(servers, subs, next, nextSub) && ListOf(servers, None) == ListOf(servers0, None)
    ensures Views(subs, servers) == Kept(Views(subs0, servers0), Dead(indexes))
  {
    servers, subs := Trim(servers0, subs0, indexes, next, nextSub);
    AllMine(subs0);
    WithoutInOrder(subs0, None, Dead(indexes));
    subs := Renumber(subs, None);
    TrimmedKeeps(servers0, subs0, servers, Dead(indexes), next, nextSub);
  }

  lemma {:induction false} TrimStart(servers0: seq<Row>, subs0: seq<Row>, next: nat, nextSub: nat)
    requires ValidTables(servers0, subs0, next, nextSub)
    ensures Trimmed(servers0, subs0, servers0, {}, next)
  {
    forall r | r in servers0 && r.owner.Some?
      ensures HasLive(subs0, {}, r.owner.value)
    {
      assert HasId(subs0, r.owner.value);
      var p :| p in subs0 && p.id == r.owner.value;
    }
  }

  /** Inserts the servers of subscription `id` as rows 0, 1, ... */
  method Refill(base: seq<Row>, id: nat, items: seq<string>, next0: nat) returns (rows: seq<Row>, next: nat)
    requires IdsAscend(base, next0) && ListOf(base, Some(id)) == []
    ensures Refilled(base, rows, Some(id), items, next)
  {
    rows, next := base, next0;
    for j := 0 to |items|
      invariant Refilled(base, rows, Some(id), items[..j], next)
    {
      RefillStep(base, rows, Some(id), items[..j], next, items[j]);
      assert items[..j + 1] == items[..j] + [items[j]];
      rows := rows + [Row(next, Some(id), items[j], j)];
      next := next + 1;
    }
    assert items[..|items|] == items;
  }

  method AppendAll(servers0: seq<Row>, ghost subs: seq<Row>, next0: nat, ghost nextSub: nat, items: seq<string>)
    returns (servers: seq<Row>, next: nat)
    requires ValidTables(servers0, subs, next0, nextSub)
    ensures ValidTables(servers, subs, next, nextSub) && Views(subs, servers) == Views(subs, servers0)
    ensures Configs(ListOf(servers, None)) == Configs(ListOf(servers0, None)) + items
  {
    servers, next := servers0, next0;
    GrownEnds(servers0, subs, next0, nextSub, items);
    for i := 0 to |items|
      invariant Grown(servers0, servers, subs, next, nextSub, items[..i])
    {
      servers, next := AppendOne(servers0, servers, subs, next, nextSub, items, i);
    }
  }

  lemma {:induction false} GrownEnds(servers0: seq<Row>, subs: seq<Row>, next0: nat, nextSub: nat, items: seq<string>)
    requires ValidTables(servers0, subs, next0, nextSub)
    ensures Grown(servers0, servers0, subs, next0, nextSub, items[..0]) && items[..|items|] == items
  {
    assert Configs(ListOf(servers0, None)) + [] == Configs(ListOf(servers0, None)) && items[..0] == [];
  }

  method AppendOne(ghost servers0: seq<Row>, servers: seq<Row>, ghost subs: seq<Row>, next: nat, ghost nextSub: nat,
                   items: seq<string>, i: nat)
    returns (servers': seq<Row>, next': nat)
    requires i < |items| && Grown(servers0, servers, subs, next, nextSub, items[..i])
    ensures Grown(servers0, servers', subs, next', nextSub, items[..i + 1])
  {
    GrowStep(servers0, servers, subs, next, nextSub, items[..i], items[i]);
    assert items[..i + 1] == items[..i] + [items[i]];
    servers', next' := Append(servers, next, None, items[i]), next + 1;
  }

  ghost predicate Grown(servers0: seq<Row>, servers: seq<Row>, subs: seq<Row>, next: nat, nextSub: nat,
                        items: seq<string>)
  {
    && ValidTables(servers, subs, next, nextSub) && Views(subs, servers) == Views(subs, servers0)
    && Configs(ListOf(servers, None)) == Configs(ListOf(servers0, None)) + items
  }

  lemma {:induction false} GrowStep(servers0: seq<Row>, servers: seq<Row>, subs: seq<Row>, next: nat, nextSub: nat,
                                    items: seq<string>, item: string)
    requires Grown(servers0, servers, subs, next, nextSub, items)
    ensures Grown(servers0, Append(servers, next, None, item), subs, next + 1, nextSub, items + [item])
  {
    AppendKeeps(servers, subs, next, nextSub, item);
    var c := Configs(ListOf(servers0, None));
    assert c + items + [item] == c + (items + [item]);
  }

  method SetRow(servers0: seq<Row>, subs0: seq<Row>, next0: nat, ghost nextSub: nat, index: int, config: string,
                items: seq<string>)
    returns (found: bool, servers: seq<Row>, subs: seq<Row>, next: nat)
    requires ValidTables(servers0, subs0, next0, nextSub)
    ensures found == (0 <= index < |subs0|) && ValidTables(servers, subs, next, nextSub)
    ensures Configs(ListOf(servers, None)) == Configs(ListOf(servers0, None))
    ensures Views(subs, servers) ==
            if found then Views(subs0, servers0)[index := Subscription(config, items)] else Views(subs0, servers0)
  {
    var row := FindSort(subs0, index);
    SortIsIndex(subs0, index);
    if row.None? { return false, servers0, subs0, next0; }
    var id := row.value.id;
    PurgedIds(servers0, Some(id), next0);
    PurgedLists(servers0, Some(id), Some(id));
    servers, next := Refill(Purged(servers0, Some(id)), id, items, next0);
    SetKeeps(servers0, subs0, servers, next0, next, nextSub, index, config, items);
    subs := subs0[index := subs0[index].(config := config)];
    found := true;
  }

  method AddRow(servers0: seq<Row>, subs0: seq<Row>, next0: nat, id: nat, config: string, items: seq<string>)
    returns (servers: seq<Row>, subs: seq<Row>, next: nat)
    requires ValidTables(servers0, subs0, next0, id)
    ensures ValidTables(servers, subs, next, id + 1)
        && Configs(ListOf(servers, None)) == Configs(ListOf(servers0, None))
    ensures Views(subs, servers) == Views(subs0, servers0) + [Subscription(config, items)]
  {
    subs := Append(subs0, id, None, config);
    ListEmptyOwner(servers0, subs0, id, next0);
    servers, next := Refill(servers0, id, items, next0);
    AppendIs(subs0, id, config);
    AddKeeps(servers0, subs0, servers, next0, next, id, config, items);
  }

  class Database {
    var servers: seq<Row>
    var subs: seq<Row>
    var nextServer: nat
    var nextSub: nat
    /** The connected references, of all outbounds. */
    var connected: seq<NodeRef>

    constructor ()
      ensures Valid() && Servers() == [] && Subscriptions() == [] && connected == []
    {
      servers, subs, nextServer, nextSub, connected := [], [], 0, 0, [];
    }

    ghost predicate Valid()
      reads this
    {
      ValidTables(servers, subs, nextServer, nextSub)
    }

    /** SELECT ... ORDER BY sort, which is id order while Valid. */
    function Servers(): seq<string>
      reads this
    {
      Configs(ListOf(servers, None))
    }

    function Subscriptions(): seq<Subscription>
      reads this
    {
      Views(subs, servers)
    }

    method ServersAppend(items: seq<string>)
      requires Valid()
      modifies `servers, `subs, `nextServer, `nextSub
      ensures Valid() && Servers() == old(Servers()) + items && Subscriptions() == old(Subscriptions())
    {
      servers, nextServer := AppendAll(servers, subs, nextServer, nextSub, items);
    }

    /** serversRemove; an empty list is refused. */
    method ServersRemove(indexes: seq<int>) returns (ok: bool)
      requires Valid()
      modifies `servers, `subs, `nextServer, `nextSub
      ensures ok == (|indexes| > 0) && Valid() && Subscriptions() == old(Subscriptions())
      ensures Servers() == if ok then Kept(old(Servers()), Dead(indexes)) else old(Servers())
    {
      if |indexes| == 0 { return false; }
      ghost var rows := servers;
      WithoutNone(rows, None);
      assert Dead(indexes[..0]) == {};
      for i := 0 to |indexes|
        invariant subs == old(subs) && nextServer == old(nextServer) && nextSub == old(nextSub)
        invariant servers == Without(rows, None, Dead(indexes[..i]))
      {
        WithoutTwice(rows, None, Dead(indexes[..i]), {indexes[i]});
        servers := Without(servers, None, {indexes[i]});
        DeadNext(indexes, i);
      }
      assert indexes[..|indexes|] == indexes;
      ghost var dead := Dead(indexes);
      WithoutInOrder(rows, None, dead);
      servers := Renumber(servers, None);
      RemovedKeeps(rows, subs, nextServer, nextSub, dead);
      ok := true;
    }

    /** subscriptionsRemove: an ordinal that is not there is skipped. */
    method SubscriptionsRemove(indexes: seq<int>) returns (ok: bool)
      requires Valid()
      modifies `servers, `subs, `nextServer, `nextSub
      ensures ok == (|indexes| > 0) && Valid() && Servers() == old(Servers())
      ensures Subscriptions() == if ok then Kept(old(Subscriptions()), Dead(indexes)) else old(Subscriptions())
    {
      if |indexes| == 0 { return false; }
      servers, subs := RemoveRows(servers, subs, indexes, nextServer, nextSub);
      ok := true;
    }

    /** setSubscription: the row's columns, and its servers replaced under fresh ids. */
    method SetSubscription(index: int, config: string, items: seq<string>) returns (found: bool)
      requires Valid()
      modifies `servers, `subs, `nextServer, `nextSub
      ensures found == (0 <= index < |old(Subscriptions())|) && Valid() && Servers() == old(Servers())
      ensures Subscriptions() ==
              if found then old(Subscriptions())[index := Subscription(config, items)] else old(Subscriptions())
    {
      found, servers, subs, nextServer := SetRow(servers, subs, nextServer, nextSub, index, config, items);
    }

    /** SubscriptionsAppend, one subscription. */
    method SubscriptionAppend(config: string, items: seq<string>)
      requires Valid()
      modifies `servers, `subs, `nextServer, `nextSub
      ensures Valid() && Servers() == old(Servers())
      ensures Subscriptions() == old(Subscriptions()) + [Subscription(config, items)]
    {
      servers, subs, nextServer := AddRow(servers, subs, nextServer, nextSub, config, items);
      nextSub := nextSub + 1;
    }

    /**
     RemoveTx: the connected references, subscriptions, then servers, in one transaction; empty lists
     are passed over. A fault at any of the three rolls all of them back.
     */
    method RemoveTx(subscriptions: seq<int>, serverIndexes: seq<int>, refs: seq<NodeRef>, fault: Option<Part>)
      returns (ok: bool)
      requires Valid()
      modifies this
      ensures Valid()
      ensures ok <==> !(|| fault == Some(Connected) || (fault == Some(Subs) && |subscriptions| > 0)
                        || (fault == Some(Plain) && |serverIndexes| > 0))
      ensures ok ==>
                && Subscriptions() == Kept(old(Subscriptions()), Dead(subscriptions))
                && Servers() == Kept(old(Servers()), Dead(serverIndexes)) && connected == refs
      ensures !ok ==> unchanged(this)
    {
      KeptNothing(Subscriptions());
      KeptNothing(Servers());
      assert Dead([]) == {};
      var began := (servers, subs, nextServer, nextSub, connected);
      ok := false;
      if fault != Some(Connected) {
        connected := refs;
        ok := true;
        if |subscriptions| > 0 {
          if fault == Some(Subs) { ok := false; } else { var _ := SubscriptionsRemove(subscriptions); }
        }
        if ok && |serverIndexes| > 0 {
          if fault == Some(Plain) { ok := false; } else { var _ := ServersRemove(serverIndexes); }
        }
      }
      if !ok { servers, subs, nextServer, nextSub, connected := began.0, began.1, began.2, began.3, began.4; }
    }
  }

  /** The three parts of a removal. */
  datatype Part = Connected | Subs | Plain

  lemma {:induction false} KeptNothing<T>(l: seq<T>)
    ensures Kept(l, {}) == l
    decreases |l|
  {
    if l != [] {
      KeptNothing(l[..|l| - 1]);
      assert l == l[..|l| - 1] + [l[|l| - 1]];
    }
  }

  // -------------------------------------------------- removing subscriptions

  /** The servers of the doomed subscriptions are gone and nothing else is. */
  ghost predicate Trimmed(servers0: seq<Row>, subs0: seq<Row>, servers: seq<Row>, dead: set<int>, next: nat)
  {
    && IdsAscend(servers, next)
    && ListOf(servers, None) == ListOf(servers0, None)
    && (forall r | r in subs0 && r.sort !in dead :: ListOf(servers, Some(r.id)) == ListOf(servers0, Some(r.id)))
    && (forall r | r in servers && r.owner.Some? :: HasLive(subs0, dead, r.owner.value))
  }

  ghost predicate HasLive(subs: seq<Row>, dead: set<int>, id: nat)
  {
    exists q | q in subs :: q.sort !in dead && q.id == id
  }

  lemma {:induction false} WithoutMembers(rows: seq<Row>, dead: set<int>)
    requires forall r | r in rows :: r.owner == None
    ensures forall r :: r in Without(rows, None, dead) <==> r in rows && r.sort !in dead
    decreases |rows|
  {
    if rows != [] {
      var n := |rows| - 1;
      assert rows[n] in rows && rows == rows[..n] + [rows[n]];
      WithoutMembers(rows[..n], dead);
    }
  }

  lemma {:induction false} WithoutAbsent(rows: seq<Row>, x: int)
    requires forall r | r in rows :: r.sort != x
    ensures Without(rows, None, {x}) == rows
    decreases |rows|
  {
    if rows != [] {
      var n := |rows| - 1;
      assert rows[n] in rows && rows == rows[..n] + [rows[n]];
      WithoutAbsent(rows[..n], x);
    }
  }

  lemma {:induction false} SameId(rows: seq<Row>, next: nat, a: Row, b: Row)
    requires IdsAscend(rows, next) && a in rows && b in rows && a.id == b.id
    ensures a == b
  {
    var i :| 0 <= i < |rows| && rows[i] == a;
    var j :| 0 <= j < |rows| && rows[j] == b;
  }

  lemma {:induction false} TrimStep(servers0: seq<Row>, subs0: seq<Row>, servers: seq<Row>, dead: set<int>,
                                    next: nat, nextSub: nat, q: Row)
    requires Trimmed(servers0, subs0, servers, dead, next) && IdsAscend(subs0, nextSub) && Dense(subs0)
    requires q in subs0 && q.sort !in dead
    ensures Trimmed(servers0, subs0, Purged(servers, Some(q.id)), dead + {q.sort}, next)
  {
    var servers' := Purged(servers, Some(q.id));
    PurgedIds(servers, Some(q.id), next);
    PurgedLists(servers, Some(q.id), None);
    TrimLists(servers0, subs0, servers, dead, nextSub, q);
    forall r | r in servers' && r.owner.Some?
      ensures HasLive(subs0, dead + {q.sort}, r.owner.value)
    {
      LiveStill(subs0, dead, q, r.owner.value);
    }
  }

  lemma {:induction false} TrimLists(servers0: seq<Row>, subs0: seq<Row>, servers: seq<Row>, dead: set<int>,
                                     nextSub: nat, q: Row)
    requires IdsAscend(subs0, nextSub) && q in subs0
    requires forall r | r in subs0 && r.sort !in dead :: ListOf(servers, Some(r.id)) == ListOf(servers0, Some(r.id))
    ensures forall r | r in subs0 && r.sort !in dead + {q.sort} ::
              ListOf(Purged(servers, Some(q.id)), Some(r.id)) == ListOf(servers0, Some(r.id))
  {
    forall r | r in subs0 && r.sort !in dead + {q.sort}
      ensures ListOf(Purged(servers, Some(q.id)), Some(r.id)) == ListOf(servers0, Some(r.id))
    {
      if r.id == q.id { SameId(subs0, nextSub, r, q); }
      PurgedLists(servers, Some(q.id), Some(r.id));
    }
  }

  lemma {:induction false} LiveStill(subs0: seq<Row>, dead: set<int>, q: Row, id: nat)
    requires Dense(subs0) && q in subs0 && HasLive(subs0, dead, id) && id != q.id
    ensures HasLive(subs0, dead + {q.sort}, id)
  {
    var p :| p in subs0 && p.sort !in dead && p.id == id;
    if p.sort == q.sort { SameSort(subs0, p, q); }
  }

  lemma {:induction false} SameSort(rows: seq<Row>, a: Row, b: Row)
    requires Dense(rows) && a in rows && b in rows && a.sort == b.sort
    ensures a == b
  {
    var i :| 0 <= i < |rows| && rows[i] == a;
    var j :| 0 <= j < |rows| && rows[j] == b;
  }

  lemma {:induction false} TrimSkip(servers0: seq<Row>, subs0: seq<Row>, servers: seq<Row>, dead: set<int>, next: nat,
                                    x: int)
    requires Trimmed(servers0, subs0, servers, dead, next)
    requires forall r | r in subs0 && r.sort !in dead :: r.sort != x
    ensures Trimmed(servers0, subs0, servers, dead + {x}, next)
  {
    forall r | r in servers && r.owner.Some?
      ensures HasLive(subs0, dead + {x}, r.owner.value)
    {
      assert HasLive(subs0, dead, r.owner.value);
      var p :| p in subs0 && p.sort !in dead && p.id == r.owner.value;
    }
  }

  lemma {:induction false} TrimmedKeeps(servers0: seq<Row>, subs0: seq<Row>, servers: seq<Row>, dead: set<int>,
                                        next: nat, nextSub: nat)
    requires ValidTables(servers0, subs0, next, nextSub) && Trimmed(servers0, subs0, servers, dead, next)
    ensures var subs := Removed(subs0, None, dead);
            && ValidTables(servers, subs, next, nextSub)
            && Views(subs, servers) == Kept(Views(subs0, servers0), dead)
  {
    var w, subs := Without(subs0, None, dead), Removed(subs0, None, dead);
    RemovedSubs(subs0, dead, nextSub);
    TrimmedSubs(servers0, subs0, servers, dead, next, w, subs);
    TrimmedViews(servers0, subs0, servers, dead, w, subs);
  }

  /** The subscription rows left after a removal. */
  lemma {:induction false} RemovedSubs(subs0: seq<Row>, dead: set<int>, nextSub: nat)
    requires Dense(subs0) && IdsAscend(subs0, nextSub) && forall r | r in subs0 :: r.owner == None
    ensures var w, subs := Without(subs0, None, dead), Removed(subs0, None, dead);
            && w == Kept(subs0, dead) && (forall r :: r in w <==> r in subs0 && r.sort !in dead)
            && |subs| == |w|
            && (forall i | 0 <= i < |w| ::
                  subs[i].id == w[i].id && subs[i].owner == w[i].owner && subs[i].config == w[i].config)
            && Dense(subs) && IdsAscend(subs, nextSub)
  {
    var w, subs := Without(subs0, None, dead), Removed(subs0, None, dead);
    AllMine(subs0);
    WithoutMembers(subs0, dead);
    WithoutList(subs0, None, dead);
    AllMine(w);
    WithoutIds(subs0, None, dead, nextSub);
    RenumberedRows(w, None);
    RenumberedList(w, None, None);
    AllMineBy(w, subs);
  }

  lemma {:induction false} AllMineBy(w: seq<Row>, subs: seq<Row>)
    requires |subs| == |w| && (forall r | r in w :: r.owner == None)
    requires forall i | 0 <= i < |w| :: subs[i].owner == w[i].owner
    ensures ListOf(subs, None) == subs
  {
    forall r | r in subs
      ensures r.owner == None
    {
      var i :| 0 <= i < |subs| && subs[i] == r;
      assert w[i] in w;
    }
    AllMine(subs);
  }

  lemma {:induction false} TrimmedViews(servers0: seq<Row>, subs0: seq<Row>, servers: seq<Row>, dead: set<int>,
                                        w: seq<Row>, subs: seq<Row>)
    requires w == Kept(subs0, dead)
    requires forall r | r in w :: ListOf(servers, Some(r.id)) == ListOf(servers0, Some(r.id))
    requires |subs| == |w| && forall i | 0 <= i < |w| :: subs[i].id == w[i].id && subs[i].config == w[i].config
    ensures Views(subs, servers) == Kept(Views(subs0, servers0), dead)
  {
    SameViews(w, servers0, servers);
    KeptViews(subs0, servers0, dead);
    assert Views(subs, servers) == Views(w, servers);
  }

  lemma {:induction false} TrimmedSubs(servers0: seq<Row>, subs0: seq<Row>, servers: seq<Row>, dead: set<int>,
                                       next: nat, w: seq<Row>, subs: seq<Row>)
    requires Trimmed(servers0, subs0, servers, dead, next)
    requires forall r :: r in w <==> r in subs0 && r.sort !in dead
    requires forall r | r in subs0 :: r.owner == None && Dense(ListOf(servers0, Some(r.id)))
    requires |subs| == |w| && forall i | 0 <= i < |w| :: subs[i].id == w[i].id && subs[i].owner == w[i].owner
    ensures forall r | r in subs :: r.owner == None && Dense(ListOf(servers, Some(r.id)))
    ensures forall r | r in servers && r.owner.Some? :: HasId(subs, r.owner.value)
  {
    forall r | r in subs
      ensures r.owner == None && Dense(ListOf(servers, Some(r.id)))
    {
      var i :| 0 <= i < |subs| && subs[i] == r;
      assert w[i] in w;
    }
    forall r | r in servers && r.owner.Some?
      ensures HasId(subs, r.owner.value)
    {
      assert HasLive(subs0, dead, r.owner.value);
      var p :| p in subs0 && p.sort !in dead && p.id == r.owner.value;
      var i :| 0 <= i < |w| && w[i] == p;
      assert subs[i].id == p.id && subs[i] in subs;
    }
  }

  lemma {:induction false} SortIsIndex(subs: seq<Row>, index: int)
    requires Dense(subs)
    ensures FindSort(subs, index).Some? <==> 0 <= index < |subs|
    ensures FindSort(subs, index).Some? ==> FindSort(subs, index).value == subs[index]
  {
    if 0 <= index < |subs| { assert subs[index] in subs; }
    if FindSort(subs, index).Some? {
      var r := FindSort(subs, index).value;
      var i :| 0 <= i < |subs| && subs[i] == r;
    }
  }

  // ------------------------------------------------ servers of one subscription

  /** `rows` is `base` with the items appended as rows 0, 1, ... of `owner`. */
  ghost predicate Refilled(base: seq<Row>, rows: seq<Row>, owner: Option<nat>, items: seq<string>, next: nat)
  {
    && IdsAscend(rows, next)
    && Configs(ListOf(rows, owner)) == items && Dense(ListOf(rows, owner))
    && (forall o: Option<nat> | o != owner :: ListOf(rows, o) == ListOf(base, o))
    && (forall r | r in rows :: r in base || r.owner == owner)
  }

  lemma {:induction false} RefillStep(base: seq<Row>, rows: seq<Row>, owner: Option<nat>, items: seq<string>,
                                      next: nat, item: string)
    requires Refilled(base, rows, owner, items, next)
    ensures Refilled(base, rows + [Row(next, owner, item, |items|)], owner, items + [item], next + 1)
  {
    var r := Row(next, owner, item, |items|);
    AppendIds(rows, r, next);
    ListSnoc(rows, r, owner);
    assert |ListOf(rows, owner)| == |items| by { assert |Configs(ListOf(rows, owner))| == |ListOf(rows, owner)|; }
    forall o: Option<nat> | o != owner
      ensures ListOf(rows + [r], o) == ListOf(base, o)
    {
      ListSnoc(rows, r, o);
    }
    assert Configs(ListOf(rows, owner) + [r]) == items + [item];
  }

  lemma {:induction false} ListEmptyOwner(servers: seq<Row>, subs: seq<Row>, id: nat, next: nat)
    requires ValidTables(servers, subs, next, id)
    ensures ListOf(servers, Some(id)) == []
  {
    forall r | r in servers
      ensures r.owner != Some(id)
    {
      if r.owner.Some? {
        assert HasId(subs, r.owner.value);
        var q :| q in subs && q.id == r.owner.value;
        var i :| 0 <= i < |subs| && subs[i] == q;
      }
    }
    ListEmpty(servers, Some(id));
  }

  lemma {:induction false} SetKeeps(servers0: seq<Row>, subs0: seq<Row>, servers: seq<Row>, next0: nat, next: nat,
                                    nextSub: nat, index: nat, config: string, items: seq<string>)
    requires ValidTables(servers0, subs0, next0, nextSub) && index < |subs0|
    requires Refilled(Purged(servers0, Some(subs0[index].id)), servers, Some(subs0[index].id), items, next)
    ensures var subs := subs0[index := subs0[index].(config := config)];
            && ValidTables(servers, subs, next, nextSub)
            && Configs(ListOf(servers, None)) == Configs(ListOf(servers0, None))
            && Views(subs, servers) == Views(subs0, servers0)[index := Subscription(config, items)]
  {
    var id := subs0[index].id;
    var subs := subs0[index := subs0[index].(config := config)];
    PurgedIds(servers0, Some(id), next0);
    SetLists(servers0, servers, id, items, next);
    assert forall i | 0 <= i < |subs| ::
        subs[i].id == subs0[i].id && subs[i].sort == i && subs[i].owner == subs0[i].owner;
    SetViews(servers0, subs0, servers, nextSub, index, config, items);
    SetOwners(servers0, subs0, servers, subs, id, index);
    assert IdsAscend(subs, nextSub);
  }

  /** The lists of other owners are as they were. */
  lemma {:induction false} SetLists(servers0: seq<Row>, servers: seq<Row>, id: nat, items: seq<string>, next: nat)
    requires Refilled(Purged(servers0, Some(id)), servers, Some(id), items, next)
    ensures OthersKept(servers0, servers, id) && ListOf(servers, None) == ListOf(servers0, None)
  {
    forall o: Option<nat> | o != Some(id)
      ensures ListOf(servers, o) == ListOf(servers0, o)
    {
      PurgedLists(servers0, Some(id), o);
    }
  }

  ghost predicate OthersKept(servers0: seq<Row>, servers: seq<Row>, id: nat)
  {
    forall o: Option<nat> | o != Some(id) :: ListOf(servers, o) == ListOf(servers0, o)
  }

  lemma {:induction false} SetViews(servers0: seq<Row>, subs0: seq<Row>, servers: seq<Row>, nextSub: nat,
                                    index: nat, config: string, items: seq<string>)
    requires index < |subs0| && IdsAscend(subs0, nextSub)
    requires Configs(ListOf(servers, Some(subs0[index].id))) == items && Dense(ListOf(servers, Some(subs0[index].id)))
    requires OthersKept(servers0, servers, subs0[index].id)
    requires forall r | r in subs0 :: r.owner == None && Dense(ListOf(servers0, Some(r.id)))
    ensures var subs := subs0[index := subs0[index].(config := config)];
            && Views(subs, servers) == Views(subs0, servers0)[index := Subscription(config, items)]
            && forall r | r in subs :: r.owner == None && Dense(ListOf(servers, Some(r.id)))
  {
    var id := subs0[index].id;
    var subs := subs0[index := subs0[index].(config := config)];
    forall i | 0 <= i < |subs|
      ensures Views(subs, servers)[i] == Views(subs0, servers0)[index := Subscription(config, items)][i]
      ensures subs[i].owner == None && Dense(ListOf(servers, Some(subs[i].id)))
    {
      assert subs0[i] in subs0;
      if i != index { assert subs0[i].id != id; }
    }
  }

  lemma {:induction false} SetOwners(servers0: seq<Row>, subs0: seq<Row>, servers: seq<Row>, subs: seq<Row>,
                                     id: nat, index: nat)
    requires |subs| == |subs0| && index < |subs| && subs[index].id == id
    requires forall i | 0 <= i < |subs| :: subs[i].id == subs0[i].id
    requires forall r | r in servers0 && r.owner.Some? :: HasId(subs0, r.owner.value)
    requires forall r | r in servers :: r in servers0 || r.owner == Some(id)
    ensures forall r | r in servers && r.owner.Some? :: HasId(subs, r.owner.value)
  {
    forall r | r in servers && r.owner.Some?
      ensures HasId(subs, r.owner.value)
    {
      if r.owner == Some(id) {
        assert subs[index] in subs;
      } else {
        assert HasId(subs0, r.owner.value);
        var q :| q in subs0 && q.id == r.owner.value;
        var i :| 0 <= i < |subs0| && subs0[i] == q;
        assert subs[i] in subs;
      }
    }
  }

  lemma {:induction false} AppendIs(subs0: seq<Row>, id: nat, config: string)
    requires Dense(subs0) && forall r | r in subs0 :: r.owner == None
    ensures Append(subs0, id, None, config) == subs0 + [Row(id, None, config, |subs0|)]
  {
    AllMine(subs0);
    MaxSortIs(subs0, None);
  }

  lemma {:induction false} AddKeeps(servers0: seq<Row>, subs0: seq<Row>, servers: seq<Row>, next0: nat, next: nat,
                                    id: nat, config: string, items: seq<string>)
    requires ValidTables(servers0, subs0, next0, id) && Refilled(servers0, servers, Some(id), items, next)
    ensures var subs := subs0 + [Row(id, None, config, |subs0|)];
            && ValidTables(servers, subs, next, id + 1)
            && Views(subs, servers) == Views(subs0, servers0) + [Subscription(config, items)]
  {
    var r := Row(id, None, config, |subs0|);
    AppendIds(subs0, r, id);
    AddLists(servers0, subs0, servers, id);
    AddViews(subs0, servers0, servers, r);
    AddOwners(servers0, subs0, servers, r);
  }

  lemma {:induction false} AddViews(subs0: seq<Row>, servers0: seq<Row>, servers: seq<Row>, r: Row)
    requires forall q | q in subs0 :: ListOf(servers, Some(q.id)) == ListOf(servers0, Some(q.id))
    ensures Views(subs0 + [r], servers) == Views(subs0, servers0) + [View(r, servers)]
  {
    SameViews(subs0, servers0, servers);
    assert Views(subs0 + [r], servers) == Views(subs0, servers) + [View(r, servers)];
  }

  lemma {:induction false} AddLists(servers0: seq<Row>, subs0: seq<Row>, servers: seq<Row>, id: nat)
    requires IdsAscend(subs0, id) && forall o: Option<nat> | o != Some(id) :: ListOf(servers, o) == ListOf(servers0, o)
    ensures forall q | q in subs0 :: ListOf(servers, Some(q.id)) == ListOf(servers0, Some(q.id))
  {
    forall q | q in subs0
      ensures ListOf(servers, Some(q.id)) == ListOf(servers0, Some(q.id))
    {
      var i :| 0 <= i < |subs0| && subs0[i] == q;
      assert q.id < id;
    }
  }

  lemma {:induction false} AddOwners(servers0: seq<Row>, subs0: seq<Row>, servers: seq<Row>, r: Row)
    requires forall x | x in servers0 && x.owner.Some? :: HasId(subs0, x.owner.value)
    requires forall x | x in servers :: x in servers0 || x.owner == Some(r.id)
    ensures forall x | x in servers && x.owner.Some? :: HasId(subs0 + [r], x.owner.value)
  {
    forall x | x in servers && x.owner.Some?
      ensures HasId(subs0 + [r], x.owner.value)
    {
      if x.owner == Some(r.id) {
        assert r in subs0 + [r];
      } else {
        assert HasId(subs0, x.owner.value);
        var q :| q in subs0 && q.id == x.owner.value;
        assert q in subs0 + [r];
      }
    }
  }

  lemma {:induction false} AppendIds(rows: seq<Row>, r: Row, next: nat)
    requires IdsAscend(rows, next) && r.id == next
    ensures IdsAscend(rows + [r], next + 1)
  {}

  lemma {:induction false} AppendKeeps(servers: seq<Row>, subs: seq<Row>, nextServer: nat, nextSub: nat, config: string)
    requires ValidTables(servers, subs, nextServer, nextSub)
    ensures var servers' := Append(servers, nextServer, None, config);
            && ValidTables(servers', subs, nextServer + 1, nextSub)
            && Configs(ListOf(servers', None)) == Configs(ListOf(servers, None)) + [config]
            && Views(subs, servers') == Views(subs, servers)
  {
    var servers' := Append(servers, nextServer, None, config);
    AppendList(servers, nextServer, None, config, None);
    AppendIds(servers, Row(nextServer, None, config, MaxSort(servers, None) + 1), nextServer);
    AppendOthers(servers, subs, nextServer, config);
    SameViews(subs, servers, servers');
    ConfigsSnoc(ListOf(servers, None), Row(nextServer, None, config, MaxSort(servers, None) + 1));
  }

  lemma {:induction false} ConfigsSnoc(l: seq<Row>, r: Row)
    ensures Configs(l + [r]) == Configs(l) + [r.config]
  {}

  lemma {:induction false} AppendOthers(servers: seq<Row>, subs: seq<Row>, nextServer: nat, config: string)
    requires Dense(ListOf(servers, None))
    ensures var servers' := Append(servers, nextServer, None, config);
            && (forall r | r in subs :: ListOf(servers', Some(r.id)) == ListOf(servers, Some(r.id)))
            && (forall r | r in servers' && r.owner.Some? :: r in servers)
  {
    forall r | r in subs
      ensures ListOf(Append(servers, nextServer, None, config), Some(r.id)) == ListOf(servers, Some(r.id))
    {
      AppendList(servers, nextServer, None, config, Some(r.id));
    }
  }

  lemma {:induction false} SameViews(subs: seq<Row>, servers: seq<Row>, servers': seq<Row>)
    requires forall r | r in subs :: ListOf(servers', Some(r.id)) == ListOf(servers, Some(r.id))
    ensures Views(subs, servers') == Views(subs, servers)
  {
    forall i | 0 <= i < |subs|
      ensures Views(subs, servers')[i] == Views(subs, servers)[i]
    {
      assert subs[i] in subs;
    }
  }

  lemma {:induction false} RemovedKeeps(servers: seq<Row>, subs: seq<Row>, nextServer: nat, nextSub: nat,
                                        dead: set<int>)
    requires ValidTables(servers, subs, nextServer, nextSub)
    ensures var servers' := Removed(servers, None, dead);
            && ValidTables(servers', subs, nextServer, nextSub)
            && Configs(ListOf(servers', None)) == Kept(Configs(ListOf(servers, None)), dead)
            && Views(subs, servers') == Views(subs, servers)
  {
    var w, servers' := Without(servers, None, dead), Removed(servers, None, dead);
    RemovedLists(servers, None, dead, None, nextServer);
    forall r | r in subs
      ensures ListOf(servers', Some(r.id)) == ListOf(servers, Some(r.id))
    {
      RemovedLists(servers, None, dead, Some(r.id), nextServer);
    }
    SameViews(subs, servers, servers');
    WithoutIds(servers, None, dead, nextServer);
    RenumberedRows(w, None);
    forall r | r in servers' && r.owner.Some?
      ensures HasId(subs, r.owner.value)
    {
      var i :| 0 <= i < |servers'| && servers'[i] == r;
      assert w[i] in w && w[i] in servers;
      assert HasId(subs, w[i].owner.value);
    }
  }
}
