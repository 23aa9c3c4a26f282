/** Deleting what the user picked: the catalogue and the connected references together. */
module Deletion {
  import opened Options
  import opened Ordinals
  import opened References
  import opened Whiches
  import CatalogueDb

  /** The range check of GetNonDuplicated. */
  predicate InRange(w: NodeRef, servers: seq<string>, subs: seq<CatalogueDb.Subscription>)
  {
    match w.typ
    case SubscriptionType => 0 <= w.id - 1 < |subs|
    case ServerType => 0 <= w.id - 1 < |servers|
    case SubServerType => 0 <= w.sub < |subs| && 0 <= w.id - 1 < |subs[w.sub].servers|
  }

  /** The pick names something that is there; ids count from one, subscriptions from zero. */
  predicate IsThere(w: NodeRef, servers: seq<string>, subs: seq<CatalogueDb.Subscription>)
  {
    match w.typ
    case ServerType => 1 <= w.id <= |servers|
    case SubscriptionType => 1 <= w.id <= |subs|
    case SubServerType => 0 <= w.sub < |subs| && 1 <= w.id <= |subs[w.sub].servers|
  }

  predicate NoRepeats(s: seq<NodeRef>) { forall i, j | 0 <= i < j < |s| :: s[i] != s[j] }

  /** Duplicates are found by the whole reference; the order is whatever the map yields. */
  method GetNonDuplicated(ws: seq<NodeRef>, servers: seq<string>, subs: seq<CatalogueDb.Subscription>)
    returns (w: array<NodeRef>)
    ensures fresh(w) && NoRepeats(w[..])
    ensures forall t :: t in w[..] <==> t in ws && IsThere(t, servers, subs)
  {
    var ts: set<NodeRef> := {};
    for i := 0 to |ws|
      invariant forall t :: t in ts <==> t in ws[..i] && InRange(t, servers, subs)
    {
      if InRange(ws[i], servers, subs) { ts := ts + {ws[i]}; }
      assert forall t :: t in ws[..i + 1] <==> t in ws[..i] || t == ws[i];
    }
    assert ws[..|ws|] == ws;
    var l := Listed(ts);
    w := new NodeRef[|l|](i requires 0 <= i < |l| => l[i]);
    assert w[..] == l;
  }

  method Listed(ts: set<NodeRef>) returns (l: seq<NodeRef>)
    ensures NoRepeats(l) && forall t :: t in l <==> t in ts
  {
    l := [];
    var rest := ts;
    while rest != {}
      invariant rest <= ts && NoRepeats(l) && forall t :: t in l <==> t in ts && t !in rest
      decreases |rest|
    {
      var t :| t in rest;
      rest := rest - {t};
      assert forall u :: u in l + [t] <==> u in l || u == t;
      l := l + [t];
    }
  }

  /** The user picked this reference's server, or its subscription. */
  ghost predicate Picked(r: NodeRef, ws: seq<NodeRef>)
  {
    if r.typ == ServerType then exists w | w in ws :: w.typ == ServerType && w.id == r.id
    else exists w | w in ws :: w.typ == SubscriptionType && w.id - 1 == r.sub
  }

  /** Picks of one type differ in nothing but their id. */
  ghost predicate Uniform(ws: seq<NodeRef>)
  {
    forall v, w | v in ws && w in ws && v.typ == w.typ != SubServerType :: v.sub == w.sub && v.outbound == w.outbound
  }

  ghost predicate Touched(ts: seq<NodeRef>, ws: seq<NodeRef>, servers: seq<string>, subs: seq<CatalogueDb.Subscription>)
  {
    GroupedDown(ts) && NoRepeats(ts) && forall t :: t in ts <==> t in ws && IsThere(t, servers, subs)
  }

  lemma {:induction false} OrdinalsHave(ts: seq<NodeRef>, typ: TouchType, x: int)
    ensures x in OrdinalsOf(ts, typ) <==> exists t | t in ts :: t.typ == typ && t.id - 1 == x
    decreases |ts|
  {
    if ts != [] {
      var n := |ts| - 1;
      assert ts == ts[..n] + [ts[n]];
      OrdinalsHave(ts[..n], typ, x);
    }
  }

  /** The ordinals picked of one type. */
  function PickedOf(ws: seq<NodeRef>, typ: TouchType): set<int> { set w | w in ws && w.typ == typ :: w.id - 1 }

  lemma {:induction false} KeptAlike<T>(l: seq<T>, a: set<int>, b: set<int>)
    requires forall i | 0 <= i < |l| :: i in a <==> i in b
    ensures Kept(l, a) == Kept(l, b)
    decreases |l|
  {
    if l != [] { KeptAlike(l[..|l| - 1], a, b); }
  }

  /** What is left is what was not picked. */
  lemma {:induction false} KeptUnpicked(ts: seq<NodeRef>, ws: seq<NodeRef>, servers: seq<string>,
                                        subs: seq<CatalogueDb.Subscription>)
    requires Touched(ts, ws, servers, subs)
    ensures Kept(servers, Dead(OrdinalsOf(ts, ServerType))) == Kept(servers, PickedOf(ws, ServerType))
    ensures Kept(subs, Dead(OrdinalsOf(ts, SubscriptionType))) == Kept(subs, PickedOf(ws, SubscriptionType))
  {
    forall i | 0 <= i < |servers|
      ensures i in Dead(OrdinalsOf(ts, ServerType)) <==> i in PickedOf(ws, ServerType)
    {
      OrdinalsHave(ts, ServerType, i);
    }
    forall i | 0 <= i < |subs|
      ensures i in Dead(OrdinalsOf(ts, SubscriptionType)) <==> i in PickedOf(ws, SubscriptionType)
    {
      OrdinalsHave(ts, SubscriptionType, i);
    }
    KeptAlike(servers, Dead(OrdinalsOf(ts, ServerType)), PickedOf(ws, ServerType));
    KeptAlike(subs, Dead(OrdinalsOf(ts, SubscriptionType)), PickedOf(ws, SubscriptionType));
  }

  lemma {:induction false} Walkable(ts: seq<NodeRef>, ws: seq<NodeRef>, servers: seq<string>,
                                    subs: seq<CatalogueDb.Subscription>)
    requires Touched(ts, ws, servers, subs)
    ensures InLists(ts, |servers|, |subs|)
    ensures Uniform(ws) ==> Fit(ts, |servers|, |subs|)
  {
    forall x | x in OrdinalsOf(ts, ServerType)
      ensures 0 <= x < |servers|
    {
      OrdinalsHave(ts, ServerType, x);
    }
    forall x | x in OrdinalsOf(ts, SubscriptionType)
      ensures 0 <= x < |subs|
    {
      OrdinalsHave(ts, SubscriptionType, x);
    }
    if Uniform(ws) {
      assert forall i | 0 <= i < |ts| :: ts[i] in ts;
      assert AllAlike(ts);
      AlikeDescend(ts, ServerType);
      AlikeDescend(ts, SubscriptionType);
      OrderedIsExact(OrdinalsOf(ts, ServerType), |servers|);
      OrderedIsExact(OrdinalsOf(ts, SubscriptionType), |subs|);
    }
  }

  lemma {:induction false} OrderedIsExact(ds: seq<int>, n: nat)
    requires Descending(ds) && Within(ds, n)
    ensures Exact(ds, n)
  {
    OrderIff(ds, n);
    ExactIff(ds, n);
  }

  lemma {:induction false} DoomedIsPicked(r: NodeRef, ts: seq<NodeRef>, ws: seq<NodeRef>, servers: seq<string>,
                                          subs: seq<CatalogueDb.Subscription>)
    requires Touched(ts, ws, servers, subs) && Locate(r, servers, subs).Some?
    ensures Doomed(r, ts) <==> Picked(r, ws)
  {
    if r.typ == ServerType {
      OrdinalsHave(ts, ServerType, r.id - 1);
      if Picked(r, ws) {
        var w :| w in ws && w.typ == ServerType && w.id == r.id;
        assert IsThere(w, servers, subs) && w in ts;
      }
    } else {
      OrdinalsHave(ts, SubscriptionType, r.sub);
      if Picked(r, ws) {
        var w :| w in ws && w.typ == SubscriptionType && w.id - 1 == r.sub;
        assert IsThere(w, servers, subs) && w in ts;
      }
    }
  }

  /** What a connected reference must have become: gone with its target, else naming the same server. */
  ghost predicate Follows(r: NodeRef, ws: seq<NodeRef>, moved: Option<NodeRef>, servers: seq<string>,
                          subs: seq<CatalogueDb.Subscription>, servers': seq<string>,
                          subs': seq<CatalogueDb.Subscription>)
  {
    && (Picked(r, ws) <==> moved.None?)
    && (moved.Some? ==>
          && moved.value.typ == r.typ && moved.value.outbound == r.outbound
          && Locate(moved.value, servers', subs') == Locate(r, servers, subs))
  }

  /** The lists references go into. */
  datatype Lists = Lists(servers: seq<string>, subs: seq<CatalogueDb.Subscription>)

  ghost predicate Keeps(r: NodeRef, r': NodeRef, ws: seq<NodeRef>, l: Lists, l': Lists)
  {
    Locate(r, l.servers, l.subs).Some? ==>
      && !Picked(r, ws) && r'.typ == r.typ && r'.outbound == r.outbound
      && Locate(r', l'.servers, l'.subs) == Locate(r, l.servers, l.subs)
  }

  ghost predicate Drops(r: NodeRef, ws: seq<NodeRef>, l: Lists)
  {
    Locate(r, l.servers, l.subs).Some? ==> Picked(r, ws)
  }

  /**
   The references left are those there were, in their order: each one that named a server names it still,
   unless it or its subscription was picked, and then it is gone.
   */
  ghost predicate Tracks(rs: seq<NodeRef>, rs': seq<NodeRef>, ws: seq<NodeRef>, l: Lists, l': Lists)
  {
    if rs == [] then rs' == []
    else
      var n, m := |rs| - 1, |rs'| - 1;
      || (Drops(rs[n], ws, l) && Tracks(rs[..n], rs', ws, l, l'))
      || (m >= 0 && Keeps(rs[n], rs'[m], ws, l, l') && Tracks(rs[..n], rs'[..m], ws, l, l'))
  }

  lemma {:induction false} MovedTracks(rs: seq<NodeRef>, ts: seq<NodeRef>, ws: seq<NodeRef>, l: Lists, l': Lists)
    requires forall r | r in rs && Locate(r, l.servers, l.subs).Some? ::
               Follows(r, ws, MoveAll(r, ts), l.servers, l.subs, l'.servers, l'.subs)
    ensures Tracks(rs, Moved(rs, ts), ws, l, l')
    decreases |rs|
  {
    if rs != [] {
      var n := |rs| - 1;
      var front, m := Moved(rs[..n], ts), MoveAll(rs[n], ts);
      assert rs[n] in rs;
      forall r | r in rs[..n] && Locate(r, l.servers, l.subs).Some?
        ensures Follows(r, ws, MoveAll(r, ts), l.servers, l.subs, l'.servers, l'.subs)
      {
        assert r in rs;
      }
      MovedTracks(rs[..n], ts, ws, l, l');
      if m.Some? { TracksOn(rs, front, m.value, ws, l, l'); } else { assert front + [] == front; }
    }
  }

  lemma {:induction false} TracksOn(rs: seq<NodeRef>, front: seq<NodeRef>, r': NodeRef, ws: seq<NodeRef>, l: Lists,
                                    l': Lists)
    requires rs != [] && Tracks(rs[..|rs| - 1], front, ws, l, l') && Keeps(rs[|rs| - 1], r', ws, l, l')
    ensures Tracks(rs, front + [r'], ws, l, l')
  {
    assert (front + [r'])[..|front|] == front;
  }

  /**
   DeleteWhich. All of it happens or nothing. The references left are the connected ones, each moved
   or dropped, in their order.
   What is left of the lists is what was not picked.
   All references into the lists come out as they should if and only if the walks are exact; then
   every connected one that named a server names it afterwards, unless the server or its subscription
   was picked. The walks are exact if the picks of one type differ only in their ids.
   */
  method DeleteWhich(db: CatalogueDb.Database, ws: seq<NodeRef>, fault: Option<CatalogueDb.Part>)
    returns (ok: bool, touches: seq<NodeRef>)
    requires db.Valid()
    modifies db
    ensures db.Valid() && Touched(touches, ws, old(db.Servers()), old(db.Subscriptions()))
    ensures fault.None? ==> ok
    ensures !ok ==> unchanged(db)
    ensures ok ==>
              && db.connected == Moved(old(db.connected), touches)
              && db.Servers() == Kept(old(db.Servers()), PickedOf(ws, ServerType))
              && db.Subscriptions() == Kept(old(db.Subscriptions()), PickedOf(ws, SubscriptionType))
    ensures AllExpected(touches, |old(db.Servers())|, |old(db.Subscriptions())|) <==>
            Fit(touches, |old(db.Servers())|, |old(db.Subscriptions())|)
    ensures Uniform(ws) ==> Fit(touches, |old(db.Servers())|, |old(db.Subscriptions())|)
    ensures ok && Fit(touches, |old(db.Servers())|, |old(db.Subscriptions())|) ==>
              Tracks(old(db.connected), db.connected, ws, old(Lists(db.Servers(), db.Subscriptions())),
                     Lists(db.Servers(), db.Subscriptions()))
  {
    var data := GetNonDuplicated(ws, db.Servers(), db.Subscriptions());
    ghost var unsorted := data[..];
    SortSameTypeReverse(data);
    touches := data[..];
    SameElements(unsorted, touches);
    ghost var servers, subs, connected := db.Servers(), db.Subscriptions(), db.connected;
    var after, subscriptionIndexes, serverIndexes := DeleteTouches(touches, db.connected);
    ok := db.RemoveTx(subscriptionIndexes, serverIndexes, after, fault);
    Walkable(touches, ws, servers, subs);
    KeptUnpicked(touches, ws, servers, subs);
    ExpectedIff(touches, |servers|, |subs|);
    if ok && Fit(touches, |servers|, |subs|) {
      forall r | r in connected && Locate(r, servers, subs).Some?
        ensures Follows(r, ws, MoveAll(r, touches), servers, subs, db.Servers(), db.Subscriptions())
      {
        Following(r, touches, ws, servers, subs);
      }
      MovedTracks(connected, touches, ws, Lists(servers, subs), Lists(db.Servers(), db.Subscriptions()));
    }
  }

  lemma {:induction false} SameElements(s: seq<NodeRef>, t: seq<NodeRef>)
    requires multiset(s) == multiset(t)
    ensures forall x :: x in s <==> x in t
    ensures NoRepeats(s) ==> NoRepeats(t)
  {
    forall x
      ensures x in s <==> x in t
    {
      assert x in s <==> x in multiset(s);
      assert x in t <==> x in multiset(t);
    }
    if NoRepeats(s) {
      forall i, j | 0 <= i < j < |t|
        ensures t[i] != t[j]
      {
        Once(s, t[i]);
        if t[i] == t[j] { Twice(t, i, j); }
      }
    }
  }

  lemma {:induction false} Once(s: seq<NodeRef>, x: NodeRef)
    requires NoRepeats(s)
    ensures multiset(s)[x] <= 1
    decreases |s|
  {
    if s != [] {
      var n := |s| - 1;
      assert s == s[..n] + [s[n]];
      Once(s[..n], x);
      if s[n] == x { assert x !in s[..n]; }
    }
  }

  lemma {:induction false} Twice(t: seq<NodeRef>, i: nat, j: nat)
    requires i < j < |t| && t[i] == t[j]
    ensures multiset(t)[t[i]] >= 2
  {
    assert t == t[..j] + t[j..] && t[j..][0] == t[j] && t[..j][i] == t[i];
    assert t[i] in multiset(t[..j]) && t[i] in multiset(t[j..]);
  }

  lemma {:induction false} Following(r: NodeRef, ts: seq<NodeRef>, ws: seq<NodeRef>, servers: seq<string>,
                                     subs: seq<CatalogueDb.Subscription>)
    requires Touched(ts, ws, servers, subs) && Fit(ts, |servers|, |subs|) && Locate(r, servers, subs).Some?
    ensures Follows(r, ws, MoveAll(r, ts), servers, subs, Kept(servers, Dead(OrdinalsOf(ts, ServerType))),
                    Kept(subs, Dead(OrdinalsOf(ts, SubscriptionType))))
  {
    Walkable(ts, ws, servers, subs);
    ReferencesSurvive(r, ts, servers, subs);
    DoomedIsPicked(r, ts, ws, servers, subs);
  }
}
