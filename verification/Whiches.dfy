/** Sorting references, and deleting what they name. */
module Whiches {
  import opened Options
  import opened Ordinals
  import opened References
  import CatalogueDb

  // -------------------------------------------------------------------- order

  function TypeRank(t: TouchType): nat
  {
    match t case ServerType => 0 case SubscriptionType => 1 case SubServerType => 2
  }

  predicate Less(a: NodeRef, b: NodeRef)
  {
    if a.typ != b.typ then TypeRank(a.typ) < TypeRank(b.typ)
    else if a.typ == ServerType then a.id < b.id
    else if a.sub != b.sub then a.sub < b.sub
    else a.id < b.id
  }

  /** Less is the lexicographic order of (type, subscription unless a server, id). */
  lemma {:induction false} LessIsStrictWeak(a: NodeRef, b: NodeRef, c: NodeRef)
    ensures !Less(a, a) && (Less(a, b) && Less(b, c) ==> Less(a, c))
    ensures !Less(a, b) && !Less(b, a) && !Less(b, c) && !Less(c, b) ==> !Less(a, c) && !Less(c, a)
  {}

  ghost predicate SortedUp(s: seq<NodeRef>) { forall i, j | 0 <= i < j < |s| :: !Less(s[j], s[i]) }

  /** Servers, then subscriptions, then servers of subscriptions; within a type from the highest to the lowest. */
  predicate Before(a: NodeRef, b: NodeRef)
  {
    match (a.typ, b.typ)
    case (ServerType, ServerType) => a.id >= b.id
    case (ServerType, _) => true
    case (_, ServerType) => false
    case (SubscriptionType, SubServerType) => true
    case (SubServerType, SubscriptionType) => false
    case _ => a.sub > b.sub || (a.sub == b.sub && a.id >= b.id)
  }

  ghost predicate GroupedDown(s: seq<NodeRef>) { forall i, j | 0 <= i < j < |s| :: Before(s[i], s[j]) }

  // ------------------------------------------------------------------ sort.Sort

  function Insert(x: NodeRef, s: seq<NodeRef>): seq<NodeRef>
  {
    if s == [] || !Less(s[0], x) then [x] + s else [s[0]] + Insert(x, s[1..])
  }

  function Sorted(s: seq<NodeRef>): seq<NodeRef>
  {
    if s == [] then [] else Insert(s[0], Sorted(s[1..]))
  }

  lemma {:induction false} InsertPermutes(x: NodeRef, s: seq<NodeRef>)
    ensures multiset(Insert(x, s)) == multiset(s) + multiset{x} && |Insert(x, s)| == |s| + 1
    decreases |s|
  {
    if s != [] {
      assert s == [s[0]] + s[1..];
      InsertPermutes(x, s[1..]);
    }
  }

  ghost predicate NoneBelow(x: NodeRef, s: seq<NodeRef>) { forall i | 0 <= i < |s| :: !Less(s[i], x) }

  lemma {:induction false} ConsSorted(x: NodeRef, s: seq<NodeRef>)
    requires SortedUp(s) && NoneBelow(x, s)
    ensures SortedUp([x] + s)
  {
    var l := [x] + s;
    forall i, j | 0 <= i < j < |l|
      ensures !Less(l[j], l[i])
    {
      assert l[j] == s[j - 1];
    }
  }

  lemma {:induction false} NoneBelowHead(x: NodeRef, s: seq<NodeRef>)
    requires SortedUp(s) && s != [] && !Less(s[0], x)
    ensures NoneBelow(x, s)
  {
    forall i | 0 < i < |s|
      ensures !Less(s[i], x)
    {
      LessIsStrictWeak(s[i], s[0], x);
    }
  }

  lemma {:induction false} InsertSorts(x: NodeRef, s: seq<NodeRef>)
    requires SortedUp(s)
    ensures SortedUp(Insert(x, s))
    decreases |s|
  {
    if s == [] {
    } else if !Less(s[0], x) {
      NoneBelowHead(x, s);
      ConsSorted(x, s);
    } else {
      var r := Insert(x, s[1..]);
      assert SortedUp(s[1..]);
      InsertSorts(x, s[1..]);
      InsertPermutes(x, s[1..]);
      forall j | 0 <= j < |r|
        ensures !Less(r[j], s[0])
      {
        assert r[j] in multiset(r);
        assert r[j] == x || r[j] in s[1..];
      }
      ConsSorted(s[0], r);
    }
  }

  lemma {:induction false} SortedSorts(s: seq<NodeRef>)
    ensures SortedUp(Sorted(s)) && multiset(Sorted(s)) == multiset(s) && |Sorted(s)| == |s|
    decreases |s|
  {
    if s != [] {
      assert s == [s[0]] + s[1..];
      SortedSorts(s[1..]);
      InsertSorts(s[0], Sorted(s[1..]));
      InsertPermutes(s[0], Sorted(s[1..]));
    }
  }

  /** The library sort: some sorted permutation. */
  method Sort(a: array<NodeRef>)
    modifies a
    ensures SortedUp(a[..]) && multiset(a[..]) == multiset(old(a[..]))
  {
    var s := Sorted(a[..]);
    SortedSorts(a[..]);
    forall i | 0 <= i < a.Length { a[i] := s[i]; }
    assert a[..] == s;
  }

  // -------------------------------------------------------- SortSameTypeReverse

  /** The content of `s` with the places lo..hi mirrored. */
  ghost predicate Mirrored(s: seq<NodeRef>, t: seq<NodeRef>, lo: nat, hi: nat)
  {
    && |s| == |t| && lo <= hi <= |s|
    && (forall k | 0 <= k < |s| && !(lo <= k < hi) :: t[k] == s[k])
    && (forall k | lo <= k < hi :: t[k] == s[lo + hi - 1 - k])
  }

  method Swap(a: array<NodeRef>, i: nat, j: nat)
    requires i < a.Length && j < a.Length
    modifies a
    ensures a[i] == old(a[j]) && a[j] == old(a[i]) && multiset(a[..]) == multiset(old(a[..]))
    ensures forall k | 0 <= k < a.Length && k != i && k != j :: a[k] == old(a[k])
  {
    a[i], a[j] := a[j], a[i];
  }

  /** The inner loop: swap from both ends of a block. */
  method ReverseBlock(a: array<NodeRef>, begin: nat, i: nat)
    requires begin <= i <= a.Length
    modifies a
    ensures Mirrored(old(a[..]), a[..], begin, i) && multiset(a[..]) == multiset(old(a[..]))
  {
    for j := 0 to (i - begin) / 2
      invariant multiset(a[..]) == multiset(old(a[..]))
      invariant forall k | 0 <= k < a.Length && (k < begin + j || i - j <= k) && begin <= k < i ::
        a[k] == old(a[begin + i - 1 - k])
      invariant forall k | 0 <= k < a.Length && !(begin <= k < begin + j) && !(i - j <= k < i) :: a[k] == old(a[k])
    {
      Swap(a, begin + j, i - j - 1);
    }
  }

  /** Up to `begin` done, from `begin` on still sorted; what is done ranks below what is not. */
  ghost predicate Halfway(s: seq<NodeRef>, begin: nat)
  {
    && begin <= |s| && GroupedDown(s[..begin]) && SortedUp(s[begin..])
    && forall i, j | 0 <= i < begin <= j < |s| :: TypeRank(s[i].typ) < TypeRank(s[j].typ)
  }

  lemma {:induction false} BlockDone(s: seq<NodeRef>, t: seq<NodeRef>, begin: nat, i: nat)
    requires Halfway(s, begin) && begin <= i <= |s| && Mirrored(s, t, begin, i)
    requires forall k | begin <= k < i :: s[k].typ == s[begin].typ
    requires begin < i && (i < |s| ==> s[i].typ != s[begin].typ)
    ensures Halfway(t, i)
  {
    forall p, q | 0 <= p < q < i
      ensures Before(t[p], t[q])
    {
      if q < begin {
        assert s[..begin][p] == s[p] && s[..begin][q] == s[q];
      } else if p >= begin {
        var p', q' := begin + i - 1 - p, begin + i - 1 - q;
        assert s[begin..][q' - begin] == s[q'] && s[begin..][p' - begin] == s[p'];
        assert !Less(s[p'], s[q']);
      } else {
        assert t[q] == s[begin + i - 1 - q];
      }
    }
    assert GroupedDown(t[..i]);
    forall p, q | i <= p < q < |t|
      ensures !Less(t[q], t[p])
    {
      assert s[begin..][p - begin] == s[p] && s[begin..][q - begin] == s[q];
    }
    assert SortedUp(t[i..]);
    forall p, q | 0 <= p < i <= q < |t|
      ensures TypeRank(t[p].typ) < TypeRank(t[q].typ)
    {
      if p >= begin {
        assert s[begin..][q - begin] == s[q] && s[begin..][i - begin] == s[i] && s[begin..][0] == s[begin];
        assert !Less(s[q], s[i]) && !Less(s[i], s[begin]);
        assert t[p].typ == s[begin].typ;
      }
    }
  }

  predicate OneType(s: seq<NodeRef>, begin: nat, i: nat)
    requires begin <= i <= |s|
  {
    forall k | begin <= k < i :: s[k].typ == s[begin].typ
  }

  /** The rows from `begin` up to `i` are of one type, and those before are done. */
  ghost predicate InBlock(s: seq<NodeRef>, begin: nat, i: nat)
  {
    begin <= i <= |s| && (i > 0 ==> begin < i) && Halfway(s, begin) && OneType(s, begin, i)
  }

  lemma {:induction false} BlockGrows(s: seq<NodeRef>, begin: nat, i: nat)
    requires begin <= i < |s| && Halfway(s, begin) && OneType(s, begin, i) && s[i].typ == s[begin].typ
    ensures InBlock(s, begin, i + 1)
  {}

  method CloseBlock(a: array<NodeRef>, begin: nat, i: nat)
    requires begin < i <= a.Length && Halfway(a[..], begin) && OneType(a[..], begin, i)
    requires i < a.Length ==> a[i].typ != a[begin].typ
    modifies a
    ensures Halfway(a[..], i) && multiset(a[..]) == multiset(old(a[..]))
  {
    ghost var s := a[..];
    ReverseBlock(a, begin, i);
    BlockDone(s, a[..], begin, i);
  }

  method SortSameTypeReverse(a: array<NodeRef>)
    modifies a
    ensures GroupedDown(a[..]) && multiset(a[..]) == multiset(old(a[..]))
  {
    Sort(a);
    var begin := 0;
    assert a[..][0..] == a[..];
    for i := 0 to a.Length
      invariant InBlock(a[..], begin, i) && multiset(a[..]) == multiset(old(a[..]))
    {
      if i > 0 && a[i].typ != a[begin].typ {
        CloseBlock(a, begin, i);
        begin := i;
      }
      BlockGrows(a[..], begin, i);
    }
    if begin < a.Length - 1 {
      CloseBlock(a, begin, a.Length);
    } else if begin < a.Length {
      BlockDone(a[..], a[..], begin, a.Length);
    }
    assert a[..][..a.Length] == a[..];
  }

  // ------------------------------------------------------------------- deleting

  /** What the deletion of `t` does to one reference. */
  function Move(r: NodeRef, t: NodeRef): Option<NodeRef>
  {
    if t.typ == SubscriptionType && r.typ == SubServerType then
      if t.id - 1 == r.sub then None else if t.id - 1 < r.sub then Some(r.(sub := r.sub - 1)) else Some(r)
    else if t.typ == ServerType && r.typ == ServerType then
      if t.id == r.id then None else if t.id < r.id then Some(r.(id := r.id - 1)) else Some(r)
    else Some(r)
  }

  function MoveAll(r: NodeRef, ts: seq<NodeRef>): Option<NodeRef>
  {
    if ts == [] then Some(r)
    else
      var m := MoveAll(r, ts[..|ts| - 1]);
      if m.None? then None else Move(m.value, ts[|ts| - 1])
  }

  lemma {:induction false} MoveSnoc(r: NodeRef, ts: seq<NodeRef>, t: NodeRef)
    ensures MoveAll(r, ts + [t]) == var m := MoveAll(r, ts); if m.None? then None else Move(m.value, t)
  {
    assert (ts + [t])[..|ts|] == ts;
  }

  function Moved(refs: seq<NodeRef>, ts: seq<NodeRef>): seq<NodeRef>
  {
    if refs == [] then []
    else
      var n := |refs| - 1;
      var m := MoveAll(refs[n], ts);
      Moved(refs[..n], ts) + if m.None? then [] else [m.value]
  }

  function MovedOnce(refs: seq<NodeRef>, t: NodeRef): seq<NodeRef>
  {
    if refs == [] then []
    else
      var n := |refs| - 1;
      var m := Move(refs[n], t);
      MovedOnce(refs[..n], t) + if m.None? then [] else [m.value]
  }

  lemma {:induction false} MovedSnoc(refs: seq<NodeRef>, ts: seq<NodeRef>, t: NodeRef)
    ensures Moved(refs, ts + [t]) == MovedOnce(Moved(refs, ts), t)
    decreases |refs|
  {
    assert (ts + [t])[..|ts|] == ts;
    if refs != [] {
      var n := |refs| - 1;
      MovedSnoc(refs[..n], ts, t);
      var m := MoveAll(refs[n], ts);
      var front := Moved(refs[..n], ts);
      if m.Some? { assert (front + [m.value])[..|front|] == front; } else { assert front + [] == front; }
    }
  }

  lemma {:induction false} MovedNothing(refs: seq<NodeRef>)
    ensures Moved(refs, []) == refs
    decreases |refs|
  {
    if refs != [] {
      MovedNothing(refs[..|refs| - 1]);
      assert refs == refs[..|refs| - 1] + [refs[|refs| - 1]];
    }
  }

  /** One pass over the connected references, from the back. */
  method ShiftReferences(refs: seq<NodeRef>, t: NodeRef) returns (after: seq<NodeRef>)
    ensures after == MovedOnce(refs, t)
  {
    after := refs;
    var i := |refs|;
    ghost var done: seq<NodeRef> := [];
    assert refs[..i] == refs && refs + done == refs;
    assert MovedOnce(refs, t) + done == MovedOnce(refs, t);
    while i > 0
      invariant 0 <= i <= |refs| && after == refs[..i] + done
      invariant MovedOnce(refs[..i], t) + done == MovedOnce(refs, t)
    {
      i := i - 1;
      assert refs[..i + 1][..i] == refs[..i];
      var m := Move(refs[i], t);
      assert after[i] == refs[i] && after[..i] == refs[..i] && after[i + 1..] == done;
      if m.None? {
        after := after[..i] + after[i + 1..];
      } else {
        after := after[i := m.value];
        assert after == refs[..i] + ([m.value] + done);
        done := [m.value] + done;
      }
    }
    assert MovedOnce(refs[..0], t) == [];
  }

  function OrdinalsOf(ts: seq<NodeRef>, typ: TouchType): seq<int>
  {
    if ts == [] then []
    else
      var n := |ts| - 1;
      OrdinalsOf(ts[..n], typ) + if ts[n].typ == typ then [ts[n].id - 1] else []
  }

  /** DeleteWhich from the sorted touches on: the ordinals to remove and the references left. */
  method DeleteTouches(touches: seq<NodeRef>, connected: seq<NodeRef>)
    returns (after: seq<NodeRef>, subscriptions: seq<int>, servers: seq<int>)
    ensures after == Moved(connected, touches)
    ensures subscriptions == OrdinalsOf(touches, SubscriptionType) && servers == OrdinalsOf(touches, ServerType)
  {
    after, subscriptions, servers := connected, [], [];
    MovedNothing(connected);
    for k := 0 to |touches|
      invariant after == Moved(connected, touches[..k])
      invariant subscriptions == OrdinalsOf(touches[..k], SubscriptionType)
      invariant servers == OrdinalsOf(touches[..k], ServerType)
    {
      var v := touches[k];
      assert touches[..k + 1] == touches[..k] + [v] && touches[..k + 1][..k] == touches[..k];
      MovedSnoc(connected, touches[..k], v);
      match v.typ {
        case SubscriptionType => after := ShiftReferences(after, v); subscriptions := subscriptions + [v.id - 1];
        case ServerType => after := ShiftReferences(after, v); servers := servers + [v.id - 1];
        case SubServerType => MovedIdle(after, v);
      }
    }
    assert touches[..|touches|] == touches;
  }

  lemma {:induction false} MovedIdle(refs: seq<NodeRef>, t: NodeRef)
    requires t.typ == SubServerType
    ensures MovedOnce(refs, t) == refs
    decreases |refs|
  {
    if refs != [] {
      MovedIdle(refs[..|refs| - 1], t);
      assert refs == refs[..|refs| - 1] + [refs[|refs| - 1]];
    }
  }

  // ------------------------------------------------ references keep their target

  function Locate(r: NodeRef, servers: seq<string>, subs: seq<CatalogueDb.Subscription>): Option<string>
  {
    match r.typ
    case ServerType => if 0 <= r.id - 1 < |servers| then Some(servers[r.id - 1]) else None
    case SubServerType =>
      if 0 <= r.sub < |subs| && 0 <= r.id - 1 < |subs[r.sub].servers| then Some(subs[r.sub].servers[r.id - 1]) else None
    case SubscriptionType => None
  }

  /** A reference moves as its ordinal does. */
  lemma {:induction false} MoveIsFate(r: NodeRef, ts: seq<NodeRef>)
    ensures r.typ == ServerType ==>
              var f := Fate(r.id - 1, OrdinalsOf(ts, ServerType));
              MoveAll(r, ts) == if f.None? then None else Some(r.(id := f.value + 1))
    ensures r.typ == SubServerType ==>
              var f := Fate(r.sub, OrdinalsOf(ts, SubscriptionType));
              MoveAll(r, ts) == if f.None? then None else Some(r.(sub := f.value))
    decreases |ts|
  {
    if ts != [] {
      var n := |ts| - 1;
      MoveIsFate(r, ts[..n]);
      var own := if r.typ == ServerType then ServerType else SubscriptionType;
      var x := if r.typ == ServerType then r.id - 1 else r.sub;
      var ds := OrdinalsOf(ts[..n], own);
      if ts[n].typ == own {
        FateSnoc(x, ds, ts[n].id - 1);
        var f := Fate(x, ds);
        if f.Some? { FateOne(f.value, ts[n].id - 1); }
      } else {
        assert ds + [] == ds;
      }
    }
  }

  /** Both lists of ordinals, walked one by one, take just the ordinals they name. */
  ghost predicate Fit(ts: seq<NodeRef>, servers: nat, subs: nat)
  {
    Exact(OrdinalsOf(ts, ServerType), servers) && Exact(OrdinalsOf(ts, SubscriptionType), subs)
  }

  ghost predicate InLists(ts: seq<NodeRef>, servers: nat, subs: nat)
  {
    Within(OrdinalsOf(ts, ServerType), servers) && Within(OrdinalsOf(ts, SubscriptionType), subs)
  }

  /** A reference into a list of `servers` servers, or into one of `subs` subscriptions. */
  predicate Into(r: NodeRef, servers: nat, subs: nat)
  {
    if r.typ == ServerType then 0 <= r.id - 1 < servers else r.typ == SubServerType && 0 <= r.sub < subs
  }

  /** What removing the sets at once would make of a reference. */
  function Expected(r: NodeRef, ts: seq<NodeRef>, servers: nat, subs: nat): Option<NodeRef>
    requires Into(r, servers, subs)
  {
    if r.typ == ServerType then
      var d := Due(r.id - 1, OrdinalsOf(ts, ServerType));
      if d.None? then None else Some(r.(id := d.value + 1))
    else
      var d := Due(r.sub, OrdinalsOf(ts, SubscriptionType));
      if d.None? then None else Some(r.(sub := d.value))
  }

  ghost predicate AllExpected(ts: seq<NodeRef>, servers: nat, subs: nat)
  {
    forall r: NodeRef | Into(r, servers, subs) :: MoveAll(r, ts) == Expected(r, ts, servers, subs)
  }

  /**
   Whatever was picked and however it was ordered: every reference into the lists comes out as it
   should if and only if each walk takes just the ordinals it names.
   */
  lemma {:induction false} ExpectedIff(ts: seq<NodeRef>, servers: nat, subs: nat)
    requires InLists(ts, servers, subs)
    ensures AllExpected(ts, servers, subs) <==> Fit(ts, servers, subs)
  {
    var ds, es := OrdinalsOf(ts, ServerType), OrdinalsOf(ts, SubscriptionType);
    ExactIff(ds, servers);
    ExactIff(es, subs);
    if Fit(ts, servers, subs) {
      forall r: NodeRef | Into(r, servers, subs)
        ensures MoveAll(r, ts) == Expected(r, ts, servers, subs)
      {
        MoveIsFate(r, ts);
      }
    }
    if AllExpected(ts, servers, subs) {
      forall x: nat | x < servers
        ensures Fate(x, ds) == Due(x, ds)
      {
        var r := NodeRef(ServerType, x + 1, 0, "");
        MoveIsFate(r, ts);
        assert MoveAll(r, ts) == Expected(r, ts, servers, subs);
      }
      forall x: nat | x < subs
        ensures Fate(x, es) == Due(x, es)
      {
        var r := NodeRef(SubServerType, 1, x, "");
        MoveIsFate(r, ts);
        assert MoveAll(r, ts) == Expected(r, ts, servers, subs);
      }
    }
  }

  ghost predicate Doomed(r: NodeRef, ts: seq<NodeRef>)
  {
    if r.typ == ServerType then r.id - 1 in Dead(OrdinalsOf(ts, ServerType))
    else r.typ == SubServerType && r.sub in Dead(OrdinalsOf(ts, SubscriptionType))
  }

  /**
   After a deletion, a reference to something deleted is gone and every other reference names
   the same server as before, in the renumbered catalogue.
   */
  lemma {:induction false} ReferencesSurvive(r: NodeRef, ts: seq<NodeRef>, servers: seq<string>,
                                             subs: seq<CatalogueDb.Subscription>)
    requires InLists(ts, |servers|, |subs|) && Fit(ts, |servers|, |subs|) && Locate(r, servers, subs).Some?
    ensures Doomed(r, ts) <==> MoveAll(r, ts).None?
    ensures !Doomed(r, ts) ==> SameTarget(r, MoveAll(r, ts).value, ts, servers, subs)
  {
    ExpectedIff(ts, |servers|, |subs|);
    assert MoveAll(r, ts) == Expected(r, ts, |servers|, |subs|);
    if !Doomed(r, ts) {
      if r.typ == ServerType { KeptAt(servers, Dead(OrdinalsOf(ts, ServerType)), r.id - 1); }
      else { KeptAt(subs, Dead(OrdinalsOf(ts, SubscriptionType)), r.sub); }
    }
  }

  ghost predicate SameTarget(r: NodeRef, r': NodeRef, ts: seq<NodeRef>, servers: seq<string>,
                             subs: seq<CatalogueDb.Subscription>)
  {
    && r'.typ == r.typ && r'.outbound == r.outbound
    && Locate(r', Kept(servers, Dead(OrdinalsOf(ts, ServerType))), Kept(subs, Dead(OrdinalsOf(ts, SubscriptionType))))
       == Locate(r, servers, subs)
  }

  // --------------------------------------------- when the ordinals come out fit

  ghost predicate AllAlike(ts: seq<NodeRef>)
  {
    && (forall i, j | 0 <= i < j < |ts| :: ts[i] != ts[j])
    && forall i, j | 0 <= i < |ts| && 0 <= j < |ts| && ts[i].typ == ts[j].typ != SubServerType ::
         ts[i].sub == ts[j].sub && ts[i].outbound == ts[j].outbound
  }

  ghost predicate Names(ts: seq<NodeRef>, typ: TouchType, x: int)
  {
    exists i | 0 <= i < |ts| :: ts[i].typ == typ && ts[i].id - 1 == x
  }

  lemma {:induction false} OrdinalsNamed(ts: seq<NodeRef>, typ: TouchType, x: int)
    requires x in OrdinalsOf(ts, typ)
    ensures Names(ts, typ, x)
    decreases |ts|
  {
    var n := |ts| - 1;
    if ts[n].typ != typ || ts[n].id - 1 != x {
      OrdinalsNamed(ts[..n], typ, x);
      var i :| 0 <= i < n && ts[..n][i].typ == typ && ts[..n][i].id - 1 == x;
      assert ts[i].typ == typ;
    }
  }

  /** Sorted touches that differ only in their id per type are walked strictly downwards. */
  lemma {:induction false} AlikeDescend(ts: seq<NodeRef>, typ: TouchType)
    requires GroupedDown(ts) && AllAlike(ts) && typ != SubServerType
    ensures Descending(OrdinalsOf(ts, typ))
    decreases |ts|
  {
    if ts != [] {
      var n := |ts| - 1;
      var front := ts[..n];
      AlikeFront(ts);
      AlikeDescend(front, typ);
      var ds := OrdinalsOf(front, typ);
      if ts[n].typ == typ {
        forall k | 0 <= k < |ds|
          ensures ds[k] > ts[n].id - 1
        {
          OrdinalsNamed(front, typ, ds[k]);
          var i :| 0 <= i < n && front[i].typ == typ && front[i].id - 1 == ds[k];
          LastIsLowest(ts, i);
        }
      } else {
        assert ds + [] == ds;
      }
    }
  }

  lemma {:induction false} AlikeFront(ts: seq<NodeRef>)
    requires ts != [] && GroupedDown(ts) && AllAlike(ts)
    ensures GroupedDown(ts[..|ts| - 1]) && AllAlike(ts[..|ts| - 1])
  {}

  lemma {:induction false} LastIsLowest(ts: seq<NodeRef>, i: nat)
    requires GroupedDown(ts) && AllAlike(ts) && i < |ts| - 1 && ts[i].typ == ts[|ts| - 1].typ != SubServerType
    ensures ts[i].id > ts[|ts| - 1].id
  {
    assert Before(ts[i], ts[|ts| - 1]) && ts[i] != ts[|ts| - 1];
  }

  /**
   Subscription touches whose `sub` fields differ are ordered by that field first. Deleting the
   first and third subscription this way walks ordinals 0, 2: the references into the third
   survive, and those into the fourth are lost.
   */
  lemma {:induction false} SubscriptionsOutOfOrder(a: NodeRef, b: NodeRef)
    requires a == NodeRef(SubscriptionType, 1, 5, "proxy") && b == NodeRef(SubscriptionType, 3, 0, "proxy")
    ensures GroupedDown([a, b]) && !GroupedDown([b, a])
    ensures MoveAll(NodeRef(SubServerType, 1, 2, "proxy"), [a, b]) == Some(NodeRef(SubServerType, 1, 1, "proxy"))
    ensures MoveAll(NodeRef(SubServerType, 1, 3, "proxy"), [a, b]) == None
  {
    assert !Before([b, a][0], [b, a][1]);
    var r, q := NodeRef(SubServerType, 1, 2, "proxy"), NodeRef(SubServerType, 1, 3, "proxy");
    assert [] + [a] == [a] && [a] + [b] == [a, b];
    MoveSnoc(r, [], a);
    MoveSnoc(r, [a], b);
    MoveSnoc(q, [], a);
    MoveSnoc(q, [a], b);
  }

  lemma {:induction false} OrdinalsSnoc(ts: seq<NodeRef>, t: NodeRef)
    ensures OrdinalsOf(ts + [t], t.typ) == OrdinalsOf(ts, t.typ) + [t.id - 1]
  {
    assert (ts + [t])[..|ts|] == ts;
  }

  /**
   Picks of one subscription twice, under different `sub` fields, need not even be next to each other:
   here the ordinals walked are 1, 0, 1, and the fourth subscription, which was not picked, loses its
   references.
   */
  lemma {:induction false} SubscriptionsRepeated(a: NodeRef, b: NodeRef, c: NodeRef)
    requires a == NodeRef(SubscriptionType, 2, 5, "") && b == NodeRef(SubscriptionType, 1, 3, "")
    requires c == NodeRef(SubscriptionType, 2, 1, "")
    ensures GroupedDown([a, b, c]) && OrdinalsOf([a, b, c], SubscriptionType) == [1, 0, 1]
    ensures MoveAll(NodeRef(SubServerType, 1, 3, ""), [a, b, c]) == None
  {
    var r := NodeRef(SubServerType, 1, 3, "");
    assert [] + [a] == [a] && [a] + [b] == [a, b] && [a, b] + [c] == [a, b, c];
    OrdinalsSnoc([], a);
    OrdinalsSnoc([a], b);
    OrdinalsSnoc([a, b], c);
    MoveSnoc(r, [], a);
    MoveSnoc(r, [a], b);
    MoveSnoc(r, [a, b], c);
  }
}
