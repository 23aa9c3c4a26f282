/**
 The cache as it runs: a map from key to list element, the list itself, and the answers, which are
 objects shared with whoever stored them.
 */
module DnsCacheImpl {
  import opened Options
  import opened DnsCacheSpec
  import LruList

  // ------------------------------------------------------------ answers on the heap

  class RR {
    const rrtype: nat
    var ttl: nat
    const data: string

    constructor (r: Record)
      ensures Value() == r
    {
      rrtype, ttl, data := r.rrtype, r.ttl, r.data;
    }

    function Value(): Record
      reads this
    {
      Record(rrtype, ttl, data)
    }
  }

  ghost predicate Apart(records: seq<RR>) { forall i, j | 0 <= i < j < |records| :: records[i] != records[j] }

  function Values(records: seq<RR>): seq<Record>
    reads records
  {
    seq(|records|, i requires 0 <= i < |records| reads records => records[i].Value())
  }

  class Msg {
    var rcode: nat
    var answer: seq<RR>
    var authority: seq<RR>
    var additional: seq<RR>
    var ttl: nat
    var cached: bool

    constructor (rcode: nat, answer: seq<RR>, authority: seq<RR>, additional: seq<RR>, ttl: nat, cached: bool)
      ensures this.rcode == rcode && this.ttl == ttl && this.cached == cached
      ensures this.answer == answer && this.authority == authority && this.additional == additional
    {
      this.rcode, this.ttl, this.cached := rcode, ttl, cached;
      this.answer, this.authority, this.additional := answer, authority, additional;
    }

    ghost function Records(): set<RR>
      reads this
    {
      (set r | r in answer) + (set r | r in authority) + (set r | r in additional)
    }

    ghost function Value(): Response
      reads this, Records()
    {
      Response(rcode, Values(answer), Values(authority), Values(additional), ttl, cached)
    }
  }

  /** copyRRs, and the copying half of dns.Msg.Copy: new records, none of them one of the old. */
  method CopyRRs(records: seq<RR>) returns (copied: seq<RR>)
    ensures fresh(set r | r in copied) && Apart(copied) && Values(copied) == Values(records)
  {
    copied := [];
    for i := 0 to |records|
      invariant |copied| == i && fresh(set r | r in copied) && Apart(copied)
      invariant forall j | 0 <= j < i :: copied[j].Value() == records[j].Value()
    {
      var r := new RR(records[i].Value());
      assert forall j | 0 <= j < i :: copied[j] in copied;
      copied := copied + [r];
    }
  }

  /** Brings TTLs down in place; OPT and TSIG records carry no TTL and are left alone. */
  method DecreaseRecordTTLs(records: seq<RR>, elapsed: nat, minTTL: nat)
    requires Apart(records)
    modifies set r | r in records
    ensures Values(records) == AgedRecords(old(Values(records)), elapsed, minTTL)
  {
    for i := 0 to |records|
      invariant forall j | 0 <= j < |records| ::
        records[j].Value() ==
        if j < i then AgedRecord(old(records[j].Value()), elapsed, minTTL) else old(records[j].Value())
    {
      var rr := records[i];
      if !(rr.rrtype == TYPE_OPT || rr.rrtype == TYPE_TSIG) {
        if rr.ttl > elapsed { rr.ttl := rr.ttl - elapsed; } else { rr.ttl := 0; }
        if rr.ttl < minTTL { rr.ttl := minTTL; }
      }
    }
  }

  /** A section copied, and the copy aged. */
  method AgedSection(records: seq<RR>, elapsed: nat, minTTL: nat) returns (aged: seq<RR>)
    ensures fresh(set r | r in aged) && Values(aged) == AgedRecords(Values(records), elapsed, minTTL)
  {
    aged := CopyRRs(records);
    DecreaseRecordTTLs(aged, elapsed, minTTL);
  }

  method MinimumTTL(answer: seq<RR>) returns (ttl: nat)
    requires |answer| > 0
    ensures ttl == LeastTTL(Values(answer))
  {
    ttl := answer[0].ttl;
    ghost var at := 0;
    for i := 1 to |answer|
      invariant 0 <= at < i && answer[at].ttl == ttl && forall j | 0 <= j < i :: ttl <= answer[j].ttl
    {
      if answer[i].ttl < ttl { ttl, at := answer[i].ttl, i; }
    }
    LeastAt(Values(answer), at);
  }

  /** copyCachedResponse: the copy, its records included, is new, and nothing that existed is changed. */
  method CopyCachedResponse(response: Msg, elapsed: int, configuredMinTTL: int) returns (resp: Msg)
    ensures fresh(resp) && fresh(resp.Records())
    ensures resp.Value() == Aged(old(response.Value()), elapsed, configuredMinTTL)
    ensures response.Value() == old(response.Value())
  {
    var answer, authority, additional :=
      AgedSections(response, ElapsedSeconds(elapsed), MinTTL(configuredMinTTL));
    var ttl := response.ttl;
    if |answer| > 0 { ttl := MinimumTTL(answer); }
    resp := new Msg(response.rcode, answer, authority, additional, ttl, true);
  }

  method AgedSections(response: Msg, elapsed: nat, minTTL: nat)
    returns (answer: seq<RR>, authority: seq<RR>, additional: seq<RR>)
    ensures fresh((set r | r in answer) + (set r | r in authority) + (set r | r in additional))
    ensures Values(answer) == AgedRecords(Values(response.answer), elapsed, minTTL)
    ensures Values(authority) == AgedRecords(Values(response.authority), elapsed, minTTL)
    ensures Values(additional) == AgedRecords(Values(response.additional), elapsed, minTTL)
  {
    answer := AgedSection(response.answer, elapsed, minTTL);
    authority := AgedSection(response.authority, elapsed, minTTL);
    additional := AgedSection(response.additional, elapsed, minTTL);
  }

  // -------------------------------------------------------------------- the cache

  class Element {
    var entry: Entry<Msg>
    constructor (e: Entry<Msg>)
      ensures entry == e
    {
      entry := e;
    }
  }

  ghost function EntriesOf(l: seq<Element>): seq<Entry<Msg>>
    reads l
  {
    seq(|l|, i requires 0 <= i < |l| reads l => l[i].entry)
  }

  /** The map leads to the list's elements, each by its key. */
  ghost predicate Agree(m: map<CacheKey, Element>, l: seq<Element>)
    reads l
  {
    && (forall x | x in l :: x.entry.key in m && m[x.entry.key] == x)
    && (forall k | k in m :: m[k] in l && m[k].entry.key == k)
  }

  function Fronted(l: seq<Element>, i: nat): seq<Element>
    requires i < |l|
  {
    [l[i]] + (l[..i] + l[i + 1..])
  }

  lemma {:induction false} FrontedEntries(m: map<CacheKey, Element>, l: seq<Element>, i: nat)
    requires i < |l| && Agree(m, l)
    ensures EntriesOf(Fronted(l, i)) == [l[i].entry] + (EntriesOf(l)[..i] + EntriesOf(l)[i + 1..])
    ensures Agree(m, Fronted(l, i)) && forall x :: x in Fronted(l, i) <==> x in l
  {
    FrontElements(l, i);
  }

  function CutOut(l: seq<Element>, i: nat): seq<Element>
    requires i < |l|
  {
    l[..i] + l[i + 1..]
  }

  /** An element taken out of the list, and its key out of the map. */
  lemma {:induction false} CutEntries(m: map<CacheKey, Element>, l: seq<Element>, i: nat)
    requires i < |l| && Agree(m, l) && forall j | 0 <= j < |l| && j != i :: l[j].entry.key != l[i].entry.key
    ensures EntriesOf(CutOut(l, i)) == EntriesOf(l)[..i] + EntriesOf(l)[i + 1..]
    ensures Agree(m - {l[i].entry.key}, CutOut(l, i))
  {
    var c, k := CutOut(l, i), l[i].entry.key;
    assert forall j | 0 <= j < |c| :: c[j] == l[if j < i then j else j + 1];
    forall x | x in m - {k}
      ensures m[x] in c
    {
      var j :| 0 <= j < |l| && l[j] == m[x];
      assert c[if j < i then j else j - 1] == m[x];
    }
  }

  lemma {:induction false} LastCut(m: map<CacheKey, Element>, l: seq<Element>, n: nat)
    requires |l| == n + 1 && LruList.Distinct(Keys(EntriesOf(l))) && Agree(m, l)
    ensures EntriesOf(l[..n]) == EntriesOf(l)[..n] && Agree(m - {l[n].entry.key}, l[..n])
    ensures LruList.Distinct(Keys(EntriesOf(l[..n])))
  {
    DistinctEntries(l);
    CutEntries(m, l, n);
    assert CutOut(l, n) == l[..n];
    DistinctFront(EntriesOf(l), n);
  }

  /** What a hit at `now` says, if the message was stored at `at` and says `v`. */
  ghost predicate Says(resp: Msg, v: Response, at: int, now: int, cfg: Config)
    reads resp, resp.Records()
  {
    resp.Value() == Aged(v, now - at, cfg.minTTL)
  }

  class DnsCache {
    const config: Config
    const maxSize: nat
    var entries: map<CacheKey, Element>
    var lruList: seq<Element>

    constructor (config: Config, size: int)
      ensures Valid() && Slots() == [] && this.config == config
      ensures maxSize == if size <= 0 then 4096 else size
    {
      this.config := config;
      maxSize := if size <= 0 then 4096 else size;
      entries := map[];
      lruList := [];
    }

    ghost function Slots(): seq<Entry<Msg>>
      reads this, lruList
    {
      EntriesOf(lruList)
    }

    ghost function Elements(): set<Element>
      reads this
    {
      set x | x in lruList
    }

    /** Map and list hold the same elements, once each, and no more than maxSize of them. */
    ghost predicate Valid()
      reads this, lruList
    {
      && maxSize > 0
      && DnsCacheSpec.Valid(Slots(), maxSize)
      && Agree(entries, lruList)
    }

    /** The element a key leads to is the list's only one with that key. */
    lemma {:induction false} Indexed(k: CacheKey)
      requires Valid()
      ensures k in entries <==> DnsCacheSpec.Holds(Slots(), k)
      ensures k in entries ==> lruList[Pos(Slots(), k)] == entries[k]
    {
      var i := Pos(Slots(), k);
      if i < |lruList| { assert Slots()[i] == lruList[i].entry; }
      if k in entries {
        var j :| 0 <= j < |lruList| && lruList[j] == entries[k];
        assert Slots()[j].key == k && Keys(Slots())[j] == k;
        AbsentKey(Slots(), k);
        assert Keys(Slots())[i] == k;
      }
    }

    /** removeElement, given where the element stands. */
    method RemoveElement(elem: Element, ghost i: nat)
      requires Valid() && i < |lruList| && lruList[i] == elem
      modifies this
      ensures Valid() && Slots() == Minus(old(Slots()), elem.entry.key)
      ensures lruList == old(lruList)[..i] + old(lruList)[i + 1..] && entries == old(entries) - {elem.entry.key}
    {
      ghost var s, k := Slots(), elem.entry.key;
      PosInValid(i);
      UnlinkedIs(lruList, i);
      MinusIs(s, k, i);
      CutEntries(entries, lruList, i);
      KeptValid(s, k, maxSize);
      entries := entries - {elem.entry.key};
      lruList := Unlinked(lruList, elem);
      assert lruList == CutOut(old(lruList), i);
    }

    lemma {:induction false} PosInValid(i: nat)
      requires Valid() && i < |lruList|
      ensures Pos(Slots(), lruList[i].entry.key) == i
      ensures forall j | 0 <= j < |lruList| && j != i ::
                lruList[j] != lruList[i] && lruList[j].entry.key != lruList[i].entry.key
    {
      Indexed(lruList[i].entry.key);
      assert Keys(Slots())[i] == lruList[i].entry.key;
      assert forall j | 0 <= j < |lruList| :: Keys(Slots())[j] == lruList[j].entry.key;
    }

    /** Rewrites an element's entry in place. */
    method Amend(elem: Element, e: Entry<Msg>, ghost i: nat)
      requires Valid() && i < |lruList| && lruList[i] == elem && e.key == elem.entry.key
      modifies elem
      ensures Valid() && Slots() == old(Slots())[i := e] && elem.entry == e
    {
      PosInValid(i);
      ghost var s := Slots();
      elem.entry := e;
      assert Slots() == s[i := e];
      assert Keys(Slots()) == Keys(s);
    }

    /** lruList.MoveToFront */
    method MoveToFront(elem: Element, ghost i: nat)
      requires Valid() && i < |lruList| && lruList[i] == elem
      modifies this`lruList
      ensures Valid() && Slots() == [elem.entry] + Minus(old(Slots()), elem.entry.key)
      ensures Elements() == old(Elements())
    {
      ghost var s, l := Slots(), lruList;
      PosInValid(i);
      UnlinkedIs(l, i);
      MinusIs(s, elem.entry.key, i);
      FrontedEntries(entries, l, i);
      ValidFront(s, elem.entry, i, maxSize);
      lruList := [elem] + Unlinked(lruList, elem);
      assert lruList == Fronted(l, i);
    }

    /** A use of the element: its new entry, at the front. */
    method Promote(elem: Element, e: Entry<Msg>, ghost i: nat)
      requires Valid() && i < |lruList| && lruList[i] == elem && e.key == elem.entry.key
      modifies this`lruList, elem
      ensures Valid() && Slots() == [e] + Minus(old(Slots()), e.key) && elem.entry == e
      ensures Elements() == old(Elements())
    {
      ghost var s := Slots();
      PosInValid(i);
      Amend(elem, e, i);
      MoveToFront(elem, i);
      MinusSame(s, e, i);
    }

    /**
     Get. A hit is a new message with new records, the aged copy of what the stored one now says;
     nothing stored is written.
     */
    method Get(key: CacheKey, now: int) returns (resp: Msg?)
      requires Valid()
      modifies this, Elements()
      ensures Valid() && Elements() <= old(Elements())
      ensures Slots() == Got(old(Slots()), key, now)
      ensures resp == null <==> Found(key, now, old(Slots())).None?
      ensures resp != null ==>
                && fresh(resp) && fresh(resp.Records())
                && var e := Found(key, now, old(Slots())).value;
                   Says(resp, old(e.response.Value()), e.storedAt, now, config)
    {
      var stored, storedAt := Look(key, now);
      if stored == null { return null; }
      ghost var slots := Slots();
      assert stored.Value() == old(Found(key, now, Slots()).value.response.Value());
      resp := CopyCachedResponse(stored, now - storedAt, config.minTTL);
      assert Slots() == slots;
    }

    /** The lookup: the message found, and when it was stored. */
    method Look(key: CacheKey, now: int) returns (stored: Msg?, storedAt: int)
      requires Valid()
      modifies this, Elements()
      ensures Valid() && Elements() <= old(Elements())
      ensures Slots() == Got(old(Slots()), key, now)
      ensures match Found(key, now, old(Slots()))
              case None => stored == null
              case Some(e) => stored == e.response && storedAt == e.storedAt
    {
      Indexed(key);
      if key !in entries { return null, 0; }
      ghost var i := Pos(Slots(), key);
      var elem := entries[key];
      assert Slots()[i] == elem.entry;
      if now > elem.entry.expiresAt {
        RemoveElement(elem, i);
        return null, 0;
      }
      var e := elem.entry;
      Promote(elem, e.(hitCount := e.hitCount + 1), i);
      stored, storedAt := e.response, e.storedAt;
    }

    /** Set keeps the message itself, not a copy of it. */
    method Set(key: CacheKey, resp: Msg, originalTTL: nat, now: int)
      requires Valid()
      modifies this, Elements()
      ensures Valid() && fresh(Elements() - old(Elements()))
      ensures Slots() == Put(old(Slots()), key, resp, resp.rcode, originalTTL, now, config, maxSize)
    {
      if !config.negativeCache {
        if resp.rcode == NXDOMAIN || resp.rcode == SERVFAIL || resp.rcode == REFUSED { return; }
      }
      Store(key, resp, resp.rcode, originalTTL, now);
    }

    method Store(key: CacheKey, resp: Msg, rcode: nat, originalTTL: nat, now: int)
      requires Valid() && Accepted(rcode, config)
      modifies this, Elements()
      ensures Valid() && fresh(Elements() - old(Elements()))
      ensures Slots() == Put(old(Slots()), key, resp, rcode, originalTTL, now, config, maxSize)
    {
      Indexed(key);
      if key in entries {
        ghost var i := Pos(Slots(), key);
        Promote(entries[key], Refreshed(entries[key].entry, resp, rcode, originalTTL, now, config), i);
        return;
      }
      Insert(NewEntry(key, resp, rcode, originalTTL, now, config));
    }

    /** A new element at the front; one too many pushes out the last. */
    method Insert(e: Entry<Msg>)
      requires Valid() && e.key !in entries && Pos(Slots(), e.key) == |Slots()|
      modifies this
      ensures Valid() && fresh(Elements() - old(Elements()))
      ensures var s := [e] + old(Slots()); Slots() == if |s| > maxSize then s[..|s| - 1] else s
    {
      PushDistinct(e, Slots(), maxSize);
      PushFront(e);
      if |lruList| > maxSize { EvictBack(); }
    }

    /** PushFront and the map insertion; the list may be one too long afterwards. */
    method PushFront(e: Entry<Msg>)
      requires Valid() && e.key !in entries
      modifies this
      ensures Slots() == [e] + old(Slots()) && |lruList| == |old(lruList)| + 1
      ensures fresh(lruList[0]) && lruList[1..] == old(lruList) && lruList[0].entry == e
      ensures entries == old(entries)[e.key := lruList[0]]
    {
      var elem := new Element(e);
      lruList := [elem] + lruList;
      entries := entries[e.key := elem];
      assert forall i | 1 <= i < |lruList| :: lruList[i] == old(lruList)[i - 1];
    }

    method EvictBack()
      requires |lruList| == maxSize + 1 && maxSize > 0
      requires LruList.Distinct(Keys(Slots()))
      requires Agree(entries, lruList)
      modifies this
      ensures Valid() && Slots() == old(Slots()[..maxSize]) && lruList == old(lruList)[..maxSize]
    {
      var back := lruList[maxSize];
      LastCut(entries, lruList, maxSize);
      entries := entries - {back.entry.key};
      lruList := lruList[..maxSize];
    }

    method Remove(key: CacheKey)
      requires Valid()
      modifies this
      ensures Valid() && Elements() <= old(Elements())
      ensures Slots() == Minus(old(Slots()), key)
    {
      Indexed(key);
      if key in entries { RemoveElement(entries[key], Pos(Slots(), key)); } else { MinusAbsent(Slots(), key); }
    }

    method ShouldPrefetch(key: CacheKey, now: int) returns (b: bool)
      requires Valid()
      ensures var i := Pos(Slots(), key);
              b == (i < |Slots()| && DnsCacheSpec.ShouldPrefetch(Slots()[i], now, config))
    {
      Indexed(key);
      if key !in entries { return false; }
      assert Slots()[Pos(Slots(), key)] == entries[key].entry;
      b := DnsCacheSpec.ShouldPrefetch(entries[key].entry, now, config);
    }

    method SetPrefetching(key: CacheKey, status: bool)
      requires Valid()
      modifies Elements()
      ensures Valid() && lruList == old(lruList)
      ensures Slots() == Marked(old(Slots()), key, status)
    {
      Indexed(key);
      if key in entries {
        Amend(entries[key], entries[key].entry.(prefetching := status), Pos(Slots(), key));
      }
    }

    method RecordPrefetchFailure(key: CacheKey, now: int)
      requires Valid()
      modifies Elements()
      ensures Valid() && lruList == old(lruList)
      ensures Slots() == FailureNoted(old(Slots()), key, now)
    {
      Indexed(key);
      if key in entries {
        var e := entries[key].entry;
        Amend(entries[key],
              e.(failCount := e.failCount + 1, lastFail := now, prefetching := false,
                 backoff := PrefetchBackoff(e.failCount + 1)),
              Pos(Slots(), key));
      }
    }

    method RecordPrefetchSuccess(key: CacheKey)
      requires Valid()
      modifies Elements()
      ensures Valid() && lruList == old(lruList)
      ensures Slots() == SuccessNoted(old(Slots()), key)
    {
      Indexed(key);
      if key in entries {
        Amend(entries[key], entries[key].entry.(failCount := 0, backoff := 0, prefetching := false),
              Pos(Slots(), key));
      }
    }

    method Clear()
      requires Valid()
      modifies this
      ensures Valid() && lruList == [] && Slots() == []
    {
      entries, lruList := map[], [];
    }
  }

  // ---------------------------------------------------------------- answers apart

  /** The listener's copy by Pack and Unpack: what the client is sent shares nothing with the answer. */
  method DeepCopy(response: Msg) returns (m: Msg)
    ensures fresh(m) && fresh(m.Records()) && m.Value() == response.Value()
  {
    var answer := CopyRRs(response.answer);
    var authority := CopyRRs(response.authority);
    var additional := CopyRRs(response.additional);
    m := new Msg(response.rcode, answer, authority, additional, response.ttl, response.cached);
  }

  /**
   What the listener makes of an answer: a copy of its raw message, SERVFAIL if that cannot be packed
   or unpacked, and without a raw message one that shares the answer's records.
   */
  method Reply(response: Msg, raw: bool, packs: bool) returns (m: Msg)
    ensures fresh(m) && (raw ==> fresh(m.Records()))
    ensures raw && packs ==> m.Value() == response.Value()
    ensures raw && !packs ==> m.rcode == SERVFAIL && m.Records() == {}
    ensures !raw ==> m.rcode == response.rcode && m.Records() == response.Records()
  {
    if !raw {
      m := new Msg(response.rcode, response.answer, response.authority, response.additional, response.ttl, false);
    } else if packs {
      m := DeepCopy(response);
    } else {
      m := new Msg(SERVFAIL, [], [], [], 0, false);
    }
  }

  /** Any use of a message by whoever holds it. */
  method Overwrite(m: Msg)
    modifies m, m.Records()
  {
    for i := 0 to |m.answer|
      invariant m.answer == old(m.answer)
    {
      m.answer[i].ttl := *;
    }
    m.rcode, m.ttl, m.cached, m.answer, m.authority, m.additional := *, *, *, m.additional, [], m.answer;
  }

  /** After a hit, the next Get of the key answers from the same entry, until it expires. */
  lemma {:induction false} FoundAgain<R>(s: seq<Entry<R>>, key: CacheKey, now: int, later: int)
    requires Found(key, now, s).Some?
    ensures var e := Found(key, now, s).value;
            Found(key, later, Got(s, key, now)) ==
            if Expired(e, later) then None else Some(e.(hitCount := e.hitCount + 1))
  {}

  twostate lemma {:induction false} Unwritten(m: Msg)
    requires unchanged(m) && unchanged(m.Records())
    ensures m.Value() == old(m.Value())
  {}

  /** Writing to a message that shares nothing with a stored one. */
  method OverwriteBeside(m: Msg, c: DnsCache, ghost stored: Msg)
    requires c.Valid() && m != stored && forall r | r in m.Records() :: r !in stored.Records()
    modifies m, m.Records()
    ensures c.Valid() && c.Slots() == old(c.Slots()) && c.Elements() == old(c.Elements())
    ensures stored.Value() == old(stored.Value())
  {
    Overwrite(m);
    Unwritten(stored);
    assert c.Slots() == old(c.Slots());
  }

  /** A hit whose answer is then written over: the stored message still says `v`. */
  method HitAndOverwrite(c: DnsCache, key: CacheKey, now: int, ghost e: Entry<Msg>, ghost v: Response)
    requires c.Valid() && Found(key, now, c.Slots()) == Some(e) && e.response.Value() == v
    modifies c, c.Elements()
    ensures c.Valid() && c.Elements() <= old(c.Elements())
    ensures c.Slots() == Got(old(c.Slots()), key, now)
    ensures e.response.Value() == v
  {
    ghost var records := e.response.Records();
    assert forall r | r in records :: allocated(r);
    var hit := c.Get(key, now);
    assert e.response.Records() == records && forall r | r in hit.Records() :: r !in records;
    Unwritten(e.response);
    OverwriteBeside(hit, c, e.response);
  }

  /** Two hits in a row age the same stored records, whatever is done to the first answer in between. */
  method HitTwice(c: DnsCache, key: CacheKey, now: int, later: int, ghost e: Entry<Msg>, ghost v: Response)
    returns (second: Msg?)
    requires c.Valid() && Found(key, now, c.Slots()) == Some(e) && e.response.Value() == v
    modifies c, c.Elements()
    ensures c.Valid() && (second == null <==> Expired(e, later))
    ensures second != null ==> Says(second, v, e.storedAt, later, c.config)
  {
    FoundAgain(c.Slots(), key, now, later);
    HitAndOverwrite(c, key, now, e, v);
    second := c.Get(key, later);
  }

  /**
   The answer to a query that missed: stored as it is, and sent to the client as a copy. Whatever
   then becomes of what the client was sent, the stored message says what the upstream said.
   */
  method StoreAndReply(c: DnsCache, key: CacheKey, m: Msg, ttl: nat, now: int, packs: bool)
    requires c.Valid()
    modifies c, c.Elements()
    ensures c.Valid() && fresh(c.Elements() - old(c.Elements())) && m.Value() == old(m.Value())
    ensures c.Slots() == Put(old(c.Slots()), key, m, m.rcode, ttl, now, c.config, c.maxSize)
  {
    ghost var records := m.Records();
    assert forall r | r in records :: allocated(r);
    c.Set(key, m, ttl, now);
    Unwritten(m);
    var reply := Reply(m, true, packs);
    assert m.Records() == records && forall r | r in reply.Records() :: r !in records;
    OverwriteBeside(reply, c, m);
  }

  /** A Get after any trace: the copy of what was last stored under the key, in the time it may live. */
  method GetLast(c: DnsCache, ghost trace: seq<Op<Msg>>, key: CacheKey, now: int,
                 ghost last: Option<DnsCacheSpec.Stored<Msg>>, ghost v: Response)
    returns (resp: Msg?)
    requires c.Valid() && c.Slots() == Run(trace, [], c.config, c.maxSize)
    requires last == LastStored(trace, c.config, key) && (last.Some? ==> v == last.value.resp.Value())
    modifies c, c.Elements()
    ensures c.Valid() && c.Slots() == Run(trace + [DnsCacheSpec.Get(key, now)], [], c.config, c.maxSize)
    ensures resp != null ==> last.Some? && Says(resp, v, last.value.at, now, c.config)
    ensures resp != null <==> key in old(c.entries) && last.Some? && now <= Until(last.value, c.config)
  {
    RunSnoc(trace, DnsCacheSpec.Get(key, now), [], c.config, c.maxSize);
    HitsAreLastStored(trace, key, now, c.config, c.maxSize);
    c.Indexed(key);
    resp := c.Get(key, now);
  }

  /** The message is what a hit at `now` shows of one stored at `at` that says `v`, its TTL the least in its answer. */
  ghost predicate Tells(resp: Msg, v: Response, at: int, now: int, cfg: Config)
    reads resp, resp.Records()
  {
    forall r: Response | r == resp.Value() :: Shows(r, v, now - at, cfg) && OwnTTL(r, v)
  }

  lemma {:induction false} SaysTells(resp: Msg, v: Response, st: DnsCacheSpec.Stored<Msg>, now: int, cfg: Config)
    requires Says(resp, v, st.at, now, cfg) && now <= Until(st, cfg)
    ensures Tells(resp, v, st.at, now, cfg)
  {
    StoredShows(v, st, now, cfg);
  }

  /** The same in the records: each TTL is that of the message last stored, as it reads now, less the seconds since. */
  method GetAfter(c: DnsCache, ghost trace: seq<Op<Msg>>, key: CacheKey, now: int,
                  ghost last: Option<DnsCacheSpec.Stored<Msg>>, ghost v: Response)
    returns (resp: Msg?)
    requires c.Valid() && c.Slots() == Run(trace, [], c.config, c.maxSize)
    requires last == LastStored(trace, c.config, key) && (last.Some? ==> v == last.value.resp.Value())
    modifies c, c.Elements()
    ensures c.Valid() && c.Slots() == Run(trace + [DnsCacheSpec.Get(key, now)], [], c.config, c.maxSize)
    ensures resp != null <==> key in old(c.entries) && last.Some? && now <= Until(last.value, c.config)
    ensures resp != null ==> Tells(resp, v, last.value.at, now, c.config)
  {
    resp := GetLast(c, trace, key, now, last, v);
    if resp != null { SaysTells(resp, v, last.value, now, c.config); }
  }

  lemma {:induction false} DistinctEntries(l: seq<Element>)
    requires LruList.Distinct(Keys(EntriesOf(l)))
    ensures forall i, j | 0 <= i < |l| && 0 <= j < |l| && i != j :: l[i].entry.key != l[j].entry.key
  {
    assert forall i | 0 <= i < |l| :: Keys(EntriesOf(l))[i] == l[i].entry.key;
  }

  lemma {:induction false} DistinctFront<R>(s: seq<Entry<R>>, n: nat)
    requires n <= |s| && LruList.Distinct(Keys(s))
    ensures LruList.Distinct(Keys(s[..n]))
  {
    assert Keys(s[..n]) == Keys(s)[..n];
  }

  lemma {:induction false} MinusSame<R>(s: seq<Entry<R>>, e: Entry<R>, i: nat)
    requires i < |s| && Pos(s, e.key) == i
    ensures Minus(s[i := e], e.key) == Minus(s, e.key)
  {
    var s' := s[i := e];
    assert s'[..i] == s[..i] && s'[i + 1..] == s[i + 1..];
    PosAt(s', e.key, i);
    MinusIs(s, e.key, i);
    MinusIs(s', e.key, i);
  }

  lemma {:induction false} PosAt<R>(s: seq<Entry<R>>, k: CacheKey, i: nat)
    requires i < |s| && s[i].key == k && forall j | 0 <= j < i :: s[j].key != k
    ensures Pos(s, k) == i
    decreases i
  {
    if i > 0 { PosAt(s[1..], k, i - 1); }
  }

  lemma {:induction false} MinusAbsent<R>(s: seq<Entry<R>>, k: CacheKey)
    requires Pos(s, k) == |s|
    ensures Minus(s, k) == s
    decreases |s|
  {
    if s != [] { MinusAbsent(s[1..], k); }
  }

  lemma {:induction false} KeptValid<R>(s: seq<Entry<R>>, k: CacheKey, max: nat)
    requires DnsCacheSpec.Valid(s, max)
    ensures DnsCacheSpec.Valid(Minus(s, k), max)
    ensures forall e | e in Minus(s, k) :: e.key != k
  {
    MinusKeys(s, k);
    LruList.RemovedProps(Keys(s), k);
    MinusIn(s, k, max);
    assert |Keys(Minus(s, k))| == |Minus(s, k)|;
  }

  lemma {:induction false} ValidFront<R>(s: seq<Entry<R>>, e: Entry<R>, i: nat, max: nat)
    requires DnsCacheSpec.Valid(s, max) && i < |s| && s[i].key == e.key
    ensures DnsCacheSpec.Valid([e] + Minus(s, e.key), max)
  {
    MinusKeys(s, e.key);
    assert Keys(s)[i] == e.key;
    LruList.StepDistinct(LruList.Front(e.key), Keys(s), max);
    LruList.RemovedProps(Keys(s), e.key);
    ConsKeys(e, Minus(s, e.key));
    assert |Keys(Minus(s, e.key))| == |Minus(s, e.key)|;
  }

  lemma {:induction false} PushDistinct<R>(e: Entry<R>, s: seq<Entry<R>>, max: nat)
    requires DnsCacheSpec.Valid(s, max) && Pos(s, e.key) == |s|
    ensures LruList.Distinct(Keys([e] + s))
  {
    AbsentKey(s, e.key);
    ConsKeys(e, s);
    assert forall i | 0 <= i < |s| :: Keys(s)[i] in Keys(s);
  }

  lemma {:induction false} FrontElements(l: seq<Element>, i: nat)
    requires i < |l|
    ensures forall x :: x in [l[i]] + (l[..i] + l[i + 1..]) <==> x in l
  {
    assert l == l[..i] + [l[i]] + l[i + 1..];
  }

  function Unlinked(l: seq<Element>, e: Element): seq<Element>
  {
    if l == [] then [] else if l[0] == e then l[1..] else [l[0]] + Unlinked(l[1..], e)
  }

  lemma {:induction false} UnlinkedIs(l: seq<Element>, i: nat)
    requires i < |l| && forall j | 0 <= j < i :: l[j] != l[i]
    ensures Unlinked(l, l[i]) == l[..i] + l[i + 1..]
    decreases i
  {
    if i > 0 {
      var t := l[1..];
      assert t[i - 1] == l[i];
      UnlinkedIs(t, i - 1);
      assert [l[0]] + (t[..i - 1] + t[i..]) == l[..i] + l[i + 1..];
    }
  }

  lemma {:induction false} MinusIs<R>(s: seq<Entry<R>>, k: CacheKey, i: nat)
    requires i < |s| && i == Pos(s, k)
    ensures Minus(s, k) == s[..i] + s[i + 1..]
    decreases i
  {
    if i > 0 {
      MinusIs(s[1..], k, i - 1);
      assert [s[0]] + s[1..][..i - 1] == s[..i] && s[1..][i..] == s[i + 1..];
    }
  }
}
