/**
 The feed: bounded boxes that subscribers drain. The feed's lock makes every call one step,
 so runs are sequences of calls; ghost fields record what was produced and what each box gave out.
 */
module MessageFeed {
  import opened Options

  datatype Message = Message(produceTime: int, product: string, body: string)

  // ------------------------------------------------------------------ subsequences

  ghost predicate Embeds<T>(a: seq<T>, b: seq<T>, at: seq<int>)
  {
    && |at| == |a| && (forall i | 0 <= i < |at| :: 0 <= at[i] < |b| && a[i] == b[at[i]])
    && forall i, j | 0 <= i < j < |at| :: at[i] < at[j]
  }

  /** `a` is `b` with some elements left out. */
  ghost predicate Subseq<T>(a: seq<T>, b: seq<T>) { exists at :: Embeds(a, b, at) }

  lemma {:induction false} SubseqNothing<T>(b: seq<T>)
    ensures Subseq([], b)
  {
    assert Embeds([], b, []);
  }

  lemma {:induction false} SubseqTaken<T>(a: seq<T>, b: seq<T>, x: T)
    requires Subseq(a, b)
    ensures Subseq(a + [x], b + [x])
  {
    var at :| Embeds(a, b, at);
    assert Embeds(a + [x], b + [x], at + [|b|]);
  }

  lemma {:induction false} SubseqDropped<T>(a: seq<T>, b: seq<T>, x: T)
    requires Subseq(a, b)
    ensures Subseq(a, b + [x])
  {
    var at :| Embeds(a, b, at);
    assert Embeds(a, b + [x], at);
  }

  // ------------------------------------------------------------------------- boxes

  class Box {
    const size: nat
    var buffer: seq<Message>
    var closed: bool
    /** What the subscriber has taken out, what the box was offered, and from which message of its product on. */
    ghost var received: seq<Message>
    ghost var offered: seq<Message>
    ghost const since: nat

    ghost predicate Sound()
      reads this
    {
      |buffer| <= size && Subseq(received + buffer, offered)
    }

    constructor (size: nat, ghost since: nat)
      ensures this.size == size && this.since == since && Sound()
      ensures buffer == [] && !closed && received == [] && offered == []
    {
      this.size, buffer, closed, received, offered, this.since := size, [], false, [], [], since;
      new;
      assert received + buffer == [];
      SubseqNothing<Message>([]);
    }

    /** A send that does not wait: a full box drops the message. */
    method Offer(m: Message) returns (taken: bool)
      requires Sound() && !closed
      modifies this
      ensures Sound() && closed == old(closed) && received == old(received) && offered == old(offered) + [m]
      ensures taken == (|old(buffer)| < size) && buffer == if taken then old(buffer) + [m] else old(buffer)
    {
      taken := |buffer| < size;
      if taken {
        SubseqTaken(received + buffer, offered, m);
        assert received + (buffer + [m]) == received + buffer + [m];
        buffer := buffer + [m];
      } else {
        SubseqDropped(received + buffer, offered, m);
      }
      offered := offered + [m];
    }

    /** The subscriber takes the oldest message; what is buffered can be drained after closing too. */
    method Receive() returns (m: Option<Message>)
      requires Sound()
      modifies this
      ensures Sound() && closed == old(closed) && offered == old(offered)
      ensures received + buffer == old(received) + old(buffer)
      ensures m == if old(buffer) == [] then None else Some(old(buffer)[0])
      ensures |received| == |old(received)| + if m.None? then 0 else 1
    {
      if buffer == [] { return None; }
      m := Some(buffer[0]);
      assert received + buffer == received + [buffer[0]] + buffer[1..];
      received := received + [buffer[0]];
      buffer := buffer[1..];
    }
  }

  // -------------------------------------------------------------------------- feed

  type Boxes = map<string, seq<Box>>

  /** Where boxes stand: no box twice. */
  ghost predicate Apart(boxes: Boxes)
  {
    forall p, q, i, j | p in boxes && q in boxes && 0 <= i < |boxes[p]| && 0 <= j < |boxes[q]|
        && boxes[p][i] == boxes[q][j] ::
      p == q && i == j
  }

  ghost function Members(boxes: Boxes): set<Box> { set p, i | p in boxes && 0 <= i < |boxes[p]| :: boxes[p][i] }

  type Log = map<string, seq<Message>>

  /** Each box was offered every message of its product since it was subscribed, and no other. */
  ghost predicate Logged(boxes: Boxes, log: Log)
    reads Members(boxes)
  {
    forall p | p in boxes :: p in log && forall b | b in boxes[p] :: OfferedSince(b, log[p])
  }

  ghost predicate OfferedSince(b: Box, produced: seq<Message>)
    reads b
  {
    b.since <= |produced| && b.offered == produced[b.since..]
  }

  /** What each box was offered so far, and how one more message adds to it. */
  ghost function Offers(boxes: Boxes): map<Box, seq<Message>>
    reads Members(boxes)
  {
    map b | b in Members(boxes) :: b.offered
  }

  ghost predicate LoggedIn(boxes: Boxes, offers: map<Box, seq<Message>>, log: Log)
  {
    forall p | p in boxes ::
      p in log && forall b | b in boxes[p] :: b in offers && b.since <= |log[p]| && offers[b] == log[p][b.since..]
  }

  lemma {:induction false} LoggedNow(boxes: Boxes, log: Log)
    requires Apart(boxes) && Logged(boxes, log)
    ensures LoggedIn(boxes, Offers(boxes), log)
  {
    forall p, b | p in boxes && b in boxes[p]
      ensures b in Members(boxes) && OfferedSince(b, log[p])
    {
      Elsewhere(boxes, p, b, p);
    }
  }

  lemma {:induction false} LoggedMore(boxes: Boxes, offers: map<Box, seq<Message>>, log: Log, product: string,
                                      m: Message)
    requires Apart(boxes) && product in boxes && LoggedIn(boxes, offers, log)
    requires forall b | b in Members(boxes) && b in offers ::
               b.offered == if b in boxes[product] then offers[b] + [m] else offers[b]
    ensures Logged(boxes, log[product := log[product] + [m]])
  {
    forall p, b | p in boxes && b in boxes[p]
      ensures OfferedSince(b, log[product := log[product] + [m]][p])
    {
      Elsewhere(boxes, p, b, product);
    }
  }

  lemma {:induction false} LoggedJoined(boxes: Boxes, log: Log, product: string, box: Box)
    requires Logged(boxes, log) && product in boxes && OfferedSince(box, log[product])
    ensures Logged(boxes[product := boxes[product] + [box]], log)
  {}

  lemma {:induction false} Elsewhere(boxes: Boxes, p: string, b: Box, q: string)
    requires Apart(boxes) && p in boxes && b in boxes[p] && q in boxes
    ensures b in Members(boxes) && (p != q ==> b !in boxes[q])
  {}

  class Feed {
    const boxSize: nat
    var boxes: Boxes
    /** All messages produced, by product. */
    ghost var log: Log

    ghost predicate Valid()
      reads this, Members(boxes)
    {
      && Apart(boxes) && Logged(boxes, log)
      && forall b | b in Members(boxes) :: b.size == boxSize && !b.closed && b.Sound()
    }

    constructor (boxSize: nat)
      ensures Valid() && this.boxSize == boxSize && boxes == map[] && log == map[]
    {
      this.boxSize, boxes, log := boxSize, map[], map[];
    }

    /** A product without subscribers; if it had any, the feed forgets them. */
    method RegisterProduct(product: string)
      requires Valid()
      modifies `boxes, `log
      ensures Valid() && boxes == old(boxes)[product := []]
      ensures log == if product in old(log) then old(log) else old(log)[product := []]
    {
      Emptied(boxes, product);
      boxes := boxes[product := []];
      log := if product in log then log else log[product := []];
    }

    method SubscribeMessage(product: string) returns (s: Subscription?)
      requires Valid()
      modifies `boxes
      ensures Valid() && (s == null <==> product !in old(boxes))
      ensures s == null ==> boxes == old(boxes)
      ensures s != null ==>
                && fresh(s) && fresh(s.box) && s.feed == this && s.product == product && s.Standing()
                && boxes == old(boxes)[product := old(boxes)[product] + [s.box]]
                && s.box.buffer == s.box.received == s.box.offered == []
                && product in log && s.box.since == |log[product]|
    {
      if product !in boxes { return null; }
      var box := new Box(boxSize, |log[product]|);
      ghost var was := boxes;
      boxes := boxes[product := boxes[product] + [box]];
      Joined(was, product, box);
      LoggedJoined(was, log, product, box);
      s := new Subscription(this, product, box, |boxes[product]| - 1);
    }

    /** Close one box and take it out. */
    method TakeOut(product: string, i: nat)
      requires Valid() && product in boxes && i < |boxes[product]|
      modifies `boxes, boxes[product][i]
      ensures Valid() && boxes == old(boxes)[product := Cut(old(boxes)[product], i)]
      ensures var b := old(boxes)[product][i];
              b.closed && b.buffer == old(b.buffer) && b.received == old(b.received) && b.offered == old(b.offered)
      ensures Members(boxes) == Members(old(boxes)) - {old(boxes)[product][i]}
    {
      Left(boxes, product, i);
      var b := boxes[product][i];
      b.closed := true;
      boxes := boxes[product := Cut(boxes[product], i)];
    }

    /** Every subscriber of the product with room gets the message; the others are unchanged. */
    method ProductMessage(product: string, message: Message) returns (count: nat)
      requires Valid()
      modifies `log, if product in boxes then (set b | b in boxes[product]) else {}
      ensures Valid() && boxes == old(boxes)
      ensures product !in boxes ==> log == old(log)
      ensures product in boxes ==> product in old(log) && log == old(log)[product := old(log)[product] + [message]]
      ensures count == if product in boxes then old(|Roomy(boxes[product])|) else 0
      ensures product in boxes ==> forall b | b in boxes[product] :: Offered(b, message)
    {
      if product !in boxes { return 0; }
      Ranked(boxes, product);
      RoomIs(boxes[product]);
      LoggedNow(boxes, log);
      ghost var offers := Offers(boxes);
      count := OfferAll(boxes[product], message);
      LoggedMore(boxes, offers, log, product, message);
      log := log[product := log[product] + [message]];
    }
  }

  function Cut(bs: seq<Box>, i: nat): seq<Box>
    requires i < |bs|
  {
    bs[..i] + bs[i + 1..]
  }

  /** No feed for a size that is not positive. */
  method NewSubscriptions(boxSize: int) returns (f: Feed?)
    ensures f == null <==> boxSize <= 0
    ensures f != null ==> fresh(f) && f.Valid() && f.boxSize == boxSize && f.boxes == map[]
  {
    if boxSize <= 0 { return null; }
    f := new Feed(boxSize);
  }

  /** How many boxes have room. */
  ghost function Room(bs: seq<Box>): nat
    reads bs
  {
    if bs == [] then 0
    else Room(bs[..|bs| - 1]) + if |bs[|bs| - 1].buffer| < bs[|bs| - 1].size then 1 else 0
  }

  ghost function Roomy(bs: seq<Box>): set<Box>
    reads bs
  {
    set b | b in bs && |b.buffer| < b.size
  }

  lemma {:induction false} RoomIs(bs: seq<Box>)
    requires Distinct(bs)
    ensures Room(bs) == |Roomy(bs)|
    decreases |bs|
  {
    if bs == [] {
      assert Roomy(bs) == {};
    } else {
      var n := |bs| - 1;
      RoomIs(bs[..n]);
      assert bs == bs[..n] + [bs[n]] && bs[n] !in bs[..n];
      assert Roomy(bs) == Roomy(bs[..n]) + if |bs[n].buffer| < bs[n].size then {bs[n]} else {};
    }
  }

  ghost predicate Distinct(bs: seq<Box>) { forall i, j | 0 <= i < j < |bs| :: bs[i] != bs[j] }

  lemma {:induction false} Ranked(boxes: Boxes, product: string)
    requires Apart(boxes) && product in boxes
    ensures Distinct(boxes[product]) && forall b | b in boxes[product] :: b in Members(boxes)
  {}

  /** A box after a message it may have had no room for. */
  twostate predicate Offered(b: Box, m: Message)
    reads b
  {
    && b.buffer == (if |old(b.buffer)| < b.size then old(b.buffer) + [m] else old(b.buffer))
    && b.offered == old(b.offered) + [m] && b.received == old(b.received)
  }

  twostate predicate Served(b: Box, m: Message)
    reads b
  {
    b.Sound() && !b.closed && Offered(b, m)
  }

  method OfferAll(bs: seq<Box>, m: Message) returns (count: nat)
    requires Distinct(bs) && forall b | b in bs :: b.Sound() && !b.closed
    modifies set b | b in bs
    ensures count == old(Room(bs))
    ensures forall b | b in bs :: Served(b, m)
  {
    count := 0;
    for k := 0 to |bs|
      invariant count == old(Room(bs[..k]))
      invariant forall i | 0 <= i < k :: Served(bs[i], m)
      invariant forall i | k <= i < |bs| :: unchanged(bs[i])
    {
      assert bs[..k + 1][..k] == bs[..k] && bs[k] in bs;
      var taken := bs[k].Offer(m);
      if taken { count := count + 1; }
    }
    assert bs[..|bs|] == bs;
  }

  lemma {:induction false} Emptied(boxes: Boxes, product: string)
    requires Apart(boxes)
    ensures var now := boxes[product := []]; Apart(now) && Members(now) <= Members(boxes)
  {
    var now := boxes[product := []];
    assert forall p, i | p in now && 0 <= i < |now[p]| :: p != product && now[p][i] == boxes[p][i];
  }

  lemma {:induction false} Joined(boxes: Boxes, product: string, box: Box)
    requires Apart(boxes) && product in boxes && box !in Members(boxes)
    ensures var now := boxes[product := boxes[product] + [box]]; Apart(now) && Members(now) == Members(boxes) + {box}
  {
    var now := boxes[product := boxes[product] + [box]];
    assert now[product][|boxes[product]|] == box;
    assert forall p, i | p in boxes && 0 <= i < |boxes[p]| :: now[p][i] == boxes[p][i] && boxes[p][i] in Members(boxes);
  }

  class Subscription {
    const feed: Feed
    const product: string
    const box: Box
    /** Where cancel last knew the box to be. */
    var index: int

    constructor (feed: Feed, product: string, box: Box, index: nat)
      ensures this.feed == feed && this.product == product && this.box == box && this.index == index
    {
      this.feed, this.product, this.box, this.index := feed, product, box, index;
    }

    ghost predicate Standing()
      reads this, feed
    {
      index >= 0 && product in feed.boxes && box in feed.boxes[product]
    }

    /** The box is the feed's under this product, or no longer anywhere in the feed. */
    ghost predicate Consistent()
      reads this, feed
    {
      product in feed.boxes && (box in Members(feed.boxes) ==> box in feed.boxes[product])
    }

    /**
     Cancel. The first call takes out and closes its own box and no other, wherever it now
     stands; a second finds nothing and leaves the index at -1, from where a third fails.
     */
    method Cancel() returns (ok: bool)
      requires feed.Valid() && Consistent()
      modifies this, feed`boxes, box
      ensures feed.Valid() && Consistent() && (ok <==> old(index) >= 0)
      ensures !ok ==> unchanged(this) && unchanged(box) && feed.boxes == old(feed.boxes)
      ensures ok ==> forall i | 0 <= i < |old(feed.boxes[product])| && old(feed.boxes[product])[i] == box ::
                && index == i && box.closed && box.buffer == old(box.buffer)
                && feed.boxes == old(feed.boxes)[product := Cut(old(feed.boxes[product]), i)]
                && box !in Members(feed.boxes)
      ensures forall b | b in old(feed.boxes[product]) && b != box :: b in feed.boxes[product]
      ensures ok && old(box !in feed.boxes[product]) ==>
                index == -1 && feed.boxes == old(feed.boxes) && box.closed == old(box.closed)
                    && box.buffer == old(box.buffer)
    {
      if index < 0 { return false; }
      ok := true;
      var bs := feed.boxes[product];
      Ranked(feed.boxes, product);
      if index >= |bs| || bs[index] != box { index := Search(bs, box); }
      if index == -1 { return; }
      feed.TakeOut(product, index);
      Others(bs, index);
    }
  }

  /** Three calls on a standing subscription: the box goes, nothing happens, the call fails. */
  method CancelThrice(s: Subscription) returns (first: bool, second: bool, third: bool)
    requires s.feed.Valid() && s.Consistent() && s.Standing()
    modifies s, s.feed`boxes, s.box
    ensures first && second && !third && s.box.closed && s.box !in Members(s.feed.boxes)
  {
    ghost var bs := s.feed.boxes[s.product];
    ghost var i :| 0 <= i < |bs| && bs[i] == s.box;
    first := s.Cancel();
    assert s.index == i;
    Ranked(s.feed.boxes, s.product);
    second := s.Cancel();
    third := s.Cancel();
  }

  lemma {:induction false} Others(bs: seq<Box>, i: nat)
    requires i < |bs|
    ensures forall b | b in bs && b != bs[i] :: b in Cut(bs, i)
  {
    forall b | b in bs && b != bs[i]
      ensures b in Cut(bs, i)
    {
      var j :| 0 <= j < |bs| && bs[j] == b;
      assert Cut(bs, i)[if j < i then j else j - 1] == b;
    }
  }

  method Search(bs: seq<Box>, box: Box) returns (i: int)
    ensures i == -1 <==> box !in bs
    ensures i == -1 || (0 <= i < |bs| && bs[i] == box)
  {
    for k := 0 to |bs|
      invariant forall j | 0 <= j < k :: bs[j] != box
    {
      if bs[k] == box { return k; }
    }
    i := -1;
  }

  lemma {:induction false} Left(boxes: Boxes, product: string, i: nat)
    requires Apart(boxes) && product in boxes && i < |boxes[product]|
    ensures var now := boxes[product := Cut(boxes[product], i)];
            Apart(now) && Members(now) == Members(boxes) - {boxes[product][i]}
  {
    var bs := boxes[product];
    var now := boxes[product := bs[..i] + bs[i + 1..]];
    assert forall j | 0 <= j < |now[product]| :: now[product][j] == bs[if j < i then j else j + 1];
    assert forall p, j | p in now && p != product && 0 <= j < |now[p]| :: now[p][j] == boxes[p][j];
    forall b | b in Members(boxes) && b != bs[i]
      ensures b in Members(now)
    {
      var p, j :| p in boxes && 0 <= j < |boxes[p]| && boxes[p][j] == b;
      if p == product { assert now[p][if j < i then j else j - 1] == b; } else { assert now[p][j] == b; }
    }
  }
}
