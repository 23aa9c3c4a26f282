/** Port white lists: entries as text, the ports they stand for, and their compression. */
module PortLists {
  import opened Options

  datatype Entry = Single(p: nat) | Range(l: nat, r: nat)

  function Lo(e: Entry): nat { if e.Single? then e.p else e.l }
  function Hi(e: Entry): nat { if e.Single? then e.p else e.r }

  predicate Covers(e: Entry, p: nat) { Lo(e) <= p <= Hi(e) }

  ghost predicate Has(es: seq<Entry>, p: nat) { exists i | 0 <= i < |es| :: Covers(es[i], p) }

  // ------------------------------------------------------------------------ text

  function Digit(d: nat): char
    requires d < 10
  {
    "0123456789"[d]
  }

  function Itoa(n: nat): string { if n < 10 then [Digit(n)] else Itoa(n / 10) + [Digit(n % 10)] }

  predicate IsDigit(c: char) { '0' <= c <= '9' }

  function Value(c: char): nat { if IsDigit(c) then (c as int - '0' as int) as nat else 0 }

  function Number(s: string): nat { if s == [] then 0 else 10 * Number(s[..|s| - 1]) + Value(s[|s| - 1]) }

  const MAX_INT: int := 0x7fff_ffff_ffff_ffff

  datatype Parsed = Parsed(value: int, ok: bool)

  /** strconv.Atoi: a sign and decimal digits; 0 for other texts, the nearest 64-bit number for one too large. */
  function Atoi(s: string): Parsed
  {
    var signed := s != [] && s[0] in "+-";
    var digits := if signed then s[1..] else s;
    if digits == [] || exists c | c in digits :: !IsDigit(c) then Parsed(0, false)
    else
      var n: int := if signed && s[0] == '-' then 0 - Number(digits) as int else Number(digits);
      if n > MAX_INT then Parsed(MAX_INT, false)
      else if n < -MAX_INT - 1 then Parsed(-MAX_INT - 1, false)
      else Parsed(n, true)
  }

  function Text(e: Entry): string { if e.Single? then Itoa(e.p) else Itoa(e.l) + ":" + Itoa(e.r) }

  lemma {:induction false} DigitValue(d: nat)
    requires d < 10
    ensures Value(Digit(d)) == d && IsDigit(Digit(d))
  {}

  lemma {:induction false} ReadsBack(n: nat)
    ensures Number(Itoa(n)) == n && |Itoa(n)| > 0 && forall c | c in Itoa(n) :: IsDigit(c)
    decreases n
  {
    if n < 10 {
      DigitValue(n);
      assert [Digit(n)][..0] == [];
    } else {
      ReadsBack(n / 10);
      DigitValue(n % 10);
      var s := Itoa(n);
      assert s[..|s| - 1] == Itoa(n / 10);
    }
  }

  /** A number that fits is parsed back; a larger one is refused. */
  lemma {:induction false} ParsesBack(n: nat)
    ensures Atoi(Itoa(n)) == if n <= MAX_INT then Parsed(n, true) else Parsed(MAX_INT, false)
    ensures ':' !in Itoa(n)
  {
    ReadsBack(n);
    assert Itoa(n)[0] in Itoa(n);
  }

  /** The part before the first colon and the part between it and the next; both empty without one. */
  function Colon(s: string): (i: nat)
    ensures i <= |s| && (i < |s| ==> s[i] == ':') && ':' !in s[..i]
  {
    if s == [] || s[0] == ':' then 0
    else
      var i := Colon(s[1..]);
      assert s[..i + 1] == [s[0]] + s[1..][..i];
      i + 1
  }

  lemma {:induction false} ColonAt(a: string, b: string)
    requires ':' !in a
    ensures Colon(a + ":" + b) == |a|
    decreases |a|
  {
    var s := a + ":" + b;
    if a != [] {
      assert s[1..] == a[1..] + ":" + b && s[0] == a[0] && a[0] in a;
      ColonAt(a[1..], b);
    }
  }

  lemma {:induction false} NoColon(a: string)
    requires ':' !in a
    ensures Colon(a) == |a|
    decreases |a|
  {
    if a != [] {
      assert a[0] in a;
      NoColon(a[1..]);
    }
  }

  /** Has on one entry's text, as the source compares it. */
  predicate HasText(t: string, port: string)
  {
    t == port ||
    (':' in t
     && var i := Colon(t);
        var rest := t[i..][1..];
        Atoi(t[..i]).value <= Atoi(port).value <= Atoi(rest[..Colon(rest)]).value)
  }

  /** What Has says of a list of texts. */
  ghost predicate TextHas(list: seq<string>, port: string)
  {
    Atoi(port).ok && exists i | 0 <= i < |list| :: HasText(list[i], port)
  }

  /** A port that is no number is in no list. */
  method HasPort(list: seq<string>, port: string) returns (has: bool)
    ensures has <==> TextHas(list, port)
  {
    if !Atoi(port).ok { return false; }
    for i := 0 to |list|
      invariant forall k | 0 <= k < i :: !HasText(list[k], port)
    {
      if HasText(list[i], port) { return true; }
    }
    has := false;
  }

  /** On canonical entries the comparison of texts is the comparison of ports. */
  lemma {:induction false} TextCovers(e: Entry, p: nat)
    ensures p < MAX_INT ==> (HasText(Text(e), Itoa(p)) <==> Covers(e, p))
    ensures Atoi(Itoa(p)).ok <==> p <= MAX_INT
  {
    ParsesBack(p);
    ParsesBack(Lo(e));
    ParsesBack(Hi(e));
    if e.Single? {
      NoColon(Text(e));
      ReadsBack(p);
      ReadsBack(e.p);
    } else {
      var a, b := Itoa(e.l), Itoa(e.r);
      var t := a + ":" + b;
      ColonAt(a, b);
      NoColon(b);
      assert t[|a|] == ':';
      assert t[..|a|] == a && t[|a|..] == ":" + b && t[|a|..][1..] == b && b[..|b|] == b;
      assert t != Itoa(p) by { assert ':' in t; }
    }
  }

  // ------------------------------------------------------------------ compression

  const TOP := 65536

  /** The scan's table: single ports out of range are passed over. */
  predicate Marks(e: Entry, q: nat) { if e.Single? then e.p == q && q < TOP else e.l <= q <= e.r }

  ghost predicate Marked(es: seq<Entry>, q: nat) { exists i | 0 <= i < |es| :: Marks(es[i], q) }

  /** A range that runs past the table. */
  predicate Overruns(e: Entry) { e.Range? && e.l <= e.r && e.r > 65536 }

  ghost predicate Fits(es: seq<Entry>) { forall i | 0 <= i < |es| :: !Overruns(es[i]) }

  /** Ascending, with a gap between neighbours, and a single port written as one. */
  ghost predicate Canonical(r: seq<Entry>)
  {
    && (forall i | 0 <= i < |r| :: Lo(r[i]) <= Hi(r[i]) && (r[i].Single? <==> Lo(r[i]) == Hi(r[i])))
    && (forall i, j | 0 <= i < j < |r| :: Hi(r[i]) + 1 < Lo(r[j]))
  }

  ghost predicate InRange(r: seq<Entry>) { forall i | 0 <= i < |r| :: 1 <= Lo(r[i]) && Hi(r[i]) < 65536 }

  /** One entry on the table; a range past its end is an index out of range. */
  method Mark(m: array<bool>, e: Entry) returns (ok: bool)
    requires m.Length == TOP + 1
    modifies m
    ensures ok <==> !Overruns(e)
    ensures ok ==> forall q | 0 <= q < m.Length :: m[q] <==> old(m[q]) || Marks(e, q)
  {
    if e.Single? {
      if e.p < TOP { m[e.p] := true; }
    } else if e.l <= e.r {
      for i := e.l to e.r + 1
        invariant i == e.l || i <= m.Length
        invariant forall q | 0 <= q < m.Length :: m[q] <==> old(m[q]) || e.l <= q < i
      {
        if i >= m.Length { return false; }
        m[i] := true;
      }
    }
    ok := true;
  }

  method Fill(es: seq<Entry>) returns (m: array?<bool>)
    ensures m == null <==> !Fits(es)
    ensures m != null ==> fresh(m) && m.Length == TOP + 1 && forall q | 0 <= q < m.Length :: m[q] <==> Marked(es, q)
  {
    m := new bool[TOP + 1](_ => false);
    for k := 0 to |es|
      invariant m != null && m.Length == TOP + 1 && fresh(m) && Fits(es[..k])
      invariant forall q | 0 <= q < m.Length :: m[q] <==> Marked(es[..k], q)
    {
      var ok := Mark(m, es[k]);
      if !ok { return null; }
      forall q | 0 <= q < m.Length
        ensures Marked(es[..k + 1], q) <==> Marked(es[..k], q) || Marks(es[k], q)
      {
        MarkedSnoc(es, k, q);
      }
    }
    assert es[..|es|] == es;
  }

  lemma {:induction false} MarkedSnoc(es: seq<Entry>, k: nat, q: nat)
    requires k < |es|
    ensures Marked(es[..k + 1], q) <==> Marked(es[..k], q) || Marks(es[k], q)
  {
    if Marked(es[..k], q) {
      var i :| 0 <= i < k && Marks(es[..k][i], q);
      assert Marks(es[..k + 1][i], q);
    }
    if Marks(es[k], q) { assert Marks(es[..k + 1][k], q); }
    if Marked(es[..k + 1], q) {
      var i :| 0 <= i < k + 1 && Marks(es[..k + 1][i], q);
      assert i < k ==> Marks(es[..k][i], q);
    }
  }

  /** The list so far is right for the ports below `done`. */
  ghost predicate Upto(r: seq<Entry>, m: seq<bool>, done: nat)
  {
    && Canonical(r) && done <= |m|
    && (forall i | 0 <= i < |r| :: 1 <= Lo(r[i]) && Hi(r[i]) + 1 < done)
    && (forall p | 1 <= p < done :: Has(r, p) <==> m[p])
  }

  function Written(l: nat, h: nat): Entry { if l == h then Single(l) else Range(l, h) }

  lemma {:induction false} Extend(r: seq<Entry>, m: seq<bool>, l: nat, i: nat)
    requires 1 <= l < i < |m| && Upto(r, m, l) && !m[i] && forall p | l <= p < i :: m[p]
    ensures Upto(r + [Written(l, i - 1)], m, i + 1)
  {
    var e := Written(l, i - 1);
    var s := r + [e];
    forall p | 1 <= p < i + 1
      ensures Has(s, p) <==> m[p]
    {
      HasSnoc(r, e, p);
      if p >= l { assert !Has(r, p); }
    }
  }

  lemma {:induction false} HasSnoc(r: seq<Entry>, e: Entry, p: nat)
    ensures Has(r + [e], p) <==> Has(r, p) || Covers(e, p)
  {
    var s := r + [e];
    if Has(r, p) {
      var i :| 0 <= i < |r| && Covers(r[i], p);
      assert Covers(s[i], p);
    }
    if Covers(e, p) { assert Covers(s[|r|], p); }
    if Has(s, p) {
      var i :| 0 <= i < |s| && Covers(s[i], p);
      assert i < |r| ==> Covers(r[i], p);
    }
  }

  lemma {:induction false} Quiet(r: seq<Entry>, m: seq<bool>, i: nat)
    requires Upto(r, m, i) && 1 <= i < |m| && !m[i]
    ensures Upto(r, m, i + 1)
  {
    assert !Has(r, i);
  }

  /** Where an open run at the end of the table begins, or the end. */
  method Scan(m: array<bool>) returns (r: seq<Entry>, open: nat)
    requires m.Length == TOP + 1
    ensures 1 <= open <= TOP + 1 && Upto(r, m[..], open) && forall p | open <= p <= TOP :: m[p]
    ensures open == 1 || !m[open - 1]
  {
    r := [];
    var l := -1;
    open := 1;
    for i := 1 to TOP + 1
      invariant -1 <= l < i && l != 0 && Upto(r, m[..], if l == -1 then i else l)
      invariant l > 0 ==> (forall p | l <= p < i :: m[p]) && (l == 1 || !m[l - 1])
      invariant l == -1 ==> i == 1 || !m[i - 1]
    {
      if m[i] && l == -1 {
        l := i;
      } else if !m[i] && l > -1 {
        Extend(r, m[..], l, i);
        if i - l == 1 { r := r + [Single(l)]; } else { r := r + [Range(l, i - 1)]; }
        l := -1;
      } else if !m[i] {
        Quiet(r, m[..], i);
      }
    }
    open := if l == -1 then TOP + 1 else l;
  }

  /** From here to the top of the table every port is marked: the run that is never closed. */
  ghost predicate Open(es: seq<Entry>, p: nat) { forall q | p <= q <= TOP :: Marked(es, q) }

  /** Compressed, for one protocol; None where the source fails on a range past its table. */
  method Compress(es: seq<Entry>) returns (c: Option<seq<Entry>>)
    ensures c.None? <==> !Fits(es)
    ensures c.Some? ==> IsCompressed(c.value, es)
  {
    var m := Fill(es);
    if m == null { return None; }
    var r, open := Scan(m);
    c := Some(r);
    forall p | 1 <= p < TOP
      ensures Has(r, p) <==> Marked(es, p) && !Open(es, p)
    {
      assert m[p] <==> Marked(es, p);
      if p < open {
        assert open <= TOP ==> !Open(es, p) by { if open <= TOP && open > 1 { assert !Marked(es, open - 1); } }
      } else {
        assert !Has(r, p);
        assert forall q | p <= q <= TOP :: m[q] && Marked(es, q);
      }
    }
  }

  // --------------------------------------------------------- what compression is

  /** The result of a compression, as Compress promises it. */
  ghost predicate IsCompressed(r: seq<Entry>, es: seq<Entry>)
  {
    Canonical(r) && InRange(r) && forall p | 1 <= p < 65536 :: Has(r, p) <==> Marked(es, p) && !Open(es, p)
  }

  lemma {:induction false} MarkedIsHas(es: seq<Entry>, p: nat)
    requires p < TOP
    ensures Marked(es, p) <==> Has(es, p)
  {
    if Marked(es, p) {
      var i :| 0 <= i < |es| && Marks(es[i], p);
      assert Covers(es[i], p);
    }
    if Has(es, p) {
      var i :| 0 <= i < |es| && Covers(es[i], p);
      assert Marks(es[i], p);
    }
  }

  /** The list holds 65535, and a range of it ends at 65536. */
  ghost predicate RunsOut(es: seq<Entry>)
  {
    Has(es, 65535) && exists e | e in es :: e.Range? && e.l <= 65536 == e.r
  }

  lemma {:induction false} RunsOutIs(es: seq<Entry>)
    requires Fits(es)
    ensures RunsOut(es) <==> Marked(es, 65535) && Marked(es, 65536)
  {
    MarkedIsHas(es, 65535);
    if Marked(es, 65536) {
      var i :| 0 <= i < |es| && Marks(es[i], 65536);
      assert es[i] in es && !Overruns(es[i]);
    }
    if e :| e in es && e.Range? && e.l <= 65536 == e.r {
      var i :| 0 <= i < |es| && es[i] == e;
      assert Marks(es[i], 65536);
    }
  }

  /**
   The ports are the same before and after, if and only if the list does not hold 65535 and a range
   that ends at 65536: such a run is never closed by the scan.
   */
  lemma {:induction false} PreservedIff(es: seq<Entry>, r: seq<Entry>)
    requires Fits(es) && IsCompressed(r, es)
    ensures (forall p | 1 <= p < 65536 :: Has(r, p) <==> Has(es, p)) <==> !RunsOut(es)
  {
    RunsOutIs(es);
    forall p | 1 <= p < TOP
      ensures Marked(es, p) <==> Has(es, p)
    {
      MarkedIsHas(es, p);
    }
    if Marked(es, TOP - 1) && Marked(es, TOP) {
      assert Open(es, TOP - 1);
      assert Has(es, TOP - 1) && !Has(r, TOP - 1);
    }
  }

  function Texts(es: seq<Entry>): seq<string> { seq(|es|, i requires 0 <= i < |es| => Text(es[i])) }

  lemma {:induction false} TextHasIs(es: seq<Entry>, p: nat)
    requires p < MAX_INT
    ensures TextHas(Texts(es), Itoa(p)) <==> Has(es, p)
  {
    ParsesBack(p);
    if Has(es, p) {
      var i :| 0 <= i < |es| && Covers(es[i], p);
      TextCovers(es[i], p);
      assert HasText(Texts(es)[i], Itoa(p));
    }
    if TextHas(Texts(es), Itoa(p)) {
      var i :| 0 <= i < |es| && HasText(Texts(es)[i], Itoa(p));
      TextCovers(es[i], p);
    }
  }

  /** A port's text is found in both lists or in neither. */
  ghost predicate FoundAlike(a: seq<Entry>, b: seq<Entry>, p: nat)
  {
    TextHas(Texts(a), Itoa(p)) <==> TextHas(Texts(b), Itoa(p))
  }

  lemma {:induction false} FoundIs(a: seq<Entry>, b: seq<Entry>, p: nat)
    requires p < MAX_INT
    ensures FoundAlike(a, b, p) <==> (Has(a, p) <==> Has(b, p))
  {
    TextHasIs(a, p);
    TextHasIs(b, p);
  }

  /** The same of the texts: HasPort says the same of the list before and after compressing it. */
  lemma {:induction false} TextsPreservedIff(es: seq<Entry>, r: seq<Entry>)
    requires Fits(es) && IsCompressed(r, es)
    ensures (forall p | 1 <= p < 65536 :: FoundAlike(r, es, p)) <==> !RunsOut(es)
  {
    forall p: nat | p < MAX_INT
      ensures FoundAlike(r, es, p) <==> (Has(r, p) <==> Has(es, p))
    {
      FoundIs(r, es, p);
    }
    PreservedIff(es, r);
  }

  lemma {:induction false} HasTail(a: seq<Entry>, p: nat)
    requires a != [] && Canonical(a)
    ensures Has(a[1..], p) <==> Has(a, p) && p > Hi(a[0])
  {
    if Has(a[1..], p) {
      var i :| 0 <= i < |a| - 1 && Covers(a[1..][i], p);
      assert Covers(a[i + 1], p) && Hi(a[0]) + 1 < Lo(a[i + 1]);
    }
    if Has(a, p) && p > Hi(a[0]) {
      var i :| 0 <= i < |a| && Covers(a[i], p);
      assert Covers(a[1..][i - 1], p);
    }
  }

  lemma {:induction false} AtLeastFirst(a: seq<Entry>, p: nat)
    requires a != [] && Canonical(a) && Has(a, p)
    ensures Lo(a[0]) <= p
  {
    var i :| 0 <= i < |a| && Covers(a[i], p);
    assert i > 0 ==> Hi(a[0]) + 1 < Lo(a[i]);
  }

  lemma {:induction false} AfterFirst(a: seq<Entry>)
    requires a != [] && Canonical(a)
    ensures !Has(a, Hi(a[0]) + 1)
  {
    forall i | 0 <= i < |a|
      ensures !Covers(a[i], Hi(a[0]) + 1)
    {
      assert i > 0 ==> Hi(a[0]) + 1 < Lo(a[i]);
    }
  }

  ghost predicate SamePorts(a: seq<Entry>, b: seq<Entry>) { forall p | 1 <= p < 65536 :: Has(a, p) <==> Has(b, p) }

  lemma {:induction false} FirstPort(a: seq<Entry>)
    requires a != [] && Canonical(a)
    ensures Has(a, Lo(a[0]))
  {
    assert Covers(a[0], Lo(a[0]));
  }

  lemma {:induction false} NoEarlier(a: seq<Entry>, b: seq<Entry>)
    requires a != [] && Canonical(a) && Canonical(b) && InRange(a) && SamePorts(a, b)
    ensures b != [] && Lo(b[0]) <= Lo(a[0])
  {
    FirstPort(a);
    AtLeastFirst(b, Lo(a[0]));
  }

  lemma {:induction false} NoLonger(a: seq<Entry>, b: seq<Entry>)
    requires a != [] && b != [] && Canonical(a) && Canonical(b) && InRange(b) && Lo(a[0]) == Lo(b[0]) && SamePorts(a, b)
    ensures Hi(b[0]) <= Hi(a[0])
  {
    AfterFirst(a);
    var q: nat := Hi(a[0]) + 1;
    assert q <= Hi(b[0]) ==> Covers(b[0], q) && Has(b, q) && Has(a, q);
  }

  lemma {:induction false} TailsSame(a: seq<Entry>, b: seq<Entry>)
    requires a != [] && b != [] && Canonical(a) && Canonical(b) && InRange(a) && InRange(b) && SamePorts(a, b)
        && a[0] == b[0]
    ensures Canonical(a[1..]) && Canonical(b[1..]) && InRange(a[1..]) && InRange(b[1..]) && SamePorts(a[1..], b[1..])
  {
    forall p | 1 <= p < TOP
      ensures Has(a[1..], p) <==> Has(b[1..], p)
    {
      HasTail(a, p);
      HasTail(b, p);
    }
  }

  /** Same ports, same list: the compressed form is the only one of its kind. */
  lemma {:induction false} CanonicalIsUnique(a: seq<Entry>, b: seq<Entry>)
    requires Canonical(a) && Canonical(b) && InRange(a) && InRange(b) && SamePorts(a, b)
    ensures a == b
    decreases |a|
  {
    if a != [] {
      NoEarlier(a, b);
      NoEarlier(b, a);
      NoLonger(a, b);
      NoLonger(b, a);
      TailsSame(a, b);
      CanonicalIsUnique(a[1..], b[1..]);
      assert a == [a[0]] + a[1..] && b == [b[0]] + b[1..];
    } else if b != [] {
      NoEarlier(b, a);
    }
  }

  /** Compressing twice changes nothing. */
  lemma {:induction false} CompressedTwice(es: seq<Entry>, r: seq<Entry>, r': seq<Entry>)
    requires IsCompressed(r, es) && IsCompressed(r', r)
    ensures r' == r
  {
    forall p | 1 <= p < TOP
      ensures Has(r', p) <==> Has(r, p)
    {
      MarkedIsHas(r, p);
      assert !Marked(r, TOP);
    }
    CanonicalIsUnique(r', r);
  }

  // ------------------------------------------------------------------- no shorter

  ghost predicate Takes(es: seq<Entry>, k: nat, p: nat) { k < |es| && Covers(es[k], p) }

  /** Entries that take in the first ports of the first n ranges, all of them different. */
  lemma {:induction false} Owners(r: seq<Entry>, es: seq<Entry>, n: nat) returns (ks: set<nat>)
    requires Canonical(r) && InRange(r) && SamePorts(r, es) && n <= |r|
    ensures |ks| == n && forall k | k in ks :: k < |es| && exists i | 0 <= i < n :: Takes(es, k, Lo(r[i]))
    decreases n
  {
    if n == 0 {
      ks := {};
    } else {
      var ls := Owners(r, es, n - 1);
      assert Covers(r[n - 1], Lo(r[n - 1])) && Has(r, Lo(r[n - 1]));
      var k: nat :| k < |es| && Covers(es[k], Lo(r[n - 1]));
      assert k !in ls by {
        if k in ls {
          var i :| 0 <= i < n - 1 && Takes(es, k, Lo(r[i]));
          NotShared(r, es, i, n - 1, k);
        }
      }
      ks := ls + {k};
      assert Takes(es, k, Lo(r[n - 1]));
    }
  }

  /** One entry cannot reach over the gap between two ranges. */
  lemma {:induction false} NotShared(r: seq<Entry>, es: seq<Entry>, i: nat, j: nat, k: nat)
    requires Canonical(r) && InRange(r) && SamePorts(r, es) && i < j < |r|
    requires Takes(es, k, Lo(r[i]))
    ensures !Takes(es, k, Lo(r[j]))
  {
    var q: nat := Hi(r[i]) + 1;
    assert q < Lo(r[j]);
    assert !Has(r, q) by {
      forall h | 0 <= h < |r|
        ensures !Covers(r[h], q)
      {
        assert h < i ==> Hi(r[h]) + 1 < Lo(r[i]);
        assert h > i ==> Hi(r[i]) + 1 < Lo(r[h]);
      }
    }
    assert !Has(es, q);
    assert !Covers(es[k], q);
  }

  lemma {:induction false} FewerThan(ks: set<nat>, n: nat)
    requires forall k | k in ks :: k < n
    ensures |ks| <= n
    decreases n
  {
    if n > 0 {
      FewerThan(ks - {n - 1}, n - 1);
      assert n - 1 in ks ==> ks == (ks - {n - 1}) + {n - 1};
      assert n - 1 !in ks ==> ks == ks - {n - 1};
    } else {
      assert ks == {};
    }
  }

  /** No list of entries for the same ports is shorter. */
  lemma {:induction false} CanonicalIsShortest(r: seq<Entry>, es: seq<Entry>)
    requires Canonical(r) && InRange(r) && SamePorts(r, es)
    ensures |r| <= |es|
  {
    var ks := Owners(r, es, |r|);
    FewerThan(ks, |es|);
  }
}
