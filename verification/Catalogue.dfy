/** Positions in a list from which some positions are taken out. */
module Ordinals {

  /** `l` without the positions in `dead`. */
  function Kept<T>(l: seq<T>, dead: set<int>): seq<T>
  {
    if l == [] then []
    else
      var n := |l| - 1;
      Kept(l[..n], dead) + if n in dead then [] else [l[n]]
  }

  /** How many positions below `i` survive. */
  function Rank(dead: set<int>, i: nat): nat
  {
    if i == 0 then 0 else Rank(dead, i - 1) + if i - 1 in dead then 0 else 1
  }

  lemma {:induction false} KeptLength<T>(l: seq<T>, dead: set<int>)
    ensures |Kept(l, dead)| == Rank(dead, |l|)
    decreases |l|
  {
    if l != [] { KeptLength(l[..|l| - 1], dead); }
  }

  lemma {:induction false} RankStep(dead: set<int>, i: nat, j: nat)
    requires i < j && i !in dead
    ensures Rank(dead, i) < Rank(dead, j)
    decreases j
  {
    if j > i + 1 { RankStep(dead, i, j - 1); }
  }

  /** Survivors keep their order and stand where the dead below them leave them. */
  lemma {:induction false} KeptAt<T>(l: seq<T>, dead: set<int>, i: nat)
    requires i < |l| && i !in dead
    ensures Rank(dead, i) < |Kept(l, dead)| && Kept(l, dead)[Rank(dead, i)] == l[i]
    decreases |l|
  {
    var n := |l| - 1;
    KeptLength(l[..n], dead);
    if i < n { KeptAt(l[..n], dead, i); }
  }

  /** Every place of the result is some survivor's. */
  lemma {:induction false} KeptFrom<T>(l: seq<T>, dead: set<int>, j: nat) returns (i: nat)
    requires j < |Kept(l, dead)|
    ensures i < |l| && i !in dead && Rank(dead, i) == j
    decreases |l|
  {
    var n := |l| - 1;
    KeptLength(l[..n], dead);
    if j < |Kept(l[..n], dead)| { i := KeptFrom(l[..n], dead, j); } else { i := n; }
  }

  /** The new ordinal is the old one minus the dead ones below it. */
  lemma {:induction false} RankIs(dead: set<int>, i: nat)
    ensures Rank(dead, i) == i - |set d | d in dead && 0 <= d < i|
    decreases i
  {
    var below := set d | d in dead && 0 <= d < i;
    if i == 0 {
      assert below == {};
    } else {
      RankIs(dead, i - 1);
      var before := set d | d in dead && 0 <= d < i - 1;
      assert below == if i - 1 in dead then before + {i - 1} else before;
    }
  }
}

/**
 The catalogue tables: servers and subscriptions addressed by their `sort` column, removal by
 ordinal and renumbering. Rows stand in id order, the order in which SQLite scans them.
 */
module Catalogue {
  import opened Ordinals
  import opened Options

  /** `owner` is the type column with sub_id: None is a row of type 'server'. */
  datatype Row = Row(id: nat, owner: Option<nat>, config: string, sort: int)

  predicate Mine(r: Row, owner: Option<nat>) { r.owner == owner }

  /** The rows of one list, in id order. */
  function ListOf(rows: seq<Row>, owner: Option<nat>): seq<Row>
  {
    if rows == [] then []
    else
      var n := |rows| - 1;
      ListOf(rows[..n], owner) + if Mine(rows[n], owner) then [rows[n]] else []
  }

  /** Ordinals are 0..n-1, and id order and sort order agree. */
  ghost predicate Dense(l: seq<Row>) { forall i | 0 <= i < |l| :: l[i].sort == i }

  ghost predicate Ascending(l: seq<Row>) { forall i, j | 0 <= i < j < |l| :: 0 <= l[i].sort < l[j].sort }

  ghost predicate IdsAscend(rows: seq<Row>, next: nat)
  {
    && (forall i, j | 0 <= i < j < |rows| :: rows[i].id < rows[j].id)
    && (forall i | 0 <= i < |rows| :: rows[i].id < next)
  }

  // -------------------------------------------------------------------- delete

  predicate Doomed(r: Row, owner: Option<nat>, dead: set<int>) { Mine(r, owner) && r.sort in dead }

  function Without(rows: seq<Row>, owner: Option<nat>, dead: set<int>): seq<Row>
  {
    if rows == [] then []
    else
      var n := |rows| - 1;
      Without(rows[..n], owner, dead) + if Doomed(rows[n], owner, dead) then [] else [rows[n]]
  }

  lemma {:induction false} WithoutOther(rows: seq<Row>, owner: Option<nat>, dead: set<int>, other: Option<nat>)
    requires other != owner
    ensures ListOf(Without(rows, owner, dead), other) == ListOf(rows, other)
    decreases |rows|
  {
    if rows != [] {
      var n := |rows| - 1;
      WithoutOther(rows[..n], owner, dead, other);
      var w := Without(rows[..n], owner, dead);
      if Doomed(rows[n], owner, dead) { assert w + [] == w; } else { ListSnoc(w, rows[n], other); }
    }
  }

  lemma {:induction false} ListSnoc(rows: seq<Row>, r: Row, owner: Option<nat>)
    ensures ListOf(rows + [r], owner) == ListOf(rows, owner) + if Mine(r, owner) then [r] else []
  {
    assert (rows + [r])[..|rows|] == rows;
  }

  /** Deleting by ordinal takes exactly those places out of the list. */
  lemma {:induction false} WithoutList(rows: seq<Row>, owner: Option<nat>, dead: set<int>)
    requires Dense(ListOf(rows, owner))
    ensures ListOf(Without(rows, owner, dead), owner) == Kept(ListOf(rows, owner), dead)
    decreases |rows|
  {
    if rows != [] {
      var n := |rows| - 1;
      var l, w := ListOf(rows[..n], owner), Without(rows[..n], owner, dead);
      DensePrefix(rows, owner);
      WithoutList(rows[..n], owner, dead);
      ListSnoc(w, rows[n], owner);
      if Mine(rows[n], owner) {
        KeptSnoc(l, rows[n], dead);
        assert w + [] == w;
      } else {
        assert l + [] == l && Kept(l, dead) + [] == Kept(l, dead);
      }
    }
  }

  lemma {:induction false} DensePrefix(rows: seq<Row>, owner: Option<nat>)
    requires rows != [] && Dense(ListOf(rows, owner))
    ensures var n := |rows| - 1;
            Dense(ListOf(rows[..n], owner)) && (Mine(rows[n], owner) ==> rows[n].sort == |ListOf(rows[..n], owner)|)
  {
    var n := |rows| - 1;
    var l := ListOf(rows[..n], owner);
    assert Mine(rows[n], owner) ==> ListOf(rows, owner)[|l|] == rows[n];
    assert forall i | 0 <= i < |l| :: l[i] == ListOf(rows, owner)[i];
  }

  lemma {:induction false} KeptSnoc(l: seq<Row>, r: Row, dead: set<int>)
    ensures Kept(l + [r], dead) == Kept(l, dead) + if |l| in dead then [] else [r]
  {
    assert (l + [r])[..|l|] == l;
  }

  lemma {:induction false} WithoutTwice(rows: seq<Row>, owner: Option<nat>, a: set<int>, b: set<int>)
    ensures Without(Without(rows, owner, a), owner, b) == Without(rows, owner, a + b)
    decreases |rows|
  {
    if rows != [] {
      var n := |rows| - 1;
      WithoutTwice(rows[..n], owner, a, b);
      var w := Without(rows[..n], owner, a);
      assert w + [] == w && Without(w, owner, b) + [] == Without(w, owner, b);
      if !Doomed(rows[n], owner, a) { assert (w + [rows[n]])[..|w|] == w; }
    }
  }

  lemma WithoutNone(rows: seq<Row>, owner: Option<nat>)
    ensures Without(rows, owner, {}) == rows
  {}

  /** Rows taken from all but the last, and then the last. */
  lemma {:induction false} IdsSnoc(rows: seq<Row>, w: seq<Row>, next: nat)
    requires rows != [] && IdsAscend(rows, next) && IdsAscend(w, next) && forall r | r in w :: r in rows[..|rows| - 1]
    ensures IdsAscend(w + [rows[|rows| - 1]], next)
  {
    var n := |rows| - 1;
    forall i | 0 <= i < |w|
      ensures w[i].id < rows[n].id
    {
      assert w[i] in w;
      var j :| 0 <= j < n && rows[..n][j] == w[i];
      assert rows[j].id < rows[n].id;
    }
  }

  lemma {:induction false} WithoutIds(rows: seq<Row>, owner: Option<nat>, dead: set<int>, next: nat)
    requires IdsAscend(rows, next)
    ensures IdsAscend(Without(rows, owner, dead), next)
    ensures forall r | r in Without(rows, owner, dead) :: r in rows
    decreases |rows|
  {
    if rows != [] {
      var n := |rows| - 1;
      WithoutIds(rows[..n], owner, dead, next);
      IdsSnoc(rows, Without(rows[..n], owner, dead), next);
      assert rows == rows[..n] + [rows[n]];
    }
  }

  // ------------------------------------------------------------------ renumber

  /** SELECT COUNT(*) ... WHERE the row is of the list AND sort < x */
  function CountBelow(rows: seq<Row>, owner: Option<nat>, x: int): nat
  {
    if rows == [] then 0
    else
      var n := |rows| - 1;
      CountBelow(rows[..n], owner, x) + if Mine(rows[n], owner) && rows[n].sort < x then 1 else 0
  }

  /** The table after a renumbering: each row of the list has its place as ordinal. */
  function Renumbered(rows: seq<Row>, owner: Option<nat>): seq<Row>
  {
    if rows == [] then []
    else
      var n := |rows| - 1;
      Renumbered(rows[..n], owner) +
      [if Mine(rows[n], owner) then rows[n].(sort := |ListOf(rows[..n], owner)|) else rows[n]]
  }

  lemma {:induction false} RenumberedLength(rows: seq<Row>, owner: Option<nat>)
    ensures |Renumbered(rows, owner)| == |rows|
    decreases |rows|
  {
    if rows != [] { RenumberedLength(rows[..|rows| - 1], owner); }
  }

  lemma {:induction false} RenumberedPrefix(rows: seq<Row>, owner: Option<nat>, n: nat)
    requires n <= |rows|
    ensures |Renumbered(rows, owner)| == |rows| && Renumbered(rows, owner)[..n] == Renumbered(rows[..n], owner)
    decreases |rows|
  {
    RenumberedLength(rows, owner);
    RenumberedLength(rows[..n], owner);
    if n < |rows| {
      var m := |rows| - 1;
      RenumberedPrefix(rows[..m], owner, n);
      assert rows[..m][..n] == rows[..n];
    } else {
      assert rows[..n] == rows;
    }
  }

  /** The same rows, with their places for sort if the list is the one renumbered. */
  ghost predicate Placed(l: seq<Row>, l': seq<Row>, own: bool)
  {
    |l'| == |l| && forall i | 0 <= i < |l| :: l'[i] == if own then l[i].(sort := i) else l[i]
  }

  lemma {:induction false} PlacedSnoc(l: seq<Row>, l': seq<Row>, own: bool, x: Row)
    requires Placed(l, l', own)
    ensures Placed(l + [x], l' + [if own then x.(sort := |l|) else x], own)
  {}

  lemma {:induction false} RenumberedList(rows: seq<Row>, owner: Option<nat>, other: Option<nat>)
    ensures Placed(ListOf(rows, other), ListOf(Renumbered(rows, owner), other), other == owner)
    decreases |rows|
  {
    if rows != [] {
      var n := |rows| - 1;
      var l, l' := ListOf(rows[..n], other), ListOf(Renumbered(rows[..n], owner), other);
      RenumberedList(rows[..n], owner, other);
      var last := if Mine(rows[n], owner) then rows[n].(sort := |ListOf(rows[..n], owner)|) else rows[n];
      ListSnoc(Renumbered(rows[..n], owner), last, other);
      assert Renumbered(rows, owner) == Renumbered(rows[..n], owner) + [last];
      if Mine(rows[n], other) {
        PlacedSnoc(l, l', other == owner, rows[n]);
      } else {
        assert l + [] == l && l' + [] == l';
      }
    }
  }

  lemma {:induction false} CountAll(rows: seq<Row>, owner: Option<nat>, x: int)
    requires forall i | 0 <= i < |rows| && Mine(rows[i], owner) :: rows[i].sort < x
    ensures CountBelow(rows, owner, x) == |ListOf(rows, owner)|
    decreases |rows|
  {
    if rows != [] { CountAll(rows[..|rows| - 1], owner, x); }
  }

  lemma {:induction false} CountConcat(a: seq<Row>, b: seq<Row>, owner: Option<nat>, x: int)
    ensures CountBelow(a + b, owner, x) == CountBelow(a, owner, x) + CountBelow(b, owner, x)
    decreases |b|
  {
    if b == [] {
      assert a + b == a;
    } else {
      var n := |b| - 1;
      assert (a + b)[..|a| + n] == a + b[..n];
      CountConcat(a, b[..n], owner, x);
    }
  }

  lemma {:induction false} CountNone(rows: seq<Row>, owner: Option<nat>, x: int)
    requires forall i | 0 <= i < |rows| && Mine(rows[i], owner) :: rows[i].sort >= x
    ensures CountBelow(rows, owner, x) == 0
    decreases |rows|
  {
    if rows != [] { CountNone(rows[..|rows| - 1], owner, x); }
  }

  /** The rows of a list stand in the table in sort order. */
  ghost predicate InOrder(rows: seq<Row>, owner: Option<nat>)
  {
    forall i, j | 0 <= i < j < |rows| && Mine(rows[i], owner) && Mine(rows[j], owner) ::
      0 <= rows[i].sort < rows[j].sort
  }

  lemma {:induction false} ListIndex(rows: seq<Row>, owner: Option<nat>, i: nat)
    requires i < |rows| && Mine(rows[i], owner)
    ensures |ListOf(rows[..i], owner)| < |ListOf(rows, owner)|
    ensures ListOf(rows, owner)[|ListOf(rows[..i], owner)|] == rows[i]
    decreases |rows|
  {
    var n := |rows| - 1;
    if i < n {
      ListIndex(rows[..n], owner, i);
      assert rows[..n][..i] == rows[..i];
    }
  }

  lemma {:induction false} ListGrows(rows: seq<Row>, owner: Option<nat>, i: nat, j: nat)
    requires i < j <= |rows| && Mine(rows[i], owner)
    ensures |ListOf(rows[..i], owner)| < |ListOf(rows[..j], owner)|
  {
    assert rows[..j][..i] == rows[..i];
    ListIndex(rows[..j], owner, i);
  }

  lemma {:induction false} AscendingInOrder(rows: seq<Row>, owner: Option<nat>)
    requires Ascending(ListOf(rows, owner))
    ensures InOrder(rows, owner)
  {
    forall i, j | 0 <= i < j < |rows| && Mine(rows[i], owner) && Mine(rows[j], owner)
      ensures 0 <= rows[i].sort < rows[j].sort
    {
      ListIndex(rows, owner, i);
      ListIndex(rows, owner, j);
      ListGrows(rows, owner, i, j);
    }
  }

  /** Among rows in sort order a row's place never exceeds its ordinal. */
  lemma {:induction false} PlaceAtMostSort(rows: seq<Row>, owner: Option<nat>, i: nat)
    requires InOrder(rows, owner) && i < |rows| && Mine(rows[i], owner) && 0 <= rows[i].sort
    ensures |ListOf(rows[..i], owner)| <= rows[i].sort
    decreases i
  {
    var l := ListOf(rows[..i], owner);
    if l != [] {
      var k := LastMine(rows, owner, i);
      PlaceAtMostSort(rows, owner, k);
      assert rows[..k + 1][..k] == rows[..k];
    }
  }

  lemma {:induction false} LastMine(rows: seq<Row>, owner: Option<nat>, i: nat) returns (k: nat)
    requires i <= |rows| && ListOf(rows[..i], owner) != []
    ensures k < i && Mine(rows[k], owner) && |ListOf(rows[..i], owner)| == |ListOf(rows[..k], owner)| + 1
    decreases i
  {
    assert rows[..i][..i - 1] == rows[..i - 1];
    if Mine(rows[i - 1], owner) { k := i - 1; } else { k := LastMine(rows, owner, i - 1); }
  }

  /** The count the UPDATE takes for row `n` when the rows before it are already renumbered. */
  lemma {:induction false} LiveCount(rows: seq<Row>, owner: Option<nat>, n: nat)
    requires InOrder(rows, owner) && n < |rows| && Mine(rows[n], owner) && 0 <= rows[n].sort
    ensures var live := Renumbered(rows[..n], owner) + rows[n..];
            CountBelow(live, owner, rows[n].sort) == |ListOf(rows[..n], owner)|
  {
    var done, x := Renumbered(rows[..n], owner), rows[n].sort;
    RenumberedLength(rows[..n], owner);
    forall i | 0 <= i < |done| && Mine(done[i], owner)
      ensures done[i].sort < x
    {
      RenumberedPrefix(rows[..n], owner, i + 1);
      assert rows[..n][..i + 1] == rows[..i + 1] && rows[..i + 1][..i] == rows[..i];
      assert Renumbered(rows[..i + 1], owner)[i] == done[i];
      PlaceAtMostSort(rows, owner, i);
    }
    CountAll(done, owner, x);
    RenumberedList(rows[..n], owner, owner);
    CountNone(rows[n..], owner, x);
    CountConcat(done, rows[n..], owner, x);
  }

  /** A snapshot of the whole table would give every row the same count. */
  lemma {:induction false} SnapshotCount(rows: seq<Row>, owner: Option<nat>, n: nat)
    requires InOrder(rows, owner) && n < |rows| && Mine(rows[n], owner)
    ensures CountBelow(rows, owner, rows[n].sort) == |ListOf(rows[..n], owner)|
  {
    CountAll(rows[..n], owner, rows[n].sort);
    CountNone(rows[n..], owner, rows[n].sort);
    CountConcat(rows[..n], rows[n..], owner, rows[n].sort);
    assert rows == rows[..n] + rows[n..];
  }

  // -------------------------------------------------------------------- append

  /** COALESCE(MAX(sort), -1) */
  function MaxSort(rows: seq<Row>, owner: Option<nat>): int
  {
    if rows == [] then -1
    else
      var n := |rows| - 1;
      var m := MaxSort(rows[..n], owner);
      if Mine(rows[n], owner) && rows[n].sort > m then rows[n].sort else m
  }

  lemma {:induction false} MaxSortIs(rows: seq<Row>, owner: Option<nat>)
    requires Dense(ListOf(rows, owner))
    ensures MaxSort(rows, owner) == |ListOf(rows, owner)| - 1
    decreases |rows|
  {
    if rows != [] {
      var n := |rows| - 1;
      var l := ListOf(rows[..n], owner);
      assert forall i | 0 <= i < |l| :: l[i] == ListOf(rows, owner)[i];
      if Mine(rows[n], owner) { assert ListOf(rows, owner)[|l|] == rows[n]; }
      MaxSortIs(rows[..n], owner);
    }
  }
}
