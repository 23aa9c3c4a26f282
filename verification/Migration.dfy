/**
 The move from bolt.db to v2raya.db as a protocol over files: each step may succeed, fail, or be
 the last one before a crash, and every launch starts over with only the files left.
 What an import yields and whether it verifies are parameters here.
 */
module Migration {
  import opened Options

  /** `Backup(0)` is bolt.db.bak and `Backup(k)` is bolt.db.bak.k. */
  datatype Name =
    | BoltDb
    | Backup(n: nat)
    | Sqlite
    | SqliteWal
    | SqliteShm
    | Temp(n: nat)
    | TempWal(n: nat)
    | TempShm(n: nat)

  /** `Scrap` is anything unfinished or unreadable. */
  datatype File<B, T> = BoltFile(bolt: B) | SqliteFile(tables: T) | Scrap

  type Files<B, T> = map<Name, File<B, T>>

  /** The import of one Bolt database: its tables, or None if a bucket cannot be read; and whether they verify. */
  datatype Import<T> = Import(tables: Option<T>, verified: bool)
  {
    predicate Passes() { tables.Some? && verified }
  }

  datatype Pc =
    | Start
    | Inspect
    | Discard(k: nat)
    | CreateTemp
    | Build
    | Verify
    | Close
    | Publish
    | Aside(k: nat, published: bool)
    | Rollback
    | Cleanup(k: nat, ok: bool)
    | Done(ok: bool)

  /** `temp` is the temporary name of this attempt; `stale` records what it found at its start. */
  datatype State<B, T> = State(fs: Files<B, T>, pc: Pc, temp: nat, stale: bool)

  /** `Use` is the service working on its database after a migration that returned no error. */
  datatype Action<T> = Go | Fault | Crash | Use(tables: T)

  function Sidecar(k: nat): Name { if k == 0 then Sqlite else if k == 1 then SqliteWal else SqliteShm }

  function TempFile(k: nat, n: nat): Name { if k == 0 then Temp(n) else if k == 1 then TempShm(n) else TempWal(n) }

  function Rename<B, T>(fs: Files<B, T>, a: Name, b: Name): Files<B, T>
    requires a in fs && a != b
  {
    fs[b := fs[a]] - {a}
  }

  /** `holds` is sqliteHoldsData on a readable database. */
  predicate Holds<B(!new), T(!new)>(f: File<B, T>, holds: T -> bool) { f.SqliteFile? && holds(f.tables) }

  /** One successful step. `drawn` is the name os.CreateTemp comes up with. */
  function Forward<B(!new), T(!new)>(s: State<B, T>, imp: Import<T>, holds: T -> bool, drawn: nat): State<B, T>
  {
    var fs := s.fs;
    match s.pc
    case Start =>
      if BoltDb !in fs then s.(pc := Done(true))
      else if Sqlite in fs then s.(pc := Inspect, stale := false)
      else s.(pc := CreateTemp, stale := SqliteWal in fs)
    case Inspect =>
      if Sqlite in fs && Holds(fs[Sqlite], holds) then s.(pc := Aside(0, false)) else s.(pc := Discard(0))
    case Discard(k) => s.(fs := fs - {Sidecar(k)}, pc := if k < 2 then Discard(k + 1) else CreateTemp)
    case CreateTemp => s.(fs := fs[Temp(drawn) := Scrap], temp := drawn, pc := Build)
    case Build =>
      if imp.tables.Some? then
        s.(fs := fs[Temp(s.temp) := SqliteFile(imp.tables.value)][TempWal(s.temp) := Scrap][TempShm(s.temp) := Scrap],
           pc := Verify)
      else s.(pc := Cleanup(0, false))
    case Verify => s.(pc := if imp.verified then Close else Cleanup(0, false))
    case Close => s.(fs := fs - {TempWal(s.temp), TempShm(s.temp)}, pc := Publish)
    case Publish =>
      if Temp(s.temp) in fs then s.(fs := Rename(fs, Temp(s.temp), Sqlite), pc := Aside(0, true))
      else s.(pc := Cleanup(0, false))
    case Aside(k, published) =>
      if Backup(k) in fs then s.(pc := Aside(k + 1, published))
      else if BoltDb in fs then
        s.(fs := Rename(fs, BoltDb, Backup(k)), pc := if published then Cleanup(0, true) else Done(true))
      else s.(pc := if published then Rollback else Done(false))
    case Rollback =>
      s.(fs := if Sqlite in fs then Rename(fs, Sqlite, Temp(s.temp)) else fs, pc := Cleanup(0, false))
    case Cleanup(k, ok) =>
      s.(fs := fs - {TempFile(k, s.temp)}, pc := if k < 2 then Cleanup(k + 1, ok) else Done(ok))
    case Done(_) => s.(pc := Start)
  }

  /** One step that fails: it leaves the files as they are. */
  function Failing<B, T>(s: State<B, T>): State<B, T>
  {
    match s.pc
    case Start => s.(pc := Done(false))
    case Inspect => s.(pc := Discard(0))
    case Discard(_) => s.(pc := Done(false))
    case CreateTemp => s.(pc := Done(false))
    case Aside(_, published) => s.(pc := if published then Rollback else Done(false))
    case Cleanup(k, ok) => s.(pc := if k < 2 then Cleanup(k + 1, ok) else Done(ok))
    case Done(_) => s.(pc := Start)
    case _ => s.(pc := Cleanup(0, false))
  }

  function Next<B(!new), T(!new)>(s: State<B, T>, a: Action<T>, imp: Import<T>, holds: T -> bool,
                                  drawn: nat): State<B, T>
  {
    match a
    case Go => Forward(s, imp, holds, drawn)
    case Fault => Failing(s)
    case Crash => s.(pc := Start)
    case Use(t) => if s.pc == Done(true) && Sqlite in s.fs then s.(fs := s.fs[Sqlite := SqliteFile(t)]) else s
  }

  /** A step with the name it would draw for a temporary file. */
  datatype Move<T> = Move(action: Action<T>, drawn: nat)

  /** os.CreateTemp never returns a name in use. */
  ghost predicate Sound<B, T>(s: State<B, T>, m: Move<T>)
  {
    s.pc == CreateTemp ==> Temp(m.drawn) !in s.fs
  }

  ghost predicate Runs<B(!new), T(!new)>(s: State<B, T>, ms: seq<Move<T>>, imp: Import<T>, holds: T -> bool)
  {
    ms == [] || (Runs(s, ms[..|ms| - 1], imp, holds) && Sound(After(s, ms[..|ms| - 1], imp, holds), ms[|ms| - 1]))
  }

  function After<B(!new), T(!new)>(s: State<B, T>, ms: seq<Move<T>>, imp: Import<T>, holds: T -> bool): State<B, T>
  {
    if ms == [] then s
    else Next(After(s, ms[..|ms| - 1], imp, holds), ms[|ms| - 1].action, imp, holds, ms[|ms| - 1].drawn)
  }

  // ------------------------------------------------------------------- safety

  /** A backup holds the Bolt database that was not there at first. */
  ghost predicate SavedIn<B, T>(fs: Files<B, T>, fs0: Files<B, T>, b: B, k: nat)
  {
    Backup(k) !in fs0 && Backup(k) in fs && fs[Backup(k)] == BoltFile(b)
  }

  ghost predicate Intact<B, T>(fs: Files<B, T>, fs0: Files<B, T>, b: B)
  {
    (BoltDb in fs && fs[BoltDb] == BoltFile(b)) || (BoltDb !in fs && exists k :: SavedIn(fs, fs0, b, k))
  }

  ghost predicate BackupsKept<B, T>(fs: Files<B, T>, fs0: Files<B, T>)
  {
    forall k :: Backup(k) in fs0 ==> Backup(k) in fs && fs[Backup(k)] == fs0[Backup(k)]
  }

  /** What stands in the temporary file from `Verify` on is the whole import, verified from `Close` on. */
  ghost predicate TempFits<B(!new), T(!new)>(s: State<B, T>, imp: Import<T>)
  {
    && (s.pc.Verify? || s.pc.Close? || s.pc.Publish? ==>
          imp.tables.Some? && Temp(s.temp) in s.fs && s.fs[Temp(s.temp)] == SqliteFile(imp.tables.value))
    && (s.pc.Close? || s.pc.Publish? ==> imp.Passes())
  }

  /** Until the Bolt file is moved aside, v2raya.db is the one found at first or a verified import. */
  ghost predicate SqliteFits<B(!new), T(!new)>(fs: Files<B, T>, fs0: Files<B, T>, imp: Import<T>)
  {
    BoltDb in fs && Sqlite in fs ==>
      || (Sqlite in fs0 && fs[Sqlite] == fs0[Sqlite])
      || (imp.Passes() && fs[Sqlite] == SqliteFile(imp.tables.value))
  }

  predicate Importing(pc: Pc) { pc.CreateTemp? || pc.Build? || pc.Verify? || pc.Close? || pc.Publish? }

  /** Where in an attempt the Bolt file is still in place, and v2raya.db is or is not there. */
  ghost predicate Placed<B, T>(s: State<B, T>)
  {
    && (s.pc.Start? || s.pc.Cleanup? || s.pc.Done? || BoltDb in s.fs)
    && ((s.pc.Cleanup? || s.pc.Done?) && s.pc.ok ==> BoltDb !in s.fs)
    && (Importing(s.pc) || (s.pc.Discard? && s.pc.k > 0) ==> Sqlite !in s.fs)
    && ((s.pc.Aside? && s.pc.published) || s.pc.Rollback? ==> Sqlite in s.fs)
    && (s.pc.Discard? ==> s.pc.k <= 2) && (s.pc.Cleanup? ==> s.pc.k <= 2)
  }

  /** The -wal beside a missing v2raya.db is the one found at the start of the attempt. */
  ghost predicate WalTracked<B, T>(s: State<B, T>)
  {
    && (s.pc.Inspect? || s.pc.Discard? ==> !s.stale)
    && (s.pc.Discard? && s.pc.k == 2 ==> SqliteWal !in s.fs)
    && (Importing(s.pc) || (s.pc.Aside? && s.pc.published) ==> (SqliteWal in s.fs <==> s.stale))
  }

  ghost predicate Safe<B(!new), T(!new)>(s: State<B, T>, fs0: Files<B, T>, b: B, imp: Import<T>)
  {
    && Intact(s.fs, fs0, b) && BackupsKept(s.fs, fs0) && TempFits(s, imp) && SqliteFits(s.fs, fs0, imp)
    && Placed(s) && WalTracked(s)
  }

  ghost predicate Initial<B(!new), T(!new)>(s: State<B, T>, b: B)
  {
    s.pc == Start && BoltDb in s.fs && s.fs[BoltDb] == BoltFile(b)
  }

  lemma {:induction false} SafeForward<B(!new), T(!new)>(s: State<B, T>, fs0: Files<B, T>, b: B, imp: Import<T>,
                                                         holds: T -> bool, drawn: nat)
    requires Safe(s, fs0, b, imp) && (s.pc == CreateTemp ==> Temp(drawn) !in s.fs)
    ensures Safe(Forward(s, imp, holds, drawn), fs0, b, imp)
  {
    IntactForward(s, fs0, b, imp, holds, drawn);
    BackupsForward(s, fs0, b, imp, holds, drawn);
    FilesForward(s, fs0, b, imp, holds, drawn);
    PlacesForward(s, fs0, b, imp, holds, drawn);
  }

  lemma {:induction false} FilesForward<B(!new), T(!new)>(s: State<B, T>, fs0: Files<B, T>, b: B, imp: Import<T>,
                                                          holds: T -> bool, drawn: nat)
    requires Safe(s, fs0, b, imp)
    ensures var t := Forward(s, imp, holds, drawn); TempFits(t, imp) && SqliteFits(t.fs, fs0, imp)
  {}

  lemma {:induction false} PlacesForward<B(!new), T(!new)>(s: State<B, T>, fs0: Files<B, T>, b: B, imp: Import<T>,
                                                           holds: T -> bool, drawn: nat)
    requires Safe(s, fs0, b, imp)
    ensures var t := Forward(s, imp, holds, drawn); Placed(t) && WalTracked(t)
  {}

  lemma {:induction false} IntactForward<B(!new), T(!new)>(s: State<B, T>, fs0: Files<B, T>, b: B, imp: Import<T>,
                                                           holds: T -> bool, drawn: nat)
    requires Safe(s, fs0, b, imp)
    ensures Intact(Forward(s, imp, holds, drawn).fs, fs0, b)
  {
    var t := Forward(s, imp, holds, drawn);
    if s.pc.Aside? && Backup(s.pc.k) !in s.fs {
      assert Backup(s.pc.k) !in fs0;
      assert SavedIn(t.fs, fs0, b, s.pc.k);
    } else if BoltDb !in s.fs {
      var k :| SavedIn(s.fs, fs0, b, k);
      assert SavedIn(t.fs, fs0, b, k);
    }
  }

  lemma {:induction false} BackupsForward<B(!new), T(!new)>(s: State<B, T>, fs0: Files<B, T>, b: B, imp: Import<T>,
                                                            holds: T -> bool, drawn: nat)
    requires Safe(s, fs0, b, imp)
    ensures BackupsKept(Forward(s, imp, holds, drawn).fs, fs0)
  {}

  lemma {:induction false} SafeStep<B(!new), T(!new)>(s: State<B, T>, m: Move<T>, fs0: Files<B, T>, b: B,
                                                      imp: Import<T>, holds: T -> bool)
    requires Safe(s, fs0, b, imp) && Sound(s, m)
    ensures Safe(Next(s, m.action, imp, holds, m.drawn), fs0, b, imp)
  {
    if m.action.Go? {
      SafeForward(s, fs0, b, imp, holds, m.drawn);
    } else {
      SafeStop(s, m.action, fs0, b, imp, holds, m.drawn);
    }
  }

  lemma {:induction false} SafeStop<B(!new), T(!new)>(s: State<B, T>, a: Action<T>, fs0: Files<B, T>, b: B,
                                                      imp: Import<T>,
                                                      holds: T -> bool, drawn: nat)
    requires Safe(s, fs0, b, imp) && !a.Go?
    ensures Safe(Next(s, a, imp, holds, drawn), fs0, b, imp)
  {
    IntactStop(s, a, fs0, b, imp, holds, drawn);
    PlacesStop(s, a, fs0, b, imp, holds, drawn);
  }

  lemma {:induction false} IntactStop<B(!new), T(!new)>(s: State<B, T>, a: Action<T>, fs0: Files<B, T>, b: B,
                                                        imp: Import<T>,
                                                        holds: T -> bool, drawn: nat)
    requires Safe(s, fs0, b, imp) && !a.Go?
    ensures var t := Next(s, a, imp, holds, drawn); Intact(t.fs, fs0, b) && BackupsKept(t.fs, fs0)
  {
    var t := Next(s, a, imp, holds, drawn);
    if BoltDb !in s.fs {
      var k :| SavedIn(s.fs, fs0, b, k);
      assert SavedIn(t.fs, fs0, b, k);
    }
  }

  lemma {:induction false} PlacesStop<B(!new), T(!new)>(s: State<B, T>, a: Action<T>, fs0: Files<B, T>, b: B,
                                                        imp: Import<T>,
                                                        holds: T -> bool, drawn: nat)
    requires Safe(s, fs0, b, imp) && !a.Go?
    ensures var t := Next(s, a, imp, holds, drawn);
            Placed(t) && WalTracked(t) && TempFits(t, imp) && SqliteFits(t.fs, fs0, imp)
  {}

  /** Whatever fails and wherever it crashes, the Bolt database and every older backup stay intact. */
  lemma {:induction false} RunsAreSafe<B(!new), T(!new)>(s: State<B, T>, ms: seq<Move<T>>, b: B, imp: Import<T>,
                                                         holds: T -> bool)
    requires Initial(s, b) && Runs(s, ms, imp, holds)
    ensures Safe(After(s, ms, imp, holds), s.fs, b, imp)
    decreases |ms|
  {
    if ms != [] {
      var front := ms[..|ms| - 1];
      RunsAreSafe(s, front, b, imp, holds);
      SafeStep(After(s, front, imp, holds), ms[|ms| - 1], s.fs, b, imp, holds);
    }
  }

  /** A step puts a new v2raya.db in place only as the whole verified import (or as the service at work). */
  lemma {:induction false} PublishesVerified<B(!new), T(!new)>(s: State<B, T>, m: Move<T>, fs0: Files<B, T>, b: B,
                                                               imp: Import<T>, holds: T -> bool)
    requires Safe(s, fs0, b, imp) && Sound(s, m)
    ensures var t := Next(s, m.action, imp, holds, m.drawn);
            Sqlite in t.fs && (Sqlite !in s.fs || t.fs[Sqlite] != s.fs[Sqlite]) && !m.action.Use? ==>
              imp.Passes() && t.fs[Sqlite] == SqliteFile(imp.tables.value) && BoltDb in t.fs
  {}

  // ------------------------------------------------------------- data in v2raya.db

  /** No inspection of v2raya.db failed during the run. */
  ghost predicate Inspected<B(!new), T(!new)>(s: State<B, T>, ms: seq<Move<T>>, imp: Import<T>, holds: T -> bool)
  {
    ms == [] ||
    (Inspected(s, ms[..|ms| - 1], imp, holds)
     && (After(s, ms[..|ms| - 1], imp, holds).pc == Inspect ==> !ms[|ms| - 1].action.Fault?))
  }

  ghost predicate Doubtful<B(!new), T(!new)>(s: State<B, T>, holds: T -> bool)
  {
    s.pc == Discard(0) ==> Sqlite in s.fs && !Holds(s.fs[Sqlite], holds)
  }

  lemma {:induction false} DoubtfulRuns<B(!new), T(!new)>(s: State<B, T>, ms: seq<Move<T>>, imp: Import<T>,
                                                          holds: T -> bool)
    requires s.pc == Start && Inspected(s, ms, imp, holds)
    ensures var t := After(s, ms, imp, holds); Doubtful(t, holds) && (t.pc == Inspect ==> Sqlite in t.fs)
    decreases |ms|
  {
    if ms != [] { DoubtfulRuns(s, ms[..|ms| - 1], imp, holds); }
  }

  /** A database that holds data is only ever taken away again by the rollback of its own publication. */
  lemma {:induction false} DataKept<B(!new), T(!new)>(s: State<B, T>, ms: seq<Move<T>>, m: Move<T>, b: B,
                                                      imp: Import<T>, holds: T -> bool)
    requires Initial(s, b) && Runs(s, ms + [m], imp, holds) && Inspected(s, ms + [m], imp, holds)
    requires var u := After(s, ms, imp, holds); Sqlite in u.fs && Holds(u.fs[Sqlite], holds)
    ensures var u, t := After(s, ms, imp, holds), After(s, ms + [m], imp, holds);
            || (Sqlite in t.fs && (t.fs[Sqlite] == u.fs[Sqlite] || m.action.Use?))
            || (u.pc == Rollback && BoltDb in t.fs && t.fs[BoltDb] == BoltFile(b))
  {
    assert (ms + [m])[..|ms|] == ms;
    DoubtfulRuns(s, ms, imp, holds);
    RunsAreSafe(s, ms, b, imp, holds);
    RunsAreSafe(s, ms + [m], b, imp, holds);
  }

  /** An inspection that fails counts as finding no data: what the database held is discarded. */
  lemma {:induction false} FailedInspectionDiscards<B(!new), T(!new)>(s: State<B, T>, b: B, t: T, imp: Import<T>,
                                                                      holds: T -> bool)
    requires Initial(s, b) && Sqlite in s.fs && s.fs[Sqlite] == SqliteFile(t) && holds(t)
    ensures Sqlite !in After(s, [Move(Go, 0), Move(Fault, 0), Move(Go, 0)], imp, holds).fs
  {
    var ms := [Move(Go, 0), Move(Fault, 0), Move(Go, 0)];
    assert ms[..2] == [Move(Go, 0), Move(Fault, 0)] && ms[..2][..1] == [Move(Go, 0)] && ms[..2][..1][..0] == [];
    assert After(s, ms[..2][..1], imp, holds).pc == Inspect;
  }

  // ----------------------------------------------------------------- completion

  function Taken<B(!new), T(!new)>(fs: Files<B, T>, k: nat): set<Name> { set x | x in fs && x.Backup? && x.n >= k }

  /** The first free backup name from the k-th on. */
  function LeastFree<B(!new), T(!new)>(fs: Files<B, T>, k: nat): (r: nat)
    ensures r >= k && Backup(r) !in fs && forall i | k <= i < r :: Backup(i) in fs
    decreases Taken(fs, k)
  {
    if Backup(k) in fs then
      assert Backup(k) in Taken(fs, k) && Backup(k) !in Taken(fs, k + 1);
      LeastFree(fs, k + 1)
    else k
  }

  /** moveBoltAside: the search ends, at the first free name, and nothing is overwritten. */
  method MoveBoltAside<B(!new), T(!new)>(fs: Files<B, T>) returns (fs': Files<B, T>, backup: nat)
    requires BoltDb in fs
    ensures Backup(backup) !in fs && forall i | 0 <= i < backup :: Backup(i) in fs
    ensures fs' == fs[Backup(backup) := fs[BoltDb]] - {BoltDb}
  {
    backup := 0;
    while Backup(backup) in fs
      invariant forall i | 0 <= i < backup :: Backup(i) in fs
      decreases Taken(fs, backup)
    {
      assert Backup(backup) in Taken(fs, backup) && Backup(backup) !in Taken(fs, backup + 1);
      backup := backup + 1;
    }
    fs' := Rename(fs, BoltDb, Backup(backup));
  }

  function Iter<B(!new), T(!new)>(s: State<B, T>, j: nat, imp: Import<T>, holds: T -> bool, drawn: nat): State<B, T>
    decreases j
  {
    if j == 0 then s else Iter(Forward(s, imp, holds, drawn), j - 1, imp, holds, drawn)
  }

  lemma {:induction false} IterSum<B(!new), T(!new)>(s: State<B, T>, i: nat, j: nat, imp: Import<T>, holds: T -> bool,
                                                     drawn: nat)
    ensures Iter(s, i + j, imp, holds, drawn) == Iter(Iter(s, i, imp, holds, drawn), j, imp, holds, drawn)
    decreases i
  {
    if i > 0 { IterSum(Forward(s, imp, holds, drawn), i - 1, j, imp, holds, drawn); }
  }

  lemma {:induction false} Searches<B(!new), T(!new)>(s: State<B, T>, imp: Import<T>, holds: T -> bool, drawn: nat)
    returns (j: nat)
    requires s.pc.Aside? && BoltDb in s.fs
    ensures Iter(s, j, imp, holds, drawn) ==
            s.(fs := Rename(s.fs, BoltDb, Backup(LeastFree(s.fs, s.pc.k))),
               pc := if s.pc.published then Cleanup(0, true) else Done(true))
    decreases Taken(s.fs, s.pc.k)
  {
    var k := s.pc.k;
    if Backup(k) in s.fs {
      assert Backup(k) in Taken(s.fs, k) && Backup(k) !in Taken(s.fs, k + 1);
      var i := Searches(s.(pc := Aside(k + 1, s.pc.published)), imp, holds, drawn);
      j := i + 1;
    } else {
      j := 1;
      assert Iter(s, 1, imp, holds, drawn) == Iter(Forward(s, imp, holds, drawn), 0, imp, holds, drawn);
    }
  }

  /** The files without a database that holds nothing. */
  function Cleared<B(!new), T(!new)>(fs: Files<B, T>): Files<B, T>
  {
    if Sqlite in fs then fs - {Sqlite, SqliteWal, SqliteShm} else fs
  }

  function WithoutTemp<B(!new), T(!new)>(fs: Files<B, T>, n: nat): Files<B, T>
  {
    fs - {Temp(n), TempShm(n), TempWal(n)}
  }

  /** The files after an attempt that meets no fault. */
  function Outcome<B(!new), T(!new)>(fs: Files<B, T>, imp: Import<T>, holds: T -> bool, drawn: nat): Files<B, T>
    requires BoltDb in fs
  {
    var aside := LeastFree(fs, 0);
    if Sqlite in fs && Holds(fs[Sqlite], holds) then Rename(fs, BoltDb, Backup(aside))
    else if imp.Passes() then
      WithoutTemp(Rename(Cleared(fs)[Sqlite := SqliteFile(imp.tables.value)], BoltDb, Backup(aside)), drawn)
    else WithoutTemp(Cleared(fs), drawn)
  }

  lemma {:induction false} ToTemp<B(!new), T(!new)>(s: State<B, T>, imp: Import<T>, holds: T -> bool, drawn: nat)
    returns (j: nat)
    requires s.pc == Start && BoltDb in s.fs && !(Sqlite in s.fs && Holds(s.fs[Sqlite], holds))
    ensures var t := Iter(s, j, imp, holds, drawn); t.pc == CreateTemp && t.fs == Cleared(s.fs)
  {
    if Sqlite in s.fs {
      j := 5;
      var a := Forward(Forward(s, imp, holds, drawn), imp, holds, drawn);
      assert a.pc == Discard(0);
      var c := Forward(Forward(Forward(a, imp, holds, drawn), imp, holds, drawn), imp, holds, drawn);
      assert c.fs == Cleared(s.fs) && c.pc == CreateTemp;
      assert Iter(a, 3, imp, holds, drawn) == c by { Three(a, imp, holds, drawn); }
      Two(s, imp, holds, drawn);
      IterSum(s, 2, 3, imp, holds, drawn);
    } else {
      j := 1;
      assert Iter(Forward(s, imp, holds, drawn), 0, imp, holds, drawn) == Forward(s, imp, holds, drawn);
    }
  }

  lemma {:induction false} Two<B(!new), T(!new)>(s: State<B, T>, imp: Import<T>, holds: T -> bool, drawn: nat)
    ensures Iter(s, 2, imp, holds, drawn) == Forward(Forward(s, imp, holds, drawn), imp, holds, drawn)
  {
    var a := Forward(s, imp, holds, drawn);
    assert Iter(s, 2, imp, holds, drawn) == Iter(a, 1, imp, holds, drawn);
    assert Iter(a, 1, imp, holds, drawn) == Iter(Forward(a, imp, holds, drawn), 0, imp, holds, drawn);
  }

  lemma {:induction false} Three<B(!new), T(!new)>(s: State<B, T>, imp: Import<T>, holds: T -> bool, drawn: nat)
    ensures Iter(s, 3, imp, holds, drawn) ==
            Forward(Forward(Forward(s, imp, holds, drawn), imp, holds, drawn), imp, holds, drawn)
  {
    Two(Forward(s, imp, holds, drawn), imp, holds, drawn);
  }

  /** The three deferred removals. */
  lemma {:induction false} Sweeps<B(!new), T(!new)>(s: State<B, T>, imp: Import<T>, holds: T -> bool, drawn: nat)
    requires s.pc.Cleanup? && s.pc.k == 0
    ensures var t := Iter(s, 3, imp, holds, drawn); t.pc == Done(s.pc.ok) && t.fs == WithoutTemp(s.fs, s.temp)
  {
    Three(s, imp, holds, drawn);
  }

  /** From the temporary file to the end of the attempt, when the import fails or does not verify. */
  lemma {:induction false} Refuses<B(!new), T(!new)>(s: State<B, T>, imp: Import<T>, holds: T -> bool, drawn: nat)
    returns (j: nat)
    requires s.pc == CreateTemp && !imp.Passes()
    ensures var t := Iter(s, j, imp, holds, drawn); t.pc == Done(false) && t.fs == WithoutTemp(s.fs, drawn)
  {
    Two(s, imp, holds, drawn);
    var v := Iter(s, 2, imp, holds, drawn);
    if imp.tables.None? {
      Sweeps(v, imp, holds, drawn);
      IterSum(s, 2, 3, imp, holds, drawn);
      j := 5;
    } else {
      var w := Forward(v, imp, holds, drawn);
      Sweeps(w, imp, holds, drawn);
      assert Iter(v, 4, imp, holds, drawn) == Iter(w, 3, imp, holds, drawn);
      IterSum(s, 2, 4, imp, holds, drawn);
      j := 6;
    }
  }

  lemma {:induction false} Built<B(!new), T(!new)>(s: State<B, T>, imp: Import<T>, holds: T -> bool, drawn: nat)
    requires s.pc == CreateTemp && Sqlite !in s.fs && imp.Passes()
    ensures var p := Iter(s, 5, imp, holds, drawn);
            && p.pc == Aside(0, true) && p.temp == drawn
            && WithoutTemp(p.fs, drawn) == WithoutTemp(s.fs[Sqlite := SqliteFile(imp.tables.value)], drawn)
  {
    Two(s, imp, holds, drawn);
    var v := Iter(s, 2, imp, holds, drawn);
    Three(v, imp, holds, drawn);
    IterSum(s, 2, 3, imp, holds, drawn);
  }

  lemma {:induction false} Imports<B(!new), T(!new)>(s: State<B, T>, imp: Import<T>, holds: T -> bool, drawn: nat)
    returns (j: nat)
    requires s.pc == CreateTemp && BoltDb in s.fs && Sqlite !in s.fs && imp.Passes()
    ensures var t := Iter(s, j, imp, holds, drawn);
            && t.pc == Done(true)
            && t.fs == WithoutTemp(Rename(s.fs[Sqlite := SqliteFile(imp.tables.value)], BoltDb,
                                          Backup(LeastFree(s.fs, 0))), drawn)
  {
    Built(s, imp, holds, drawn);
    var p := Iter(s, 5, imp, holds, drawn);
    var q := s.fs[Sqlite := SqliteFile(imp.tables.value)];
    SameOutside(p.fs, q, drawn);
    SameBackups(p.fs, s.fs, 0);
    var i := Retires(p, imp, holds, drawn);
    IterSum(s, 5, i, imp, holds, drawn);
    j := i + 5;
    Swept(p.fs, q, LeastFree(s.fs, 0), drawn);
  }

  /** From the publication on: bolt.db goes to the first free name, and the temporary files go. */
  lemma {:induction false} Retires<B(!new), T(!new)>(p: State<B, T>, imp: Import<T>, holds: T -> bool, drawn: nat)
    returns (j: nat)
    requires p.pc == Aside(0, true) && p.temp == drawn && BoltDb in p.fs
    ensures var t := Iter(p, j, imp, holds, drawn);
            t.pc == Done(true) && t.fs == WithoutTemp(Rename(p.fs, BoltDb, Backup(LeastFree(p.fs, 0))), drawn)
  {
    var i := Searches(p, imp, holds, drawn);
    Sweeps(Iter(p, i, imp, holds, drawn), imp, holds, drawn);
    IterSum(p, i, 3, imp, holds, drawn);
    j := i + 3;
  }

  lemma {:induction false} SameOutside<B(!new), T(!new)>(p: Files<B, T>, q: Files<B, T>, n: nat)
    requires WithoutTemp(p, n) == WithoutTemp(q, n)
    ensures BoltDb in p <==> BoltDb in q
    ensures forall i :: Backup(i) in p <==> Backup(i) in q
  {
    assert BoltDb in p <==> BoltDb in WithoutTemp(p, n);
    assert BoltDb in q <==> BoltDb in WithoutTemp(q, n);
    forall i
      ensures Backup(i) in p <==> Backup(i) in q
    {
      assert Backup(i) in p <==> Backup(i) in WithoutTemp(p, n);
      assert Backup(i) in q <==> Backup(i) in WithoutTemp(q, n);
    }
  }

  lemma {:induction false} Swept<B(!new), T(!new)>(p: Files<B, T>, q: Files<B, T>, k: nat, n: nat)
    requires BoltDb in p && BoltDb in q && WithoutTemp(p, n) == WithoutTemp(q, n)
    ensures WithoutTemp(Rename(p, BoltDb, Backup(k)), n) == WithoutTemp(Rename(q, BoltDb, Backup(k)), n)
  {
    assert p[BoltDb] == WithoutTemp(p, n)[BoltDb] == q[BoltDb];
    assert WithoutTemp(Rename(p, BoltDb, Backup(k)), n) == WithoutTemp(p, n)[Backup(k) := q[BoltDb]] - {BoltDb};
    assert WithoutTemp(Rename(q, BoltDb, Backup(k)), n) == WithoutTemp(q, n)[Backup(k) := q[BoltDb]] - {BoltDb};
  }

  lemma {:induction false} SameBackups<B(!new), T(!new)>(fs: Files<B, T>, gs: Files<B, T>, k: nat)
    requires forall i :: Backup(i) in fs <==> Backup(i) in gs
    ensures LeastFree(fs, k) == LeastFree(gs, k)
  {
    var a, b := LeastFree(fs, k), LeastFree(gs, k);
    assert Backup(a) !in gs && Backup(b) !in fs;
  }

  /**
   From any crash point an attempt without faults ends. It leaves no bolt.db, but its content
   under the first free backup name, if and only if v2raya.db already held data or the import
   passes verification; and then v2raya.db is the one with data, or else the import.
   */
  lemma {:induction false} Completes<B(!new), T(!new)>(s: State<B, T>, imp: Import<T>, holds: T -> bool, drawn: nat)
    returns (j: nat)
    requires s.pc == Start && BoltDb in s.fs
    ensures var t := Iter(s, j, imp, holds, drawn);
            && t.fs == Outcome(s.fs, imp, holds, drawn)
            && t.pc == Done((Sqlite in s.fs && Holds(s.fs[Sqlite], holds)) || imp.Passes())
            && (t.pc.ok <==> BoltDb !in t.fs)
  {
    if Sqlite in s.fs && Holds(s.fs[Sqlite], holds) {
      var a := Forward(Forward(s, imp, holds, drawn), imp, holds, drawn);
      Two(s, imp, holds, drawn);
      var i := Searches(a, imp, holds, drawn);
      IterSum(s, 2, i, imp, holds, drawn);
      j := i + 2;
    } else {
      var i := ToTemp(s, imp, holds, drawn);
      var c := Iter(s, i, imp, holds, drawn);
      SameBackups(c.fs, s.fs, 0);
      var k;
      if imp.Passes() { k := Imports(c, imp, holds, drawn); } else { k := Refuses(c, imp, holds, drawn); }
      IterSum(s, i, k, imp, holds, drawn);
      j := i + k;
    }
  }

  predicate TempOf(x: Name, n: nat) { x in {Temp(n), TempWal(n), TempShm(n)} }

  /**
   An import in which a step fails, up to the moving aside of bolt.db, ends as if it had not been tried:
   bolt.db in place, no v2raya.db, none of its temporary files, and every other file as it was.
   */
  lemma {:induction false} FaultUndone<B(!new), T(!new)>(s: State<B, T>, imp: Import<T>, holds: T -> bool, drawn: nat)
    returns (j: nat)
    requires Importing(s.pc) || (s.pc.Aside? && s.pc.published)
    requires BoltDb in s.fs && (Importing(s.pc) ==> Sqlite !in s.fs)
    ensures var t := Iter(Failing(s), j, imp, holds, drawn);
            && t.pc == Done(false) && Sqlite !in t.fs && BoltDb in t.fs
            && (forall x | x in s.fs && x != Sqlite && !TempOf(x, s.temp) :: x in t.fs && t.fs[x] == s.fs[x])
            && (!s.pc.CreateTemp? ==> forall x | x in t.fs :: x in s.fs && !TempOf(x, s.temp))
  {
    var f := Failing(s);
    if s.pc.CreateTemp? {
      j := 0;
    } else if s.pc.Aside? {
      var c := Forward(f, imp, holds, drawn);
      Sweeps(c, imp, holds, drawn);
      assert Iter(f, 4, imp, holds, drawn) == Iter(c, 3, imp, holds, drawn);
      j := 4;
    } else {
      Sweeps(f, imp, holds, drawn);
      j := 3;
    }
  }

  // ------------------------------------------------------------- a stale -wal

  /**
   After a completed import an old -wal file stands beside the new database if and only if the
   attempt began with a -wal and no v2raya.db, as a crash between the two removals leaves it.
   */
  lemma {:induction false} StaleWal<B(!new), T(!new)>(fs: Files<B, T>, imp: Import<T>, holds: T -> bool, drawn: nat)
    requires BoltDb in fs && imp.Passes() && !(Sqlite in fs && Holds(fs[Sqlite], holds))
    ensures SqliteWal in Outcome(fs, imp, holds, drawn) <==> Sqlite !in fs && SqliteWal in fs
  {}

  lemma {:induction false} StaleWalArises<B(!new), T(!new)>(s: State<B, T>, b: B, imp: Import<T>, holds: T -> bool)
    requires Initial(s, b) && Sqlite in s.fs && SqliteWal in s.fs && !Holds(s.fs[Sqlite], holds)
    ensures var ms := [Move(Go, 0), Move(Go, 0), Move(Go, 0), Move(Crash, 0)];
            var t := After(s, ms, imp, holds);
            Runs(s, ms, imp, holds) && t.pc == Start && Sqlite !in t.fs && SqliteWal in t.fs
  {
    var g: Move<T> := Move(Go, 0);
    TwoIn(s, imp, holds);
    Snoc(s, [g, g], g, imp, holds);
    Snoc(s, [g, g, g], Move(Crash, 0), imp, holds);
    assert [g, g] + [g] == [g, g, g] && [g, g, g] + [Move(Crash, 0)] == [g, g, g, Move(Crash, 0)];
  }

  /** An attempt that finds no data in v2raya.db sets out to discard it. */
  lemma {:induction false} TwoIn<B(!new), T(!new)>(s: State<B, T>, imp: Import<T>, holds: T -> bool)
    requires s.pc == Start && BoltDb in s.fs && Sqlite in s.fs && !Holds(s.fs[Sqlite], holds)
    ensures var ms := [Move(Go, 0), Move(Go, 0)];
            Runs(s, ms, imp, holds) && After(s, ms, imp, holds) == s.(pc := Discard(0), stale := false)
  {
    var g: Move<T> := Move(Go, 0);
    Snoc(s, [], g, imp, holds);
    Snoc(s, [g], g, imp, holds);
    assert [] + [g] == [g] && [g] + [g] == [g, g];
  }

  lemma {:induction false} Snoc<B(!new), T(!new)>(s: State<B, T>, ms: seq<Move<T>>, m: Move<T>, imp: Import<T>,
                                                  holds: T -> bool)
    ensures After(s, ms + [m], imp, holds) == Next(After(s, ms, imp, holds), m.action, imp, holds, m.drawn)
    ensures Runs(s, ms + [m], imp, holds) <==> Runs(s, ms, imp, holds) && Sound(After(s, ms, imp, holds), m)
  {
    assert (ms + [m])[..|ms|] == ms;
  }
}
