/**
 The macOS system proxy: the user's settings are saved before v2rayA puts its own in their
 place and restored afterwards, with commands that may stop anywhere and processes that crash.
 */
module MacProxy {
  import opened Options

  datatype Kind = Web | SecureWeb | Socks

  datatype Proxy = Proxy(on: bool, server: string, port: int)

  datatype Service = Service(web: Proxy, secure: Proxy, socks: Proxy, autoOn: bool, autoUrl: string)
  {
    function Of(k: Kind): Proxy { match k case Web => web case SecureWeb => secure case Socks => socks }

    function With(k: Kind, p: Proxy): Service
    {
      match k
      case Web => this.(web := p)
      case SecureWeb => this.(secure := p)
      case Socks => this.(socks := p)
    }
  }

  /** networksetup invocations; giving an address or a URL also turns the proxy on. */
  datatype Command =
    | SetProxy(service: string, kind: Kind, server: string, port: int)
    | SetState(service: string, kind: Kind, on: bool)
    | SetAutoUrl(service: string, url: string)
    | SetAutoState(service: string, on: bool)

  type Settings = map<string, Service>

  function ExecOn(v: Service, c: Command): Service
  {
    match c
    case SetProxy(_, kind, server, port) => v.With(kind, Proxy(true, server, port))
    case SetState(_, kind, on) => v.With(kind, v.Of(kind).(on := on))
    case SetAutoUrl(_, url) => v.(autoOn := true, autoUrl := url)
    case SetAutoState(_, on) => v.(autoOn := on)
  }

  function Exec(a: Settings, c: Command): Settings
  {
    if c.service in a then a[c.service := ExecOn(a[c.service], c)] else a
  }

  function ExecAll(a: Settings, cs: seq<Command>): Settings
  {
    if cs == [] then a else Exec(ExecAll(a, cs[..|cs| - 1]), cs[|cs| - 1])
  }

  // ----------------------------------------------------------------- the scripts

  function SetupOne(s: string): seq<Command>
  {
    [SetState(s, Web, true), SetState(s, SecureWeb, true), SetState(s, Socks, true),
     SetProxy(s, Web, "127.0.0.1", 52345), SetProxy(s, SecureWeb, "127.0.0.1", 52345),
     SetProxy(s, Socks, "127.0.0.1", 52306)]
  }

  function RestoreProxy(s: string, kind: Kind, p: Proxy): seq<Command>
  {
    if p.on then [SetProxy(s, kind, p.server, p.port), SetState(s, kind, true)] else [SetState(s, kind, false)]
  }

  function RestoreAuto(s: string, v: Service): seq<Command>
  {
    (if v.autoOn && v.autoUrl != "" then [SetAutoUrl(s, v.autoUrl)] else []) + [SetAutoState(s, v.autoOn)]
  }

  function RestoreOne(s: string, v: Service): seq<Command>
  {
    RestoreAuto(s, v) + RestoreProxy(s, Web, v.web) + RestoreProxy(s, SecureWeb, v.secure)
    + RestoreProxy(s, Socks, v.socks)
  }

  function SetupScript(names: seq<string>): seq<Command>
  {
    if names == [] then [] else SetupScript(names[..|names| - 1]) + SetupOne(names[|names| - 1])
  }

  ghost predicate Covers(snapshot: Settings, names: seq<string>)
  {
    forall i | 0 <= i < |names| :: names[i] in snapshot
  }

  /** `names` is the order in which the snapshot's services come up. */
  function RestoreScript(names: seq<string>, snapshot: Settings): seq<Command>
  {
    if names == [] then []
    else
      var n := |names| - 1;
      RestoreScript(names[..n], snapshot) + RestoreAt(names[n], snapshot)
  }

  function RestoreAt(s: string, snapshot: Settings): seq<Command>
  {
    if s in snapshot then RestoreOne(s, snapshot[s]) else []
  }

  const OFF := Service(Proxy(false, "", 0), Proxy(false, "", 0), Proxy(false, "", 0), false, "")

  function AllOff(names: seq<string>): Settings { map s | s in names :: OFF }

  method BuildSetup(names: seq<string>) returns (commands: seq<Command>)
    ensures commands == SetupScript(names) && forall a: Settings :: ProxiedFrom(ExecAll(a, commands), a, names)
  {
    commands := [];
    for i := 0 to |names|
      invariant commands == SetupScript(names[..i])
    {
      assert names[..i + 1][..i] == names[..i];
      commands := commands + SetupOne(names[i]);
    }
    assert names[..|names|] == names;
    forall a: Settings { SetupShows(a, names); }
  }

  method BuildRestore(names: seq<string>, snapshot: Settings) returns (commands: seq<Command>)
    ensures commands == RestoreScript(names, snapshot)
  {
    commands := [];
    for i := 0 to |names|
      invariant commands == RestoreScript(names[..i], snapshot)
    {
      assert names[..i + 1][..i] == names[..i];
      if names[i] in snapshot { commands := commands + RestoreOne(names[i], snapshot[names[i]]); }
    }
    assert names[..|names|] == names;
  }

  // ------------------------------------------------------- what a script does

  /** What an application sees of a service: nothing of a proxy that is off. */
  function Seen(p: Proxy): Proxy { if p.on then p else Proxy(false, "", 0) }

  function View(v: Service): Service
  {
    Service(Seen(v.web), Seen(v.secure), Seen(v.socks), v.autoOn, if v.autoOn then v.autoUrl else "")
  }

  function ExecOnAll(v: Service, cs: seq<Command>): Service
  {
    if cs == [] then v else ExecOn(ExecOnAll(v, cs[..|cs| - 1]), cs[|cs| - 1])
  }

  ghost predicate Only(cs: seq<Command>, s: string) { forall i | 0 <= i < |cs| :: cs[i].service == s }

  lemma {:induction false} ExecConcat(a: Settings, cs: seq<Command>, ds: seq<Command>)
    ensures ExecAll(a, cs + ds) == ExecAll(ExecAll(a, cs), ds)
    decreases |ds|
  {
    if ds == [] {
      assert cs + ds == cs;
    } else {
      assert (cs + ds)[..|cs + ds| - 1] == cs + ds[..|ds| - 1];
      ExecConcat(a, cs, ds[..|ds| - 1]);
    }
  }

  lemma {:induction false} ExecKeys(a: Settings, cs: seq<Command>)
    ensures ExecAll(a, cs).Keys == a.Keys
    decreases |cs|
  {
    if cs != [] { ExecKeys(a, cs[..|cs| - 1]); }
  }

  /** A service's commands change that service alone. */
  lemma {:induction false} ExecLocal(a: Settings, cs: seq<Command>, s: string, t: string)
    requires Only(cs, s) && t in a
    ensures t in ExecAll(a, cs)
    ensures ExecAll(a, cs)[t] == if t == s then ExecOnAll(a[t], cs) else a[t]
    decreases |cs|
  {
    ExecKeys(a, cs);
    if cs != [] {
      ExecKeys(a, cs[..|cs| - 1]);
      ExecLocal(a, cs[..|cs| - 1], s, t);
    }
  }

  lemma {:induction false} ExecOnConcat(v: Service, cs: seq<Command>, ds: seq<Command>)
    ensures ExecOnAll(v, cs + ds) == ExecOnAll(ExecOnAll(v, cs), ds)
    decreases |ds|
  {
    if ds == [] {
      assert cs + ds == cs;
    } else {
      assert (cs + ds)[..|cs + ds| - 1] == cs + ds[..|ds| - 1];
      ExecOnConcat(v, cs, ds[..|ds| - 1]);
    }
  }

  lemma {:induction false} RestoresProxy(v: Service, s: string, k: Kind, p: Proxy)
    ensures exists q :: Seen(q) == Seen(p) && ExecOnAll(v, RestoreProxy(s, k, p)) == v.With(k, q)
  {
    var cs := RestoreProxy(s, k, p);
    if p.on {
      assert cs[..1] == [cs[0]] && cs[..1][..0] == [];
      assert ExecOnAll(v, cs[..1]) == ExecOn(v, cs[0]);
      assert ExecOnAll(v, cs) == v.With(k, p);
    } else {
      assert cs[..0] == [];
      assert ExecOnAll(v, cs) == v.With(k, v.Of(k).(on := false));
      assert Seen(v.Of(k).(on := false)) == Seen(p);
    }
  }

  /** A URL that was empty is not written back: a service with one, and on, must have none now. */
  predicate Recoverable(v: Service, u: Service) { u.autoOn && u.autoUrl == "" ==> v.autoUrl == "" }

  lemma {:induction false} RestoresAuto(v: Service, s: string, u: Service)
    ensures ExecOnAll(v, RestoreAuto(s, u)) ==
            v.(autoOn := u.autoOn, autoUrl := if u.autoOn && u.autoUrl != "" then u.autoUrl else v.autoUrl)
  {
    var cs := RestoreAuto(s, u);
    if |cs| == 2 {
      assert cs[..1] == [cs[0]] && cs[..1][..0] == [];
      assert ExecOnAll(v, cs[..1]) == ExecOn(v, cs[0]);
    } else {
      assert cs[..0] == [];
    }
  }

  lemma {:induction false} RestoresOne(v: Service, s: string, u: Service)
    ensures View(ExecOnAll(v, RestoreOne(s, u))) == View(u) <==> Recoverable(v, u)
  {
    var a, b := RestoreAuto(s, u), RestoreProxy(s, Web, u.web);
    var c, d := RestoreProxy(s, SecureWeb, u.secure), RestoreProxy(s, Socks, u.socks);
    RestoresAuto(v, s, u);
    ExecOnConcat(v, a, b);
    ExecOnConcat(v, a + b, c);
    ExecOnConcat(v, a + b + c, d);
    var v' := ExecOnAll(v, a);
    var w := ExecOnAll(v', b);
    RestoresProxy(v', s, Web, u.web);
    var x := ExecOnAll(w, c);
    RestoresProxy(w, s, SecureWeb, u.secure);
    RestoresProxy(x, s, Socks, u.socks);
  }

  ghost predicate NoRepeats(names: seq<string>) { forall i, j | 0 <= i < j < |names| :: names[i] != names[j] }

  lemma {:induction false} OneService(s: string, snapshot: Settings)
    ensures Only(RestoreAt(s, snapshot), s)
  {}

  /** The last service's part of a restore script, seen from another service and from itself. */
  lemma {:induction false} RestoreLast(a: Settings, names: seq<string>, snapshot: Settings, t: string)
    requires names != [] && t in a
    ensures var n := |names| - 1;
            var m := ExecAll(a, RestoreScript(names[..n], snapshot));
            var r := ExecAll(a, RestoreScript(names, snapshot));
            && t in m && t in r
            && r[t] == if t == names[n] then ExecOnAll(m[t], RestoreAt(names[n], snapshot)) else m[t]
  {
    var n := |names| - 1;
    var cs, ds := RestoreScript(names[..n], snapshot), RestoreAt(names[n], snapshot);
    ExecConcat(a, cs, ds);
    ExecKeys(a, cs);
    OneService(names[n], snapshot);
    ExecLocal(ExecAll(a, cs), ds, names[n], t);
  }

  /** `r` shows of service `s` what the snapshot does, exactly if that could be recovered from `a`. */
  predicate BackIff(a: Settings, r: Settings, snapshot: Settings, s: string)
    requires s in a && s in snapshot
  {
    s in r && (View(r[s]) == View(snapshot[s]) <==> Recoverable(a[s], snapshot[s]))
  }

  /**
   Whatever stands in the settings, the whole restore script brings back what the snapshot shows of a
   service, unless its automatic proxy was on with no URL and has one now.
   */
  lemma {:induction false} RestoreRestores(a: Settings, names: seq<string>, snapshot: Settings, i: nat)
    requires NoRepeats(names) && Covers(snapshot, names) && i < |names| && names[i] in a
    ensures BackIff(a, ExecAll(a, RestoreScript(names, snapshot)), snapshot, names[i])
    decreases |names|
  {
    var n := |names| - 1;
    if i == n {
      RestoreEnds(a, names, snapshot);
    } else {
      var front, s := names[..n], names[i];
      Fronts(names, snapshot, i);
      RestoreRestores(a, front, snapshot, i);
      RestoreKeeps(a, names, snapshot, s);
      BackStays(a, ExecAll(a, RestoreScript(front, snapshot)), ExecAll(a, RestoreScript(names, snapshot)), snapshot, s);
    }
  }

  lemma {:induction false} Fronts(names: seq<string>, snapshot: Settings, i: nat)
    requires NoRepeats(names) && Covers(snapshot, names) && i < |names| - 1
    ensures var front := names[..|names| - 1];
            NoRepeats(front) && Covers(snapshot, front) && front[i] == names[i] != names[|names| - 1]
  {}

  lemma {:induction false} BackStays(a: Settings, r: Settings, r': Settings, snapshot: Settings, s: string)
    requires s in a && s in snapshot && BackIff(a, r, snapshot, s) && s in r' && r'[s] == r[s]
    ensures BackIff(a, r', snapshot, s)
  {}

  /** What the script has brought back of another service, its last part leaves so. */
  lemma {:induction false} RestoreKeeps(a: Settings, names: seq<string>, snapshot: Settings, t: string)
    requires names != [] && t != names[|names| - 1] && t in a
    ensures var m := ExecAll(a, RestoreScript(names[..|names| - 1], snapshot));
            var r := ExecAll(a, RestoreScript(names, snapshot));
            t in m && t in r && r[t] == m[t]
  {
    RestoreLast(a, names, snapshot, t);
  }

  lemma {:induction false} RestoreEnds(a: Settings, names: seq<string>, snapshot: Settings)
    requires NoRepeats(names) && Covers(snapshot, names) && names != [] && names[|names| - 1] in a
    ensures BackIff(a, ExecAll(a, RestoreScript(names, snapshot)), snapshot, names[|names| - 1])
  {
    var n := |names| - 1;
    RestoreLast(a, names, snapshot, names[n]);
    RestoreElsewhere(a, names[..n], snapshot, names[n]);
    RestoresOne(a[names[n]], names[n], snapshot[names[n]]);
  }

  lemma {:induction false} RestoreElsewhere(a: Settings, names: seq<string>, snapshot: Settings, t: string)
    requires t in a && forall i | 0 <= i < |names| :: names[i] != t
    ensures var r := ExecAll(a, RestoreScript(names, snapshot)); t in r && r[t] == a[t]
    decreases |names|
  {
    if names != [] {
      var n := |names| - 1;
      assert forall i | 0 <= i < n :: names[..n][i] == names[i];
      RestoreLast(a, names, snapshot, t);
      RestoreElsewhere(a, names[..n], snapshot, t);
    }
  }

  /** Nothing of the service is on. */
  predicate Quiet(v: Service) { !v.web.on && !v.secure.on && !v.socks.on && !v.autoOn }

  lemma {:induction false} OffOne(v: Service, s: string)
    ensures Quiet(ExecOnAll(v, RestoreOne(s, OFF)))
  {
    var a, b, c, d := SetAutoState(s, false), SetState(s, Web, false), SetState(s, SecureWeb, false),
                      SetState(s, Socks, false);
    assert RestoreOne(s, OFF) == [a] + [b] + [c] + [d];
    ExecOnConcat(v, [a] + [b] + [c], [d]);
    ExecOnConcat(v, [a] + [b], [c]);
    ExecOnConcat(v, [a], [b]);
    assert [a][..0] == [] && [b][..0] == [] && [c][..0] == [] && [d][..0] == [];
  }

  /** Where nothing was saved, a clean that reaches its end turns every service's proxies off. */
  lemma {:induction false} OffTurnsOff(a: Settings, names: seq<string>, snapshot: Settings, i: nat)
    requires NoRepeats(names) && i < |names| && names[i] in a && names[i] in snapshot && snapshot[names[i]] == OFF
    ensures var r := ExecAll(a, RestoreScript(names, snapshot)); names[i] in r && Quiet(r[names[i]])
    decreases |names|
  {
    var n := |names| - 1;
    if i == n {
      RestoreLast(a, names, snapshot, names[n]);
      RestoreElsewhere(a, names[..n], snapshot, names[n]);
      OffOne(a[names[n]], names[n]);
    } else {
      assert names[..n][i] == names[i];
      OffTurnsOff(a, names[..n], snapshot, i);
      RestoreKeeps(a, names, snapshot, names[i]);
    }
  }

  ghost predicate AllQuiet(a: Settings, names: seq<string>) { forall s | s in names && s in a :: Quiet(a[s]) }

  lemma {:induction false} OffWhole(a: Settings, names: seq<string>)
    requires NoRepeats(names)
    ensures AllQuiet(ExecAll(a, RestoreScript(names, AllOff(names))), names)
  {
    ExecKeys(a, RestoreScript(names, AllOff(names)));
    forall s | s in names && s in a
      ensures Quiet(ExecAll(a, RestoreScript(names, AllOff(names)))[s])
    {
      var i :| 0 <= i < |names| && names[i] == s;
      OffTurnsOff(a, names, AllOff(names), i);
    }
  }

  /** The service sends web traffic to v2rayA's HTTP port and the rest to its SOCKS port, on this machine. */
  predicate Proxied(v: Service)
  {
    && v.web == Proxy(true, "127.0.0.1", 52345) && v.secure == Proxy(true, "127.0.0.1", 52345)
    && v.socks == Proxy(true, "127.0.0.1", 52306)
  }

  /** All services listed are proxied, their automatic proxy as before, and the others are as they were. */
  ghost predicate ProxiedFrom(r: Settings, a: Settings, names: seq<string>)
  {
    && r.Keys == a.Keys
    && forall s | s in a ::
         if s in names then Proxied(r[s]) && r[s].autoOn == a[s].autoOn && r[s].autoUrl == a[s].autoUrl
         else r[s] == a[s]
  }

  lemma {:induction false} SetsUpOne(v: Service, s: string)
    ensures var r := ExecOnAll(v, SetupOne(s)); Proxied(r) && r.autoOn == v.autoOn && r.autoUrl == v.autoUrl
  {
    var cs := SetupOne(s);
    assert cs[..5][..4] == cs[..4] && cs[..4][..3] == cs[..3] && cs[..3][..2] == cs[..2] && cs[..2][..1] == cs[..1];
    assert ExecOnAll(v, cs[..1]) == ExecOn(v, cs[0]);
    assert ExecOnAll(v, cs[..3]) == ExecOn(ExecOnAll(v, cs[..2]), cs[2]);
    assert ExecOnAll(v, cs[..5]) == ExecOn(ExecOnAll(v, cs[..4]), cs[4]);
  }

  lemma {:induction false} SetupShows(a: Settings, names: seq<string>)
    ensures ProxiedFrom(ExecAll(a, SetupScript(names)), a, names)
    decreases |names|
  {
    ExecKeys(a, SetupScript(names));
    if names != [] {
      var n := |names| - 1;
      var m, cs := ExecAll(a, SetupScript(names[..n])), SetupOne(names[n]);
      SetupShows(a, names[..n]);
      ExecConcat(a, SetupScript(names[..n]), cs);
      forall s | s in a
        ensures s in ExecAll(m, cs) && ExecAll(m, cs)[s] == if s == names[n] then ExecOnAll(m[s], cs) else m[s]
      {
        ExecLocal(m, cs, names[n], s);
      }
      if names[n] in a { SetsUpOne(m[names[n]], names[n]); }
    }
  }

  // --------------------------------------------------- automatic proxy untouched

  /** The command sets nothing of the automatic proxy but what it was. */
  predicate Gentle(c: Command, orig: Settings)
  {
    match c
    case SetAutoUrl(s, url) => s in orig && orig[s].autoOn && orig[s].autoUrl == url
    case SetAutoState(s, on) => s in orig && orig[s].autoOn == on
    case _ => true
  }

  ghost predicate AllGentle(cs: seq<Command>, orig: Settings) { forall i | 0 <= i < |cs| :: Gentle(cs[i], orig) }

  ghost predicate SameAuto(a: Settings, orig: Settings)
  {
    a.Keys == orig.Keys && forall s | s in a :: a[s].autoOn == orig[s].autoOn && a[s].autoUrl == orig[s].autoUrl
  }

  lemma {:induction false} GentleKeeps(a: Settings, cs: seq<Command>, orig: Settings)
    requires AllGentle(cs, orig) && SameAuto(a, orig)
    ensures SameAuto(ExecAll(a, cs), orig)
    decreases |cs|
  {
    if cs != [] {
      assert forall i | 0 <= i < |cs| - 1 :: cs[..|cs| - 1][i] == cs[i];
      GentleKeeps(a, cs[..|cs| - 1], orig);
    }
  }

  lemma {:induction false} SetupIsGentle(names: seq<string>, orig: Settings)
    ensures AllGentle(SetupScript(names), orig)
    decreases |names|
  {
    if names != [] { SetupIsGentle(names[..|names| - 1], orig); }
  }

  lemma {:induction false} GentleConcat(cs: seq<Command>, ds: seq<Command>, orig: Settings)
    requires AllGentle(cs, orig) && AllGentle(ds, orig)
    ensures AllGentle(cs + ds, orig)
  {}

  lemma {:induction false} RestoreAtIsGentle(s: string, orig: Settings)
    ensures AllGentle(RestoreAt(s, orig), orig)
  {}

  lemma {:induction false} RestoreIsGentle(names: seq<string>, orig: Settings)
    ensures AllGentle(RestoreScript(names, orig), orig)
    decreases |names|
  {
    if names != [] {
      RestoreIsGentle(names[..|names| - 1], orig);
      RestoreAtIsGentle(names[|names| - 1], orig);
      GentleConcat(RestoreScript(names[..|names| - 1], orig), RestoreAt(names[|names| - 1], orig), orig);
    }
  }

  // ------------------------------------------------------------------- the runs

  /** What the machine is set to, the snapshot in the database and the one in memory. */
  datatype State = State(actual: Settings, persisted: Option<Settings>, memory: Option<Settings>)

  /**
   `Setup(done)` and `Clean(done)` run the first `done` commands of their script and then stop,
   by an error or a crash; a script that runs to its end goes on with what follows it.
   Each clean goes through the saved services in an order of its own. `Refused` is a setup that cannot
   read or write its snapshot. `Change` is the user.
   */
  datatype Event =
    | Setup(done: nat)
    | Refused
    | Clean(done: nat, forgets: bool, order: seq<string>)
    | Crash
    | Change(settings: Settings)

  function Upto<T>(s: seq<T>, n: nat): seq<T> { if n < |s| then s[..n] else s }

  /** PreFunc: a snapshot already there is the user's; else the present settings are. */
  function Captured(s: State): State
  {
    if s.persisted.Some? then s.(memory := s.persisted)
    else if s.memory.Some? then s
    else s.(persisted := Some(s.actual), memory := Some(s.actual))
  }

  /** The snapshot a clean works from: the one in memory, else the persisted one. */
  function Snapshot(s: State): Option<Settings> { if s.memory.Some? then s.memory else s.persisted }

  /** Without a snapshot everything is turned off, and there is nothing to forget. */
  function CleanedUp(s: State, done: nat, forgets: bool, order: seq<string>, names: seq<string>): State
  {
    var snapshot := Snapshot(s);
    var script := if snapshot.Some? then RestoreScript(order, snapshot.value) else RestoreScript(names, AllOff(names));
    var r := s.(actual := ExecAll(s.actual, Upto(script, done)));
    if snapshot.Some? && done >= |script| && forgets then r.(persisted := None, memory := None) else r
  }

  function Next(s: State, e: Event, names: seq<string>): State
  {
    match e
    case Setup(done) => var c := Captured(s); c.(actual := ExecAll(c.actual, Upto(SetupScript(names), done)))
    case Refused => s
    case Clean(done, forgets, order) => if s.persisted.None? then s else CleanedUp(s, done, forgets, order, names)
    case Crash => s.(memory := None)
    case Change(settings) => s.(actual := settings)
  }

  /** `user` is what the user last chose. */
  ghost predicate Faithful(s: State, user: Settings, names: seq<string>)
  {
    && s.actual.Keys == user.Keys == (set x | x in names)
    && (s.memory.Some? ==> s.memory == s.persisted)
    && (s.persisted.Some? ==> Alike(s.persisted.value, user) && SameAuto(s.actual, s.persisted.value))
    && (s.persisted.None? ==> Alike(s.actual, user))
  }

  ghost predicate Alike(a: Settings, b: Settings) { a.Keys == b.Keys && forall x | x in a :: View(a[x]) == View(b[x]) }

  /** The same services, in some order. */
  ghost predicate Orders(order: seq<string>, names: seq<string>)
  {
    NoRepeats(order) && (set x | x in order) == (set x | x in names)
  }

  /** The user changes settings only while no snapshot is pending, and only of the known services. */
  ghost predicate Allowed(s: State, e: Event, names: seq<string>)
  {
    && (e.Change? ==> s.persisted.None? && e.settings.Keys == (set x | x in names))
    && (e.Clean? ==> Orders(e.order, names))
  }

  function After(s: State, es: seq<Event>, names: seq<string>): State
  {
    if es == [] then s else Next(After(s, es[..|es| - 1], names), es[|es| - 1], names)
  }

  ghost predicate Runs(s: State, es: seq<Event>, names: seq<string>)
  {
    es == [] || (Runs(s, es[..|es| - 1], names) && Allowed(After(s, es[..|es| - 1], names), es[|es| - 1], names))
  }

  /** What the user last chose. */
  function Chosen(user: Settings, es: seq<Event>): Settings
  {
    if es == [] then user
    else if es[|es| - 1].Change? then es[|es| - 1].settings
    else Chosen(user, es[..|es| - 1])
  }

  lemma {:induction false} ScriptsKeepAuto(a: Settings, names: seq<string>, orig: Settings, done: nat)
    requires SameAuto(a, orig) && Covers(orig, names)
    ensures SameAuto(ExecAll(a, Upto(SetupScript(names), done)), orig)
    ensures SameAuto(ExecAll(a, Upto(RestoreScript(names, orig), done)), orig)
  {
    SetupIsGentle(names, orig);
    RestoreIsGentle(names, orig);
    GentleKeeps(a, Upto(SetupScript(names), done), orig);
    GentleKeeps(a, Upto(RestoreScript(names, orig), done), orig);
  }

  lemma {:induction false} KnownCovers(a: Settings, names: seq<string>)
    requires a.Keys == (set x | x in names)
    ensures Covers(a, names)
  {}

  /** A restore script that ran to its end shows what the user chose. */
  lemma {:induction false} WholeRestore(a: Settings, names: seq<string>, snapshot: Settings)
    requires NoRepeats(names) && SameAuto(a, snapshot) && snapshot.Keys == (set x | x in names)
    ensures Alike(ExecAll(a, RestoreScript(names, snapshot)), snapshot)
  {
    KnownCovers(snapshot, names);
    ExecKeys(a, RestoreScript(names, snapshot));
    forall x | x in snapshot
      ensures View(ExecAll(a, RestoreScript(names, snapshot))[x]) == View(snapshot[x])
    {
      assert x in names;
      var i :| 0 <= i < |names| && names[i] == x;
      RestoreRestores(a, names, snapshot, i);
    }
  }

  lemma {:induction false} FaithfulStep(s: State, e: Event, user: Settings, names: seq<string>)
    requires NoRepeats(names) && Faithful(s, user, names) && Allowed(s, e, names)
    ensures Faithful(Next(s, e, names), if e.Change? then e.settings else user, names)
  {
    match e {
      case Setup(done) =>
        var c := Captured(s);
        KnownCovers(c.persisted.value, names);
        ScriptsKeepAuto(c.actual, names, c.persisted.value, done);
      case Clean(done, forgets, order) =>
        if s.persisted.Some? {
          var p := s.persisted.value;
          KnownCovers(p, order);
          ScriptsKeepAuto(s.actual, order, p, done);
          if done >= |RestoreScript(order, p)| { WholeRestore(s.actual, order, p); }
        }
      case _ =>
    }
  }

  /** In every run the pending snapshot shows the user's own settings, never those of v2rayA. */
  lemma {:induction false} RunsAreFaithful(s: State, es: seq<Event>, user: Settings, names: seq<string>)
    requires NoRepeats(names) && Faithful(s, user, names) && Runs(s, es, names)
    ensures Faithful(After(s, es, names), Chosen(user, es), names)
    decreases |es|
  {
    if es != [] {
      RunsAreFaithful(s, es[..|es| - 1], user, names);
      FaithfulStep(After(s, es[..|es| - 1], names), es[|es| - 1], Chosen(user, es[..|es| - 1]), names);
    }
  }

  /**
   After any run, a clean that reaches its end gives the user's settings back. The snapshot is gone then
   if it could be forgotten, and else still there.
   */
  lemma {:induction false} CleanRestores(s: State, es: seq<Event>, user: Settings, names: seq<string>, done: nat,
                                         forgets: bool, order: seq<string>)
    requires NoRepeats(names) && Faithful(s, user, names) && Runs(s, es, names) && Orders(order, names)
    requires var t := After(s, es, names); t.persisted.Some? && done >= |RestoreScript(order, Snapshot(t).value)|
    ensures var t, r := After(s, es, names), Next(After(s, es, names), Clean(done, forgets, order), names);
            Alike(r.actual, Chosen(user, es)) && r.persisted == if forgets then None else t.persisted
  {
    RunsAreFaithful(s, es, user, names);
    CleanShows(After(s, es, names), Chosen(user, es), names, done, forgets, order);
  }

  lemma {:induction false} CleanShows(t: State, user: Settings, names: seq<string>, done: nat, forgets: bool,
                                      order: seq<string>)
    requires NoRepeats(names) && Faithful(t, user, names) && t.persisted.Some? && Orders(order, names)
    requires done >= |RestoreScript(order, Snapshot(t).value)|
    ensures var r := Next(t, Clean(done, forgets, order), names);
            Alike(r.actual, user) && r.persisted == if forgets then None else t.persisted
  {
    WholeRestore(t.actual, order, t.persisted.value);
  }

  /**
   After any run, a setup that reaches its end has every service proxied, and what the user chose is in the
   snapshot.
   */
  lemma {:induction false} SetupProxies(s: State, es: seq<Event>, user: Settings, names: seq<string>, done: nat)
    requires NoRepeats(names) && Faithful(s, user, names) && Runs(s, es, names) && done >= |SetupScript(names)|
    ensures var t := Next(After(s, es, names), Setup(done), names);
            && (forall x | x in names :: x in t.actual && Proxied(t.actual[x]))
            && t.persisted.Some? && Alike(t.persisted.value, Chosen(user, es))
  {
    RunsAreFaithful(s, es, user, names);
    var t := After(s, es, names);
    FaithfulStep(t, Setup(done), Chosen(user, es), names);
    SetupShows(t.actual, names);
  }

  // ------------------------------------------------------------ the running code

  class SystemProxy {
    const names: seq<string>
    var actual: Settings
    var persisted: Option<Settings>
    var memory: Option<Settings>

    constructor (names: seq<string>, actual: Settings, persisted: Option<Settings>)
      ensures this.names == names && Value() == State(actual, persisted, None)
    {
      this.names, this.actual, this.persisted, this.memory := names, actual, persisted, None;
    }

    ghost function Value(): State
      reads this
    {
      State(actual, persisted, memory)
    }

    /** ExecCommands until the `done`-th command. */
    method Run(commands: seq<Command>, done: nat) returns (ok: bool)
      modifies this
      ensures Value() == old(Value()).(actual := ExecAll(old(actual), Upto(commands, done)))
      ensures ok <==> done >= |commands|
    {
      ghost var a := actual;
      for i := 0 to |commands|
        invariant i <= done && Value() == old(Value()).(actual := ExecAll(a, commands[..i]))
      {
        if i == done { return false; }
        assert commands[..i + 1][..i] == commands[..i];
        actual := Exec(actual, commands[i]);
      }
      assert commands[..|commands|] == commands;
      ok := true;
    }

    /** GetSetupCommands().Run(true), with a database and a system that can be read. */
    method SetUp(done: nat) returns (ok: bool)
      modifies this
      ensures Value() == Next(old(Value()), Setup(done), names)
      ensures ok ==> ProxiedFrom(actual, old(actual), names)
      ensures ok <==> done >= |SetupScript(names)|
    {
      var commands := BuildSetup(names);
      SetupShows(actual, names);
      if persisted.Some? {
        memory := persisted;
      } else if memory.None? {
        persisted := Some(actual);
        memory := Some(actual);
      }
      ok := Run(commands, done);
    }

    /** GetCleanCommands().Run(true). */
    method CleanUp(done: nat, forgets: bool, order: seq<string>) returns (ok: bool)
      modifies this
      ensures Value() == CleanedUp(old(Value()), done, forgets, order, names)
      ensures ok && old(Snapshot(Value())).None? && NoRepeats(names) ==> AllQuiet(actual, names)
    {
      var services := if memory.Some? then memory else persisted;
      var commands := [];
      if services.Some? {
        commands := BuildRestore(order, services.value);
      } else {
        commands := BuildRestore(names, AllOff(names));
        if NoRepeats(names) { OffWhole(actual, names); }
      }
      ok := Run(commands, done);
      if !ok || services.None? { return; }
      ok := forgets;
      if forgets {
        persisted := None;
        memory := None;
      }
    }

    /** The end of deleteTransparentProxyRules: a clean only when a snapshot is found. */
    method Withdraw(done: nat, forgets: bool, order: seq<string>)
      modifies this
      ensures Value() == Next(old(Value()), Clean(done, forgets, order), names)
    {
      if persisted.Some? { var _ := CleanUp(done, forgets, order); }
    }
  }
}
