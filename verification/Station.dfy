/** Station: the registry of virtual instruments, their comm-error counters, the unified condition
    registry and the driver sessions the instruments share. */
module Stations {
  import opened Conditions

  type Alias = string

  /** One opened bus session. Serial numbers are never reused. */
  datatype Session = Session(alias: Alias, serial: nat)

  /** A live instrument: its registry type, and the sessions it was built on. */
  datatype Instrument = Instrument(viType: string, sessions: map<Alias, Session>)

  datatype ViSpec = ViSpec(viType: string, aliases: seq<Alias>)

  datatype Offline = Offline(viType: string, failed: set<Alias>, connectFailed: bool, operator: bool)

  /** How an instrument answers a build: which sessions open, whether the VI constructs, whether
      it answers the identity query, whether its first poll succeeds. */
  datatype Answers = Answers(opens: Alias -> bool, constructs: bool, pings: bool, polls: bool)

  /** A tripped safety flag: its declared severity (if any VI declares it), who reported it and
      which VIs name it as a concern. */
  datatype FlagReport = FlagReport(severity: Option<Severity>, sources: seq<Name>, concerned: set<Name>)

  function Aliases(spec: ViSpec): set<Alias> {
    set a | a in spec.aliases
  }

  function CommKey(vi: Name): Key { Key(Comm, vi) }

  predicate CommShape(c: Condition, vi: Name) {
    && c.key == CommKey(vi) && c.origin == Comm && c.severity == Hold && c.sources == [vi]
    && c.affected == Some({vi}) && (c.kind == Stale || c.kind == Disconnected)
  }

  // ---- the condition registry as a value ----------------------------------------------------

  type Registry = map<Key, Condition>

  /** since and acknowledged belong to the incident, everything else to the newest report. */
  function Upserted(registry: Registry, c: Condition): Condition {
    if c.key in registry
    then c.(since := registry[c.key].since, acknowledged := registry[c.key].acknowledged)
    else c
  }

  /** The registry after one refresh of `origin` with its complete desired set. */
  ghost predicate RefreshedWith(before: Registry, after: Registry, origin: Origin, desired: Registry) {
    && (forall k :: k in after <==> k in desired || (k in before && before[k].origin != origin))
    && (forall k :: k in desired ==> after[k] == Upserted(before, desired[k]))
    && (forall k :: k in after && k !in desired ==> after[k] == before[k])
  }

  ghost predicate OthersUntouched(before: Registry, after: Registry, origin: Origin) {
    && (forall k :: k in before && before[k].origin != origin ==> k in after && after[k] == before[k])
    && (forall k :: k in after && after[k].origin != origin ==> k in before && after[k] == before[k])
  }

  /** No desired key is already in use by another origin. */
  predicate NoCollision(before: Registry, origin: Origin, desired: Registry) {
    forall k :: k in desired && k in before ==> before[k].origin == origin
  }

  /** An incident present before and after keeps its onset. */
  ghost predicate OnsetsKept(before: Registry, after: Registry) {
    forall k :: k in before && k in after ==> after[k].since == before[k].since
  }

  /** ... and an incident that is new began now. */
  ghost predicate OnsetsRight(before: Registry, after: Registry, now: real) {
    OnsetsKept(before, after) && forall k :: k in after && k !in before ==> after[k].since == now
  }

  ghost predicate AllSince(r: Registry, now: real) {
    forall k :: k in r ==> r[k].since == now
  }

  ghost predicate KeyedByKey(r: Registry) {
    forall k :: k in r ==> r[k].key == k
  }

  /** A refresh leaves the other origins alone exactly when its keys collide with none of theirs;
      the method that refreshes checks the origin of what it is given, but not its keys. */
  lemma RefreshIsScopedIffNoCollision(before: Registry, after: Registry, origin: Origin, desired: Registry)
    requires RefreshedWith(before, after, origin, desired)
    requires KeyedByKey(desired) && forall k :: k in desired ==> desired[k].origin == origin
    ensures OthersUntouched(before, after, origin) <==> NoCollision(before, origin, desired)
    ensures NoCollision(before, origin, desired) ==>
      forall k :: k in after && after[k].origin == origin <==> k in desired
    ensures KeyedByKey(before) ==> OnsetsKept(before, after) && KeyedByKey(after)
    ensures forall now :: KeyedByKey(before) && AllSince(desired, now) ==> OnsetsRight(before, after, now)
  {
    if !NoCollision(before, origin, desired) {
      var k :| k in desired && k in before && before[k].origin != origin;
      assert after[k].origin == origin;
    }
  }

  // ---- the registry over time ---------------------------------------------------------------

  /** The registry as one step left it, and the time of that step. */
  datatype Moment = Moment(at: real, registry: Registry)

  ghost predicate RightAt(history: seq<Moment>, n: nat)
    requires 0 < n < |history|
  {
    OnsetsRight(history[n - 1].registry, history[n].registry, history[n].at)
  }

  /** From an empty registry on, every step keeps the onsets there are and stamps the new ones. */
  ghost predicate Chain(history: seq<Moment>) {
    history != [] && history[0].registry == map[] && forall n :: 0 < n < |history| ==> RightAt(history, n)
  }

  lemma ChainGrows(history: seq<Moment>, m: Moment)
    requires Chain(history) && OnsetsRight(history[|history| - 1].registry, m.registry, m.at)
    ensures Chain(history + [m])
  {
    var longer := history + [m];
    forall n | 0 < n < |longer| ensures RightAt(longer, n) {
      if n < |history| {
        assert RightAt(history, n);
      }
    }
  }

  /** Steps of this time were added. */
  ghost predicate Remembers(before: seq<Moment>, after: seq<Moment>, now: real) {
    before <= after && forall i :: |before| <= i < |after| ==> after[i].at == now
  }

  lemma RemembersAll(before: seq<Moment>, after: seq<Moment>, now: real)
    requires Remembers(before, after, now)
    ensures before <= after
  {
  }

  lemma RemembersOn(a: seq<Moment>, b: seq<Moment>, c: seq<Moment>, now: real)
    requires Remembers(a, b, now) && Remembers(b, c, now)
    ensures Remembers(a, c, now)
  {
  }

  lemma RemembersNothing(history: seq<Moment>, now: real)
    ensures Remembers(history, history, now)
  {
  }

  /** The moment since which a key that is in the newest registry has been there without a break. */
  ghost function Onset(history: seq<Moment>, key: Key): nat
    requires history != []
  {
    if |history| == 1 || key !in history[|history| - 2].registry then |history| - 1
    else Onset(history[..|history| - 1], key)
  }

  /** In every history of a registry: `since` is the time of the step at which the present, unbroken
      presence of the condition began, whatever refreshes, acknowledgements and other producers did
      in between. */
  lemma {:induction false} SinceIsOnset(history: seq<Moment>, key: Key)
    requires Chain(history) && key in history[|history| - 1].registry
    ensures var n := Onset(history, key);
      && 0 < n < |history| && key !in history[n - 1].registry
      && (forall m :: n <= m < |history| ==> key in history[m].registry)
      && history[|history| - 1].registry[key].since == history[n].at
  {
    var last := |history| - 1;
    assert last > 0;
    assert RightAt(history, last);
    if key in history[last - 1].registry {
      var before := history[..last];
      forall n | 0 < n < |before| ensures RightAt(before, n) {
        assert RightAt(history, n);
      }
      SinceIsOnset(before, key);
      forall m | Onset(history, key) <= m < |history| ensures key in history[m].registry {
        assert m < last ==> history[m] == before[m];
      }
    }
  }

  // ---- the registry's producers -------------------------------------------------------------

  /** {c.key: c for c in conditions}: the last condition under a key wins. */
  function ByKey(conditions: seq<Condition>): (r: Registry)
    ensures forall k :: k in r ==> r[k] in conditions && r[k].key == k
    ensures forall c :: c in conditions ==> c.key in r
  {
    if conditions == [] then map[]
    else
      var last := conditions[|conditions| - 1];
      assert conditions == conditions[..|conditions| - 1] + [last];
      ByKey(conditions[..|conditions| - 1])[last.key := last]
  }

  /** Of the conditions under a key, the last one is taken. */
  lemma {:induction false} LastOneWins(conditions: seq<Condition>, i: nat)
    requires i < |conditions| && forall j :: i < j < |conditions| ==> conditions[j].key != conditions[i].key
    ensures conditions[i].key in ByKey(conditions) && ByKey(conditions)[conditions[i].key] == conditions[i]
  {
    if i < |conditions| - 1 {
      LastOneWins(conditions[..|conditions| - 1], i);
    }
  }

  /** The conditions a tripped flag stands for: critical and advisory always, a hold only if it is
      not tolerated and some VI is concerned. */
  ghost predicate Produces(report: FlagReport, tolerated: bool) {
    report.severity.Some? && (report.severity.value.Hold? ==> !tolerated && report.concerned != {})
  }

  ghost function SafetyCondition(flag: Name, report: FlagReport, now: real): Condition
    requires report.severity.Some?
  {
    Condition(Key(Safety, flag), Safety, report.severity.value, Flag(flag), report.sources,
              if report.severity.value.Hold? then Some(report.concerned) else None, now, false)
  }

  ghost predicate IsSafetySlice(desired: Registry, tripped: map<Name, FlagReport>, tolerated: set<Name>, now: real) {
    && (forall k :: k in desired ==> (
          && k.prefix == Safety && k.name in tripped && Produces(tripped[k.name], k.name in tolerated)
          && desired[k] == SafetyCondition(k.name, tripped[k.name], now)))
    && (forall f :: f in tripped && Produces(tripped[f], f in tolerated) ==> Key(Safety, f) in desired)
  }

  /** Every condition but the VI's own comm condition is what it was. */
  ghost predicate OthersStand(vi: Name, before: Registry, after: Registry) {
    && (forall k :: k != CommKey(vi) ==> (k in after <==> k in before))
    && (forall k :: k != CommKey(vi) && k in after ==> after[k] == before[k])
  }

  /** A comm condition that lasts keeps its acknowledgement, and a new one has none. */
  ghost predicate AckStands(vi: Name, before: Registry, after: Registry) {
    CommKey(vi) in after ==>
      (after[CommKey(vi)].acknowledged <==> CommKey(vi) in before && before[CommKey(vi)].acknowledged)
  }

  // ---- sessions ------------------------------------------------------------------------------

  /** The sessions the other live instruments hold. */
  ghost function HeldByOthers(vis: map<Name, Instrument>, vi: Name): set<Session> {
    set w, a | w in vis && w != vi && a in vis[w].sessions :: vis[w].sessions[a]
  }

  /** None of these sessions is closed, and the driver map still names those that are open. */
  ghost predicate Spared(held: set<Session>, closed: set<Session>, closed': set<Session>, drivers: map<Alias, Session>,
          drivers': map<Alias, Session>)
  {
    forall s :: s in held ==> (
      && (s in closed' <==> s in closed)
      && (s !in closed && s.alias in drivers && drivers[s.alias] == s ==>
            s.alias in drivers' && drivers'[s.alias] == s))
  }

  /** What an operation on `vi` must leave alone: the other live instruments and their sessions. */
  ghost predicate OthersKeepSessions(vi: Name, vis: map<Name, Instrument>, vis': map<Name, Instrument>,
          closed: set<Session>, closed': set<Session>, drivers: map<Alias, Session>, drivers': map<Alias, Session>)
  {
    vis' - {vi} == vis - {vi} && Spared(HeldByOthers(vis, vi), closed, closed', drivers, drivers')
  }

  /** The driver map and the next serial number after opening what is missing of a recipe, one alias
      after the other. */
  function OpenedInOrder(drivers: map<Alias, Session>, serial: nat, aliases: seq<Alias>): (map<Alias, Session>, nat) {
    if aliases == [] then (drivers, serial)
    else
      var a := aliases[|aliases| - 1];
      var (open, next) := OpenedInOrder(drivers, serial, aliases[..|aliases| - 1]);
      if a in open then (open, next) else (open[a := Session(a, next)], next + 1)
  }

  /** The sessions the driver map names for these aliases. */
  ghost function SessionsOf(drivers: map<Alias, Session>, aliases: set<Alias>): set<Session> {
    set a | a in aliases && a in drivers :: drivers[a]
  }

  /** The recipe of another of these VIs needs the driver too. */
  ghost predicate Shared(specs: map<Name, ViSpec>, users: set<Name>, vi: Name, a: Alias) {
    exists w :: w in users && w in specs && w != vi && a in specs[w].aliases
  }

  /** The sessions of the VI's recipe that it does not share are closed and forgotten; every other
      session stands. */
  ghost predicate LetGo(specs: map<Name, ViSpec>, users: set<Name>, vi: Name, drivers: map<Alias, Session>,
          drivers': map<Alias, Session>, closed: set<Session>, closed': set<Session>)
  {
    && drivers'.Keys <= drivers.Keys && closed <= closed'
    && (forall a :: a in drivers ==>
          if vi in specs && a in specs[vi].aliases && !Shared(specs, users, vi, a)
          then a !in drivers' && drivers[a] in closed'
          else a in drivers' && drivers'[a] == drivers[a])
    && (forall s :: s in closed' && s !in closed ==> exists a :: a in drivers && a !in drivers' && drivers[a] == s)
  }

  lemma ReleasedIsLetGo(specs: map<Name, ViSpec>, users: set<Name>, vi: Name, drivers: map<Alias, Session>,
          closed: set<Session>, own: set<Alias>)
    requires forall a :: a in own <==> vi in specs && a in specs[vi].aliases && !Shared(specs, users, vi, a)
    ensures LetGo(specs, users, vi, drivers, drivers - own, closed, closed + SessionsOf(drivers, own))
  {
    hide Shared;
  }

  lemma SharedIgnores(specs: map<Name, ViSpec>, users: set<Name>, users': set<Name>, vi: Name,
          drivers: map<Alias, Session>, drivers': map<Alias, Session>, closed: set<Session>, closed': set<Session>)
    requires users - {vi} == users' - {vi}
    ensures LetGo(specs, users, vi, drivers, drivers', closed, closed') <==>
      LetGo(specs, users', vi, drivers, drivers', closed, closed')
  {
    forall a ensures Shared(specs, users, vi, a) <==> Shared(specs, users', vi, a) {
      assert forall w :: w != vi ==> (w in users <==> w in users - {vi}) && (w in users' <==> w in users' - {vi});
    }
    hide Shared;
  }

  /** An instrument built anew: what it does not share was reopened, what it shares was kept. */
  ghost predicate Reopened(specs: map<Name, ViSpec>, users: set<Name>, vi: Name, sessions: map<Alias, Session>,
          drivers: map<Alias, Session>, closed': set<Session>, serial: nat)
  {
    vi in specs && forall a :: a in specs[vi].aliases ==>
      && a in sessions
      && (!Shared(specs, users, vi, a) ==> sessions[a].serial >= serial && (a in drivers ==> drivers[a] in closed'))
      && (Shared(specs, users, vi, a) && a in drivers ==> sessions[a] == drivers[a])
  }

  /** Opening keeps what is open; what it adds is new. */
  lemma {:induction false} OpenedIsNew(drivers: map<Alias, Session>, serial: nat, aliases: seq<Alias>)
    ensures var (open, next) := OpenedInOrder(drivers, serial, aliases);
      && next >= serial && (forall a :: a in aliases ==> a in open)
      && (forall a :: a in drivers ==> a in open && open[a] == drivers[a])
      && (forall a :: a in open && a !in drivers ==> open[a].serial >= serial)
  {
    if aliases != [] {
      OpenedIsNew(drivers, serial, aliases[..|aliases| - 1]);
    }
  }

  lemma LetGoIsReopened(specs: map<Name, ViSpec>, users: set<Name>, vi: Name, drivers: map<Alias, Session>,
          mid: map<Alias, Session>, closed: set<Session>, closed': set<Session>, serial: nat,
          sessions: map<Alias, Session>)
    requires vi in specs && LetGo(specs, users, vi, drivers, mid, closed, closed')
    requires var open := OpenedInOrder(mid, serial, specs[vi].aliases).0;
      forall a :: a in specs[vi].aliases ==> a in sessions && a in open && sessions[a] == open[a]
    ensures Reopened(specs, users, vi, sessions, drivers, closed', serial)
  {
    hide Shared;
    OpenedIsNew(mid, serial, specs[vi].aliases);
  }

  /** The instruments and their sessions. */
  datatype Bench = Bench(vis: map<Name, Instrument>, drivers: map<Alias, Session>, closed: set<Session>)

  function SessionsIn(i: Instrument): set<Session> {
    set a | a in i.sessions :: i.sessions[a]
  }

  /** A live instrument is still there, built on the same sessions; none of them was closed, and the
      driver map still names those that are open. */
  ghost predicate Keeps(v: Name, before: Bench, after: Bench) {
    v in before.vis ==>
      && v in after.vis && after.vis[v] == before.vis[v]
      && Spared(SessionsIn(before.vis[v]), before.closed, after.closed, before.drivers, after.drivers)
  }

  lemma KeepsOn(v: Name, a: Bench, b: Bench, c: Bench)
    requires Keeps(v, a, b) && Keeps(v, b, c)
    ensures Keeps(v, a, c)
  {
    if v in a.vis {
      SparedTwice(SessionsIn(a.vis[v]), a.closed, b.closed, c.closed, a.drivers, b.drivers, c.drivers);
    }
  }

  lemma OthersAreKept(vi: Name, v: Name, before: Bench, after: Bench)
    requires OthersKeepSessions(vi, before.vis, after.vis, before.closed, after.closed, before.drivers, after.drivers)
    requires v != vi
    ensures Keeps(v, before, after)
  {
    if v in before.vis {
      assert v in before.vis - {vi} && (before.vis - {vi})[v] == before.vis[v];
      assert v in after.vis - {vi} && (after.vis - {vi})[v] == after.vis[v];
      assert forall s :: s in SessionsIn(before.vis[v]) ==> s in HeldByOthers(before.vis, vi);
    }
  }

  lemma OpeningSpares(held: set<Session>, closed: set<Session>, drivers: map<Alias, Session>,
          drivers': map<Alias, Session>)
    requires forall a :: a in drivers ==> a in drivers' && drivers'[a] == drivers[a]
    ensures Spared(held, closed, closed, drivers, drivers')
  {
  }

  lemma SparedTwice(held: set<Session>, c0: set<Session>, c1: set<Session>, c2: set<Session>, d0: map<Alias, Session>,
          d1: map<Alias, Session>, d2: map<Alias, Session>)
    requires Spared(held, c0, c1, d0, d1) && Spared(held, c1, c2, d1, d2)
    ensures Spared(held, c0, c2, d0, d2)
  {
  }

  lemma HeldByOthersIgnores(vis: map<Name, Instrument>, vis': map<Name, Instrument>, vi: Name)
    requires vis' - {vi} == vis - {vi}
    ensures HeldByOthers(vis', vi) == HeldByOthers(vis, vi)
  {
    assert forall w :: w in vis' && w != vi ==> w in vis' - {vi} && (vis' - {vi})[w] == vis'[w];
    assert forall w :: w in vis && w != vi ==> w in vis - {vi} && (vis - {vi})[w] == vis[w];
  }

  /** Closing sessions never breaks the agreement, and spares the others when no other live VI's
      recipe mentions the aliases. */
  lemma ReleaseAgrees(specs: map<Name, ViSpec>, vis: map<Name, Instrument>, drivers: map<Alias, Session>,
          closed: set<Session>, nextSerial: nat, aliases: set<Alias>, vi: Name)
    requires SessionsAgree(specs, vis, drivers, closed, nextSerial)
    ensures var closed' := closed + SessionsOf(drivers, aliases);
      && SessionsAgree(specs, vis, drivers - aliases, closed', nextSerial)
      && ((forall w :: w in vis && w in specs && w != vi ==> Aliases(specs[w]) !! aliases) ==>
            Spared(HeldByOthers(vis, vi), closed, closed', drivers, drivers - aliases))
  {
    var closed' := closed + SessionsOf(drivers, aliases);
    forall n: nat | n < nextSerial ensures Accounted(n, drivers - aliases, closed') {
      assert Accounted(n, drivers, closed);
      if a :| a in drivers && drivers[a].serial == n {
        assert a in aliases ==> drivers[a] in closed';
        assert a !in aliases ==> a in drivers - aliases;
      }
    }
    forall v | v in vis ensures InstrumentAgrees(specs, v, vis[v], drivers - aliases, closed', nextSerial) {
      assert InstrumentAgrees(specs, v, vis[v], drivers, closed, nextSerial);
    }
    if forall w :: w in vis && w in specs && w != vi ==> Aliases(specs[w]) !! aliases {
      forall s | s in HeldByOthers(vis, vi)
        ensures s in closed' <==> s in closed
        ensures s !in closed && s.alias in drivers && drivers[s.alias] == s ==> s.alias in drivers - aliases
      {
        var w, a :| w in vis && w != vi && a in vis[w].sessions && s == vis[w].sessions[a];
        assert InstrumentAgrees(specs, w, vis[w], drivers, closed, nextSerial);
      }
    }
  }

  lemma BuiltAgrees(specs: map<Name, ViSpec>, vis: map<Name, Instrument>, drivers: map<Alias, Session>,
          closed: set<Session>, nextSerial: nat, vi: Name, built: Instrument)
    requires SessionsAgree(specs, vis, drivers, closed, nextSerial) && vi in specs
    requires built.sessions.Keys == Aliases(specs[vi]) && AllOpen(built, closed, drivers)
    ensures SessionsAgree(specs, vis[vi := built], drivers, closed, nextSerial)
  {
    var vis' := vis[vi := built];
    forall v | v in vis' ensures InstrumentAgrees(specs, v, vis'[v], drivers, closed, nextSerial) {
      if v != vi {
        assert InstrumentAgrees(specs, v, vis[v], drivers, closed, nextSerial);
      }
    }
  }

  lemma LeaverAgrees(specs: map<Name, ViSpec>, vis: map<Name, Instrument>, drivers: map<Alias, Session>,
          closed: set<Session>, nextSerial: nat, vi: Name)
    requires SessionsAgree(specs, vis, drivers, closed, nextSerial)
    ensures SessionsAgree(specs, vis - {vi}, drivers, closed, nextSerial)
  {
    var vis' := vis - {vi};
    forall v | v in vis' ensures InstrumentAgrees(specs, v, vis'[v], drivers, closed, nextSerial) {
      assert InstrumentAgrees(specs, v, vis[v], drivers, closed, nextSerial);
    }
  }

  /** One more open session under an alias the map does not have. */
  lemma OpenAgrees(specs: map<Name, ViSpec>, vis: map<Name, Instrument>, drivers: map<Alias, Session>,
          closed: set<Session>, nextSerial: nat, a: Alias)
    requires SessionsAgree(specs, vis, drivers, closed, nextSerial) && a !in drivers
    ensures SessionsAgree(specs, vis, drivers[a := Session(a, nextSerial)], closed, nextSerial + 1)
  {
    var more := drivers[a := Session(a, nextSerial)];
    forall n: nat | n < nextSerial + 1 ensures Accounted(n, more, closed) {
      if n == nextSerial {
        assert a in more && more[a].serial == n;
      } else {
        assert Accounted(n, drivers, closed);
        if b :| b in drivers && drivers[b].serial == n {
          assert b in more && more[b].serial == n;
        }
      }
    }
    forall v | v in vis
      ensures InstrumentAgrees(specs, v, vis[v], drivers[a := Session(a, nextSerial)], closed, nextSerial + 1) {
      assert InstrumentAgrees(specs, v, vis[v], drivers, closed, nextSerial);
    }
  }

  ghost predicate AllOpen(i: Instrument, closed: set<Session>, drivers: map<Alias, Session>) {
    forall a :: a in i.sessions ==> i.sessions[a] !in closed && a in drivers && drivers[a] == i.sessions[a]
  }

  // ---- what a station keeps -----------------------------------------------------------------

  ghost predicate NamesAgree(vis: set<Name>, counted: set<Name>, offline: set<Name>) {
    vis == counted && vis !! offline
  }

  ghost predicate InstrumentAgrees(specs: map<Name, ViSpec>, v: Name, i: Instrument, drivers: map<Alias, Session>,
          closed: set<Session>, nextSerial: nat)
  {
    && i.sessions.Keys == (if v in specs then Aliases(specs[v]) else {})
    && forall a :: a in i.sessions ==>
         && i.sessions[a].alias == a && i.sessions[a].serial < nextSerial
         && (i.sessions[a] !in closed ==> a in drivers && drivers[a] == i.sessions[a])
  }

  /** The session with this serial number is in the driver map, or it was closed. */
  ghost predicate Accounted(n: nat, drivers: map<Alias, Session>, closed: set<Session>) {
    (exists a :: a in drivers && drivers[a].serial == n) || (exists s :: s in closed && s.serial == n)
  }

  /** The driver map holds open sessions only, an instrument's session is either the one the map names
      for that alias, or closed, and no session ever opened has leaked. */
  ghost predicate SessionsAgree(specs: map<Name, ViSpec>, vis: map<Name, Instrument>, drivers: map<Alias, Session>,
          closed: set<Session>, nextSerial: nat)
  {
    && (forall a :: a in drivers ==> drivers[a].alias == a && drivers[a] !in closed && drivers[a].serial < nextSerial)
    && (forall s :: s in closed ==> s.serial < nextSerial)
    && (forall n: nat :: n < nextSerial ==> Accounted(n, drivers, closed))
    && (forall v :: v in vis ==> InstrumentAgrees(specs, v, vis[v], drivers, closed, nextSerial))
  }

  /** Keys and origins agree, and every condition is well formed. */
  ghost predicate KeysOwned(r: Registry) {
    forall k :: k in r ==> r[k].key == k && r[k].origin == k.prefix && r[k].WellFormed()
  }

  ghost predicate KindMatches(r: Registry, counts: map<Name, int>, maxErrors: int, v: Name) {
    CommKey(v) in r && v in counts ==> (r[CommKey(v)].kind.Disconnected? <==> counts[v] >= maxErrors)
  }

  /** A comm condition names a live VI; it stands exactly while that VI has errors; and it says
      "disconnected" exactly from the threshold on. */
  ghost predicate CommAgrees(r: Registry, live: set<Name>, counts: map<Name, int>, maxErrors: int) {
    && (forall v :: CommKey(v) in r ==> v in live && CommShape(r[CommKey(v)], v))
    && (maxErrors >= 1 ==> forall v :: v in live && v in counts ==>
          counts[v] >= 0 && (CommKey(v) in r <==> counts[v] > 0))
    && (maxErrors >= 2 ==> forall v :: v in live ==> KindMatches(r, counts, maxErrors, v))
  }

  lemma SliceKeepsOwned(before: Registry, after: Registry, origin: Origin, desired: Registry)
    requires KeysOwned(before) && KeysOwned(desired) && RefreshedWith(before, after, origin, desired)
    requires forall k :: k in desired ==> k.prefix == origin
    ensures KeysOwned(after)
    ensures forall k: Key :: k.prefix != origin ==> (k in after <==> k in before)
    ensures forall k: Key :: k.prefix != origin && k in after ==> after[k] == before[k]
    ensures forall k: Key :: k.prefix == origin ==> (k in after <==> k in desired)
  {
  }

  /** A producer that keeps to its own keys and stamps what it finds. */
  lemma SliceRefreshed(before: Registry, after: Registry, origin: Origin, desired: Registry, now: real)
    requires KeysOwned(before) && KeysOwned(desired) && RefreshedWith(before, after, origin, desired)
    requires (forall k :: k in desired ==> k.prefix == origin) && AllSince(desired, now)
    ensures KeysOwned(after) && OthersUntouched(before, after, origin) && OnsetsRight(before, after, now)
  {
    RefreshIsScopedIffNoCollision(before, after, origin, desired);
    SliceKeepsOwned(before, after, origin, desired);
  }

  lemma SafetyRefreshed(before: Registry, after: Registry, desired: Registry, tripped: map<Name, FlagReport>,
          tolerated: set<Name>, now: real)
    requires KeysOwned(before) && RefreshedWith(before, after, Safety, desired)
    requires IsSafetySlice(desired, tripped, tolerated, now)
    ensures KeysOwned(after) && OthersUntouched(before, after, Safety) && OnsetsRight(before, after, now)
    ensures forall k: Key :: k.prefix == Comm ==> (k in after <==> k in before)
    ensures forall k: Key :: k.prefix == Comm && k in after ==> after[k] == before[k]
    ensures forall f :: Key(Safety, f) in after <==> f in tripped && Produces(tripped[f], f in tolerated)
    ensures forall f :: f in tripped && Produces(tripped[f], f in tolerated) ==>
      after[Key(Safety, f)] == Upserted(before, SafetyCondition(f, tripped[f], now))
  {
    hide OnsetsRight;
    SliceRefreshed(before, after, Safety, desired, now);
    SliceKeepsOwned(before, after, Safety, desired);
  }

  /** Only the comm slice matters, and of it only presence, shape and kind. */
  lemma CommFrame(r: Registry, r': Registry, live: set<Name>, counts: map<Name, int>, maxErrors: int)
    requires CommAgrees(r, live, counts, maxErrors)
    requires forall v :: CommKey(v) in r' <==> CommKey(v) in r
    requires forall v :: CommKey(v) in r' ==> CommShape(r'[CommKey(v)], v) && r'[CommKey(v)].kind == r[CommKey(v)].kind
    ensures CommAgrees(r', live, counts, maxErrors)
  {
    forall v | v in live && maxErrors >= 2 ensures KindMatches(r', counts, maxErrors, v) {
      assert KindMatches(r, counts, maxErrors, v);
    }
  }

  /** One VI's counter and condition change together. */
  lemma CommOne(r: Registry, r': Registry, live: set<Name>, counts: map<Name, int>, counts': map<Name, int>,
          maxErrors: int, vi: Name)
    requires CommAgrees(r, live, counts, maxErrors)
    requires forall v :: v != vi ==> (CommKey(v) in r' <==> CommKey(v) in r)
    requires forall v :: v != vi && CommKey(v) in r' ==> r'[CommKey(v)] == r[CommKey(v)]
    requires forall v :: v != vi ==> (v in counts' <==> v in counts) && (v in counts ==> counts'[v] == counts[v])
    requires CommKey(vi) in r' ==> vi in live && CommShape(r'[CommKey(vi)], vi)
    requires maxErrors >= 1 && vi in counts' ==> counts'[vi] >= 0 && (CommKey(vi) in r' <==> counts'[vi] > 0)
    requires maxErrors >= 2 ==> KindMatches(r', counts', maxErrors, vi)
    ensures CommAgrees(r', live, counts', maxErrors)
  {
    forall v | v in live && maxErrors >= 2 ensures KindMatches(r', counts', maxErrors, v) {
      assert KindMatches(r, counts, maxErrors, v);
    }
  }

  lemma FaultRecorded(r: Registry, r': Registry, live: set<Name>, counts: map<Name, int>, counts': map<Name, int>,
          maxErrors: int, vi: Name)
    requires KeysOwned(r) && CommAgrees(r, live, counts, maxErrors) && vi in live && vi in counts'
    requires r'.Keys == r.Keys + {CommKey(vi)} && CommShape(r'[CommKey(vi)], vi)
    requires forall k :: k in r && k != CommKey(vi) ==> r'[k] == r[k]
    requires counts' == counts[vi := counts'[vi]] && (maxErrors >= 1 ==> counts'[vi] > 0)
    requires maxErrors >= 2 ==> (r'[CommKey(vi)].kind.Disconnected? <==> counts'[vi] >= maxErrors)
    ensures KeysOwned(r') && CommAgrees(r', live, counts', maxErrors) && OthersStand(vi, r, r')
  {
    CommOne(r, r', live, counts, counts', maxErrors, vi);
  }

  /** No comm condition is touched. */
  lemma CommUntouched(r: Registry, r': Registry, live: set<Name>, counts: map<Name, int>, maxErrors: int)
    requires CommAgrees(r, live, counts, maxErrors)
    requires forall k: Key :: k.prefix == Comm ==> (k in r' <==> k in r)
    requires forall k: Key :: k.prefix == Comm && k in r' ==> r'[k] == r[k]
    ensures CommAgrees(r', live, counts, maxErrors)
  {
    CommFrame(r, r', live, counts, maxErrors);
  }

  lemma CommJoins(r: Registry, live: set<Name>, live': set<Name>, counts: map<Name, int>, counts': map<Name, int>,
          maxErrors: int, vi: Name)
    requires CommAgrees(r, live, counts, maxErrors) && vi !in live
    requires live' == live + {vi} && counts' == counts[vi := 0]
    ensures CommAgrees(r, live', counts', maxErrors)
  {
    forall v | v in live' && maxErrors >= 2 ensures KindMatches(r, counts', maxErrors, v) {
      assert v != vi ==> KindMatches(r, counts, maxErrors, v);
    }
  }

  lemma CommLeaves(r: Registry, r': Registry, live: set<Name>, live': set<Name>, counts: map<Name, int>,
          counts': map<Name, int>, maxErrors: int, vi: Name)
    requires CommAgrees(r, live, counts, maxErrors)
    requires live' == live - {vi} && counts' == counts - {vi} && r' == r - {CommKey(vi)}
    ensures CommAgrees(r', live', counts', maxErrors)
  {
    forall v | v in live' && maxErrors >= 2 ensures KindMatches(r', counts', maxErrors, v) {
      assert KindMatches(r, counts, maxErrors, v);
    }
  }

  function NextCount(count: int, answered: bool): int {
    if answered then 0 else count + 1
  }

  /** Half-way through a poll of all VIs: those still to do keep their counts and conditions, those
      done count one error more and have a condition exactly if they did not answer. */
  ghost predicate PolledSoFar(before: Registry, after: Registry, counts: map<Name, int>, counts': map<Name, int>,
          live: set<Name>, todo: set<Name>, answers: Name -> bool)
  {
    && (forall k: Key :: k.prefix != Comm || k.name in todo ==> (k in after <==> k in before))
    && (forall k: Key :: (k.prefix != Comm || k.name in todo) && k in after ==> after[k] == before[k])
    && (forall v :: v in live && v !in todo ==>
          (CommKey(v) in after <==> !answers(v)) && AckStands(v, before, after))
    && counts.Keys == counts'.Keys == live
    && (forall v :: v in live ==> counts'[v] == if v in todo then counts[v] else NextCount(counts[v], answers(v)))
  }

  lemma NothingPolled(r: Registry, counts: map<Name, int>, live: set<Name>, answers: Name -> bool)
    requires counts.Keys == live
    ensures PolledSoFar(r, r, counts, counts, live, live, answers)
  {
  }

  lemma PolledOneMore(before: Registry, mid: Registry, after: Registry, counts: map<Name, int>,
          midCounts: map<Name, int>, counts': map<Name, int>, live: set<Name>, todo: set<Name>, answers: Name -> bool,
          v: Name, answered: bool)
    requires PolledSoFar(before, mid, counts, midCounts, live, todo, answers)
    requires v in todo && v in live && answered == answers(v)
    requires OthersStand(v, mid, after) && (CommKey(v) in after <==> !answered) && AckStands(v, mid, after)
    requires counts' == midCounts[v := NextCount(midCounts[v], answered)]
    ensures PolledSoFar(before, after, counts, counts', live, todo - {v}, answers)
    ensures CommKey(v) in mid <==> CommKey(v) in before
  {
  }

  lemma SameOnsets(r: Registry, now: real)
    ensures OnsetsRight(r, r, now)
  {
  }

  /** A step on a VI that was not polled yet. */
  lemma OnsetsOneMore(before: Registry, mid: Registry, after: Registry, v: Name, now: real)
    requires OnsetsRight(before, mid, now) && OnsetsRight(mid, after, now) && OthersStand(v, mid, after)
    requires CommKey(v) in mid <==> CommKey(v) in before
    ensures OnsetsRight(before, after, now)
  {
    forall k | k in before && k in after ensures after[k].since == before[k].since {
      assert k in mid;
    }
    forall k | k in after && k !in before ensures after[k].since == now {
      assert k in mid ==> mid[k].since == now;
    }
  }

  class Station {
    var vis: map<Name, Instrument>
    var errorCounts: map<Name, int>
    var conditions: Registry
    var offline: map<Name, Offline>
    var drivers: map<Alias, Session>
    const viSpecs: map<Name, ViSpec>
    const maxErrors: int
    ghost var closed: set<Session>
    ghost var history: seq<Moment>
    var nextSerial: nat

    ghost predicate NamesValid()
      reads this`vis, this`errorCounts, this`offline
    {
      NamesAgree(vis.Keys, errorCounts.Keys, offline.Keys)
    }

    ghost predicate SessionsValid()
      reads this`vis, this`drivers, this`closed, this`nextSerial
    {
      SessionsAgree(viSpecs, vis, drivers, closed, nextSerial)
    }

    ghost predicate RegistryValid()
      reads this`conditions
    {
      KeysOwned(conditions)
    }

    ghost predicate CommValid()
      reads this`vis, this`errorCounts, this`conditions
    {
      CommAgrees(conditions, vis.Keys, errorCounts, maxErrors)
    }

    ghost predicate KindAgrees(v: Name)
      reads this`errorCounts, this`conditions
    {
      KindMatches(conditions, errorCounts, maxErrors, v)
    }

    /** What the registry was at every step so far. */
    ghost predicate HistoryValid()
      reads this`conditions, this`history
    {
      Chain(history) && history[|history| - 1].registry == conditions
    }

    /** The newest step of the history is of this moment. */
    ghost predicate LastSeen(now: real)
      reads this`history
    {
      history != [] && history[|history| - 1].at == now
    }

    /** Steps of this time were added to the history. */
    twostate predicate HistoryGrows(now: real)
      reads this`history
    {
      Remembers(old(history), history, now)
    }

    ghost predicate Valid()
      reads this
    {
      NamesValid() && SessionsValid() && RegistryValid() && CommValid() && HistoryValid()
    }

    ghost function TheBench(): Bench
      reads this`vis, this`drivers, this`closed
    {
      Bench(vis, drivers, closed)
    }

    ghost method Remember(now: real)
      requires Chain(history) && OnsetsRight(history[|history| - 1].registry, conditions, now)
      modifies this`history
      ensures HistoryValid() && history == old(history) + [Moment(now, conditions)]
    {
      ChainGrows(history, Moment(now, conditions));
      history := history + [Moment(now, conditions)];
    }

    /** A station of configured instruments, none of them connected yet. */
    constructor (specs: map<Name, ViSpec>, maxErrors: int)
      ensures Valid() && vis == map[] && conditions == map[] && offline.Keys == specs.Keys
      ensures closed == {} && nextSerial == 0 && |history| == 1
      ensures forall v :: v in offline ==> offline[v] == Offline(specs[v].viType, {}, true, false)
      ensures this.viSpecs == specs && this.maxErrors == maxErrors
    {
      viSpecs, this.maxErrors := specs, maxErrors;
      vis, errorCounts, conditions := map[], map[], map[];
      offline := map v | v in specs :: Offline(specs[v].viType, {}, true, false);
      drivers, closed, nextSerial, history := map[], {}, 0, [Moment(0.0, map[])];
    }

    // ---- conditions --------------------------------------------------------------------------

    method UpsertCondition(c: Condition)
      modifies this`conditions
      ensures conditions == old(conditions)[c.key := Upserted(old(conditions), c)]
    {
      var stored := c;
      if c.key in conditions {
        stored := c.(since := conditions[c.key].since, acknowledged := conditions[c.key].acknowledged);
      }
      conditions := conditions[c.key := stored];
    }

    method RecordCommCondition(vi: Name, kind: Kind, now: real)
      requires kind == Stale || kind == Disconnected
      modifies this`conditions
      ensures conditions.Keys == old(conditions).Keys + {CommKey(vi)}
      ensures CommShape(conditions[CommKey(vi)], vi) && conditions[CommKey(vi)].kind == kind
      ensures OnsetsRight(old(conditions), conditions, now) && AckStands(vi, old(conditions), conditions)
      ensures forall k :: k in old(conditions) && k != CommKey(vi) ==> conditions[k] == old(conditions)[k]
    {
      UpsertCondition(Condition(CommKey(vi), Comm, Hold, kind, [vi], Some({vi}), now, false));
    }

    method ClearFault(vi: Name)
      modifies this`conditions
      ensures conditions == old(conditions) - {CommKey(vi)}
    {
      conditions := conditions - {CommKey(vi)};
    }

    method AcknowledgeCondition(key: Key, ghost now: real) returns (ok: bool)
      requires Valid()
      modifies this`conditions, this`history
      ensures Valid() && ok == (key in old(conditions)) && HistoryGrows(now)
      ensures conditions == if ok
        then old(conditions)[key := old(conditions)[key].(acknowledged := true)] else old(conditions)
    {
      if key !in conditions {
        return false;
      }
      CommFrame(conditions, conditions[key := conditions[key].(acknowledged := true)], vis.Keys, errorCounts,
        maxErrors);
      conditions := conditions[key := conditions[key].(acknowledged := true)];
      Remember(now);
      ok := true;
    }

    /** The registry's conditions, each once, in no particular order. */
    method ConditionList() returns (list: seq<Condition>)
      requires RegistryValid()
      ensures forall c :: c in list <==> c.key in conditions && conditions[c.key] == c
    {
      list := [];
      var todo := conditions.Keys;
      while todo != {}
        invariant todo <= conditions.Keys
        invariant forall c :: c in list <==> c.key in conditions.Keys - todo && conditions[c.key] == c
        decreases todo
      {
        var k :| k in todo;
        list := list + [conditions[k]];
        todo := todo - {k};
      }
    }

    /** Prune the origin's own conditions that are no longer desired, then upsert the desired ones. */
    method Refresh(origin: Origin, desired: Registry)
      requires KeyedByKey(desired)
      modifies this`conditions
      ensures RefreshedWith(old(conditions), conditions, origin, desired)
    {
      var stale := set k | k in conditions && conditions[k].origin == origin && k !in desired;
      conditions := conditions - stale;
      var todo := desired.Keys;
      while todo != {}
        invariant todo <= desired.Keys
        invariant forall k :: k in conditions <==> k in desired.Keys - todo || (k in old(conditions) && k !in stale)
        invariant forall k :: k in desired.Keys - todo ==> conditions[k] == Upserted(old(conditions), desired[k])
        invariant forall k :: k in conditions && k !in desired.Keys - todo ==> conditions[k] == old(conditions)[k]
        decreases todo
      {
        var k :| k in todo;
        UpsertCondition(desired[k]);
        todo := todo - {k};
      }
    }

    /** Replace the origin's active conditions. A condition of another origin in the argument is an
        error, and then nothing changes. */
    method PublishConditions(origin: Origin, given: seq<Condition>) returns (ok: bool)
      modifies this`conditions
      ensures ok <==> forall k :: k in ByKey(given) ==> ByKey(given)[k].origin == origin
      ensures ok ==> RefreshedWith(old(conditions), conditions, origin, ByKey(given))
      ensures !ok ==> conditions == old(conditions)
    {
      var desired := ByKey(given);
      if k :| k in desired && desired[k].origin != origin {
        assert ByKey(given)[k].origin != origin;
        return false;
      }
      Refresh(origin, desired);
      ok := true;
    }

    /** The trend checks publish under keys of their own; then the station stays valid and only the
        trend slice moves. */
    method PublishTrend(given: seq<Condition>, now: real) returns (ok: bool)
      requires Valid()
      requires forall c :: c in given ==> c.key.prefix == Trend && c.origin == Trend && c.WellFormed() && c.since == now
      modifies this`conditions, this`history
      ensures Valid() && ok && OthersUntouched(old(conditions), conditions, Trend)
      ensures forall k :: k in conditions && k.prefix == Trend <==> k in ByKey(given)
      ensures OnsetsRight(old(conditions), conditions, now) && HistoryGrows(now)
    {
      hide CommAgrees, SessionsAgree, NamesAgree, Chain, RefreshedWith, OnsetsRight;
      ok := PublishConditions(Trend, given);
      SliceRefreshed(old(conditions), conditions, Trend, ByKey(given), now);
      SliceKeepsOwned(old(conditions), conditions, Trend, ByKey(given));
      CommUntouched(old(conditions), conditions, vis.Keys, errorCounts, maxErrors);
      Remember(now);
    }

    /** Refresh the safety slice from this tick's flags. */
    method UpdateConditions(tripped: map<Name, FlagReport>, tolerated: set<Name>, now: real)
      requires Valid()
      modifies this`conditions, this`history
      ensures Valid() && OnsetsRight(old(conditions), conditions, now) && HistoryGrows(now) && LastSeen(now)
      ensures OthersUntouched(old(conditions), conditions, Safety)
      ensures forall f :: Key(Safety, f) in conditions <==> f in tripped && Produces(tripped[f], f in tolerated)
      ensures forall f :: f in tripped && Produces(tripped[f], f in tolerated) ==>
        conditions[Key(Safety, f)] == Upserted(old(conditions), SafetyCondition(f, tripped[f], now))
    {
      hide CommAgrees, SessionsAgree, NamesAgree, Chain, OnsetsRight, RefreshedWith, IsSafetySlice, OthersUntouched;
      hide KeysOwned;
      var desired := SafetySlice(tripped, tolerated, now);
      Refresh(Safety, desired);
      SafetyRefreshed(old(conditions), conditions, desired, tripped, tolerated, now);
      CommUntouched(old(conditions), conditions, vis.Keys, errorCounts, maxErrors);
      Remember(now);
    }

    method SafetySlice(tripped: map<Name, FlagReport>, tolerated: set<Name>, now: real) returns (desired: Registry)
      ensures IsSafetySlice(desired, tripped, tolerated, now) && KeyedByKey(desired)
    {
      desired := map[];
      var todo := tripped.Keys;
      while todo != {}
        invariant todo <= tripped.Keys && IsSafetySlice(desired, tripped - todo, tolerated, now)
        decreases todo
      {
        var f :| f in todo;
        var report := tripped[f];
        if report.severity.Some? {
          if report.severity.value.Hold? {
            if f !in tolerated && report.concerned != {} {
              desired := desired[Key(Safety, f) := Condition(Key(Safety, f), Safety, Hold, Flag(f), report.sources,
                                                             Some(report.concerned), now, false)];
            }
          } else {
            desired := desired[Key(Safety, f) := Condition(Key(Safety, f), Safety, report.severity.value, Flag(f),
                                                           report.sources, None, now, false)];
          }
        }
        todo := todo - {f};
      }
      assert tripped - todo == tripped;
    }

    // ---- polling -----------------------------------------------------------------------------

    /** Poll every live VI: a success clears its fault, a comm error counts and records it; a fault that
        is new began now. */
    method GetState(answers: Name -> bool, now: real)
      requires Valid()
      modifies this`errorCounts, this`conditions, this`history
      ensures Valid() && OnsetsRight(old(conditions), conditions, now) && HistoryGrows(now)
      ensures PolledSoFar(old(conditions), conditions, old(errorCounts), errorCounts, vis.Keys, {}, answers)
    {
      hide OnsetsRight, OthersStand, PolledSoFar, Chain, CommAgrees, SessionsAgree, KeysOwned;
      var todo := vis.Keys;
      NothingPolled(conditions, errorCounts, vis.Keys, answers);
      assert OnsetsRight(conditions, conditions, now) by { SameOnsets(conditions, now); }
      while todo != {}
        invariant Valid() && todo <= vis.Keys && OnsetsRight(old(conditions), conditions, now) && HistoryGrows(now)
        invariant PolledSoFar(old(conditions), conditions, old(errorCounts), errorCounts, vis.Keys, todo, answers)
        decreases todo
      {
        var v :| v in todo;
        var answered := answers(v);
        ghost var mid, midCounts := conditions, errorCounts;
        PollOne(v, answered, now);
        PolledOneMore(old(conditions), mid, conditions, old(errorCounts), midCounts, errorCounts, vis.Keys, todo,
          answers, v, answered);
        OnsetsOneMore(old(conditions), mid, conditions, v, now);
        todo := todo - {v};
      }
    }

    method PollOne(v: Name, answered: bool, now: real)
      requires Valid() && v in vis
      modifies this`errorCounts, this`conditions, this`history
      ensures Valid() && OnsetsRight(old(conditions), conditions, now) && OthersStand(v, old(conditions), conditions)
      ensures errorCounts == old(errorCounts)[v := NextCount(old(errorCounts)[v], answered)]
      ensures CommKey(v) in conditions <==> !answered
      ensures !answered ==> (conditions[CommKey(v)].kind.Disconnected? <==> errorCounts[v] >= maxErrors)
      ensures HistoryGrows(now) && AckStands(v, old(conditions), conditions)
    {
      if answered {
        Recover(v, now);
      } else {
        var count := errorCounts[v] + 1;
        Fault(v, count, if count >= maxErrors then Disconnected else Stale, now);
      }
    }

    /** Set the counter and record the comm condition that goes with it. */
    method Fault(vi: Name, count: int, kind: Kind, now: real)
      requires NamesValid() && RegistryValid() && CommValid() && HistoryValid() && vi in vis
      requires kind == Stale || kind == Disconnected
      requires maxErrors >= 1 ==> count > 0
      requires maxErrors >= 2 ==> (kind.Disconnected? <==> count >= maxErrors)
      modifies this`errorCounts, this`conditions, this`history
      ensures NamesValid() && RegistryValid() && CommValid() && HistoryValid() && HistoryGrows(now)
      ensures OnsetsRight(old(conditions), conditions, now) && OthersStand(vi, old(conditions), conditions)
      ensures errorCounts == old(errorCounts)[vi := count]
      ensures CommKey(vi) in conditions && conditions[CommKey(vi)].kind == kind
      ensures AckStands(vi, old(conditions), conditions)
    {
      hide CommAgrees, CommShape, KeysOwned, OthersStand, KindMatches, OnsetsRight, Chain;
      errorCounts := errorCounts[vi := count];
      RecordCommCondition(vi, kind, now);
      FaultRecorded(old(conditions), conditions, vis.Keys, old(errorCounts), errorCounts, maxErrors, vi);
      Remember(now);
    }

    /** Reset the counter and clear the fault. */
    method Recover(vi: Name, ghost now: real)
      requires NamesValid() && RegistryValid() && CommValid() && HistoryValid() && vi in vis
      modifies this`errorCounts, this`conditions, this`history
      ensures NamesValid() && RegistryValid() && CommValid() && HistoryValid() && HistoryGrows(now)
      ensures OnsetsRight(old(conditions), conditions, now) && OthersStand(vi, old(conditions), conditions)
      ensures errorCounts == old(errorCounts)[vi := 0]
      ensures CommKey(vi) !in conditions
    {
      errorCounts := errorCounts[vi := 0];
      ClearFault(vi);
      CommOne(old(conditions), conditions, vis.Keys, old(errorCounts), errorCounts, maxErrors, vi);
      hide CommAgrees, Chain;
      Remember(now);
    }

    // ---- sessions ----------------------------------------------------------------------------

    /** The VI's aliases that no other user needs; without a registry of live VIs, every configured
        VI counts as a user. */
    function ExclusiveAliases(vi: Name, users: set<Name>): set<Alias>
    {
      if vi !in viSpecs then {}
      else set a | a in viSpecs[vi].aliases
             && forall w :: w in users && w in viSpecs && w != vi ==> a !in viSpecs[w].aliases
    }

    lemma ExclusiveIsUnshared(vi: Name, users: set<Name>)
      ensures forall a :: a in ExclusiveAliases(vi, users) <==>
        vi in viSpecs && a in viSpecs[vi].aliases && !Shared(viSpecs, users, vi, a)
    {
    }

    method ReleaseDrivers(aliases: set<Alias>, ghost vi: Name)
      requires SessionsValid()
      modifies this`drivers, this`closed
      ensures SessionsValid()
      ensures drivers == old(drivers) - aliases
      ensures closed == old(closed) + SessionsOf(old(drivers), aliases)
      ensures (forall w :: w in vis && w in viSpecs && w != vi ==> Aliases(viSpecs[w]) !! aliases) ==>
        Spared(HeldByOthers(vis, vi), old(closed), closed, old(drivers), drivers)
    {
      var todo := aliases;
      while todo != {}
        invariant todo <= aliases
        invariant drivers == old(drivers) - (aliases - todo)
        invariant closed == old(closed) + SessionsOf(old(drivers), aliases - todo)
        decreases todo
      {
        var a :| a in todo;
        if a in drivers {
          closed := closed + {drivers[a]};
          drivers := drivers - {a};
        }
        todo := todo - {a};
      }
      assert aliases - todo == aliases;
      ReleaseAgrees(viSpecs, vis, old(drivers), old(closed), nextSerial, aliases, vi);
    }

    /** Close what no other live VI needs. */
    method ReleaseOwn(vi: Name)
      requires SessionsValid()
      modifies this`drivers, this`closed
      ensures SessionsValid() && LetGo(viSpecs, vis.Keys, vi, old(drivers), drivers, old(closed), closed)
      ensures Spared(HeldByOthers(vis, vi), old(closed), closed, old(drivers), drivers)
    {
      hide LetGo, Spared, SessionsAgree, HeldByOthers;
      ExclusiveIsUnshared(vi, vis.Keys);
      ReleasedIsLetGo(viSpecs, vis.Keys, vi, drivers, closed, ExclusiveAliases(vi, vis.Keys));
      ReleaseDrivers(ExclusiveAliases(vi, vis.Keys), vi);
    }

    /** Construct the missing drivers of a recipe, in order, up to the first that fails. */
    method OpenDrivers(aliases: seq<Alias>, opens: Alias -> bool) returns (failed: Option<Alias>, ghost upTo: nat)
      requires SessionsValid()
      modifies this`drivers, this`nextSerial
      ensures SessionsValid()
      ensures upTo <= |aliases| && (failed.None? <==> upTo == |aliases|)
      ensures failed.Some? ==> failed.value == aliases[upTo]
      ensures (drivers, nextSerial) == OpenedInOrder(old(drivers), old(nextSerial), aliases[..upTo])
      ensures forall a :: a in old(drivers) ==> a in drivers && drivers[a] == old(drivers)[a]
      ensures failed.None? ==> forall a :: a in aliases ==> a in drivers
      ensures failed.None? <==> forall a :: a in aliases && a !in old(drivers) ==> opens(a)
      ensures failed.Some? ==> failed.value in aliases && !opens(failed.value) && failed.value !in drivers
    {
      hide SessionsAgree;
      for i := 0 to |aliases|
        invariant SessionsValid()
        invariant forall a :: a in old(drivers) ==> a in drivers && drivers[a] == old(drivers)[a]
        invariant forall a :: a in drivers && a !in old(drivers) ==> opens(a)
        invariant forall j :: 0 <= j < i ==> aliases[j] in drivers
        invariant (drivers, nextSerial) == OpenedInOrder(old(drivers), old(nextSerial), aliases[..i])
      {
        var a := aliases[i];
        assert aliases[..i + 1][..i] == aliases[..i];
        if a !in drivers {
          if !opens(a) {
            return Some(a), i;
          }
          OpenAgrees(viSpecs, vis, drivers, closed, nextSerial, a);
          drivers := drivers[a := Session(a, nextSerial)];
          nextSerial := nextSerial + 1;
        }
      }
      assert aliases[..|aliases|] == aliases;
      failed, upTo := None, |aliases|;
    }

    /** Open the missing drivers, construct the VI, ask it who it is; an instrument that does not
        answer has the sessions nobody else's recipe mentions released again. */
    method Build(vi: Name, ans: Answers) returns (built: Option<Instrument>, failed: Option<Alias>)
      requires SessionsValid() && vi in viSpecs
      modifies this`drivers, this`closed, this`nextSerial
      ensures SessionsValid()
      ensures Spared(HeldByOthers(vis, vi), old(closed), closed, old(drivers), drivers)
      ensures built.Some? <==> failed.None? && ans.constructs && ans.pings
      ensures built.Some? ==> AllOpen(built.value, closed, drivers) && built.value.sessions.Keys == Aliases(viSpecs[vi])
      ensures failed.None? <==> forall a :: a in viSpecs[vi].aliases && a !in old(drivers) ==> ans.opens(a)
      ensures built.Some? ==> forall a :: a in viSpecs[vi].aliases ==>
        a in drivers && built.value.sessions[a] == drivers[a]
      ensures failed.Some? ==>
        closed == old(closed) && forall a :: a in old(drivers) ==> a in drivers && drivers[a] == old(drivers)[a]
      ensures failed.None? ==>
        var open := OpenedInOrder(old(drivers), old(nextSerial), viSpecs[vi].aliases).0;
        if ans.constructs && !ans.pings then LetGo(viSpecs, viSpecs.Keys, vi, open, drivers, old(closed), closed)
        else drivers == open && closed == old(closed)
    {
      hide LetGo, Shared, Spared;
      var spec := viSpecs[vi];
      ghost var upTo;
      failed, upTo := OpenDrivers(spec.aliases, ans.opens);
      assert spec.aliases[..|spec.aliases|] == spec.aliases;
      assert Spared(HeldByOthers(vis, vi), old(closed), closed, old(drivers), drivers) by {
        OpeningSpares(HeldByOthers(vis, vi), closed, old(drivers), drivers);
      }
      if failed.Some? || !ans.constructs {
        return None, failed;
      }
      if !ans.pings {
        ghost var d1 := drivers;
        ExclusiveIsUnshared(vi, viSpecs.Keys);
        ReleasedIsLetGo(viSpecs, viSpecs.Keys, vi, drivers, closed, ExclusiveAliases(vi, viSpecs.Keys));
        ReleaseDrivers(ExclusiveAliases(vi, viSpecs.Keys), vi);
        SparedTwice(HeldByOthers(vis, vi), old(closed), old(closed), closed, old(drivers), d1, drivers);
        return None, failed;
      }
      built := Some(Instrument(spec.viType, map a | a in Aliases(spec) :: drivers[a]));
    }

    /** Bring an offline VI online. */
    method ConnectInstrument(vi: Name, ans: Answers) returns (ok: bool)
      requires Valid()
      modifies this`vis, this`errorCounts, this`offline, this`drivers, this`closed, this`nextSerial
      ensures Valid()
      ensures vis.Keys + offline.Keys == old(vis.Keys + offline.Keys)
      ensures OthersKeepSessions(vi, old(vis), vis, old(closed), closed, old(drivers), drivers)
      ensures ok <==> (
        && vi in old(offline) && vi in viSpecs && ans.constructs && ans.pings
        && forall a :: a in viSpecs[vi].aliases && a !in old(drivers) ==> ans.opens(a))
      ensures ok ==> vi in vis && AllOpen(vis[vi], closed, drivers)
      ensures errorCounts == if ok then old(errorCounts)[vi := 0] else old(errorCounts)
      ensures !ok ==> vis == old(vis) && offline.Keys == old(offline).Keys
      ensures ok ==> offline == old(offline) - {vi}
      // a failed connect is tagged, with the aliases that are still missing if opening one of them failed
      ensures !ok && vi in old(offline) && vi in viSpecs ==>
        var recipe := viSpecs[vi].aliases;
        var allOpen := forall a :: a in recipe && a !in old(drivers) ==> ans.opens(a);
        && offline - {vi} == old(offline) - {vi}
        && offline[vi] == old(offline)[vi].(connectFailed := true, failed := offline[vi].failed)
        && forall a :: a in offline[vi].failed <==> !allOpen && a in recipe && a !in drivers
    {
      hide CommAgrees, SessionsAgree, KeysOwned, LetGo, Spared, AllOpen, HeldByOthers;
      if vi !in offline || vi !in viSpecs {
        OpeningSpares(HeldByOthers(vis, vi), closed, drivers, drivers);
        return false;
      }
      var info := offline[vi];
      var built, failed := Build(vi, ans);
      if built.None? {
        var missing := if failed.Some? then set a | a in viSpecs[vi].aliases && a !in drivers else {};
        offline := offline[vi := info.(connectFailed := true, failed := missing)];
        return false;
      }
      Register(vi, built.value);
      HeldByOthersIgnores(old(vis), vis, vi);
      ok := true;
    }

    method Register(vi: Name, built: Instrument)
      requires NamesValid() && SessionsValid() && CommValid() && vi in offline && vi in viSpecs
      requires built.sessions.Keys == Aliases(viSpecs[vi]) && AllOpen(built, closed, drivers)
      modifies this`vis, this`errorCounts, this`offline
      ensures NamesValid() && SessionsValid() && CommValid() && offline == old(offline) - {vi}
      ensures vis == old(vis)[vi := built] && vis - {vi} == old(vis) - {vi}
      ensures errorCounts == old(errorCounts)[vi := 0]
    {
      hide SessionsAgree, InstrumentAgrees, CommAgrees;
      BuiltAgrees(viSpecs, vis, drivers, closed, nextSerial, vi, built);
      CommJoins(conditions, vis.Keys, vis[vi := built].Keys, errorCounts, errorCounts[vi := 0], maxErrors, vi);
      offline := offline - {vi};
      vis := vis[vi := built];
      errorCounts := errorCounts[vi := 0];
    }

    /** Release a live VI to its front panel. */
    method DisconnectInstrument(vi: Name, ghost now: real) returns (ok: bool)
      requires Valid()
      modifies this`vis, this`errorCounts, this`conditions, this`history, this`offline, this`drivers, this`closed
      ensures Valid()
      ensures vis.Keys + offline.Keys == old(vis.Keys + offline.Keys)
      ensures OthersKeepSessions(vi, old(vis), vis, old(closed), closed, old(drivers), drivers)
      ensures ok <==> vi in old(vis)
      ensures ok ==> vi in offline && offline - {vi} == old(offline) - {vi}
      ensures ok ==> offline[vi] == Offline(old(vis)[vi].viType, {}, false, true)
      ensures ok ==> LetGo(viSpecs, old(vis).Keys, vi, old(drivers), drivers, old(closed), closed)
      ensures !ok ==> vis == old(vis) && offline == old(offline) && drivers == old(drivers) && closed == old(closed)
      ensures HistoryGrows(now)
      ensures conditions == if ok then old(conditions) - {CommKey(vi)} else old(conditions)
    {
      hide CommAgrees, SessionsAgree, KeysOwned, Chain, LetGo, Shared, Spared, HeldByOthers;
      if vi !in vis {
        OpeningSpares(HeldByOthers(vis, vi), closed, drivers, drivers);
        return false;
      }
      var viType := vis[vi].viType;
      Unregister(vi, now);
      ReleaseOwn(vi);
      SharedIgnores(viSpecs, old(vis).Keys, vis.Keys, vi, old(drivers), drivers, old(closed), closed);
      HeldByOthersIgnores(old(vis), vis, vi);
      offline := offline[vi := Offline(viType, {}, false, true)];
      ok := true;
    }

    method Unregister(vi: Name, ghost now: real)
      requires Valid() && vi in vis
      modifies this`vis, this`errorCounts, this`conditions, this`history
      ensures Valid() && vis == old(vis) - {vi} && vis - {vi} == old(vis) - {vi}
      ensures conditions == old(conditions) - {CommKey(vi)} && HistoryGrows(now)
    {
      hide CommAgrees, SessionsAgree, Chain;
      vis := vis - {vi};
      errorCounts := errorCounts - {vi};
      ClearFault(vi);
      LeaverAgrees(viSpecs, old(vis), drivers, closed, nextSerial, vi);
      CommLeaves(old(conditions), conditions, old(vis).Keys, vis.Keys, old(errorCounts), errorCounts, maxErrors, vi);
      Remember(now);
    }

    /** Retry a faulted VI: past the disconnect threshold its sessions are rebuilt, otherwise it is
        polled once with its counter reset. */
    method RetryFault(vi: Name, ans: Answers, now: real) returns (ok: bool, ghost rebuilt: bool)
      requires Valid()
      modifies this`vis, this`errorCounts, this`conditions, this`history, this`drivers, this`closed, this`nextSerial
      ensures Valid() && vis.Keys == old(vis).Keys
      ensures OnsetsRight(old(conditions), conditions, now) && OthersStand(vi, old(conditions), conditions)
      ensures vi in old(vis) ==> AckStands(vi, old(conditions), conditions)
      ensures HistoryGrows(now)
      ensures OthersKeepSessions(vi, old(vis), vis, old(closed), closed, old(drivers), drivers)
      ensures vi !in old(vis) ==> !ok && unchanged(this)
      ensures ok ==> vi in vis && CommKey(vi) !in conditions && errorCounts[vi] == 0
      ensures vi in old(vis) && !old(Gone(vi)) ==>
        ok == ans.polls && vis == old(vis) && drivers == old(drivers) && (!ok ==> CommKey(vi) in conditions)
      ensures vi in old(vis) && old(Gone(vi)) && ok ==> AllOpen(vis[vi], closed, drivers)
      ensures vi in old(vis) && old(Gone(vi)) && !ok ==> CommKey(vi) in conditions && (!rebuilt ==> Gone(vi))
      ensures rebuilt ==> vi in old(vis) && old(Gone(vi)) && (ok <==> ans.polls)
      ensures rebuilt ==> Reopened(viSpecs, vis.Keys, vi, vis[vi].sessions, old(drivers), closed, old(nextSerial))
      ensures vi in old(vis) && old(Gone(vi)) && vi in viSpecs ==>
        ans.constructs && ans.pings && (forall a :: ans.opens(a)) ==> rebuilt
      // a failed first poll after a rebuild leaves kind and counter at odds when the threshold is a single error
      ensures rebuilt && !ans.polls ==> (KindAgrees(vi) <==> maxErrors > 1)
    {
      rebuilt := false;
      if vi !in vis {
        return false, rebuilt;
      }
      if CommKey(vi) in conditions && conditions[CommKey(vi)].kind.Disconnected? {
        ok, rebuilt := RetryDisconnected(vi, ans, now);
        return;
      }
      ok := PollAfresh(vi, ans.polls, now);
    }

    /** The VI is past the disconnect threshold. */
    predicate Gone(vi: Name): (gone: bool)
      reads this`conditions
      ensures gone <==> exists k :: k in conditions && k == Key(Comm, vi) && conditions[k].kind == Disconnected
    {
      CommKey(vi) in conditions && conditions[CommKey(vi)].kind.Disconnected?
    }

    /** Reset the counter and poll once. */
    method PollAfresh(vi: Name, answered: bool, now: real) returns (ok: bool)
      requires NamesValid() && RegistryValid() && CommValid() && HistoryValid() && vi in vis
      modifies this`errorCounts, this`conditions, this`history
      ensures NamesValid() && RegistryValid() && CommValid() && HistoryValid() && HistoryGrows(now)
      ensures OnsetsRight(old(conditions), conditions, now) && OthersStand(vi, old(conditions), conditions)
      ensures AckStands(vi, old(conditions), conditions)
      ensures ok == answered && (CommKey(vi) in conditions <==> !ok)
      ensures errorCounts == old(errorCounts)[vi := if ok then 0 else 1]
      ensures !ok ==> (KindAgrees(vi) <==> maxErrors > 1)
    {
      ok := answered;
      if answered {
        Recover(vi, now);
      } else {
        Fault(vi, 1, Stale, now);
      }
    }

    method RetryDisconnected(vi: Name, ans: Answers, now: real) returns (ok: bool, ghost rebuilt: bool)
      requires Valid() && vi in vis && Gone(vi)
      modifies this`vis, this`errorCounts, this`conditions, this`history, this`drivers, this`closed, this`nextSerial
      ensures Valid() && vis.Keys == old(vis).Keys
      ensures OnsetsRight(old(conditions), conditions, now) && OthersStand(vi, old(conditions), conditions)
      ensures AckStands(vi, old(conditions), conditions)
      ensures HistoryGrows(now)
      ensures OthersKeepSessions(vi, old(vis), vis, old(closed), closed, old(drivers), drivers)
      ensures ok ==> CommKey(vi) !in conditions && errorCounts[vi] == 0 && AllOpen(vis[vi], closed, drivers)
      ensures !ok ==> CommKey(vi) in conditions && (!rebuilt ==> Gone(vi))
      ensures vi in viSpecs && ans.constructs && ans.pings && (forall a :: ans.opens(a)) ==> rebuilt
      ensures rebuilt ==> (ok <==> ans.polls)
      ensures rebuilt ==> Reopened(viSpecs, vis.Keys, vi, vis[vi].sessions, old(drivers), closed, old(nextSerial))
      ensures rebuilt && !ans.polls ==> (KindAgrees(vi) <==> maxErrors > 1)
    {
      hide Reopened, CommAgrees, Chain, KeysOwned;
      rebuilt := false;
      if vi !in viSpecs {
        return false, rebuilt;
      }
      var built := Rebuild(vi, ans);
      if built.None? {
        FailDisconnectedRetry(vi, now);
        return false, rebuilt;
      }
      Replace(vi, built.value);
      rebuilt := true;
      ok := PollAfresh(vi, ans.polls, now);
    }

    /** Release the sessions only this VI uses, so that the build really reopens them. */
    method Rebuild(vi: Name, ans: Answers) returns (built: Option<Instrument>)
      requires NamesValid() && SessionsValid() && vi in viSpecs
      modifies this`drivers, this`closed, this`nextSerial
      ensures SessionsValid()
      ensures Spared(HeldByOthers(vis, vi), old(closed), closed, old(drivers), drivers)
      ensures ans.constructs && ans.pings && (forall a :: ans.opens(a)) ==> built.Some?
      ensures built.Some? ==> AllOpen(built.value, closed, drivers) && built.value.sessions.Keys == Aliases(viSpecs[vi])
      ensures built.Some? ==>
        Reopened(viSpecs, vis.Keys, vi, built.value.sessions, old(drivers), closed, old(nextSerial))
    {
      hide LetGo, Shared, Spared, SessionsAgree, Reopened, AllOpen;
      ReleaseOwn(vi);
      ghost var d1, c1 := drivers, closed;
      var failed;
      built, failed := Build(vi, ans);
      if built.Some? {
        LetGoIsReopened(viSpecs, vis.Keys, vi, old(drivers), d1, old(closed), closed, old(nextSerial),
          built.value.sessions);
      }
      SparedTwice(HeldByOthers(vis, vi), old(closed), c1, closed, old(drivers), d1, drivers);
    }

    method Replace(vi: Name, built: Instrument)
      requires Valid() && vi in vis && vi in viSpecs
      requires built.sessions.Keys == Aliases(viSpecs[vi]) && AllOpen(built, closed, drivers)
      modifies this`vis
      ensures Valid() && vis == old(vis)[vi := built] && vis - {vi} == old(vis) - {vi} && vis.Keys == old(vis).Keys
    {
      BuiltAgrees(viSpecs, vis, drivers, closed, nextSerial, vi, built);
      vis := vis[vi := built];
    }

    method FailDisconnectedRetry(vi: Name, now: real)
      requires NamesValid() && RegistryValid() && CommValid() && HistoryValid() && vi in vis
      modifies this`errorCounts, this`conditions, this`history
      ensures NamesValid() && RegistryValid() && CommValid() && HistoryValid() && HistoryGrows(now)
      ensures OnsetsRight(old(conditions), conditions, now) && OthersStand(vi, old(conditions), conditions)
      ensures AckStands(vi, old(conditions), conditions)
      ensures errorCounts == old(errorCounts)[vi := maxErrors] && Gone(vi)
    {
      Fault(vi, maxErrors, Disconnected, now);
    }
  }
}
