/** The route projection in Redis (internal/controlplane/catalog/catalog.go): the guarded
    replacement of one hostname's routes, the lookups, and the key deletions of prune and
    wipe.  Keys are pairs and JSON values are the values themselves. */
module Catalog {
  import opened Base
  import opened Traces

  datatype Route = Route(generation: int, revision: int, backends: seq<string>)

  datatype HostRoute = HostRoute(port: int, route: Route)

  datatype Publication = Publication(host: string, revision: int, items: seq<HostRoute>, primary: int)

  type RouteKey = (string, int)

  datatype Db = Db(routes: map<RouteKey, Route>, index: map<string, seq<int>>, rev: map<string, int>)

  datatype Reply = Applied | Refused | EmptySet | BadPort(port: int) | NoPrimary

  // ---- what a publication says ----

  /** What a lookup of the port should answer once the publication is in force. */
  ghost predicate Publishes(pub: Publication, port: int, r: Route) {
    exists i :: 0 <= i < |pub.items| && pub.items[i].port == port && r == pub.items[i].route.(revision := pub.revision)
  }

  predicate Declares(items: seq<HostRoute>, port: int) {
    exists i :: 0 <= i < |items| && items[i].port == port
  }

  predicate GoodPorts(items: seq<HostRoute>) {
    && (forall i :: 0 <= i < |items| ==> items[i].port > 0)
    && (forall i, j :: 0 <= i < j < |items| ==> items[i].port != items[j].port)
  }

  predicate WellFormed(pub: Publication) {
    pub.items != [] && GoodPorts(pub.items) && Declares(pub.items, pub.primary)
  }

  /** The routes as they are written: keyed by port, stamped with the revision. */
  function Stamped(items: seq<HostRoute>, revision: int): (m: map<int, Route>)
    ensures forall p :: p in m <==> Declares(items, p)
  {
    if items == [] then map[]
    else
      var n := |items| - 1;
      var m := Stamped(items[..n], revision)[items[n].port := items[n].route.(revision := revision)];
      assert forall p :: Declares(items, p) <==> Declares(items[..n], p) || p == items[n].port;
      m
  }

  function Others(items: seq<HostRoute>, primary: int): (ports: seq<int>)
    ensures forall p :: p in ports <==> p != primary && Declares(items, p)
  {
    if items == [] then []
    else
      var n := |items| - 1;
      assert forall p :: Declares(items, p) <==> Declares(items[..n], p) || p == items[n].port;
      Others(items[..n], primary) + if items[n].port != primary then [items[n].port] else []
  }

  function Ordered(items: seq<HostRoute>, primary: int): seq<int> {
    [primary] + Others(items, primary)
  }

  // ---- the operations on the database ----

  function HighWater(d: Db, host: string): int {
    if host in d.rev then d.rev[host] else 0
  }

  function IndexOf(d: Db, host: string): seq<int> {
    if host in d.index then d.index[host] else []
  }

  function AtHost(host: string, routes: map<int, Route>): (m: map<RouteKey, Route>)
    ensures forall k :: k in m <==> k.0 == host && k.1 in routes
    ensures forall k :: k in m ==> m[k] == routes[k.1]
  {
    var m := map p | p in routes :: (host, p) := routes[p];
    assert forall k: RouteKey :: k.0 == host && k.1 in routes ==> k == (host, k.1) && k in m;
    m
  }

  /** The routes that replacing the old ports by the wanted ones leaves alone. */
  function Untouched(routes: map<RouteKey, Route>, host: string, oldPorts: seq<int>, wanted: set<int>): map<RouteKey, Route> {
    map k | k in routes && !(k.0 == host && (k.1 in wanted || k.1 in oldPorts)) :: routes[k]
  }

  function Replaced(d: Db, pub: Publication): Db {
    var stamped := Stamped(pub.items, pub.revision);
    Db(Untouched(d.routes, pub.host, IndexOf(d, pub.host), stamped.Keys) + AtHost(pub.host, stamped),
       d.index[pub.host := Ordered(pub.items, pub.primary)],
       d.rev[pub.host := pub.revision])
  }

  predicate TakesEffect(d: Db, pub: Publication) {
    WellFormed(pub) && pub.revision > HighWater(d, pub.host)
  }

  function Publish(d: Db, pub: Publication): Db {
    if TakesEffect(d, pub) then Replaced(d, pub) else d
  }

  /** Deletions of arbitrary key sets.  A prune or a wipe is one of each, and whatever
      happened between its scan and its deletes may have come in between. */
  datatype Event = Published(pub: Publication) | RoutesDeleted(keys: set<RouteKey>) | IndexesDeleted(hosts: set<string>)

  function Apply(d: Db, e: Event): Db {
    match e
    case Published(pub) => Publish(d, pub)
    case RoutesDeleted(keys) => d.(routes := d.routes - keys)
    case IndexesDeleted(hosts) => d.(index := d.index - hosts)
  }

  function Run(d: Db, es: seq<Event>): Db {
    Fold(Apply, d, es)
  }

  // ---- lookups ----

  function RouteForPort(d: Db, host: string, port: int): Option<Route> {
    if port in IndexOf(d, host) then Lookup(d.routes, (host, port)) else None
  }

  function RouteForHost(d: Db, host: string): Option<Route> {
    if IndexOf(d, host) == [] then None else Lookup(d.routes, (host, IndexOf(d, host)[0]))
  }

  // ---- the high-water mark ----

  lemma {:induction false} HighWaterNeverFalls(d: Db, es: seq<Event>, host: string)
    ensures HighWater(Run(d, es), host) >= HighWater(d, host)
  {
    if es != [] {
      HighWaterNeverFalls(d, es[..|es| - 1], host);
    }
  }

  /** Once a revision has been reached, no publication at or below it ever takes effect
      again, whatever was published, pruned or wiped since. */
  lemma StaleNeverTakesEffect(d: Db, es: seq<Event>, pub: Publication)
    requires pub.revision <= HighWater(d, pub.host)
    ensures Publish(Run(d, es), pub) == Run(d, es)
  {
    HighWaterNeverFalls(d, es, pub.host);
  }

  // ---- what the database holds for one host ----

  /** Everything stored under the host's index comes from the publication. */
  ghost predicate Reflects(d: Db, pub: Publication) {
    && WellFormed(pub) && HighWater(d, pub.host) == pub.revision
    && (pub.host in d.index ==> d.index[pub.host] == Ordered(pub.items, pub.primary))
    && (forall p :: Declares(pub.items, p) && (pub.host, p) in d.routes ==>
          d.routes[(pub.host, p)] == Stamped(pub.items, pub.revision)[p])
  }

  /** The host's whole projection is the publication's and there is no other key of it. */
  ghost predicate Exact(d: Db, pub: Publication) {
    && Reflects(d, pub) && pub.host in d.index
    && (forall p :: (pub.host, p) in d.routes <==> Declares(pub.items, p))
  }

  predicate Tidy(d: Db, host: string) {
    forall k :: k in d.routes && k.0 == host ==> k.1 in IndexOf(d, host)
  }

  lemma {:induction false} StampedIsPublished(items: seq<HostRoute>, revision: int, i: nat)
    requires GoodPorts(items) && i < |items|
    ensures Stamped(items, revision)[items[i].port] == items[i].route.(revision := revision)
  {
    var n := |items| - 1;
    if i < n {
      StampedIsPublished(items[..n], revision, i);
      assert Declares(items, items[i].port);
    }
  }

  lemma IndexMatches(pub: Publication, p: int)
    requires WellFormed(pub)
    ensures p in Ordered(pub.items, pub.primary) <==> Declares(pub.items, p)
  {
  }

  lemma PublishMakesExact(d: Db, pub: Publication)
    requires TakesEffect(d, pub)
    ensures Reflects(Publish(d, pub), pub)
    ensures pub.host in Publish(d, pub).index
    ensures forall p :: Declares(pub.items, p) ==> (pub.host, p) in Publish(d, pub).routes
    ensures Tidy(d, pub.host) ==> Exact(Publish(d, pub), pub)
  {
  }

  /** Lookups of a host answer exactly as published: by name the primary port's route, by
      port the declared one, and nothing for a port that was not declared. */
  lemma LookupsAreExact(d: Db, pub: Publication)
    requires Exact(d, pub)
    ensures RouteForHost(d, pub.host).Some? && Publishes(pub, pub.primary, RouteForHost(d, pub.host).value)
    ensures forall p :: Declares(pub.items, p) <==> RouteForPort(d, pub.host, p).Some?
    ensures forall p, r :: RouteForPort(d, pub.host, p) == Some(r) <==> Publishes(pub, p, r)
  {
    forall p ensures p in Ordered(pub.items, pub.primary) <==> Declares(pub.items, p) {
      IndexMatches(pub, p);
    }
    forall i | 0 <= i < |pub.items|
      ensures RouteForPort(d, pub.host, pub.items[i].port) == Some(pub.items[i].route.(revision := pub.revision))
    {
      StampedIsPublished(pub.items, pub.revision, i);
      assert Declares(pub.items, pub.items[i].port);
    }
  }

  // ---- convergence ----

  /** The publications in es that could compete with `top` for its host. */
  ghost predicate Highest(es: seq<Event>, top: Publication) {
    forall e :: e in es && e.Published? && WellFormed(e.pub) && e.pub.host == top.host ==>
      e.pub == top || e.pub.revision < top.revision
  }

  ghost predicate OnlyPublications(es: seq<Event>) {
    forall e :: e in es ==> e.Published?
  }

  lemma PublishKeepsTidy(d: Db, pub: Publication, host: string)
    requires Tidy(d, host)
    ensures Tidy(Publish(d, pub), host)
  {
    if TakesEffect(d, pub) && pub.host == host {
      var d' := Publish(d, pub);
      forall k | k in d'.routes && k.0 == host ensures k.1 in IndexOf(d', host) {
        IndexMatches(pub, k.1);
      }
    }
  }

  lemma PublishKeepsExact(d: Db, pub: Publication, top: Publication)
    requires Exact(d, top)
    requires pub.host == top.host ==> pub.revision <= top.revision
    ensures Exact(Publish(d, pub), top)
  {
    if pub.host != top.host && TakesEffect(d, pub) {
      var d' := Publish(d, pub);
      forall p ensures (top.host, p) in d'.routes <==> (top.host, p) in d.routes {}
    }
  }

  lemma {:induction false} RunReaches(d: Db, es: seq<Event>, top: Publication)
    requires OnlyPublications(es) && Highest(es, top) && WellFormed(top)
    requires Tidy(d, top.host) && HighWater(d, top.host) < top.revision
    ensures Published(top) in es ==> Exact(Run(d, es), top)
    ensures Published(top) !in es ==> Tidy(Run(d, es), top.host) && HighWater(Run(d, es), top.host) < top.revision
  {
    if es != [] {
      var n := |es| - 1;
      var before, pub := Run(d, es[..n]), es[n].pub;
      assert es == es[..n] + [es[n]];
      RunReaches(d, es[..n], top);
      assert es[n] in es;
      if Published(top) in es[..n] {
        assert WellFormed(pub) && pub.host == top.host ==> pub.revision <= top.revision;
        if TakesEffect(before, pub) { PublishKeepsExact(before, pub, top); }
      } else if pub == top {
        PublishMakesExact(before, top);
      } else {
        PublishKeepsTidy(before, pub, top.host);
      }
    }
  }

  /** Whatever the order and however often each publication of a host is delivered, among
      publications of any other hosts, the host ends with exactly the routes, ports, primary
      and mark of the highest revision, with no leftover key, and so do two deliveries of
      the same publications. */
  lemma PublicationsConverge(d: Db, es: seq<Event>, fs: seq<Event>, top: Publication)
    requires OnlyPublications(es) && Highest(es, top) && WellFormed(top) && Published(top) in es
    requires Tidy(d, top.host) && HighWater(d, top.host) < top.revision
    requires forall e :: e in es <==> e in fs
    ensures Exact(Run(d, es), top) && Exact(Run(d, fs), top)
    ensures RouteForHost(Run(d, es), top.host) == RouteForHost(Run(d, fs), top.host)
    ensures forall p :: RouteForPort(Run(d, es), top.host, p) == RouteForPort(Run(d, fs), top.host, p)
  {
    RunReaches(d, es, top);
    RunReaches(d, fs, top);
    forall p ensures RouteForPort(Run(d, es), top.host, p) == RouteForPort(Run(d, fs), top.host, p) {
      IndexMatches(top, p);
    }
    IndexMatches(top, top.primary);
  }

  // ---- deletions at any moment ----

  /** A publication at or below the mark, a publication of another host and any deletion
      leave the stored answers those of the publication in force. */
  lemma EventKeepsReflection(d: Db, e: Event, pub: Publication)
    requires Reflects(d, pub)
    requires e.Published? && e.pub.host == pub.host ==> e.pub.revision <= pub.revision
    ensures Reflects(Apply(d, e), pub)
  {
  }

  lemma {:induction false} RunKeepsReflection(d: Db, es: seq<Event>, pub: Publication)
    requires Reflects(d, pub)
    requires forall e :: e in es && e.Published? && e.pub.host == pub.host ==> e.pub.revision <= pub.revision
    ensures Reflects(Run(d, es), pub)
  {
    if es != [] {
      RunKeepsReflection(d, es[..|es| - 1], pub);
      EventKeepsReflection(Run(d, es[..|es| - 1]), es[|es| - 1], pub);
    }
  }

  /** From the moment a publication takes effect until a higher revision of the host
      arrives, every lookup answers either as that publication says or with nothing, even
      while prunes and wipes delete arbitrary keys and leave route keys behind. */
  lemma LookupsNeverStale(d: Db, es: seq<Event>, pub: Publication, port: int)
    requires TakesEffect(d, pub)
    requires forall e :: e in es && e.Published? && e.pub.host == pub.host ==> e.pub.revision <= pub.revision
    ensures var r := RouteForPort(Run(Publish(d, pub), es), pub.host, port);
      r.None? || Publishes(pub, port, r.value)
    ensures var r := RouteForHost(Run(Publish(d, pub), es), pub.host);
      r.None? || Publishes(pub, pub.primary, r.value)
  {
    PublishMakesExact(d, pub);
    RunKeepsReflection(Publish(d, pub), es, pub);
    IndexMatches(pub, port);
    IndexMatches(pub, pub.primary);
    forall i | 0 <= i < |pub.items|
      ensures Stamped(pub.items, pub.revision)[pub.items[i].port] == pub.items[i].route.(revision := pub.revision)
    {
      StampedIsPublished(pub.items, pub.revision, i);
    }
  }

  /** A tidy host stays tidy exactly when the event does not delete its index while one of
      its route keys is present. */
  lemma TidyExactly(d: Db, e: Event, host: string)
    requires Tidy(d, host)
    ensures Tidy(Apply(d, e), host) <==>
      !(e.IndexesDeleted? && host in e.hosts && exists k :: k in d.routes && k.0 == host)
  {
    if e.Published? {
      PublishKeepsTidy(d, e.pub, host);
    }
  }

  lemma RunThree(d: Db, e: Event, f: Event, g: Event)
    ensures Run(d, [e, f]) == Apply(Apply(d, e), f)
    ensures Run(d, [e, f, g]) == Apply(Apply(Apply(d, e), f), g)
  {
    assert [e][..0] == [] && [e, f][..1] == [e] && [e, f, g][..2] == [e, f];
    assert Run(d, []) == d;
    assert Run(d, [e]) == Apply(d, e);
  }

  function Wipe(d: Db): (Event, Event) {
    (RoutesDeleted(d.routes.Keys), IndexesDeleted(d.index.Keys))
  }

  /** A wipe nothing runs into leaves no projection and every mark. */
  lemma WipeKeepsMarks(d: Db)
    ensures var w := Run(d, [Wipe(d).0, Wipe(d).1]); w.routes == map[] && w.index == map[] && w.rev == d.rev
  {
    RunThree(d, Wipe(d).0, Wipe(d).1, Wipe(d).1);
  }

  /** A publication that arrives between the two passes of a wipe loses its index and
      leaves its route keys behind, and its revision is used up. */
  lemma WipeMayLeaveRoutes()
    ensures exists d: Db, pub: Publication ::
      && Tidy(d, pub.host) && TakesEffect(d, pub)
      && var w := Run(d, [Wipe(d).0, Published(pub), Wipe(d).1]);
         !Tidy(w, pub.host) && RouteForHost(w, pub.host).None? && Publish(w, pub) == w
  {
    var item := HostRoute(80, Route(1, 0, ["vm"]));
    var d := Db(map[], map["a" := [80]], map["a" := 1]);
    var pub := Publication("a", 2, [item], 80);
    assert pub.items[0].port == 80;
    assert Declares(pub.items, 80);
    var es := [Wipe(d).0, Published(pub), Wipe(d).1];
    RunThree(d, es[0], es[1], es[2]);
    var d1 := Apply(d, es[0]);
    PublishMakesExact(d1, pub);
    assert !Tidy(Run(d, es), "a");
  }

  // ---- the store as it is rewritten ----

  lemma DeclaresNext(items: seq<HostRoute>, i: nat)
    requires i < |items|
    ensures forall p :: Declares(items[..i + 1], p) <==> Declares(items[..i], p) || p == items[i].port
  {
    var now, next := items[..i], items[..i + 1];
    forall p ensures Declares(next, p) <==> Declares(now, p) || p == items[i].port {
      assert next == now + [items[i]];
      assert next[i].port == items[i].port;
      if Declares(now, p) {
        var k :| 0 <= k < |now| && now[k].port == p;
        assert next[k].port == p;
      }
    }
  }

  /** The checks that ReplaceHostRoutes makes before it talks to Redis. */
  method CheckRoutes(items: seq<HostRoute>, primary: int) returns (problem: Option<Reply>)
    ensures problem == Some(EmptySet) <==> items == []
    ensures (problem.Some? && problem.value.BadPort?) <==>
      || (exists i :: 0 <= i < |items| && items[i].port <= 0)
      || (exists i, j :: 0 <= i < j < |items| && items[i].port == items[j].port)
    ensures problem == Some(NoPrimary) <==>
      items != [] && GoodPorts(items) && forall i :: 0 <= i < |items| ==> items[i].port != primary
    ensures problem.Some? ==> problem.value.EmptySet? || problem.value.BadPort? || problem.value.NoPrimary?
  {
    if |items| == 0 {
      return Some(EmptySet);
    }
    var seen := {};
    for i := 0 to |items|
      invariant GoodPorts(items[..i])
      invariant forall p :: p in seen <==> Declares(items[..i], p)
    {
      var port := items[i].port;
      if port <= 0 || port in seen {
        return Some(BadPort(port));
      }
      DeclaresNext(items, i);
      ghost var next := items[..i + 1];
      forall a | 0 <= a < i ensures next[a].port != port {
        assert next[a] == items[..i][a];
      }
      assert GoodPorts(next);
      seen := seen + {port};
    }
    assert items[..|items|] == items;
    if primary <= 0 || primary !in seen {
      return Some(NoPrimary);
    }
    return None;
  }

  lemma StampNext(items: seq<HostRoute>, i: nat, revision: int, primary: int)
    requires i < |items|
    ensures Stamped(items[..i + 1], revision) == Stamped(items[..i], revision)[items[i].port := items[i].route.(revision := revision)]
    ensures Ordered(items[..i + 1], primary) == Ordered(items[..i], primary) + if items[i].port != primary then [items[i].port] else []
  {
    assert items[..i + 1][..i] == items[..i];
  }

  lemma WriteOne(routes: map<RouteKey, Route>, host: string, stamped: map<int, Route>, port: int, route: Route)
    ensures (routes + AtHost(host, stamped))[(host, port) := route] == routes + AtHost(host, stamped[port := route])
  {
  }

  function Overlaid(routes: map<RouteKey, Route>, host: string, items: seq<HostRoute>, revision: int): map<RouteKey, Route> {
    if items == [] then routes
    else
      var n := |items| - 1;
      Overlaid(routes, host, items[..n], revision)[(host, items[n].port) := items[n].route.(revision := revision)]
  }

  lemma {:induction false} OverlaidIsWritten(routes: map<RouteKey, Route>, host: string, items: seq<HostRoute>, revision: int)
    ensures Overlaid(routes, host, items, revision) == routes + AtHost(host, Stamped(items, revision))
  {
    if items == [] {
      assert AtHost(host, map[]) == map[];
    } else {
      var n := |items| - 1;
      OverlaidIsWritten(routes, host, items[..n], revision);
      WriteOne(routes, host, Stamped(items[..n], revision), items[n].port, items[n].route.(revision := revision));
    }
  }

  function WithoutOld(routes: map<RouteKey, Route>, host: string, oldPorts: seq<int>, wanted: set<int>): map<RouteKey, Route> {
    map k | k in routes && !(k.0 == host && k.1 in oldPorts && k.1 !in wanted) :: routes[k]
  }

  /** Writing first and deleting the old ports afterwards ends in the replacement. */
  lemma ReplacedInTwoPasses(routes: map<RouteKey, Route>, written: map<RouteKey, Route>, host: string, oldPorts: seq<int>, wanted: set<int>)
    requires forall k :: k in written <==> k.0 == host && k.1 in wanted
    ensures Untouched(routes, host, oldPorts, wanted) + written == WithoutOld(routes + written, host, oldPorts, wanted)
    ensures oldPorts == [] ==> Untouched(routes, host, oldPorts, wanted) + written == routes + written
  {
    var l, r := Untouched(routes, host, oldPorts, wanted) + written, WithoutOld(routes + written, host, oldPorts, wanted);
    forall k ensures k in l <==> k in r {}
    forall k | k in l ensures k in r && l[k] == r[k] {}
  }

  class Redis {
    var routes: map<RouteKey, Route>
    var index: map<string, seq<int>>
    var rev: map<string, int>

    ghost function View(): Db
      reads this
    {
      Db(routes, index, rev)
    }

    constructor ()
      ensures View() == Db(map[], map[], map[])
    {
      routes, index, rev := map[], map[], map[];
    }

    /** The script's first loop: every route is written and the index is built. */
    method WriteRoutes(host: string, revision: int, items: seq<HostRoute>, primary: int) returns (wanted: set<int>, ordered: seq<int>)
      modifies this`routes
      ensures wanted == Stamped(items, revision).Keys && ordered == Ordered(items, primary)
      ensures routes == old(routes) + AtHost(host, Stamped(items, revision))
    {
      wanted, ordered := {}, [primary];
      for i := 0 to |items|
        invariant wanted == Stamped(items[..i], revision).Keys && ordered == Ordered(items[..i], primary)
        invariant routes == Overlaid(old(routes), host, items[..i], revision)
      {
        var port := items[i].port;
        StampNext(items, i, revision, primary);
        assert items[..i + 1][..i] == items[..i];
        wanted := wanted + {port};
        if port != primary {
          ordered := ordered + [port];
        }
        routes := routes[(host, port) := items[i].route.(revision := revision)];
      }
      assert items[..|items|] == items;
      OverlaidIsWritten(old(routes), host, items, revision);
    }

    /** Its second loop: the routes of ports that are no longer declared are deleted. */
    method DeleteOld(host: string, oldPorts: seq<int>, wanted: set<int>)
      modifies this`routes
      ensures routes == WithoutOld(old(routes), host, oldPorts, wanted)
    {
      for i := 0 to |oldPorts|
        invariant routes == WithoutOld(old(routes), host, oldPorts[..i], wanted)
      {
        assert oldPorts[..i + 1] == oldPorts[..i] + [oldPorts[i]];
        if oldPorts[i] !in wanted {
          routes := routes - {(host, oldPorts[i])};
        }
      }
      assert oldPorts[..|oldPorts|] == oldPorts;
    }

    /** The script, which Redis runs atomically. */
    method Script(host: string, revision: int, items: seq<HostRoute>, primary: int) returns (applied: bool)
      modifies this
      ensures applied <==> revision > HighWater(old(View()), host)
      ensures View() == if applied then Replaced(old(View()), Publication(host, revision, items, primary)) else old(View())
    {
      var current := if host in rev then rev[host] else 0;
      if revision <= current {
        return false;
      }
      var wanted, ordered := WriteRoutes(host, revision, items, primary);
      var oldPorts := if host in index then index[host] else [];
      ReplacedInTwoPasses(old(routes), AtHost(host, Stamped(items, revision)), host, oldPorts, wanted);
      if host in index {
        DeleteOld(host, oldPorts, wanted);
      }
      index := index[host := ordered];
      rev := rev[host := revision];
      return true;
    }

    /** ReplaceHostRoutes: the checks of the client, then the script. */
    method ReplaceHostRoutes(host: string, revision: int, items: seq<HostRoute>, primary: int) returns (reply: Reply)
      modifies this
      ensures var pub := Publication(host, revision, items, primary);
        && View() == Publish(old(View()), pub)
        && (reply == Applied <==> TakesEffect(old(View()), pub))
        && (reply == Refused <==> WellFormed(pub) && revision <= HighWater(old(View()), host))
        && (reply == EmptySet <==> items == [])
        && (reply.BadPort? <==> !GoodPorts(items))
    {
      var problem := CheckRoutes(items, primary);
      if problem.Some? {
        return problem.value;
      }
      var applied := Script(host, revision, items, primary);
      return if applied then Applied else Refused;
    }

    /** The first read of a lookup. */
    method HostPorts(host: string) returns (ports: seq<int>)
      ensures ports == IndexOf(View(), host)
    {
      return if host in index then index[host] else [];
    }

    /** Its second read. */
    method GetRoute(host: string, port: int) returns (r: Option<Route>)
      ensures r == Lookup(View().routes, (host, port))
    {
      return if (host, port) in routes then Some(routes[(host, port)]) else None;
    }

    /** Both reads with nothing in between. */
    method GetRouteForHostname(host: string) returns (r: Option<Route>)
      ensures r == RouteForHost(View(), host)
    {
      var ports := HostPorts(host);
      if |ports| == 0 {
        return None;
      }
      r := GetRoute(host, ports[0]);
    }

    method IsDeclared(ports: seq<int>, port: int) returns (declared: bool)
      requires ports != []
      ensures declared <==> port in ports
    {
      declared := port == ports[0];
      if !declared {
        for i := 0 to |ports|
          invariant port !in ports[..i]
        {
          if ports[i] == port {
            return true;
          }
        }
      }
    }

    method GetRouteForPort(host: string, port: int) returns (r: Option<Route>, declared: bool)
      ensures r == RouteForPort(View(), host, port)
      ensures declared <==> port in IndexOf(View(), host)
    {
      var ports := HostPorts(host);
      if |ports| == 0 {
        return None, false;
      }
      declared := IsDeclared(ports, port);
      if !declared {
        return None, false;
      }
      r := GetRoute(host, port);
    }
  }
}
