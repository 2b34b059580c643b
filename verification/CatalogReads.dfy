/** Lookups in the route projection as they are made: the index is read at one moment and
    the route at a later one, with publications and deletions in between
    (internal/controlplane/catalog/catalog.go). */
module CatalogReads {
  import opened Base
  import opened Catalog
  import opened Traces

  // ---- the publication in force ----

  /** The event puts another publication of the host in force. */
  predicate Replaces(d: Db, e: Event, host: string) {
    e.Published? && e.pub.host == host && TakesEffect(d, e.pub)
  }

  /** The last publication of the host to take effect, `pub` if none did in es. */
  function InForce(d: Db, es: seq<Event>, pub: Publication): (r: Publication)
    ensures r.host == pub.host
  {
    if es == [] then pub
    else
      var front, e := es[..|es| - 1], es[|es| - 1];
      if Replaces(Run(d, front), e, pub.host) then e.pub else InForce(d, front, pub)
  }

  /** The publication is in force: what is stored under its ports is its own, and any other
      route key of the host is left from a lower revision. */
  ghost predicate Governs(d: Db, pub: Publication) {
    && Reflects(d, pub)
    && forall p :: (pub.host, p) in d.routes && !Declares(pub.items, p) ==> d.routes[(pub.host, p)].revision < pub.revision
  }

  lemma {:induction false} StampedRevision(items: seq<HostRoute>, revision: int, p: int)
    requires Declares(items, p)
    ensures Stamped(items, revision)[p].revision == revision
  {
    var n := |items| - 1;
    if p != items[n].port {
      assert Declares(items[..n], p) by {
        var i :| 0 <= i < |items| && items[i].port == p;
        assert items[..n][i].port == p;
      }
      StampedRevision(items[..n], revision, p);
    }
  }

  lemma StampedIsPublishes(pub: Publication, p: int, r: Route)
    requires WellFormed(pub)
    ensures Publishes(pub, p, r) <==> Declares(pub.items, p) && r == Stamped(pub.items, pub.revision)[p]
  {
    forall i | 0 <= i < |pub.items|
      ensures Stamped(pub.items, pub.revision)[pub.items[i].port] == pub.items[i].route.(revision := pub.revision)
    {
      StampedIsPublished(pub.items, pub.revision, i);
    }
  }

  /** A first publication on a tidy host governs. */
  lemma FirstGoverns(d: Db, pub: Publication)
    requires TakesEffect(d, pub) && Tidy(d, pub.host)
    ensures Governs(Publish(d, pub), pub) && Tidy(Publish(d, pub), pub.host) && pub.host in Publish(d, pub).index
  {
    PublishMakesExact(d, pub);
    PublishKeepsTidy(d, pub, pub.host);
  }

  lemma NextGoverns(d: Db, before: Publication, pub: Publication)
    requires Governs(d, before) && pub.host == before.host && TakesEffect(d, pub)
    ensures Governs(Publish(d, pub), pub)
  {
    PublishMakesExact(d, pub);
    var d' := Publish(d, pub);
    forall p | (pub.host, p) in d'.routes && !Declares(pub.items, p) ensures d'.routes[(pub.host, p)].revision < pub.revision {
      assert d'.routes[(pub.host, p)] == d.routes[(pub.host, p)];
      if Declares(before.items, p) { StampedRevision(before.items, before.revision, p); }
    }
  }

  lemma EventGoverns(d: Db, e: Event, pub: Publication)
    requires Governs(d, pub) && !Replaces(d, e, pub.host)
    ensures Governs(Apply(d, e), pub)
  {
    if !(e.Published? && !TakesEffect(d, e.pub)) {
      EventKeepsReflection(d, e, pub);
    }
  }

  lemma {:induction false} RunGoverns(d: Db, es: seq<Event>, pub: Publication)
    requires Governs(d, pub)
    ensures Governs(Run(d, es), InForce(d, es, pub))
  {
    if es != [] {
      var front, e := es[..|es| - 1], es[|es| - 1];
      RunGoverns(d, front, pub);
      if Replaces(Run(d, front), e, pub.host) {
        NextGoverns(Run(d, front), InForce(d, front, pub), e.pub);
      } else {
        EventGoverns(Run(d, front), e, InForce(d, front, pub));
      }
    }
  }

  // ---- orphaned keys, by the events between the reads ----

  /** A route key that the host's index does not list. */
  predicate Orphan(d: Db, host: string, port: int) {
    (host, port) in d.routes && port !in IndexOf(d, host)
  }

  /** The host's index is deleted while the key is there. */
  predicate Orphans(d: Db, e: Event, host: string, port: int) {
    e.IndexesDeleted? && host in e.hosts && (host, port) in d.routes
  }

  /** The key is deleted, or a publication that takes effect declares the port again. */
  predicate Settles(d: Db, e: Event, host: string, port: int) {
    || (e.RoutesDeleted? && (host, port) in e.keys)
    || (Replaces(d, e, host) && Declares(e.pub.items, port))
  }

  lemma EventOrphansExactly(d: Db, e: Event, host: string, port: int)
    ensures Orphan(Apply(d, e), host, port) <==>
      Orphans(d, e, host, port) || (Orphan(d, host, port) && !Settles(d, e, host, port))
  {
    if e.Published? && TakesEffect(d, e.pub) && e.pub.host == host {
      IndexMatches(e.pub, port);
    }
  }

  /** The host's index was deleted while the key was there, and neither has the key been
      deleted nor the port declared again since. */
  ghost predicate Orphaned(d: Db, es: seq<Event>, host: string, port: int) {
    IsSet(Apply, d, es, (x, e) => Orphans(x, e, host, port), (x, e) => Settles(x, e, host, port))
  }

  /** A key that is not orphaned becomes so exactly by those events. */
  lemma {:induction false} OrphanExactly(d: Db, es: seq<Event>, host: string, port: int)
    requires !Orphan(d, host, port)
    ensures Orphan(Run(d, es), host, port) <==> Orphaned(d, es, host, port)
  {
    if es != [] {
      var front, e := es[..|es| - 1], es[|es| - 1];
      OrphanExactly(d, front, host, port);
      EventOrphansExactly(Run(d, front), e, host, port);
      IsSetNext(Apply, d, es, (x, e) => Orphans(x, e, host, port), (x, e) => Settles(x, e, host, port));
    }
  }

  // ---- the two lookups ----

  /** The answer is there and not what the publication says of the port. */
  ghost predicate OutOfDate(r: Option<Route>, pub: Publication, port: int) {
    r.Some? && !Publishes(pub, port, r.value)
  }

  /** A lookup by port that found the port in the index at d and reads the route after es is
      out of date exactly when the publication by then in force does not declare the port and
      the events in between orphaned its key.  It then has a lower revision. */
  lemma PortInTwoReads(d: Db, es: seq<Event>, pub: Publication, port: int)
    requires Governs(d, pub) && port in IndexOf(d, pub.host)
    ensures var last := InForce(d, es, pub); var r := Lookup(Run(d, es).routes, (pub.host, port));
      && (OutOfDate(r, last, port) <==> !Declares(last.items, port) && Orphaned(d, es, pub.host, port))
      && (OutOfDate(r, last, port) ==> r.value.revision < last.revision)
  {
    var now, last := Run(d, es), InForce(d, es, pub);
    RunGoverns(d, es, pub);
    OrphanExactly(d, es, pub.host, port);
    IndexMatches(last, port);
    if (pub.host, port) in now.routes {
      StampedIsPublishes(last, port, now.routes[(pub.host, port)]);
    }
  }

  /** The publication says the same of the port as of its primary. */
  predicate LikePrimary(pub: Publication, port: int)
    requires Declares(pub.items, pub.primary)
  {
    Declares(pub.items, port) && var s := Stamped(pub.items, pub.revision); s[port] == s[pub.primary]
  }

  /** A lookup by hostname that took its port from the index at d and gets a route after es
      has the route of the primary by then in force exactly when the publication in force says
      the same of both ports; in particular when the primary has not changed. */
  lemma HostInTwoReads(d: Db, es: seq<Event>, pub: Publication)
    requires Governs(d, pub) && pub.host in d.index
    ensures IndexOf(d, pub.host) != [] && IndexOf(d, pub.host)[0] == pub.primary
    ensures WellFormed(InForce(d, es, pub))
    ensures var last := InForce(d, es, pub); var r := Lookup(Run(d, es).routes, (pub.host, pub.primary));
      && (r.Some? ==> (OutOfDate(r, last, last.primary) <==> !LikePrimary(last, pub.primary)))
      && (last.primary == pub.primary ==> !OutOfDate(r, last, last.primary))
  {
    var now, last := Run(d, es), InForce(d, es, pub);
    RunGoverns(d, es, pub);
    if (pub.host, pub.primary) in now.routes {
      var route := now.routes[(pub.host, pub.primary)];
      StampedIsPublishes(last, last.primary, route);
      StampedRevision(last.items, last.revision, last.primary);
    }
  }

  /** The primary moves between the reads: the reader has port 80 from revision 1, and gets
      what revision 2 says of port 80, not of its primary 81. */
  lemma PrimaryMayMove()
    ensures var item, other := HostRoute(80, Route(1, 0, ["a"])), HostRoute(81, Route(1, 0, ["b"]));
      var one, two := Publication("h", 1, [item], 80), Publication("h", 2, [item, other], 81);
      var d := Publish(NOTHING, one); var now := Run(d, [Published(two)]);
      && IndexOf(d, "h") == [80] && Tidy(now, "h") && InForce(d, [Published(two)], one) == two
      && OutOfDate(Lookup(now.routes, ("h", 80)), two, two.primary)
  {
    var item, other := HostRoute(80, Route(1, 0, ["a"])), HostRoute(81, Route(1, 0, ["b"]));
    var one, two := Publication("h", 1, [item], 80), Publication("h", 2, [item, other], 81);
    OneItem(item);
    TwoItems(item, other);
    FirstGoverns(NOTHING, one);
    var d := Publish(NOTHING, one);
    OneEvent(d, Published(two), one);
    PublishMakesExact(d, two);
    PublishKeepsTidy(d, two, "h");
    StampedIsPublished(two.items, 2, 0);
    StampedIsPublished(two.items, 2, 1);
    HostInTwoReads(d, [Published(two)], one);
    IndexOfOne(one);
  }

  const NOTHING := Db(map[], map[], map[])

  lemma OneItem(item: HostRoute)
    requires item.port > 0
    ensures GoodPorts([item]) && forall p :: Declares([item], p) <==> p == item.port
  {
    assert [item][0].port == item.port;
  }

  lemma TwoItems(a: HostRoute, b: HostRoute)
    requires 0 < a.port && 0 < b.port && a.port != b.port
    ensures GoodPorts([a, b]) && forall p :: Declares([a, b], p) <==> p == a.port || p == b.port
  {
    assert [a, b][0].port == a.port && [a, b][1].port == b.port;
  }

  lemma IndexOfOne(pub: Publication)
    requires |pub.items| == 1 && pub.items[0].port == pub.primary
    ensures Ordered(pub.items, pub.primary) == [pub.primary]
  {
    assert pub.items[..0] == [] && Others([], pub.primary) == [];
  }

  lemma OneEvent(d: Db, e: Event, pub: Publication)
    ensures Run(d, [e]) == Apply(d, e)
    ensures InForce(d, [e], pub) == if Replaces(d, e, pub.host) then e.pub else pub
  {
    assert [e][..0] == [] && Run(d, []) == d && InForce(d, [], pub) == pub;
  }

  /** A key is orphaned between the reads: the reader has ports 80 and 81 from revision 1, the
      index is deleted, revision 2 declares only port 80, and the reader gets revision 1's
      route of port 81. */
  lemma PortMayBeOrphaned()
    ensures var item, other := HostRoute(80, Route(1, 0, ["a"])), HostRoute(81, Route(1, 0, ["b"]));
      var one, two := Publication("h", 1, [item, other], 80), Publication("h", 2, [item], 80);
      var d := Publish(NOTHING, one); var es := [IndexesDeleted({"h"}), Published(two)];
      && 81 in IndexOf(d, "h") && Governs(d, one) && Tidy(d, "h") && InForce(d, es, one) == two
      && OutOfDate(Lookup(Run(d, es).routes, ("h", 81)), two, 81)
  {
    var item, other := HostRoute(80, Route(1, 0, ["a"])), HostRoute(81, Route(1, 0, ["b"]));
    var one, two := Publication("h", 1, [item, other], 80), Publication("h", 2, [item], 80);
    OneItem(item);
    TwoItems(item, other);
    FirstGoverns(NOTHING, one);
    PublishMakesExact(NOTHING, one);
    var d := Publish(NOTHING, one);
    IndexMatches(one, 81);
    var e, f := IndexesDeleted({"h"}), Published(two);
    var d1 := Apply(d, e);
    assert [e, f][..1] == [e];
    OneEvent(d, e, one);
    assert Run(d, [e, f]) == Apply(d1, f);
    assert TakesEffect(d1, two);
    assert ("h", 81) in d1.routes && ("h", 81) in Apply(d1, f).routes;
  }
}
