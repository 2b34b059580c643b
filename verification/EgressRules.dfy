/** From a declared egress policy to its decisions: what the texts of the declaration allow and
    deny, address by address and name by name (internal/agent/egress/policy.go). */
module EgressRules {
  import opened Base
  import opened HostNames
  import opened Egress

  // ---- addresses ----

  /** The address, IPv4 or IPv4 in IPv6, starts with the declared bits. */
  ghost predicate Covers(c: Cidr, a: Addr) {
    && c.Ip4? && !a.V6? && c.length <= |c.bits| && c.length <= |a.bits|
    && forall k :: 0 <= k < c.length ==> a.bits[k] == c.bits[k]
  }

  lemma ContainsExactly(c: Cidr, a: Addr)
    requires ParseCidr(c).Some?
    ensures Contains(ParseCidr(c).value, Unmap(a)) <==> Covers(c, a)
  {
    var p := ParseCidr(c).value;
    assert |p.bits| == c.length && forall k :: 0 <= k < c.length ==> p.bits[k] == c.bits[k];
    if Covers(c, a) {
      assert p.bits == a.bits[..c.length];
    }
  }

  lemma InAnyExactly(raws: seq<Cidr>, list: seq<Prefix>, a: Addr)
    requires ParsesTo(raws, list, ParseCidr)
    ensures InAny(list, a) <==> exists c :: c in raws && Covers(c, a)
  {
    if InAny(list, a) {
      var p :| p in list && Contains(p, Unmap(a));
      var c :| c in raws && ParseCidr(c) == Some(p);
      ContainsExactly(c, a);
    }
    if c :| c in raws && Covers(c, a) {
      ContainsExactly(c, a);
      assert ParseCidr(c).value in list;
    }
  }

  // ---- names ----

  /** A wildcard stands for exactly one label before its suffix. */
  lemma WildcardExactly(suffix: string, host: string)
    ensures MatchesOne(Wildcard(suffix), host) <==>
      exists left: string :: left != "" && '.' !in left && host == left + suffix
  {
    if MatchesOne(Wildcard(suffix), host) {
      var left := host[..|host| - |suffix|];
      assert host == left + suffix;
    }
    if left: string :| left != "" && '.' !in left && host == left + suffix {
      assert host[..|host| - |suffix|] == left && host[|host| - |suffix|..] == suffix;
    }
  }

  /** The declared domain, in normal form, is the name, or a wildcard one label above it. */
  ghost predicate Names(raw: string, name: string) {
    var d := NormalizeDomain(raw);
    && d.Some?
    && if "*." <= d.value then exists left: string :: left != "" && '.' !in left && name == left + d.value[1..]
       else name == d.value
  }

  lemma MatchesExactly(raw: string, name: string)
    requires ParseDomain(raw).Some?
    ensures MatchesOne(ParseDomain(raw).value, name) <==> Names(raw, name)
  {
    var d := NormalizeDomain(raw).value;
    if "*." <= d {
      WildcardExactly(d[1..], name);
    }
  }

  lemma MatchesDomainExactly(spec: Spec, p: Policy, host: string)
    requires Reads(spec, p)
    ensures MatchesDomain(p, host) <==> exists raw :: raw in spec.domains && Names(raw, NormalizeHost(host))
  {
    var h := NormalizeHost(host);
    if MatchesDomain(p, host) {
      var d :| d in p.domains && MatchesOne(d, h);
      var raw :| raw in spec.domains && ParseDomain(raw) == Some(d);
      MatchesExactly(raw, h);
    }
    if raw :| raw in spec.domains && Names(raw, h) {
      assert ParseDomain(raw).Some? && ParseDomain(raw).value in p.domains;
      MatchesExactly(raw, h);
    }
  }

  // ---- the decision ----

  ghost predicate AnyCovered(raws: seq<Cidr>, addrs: seq<Addr>) {
    exists a :: a in addrs && exists c :: c in raws && Covers(c, a)
  }

  lemma HitsExactly(raws: seq<Cidr>, list: seq<Prefix>, addrs: seq<Addr>)
    requires ParsesTo(raws, list, ParseCidr)
    ensures Hits(list, addrs) <==> AnyCovered(raws, addrs)
  {
    forall a ensures InAny(list, a) <==> exists c :: c in raws && Covers(c, a) {
      InAnyExactly(raws, list, a);
    }
  }

  /** From the declaration to the decision: a connection is allowed exactly when no address lies
      in a denied prefix and either the mode is not restricted, as when none is given, or some
      address lies in an allowed prefix, or the mode is the allowlist and a declared domain
      names the host. */
  lemma DeclarationDecides(spec: Spec, p: Policy, host: string, addrs: seq<Addr>)
    requires Reads(spec, p) && addrs != []
    ensures var h := NormalizeHost(host);
      Decide(p, host, addrs).allow <==>
        && !AnyCovered(spec.denied, addrs)
        && (spec.mode.Unspecified? || spec.mode.SpecUnrestricted? || AnyCovered(spec.allowed, addrs)
            || (spec.mode.SpecAllowlist? && h != "" && exists raw :: raw in spec.domains && Names(raw, NormalizeHost(h))))
  {
    DecideExactly(p, host, addrs);
    HitsExactly(spec.denied, p.denied, addrs);
    HitsExactly(spec.allowed, p.allowed, addrs);
    MatchesDomainExactly(spec, p, NormalizeHost(host));
    assert addrs[0] in addrs;
    assert (exists a :: a in addrs && InAny(p.allowed, a)) <==> Hits(p.allowed, addrs);
  }

  // ---- the order of dialling ----

  lemma {:induction false} WhereCounts(addrs: seq<Addr>, keep: Addr -> bool, a: Addr)
    ensures multiset(Where(addrs, keep))[a] == if keep(a) then multiset(addrs)[a] else 0
  {
    if addrs != [] {
      var n := |addrs| - 1;
      assert addrs == addrs[..n] + [addrs[n]];
      WhereCounts(addrs[..n], keep, a);
    }
  }

  /** Every address is tried, as often as it was resolved, and no IPv4 address after another. */
  lemma DialOrderExactly(addrs: seq<Addr>)
    ensures forall a :: multiset(DialOrder(addrs))[a] == multiset(addrs)[a]
    ensures forall i, j :: 0 <= i < j < |DialOrder(addrs)| && DialOrder(addrs)[j].V4? ==> DialOrder(addrs)[i].V4?
  {
    forall a ensures multiset(DialOrder(addrs))[a] == multiset(addrs)[a] {
      WhereCounts(addrs, IsV4, a);
      WhereCounts(addrs, NotV4, a);
    }
    var four, rest := Where(addrs, IsV4), Where(addrs, NotV4);
    assert forall i :: 0 <= i < |four| ==> four[i] in four;
    assert forall i :: 0 <= i < |rest| ==> rest[i] in rest;
  }
}
