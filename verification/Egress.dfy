/** Egress policy (internal/agent/egress/policy.go) and the dial decision of the transparent
    proxy (internal/agent/egress/proxy.go): the decision matrix, the set of addresses that
    may be dialled, and the rebuild of a policy from its persisted snapshot.  CIDR texts are
    the values they parse to. */
module Egress {
  import opened Base
  import opened HostNames

  // ---- addresses and prefixes ----

  /** Addresses as bits, the most significant first. */
  datatype Addr = V4(bits: seq<bool>) | V6(bits: seq<bool>) | Mapped(bits: seq<bool>)

  function Unmap(a: Addr): Addr {
    if a.Mapped? then V4(a.bits) else a
  }

  /** A CIDR text: unreadable, IPv6, or an IPv4 address with a prefix length. */
  datatype Cidr = Unreadable | Ip6 | Ip4(bits: seq<bool>, length: nat)

  /** A masked IPv4 prefix: the bits that count. */
  datatype Prefix = Prefix(bits: seq<bool>)

  predicate Contains(p: Prefix, a: Addr) {
    a.V4? && p.bits <= a.bits
  }

  ghost predicate InAny(list: seq<Prefix>, a: Addr) {
    exists p :: p in list && Contains(p, Unmap(a))
  }

  // ---- the policy ----

  datatype Mode = Unrestricted | DenyAll | Allowlist

  datatype Domain = Exact(name: string) | Wildcard(suffix: string)

  datatype Policy = Policy(
    mode: Mode, allowed: seq<Prefix>, denied: seq<Prefix>, domains: seq<Domain>,
    maxConns: nat, generation: nat, auditAll: bool)

  predicate MatchesOne(d: Domain, host: string) {
    match d
    case Exact(name) => host == name
    case Wildcard(suffix) =>
      && |host| > |suffix| && host[|host| - |suffix|..] == suffix
      && '.' !in host[..|host| - |suffix|]
  }

  ghost predicate MatchesDomain(p: Policy, host: string) {
    exists d :: d in p.domains && MatchesOne(d, NormalizeHost(host))
  }

  // ---- the decision matrix ----

  datatype CidrOutcome = CidrDenied | CidrAllowed | ModeAllow | ModeDeny | NeedHost

  function DecideCidr(mode: Mode, deniedHit: bool, allowedHit: bool): CidrOutcome {
    if deniedHit then CidrDenied
    else match mode
      case Unrestricted => ModeAllow
      case DenyAll => if allowedHit then CidrAllowed else ModeDeny
      case Allowlist => if allowedHit then CidrAllowed else NeedHost
  }

  datatype Match = ByCidrDenied | ByCidrAllowed | ByMode | ByDomain | NoHost | ByReserved | ResolutionFailed | DialFailed

  datatype Decision = Decision(allow: bool, how: Match, cidrAuthorized: bool)

  ghost predicate Hits(list: seq<Prefix>, addrs: seq<Addr>) {
    exists a :: a in addrs && InAny(list, a)
  }

  ghost function Decide(p: Policy, host: string, addrs: seq<Addr>): Decision {
    match DecideCidr(p.mode, Hits(p.denied, addrs), Hits(p.allowed, addrs))
    case CidrDenied => Decision(false, ByCidrDenied, false)
    case CidrAllowed => Decision(true, ByCidrAllowed, true)
    case ModeAllow => Decision(true, ByMode, false)
    case ModeDeny => Decision(false, ByMode, false)
    case NeedHost =>
      if NormalizeHost(host) == "" then Decision(false, NoHost, false)
      else if addrs == [] then Decision(false, ByMode, false)
      else if MatchesDomain(p, NormalizeHost(host)) then Decision(true, ByDomain, false)
      else Decision(false, ByMode, false)
  }

  ghost function Inside(addrs: seq<Addr>, list: seq<Prefix>): (r: seq<Addr>)
    ensures forall a :: a in r <==> a in addrs && InAny(list, a)
  {
    if addrs == [] then []
    else
      var n := |addrs| - 1;
      Inside(addrs[..n], list) + if InAny(list, addrs[n]) then [addrs[n]] else []
  }

  ghost function DialSet(d: Decision, addrs: seq<Addr>, list: seq<Prefix>): seq<Addr> {
    if d.cidrAuthorized then Inside(addrs, list) else addrs
  }

  // ---- the loops of the decision ----

  method ContainsCidr(list: seq<Prefix>, a: Addr) returns (b: bool)
    ensures b <==> InAny(list, a)
  {
    for i := 0 to |list|
      invariant forall p :: p in list[..i] ==> !Contains(p, Unmap(a))
    {
      assert list[..i + 1] == list[..i] + [list[i]];
      if Contains(list[i], Unmap(a)) {
        return true;
      }
    }
    assert list[..|list|] == list;
    return false;
  }

  method AnyHit(list: seq<Prefix>, addrs: seq<Addr>) returns (b: bool)
    ensures b <==> Hits(list, addrs)
  {
    for i := 0 to |addrs|
      invariant forall a :: a in addrs[..i] ==> !InAny(list, a)
    {
      assert addrs[..i + 1] == addrs[..i] + [addrs[i]];
      var hit := ContainsCidr(list, addrs[i]);
      if hit {
        return true;
      }
    }
    assert addrs[..|addrs|] == addrs;
    return false;
  }

  method CheckDomain(p: Policy, host: string) returns (b: bool)
    ensures b <==> MatchesDomain(p, host)
  {
    var h := NormalizeHost(host);
    for i := 0 to |p.domains|
      invariant forall d :: d in p.domains[..i] ==> !MatchesOne(d, h)
    {
      assert p.domains[..i + 1] == p.domains[..i] + [p.domains[i]];
      if MatchesOne(p.domains[i], h) {
        return true;
      }
    }
    assert p.domains[..|p.domains|] == p.domains;
    return false;
  }

  method DecideForProxied(p: Policy, rawHost: string, addrs: seq<Addr>) returns (d: Decision)
    ensures d == Decide(p, rawHost, addrs)
  {
    var host := NormalizeHost(rawHost);
    var deniedHit := AnyHit(p.denied, addrs);
    var allowedHit := AnyHit(p.allowed, addrs);
    match DecideCidr(p.mode, deniedHit, allowedHit)
    case CidrDenied => return Decision(false, ByCidrDenied, false);
    case CidrAllowed => return Decision(true, ByCidrAllowed, true);
    case ModeAllow => return Decision(true, ByMode, false);
    case ModeDeny => return Decision(false, ByMode, false);
    case NeedHost =>
      if host == "" {
        return Decision(false, NoHost, false);
      }
      if |addrs| == 0 {
        return Decision(false, ByMode, false);
      }
      var ok := CheckDomain(p, host);
      return if ok then Decision(true, ByDomain, false) else Decision(false, ByMode, false);
  }

  method FilterPrefixes(addrs: seq<Addr>, list: seq<Prefix>) returns (r: seq<Addr>)
    ensures r == Inside(addrs, list)
  {
    r := [];
    for i := 0 to |addrs|
      invariant r == Inside(addrs[..i], list)
    {
      assert addrs[..i + 1][..i] == addrs[..i];
      var hit := ContainsCidr(list, addrs[i]);
      if hit {
        r := r + [addrs[i]];
      }
    }
    assert addrs[..|addrs|] == addrs;
  }

  // ---- dialling ----

  function Where(addrs: seq<Addr>, keep: Addr -> bool): (r: seq<Addr>)
    ensures forall a :: a in r <==> a in addrs && keep(a)
  {
    if addrs == [] then []
    else
      var n := |addrs| - 1;
      Where(addrs[..n], keep) + if keep(addrs[n]) then [addrs[n]] else []
  }

  method Filter(addrs: seq<Addr>, keep: Addr -> bool) returns (r: seq<Addr>)
    ensures r == Where(addrs, keep)
  {
    r := [];
    for i := 0 to |addrs|
      invariant r == Where(addrs[..i], keep)
    {
      assert addrs[..i + 1][..i] == addrs[..i];
      if keep(addrs[i]) {
        r := r + [addrs[i]];
      }
    }
    assert addrs[..|addrs|] == addrs;
  }

  predicate IsV4(a: Addr) {
    a.V4?
  }

  predicate NotV4(a: Addr) {
    !a.V4?
  }

  /** IPv4 before the rest, each in order. */
  function DialOrder(addrs: seq<Addr>): (r: seq<Addr>)
    ensures forall a :: a in r <==> a in addrs
  {
    Where(addrs, IsV4) + Where(addrs, NotV4)
  }

  /** dialFirst: the first address in dial order that can be reached. */
  method DialFirst(addrs: seq<Addr>, reachable: Addr -> bool) returns (conn: Option<Addr>)
    ensures conn.None? <==> forall a :: a in addrs ==> !reachable(a)
    ensures conn.Some? ==> exists k ::
      && 0 <= k < |DialOrder(addrs)| && DialOrder(addrs)[k] == conn.value && reachable(conn.value)
      && forall j :: 0 <= j < k ==> !reachable(DialOrder(addrs)[j])
  {
    var four := Filter(addrs, IsV4);
    var rest := Filter(addrs, NotV4);
    var order := four + rest;
    for i := 0 to |order|
      invariant forall j :: 0 <= j < i ==> !reachable(order[j])
    {
      if reachable(order[i]) {
        assert order == DialOrder(addrs) && DialOrder(addrs)[i] in addrs;
        return Some(order[i]);
      }
    }
    forall a | a in addrs ensures !reachable(a) {
      assert a in order;
    }
    return None;
  }

  /** Whether the policy permits connecting to the address for the host. */
  ghost predicate Permitted(p: Policy, host: string, a: Addr) {
    || p.mode.Unrestricted?
    || InAny(p.allowed, a)
    || (p.mode.Allowlist? && NormalizeHost(host) != "" && MatchesDomain(p, NormalizeHost(host)))
  }

  /** An allowed decision has something to dial, and everything it may dial is in no denied
      prefix and is permitted by itself: the set that was authorised is the set that is used. */
  lemma DialSetIsSound(p: Policy, host: string, addrs: seq<Addr>)
    requires addrs != [] && Decide(p, host, addrs).allow
    ensures DialSet(Decide(p, host, addrs), addrs, p.allowed) != []
    ensures forall a :: a in DialSet(Decide(p, host, addrs), addrs, p.allowed) ==>
      a in addrs && !InAny(p.denied, a) && Permitted(p, host, a)
  {
    if Decide(p, host, addrs).cidrAuthorized {
      var a :| a in addrs && InAny(p.allowed, a);
      assert a in Inside(addrs, p.allowed);
    }
  }

  /** A refusal is right too: for an authorised connection some address is permitted and none
      is denied. */
  lemma DecideExactly(p: Policy, host: string, addrs: seq<Addr>)
    requires addrs != []
    ensures Decide(p, host, addrs).allow <==>
      !Hits(p.denied, addrs) && exists a :: a in addrs && Permitted(p, host, a)
  {
    assert addrs[0] in addrs;
    if Decide(p, host, addrs).allow {
      var a := if Decide(p, host, addrs).cidrAuthorized then (var x :| x in addrs && InAny(p.allowed, x); x) else addrs[0];
      assert Permitted(p, host, a);
    }
  }

  /** dialFor: resolve, filter reserved segments, decide, dial.  The defensive branch for an
      empty dial set is never taken. */
  method DialFor(p: Policy, host: string, resolved: Option<seq<Addr>>, isReserved: Addr -> bool, reachable: Addr -> bool)
    returns (conn: Option<Addr>, d: Decision)
    ensures conn.Some? ==>
      && d.allow && resolved.Some? && conn.value in resolved.value && !isReserved(conn.value)
      && !InAny(p.denied, conn.value) && Permitted(p, host, conn.value)
    ensures d.how != DialFailed ==> (d.allow <==> if host == "" then p.mode.Unrestricted? else conn.Some?)
    ensures d.how == DialFailed ==>
      && host != "" && resolved.Some?
      && var public := Where(resolved.value, (a: Addr) => !isReserved(a));
         Decide(p, host, public).allow && forall a :: a in DialSet(Decide(p, host, public), public, p.allowed) ==> !reachable(a)
  {
    if host == "" {
      d := DecideForProxied(p, "", []);
      return None, d;
    }
    if resolved.None? {
      return None, Decision(false, ResolutionFailed, false);
    }
    var public := Filter(resolved.value, (a: Addr) => !isReserved(a));
    if |public| == 0 {
      return None, Decision(false, ByReserved, false);
    }
    d := DecideForProxied(p, host, public);
    if !d.allow {
      return None, d;
    }
    DialSetIsSound(p, host, public);
    var dialSet := public;
    if d.cidrAuthorized {
      dialSet := FilterPrefixes(public, p.allowed);
    }
    assert dialSet != [];
    conn := DialFirst(dialSet, reachable);
    if conn.None? {
      d := Decision(false, DialFailed, false);
    }
  }

  // ---- declaring, persisting and rebuilding a policy ----

  datatype SpecMode = Unspecified | SpecUnrestricted | SpecDenyAll | SpecAllowlist | UnknownMode

  datatype Spec = Spec(
    mode: SpecMode, allowed: seq<Cidr>, denied: seq<Cidr>, domains: seq<string>,
    maxConns: nat, generation: nat, auditAll: bool)

  datatype Snapshot = Snapshot(
    mode: string, allowed: seq<Cidr>, denied: seq<Cidr>, domains: seq<string>,
    maxConns: nat, generation: nat, auditAll: bool, port80: nat, port443: nat)

  /** Only an allowlist with domain rules sends ports 80 and 443 through the proxy. */
  predicate ProxyNeeded(p: Policy) {
    p.mode.Allowlist? && p.domains != []
  }

  function ParseMode(m: SpecMode): Option<Mode> {
    match m
    case Unspecified => Some(Unrestricted)
    case SpecUnrestricted => Some(Unrestricted)
    case SpecDenyAll => Some(DenyAll)
    case SpecAllowlist => Some(Allowlist)
    case UnknownMode => None
  }

  function ParseDomain(raw: string): Option<Domain> {
    var d := NormalizeDomain(raw);
    if d.None? then None
    else if "*." <= d.value then Some(Wildcard(d.value[1..]))
    else Some(Exact(d.value))
  }

  function DomainText(d: Domain): string {
    match d
    case Exact(name) => name
    case Wildcard(suffix) => "*" + suffix
  }

  /** The masked address, padded with zeros, and the length. */
  function CidrText(p: Prefix): Cidr {
    Ip4(p.bits + seq(if |p.bits| < 32 then 32 - |p.bits| else 0, _ => false), |p.bits|)
  }

  function ParseCidr(c: Cidr): Option<Prefix> {
    if c.Ip4? && c.length <= |c.bits| then Some(Prefix(c.bits[..c.length])) else None
  }

  /** The list holds exactly what the texts parse to, and every text parses. */
  ghost predicate ParsesTo<R(!new), T(!new)>(raws: seq<R>, list: seq<T>, parse: R -> Option<T>) {
    && (forall r {:trigger parse(r)} :: r in raws ==> parse(r).Some? && parse(r).value in list)
    && (forall t :: t in list ==> exists r :: r in raws && parse(r) == Some(t))
  }

  /** The policy is what the declaration says, up to the order of its lists. */
  ghost predicate Reads(spec: Spec, p: Policy) {
    && ParseMode(spec.mode) == Some(p.mode) && spec.generation > 0
    && ParsesTo(spec.allowed, p.allowed, ParseCidr) && ParsesTo(spec.denied, p.denied, ParseCidr)
    && ParsesTo(spec.domains, p.domains, ParseDomain)
    && p.maxConns == spec.maxConns && p.generation == spec.generation && p.auditAll == spec.auditAll
  }

  /** The loops of parseCIDRList and of FromProto's domains. */
  method ParseList<R(!new), T(!new)>(raws: seq<R>, parse: R -> Option<T>) returns (list: Option<seq<T>>)
    ensures list.Some? ==> ParsesTo(raws, list.value, parse)
    ensures list.None? <==> exists r :: r in raws && parse(r).None?
  {
    var out: seq<T> := [];
    for i := 0 to |raws|
      invariant ParsesTo(raws[..i], out, parse)
    {
      var r := raws[i];
      assert raws[..i + 1] == raws[..i] + [r];
      var t := parse(r);
      if t.None? {
        assert r in raws;
        return None;
      }
      ghost var before := out;
      out := out + [t.value];
      forall e | e in out ensures exists r :: r in raws[..i + 1] && parse(r) == Some(e) {
        if e in before {
          var r' :| r' in raws[..i] && parse(r') == Some(e);
          assert r' in raws[..i + 1];
        } else {
          assert r in raws[..i + 1];
        }
      }
    }
    assert raws[..|raws|] == raws;
    return Some(out);
  }

  /** FromProto.  Sorting the prefixes has no effect on any decision and is left out. */
  method FromProto(spec: Spec) returns (p: Option<Policy>)
    ensures p.Some? ==> Reads(spec, p.value)
    ensures p.None? <==>
      || spec.mode.UnknownMode? || spec.generation == 0
      || (exists c :: (c in spec.allowed || c in spec.denied) && ParseCidr(c).None?)
      || (exists r :: r in spec.domains && ParseDomain(r).None?)
  {
    var mode := ParseMode(spec.mode);
    if mode.None? {
      return None;
    }
    var allowed := ParseList(spec.allowed, ParseCidr);
    if allowed.None? {
      return None;
    }
    var denied := ParseList(spec.denied, ParseCidr);
    if denied.None? {
      return None;
    }
    var domains := ParseList(spec.domains, ParseDomain);
    if domains.None? || spec.generation == 0 {
      return None;
    }
    return Some(Policy(mode.value, allowed.value, denied.value, domains.value, spec.maxConns, spec.generation, spec.auditAll));
  }

  function ModeText(m: Mode): string {
    match m
    case Unrestricted => "unrestricted"
    case DenyAll => "deny_all"
    case Allowlist => "allowlist"
  }

  ghost predicate Writes<R(!new), T(!new)>(list: seq<T>, texts: seq<R>, text: T -> R) {
    && (forall t {:trigger text(t)} :: t in list ==> text(t) in texts)
    && (forall r :: r in texts ==> exists t :: t in list && r == text(t))
  }

  /** snapshotFor, up to the order of the lists, which it sorts. */
  ghost predicate Persists(p: Policy, s: Snapshot) {
    && s.mode == ModeText(p.mode)
    && Writes(p.allowed, s.allowed, CidrText) && Writes(p.denied, s.denied, CidrText)
    && Writes(p.domains, s.domains, DomainText)
    && s.maxConns == p.maxConns && s.generation == p.generation && s.auditAll == p.auditAll
  }

  /** The declaration that FromSnapshot hands to FromProto; None for an unknown mode. */
  function SpecOf(s: Snapshot): Option<Spec> {
    if s.mode == "unrestricted" then Some(Spec(SpecUnrestricted, s.allowed, s.denied, s.domains, s.maxConns, s.generation, s.auditAll))
    else if s.mode == "deny_all" then Some(Spec(SpecDenyAll, s.allowed, s.denied, s.domains, s.maxConns, s.generation, s.auditAll))
    else if s.mode == "allowlist" then Some(Spec(SpecAllowlist, s.allowed, s.denied, s.domains, s.maxConns, s.generation, s.auditAll))
    else None
  }

  method WriteList<R(!new), T(!new)>(list: seq<T>, text: T -> R) returns (texts: seq<R>)
    ensures Writes(list, texts, text)
  {
    texts := [];
    for i := 0 to |list|
      invariant Writes(list[..i], texts, text)
    {
      ghost var before := texts;
      assert list[..i + 1] == list[..i] + [list[i]];
      texts := texts + [text(list[i])];
      forall r | r in texts ensures exists t :: t in list[..i + 1] && r == text(t) {
        if r in before {
          var t :| t in list[..i] && r == text(t);
          assert t in list[..i + 1];
        } else {
          assert list[i] in list[..i + 1];
        }
      }
    }
    assert list[..|list|] == list;
  }

  method SnapshotFor(p: Policy, port80: nat, port443: nat) returns (s: Snapshot)
    ensures Persists(p, s)
    ensures (s.port80, s.port443) == if p.mode.Allowlist? && p.domains != [] then (port80, port443) else (0, 0)
  {
    var allowed := WriteList(p.allowed, CidrText);
    var denied := WriteList(p.denied, CidrText);
    var domains := WriteList(p.domains, DomainText);
    s := Snapshot(ModeText(p.mode), allowed, denied, domains, p.maxConns, p.generation, p.auditAll, 0, 0);
    if ProxyNeeded(p) {
      s := s.(port80 := port80, port443 := port443);
    }
  }

  /** FromSnapshot after a restart: the policy that was declared, persisted and rebuilt
      always comes back, alike. */
  method Rebuild(spec: Spec, p: Policy, s: Snapshot) returns (q: Option<Policy>)
    requires Reads(spec, p) && Persists(p, s)
    ensures q.Some? && Alike(p, q.value)
  {
    ModeRebuilds(p.mode, s);
    RebuildSucceeds(spec, p, s);
    var again := SpecOf(s).value;
    q := FromProto(again);
    RebuildIsAlike(spec, p, s, again, q.value);
  }

  /** The same policy up to the order and repetition of its lists. */
  ghost predicate Alike(p: Policy, q: Policy) {
    && p.mode == q.mode && p.maxConns == q.maxConns && p.generation == q.generation && p.auditAll == q.auditAll
    && SameMembers(p.allowed, q.allowed) && SameMembers(p.denied, q.denied) && SameMembers(p.domains, q.domains)
  }

  lemma CidrRoundTrip(c: Cidr)
    requires ParseCidr(c).Some?
    ensures ParseCidr(CidrText(ParseCidr(c).value)) == ParseCidr(c)
  {
    var p := ParseCidr(c).value;
    assert CidrText(p).bits[..|p.bits|] == p.bits;
  }

  /** What a domain was read as is read again from its text. */
  lemma DomainRoundTrip(raw: string)
    requires ParseDomain(raw).Some?
    ensures ParseDomain(DomainText(ParseDomain(raw).value)) == ParseDomain(raw)
  {
    var d := NormalizeDomain(raw).value;
    NormalizeDomainIdempotent(raw);
    if "*." <= d {
      assert "*" + d[1..] == d;
    }
  }

  ghost predicate RoundTrips<R(!new), T(!new)>(parse: R -> Option<T>, text: T -> R) {
    forall r :: parse(r).Some? ==> parse(text(parse(r).value)) == parse(r)
  }

  /** A list written out as texts and read again has the same members. */
  lemma ListRebuilds<R(!new), T(!new)>(raws: seq<R>, list: seq<T>, texts: seq<R>, again: seq<T>, parse: R -> Option<T>, text: T -> R)
    requires RoundTrips(parse, text) && ParsesTo(raws, list, parse) && Writes(list, texts, text)
    ensures forall r :: r in texts ==> parse(r).Some?
    ensures ParsesTo(texts, again, parse) ==> SameMembers(list, again)
  {
    forall t | t in list ensures parse(text(t)) == Some(t) {
      var r :| r in raws && parse(r) == Some(t);
    }
  }

  ghost predicate SameMembers<T(!new)>(a: seq<T>, b: seq<T>) {
    forall x :: x in a <==> x in b
  }

  lemma CidrsRebuild(raws: seq<Cidr>, list: seq<Prefix>, texts: seq<Cidr>, again: seq<Prefix>)
    requires ParsesTo(raws, list, ParseCidr) && Writes(list, texts, CidrText)
    ensures forall r :: r in texts ==> ParseCidr(r).Some?
    ensures ParsesTo(texts, again, ParseCidr) ==> SameMembers(list, again)
  {
    forall c: Cidr | ParseCidr(c).Some? ensures ParseCidr(CidrText(ParseCidr(c).value)) == ParseCidr(c) {
      CidrRoundTrip(c);
    }
    ListRebuilds(raws, list, texts, again, ParseCidr, CidrText);
  }

  lemma DomainsRebuild(raws: seq<string>, list: seq<Domain>, texts: seq<string>, again: seq<Domain>)
    requires ParsesTo(raws, list, ParseDomain) && Writes(list, texts, DomainText)
    ensures forall r :: r in texts ==> ParseDomain(r).Some?
    ensures ParsesTo(texts, again, ParseDomain) ==> SameMembers(list, again)
  {
    forall r: string | ParseDomain(r).Some? ensures ParseDomain(DomainText(ParseDomain(r).value)) == ParseDomain(r) {
      DomainRoundTrip(r);
    }
    ListRebuilds(raws, list, texts, again, ParseDomain, DomainText);
  }

  /** The declaration carries the snapshot's lists and the policy's mode. */
  predicate Carries(again: Spec, s: Snapshot, mode: Mode) {
    && ParseMode(again.mode) == Some(mode) && again.allowed == s.allowed && again.denied == s.denied && again.domains == s.domains
    && again.maxConns == s.maxConns && again.generation == s.generation && again.auditAll == s.auditAll
  }

  lemma ModeRebuilds(mode: Mode, s: Snapshot)
    requires s.mode == ModeText(mode)
    ensures SpecOf(s).Some? && Carries(SpecOf(s).value, s, mode)
  {
    assert "unrestricted"[0] != "deny_all"[0] && "unrestricted"[0] != "allowlist"[0] && "deny_all"[0] != "allowlist"[0];
  }

  /** Rebuilding from the persisted snapshot never fails. */
  lemma RebuildSucceeds(spec: Spec, p: Policy, s: Snapshot)
    requires Reads(spec, p) && Persists(p, s)
    ensures forall c :: c in s.allowed || c in s.denied ==> ParseCidr(c).Some?
    ensures forall t :: t in s.domains ==> ParseDomain(t).Some?
  {
    CidrsRebuild(spec.allowed, p.allowed, s.allowed, p.allowed);
    CidrsRebuild(spec.denied, p.denied, s.denied, p.denied);
    DomainsRebuild(spec.domains, p.domains, s.domains, p.domains);
  }

  /** What it gives is the same policy up to the order of its lists. */
  lemma RebuildIsAlike(spec: Spec, p: Policy, s: Snapshot, again: Spec, q: Policy)
    requires Reads(spec, p) && Persists(p, s) && Carries(again, s, p.mode) && Reads(again, q)
    ensures Alike(p, q)
  {
    CidrsRebuild(spec.allowed, p.allowed, s.allowed, q.allowed);
    CidrsRebuild(spec.denied, p.denied, s.denied, q.denied);
    DomainsRebuild(spec.domains, p.domains, s.domains, q.domains);
  }

  /** Policies that are alike decide every host and address set alike and dial the same set. */
  lemma AlikeDecidesAlike(p: Policy, q: Policy, host: string, addrs: seq<Addr>)
    requires Alike(p, q)
    ensures Decide(p, host, addrs) == Decide(q, host, addrs)
    ensures DialSet(Decide(p, host, addrs), addrs, p.allowed) == DialSet(Decide(q, host, addrs), addrs, q.allowed)
  {
    SameHits(p.allowed, q.allowed, addrs);
    SameHits(p.denied, q.denied, addrs);
    forall h: string ensures MatchesDomain(p, h) <==> MatchesDomain(q, h) {}
  }

  lemma {:induction false} SameHits(a: seq<Prefix>, b: seq<Prefix>, addrs: seq<Addr>)
    requires SameMembers(a, b)
    ensures Hits(a, addrs) <==> Hits(b, addrs)
    ensures Inside(addrs, a) == Inside(addrs, b)
  {
    forall x ensures InAny(a, x) <==> InAny(b, x) {}
    if addrs != [] {
      SameHits(a, b, addrs[..|addrs| - 1]);
    }
  }
}
