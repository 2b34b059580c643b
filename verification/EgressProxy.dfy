/** Publication of egress policies: the proxy's tables of entries by guest address and by
    machine (internal/agent/egress/proxy.go) and the manager's apply with its rollback
    (internal/agent/egress/manager.go). */
module EgressProxy {
  import opened Base
  import opened Egress

  /** A published generation.  Entries are compared by identity, which the serial stands for. */
  datatype Entry = Entry(serial: nat, machine: string, execution: string, policy: Policy)

  datatype Staged = Staged(entry: Entry, ip: Option<Addr>)

  datatype Table = Table(byIp: map<Addr, Entry>, byMachine: map<string, Entry>)

  /** Every bound address leads to the entry its machine is registered with. */
  predicate AddressOk(t: Table, e: Entry) {
    e.machine in t.byMachine && t.byMachine[e.machine] == e
  }

  predicate Consistent(t: Table) {
    && (forall ip :: ip in t.byIp ==> AddressOk(t, t.byIp[ip]))
    && (forall m :: m in t.byMachine ==> t.byMachine[m].machine == m)
  }

  // ---- the operations ----

  /** The machine runs a newer generation in the same execution. */
  predicate Fenced(t: Table, e: Entry) {
    && e.machine in t.byMachine && t.byMachine[e.machine].execution == e.execution
    && t.byMachine[e.machine].policy.generation > e.policy.generation
  }

  predicate Taken(t: Table, ip: Option<Addr>, machine: string) {
    ip.Some? && ip.value in t.byIp && t.byIp[ip.value].machine != machine
  }

  predicate Publishable(t: Table, s: Staged) {
    !Fenced(t, s.entry) && !Taken(t, s.ip, s.entry.machine)
  }

  function Unbound(byIp: map<Addr, Entry>, gone: Entry): map<Addr, Entry> {
    map ip | ip in byIp && byIp[ip] != gone :: byIp[ip]
  }

  function Freed(t: Table, machine: string): map<Addr, Entry> {
    if machine in t.byMachine then Unbound(t.byIp, t.byMachine[machine]) else t.byIp
  }

  function Published(t: Table, s: Staged): Table {
    var m := s.entry.machine;
    var free := Freed(t, m);
    Table(if s.ip.Some? then free[s.ip.value := s.entry] else free, t.byMachine[m := s.entry])
  }

  function Swap(t: Table, s: Staged): Table {
    if Publishable(t, s) then Published(t, s) else t
  }

  function Unregister(t: Table, machine: string): Table {
    Table(Freed(t, machine), t.byMachine - {machine})
  }

  predicate Bindable(t: Table, ip: Addr, machine: string) {
    machine in t.byMachine && (ip in t.byIp ==> t.byIp[ip] == t.byMachine[machine])
  }

  function Bind(t: Table, ip: Addr, machine: string): Table {
    if Bindable(t, ip, machine) then t.(byIp := t.byIp[ip := t.byMachine[machine]]) else t
  }

  /** The machine's entry with one of its addresses, whichever the map yields first. */
  predicate IsCurrent(t: Table, machine: string, cur: Option<Staged>) {
    if machine !in t.byMachine then cur.None?
    else
      && cur.Some? && cur.value.entry == t.byMachine[machine]
      && match cur.value.ip
         case Some(ip) => ip in t.byIp && t.byIp[ip] == cur.value.entry
         case None => forall ip :: ip in t.byIp ==> t.byIp[ip] != cur.value.entry
  }

  /** Apply, with the outcome of writing the datapath snapshot. */
  function Apply(t: Table, s: Staged, cur: Option<Staged>, written: bool): Table {
    if !Publishable(t, s) then t
    else
      var t' := Published(t, s);
      if written then t'
      else if cur.Some? then Swap(t', cur.value)
      else Unregister(t', s.entry.machine)
  }

  /** What the operations come to on consistent tables.  An entry is refused exactly when its
      machine runs a higher generation of the same execution or its address is another
      machine's.  Published, it is what its machine and its address lead to, and the machine
      has no other address; the other machines keep theirs. */
  lemma SwapExactly(t: Table, s: Staged)
    requires Consistent(t)
    ensures var m, e := s.entry.machine, s.entry; var t' := Swap(t, s);
      var newer := m in t.byMachine && t.byMachine[m].execution == e.execution
                   && e.policy.generation < t.byMachine[m].policy.generation;
      var elsewhere := s.ip.Some? && s.ip.value in t.byIp && t.byIp[s.ip.value].machine != m;
      if newer || elsewhere then !Publishable(t, s) && t' == t
      else
        && Publishable(t, s) && t'.byMachine == t.byMachine[m := e]
        && (forall ip :: ip in t'.byIp <==> s.ip == Some(ip) || (ip in t.byIp && t.byIp[ip].machine != m))
        && forall ip :: ip in t'.byIp ==> t'.byIp[ip] == if s.ip == Some(ip) then e else t.byIp[ip]
  {
    OwnAddresses(t, s.entry.machine);
  }

  /** The addresses that lead to the machine's entry are those of its entries. */
  lemma OwnAddresses(t: Table, m: string)
    requires Consistent(t)
    ensures forall ip :: ip in t.byIp ==>
      (t.byIp[ip].machine == m <==> m in t.byMachine && t.byIp[ip] == t.byMachine[m])
  {
    forall ip | ip in t.byIp ensures t.byIp[ip].machine == m <==> m in t.byMachine && t.byIp[ip] == t.byMachine[m] {
      assert AddressOk(t, t.byIp[ip]);
    }
  }

  /** Removing a machine takes its entry and all its addresses and nothing else. */
  lemma UnregisterExactly(t: Table, m: string)
    requires Consistent(t)
    ensures Unregister(t, m).byMachine == t.byMachine - {m}
    ensures forall ip :: ip in Unregister(t, m).byIp <==> ip in t.byIp && t.byIp[ip].machine != m
    ensures forall ip :: ip in Unregister(t, m).byIp ==> Unregister(t, m).byIp[ip] == t.byIp[ip]
  {
    OwnAddresses(t, m);
  }

  /** An address is bound to a registered machine unless it is another machine's. */
  lemma BindExactly(t: Table, ip: Addr, m: string)
    requires Consistent(t)
    ensures Bindable(t, ip, m) <==> m in t.byMachine && (ip in t.byIp ==> t.byIp[ip].machine == m)
    ensures Bind(t, ip, m) == if Bindable(t, ip, m) then Table(t.byIp[ip := t.byMachine[m]], t.byMachine) else t
  {
    OwnAddresses(t, m);
  }

  // ---- consistency and fencing over runs ----

  datatype Event =
    | Applied(s: Staged, cur: Option<Staged>, written: bool)
    | Registered(s: Staged)
    | Bound(ip: Addr, machine: string)
    | Removed(machine: string)

  function Step(t: Table, e: Event): Table {
    match e
    case Applied(s, cur, written) => if IsCurrent(t, s.entry.machine, cur) then Apply(t, s, cur, written) else t
    case Registered(s) => Swap(t, s)
    case Bound(ip, m) => Bind(t, ip, m)
    case Removed(m) => Unregister(t, m)
  }

  function Run(es: seq<Event>): Table {
    if es == [] then Table(map[], map[]) else Step(Run(es[..|es| - 1]), es[|es| - 1])
  }

  lemma PublishedIsConsistent(t: Table, s: Staged)
    requires Consistent(t) && Publishable(t, s)
    ensures Consistent(Published(t, s))
  {
    var t' := Published(t, s);
    forall ip | ip in t'.byIp ensures AddressOk(t', t'.byIp[ip]) {
      if s.ip != Some(ip) {
        assert AddressOk(t, t.byIp[ip]);
      }
    }
  }

  lemma UnregisterIsConsistent(t: Table, m: string)
    requires Consistent(t)
    ensures Consistent(Unregister(t, m))
  {
    var t' := Unregister(t, m);
    forall ip | ip in t'.byIp ensures AddressOk(t', t'.byIp[ip]) {
      assert AddressOk(t, t.byIp[ip]);
    }
  }

  lemma StepIsConsistent(t: Table, e: Event)
    requires Consistent(t)
    ensures Consistent(Step(t, e))
  {
    match e
    case Applied(s, cur, written) =>
      if Publishable(t, s) {
        PublishedIsConsistent(t, s);
        var t' := Published(t, s);
        UnregisterIsConsistent(t', s.entry.machine);
        if cur.Some? && Publishable(t', cur.value) {
          PublishedIsConsistent(t', cur.value);
        }
      }
    case Registered(s) => if Publishable(t, s) { PublishedIsConsistent(t, s); }
    case Bound(ip, m) =>
      var t' := Step(t, e);
      forall a | a in t'.byIp ensures AddressOk(t', t'.byIp[a]) {
        if a in t.byIp { assert AddressOk(t, t.byIp[a]); }
      }
    case Removed(m) => UnregisterIsConsistent(t, m);
  }

  /** After every run each bound address is judged by the policy its machine is registered
      with: a replaced or removed generation decides nothing. */
  lemma {:induction false} RunIsConsistent(es: seq<Event>)
    ensures Consistent(Run(es))
  {
    if es != [] {
      RunIsConsistent(es[..|es| - 1]);
      StepIsConsistent(Run(es[..|es| - 1]), es[|es| - 1]);
    }
  }

  /** The generation a machine runs in one execution. */
  ghost predicate Runs(t: Table, machine: string, execution: string, generation: nat) {
    && machine in t.byMachine && t.byMachine[machine].execution == execution
    && t.byMachine[machine].policy.generation == generation
  }

  /** No step lowers the generation of a machine within an execution. */
  lemma GenerationNeverFalls(t: Table, e: Event, machine: string, execution: string, before: nat, after: nat)
    requires Consistent(t) && Runs(t, machine, execution, before) && Runs(Step(t, e), machine, execution, after)
    ensures before <= after
  {
    if e.Applied? && IsCurrent(t, e.s.entry.machine, e.cur) && e.cur.Some? {
      assert e.cur.value.entry.machine == e.s.entry.machine;
    }
  }

  predicate RegisteredIn(t: Table, machine: string, execution: string) {
    machine in t.byMachine && t.byMachine[machine].execution == execution
  }

  /** So over a whole run, for as long as the machine stays registered in one execution,
      its generation only rises. */
  lemma {:induction false} GenerationsOnlyRise(es: seq<Event>, k: nat, machine: string, execution: string)
    requires k <= |es| && forall j :: k <= j <= |es| ==> RegisteredIn(Run(es[..j]), machine, execution)
    ensures RegisteredIn(Run(es[..k]), machine, execution) && RegisteredIn(Run(es), machine, execution)
    ensures Run(es[..k]).byMachine[machine].policy.generation <= Run(es).byMachine[machine].policy.generation
  {
    assert es[..|es|] == es;
    if k < |es| {
      var n := |es| - 1;
      forall j | k <= j <= n ensures RegisteredIn(Run(es[..n][..j]), machine, execution) {
        assert es[..n][..j] == es[..j];
      }
      GenerationsOnlyRise(es[..n], k, machine, execution);
      assert es[..n][..k] == es[..k];
      RunIsConsistent(es[..n]);
      GenerationNeverFalls(Run(es[..n]), es[n], machine, execution,
        Run(es[..n]).byMachine[machine].policy.generation, Run(es).byMachine[machine].policy.generation);
    }
  }

  // ---- the rollback of a failed apply ----

  /** The previous entry cannot be put back: same execution, lower generation. */
  predicate RollbackRefused(s: Staged, cur: Staged) {
    cur.entry.execution == s.entry.execution && s.entry.policy.generation > cur.entry.policy.generation
  }

  /** The machine has no address besides the one remembered. */
  predicate OnlyAddress(t: Table, cur: Staged) {
    forall ip :: ip in t.byIp && t.byIp[ip] == cur.entry ==> cur.ip == Some(ip)
  }

  ghost predicate FreshEntry(t: Table, e: Entry) {
    (forall m :: m in t.byMachine ==> t.byMachine[m] != e) && (forall ip :: ip in t.byIp ==> t.byIp[ip] != e)
  }

  lemma SwapBack(t: Table, s: Staged, cur: Staged)
    requires Consistent(t) && IsCurrent(t, s.entry.machine, Some(cur)) && FreshEntry(t, s.entry) && Publishable(t, s)
    ensures Publishable(Published(t, s), cur) <==> !RollbackRefused(s, cur)
    ensures OnlyAddress(t, cur) ==> Published(Published(t, s), cur) == t
    ensures !OnlyAddress(t, cur) ==> Published(Published(t, s), cur) != t
  {
    var m := s.entry.machine;
    var t1 := Published(t, s);
    var t2 := Published(t1, cur);
    assert cur.entry.machine == m;
    forall ip ensures ip in t2.byIp <==> (ip in t.byIp && t.byIp[ip] != cur.entry) || cur.ip == Some(ip) {
      if ip in t.byIp { assert AddressOk(t, t.byIp[ip]); }
    }
    forall ip | ip in t2.byIp ensures t2.byIp[ip] == if cur.ip == Some(ip) then cur.entry else t.byIp[ip] {}
    assert t2.byMachine == t.byMachine;
    if OnlyAddress(t, cur) {
      assert t2.byIp == t.byIp;
    } else {
      var ip :| ip in t.byIp && t.byIp[ip] == cur.entry && cur.ip != Some(ip);
      assert ip !in t2.byIp;
    }
  }

  /** When the datapath write fails, the tables are as before exactly if the machine was not
      registered, or its previous entry may be published again and it had no second address.
      Otherwise the refused entry's policy stays in force although Apply failed. */
  lemma FailedApplyRestoresExactly(t: Table, s: Staged, cur: Option<Staged>)
    requires Consistent(t) && IsCurrent(t, s.entry.machine, cur) && FreshEntry(t, s.entry) && Publishable(t, s)
    ensures Apply(t, s, cur, false) == t <==>
      cur.None? || (!RollbackRefused(s, cur.value) && OnlyAddress(t, cur.value))
    ensures cur.Some? && RollbackRefused(s, cur.value) ==> Apply(t, s, cur, false).byMachine[s.entry.machine] == s.entry
  {
    var m := s.entry.machine;
    if cur.Some? {
      SwapBack(t, s, cur.value);
      assert Published(t, s).byMachine[m] != t.byMachine[m];
    } else {
      var t2 := Unregister(Published(t, s), m);
      forall ip ensures ip in t2.byIp <==> ip in t.byIp {
        if ip in t.byIp { assert AddressOk(t, t.byIp[ip]); }
      }
      assert t2.byIp == t.byIp;
      assert t2.byMachine == t.byMachine;
    }
  }

  // ---- the proxy and the manager as they are written ----

  class Proxy {
    var byIp: map<Addr, Entry>
    var byMachine: map<string, Entry>
    var serials: nat

    ghost function View(): Table
      reads this
    {
      Table(byIp, byMachine)
    }

    /** Every published entry has an earlier serial than the next one. */
    ghost predicate Valid()
      reads this
    {
      && Consistent(View())
      && (forall m :: m in byMachine ==> byMachine[m].serial < serials)
    }

    constructor ()
      ensures Valid() && View() == Table(map[], map[])
    {
      byIp, byMachine, serials := map[], map[], 0;
    }

    /** The loops of swap and Unregister over the bound addresses. */
    method DropAddresses(gone: Entry)
      modifies this`byIp
      ensures byIp == Unbound(old(byIp), gone)
    {
      var left := byIp.Keys;
      while left != {}
        invariant left <= old(byIp).Keys
        invariant forall ip :: ip in byIp <==> ip in old(byIp) && (ip in left || old(byIp)[ip] != gone)
        invariant forall ip :: ip in byIp ==> byIp[ip] == old(byIp)[ip]
        decreases left
      {
        var ip :| ip in left;
        if byIp[ip] == gone {
          byIp := byIp - {ip};
        }
        left := left - {ip};
      }
    }

    /** stage: the checks, and a new entry that nobody sees yet. */
    method Stage(machine: string, execution: string, ip: Option<Addr>, policy: Policy) returns (s: Option<Staged>)
      requires Valid()
      modifies this`serials
      ensures Valid()
      ensures s.None? <==> !Publishable(View(), Staged(Entry(old(serials), machine, execution, policy), ip))
      ensures s.Some? ==>
        && s.value == Staged(Entry(old(serials), machine, execution, policy), ip)
        && Publishable(View(), s.value) && FreshEntry(View(), s.value.entry) && s.value.entry.serial < serials
    {
      if machine in byMachine && byMachine[machine].execution == execution
         && byMachine[machine].policy.generation > policy.generation {
        return None;
      }
      if ip.Some? && ip.value in byIp && byIp[ip.value].machine != machine {
        return None;
      }
      s := Some(Staged(Entry(serials, machine, execution, policy), ip));
      forall a | a in byIp ensures byIp[a].serial < serials {
        assert AddressOk(View(), byIp[a]);
      }
      serials := serials + 1;
    }

    method Current(machine: string) returns (cur: Option<Staged>)
      requires Valid()
      ensures IsCurrent(View(), machine, cur)
    {
      if machine !in byMachine {
        return None;
      }
      var e := byMachine[machine];
      var left := byIp.Keys;
      while left != {}
        invariant left <= byIp.Keys
        invariant forall ip :: ip in byIp && ip !in left ==> byIp[ip] != e
        decreases left
      {
        var ip :| ip in left;
        if byIp[ip] == e {
          return Some(Staged(e, Some(ip)));
        }
        left := left - {ip};
      }
      return Some(Staged(e, None));
    }

    method PublishSwap(s: Staged) returns (ok: bool)
      requires Valid() && s.entry.serial < serials
      modifies this`byIp, this`byMachine
      ensures Valid() && View() == Swap(old(View()), s) && (ok <==> Publishable(old(View()), s))
    {
      var e := s.entry;
      if e.machine in byMachine && byMachine[e.machine].execution == e.execution
         && byMachine[e.machine].policy.generation > e.policy.generation {
        return false;
      }
      if s.ip.Some? && s.ip.value in byIp && byIp[s.ip.value].machine != e.machine {
        return false;
      }
      PublishedIsConsistent(View(), s);
      if e.machine in byMachine {
        DropAddresses(byMachine[e.machine]);
      }
      byMachine := byMachine[e.machine := e];
      if s.ip.Some? {
        byIp := byIp[s.ip.value := e];
      }
      return true;
    }

    method Remove(machine: string)
      requires Valid()
      modifies this`byIp, this`byMachine
      ensures Valid() && View() == Unregister(old(View()), machine)
    {
      UnregisterIsConsistent(View(), machine);
      if machine !in byMachine {
        assert byMachine - {machine} == byMachine;
        return;
      }
      DropAddresses(byMachine[machine]);
      byMachine := byMachine - {machine};
    }

    method BindIp(ip: Addr, machine: string) returns (ok: bool)
      requires Valid()
      modifies this`byIp
      ensures Valid() && View() == Bind(old(View()), ip, machine) && (ok <==> Bindable(old(View()), ip, machine))
    {
      if machine !in byMachine || (ip in byIp && byIp[ip] != byMachine[machine]) {
        return false;
      }
      StepIsConsistent(View(), Bound(ip, machine));
      byIp := byIp[ip := byMachine[machine]];
      return true;
    }

    /** Manager.Apply with a policy: stage, swap, write the datapath snapshot, and on failure
        try to swap back. */
    method ApplyPolicy(machine: string, execution: string, ip: Option<Addr>, policy: Policy, written: bool)
      returns (ok: bool, ghost cur: Option<Staged>)
      requires Valid()
      modifies this
      ensures Valid() && IsCurrent(old(View()), machine, cur)
      ensures var s := Staged(Entry(old(serials), machine, execution, policy), ip);
        && View() == Apply(old(View()), s, cur, written)
        && (ok <==> written && Publishable(old(View()), s))
    {
      var previous := Current(machine);
      cur := previous;
      var staged := Stage(machine, execution, ip, policy);
      if staged.None? {
        return false, cur;
      }
      var swapped := PublishSwap(staged.value);
      if written {
        return true, cur;
      }
      if previous.Some? {
        var back := PublishSwap(previous.value);
      } else {
        Remove(machine);
      }
      return false, cur;
    }
  }
}
