/** The reconciliation daemon as a state machine: the stores it keeps, each shared-state effect of adding and
    removing a forward, polls and runs. */
module DaemonModel {
  import opened Options
  import opened Text
  import opened NameOrder
  import opened Config
  import opened Forward
  import opened Domain
  import opened IpAlloc
  import opened Dnsmasq
  import opened Ipc

  /** A proxy that is listening on bindIP:listenPort. */
  datatype Proxy = Proxy(bindIP: IP, listenPort: int, targetPort: int, tls: bool)

  datatype ActiveEntry = ActiveEntry(entry: Entry, ip: IP, proxy: Option<Proxy>)

  datatype Settings = Settings(cfg: Config, hasCert: bool)

  datatype State = State(
    used: set<int>,                  // allocator: last bytes handed out
    active: map<int, ActiveEntry>,
    store: map<int, Entry>,
    dir: Dir,
    running: set<Proxy>              // proxies started and not stopped
  )

  /* Adding */

  /** The name without its TLD, as the collision check recovers it. */
  function StripTLD(name: string, tld: string): string {
    var idx := |name| - |tld| - 1;
    if idx > 0 then name[..idx] else name
  }

  function ActiveNames(cfg: Config, active: map<int, ActiveEntry>): set<string> {
    set port | port in active :: StripTLD(active[port].entry.domain, cfg.tld)
  }

  function NewProxy(settings: Settings, pf: PortForward, ip: IP): Proxy {
    Proxy(ip, ServiceProxyPort(settings.cfg, pf.remotePort), pf.port,
          ServiceName(pf.remotePort) == "https" && settings.hasCert)
  }

  function NewEntry(settings: Settings, pf: PortForward, ip: IP, name: string): Entry {
    var proxy := NewProxy(settings, pf, ip);
    Entry(pf.port, pf.remoteHost, pf.remotePort, pf.resource, Show(ip), proxy.listenPort, name, pf.tool, proxy.tls)
  }

  /** The effects of starting the proxy and recording the entry. */
  function ActivateSteps(settings: Settings, s: State, pf: PortForward, ip: IP, name: string, bind: bool): seq<State> {
    var proxy := NewProxy(settings, pf, ip);
    var entry := NewEntry(settings, pf, ip, name);
    var s1 := if bind then s.(running := s.running + {proxy}) else s;
    var s2 := s1.(active := s1.active[pf.port := ActiveEntry(entry, ip, if bind then Some(proxy) else None)]);
    var s3 := s2.(store := s2.store[pf.port := entry]);
    [s1, s2, s3]
  }

  /** The effects of asking dnsmasq and then either going on or giving the address back. */
  function PublishSteps(settings: Settings, s: State, pf: PortForward, d: Byte, name: string, dns: (Dir, bool),
                        bind: bool): (steps: seq<State>)
    ensures steps != []
  {
    var s1 := s.(dir := dns.0);
    [s1] + if dns.1 then ActivateSteps(settings, s1, pf, Loopback(d), name, bind) else [s1.(used := s1.used - {d})]
  }

  /** The effects of an add once an address byte is allocated and dnsmasq has answered. */
  function AddEffects(settings: Settings, s: State, pf: PortForward, d: Byte, name: string, dns: (Dir, bool),
                      bind: bool): (steps: seq<State>)
    ensures steps != []
  {
    var s1 := s.(used := s.used + {d});
    [s1] + PublishSteps(settings, s1, pf, d, name, dns, bind)
  }

  function AddNamedSteps(settings: Settings, s: State, pf: PortForward, name: string, o: Outcome,
                         bind: bool): (steps: seq<State>)
    ensures steps != []
  {
    var d := FirstFree(s.used, 1);
    if d == 255 then [s]
    else AddEffects(settings, s, pf, d, name, Added(s.dir, pf.port, name, Show(Loopback(d)), o), bind)
  }

  /** The states `add` passes through, one for each effect on shared state. */
  function AddSteps(settings: Settings, s: State, pf: PortForward, o: Outcome, bind: bool): (steps: seq<State>)
    ensures steps != []
  {
    AddNamedSteps(settings, s, pf, Generate(pf, settings.cfg, ActiveNames(settings.cfg, s.active)), o, bind)
  }

  function AddStep(settings: Settings, s: State, pf: PortForward, o: Outcome, bind: bool): State {
    Last(AddSteps(settings, s, pf, o, bind))
  }

  /* Removing */

  function Freed(used: set<int>, ip: IP): set<int> {
    if ip.V4? && ip == Loopback(ip.d) then used - {ip.d} else used
  }

  /** The states `remove` passes through: the proxy stops before its address is freed. */
  function RemoveSteps(s: State, port: int, o: Outcome): (steps: seq<State>)
    requires port in s.active
    ensures steps != []
  {
    var e := s.active[port];
    var s1 := if e.proxy.Some? then s.(running := s.running - {e.proxy.value}) else s;
    var s2 := s1.(dir := Removed(s1.dir, port, o).0);
    var s3 := s2.(used := Freed(s2.used, e.ip));
    var s4 := s3.(active := s3.active - {port});
    var s5 := s4.(store := s4.store - {port});
    [s1, s2, s3, s4, s5]
  }

  function RemoveStep(s: State, port: int, o: Outcome): State
    requires port in s.active
  {
    Last(RemoveSteps(s, port, o))
  }

  /* Polling */

  datatype Scan = ScanError | ScanOk(forwards: seq<PortForward>)

  /** How each port's dnsmasq calls and proxy bind turn out during one poll. */
  datatype Env = Env(add: int -> Outcome, remove: int -> Outcome, bind: int -> bool)

  /** The scan by port; of duplicates the last one wins. */
  function Current(forwards: seq<PortForward>): map<int, PortForward> {
    if forwards == [] then map[] else Current(Init(forwards))[Last(forwards).port := Last(forwards)]
  }

  /** One step of the add loop. */
  function AddVisit(settings: Settings, s: State, current: map<int, PortForward>, env: Env, port: int): State {
    if port !in current || port in s.active then s
    else AddStep(settings, s, current[port], env.add(port), env.bind(port))
  }

  function AddPhase(settings: Settings, s: State, current: map<int, PortForward>, env: Env, order: seq<int>): State {
    if order == [] then s
    else AddVisit(settings, AddPhase(settings, s, current, env, Init(order)), current, env, Last(order))
  }

  function RemoveVisit(s: State, current: map<int, PortForward>, env: Env, port: int): State {
    if port in current || port !in s.active then s else RemoveStep(s, port, env.remove(port))
  }

  function RemovePhase(s: State, current: map<int, PortForward>, env: Env, order: seq<int>): State {
    if order == [] then s else RemoveVisit(RemovePhase(s, current, env, Init(order)), current, env, Last(order))
  }

  /** One poll: what the scan reported, how calls turned out, and the order in which both maps were ranged over. */
  datatype Event = Event(scan: Scan, env: Env, addOrder: seq<int>, removeOrder: seq<int>)

  function AfterAdds(settings: Settings, s: State, e: Event): State
    requires e.scan.ScanOk?
  {
    AddPhase(settings, s, Current(e.scan.forwards), e.env, e.addOrder)
  }

  ghost predicate Legal(settings: Settings, s: State, e: Event) {
    e.scan.ScanOk? ==>
      && Enumerates(e.addOrder, Current(e.scan.forwards).Keys)
      && Enumerates(e.removeOrder, AfterAdds(settings, s, e).active.Keys)
  }

  function Next(settings: Settings, s: State, e: Event): State {
    if e.scan.ScanError? then s
    else RemovePhase(AfterAdds(settings, s, e), Current(e.scan.forwards), e.env, e.removeOrder)
  }

  /** Shutdown ranges over the active map and removes every entry. */
  function Cleanup(s: State, env: Env, order: seq<int>): State {
    RemovePhase(s, map[], env, order)
  }

  /** Every state a poll passes through, one for each effect on shared state. */
  function PollSteps(settings: Settings, s: State, e: Event): seq<State> {
    if e.scan.ScanError? then []
    else
      AddPhaseSteps(settings, s, Current(e.scan.forwards), e.env, e.addOrder) +
      RemovePhaseSteps(AfterAdds(settings, s, e), Current(e.scan.forwards), e.env, e.removeOrder)
  }

  function AddPhaseSteps(settings: Settings, s: State, current: map<int, PortForward>, env: Env,
                         order: seq<int>): seq<State> {
    if order == [] then []
    else
      var t, port := AddPhase(settings, s, current, env, Init(order)), Last(order);
      AddPhaseSteps(settings, s, current, env, Init(order)) +
      if port !in current || port in t.active then [] else AddSteps(settings, t, current[port], env.add(port),
          env.bind(port))
  }

  function RemovePhaseSteps(s: State, current: map<int, PortForward>, env: Env, order: seq<int>): seq<State> {
    if order == [] then []
    else
      var t, port := RemovePhase(s, current, env, Init(order)), Last(order);
      RemovePhaseSteps(s, current, env, Init(order)) +
      if port in current || port !in t.active then [] else RemoveSteps(t, port, env.remove(port))
  }

  /* Runs */

  ghost predicate Initial(s: State) {
    && s.used == {} && s.active == map[] && s.store == map[] && s.running == {}
    && (!s.dir.present ==> s.dir.files == map[])
  }

  /** The daemon started in states[0] and polled once per event. */
  ghost predicate Run(settings: Settings, states: seq<State>, events: seq<Event>) {
    && |states| == |events| + 1
    && Initial(states[0])
    && forall i :: 0 <= i < |events| ==> PolledAt(settings, states, events, i)
  }

  ghost predicate PolledAt(settings: Settings, states: seq<State>, events: seq<Event>, i: nat)
    requires i < |events| < |states|
  {
    Legal(settings, states[i], events[i]) && states[i + 1] == Next(settings, states[i], events[i])
  }

  /* The invariant */

  ghost predicate EntryOk(port: int, e: ActiveEntry) {
    && e.entry.port == port
    && e.ip.V4? && e.ip == Loopback(e.ip.d) && InPool(e.ip.d)
    && e.entry.ip == Show(e.ip)
    && (e.proxy.Some? ==>
          e.proxy.value.bindIP == e.ip && e.proxy.value.targetPort == port &&
              e.proxy.value.listenPort == e.entry.proxyPort)
  }

  function Entries(active: map<int, ActiveEntry>): map<int, Entry> {
    map port | port in active :: active[port].entry
  }

  ghost predicate AddressesAgree(used: set<int>, active: map<int, ActiveEntry>) {
    && (forall p :: p in active ==> active[p].ip.V4? && active[p].ip.d in used)
    && (forall d :: d in used ==> exists p :: p in active && active[p].ip == Loopback(d))
    && (forall p, q :: p in active && q in active && p != q ==> active[p].ip != active[q].ip)
  }

  ghost predicate ProxiesAgree(running: set<Proxy>, active: map<int, ActiveEntry>) {
    && (forall p :: p in active && active[p].proxy.Some? ==> active[p].proxy.value in running)
    && (forall r :: r in running ==> r.targetPort in active && active[r.targetPort].proxy == Some(r))
  }

  ghost predicate Inv(s: State) {
    && (forall p :: p in s.active ==> EntryOk(p, s.active[p]))
    && (forall d :: d in s.used ==> InPool(d))
    && AddressesAgree(s.used, s.active)
    && ProxiesAgree(s.running, s.active)
    && s.store == Entries(s.active)
    && (!s.dir.present ==> s.dir.files == map[])
  }

  /** Every running proxy listens on an address that is still allocated, and no two on the same address. */
  ghost predicate Safe(s: State) {
    && (forall r :: r in s.running ==> r.bindIP.V4? && r.bindIP == Loopback(r.bindIP.d) && r.bindIP.d in s.used)
    && (forall r1, r2 :: r1 in s.running && r2 in s.running && r1 != r2 ==> r1.bindIP != r2.bindIP)
  }

  lemma DirPreserved(d: Dir, port: int, name: string, ip: string, o: Outcome)
    requires !d.present ==> d.files == map[]
    ensures var r := Added(d, port, name, ip, o).0; !r.present ==> r.files == map[]
    ensures var r := Removed(d, port, o).0; !r.present ==> r.files == map[]
  {
  }

  /** What an add that takes effect produces. */
  function Activated(settings: Settings, s: State, pf: PortForward, d: Byte, name: string, dir: Dir, bind: bool): State
    requires d < 255
  {
    var ip := Loopback(d);
    var proxy := NewProxy(settings, pf, ip);
    var entry := NewEntry(settings, pf, ip, name);
    State(
      s.used + {d},
      s.active[pf.port := ActiveEntry(entry, ip, if bind then Some(proxy) else None)],
      s.store[pf.port := entry],
      dir,
      if bind then s.running + {proxy} else s.running
    )
  }

  /** An add either takes effect whole, or leaves everything but the drop-in directory as it was. */
  lemma AddStepCases(settings: Settings, s: State, pf: PortForward, o: Outcome, bind: bool)
    requires pf.port !in s.active
    ensures var t := AddStep(settings, s, pf, o, bind);
      var name := Generate(pf, settings.cfg, ActiveNames(settings.cfg, s.active));
      var d := FirstFree(s.used, 1);
      if d < 255 && Added(s.dir, pf.port, name, Show(Loopback(d)), o).1
      then t == Activated(settings, s, pf, d, name, Added(s.dir, pf.port, name, Show(Loopback(d)), o).0, bind)
      else t == s.(dir := if d < 255 then Added(s.dir, pf.port, name, Show(Loopback(d)), o).0 else s.dir)
  {
    var name := Generate(pf, settings.cfg, ActiveNames(settings.cfg, s.active));
    var d := FirstFree(s.used, 1);
    if d < 255 {
      AddEffectsCases(settings, s, pf, d, name, Added(s.dir, pf.port, name, Show(Loopback(d)), o), bind);
    }
  }

  /** The same, without saying which. */
  lemma AddStepShape(settings: Settings, s: State, pf: PortForward, o: Outcome, bind: bool)
    requires pf.port !in s.active
    ensures var t, d := AddStep(settings, s, pf, o, bind), FirstFree(s.used, 1);
      || t == s.(dir := t.dir)
      || (d < 255 && pf.port in t.active && t == Activated(settings, s, pf, d, t.active[pf.port].entry.domain, t.dir,
          bind))
  {
    AddStepCases(settings, s, pf, o, bind);
  }

  lemma AddEffectsCases(settings: Settings, s: State, pf: PortForward, d: Byte, name: string, dns: (Dir, bool),
                        bind: bool)
    requires d < 255 && d !in s.used
    ensures Last(AddEffects(settings, s, pf, d, name, dns, bind)) ==
            if dns.1 then Activated(settings, s, pf, d, name, dns.0, bind) else s.(dir := dns.0)
  {
    assert s.used + {d} - {d} == s.used;
  }

  lemma AddressesPut(used: set<int>, active: map<int, ActiveEntry>, port: int, e: ActiveEntry)
    requires AddressesAgree(used, active) && port !in active
    requires e.ip.V4? && e.ip == Loopback(e.ip.d) && e.ip.d !in used
    ensures AddressesAgree(used + {e.ip.d}, active[port := e])
  {
    var active' := active[port := e];
    forall d | d in used + {e.ip.d}
      ensures exists p :: p in active' && active'[p].ip == Loopback(d)
    {
      if d in used {
        var p :| p in active && active[p].ip == Loopback(d);
        assert p in active' && active'[p].ip == Loopback(d);
      } else {
        assert active'[port].ip == Loopback(d);
      }
    }
  }

  lemma ProxiesPut(running: set<Proxy>, active: map<int, ActiveEntry>, port: int, e: ActiveEntry)
    requires ProxiesAgree(running, active) && port !in active
    requires e.proxy.Some? ==> e.proxy.value.targetPort == port
    ensures ProxiesAgree(if e.proxy.Some? then running + {e.proxy.value} else running, active[port := e])
  {
  }

  lemma EntriesPut(active: map<int, ActiveEntry>, port: int, e: ActiveEntry)
    ensures Entries(active[port := e]) == Entries(active)[port := e.entry]
  {
  }

  lemma InvPut(s: State, port: int, e: ActiveEntry, dir: Dir)
    requires Inv(s) && port !in s.active && EntryOk(port, e) && e.ip.d !in s.used
    requires !dir.present ==> dir.files == map[]
    ensures Inv(State(s.used + {e.ip.d}, s.active[port := e], s.store[port := e.entry], dir,
                      if e.proxy.Some? then s.running + {e.proxy.value} else s.running))
  {
    AddressesPut(s.used, s.active, port, e);
    ProxiesPut(s.running, s.active, port, e);
    EntriesPut(s.active, port, e);
  }

  lemma ActivatedInv(settings: Settings, s: State, pf: PortForward, d: Byte, name: string, dir: Dir, bind: bool)
    requires Inv(s) && pf.port !in s.active
    requires 1 <= d < 255 && d !in s.used && (!dir.present ==> dir.files == map[])
    ensures Inv(Activated(settings, s, pf, d, name, dir, bind))
  {
    InvPut(s, pf.port, Activated(settings, s, pf, d, name, dir, bind).active[pf.port], dir);
  }

  lemma AddKeepsInv(settings: Settings, s: State, pf: PortForward, o: Outcome, bind: bool)
    requires Inv(s) && pf.port !in s.active
    ensures Inv(AddStep(settings, s, pf, o, bind))
  {
    var name := Generate(pf, settings.cfg, ActiveNames(settings.cfg, s.active));
    var d := FirstFree(s.used, 1);
    AddStepCases(settings, s, pf, o, bind);
    DirPreserved(s.dir, pf.port, name, Show(Loopback(d)), o);
    if d < 255 {
      ActivatedInv(settings, s, pf, d, name, Added(s.dir, pf.port, name, Show(Loopback(d)), o).0, bind);
    }
  }

  /** The state after a removal, whatever dnsmasq does. */
  lemma RemoveStepIs(s: State, port: int, o: Outcome)
    requires Inv(s) && port in s.active
    ensures RemoveStep(s, port, o) == State(
        s.used - {s.active[port].ip.d}, s.active - {port}, s.store - {port}, Removed(s.dir, port, o).0,
        if s.active[port].proxy.Some? then s.running - {s.active[port].proxy.value} else s.running)
  {
    assert EntryOk(port, s.active[port]);
  }

  lemma AddressesDrop(used: set<int>, active: map<int, ActiveEntry>, port: int)
    requires AddressesAgree(used, active) && port in active && active[port].ip == Loopback(active[port].ip.d)
    requires forall p :: p in active ==> active[p].ip == Loopback(active[p].ip.d)
    ensures AddressesAgree(used - {active[port].ip.d}, active - {port})
  {
    forall d | d in used - {active[port].ip.d}
      ensures exists p :: p in active - {port} && (active - {port})[p].ip == Loopback(d)
    {
      var p :| p in active && active[p].ip == Loopback(d);
      assert p in active - {port};
    }
  }

  lemma ProxiesDrop(running: set<Proxy>, active: map<int, ActiveEntry>, port: int)
    requires ProxiesAgree(running, active) && port in active
    requires active[port].proxy.Some? ==> active[port].proxy.value.targetPort == port
    requires forall p :: p in active && active[p].proxy.Some? ==> active[p].proxy.value.targetPort == p
    ensures ProxiesAgree(if active[port].proxy.Some? then running - {active[port].proxy.value}
            else running, active - {port})
  {
  }

  lemma EntriesDrop(active: map<int, ActiveEntry>, port: int)
    ensures Entries(active - {port}) == Entries(active) - {port}
  {
  }

  lemma RemoveKeepsInv(s: State, port: int, o: Outcome)
    requires Inv(s) && port in s.active
    ensures Inv(RemoveStep(s, port, o))
  {
    forall p | p in s.active
      ensures s.active[p].ip.V4? && s.active[p].ip == Loopback(s.active[p].ip.d)
      ensures s.active[p].proxy.Some? ==> s.active[p].proxy.value.targetPort == p
    {
      assert EntryOk(p, s.active[p]);
    }
    RemoveStepIs(s, port, o);
    DirPreserved(s.dir, port, "", "", o);
    AddressesDrop(s.used, s.active, port);
    ProxiesDrop(s.running, s.active, port);
    EntriesDrop(s.active, port);
  }

  /* Micro-steps */

  lemma InvSafe(s: State)
    requires Inv(s)
    ensures Safe(s)
  {
    forall r | r in s.running
      ensures r.bindIP.V4? && r.bindIP == Loopback(r.bindIP.d) && r.bindIP.d in s.used
    {
      assert EntryOk(r.targetPort, s.active[r.targetPort]);
    }
    forall r1, r2 | r1 in s.running && r2 in s.running && r1 != r2
      ensures r1.bindIP != r2.bindIP
    {
      assert EntryOk(r1.targetPort, s.active[r1.targetPort]);
      assert EntryOk(r2.targetPort, s.active[r2.targetPort]);
    }
  }

  lemma SafeAfterAllocation(s: State, t: State, d: Byte, proxy: Proxy)
    requires Safe(s) && d !in s.used && proxy.bindIP == Loopback(d)
    requires t.used == s.used + {d}
    requires t.running == s.running || t.running == s.running + {proxy}
    ensures Safe(t)
  {
    assert forall r :: r in s.running ==> r.bindIP != Loopback(d);
  }

  /** Inside an add, too, proxies keep to distinct allocated addresses, whatever the port table maps to. */
  lemma AddStepsSafe(settings: Settings, s: State, pf: PortForward, o: Outcome, bind: bool)
    requires Inv(s) && pf.port !in s.active
    ensures forall i :: 0 <= i < |AddSteps(settings, s, pf, o, bind)| ==> Safe(AddSteps(settings, s, pf, o, bind)[i])
  {
    InvSafe(s);
    var name := Generate(pf, settings.cfg, ActiveNames(settings.cfg, s.active));
    var d := FirstFree(s.used, 1);
    if d < 255 {
      AddEffectsSafe(settings, s, pf, d, name, Added(s.dir, pf.port, name, Show(Loopback(d)), o), bind);
    }
  }

  lemma AddEffectsSafe(settings: Settings, s: State, pf: PortForward, d: Byte, name: string, dns: (Dir, bool),
                       bind: bool)
    requires Safe(s) && d !in s.used
    ensures forall i :: 0 <= i < |AddEffects(settings, s, pf, d, name, dns, bind)| ==>
            Safe(AddEffects(settings, s, pf, d, name, dns, bind)[i])
  {
    var steps := AddEffects(settings, s, pf, d, name, dns, bind);
    assert s.used + {d} - {d} == s.used;
    forall i | 0 <= i < |steps|
      ensures Safe(steps[i])
    {
      if steps[i].used != s.used {
        SafeAfterAllocation(s, steps[i], d, NewProxy(settings, pf, Loopback(d)));
      }
    }
  }

  lemma SafeWithFewer(s: State, t: State)
    requires Safe(s) && t.used == s.used && t.running <= s.running
    ensures Safe(t)
  {
  }

  /** Inside a removal, too: the proxy is gone before its address returns to the pool. */
  lemma RemoveStepsSafe(s: State, port: int, o: Outcome)
    requires Inv(s) && port in s.active
    ensures forall i :: 0 <= i < |RemoveSteps(s, port, o)| ==> Safe(RemoveSteps(s, port, o)[i])
  {
    InvSafe(s);
    RemoveKeepsInv(s, port, o);
    InvSafe(RemoveStep(s, port, o));
    RemoveEffectsSafe(s, port, o);
  }

  lemma RemoveEffectsSafe(s: State, port: int, o: Outcome)
    requires port in s.active && Safe(s) && Safe(RemoveStep(s, port, o))
    ensures forall i :: 0 <= i < |RemoveSteps(s, port, o)| ==> Safe(RemoveSteps(s, port, o)[i])
  {
    var steps := RemoveSteps(s, port, o);
    SafeWithFewer(s, steps[0]);
    SafeWithFewer(s, steps[1]);
    SafeWithFewer(steps[4], steps[2]);
    SafeWithFewer(steps[4], steps[3]);
  }

  /* Phases */

  lemma {:induction false} AddPhaseInv(settings: Settings, s: State, current: map<int, PortForward>, env: Env,
                                       order: seq<int>)
    requires Inv(s) && ByPort(current)
    ensures Inv(AddPhase(settings, s, current, env, order))
  {
    if order != [] {
      AddPhaseInv(settings, s, current, env, Init(order));
      var t, port := AddPhase(settings, s, current, env, Init(order)), Last(order);
      if port in current && port !in t.active {
        AddKeepsInv(settings, t, current[port], env.add(port), env.bind(port));
      }
    }
  }

  lemma {:induction false} RemovePhaseInv(s: State, current: map<int, PortForward>, env: Env, order: seq<int>)
    requires Inv(s)
    ensures Inv(RemovePhase(s, current, env, order))
  {
    if order != [] {
      RemovePhaseInv(s, current, env, Init(order));
      var t, port := RemovePhase(s, current, env, Init(order)), Last(order);
      if port !in current && port in t.active {
        RemoveKeepsInv(t, port, env.remove(port));
      }
    }
  }

  ghost predicate ByPort(current: map<int, PortForward>) {
    forall port :: port in current ==> current[port].port == port
  }

  lemma {:induction false} CurrentByPort(forwards: seq<PortForward>)
    ensures ByPort(Current(forwards))
    ensures forall port :: port in Current(forwards) ==> Current(forwards)[port] in forwards
    ensures forall i :: 0 <= i < |forwards| ==> forwards[i].port in Current(forwards)
  {
    if forwards != [] {
      CurrentByPort(Init(forwards));
      assert forwards == Init(forwards) + [Last(forwards)];
    }
  }

  /** Of several forwards on one port the last one scanned counts. */
  lemma {:induction false} CurrentLastWins(forwards: seq<PortForward>, i: nat)
    requires i < |forwards| && forall j :: i < j < |forwards| ==> forwards[j].port != forwards[i].port
    ensures forwards[i].port in Current(forwards) && Current(forwards)[forwards[i].port] == forwards[i]
  {
    if i < |forwards| - 1 {
      CurrentLastWins(Init(forwards), i);
    }
  }

  lemma NextInv(settings: Settings, s: State, e: Event)
    requires Inv(s)
    ensures Inv(Next(settings, s, e))
  {
    if e.scan.ScanOk? {
      CurrentByPort(e.scan.forwards);
      AddPhaseInv(settings, s, Current(e.scan.forwards), e.env, e.addOrder);
      RemovePhaseInv(AfterAdds(settings, s, e), Current(e.scan.forwards), e.env, e.removeOrder);
    }
  }

  lemma RunExtends(settings: Settings, states: seq<State>, events: seq<Event>, e: Event)
    requires Run(settings, states, events) && Legal(settings, Last(states), e)
    ensures Run(settings, states + [Next(settings, Last(states), e)], events + [e])
  {
    var states', events' := states + [Next(settings, Last(states), e)], events + [e];
    assert states'[|events|] == Last(states) && events'[|events|] == e;
    forall i | 0 <= i < |events'|
      ensures PolledAt(settings, states', events', i)
    {
      assert i < |events| ==> PolledAt(settings, states, events, i);
    }
  }

  /** In every reachable state, under every scan, map order and failure, the four stores agree. */
  lemma {:induction false} RunInv(settings: Settings, states: seq<State>, events: seq<Event>, i: nat)
    requires Run(settings, states, events) && i < |states|
    ensures Inv(states[i])
  {
    if i == 0 {
      assert states[0].store == Entries(states[0].active);
    } else {
      assert PolledAt(settings, states, events, i - 1);
      RunInv(settings, states, events, i - 1);
      NextInv(settings, states[i - 1], events[i - 1]);
    }
  }

  ghost predicate AllSafe(steps: seq<State>) {
    forall i :: 0 <= i < |steps| ==> Safe(steps[i])
  }

  lemma {:induction false} AddPhaseSafe(settings: Settings, s: State, current: map<int, PortForward>, env: Env,
                                        order: seq<int>)
    requires Inv(s) && ByPort(current)
    ensures AllSafe(AddPhaseSteps(settings, s, current, env, order))
  {
    if order != [] {
      AddPhaseSafe(settings, s, current, env, Init(order));
      AddPhaseInv(settings, s, current, env, Init(order));
      var t, port := AddPhase(settings, s, current, env, Init(order)), Last(order);
      if port in current && port !in t.active {
        AddStepsSafe(settings, t, current[port], env.add(port), env.bind(port));
      }
    }
  }

  lemma {:induction false} RemovePhaseSafe(s: State, current: map<int, PortForward>, env: Env, order: seq<int>)
    requires Inv(s)
    ensures AllSafe(RemovePhaseSteps(s, current, env, order))
  {
    if order != [] {
      RemovePhaseSafe(s, current, env, Init(order));
      RemovePhaseInv(s, current, env, Init(order));
      var t, port := RemovePhase(s, current, env, Init(order)), Last(order);
      if port !in current && port in t.active {
        RemoveStepsSafe(t, port, env.remove(port));
      }
    }
  }

  /** At every intermediate step of every poll of every run, running proxies listen on distinct addresses that are
      still allocated. */
  lemma RunSafe(settings: Settings, states: seq<State>, events: seq<Event>, i: nat)
    requires Run(settings, states, events) && i < |events|
    ensures Safe(states[i]) && AllSafe(PollSteps(settings, states[i], events[i]))
  {
    var s, e := states[i], events[i];
    RunInv(settings, states, events, i);
    InvSafe(s);
    if e.scan.ScanOk? {
      CurrentByPort(e.scan.forwards);
      AddPhaseSafe(settings, s, Current(e.scan.forwards), e.env, e.addOrder);
      AddPhaseInv(settings, s, Current(e.scan.forwards), e.env, e.addOrder);
      RemovePhaseSafe(AfterAdds(settings, s, e), Current(e.scan.forwards), e.env, e.removeOrder);
    }
  }

  /** Every state shutdown passes through, one for each effect on shared state. */
  function CleanupSteps(s: State, env: Env, order: seq<int>): seq<State> {
    RemovePhaseSteps(s, map[], env, order)
  }

  /** The same at every intermediate step of the shutdown that ends a run. */
  lemma CleanupSafe(settings: Settings, states: seq<State>, events: seq<Event>, env: Env, order: seq<int>)
    requires Run(settings, states, events)
    ensures Safe(Last(states)) && AllSafe(CleanupSteps(Last(states), env, order))
  {
    RunInv(settings, states, events, |events|);
    InvSafe(Last(states));
    RemovePhaseSafe(Last(states), map[], env, order);
  }

  /* Addresses */

  function Addresses(active: map<int, ActiveEntry>): set<int> {
    set port | port in active && active[port].ip.V4? :: active[port].ip.d
  }

  lemma {:induction false} DistinctAddresses(active: map<int, ActiveEntry>)
    requires forall p :: p in active ==> active[p].ip.V4? && active[p].ip == Loopback(active[p].ip.d)
    requires forall p, q :: p in active && q in active && p != q ==> active[p].ip != active[q].ip
    ensures |Addresses(active)| == |active|
    decreases |active|
  {
    if active != map[] {
      var p :| p in active;
      var rest := active - {p};
      DistinctAddresses(rest);
      assert forall q :: q in active <==> q in rest || q == p;
      assert forall q :: q in rest ==> rest[q] == active[q];
      forall d | d in Addresses(active)
        ensures d in Addresses(rest) + {active[p].ip.d}
      {
        var q :| q in active && active[q].ip.V4? && active[q].ip.d == d;
        assert q == p || q in rest;
      }
      assert Addresses(active) == Addresses(rest) + {active[p].ip.d};
      assert active[p].ip.d !in Addresses(rest);
    }
  }

  lemma UsedAreAddresses(used: set<int>, active: map<int, ActiveEntry>)
    requires AddressesAgree(used, active) && forall d: int :: d in used ==> InPool(d)
    ensures used == Addresses(active)
  {
    forall d: int | d in used
      ensures d in Addresses(active)
    {
      var p :| p in active && active[p].ip == Loopback(d);
    }
    forall d: int | d in Addresses(active)
      ensures d in used
    {
      var p :| p in active && active[p].ip.V4? && active[p].ip.d == d;
    }
    assert used == Addresses(active);
  }

  /** Conservation: the used bytes are exactly the active addresses, as many as entries and at most 254. */
  lemma AddressConservation(s: State)
    requires Inv(s)
    ensures s.used == Addresses(s.active)
    ensures |s.used| == |s.active| <= 254
    ensures FirstFree(s.used, 1) == 255 <==> |s.active| == 254
  {
    forall p | p in s.active
      ensures s.active[p].ip.V4? && s.active[p].ip == Loopback(s.active[p].ip.d)
    {
      assert EntryOk(p, s.active[p]);
    }
    UsedAreAddresses(s.used, s.active);
    DistinctAddresses(s.active);
    ExhaustedIff(s.used);
  }
}
