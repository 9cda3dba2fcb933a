/** The daemon itself: the source's methods over the stores they update in place, proved against the state machine. */
module Daemon {
  import opened Options
  import opened Text
  import opened NameOrder
  import opened MapRange
  import opened Config
  import opened Forward
  import opened Domain
  import opened IpAlloc
  import opened Dnsmasq
  import opened Ipc
  import opened DaemonModel
  import opened DaemonConvergence

  class Daemon {
    const settings: Settings
    const dns: Manager
    const alloc: Allocator
    const store: StateStore
    var active: map<int, ActiveEntry>
    var running: set<Proxy>   // the proxies started and not stopped

    ghost predicate Valid()
      reads this, dns, alloc, store
    {
      dns.Valid() && alloc.Valid()
    }

    ghost function View(): State
      reads this, dns, alloc, store
    {
      State(alloc.InUse(), active, store.entries, dns.View(), running)
    }

    constructor (settings: Settings, dns: Manager)
      requires dns.Valid()
      ensures Valid() && Initial(View()) && this.settings == settings && this.dns == dns
      ensures dns.View() == old(dns.View())
      ensures fresh(alloc) && fresh(store)
    {
      this.settings, this.dns := settings, dns;
      alloc := new Allocator();
      store := new StateStore();
      active, running := map[], {};
    }

    method CollectNames() returns (names: set<string>)
      ensures names == ActiveNames(settings.cfg, active)
    {
      names := {};
      var rest := active.Keys;
      while rest != {}
        invariant rest <= active.Keys
        invariant names == ActiveNames(settings.cfg, active - rest)
        decreases rest
      {
        var port := Pick(rest);
        NamesGrow(settings.cfg, active, rest, port);
        rest := rest - {port};
        names := names + {StripTLD(active[port].entry.domain, settings.cfg.tld)};
      }
      assert active - {} == active;
    }

    /** `steps` is the shared state after each effect. */
    method Add(pf: PortForward, o: Outcome, bind: bool) returns (ghost steps: seq<State>)
      requires Valid()
      modifies this, dns, alloc, store
      ensures Valid()
      ensures steps == AddSteps(settings, old(View()), pf, o, bind)
      ensures View() == AddStep(settings, old(View()), pf, o, bind)
    {
      var activeNames := CollectNames();
      steps := AddNamed(pf, Generate(pf, settings.cfg, activeNames), o, bind);
    }

    method AddNamed(pf: PortForward, name: AsciiText, o: Outcome, bind: bool) returns (ghost steps: seq<State>)
      requires Valid()
      modifies this, dns, alloc, store
      ensures Valid()
      ensures steps == AddNamedSteps(settings, old(View()), pf, name, o, bind) && View() == Last(steps)
    {
      var ip := alloc.Allocate();
      steps := [View()];
      if ip != NoIP {
        assert View() == old(View()).(used := old(View()).used + {ip.d});
        ghost var more := Publish(pf, ip, name, o, bind);
        steps := steps + more;
      }
    }

    method Publish(pf: PortForward, ip: IP, name: AsciiText, o: Outcome, bind: bool) returns (ghost steps: seq<State>)
      requires Valid() && ip.V4? && ip == Loopback(ip.d)
      modifies this, dns, alloc, store
      ensures Valid()
      ensures steps == PublishSteps(settings, old(View()), pf, ip.d, name,
              Added(old(View()).dir, pf.port, name, Show(ip), o), bind)
      ensures View() == Last(steps)
    {
      var ok := dns.Add(pf.port, name, Show(ip), o);
      steps := [View()];
      assert View() == old(View()).(dir := Added(old(View()).dir, pf.port, name, Show(ip), o).0);
      if !ok {
        alloc.Free(ip);
        steps := steps + [View()];
        return;
      }
      ghost var more := Activate(pf, ip, name, bind);
      steps := steps + more;
    }

    /** The rest of add: the proxy, which is optional, and the records of the entry. */
    method Activate(pf: PortForward, ip: IP, name: AsciiText, bind: bool) returns (ghost steps: seq<State>)
      requires Valid()
      modifies this, store
      ensures Valid()
      ensures steps == ActivateSteps(settings, old(View()), pf, ip, name, bind) && View() == Last(steps)
    {
      var proxyPort := ServiceProxyPort(settings.cfg, pf.remotePort);
      var isHTTPS := ServiceName(pf.remotePort) == "https";
      var useTLS := isHTTPS && settings.hasCert;
      var p: Option<Proxy> := None;
      if bind {
        p := Some(Proxy(ip, proxyPort, pf.port, useTLS));
        running := running + {p.value};
      }
      ghost var s1 := View();
      var entry := Entry(pf.port, pf.remoteHost, pf.remotePort, pf.resource, Show(ip), proxyPort, name, pf.tool,
          useTLS);
      active := active[pf.port := ActiveEntry(entry, ip, p)];
      ghost var s2 := View();
      store.Set(entry);
      steps := [s1, s2, View()];
    }

    method Remove(port: int, o: Outcome) returns (ghost steps: seq<State>)
      requires Valid() && port in active
      modifies this, dns, alloc, store
      ensures Valid()
      ensures steps == RemoveSteps(old(View()), port, o)
      ensures View() == RemoveStep(old(View()), port, o)
    {
      var e := active[port];
      if e.proxy.Some? {
        running := running - {e.proxy.value};
      }
      ghost var s1 := View();
      var _ := dns.Remove(port, o);
      ghost var s2 := View();
      assert s2 == s1.(dir := Removed(s1.dir, port, o).0);
      alloc.Free(e.ip);
      ghost var s3 := View();
      assert s3 == s2.(used := Freed(s2.used, e.ip));
      active := active - {port};
      ghost var s4 := View();
      assert s4 == s3.(active := s3.active - {port});
      store.Delete(port);
      assert View() == s4.(store := s4.store - {port});
      steps := [s1, s2, s3, s4, View()];
    }

    method CollectCurrent(forwards: seq<PortForward>) returns (current: map<int, PortForward>)
      ensures current == Current(forwards)
    {
      current := map[];
      for i := 0 to |forwards|
        invariant current == Current(forwards[..i])
      {
        assert Init(forwards[..i + 1]) == forwards[..i];
        current := current[forwards[i].port := forwards[i]];
      }
      assert forwards[..|forwards|] == forwards;
    }

    method AddMissing(current: map<int, PortForward>, env: Env) returns (ghost order: seq<int>, ghost steps: seq<State>)
      requires Valid()
      modifies this, dns, alloc, store
      ensures Valid() && Enumerates(order, current.Keys)
      ensures View() == AddPhase(settings, old(View()), current, env, order)
      ensures steps == AddPhaseSteps(settings, old(View()), current, env, order)
    {
      order, steps := [], [];
      var rest := current.Keys;
      while rest != {}
        invariant Valid()
        invariant rest <= current.Keys && NoDuplicates(order)
        invariant forall p :: p in order <==> p in current && p !in rest
        invariant View() == AddPhase(settings, old(View()), current, env, order)
        invariant steps == AddPhaseSteps(settings, old(View()), current, env, order)
        decreases rest
      {
        var port := Pick(rest);
        ghost var visited := order + [port];
        assert Init(visited) == order && Last(visited) == port;
        if port !in active {
          ghost var more := Add(current[port], env.add(port), env.bind(port));
          steps := steps + more;
        }
        rest, order := rest - {port}, visited;
      }
    }

    method RemoveStale(current: map<int, PortForward>, env: Env)
      returns (ghost order: seq<int>, ghost steps: seq<State>)
      requires Valid()
      modifies this, dns, alloc, store
      ensures Valid() && Enumerates(order, old(active).Keys)
      ensures View() == RemovePhase(old(View()), current, env, order)
      ensures steps == RemovePhaseSteps(old(View()), current, env, order)
    {
      order, steps := [], [];
      var rest := active.Keys;
      while rest != {}
        invariant Valid()
        invariant rest <= active.Keys && rest <= old(active).Keys && NoDuplicates(order)
        invariant forall p :: p in order <==> p in old(active) && p !in rest
        invariant View() == RemovePhase(old(View()), current, env, order)
        invariant steps == RemovePhaseSteps(old(View()), current, env, order)
        decreases rest
      {
        var port := Pick(rest);
        ghost var visited := order + [port];
        assert Init(visited) == order && Last(visited) == port;
        if port !in current {
          ghost var more := Remove(port, env.remove(port));
          steps := steps + more;
        }
        rest, order := rest - {port}, visited;
      }
    }

    /** One poll is one event of the state machine, for whichever order the maps were ranged over. */
    method Poll(scan: Scan, env: Env) returns (ghost e: Event, ghost steps: seq<State>)
      requires Valid()
      modifies this, dns, alloc, store
      ensures Valid()
      ensures e.scan == scan && e.env == env && Legal(settings, old(View()), e)
      ensures View() == Next(settings, old(View()), e)
      ensures steps == PollSteps(settings, old(View()), e)
    {
      if scan.ScanError? {
        e, steps := Event(scan, env, [], []), [];
        return;
      }
      var current := CollectCurrent(scan.forwards);
      ghost var addOrder, adds := AddMissing(current, env);
      ghost var removeOrder, removes := RemoveStale(current, env);
      e, steps := Event(scan, env, addOrder, removeOrder), adds + removes;
    }

    method Cleanup(env: Env) returns (ghost order: seq<int>, ghost steps: seq<State>)
      requires Valid()
      modifies this, dns, alloc, store
      ensures Valid() && Enumerates(order, old(active).Keys)
      ensures View() == DaemonModel.Cleanup(old(View()), env, order)
      ensures steps == CleanupSteps(old(View()), env, order)
    {
      order, steps := RemoveStale(map[], env);
    }

    method PollAll(scans: seq<Scan>, envs: seq<Env>) returns (ghost states: seq<State>, ghost events: seq<Event>)
      requires Valid() && Initial(View()) && |scans| == |envs|
      modifies this, dns, alloc, store
      ensures Valid() && |events| == |scans|
      ensures forall i :: 0 <= i < |scans| ==> events[i].scan == scans[i] && events[i].env == envs[i]
      ensures DaemonModel.Run(settings, states, events) && states[0] == old(View()) && Last(states) == View()
    {
      states, events := [View()], [];
      for i := 0 to |scans|
        invariant Valid() && |events| == i
        invariant forall k :: 0 <= k < i ==> events[k].scan == scans[k] && events[k].env == envs[k]
        invariant DaemonModel.Run(settings, states, events) && Last(states) == View() && states[0] == old(View())
      {
        ghost var e, _ := Poll(scans[i], envs[i]);
        RunExtends(settings, states, events, e);
        states, events := states + [View()], events + [e];
      }
    }

    /** Without the server nothing happens. Otherwise polls once at the start and once per tick until stopped, then
        cleans up: the states between polls form a run, and shutdown, safe at every step, leaves every store empty
        and no proxy running. */
    method Run(serverStarts: bool, scans: seq<Scan>, envs: seq<Env>, last: Env)
      returns (ok: bool, ghost states: seq<State>, ghost events: seq<Event>, ghost steps: seq<State>)
      requires Valid() && Initial(View()) && 1 <= |scans| == |envs|
      modifies this, dns, alloc, store
      ensures Valid() && ok == serverStarts
      ensures DaemonModel.Run(settings, states, events) && states[0] == old(View()) && AllSafe(steps)
      ensures ok ==> |events| == |scans|
      ensures ok ==> forall i :: 0 <= i < |scans| ==> events[i].scan == scans[i] && events[i].env == envs[i]
      ensures ok ==> exists order ::
        && Enumerates(order, Last(states).active.Keys)
        && steps == CleanupSteps(Last(states), last, order)
        && View() == DaemonModel.Cleanup(Last(states), last, order)
      ensures !ok ==> View() == old(View()) && events == []
      ensures active == map[] && store.entries == map[] && alloc.InUse() == {} && running == {}
    {
      if !serverStarts {
        ok, states, events, steps := false, [View()], [], [];
        return;
      }
      ok := true;
      states, events := PollAll(scans, envs);
      RunInv(settings, states, events, |events|);
      ghost var s := View();
      ghost var order;
      order, steps := Cleanup(last);
      CleanupEmpties(s, last, order);
      CleanupSafe(settings, states, events, last, order);
    }
  }

  lemma NamesGrow(cfg: Config, active: map<int, ActiveEntry>, rest: set<int>, port: int)
    requires rest <= active.Keys && port in rest
    ensures ActiveNames(cfg, active - (rest - {port})) ==
            ActiveNames(cfg, active - rest) + {StripTLD(active[port].entry.domain, cfg.tld)}
  {
    var a, b := active - rest, active - (rest - {port});
    assert forall p :: p in b <==> p in a || p == port;
  }
}
