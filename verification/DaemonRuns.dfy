/** What polls do to the set of active ports: stability, convergence and shutdown. */
module DaemonRuns {
  import opened Text
  import opened Forward
  import opened IpAlloc
  import opened Dnsmasq
  import opened DaemonModel

  /** b has all entries of a, unchanged. */
  ghost predicate Keeps(a: map<int, ActiveEntry>, b: map<int, ActiveEntry>) {
    forall p :: p in a ==> p in b && b[p] == a[p]
  }

  /* The add loop */

  lemma AddNamedKeys(settings: Settings, s: State, pf: PortForward, name: string, o: Outcome, bind: bool)
    requires pf.port !in s.active
    ensures var t := Last(AddNamedSteps(settings, s, pf, name, o, bind));
      Keeps(s.active, t.active) && (t.active == s.active || t.active.Keys == s.active.Keys + {pf.port})
  {
    var d := FirstFree(s.used, 1);
    if d < 255 {
      AddEffectsKeys(settings, s, pf, d, name, Added(s.dir, pf.port, name, Show(Loopback(d)), o), bind);
    }
  }

  lemma AddEffectsKeys(settings: Settings, s: State, pf: PortForward, d: Byte, name: string, dns: (Dir, bool),
                       bind: bool)
    requires pf.port !in s.active
    ensures var t := Last(AddEffects(settings, s, pf, d, name, dns, bind));
      Keeps(s.active, t.active) && (t.active == s.active || t.active.Keys == s.active.Keys + {pf.port})
  {
  }

  lemma AddStepKeys(settings: Settings, s: State, pf: PortForward, o: Outcome, bind: bool)
    requires pf.port !in s.active
    ensures var t := AddStep(settings, s, pf, o, bind);
      Keeps(s.active, t.active) && (t.active == s.active || t.active.Keys == s.active.Keys + {pf.port})
  {
    AddNamedKeys(settings, s, pf, Domain.Generate(pf, settings.cfg, ActiveNames(settings.cfg, s.active)), o, bind);
  }

  lemma AddVisitKeys(settings: Settings, s: State, current: map<int, PortForward>, env: Env, port: int)
    requires ByPort(current)
    ensures var t := AddVisit(settings, s, current, env, port);
      Keeps(s.active, t.active) && forall p :: p in t.active ==> p in s.active || (p == port && p in current)
  {
    if port in current && port !in s.active {
      AddStepKeys(settings, s, current[port], env.add(port), env.bind(port));
    }
  }

  lemma {:induction false} AddPhaseKeys(settings: Settings, s: State, current: map<int, PortForward>, env: Env,
                                        order: seq<int>)
    requires ByPort(current)
    ensures var t := AddPhase(settings, s, current, env, order);
      Keeps(s.active, t.active) && forall p :: p in t.active ==> p in s.active || p in current
  {
    if order != [] {
      AddPhaseKeys(settings, s, current, env, Init(order));
      AddVisitKeys(settings, AddPhase(settings, s, current, env, Init(order)), current, env, Last(order));
    }
  }

  /* The remove loop */

  lemma RemoveVisitActive(s: State, current: map<int, PortForward>, env: Env, port: int)
    ensures RemoveVisit(s, current, env, port).active == if port in current then s.active else s.active - {port}
  {
  }

  lemma {:induction false} RemovePhaseActive(s: State, current: map<int, PortForward>, env: Env, order: seq<int>)
    ensures RemovePhase(s, current, env, order).active == s.active - Dropped(order, current.Keys)
  {
    if order != [] {
      RemovePhaseActive(s, current, env, Init(order));
      RemoveVisitActive(RemovePhase(s, current, env, Init(order)), current, env, Last(order));
      if Last(order) !in current {
        assert s.active - Dropped(Init(order), current.Keys) - {Last(order)} == s.active - Dropped(order, current.Keys);
      }
    }
  }

  function Dropped(order: seq<int>, kept: set<int>): set<int> {
    if order == [] then {}
    else Dropped(Init(order), kept) + if Last(order) in kept then {} else {Last(order)}
  }

  lemma {:induction false} DroppedIs(order: seq<int>, kept: set<int>)
    ensures forall p :: p in Dropped(order, kept) <==> p in order && p !in kept
  {
    if order != [] {
      DroppedIs(Init(order), kept);
      assert forall p :: p in order <==> p in Init(order) || p == Last(order);
    }
  }

  /* One poll */

  lemma PollActive(settings: Settings, s: State, e: Event)
    requires Legal(settings, s, e) && e.scan.ScanOk?
    ensures var t, a, current := Next(settings, s, e), AfterAdds(settings, s, e), Current(e.scan.forwards);
      t.active == a.active - (a.active.Keys - current.Keys)
  {
    var a, current := AfterAdds(settings, s, e), Current(e.scan.forwards);
    RemovePhaseActive(a, current, e.env, e.removeOrder);
    DroppedIs(e.removeOrder, current.Keys);
    forall p
      ensures p in Dropped(e.removeOrder, current.Keys) <==> p in a.active.Keys - current.Keys
    {
      assert p in e.removeOrder <==> p in a.active.Keys;
    }
    assert Dropped(e.removeOrder, current.Keys) == a.active.Keys - current.Keys;
  }

  lemma AddsKeep(settings: Settings, s: State, e: Event)
    requires e.scan.ScanOk?
    ensures var a, current := AfterAdds(settings, s, e), Current(e.scan.forwards);
      Keeps(s.active, a.active) && s.active.Keys <= a.active.Keys <= s.active.Keys + current.Keys
  {
    CurrentByPort(e.scan.forwards);
    AddPhaseKeys(settings, s, Current(e.scan.forwards), e.env, e.addOrder);
    KeepsKeys(s.active, AfterAdds(settings, s, e).active);
    BoundKeys(AfterAdds(settings, s, e).active, s.active, Current(e.scan.forwards));
  }

  lemma BoundKeys(b: map<int, ActiveEntry>, a: map<int, ActiveEntry>, current: map<int, PortForward>)
    requires forall p :: p in b ==> p in a || p in current
    ensures b.Keys <= a.Keys + current.Keys
  {
    forall p | p in b.Keys
      ensures p in a.Keys + current.Keys
    {
      assert p in b;
    }
  }

  lemma KeepsKeys(a: map<int, ActiveEntry>, b: map<int, ActiveEntry>)
    requires Keeps(a, b)
    ensures a.Keys <= b.Keys
  {
    forall p | p in a.Keys
      ensures p in b.Keys
    {
      assert p in a;
    }
  }

  /** Under every failure, a poll leaves only scanned ports active and drops none that is still scanned. */
  lemma PollBounds(settings: Settings, s: State, e: Event)
    requires Legal(settings, s, e) && e.scan.ScanOk?
    ensures var t, current := Next(settings, s, e), Current(e.scan.forwards);
      && t.active.Keys <= current.Keys
      && forall p :: p in s.active && p in current ==> p in t.active && t.active[p] == s.active[p]
  {
    AddsKeep(settings, s, e);
    PollActive(settings, s, e);
  }

  /** The port is reported by every successful scan from event i up to event j. */
  ghost predicate Stays(events: seq<Event>, port: int, i: nat, j: nat)
    requires i <= j <= |events|
  {
    forall k :: i <= k < j && events[k].scan.ScanOk? ==> port in Current(events[k].scan.forwards)
  }

  lemma StepKeeps(settings: Settings, s: State, e: Event, port: int)
    requires Legal(settings, s, e) && port in s.active
    requires e.scan.ScanOk? ==> port in Current(e.scan.forwards)
    ensures port in Next(settings, s, e).active && Next(settings, s, e).active[port] == s.active[port]
  {
    if e.scan.ScanOk? {
      PollBounds(settings, s, e);
    }
  }

  lemma {:induction false} RunKeeps(settings: Settings, states: seq<State>, events: seq<Event>, port: int, i: nat,
                                    j: nat)
    requires Run(settings, states, events) && i <= j < |states|
    requires port in states[i].active && Stays(events, port, i, j)
    ensures port in states[j].active && states[j].active[port] == states[i].active[port]
  {
    if i < j {
      assert PolledAt(settings, states, events, j - 1);
      RunKeeps(settings, states, events, port, i, j - 1);
      StepKeeps(settings, states[j - 1], events[j - 1], port);
    }
  }

  /** No churn: an entry whose port stays keeps its address, name, proxy and store entry. */
  lemma NoChurn(settings: Settings, states: seq<State>, events: seq<Event>, port: int, i: nat, j: nat)
    requires Run(settings, states, events) && i <= j < |states|
    requires port in states[i].active && Stays(events, port, i, j)
    ensures port in states[j].active && states[j].active[port] == states[i].active[port]
    ensures port in states[i].store && port in states[j].store && states[j].store[port] == states[i].store[port]
  {
    RunKeeps(settings, states, events, port, i, j);
    RunInv(settings, states, events, i);
    RunInv(settings, states, events, j);
  }
}
