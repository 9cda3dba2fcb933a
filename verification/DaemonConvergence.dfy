/** When polling reaches the scanned set of ports, and what shutdown leaves behind. */
module DaemonConvergence {
  import opened Text
  import opened NameOrder
  import opened Forward
  import opened IpAlloc
  import opened Dnsmasq
  import opened DaemonModel
  import opened DaemonRuns
  import opened DaemonNames

  const POOL_SIZE := 254

  predicate DnsSucceeds(o: Outcome) {
    o.mkdir && o.state && o.hosts && o.reload
  }

  /** The TLD is acceptable and dnsmasq adds of these ports succeed; removals may fail. */
  ghost predicate DnsWorks(settings: Settings, env: Env, ports: set<int>) {
    TldOk(settings.cfg) && forall port: int :: port in ports ==> DnsSucceeds(env.add(port))
  }

  lemma AddStepWorks(settings: Settings, s: State, pf: PortForward, o: Outcome, bind: bool)
    requires Inv(s) && pf.port !in s.active
    requires TldOk(settings.cfg) && DnsSucceeds(o)
    ensures pf.port in AddStep(settings, s, pf, o, bind).active <==> |s.active| < POOL_SIZE
  {
    AddressConservation(s);
    AddStepCases(settings, s, pf, o, bind);
    AcceptedIff(pf, settings.cfg, ActiveNames(settings.cfg, s.active), FirstFree(s.used, 1));
  }

  lemma AddVisitWorks(settings: Settings, s: State, current: map<int, PortForward>, env: Env, port: int)
    requires Inv(s) && ByPort(current) && DnsWorks(settings, env, current.Keys) && port in current
    ensures var t := AddVisit(settings, s, current, env, port);
      t.active.Keys == if port !in s.active && |s.active| < POOL_SIZE then s.active.Keys + {port} else s.active.Keys
  {
    if port !in s.active {
      AddStepWorks(settings, s, current[port], env.add(port), env.bind(port));
      AddStepKeys(settings, s, current[port], env.add(port), env.bind(port));
    }
  }

  function Seen(order: seq<int>): set<int> {
    set p | p in order
  }

  /** Adds so far reached all visited ports, or the pool ran out before some of them. */
  ghost predicate Reached(keys: set<int>, wanted: set<int>) {
    keys == wanted || (keys < wanted && |keys| == POOL_SIZE)
  }

  lemma ReachedStep(keys: set<int>, wanted: set<int>, port: int)
    requires Reached(keys, wanted) && |keys| <= POOL_SIZE
    ensures Reached(if port !in keys && |keys| < POOL_SIZE then keys + {port} else keys, wanted + {port})
  {
    if keys == wanted && port in keys {
      assert wanted + {port} == wanted;
    }
  }

  lemma AddVisitReaches(settings: Settings, s: State, current: map<int, PortForward>, env: Env, port: int,
                        wanted: set<int>)
    requires Inv(s) && ByPort(current) && DnsWorks(settings, env, current.Keys) && port in current
    requires Reached(s.active.Keys, wanted)
    ensures Reached(AddVisit(settings, s, current, env, port).active.Keys, wanted + {port})
  {
    AddressConservation(s);
    AddVisitWorks(settings, s, current, env, port);
    assert |s.active.Keys| == |s.active|;
    ReachedStep(s.active.Keys, wanted, port);
  }

  lemma SeenSnoc(keys: set<int>, order: seq<int>)
    requires order != []
    ensures keys + Seen(order) == keys + Seen(Init(order)) + {Last(order)}
  {
    assert order == Init(order) + [Last(order)];
  }

  lemma {:induction false} AddPhaseReaches(settings: Settings, s: State, current: map<int, PortForward>, env: Env,
                                           order: seq<int>)
    requires Inv(s) && ByPort(current) && DnsWorks(settings, env, current.Keys)
    requires forall i :: 0 <= i < |order| ==> order[i] in current
    ensures Reached(AddPhase(settings, s, current, env, order).active.Keys, s.active.Keys + Seen(order))
  {
    if order == [] {
      assert s.active.Keys + Seen(order) == s.active.Keys;
    } else {
      AddPhaseReaches(settings, s, current, env, Init(order));
      AddPhaseInv(settings, s, current, env, Init(order));
      AddVisitReaches(settings, AddPhase(settings, s, current, env, Init(order)), current, env, Last(order),
                      s.active.Keys + Seen(Init(order)));
      SeenSnoc(s.active.Keys, order);
    }
  }

  /** The poll's scan, or nothing after a scan error. */
  function Scanned(e: Event): set<int> {
    if e.scan.ScanOk? then Current(e.scan.forwards).Keys else {}
  }

  lemma AddsReach(settings: Settings, s: State, e: Event)
    requires Inv(s) && Legal(settings, s, e) && e.scan.ScanOk? && DnsWorks(settings, e.env, Scanned(e))
    ensures Reached(AfterAdds(settings, s, e).active.Keys, s.active.Keys + Scanned(e))
  {
    CurrentByPort(e.scan.forwards);
    AddPhaseReaches(settings, s, Current(e.scan.forwards), e.env, e.addOrder);
    assert Seen(e.addOrder) == Scanned(e);
  }

  /** One poll reaches the scanned ports exactly when they fit in the pool together with the ports still active,
      because adds precede removes. */
  lemma OnePollConvergesIff(settings: Settings, s: State, e: Event)
    requires Inv(s) && Legal(settings, s, e) && e.scan.ScanOk? && DnsWorks(settings, e.env, Scanned(e))
    ensures Next(settings, s, e).active.Keys == Scanned(e) <==> |s.active.Keys + Scanned(e)| <= POOL_SIZE
  {
    AddsReach(settings, s, e);
    AddsKeep(settings, s, e);
    AddsBounded(settings, s, e);
    KeptReach(AfterAdds(settings, s, e).active, s.active.Keys, Scanned(e));
    PollActive(settings, s, e);
  }

  lemma AddsBounded(settings: Settings, s: State, e: Event)
    requires Inv(s) && e.scan.ScanOk?
    ensures |AfterAdds(settings, s, e).active| <= POOL_SIZE
  {
    CurrentByPort(e.scan.forwards);
    AddPhaseInv(settings, s, Current(e.scan.forwards), e.env, e.addOrder);
    AddressConservation(AfterAdds(settings, s, e));
  }

  lemma KeptReach(a: map<int, ActiveEntry>, before: set<int>, scanned: set<int>)
    requires Reached(a.Keys, before + scanned) && |a| <= POOL_SIZE
    requires before <= a.Keys
    ensures (a - (a.Keys - scanned)).Keys == scanned <==> |before + scanned| <= POOL_SIZE
  {
    assert |a.Keys| == |a|;
    assert (a - (a.Keys - scanned)).Keys == a.Keys * scanned;
    if a.Keys != before + scanned {
      ProperSubsetSize(a.Keys, before + scanned);
    }
    if a.Keys * scanned == scanned {
      ContainsAll(a.Keys, before, scanned);
    }
  }

  lemma ProperSubsetSize<T>(a: set<T>, b: set<T>)
    requires a < b
    ensures |a| < |b|
  {
    assert b == a + (b - a);
    assert b - a != {};
  }

  lemma ContainsAll(keys: set<int>, before: set<int>, scanned: set<int>)
    requires before <= keys && scanned <= keys * scanned
    ensures before + scanned <= keys
  {
  }

  /* The same over runs */

  /** Poll i scans successfully, and dnsmasq adds of the scanned ports succeed. */
  ghost predicate WorksAt(settings: Settings, events: seq<Event>, i: nat)
    requires i < |events|
  {
    events[i].scan.ScanOk? && DnsWorks(settings, events[i].env, Scanned(events[i]))
  }

  /** From any reachable state: one poll reaches the scan exactly when both port sets fit the pool together. */
  lemma RunConvergesIff(settings: Settings, states: seq<State>, events: seq<Event>, i: nat)
    requires Run(settings, states, events) && i < |events|
    requires WorksAt(settings, events, i)
    ensures states[i + 1].active.Keys == Scanned(events[i]) <==>
            |states[i].active.Keys + Scanned(events[i])| <= POOL_SIZE
  {
    assert PolledAt(settings, states, events, i);
    RunInv(settings, states, events, i);
    OnePollConvergesIff(settings, states[i], events[i]);
  }

  lemma RunBounds(settings: Settings, states: seq<State>, events: seq<Event>, i: nat)
    requires Run(settings, states, events) && i < |events| && events[i].scan.ScanOk?
    ensures states[i + 1].active.Keys <= Scanned(events[i])
  {
    assert PolledAt(settings, states, events, i);
    PollBounds(settings, states[i], events[i]);
  }

  /** Two successive polls of one scan that fits the pool reach it from every reachable state, in every map order,
      whatever happened in the first of them. */
  lemma TwoPollsConverge(settings: Settings, states: seq<State>, events: seq<Event>, i: nat)
    requires Run(settings, states, events) && i + 1 < |events|
    requires events[i + 1].scan == events[i].scan && WorksAt(settings, events, i + 1)
    requires |Scanned(events[i])| <= POOL_SIZE
    ensures states[i + 2].active.Keys == Scanned(events[i])
  {
    RunBounds(settings, states, events, i);
    RunConvergesIff(settings, states, events, i + 1);
    Absorbed(states[i + 1].active.Keys, Scanned(events[i]));
  }

  lemma Absorbed(a: set<int>, b: set<int>)
    requires a <= b
    ensures a + b == b
  {
  }

  /** Once the scanned ports are the active ones a poll changes nothing at all, whatever the environment does. */
  lemma SteadyState(settings: Settings, s: State, e: Event)
    requires Legal(settings, s, e) && e.scan.ScanOk? && s.active.Keys == Scanned(e)
    ensures Next(settings, s, e) == s
  {
    AddPhaseIdle(settings, s, Current(e.scan.forwards), e.env, e.addOrder);
    RemovePhaseIdle(s, Current(e.scan.forwards), e.env, e.removeOrder);
  }

  lemma {:induction false} AddPhaseIdle(settings: Settings, s: State, current: map<int, PortForward>, env: Env,
                                        order: seq<int>)
    requires current.Keys <= s.active.Keys
    ensures AddPhase(settings, s, current, env, order) == s
  {
    if order != [] {
      AddPhaseIdle(settings, s, current, env, Init(order));
    }
  }

  lemma {:induction false} RemovePhaseIdle(s: State, current: map<int, PortForward>, env: Env, order: seq<int>)
    requires s.active.Keys <= current.Keys
    ensures RemovePhase(s, current, env, order) == s
  {
    if order != [] {
      RemovePhaseIdle(s, current, env, Init(order));
    }
  }

  /** The bound is met: when a daemon that has filled its pool sees all its ports vanish at once, a new port is
      kept out for one poll and admitted at the next. */
  lemma FullPoolDelaysOnePoll(settings: Settings, states: seq<State>, events: seq<Event>, port: int)
    requires Run(settings, states, events) && |events| == 3
    requires WorksAt(settings, events, 0) && WorksAt(settings, events, 1) && WorksAt(settings, events, 2)
    requires |Scanned(events[0])| == POOL_SIZE && port !in Scanned(events[0])
    requires Scanned(events[1]) == Scanned(events[2]) == {port}
    ensures states[1].active.Keys == Scanned(events[0])
    ensures states[2].active == map[]
    ensures states[3].active.Keys == {port}
  {
    NothingActive(settings, states, events);
    PollReaches(settings, states, events, 0);
    PollReaches(settings, states, events, 1);
    PollReaches(settings, states, events, 2);
    FullPoolTurns(states, events, port);
  }

  /** A poll leaves only scanned ports, and all of them exactly if they fit the pool together with those before. */
  predicate Reaches(before: set<int>, scanned: set<int>, after: set<int>) {
    after <= scanned && (after == scanned <==> |before + scanned| <= POOL_SIZE)
  }

  lemma PollReaches(settings: Settings, states: seq<State>, events: seq<Event>, i: nat)
    requires Run(settings, states, events) && i < |events| && WorksAt(settings, events, i)
    ensures ReachesAt(states, events, i)
  {
    RunConvergesIff(settings, states, events, i);
    RunBounds(settings, states, events, i);
  }

  lemma NothingActive(settings: Settings, states: seq<State>, events: seq<Event>)
    requires Run(settings, states, events)
    ensures states[0].active.Keys == {}
  {
  }

  predicate ReachesAt(states: seq<State>, events: seq<Event>, i: nat)
    requires i < |events| && i + 1 < |states|
  {
    Reaches(states[i].active.Keys, Scanned(events[i]), states[i + 1].active.Keys)
  }

  lemma FullPoolTurns(states: seq<State>, events: seq<Event>, port: int)
    requires |events| == 3 && |states| == 4 && states[0].active.Keys == {}
    requires ReachesAt(states, events, 0) && ReachesAt(states, events, 1) && ReachesAt(states, events, 2)
    requires |Scanned(events[0])| == POOL_SIZE && port !in Scanned(events[0])
    requires Scanned(events[1]) == {port} && Scanned(events[2]) == {port}
    ensures states[1].active.Keys == Scanned(events[0])
    ensures states[2].active == map[]
    ensures states[3].active.Keys == {port}
  {
    FullPoolSets(states[0].active.Keys, states[1].active.Keys, states[2].active.Keys, states[3].active.Keys,
                 Scanned(events[0]), Scanned(events[1]), Scanned(events[2]), port);
    assert states[2].active.Keys == {};
  }

  lemma FullPoolSets(k0: set<int>, k1: set<int>, k2: set<int>, k3: set<int>, full: set<int>, one: set<int>,
                     same: set<int>, port: int)
    requires Reaches(k0, full, k1) && Reaches(k1, one, k2) && Reaches(k2, same, k3)
    requires k0 == {} && |full| == POOL_SIZE && port !in full && one == {port} && same == {port}
    ensures k1 == full && k2 == {} && k3 == {port}
  {
    Absorbed(k0, full);
    assert |full + {port}| == POOL_SIZE + 1;
    assert port !in k2;
    Absorbed(k2, same);
  }

  /* Shutdown */

  /** Under every dnsmasq outcome shutdown empties the active map, the store and the pool and stops every proxy. */
  lemma CleanupEmpties(s: State, env: Env, order: seq<int>)
    requires Inv(s) && Enumerates(order, s.active.Keys)
    ensures var t := Cleanup(s, env, order);
      t.active == map[] && t.store == map[] && t.used == {} && t.running == {}
  {
    CleanupActive(s, env, order);
    RemovePhaseInv(s, map[], env, order);
    InvEmpty(Cleanup(s, env, order));
  }

  lemma CleanupActive(s: State, env: Env, order: seq<int>)
    requires Enumerates(order, s.active.Keys)
    ensures Cleanup(s, env, order).active == map[]
  {
    var none: map<int, PortForward> := map[];
    assert none.Keys == {};
    RemovePhaseActive(s, none, env, order);
    DroppedIs(order, {});
    forall p
      ensures p !in s.active - Dropped(order, {})
    {
      assert p in s.active ==> p in order;
    }
    assert s.active - Dropped(order, {}) == map[];
  }

  lemma InvEmpty(s: State)
    requires Inv(s) && s.active == map[]
    ensures s.store == map[] && s.used == {} && s.running == {}
  {
    assert forall d :: d !in s.used;
    assert forall r :: r !in s.running;
  }
}
