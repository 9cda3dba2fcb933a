/** A first poll in which everything succeeds: the run that shows which names are reachable. */
module DaemonWitness {
  import opened Text
  import opened NameOrder
  import opened MapRange
  import opened Forward
  import opened Domain
  import opened Dnsmasq
  import opened DaemonModel
  import opened DaemonRuns
  import opened DaemonNames
  import opened DaemonDistinct
  import opened DaemonConvergence

  ghost predicate DistinctPorts(forwards: seq<PortForward>) {
    forall i, j :: 0 <= i < j < |forwards| ==> forwards[i].port != forwards[j].port
  }

  /* The labels an add phase gives */

  /** The active entries are those of the forwards, with these labels. */
  ghost predicate LabelledAs(tld: string, active: map<int, ActiveEntry>, forwards: seq<PortForward>, names: seq<string>)
    requires |names| == |forwards|
  {
    && (forall p :: p in active <==> p in LocalPorts(forwards))
    && (forall i :: 0 <= i < |forwards| ==>
        forwards[i].port in active && LabelOf(tld, active[forwards[i].port]) == names[i])
  }

  lemma {:induction false} PortCount(forwards: seq<PortForward>, keys: set<int>)
    requires forall p :: p in keys <==> p in LocalPorts(forwards)
    ensures |keys| <= |forwards|
  {
    if forwards == [] {
      if keys != {} {
        var p := SomeElement(keys);
        assert false;
      }
    } else {
      var front, port := Init(forwards), Last(forwards).port;
      assert LocalPorts(forwards) == LocalPorts(front) + [port];
      if port in LocalPorts(front) {
        PortCount(front, keys);
      } else {
        PortCount(front, keys - {port});
      }
    }
  }

  lemma TakenNames(tld: string, active: map<int, ActiveEntry>, forwards: seq<PortForward>, names: seq<string>,
                   taken: set<string>)
    requires |names| == |forwards| && LabelledAs(tld, active, forwards, names)
    requires forall n :: n in taken <==> exists p :: p in active && LabelOf(tld, active[p]) == n
    ensures taken == set n | n in names
  {
    forall n | n in taken
      ensures n in names
    {
      var p :| p in active && LabelOf(tld, active[p]) == n;
      var i :| 0 <= i < |forwards| && LocalPorts(forwards)[i] == p;
      assert names[i] == n;
    }
    forall n | n in names
      ensures n in taken
    {
      var i :| 0 <= i < |names| && names[i] == n;
      assert forwards[i].port in active;
    }
  }

  lemma LabelledAsPut(tld: string, a: map<int, ActiveEntry>, b: map<int, ActiveEntry>, forwards: seq<PortForward>,
                      names: seq<string>)
    requires forwards != [] && |names| == |forwards| && DistinctPorts(forwards)
    requires LabelledAs(tld, a, Init(forwards), Init(names)) && Keeps(a, b) && b.Keys == a.Keys + {Last(forwards).port}
    requires Last(forwards).port in b && LabelOf(tld, b[Last(forwards).port]) == Last(names)
    ensures LabelledAs(tld, b, forwards, names)
  {
    assert LocalPorts(forwards) == LocalPorts(Init(forwards)) + [Last(forwards).port];
    forall i | 0 <= i < |forwards|
      ensures forwards[i].port in b && LabelOf(tld, b[forwards[i].port]) == names[i]
    {
      if i < |forwards| - 1 {
        assert Init(forwards)[i] == forwards[i] && Init(names)[i] == names[i];
      }
    }
  }

  /** Adding to an empty daemon, with room for all and working dnsmasq, gives the forwards the labels NamesInOrder lists
      for the order in which the map is ranged over. */
  lemma {:induction false} AddPhaseNames(settings: Settings, n: Naming, s: State, current: map<int, PortForward>,
                                         env: Env, forwards: seq<PortForward>)
    requires Inv(s) && s.active == map[] && ByPort(current) && DnsWorks(settings, env, current.Keys) &&
             Names(n, settings.cfg)
    requires DistinctPorts(forwards) && |forwards| <= POOL_SIZE
    requires forall i :: 0 <= i < |forwards| ==> forwards[i].port in current && current[forwards[i].port] == forwards[i]
    ensures LabelledAs(settings.cfg.tld, AddPhase(settings, s, current, env, LocalPorts(forwards)).active, forwards,
                       NamesInOrder(n, forwards))
  {
    if forwards != [] {
      var front := Init(forwards);
      assert forall i :: 0 <= i < |front| ==> front[i] == forwards[i];
      AddPhaseNames(settings, n, s, current, env, front);
      AddPhaseInv(settings, s, current, env, LocalPorts(front));
      PortCount(front, AddPhase(settings, s, current, env, LocalPorts(front)).active.Keys);
      LocalPortsLast(forwards);
      AddVisitNames(settings, n, AddPhase(settings, s, current, env, LocalPorts(front)), current, env, forwards);
    }
  }

  lemma LocalPortsLast(forwards: seq<PortForward>)
    requires forwards != []
    ensures Init(LocalPorts(forwards)) == LocalPorts(Init(forwards)) &&
            Last(LocalPorts(forwards)) == Last(forwards).port
  {
  }

  lemma AddVisitNames(settings: Settings, n: Naming, t: State, current: map<int, PortForward>, env: Env,
                      forwards: seq<PortForward>)
    requires forwards != [] && DistinctPorts(forwards) && Inv(t) && |t.active.Keys| < POOL_SIZE
    requires Last(forwards).port in current && current[Last(forwards).port] == Last(forwards)
    requires DnsWorks(settings, env, current.Keys) && Names(n, settings.cfg)
    requires LabelledAs(settings.cfg.tld, t.active, Init(forwards), NamesInOrder(n, Init(forwards)))
    ensures LabelledAs(settings.cfg.tld, AddVisit(settings, t, current, env, Last(forwards).port).active, forwards,
                       NamesInOrder(n, forwards))
  {
    var pf := Last(forwards);
    AddNamesLast(settings, n, t, pf, env.add(pf.port), env.bind(pf.port), forwards, NamesInOrder(n, forwards));
  }

  lemma AddNamesLast(settings: Settings, n: Naming, t: State, pf: PortForward, o: Outcome, bind: bool,
                     forwards: seq<PortForward>, names: seq<string>)
    requires forwards != [] && pf == Last(forwards) && DistinctPorts(forwards) && Inv(t) && |t.active.Keys| < POOL_SIZE
    requires TldOk(settings.cfg) && DnsSucceeds(o) && Names(n, settings.cfg)
    requires |names| == |forwards| && Last(names) == NextName(n, Init(names), pf)
    requires LabelledAs(settings.cfg.tld, t.active, Init(forwards), Init(names))
    ensures pf.port !in t.active
    ensures LabelledAs(settings.cfg.tld, AddStep(settings, t, pf, o, bind).active, forwards, names)
  {
    NotYetActive(settings.cfg.tld, t.active, forwards, Init(names));
    assert |t.active| == |t.active.Keys|;
    AddStepWorks(settings, t, pf, o, bind);
    AddStepKeys(settings, t, pf, o, bind);
    AddedLabel(settings, t, pf, o, bind);
    TakenNames(settings.cfg.tld, t.active, Init(forwards), Init(names), ActiveNames(settings.cfg, t.active));
    LabelledAsPut(settings.cfg.tld, t.active, AddStep(settings, t, pf, o, bind).active, forwards, names);
  }

  lemma NotYetActive(tld: string, active: map<int, ActiveEntry>, forwards: seq<PortForward>, names: seq<string>)
    requires forwards != [] && DistinctPorts(forwards) && |names| == |forwards| - 1 &&
             LabelledAs(tld, active, Init(forwards), names)
    ensures Last(forwards).port !in active
  {
  }

  /* The run */

  const SUCCESS := Outcome(true, true, true, true, true, {}, {})

  const ALL_SUCCEED := Env(_ => SUCCESS, _ => SUCCESS, _ => true)

  const START := State({}, map[], map[], Dir(false, map[]), {})

  lemma EnumerationExists(s: set<int>) returns (order: seq<int>)
    ensures Enumerates(order, s)
  {
    if s == {} {
      order := [];
    } else {
      var x := SomeElement(s);
      order := EnumerationExists(s - {x});
      order := order + [x];
    }
  }

  lemma {:induction false} CurrentOfDistinct(forwards: seq<PortForward>)
    requires DistinctPorts(forwards)
    ensures forall i :: 0 <= i < |forwards| ==>
            forwards[i].port in Current(forwards) && Current(forwards)[forwards[i].port] == forwards[i]
    ensures Enumerates(LocalPorts(forwards), Current(forwards).Keys)
  {
    forall i | 0 <= i < |forwards|
      ensures forwards[i].port in Current(forwards) && Current(forwards)[forwards[i].port] == forwards[i]
    {
      CurrentLastWins(forwards, i);
    }
    CurrentByPort(forwards);
    forall p | p in Current(forwards)
      ensures p in LocalPorts(forwards)
    {
      var i :| 0 <= i < |forwards| && forwards[i] == Current(forwards)[p];
      assert LocalPorts(forwards)[i] == p;
    }
  }

  /** One poll of these forwards, in this order, by a new daemon whose dnsmasq operations succeed. */
  lemma FirstPoll(settings: Settings, n: Naming, forwards: seq<PortForward>)
    returns (states: seq<State>, events: seq<Event>)
    requires TldOk(settings.cfg) && DistinctPorts(forwards) && |forwards| <= POOL_SIZE && Names(n, settings.cfg)
    ensures |events| == 1 && Run(settings, states, events) && events[0].scan == ScanOk(forwards)
    ensures LabelledAs(settings.cfg.tld, states[1].active, forwards, NamesInOrder(n, forwards))
  {
    var order, e := LocalPorts(forwards), Event(ScanOk(forwards), ALL_SUCCEED, LocalPorts(forwards), []);
    CurrentOfDistinct(forwards);
    CurrentByPort(forwards);
    StartInv();
    AddPhaseNames(settings, n, START, Current(forwards), ALL_SUCCEED, forwards);
    var a := AfterAdds(settings, START, e);
    var removeOrder := EnumerationExists(a.active.Keys);
    e := e.(removeOrder := removeOrder);
    assert AfterAdds(settings, START, e) == a;
    states, events := [START, Next(settings, START, e)], [e];
    assert PolledAt(settings, states, events, 0);
    PollActive(settings, START, e);
    AllScanned(a.active, Current(forwards), forwards);
  }

  lemma StartInv()
    ensures Inv(START) && Initial(START)
  {
    assert Entries(map[]) == map[];
  }

  lemma AllScanned(active: map<int, ActiveEntry>, current: map<int, PortForward>, forwards: seq<PortForward>)
    requires forall p :: p in active <==> p in LocalPorts(forwards)
    requires forall p :: p in current <==> p in LocalPorts(forwards)
    ensures active - (active.Keys - current.Keys) == active
  {
    forall p | p in active
      ensures p in current
    {
    }
  }

  /* Longer runs, one forward at a time */

  /** A run over the family that ends with these forwards active under these names. */
  ghost predicate EndsIn(settings: Settings, family: iset<PortForward>, states: seq<State>, events: seq<Event>,
                          forwards: seq<PortForward>, names: seq<string>) {
    && Run(settings, states, events) && Draws(events, family)
    && DistinctPorts(forwards) && (forall f :: f in forwards ==> f in family)
    && |names| == |forwards| && LabelledAs(settings.cfg.tld, Last(states).active, forwards, names)
  }

  lemma Begin(settings: Settings, family: iset<PortForward>) returns (states: seq<State>, events: seq<Event>)
    ensures EndsIn(settings, family, states, events, [], [])
  {
    StartInv();
    states, events := [START], [];
  }

  lemma {:induction false} AddPhaseSkips(settings: Settings, s: State, current: map<int, PortForward>, env: Env,
                                         order: seq<int>)
    requires forall p :: p in order ==> p in s.active
    ensures AddPhase(settings, s, current, env, order) == s
  {
    if order != [] {
      assert order == Init(order) + [Last(order)];
      AddPhaseSkips(settings, s, current, env, Init(order));
    }
  }

  lemma ScanDrawsFrom(e: Event, forwards: seq<PortForward>, family: iset<PortForward>)
    requires e.scan == ScanOk(forwards) && forall f :: f in forwards ==> f in family
    ensures EventDraws(e, family)
  {
    CurrentByPort(forwards);
  }

  /** One more forward is scanned and added. */
  lemma Grow(settings: Settings, n: Naming, family: iset<PortForward>, states: seq<State>, events: seq<Event>,
             forwards: seq<PortForward>, names: seq<string>, f: PortForward)
    returns (states': seq<State>, events': seq<Event>)
    requires EndsIn(settings, family, states, events, forwards, names)
    requires Names(n, settings.cfg) && TldOk(settings.cfg) && f in family && |forwards| < POOL_SIZE
    requires DistinctPorts(forwards + [f])
    ensures EndsIn(settings, family, states', events', forwards + [f], names + [NextName(n, names, f)])
  {
    var s, all := Last(states), forwards + [f];
    RunInv(settings, states, events, |events|);
    var e := GrowEvent(settings, n, s, forwards, names, f);
    ScanDrawsFrom(e, all, family);
    RunExtends(settings, states, events, e);
    states', events' := states + [Next(settings, s, e)], events + [e];
  }

  lemma GrowEvent(settings: Settings, n: Naming, s: State, forwards: seq<PortForward>, names: seq<string>,
                  f: PortForward)
    returns (e: Event)
    requires Inv(s) && |names| == |forwards| && LabelledAs(settings.cfg.tld, s.active, forwards, names)
    requires Names(n, settings.cfg) && TldOk(settings.cfg) && |forwards| < POOL_SIZE && DistinctPorts(forwards + [f])
    ensures Legal(settings, s, e) && e.scan == ScanOk(forwards + [f])
    ensures LabelledAs(settings.cfg.tld, Next(settings, s, e).active, forwards + [f], names + [NextName(n, names, f)])
  {
    var all := forwards + [f];
    e := Event(ScanOk(all), ALL_SUCCEED, LocalPorts(all), []);
    CurrentOfDistinct(all);
    CurrentByPort(all);
    GrowPhase(settings, n, s, Current(all), forwards, names, f);
    var a := AfterAdds(settings, s, e);
    var removeOrder := EnumerationExists(a.active.Keys);
    e := e.(removeOrder := removeOrder);
    assert AfterAdds(settings, s, e) == a;
    PollActive(settings, s, e);
    AllScanned(a.active, Current(all), all);
  }

  lemma GrowPhase(settings: Settings, n: Naming, s: State, current: map<int, PortForward>, forwards: seq<PortForward>,
                  names: seq<string>, f: PortForward)
    requires Inv(s) && |names| == |forwards| && LabelledAs(settings.cfg.tld, s.active, forwards, names)
    requires Names(n, settings.cfg) && TldOk(settings.cfg) && |forwards| < POOL_SIZE && DistinctPorts(forwards + [f])
    requires f.port in current && current[f.port] == f
    ensures LabelledAs(settings.cfg.tld, AddPhase(settings, s, current, ALL_SUCCEED, LocalPorts(forwards + [f])).active,
                       forwards + [f], names + [NextName(n, names, f)])
  {
    var all, names' := forwards + [f], names + [NextName(n, names, f)];
    assert Init(all) == forwards && Init(names') == names;
    LocalPortsLast(all);
    AddPhaseSkips(settings, s, current, ALL_SUCCEED, LocalPorts(forwards));
    PortCount(forwards, s.active.Keys);
    AddNamesLast(settings, n, s, f, SUCCESS, true, all, names');
  }

  /** The first forward is no longer scanned and removed. */
  lemma Shrink(settings: Settings, family: iset<PortForward>, states: seq<State>, events: seq<Event>,
               forwards: seq<PortForward>, names: seq<string>)
    returns (states': seq<State>, events': seq<Event>)
    requires EndsIn(settings, family, states, events, forwards, names) && forwards != []
    ensures EndsIn(settings, family, states', events', forwards[1..], names[1..])
  {
    var s := Last(states);
    var e := ShrinkEvent(settings, s, forwards, names);
    ScanDrawsFrom(e, forwards[1..], family);
    RunExtends(settings, states, events, e);
    states', events' := states + [Next(settings, s, e)], events + [e];
  }

  lemma ShrinkEvent(settings: Settings, s: State, forwards: seq<PortForward>, names: seq<string>) returns (e: Event)
    requires |names| == |forwards| && LabelledAs(settings.cfg.tld, s.active, forwards, names)
    requires forwards != [] && DistinctPorts(forwards)
    ensures Legal(settings, s, e) && e.scan == ScanOk(forwards[1..])
    ensures LabelledAs(settings.cfg.tld, Next(settings, s, e).active, forwards[1..], names[1..])
  {
    var rest := forwards[1..];
    var removeOrder := EnumerationExists(s.active.Keys);
    e := Event(ScanOk(rest), ALL_SUCCEED, LocalPorts(rest), removeOrder);
    CurrentOfDistinct(rest);
    RestActive(settings.cfg.tld, s.active, forwards, names);
    AddPhaseSkips(settings, s, Current(rest), ALL_SUCCEED, LocalPorts(rest));
    ShrinkNext(settings, s, e, forwards, names);
  }

  lemma RestActive(tld: string, active: map<int, ActiveEntry>, forwards: seq<PortForward>, names: seq<string>)
    requires |names| == |forwards| && LabelledAs(tld, active, forwards, names) && forwards != []
    ensures forall p :: p in LocalPorts(forwards[1..]) ==> p in active
  {
    assert LocalPorts(forwards) == [forwards[0].port] + LocalPorts(forwards[1..]);
  }

  lemma ShrinkNext(settings: Settings, s: State, e: Event, forwards: seq<PortForward>, names: seq<string>)
    requires |names| == |forwards| && LabelledAs(settings.cfg.tld, s.active, forwards, names)
    requires forwards != [] && DistinctPorts(forwards)
    requires Legal(settings, s, e) && e.scan == ScanOk(forwards[1..]) && AfterAdds(settings, s, e) == s
    ensures LabelledAs(settings.cfg.tld, Next(settings, s, e).active, forwards[1..], names[1..])
  {
    CurrentOfDistinct(forwards[1..]);
    PollActive(settings, s, e);
    LabelledRest(settings.cfg.tld, s.active, Next(settings, s, e).active, Current(forwards[1..]), forwards, names);
  }

  lemma LabelledRest(tld: string, a: map<int, ActiveEntry>, b: map<int, ActiveEntry>, current: map<int, PortForward>,
                     forwards: seq<PortForward>, names: seq<string>)
    requires |names| == |forwards| && LabelledAs(tld, a, forwards, names) && forwards != [] && DistinctPorts(forwards)
    requires forall p :: p in current <==> p in LocalPorts(forwards[1..])
    requires b == a - (a.Keys - current.Keys)
    ensures LabelledAs(tld, b, forwards[1..], names[1..])
  {
    var rest := forwards[1..];
    assert LocalPorts(forwards) == [forwards[0].port] + LocalPorts(rest);
    forall i | 0 <= i < |rest|
      ensures rest[i].port in b && LabelOf(tld, b[rest[i].port]) == names[1..][i]
    {
      assert rest[i] == forwards[i + 1];
      assert LocalPorts(rest)[i] == rest[i].port;
    }
    forall p
      ensures p in b <==> p in LocalPorts(rest)
    {
    }
  }

  ghost predicate CanEndIn(settings: Settings, family: iset<PortForward>, forwards: seq<PortForward>,
                           names: seq<string>) {
    exists states, events :: EndsIn(settings, family, states, events, forwards, names)
  }

  lemma CanBegin(settings: Settings, family: iset<PortForward>)
    ensures CanEndIn(settings, family, [], [])
  {
    var states, events := Begin(settings, family);
  }

  lemma CanGrow(settings: Settings, n: Naming, family: iset<PortForward>, forwards: seq<PortForward>,
                names: seq<string>,
                f: PortForward, grown: seq<PortForward>, name: string)
    requires CanEndIn(settings, family, forwards, names)
    requires Names(n, settings.cfg) && TldOk(settings.cfg) && f in family && |forwards| < POOL_SIZE
    requires grown == forwards + [f] && DistinctPorts(grown) && name == NextName(n, names, f)
    ensures CanEndIn(settings, family, grown, names + [name])
  {
    var states, events :| EndsIn(settings, family, states, events, forwards, names);
    var states', events' := Grow(settings, n, family, states, events, forwards, names, f);
  }

  lemma CanShrink(settings: Settings, family: iset<PortForward>, forwards: seq<PortForward>, names: seq<string>)
    requires CanEndIn(settings, family, forwards, names) && forwards != [] && |names| == |forwards|
    ensures CanEndIn(settings, family, forwards[1..], names[1..])
  {
    var states, events :| EndsIn(settings, family, states, events, forwards, names);
    var states', events' := Shrink(settings, family, states, events, forwards, names);
  }
}
