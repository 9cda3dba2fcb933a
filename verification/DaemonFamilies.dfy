/** Labels, domains and counterexamples of runs over a family of forwards. */
module DaemonFamilies {
  import opened Text
  import opened NameOrder
  import opened Forward
  import opened Domain
  import opened DaemonModel
  import opened DaemonRuns
  import opened DaemonNames
  import opened DaemonConvergence
  import opened DaemonDns
  import opened DaemonDistinct
  import opened DaemonWitness

  /* A TLD the manager rejects */

  lemma {:induction false} AddPhaseRejected(settings: Settings, s: State, current: map<int, PortForward>, env: Env,
                                            order: seq<int>)
    requires Inv(s) && ByPort(current) && !TldOk(settings.cfg)
    ensures AddPhase(settings, s, current, env, order) == s
  {
    if order != [] {
      AddPhaseRejected(settings, s, current, env, Init(order));
      var port := Last(order);
      if port in current && port !in s.active {
        AddChangesNothing(settings, s, current[port], env.add(port), env.bind(port));
      }
    }
  }

  lemma {:induction false} NothingEverActive(settings: Settings, states: seq<State>, events: seq<Event>, i: nat)
    requires Run(settings, states, events) && i < |states| && !TldOk(settings.cfg)
    ensures states[i].active == map[]
  {
    if i > 0 {
      var s, e := states[i - 1], events[i - 1];
      assert PolledAt(settings, states, events, i - 1);
      NothingEverActive(settings, states, events, i - 1);
      RunInv(settings, states, events, i - 1);
      if e.scan.ScanOk? {
        CurrentByPort(e.scan.forwards);
        AddPhaseRejected(settings, s, Current(e.scan.forwards), e.env, e.addOrder);
        PollActive(settings, s, e);
      }
    }
  }

  lemma RejectedDistinct(settings: Settings, family: iset<PortForward>)
    requires !TldOk(settings.cfg)
    ensures AlwaysDistinct(settings, family)
  {
    forall states: seq<State>, events: seq<Event>, i: nat | Run(settings, states, events) && Draws(events, family) &&
        i < |states|
      ensures DistinctDomains(states[i].active)
    {
      NothingEverActive(settings, states, events, i);
    }
  }

  /* Labels and domains */

  lemma LabelsDistinct(tld: string, active: map<int, ActiveEntry>, forwards: seq<PortForward>, names: seq<string>)
    requires |names| == |forwards| && DistinctPorts(forwards) && Labelled(tld, active) &&
             LabelledAs(tld, active, forwards, names)
    ensures DistinctDomains(active) <==> NoDuplicates(names)
  {
    if DistinctDomains(active) {
      forall i, j | 0 <= i < j < |names|
        ensures names[i] != names[j]
      {
        assert active[forwards[i].port].entry.domain != active[forwards[j].port].entry.domain;
      }
    } else {
      var p, q :| p in active && q in active && p != q && active[p].entry.domain == active[q].entry.domain;
      var i :| 0 <= i < |forwards| && LocalPorts(forwards)[i] == p;
      var j :| 0 <= j < |forwards| && LocalPorts(forwards)[j] == q;
      SameTld(LabelOf(tld, active[p]), LabelOf(tld, active[q]), tld);
      assert names[i] == names[j];
    }
  }

  /** If names repeat when these forwards of the family are added in this order, some run over it has equal domains. */
  lemma RepeatReachable(settings: Settings, n: Naming, family: iset<PortForward>, forwards: seq<PortForward>, i: nat,
                        j: nat)
    requires Names(n, settings.cfg) && TldOk(settings.cfg) && DistinctPorts(forwards) && |forwards| <= POOL_SIZE
    requires forall k :: 0 <= k < |forwards| ==> forwards[k] in family
    requires i < j < |forwards| && NamesInOrder(n, forwards)[i] == NamesInOrder(n, forwards)[j]
    ensures !AlwaysDistinct(settings, family)
  {
    var states, events := FirstPoll(settings, n, forwards);
    ScanDraws(events, forwards, family);
    RunLabelled(settings, states, events, 1);
    RepeatedLabel(settings.cfg.tld, states[1].active, forwards, NamesInOrder(n, forwards), i, j);
    Counterexample(settings, family, states, events, 1);
  }

  lemma ScanDraws(events: seq<Event>, forwards: seq<PortForward>, family: iset<PortForward>)
    requires |events| == 1 && events[0].scan == ScanOk(forwards)
    requires forall k :: 0 <= k < |forwards| ==> forwards[k] in family
    ensures Draws(events, family)
  {
    CurrentByPort(forwards);
    assert EventDraws(events[0], family);
  }

  lemma RepeatedLabel(tld: string, active: map<int, ActiveEntry>, forwards: seq<PortForward>, names: seq<string>,
                      i: nat, j: nat)
    requires |names| == |forwards| && DistinctPorts(forwards) && Labelled(tld, active) &&
             LabelledAs(tld, active, forwards, names)
    requires i < j < |names| && names[i] == names[j]
    ensures !DistinctDomains(active)
  {
    assert active[forwards[i].port].entry.domain == active[forwards[j].port].entry.domain;
  }

  lemma Counterexample(settings: Settings, family: iset<PortForward>, states: seq<State>, events: seq<Event>, i: nat)
    requires Run(settings, states, events) && Draws(events, family) && i < |states| &&
             !DistinctDomains(states[i].active)
    ensures !AlwaysDistinct(settings, family)
  {
  }

  lemma NamesOfTwo(n: Naming, a: PortForward, b: PortForward)
    ensures NamesInOrder(n, [a, b]) == [n.plain(a), NextName(n, [n.plain(a)], b)]
  {
    assert Init([a, b]) == [a] && Init([a]) == [];
    assert NamesInOrder(n, [a]) == [n.plain(a)];
  }

  lemma RepeatInRun(settings: Settings, family: iset<PortForward>, states: seq<State>, events: seq<Event>,
                    forwards: seq<PortForward>, names: seq<string>, i: nat, j: nat)
    requires EndsIn(settings, family, states, events, forwards, names)
    requires i < j < |names| && names[i] == names[j]
    ensures !AlwaysDistinct(settings, family)
  {
    RunLabelled(settings, states, events, |events|);
    RepeatedLabel(settings.cfg.tld, Last(states).active, forwards, names, i, j);
    Counterexample(settings, family, states, events, |events|);
  }

  lemma RepeatCanEnd(settings: Settings, family: iset<PortForward>, forwards: seq<PortForward>, names: seq<string>,
                     i: nat, j: nat)
    requires CanEndIn(settings, family, forwards, names)
    requires i < j < |names| && names[i] == names[j]
    ensures !AlwaysDistinct(settings, family)
  {
    var states, events :| EndsIn(settings, family, states, events, forwards, names);
    RepeatInRun(settings, family, states, events, forwards, names, i, j);
  }
}
