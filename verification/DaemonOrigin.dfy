/** Where active entries come from: the poll that added them and the forward it scanned. */
module DaemonOrigin {
  import opened Config
  import opened Forward
  import opened IpAlloc
  import opened Dnsmasq
  import opened Text
  import opened Domain
  import opened DaemonModel
  import opened DaemonRuns
  import opened DaemonNames

  /** The forward's plain name or its fallback. */
  predicate NamedAfter(cfg: Config, pf: PortForward, name: string) {
    name == PlainLabel(pf, cfg) || name == FallbackLabel(pf, cfg)
  }

  /** The entry shows this forward and is named after it, and its proxy, if it runs, serves it under the configured
      port. */
  predicate Shows(settings: Settings, e: ActiveEntry, pf: PortForward) {
    && e.entry.port == pf.port && e.entry.tool == pf.tool
    && e.entry.remoteHost == pf.remoteHost && e.entry.remotePort == pf.remotePort && e.entry.resource == pf.resource
    && e.entry.proxyPort == ServiceProxyPort(settings.cfg, pf.remotePort)
    && e.entry.tls == (ServiceName(pf.remotePort) == "https" && settings.hasCert)
    && ReadAddress(e.entry.ip) == e.ip
    && NamedAfter(settings.cfg, pf, LabelOf(settings.cfg.tld, e))
    && e.entry.domain == LabelOf(settings.cfg.tld, e) + "." + settings.cfg.tld
    && (e.proxy.Some? ==> e.proxy.value == DaemonModel.Proxy(e.ip, e.entry.proxyPort, pf.port, e.entry.tls))
  }

  /** Each entry is as it was before, or was scanned just now and shows that forward. */
  ghost predicate Explained(settings: Settings, before: map<int, ActiveEntry>, current: map<int, PortForward>,
                            after: map<int, ActiveEntry>) {
    forall p :: p in after ==>
                  || (p in before && after[p] == before[p])
                  || (p !in before && p in current && Shows(settings, after[p], current[p]))
  }

  lemma AddShows(settings: Settings, s: State, pf: PortForward, o: Outcome, bind: bool)
    requires pf.port !in s.active
    ensures var t := AddStep(settings, s, pf, o, bind); pf.port in t.active ==> Shows(settings, t.active[pf.port], pf)
  {
    AddStepShape(settings, s, pf, o, bind);
    ShowReads(Loopback(FirstFree(s.used, 1)));
    AddedLabel(settings, s, pf, o, bind);
  }

  lemma AddVisitExplained(settings: Settings, before: map<int, ActiveEntry>, s: State, current: map<int, PortForward>,
                          env: Env, port: int)
    requires ByPort(current) && Keeps(before, s.active) && Explained(settings, before, current, s.active)
    ensures Explained(settings, before, current, AddVisit(settings, s, current, env, port).active)
  {
    if port in current && port !in s.active {
      AddShows(settings, s, current[port], env.add(port), env.bind(port));
      AddStepKeys(settings, s, current[port], env.add(port), env.bind(port));
      ExplainedPut(settings, before, current, s.active, AddStep(settings, s, current[port], env.add(port),
          env.bind(port)).active, port);
    }
  }

  lemma ExplainedPut(settings: Settings, before: map<int, ActiveEntry>, current: map<int, PortForward>,
                     a: map<int, ActiveEntry>, b: map<int, ActiveEntry>, port: int)
    requires Keeps(before, a) && Explained(settings, before, current, a) && Keeps(a, b) && port !in a && port in current
    requires b == a || b.Keys == a.Keys + {port}
    requires port in b ==> Shows(settings, b[port], current[port])
    ensures Explained(settings, before, current, b)
  {
  }

  lemma {:induction false} AddPhaseExplained(settings: Settings, s: State, current: map<int, PortForward>, env: Env,
                                             order: seq<int>)
    requires ByPort(current)
    ensures Explained(settings, s.active, current, AddPhase(settings, s, current, env, order).active)
  {
    if order != [] {
      AddPhaseExplained(settings, s, current, env, Init(order));
      AddPhaseKeys(settings, s, current, env, Init(order));
      AddVisitExplained(settings, s.active, AddPhase(settings, s, current, env, Init(order)), current, env,
          Last(order));
    }
  }

  /** The entry shows the forward scanned on this port. */
  predicate ShowsScan(settings: Settings, e: ActiveEntry, scan: Scan, port: int) {
    scan.ScanOk? && port in Current(scan.forwards) && Shows(settings, e, Current(scan.forwards)[port])
  }

  /** After a poll an active port's entry is unchanged or shows the forward scanned, and any scan had the port. */
  predicate PollExplains(settings: Settings, before: map<int, ActiveEntry>, scan: Scan, after: map<int, ActiveEntry>,
                         port: int)
    requires port in after
  {
    && (scan.ScanOk? ==> port in Current(scan.forwards))
    && ((port in before && after[port] == before[port]) || ShowsScan(settings, after[port], scan, port))
  }

  lemma NextExplained(settings: Settings, s: State, e: Event, port: int)
    requires Legal(settings, s, e) && port in Next(settings, s, e).active
    ensures PollExplains(settings, s.active, e.scan, Next(settings, s, e).active, port)
  {
    if e.scan.ScanOk? {
      CurrentByPort(e.scan.forwards);
      AddPhaseExplained(settings, s, Current(e.scan.forwards), e.env, e.addOrder);
      PollActive(settings, s, e);
    }
  }

  /** The port's entry was added by poll k, shows the forward scanned then, and the port was in every scan since. */
  ghost predicate AddedBy(settings: Settings, states: seq<State>, events: seq<Event>, i: nat, port: int, k: nat)
    requires i < |states| && |states| == |events| + 1 && port in states[i].active
  {
    k < i && ShowsScan(settings, states[i].active[port], events[k].scan, port) && Stays(events, port, k, i)
  }

  /** Every active entry of every run has an origin: a poll that scanned its forward, shown in the entry field by field,
      and since which every successful scan has had the port. */
  lemma {:induction false} EveryEntryHasOrigin(settings: Settings, states: seq<State>, events: seq<Event>, i: nat,
                                               port: int) returns (k: nat)
    requires Run(settings, states, events) && i < |states| && port in states[i].active
    ensures AddedBy(settings, states, events, i, port, k)
  {
    var shows := (entry, scan) => ShowsScan(settings, entry, scan, port);
    forall j | 0 < j <= i
      ensures ExplainedAt(shows, states, events, port, j)
    {
      if port in states[j].active {
        PollExplained(settings, states, events, j, port);
      }
    }
    k := OriginInHistory(shows, states, events, port, i);
  }

  /** State i has no entry on the port, or the one of the state before, or one made from the scan of the poll before;
      and that scan, if it succeeded, had the port. */
  ghost predicate ExplainedAt(shows: (ActiveEntry, Scan) -> bool, states: seq<State>, events: seq<Event>, port: int,
                              i: nat)
    requires 0 < i < |states| && |states| == |events| + 1
  {
    port in states[i].active ==>
      && (events[i - 1].scan.ScanOk? ==> port in Current(events[i - 1].scan.forwards))
      && (|| (port in states[i - 1].active && states[i].active[port] == states[i - 1].active[port])
          || shows(states[i].active[port], events[i - 1].scan))
  }

  lemma {:induction false} OriginInHistory(shows: (ActiveEntry, Scan) -> bool, states: seq<State>, events: seq<Event>,
                                           port: int, i: nat) returns (k: nat)
    requires |states| == |events| + 1 && i < |states| && port in states[i].active && port !in states[0].active
    requires forall j :: 0 < j <= i ==> ExplainedAt(shows, states, events, port, j)
    ensures k < i && shows(states[i].active[port], events[k].scan) && Stays(events, port, k, i)
  {
    assert ExplainedAt(shows, states, events, port, i);
    if port in states[i - 1].active && states[i].active[port] == states[i - 1].active[port] {
      k := OriginInHistory(shows, states, events, port, i - 1);
    } else {
      k := i - 1;
    }
  }

  lemma PollExplained(settings: Settings, states: seq<State>, events: seq<Event>, i: nat, port: int)
    requires Run(settings, states, events) && i < |states| && port in states[i].active
    ensures i > 0 && PollExplains(settings, states[i - 1].active, events[i - 1].scan, states[i].active, port)
  {
    assert i > 0;
    assert PolledAt(settings, states, events, i - 1);
    NextExplained(settings, states[i - 1], events[i - 1], port);
  }
}
