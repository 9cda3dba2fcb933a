/** Domain names over whole runs: well formed always, distinct when nothing is truncated. */
module DaemonNames {
  import opened Text
  import opened Config
  import opened Forward
  import opened Domain
  import opened IpAlloc
  import opened Dnsmasq
  import opened DaemonModel
  import opened DaemonRuns

  /* Labels of active entries */

  function LabelOf(tld: string, e: ActiveEntry): string {
    StripTLD(e.entry.domain, tld)
  }

  /** Stripping the TLD recovers the generated label exactly. */
  lemma StripGenerated(name: string, tld: string)
    requires name != ""
    ensures StripTLD(name + "." + tld, tld) == name
  {
    assert (name + "." + tld)[..|name|] == name;
  }

  ghost predicate Labelled(tld: string, active: map<int, ActiveEntry>) {
    forall p :: p in active ==>
        IsDnsLabel(LabelOf(tld, active[p])) && active[p].entry.domain == LabelOf(tld, active[p]) + "." + tld
  }

  /** What a successful add stores: a well-formed label under the TLD, chosen against the active labels. */
  lemma AddedLabel(settings: Settings, s: State, pf: PortForward, o: Outcome, bind: bool)
    requires pf.port !in s.active
    ensures var t, tld := AddStep(settings, s, pf, o, bind), settings.cfg.tld;
      var name := GenerateLabel(pf, settings.cfg, ActiveNames(settings.cfg, s.active));
      IsDnsLabel(name) &&
      (pf.port in t.active ==>
          t.active[pf.port].entry.domain == name + "." + tld && LabelOf(tld, t.active[pf.port]) == name)
  {
    AddStepCases(settings, s, pf, o, bind);
    var taken := ActiveNames(settings.cfg, s.active);
    GeneratedLabelValid(BaseIdentifier(pf, settings.cfg), pf.remotePort, pf.port, taken);
    StripGenerated(GenerateLabel(pf, settings.cfg, taken), settings.cfg.tld);
  }

  lemma LabelledPut(tld: string, a: map<int, ActiveEntry>, b: map<int, ActiveEntry>, port: int)
    requires Labelled(tld, a) && Keeps(a, b)
    requires b == a || b.Keys == a.Keys + {port}
    requires port in b ==>
             IsDnsLabel(LabelOf(tld, b[port])) && b[port].entry.domain == LabelOf(tld, b[port]) + "." + tld
    ensures Labelled(tld, b)
  {
  }

  lemma AddVisitLabelled(settings: Settings, s: State, current: map<int, PortForward>, env: Env, port: int)
    requires ByPort(current) && Labelled(settings.cfg.tld, s.active)
    ensures Labelled(settings.cfg.tld, AddVisit(settings, s, current, env, port).active)
  {
    if port in current && port !in s.active {
      var t := AddStep(settings, s, current[port], env.add(port), env.bind(port));
      AddedLabel(settings, s, current[port], env.add(port), env.bind(port));
      AddStepKeys(settings, s, current[port], env.add(port), env.bind(port));
      LabelledPut(settings.cfg.tld, s.active, t.active, port);
    }
  }

  lemma {:induction false} AddPhaseLabelled(settings: Settings, s: State, current: map<int, PortForward>, env: Env,
                                            order: seq<int>)
    requires ByPort(current) && Labelled(settings.cfg.tld, s.active)
    ensures Labelled(settings.cfg.tld, AddPhase(settings, s, current, env, order).active)
  {
    if order != [] {
      AddPhaseLabelled(settings, s, current, env, Init(order));
      AddVisitLabelled(settings, AddPhase(settings, s, current, env, Init(order)), current, env, Last(order));
    }
  }

  lemma NextLabelled(settings: Settings, s: State, e: Event)
    requires Legal(settings, s, e) && Labelled(settings.cfg.tld, s.active)
    ensures Labelled(settings.cfg.tld, Next(settings, s, e).active)
  {
    if e.scan.ScanOk? {
      CurrentByPort(e.scan.forwards);
      AddPhaseLabelled(settings, s, Current(e.scan.forwards), e.env, e.addOrder);
      PollActive(settings, s, e);
    }
  }

  /** In every reachable state every domain is a well-formed label under the configured TLD. */
  lemma {:induction false} RunLabelled(settings: Settings, states: seq<State>, events: seq<Event>, i: nat)
    requires Run(settings, states, events) && i < |states|
    ensures Labelled(settings.cfg.tld, states[i].active)
  {
    if i > 0 {
      assert PolledAt(settings, states, events, i - 1);
      RunLabelled(settings, states, events, i - 1);
      NextLabelled(settings, states[i - 1], events[i - 1]);
    }
  }

  /* Distinct names */

  /** Every label is an untruncated label of its port, and no two entries share one. */
  ghost predicate Named(tld: string, active: map<int, ActiveEntry>) {
    && (forall p :: p in active ==> p >= 0 && Owns(p, LabelOf(tld, active[p])))
    && (forall p, q :: p in active && q in active && p != q ==> LabelOf(tld, active[p]) != LabelOf(tld, active[q]))
  }

  lemma AddKeepsNamed(settings: Settings, s: State, pf: PortForward, o: Outcome, bind: bool)
    requires pf.port !in s.active && Named(settings.cfg.tld, s.active)
    requires pf.port >= 0 && pf.remotePort >= 0
    requires FitsNow(BaseIdentifier(pf, settings.cfg), pf.remotePort, pf.port, ActiveNames(settings.cfg, s.active))
    ensures Named(settings.cfg.tld, AddStep(settings, s, pf, o, bind).active)
  {
    var tld, taken := settings.cfg.tld, ActiveNames(settings.cfg, s.active);
    forall name | name in taken
      ensures OwnedByOther(pf.port, name)
    {
      var q :| q in s.active && StripTLD(s.active[q].entry.domain, tld) == name;
      assert Owns(q, LabelOf(tld, s.active[q]));
    }
    ChosenIsFresh(BaseIdentifier(pf, settings.cfg), pf.remotePort, pf.port, taken);
    AddedLabel(settings, s, pf, o, bind);
    AddStepKeys(settings, s, pf, o, bind);
    NamedPut(tld, s.active, AddStep(settings, s, pf, o, bind).active, pf.port, taken);
  }

  lemma NamedPut(tld: string, a: map<int, ActiveEntry>, b: map<int, ActiveEntry>, port: int, taken: set<string>)
    requires Named(tld, a) && Keeps(a, b) && port >= 0 && port !in a
    requires b == a || b.Keys == a.Keys + {port}
    requires forall p :: p in a ==> LabelOf(tld, a[p]) in taken
    requires port in b ==> LabelOf(tld, b[port]) !in taken && Owns(port, LabelOf(tld, b[port]))
    ensures Named(tld, b)
  {
  }

  /** If this visit of the add loop adds the port, its name escapes truncation. */
  predicate VisitFits(settings: Settings, s: State, current: map<int, PortForward>, port: int) {
    port in current && port !in s.active ==>
      var pf := current[port];
      && pf.port >= 0 && pf.remotePort >= 0
      && FitsNow(BaseIdentifier(pf, settings.cfg), pf.remotePort, pf.port, ActiveNames(settings.cfg, s.active))
  }

  predicate PhaseFits(settings: Settings, s: State, current: map<int, PortForward>, env: Env, order: seq<int>) {
    order != [] ==>
      && PhaseFits(settings, s, current, env, Init(order))
      && VisitFits(settings, AddPhase(settings, s, current, env, Init(order)), current, Last(order))
  }

  /** No name generated in this poll is truncated. */
  predicate EventFits(settings: Settings, s: State, e: Event) {
    e.scan.ScanOk? ==> PhaseFits(settings, s, Current(e.scan.forwards), e.env, e.addOrder)
  }

  /** No name generated in poll k is truncated. */
  predicate FitsAt(settings: Settings, states: seq<State>, events: seq<Event>, k: nat)
    requires k < |events| < |states|
  {
    EventFits(settings, states[k], events[k])
  }

  lemma AddVisitNamed(settings: Settings, s: State, current: map<int, PortForward>, env: Env, port: int)
    requires ByPort(current) && Named(settings.cfg.tld, s.active) && VisitFits(settings, s, current, port)
    ensures Named(settings.cfg.tld, AddVisit(settings, s, current, env, port).active)
  {
    if port in current && port !in s.active {
      AddKeepsNamed(settings, s, current[port], env.add(port), env.bind(port));
    }
  }

  lemma {:induction false} AddPhaseNamed(settings: Settings, s: State, current: map<int, PortForward>, env: Env,
                                         order: seq<int>)
    requires ByPort(current) && Named(settings.cfg.tld, s.active) && PhaseFits(settings, s, current, env, order)
    ensures Named(settings.cfg.tld, AddPhase(settings, s, current, env, order).active)
  {
    if order != [] {
      AddPhaseNamed(settings, s, current, env, Init(order));
      AddVisitNamed(settings, AddPhase(settings, s, current, env, Init(order)), current, env, Last(order));
    }
  }

  lemma NextNamed(settings: Settings, s: State, e: Event)
    requires Legal(settings, s, e) && Named(settings.cfg.tld, s.active) && EventFits(settings, s, e)
    ensures Named(settings.cfg.tld, Next(settings, s, e).active)
  {
    if e.scan.ScanOk? {
      CurrentByPort(e.scan.forwards);
      AddPhaseNamed(settings, s, Current(e.scan.forwards), e.env, e.addOrder);
      PollActive(settings, s, e);
    }
  }

  lemma {:induction false} RunNamed(settings: Settings, states: seq<State>, events: seq<Event>, i: nat)
    requires Run(settings, states, events) && i < |states|
    requires forall k :: 0 <= k < i ==> FitsAt(settings, states, events, k)
    ensures Named(settings.cfg.tld, states[i].active)
  {
    if i > 0 {
      assert PolledAt(settings, states, events, i - 1) && FitsAt(settings, states, events, i - 1);
      RunNamed(settings, states, events, i - 1);
      NextNamed(settings, states[i - 1], events[i - 1]);
    }
  }

  /** Active entries have pairwise distinct domains in every reachable state, for every scan sequence and map
      order and under every failure, when no name generated so far was truncated. */
  lemma DomainsDistinct(settings: Settings, states: seq<State>, events: seq<Event>, i: nat, p: int, q: int)
    requires Run(settings, states, events) && i < |states|
    requires forall k :: 0 <= k < i ==> FitsAt(settings, states, events, k)
    requires p in states[i].active && q in states[i].active && p != q
    ensures states[i].active[p].entry.domain != states[i].active[q].entry.domain
  {
    RunNamed(settings, states, events, i);
    RunLabelled(settings, states, events, i);
  }

  ghost predicate DistinctDomains(active: map<int, ActiveEntry>) {
    forall p, q :: p in active && q in active && p != q ==> active[p].entry.domain != active[q].entry.domain
  }

  lemma DistinctPut(tld: string, a: map<int, ActiveEntry>, b: map<int, ActiveEntry>, port: int, name: string,
                    taken: set<string>)
    requires Labelled(tld, a) && DistinctDomains(a) && Keeps(a, b) && b.Keys == a.Keys + {port} && port !in a
    requires b[port].entry.domain == name + "." + tld
    requires forall n :: n in taken <==> exists p :: p in a && LabelOf(tld, a[p]) == n
    ensures DistinctDomains(b) <==> name !in taken
  {
    forall p | p in a
      ensures b[p].entry.domain == b[port].entry.domain <==> LabelOf(tld, a[p]) == name
    {
      if b[p].entry.domain == b[port].entry.domain {
        SameTld(LabelOf(tld, a[p]), name, tld);
      }
    }
    if p :| p in a && LabelOf(tld, a[p]) == name {
      assert b[p].entry.domain == b[port].entry.domain;
    }
  }

  lemma SameTld(a: string, b: string, tld: string)
    requires a + "." + tld == b + "." + tld
    ensures a == b
  {
    assert a == (a + "." + tld)[..|a|] && b == (b + "." + tld)[..|b|];
  }

  /* A condition on the scans alone */

  /** What the scanner guarantees of ports, and an identifier short enough to escape truncation. */
  predicate Roomy(settings: Settings, pf: PortForward) {
    pf.port >= 0 && pf.remotePort >= 0 && Fits(BaseIdentifier(pf, settings.cfg), pf.remotePort, pf.port)
  }

  predicate AllRoomy(settings: Settings, e: Event) {
    e.scan.ScanOk? ==> forall i :: 0 <= i < |e.scan.forwards| ==> Roomy(settings, e.scan.forwards[i])
  }

  lemma {:induction false} RoomyPhase(settings: Settings, s: State, current: map<int, PortForward>, env: Env,
                                      order: seq<int>)
    requires forall p :: p in current ==> Roomy(settings, current[p])
    ensures PhaseFits(settings, s, current, env, order)
  {
    if order != [] {
      RoomyPhase(settings, s, current, env, Init(order));
      var t, port := AddPhase(settings, s, current, env, Init(order)), Last(order);
      if port in current {
        var pf := current[port];
        FitsAlways(BaseIdentifier(pf, settings.cfg), pf.remotePort, pf.port, ActiveNames(settings.cfg, t.active));
      }
    }
  }

  /** The same when every identifier ever scanned leaves room for the service label and the port. */
  lemma ShortIdentifiersDistinct(settings: Settings, states: seq<State>, events: seq<Event>, i: nat, p: int, q: int)
    requires Run(settings, states, events) && i < |states|
    requires forall k :: 0 <= k < i ==> AllRoomy(settings, events[k])
    requires p in states[i].active && q in states[i].active && p != q
    ensures states[i].active[p].entry.domain != states[i].active[q].entry.domain
  {
    forall k | 0 <= k < i
      ensures FitsAt(settings, states, events, k)
    {
      var e := events[k];
      if e.scan.ScanOk? {
        CurrentByPort(e.scan.forwards);
        RoomyPhase(settings, states[k], Current(e.scan.forwards), e.env, e.addOrder);
      }
    }
    DomainsDistinct(settings, states, events, i, p, q);
  }

  /* Acceptance by the dnsmasq manager */

  lemma LoopbackParses(d: Byte)
    ensures ParsesAsIP(Show(Loopback(d))) && TrimSpace(Show(Loopback(d))) == Show(Loopback(d))
  {
    OctetShape(127);
    OctetShape(0);
    OctetShape(1);
    OctetShape(d);
    DottedParses(Itoa(127), Itoa(0), Itoa(1), Itoa(d));
  }

  lemma OctetIsItoa(s: string) returns (n: Byte)
    requires IsOctet(s)
    ensures s == Itoa(n)
  {
    CanonicalDigits(s);
    n := Value(s);
  }

  /** A text is an IPv4 address for the manager exactly if it is how an address is shown. */
  lemma IPv4Iff(s: string)
    ensures IsIPv4(s) <==> exists a: Byte, b: Byte, c: Byte, d: Byte :: s == Show(V4(a, b, c, d))
  {
    if IsIPv4(s) {
      var parts := Split('.', s);
      var a := OctetIsItoa(parts[0]);
      var b := OctetIsItoa(parts[1]);
      var c := OctetIsItoa(parts[2]);
      var d := OctetIsItoa(parts[3]);
      ShowSplits(a, b, c, d);
      JoinSplit('.', s);
      JoinSplit('.', Show(V4(a, b, c, d)));
      assert parts == [Itoa(a), Itoa(b), Itoa(c), Itoa(d)];
      assert s == Show(V4(a, b, c, d));
    }
    if a: Byte, b: Byte, c: Byte, d: Byte :| s == Show(V4(a, b, c, d)) {
      ShowSplits(a, b, c, d);
      OctetShape(a);
      OctetShape(b);
      OctetShape(c);
      OctetShape(d);
    }
  }

  lemma DottedParses(a: string, b: string, c: string, d: string)
    requires IsOctet(a) && IsOctet(b) && IsOctet(c) && IsOctet(d)
    requires '.' !in a && '.' !in b && '.' !in c && '.' !in d
    ensures var ip := a + "." + b + "." + c + "." + d; ParsesAsIP(ip) && TrimSpace(ip) == ip
  {
    var ip, parts := a + "." + b + "." + c + "." + d, [a, b, c, d];
    assert Join('.', parts[3..]) == d;
    assert Join('.', parts[2..]) == c + "." + d;
    assert Join('.', parts[1..]) == b + "." + (c + "." + d);
    assert Join('.', parts) == ip;
    SplitJoin('.', parts);
    assert ip[0] == a[0] && Last(ip) == Last(d);
    TrimUntouched(IsSpace, ip);
  }

  lemma OctetShape(n: Byte)
    ensures IsOctet(Itoa(n)) && '.' !in Itoa(n) && Itoa(n) != ""
  {
    var s := Itoa(n);
    DigitsCanonical(n);
    if n >= 10 {
      DigitsCanonical(n / 10);
      if n >= 100 {
        assert |Digits(n / 100)| == 1;
      }
    }
    assert forall c :: c in s ==> IsDigit(c);
  }

  /** The TLD, less trailing white space, is over the host name alphabet. */
  predicate TldOk(cfg: Config) {
    All(IsHostChar, TrimRight(IsSpace, cfg.tld))
  }

  /** The manager takes a generated name exactly when the TLD, less trailing white space, is over the host name
      alphabet; no label the daemon generates is ever the reason for a rejection. */
  lemma AcceptedIff(pf: PortForward, cfg: Config, taken: set<string>, d: Byte)
    ensures Accepted(Generate(pf, cfg, taken), Show(Loopback(d))) <==> TldOk(cfg)
  {
    LoopbackParses(d);
    GeneratedLabelValid(BaseIdentifier(pf, cfg), pf.remotePort, pf.port, taken);
    TrimGenerated(GenerateLabel(pf, cfg, taken), cfg.tld);
  }

  lemma TrimGenerated(name: string, tld: string)
    requires IsDnsLabel(name)
    ensures TrimSpace(name + "." + tld) == name + "." + TrimRight(IsSpace, tld)
    ensures ValidHostname(name + "." + TrimRight(IsSpace, tld)) <==> All(IsHostChar, TrimRight(IsSpace, tld))
  {
    var full := name + "." + tld;
    assert full[0] == name[0] && !IsSpace(full[0]);
    TrimRightAppend(name + ".", tld);
    var rest := TrimRight(IsSpace, tld);
    var kept := name + "." + rest;
    assert forall i :: 0 <= i < |name| ==> kept[i] == name[i] && IsHostChar(kept[i]);
    assert kept[|name|] == '.';
    assert forall i :: 0 <= i < |rest| ==> rest[i] == kept[|name| + 1 + i];
  }

  lemma {:induction false} TrimRightAppend(a: string, b: string)
    requires a != "" && !IsSpace(Last(a))
    ensures TrimRight(IsSpace, a + b) == a + TrimRight(IsSpace, b)
  {
    if b == "" {
      assert a + b == a;
    } else if IsSpace(Last(b)) {
      TrimRightAppend(a, Init(b));
      assert Init(a + b) == a + Init(b);
    }
  }

  lemma DefaultTldPlain()
    ensures All(IsHostChar, TrimRight(IsSpace, DEFAULT_TLD))
  {
    var t := DEFAULT_TLD;
    assert t[|t| - 1] == 't';
  }

  /** In particular every name generated under the default TLD is accepted. */
  lemma DefaultTldAccepted(pf: PortForward, cfg: Config, taken: set<string>, d: Byte)
    requires cfg.tld == DEFAULT_TLD
    ensures Accepted(Generate(pf, cfg, taken), Show(Loopback(d)))
  {
    DefaultTldPlain();
    AcceptedIff(pf, cfg, taken, d);
  }
}
