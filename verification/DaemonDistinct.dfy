/** When truncated names clash over whole runs, and exactly when they do not. */
module DaemonDistinct {
  import opened Text
  import opened Config
  import opened Forward
  import opened Domain
  import opened Dnsmasq
  import opened DaemonModel
  import opened DaemonRuns
  import opened DaemonNames
  import opened DaemonOrigin

  /* Families of forwards */

  /** Every forward this poll would add is one of the family. */
  ghost predicate EventDraws(e: Event, family: iset<PortForward>) {
    e.scan.ScanOk? ==> forall p :: p in Current(e.scan.forwards) ==> Current(e.scan.forwards)[p] in family
  }

  ghost predicate Draws(events: seq<Event>, family: iset<PortForward>) {
    forall k :: 0 <= k < |events| ==> EventDraws(events[k], family)
  }

  /** In every reachable state of every run over the family, domains are pairwise distinct. */
  ghost predicate AlwaysDistinct(settings: Settings, family: iset<PortForward>) {
    forall states: seq<State>, events: seq<Event>, i: nat ::
      Run(settings, states, events) && Draws(events, family) && i < |states| ==> DistinctDomains(states[i].active)
  }

  /** The forward can have this name: its fallback only if another forward can have its plain name. */
  ghost predicate MayHave(n: Naming, family: iset<PortForward>, f: PortForward, name: string) {
    name == n.plain(f) || (name == n.fallback(f) && Contested(n, family, f))
  }

  predicate CanBe(n: Naming, f: PortForward, name: string) {
    name == n.plain(f) || name == n.fallback(f)
  }

  ghost predicate Contested(n: Naming, family: iset<PortForward>, f: PortForward) {
    exists g :: g in family && g.port != f.port && CanBe(n, g, n.plain(f))
  }

  /** While b has the plain name of a, and c its fallback, adding a would clash. */
  ghost predicate Clash(n: Naming, family: iset<PortForward>, a: PortForward, b: PortForward, c: PortForward) {
    && a.port != b.port && a.port != c.port
    && MayHave(n, family, b, n.plain(a)) && MayHave(n, family, c, n.fallback(a))
    && (b.port == c.port ==> b == c && n.plain(a) == n.fallback(a))
  }

  ghost predicate NoClash(n: Naming, family: iset<PortForward>) {
    forall a, b, c :: a in family && b in family && c in family ==> !Clash(n, family, a, b, c)
  }

  /* No clash, no equal domains */

  ghost predicate HasName(n: Naming, family: iset<PortForward>, p: int, name: string, f: PortForward) {
    f in family && f.port == p && MayHave(n, family, f, name)
  }

  ghost predicate Rooted(tld: string, n: Naming, family: iset<PortForward>, active: map<int, ActiveEntry>) {
    forall p :: p in active ==> exists f :: HasName(n, family, p, LabelOf(tld, active[p]), f)
  }

  ghost predicate FamilyInv(tld: string, n: Naming, family: iset<PortForward>, active: map<int, ActiveEntry>) {
    Labelled(tld, active) && Rooted(tld, n, family, active) && DistinctDomains(active)
  }

  lemma NotBothTaken(cfg: Config, n: Naming, family: iset<PortForward>, active: map<int, ActiveEntry>, pf: PortForward)
    requires NoClash(n, family) && Rooted(cfg.tld, n, family, active) && pf in family && pf.port !in active
    ensures var taken := ActiveNames(cfg, active); !(n.plain(pf) in taken && n.fallback(pf) in taken)
  {
    var taken := ActiveNames(cfg, active);
    if n.plain(pf) in taken && n.fallback(pf) in taken {
      var p :| p in active && LabelOf(cfg.tld, active[p]) == n.plain(pf);
      var q :| q in active && LabelOf(cfg.tld, active[q]) == n.fallback(pf);
      var b :| HasName(n, family, p, LabelOf(cfg.tld, active[p]), b);
      var c :| HasName(n, family, q, LabelOf(cfg.tld, active[q]), c);
      assert Clash(n, family, pf, b, if p == q then b else c);
      assert false;
    }
  }

  lemma MayHaveGenerated(cfg: Config, n: Naming, family: iset<PortForward>, active: map<int, ActiveEntry>,
                         pf: PortForward)
    requires Names(n, cfg) && Rooted(cfg.tld, n, family, active) && pf in family && pf.port !in active
    ensures HasName(n, family, pf.port, GenerateLabel(pf, cfg, ActiveNames(cfg, active)), pf)
  {
    if n.plain(pf) in ActiveNames(cfg, active) {
      var p :| p in active && LabelOf(cfg.tld, active[p]) == n.plain(pf);
      var g :| HasName(n, family, p, LabelOf(cfg.tld, active[p]), g);
      assert CanBe(n, g, n.plain(pf));
    }
  }

  lemma RootedPut(tld: string, n: Naming, family: iset<PortForward>, a: map<int, ActiveEntry>, b: map<int, ActiveEntry>,
                  pf: PortForward)
    requires Rooted(tld, n, family, a) && Keeps(a, b) && (b == a || b.Keys == a.Keys + {pf.port})
    requires pf.port in b ==> HasName(n, family, pf.port, LabelOf(tld, b[pf.port]), pf)
    ensures Rooted(tld, n, family, b)
  {
    forall p | p in b
      ensures exists f :: HasName(n, family, p, LabelOf(tld, b[p]), f)
    {
      if p in a {
        var f :| HasName(n, family, p, LabelOf(tld, a[p]), f);
        assert HasName(n, family, p, LabelOf(tld, b[p]), f);
      } else {
        assert HasName(n, family, p, LabelOf(tld, b[p]), pf);
      }
    }
  }

  lemma AddKeepsFamilyInv(settings: Settings, s: State, pf: PortForward, o: Outcome, bind: bool, n: Naming,
                          family: iset<PortForward>)
    requires Names(n, settings.cfg) && NoClash(n, family) && FamilyInv(settings.cfg.tld, n, family, s.active)
    requires pf in family && pf.port !in s.active
    ensures FamilyInv(settings.cfg.tld, n, family, AddStep(settings, s, pf, o, bind).active)
  {
    var cfg, t := settings.cfg, AddStep(settings, s, pf, o, bind);
    AddedLabel(settings, s, pf, o, bind);
    AddStepKeys(settings, s, pf, o, bind);
    MayHaveGenerated(cfg, n, family, s.active, pf);
    NotBothTaken(cfg, n, family, s.active, pf);
    FamilyInvPut(cfg, n, family, s.active, t.active, pf);
  }

  lemma FamilyInvPut(cfg: Config, n: Naming, family: iset<PortForward>, a: map<int, ActiveEntry>,
                     b: map<int, ActiveEntry>, pf: PortForward)
    requires FamilyInv(cfg.tld, n, family, a) && Keeps(a, b) && (b == a || b.Keys == a.Keys + {pf.port}) &&
             pf.port !in a
    requires var name := GenerateLabel(pf, cfg, ActiveNames(cfg, a));
      && IsDnsLabel(name) && name !in ActiveNames(cfg, a) && HasName(n, family, pf.port, name, pf)
      && (pf.port in b ==> b[pf.port].entry.domain == name + "." + cfg.tld && LabelOf(cfg.tld, b[pf.port]) == name)
    ensures FamilyInv(cfg.tld, n, family, b)
  {
    LabelledPut(cfg.tld, a, b, pf.port);
    RootedPut(cfg.tld, n, family, a, b, pf);
    if pf.port in b {
      DistinctPut(cfg.tld, a, b, pf.port, GenerateLabel(pf, cfg, ActiveNames(cfg, a)), ActiveNames(cfg, a));
    }
  }

  ghost predicate CurrentIn(current: map<int, PortForward>, family: iset<PortForward>) {
    forall p :: p in current ==> current[p].port == p && current[p] in family
  }

  lemma {:induction false} AddPhaseFamilyInv(settings: Settings, s: State, current: map<int, PortForward>, env: Env,
                                             order: seq<int>, n: Naming, family: iset<PortForward>)
    requires Names(n, settings.cfg) && NoClash(n, family) && FamilyInv(settings.cfg.tld, n, family, s.active) &&
             CurrentIn(current, family)
    ensures FamilyInv(settings.cfg.tld, n, family, AddPhase(settings, s, current, env, order).active)
  {
    if order != [] {
      AddPhaseFamilyInv(settings, s, current, env, Init(order), n, family);
      var t, port := AddPhase(settings, s, current, env, Init(order)), Last(order);
      if port in current && port !in t.active {
        AddKeepsFamilyInv(settings, t, current[port], env.add(port), env.bind(port), n, family);
      }
    }
  }

  lemma FewerFamilyInv(tld: string, n: Naming, family: iset<PortForward>, a: map<int, ActiveEntry>,
                       b: map<int, ActiveEntry>)
    requires FamilyInv(tld, n, family, a) && Keeps(b, a)
    ensures FamilyInv(tld, n, family, b)
  {
    forall p | p in b
      ensures exists f :: HasName(n, family, p, LabelOf(tld, b[p]), f)
    {
      var f :| HasName(n, family, p, LabelOf(tld, a[p]), f);
      assert HasName(n, family, p, LabelOf(tld, b[p]), f);
    }
  }

  lemma NextFamilyInv(settings: Settings, s: State, e: Event, n: Naming, family: iset<PortForward>)
    requires Names(n, settings.cfg) && NoClash(n, family) && FamilyInv(settings.cfg.tld, n, family, s.active)
    requires Legal(settings, s, e) && EventDraws(e, family)
    ensures FamilyInv(settings.cfg.tld, n, family, Next(settings, s, e).active)
  {
    if e.scan.ScanOk? {
      CurrentByPort(e.scan.forwards);
      AddPhaseFamilyInv(settings, s, Current(e.scan.forwards), e.env, e.addOrder, n, family);
      PollActive(settings, s, e);
      FewerFamilyInv(settings.cfg.tld, n, family, AfterAdds(settings, s, e).active, Next(settings, s, e).active);
    }
  }

  lemma PollFamilyInv(settings: Settings, states: seq<State>, events: seq<Event>, i: nat, n: Naming,
                      family: iset<PortForward>)
    requires Run(settings, states, events) && i < |events| && EventDraws(events[i], family)
    requires Names(n, settings.cfg) && NoClash(n, family) && FamilyInv(settings.cfg.tld, n, family, states[i].active)
    ensures FamilyInv(settings.cfg.tld, n, family, states[i + 1].active)
  {
    assert PolledAt(settings, states, events, i);
    NextFamilyInv(settings, states[i], events[i], n, family);
  }

  lemma {:induction false} RunFamilyInv(settings: Settings, states: seq<State>, events: seq<Event>, i: nat, n: Naming,
                                        family: iset<PortForward>)
    requires Run(settings, states, events) && i < |states| && Names(n, settings.cfg) && NoClash(n, family)
    requires forall k :: 0 <= k < i ==> EventDraws(events[k], family)
    ensures FamilyInv(settings.cfg.tld, n, family, states[i].active)
  {
    if i > 0 {
      RunFamilyInv(settings, states, events, i - 1, n, family);
      PollFamilyInv(settings, states, events, i - 1, n, family);
    }
  }

  /** Truncated names allowed: domains are pairwise distinct in every reachable state, for every map order and under
      every failure, if no forward scanned so far can find both its plain name and its fallback in use. */
  lemma NoClashDistinct(settings: Settings, states: seq<State>, events: seq<Event>, i: nat, family: iset<PortForward>)
    requires Run(settings, states, events) && i < |states| && NoClash(NamingOf(settings.cfg), family)
    requires forall k :: 0 <= k < i ==> EventDraws(events[k], family)
    ensures DistinctDomains(states[i].active)
  {
    NamingNames(settings.cfg);
    RunFamilyInv(settings, states, events, i, NamingOf(settings.cfg), family);
  }

  /* Equal names that cannot be told apart */

  /** Two plain labels are equal and too long for a suffix. */
  predicate SameLongName(cfg: Config, a: PortForward, b: PortForward) {
    PlainLabel(a, cfg) == PlainLabel(b, cfg) && |Dashed(PlainText(BaseIdentifier(a, cfg),
        a.remotePort))| > LABEL_MAX - 2
  }

  predicate RealPorts(f: PortForward) {
    f.port >= 0 && f.remotePort >= 0
  }

  lemma LongFallback(cfg: Config, f: PortForward)
    requires RealPorts(f)
    ensures FallbackLabel(f, cfg) == PlainLabel(f, cfg) <==> |PlainLabel(f, cfg)| > LABEL_MAX - 2
    ensures |PlainLabel(f, cfg)| > LABEL_MAX - 2 <==>
            |Dashed(PlainText(BaseIdentifier(f, cfg), f.remotePort))| > LABEL_MAX - 2
  {
    FallbackDiffersIff(BaseIdentifier(f, cfg), f.remotePort, f.port);
    LabelLength(PlainText(BaseIdentifier(f, cfg), f.remotePort));
  }

  lemma SharedLongName(settings: Settings, e1: ActiveEntry, e2: ActiveEntry, a: PortForward, b: PortForward)
    requires Shows(settings, e1, a) && Shows(settings, e2, b)
    requires RealPorts(a) && RealPorts(b) && SameLongName(settings.cfg, a, b)
    ensures e1.entry.domain == e2.entry.domain
  {
    LongFallback(settings.cfg, a);
    LongFallback(settings.cfg, b);
  }

  ghost predicate LongNamesShared(cfg: Config, family: iset<PortForward>, p: int, q: int) {
    forall a, b :: a in family && b in family && a.port == p && b.port == q ==>
        RealPorts(a) && RealPorts(b) && SameLongName(cfg, a, b)
  }

  /** The converse: two active entries whose forwards share a plain name of more than 61 bytes have the same domain in
      every reachable state. */
  lemma LongNamesClash(settings: Settings, states: seq<State>, events: seq<Event>, i: nat, family: iset<PortForward>,
                       p: int, q: int)
    requires Run(settings, states, events) && i < |states| && Draws(events, family)
    requires p in states[i].active && q in states[i].active && LongNamesShared(settings.cfg, family, p, q)
    ensures states[i].active[p].entry.domain == states[i].active[q].entry.domain
  {
    var a := OriginIn(settings, states, events, i, family, p);
    var b := OriginIn(settings, states, events, i, family, q);
    SharedByOrigin(settings, states[i].active[p], states[i].active[q], a, b, family, p, q);
  }

  /** The entry on port p shows this forward of the family. */
  predicate FromFamily(settings: Settings, e: ActiveEntry, family: iset<PortForward>, p: int, f: PortForward) {
    f in family && f.port == p && Shows(settings, e, f)
  }

  lemma SharedByOrigin(settings: Settings, e1: ActiveEntry, e2: ActiveEntry, a: PortForward, b: PortForward,
                       family: iset<PortForward>, p: int, q: int)
    requires FromFamily(settings, e1, family, p, a) && FromFamily(settings, e2, family, q, b)
    requires LongNamesShared(settings.cfg, family, p, q)
    ensures e1.entry.domain == e2.entry.domain
  {
    InstanceShared(settings.cfg, family, p, q, a, b);
    SharedLongName(settings, e1, e2, a, b);
  }

  lemma InstanceShared(cfg: Config, family: iset<PortForward>, p: int, q: int, a: PortForward, b: PortForward)
    requires LongNamesShared(cfg, family, p, q) && a in family && b in family && a.port == p && b.port == q
    ensures RealPorts(a) && RealPorts(b) && SameLongName(cfg, a, b)
  {
  }

  lemma OriginIn(settings: Settings, states: seq<State>, events: seq<Event>, i: nat, family: iset<PortForward>, p: int)
    returns (f: PortForward)
    requires Run(settings, states, events) && i < |states| && Draws(events, family) && p in states[i].active
    ensures FromFamily(settings, states[i].active[p], family, p, f)
  {
    var k := EveryEntryHasOrigin(settings, states, events, i, p);
    CurrentByPort(events[k].scan.forwards);
    assert EventDraws(events[k], family);
    f := Current(events[k].scan.forwards)[p];
  }
}
