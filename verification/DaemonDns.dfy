/** Agreement between the active entries and what dnsmasq serves. */
module DaemonDns {
  import opened Text
  import opened NameOrder
  import opened Forward
  import opened Domain
  import opened IpAlloc
  import opened Dnsmasq
  import opened HostsIndex
  import opened DaemonModel
  import opened DaemonRuns
  import opened DaemonNames
  import opened DaemonConvergence

  /** The records dnsmasq should serve for the active entries. */
  function IndexOf(active: map<int, ActiveEntry>): map<int, Record> {
    map p | p in active :: Record(active[p].entry.ip, TrimSpace(active[p].entry.domain))
  }

  /** Every active entry's state file holds its line, and the hosts file is in sync once something is active, or always
      if it was `synced` at the start. */
  ghost predicate DnsAgrees(s: State, synced: bool) {
    && Covers(ConfName, StateFiles(s.dir.files), IndexOf(s.active))
    && (synced || s.active != map[] ==> InSync(s.dir))
  }

  /** File operations succeed when adding and removing these ports. */
  ghost predicate FilesWork(env: Env, adds: set<int>, removes: set<int>) {
    && (forall port: int :: port in adds ==> FilesOk(env.add(port)))
    && (forall port: int :: port in removes ==> FilesOk(env.remove(port)))
  }

  /** The same for the ports this poll adds and removes. */
  ghost predicate PollFilesWork(s: State, e: Event) {
    e.scan.ScanOk? ==> FilesWork(e.env, Scanned(e) - s.active.Keys, s.active.Keys - Scanned(e))
  }

  /** The same for poll k. */
  ghost predicate FilesWorkAt(states: seq<State>, events: seq<Event>, k: nat)
    requires k < |events| < |states|
  {
    PollFilesWork(states[k], events[k])
  }

  function RecordOf(d: Byte, name: string): Record {
    Record(Show(Loopback(d)), TrimSpace(name))
  }

  lemma AcceptedFiles(d: Dir, port: int, name: string, b: Byte, o: Outcome)
    requires Accepted(name, Show(Loopback(b))) && FilesOk(o)
    ensures var r := Added(d, port, name, Show(Loopback(b)), o); var rec := RecordOf(b, name);
      && Good(rec) && r.1 == o.reload && InSync(r.0)
      && StateFiles(r.0.files) == StateFiles(d.files)[ConfName(port) := StateLine(rec.name, rec.ip) + "\n"]
  {
    LoopbackParses(b);
    AddedFiles(d, port, name, Show(Loopback(b)), o);
  }

  lemma IndexPut(active: map<int, ActiveEntry>, port: int, e: ActiveEntry)
    ensures IndexOf(active[port := e]) == IndexOf(active)[port := Record(e.entry.ip, TrimSpace(e.entry.domain))]
  {
  }

  lemma IndexDrop(active: map<int, ActiveEntry>, port: int)
    ensures IndexOf(active - {port}) == IndexOf(active) - {port}
  {
  }

  lemma AgreesPut(s: State, t: State, port: int, rec: Record, synced: bool)
    requires DnsAgrees(s, synced) && Good(rec) && port !in s.active && InSync(t.dir)
    requires StateFiles(t.dir.files) == StateFiles(s.dir.files)[ConfName(port) := StateLine(rec.name, rec.ip) + "\n"]
    requires IndexOf(t.active) == IndexOf(s.active)[port := rec] || t.active == s.active
    ensures DnsAgrees(t, synced)
  {
    ConfNamesInjective();
    CoversPut(ConfName, StateFiles(s.dir.files), IndexOf(s.active), port, rec);
  }

  lemma AddKeepsAgreement(settings: Settings, s: State, pf: PortForward, o: Outcome, bind: bool, synced: bool)
    requires DnsAgrees(s, synced) && pf.port !in s.active
    requires FilesOk(o)
    ensures DnsAgrees(AddStep(settings, s, pf, o, bind), synced)
  {
    var t := AddStep(settings, s, pf, o, bind);
    var name, d := Generate(pf, settings.cfg, ActiveNames(settings.cfg, s.active)), FirstFree(s.used, 1);
    AddStepCases(settings, s, pf, o, bind);
    if d < 255 && Accepted(name, Show(Loopback(d))) {
      AcceptedFiles(s.dir, pf.port, name, d, o);
      if o.reload {
        IndexPut(s.active, pf.port, t.active[pf.port]);
      }
      AgreesPut(s, t, pf.port, RecordOf(d, name), synced);
    }
  }

  lemma RemoveKeepsAgreement(s: State, port: int, o: Outcome, synced: bool)
    requires Inv(s) && DnsAgrees(s, synced) && port in s.active && FilesOk(o)
    ensures DnsAgrees(RemoveStep(s, port, o), synced) && InSync(RemoveStep(s, port, o).dir)
  {
    RemoveStepIs(s, port, o);
    ConfNamesInjective();
    assert port in IndexOf(s.active);
    assert ConfName(port) in StateFiles(s.dir.files);
    RemovedFiles(s.dir, port, o);
    CoversDrop(ConfName, StateFiles(s.dir.files), IndexOf(s.active), port);
    IndexDrop(s.active, port);
  }

  lemma {:induction false} AddPhaseAgrees(settings: Settings, s: State, current: map<int, PortForward>, env: Env,
                                          order: seq<int>, synced: bool)
    requires ByPort(current) && FilesWork(env, current.Keys - s.active.Keys, {}) && DnsAgrees(s, synced)
    ensures DnsAgrees(AddPhase(settings, s, current, env, order), synced)
  {
    if order != [] {
      AddPhaseAgrees(settings, s, current, env, Init(order), synced);
      AddPhaseKeys(settings, s, current, env, Init(order));
      AddVisitAgrees(settings, AddPhase(settings, s, current, env, Init(order)), current, env, Last(order), synced);
    }
  }

  lemma AddVisitAgrees(settings: Settings, s: State, current: map<int, PortForward>, env: Env, port: int, synced: bool)
    requires ByPort(current) && DnsAgrees(s, synced)
    requires port in current && port !in s.active ==> FilesOk(env.add(port))
    ensures DnsAgrees(AddVisit(settings, s, current, env, port), synced)
  {
    if port in current && port !in s.active {
      AddKeepsAgreement(settings, s, current[port], env.add(port), env.bind(port), synced);
    }
  }

  lemma {:induction false} RemovePhaseAgrees(s: State, current: map<int, PortForward>, env: Env, order: seq<int>,
                                             synced: bool)
    requires Inv(s) && FilesWork(env, {}, s.active.Keys - current.Keys) && DnsAgrees(s, synced)
    ensures var t := RemovePhase(s, current, env, order);
      DnsAgrees(t, synced) && (t.active != s.active ==> InSync(t.dir))
  {
    if order != [] {
      RemovePhaseAgrees(s, current, env, Init(order), synced);
      RemovePhaseInv(s, current, env, Init(order));
      RemovePhaseActive(s, current, env, Init(order));
      var t, port := RemovePhase(s, current, env, Init(order)), Last(order);
      if port !in current && port in t.active {
        assert port in s.active.Keys - current.Keys;
        RemoveKeepsAgreement(t, port, env.remove(port), synced);
      }
    }
  }

  lemma NextAgrees(settings: Settings, s: State, e: Event, synced: bool)
    requires Inv(s) && PollFilesWork(s, e) && DnsAgrees(s, synced)
    ensures DnsAgrees(Next(settings, s, e), synced)
  {
    if e.scan.ScanOk? {
      var current := Current(e.scan.forwards);
      CurrentByPort(e.scan.forwards);
      AddPhaseAgrees(settings, s, current, e.env, e.addOrder, synced);
      AddPhaseInv(settings, s, current, e.env, e.addOrder);
      AddsKeep(settings, s, e);
      FewerRemoves(e.env, s.active.Keys - current.Keys, AfterAdds(settings, s, e).active.Keys - current.Keys);
      RemovePhaseAgrees(AfterAdds(settings, s, e), current, e.env, e.removeOrder, synced);
    }
  }

  lemma FewerRemoves(env: Env, a: set<int>, b: set<int>)
    requires b <= a && forall port: int :: port in a ==> FilesOk(env.remove(port))
    ensures FilesWork(env, {}, b)
  {
  }

  lemma {:induction false} RunAgrees(settings: Settings, states: seq<State>, events: seq<Event>, i: nat, synced: bool)
    requires Run(settings, states, events) && i < |states|
    requires forall k :: 0 <= k < i ==> FilesWorkAt(states, events, k)
    requires synced ==> InSync(states[0].dir)
    ensures DnsAgrees(states[i], synced)
  {
    if i > 0 {
      assert PolledAt(settings, states, events, i - 1) && FilesWorkAt(states, events, i - 1);
      RunAgrees(settings, states, events, i - 1, synced);
      RunInv(settings, states, events, i - 1);
      NextAgrees(settings, states[i - 1], events[i - 1], synced);
    }
  }

  /** When only reloads and proxy binds fail, every active entry's state file is its line, and that line is one of
      the lines of the hosts file, whatever was in the directory at the start. */
  lemma ActiveIsServed(settings: Settings, states: seq<State>, events: seq<Event>, i: nat, port: int)
    requires Run(settings, states, events) && i < |states| && port in states[i].active
    requires forall k :: 0 <= k < i ==> FilesWorkAt(states, events, k)
    ensures var s, entry := states[i], states[i].active[port].entry;
      var line := entry.ip + "\t" + TrimSpace(entry.domain);
      && ConfName(port) in s.dir.files && s.dir.files[ConfName(port)] == line + "\n"
      && line in Split('\n', HostsBytes(s.dir))
      && ServesAddress(line, s.active[port])
  {
    RunAgrees(settings, states, events, i, false);
    var s := states[i];
    assert port in IndexOf(s.active);
    ServedLine(StateFiles(s.dir.files), ConfName(port), IndexOf(s.active)[port]);
    LineReadsBack(IndexOf(s.active)[port]);
    RunInv(settings, states, events, i);
    assert EntryOk(port, s.active[port]);
    ShowReads(s.active[port].ip);
  }

  /** The first field of the line stands for the entry's address, on which its proxy, if it runs, listens. */
  predicate ServesAddress(line: string, e: ActiveEntry) {
    var fields := Split('\t', line);
    && ReadAddress(fields[0]) == e.ip
    && (e.proxy.Some? ==> e.proxy.value.bindIP == ReadAddress(fields[0]))
  }

  /** Exactly when one add keeps the state files equal to the active entries: unless a reload fails after the files
      were written, since that add is then undone everywhere except in the directory. */
  lemma AddKeepsExactIff(settings: Settings, s: State, pf: PortForward, o: Outcome, bind: bool)
    requires Inv(s) && pf.port !in s.active && FilesOk(o)
    requires Represents(s.dir, IndexOf(s.active))
    ensures var t := AddStep(settings, s, pf, o, bind);
      Represents(t.dir, IndexOf(t.active)) <==>
      o.reload || |s.active| == POOL_SIZE || !TldOk(settings.cfg)
  {
    if |s.active| < POOL_SIZE && TldOk(settings.cfg) {
      if o.reload {
        AddKeepsAgreementOnly(settings, s, pf, o, bind);
      } else {
        var rec := AddWritesLine(settings, s, pf, o, bind);
        ConfNamesInjective();
        StaleNotHeld(ConfName, StateFiles(s.dir.files), IndexOf(s.active), pf.port, StateLine(rec.name, rec.ip) + "\n");
      }
    } else {
      AddressConservation(s);
      AddChangesNothing(settings, s, pf, o, bind);
    }
  }

  lemma AddKeepsAgreementOnly(settings: Settings, s: State, pf: PortForward, o: Outcome, bind: bool)
    requires pf.port !in s.active && FilesOk(o) && o.reload && Represents(s.dir, IndexOf(s.active))
    ensures var t := AddStep(settings, s, pf, o, bind); Represents(t.dir, IndexOf(t.active))
  {
    var name, d := Generate(pf, settings.cfg, ActiveNames(settings.cfg, s.active)), FirstFree(s.used, 1);
    AddStepCases(settings, s, pf, o, bind);
    ConfNamesInjective();
    if d < 255 && Accepted(name, Show(Loopback(d))) {
      AcceptedFiles(s.dir, pf.port, name, d, o);
      IndexPut(s.active, pf.port, AddStep(settings, s, pf, o, bind).active[pf.port]);
      HoldsPut(ConfName, StateFiles(s.dir.files), IndexOf(s.active), pf.port, RecordOf(d, name));
    }
  }

  lemma StaleNotHeld(f: int -> string, files: map<string, string>, m: map<int, Record>, port: int, content: string)
    requires port !in m
    requires forall j, k :: f(j) == f(k) ==> j == k
    ensures !Holds(f, files[f(port) := content], m)
  {
    assert f(port) in files[f(port) := content];
    assert !IsImage(f, m.Keys, f(port));
  }

  lemma AddChangesNothing(settings: Settings, s: State, pf: PortForward, o: Outcome, bind: bool)
    requires Inv(s) && pf.port !in s.active
    requires |s.active| == POOL_SIZE || !TldOk(settings.cfg)
    ensures AddStep(settings, s, pf, o, bind) == s
  {
    AddressConservation(s);
    AcceptedIff(pf, settings.cfg, ActiveNames(settings.cfg, s.active), FirstFree(s.used, 1));
    AddStepCases(settings, s, pf, o, bind);
  }

  /** An accepted add whose reload fails writes the line all the same and changes nothing else. */
  lemma AddWritesLine(settings: Settings, s: State, pf: PortForward, o: Outcome, bind: bool) returns (rec: Record)
    requires Inv(s) && pf.port !in s.active && FilesOk(o) && !o.reload
    requires |s.active| < POOL_SIZE && TldOk(settings.cfg)
    ensures Good(rec)
    ensures rec == RecordOf(FirstFree(s.used, 1), Generate(pf, settings.cfg, ActiveNames(settings.cfg, s.active)))
    ensures var t := AddStep(settings, s, pf, o, bind);
      && t == s.(dir := t.dir) && InSync(t.dir)
      && StateFiles(t.dir.files) == StateFiles(s.dir.files)[ConfName(pf.port) := StateLine(rec.name, rec.ip) + "\n"]
  {
    var name, d := Generate(pf, settings.cfg, ActiveNames(settings.cfg, s.active)), FirstFree(s.used, 1);
    rec := RecordOf(d, name);
    AddressConservation(s);
    AcceptedIff(pf, settings.cfg, ActiveNames(settings.cfg, s.active), d);
    AddStepCases(settings, s, pf, o, bind);
    AcceptedFiles(s.dir, pf.port, name, d, o);
  }

  /** What such an add leaves: a served line for a port that is not active, with the address free for reuse. */
  lemma FailedReloadLeavesLine(settings: Settings, s: State, pf: PortForward, o: Outcome, bind: bool)
    requires Inv(s) && pf.port !in s.active && FilesOk(o) && !o.reload
    requires |s.active| < POOL_SIZE && TldOk(settings.cfg)
    ensures var t, d := AddStep(settings, s, pf, o, bind), FirstFree(s.used, 1);
      var name := Generate(pf, settings.cfg, ActiveNames(settings.cfg, s.active));
      && t == s.(dir := t.dir) && FirstFree(t.used, 1) == d
      && Show(Loopback(d)) + "\t" + TrimSpace(name) in Split('\n', HostsBytes(t.dir))
  {
    var rec := AddWritesLine(settings, s, pf, o, bind);
    ServedLine(StateFiles(AddStep(settings, s, pf, o, bind).dir.files), ConfName(pf.port), rec);
  }

  lemma NothingServed(d: Dir, m: map<int, Record>)
    requires Represents(d, m) && m == map[] && InSync(d)
    ensures StateFiles(d.files) == map[] && HostsBytes(d) == ""
  {
    forall n
      ensures n !in StateFiles(d.files)
    {
      assert n in StateFiles(d.files) ==> IsImage(ConfName, m.Keys, n);
    }
    assert StateFiles(d.files) == map[];
    assert Sorted({}) == [];
  }

  function NamesOf(f: int -> string, ports: set<int>): set<string> {
    set p | p in ports :: f(p)
  }

  lemma RemoveDropsFile(s: State, port: int, o: Outcome)
    requires Inv(s) && port in s.active && FilesOk(o)
    ensures StateFiles(RemoveStep(s, port, o).dir.files) == StateFiles(s.dir.files) - {ConfName(port)}
  {
    RemoveStepIs(s, port, o);
    if s.dir.present {
      RemovedFiles(s.dir, port, o);
    } else {
      assert s.dir.files - {ConfName(port)} == map[];
    }
  }

  lemma NamesPut(f: int -> string, ports: set<int>, port: int)
    ensures NamesOf(f, ports + {port}) == NamesOf(f, ports) + {f(port)}
  {
    forall n | n in NamesOf(f, ports)
      ensures n in NamesOf(f, ports + {port})
    {
      var p :| p in ports && n == f(p);
      assert p in ports + {port};
    }
    assert port in ports + {port};
  }

  lemma NamesGrow(f: int -> string, files: map<string, string>, order: seq<int>)
    requires order != []
    ensures files - NamesOf(f, Seen(Init(order))) - {f(Last(order))} == files - NamesOf(f, Seen(order))
  {
    assert order == Init(order) + [Last(order)];
    assert Seen(order) == Seen(Init(order)) + {Last(order)};
    NamesPut(f, Seen(Init(order)), Last(order));
  }

  lemma CleanupLast(s: State, env: Env, order: seq<int>)
    requires order != [] && Last(order) in Cleanup(s, env, Init(order)).active
    requires Inv(Cleanup(s, env, Init(order))) && FilesOk(env.remove(Last(order)))
    ensures StateFiles(Cleanup(s, env, order).dir.files) ==
            StateFiles(Cleanup(s, env, Init(order)).dir.files) - {ConfName(Last(order))}
  {
    RemoveDropsFile(Cleanup(s, env, Init(order)), Last(order), env.remove(Last(order)));
  }

  lemma {:induction false} CleanupDropsFiles(s: State, env: Env, order: seq<int>, f: int -> string)
    requires Inv(s) && FilesWork(env, {}, s.active.Keys) && NoDuplicates(order) && forall p :: p in order ==>
             p in s.active
    requires f == ConfName
    ensures StateFiles(Cleanup(s, env, order).dir.files) == StateFiles(s.dir.files) - NamesOf(f, Seen(order))
  {
    if order == [] {
      assert NamesOf(f, Seen(order)) == {};
    } else {
      CleanupDropsFiles(s, env, Init(order), f);
      LastStillActive(s, env, order);
      CleanupLast(s, env, order);
      NamesGrow(f, StateFiles(s.dir.files), order);
    }
  }

  lemma LastStillActive(s: State, env: Env, order: seq<int>)
    requires Inv(s) && order != [] && NoDuplicates(order) && Last(order) in s.active
    ensures Last(order) in Cleanup(s, env, Init(order)).active && Inv(Cleanup(s, env, Init(order)))
  {
    StillActive(s, env, Init(order), Last(order));
    RemovePhaseInv(s, map[], env, Init(order));
  }

  lemma StillActive(s: State, env: Env, order: seq<int>, port: int)
    requires port in s.active && port !in order
    ensures port in Cleanup(s, env, order).active
  {
    var none: map<int, PortForward> := map[];
    RemovePhaseActive(s, none, env, order);
    DroppedIs(order, none.Keys);
  }

  /** Whatever went wrong before, shutdown with working file operations removes exactly the active entries' state
      files; so none is left exactly if none was left behind by a failed add or an earlier daemon. */
  lemma CleanupLeavesStale(s: State, env: Env, order: seq<int>)
    requires Inv(s) && Enumerates(order, s.active.Keys) && FilesWork(env, {}, s.active.Keys)
    ensures var t := Cleanup(s, env, order);
      && StateFiles(t.dir.files) == StateFiles(s.dir.files) - NamesOf(ConfName, s.active.Keys)
      && (StateFiles(t.dir.files) == map[] <==> forall n :: n in StateFiles(s.dir.files) ==>
          IsImage(ConfName, s.active.Keys, n))
  {
    CleanupDropsFiles(s, env, order, ConfName);
    assert Seen(order) == s.active.Keys;
    NothingLeft(ConfName, StateFiles(s.dir.files), s.active.Keys);
  }

  lemma NothingLeft(f: int -> string, files: map<string, string>, ports: set<int>)
    ensures files - NamesOf(f, ports) == map[] <==> forall n :: n in files ==> IsImage(f, ports, n)
  {
    assert forall n :: n in NamesOf(f, ports) <==> IsImage(f, ports, n);
    assert forall n :: n in files - NamesOf(f, ports) <==> n in files && !IsImage(f, ports, n);
  }
}
