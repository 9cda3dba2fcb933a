/** What failed reloads leave in the hosts file: stale lines, their healing and their reuse of addresses. */
module DaemonStale {
  import opened Text
  import opened MapRange
  import opened NameOrder
  import opened Forward
  import opened Domain
  import opened IpAlloc
  import opened Dnsmasq
  import opened HostsIndex
  import opened DaemonModel
  import opened DaemonRuns
  import opened DaemonNames
  import opened DaemonConvergence
  import opened DaemonDns

  /* The stale records */

  /** An add in this state gets as far as writing its files. */
  predicate Writes(settings: Settings, s: State) {
    |s.active| < POOL_SIZE && TldOk(settings.cfg)
  }

  function RecordFor(settings: Settings, s: State, pf: PortForward): Record {
    RecordOf(FirstFree(s.used, 1), Generate(pf, settings.cfg, ActiveNames(settings.cfg, s.active)))
  }

  /** An add whose reload fails leaves its record stale, one that succeeds makes its port's record current. */
  function StaleAdd(settings: Settings, s: State, pf: PortForward, o: Outcome, stale: map<int, Record>): map<int,
                    Record> {
    if !Writes(settings, s) then stale
    else if o.reload then stale - {pf.port}
    else stale[pf.port := RecordFor(settings, s, pf)]
  }

  function StaleVisit(settings: Settings, s: State, current: map<int, PortForward>, env: Env, port: int,
                      stale: map<int, Record>): map<int, Record> {
    if port !in current || port in s.active then stale else StaleAdd(settings, s, current[port], env.add(port), stale)
  }

  function StalePhase(settings: Settings, s: State, current: map<int, PortForward>, env: Env, order: seq<int>,
                      stale: map<int, Record>): map<int, Record> {
    if order == [] then stale
    else StaleVisit(settings, AddPhase(settings, s, current, env, Init(order)), current, env, Last(order),
                    StalePhase(settings, s, current, env, Init(order), stale))
  }

  /** Removals leave the stale records alone. */
  function StaleNext(settings: Settings, s: State, e: Event, stale: map<int, Record>): map<int, Record> {
    if e.scan.ScanError? then stale
    else StalePhase(settings, s, Current(e.scan.forwards), e.env, e.addOrder, stale)
  }

  /** The records that are stale in states[i], by port. */
  function Stale(settings: Settings, states: seq<State>, events: seq<Event>, i: nat): map<int, Record>
    requires i <= |events| <= |states|
  {
    if i == 0 then map[] else StaleNext(settings, states[i - 1], events[i - 1], Stale(settings, states, events, i - 1))
  }

  /* The invariant */

  function Served(active: map<int, ActiveEntry>, stale: map<int, Record>): map<int, Record> {
    IndexOf(active) + stale
  }

  /** The state files are exactly the active entries' and the stale ones, and the hosts file is in sync once there are
      any, or always if it was `synced` at the start. */
  ghost predicate StaleInv(s: State, stale: map<int, Record>, synced: bool) {
    && stale.Keys !! s.active.Keys
    && Represents(s.dir, Served(s.active, stale))
    && (synced || s.active != map[] || stale != map[] ==> InSync(s.dir))
  }

  lemma ServedActivated(active: map<int, ActiveEntry>, stale: map<int, Record>, port: int, e: ActiveEntry)
    requires port !in active
    ensures Served(active[port := e], stale - {port}) ==
            Served(active, stale)[port := Record(e.entry.ip, TrimSpace(e.entry.domain))]
  {
  }

  lemma ServedStale(active: map<int, ActiveEntry>, stale: map<int, Record>, port: int, r: Record)
    ensures Served(active, stale[port := r]) == Served(active, stale)[port := r]
  {
  }

  lemma ServedDropped(active: map<int, ActiveEntry>, stale: map<int, Record>, port: int)
    requires port !in stale
    ensures Served(active - {port}, stale) == Served(active, stale) - {port}
  {
  }

  lemma AddSucceeds(settings: Settings, s: State, pf: PortForward, o: Outcome, bind: bool)
    requires Inv(s) && pf.port !in s.active && FilesOk(o) && o.reload && Writes(settings, s)
    ensures var t, r := AddStep(settings, s, pf, o, bind), RecordFor(settings, s, pf);
      && pf.port in t.active && t.active == s.active[pf.port := t.active[pf.port]]
      && t.active[pf.port].ip == Loopback(FirstFree(s.used, 1))
      && Record(t.active[pf.port].entry.ip, TrimSpace(t.active[pf.port].entry.domain)) == r && Good(r)
      && InSync(t.dir)
      && StateFiles(t.dir.files) == StateFiles(s.dir.files)[ConfName(pf.port) := StateLine(r.name, r.ip) + "\n"]
  {
    var name, d := Generate(pf, settings.cfg, ActiveNames(settings.cfg, s.active)), FirstFree(s.used, 1);
    AddressConservation(s);
    AcceptedIff(pf, settings.cfg, ActiveNames(settings.cfg, s.active), d);
    AcceptedFiles(s.dir, pf.port, name, d, o);
    AddStepCases(settings, s, pf, o, bind);
  }

  lemma AddKeepsStaleInv(settings: Settings, s: State, pf: PortForward, o: Outcome, bind: bool, stale: map<int, Record>,
                         synced: bool)
    requires Inv(s) && StaleInv(s, stale, synced) && pf.port !in s.active && FilesOk(o)
    ensures StaleInv(AddStep(settings, s, pf, o, bind), StaleAdd(settings, s, pf, o, stale), synced)
  {
    var t, r := AddStep(settings, s, pf, o, bind), RecordFor(settings, s, pf);
    if !Writes(settings, s) {
      AddressConservation(s);
      AddChangesNothing(settings, s, pf, o, bind);
    } else if o.reload {
      AddSucceeds(settings, s, pf, o, bind);
      ServedActivated(s.active, stale, pf.port, t.active[pf.port]);
      PutRepresents(s.dir, Served(s.active, stale), t.dir, pf.port, r);
    } else {
      var written := AddWritesLine(settings, s, pf, o, bind);
      ServedStale(s.active, stale, pf.port, r);
      PutRepresents(s.dir, Served(s.active, stale), t.dir, pf.port, r);
    }
  }

  /** A removal rewrites the hosts file: its port had a state file. */
  lemma RemoveSyncs(s: State, port: int, o: Outcome, stale: map<int, Record>)
    requires Inv(s) && port in s.active && FilesOk(o) && Represents(s.dir, Served(s.active, stale))
    ensures InSync(RemoveStep(s, port, o).dir)
  {
    RemoveStepIs(s, port, o);
    assert port in Served(s.active, stale);
    assert ConfName(port) in StateFiles(s.dir.files);
    RemovedFiles(s.dir, port, o);
  }

  lemma RemoveKeepsStaleInv(s: State, port: int, o: Outcome, stale: map<int, Record>, synced: bool)
    requires Inv(s) && StaleInv(s, stale, synced) && port in s.active && FilesOk(o)
    ensures StaleInv(RemoveStep(s, port, o), stale, synced)
  {
    RemoveDropsFile(s, port, o);
    RemoveStepIs(s, port, o);
    RemoveSyncs(s, port, o, stale);
    ServedDropped(s.active, stale, port);
    DropRepresents(s.dir, Served(s.active, stale), RemoveStep(s, port, o).dir, port);
  }

  lemma {:induction false} AddPhaseStale(settings: Settings, s: State, current: map<int, PortForward>, env: Env,
                                         order: seq<int>, stale: map<int, Record>, synced: bool)
    requires Inv(s) && ByPort(current) && StaleInv(s, stale, synced) && FilesWork(env, current.Keys - s.active.Keys, {})
    ensures StaleInv(AddPhase(settings, s, current, env, order), StalePhase(settings, s, current, env, order, stale),
            synced)
  {
    if order != [] {
      AddPhaseStale(settings, s, current, env, Init(order), stale, synced);
      AddPhaseInv(settings, s, current, env, Init(order));
      AddPhaseKeys(settings, s, current, env, Init(order));
      var t, port := AddPhase(settings, s, current, env, Init(order)), Last(order);
      if port in current && port !in t.active {
        assert port in current.Keys - s.active.Keys;
        AddKeepsStaleInv(settings, t, current[port], env.add(port), env.bind(port),
                         StalePhase(settings, s, current, env, Init(order), stale), synced);
      }
    }
  }

  lemma {:induction false} RemovePhaseStale(s: State, current: map<int, PortForward>, env: Env, order: seq<int>,
                                            stale: map<int, Record>, synced: bool)
    requires Inv(s) && StaleInv(s, stale, synced) && FilesWork(env, {}, s.active.Keys - current.Keys)
    ensures StaleInv(RemovePhase(s, current, env, order), stale, synced)
  {
    if order != [] {
      RemovePhaseStale(s, current, env, Init(order), stale, synced);
      RemovePhaseInv(s, current, env, Init(order));
      RemovePhaseActive(s, current, env, Init(order));
      var t, port := RemovePhase(s, current, env, Init(order)), Last(order);
      if port !in current && port in t.active {
        assert port in s.active.Keys - current.Keys;
        RemoveKeepsStaleInv(t, port, env.remove(port), stale, synced);
      }
    }
  }

  lemma NextStale(settings: Settings, s: State, e: Event, stale: map<int, Record>, synced: bool)
    requires Inv(s) && StaleInv(s, stale, synced) && PollFilesWork(s, e)
    ensures StaleInv(Next(settings, s, e), StaleNext(settings, s, e, stale), synced)
  {
    if e.scan.ScanOk? {
      CurrentByPort(e.scan.forwards);
      AddPhaseStale(settings, s, Current(e.scan.forwards), e.env, e.addOrder, stale, synced);
      AddPhaseInv(settings, s, Current(e.scan.forwards), e.env, e.addOrder);
      RemovesStale(settings, s, e, StaleNext(settings, s, e, stale), synced);
    }
  }

  lemma RemovesStale(settings: Settings, s: State, e: Event, stale: map<int, Record>, synced: bool)
    requires e.scan.ScanOk? && PollFilesWork(s, e)
    requires Inv(AfterAdds(settings, s, e)) && StaleInv(AfterAdds(settings, s, e), stale, synced)
    ensures StaleInv(Next(settings, s, e), stale, synced)
  {
    var a, current := AfterAdds(settings, s, e), Current(e.scan.forwards);
    AddsKeep(settings, s, e);
    FewerRemoves(e.env, s.active.Keys - current.Keys, a.active.Keys - current.Keys);
    RemovePhaseStale(a, current, e.env, e.removeOrder, stale, synced);
  }

  lemma {:induction false} RunStale(settings: Settings, states: seq<State>, events: seq<Event>, i: nat, synced: bool)
    requires Run(settings, states, events) && i < |states| && StateFiles(states[0].dir.files) == map[]
    requires synced ==> HostsBytes(states[0].dir) == ""
    requires forall k :: 0 <= k < i ==> FilesWorkAt(states, events, k)
    ensures StaleInv(states[i], Stale(settings, states, events, i), synced)
  {
    if i > 0 {
      assert FilesWorkAt(states, events, i - 1);
      RunStale(settings, states, events, i - 1, synced);
      PollStale(settings, states, events, i - 1, Stale(settings, states, events, i - 1), synced);
    } else {
      StartStale(states[0], synced);
    }
  }

  lemma StartStale(s: State, synced: bool)
    requires Initial(s) && StateFiles(s.dir.files) == map[] && (synced ==> HostsBytes(s.dir) == "")
    ensures StaleInv(s, map[], synced)
  {
    NothingInSync(s.dir);
  }

  lemma PollStale(settings: Settings, states: seq<State>, events: seq<Event>, i: nat, stale: map<int, Record>,
                  synced: bool)
    requires Run(settings, states, events) && i < |events| && FilesWorkAt(states, events, i)
    requires StaleInv(states[i], stale, synced)
    ensures StaleInv(states[i + 1], StaleNext(settings, states[i], events[i], stale), synced)
  {
    assert PolledAt(settings, states, events, i);
    RunInv(settings, states, events, i);
    NextStale(settings, states[i], events[i], stale, synced);
  }

  lemma ExactIfNothingStale(f: int -> string, files: map<string, string>, active: map<int, ActiveEntry>,
                            stale: map<int, Record>)
    requires stale.Keys !! active.Keys && Holds(f, files, Served(active, stale))
    requires forall j, k :: f(j) == f(k) ==> j == k
    ensures Holds(f, files, IndexOf(active)) <==> stale == map[]
  {
    if stale == map[] {
      assert Served(active, stale) == IndexOf(active);
    } else {
      var p := SomeKey(stale);
      assert p in Served(active, stale) && f(p) in files;
      assert !IsImage(f, IndexOf(active).Keys, f(p));
    }
  }

  /* What it means for a run */

  /** With working file operations, whatever reloads and binds do, in every reachable state the state files are exactly
      those of the active entries and the stale records, so they are exactly the active entries' if and only if nothing
      is stale. */
  lemma ExactIffNothingStale(settings: Settings, states: seq<State>, events: seq<Event>, i: nat)
    requires Run(settings, states, events) && i < |states| && StateFiles(states[0].dir.files) == map[]
    requires forall k :: 0 <= k < i ==> FilesWorkAt(states, events, k)
    ensures var s, stale := states[i], Stale(settings, states, events, i);
      && stale.Keys !! s.active.Keys
      && Represents(s.dir, Served(s.active, stale))
      && (Represents(s.dir, IndexOf(s.active)) <==> stale == map[])
  {
    RunStale(settings, states, events, i, false);
    ConfNamesInjective();
    ExactIfNothingStale(ConfName, StateFiles(states[i].dir.files), states[i].active,
        Stale(settings, states, events, i));
  }

  /** And the hosts file, read back, is exactly these records, unless it was left over from before and nothing has been
      served yet; so it is exactly the active entries if and only if nothing is stale. */
  lemma HostsAreActiveAndStale(settings: Settings, states: seq<State>, events: seq<Event>, i: nat)
    requires Run(settings, states, events) && i < |states| && StateFiles(states[0].dir.files) == map[]
    requires forall k :: 0 <= k < i ==> FilesWorkAt(states, events, k)
    requires HostsBytes(states[0].dir) == "" || states[i].active != map[] || Stale(settings, states, events, i) != map[]
    ensures ReadsBackAs(states[i].dir, Served(states[i].active, Stale(settings, states, events, i)))
    ensures ReadsBackAs(states[i].dir, IndexOf(states[i].active)) <==> Stale(settings, states, events, i) == map[]
  {
    RunStale(settings, states, events, i, HostsBytes(states[0].dir) == "");
    StaleReadsBack(states[i], Stale(settings, states, events, i), HostsBytes(states[0].dir) == "");
  }

  lemma StaleReadsBack(s: State, stale: map<int, Record>, synced: bool)
    requires StaleInv(s, stale, synced) && (synced || s.active != map[] || stale != map[])
    ensures ReadsBackAs(s.dir, Served(s.active, stale))
    ensures ReadsBackAs(s.dir, IndexOf(s.active)) <==> stale == map[]
  {
    HostsReadBack(s.dir, Served(s.active, stale));
    ExactLinesIff(s.dir, s.active, stale);
  }

  lemma ExactLinesIff(d: Dir, active: map<int, ActiveEntry>, stale: map<int, Record>)
    requires stale.Keys !! active.Keys && ReadsBackAs(d, Served(active, stale))
    ensures ReadsBackAs(d, IndexOf(active)) <==> stale == map[]
  {
    if stale == map[] {
      assert Served(active, stale) == IndexOf(active);
    } else {
      StaleAddsLines(active, stale);
      if ReadsBackAs(d, IndexOf(active)) {
        SameCount(d, Served(active, stale), IndexOf(active));
        assert false;
      }
    }
  }

  lemma StaleAddsLines(active: map<int, ActiveEntry>, stale: map<int, Record>)
    requires stale.Keys !! active.Keys && stale != map[]
    ensures |Served(active, stale).Keys| > |IndexOf(active).Keys|
  {
    var port := SomeKey(stale);
    assert port in Served(active, stale).Keys && port !in IndexOf(active).Keys;
    assert IndexOf(active).Keys <= Served(active, stale).Keys;
    ProperSubsetSize(IndexOf(active).Keys, Served(active, stale).Keys);
  }

  lemma SameCount(d: Dir, a: map<int, Record>, b: map<int, Record>)
    requires ReadsBackAs(d, a) && ReadsBackAs(d, b)
    ensures |a.Keys| == |b.Keys|
  {
    var p :| Enumerates(p, a.Keys) && ReadHosts(HostsBytes(d)) == Records(a, p);
    var q :| Enumerates(q, b.Keys) && ReadHosts(HostsBytes(d)) == Records(b, q);
    EnumerationSize(p, a.Keys);
    EnumerationSize(q, b.Keys);
  }

  lemma {:induction false} EnumerationSize(order: seq<int>, s: set<int>)
    requires Enumerates(order, s)
    ensures |order| == |s|
  {
    if order == [] {
      assert forall x :: x !in s;
    } else {
      var x := Last(order);
      assert order == Init(order) + [x];
      EnumerationSize(Init(order), s - {x});
    }
  }

  /** If no reload after adding has failed, nothing is stale. */
  lemma {:induction false} NothingStaleIfReloaded(settings: Settings, states: seq<State>, events: seq<Event>, i: nat)
    requires i <= |events| <= |states|
    requires forall k :: 0 <= k < i ==> Reloads(events[k])
    ensures Stale(settings, states, events, i) == map[]
  {
    if i > 0 {
      NothingStaleIfReloaded(settings, states, events, i - 1);
      var after := Stale(settings, states, events, i);
      if after != map[] {
        var port := SomeKey(after);
        StaleNextOrigin(settings, states[i - 1], events[i - 1], map[], port);
        assert false;
      }
    }
  }

  ghost predicate Reloads(e: Event) {
    forall port: int :: port in Scanned(e) ==> e.env.add(port).reload
  }

  /* Healing */

  /** A stale port that is scanned again heals once its own reload succeeds and the pool has room: it becomes active. */
  lemma StaleHeals(settings: Settings, states: seq<State>, events: seq<Event>, i: nat, port: int)
    requires Run(settings, states, events) && i < |events| && StateFiles(states[0].dir.files) == map[]
    requires forall k :: 0 <= k < i + 1 ==> FilesWorkAt(states, events, k)
    requires port in Scanned(events[i]) && events[i].env.add(port).reload && TldOk(settings.cfg)
    requires |states[i].active.Keys + Scanned(events[i])| <= POOL_SIZE
    ensures port in states[i + 1].active && port !in Stale(settings, states, events, i + 1)
  {
    assert FilesWorkAt(states, events, i);
    PollAdds(settings, states, events, i, port);
    ActiveNotStale(settings, states, events, i + 1, port);
  }

  lemma PollAdds(settings: Settings, states: seq<State>, events: seq<Event>, i: nat, port: int)
    requires Run(settings, states, events) && i < |events| && FilesWorkAt(states, events, i)
    requires port in Scanned(events[i]) && events[i].env.add(port).reload && TldOk(settings.cfg)
    requires |states[i].active.Keys + Scanned(events[i])| <= POOL_SIZE
    ensures port in states[i + 1].active
  {
    assert PolledAt(settings, states, events, i);
    RunInv(settings, states, events, i);
    AddWorks(states[i], events[i], port);
    ScannedPortAdded(settings, states[i], events[i], port);
  }

  lemma AddWorks(s: State, e: Event, port: int)
    requires PollFilesWork(s, e) && port in Scanned(e)
    ensures port in s.active || FilesOk(e.env.add(port))
  {
    assert port !in s.active ==> port in Scanned(e) - s.active.Keys;
  }

  lemma ActiveNotStale(settings: Settings, states: seq<State>, events: seq<Event>, i: nat, port: int)
    requires Run(settings, states, events) && i < |states| && StateFiles(states[0].dir.files) == map[]
    requires (forall k :: 0 <= k < i ==> FilesWorkAt(states, events, k)) && port in states[i].active
    ensures port !in Stale(settings, states, events, i)
  {
    RunStale(settings, states, events, i, false);
  }

  lemma ScannedPortAdded(settings: Settings, s: State, e: Event, port: int)
    requires Inv(s) && Legal(settings, s, e) && port in Scanned(e) && TldOk(settings.cfg)
    requires port in s.active || (FilesOk(e.env.add(port)) && e.env.add(port).reload)
    requires |s.active.Keys + Scanned(e)| <= POOL_SIZE
    ensures port in Next(settings, s, e).active
  {
    var current := Current(e.scan.forwards);
    CurrentByPort(e.scan.forwards);
    AddPhaseAdds(settings, s, current, e.env, e.addOrder, port);
    PollActive(settings, s, e);
  }

  lemma {:induction false} AddPhaseAdds(settings: Settings, s: State, current: map<int, PortForward>, env: Env,
                                        order: seq<int>, port: int)
    requires Inv(s) && ByPort(current) && port in current && port in order && TldOk(settings.cfg)
    requires port in s.active || (FilesOk(env.add(port)) && env.add(port).reload)
    requires |s.active.Keys + current.Keys| <= POOL_SIZE
    ensures port in AddPhase(settings, s, current, env, order).active
  {
    var front := Init(order);
    var t := AddPhase(settings, s, current, env, front);
    assert order == front + [Last(order)];
    AddPhaseInv(settings, s, current, env, front);
    AddPhaseKeys(settings, s, current, env, front);
    AddVisitKeys(settings, t, current, env, Last(order));
    if port in front {
      AddPhaseAdds(settings, s, current, env, front, port);
    } else if port !in t.active {
      RoomFor(t.active, s.active.Keys + current.Keys, port);
      AddSucceeds(settings, t, current[port], env.add(port), env.bind(port));
    }
  }

  lemma RoomFor(active: map<int, ActiveEntry>, all: set<int>, port: int)
    requires (forall p :: p in active ==> p in all) && port in all && port !in active && |all| <= POOL_SIZE
    ensures |active| < POOL_SIZE
  {
    forall p | p in active.Keys
      ensures p in all
    {
      assert p in active;
    }
    ProperSubsetSize(active.Keys, all);
    assert |active| == |active.Keys|;
  }

  lemma {:induction false} StalePhaseOther(settings: Settings, s: State, current: map<int, PortForward>, env: Env,
                                           order: seq<int>, stale: map<int, Record>, port: int)
    requires ByPort(current) && port !in current
    ensures SameAt(port, stale, StalePhase(settings, s, current, env, order, stale))
  {
    if order != [] {
      StalePhaseOther(settings, s, current, env, Init(order), stale, port);
      StaleVisitOther(settings, AddPhase(settings, s, current, env, Init(order)), current, env, Last(order),
                      StalePhase(settings, s, current, env, Init(order), stale), port);
    }
  }

  predicate SameAt(port: int, a: map<int, Record>, b: map<int, Record>) {
    (port in a <==> port in b) && (port in a ==> a[port] == b[port])
  }

  lemma StaleVisitOther(settings: Settings, s: State, current: map<int, PortForward>, env: Env, visited: int,
                        stale: map<int, Record>, port: int)
    requires ByPort(current) && port !in current
    ensures SameAt(port, stale, StaleVisit(settings, s, current, env, visited, stale))
  {
  }

  ghost predicate Unscanned(events: seq<Event>, port: int, i: nat, j: nat)
    requires i <= j <= |events|
  {
    forall k :: i <= k < j ==> port !in Scanned(events[k])
  }

  /** A stale port that is not scanned again stays stale for ever, its record unchanged. */
  lemma {:induction false} StaleStays(settings: Settings, states: seq<State>, events: seq<Event>, port: int, i: nat,
                                      j: nat)
    requires i <= j <= |events| < |states| && Unscanned(events, port, i, j)
    requires port in Stale(settings, states, events, i)
    ensures port in Stale(settings, states, events, j)
    ensures Stale(settings, states, events, j)[port] == Stale(settings, states, events, i)[port]
  {
    if i < j {
      StaleStays(settings, states, events, port, i, j - 1);
      var e := events[j - 1];
      if e.scan.ScanOk? {
        CurrentByPort(e.scan.forwards);
        assert port !in Scanned(e);
        StalePhaseOther(settings, states[j - 1], Current(e.scan.forwards), e.env, e.addOrder,
            Stale(settings, states, events, j - 1), port);
      }
    }
  }

  /** Some visit of this add loop wrote the port's files and could not reload. */
  predicate WroteIn(settings: Settings, s: State, current: map<int, PortForward>, env: Env, order: seq<int>,
                    port: int) {
    order != [] &&
    (|| WroteIn(settings, s, current, env, Init(order), port)
     || (Last(order) == port && WroteAt(settings, AddPhase(settings, s, current, env, Init(order)), current, env,
         port)))
  }

  predicate WroteAt(settings: Settings, s: State, current: map<int, PortForward>, env: Env, port: int) {
    port in current && port !in s.active && Writes(settings, s) && !env.add(port).reload
  }

  /** The poll wrote the port's files and could not reload. */
  predicate Wrote(settings: Settings, s: State, e: Event, port: int) {
    e.scan.ScanOk? && WroteIn(settings, s, Current(e.scan.forwards), e.env, e.addOrder, port)
  }

  lemma StaleVisitCases(settings: Settings, s: State, current: map<int, PortForward>, env: Env, visited: int,
                        stale: map<int, Record>, port: int)
    requires ByPort(current)
    ensures var after := StaleVisit(settings, s, current, env, visited, stale);
      && (port in after ==> port in stale || (visited == port && WroteAt(settings, s, current, env, port)))
      && (visited == port && WroteAt(settings, s, current, env, port) ==> port in after)
      && (port in stale && port !in after ==>
            visited == port && port in current && port !in s.active && Writes(settings, s) && env.add(port).reload)
      && (visited != port ==> (port in after <==> port in stale))
  {
  }

  lemma {:induction false} StalePhaseOrigin(settings: Settings, s: State, current: map<int, PortForward>, env: Env,
                                            order: seq<int>, stale: map<int, Record>, port: int)
    requires ByPort(current) && port in StalePhase(settings, s, current, env, order, stale)
    ensures port in stale || WroteIn(settings, s, current, env, order, port)
  {
    if order != [] {
      var t := AddPhase(settings, s, current, env, Init(order));
      var before := StalePhase(settings, s, current, env, Init(order), stale);
      StaleVisitCases(settings, t, current, env, Last(order), before, port);
      if port in before {
        StalePhaseOrigin(settings, s, current, env, Init(order), stale, port);
      }
    }
  }

  lemma {:induction false} WroteIsStale(settings: Settings, s: State, current: map<int, PortForward>, env: Env,
                                        order: seq<int>, stale: map<int, Record>, port: int)
    requires ByPort(current) && NoDuplicates(order) && WroteIn(settings, s, current, env, order, port)
    ensures port in StalePhase(settings, s, current, env, order, stale) && port in order
  {
    var t := AddPhase(settings, s, current, env, Init(order));
    var before := StalePhase(settings, s, current, env, Init(order), stale);
    assert order == Init(order) + [Last(order)];
    StaleVisitCases(settings, t, current, env, Last(order), before, port);
    if WroteIn(settings, s, current, env, Init(order), port) {
      WroteIsStale(settings, s, current, env, Init(order), stale, port);
    }
  }

  lemma {:induction false} StaleUnlessAdded(settings: Settings, s: State, current: map<int, PortForward>, env: Env,
                                            order: seq<int>, stale: map<int, Record>, port: int)
    requires Inv(s) && ByPort(current) && port in stale && FilesWork(env, current.Keys - s.active.Keys, {})
    ensures port in StalePhase(settings, s, current, env, order, stale) ||
            (port in current && port in AddPhase(settings, s, current, env, order).active)
  {
    if order != [] {
      var front, visited := Init(order), Last(order);
      var t, before := AddPhase(settings, s, current, env, front), StalePhase(settings, s, current, env, front, stale);
      StaleUnlessAdded(settings, s, current, env, front, stale, port);
      AddPhaseInv(settings, s, current, env, front);
      AddPhaseKeys(settings, s, current, env, front);
      AddVisitKeys(settings, t, current, env, visited);
      StaleVisitCases(settings, t, current, env, visited, before, port);
      if port in before && port !in StaleVisit(settings, t, current, env, visited, before) {
        assert port in current.Keys - s.active.Keys;
        AddSucceeds(settings, t, current[port], env.add(port), env.bind(port));
      }
    }
  }

  /** One poll: a port is stale after it exactly if the poll wrote its files without reloading, or it was stale
      before and has not become active. */
  lemma StaleNextIff(settings: Settings, s: State, e: Event, stale: map<int, Record>, port: int)
    requires Inv(s) && Legal(settings, s, e) && PollFilesWork(s, e)
    requires StaleNext(settings, s, e, stale).Keys !! Next(settings, s, e).active.Keys
    ensures port in StaleNext(settings, s, e, stale) <==>
            Wrote(settings, s, e, port) || (port in stale && port !in Next(settings, s, e).active)
  {
    if e.scan.ScanOk? {
      var current := Current(e.scan.forwards);
      CurrentByPort(e.scan.forwards);
      PollActive(settings, s, e);
      if port in StaleNext(settings, s, e, stale) {
        StalePhaseOrigin(settings, s, current, e.env, e.addOrder, stale, port);
      }
      if Wrote(settings, s, e, port) {
        WroteIsStale(settings, s, current, e.env, e.addOrder, stale, port);
      }
      if port in stale {
        StaleUnlessAdded(settings, s, current, e.env, e.addOrder, stale, port);
      }
    }
  }

  ghost predicate WroteInPoll(settings: Settings, states: seq<State>, events: seq<Event>, k: nat, port: int)
    requires k < |events| < |states|
  {
    Wrote(settings, states[k], events[k], port)
  }

  ghost predicate InactiveSince(states: seq<State>, port: int, k: nat, i: nat)
    requires i < |states|
  {
    forall j :: k < j <= i ==> port !in states[j].active
  }

  lemma PollStaleIff(settings: Settings, states: seq<State>, events: seq<Event>, i: nat, port: int)
    requires Run(settings, states, events) && i < |events| && StateFiles(states[0].dir.files) == map[]
    requires forall k :: 0 <= k < i + 1 ==> FilesWorkAt(states, events, k)
    ensures port in Stale(settings, states, events, i + 1) <==>
            || WroteInPoll(settings, states, events, i, port)
            || (port in Stale(settings, states, events, i) && port !in states[i + 1].active)
    ensures port in Stale(settings, states, events, i + 1) ==> port !in states[i + 1].active
  {
    assert PolledAt(settings, states, events, i) && FilesWorkAt(states, events, i);
    RunInv(settings, states, events, i);
    RunStale(settings, states, events, i + 1, false);
    StaleNextIff(settings, states[i], events[i], Stale(settings, states, events, i), port);
  }

  /** A port is stale exactly if some poll wrote its files and could not reload, and it has never been active since. */
  lemma {:induction false} StaleIff(settings: Settings, states: seq<State>, events: seq<Event>, i: nat, port: int)
    requires Run(settings, states, events) && i < |states| && StateFiles(states[0].dir.files) == map[]
    requires forall k :: 0 <= k < i ==> FilesWorkAt(states, events, k)
    ensures port in Stale(settings, states, events, i) <==>
            exists k :: 0 <= k < i && WroteInPoll(settings, states, events, k, port) &&
                InactiveSince(states, port, k, i)
  {
    if i > 0 {
      StaleIff(settings, states, events, i - 1, port);
      PollStaleIff(settings, states, events, i - 1, port);
      if port in Stale(settings, states, events, i) {
        if WroteInPoll(settings, states, events, i - 1, port) {
          assert InactiveSince(states, port, i - 1, i);
        } else {
          var k :| 0 <= k < i - 1 && WroteInPoll(settings, states, events, k, port) &&
              InactiveSince(states, port, k, i - 1);
          assert InactiveSince(states, port, k, i);
        }
      }
      if k :| 0 <= k < i && WroteInPoll(settings, states, events, k, port) && InactiveSince(states, port, k, i) {
        if k < i - 1 {
          assert InactiveSince(states, port, k, i - 1);
        }
      }
    }
  }

  lemma StaleNextOrigin(settings: Settings, s: State, e: Event, stale: map<int, Record>, port: int)
    requires port in StaleNext(settings, s, e, stale) && port !in stale
    ensures port in Scanned(e) && !e.env.add(port).reload
  {
    CurrentByPort(e.scan.forwards);
    StalePhaseOrigin(settings, s, Current(e.scan.forwards), e.env, e.addOrder, stale, port);
    WroteUnreloaded(settings, s, Current(e.scan.forwards), e.env, e.addOrder, port);
  }

  lemma {:induction false} WroteUnreloaded(settings: Settings, s: State, current: map<int, PortForward>, env: Env,
                                           order: seq<int>, port: int)
    requires WroteIn(settings, s, current, env, order, port)
    ensures port in current && !env.add(port).reload
  {
    if WroteIn(settings, s, current, env, Init(order), port) {
      WroteUnreloaded(settings, s, current, env, Init(order), port);
    }
  }

  /* Shutdown */

  /** Shutdown with working file operations leaves exactly the stale records in the hosts file, so the file ends
      empty if and only if nothing is stale; a leftover from before counts only if nothing was ever served. */
  lemma CleanupLeavesStaleLines(s: State, stale: map<int, Record>, env: Env, order: seq<int>, synced: bool)
    requires Inv(s) && StaleInv(s, stale, synced) && Enumerates(order, s.active.Keys) &&
             FilesWork(env, {}, s.active.Keys)
    requires synced || s.active != map[] || stale != map[]
    ensures var t := Cleanup(s, env, order);
      && Represents(t.dir, stale) && ReadsBackAs(t.dir, stale)
      && (HostsBytes(t.dir) == "" <==> stale == map[])
  {
    var t := Cleanup(s, env, order);
    CleanupActive(s, env, order);
    CleanupKeepsStaleInv(s, stale, env, order);
    StaleOnly(t, stale);
    HostsReadBack(t.dir, stale);
    EmptyIffNothing(t.dir, stale);
  }

  lemma CleanupKeepsStaleInv(s: State, stale: map<int, Record>, env: Env, order: seq<int>)
    requires Inv(s) && StaleInv(s, stale, true) && FilesWork(env, {}, s.active.Keys)
    ensures StaleInv(Cleanup(s, env, order), stale, true)
  {
    var none: map<int, PortForward> := map[];
    FewerRemoves(env, s.active.Keys, s.active.Keys - none.Keys);
    RemovePhaseStale(s, none, env, order, stale, true);
  }

  lemma StaleOnly(s: State, stale: map<int, Record>)
    requires StaleInv(s, stale, true) && s.active == map[]
    ensures Represents(s.dir, stale) && InSync(s.dir)
  {
    assert Served(s.active, stale) == stale;
  }

  lemma EmptyIffNothing(d: Dir, m: map<int, Record>)
    requires Represents(d, m) && InSync(d) && ReadsBackAs(d, m)
    ensures HostsBytes(d) == "" <==> m == map[]
  {
    if m == map[] {
      NothingServed(d, m);
    } else if HostsBytes(d) == "" {
      NoLinesReadBack(d);
      SameCount(d, m, map[]);
      var port := SomeKey(m);
    }
  }

  /** Over whole runs: whatever reloads failed, shutdown leaves exactly the stale records, and the hosts file ends
      empty if and only if nothing is stale, which is so in particular if no reload failed. */
  lemma ShutdownLeavesStale(settings: Settings, states: seq<State>, events: seq<Event>, env: Env, order: seq<int>)
    requires Run(settings, states, events) && Enumerates(order, Last(states).active.Keys)
    requires FilesWork(env, {}, Last(states).active.Keys)
    requires forall k :: 0 <= k < |events| ==> FilesWorkAt(states, events, k)
    requires StateFiles(states[0].dir.files) == map[]
    requires var stale := Stale(settings, states, events, |events|);
      HostsBytes(states[0].dir) == "" || Last(states).active != map[] || stale != map[]
    ensures var t, stale := Cleanup(Last(states), env, order), Stale(settings, states, events, |events|);
      && Represents(t.dir, stale) && ReadsBackAs(t.dir, stale)
      && (HostsBytes(t.dir) == "" <==> stale == map[])
  {
    RunStale(settings, states, events, |events|, HostsBytes(states[0].dir) == "");
    RunInv(settings, states, events, |events|);
    CleanupLeavesStaleLines(Last(states), Stale(settings, states, events, |events|), env, order,
        HostsBytes(states[0].dir) == "");
  }

  /* Reuse of the address */

  /** The next add that succeeds takes the address of a failed one, and the hosts file then has two lines for it: the
      new port's and that of a port that is not active. */
  lemma StaleAddressReused(settings: Settings, s: State, pf: PortForward, o: Outcome, bind: bool, next: PortForward,
                           o': Outcome, bind': bool)
    requires Inv(s) && pf.port !in s.active && next.port !in s.active && pf.port != next.port && Writes(settings, s)
    requires FilesOk(o) && !o.reload && FilesOk(o') && o'.reload
    ensures var t, d := AddStep(settings, s, pf, o, bind), FirstFree(s.used, 1);
      var u, r, r' := AddStep(settings, t, next, o', bind'), RecordFor(settings, s, pf), RecordFor(settings, s, next);
      && pf.port !in u.active && next.port in u.active && u.active[next.port].ip == Loopback(d)
      && r.ip == r'.ip == Show(Loopback(d)) == u.active[next.port].entry.ip
      && StateLine(r.name, r.ip) in Split('\n', HostsBytes(u.dir))
      && StateLine(r'.name, r'.ip) in Split('\n', HostsBytes(u.dir))
  {
    var t := AddStep(settings, s, pf, o, bind);
    var r := AddWritesLine(settings, s, pf, o, bind);
    AddKeepsInv(settings, s, pf, o, bind);
    AddSucceeds(settings, t, next, o', bind');
    var u, r' := AddStep(settings, t, next, o', bind'), RecordFor(settings, s, next);
    ConfNames(pf.port, next.port);
    ServedLine(StateFiles(u.dir.files), ConfName(pf.port), r);
    ServedLine(StateFiles(u.dir.files), ConfName(next.port), r');
  }
}
