/** Two forwards: exactly when their names differ in every reachable state, and a reachable clash. */
module DaemonPairs {
  import opened Text
  import opened Config
  import opened Forward
  import opened Domain
  import opened DaemonModel
  import opened DaemonNames
  import opened DaemonDistinct
  import opened DaemonWitness
  import opened DaemonFamilies

  /** The plain names differ or both fallbacks differ from them. */
  predicate PairRoom(n: Naming, a: PortForward, b: PortForward) {
    n.plain(a) == n.plain(b) ==> n.fallback(a) != n.plain(a) && n.fallback(b) != n.plain(b)
  }

  lemma PairNoClash(n: Naming, a: PortForward, b: PortForward)
    requires a.port != b.port && PairRoom(n, a, b)
    ensures NoClash(n, iset{a, b})
  {
    forall x, y, z | x in iset{a, b} && y in iset{a, b} && z in iset{a, b}
      ensures !Clash(n, iset{a, b}, x, y, z)
    {
      if Clash(n, iset{a, b}, x, y, z) {
        OnlyRival(n, a, b, x, y);
        assert false;
      }
    }
  }

  /** Of two forwards the other one would have to hold both names of the first. */
  lemma OnlyRival(n: Naming, a: PortForward, b: PortForward, x: PortForward, y: PortForward)
    requires a.port != b.port && x in iset{a, b} && y in iset{a, b} && Clash(n, iset{a, b}, x, y, y)
    ensures !PairRoom(n, a, b)
  {
  }

  /** Different plain names, or room for a suffix. */
  predicate PairOk(cfg: Config, a: PortForward, b: PortForward) {
    !SameLongName(cfg, a, b)
  }

  lemma PairRoomIff(cfg: Config, a: PortForward, b: PortForward)
    requires RealPorts(a) && RealPorts(b)
    ensures PairOk(cfg, a, b) <==> PairRoom(NamingOf(cfg), a, b)
  {
    LongFallback(cfg, a);
    LongFallback(cfg, b);
  }

  lemma OnlyOnPort(a: PortForward, b: PortForward)
    requires a.port != b.port
    ensures forall x :: x in iset{a, b} && x.port == a.port ==> x == a
  {
  }

  lemma LongPairShared(cfg: Config, a: PortForward, b: PortForward)
    requires RealPorts(a) && RealPorts(b) && a.port != b.port && !PairOk(cfg, a, b)
    ensures LongNamesShared(cfg, iset{a, b}, a.port, b.port)
  {
    OnlyOnPort(a, b);
    OnlyOnPort(b, a);
    assert iset{b, a} == iset{a, b};
  }

  lemma PairAlways(settings: Settings, n: Naming, states: seq<State>, events: seq<Event>, i: nat, a: PortForward,
                   b: PortForward)
    requires Run(settings, states, events) && i < |states| && Draws(events, iset{a, b})
    requires Names(n, settings.cfg) && PairRoom(n, a, b) && a.port != b.port
    ensures DistinctDomains(states[i].active)
  {
    PairNoClash(n, a, b);
    RunFamilyInv(settings, states, events, i, n, iset{a, b});
  }

  /** In any reachable state of a run over two forwards in which both are active, their domains differ if and only if
      their plain names do or leave room for a suffix. */
  lemma PairDistinctIff(settings: Settings, states: seq<State>, events: seq<Event>, i: nat, a: PortForward,
                        b: PortForward)
    requires Run(settings, states, events) && i < |states| && Draws(events, iset{a, b})
    requires RealPorts(a) && RealPorts(b) && a.port != b.port
    requires a.port in states[i].active && b.port in states[i].active
    ensures states[i].active[a.port].entry.domain != states[i].active[b.port].entry.domain <==>
            PairOk(settings.cfg, a, b)
  {
    if PairOk(settings.cfg, a, b) {
      NamingNames(settings.cfg);
      PairRoomIff(settings.cfg, a, b);
      PairAlways(settings, NamingOf(settings.cfg), states, events, i, a, b);
    } else {
      LongPairShared(settings.cfg, a, b);
      LongNamesClash(settings, states, events, i, iset{a, b}, a.port, b.port);
    }
  }

  lemma PairNamingIff(settings: Settings, n: Naming, a: PortForward, b: PortForward)
    requires Names(n, settings.cfg) && a.port != b.port
    requires n.plain(a) == n.plain(b) ==> (n.fallback(a) == n.plain(a) <==> n.fallback(b) == n.plain(b))
    ensures AlwaysDistinct(settings, iset{a, b}) <==> !TldOk(settings.cfg) || PairRoom(n, a, b)
  {
    if !TldOk(settings.cfg) {
      RejectedDistinct(settings, iset{a, b});
    } else if PairRoom(n, a, b) {
      forall states: seq<State>, events: seq<Event>, i: nat | Run(settings, states, events) &&
          Draws(events, iset{a, b}) && i < |states|
        ensures DistinctDomains(states[i].active)
      {
        PairAlways(settings, n, states, events, i, a, b);
      }
    } else {
      NamesOfTwo(n, a, b);
      RepeatReachable(settings, n, iset{a, b}, [a, b], 0, 1);
    }
  }

  /** Over all runs of any two forwards, domains are always distinct under the same condition. */
  lemma PairAlwaysDistinctIff(settings: Settings, a: PortForward, b: PortForward)
    requires RealPorts(a) && RealPorts(b) && a.port != b.port
    ensures AlwaysDistinct(settings, iset{a, b}) <==> !TldOk(settings.cfg) || PairOk(settings.cfg, a, b)
  {
    NamingNames(settings.cfg);
    PairRoomIff(settings.cfg, a, b);
    LongFallback(settings.cfg, a);
    LongFallback(settings.cfg, b);
    PairNamingIff(settings, NamingOf(settings.cfg), a, b);
  }

  /** A reachable clash: one poll of a new daemon scans ports 8080 and 8443, forwarded to port 80 of a host with a
      57-letter name, and both become active under one domain. */
  lemma TruncationClashReachable(settings: Settings, host: AsciiText, tool: string)
    returns (states: seq<State>, events: seq<Event>)
    requires TldOk(settings.cfg) && |host| == 57 && All(IsLowerAlnum, host)
    requires 8080 !in settings.cfg.overrides && 8443 !in settings.cfg.overrides
    ensures Run(settings, states, events) && |events| == 1
    ensures events[0].scan == ScanOk([PortForward(8080, host, 80, "", tool), PortForward(8443, host, 80, "", tool)])
    ensures 8080 in states[1].active && 8443 in states[1].active
    ensures states[1].active[8080].entry.domain == states[1].active[8443].entry.domain
  {
    var a, b := PortForward(8080, host, 80, "", tool), PortForward(8443, host, 80, "", tool);
    LongHost(host);
    assert !PairOk(settings.cfg, a, b);
    NamingNames(settings.cfg);
    states, events := ClashingPoll(settings, NamingOf(settings.cfg), a, b);
  }

  lemma ClashingPoll(settings: Settings, n: Naming, a: PortForward, b: PortForward)
    returns (states: seq<State>, events: seq<Event>)
    requires TldOk(settings.cfg) && Names(n, settings.cfg) && RealPorts(a) && RealPorts(b) && a.port != b.port &&
             !PairOk(settings.cfg, a, b)
    ensures Run(settings, states, events) && |events| == 1 && events[0].scan == ScanOk([a, b])
    ensures a.port in states[1].active && b.port in states[1].active
    ensures states[1].active[a.port].entry.domain == states[1].active[b.port].entry.domain
  {
    var forwards := [a, b];
    states, events := FirstPoll(settings, n, forwards);
    assert forwards[0].port in states[1].active && forwards[1].port in states[1].active;
    ScanDraws(events, forwards, iset{a, b});
    PairDistinctIff(settings, states, events, 1, a, b);
  }
}
