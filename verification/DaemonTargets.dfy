/** Closed forms of the condition for distinct names: families of well-behaved fallbacks, and forwards to one target. */
module DaemonTargets {
  import opened Text
  import opened NameOrder
  import opened Config
  import opened Forward
  import opened Domain
  import opened DaemonModel
  import opened DaemonRuns
  import opened DaemonNames
  import opened DaemonConvergence
  import opened DaemonDistinct
  import opened DaemonWitness
  import opened DaemonFamilies
  import opened DaemonCutoff

  /* Families in which fallbacks stay with their plain names */

  /** No fallback is the plain name of a forward that does not share the plain name it falls back from. */
  ghost predicate Flat(n: Naming, family: iset<PortForward>) {
    forall f, g :: f in family && g in family && f.port != g.port && n.fallback(f) == n.plain(g) ==>
      n.plain(f) == n.plain(g)
  }

  /** Another forward on a third port shares the plain name of f. */
  ghost predicate IsTwin(n: Naming, family: iset<PortForward>, f: PortForward, other: PortForward, twin: PortForward) {
    twin in family && twin.port != f.port && twin.port != other.port && n.plain(twin) == n.plain(f)
  }

  /** Another forward shares the plain name of f, so that f can get its fallback. */
  ghost predicate IsRival(n: Naming, family: iset<PortForward>, f: PortForward, rival: PortForward) {
    rival in family && rival.port != f.port && n.plain(rival) == n.plain(f)
  }

  /** Two forwards share a plain name too long for a suffix, or have equal fallbacks that both can get at once. */
  ghost predicate FlatClash(n: Naming, family: iset<PortForward>, a: PortForward, c: PortForward) {
    && a.port != c.port
    && (|| (n.plain(a) == n.plain(c) == n.fallback(a))
        || (&& n.fallback(a) == n.fallback(c)
            && (exists b :: IsTwin(n, family, a, c, b)) && (exists z :: IsRival(n, family, c, z))))
  }

  ghost predicate NoFlatClash(n: Naming, family: iset<PortForward>) {
    forall a, c :: a in family && c in family ==> !FlatClash(n, family, a, c)
  }

  lemma FlatPlain(n: Naming, family: iset<PortForward>, f: PortForward, a: PortForward)
    requires Flat(n, family) && f in family && a in family && f.port != a.port && CanBe(n, f, n.plain(a))
    ensures n.plain(f) == n.plain(a)
  {
  }

  lemma FlatNoClash(n: Naming, family: iset<PortForward>)
    requires Flat(n, family) && NoFlatClash(n, family)
    ensures NoClash(n, family)
  {
    forall a, b, c | a in family && b in family && c in family
      ensures !Clash(n, family, a, b, c)
    {
      if Clash(n, family, a, b, c) {
        ClashIsFlat(n, family, a, b, c);
        assert false;
      }
    }
  }

  lemma ClashIsFlat(n: Naming, family: iset<PortForward>, a: PortForward, b: PortForward, c: PortForward)
    requires Flat(n, family) && a in family && b in family && c in family && Clash(n, family, a, b, c)
    ensures FlatClash(n, family, a, b) || FlatClash(n, family, a, c)
  {
    FlatPlain(n, family, b, a);
    if b.port != c.port && n.fallback(a) != n.plain(c) {
      var z :| z in family && z.port != c.port && CanBe(n, z, n.plain(c));
      FlatPlain(n, family, z, c);
      assert IsTwin(n, family, a, c, b);
      assert IsRival(n, family, c, z);
    }
  }

  /** The rival makes c take its fallback and leaves; the twin then makes a take the same one. */
  lemma FlatClashDerived(n: Naming, family: iset<PortForward>, a: PortForward, c: PortForward)
    requires Flat(n, family) && a in family && c in family && FlatClash(n, family, a, c)
    ensures Derivable(n, family)
  {
    if n.plain(a) == n.plain(c) == n.fallback(a) {
      assert Alone(n, family, c, n.plain(a), 0);
      assert ClashIn(n, family, a, 0);
    } else {
      var b :| IsTwin(n, family, a, c, b);
      var z :| IsRival(n, family, c, z);
      assert Alone(n, family, z, n.plain(c), 0);
      assert Alone(n, family, c, n.fallback(c), 1);
      assert Joins(n, family, b, n.plain(a), c, n.fallback(a), 1);
      assert ClashIn(n, family, a, 1);
    }
  }

  /** Over all runs drawing on such a family, truncation included, domains are always distinct if and only if no two
      of its forwards clash. */
  lemma FlatDistinctIff(settings: Settings, family: iset<PortForward>)
    requires Flat(NamingOf(settings.cfg), family)
    ensures AlwaysDistinct(settings, family) <==> !TldOk(settings.cfg) || NoFlatClash(NamingOf(settings.cfg), family)
  {
    NamingNames(settings.cfg);
    FlatNamingIff(settings, NamingOf(settings.cfg), family);
  }

  lemma FlatNamingIff(settings: Settings, n: Naming, family: iset<PortForward>)
    requires Names(n, settings.cfg) && Flat(n, family)
    ensures AlwaysDistinct(settings, family) <==> !TldOk(settings.cfg) || NoFlatClash(n, family)
  {
    if !TldOk(settings.cfg) {
      RejectedDistinct(settings, family);
    } else if NoFlatClash(n, family) {
      FlatNoClash(n, family);
      NoClashAlways(settings, n, family);
    } else {
      var a, c :| a in family && c in family && FlatClash(n, family, a, c);
      FlatClashDerived(n, family, a, c);
      AlwaysDistinctNamingIff(settings, n, family);
    }
  }

  lemma NoClashAlways(settings: Settings, n: Naming, family: iset<PortForward>)
    requires Names(n, settings.cfg) && NoClash(n, family)
    ensures AlwaysDistinct(settings, family)
  {
    forall states: seq<State>, events: seq<Event>, i: nat | Run(settings, states, events) && Draws(events, family) &&
        i < |states|
      ensures DistinctDomains(states[i].active)
    {
      RunFamilyInv(settings, states, events, i, n, family);
    }
  }

  /** Untruncated names make a family flat: a fallback ends in a number, a plain name in a service label. */
  lemma UntruncatedFallback(cfg: Config, f: PortForward, g: PortForward)
    requires RealPorts(f) && RealPorts(g)
    requires |Dashed(SuffixedText(BaseIdentifier(f, cfg), f.remotePort, f.port))| <= LABEL_MAX
    requires |Dashed(PlainText(BaseIdentifier(g, cfg), g.remotePort))| <= LABEL_MAX
    ensures FallbackLabel(f, cfg) != PlainLabel(g, cfg)
  {
    FallbackEnd(BaseIdentifier(f, cfg), f.remotePort, f.port);
    PlainEnd(BaseIdentifier(g, cfg), g.remotePort);
  }

  lemma FallbackEnd(base: AsciiText, remotePort: int, port: int)
    requires remotePort >= 0 && port >= 0 && |Dashed(SuffixedText(base, remotePort, port))| <= LABEL_MAX
    ensures var words := Runs(IsAlnum, Label(SuffixedText(base, remotePort, port)));
            words != [] && !StartsWithLetter(Last(words))
  {
    ShortLabelWords(SuffixedText(base, remotePort, port));
    SuffixedWords(base, remotePort, port);
    DigitsCanonical(port);
    assert IsDigit(Itoa(port)[0]);
  }

  lemma PlainEnd(base: AsciiText, remotePort: int)
    requires remotePort >= 0 && |Dashed(PlainText(base, remotePort))| <= LABEL_MAX
    ensures var words := Runs(IsAlnum, Label(PlainText(base, remotePort))); words != [] && StartsWithLetter(Last(words))
  {
    ShortLabelWords(PlainText(base, remotePort));
    PlainWords(base, remotePort);
    ServiceLabelShape(remotePort);
  }

  /* Forwards to one target */

  ghost function Members(forwards: seq<PortForward>): iset<PortForward> {
    iset f | f in forwards
  }

  predicate Targets(cfg: Config, f: PortForward, base: AsciiText, remotePort: int) {
    RealPorts(f) && f.remotePort == remotePort && BaseIdentifier(f, cfg) == base
  }

  predicate AllTarget(cfg: Config, forwards: seq<PortForward>, base: AsciiText, remotePort: int) {
    forall f :: f in forwards ==> Targets(cfg, f, base, remotePort)
  }

  lemma TargetAt(cfg: Config, forwards: seq<PortForward>, base: AsciiText, remotePort: int, i: nat)
    requires AllTarget(cfg, forwards, base, remotePort) && i < |forwards|
    ensures Targets(cfg, forwards[i], base, remotePort)
  {
    assert forwards[i] in forwards;
  }

  lemma TargetFlat(n: Naming, forwards: seq<PortForward>, name: string)
    requires DistinctPorts(forwards) && forall i :: 0 <= i < |forwards| ==> n.plain(forwards[i]) == name
    ensures Flat(n, Members(forwards))
  {
  }

  lemma ThirdForward(n: Naming, forwards: seq<PortForward>, name: string, i: nat, j: nat)
    requires i < |forwards| && j < |forwards| && i != j && DistinctPorts(forwards)
    requires forall k :: 0 <= k < |forwards| ==> n.plain(forwards[k]) == name
    ensures (exists b :: IsTwin(n, Members(forwards), forwards[i], forwards[j], b)) <==> |forwards| >= 3
  {
    if |forwards| >= 3 {
      var k := if i != 0 && j != 0 then 0 else if i != 1 && j != 1 then 1 else 2;
      assert IsTwin(n, Members(forwards), forwards[i], forwards[j], forwards[k]);
    } else {
      forall b
        ensures !IsTwin(n, Members(forwards), forwards[i], forwards[j], b)
      {
        assert b in forwards ==> b == forwards[i] || b == forwards[j];
      }
    }
  }

  lemma TargetClashIff(n: Naming, forwards: seq<PortForward>, name: string, i: nat, j: nat)
    requires i < |forwards| && j < |forwards| && i != j && DistinctPorts(forwards)
    requires forall k :: 0 <= k < |forwards| ==> n.plain(forwards[k]) == name
    ensures FlatClash(n, Members(forwards), forwards[i], forwards[j]) <==>
            || n.fallback(forwards[i]) == name
            || (|forwards| >= 3 && n.fallback(forwards[i]) == n.fallback(forwards[j]))
  {
    ThirdForward(n, forwards, name, i, j);
    assert IsRival(n, Members(forwards), forwards[j], forwards[i]);
  }

  /** The names of forwards to one target, as far as clashes go: too long for a suffix, or told apart by the digits
      kept. */
  ghost predicate TargetNames(n: Naming, forwards: seq<PortForward>, name: string, long: bool, kept: seq<string>) {
    && |kept| == |forwards|
    && (forall i :: 0 <= i < |forwards| ==> n.plain(forwards[i]) == name && (n.fallback(forwards[i]) == name <==> long))
    && (!long ==> forall i, j :: 0 <= i < |forwards| && 0 <= j < |forwards| ==>
          (n.fallback(forwards[i]) == n.fallback(forwards[j]) <==> kept[i] == kept[j]))
  }

  lemma TargetNoClashIff(n: Naming, forwards: seq<PortForward>, name: string, long: bool, kept: seq<string>)
    requires |forwards| >= 2 && DistinctPorts(forwards) && TargetNames(n, forwards, name, long, kept)
    ensures NoFlatClash(n, Members(forwards)) <==> !long && (|forwards| >= 3 ==> NoDuplicates(kept))
  {
    var clash := (a, c) => FlatClash(n, Members(forwards), a, c);
    forall i: nat, j: nat | i < |forwards| && j < |forwards| && i != j
      ensures clash(forwards[i], forwards[j]) <==> long || (|forwards| >= 3 && kept[i] == kept[j])
    {
      TargetClashIff(n, forwards, name, i, j);
    }
    NoClashByIndex(clash, forwards, kept, long);
    ClashOfMembers(clash, n, forwards);
  }

  lemma ClashOfMembers(clash: (PortForward, PortForward) -> bool, n: Naming, forwards: seq<PortForward>)
    requires forall a, c :: clash(a, c) <==> FlatClash(n, Members(forwards), a, c)
    ensures NoFlatClash(n, Members(forwards)) <==> forall x, y :: x in forwards && y in forwards ==> !clash(x, y)
  {
  }

  lemma OneTargetTargetNames(cfg: Config, forwards: seq<PortForward>, base: AsciiText, remotePort: int)
    requires AllTarget(cfg, forwards, base, remotePort)
    ensures var len := |Dashed(PlainText(base, remotePort))|;
      TargetNames(NamingOf(cfg), forwards, Label(PlainText(base, remotePort)), len > LABEL_MAX - 2,
          AllKeptDigits(len, LocalPorts(forwards)))
  {
    forall i | 0 <= i < |forwards|
      ensures PlainLabel(forwards[i], cfg) == Label(PlainText(base, remotePort))
      ensures FallbackLabel(forwards[i], cfg) == Label(PlainText(base, remotePort)) <==>
              |Dashed(PlainText(base, remotePort))| > LABEL_MAX - 2
    {
      TargetAt(cfg, forwards, base, remotePort, i);
      FallbackDiffersIff(base, remotePort, forwards[i].port);
    }
    forall i, j | 0 <= i < |forwards| && 0 <= j < |forwards| && |Dashed(PlainText(base, remotePort))| <= LABEL_MAX - 2
      ensures var len := |Dashed(PlainText(base, remotePort))|;
        FallbackLabel(forwards[i], cfg) == FallbackLabel(forwards[j], cfg) <==>
        KeptDigits(len, forwards[i].port) == KeptDigits(len, forwards[j].port)
    {
      TargetAt(cfg, forwards, base, remotePort, i);
      TargetAt(cfg, forwards, base, remotePort, j);
      SuffixedEqualIff(base, remotePort, forwards[i].port, forwards[j].port);
    }
  }

  /** Over all runs drawing on forwards to one target, domains are always distinct if and only if the plain name
      leaves room for a suffix and, from three forwards on, the digits that fit tell all ports apart. */
  lemma OneTargetDistinctIff(settings: Settings, forwards: seq<PortForward>, base: AsciiText, remotePort: int)
    requires |forwards| >= 2 && DistinctPorts(forwards)
    requires AllTarget(settings.cfg, forwards, base, remotePort)
    ensures var len := |Dashed(PlainText(base, remotePort))|;
      AlwaysDistinct(settings, Members(forwards)) <==>
      || !TldOk(settings.cfg)
      || (len <= LABEL_MAX - 2 && (|forwards| >= 3 ==> NoDuplicates(AllKeptDigits(len, LocalPorts(forwards)))))
  {
    var name, len := Label(PlainText(base, remotePort)), |Dashed(PlainText(base, remotePort))|;
    NamingNames(settings.cfg);
    OneTargetTargetNames(settings.cfg, forwards, base, remotePort);
    TargetDistinctIff(settings, NamingOf(settings.cfg), forwards, name, len > LABEL_MAX - 2,
        AllKeptDigits(len, LocalPorts(forwards)));
  }

  lemma TargetDistinctIff(settings: Settings, n: Naming, forwards: seq<PortForward>, name: string, long: bool,
                          kept: seq<string>)
    requires Names(n, settings.cfg) && |forwards| >= 2 && DistinctPorts(forwards) &&
             TargetNames(n, forwards, name, long, kept)
    ensures AlwaysDistinct(settings, Members(forwards)) <==>
            !TldOk(settings.cfg) || (!long && (|forwards| >= 3 ==> NoDuplicates(kept)))
  {
    TargetFlat(n, forwards, name);
    FlatNamingIff(settings, n, Members(forwards));
    TargetNoClashIff(n, forwards, name, long, kept);
  }

  lemma NoClashByIndex<T(!new)>(clash: (T, T) -> bool, items: seq<T>, kept: seq<string>, long: bool)
    requires |items| >= 2 && |kept| == |items| && forall x :: !clash(x, x)
    requires forall i: nat, j: nat :: i < |items| && j < |items| && i != j ==>
               (clash(items[i], items[j]) <==> long || (|items| >= 3 && kept[i] == kept[j]))
    ensures (forall x, y :: x in items && y in items ==> !clash(x, y)) <==>
            !long && (|items| >= 3 ==> NoDuplicates(kept))
  {
    if x, y :| x in items && y in items && clash(x, y) {
      var i: nat :| i < |items| && items[i] == x;
      var j: nat :| j < |items| && items[j] == y;
      assert i != j;
      assert long || (|items| >= 3 && kept[i] == kept[j]);
    } else {
      assert !clash(items[0], items[1]);
      forall i: nat, j: nat | i < j < |items| && |items| >= 3
        ensures kept[i] != kept[j]
      {
        assert !clash(items[i], items[j]);
      }
    }
  }

  /** The first poll of any run, if it scans forwards to one target and its adds succeed, gives distinct domains if
      and only if a suffix fits and the digits that fit tell the ports after the first added apart. */
  lemma FirstPollDistinctIff(settings: Settings, states: seq<State>, events: seq<Event>, base: AsciiText,
                             remotePort: int)
    requires Run(settings, states, events) && |events| >= 1 && WorksAt(settings, events, 0) &&
             2 <= |events[0].addOrder| <= POOL_SIZE
    requires forall p :: p in Current(events[0].scan.forwards) ==>
               Targets(settings.cfg, Current(events[0].scan.forwards)[p], base, remotePort)
    ensures DistinctDomains(states[1].active) <==>
            RoomForSuffixes(|Dashed(PlainText(base, remotePort))|, events[0].addOrder)
  {
    assert PolledAt(settings, states, events, 0);
    var forwards := ForwardsInOrder(settings.cfg, events[0], base, remotePort);
    NamingNames(settings.cfg);
    FirstPollDistinct(settings, NamingOf(settings.cfg), states, events, forwards);
    TargetNamesDistinctIff(settings.cfg, forwards, base, remotePort);
  }

  lemma ForwardsInOrder(cfg: Config, e: Event, base: AsciiText, remotePort: int) returns (forwards: seq<PortForward>)
    requires e.scan.ScanOk? && Enumerates(e.addOrder, Current(e.scan.forwards).Keys)
    requires forall p :: p in Current(e.scan.forwards) ==> Targets(cfg, Current(e.scan.forwards)[p], base, remotePort)
    ensures |forwards| == |e.addOrder| && LocalPorts(forwards) == e.addOrder &&
            AllTarget(cfg, forwards, base, remotePort)
    ensures forall i :: 0 <= i < |forwards| ==>
              forwards[i].port in Current(e.scan.forwards) && Current(e.scan.forwards)[forwards[i].port] == forwards[i]
  {
    CurrentByPort(e.scan.forwards);
    forwards := InOrder(Current(e.scan.forwards), e.addOrder);
    InOrderPorts(Current(e.scan.forwards), e.addOrder);
  }

  lemma InOrderPorts(current: map<int, PortForward>, order: seq<int>)
    requires ByPort(current) && forall i :: 0 <= i < |order| ==> order[i] in current
    ensures LocalPorts(InOrder(current, order)) == order
  {
    var ports := LocalPorts(InOrder(current, order));
    forall i | 0 <= i < |order|
      ensures ports[i] == order[i]
    {
      assert order[i] in current;
    }
  }

  lemma TargetNamesDistinctIff(cfg: Config, forwards: seq<PortForward>, base: AsciiText, remotePort: int)
    requires |forwards| >= 2 && AllTarget(cfg, forwards, base, remotePort)
    ensures NoDuplicates(NamesInOrder(NamingOf(cfg), forwards)) <==>
            RoomForSuffixes(|Dashed(PlainText(base, remotePort))|, LocalPorts(forwards))
  {
    forall k | 0 <= k < |forwards|
      ensures BaseIdentifier(forwards[k], cfg) == base && forwards[k].remotePort == remotePort
      ensures LocalPorts(forwards)[k] >= 0 && remotePort >= 0
    {
      TargetAt(cfg, forwards, base, remotePort, k);
    }
    TargetAt(cfg, forwards, base, remotePort, 0);
    OneTargetNames(cfg, forwards, base, remotePort);
    SameTargetDistinctIff(base, remotePort, LocalPorts(forwards));
  }

  lemma FirstPollDistinct(settings: Settings, n: Naming, states: seq<State>, events: seq<Event>,
                          forwards: seq<PortForward>)
    requires Names(n, settings.cfg) && Run(settings, states, events) && |events| >= 1 && WorksAt(settings, events, 0)
    requires |forwards| <= POOL_SIZE && LocalPorts(forwards) == events[0].addOrder
    requires forall i :: 0 <= i < |forwards| ==>
               forwards[i].port in Current(events[0].scan.forwards) &&
                   Current(events[0].scan.forwards)[forwards[i].port] == forwards[i]
    ensures DistinctDomains(states[1].active) <==> NoDuplicates(NamesInOrder(n, forwards))
  {
    FirstPollNames(settings, n, states, events, forwards);
    RunLabelled(settings, states, events, 1);
    LabelsDistinct(settings.cfg.tld, states[1].active, forwards, NamesInOrder(n, forwards));
  }

  lemma FirstPollNames(settings: Settings, n: Naming, states: seq<State>, events: seq<Event>,
                       forwards: seq<PortForward>)
    requires Names(n, settings.cfg) && Run(settings, states, events) && |events| >= 1 && WorksAt(settings, events, 0)
    requires |forwards| <= POOL_SIZE && LocalPorts(forwards) == events[0].addOrder
    requires forall i :: 0 <= i < |forwards| ==>
               forwards[i].port in Current(events[0].scan.forwards) &&
                   Current(events[0].scan.forwards)[forwards[i].port] == forwards[i]
    ensures DistinctPorts(forwards)
    ensures LabelledAs(settings.cfg.tld, states[1].active, forwards, NamesInOrder(n, forwards))
  {
    assert PolledAt(settings, states, events, 0);
    RunInv(settings, states, events, 0);
    PortsOfOrder(forwards, events[0].addOrder);
    NextNames(settings, n, states[0], events[0], forwards);
  }

  lemma PortsOfOrder(forwards: seq<PortForward>, order: seq<int>)
    requires LocalPorts(forwards) == order && NoDuplicates(order)
    ensures DistinctPorts(forwards)
  {
    assert forall i :: 0 <= i < |forwards| ==> forwards[i].port == order[i];
  }

  lemma NextNames(settings: Settings, n: Naming, s: State, e: Event, forwards: seq<PortForward>)
    requires Names(n, settings.cfg) && Inv(s) && s.active == map[] && Legal(settings, s, e)
    requires e.scan.ScanOk? && DnsWorks(settings, e.env, Scanned(e))
    requires |forwards| <= POOL_SIZE && DistinctPorts(forwards) && LocalPorts(forwards) == e.addOrder
    requires forall i :: 0 <= i < |forwards| ==>
               forwards[i].port in Current(e.scan.forwards) && Current(e.scan.forwards)[forwards[i].port] == forwards[i]
    ensures LabelledAs(settings.cfg.tld, Next(settings, s, e).active, forwards, NamesInOrder(n, forwards))
  {
    CurrentByPort(e.scan.forwards);
    AddPhaseNames(settings, n, s, Current(e.scan.forwards), e.env, forwards);
    PollActive(settings, s, e);
    AllScanned(AfterAdds(settings, s, e).active, Current(e.scan.forwards), forwards);
  }

  function InOrder(current: map<int, PortForward>, order: seq<int>): (forwards: seq<PortForward>)
    requires forall i :: 0 <= i < |order| ==> order[i] in current
    ensures |forwards| == |order| && forall i :: 0 <= i < |order| ==> forwards[i] == current[order[i]]
  {
    seq(|order|, i requires 0 <= i < |order| => current[order[i]])
  }
}
