/** For every family of forwards: a run with equal domains exists exactly if one with three active forwards does. */
module DaemonCutoff {
  import opened Text
  import opened Forward
  import opened Domain
  import opened Dnsmasq
  import opened DaemonModel
  import opened DaemonRuns
  import opened DaemonNames
  import opened DaemonDistinct
  import opened DaemonWitness
  import opened DaemonFamilies

  /* Names that can be held, derived from the family alone in k steps */

  /** The forward can be the only active one and have this name: its plain name, or its fallback after another
      forward that had the plain name has left. */
  ghost predicate Alone(n: Naming, family: iset<PortForward>, f: PortForward, name: string, k: nat)
    decreases k
  {
    f in family &&
    (|| name == n.plain(f)
     || (k > 0 && name == n.fallback(f) && exists g: PortForward ::
         g.port != f.port && Alone(n, family, g, n.plain(f), k - 1)))
  }

  /** x can join y, which has the name v, and get the name u: its plain name if y does not have that; its fallback if
      y or a third forward, which then leaves, has it. */
  ghost predicate Joins(n: Naming, family: iset<PortForward>, x: PortForward, u: string, y: PortForward, v: string,
                        k: nat)
    decreases k, 0
  {
    && x in family && x.port != y.port && u != v
    && (|| (u == n.plain(x) && Alone(n, family, y, v, k))
        || (u == n.fallback(x) && v == n.plain(x) && Alone(n, family, y, v, k))
        || (k > 0 && u == n.fallback(x) &&
            exists g: PortForward :: g.port != x.port && g.port != y.port &&
                Both(n, family, g, n.plain(x), y, v, k - 1)))
  }

  /** Both can be active at once under these names. */
  ghost predicate Both(n: Naming, family: iset<PortForward>, x: PortForward, u: string, y: PortForward, v: string,
                       k: nat)
    decreases k, 1
  {
    Joins(n, family, x, u, y, v, k) || Joins(n, family, y, v, x, u, k)
  }

  /** One forward, or two, can have the plain name and the fallback of a. */
  ghost predicate ClashIn(n: Naming, family: iset<PortForward>, a: PortForward, k: nat) {
    a in family &&
    (|| (n.plain(a) == n.fallback(a) && exists f: PortForward :: f.port != a.port && Alone(n, family, f, n.plain(a), k))
     || (exists x: PortForward, y: PortForward ::
         x.port != a.port && y.port != a.port && Both(n, family, x, n.plain(a), y, n.fallback(a), k)))
  }

  ghost predicate Derivable(n: Naming, family: iset<PortForward>) {
    exists a, k: nat :: ClashIn(n, family, a, k)
  }

  lemma {:induction false} AloneMore(n: Naming, family: iset<PortForward>, f: PortForward, name: string, k: nat)
    requires Alone(n, family, f, name, k)
    ensures Alone(n, family, f, name, k + 1)
    decreases k
  {
    if name != n.plain(f) {
      var g: PortForward :| g.port != f.port && Alone(n, family, g, n.plain(f), k - 1);
      AloneMore(n, family, g, n.plain(f), k - 1);
    }
  }

  lemma {:induction false} JoinsMore(n: Naming, family: iset<PortForward>, x: PortForward, u: string, y: PortForward,
                                     v: string, k: nat)
    requires Joins(n, family, x, u, y, v, k)
    ensures Joins(n, family, x, u, y, v, k + 1)
    decreases k, 0
  {
    if Alone(n, family, y, v, k) {
      AloneMore(n, family, y, v, k);
    }
    if k > 0 && u == n.fallback(x) {
      if g: PortForward :| g.port != x.port && g.port != y.port && Both(n, family, g, n.plain(x), y, v, k - 1) {
        BothMore(n, family, g, n.plain(x), y, v, k - 1);
      }
    }
  }

  lemma {:induction false} BothMore(n: Naming, family: iset<PortForward>, x: PortForward, u: string, y: PortForward,
                                    v: string, k: nat)
    requires Both(n, family, x, u, y, v, k)
    ensures Both(n, family, x, u, y, v, k + 1)
    decreases k, 1
  {
    if Joins(n, family, x, u, y, v, k) {
      JoinsMore(n, family, x, u, y, v, k);
    } else {
      JoinsMore(n, family, y, v, x, u, k);
    }
  }

  /* What is derived is reached */

  lemma Swap(settings: Settings, family: iset<PortForward>, x: PortForward, u: string, y: PortForward, v: string)
    requires CanEndIn(settings, family, [x, y], [u, v])
    ensures CanEndIn(settings, family, [y, x], [v, u])
  {
    var states, events :| EndsIn(settings, family, states, events, [x, y], [u, v]);
    LabelledSwapped(settings.cfg.tld, Last(states).active, x, u, y, v);
    assert [x, y][0].port != [x, y][1].port && x in [x, y] && y in [x, y];
    assert EndsIn(settings, family, states, events, [y, x], [v, u]);
  }

  lemma LabelledSwapped(tld: string, active: map<int, ActiveEntry>, x: PortForward, u: string, y: PortForward,
                        v: string)
    requires LabelledAs(tld, active, [x, y], [u, v])
    ensures LabelledAs(tld, active, [y, x], [v, u])
  {
    assert LocalPorts([x, y]) == [x.port, y.port] && LocalPorts([y, x]) == [y.port, x.port];
    assert [x, y][0] == x && [x, y][1] == y && [u, v][0] == u && [u, v][1] == v;
  }

  lemma {:induction false} AloneReached(settings: Settings, n: Naming, family: iset<PortForward>, f: PortForward,
                                        name: string, k: nat)
    requires Names(n, settings.cfg) && TldOk(settings.cfg) && Alone(n, family, f, name, k)
    ensures CanEndIn(settings, family, [f], [name])
    decreases k
  {
    if name == n.plain(f) {
      CanBegin(settings, family);
      CanGrow(settings, n, family, [], [], f, [f], name);
      assert [] + [name] == [name];
    } else {
      var g: PortForward :| g.port != f.port && Alone(n, family, g, n.plain(f), k - 1);
      AloneReached(settings, n, family, g, n.plain(f), k - 1);
      LeavesFallback(settings, n, family, g, f);
    }
  }

  /** g, which has the plain name of f, makes f take its fallback and leaves. */
  lemma LeavesFallback(settings: Settings, n: Naming, family: iset<PortForward>, g: PortForward, f: PortForward)
    requires Names(n, settings.cfg) && TldOk(settings.cfg) && f in family && g.port != f.port
    requires CanEndIn(settings, family, [g], [n.plain(f)])
    ensures CanEndIn(settings, family, [f], [n.fallback(f)])
  {
    var x, y := n.plain(f), n.fallback(f);
    assert [x][0] == x;
    CanGrow(settings, n, family, [g], [x], f, [g, f], y);
    assert [x] + [y] == [x, y];
    CanShrink(settings, family, [g, f], [x, y]);
    assert [g, f][1..] == [f] && [x, y][1..] == [y];
  }

  lemma JoinsAlone(settings: Settings, n: Naming, family: iset<PortForward>, x: PortForward, u: string, y: PortForward,
                   v: string)
    requires Names(n, settings.cfg) && TldOk(settings.cfg) && x in family && x.port != y.port &&
             u == NextName(n, [v], x)
    requires CanEndIn(settings, family, [y], [v])
    ensures CanEndIn(settings, family, [y, x], [v, u])
  {
    CanGrow(settings, n, family, [y], [v], x, [y, x], u);
    assert [v] + [u] == [v, u];
  }

  lemma JoinsThird(settings: Settings, n: Naming, family: iset<PortForward>, g: PortForward, x: PortForward,
                   y: PortForward, v: string)
    requires Names(n, settings.cfg) && TldOk(settings.cfg) && x in family
    requires x.port != y.port && g.port != x.port && g.port != y.port
    requires CanEndIn(settings, family, [g, y], [n.plain(x), v])
    ensures CanEndIn(settings, family, [y, x], [v, n.fallback(x)])
  {
    var p, u := n.plain(x), n.fallback(x);
    assert [p, v][0] == p;
    CanGrow(settings, n, family, [g, y], [p, v], x, [g, y, x], u);
    assert [p, v] + [u] == [p, v, u];
    CanShrink(settings, family, [g, y, x], [p, v, u]);
    assert [g, y, x][1..] == [y, x] && [p, v, u][1..] == [v, u];
  }

  lemma {:induction false} JoinsReached(settings: Settings, n: Naming, family: iset<PortForward>,
                                        x: PortForward, u: string, y: PortForward, v: string, k: nat)
    requires Names(n, settings.cfg) && TldOk(settings.cfg) && Joins(n, family, x, u, y, v, k)
    ensures CanEndIn(settings, family, [y, x], [v, u])
    decreases k, 0
  {
    if Alone(n, family, y, v, k) && u == NextName(n, [v], x) {
      AloneReached(settings, n, family, y, v, k);
      JoinsAlone(settings, n, family, x, u, y, v);
    } else {
      assert u == n.plain(x) ==> u == NextName(n, [v], x);
      assert v == n.plain(x) ==> n.fallback(x) == NextName(n, [v], x);
      var g: PortForward :| g.port != x.port && g.port != y.port && Both(n, family, g, n.plain(x), y, v, k - 1);
      BothReached(settings, n, family, g, n.plain(x), y, v, k - 1);
      JoinsThird(settings, n, family, g, x, y, v);
    }
  }

  lemma {:induction false} BothReached(settings: Settings, n: Naming, family: iset<PortForward>,
                                       x: PortForward, u: string, y: PortForward, v: string, k: nat)
    requires Names(n, settings.cfg) && TldOk(settings.cfg) && Both(n, family, x, u, y, v, k)
    ensures CanEndIn(settings, family, [x, y], [u, v])
    decreases k, 1
  {
    if Joins(n, family, x, u, y, v, k) {
      JoinsReached(settings, n, family, x, u, y, v, k);
      Swap(settings, family, y, v, x, u);
    } else {
      JoinsReached(settings, n, family, y, v, x, u, k);
    }
  }

  lemma BothDiffer(n: Naming, family: iset<PortForward>, x: PortForward, u: string, y: PortForward, v: string, k: nat)
    requires Both(n, family, x, u, y, v, k)
    ensures x.port != y.port && u != v
  {
    if Joins(n, family, x, u, y, v, k) {
    } else {
      assert Joins(n, family, y, v, x, u, k);
    }
  }

  lemma BothClash(settings: Settings, n: Naming, family: iset<PortForward>, a: PortForward, x: PortForward,
                  y: PortForward)
    requires Names(n, settings.cfg) && TldOk(settings.cfg) && a in family
    requires x.port != a.port && y.port != a.port && x.port != y.port
    requires CanEndIn(settings, family, [x, y], [n.plain(a), n.fallback(a)])
    ensures !AlwaysDistinct(settings, family)
  {
    var p, q := n.plain(a), n.fallback(a);
    assert [p, q][0] == p;
    CanGrow(settings, n, family, [x, y], [p, q], a, [x, y, a], q);
    RepeatCanEnd(settings, family, [x, y, a], [p, q] + [q], 1, 2);
  }

  lemma ClashReached(settings: Settings, n: Naming, family: iset<PortForward>, a: PortForward, k: nat)
    requires Names(n, settings.cfg) && TldOk(settings.cfg) && ClashIn(n, family, a, k)
    ensures !AlwaysDistinct(settings, family)
  {
    var p, q := n.plain(a), n.fallback(a);
    if f: PortForward :| p == q && f.port != a.port && Alone(n, family, f, p, k) {
      AloneReached(settings, n, family, f, p, k);
      assert [p][0] == p;
      CanGrow(settings, n, family, [f], [p], a, [f, a], q);
      RepeatCanEnd(settings, family, [f, a], [p] + [q], 0, 1);
    } else {
      var x: PortForward, y: PortForward :| x.port != a.port && y.port != a.port && Both(n, family, x, p, y, q, k);
      BothReached(settings, n, family, x, p, y, q, k);
      BothDiffer(n, family, x, p, y, q, k);
      BothClash(settings, n, family, a, x, y);
    }
  }

  /* What is reached is derived */

  /** Each active entry, and each two of them, are derived, from one forward for each port. */
  ghost predicate Derived(n: Naming, family: iset<PortForward>, tld: string, active: map<int, ActiveEntry>,
                          origin: map<int, PortForward>, k: nat) {
    && (forall p :: p in active ==>
          p in origin && origin[p].port == p && Alone(n, family, origin[p], LabelOf(tld, active[p]), k))
    && (forall p, q :: p in active && q in active && p != q ==>
          Both(n, family, origin[p], LabelOf(tld, active[p]), origin[q], LabelOf(tld, active[q]), k))
  }

  lemma DerivedMore(n: Naming, family: iset<PortForward>, tld: string, active: map<int, ActiveEntry>,
                    origin: map<int, PortForward>, k: nat)
    requires Derived(n, family, tld, active, origin, k)
    ensures Derived(n, family, tld, active, origin, k + 1)
  {
    forall p | p in active
      ensures Alone(n, family, origin[p], LabelOf(tld, active[p]), k + 1)
    {
      AloneMore(n, family, origin[p], LabelOf(tld, active[p]), k);
    }
    forall p, q | p in active && q in active && p != q
      ensures Both(n, family, origin[p], LabelOf(tld, active[p]), origin[q], LabelOf(tld, active[q]), k + 1)
    {
      BothMore(n, family, origin[p], LabelOf(tld, active[p]), origin[q], LabelOf(tld, active[q]), k);
    }
  }

  /** The name a new forward gets is derived, alone and beside every active entry. */
  lemma NameDerived(n: Naming, family: iset<PortForward>, tld: string, active: map<int, ActiveEntry>,
                    origin: map<int, PortForward>, k: nat, f: PortForward, name: string, taken: set<string>)
    requires Derived(n, family, tld, active, origin, k) && f in family && f.port !in active && !Derivable(n, family)
    requires forall m :: m in taken <==> exists p :: p in active && LabelOf(tld, active[p]) == m
    requires name == if n.plain(f) in taken then n.fallback(f) else n.plain(f)
    ensures Alone(n, family, f, name, k + 1)
    ensures forall q :: q in active ==> Both(n, family, f, name, origin[q], LabelOf(tld, active[q]), k + 1)
  {
    DerivedMore(n, family, tld, active, origin, k);
    if n.plain(f) in taken {
      var p :| p in active && LabelOf(tld, active[p]) == n.plain(f);
      forall q | q in active
        ensures Joins(n, family, f, name, origin[q], LabelOf(tld, active[q]), k + 1)
      {
        assert !ClashIn(n, family, f, k);
      }
    } else {
      forall q | q in active
        ensures Joins(n, family, f, name, origin[q], LabelOf(tld, active[q]), k + 1)
      {
        assert LabelOf(tld, active[q]) in taken;
      }
    }
  }

  lemma DerivedPut(n: Naming, family: iset<PortForward>, tld: string, a: map<int, ActiveEntry>,
                   b: map<int, ActiveEntry>,
                   origin: map<int, PortForward>, k: nat, f: PortForward)
    requires Derived(n, family, tld, a, origin, k) && Keeps(a, b) && (b == a || b.Keys == a.Keys + {f.port}) &&
             f.port !in a
    requires f.port in b ==>
      && Alone(n, family, f, LabelOf(tld, b[f.port]), k)
      && forall q :: q in a ==> Both(n, family, f, LabelOf(tld, b[f.port]), origin[q], LabelOf(tld, a[q]), k)
    ensures Derived(n, family, tld, b, origin[f.port := f], k)
  {
    var origin' := origin[f.port := f];
    forall p, q | p in b && q in b && p != q
      ensures Both(n, family, origin'[p], LabelOf(tld, b[p]), origin'[q], LabelOf(tld, b[q]), k)
    {
      assert p == f.port || p in a;
      assert q == f.port || q in a;
    }
  }

  lemma AddDerived(settings: Settings, n: Naming, family: iset<PortForward>, s: State, origin: map<int, PortForward>,
                   k: nat,
                   f: PortForward, o: Outcome, bind: bool)
    requires Names(n, settings.cfg) && !Derivable(n, family) && f in family && f.port !in s.active
    requires Derived(n, family, settings.cfg.tld, s.active, origin, k)
    ensures Derived(n, family, settings.cfg.tld, AddStep(settings, s, f, o, bind).active, origin[f.port := f], k + 1)
  {
    var tld, taken := settings.cfg.tld, ActiveNames(settings.cfg, s.active);
    AddedLabel(settings, s, f, o, bind);
    AddStepKeys(settings, s, f, o, bind);
    NameDerived(n, family, tld, s.active, origin, k, f, GenerateLabel(f, settings.cfg, taken), taken);
    DerivedMore(n, family, tld, s.active, origin, k);
    DerivedPut(n, family, tld, s.active, AddStep(settings, s, f, o, bind).active, origin, k + 1, f);
  }

  lemma {:induction false} AddPhaseDerived(settings: Settings, n: Naming, family: iset<PortForward>, s: State,
                                           current: map<int, PortForward>, env: Env, order: seq<int>,
                                           origin: map<int, PortForward>, k: nat)
    returns (origin': map<int, PortForward>, k': nat)
    requires Names(n, settings.cfg) && !Derivable(n, family) && CurrentIn(current, family)
    requires Derived(n, family, settings.cfg.tld, s.active, origin, k)
    ensures Derived(n, family, settings.cfg.tld, AddPhase(settings, s, current, env, order).active, origin', k')
  {
    origin', k' := origin, k;
    if order != [] {
      origin', k' := AddPhaseDerived(settings, n, family, s, current, env, Init(order), origin, k);
      var t, port := AddPhase(settings, s, current, env, Init(order)), Last(order);
      if port in current && port !in t.active {
        AddDerived(settings, n, family, t, origin', k', current[port], env.add(port), env.bind(port));
        origin', k' := origin'[port := current[port]], k' + 1;
      }
    }
  }

  lemma FewerDerived(n: Naming, family: iset<PortForward>, tld: string, a: map<int, ActiveEntry>,
                     b: map<int, ActiveEntry>,
                     origin: map<int, PortForward>, k: nat)
    requires Derived(n, family, tld, a, origin, k) && Keeps(b, a)
    ensures Derived(n, family, tld, b, origin, k)
  {
  }

  lemma PollDerived(settings: Settings, n: Naming, family: iset<PortForward>, s: State, e: Event,
                    origin: map<int, PortForward>, k: nat)
    returns (origin': map<int, PortForward>, k': nat)
    requires Names(n, settings.cfg) && !Derivable(n, family) && Legal(settings, s, e) && EventDraws(e, family)
    requires Derived(n, family, settings.cfg.tld, s.active, origin, k)
    ensures Derived(n, family, settings.cfg.tld, Next(settings, s, e).active, origin', k')
  {
    origin', k' := origin, k;
    if e.scan.ScanOk? {
      CurrentByPort(e.scan.forwards);
      origin', k' := AddPhaseDerived(settings, n, family, s, Current(e.scan.forwards), e.env, e.addOrder, origin, k);
      PollActive(settings, s, e);
      FewerDerived(n, family, settings.cfg.tld, AfterAdds(settings, s, e).active, Next(settings, s, e).active, origin',
          k');
    }
  }

  lemma {:induction false} RunDerived(settings: Settings, n: Naming, family: iset<PortForward>, states: seq<State>,
                                      events: seq<Event>, i: nat)
    returns (origin: map<int, PortForward>, k: nat)
    requires Run(settings, states, events) && i < |states| && Draws(events, family)
    requires Names(n, settings.cfg) && !Derivable(n, family)
    ensures Derived(n, family, settings.cfg.tld, states[i].active, origin, k)
  {
    origin, k := map[], 0;
    if i > 0 {
      origin, k := RunDerived(settings, n, family, states, events, i - 1);
      assert PolledAt(settings, states, events, i - 1) && EventDraws(events[i - 1], family);
      origin, k := PollDerived(settings, n, family, states[i - 1], events[i - 1], origin, k);
    }
  }

  lemma DerivedDistinct(n: Naming, family: iset<PortForward>, tld: string, active: map<int, ActiveEntry>,
                        origin: map<int, PortForward>, k: nat)
    requires Derived(n, family, tld, active, origin, k) && Labelled(tld, active)
    ensures DistinctDomains(active)
  {
    forall p, q | p in active && q in active && p != q
      ensures active[p].entry.domain != active[q].entry.domain
    {
      BothDiffer(n, family, origin[p], LabelOf(tld, active[p]), origin[q], LabelOf(tld, active[q]), k);
      if active[p].entry.domain == active[q].entry.domain {
        SameTld(LabelOf(tld, active[p]), LabelOf(tld, active[q]), tld);
      }
    }
  }

  lemma UnderivableDistinct(settings: Settings, n: Naming, family: iset<PortForward>)
    requires Names(n, settings.cfg) && !Derivable(n, family)
    ensures AlwaysDistinct(settings, family)
  {
    forall states: seq<State>, events: seq<Event>, i: nat |
      Run(settings, states, events) && Draws(events, family) && i < |states|
      ensures DistinctDomains(states[i].active)
    {
      var origin, k := RunDerived(settings, n, family, states, events, i);
      RunLabelled(settings, states, events, i);
      DerivedDistinct(n, family, settings.cfg.tld, states[i].active, origin, k);
    }
  }

  /** For any forwards whatever: domains are pairwise distinct in every state of every run over them, for every scan,
      map order and failure, if and only if no clash can be derived from their names, adding forwards to at most two
      others. */
  lemma AlwaysDistinctIff(settings: Settings, family: iset<PortForward>)
    ensures AlwaysDistinct(settings, family) <==> !TldOk(settings.cfg) || !Derivable(NamingOf(settings.cfg), family)
  {
    NamingNames(settings.cfg);
    AlwaysDistinctNamingIff(settings, NamingOf(settings.cfg), family);
  }

  lemma AlwaysDistinctNamingIff(settings: Settings, n: Naming, family: iset<PortForward>)
    requires Names(n, settings.cfg)
    ensures AlwaysDistinct(settings, family) <==> !TldOk(settings.cfg) || !Derivable(n, family)
  {
    if !TldOk(settings.cfg) {
      RejectedDistinct(settings, family);
    } else if !Derivable(n, family) {
      UnderivableDistinct(settings, n, family);
    } else {
      var a, k: nat :| ClashIn(n, family, a, k);
      ClashReached(settings, n, family, a, k);
    }
  }
}
