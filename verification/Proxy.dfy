/**
 * One proxy: Start, the accept loop and any number of concurrent Stop callers, as interleaved atomic steps.
 *
 * Stop runs its body through a sync.Once: the first caller runs it, callers that arrive meanwhile block until it has
 * run, later ones skip it. Every caller then waits for the wait group, which counts the accept loop.
 */
module Proxy {
  datatype Listener = Absent | Open | Closed

  datatype Cause = ByClose | Spontaneous

  datatype Server =
    | Idle               // never started
    | Accepting          // blocked in Accept
    | Failed(cause: Cause)   // Accept has returned an error, quit not yet looked at
    | Logging(cause: Cause)  // took the default branch of the select
    | Returning          // before the deferred Done
    | Gone

  datatype Once = Fresh | Running(caller: nat) | Done

  datatype Caller = Entering | ClosingQuit | ClosingListener | LeavingOnce | Waiting | Returned

  /** closes counts the calls of close(quit), the second of which would panic. */
  datatype State = State(
    listener: Listener, quit: bool, closes: nat, once: Once, waitGroup: int,
    server: Server, callers: seq<Caller>, accepted: nat, log: seq<Cause>)

  datatype Action =
    | Start(bound: bool)
    | Accept
    | AcceptError
    | Select
    | Log
    | Finish
    | Call
    | Enter(i: nat)
    | CloseQuit(i: nat)
    | CloseListener(i: nat)
    | LeaveOnce(i: nat)
    | Return(i: nat)

  const NEW := State(Absent, false, 0, Fresh, 0, Idle, [], 0, [])

  predicate At(s: State, i: nat, c: Caller) {
    i < |s.callers| && s.callers[i] == c
  }

  /** Start comes before the proxy is handed to anyone who could stop it. */
  predicate Enabled(s: State, a: Action) {
    match a
    case Start(_) => s == NEW
    case Accept => s.server == Accepting && s.listener == Open
    case AcceptError => s.server == Accepting
    case Select => s.server.Failed?
    case Log => s.server.Logging?
    case Finish => s.server == Returning
    case Call => true
    case Enter(i) => At(s, i, Entering) && !s.once.Running?
    case CloseQuit(i) => At(s, i, ClosingQuit)
    case CloseListener(i) => At(s, i, ClosingListener)
    case LeaveOnce(i) => At(s, i, LeavingOnce)
    case Return(i) => At(s, i, Waiting) && s.waitGroup == 0
  }

  function Move(s: State, i: nat, c: Caller): State
    requires i < |s.callers|
  {
    s.(callers := s.callers[i := c])
  }

  function Step(s: State, a: Action): State
    requires Enabled(s, a)
  {
    match a
    case Start(bound) => if bound then s.(listener := Open, waitGroup := s.waitGroup + 1, server := Accepting) else s
    case Accept => s.(accepted := s.accepted + 1)
    case AcceptError => s.(server := Failed(if s.listener == Closed then ByClose else Spontaneous))
    case Select => s.(server := if s.quit then Returning else Logging(s.server.cause))
    case Log => s.(log := s.log + [s.server.cause], server := Returning)
    case Finish => s.(waitGroup := s.waitGroup - 1, server := Gone)
    case Call => s.(callers := s.callers + [Entering])
    case Enter(i) => if s.once == Fresh then Move(s, i, ClosingQuit).(once := Running(i)) else Move(s, i, Waiting)
    case CloseQuit(i) => Move(s, i, ClosingListener).(quit := true, closes := s.closes + 1)
    case CloseListener(i) =>
      Move(s, i, LeavingOnce).(listener := if s.listener == Absent then Absent else Closed)
    case LeaveOnce(i) => Move(s, i, Waiting).(once := Done)
    case Return(i) => Move(s, i, Returned)
  }

  /* Runs */

  predicate Legal(s: State, run: seq<Action>)
    decreases |run|
  {
    run != [] ==> Enabled(s, run[0]) && Legal(Step(s, run[0]), run[1..])
  }

  function After(s: State, run: seq<Action>): State
    requires Legal(s, run)
    decreases |run|
  {
    if run == [] then s else After(Step(s, run[0]), run[1..])
  }

  /* What every step keeps */

  predicate Inside(c: Caller) {
    c == ClosingQuit || c == ClosingListener || c == LeavingOnce
  }

  predicate Past(c: Caller) {
    c == Waiting || c == Returned
  }

  /** The caller inside the once is the one that runs it, and nobody is past it before it is done. */
  predicate OnceInv(s: State) {
    && (forall i: nat :: i < |s.callers| ==> (Inside(s.callers[i]) <==> s.once == Running(i)))
    && (s.once.Running? ==> s.once.caller < |s.callers|)
    && (forall i: nat :: i < |s.callers| && Past(s.callers[i]) ==> s.once == Done)
  }

  predicate PastQuit(s: State) {
    s.once == Done || (s.once.Running? && s.once.caller < |s.callers| && s.callers[s.once.caller] != ClosingQuit)
  }

  predicate PastClose(s: State) {
    s.once == Done || (s.once.Running? && At(s, s.once.caller, LeavingOnce))
  }

  predicate ServerRunning(s: State) {
    s.server != Idle && s.server != Gone
  }

  predicate Inv(s: State) {
    && OnceInv(s)
    && (s.quit <==> PastQuit(s))
    && s.closes == (if s.quit then 1 else 0)
    && (s.listener == Absent <==> s.server == Idle)
    && (s.listener != Absent ==> (s.listener == Closed <==> PastClose(s)))
    && s.waitGroup == (if ServerRunning(s) then 1 else 0)
    && (s.server == Failed(ByClose) ==> s.listener == Closed)
    && s.server != Logging(ByClose)
    && ByClose !in s.log
    && |s.log| <= (if s.server == Returning || s.server == Gone then 1 else 0)
    && (Returned in s.callers ==> !ServerRunning(s))
  }

  lemma StepKeepsOnceInv(s: State, a: Action)
    requires OnceInv(s) && Enabled(s, a)
    ensures OnceInv(Step(s, a))
  {
  }

  lemma StepKeepsInv(s: State, a: Action)
    requires Inv(s) && Enabled(s, a)
    ensures Inv(Step(s, a))
  {
    StepKeepsOnceInv(s, a);
  }

  lemma {:induction false} RunKeepsInv(s: State, run: seq<Action>)
    requires Inv(s) && Legal(s, run)
    ensures Inv(After(s, run))
    decreases |run|
  {
    if run != [] {
      StepKeepsInv(s, run[0]);
      RunKeepsInv(Step(s, run[0]), run[1..]);
    }
  }

  /** After any interleaving: quit has been closed at most once, and before the listener; an error that closing
      caused was never logged; and once any Stop has returned, quit was closed exactly once, the listener is closed
      and the accept loop is over. */
  lemma ShutdownSafe(run: seq<Action>)
    requires Legal(NEW, run)
    ensures var s := After(NEW, run);
      && s.closes <= 1 && (s.listener == Closed ==> s.quit)
      && ByClose !in s.log && |s.log| <= 1
      && (Returned in s.callers ==>
            s.closes == 1 && s.listener != Open && (s.server == Gone || s.server == Idle) && s.waitGroup == 0)
  {
    RunKeepsInv(NEW, run);
    var s := After(NEW, run);
    if Returned in s.callers {
      var i: nat :| i < |s.callers| && s.callers[i] == Returned;
      assert Past(s.callers[i]);
    }
  }

  /* Progress */

  function CallerWork(c: Caller): nat {
    match c
    case Entering => 5
    case ClosingQuit => 4
    case ClosingListener => 3
    case LeavingOnce => 2
    case Waiting => 1
    case Returned => 0
  }

  function CallersWork(callers: seq<Caller>): nat {
    if callers == [] then 0 else CallerWork(callers[0]) + CallersWork(callers[1..])
  }

  function ServerWork(server: Server): nat {
    match server
    case Accepting => 4
    case Failed(_) => 3
    case Logging(_) => 2
    case Returning => 1
    case _ => 0
  }

  function Work(s: State): nat {
    ServerWork(s.server) + CallersWork(s.callers)
  }

  lemma {:induction false} WorkMoved(callers: seq<Caller>, i: nat, c: Caller)
    requires i < |callers|
    ensures CallersWork(callers[i := c]) == CallersWork(callers) - CallerWork(callers[i]) + CallerWork(c)
  {
    if i > 0 {
      WorkMoved(callers[1..], i - 1, c);
      assert callers[i := c][1..] == callers[1..][i - 1 := c];
    } else {
      assert callers[i := c][1..] == callers[1..];
    }
  }

  lemma {:induction false} WorkCalled(callers: seq<Caller>, c: Caller)
    ensures CallersWork(callers + [c]) == CallersWork(callers) + CallerWork(c)
  {
    if callers != [] {
      WorkCalled(callers[1..], c);
      assert (callers + [c])[1..] == callers[1..] + [c];
    }
  }

  /** Connections and new calls are up to the outside; everything else is a step of the shutdown. */
  predicate External(a: Action) {
    a.Start? || a.Accept? || a.Call?
  }

  function Target(s: State, a: Action): Caller {
    match a
    case Enter(_) => if s.once == Fresh then ClosingQuit else Waiting
    case CloseQuit(_) => ClosingListener
    case CloseListener(_) => LeavingOnce
    case LeaveOnce(_) => Waiting
    case _ => Returned
  }

  predicate ByCaller(a: Action) {
    a.Enter? || a.CloseQuit? || a.CloseListener? || a.LeaveOnce? || a.Return?
  }

  lemma CallerStepWork(s: State, a: Action)
    requires ByCaller(a) && Enabled(s, a)
    ensures Work(Step(s, a)) < Work(s)
  {
    assert Step(s, a).callers == s.callers[a.i := Target(s, a)];
    WorkMoved(s.callers, a.i, Target(s, a));
  }

  lemma ServerStepWork(s: State, a: Action)
    requires !ByCaller(a) && !External(a) && Enabled(s, a)
    ensures Work(Step(s, a)) < Work(s)
  {
    assert Step(s, a).callers == s.callers;
  }

  function Allowance(a: Action): nat {
    if a.Call? then 5 else if a.Start? then 4 else 0
  }

  lemma ExternalStepWork(s: State, a: Action)
    requires External(a) && Enabled(s, a)
    ensures Work(Step(s, a)) <= Work(s) + Allowance(a)
  {
    if a == Call {
      WorkCalled(s.callers, Entering);
    } else {
      assert Step(s, a).callers == s.callers;
    }
  }

  lemma StepWork(s: State, a: Action)
    requires Enabled(s, a)
    ensures Work(Step(s, a)) + (if External(a) then 0 else 1) <= Work(s) + Allowance(a)
  {
    if ByCaller(a) {
      CallerStepWork(s, a);
    } else if External(a) {
      ExternalStepWork(s, a);
    } else {
      ServerStepWork(s, a);
    }
  }

  function Count(run: seq<Action>, p: Action -> bool): nat {
    if run == [] then 0 else (if p(run[0]) then 1 else 0) + Count(run[1..], p)
  }

  function Internal(run: seq<Action>): nat {
    Count(run, (a: Action) => !External(a))
  }

  function Calls(run: seq<Action>): nat {
    Count(run, (a: Action) => a.Call?)
  }

  function Starts(run: seq<Action>): nat {
    Count(run, (a: Action) => a.Start?)
  }

  lemma {:induction false} InternalStepsBounded(s: State, run: seq<Action>)
    requires Legal(s, run)
    ensures Internal(run) + Work(After(s, run)) <= Work(s) + 5 * Calls(run) + 4 * Starts(run)
    decreases |run|
  {
    if run != [] {
      StepWork(s, run[0]);
      InternalStepsBounded(Step(s, run[0]), run[1..]);
    }
  }

  /** What the program does by itself: Accept fails of itself only once the listener is closed. */
  predicate Driven(s: State, a: Action) {
    Enabled(s, a) && !External(a) && (a == AcceptError ==> s.listener == Closed)
  }

  function NextOfServer(server: Server): Action {
    match server
    case Accepting => AcceptError
    case Failed(_) => Select
    case Logging(_) => Log
    case _ => Finish
  }

  /** In every reachable state a Stop that has not returned leaves something to do, so none blocks for ever: by
      InternalStepsBounded only finitely many such steps are left. */
  lemma NoDeadlock(run: seq<Action>, i: nat) returns (a: Action)
    requires Legal(NEW, run)
    requires i < |After(NEW, run).callers| && !At(After(NEW, run), i, Returned)
    ensures Driven(After(NEW, run), a)
  {
    RunKeepsInv(NEW, run);
    var s := After(NEW, run);
    if s.once.Running? {
      var j := s.once.caller;
      assert Inside(s.callers[j]);
      a := if At(s, j, ClosingQuit) then CloseQuit(j) else if At(s, j, ClosingListener) then CloseListener(j)
          else LeaveOnce(j);
    } else if At(s, i, Entering) {
      a := Enter(i);
    } else if s.waitGroup == 0 {
      a := Return(i);
    } else {
      a := NextOfServer(s.server);
    }
  }

  /** When the program has come to rest, every Stop has returned, and after a Stop the accept loop is over. */
  lemma AtRest(run: seq<Action>)
    requires Legal(NEW, run) && forall a :: !Driven(After(NEW, run), a)
    ensures var s := After(NEW, run);
      && (forall i: nat :: i < |s.callers| ==> At(s, i, Returned))
      && (s.server == Accepting || s.server == Gone || s.server == Idle)
      && (s.callers != [] ==> s.server != Accepting)
  {
    RunKeepsInv(NEW, run);
    var s := After(NEW, run);
    forall i: nat | i < |s.callers|
      ensures At(s, i, Returned)
    {
      if !At(s, i, Returned) {
        var a := NoDeadlock(run, i);
        assert false;
      }
    }
    if s.callers != [] {
      assert At(s, 0, Returned);
      assert Returned in s.callers;
    }
    assert !Driven(s, NextOfServer(s.server));
  }

  /* What a run has done, read off the state */

  const ACCEPTS := (a: Action) => a.Accept?
  const CLOSES_QUIT := (a: Action) => a.CloseQuit?
  const CLOSES_LISTENER := (a: Action) => a.CloseListener?
  const LEAVES_ONCE := (a: Action) => a.LeaveOnce?
  const STARTS_UP := (a: Action) => a == Start(true)
  const FINISHES := (a: Action) => a.Finish?
  const FAILS_ACCEPT := (a: Action) => a.AcceptError?
  const LOGS := (a: Action) => a.Log?
  const CALLS := (a: Action) => a.Call?

  predicate Has(run: seq<Action>, p: Action -> bool) {
    Count(run, p) > 0
  }

  lemma {:induction false} StopCountersAfter(s: State, run: seq<Action>)
    requires Legal(s, run)
    ensures After(s, run).closes == s.closes + Count(run, CLOSES_QUIT)
    ensures |After(s, run).callers| == |s.callers| + Count(run, CALLS)
    decreases |run|
  {
    if run != [] {
      StopCountersAfter(Step(s, run[0]), run[1..]);
    }
  }

  lemma {:induction false} ServerCountersAfter(s: State, run: seq<Action>)
    requires Legal(s, run)
    ensures After(s, run).accepted == s.accepted + Count(run, ACCEPTS)
    ensures After(s, run).waitGroup == s.waitGroup + Count(run, STARTS_UP) - Count(run, FINISHES)
    ensures |After(s, run).log| == |s.log| + Count(run, LOGS)
    decreases |run|
  {
    if run != [] {
      ServerCountersAfter(Step(s, run[0]), run[1..]);
    }
  }

  /** Connections, closings of quit, callers, the wait group and log lines are counted by the steps that add to them. */
  lemma CountersAfter(s: State, run: seq<Action>)
    requires Legal(s, run)
    ensures var t := After(s, run);
      && t.accepted == s.accepted + Count(run, ACCEPTS)
      && t.closes == s.closes + Count(run, CLOSES_QUIT)
      && |t.callers| == |s.callers| + Count(run, CALLS)
      && t.waitGroup == s.waitGroup + Count(run, STARTS_UP) - Count(run, FINISHES)
      && |t.log| == |s.log| + Count(run, LOGS)
  {
    StopCountersAfter(s, run);
    ServerCountersAfter(s, run);
  }

  lemma {:induction false} StopFlagsAfter(s: State, run: seq<Action>)
    requires Legal(s, run)
    ensures After(s, run).quit <==> s.quit || Has(run, CLOSES_QUIT)
    ensures After(s, run).once == Done <==> s.once == Done || Has(run, LEAVES_ONCE)
    decreases |run|
  {
    if run != [] {
      StopFlagsAfter(Step(s, run[0]), run[1..]);
    }
  }

  lemma {:induction false} GoneAfter(s: State, run: seq<Action>)
    requires Legal(s, run)
    ensures After(s, run).server == Gone <==> s.server == Gone || Has(run, FINISHES)
    decreases |run|
  {
    if run != [] {
      GoneAfter(Step(s, run[0]), run[1..]);
    }
  }

  lemma {:induction false} StartFlagsAfter(s: State, run: seq<Action>)
    requires Legal(s, run)
    ensures After(s, run).server == Idle <==> s.server == Idle && !Has(run, STARTS_UP)
    ensures After(s, run).listener == Absent <==> s.listener == Absent && !Has(run, STARTS_UP)
    decreases |run|
  {
    if run != [] {
      StartFlagsAfter(Step(s, run[0]), run[1..]);
    }
  }

  /** Quit is closed, the once done and the accept loop over exactly if a step said so, and the proxy was started
      exactly if a start succeeded. */
  lemma FlagsAfter(s: State, run: seq<Action>)
    requires Legal(s, run)
    ensures var t := After(s, run);
      && (t.quit <==> s.quit || Has(run, CLOSES_QUIT))
      && (t.once == Done <==> s.once == Done || Has(run, LEAVES_ONCE))
      && (t.server == Gone <==> s.server == Gone || Has(run, FINISHES))
      && (t.server == Idle <==> s.server == Idle && !Has(run, STARTS_UP))
      && (t.listener == Absent <==> s.listener == Absent && !Has(run, STARTS_UP))
  {
    StopFlagsAfter(s, run);
    GoneAfter(s, run);
    StartFlagsAfter(s, run);
  }

  /** A Stop has returned exactly if its last step was taken. */
  lemma {:induction false} ReturnedAfter(s: State, run: seq<Action>, i: nat)
    requires Legal(s, run)
    ensures At(After(s, run), i, Returned) <==> At(s, i, Returned) || Has(run, (a: Action) => a == Return(i))
    decreases |run|
  {
    if run != [] {
      ReturnedAfter(Step(s, run[0]), run[1..], i);
    }
  }

  /* Serving */

  lemma {:induction false} StaysServing(s: State, run: seq<Action>)
    requires s.listener == Open && s.server == Accepting && Legal(s, run)
    requires !Has(run, CLOSES_LISTENER) && !Has(run, FAILS_ACCEPT)
    ensures After(s, run).listener == Open && After(s, run).server == Accepting
    decreases |run|
  {
    if run != [] {
      StaysServing(Step(s, run[0]), run[1..]);
    }
  }

  /** Listening, with the accept loop running and counted, and nobody stopping it. */
  const STARTED := State(Open, false, 0, Fresh, 1, Accepting, [], 0, [])

  /** A start that can bind gets there, one that cannot changes nothing. */
  lemma StartOutcomes(run: seq<Action>)
    requires Legal(STARTED, run)
    ensures Enabled(NEW, Start(true)) && Enabled(NEW, Start(false)) && Step(NEW, Start(false)) == NEW
    ensures Legal(NEW, [Start(true)] + run) && After(NEW, [Start(true)] + run) == After(STARTED, run)
  {
    var all := [Start(true)] + run;
    assert all[0] == Start(true) && all[1..] == run;
    assert Step(NEW, Start(true)) == STARTED;
  }

  /** Once accepting, a proxy serves until an Accept fails or a Stop closes the listener: it can accept, and each
      accepted connection is counted; and it is never again as if it had not been started. */
  lemma ServesFrom(s: State, run: seq<Action>)
    requires Inv(s) && s.server == Accepting && s.listener == Open && Legal(s, run)
    ensures After(s, run).server != Idle && After(s, run).listener != Absent
    ensures After(s, run).accepted == s.accepted + Count(run, ACCEPTS)
    ensures !Has(run, CLOSES_LISTENER) && !Has(run, FAILS_ACCEPT) ==> CanAccept(After(s, run))
  {
    StartFlagsAfter(s, run);
    ServerCountersAfter(s, run);
    KeepsServing(s, run);
  }

  predicate CanAccept(s: State) {
    && s.listener == Open && s.server == Accepting && s.waitGroup == 1
    && Enabled(s, Accept) && Enabled(s, AcceptError)
  }

  /** And that is where a successful start leads. */
  lemma StartedServes()
    ensures Inv(STARTED) && STARTED.server == Accepting && STARTED.listener == Open && CanAccept(STARTED)
    ensures forall run :: Legal(STARTED, run) ==> Legal(NEW, [Start(true)] + run)
    ensures forall run :: Legal(STARTED, run) ==> After(NEW, [Start(true)] + run) == After(STARTED, run)
  {
    forall run | Legal(STARTED, run)
      ensures Legal(NEW, [Start(true)] + run) && After(NEW, [Start(true)] + run) == After(STARTED, run)
    {
      StartOutcomes(run);
    }
  }

  lemma KeepsServing(s: State, run: seq<Action>)
    requires Inv(s) && s.listener == Open && s.server == Accepting && Legal(s, run)
    ensures !Has(run, CLOSES_LISTENER) && !Has(run, FAILS_ACCEPT) ==> CanAccept(After(s, run))
  {
    if !Has(run, CLOSES_LISTENER) && !Has(run, FAILS_ACCEPT) {
      StaysServing(s, run);
      RunKeepsInv(s, run);
    }
  }

  /** A proxy that was never started successfully has no listener and never serves, whoever stops it, which anyone
      can at any time. */
  lemma UnstartedNeverServes(run: seq<Action>)
    requires Legal(NEW, run) && !Has(run, STARTS_UP)
    ensures var t := After(NEW, run);
      && t.server == Idle && t.listener == Absent && t.waitGroup == 0 && t.accepted == 0 && t.log == []
      && !Enabled(t, Accept) && Enabled(t, Call)
  {
    FlagsAfter(NEW, run);
    RunKeepsInv(NEW, run);
    NeverAccepts(NEW, run);
  }

  lemma {:induction false} NeverAccepts(s: State, run: seq<Action>)
    requires Legal(s, run) && s.server == Idle && !Has(run, STARTS_UP)
    ensures After(s, run).accepted == s.accepted && After(s, run).server == Idle && After(s, run).log == s.log
    decreases |run|
  {
    if run != [] {
      NeverAccepts(Step(s, run[0]), run[1..]);
    }
  }

  /* Closing the listener */

  lemma {:induction false} NoLateStart(s: State, run: seq<Action>)
    requires Legal(s, run) && s.callers != []
    ensures !Has(run, STARTS_UP)
    decreases |run|
  {
    if run != [] {
      NoLateStart(Step(s, run[0]), run[1..]);
    }
  }

  /** The listener of a started proxy is closed exactly if a Stop has closed it. */
  lemma {:induction false} ListenerAfter(s: State, run: seq<Action>)
    requires Legal(s, run)
    ensures var t := After(s, run);
      t.listener == Closed <==> s.listener == Closed || (t.listener != Absent && Has(run, CLOSES_LISTENER))
    decreases |run|
  {
    if run != [] {
      var s', rest := Step(s, run[0]), run[1..];
      ListenerAfter(s', rest);
      FlagsAfter(s', rest);
      if run[0].CloseListener? {
        NoLateStart(s', rest);
      }
    }
  }

  /* Logging */

  lemma {:induction false} LoopOver(s: State, run: seq<Action>)
    requires Legal(s, run) && (s.server == Returning || s.server == Gone)
    ensures After(s, run).log == s.log
    decreases |run|
  {
    if run != [] {
      LoopOver(Step(s, run[0]), run[1..]);
    }
  }

  lemma {:induction false} LogsBeforeReturning(s: State, run: seq<Action>)
    requires Legal(s, run) && s.server.Logging? && After(s, run).server == Gone
    ensures After(s, run).log == s.log + [s.server.cause]
    decreases |run|
  {
    if run[0] == Log {
      LoopOver(Step(s, run[0]), run[1..]);
    } else {
      LogsBeforeReturning(Step(s, run[0]), run[1..]);
    }
  }

  /** When an Accept has failed, the accept loop logs the error if quit is still open as it looks, and nothing
      otherwise. */
  lemma SelectDecides(s: State, run: seq<Action>)
    requires s.server.Failed? && Legal(Step(s, Select), run) && After(Step(s, Select), run).server == Gone
    ensures After(Step(s, Select), run).log == s.log + if s.quit then [] else [s.server.cause]
  {
    if s.quit {
      LoopOver(Step(s, Select), run);
    } else {
      LogsBeforeReturning(Step(s, Select), run);
    }
  }

  lemma {:induction false} SplitRun(s: State, run: seq<Action>, more: seq<Action>)
    requires Legal(s, run + more)
    ensures Legal(s, run) && Legal(After(s, run), more) && After(s, run + more) == After(After(s, run), more)
    decreases |run|
  {
    if run == [] {
      assert run + more == more;
    } else {
      assert (run + more)[0] == run[0] && (run + more)[1..] == run[1..] + more;
      SplitRun(Step(s, run[0]), run[1..], more);
    }
  }

  lemma LastStep(s: State, a: Action)
    requires Legal(s, [a])
    ensures Enabled(s, a) && After(s, [a]) == Step(s, a)
  {
    var one := [a];
    assert one[0] == a && one[1..] == [];
    assert After(Step(s, a), one[1..]) == Step(s, a);
  }

  /** An Accept that fails after a Stop has closed the listener fails because of that, one that fails before does
      not. */
  lemma FailureCause(run: seq<Action>)
    requires Legal(NEW, run + [AcceptError])
    ensures After(NEW, run + [AcceptError]).server == Failed(if Has(run, CLOSES_LISTENER) then ByClose else Spontaneous)
  {
    SplitRun(NEW, run, [AcceptError]);
    LastStep(After(NEW, run), AcceptError);
    ListenerAfter(NEW, run);
    RunKeepsInv(NEW, run);
  }

  /** No failure after a Stop has closed quit is logged, whatever its cause. */
  lemma NothingLoggedAfterStop(run: seq<Action>, more: seq<Action>)
    requires Legal(NEW, run + [Select] + more) && Has(run, CLOSES_QUIT)
    ensures After(NEW, run + [Select] + more).log == []
  {
    SplitRun(NEW, run + [Select], more);
    SplitRun(NEW, run, [Select]);
    var s := After(NEW, run);
    LastStep(s, Select);
    StopFlagsAfter(NEW, run);
    RunKeepsInv(NEW, run);
    LoopOver(Step(s, Select), more);
  }
}
