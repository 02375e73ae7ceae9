/**
 * The reconnect machine of a channel mirror: the backoff timer, announce
 * wake-ups, link callbacks and stop run as threads that interleave at every
 * lock acquisition and every unlocked access to the timer field. Link
 * callbacks fire after the connect that built the link has returned; a link's
 * closed callback may overtake its established callback.
 */
module MirrorLink {
  import opened Common

  datatype MirrorState = Idle | Connecting | Linked | Closed | Waiting

  /** Where a thread stands: the next thing it does. */
  datatype Pc =
    | ConnectEntry               // take the lock at the top of _connect
    | Recalling                  // look the identity up and build the link
    | ParkWaiting                // identity unknown: lock, park
    | ParkClosed                 // link construction raised: lock, park
    | StoreLink(built: nat)      // lock, store the link, return
    | SchedCheck                 // top of _schedule_retry
    | SchedCancel                // cancel the referenced timer
    | SchedCreate                // create a new one and refer to it
    | SchedDaemon                // mark whichever is referenced as a daemon
    | SchedStart                 // start whichever is referenced
    | WakeCheck                  // lock, test that the mirror is parked
    | WakeTest                   // test that a timer is referenced
    | WakeCancel                 // cancel the referenced timer
    | WakeClear                  // forget it
    | TimerFired                 // _reconnect
    | OnLinked(up: nat)          // established callback
    | OnClosed(down: nat)        // closed callback
    | StopCancel                 // cancel the referenced timer in stop()
    | StopClear                  // forget it

  datatype LinkPhase = Built | Ready | Announcing | Up | Gone

  /** Made but not started, cancelled before its start, counting down, and over. */
  datatype TimerPhase = Made | Void | Armed | Spent

  datatype Holder = ByThread(t: nat) | ByLink(l: nat)

  /** `token` records who is responsible for the connection attempt or the link. */
  datatype Mirror = Mirror(
    started: bool, running: bool, st: MirrorState,
    timer: Option<nat>, timers: map<nat, TimerPhase>, threads: map<nat, Pc>, links: map<nat, LinkPhase>,
    token: Option<Holder>)

  datatype Outcome = RecallNone | LinkRaises | LinkBuilt(l: nat)

  datatype Event =
    | Start(t: nat)
    | Wake(t: nat)
    | TimerFires(id: nat, t: nat)
    | LinkUp(l: nat, t: nat)
    | LinkDown(l: nat, t: nat)
    | Stop(t: nat)
    | Run(t: nat, outcome: Outcome, id: nat)

  const Begin := Mirror(false, false, Idle, None, map[], map[], map[], None)

  predicate Parked(s: Mirror) {
    s.st == Waiting || s.st == Closed
  }

  predicate Busy(s: Mirror) {
    s.st == Connecting || s.st == Linked
  }

  predicate Live(p: LinkPhase) {
    p == Ready || p == Announcing || p == Up
  }

  predicate Enabled(s: Mirror, e: Event) {
    match e
    case Start(t) => !s.started && t !in s.threads
    case Wake(t) => s.running && t !in s.threads
    case TimerFires(id, t) => id in s.timers && s.timers[id] == Armed && t !in s.threads
    case LinkUp(l, t) => l in s.links && s.links[l] == Ready && t !in s.threads
    case LinkDown(l, t) => l in s.links && Live(s.links[l]) && t !in s.threads
    case Stop(t) => s.running && t !in s.threads
    case Run(t, outcome, id) => t in s.threads && (outcome.LinkBuilt? ==> outcome.l !in s.links) && id !in s.timers
  }

  function End(s: Mirror, t: nat): Mirror {
    s.(threads := s.threads - {t})
  }

  function Goto(s: Mirror, t: nat, pc: Pc): Mirror {
    s.(threads := s.threads[t := pc])
  }

  function PhaseOf(s: Mirror): Option<TimerPhase> {
    if s.timer.Some? && s.timer.value in s.timers then Some(s.timers[s.timer.value]) else None
  }

  /** `cancel()` on the referenced timer; on a missing one the exception is swallowed. */
  function Disarm(s: Mirror): (s': Mirror)
    ensures s' == s.(timers := s'.timers) && s'.timers.Keys == s.timers.Keys
  {
    match PhaseOf(s)
    case Some(Made) => s.(timers := s.timers[s.timer.value := Void])
    case Some(Armed) => s.(timers := s.timers[s.timer.value := Spent])
    case _ => s
  }

  /** `start()` raises on a missing or started timer; one cancelled before ends at once. */
  function StartTimer(s: Mirror): (s': Mirror)
    ensures s' == s.(timers := s'.timers) && s'.timers.Keys == s.timers.Keys
  {
    match PhaseOf(s)
    case Some(Made) => s.(timers := s.timers[s.timer.value := Armed])
    case Some(Void) => s.(timers := s.timers[s.timer.value := Spent])
    case _ => s
  }

  predicate Stopping(pc: Pc) {
    pc.StopCancel? || pc.StopClear?
  }

  /** Threads that carry the connection attempt, or the loss of a link not yet recorded. */
  predicate Carries(pc: Pc) {
    pc.Recalling? || pc.ParkWaiting? || pc.ParkClosed? || pc.StoreLink? || pc.OnClosed?
  }

  /** Threads that schedule, wake or stop. */
  predicate Schedules(pc: Pc) {
    !Carries(pc) && !pc.OnLinked? && !pc.ConnectEntry?
  }

  predicate OnlyMoves(s: Mirror, s': Mirror, t: nat) {
    && s'.started == s.started && s'.running == s.running
    && s'.threads == if t in s'.threads then s.threads[t := s'.threads[t]] else s.threads - {t}
  }

  /** Where a scheduling, waking or stopping thread goes next; none when it ends. */
  function NextPc(s: Mirror, pc: Pc): (r: Option<Pc>)
    requires Schedules(pc)
    ensures r.Some? ==> !Carries(r.value) && !r.value.OnLinked? && (Stopping(r.value) ==> Stopping(pc))
  {
    match pc
    case SchedCheck => if s.running then Some(SchedCancel) else None
    case SchedCancel => Some(SchedCreate)
    case SchedCreate => Some(SchedDaemon)
    // the daemon flag of a missing or started timer cannot be set: the thread dies
    case SchedDaemon => if PhaseOf(s) in {Some(Made), Some(Void)} then Some(SchedStart) else None
    case SchedStart => None
    case WakeCheck => if Parked(s) then Some(WakeTest) else None
    case WakeTest => Some(if s.timer.Some? then WakeCancel else ConnectEntry)
    case WakeCancel => Some(WakeClear)
    case WakeClear => Some(ConnectEntry)
    case TimerFired => if s.running then Some(ConnectEntry) else None
    case StopCancel => Some(StopClear)
    case StopClear => None
  }

  /** What it does to the timers on the way: never anything to state, links or ownership. */
  function TimerEffect(s: Mirror, pc: Pc, id: nat): (s': Mirror)
    ensures s' == s.(timer := s'.timer, timers := s'.timers) && s.timers.Keys <= s'.timers.Keys
    ensures s'.timer.Some? ==> s'.timer.value in s'.timers || s'.timer == s.timer
  {
    match pc
    case SchedCancel => Disarm(s)
    case SchedCreate => s.(timer := Some(id), timers := s.timers[id := Made])
    case SchedStart => StartTimer(s)
    case WakeCancel => Disarm(s)
    case WakeClear => s.(timer := None)
    case StopCancel => Disarm(s)
    case StopClear => s.(timer := None)
    case _ => s
  }

  /** Steps outside the state lock. */
  function TimerStep(s: Mirror, t: nat, id: nat): (s': Mirror)
    requires t in s.threads && Schedules(s.threads[t])
    ensures OnlyMoves(s, s', t) && s'.st == s.st && s'.links == s.links && s'.token == s.token
  {
    var s1 := TimerEffect(s, s.threads[t], id);
    match NextPc(s, s.threads[t])
    case Some(pc) => Goto(s1, t, pc)
    case None => End(s1, t)
  }

  predicate IsCallback(pc: Pc) {
    pc.OnLinked? || pc.OnClosed?
  }

  predicate LockedStep(s: Mirror, s': Mirror, t: nat) {
    && OnlyMoves(s, s', t) && s'.timer == s.timer && s'.timers == s.timers
    && (t in s'.threads ==> !Stopping(s'.threads[t]) && !s'.threads[t].OnLinked?)
    && (Parked(s') && !Parked(s) ==> t in s'.threads && s'.threads[t] == SchedCheck)
  }

  /** The link callbacks, under the state lock. */
  function CallbackStep(s: Mirror, t: nat): (s': Mirror)
    requires t in s.threads && IsCallback(s.threads[t])
    ensures LockedStep(s, s', t)
  {
    match s.threads[t]
    case OnLinked(l) =>
      End(s, t).(st := Linked, links := if l in s.links && s.links[l] == Announcing then s.links[l := Up] else s.links)
    case OnClosed(l) => Goto(s, t, SchedCheck).(st := Closed, token := None)
  }

  /** The stretches of `_connect`: under the state lock, or building the link. */
  function ConnectStep(s: Mirror, t: nat, outcome: Outcome): (s': Mirror)
    requires t in s.threads && !Schedules(s.threads[t]) && !IsCallback(s.threads[t])
    ensures LockedStep(s, s', t)
  {
    match s.threads[t]
    case ConnectEntry =>
      if !s.running || Busy(s) then End(s, t)
      else Goto(s, t, Recalling).(st := Connecting, token := Some(ByThread(t)))
    case Recalling =>
      (match outcome
       case RecallNone => Goto(s, t, ParkWaiting)
       case LinkRaises => Goto(s, t, ParkClosed)
       case LinkBuilt(l) => Goto(s, t, StoreLink(l)).(links := s.links[l := Built]))
    case ParkWaiting => Goto(s, t, SchedCheck).(st := Waiting, token := None)
    case ParkClosed => Goto(s, t, SchedCheck).(st := Closed, token := None)
    case StoreLink(l) => End(s, t).(links := s.links[l := Ready], token := Some(ByLink(l)))
  }

  /** None of these steps touches the timers. */
  function LinkStep(s: Mirror, t: nat, outcome: Outcome): (s': Mirror)
    requires t in s.threads && !Schedules(s.threads[t])
    ensures LockedStep(s, s', t)
  {
    if IsCallback(s.threads[t]) then CallbackStep(s, t) else ConnectStep(s, t, outcome)
  }

  function RunThread(s: Mirror, t: nat, outcome: Outcome, id: nat): Mirror
    requires t in s.threads
  {
    if Schedules(s.threads[t]) then TimerStep(s, t, id) else LinkStep(s, t, outcome)
  }

  function Step(s: Mirror, e: Event): Mirror
    requires Enabled(s, e)
  {
    match e
    case Start(t) => Goto(s, t, ConnectEntry).(started := true, running := true)
    case Wake(t) => Goto(s, t, WakeCheck)
    case TimerFires(id, t) => Goto(s, t, TimerFired).(timers := s.timers[id := Spent])
    case LinkUp(l, t) => Goto(s, t, OnLinked(l)).(links := s.links[l := Announcing])
    case LinkDown(l, t) => Goto(s, t, OnClosed(l)).(links := s.links[l := Gone], token := Some(ByThread(t)))
    case Stop(t) => Goto(s, t, StopCancel).(running := false)
    case Run(t, outcome, id) => RunThread(s, t, outcome, id)
  }

  ghost predicate IsRun(s: Mirror, es: seq<Event>)
    decreases |es|
  {
    es == [] || (Enabled(s, es[0]) && IsRun(Step(s, es[0]), es[1..]))
  }

  ghost function RunOf(s: Mirror, es: seq<Event>): Mirror
    requires IsRun(s, es)
    decreases |es|
  {
    if es == [] then s else RunOf(Step(s, es[0]), es[1..])
  }

  lemma RunCons(s: Mirror, e: Event, es: seq<Event>)
    requires Enabled(s, e) && IsRun(Step(s, e), es)
    ensures IsRun(s, [e] + es) && RunOf(s, [e] + es) == RunOf(Step(s, e), es)
  {
    assert ([e] + es)[1..] == es;
  }

  // ---- Invariant ----

  /** Threads that will connect or arm a timer; past the creation, only if the referenced timer can still be armed. */
  predicate WillRetry(s: Mirror, pc: Pc) {
    || pc.ConnectEntry? || pc.SchedCheck? || pc.SchedCancel? || pc.SchedCreate?
    || pc.WakeTest? || pc.WakeCancel? || pc.WakeClear? || pc.TimerFired?
    || ((pc.SchedDaemon? || pc.SchedStart?) && PhaseOf(s) == Some(Made))
  }

  ghost predicate OneOwner(s: Mirror) {
    && (s.token.Some? ==> Busy(s))
    && (s.st == Connecting ==> s.token.Some?)
    && (forall t :: t in s.threads && Carries(s.threads[t]) ==> s.token == Some(ByThread(t)))
    && (forall l :: l in s.links && Live(s.links[l]) ==> s.token == Some(ByLink(l)))
    && (forall t :: t in s.threads && s.threads[t].StoreLink? ==> s.threads[t].built in s.links && s.links[s.threads[t].built] == Built)
    && (s.token.Some? ==>
          match s.token.value
          case ByThread(t) => t in s.threads && Carries(s.threads[t])
          case ByLink(l) => l in s.links && Live(s.links[l]))
  }

  ghost predicate HasRetry(s: Mirror) {
    || (exists id :: id in s.timers && s.timers[id] == Armed)
    || (exists t :: t in s.threads && WillRetry(s, s.threads[t]))
  }

  ghost predicate NotStalled(s: Mirror) {
    s.running && Parked(s) ==> HasRetry(s)
  }

  ghost predicate Lifecycle(s: Mirror) {
    && (!s.started ==> !s.running && s.st == Idle && s.threads == map[] && s.links == map[] && s.timers == map[])
    && (forall t :: t in s.threads && Stopping(s.threads[t]) ==> s.started && !s.running)
    && (s.timer.Some? ==> s.timer.value in s.timers)
  }

  ghost predicate Inv(s: Mirror) {
    OneOwner(s) && NotStalled(s) && Lifecycle(s)
  }

  lemma NewThreadKeepsOwner(s: Mirror, s': Mirror, t: nat, pc: Pc)
    requires OneOwner(s) && t !in s.threads && !Carries(pc)
    requires s'.st == s.st && s'.links == s.links && s'.token == s.token && s'.threads == s.threads[t := pc]
    ensures OneOwner(s')
  {
  }

  lemma LinkUpKeepsOwner(s: Mirror, l: nat, t: nat)
    requires OneOwner(s) && Enabled(s, LinkUp(l, t))
    ensures OneOwner(Step(s, LinkUp(l, t)))
  {
  }

  lemma LinkDownKeepsOwner(s: Mirror, l: nat, t: nat)
    requires OneOwner(s) && Enabled(s, LinkDown(l, t))
    ensures OneOwner(Step(s, LinkDown(l, t)))
  {
  }

  lemma SpawnKeepsOwner(s: Mirror, e: Event)
    requires OneOwner(s) && Enabled(s, e) && !e.Run?
    ensures OneOwner(Step(s, e))
  {
    match e
    case LinkUp(l, t) => LinkUpKeepsOwner(s, l, t);
    case LinkDown(l, t) => LinkDownKeepsOwner(s, l, t);
    case Start(t) => NewThreadKeepsOwner(s, Step(s, e), t, ConnectEntry);
    case Wake(t) => NewThreadKeepsOwner(s, Step(s, e), t, WakeCheck);
    case TimerFires(_, t) => NewThreadKeepsOwner(s, Step(s, e), t, TimerFired);
    case Stop(t) => NewThreadKeepsOwner(s, Step(s, e), t, StopCancel);
  }

  lemma EntryKeepsOwner(s: Mirror, t: nat, outcome: Outcome)
    requires OneOwner(s) && t in s.threads && s.threads[t].ConnectEntry?
    ensures OneOwner(LinkStep(s, t, outcome))
  {
  }

  lemma ConnectKeepsOwner(s: Mirror, t: nat, outcome: Outcome)
    requires OneOwner(s) && t in s.threads
    requires s.threads[t].Recalling? && (outcome.LinkBuilt? ==> outcome.l !in s.links)
    ensures OneOwner(LinkStep(s, t, outcome))
  {
  }

  lemma ParkKeepsOwner(s: Mirror, t: nat, outcome: Outcome)
    requires OneOwner(s) && t in s.threads
    requires s.threads[t].ParkWaiting? || s.threads[t].ParkClosed? || s.threads[t].OnClosed?
    ensures OneOwner(LinkStep(s, t, outcome))
  {
  }

  lemma LinkKeepsOwner(s: Mirror, t: nat, outcome: Outcome)
    requires OneOwner(s) && t in s.threads
    requires s.threads[t].StoreLink? || s.threads[t].OnLinked?
    ensures OneOwner(LinkStep(s, t, outcome))
  {
  }

  lemma TimerKeepsOwner(s: Mirror, s': Mirror, t: nat)
    requires OneOwner(s) && t in s.threads && !Carries(s.threads[t]) && OnlyMoves(s, s', t)
    requires s'.st == s.st && s'.links == s.links && s'.token == s.token
    requires t in s'.threads ==> !Carries(s'.threads[t])
    ensures OneOwner(s')
  {
  }

  lemma RunKeepsOwner(s: Mirror, t: nat, outcome: Outcome, id: nat)
    requires OneOwner(s) && Enabled(s, Run(t, outcome, id))
    ensures OneOwner(RunThread(s, t, outcome, id))
  {
    if Schedules(s.threads[t]) {
      TimerKeepsOwner(s, TimerStep(s, t, id), t);
    } else if s.threads[t].StoreLink? || s.threads[t].OnLinked? {
      LinkKeepsOwner(s, t, outcome);
    } else if s.threads[t].ConnectEntry? {
      EntryKeepsOwner(s, t, outcome);
    } else if !s.threads[t].Recalling? {
      ParkKeepsOwner(s, t, outcome);
    } else {
      ConnectKeepsOwner(s, t, outcome);
    }
  }

  lemma StepKeepsOwner(s: Mirror, e: Event)
    requires OneOwner(s) && Enabled(s, e)
    ensures OneOwner(Step(s, e))
  {
    if e.Run? {
      RunKeepsOwner(s, e.t, e.outcome, e.id);
    } else {
      SpawnKeepsOwner(s, e);
    }
  }

  // ---- A parked mirror retries ----

  /** Threads whose next step touches the timers. */
  predicate Touches(pc: Pc) {
    pc.SchedCancel? || pc.SchedCreate? || pc.SchedStart? || pc.WakeCancel? || pc.WakeClear? || Stopping(pc)
  }

  /** A thread that disturbs another's timer will itself retry. */
  lemma TouchRetries(s: Mirror, e: Event)
    requires Enabled(s, e) && e.Run? && s.running && Parked(s) && Lifecycle(s) && Touches(s.threads[e.t])
    requires HasRetry(s)
    ensures HasRetry(Step(s, e))
  {
    var s', pc := Step(s, e), s.threads[e.t];
    if pc.SchedStart? {
      StartRetries(s, e);
    } else {
      assert e.t in s'.threads && WillRetry(s', s'.threads[e.t]);
    }
  }

  lemma StartRetries(s: Mirror, e: Event)
    requires Enabled(s, e) && e.Run? && s.threads[e.t].SchedStart? && HasRetry(s)
    ensures HasRetry(Step(s, e))
  {
    var s' := Step(s, e);
    if PhaseOf(s) == Some(Made) {
      assert s'.timers[s.timer.value] == Armed;
    } else if id :| id in s.timers && s.timers[id] == Armed {
      assert s'.timers[id] == Armed;
    } else {
      var t :| t in s.threads && WillRetry(s, s.threads[t]);
      assert t in s'.threads && WillRetry(s', s'.threads[t]);
    }
  }

  /** A step that leaves the timers alone. */
  lemma QuietRetries(s: Mirror, s': Mirror, t: nat)
    requires HasRetry(s) && t in s.threads && OnlyMoves(s, s', t) && s'.timers == s.timers && s'.timer == s.timer
    requires WillRetry(s, s.threads[t]) ==> t in s'.threads && WillRetry(s', s'.threads[t])
    ensures HasRetry(s')
  {
    if id :| id in s.timers && s.timers[id] == Armed {
      assert s'.timers[id] == Armed;
    } else {
      var u :| u in s.threads && WillRetry(s, s.threads[u]);
      assert u in s'.threads && WillRetry(s', s'.threads[u]);
    }
  }

  /** A thread that will retry goes on doing so until it connects, arms a timer, or finds the mirror stopped. */
  lemma RetryIsKept(s: Mirror, e: Event)
    requires Inv(s) && Enabled(s, e) && s.running && Parked(s)
    ensures var s' := Step(s, e); s'.running && Parked(s') ==> HasRetry(s')
  {
    if e.Run? && Touches(s.threads[e.t]) {
      TouchRetries(s, e);
    } else if e.Run? {
      if Parked(Step(s, e)) {
        QuietRetries(s, Step(s, e), e.t);
      }
    } else {
      SpawnRetries(s, e);
    }
  }

  lemma SpawnRetries(s: Mirror, e: Event)
    requires Enabled(s, e) && !e.Run? && HasRetry(s)
    ensures HasRetry(Step(s, e))
  {
    var s' := Step(s, e);
    if e.TimerFires? {
      assert WillRetry(s', s'.threads[e.t]);
    } else if id :| id in s.timers && s.timers[id] == Armed {
      assert s'.timers[id] == Armed;
    } else {
      var t :| t in s.threads && WillRetry(s, s.threads[t]);
      assert t in s'.threads && WillRetry(s', s'.threads[t]);
    }
  }

  /** Parking always comes with a thread that schedules the retry. */
  lemma ParkingRetries(s: Mirror, e: Event)
    requires Enabled(s, e) && !Parked(s)
    ensures Parked(Step(s, e)) ==> HasRetry(Step(s, e))
  {
    if e.Run? && (s.threads[e.t].ParkWaiting? || s.threads[e.t].ParkClosed? || s.threads[e.t].OnClosed?) {
      assert Step(s, e).threads[e.t] == SchedCheck;
    } else {
      assert Step(s, e).st in {s.st, Connecting, Linked};
    }
  }

  lemma StepKeepsLifecycle(s: Mirror, e: Event)
    requires Lifecycle(s) && Enabled(s, e)
    ensures Lifecycle(Step(s, e))
  {
    if e.Run? {
      MoveKeepsLifecycle(s, Step(s, e), e.t);
    }
  }

  lemma MoveKeepsLifecycle(s: Mirror, s': Mirror, t: nat)
    requires Lifecycle(s) && t in s.threads && OnlyMoves(s, s', t)
    requires t in s'.threads && Stopping(s'.threads[t]) ==> Stopping(s.threads[t])
    requires s'.timer.Some? ==> s'.timer.value in s'.timers
    ensures Lifecycle(s')
  {
  }

  lemma StepKeepsInv(s: Mirror, e: Event)
    requires Inv(s) && Enabled(s, e)
    ensures Inv(Step(s, e))
  {
    StepKeepsLifecycle(s, e);
    StepKeepsOwner(s, e);
    if !Parked(s) {
      ParkingRetries(s, e);
    } else if s.running {
      RetryIsKept(s, e);
    }
  }

  lemma {:induction false} RunKeepsInv(s: Mirror, es: seq<Event>)
    requires Inv(s) && IsRun(s, es)
    ensures Inv(RunOf(s, es))
    decreases |es|
  {
    if es != [] {
      StepKeepsInv(s, es[0]);
      RunKeepsInv(Step(s, es[0]), es[1..]);
    }
  }

  /**
   * In every interleaving there is at most one live link, and a running mirror
   * that is parked has an armed timer or a thread about to connect or schedule.
   */
  lemma AtMostOneLinkNeverStalled(es: seq<Event>)
    requires IsRun(Begin, es)
    ensures var s := RunOf(Begin, es);
            && (forall k, l :: k in s.links && l in s.links && Live(s.links[k]) && Live(s.links[l]) ==> k == l)
            && NotStalled(s)
  {
    RunKeepsInv(Begin, es);
  }

  // ---- Recovery ----

  lemma FreshId(used: set<nat>) returns (n: nat)
    ensures n !in used
  {
    n := 0;
    var rest, top := used, 0;
    while rest != {}
      invariant rest <= used && forall x :: x in used && x !in rest ==> x < top
      decreases rest
    {
      var x :| x in rest;
      rest := rest - {x};
      if x >= top {
        top := x + 1;
      }
    }
    n := top;
  }

  function Rank(pc: Pc): nat {
    match pc
    case ConnectEntry => 1
    case TimerFired => 2
    case WakeClear => 2
    case WakeCancel => 3
    case WakeTest => 4
    case SchedStart => 4
    case SchedDaemon => 5
    case SchedCreate => 6
    case SchedCancel => 7
    case SchedCheck => 8
    case _ => 0
  }

  lemma {:induction false} ThreadReconnects(s: Mirror, t: nat) returns (es: seq<Event>)
    requires s.running && Parked(s) && t in s.threads && WillRetry(s, s.threads[t])
    ensures IsRun(s, es) && RunOf(s, es).st == Connecting
    decreases Rank(s.threads[t])
  {
    var id := FreshId(s.timers.Keys);
    var e := Run(t, RecallNone, id);
    var s1 := Step(s, e);
    var rest := [];
    if s.threads[t].SchedStart? {
      var f := TimerFires(s.timer.value, t);
      rest := ThreadReconnects(Step(s1, f), t);
      RunCons(s1, f, rest);
      rest := [f] + rest;
    } else if !s.threads[t].ConnectEntry? {
      rest := ThreadReconnects(s1, t);
    }
    RunCons(s, e, rest);
    es := [e] + rest;
  }

  /** From every reachable parked state of a running mirror some schedule leads to a new connection attempt. */
  lemma CanAlwaysReconnect(s: Mirror) returns (es: seq<Event>)
    requires Inv(s) && s.running && Parked(s)
    ensures IsRun(s, es) && RunOf(s, es).st == Connecting
  {
    if t :| t in s.threads && WillRetry(s, s.threads[t]) {
      es := ThreadReconnects(s, t);
    } else {
      var id :| id in s.timers && s.timers[id] == Armed;
      var t := FreshId(s.threads.Keys);
      var e := TimerFires(id, t);
      var rest := ThreadReconnects(Step(s, e), t);
      RunCons(s, e, rest);
      es := [e] + rest;
    }
  }

  // ---- A stopped mirror ----

  predicate Stopped(s: Mirror) {
    s.started && !s.running
  }

  /** The threads in the middle of a connection attempt. */
  function Attempting(s: Mirror): set<nat> {
    set t | t in s.threads && s.threads[t].Recalling?
  }

  lemma StoppedStep(s: Mirror, e: Event)
    requires Stopped(s) && Enabled(s, e)
    ensures Stopped(Step(s, e)) && Attempting(Step(s, e)) <= Attempting(s)
    ensures Step(s, e).st == Connecting ==> s.st == Connecting
  {
    if e.Run? {
      var s' := Step(s, e);
      assert OnlyMoves(s, s', e.t);
      assert e.t in s'.threads ==> !s'.threads[e.t].Recalling?;
    }
  }

  /** Only a thread in the middle of an attempt builds a link. */
  lemma OnlyAttemptsBuild(s: Mirror, e: Event)
    requires OneOwner(s) && Enabled(s, e) && Attempting(s) == {}
    ensures Step(s, e).links.Keys == s.links.Keys
  {
    if e.Run? && !Schedules(s.threads[e.t]) {
      assert e.t !in Attempting(s);
    }
  }

  /** Once stopped, a mirror never starts an attempt again. */
  lemma {:induction false} StoppedForGood(s: Mirror, es: seq<Event>)
    requires Stopped(s) && IsRun(s, es)
    ensures var t := RunOf(s, es);
            Stopped(t) && Attempting(t) <= Attempting(s) && (t.st == Connecting ==> s.st == Connecting)
    decreases |es|
  {
    if es != [] {
      StoppedStep(s, es[0]);
      StoppedForGood(Step(s, es[0]), es[1..]);
    }
  }

  /** And with no attempt under way it never builds another link. */
  lemma {:induction false} StoppedBuildsNothing(s: Mirror, es: seq<Event>)
    requires OneOwner(s) && Stopped(s) && IsRun(s, es) && Attempting(s) == {}
    ensures RunOf(s, es).links.Keys == s.links.Keys
    decreases |es|
  {
    if es != [] {
      StoppedStep(s, es[0]);
      OnlyAttemptsBuild(s, es[0]);
      StepKeepsOwner(s, es[0]);
      StoppedBuildsNothing(Step(s, es[0]), es[1..]);
    }
  }

  // ---- When the mirror is stranded ----

  /** Recorded as linked, while no link is live and none is being built. */
  ghost predicate Ghosted(s: Mirror) {
    && s.st == Linked
    && (forall l :: l in s.links ==> !Live(s.links[l]))
    && (forall t :: t in s.threads ==> !Carries(s.threads[t]))
  }

  /** The established callback runs although the mirror is neither connecting nor linked. */
  predicate Late(s: Mirror, e: Event) {
    e.Run? && e.t in s.threads && s.threads[e.t].OnLinked? && !Busy(s)
  }

  ghost predicate AnyLate(s: Mirror, es: seq<Event>)
    requires IsRun(s, es)
    decreases |es|
  {
    es != [] && (Late(s, es[0]) || AnyLate(Step(s, es[0]), es[1..]))
  }

  predicate Unowned(s: Mirror) {
    s.st == Linked && s.token.None?
  }

  lemma GhostedIsUnowned(s: Mirror)
    requires OneOwner(s)
    ensures Ghosted(s) <==> Unowned(s)
  {
  }

  lemma LinkUnownedIff(s: Mirror, t: nat, outcome: Outcome)
    requires OneOwner(s) && t in s.threads && !Schedules(s.threads[t])
    ensures Unowned(LinkStep(s, t, outcome)) <==> Unowned(s) || (s.threads[t].OnLinked? && !Busy(s))
  {
  }

  lemma SpawnUnownedIff(s: Mirror, e: Event)
    requires OneOwner(s) && Enabled(s, e) && !e.Run?
    ensures Unowned(Step(s, e)) <==> Unowned(s)
  {
  }

  lemma UnownedIff(s: Mirror, e: Event)
    requires OneOwner(s) && Enabled(s, e)
    ensures Unowned(Step(s, e)) <==> Unowned(s) || Late(s, e)
  {
    if !e.Run? {
      SpawnUnownedIff(s, e);
    } else if !Schedules(s.threads[e.t]) {
      LinkUnownedIff(s, e.t, e.outcome);
    }
  }

  /** One step strands the mirror exactly by such a late callback, and no step frees it. */
  lemma GhostsIff(s: Mirror, e: Event)
    requires OneOwner(s) && Enabled(s, e)
    ensures Ghosted(Step(s, e)) <==> Ghosted(s) || Late(s, e)
  {
    StepKeepsOwner(s, e);
    UnownedIff(s, e);
    GhostedIsUnowned(s);
    GhostedIsUnowned(Step(s, e));
  }

  lemma {:induction false} RunGhostsIff(s: Mirror, es: seq<Event>)
    requires Inv(s) && IsRun(s, es)
    ensures Ghosted(RunOf(s, es)) <==> Ghosted(s) || AnyLate(s, es)
    decreases |es|
  {
    if es != [] {
      GhostsIff(s, es[0]);
      StepKeepsInv(s, es[0]);
      RunGhostsIff(Step(s, es[0]), es[1..]);
    }
  }

  /** A run ends stranded if and only if in its course an established callback ran on a mirror neither connecting nor linked. */
  lemma GhostedIff(es: seq<Event>)
    requires IsRun(Begin, es)
    ensures Ghosted(RunOf(Begin, es)) <==> AnyLate(Begin, es)
  {
    RunGhostsIff(Begin, es);
  }

  /** Stranded once, stranded for good: no timer, wake-up or callback ever makes the mirror connect again. */
  lemma GhostedForever(s: Mirror, es: seq<Event>)
    requires Inv(s) && Ghosted(s) && IsRun(s, es)
    ensures Ghosted(RunOf(s, es))
  {
    RunGhostsIff(s, es);
  }

  // ---- Callbacks of one link in order ----

  /** The closed callback waits for the established one. */
  predicate InOrder(s: Mirror, e: Event) {
    e.LinkDown? && e.l in s.links ==> s.links[e.l] != Announcing
  }

  ghost predicate OrderedRun(s: Mirror, es: seq<Event>)
    requires IsRun(s, es)
    decreases |es|
  {
    es == [] || (InOrder(s, es[0]) && OrderedRun(Step(s, es[0]), es[1..]))
  }

  /** Every pending established callback is the only one of a link that is still waiting for it. */
  ghost predicate Pending(s: Mirror) {
    && (forall t :: t in s.threads && s.threads[t].OnLinked? ==> s.threads[t].up in s.links && s.links[s.threads[t].up] == Announcing)
    && (forall t, u :: t in s.threads && u in s.threads && s.threads[t].OnLinked? && s.threads[t] == s.threads[u] ==> t == u)
  }

  lemma PendingFrame(s: Mirror, s': Mirror, t: nat)
    requires Pending(s) && OnlyMoves(s, s', t) && (t in s'.threads ==> !s'.threads[t].OnLinked?)
    requires forall l :: l in s.links && s.links[l] == Announcing ==> l in s'.links && s'.links[l] == Announcing
    ensures Pending(s')
  {
  }

  lemma PendingRun(s: Mirror, t: nat, outcome: Outcome)
    requires OneOwner(s) && Pending(s) && t in s.threads && !Schedules(s.threads[t]) && (outcome.LinkBuilt? ==> outcome.l !in s.links)
    ensures Pending(LinkStep(s, t, outcome))
  {
    if !s.threads[t].OnLinked? {
      PendingFrame(s, LinkStep(s, t, outcome), t);
    } else {
      var l := s.threads[t].up;
      assert LinkStep(s, t, outcome).links == s.links[l := Up];
    }
  }

  lemma PendingUp(s: Mirror, l: nat, t: nat)
    requires Pending(s) && Enabled(s, LinkUp(l, t))
    ensures Pending(Step(s, LinkUp(l, t)))
  {
  }

  lemma PendingDown(s: Mirror, l: nat, t: nat)
    requires Pending(s) && Enabled(s, LinkDown(l, t)) && InOrder(s, LinkDown(l, t))
    ensures Pending(Step(s, LinkDown(l, t)))
  {
  }

  lemma PendingNew(s: Mirror, s': Mirror, t: nat, pc: Pc)
    requires Pending(s) && s'.threads == s.threads[t := pc] && t !in s.threads && !pc.OnLinked? && s'.links == s.links
    ensures Pending(s')
  {
  }

  lemma StepKeepsPending(s: Mirror, e: Event)
    requires OneOwner(s) && Pending(s) && Enabled(s, e) && InOrder(s, e)
    ensures Pending(Step(s, e))
  {
    match e
    case LinkUp(l, t) => PendingUp(s, l, t);
    case LinkDown(l, t) => PendingDown(s, l, t);
    case Run(t, outcome, _) =>
      if Schedules(s.threads[t]) {
        PendingFrame(s, Step(s, e), t);
      } else {
        PendingRun(s, t, outcome);
      }
    case Start(t) => PendingNew(s, Step(s, e), t, ConnectEntry);
    case Wake(t) => PendingNew(s, Step(s, e), t, WakeCheck);
    case TimerFires(_, t) => PendingNew(s, Step(s, e), t, TimerFired);
    case Stop(t) => PendingNew(s, Step(s, e), t, StopCancel);
  }

  lemma {:induction false} OrderedNeverLate(s: Mirror, es: seq<Event>)
    requires Inv(s) && Pending(s) && IsRun(s, es) && OrderedRun(s, es)
    ensures !AnyLate(s, es)
    decreases |es|
  {
    if es != [] {
      StepKeepsPending(s, es[0]);
      StepKeepsInv(s, es[0]);
      OrderedNeverLate(Step(s, es[0]), es[1..]);
    }
  }

  /** With each link's callbacks in order no run strands the mirror. */
  lemma OrderedNeverGhosts(es: seq<Event>)
    requires IsRun(Begin, es) && OrderedRun(Begin, es)
    ensures !Ghosted(RunOf(Begin, es))
  {
    OrderedNeverLate(Begin, es);
    RunGhostsIff(Begin, es);
  }

  // ---- A stranding run ----

  /** A link is built and stored: the callbacks have not fired yet. */
  const STORED := Mirror(true, true, Connecting, None, map[], map[], map[0 := Ready], Some(ByLink(0)))

  const CONNECT := [Start(0), Run(0, RecallNone, 0), Run(0, LinkBuilt(0), 0), Run(0, RecallNone, 0)]

  /** The link comes up and is lost before the established callback has run. */
  const OVERTAKE := [LinkUp(0, 1), LinkDown(0, 2), Run(2, RecallNone, 0), Run(1, RecallNone, 0)]

  lemma FourSteps(s: Mirror, a: Event, b: Event, c: Event, d: Event, s1: Mirror, s2: Mirror, s3: Mirror, s4: Mirror, es: seq<Event>)
    requires Enabled(s, a) && s1 == Step(s, a) && Enabled(s1, b) && s2 == Step(s1, b)
    requires Enabled(s2, c) && s3 == Step(s2, c) && Enabled(s3, d) && s4 == Step(s3, d) && IsRun(s4, es)
    ensures IsRun(s, [a, b, c, d] + es) && RunOf(s, [a, b, c, d] + es) == RunOf(s4, es)
  {
    RunCons(s3, d, es);
    RunCons(s2, c, [d] + es);
    RunCons(s1, b, [c] + ([d] + es));
    RunCons(s, a, [b] + ([c] + ([d] + es)));
    assert [a] + ([b] + ([c] + ([d] + es))) == [a, b, c, d] + es;
  }

  const BUILT := Mirror(true, true, Connecting, None, map[], map[0 := StoreLink(0)], map[0 := Built], Some(ByThread(0)))

  lemma ConnectBuilds() returns (s1: Mirror, s2: Mirror)
    ensures Enabled(Begin, CONNECT[0]) && s1 == Step(Begin, CONNECT[0])
    ensures Enabled(s1, CONNECT[1]) && s2 == Step(s1, CONNECT[1])
    ensures Enabled(s2, CONNECT[2]) && BUILT == Step(s2, CONNECT[2])
  {
    s1 := Begin.(started := true, running := true, threads := map[0 := ConnectEntry]);
    s2 := s1.(st := Connecting, token := Some(ByThread(0)), threads := map[0 := Recalling]);
  }

  lemma BuiltIsStored()
    ensures Enabled(BUILT, CONNECT[3]) && STORED == Step(BUILT, CONNECT[3])
  {
    assert map[0 := Built][0 := Ready] == map[0 := Ready] && map[0 := StoreLink(0)] - {0} == map[];
  }

  lemma ConnectStores(es: seq<Event>)
    requires IsRun(STORED, es)
    ensures IsRun(Begin, CONNECT + es) && RunOf(Begin, CONNECT + es) == RunOf(STORED, es)
  {
    var s1, s2 := ConnectBuilds();
    BuiltIsStored();
    FourSteps(Begin, CONNECT[0], CONNECT[1], CONNECT[2], CONNECT[3], s1, s2, BUILT, STORED, es);
    assert [CONNECT[0], CONNECT[1], CONNECT[2], CONNECT[3]] == CONNECT;
  }

  lemma OvertakeStrands() returns (s: Mirror)
    ensures IsRun(STORED, OVERTAKE) && RunOf(STORED, OVERTAKE) == s && Ghosted(s)
  {
    var s1 := STORED.(threads := map[1 := OnLinked(0)], links := map[0 := Announcing]);
    var s2 := s1.(threads := map[1 := OnLinked(0), 2 := OnClosed(0)], links := map[0 := Gone], token := Some(ByThread(2)));
    var s3 := s2.(threads := map[1 := OnLinked(0), 2 := SchedCheck], st := Closed, token := None);
    s := s3.(threads := map[2 := SchedCheck], st := Linked);
    assert s3.threads - {1} == s.threads && s2.threads[2 := SchedCheck] == s3.threads;
    FourSteps(STORED, OVERTAKE[0], OVERTAKE[1], OVERTAKE[2], OVERTAKE[3], s1, s2, s3, s, []);
    assert OVERTAKE + [] == OVERTAKE;
  }

  /** From the beginning, a closed callback that overtakes the established one strands the mirror. */
  lemma OvertakingGhosts()
    ensures IsRun(Begin, CONNECT + OVERTAKE) && Ghosted(RunOf(Begin, CONNECT + OVERTAKE))
  {
    var s := OvertakeStrands();
    ConnectStores(OVERTAKE);
  }
}
