/**
 * The mirror's threads one at a time: what an attempt, a wake-up and a stop come
 * to, and that backoff timers do not pile up.
 */
module MirrorTimers {
  import opened Common
  import opened MirrorLink

  // ---- A stopped mirror arms nothing ----

  predicate IsArming(pc: Pc) {
    pc.SchedCancel? || pc.SchedCreate? || pc.SchedDaemon? || pc.SchedStart?
  }

  /** Threads past the check that the mirror runs, on their way to arm a timer. */
  function Arming(s: Mirror): set<nat> {
    set t | t in s.threads && IsArming(s.threads[t])
  }

  lemma StoppedMove(s: Mirror, e: Event)
    requires Stopped(s) && Enabled(s, e) && e.Run?
    ensures var s' := Step(s, e);
            OnlyMoves(s, s', e.t) && (e.t in s'.threads && IsArming(s'.threads[e.t]) ==> IsArming(s.threads[e.t]))
  {
  }

  /** A stopped mirror sets no thread on its way to arm a timer. */
  lemma StoppedArmsNothing(s: Mirror, e: Event)
    requires Stopped(s) && Enabled(s, e)
    ensures Arming(Step(s, e)) <= Arming(s)
  {
    if e.Run? {
      StoppedMove(s, e);
    }
  }

  /** It ends every thread at the check that the mirror runs. */
  lemma StoppedEnds(s: Mirror, e: Event)
    requires Stopped(s) && Enabled(s, e) && e.Run?
    requires s.threads[e.t].TimerFired? || s.threads[e.t].SchedCheck? || s.threads[e.t].ConnectEntry?
    ensures Step(s, e) == End(s, e.t)
  {
  }

  // ---- What one thread does when left alone ----

  predicate CanAttempt(s: Mirror, t: nat) {
    s.running && !Busy(s) && t in s.threads && s.threads[t] == ConnectEntry
  }

  function ThreeTimes(s: Mirror, t: nat, outcome: Outcome, id: nat): Option<Mirror> {
    if t !in s.threads then None
    else
      var s1 := RunThread(s, t, outcome, id);
      if t !in s1.threads then None
      else
        var s2 := RunThread(s1, t, outcome, id);
        if t !in s2.threads then None else Some(RunThread(s2, t, outcome, id))
  }

  /** With no identity known the mirror waits for a path, and the thread schedules a retry. */
  lemma UnknownWaits(s: Mirror, t: nat, id: nat)
    requires CanAttempt(s, t)
    ensures ThreeTimes(s, t, RecallNone, id) == Some(s.(st := Waiting, token := None, threads := s.threads[t := SchedCheck]))
  {
    assert s.threads[t := Recalling][t := ParkWaiting][t := SchedCheck] == s.threads[t := SchedCheck];
  }

  /** If the link cannot be built the mirror is closed, and the thread schedules a retry. */
  lemma FailureCloses(s: Mirror, t: nat, id: nat)
    requires CanAttempt(s, t)
    ensures ThreeTimes(s, t, LinkRaises, id) == Some(s.(st := Closed, token := None, threads := s.threads[t := SchedCheck]))
  {
    assert s.threads[t := Recalling][t := ParkClosed][t := SchedCheck] == s.threads[t := SchedCheck];
  }

  /** A link that is built is stored, and the mirror stays connecting until its callback. */
  lemma SuccessStores(s: Mirror, t: nat, l: nat, id: nat)
    requires CanAttempt(s, t)
    ensures ThreeTimes(s, t, LinkBuilt(l), id) ==
            Some(s.(st := Connecting, token := Some(ByLink(l)), threads := s.threads - {t}, links := s.links[l := Ready]))
  {
    assert s.threads[t := Recalling][t := StoreLink(l)] - {t} == s.threads - {t};
    assert s.links[l := Built][l := Ready] == s.links[l := Ready];
  }

  /** A wake-up leaves a mirror that is not parked alone. */
  lemma WakeIsIdle(s: Mirror, e: Event)
    requires Enabled(s, e) && e.Run? && s.threads[e.t].WakeCheck? && !Parked(s)
    ensures Step(s, e) == End(s, e.t)
  {
  }

  ghost predicate Alone(es: seq<Event>, t: nat) {
    forall k :: 0 <= k < |es| ==> es[k].Run? && es[k].t == t
  }

  /** The mirror is connecting, and the timer it referred to is cancelled and forgotten. */
  ghost predicate Woken(s: Mirror, s': Mirror) {
    && s'.st == Connecting && s'.timer.None?
    && (s.timer.Some? && s.timer.value in s.timers ==> s.timer.value in s'.timers && s'.timers[s.timer.value] != Armed)
  }

  lemma WakeWithoutTimer(s: Mirror, t: nat, e: Event) returns (es: seq<Event>)
    requires s.running && Parked(s) && t in s.threads && s.threads[t].WakeTest? && s.timer.None?
    requires e.Run? && e == Run(t, RecallNone, e.id) && e.id !in s.timers
    ensures IsRun(s, es) && Alone(es, t) && Woken(s, RunOf(s, es))
  {
    var s1 := Goto(s, t, ConnectEntry);
    RunCons(s1, e, []);
    RunCons(s, e, [e] + []);
    es := [e] + ([e] + []);
  }

  lemma DisarmDisarms(s: Mirror)
    ensures s.timer.Some? && s.timer.value in s.timers ==> Disarm(s).timers[s.timer.value] != Armed
  {
  }

  lemma CancelSteps(s: Mirror, t: nat, e: Event) returns (s1: Mirror, s2: Mirror)
    requires t in s.threads && s.threads[t].WakeTest? && s.timer.Some?
    requires e.Run? && e == Run(t, RecallNone, e.id) && e.id !in s.timers
    ensures s1 == Step(s, e) && Enabled(s1, e) && s2 == Step(s1, e) && Enabled(s2, e)
    ensures s2 == Disarm(s).(threads := s.threads[t := WakeClear])
  {
    s1 := Goto(s, t, WakeCancel);
    s2 := Goto(Disarm(s1), t, WakeClear);
    assert s1.threads[t := WakeClear] == s.threads[t := WakeClear];
  }

  lemma ConnectSteps(s: Mirror, t: nat, e: Event) returns (s1: Mirror, s2: Mirror)
    requires s.running && Parked(s) && t in s.threads && s.threads[t].WakeClear?
    requires e.Run? && e == Run(t, RecallNone, e.id) && e.id !in s.timers
    ensures s1 == Step(s, e) && Enabled(s1, e) && s2 == Step(s1, e)
    ensures s2.st == Connecting && s2.timer.None? && s2.timers == s.timers
  {
    s1 := Goto(s, t, ConnectEntry).(timer := None);
    s2 := Goto(s1, t, Recalling).(st := Connecting, token := Some(ByThread(t)));
  }

  lemma WakeWithTimer(s: Mirror, t: nat, e: Event) returns (es: seq<Event>)
    requires s.running && Parked(s) && t in s.threads && s.threads[t].WakeTest? && s.timer.Some?
    requires e.Run? && e == Run(t, RecallNone, e.id) && e.id !in s.timers
    ensures IsRun(s, es) && Alone(es, t) && Woken(s, RunOf(s, es))
  {
    var s1, s2 := CancelSteps(s, t, e);
    var s3, s4 := ConnectSteps(s2, t, e);
    DisarmDisarms(s);
    FourSteps(s, e, e, e, e, s1, s2, s3, s4, []);
    es := [e, e, e, e] + [];
  }

  /** On a parked, running mirror the wake-up's own thread goes on to start an attempt. */
  lemma WakeConnects(s: Mirror, t: nat) returns (es: seq<Event>)
    requires s.running && Parked(s) && t in s.threads && s.threads[t].WakeCheck?
    ensures IsRun(s, es) && Alone(es, t) && Woken(s, RunOf(s, es))
  {
    var id := FreshId(s.timers.Keys);
    var e := Run(t, RecallNone, id);
    var s1 := Step(s, e);
    if s.timer.None? {
      es := WakeWithoutTimer(s1, t, e);
    } else {
      es := WakeWithTimer(s1, t, e);
    }
    RunCons(s, e, es);
    es := [e] + es;
  }

  // ---- Scheduling and stopping ----

  /** Past its creation of a timer, a thread that finds the reference missing or started dies without a trace. */
  lemma LostReference(s: Mirror, e: Event)
    requires Enabled(s, e) && e.Run? && (s.threads[e.t].SchedDaemon? || s.threads[e.t].SchedStart?)
    requires s.timer.None? || s.timer.value !in s.timers || s.timers[s.timer.value] == Armed || s.timers[s.timer.value] == Spent
    ensures Step(s, e) == End(s, e.t)
  {
  }

  /** Undisturbed, it cancels the old timer and arms the new one. */
  lemma Creates(s: Mirror, t: nat, id: nat)
    requires s.running && t in s.threads && s.threads[t].SchedCancel? && id !in s.timers
    ensures var s1 := TimerStep(s, t, id);
            && t in s1.threads && s1.threads[t].SchedCreate? && s1.timers == Disarm(s).timers
            && var s2 := TimerStep(s1, t, id);
               && t in s2.threads && s2.threads[t].SchedDaemon?
               && s2.timer == Some(id) && s2.timers == Disarm(s).timers[id := Made]
  {
  }

  lemma Starts(s: Mirror, t: nat, id: nat, e: nat)
    requires t in s.threads && s.threads[t].SchedDaemon? && s.timer == Some(id) && id in s.timers && s.timers[id] == Made
    ensures var s1 := TimerStep(s, t, e);
            && t in s1.threads && s1.threads[t].SchedStart?
            && TimerStep(s1, t, e) == s.(threads := s.threads - {t}, timers := s.timers[id := Armed])
  {
    assert s.threads[t := SchedStart] - {t} == s.threads - {t};
  }

  /** The rest of stop cancels the timer referred to and forgets it. */
  lemma StopForgets(s: Mirror, t: nat, id: nat)
    requires t in s.threads && s.threads[t].StopCancel?
    ensures var s1 := TimerStep(s, t, id);
            && t in s1.threads && s1.threads[t].StopClear?
            && TimerStep(s1, t, id) == Disarm(s).(threads := s.threads - {t}, timer := None)
  {
    assert s.threads[t := StopClear] - {t} == s.threads - {t};
  }

  predicate IsOver(s: Mirror, id: nat) {
    id in s.timers && (s.timers[id] == Void || s.timers[id] == Spent)
  }

  /** Cancelling ends a timer, whether it has been started or not. */
  lemma CancelledIsOver(s: Mirror)
    requires s.timer.Some? && s.timer.value in s.timers
    ensures IsOver(Disarm(s), s.timer.value)
  {
  }

  lemma EffectKeepsOver(s: Mirror, pc: Pc, other: nat, id: nat)
    requires IsOver(s, id) && other != id
    ensures IsOver(TimerEffect(s, pc, other), id)
  {
  }

  lemma StepKeepsOver(s: Mirror, e: Event, id: nat)
    requires IsOver(s, id) && Enabled(s, e)
    ensures IsOver(Step(s, e), id)
  {
    if e.Run? && Schedules(s.threads[e.t]) {
      EffectKeepsOver(s, s.threads[e.t], e.id, id);
    }
  }

  /** A timer that was cancelled or has fired never fires again. */
  lemma {:induction false} OverForGood(s: Mirror, es: seq<Event>, id: nat, t: nat)
    requires IsOver(s, id) && IsRun(s, es)
    ensures IsOver(RunOf(s, es), id) && !Enabled(RunOf(s, es), TimerFires(id, t))
    decreases |es|
  {
    if es != [] {
      StepKeepsOver(s, es[0], id);
      OverForGood(Step(s, es[0]), es[1..], id, t);
    }
  }

  // ---- One timer, as long as scheduling does not interleave ----

  /** Between cancelling the old timer and starting the new one, or forgetting it. */
  predicate Swapping(pc: Pc) {
    pc.SchedCreate? || pc.SchedDaemon? || pc.SchedStart? || pc.WakeClear? || pc.StopClear?
  }

  ghost predicate OneSwaps(s: Mirror) {
    forall t, u :: t in s.threads && u in s.threads && Swapping(s.threads[t]) && Swapping(s.threads[u]) ==> t == u
  }

  predicate NobodySwaps(s: Mirror) {
    forall t :: t in s.threads ==> !Swapping(s.threads[t])
  }

  predicate NoneArmed(s: Mirror) {
    forall id :: id in s.timers ==> s.timers[id] != Armed
  }

  /** An armed timer is the one referred to, and there is none during a swap. */
  ghost predicate OneTimer(s: Mirror) {
    && (forall id :: id in s.timers && s.timers[id] == Armed ==> s.timer == Some(id))
    && (!NobodySwaps(s) ==> NoneArmed(s))
  }

  lemma DisarmLeavesNone(s: Mirror)
    requires OneTimer(s)
    ensures NoneArmed(Disarm(s))
  {
  }

  /** With none armed, only starting the referred one arms any. */
  lemma StartsOnlyReferred(s: Mirror, pc: Pc, id: nat)
    requires NoneArmed(s)
    ensures var s' := TimerEffect(s, pc, id);
            && (!pc.SchedStart? ==> NoneArmed(s'))
            && (forall x :: x in s'.timers && s'.timers[x] == Armed ==> s'.timer == Some(x))
  {
  }

  lemma CancelKeepsOne(s: Mirror, t: nat, id: nat)
    requires OneTimer(s) && t in s.threads && (s.threads[t].SchedCancel? || s.threads[t].WakeCancel? || s.threads[t].StopCancel?)
    ensures OneTimer(TimerStep(s, t, id))
  {
    DisarmLeavesNone(s);
    assert TimerStep(s, t, id).timers == Disarm(s).timers;
  }

  lemma SwapKeepsOne(s: Mirror, t: nat, id: nat)
    requires OneTimer(s) && OneSwaps(s) && t in s.threads && Swapping(s.threads[t])
    ensures OneTimer(TimerStep(s, t, id))
  {
    var s', pc := TimerStep(s, t, id), s.threads[t];
    StartsOnlyReferred(s, pc, id);
    if pc.SchedStart? {
      assert NobodySwaps(s');
    }
  }

  lemma TimerStepKeepsOne(s: Mirror, t: nat, id: nat)
    requires OneTimer(s) && OneSwaps(s) && t in s.threads && Schedules(s.threads[t]) && id !in s.timers
    ensures OneTimer(TimerStep(s, t, id))
  {
    var s', pc := TimerStep(s, t, id), s.threads[t];
    if pc.SchedCancel? || pc.WakeCancel? || pc.StopCancel? {
      CancelKeepsOne(s, t, id);
    } else if Swapping(pc) {
      SwapKeepsOne(s, t, id);
    } else {
      assert s'.timers == s.timers && s'.timer == s.timer;
      assert NobodySwaps(s) ==> NobodySwaps(s');
    }
  }

  /** One thread moves, to a place outside a swap, and the timers stay. */
  lemma MoveKeepsOne(s: Mirror, s': Mirror, t: nat)
    requires OneTimer(s) && OnlyMoves(s, s', t) && s'.timer == s.timer && s'.timers == s.timers
    requires t in s'.threads ==> !Swapping(s'.threads[t])
    ensures OneTimer(s')
  {
    assert NobodySwaps(s) ==> NobodySwaps(s');
  }

  lemma NoSwapFromCallback(s: Mirror, t: nat)
    requires t in s.threads && IsCallback(s.threads[t])
    ensures var s' := CallbackStep(s, t); t in s'.threads ==> !Swapping(s'.threads[t])
  {
  }

  lemma NoSwapFromConnect(s: Mirror, t: nat, outcome: Outcome)
    requires t in s.threads && !Schedules(s.threads[t]) && !IsCallback(s.threads[t])
    ensures var s' := ConnectStep(s, t, outcome); t in s'.threads ==> !Swapping(s'.threads[t])
  {
    match s.threads[t]
    case ConnectEntry =>
    case Recalling =>
    case ParkWaiting =>
    case ParkClosed =>
    case StoreLink(_) =>
  }

  lemma LinkStepKeepsOne(s: Mirror, t: nat, outcome: Outcome)
    requires OneTimer(s) && t in s.threads && !Schedules(s.threads[t])
    ensures OneTimer(LinkStep(s, t, outcome))
  {
    if IsCallback(s.threads[t]) {
      NoSwapFromCallback(s, t);
    } else {
      NoSwapFromConnect(s, t, outcome);
    }
    MoveKeepsOne(s, LinkStep(s, t, outcome), t);
  }

  lemma SpawnKeepsOne(s: Mirror, e: Event)
    requires OneTimer(s) && Enabled(s, e) && !e.Run?
    ensures OneTimer(Step(s, e))
  {
    assert NobodySwaps(s) ==> NobodySwaps(Step(s, e));
  }

  lemma StepKeepsOneTimer(s: Mirror, e: Event)
    requires OneTimer(s) && OneSwaps(s) && Enabled(s, e)
    ensures OneTimer(Step(s, e))
  {
    if !e.Run? {
      SpawnKeepsOne(s, e);
    } else if Schedules(s.threads[e.t]) {
      TimerStepKeepsOne(s, e.t, e.id);
    } else {
      LinkStepKeepsOne(s, e.t, e.outcome);
    }
  }

  ghost predicate NeverInterleaves(s: Mirror, es: seq<Event>)
    requires IsRun(s, es)
    decreases |es|
  {
    OneSwaps(s) && (es != [] ==> NeverInterleaves(Step(s, es[0]), es[1..]))
  }

  lemma {:induction false} RunKeepsOneTimer(s: Mirror, es: seq<Event>)
    requires OneTimer(s) && IsRun(s, es) && NeverInterleaves(s, es)
    ensures OneTimer(RunOf(s, es))
    decreases |es|
  {
    if es != [] {
      StepKeepsOneTimer(s, es[0]);
      RunKeepsOneTimer(Step(s, es[0]), es[1..]);
    }
  }

  /** Backoff does not compound: as long as no two threads swap timers at once, at most one is armed, and none during a swap. */
  lemma OneTimerArmed(es: seq<Event>)
    requires IsRun(Begin, es) && NeverInterleaves(Begin, es)
    ensures var s := RunOf(Begin, es);
            && (forall a, b :: a in s.timers && b in s.timers && s.timers[a] == Armed && s.timers[b] == Armed ==> a == b)
            && (!NobodySwaps(s) ==> NoneArmed(s))
  {
    RunKeepsOneTimer(Begin, es);
  }
}
