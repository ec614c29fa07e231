/**
 * The two background tasks of one grant: the supervisor spawned by `keep_lease_alive` and the
 * keepalive task it spawns through `Lease::start_keepalive`, once per retry round. The receiver of
 * the stop signal is moved from one to the other and comes back inside a failure message.
 *
 * Each holder of the receiver is recorded where it is (supervisor, task, message), so that having
 * exactly one holder is a property of the runs and not of the representation. Time passes between
 * steps; a sleep ends no earlier than it was asked to, and may end later.
 */
module KeepAlive {

  /** Where the supervisor is; in `Callback` it still owns the receiver if it came from the loop top. */
  datatype Supervisor =
    | Top
    | Waiting
    | Starting
    | Watching(round: nat)
    | Callback(ownsReceiver: bool)
    | Ended

  /** A spawned keepalive task: inside `keep_alive_once`, asleep in its select, or returned. */
  datatype Task = Pinging | Sleeping | Returned

  datatype StopReason = Failure | Exit

  /** The oneshot channel of one round, from the task to the supervisor. */
  datatype Notifier = Open | Sent(reason: StopReason) | Received | Closed | Undelivered

  /** One and a half rpc timeouts, the interval of the expiry check, and a third of the ttl. */
  datatype Config = Config(keepaliveCost: nat, checkInterval: nat, pingInterval: nat)

  datatype State = State(
    supervisor: Supervisor,
    tasks: seq<Task>,
    notifiers: seq<Notifier>,
    stopFired: bool,          // the stopper sent its signal or was dropped
    resolved: bool,           // the stop receiver has returned ready once
    callbacks: nat,
    now: int,
    expiredAt: int,           // the local expiry of the lease
    wakeAt: int,              // when the supervisor's sleep may end
    taskWakeAt: int)          // when the sleep of the running task may end

  datatype Action =
    | Tick(dt: nat)
    | FireStop
    | Abort
    | TopExpired | TopWait | TopTooLate
    | WaitElapsed | WaitStopped
    | StartFailed | StartReplied(ttl: int)
    | TimerAlive | TimerExpired
    | ReceiveReason | ReceiveClosed
    | CallbackDone
    | PingReplied(round: nat, ttl: int) | PingFailed(round: nat)
    | SleepElapsed(round: nat) | SleepStopped(round: nat)

  predicate IsTaskStep(a: Action) { a.PingReplied? || a.PingFailed? || a.SleepElapsed? || a.SleepStopped? }

  /** Steps the supervisor takes itself; the abort comes from outside. */
  predicate IsSupervisorStep(a: Action) { !IsTaskStep(a) && !a.Tick? && a != FireStop && a != Abort }

  /** Right after the supervisor was spawned, for a lease granted at some time. */
  function Start(now: int, expiredAt: int): State {
    State(Top, [], [], false, false, 0, now, expiredAt, now, now)
  }

  predicate TaskIs(s: State, r: nat, t: Task) { r < |s.tasks| && r < |s.notifiers| && s.tasks[r] == t }

  /** `is_expired`. */
  predicate IsExpired(s: State) { s.expiredAt < s.now }

  predicate Guard(c: Config, s: State, a: Action) {
    match a
    case Tick(_) => true
    case FireStop => !s.stopFired
    case Abort => true
    case TopExpired => s.supervisor == Top && IsExpired(s)
    case TopWait => s.supervisor == Top && s.now + c.keepaliveCost <= s.expiredAt
    case TopTooLate => s.supervisor == Top && !IsExpired(s) && s.expiredAt < s.now + c.keepaliveCost
    case WaitElapsed => s.supervisor == Waiting && s.wakeAt <= s.now
    case WaitStopped => s.supervisor == Waiting && s.stopFired
    case StartFailed => s.supervisor == Starting
    case StartReplied(_) => s.supervisor == Starting
    case TimerAlive => s.supervisor.Watching? && s.wakeAt <= s.now && !IsExpired(s)
    case TimerExpired => s.supervisor.Watching? && s.wakeAt <= s.now && IsExpired(s)
    case ReceiveReason => s.supervisor.Watching? && s.supervisor.round < |s.notifiers| && s.notifiers[s.supervisor.round].Sent?
    case ReceiveClosed => s.supervisor.Watching? && s.supervisor.round < |s.notifiers| && s.notifiers[s.supervisor.round].Closed?
    case CallbackDone => s.supervisor.Callback?
    case PingReplied(r, _) => TaskIs(s, r, Pinging)
    case PingFailed(r) => TaskIs(s, r, Pinging)
    case SleepElapsed(r) => TaskIs(s, r, Sleeping) && s.taskWakeAt <= s.now
    case SleepStopped(r) => TaskIs(s, r, Sleeping) && s.stopFired
  }

  /** Steps that end a select over the stop receiver, which must not be polled again once it was ready. */
  predicate Polls(a: Action) { a.WaitElapsed? || a.WaitStopped? || a.SleepElapsed? || a.SleepStopped? }

  /** The task returns and sends its reason; the send fails when the supervisor no longer listens. */
  function ReturnWith(s: State, r: nat, reason: StopReason): State
    requires r < |s.tasks| && r < |s.notifiers|
  {
    s.(tasks := s.tasks[r := Returned],
       notifiers := s.notifiers[r := if s.supervisor == Watching(r) then Sent(reason) else Undelivered])
  }

  function Exec(c: Config, s: State, a: Action): State
    requires Guard(c, s, a)
  {
    match a
    case Tick(dt) => s.(now := s.now + dt)
    case FireStop => s.(stopFired := true)
    case Abort => s.(supervisor := Ended)
    case TopExpired => s.(supervisor := Starting)
    case TopWait => s.(supervisor := Waiting, wakeAt := s.expiredAt - c.keepaliveCost)
    case TopTooLate => s.(supervisor := Callback(true), callbacks := s.callbacks + 1)
    case WaitElapsed => s.(supervisor := Starting)
    case WaitStopped => s.(supervisor := Ended, resolved := true)
    case StartFailed => s.(supervisor := Top)
    case StartReplied(ttl) =>
      if ttl <= 0 then s.(supervisor := Top)
      else s.(supervisor := Watching(|s.tasks|), tasks := s.tasks + [Pinging], notifiers := s.notifiers + [Open],
              expiredAt := s.now + ttl, wakeAt := s.now + c.checkInterval)
    case TimerAlive => s.(wakeAt := s.now + c.checkInterval)
    case TimerExpired => s.(supervisor := Callback(false), callbacks := s.callbacks + 1)
    case ReceiveReason =>
      var r := s.supervisor.round;
      s.(supervisor := if s.notifiers[r].reason == Failure then Top else Ended,
         notifiers := s.notifiers[r := Received])
    case ReceiveClosed => s.(supervisor := Callback(false), callbacks := s.callbacks + 1)
    case CallbackDone => s.(supervisor := Ended)
    case PingReplied(r, ttl) =>
      if ttl <= 0 then ReturnWith(s, r, Failure)
      else s.(tasks := s.tasks[r := Sleeping], expiredAt := s.now + ttl, taskWakeAt := s.now + c.pingInterval)
    case PingFailed(r) => ReturnWith(s, r, Failure)
    case SleepElapsed(r) => s.(tasks := s.tasks[r := Pinging])
    case SleepStopped(r) => ReturnWith(s.(resolved := true), r, Exit)
  }

  predicate IsRun(c: Config, s: State, run: seq<Action>)
    decreases |run|
  {
    run == [] || (Guard(c, s, run[0]) && IsRun(c, Exec(c, s, run[0]), run[1..]))
  }

  function After(c: Config, s: State, run: seq<Action>): State
    requires IsRun(c, s, run)
    decreases |run|
  {
    if run == [] then s else After(c, Exec(c, s, run[0]), run[1..])
  }

  // ---------------------------------------------------------------------------
  // Who holds the stop receiver
  // ---------------------------------------------------------------------------

  predicate SupervisorHolds(p: Supervisor) {
    p in {Top, Waiting, Starting} || p == Callback(true)
  }

  /** The keepalive tasks that have not returned. */
  function Running(tasks: seq<Task>): set<nat> {
    set r: nat | r < |tasks| && tasks[r] != Returned
  }

  /** Rounds whose failure message, with the receiver inside, is on its way to the supervisor. */
  function InMessage(s: State): set<nat> {
    if s.supervisor.Watching? then set r: nat | r < |s.notifiers| && s.notifiers[r] == Sent(Failure) else {}
  }

  function Holders(s: State): nat {
    (if SupervisorHolds(s.supervisor) then 1 else 0) + |Running(s.tasks)| + |InMessage(s)|
  }

  predicate Finished(s: State) { s.supervisor == Ended || s.supervisor.Callback? || s.resolved }

  // ---------------------------------------------------------------------------
  // Invariant
  // ---------------------------------------------------------------------------

  /** All rounds but the last are over, and a task runs exactly while its notifier is open. */
  predicate RoundsOk(tasks: seq<Task>, notifiers: seq<Notifier>) {
    && |tasks| == |notifiers|
    && (forall r :: 0 <= r < |tasks| - 1 ==> tasks[r] == Returned && notifiers[r] == Received)
    && (forall r :: 0 <= r < |tasks| ==> (tasks[r] != Returned <==> notifiers[r] == Open))
    && (forall r :: 0 <= r < |notifiers| ==> notifiers[r] != Closed)
  }

  predicate AllOver(tasks: seq<Task>, notifiers: seq<Notifier>) {
    && (forall r :: 0 <= r < |tasks| ==> tasks[r] == Returned)
    && (forall r :: 0 <= r < |notifiers| ==> notifiers[r] == Received)
  }

  predicate AllReturned(tasks: seq<Task>) { forall r :: 0 <= r < |tasks| ==> tasks[r] == Returned }

  predicate HandoverOk(p: Supervisor, tasks: seq<Task>, notifiers: seq<Notifier>, resolved: bool)
    requires |tasks| == |notifiers|
  {
    && (p.Watching? ==>
          && p.round == |tasks| - 1
          && notifiers[p.round] in {Open, Sent(Failure), Sent(Exit)}
          && (notifiers[p.round] == Sent(Exit) <==> resolved))
    && (SupervisorHolds(p) ==> !resolved && AllOver(tasks, notifiers))
    && (resolved ==> AllReturned(tasks))
  }

  predicate CallbackOk(p: Supervisor, callbacks: nat) {
    callbacks <= 1 && (callbacks == 1 ==> p.Callback? || p == Ended) && (p.Callback? ==> callbacks == 1)
  }

  predicate Inv(s: State) {
    && RoundsOk(s.tasks, s.notifiers)
    && HandoverOk(s.supervisor, s.tasks, s.notifiers, s.resolved)
    && CallbackOk(s.supervisor, s.callbacks)
  }

  lemma TaskStepKeepsInv(c: Config, s: State, a: Action)
    requires Inv(s) && Guard(c, s, a) && IsTaskStep(a)
    ensures Inv(Exec(c, s, a))
  {
  }

  lemma WatchingStepKeepsInv(c: Config, s: State, a: Action)
    requires Inv(s) && Guard(c, s, a) && IsSupervisorStep(a) && s.supervisor.Watching?
    ensures Inv(Exec(c, s, a))
  {
  }

  lemma RetryStepKeepsInv(c: Config, s: State, a: Action)
    requires Inv(s) && Guard(c, s, a) && IsSupervisorStep(a) && !s.supervisor.Watching?
    ensures Inv(Exec(c, s, a))
  {
  }

  lemma StepKeepsInv(c: Config, s: State, a: Action)
    requires Inv(s) && Guard(c, s, a)
    ensures Inv(Exec(c, s, a))
  {
    if IsTaskStep(a) {
      TaskStepKeepsInv(c, s, a);
    } else if IsSupervisorStep(a) {
      if s.supervisor.Watching? {
        WatchingStepKeepsInv(c, s, a);
      } else {
        RetryStepKeepsInv(c, s, a);
      }
    }
  }

  lemma {:induction false} RunKeepsInv(c: Config, s: State, run: seq<Action>)
    requires Inv(s) && IsRun(c, s, run)
    ensures Inv(After(c, s, run)) && s.now <= After(c, s, run).now
    decreases |run|
  {
    if run != [] {
      StepKeepsInv(c, s, run[0]);
      RunKeepsInv(c, Exec(c, s, run[0]), run[1..]);
    }
  }

  lemma CountHolders(s: State)
    requires Inv(s)
    ensures Holders(s) <= 1
    ensures !Finished(s) ==> Holders(s) == 1
    ensures s.resolved ==> Holders(s) == 0
  {
    var last := |s.tasks| - 1;
    assert Running(s.tasks) == if last >= 0 && s.tasks[last] != Returned then {last} else {};
    assert InMessage(s) == if s.supervisor.Watching? && s.notifiers[last] == Sent(Failure) then {last} else {};
  }

  /**
   * In every run of one grant's tasks, also when the supervisor is aborted from outside: the stop
   * receiver never has two holders, and has exactly one until the supervisor reaches its end or
   * the receiver resolves, after which nobody holds it; at most one keepalive task is running.
   */
  lemma ReceiverHasOneHolder(c: Config, now: int, expiredAt: int, run: seq<Action>)
    requires IsRun(c, Start(now, expiredAt), run)
    ensures var s := After(c, Start(now, expiredAt), run);
            && Holders(s) <= 1
            && (!Finished(s) ==> Holders(s) == 1)
            && (s.resolved ==> Holders(s) == 0)
            && |Running(s.tasks)| <= 1
  {
    RunKeepsInv(c, Start(now, expiredAt), run);
    CountHolders(After(c, Start(now, expiredAt), run));
  }

  /**
   * The receiver is never polled after it resolved, the branch for a closed notifier is never
   * taken, and the expiry callback is called at most once.
   */
  lemma TasksNeverMisbehave(c: Config, now: int, expiredAt: int, run: seq<Action>)
    requires IsRun(c, Start(now, expiredAt), run)
    ensures var s := After(c, Start(now, expiredAt), run);
            && (s.resolved ==> forall a :: Polls(a) ==> !Guard(c, s, a))
            && !Guard(c, s, ReceiveClosed) && s.callbacks <= 1
  {
    RunKeepsInv(c, Start(now, expiredAt), run);
  }

  // ---------------------------------------------------------------------------
  // The stop signal and the callback
  // ---------------------------------------------------------------------------

  lemma {:induction false} EndedStaysQuiet(c: Config, s: State, run: seq<Action>)
    requires IsRun(c, s, run) && s.supervisor == Ended
    ensures After(c, s, run).supervisor == Ended && After(c, s, run).callbacks == s.callbacks
    decreases |run|
  {
    if run != [] {
      EndedStaysQuiet(c, Exec(c, s, run[0]), run[1..]);
    }
  }

  /** Once the supervisor has seen the stop signal and returned, the callback is never called. */
  lemma NoCallbackAfterStopSeen(c: Config, now: int, expiredAt: int, run: seq<Action>, a: Action, rest: seq<Action>)
    requires IsRun(c, Start(now, expiredAt), run) && Guard(c, After(c, Start(now, expiredAt), run), a)
    requires a == WaitStopped ||
             (a == ReceiveReason && var s := After(c, Start(now, expiredAt), run); s.notifiers[s.supervisor.round] == Sent(Exit))
    requires IsRun(c, Exec(c, After(c, Start(now, expiredAt), run), a), rest)
    ensures After(c, Exec(c, After(c, Start(now, expiredAt), run), a), rest).callbacks == 0
  {
    var s := After(c, Start(now, expiredAt), run);
    RunKeepsInv(c, Start(now, expiredAt), run);
    EndedStaysQuiet(c, Exec(c, s, a), rest);
  }

  lemma RunCons(c: Config, s: State, a: Action, rest: seq<Action>)
    requires Guard(c, s, a) && IsRun(c, Exec(c, s, a), rest)
    ensures IsRun(c, s, [a] + rest) && After(c, s, [a] + rest) == After(c, Exec(c, s, a), rest)
  {
    assert ([a] + rest)[1..] == rest;
  }

  lemma {:induction false} RunAppend(c: Config, s: State, a: seq<Action>, b: seq<Action>)
    requires IsRun(c, s, a + b)
    ensures IsRun(c, s, a) && IsRun(c, After(c, s, a), b)
    ensures After(c, s, a + b) == After(c, After(c, s, a), b)
    decreases |a|
  {
    if a == [] {
      assert a + b == b;
    } else {
      assert (a + b)[1..] == a[1..] + b;
      RunAppend(c, Exec(c, s, a[0]), a[1..], b);
    }
  }

  predicate NoSupervisorStep(run: seq<Action>) { forall i :: 0 <= i < |run| ==> !IsSupervisorStep(run[i]) }

  lemma {:induction false} SupervisorSleeps(c: Config, s: State, run: seq<Action>)
    requires IsRun(c, s, run) && NoSupervisorStep(run)
    ensures After(c, s, run).callbacks == s.callbacks
    decreases |run|
  {
    if run != [] {
      SupervisorSleeps(c, Exec(c, s, run[0]), run[1..]);
    }
  }

  /**
   * A revocation sends the stop signal and then aborts the supervisor. If the supervisor takes no
   * step between the two, the callback is not called by it or at any later time.
   */
  lemma RevokeIsSilent(c: Config, s: State, between: seq<Action>, rest: seq<Action>)
    requires IsRun(c, s, [FireStop] + between + [Abort] + rest) && NoSupervisorStep(between)
    ensures After(c, s, [FireStop] + between + [Abort] + rest).callbacks == s.callbacks
  {
    var before := [FireStop] + between + [Abort];
    RunAppend(c, s, before, rest);
    assert NoSupervisorStep(before);
    SupervisorSleeps(c, s, before);
    RunAppend(c, s, [FireStop] + between, [Abort]);
    assert [Abort][1..] == [];
    EndedStaysQuiet(c, After(c, s, before), rest);
  }

  /** Some continuation without an abort calls back. */
  ghost predicate CanCallBack(c: Config, s: State) {
    exists rest :: IsRun(c, s, rest) && Abort !in rest && After(c, s, rest).callbacks == 1
  }

  /** As long as the supervisor is not aborted and has not returned, it can still call back, stopped or not. */
  lemma CanCallBackIff(c: Config, s: State)
    requires Inv(s) && s.callbacks == 0
    ensures CanCallBack(c, s) <==> s.supervisor != Ended
  {
    if s.supervisor == Ended {
      forall rest | IsRun(c, s, rest)
        ensures After(c, s, rest).callbacks == 0
      {
        EndedStaysQuiet(c, s, rest);
      }
    } else {
      var rest := FindCallback(c, s);
      assert CanCallBack(c, s);
    }
  }

  /** In front of a continuation that calls back, one more step. */
  lemma OneMore(c: Config, s: State, a: Action, rest: seq<Action>) returns (run: seq<Action>)
    requires Guard(c, s, a) && a != Abort && IsRun(c, Exec(c, s, a), rest)
    requires Abort !in rest && After(c, Exec(c, s, a), rest).callbacks == 1
    ensures IsRun(c, s, run) && Abort !in run && After(c, s, run).callbacks == 1
  {
    RunCons(c, s, a, rest);
    run := [a] + rest;
  }

  lemma WatchingCallsBack(c: Config, s: State) returns (run: seq<Action>)
    requires s.supervisor.Watching? && s.callbacks == 0
    ensures IsRun(c, s, run) && Abort !in run && After(c, s, run).callbacks == 1
  {
    var late := Later(s.now, Later(s.wakeAt, s.expiredAt + 1));
    var s1 := Exec(c, s, Tick(late - s.now));
    run := OneMore(c, s1, TimerExpired, []);
    run := OneMore(c, s, Tick(late - s.now), run);
  }

  lemma StartingCallsBack(c: Config, s: State) returns (run: seq<Action>)
    requires s.supervisor == Starting && s.callbacks == 0
    ensures IsRun(c, s, run) && Abort !in run && After(c, s, run).callbacks == 1
  {
    run := WatchingCallsBack(c, Exec(c, s, StartReplied(1)));
    run := OneMore(c, s, StartReplied(1), run);
  }

  lemma WaitingCallsBack(c: Config, s: State) returns (run: seq<Action>)
    requires s.supervisor == Waiting && s.callbacks == 0
    ensures IsRun(c, s, run) && Abort !in run && After(c, s, run).callbacks == 1
  {
    var dt := Later(s.now, s.wakeAt) - s.now;
    var s1 := Exec(c, s, Tick(dt));
    run := StartingCallsBack(c, Exec(c, s1, WaitElapsed));
    run := OneMore(c, s1, WaitElapsed, run);
    run := OneMore(c, s, Tick(dt), run);
  }

  lemma FindCallback(c: Config, s: State) returns (run: seq<Action>)
    requires Inv(s) && s.callbacks == 0 && s.supervisor != Ended
    ensures IsRun(c, s, run) && Abort !in run && After(c, s, run).callbacks == 1
  {
    match s.supervisor
    case Top =>
      if IsExpired(s) {
        run := StartingCallsBack(c, Exec(c, s, TopExpired));
        run := OneMore(c, s, TopExpired, run);
      } else if s.now + c.keepaliveCost <= s.expiredAt {
        run := WaitingCallsBack(c, Exec(c, s, TopWait));
        run := OneMore(c, s, TopWait, run);
      } else {
        run := OneMore(c, s, TopTooLate, []);
      }
    case Waiting => run := WaitingCallsBack(c, s);
    case Starting => run := StartingCallsBack(c, s);
    case Watching(_) => run := WatchingCallsBack(c, s);
  }

  function Later(a: int, b: int): int { if a < b then b else a }

  // ---------------------------------------------------------------------------
  // After the keepalive task has taken the signal
  // ---------------------------------------------------------------------------

  /** The lease is not renewed any more, so a callback comes after its expiry and after the timer. */
  lemma {:induction false} CallbackIsLate(c: Config, s: State, rest: seq<Action>)
    requires Inv(s) && s.resolved && s.callbacks == 0 && IsRun(c, s, rest) && After(c, s, rest).callbacks == 1
    ensures s.supervisor.Watching?
    ensures s.expiredAt < After(c, s, rest).now && s.wakeAt <= After(c, s, rest).now
    decreases |rest|
  {
    var s' := Exec(c, s, rest[0]);
    StepKeepsInv(c, s, rest[0]);
    RunKeepsInv(c, s', rest[1..]);
    if s'.callbacks == 0 {
      CallbackIsLate(c, s', rest[1..]);
    }
  }

  /** Some continuation has called back by time t. */
  ghost predicate CanCallBackBy(c: Config, s: State, t: int) {
    exists rest :: IsRun(c, s, rest) && After(c, s, rest).callbacks == 1 && After(c, s, rest).now <= t
  }

  /**
   * After the keepalive task has taken the stop signal, the callback can be called by time t if and
   * only if the supervisor is still watching, the lease expires before t and the timer is due by t.
   */
  lemma CallbackAfterStopIff(c: Config, s: State, t: int)
    requires Inv(s) && s.resolved && s.callbacks == 0 && s.now <= t
    ensures CanCallBackBy(c, s, t) <==> s.supervisor.Watching? && s.expiredAt < t && s.wakeAt <= t
  {
    if CanCallBackBy(c, s, t) {
      var rest :| IsRun(c, s, rest) && After(c, s, rest).callbacks == 1 && After(c, s, rest).now <= t;
      CallbackIsLate(c, s, rest);
    }
    if s.supervisor.Watching? && s.expiredAt < t && s.wakeAt <= t {
      var s1 := Exec(c, s, Tick(t - s.now));
      RunCons(c, s1, TimerExpired, []);
      RunCons(c, s, Tick(t - s.now), [TimerExpired] + []);
      assert CanCallBackBy(c, s, t);
    }
  }

  // ---------------------------------------------------------------------------
  // Renewals hold the callback off
  // ---------------------------------------------------------------------------

  predicate IsRenewal(a: Action) { (a.StartReplied? || a.PingReplied?) && a.ttl > 0 }

  predicate NoRenewal(run: seq<Action>) { forall i :: 0 <= i < |run| ==> !IsRenewal(run[i]) }

  predicate IsFailure(a: Action) { a.PingFailed? || (a.PingReplied? && a.ttl <= 0) }

  predicate NoFailure(run: seq<Action>) { forall i :: 0 <= i < |run| ==> !IsFailure(run[i]) }

  /** The supervisor watches a round in which nothing has failed. */
  predicate WatchesCalmly(s: State) {
    s.supervisor.Watching? && s.supervisor.round < |s.notifiers| && s.notifiers[s.supervisor.round] != Sent(Failure)
  }

  lemma {:induction false} UnrenewedCallback(c: Config, s: State, run: seq<Action>)
    requires Inv(s) && IsRun(c, s, run) && NoRenewal(run) && After(c, s, run).callbacks > s.callbacks
    ensures s.expiredAt < After(c, s, run).now + c.keepaliveCost
    decreases |run|
  {
    var s' := Exec(c, s, run[0]);
    StepKeepsInv(c, s, run[0]);
    if s'.callbacks == s.callbacks {
      UnrenewedCallback(c, s', run[1..]);
    } else {
      TimePasses(c, s', run[1..]);
    }
  }

  lemma {:induction false} TimePasses(c: Config, s: State, run: seq<Action>)
    requires IsRun(c, s, run)
    ensures s.now <= After(c, s, run).now
    decreases |run|
  {
    if run != [] {
      TimePasses(c, Exec(c, s, run[0]), run[1..]);
    }
  }

  lemma CalmStep(c: Config, s: State, a: Action)
    requires Inv(s) && Guard(c, s, a) && WatchesCalmly(s) && !IsRenewal(a) && !IsFailure(a)
    ensures var s' := Exec(c, s, a);
      if s'.callbacks > s.callbacks then s.expiredAt < s.now && s.wakeAt <= s.now
      else s'.supervisor == Ended || (WatchesCalmly(s') && s'.expiredAt == s.expiredAt && s.wakeAt <= s'.wakeAt)
  {
  }

  lemma {:induction false} CalmCallback(c: Config, s: State, run: seq<Action>)
    requires Inv(s) && IsRun(c, s, run) && WatchesCalmly(s) && NoRenewal(run) && NoFailure(run)
    requires After(c, s, run).callbacks > s.callbacks
    ensures s.expiredAt < After(c, s, run).now && s.wakeAt <= After(c, s, run).now
    decreases |run|
  {
    var s' := Exec(c, s, run[0]);
    StepKeepsInv(c, s, run[0]);
    CalmStep(c, s, run[0]);
    TimePasses(c, s', run[1..]);
    if s'.callbacks == s.callbacks {
      if s'.supervisor == Ended {
        EndedStaysQuiet(c, s', run[1..]);
      } else {
        CalmCallback(c, s', run[1..]);
      }
    }
  }

  /**
   * A successful ping holds the callback off for its ttl: without a failure of the task no callback comes
   * before the ttl is over, and after a failure not before the rest is too short for another round.
   */
  lemma RenewalHoldsOff(c: Config, s: State, a: Action, run: seq<Action>)
    requires Inv(s) && Guard(c, s, a) && IsRenewal(a) && IsRun(c, Exec(c, s, a), run) && NoRenewal(run)
    requires After(c, Exec(c, s, a), run).callbacks > s.callbacks
    ensures s.now + a.ttl < After(c, Exec(c, s, a), run).now + c.keepaliveCost
    ensures NoFailure(run) ==> s.now + a.ttl < After(c, Exec(c, s, a), run).now
  {
    var s1 := Exec(c, s, a);
    StepKeepsInv(c, s, a);
    UnrenewedCallback(c, s1, run);
    if NoFailure(run) {
      if !s1.supervisor.Watching? {
        OverStaysQuiet(c, s1, run);
      } else {
        CalmCallback(c, s1, run);
      }
    }
  }

  lemma {:induction false} OverStaysQuiet(c: Config, s: State, run: seq<Action>)
    requires IsRun(c, s, run) && (s.supervisor == Ended || s.supervisor.Callback?)
    ensures After(c, s, run).callbacks == s.callbacks
    decreases |run|
  {
    if run != [] {
      OverStaysQuiet(c, Exec(c, s, run[0]), run[1..]);
    }
  }

  /** Some continuation without renewal and without failure has called back by time t. */
  ghost predicate CalmlyCallsBackBy(c: Config, s: State, t: int) {
    exists run :: IsRun(c, s, run) && NoRenewal(run) && NoFailure(run) && After(c, s, run).callbacks == 1 && After(c, s, run).now <= t
  }

  /** If the task hangs, the callback can come by time t exactly if the lease ends before t and the check is due by t. */
  lemma HangingTaskCallsBackIff(c: Config, s: State, t: int)
    requires Inv(s) && WatchesCalmly(s) && s.callbacks == 0 && s.now <= t
    ensures CalmlyCallsBackBy(c, s, t) <==> s.expiredAt < t && s.wakeAt <= t
  {
    if CalmlyCallsBackBy(c, s, t) {
      var run :| IsRun(c, s, run) && NoRenewal(run) && NoFailure(run) && After(c, s, run).callbacks == 1 && After(c, s, run).now <= t;
      CalmCallback(c, s, run);
    }
    if s.expiredAt < t && s.wakeAt <= t {
      var s1 := Exec(c, s, Tick(t - s.now));
      RunCons(c, s1, TimerExpired, []);
      RunCons(c, s, Tick(t - s.now), [TimerExpired] + []);
      assert CalmlyCallsBackBy(c, s, t);
    }
  }

  /** One round of the keepalive task, after a sleep. */
  function Beat(r: nat, dt: nat, ttl: int): seq<Action> { [Tick(dt), SleepElapsed(r), PingReplied(r, ttl)] }

  function Beats(r: nat, dts: seq<nat>, ttl: int): seq<Action> {
    if dts == [] then [] else Beat(r, dts[0], ttl) + Beats(r, dts[1..], ttl)
  }

  /** The task of the round sleeps after a successful ping, and the supervisor watches it. */
  predicate IsKept(c: Config, s: State, r: nat, ttl: int) {
    && s.supervisor == Watching(r) && TaskIs(s, r, Sleeping) && !s.resolved
    && s.expiredAt == s.now + ttl && s.taskWakeAt == s.now + c.pingInterval
  }

  lemma BeatKeeps(c: Config, s: State, r: nat, dt: nat, ttl: int)
    requires IsKept(c, s, r, ttl) && ttl > 0 && dt >= c.pingInterval
    ensures IsRun(c, s, Beat(r, dt, ttl))
    ensures IsKept(c, After(c, s, Beat(r, dt, ttl)), r, ttl) && After(c, s, Beat(r, dt, ttl)).callbacks == s.callbacks
    ensures After(c, s, Beat(r, dt, ttl)).now == s.now + dt
  {
    var s1 := Exec(c, s, Tick(dt));
    var s2 := Exec(c, s1, SleepElapsed(r));
    RunCons(c, s2, PingReplied(r, ttl), []);
    RunCons(c, s1, SleepElapsed(r), [PingReplied(r, ttl)]);
    RunCons(c, s, Tick(dt), [SleepElapsed(r), PingReplied(r, ttl)]);
  }

  /** As long as its pings succeed, the lease is kept and nobody is called back. */
  lemma {:induction false} BeatsKeep(c: Config, s: State, r: nat, dts: seq<nat>, ttl: int)
    requires IsKept(c, s, r, ttl) && ttl > 0 && forall i :: 0 <= i < |dts| ==> dts[i] >= c.pingInterval
    ensures IsRun(c, s, Beats(r, dts, ttl))
    ensures IsKept(c, After(c, s, Beats(r, dts, ttl)), r, ttl) && After(c, s, Beats(r, dts, ttl)).callbacks == s.callbacks
    decreases |dts|
  {
    if dts != [] {
      BeatKeeps(c, s, r, dts[0], ttl);
      var s' := After(c, s, Beat(r, dts[0], ttl));
      BeatsKeep(c, s', r, dts[1..], ttl);
      RunJoin(c, s, Beat(r, dts[0], ttl), Beats(r, dts[1..], ttl));
    }
  }

  /** The task pings again exactly when its interval is over. */
  lemma PingWaits(c: Config, s: State, r: nat, dt: nat, ttl: int)
    requires IsKept(c, s, r, ttl)
    ensures Guard(c, Exec(c, s, Tick(dt)), SleepElapsed(r)) <==> dt >= c.pingInterval
  {
  }

  /** A check that finds the lease alive is repeated after its interval, not before. */
  lemma CheckRepeats(c: Config, s: State, t: int)
    requires Inv(s) && WatchesCalmly(s) && s.callbacks == 0 && s.wakeAt <= s.now <= s.expiredAt && s.now <= t
    ensures Guard(c, s, TimerAlive) && !Guard(c, s, TimerExpired)
    ensures CalmlyCallsBackBy(c, Exec(c, s, TimerAlive), t) <==> s.expiredAt < t && s.now + c.checkInterval <= t
  {
    StepKeepsInv(c, s, TimerAlive);
    HangingTaskCallsBackIff(c, Exec(c, s, TimerAlive), t);
  }

  /** So does the check of a round that has just started. */
  lemma StartIsWatched(c: Config, s: State, ttl: int, t: int)
    requires Inv(s) && s.supervisor == Starting && ttl > 0 && s.now <= t
    ensures CalmlyCallsBackBy(c, Exec(c, s, StartReplied(ttl)), t) <==> s.now + ttl < t && s.now + c.checkInterval <= t
  {
    StepKeepsInv(c, s, StartReplied(ttl));
    HangingTaskCallsBackIff(c, Exec(c, s, StartReplied(ttl)), t);
  }

  // ---------------------------------------------------------------------------
  // Failures are retried, and stops end the tasks
  // ---------------------------------------------------------------------------

  /** At the loop top there is exactly one way on. */
  lemma TopDecides(c: Config, s: State)
    requires s.supervisor == Top
    ensures Guard(c, s, TopExpired) <==> s.expiredAt < s.now
    ensures Guard(c, s, TopWait) <==> !Guard(c, s, TopExpired) && !Guard(c, s, TopTooLate)
    ensures !(Guard(c, s, TopExpired) && Guard(c, s, TopTooLate))
  {
  }

  /** The next round is started no earlier than one keepalive's cost before the end of the lease. */
  lemma WaitEndsIff(c: Config, s: State, dt: nat)
    requires Guard(c, s, TopWait)
    ensures Guard(c, Exec(c, Exec(c, s, TopWait), Tick(dt)), WaitElapsed) <==> s.expiredAt <= s.now + dt + c.keepaliveCost
  {
  }

  /** A round that could not be started is tried again from the loop top, with nothing else changed. */
  lemma FailedStartGoesBack(c: Config, s: State, ttl: int)
    requires s.supervisor == Starting && ttl <= 0
    ensures Guard(c, s, StartFailed) && Exec(c, s, StartFailed) == s.(supervisor := Top)
    ensures Guard(c, s, StartReplied(ttl)) && Exec(c, s, StartReplied(ttl)) == s.(supervisor := Top)
  {
  }

  /** After a failed ping: the supervisor gets the receiver back, waits, and starts the next round. */
  function Retry(c: Config, s: State, failure: Action, ttl: int): seq<Action>
    requires s.now + c.keepaliveCost <= s.expiredAt
  {
    [failure, ReceiveReason] + Restart(s.expiredAt - c.keepaliveCost - s.now, ttl)
  }

  function Restart(dt: nat, ttl: int): seq<Action> { [TopWait, Tick(dt), WaitElapsed, StartReplied(ttl)] }

  /** A new round is watched, with a lease renewed at that time. */
  function Restarted(c: Config, s: State, now: int, ttl: int): State {
    s.(supervisor := Watching(|s.tasks|), tasks := s.tasks + [Pinging], notifiers := s.notifiers + [Open],
       now := now, expiredAt := now + ttl, wakeAt := now + c.checkInterval)
  }

  lemma RestartRuns(c: Config, s: State, ttl: int)
    requires s.supervisor == Top && s.now + c.keepaliveCost <= s.expiredAt && ttl > 0
    ensures var run := Restart(s.expiredAt - c.keepaliveCost - s.now, ttl);
      IsRun(c, s, run) && After(c, s, run) == Restarted(c, s, s.expiredAt - c.keepaliveCost, ttl)
  {
    var dt := s.expiredAt - c.keepaliveCost - s.now;
    var s1 := Exec(c, s, TopWait);
    var s2 := Exec(c, s1, Tick(dt));
    var s3 := Exec(c, s2, WaitElapsed);
    RunCons(c, s3, StartReplied(ttl), []);
    RunCons(c, s2, WaitElapsed, [StartReplied(ttl)]);
    RunCons(c, s1, Tick(dt), [WaitElapsed, StartReplied(ttl)]);
    RunCons(c, s, TopWait, [Tick(dt), WaitElapsed, StartReplied(ttl)]);
  }

  lemma FailureReturnsReceiver(c: Config, s: State, r: nat, failure: Action)
    requires s.supervisor == Watching(r) && TaskIs(s, r, Pinging)
    requires failure == PingFailed(r) || (failure.PingReplied? && failure.round == r && failure.ttl <= 0)
    ensures IsRun(c, s, [failure, ReceiveReason])
    ensures After(c, s, [failure, ReceiveReason]) ==
            s.(supervisor := Top, tasks := s.tasks[r := Returned], notifiers := s.notifiers[r := Received])
  {
    var s1 := Exec(c, s, failure);
    RunCons(c, s1, ReceiveReason, []);
    RunCons(c, s, failure, [ReceiveReason]);
    assert s1.notifiers[r := Received] == s.notifiers[r := Received];
  }

  /** A failed ping, or one answered without time, is retried in a new round as long as the lease leaves time for it. */
  lemma FailureIsRetried(c: Config, s: State, r: nat, failure: Action, ttl: int)
    requires s.supervisor == Watching(r) && TaskIs(s, r, Pinging) && s.now + c.keepaliveCost <= s.expiredAt && ttl > 0
    requires failure == PingFailed(r) || (failure.PingReplied? && failure.round == r && failure.ttl <= 0)
    ensures IsRun(c, s, Retry(c, s, failure, ttl))
    ensures After(c, s, Retry(c, s, failure, ttl)) ==
            Restarted(c, s.(tasks := s.tasks[r := Returned], notifiers := s.notifiers[r := Received]),
                      s.expiredAt - c.keepaliveCost, ttl)
  {
    FailureReturnsReceiver(c, s, r, failure);
    var s1 := s.(supervisor := Top, tasks := s.tasks[r := Returned], notifiers := s.notifiers[r := Received]);
    RestartRuns(c, s1, ttl);
    RunJoin(c, s, [failure, ReceiveReason], Restart(s.expiredAt - c.keepaliveCost - s.now, ttl));
  }

  /** A stop signal ends a waiting supervisor at once. */
  lemma StopEndsWait(c: Config, s: State)
    requires s.supervisor == Waiting && !s.stopFired
    ensures IsRun(c, s, [FireStop, WaitStopped])
    ensures After(c, s, [FireStop, WaitStopped]) == s.(supervisor := Ended, stopFired := true, resolved := true)
  {
    RunCons(c, Exec(c, s, FireStop), WaitStopped, []);
    RunCons(c, s, FireStop, [WaitStopped]);
  }

  /** A stop signal ends a sleeping task, and through its message the supervisor, without a callback. */
  lemma StopEndsRound(c: Config, s: State, r: nat)
    requires s.supervisor == Watching(r) && TaskIs(s, r, Sleeping) && !s.stopFired
    ensures IsRun(c, s, [FireStop, SleepStopped(r), ReceiveReason])
    ensures After(c, s, [FireStop, SleepStopped(r), ReceiveReason]) ==
            s.(supervisor := Ended, stopFired := true, resolved := true,
               tasks := s.tasks[r := Returned], notifiers := s.notifiers[r := Received])
  {
    var s1 := Exec(c, s, FireStop);
    var s2 := Exec(c, s1, SleepStopped(r));
    RunCons(c, s2, ReceiveReason, []);
    RunCons(c, s1, SleepStopped(r), [ReceiveReason]);
    RunCons(c, s, FireStop, [SleepStopped(r), ReceiveReason]);
    assert s2.notifiers[r := Received] == s.notifiers[r := Received];
  }

  /** The signal is sent once. */
  lemma {:induction false} StopIsSentOnce(c: Config, s: State, run: seq<Action>)
    requires s.stopFired && IsRun(c, s, run)
    ensures FireStop !in run
    decreases |run|
  {
    if run != [] {
      StopIsSentOnce(c, Exec(c, s, run[0]), run[1..]);
    }
  }

  /** A callback that is done ends the supervisor. */
  lemma CallbackEnds(c: Config, s: State)
    requires s.supervisor.Callback?
    ensures Guard(c, s, CallbackDone) && Exec(c, s, CallbackDone) == s.(supervisor := Ended)
  {
  }

  // ---------------------------------------------------------------------------
  // Exactly when a revocation can call back
  // ---------------------------------------------------------------------------

  /** The lease is not over but too short for another round. */
  predicate IsTooLate(c: Config, s: State) { !IsExpired(s) && s.expiredAt < s.now + c.keepaliveCost }

  /** A failure message waits for the supervisor. */
  predicate FailureWaits(s: State) {
    s.supervisor.Watching? && s.supervisor.round < |s.notifiers| && s.notifiers[s.supervisor.round] == Sent(Failure)
  }

  /** The check is due on an expired lease, or the loop top, at once or after a failure, finds it too short. */
  predicate CallsBackNow(c: Config, s: State) {
    || (s.supervisor.Watching? && s.wakeAt <= s.now && IsExpired(s))
    || ((s.supervisor == Top || FailureWaits(s)) && IsTooLate(c, s))
  }

  /** A step in which no time passes and no reply of etcd arrives. */
  predicate IsInstant(a: Action) {
    (IsSupervisorStep(a) && !a.StartFailed? && !a.StartReplied?) || a.SleepElapsed? || a.SleepStopped?
  }

  predicate AreInstant(run: seq<Action>) { forall i :: 0 <= i < |run| ==> IsInstant(run[i]) }

  lemma QuietStep(c: Config, s: State, a: Action)
    requires Inv(s) && Guard(c, s, a) && IsInstant(a) && !CallsBackNow(c, s)
    ensures !CallsBackNow(c, Exec(c, s, a)) && Exec(c, s, a).callbacks == s.callbacks
  {
  }

  lemma {:induction false} QuietRun(c: Config, s: State, run: seq<Action>)
    requires Inv(s) && IsRun(c, s, run) && AreInstant(run) && !CallsBackNow(c, s)
    ensures After(c, s, run).callbacks == s.callbacks
    decreases |run|
  {
    if run != [] {
      QuietStep(c, s, run[0]);
      StepKeepsInv(c, s, run[0]);
      QuietRun(c, Exec(c, s, run[0]), run[1..]);
    }
  }

  /** A revocation whose signal and abort follow each other at once, with these steps in between, calls back. */
  predicate RevokeCallsBack(c: Config, s: State, between: seq<Action>) {
    && AreInstant(between) && IsRun(c, s, [FireStop] + between + [Abort])
    && After(c, s, [FireStop] + between + [Abort]).callbacks == s.callbacks + 1
  }

  lemma StepsCallBack(c: Config, s: State, between: seq<Action>)
    requires !s.stopFired && AreInstant(between) && IsRun(c, s.(stopFired := true), between)
    requires After(c, s.(stopFired := true), between).callbacks == s.callbacks + 1
    ensures RevokeCallsBack(c, s, between)
  {
    RunJoin(c, s.(stopFired := true), between, [Abort]);
    RunCons(c, s, FireStop, between + [Abort]);
    assert [FireStop] + between + [Abort] == [FireStop] + (between + [Abort]);
  }

  lemma {:induction false} RunJoin(c: Config, s: State, a: seq<Action>, b: seq<Action>)
    requires IsRun(c, s, a) && IsRun(c, After(c, s, a), b)
    ensures IsRun(c, s, a + b) && After(c, s, a + b) == After(c, After(c, s, a), b)
    decreases |a|
  {
    if a == [] {
      assert a + b == b;
    } else {
      RunJoin(c, Exec(c, s, a[0]), a[1..], b);
      assert (a + b)[1..] == a[1..] + b;
    }
  }

  /**
   * A revocation at once can call back if and only if, at the moment of the signal, the check is due on
   * an expired lease, or the loop top or a failure message finds the lease too short for another round.
   */
  lemma RevokeCallsBackIff(c: Config, s: State)
    requires Inv(s) && !s.stopFired && s.callbacks == 0
    ensures (exists between :: RevokeCallsBack(c, s, between)) <==> CallsBackNow(c, s)
  {
    var s1 := s.(stopFired := true);
    if CallsBackNow(c, s) {
      var between := CallBackNow(c, s1);
      StepsCallBack(c, s, between);
    } else {
      forall between | AreInstant(between) && IsRun(c, s, [FireStop] + between + [Abort])
        ensures After(c, s, [FireStop] + between + [Abort]).callbacks == 0
      {
        RunAppend(c, s, [FireStop] + between, [Abort]);
        RunAppend(c, s, [FireStop], between);
        assert [FireStop][1..] == [] && [Abort][1..] == [];
        QuietRun(c, s1, between);
      }
    }
  }

  lemma CallBackNow(c: Config, s: State) returns (run: seq<Action>)
    requires Inv(s) && s.callbacks == 0 && CallsBackNow(c, s)
    ensures AreInstant(run) && IsRun(c, s, run) && After(c, s, run).callbacks == 1
  {
    if s.supervisor.Watching? && s.wakeAt <= s.now && IsExpired(s) {
      RunCons(c, s, TimerExpired, []);
      run := [TimerExpired] + [];
    } else if s.supervisor == Top {
      RunCons(c, s, TopTooLate, []);
      run := [TopTooLate] + [];
    } else {
      RunCons(c, Exec(c, s, ReceiveReason), TopTooLate, []);
      RunCons(c, s, ReceiveReason, [TopTooLate] + []);
      run := [ReceiveReason] + ([TopTooLate] + []);
    }
  }

  // ---------------------------------------------------------------------------
  // A revocation that does call back
  // ---------------------------------------------------------------------------

  /** Until the lease is over and the check is due, while a keepalive request stays without a reply. */
  function Outage(c: Config, ttl: nat): nat { Later(ttl, c.checkInterval) + 1 }

  /** The lease is kept alive once and then runs out during an outage of etcd. */
  function RunsOut(c: Config, ttl: nat): seq<Action> {
    [TopWait, WaitElapsed, StartReplied(ttl), Tick(Outage(c, ttl))]
  }

  lemma LeaseRunsOut(c: Config, ttl: nat)
    requires ttl > 0
    ensures var s0 := Start(0, c.keepaliveCost);
      && IsRun(c, s0, RunsOut(c, ttl))
      && After(c, s0, RunsOut(c, ttl)) == State(Watching(0), [Pinging], [Open], false, false, 0,
                                                Outage(c, ttl), ttl, c.checkInterval, 0)
  {
    var s0 := Start(0, c.keepaliveCost);
    var s1 := Exec(c, s0, TopWait);
    var s2 := Exec(c, s1, WaitElapsed);
    var s3 := Exec(c, s2, StartReplied(ttl));
    RunCons(c, s3, Tick(Outage(c, ttl)), []);
    RunCons(c, s2, StartReplied(ttl), [Tick(Outage(c, ttl))]);
    RunCons(c, s1, WaitElapsed, [StartReplied(ttl), Tick(Outage(c, ttl))]);
    RunCons(c, s0, TopWait, [WaitElapsed, StartReplied(ttl), Tick(Outage(c, ttl))]);
  }

  /**
   * For every configuration and ttl: a lease runs out while a keepalive request stays without a reply,
   * the lock is revoked, and the due check runs between the signal and the abort. It calls back.
   */
  lemma StopCanLoseToTimer(c: Config, ttl: nat)
    requires ttl > 0
    ensures IsRun(c, Start(0, c.keepaliveCost), RunsOut(c, ttl))
    ensures RevokeCallsBack(c, After(c, Start(0, c.keepaliveCost), RunsOut(c, ttl)), [TimerExpired])
  {
    LeaseRunsOut(c, ttl);
    var s := After(c, Start(0, c.keepaliveCost), RunsOut(c, ttl));
    RunCons(c, s.(stopFired := true), TimerExpired, []);
    assert [TimerExpired] + [] == [TimerExpired];
    StepsCallBack(c, s, [TimerExpired]);
  }
}
