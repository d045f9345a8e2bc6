/**
 What a supervisor does with its payload, event by event and over whole runs: what a launch arms, exactly which
 events end a running payload and for which reason, that the timeout given at the launch is kept whatever
 messages come, and what status a supervisor that timed out exits with.
 */
module SupervisorMeaning {
  import opened Options
  import opened SupervisorModel
  import opened SupervisorVerdict
  import opened SupervisorTimers
  import opened SupervisorRuns

  // ---------------------------------------------------------------- launching

  /** The first message of a live supervisor, a launch that is valid and not too late, whose spawn() returned a process. */
  predicate Launches(s: Supervisor, at: Stimulus) {
    && !s.completed && !s.firstMessageSeen
    && at.event.LaunchMessage? && at.event.valid
    && (at.event.options.deadlineAt == 0 || at.now < at.event.options.deadlineAt)
    && at.event.spawned.SpawnReturns? && at.event.spawned.pid > 0
  }

  function TimeoutAt(now: nat, options: LaunchOptions): Option<nat> {
    if options.timeoutMs == 0 then None else Some(now + options.timeoutMs)
  }

  function WatchdogAt(now: nat, options: LaunchOptions): Option<nat> {
    if options.watchdogMs == 0 then None
    else if 0 < options.deadlineAt < now + options.watchdogMs then Some(options.deadlineAt)
    else Some(now + options.watchdogMs)
  }

  lemma LaunchIsStart(s: Supervisor, at: Stimulus)
    requires Launches(s, at)
    ensures var o, pid := at.event.options, at.event.spawned.pid;
            Step(s, at) == Started(Tried(Configured(s.(firstMessageSeen := true), o), at.now).(hasPayload := true, payloadPid := pid), o, at.now)
  {
  }

  /** A launch starts one payload, announces it, and arms exactly the timers its options ask for. */
  lemma LaunchStarts(s: Supervisor, at: Stimulus)
    requires Good(s) && Launches(s, at)
    ensures var t, o, pid := Step(s, at), at.event.options, at.event.spawned.pid;
            && t.RunningPayload() && t.payloadPid == pid && t.spawns == s.spawns + 1
            && t.log == Written(s, [Launched(pid)])
            && t.timers.timeout == TimeoutAt(at.now, o) && (o.watchdogMs > 0 ==> t.timers.watchdog == WatchdogAt(at.now, o))
            && t.watch.ms == o.watchdogMs && t.watch.deadlineAt == o.deadlineAt && (o.watchdogMs > 0 ==> t.watch.lastHeartbeatAt == at.now)
            && t.confirmMs == (if o.confirmMs == 0 then 5000 else o.confirmMs)
  {
    LaunchIsStart(s, at);
  }

  // What no handler but that of a launch changes.

  /** The number of spawns, and whether there is a payload. */
  function SpawnsOf(s: Supervisor): (nat, bool) { (s.spawns, s.hasPayload) }

  lemma ApplyKeepsSpawns(s: Supervisor, move: Move)
    ensures SpawnsOf(Apply(s, move)) == SpawnsOf(s)
  {
    match move
    case Confirm => CompleteKeepsSpawns(s, s.terminationReason, true, true, false);
    case BestEffort => CompleteKeepsSpawns(s, s.terminationReason, true, false, true);
    case GiveUp => CompleteKeepsSpawns(Emit(s, TerminationUnconfirmed(s.terminationReason)), s.terminationReason, true, false, false);
    case _ =>
  }

  lemma RequestKeepsSpawns(s: Supervisor, reason: Reason, group: GroupState)
    ensures SpawnsOf(RequestTermination(s, reason, group)) == SpawnsOf(s)
  {
    if !s.Terminating() { ApplyKeepsSpawns(Observe(Asked(s, reason), group), FirstMove(s, group)); }
  }

  lemma FailureKeepsSpawns(s: Supervisor, code: Fault, group: GroupState)
    ensures SpawnsOf(ProtocolFailure(s, code, group)) == SpawnsOf(s)
  {
    RequestKeepsSpawns(Emit(s, ProtocolError(code)), ProtocolBroken, group);
  }

  lemma HeartbeatKeepsSpawns(s: Supervisor, deadlineAt: nat, now: nat, group: GroupState)
    ensures SpawnsOf(OnHeartbeat(s, deadlineAt, now, group)) == SpawnsOf(s)
  {
    FailureKeepsSpawns(s, HeartbeatBeforePayload, group);
    RequestKeepsSpawns(s, LeaseDeadlineInvalid, group);
  }

  lemma AfterFirstKeepsSpawns(s: Supervisor, next: Supervisor, group: GroupState)
    requires SpawnsOf(next) == SpawnsOf(s)
    ensures SpawnsOf(AfterFirst(s, next, group)) == SpawnsOf(s)
  {
    FailureKeepsSpawns(s.(firstMessageSeen := true), FirstMustBeLaunch, group);
  }

  lemma InputKeepsSpawns(s: Supervisor, at: Stimulus)
    requires Input(at.event) && !at.event.LaunchMessage?
    ensures SpawnsOf(OnInput(s, at)) == SpawnsOf(s)
  {
    match at.event
    case HeartbeatMessage(deadlineAt) =>
      HeartbeatKeepsSpawns(s, deadlineAt, at.now, at.group);
      AfterFirstKeepsSpawns(s, OnHeartbeat(s, deadlineAt, at.now, at.group), at.group);
    case TerminateMessage(reason) =>
      RequestKeepsSpawns(s, reason, at.group);
      AfterFirstKeepsSpawns(s, RequestTermination(s, reason, at.group), at.group);
    case OtherMessage(parses) =>
      FailureKeepsSpawns(s, UnknownMessageType, at.group);
      FailureKeepsSpawns(s, InvalidMessage, at.group);
      AfterFirstKeepsSpawns(s, ProtocolFailure(s, UnknownMessageType, at.group), at.group);
    case LineTooLarge => FailureKeepsSpawns(s, ControlLineTooLarge, at.group);
    case _ => RequestKeepsSpawns(s, StdinClosed, at.group);
  }

  lemma CheckedKeepsSpawns(s: Supervisor, backpressured: bool, now: nat, group: GroupState)
    ensures SpawnsOf(CheckExitClose(s, backpressured, now, group)) == SpawnsOf(s)
  {
    var seen := if backpressured then s.(lastOutputAt := now) else s;
    RequestKeepsSpawns(seen, DescendantAfterExit, group);
    assert SpawnsOf(ScheduleExitCloseCheck(seen, now)) == SpawnsOf(s);
  }

  lemma CheckKeepsSpawns(s: Supervisor, backpressured: bool, now: nat, group: GroupState)
    ensures SpawnsOf(OnExitCloseFires(s, backpressured, now, group)) == SpawnsOf(s)
  {
    CheckedKeepsSpawns(Fired(s), backpressured, now, group);
  }

  lemma TimerKeepsSpawns(s: Supervisor, at: Stimulus)
    requires TimerEvent(at.event)
    ensures SpawnsOf(OnTimer(s, at)) == SpawnsOf(s)
  {
    match at.event
    case TimeoutFires => RequestKeepsSpawns(s.(timers := s.timers.(timeout := None)), TimedOut, at.group);
    case WatchdogFires => RequestKeepsSpawns(s, WatchdogExpired, at.group);
    case ExitCloseFires(backpressured) => CheckKeepsSpawns(s, backpressured, at.now, at.group);
  }

  lemma RecordKeepsSpawns(s: Supervisor, code: Option<int>, now: nat)
    ensures SpawnsOf(RecordExit(s, code, now)) == SpawnsOf(s)
  {
  }

  lemma ClosedKeepsSpawns(s: Supervisor, group: GroupState)
    ensures SpawnsOf(Closed(s, group)) == SpawnsOf(s)
  {
    RequestKeepsSpawns(s, DescendantAfterExit, group);
    CompleteKeepsSpawns(s, CloseReason(s), false, false, false);
    CompleteKeepsSpawns(Observe(s, group), CloseReason(s), false, true, false);
  }

  lemma CompleteKeepsSpawns(s: Supervisor, reason: Reason, requested: bool, confirmed: bool, bestEffort: bool)
    ensures SpawnsOf(Complete(s, reason, requested, confirmed, bestEffort)) == SpawnsOf(s)
  {
  }

  lemma CloseKeepsSpawns(s: Supervisor, code: Option<int>, now: nat, group: GroupState)
    ensures SpawnsOf(OnPayloadClose(s, code, now, group)) == SpawnsOf(s)
  {
    RecordKeepsSpawns(s.(directChildClosed := true), code, now);
    ClosedKeepsSpawns(ClearTimers(RecordExit(s.(directChildClosed := true), code, now)), group);
  }

  lemma ErrorKeepsSpawns(s: Supervisor)
    ensures SpawnsOf(OnPayloadError(s)) == SpawnsOf(s)
  {
    CompleteKeepsSpawns(s.(spawnFailed := true), SpawnFailed, false, false, false);
  }

  lemma PayloadKeepsSpawns(s: Supervisor, at: Stimulus)
    requires PayloadEvent(at.event)
    ensures SpawnsOf(OnPayload(s, at)) == SpawnsOf(s)
  {
    match at.event
    case PayloadClose(code) => CloseKeepsSpawns(s, code, at.now, at.group);
    case PayloadExit(code) => RecordKeepsSpawns(s, code, at.now);
    case PayloadError => ErrorKeepsSpawns(s);
    case PayloadOutput =>
  }

  lemma StepKeepsSpawns(s: Supervisor, at: Stimulus)
    requires !at.event.LaunchMessage?
    ensures SpawnsOf(Step(s, at)) == SpawnsOf(s)
  {
    if Continuation(at.event) { ApplyKeepsSpawns(if PollsGroup(s, at) then Observe(s, at.group) else s, NextMove(s, at)); }
    else if Input(at.event) { InputKeepsSpawns(s, at); }
    else if TimerEvent(at.event) { TimerKeepsSpawns(s, at); }
    else if PayloadEvent(at.event) { PayloadKeepsSpawns(s, at); }
    else {
      match at.event
      case ChannelClosed(reason) => RequestKeepsSpawns(s, reason, at.group);
      case ControlLost =>
      case _ => RequestKeepsSpawns(s, SupervisorSignal, at.group);
    }
  }

  lemma StartedKeepsSpawns(s: Supervisor, options: LaunchOptions, now: nat)
    ensures SpawnsOf(Started(s, options, now)) == SpawnsOf(s)
  {
    var told := if s.payloadPid > 0 then Emit(s, Launched(s.payloadPid)) else s;
    WatchKeepsSpawns(StartTimeout(told, options.timeoutMs, now), now);
  }

  lemma WatchKeepsSpawns(s: Supervisor, now: nat)
    ensures SpawnsOf(StartWatchdog(s, now)) == SpawnsOf(s)
  {
  }

  lemma SpawnSpawns(s: Supervisor, options: LaunchOptions, spawned: SpawnResult, now: nat)
    ensures Spawn(s, options, spawned, now).spawns == s.spawns + 1
  {
    match spawned
    case SpawnThrows => CompleteKeepsSpawns(Tried(s, now).(spawnFailed := true), SpawnFailed, false, false, false);
    case SpawnReturns(pid) => StartedKeepsSpawns(Tried(s, now).(hasPayload := true, payloadPid := pid), options, now);
  }

  lemma LaunchSpawns(s: Supervisor, options: LaunchOptions, spawned: SpawnResult, now: nat)
    ensures LaunchPayload(s, options, spawned, now).spawns == s.spawns + if options.deadlineAt == 0 || now < options.deadlineAt then 1 else 0
  {
    if LaunchAuthorityExpired(options.deadlineAt, now) {
      CompleteKeepsSpawns(Configured(s, options), LaunchGateExpired, false, false, false);
    } else {
      SpawnSpawns(Configured(s, options), options, spawned, now);
    }
  }

  lemma LaunchMessageSpawns(s: Supervisor, valid: bool, options: LaunchOptions, spawned: SpawnResult, now: nat, group: GroupState)
    ensures OnLaunchMessage(s, valid, options, spawned, now, group).spawns == s.spawns +
              if !s.completed && !s.firstMessageSeen && valid && (options.deadlineAt == 0 || now < options.deadlineAt) then 1 else 0
  {
    FailureKeepsSpawns(s, DuplicateLaunch, group);
    FailureKeepsSpawns(s.(firstMessageSeen := true), InvalidLaunch, group);
    if !s.firstMessageSeen { LaunchSpawns(s.(firstMessageSeen := true), options, spawned, now); }
  }

  /** A spawn happens exactly for a valid first message that is not too late. */
  lemma SpawnsIff(s: Supervisor, at: Stimulus)
    ensures Step(s, at).spawns != s.spawns <==>
              && !s.completed && !s.firstMessageSeen && at.event.LaunchMessage? && at.event.valid
              && (at.event.options.deadlineAt == 0 || at.now < at.event.options.deadlineAt)
  {
    match at.event
    case LaunchMessage(valid, options, spawned) => LaunchMessageSpawns(s, valid, options, spawned, at.now, at.group);
    case _ => StepKeepsSpawns(s, at);
  }

  // ---------------------------------------------------------------- the timeout is kept

  /** A supervisor as its timeout sees it: over, or alive with this payload and this timer. */
  datatype Life = Over | Alive(pid: nat, timeout: Option<nat>)

  function LifeOf(s: Supervisor): Life { if Ended(s) then Over else Alive(s.payloadPid, s.timers.timeout) }

  /** The step ended the payload's run, or left its timeout as it was. */
  predicate Carries(s: Supervisor, t: Supervisor) { LifeOf(t) == Over || LifeOf(t) == LifeOf(s) }

  lemma EndedCarries(s: Supervisor, t: Supervisor)
    requires Ended(t)
    ensures Carries(s, t)
  {
  }

  lemma RequestCarries(s: Supervisor, u: Supervisor, reason: Reason, group: GroupState)
    ensures Carries(s, RequestTermination(u, reason, group))
  {
    RequestEnds(u, reason, group);
    EndedCarries(s, RequestTermination(u, reason, group));
  }

  lemma FailureCarries(s: Supervisor, u: Supervisor, code: Fault, group: GroupState)
    ensures Carries(s, ProtocolFailure(u, code, group))
  {
    ProtocolFailureEnds(u, code, group);
    EndedCarries(s, ProtocolFailure(u, code, group));
  }

  lemma ScheduledCarries(s: Supervisor, now: nat)
    ensures LifeOf(ScheduleWatchdog(s, now)) == LifeOf(s) && LifeOf(ScheduleExitCloseCheck(s, now)) == LifeOf(s) && LifeOf(Fired(s)) == LifeOf(s)
  {
  }

  lemma HeartbeatCarries(s: Supervisor, deadlineAt: nat, now: nat, group: GroupState)
    ensures Carries(s, OnHeartbeat(s, deadlineAt, now, group))
  {
    if s.Terminating() {
    } else if s.payloadPid == 0 {
      FailureCarries(s, s, HeartbeatBeforePayload, group);
    } else if s.watch.ms == 0 {
    } else if deadlineAt == 0 || deadlineAt <= now {
      RequestCarries(s, s, LeaseDeadlineInvalid, group);
    } else {
      ScheduledCarries(s.(watch := Watch(s.watch.ms, Min(now + s.watch.ms, deadlineAt), now)), now);
    }
  }

  lemma AfterFirstCarries(s: Supervisor, next: Supervisor, group: GroupState)
    requires Carries(s, next)
    ensures Carries(s, AfterFirst(s, next, group))
  {
    FailureCarries(s, s.(firstMessageSeen := true), FirstMustBeLaunch, group);
  }

  lemma InputCarries(s: Supervisor, at: Stimulus)
    requires Input(at.event) && !(at.event.LaunchMessage? && !s.completed && !s.firstMessageSeen)
    ensures Carries(s, OnInput(s, at))
  {
    match at.event
    case LaunchMessage(valid, options, spawned) => FailureCarries(s, s, DuplicateLaunch, at.group);
    case HeartbeatMessage(deadlineAt) =>
      HeartbeatCarries(s, deadlineAt, at.now, at.group);
      AfterFirstCarries(s, OnHeartbeat(s, deadlineAt, at.now, at.group), at.group);
    case TerminateMessage(reason) =>
      RequestCarries(s, s, reason, at.group);
      AfterFirstCarries(s, RequestTermination(s, reason, at.group), at.group);
    case OtherMessage(parses) =>
      FailureCarries(s, s, UnknownMessageType, at.group);
      FailureCarries(s, s, InvalidMessage, at.group);
      AfterFirstCarries(s, ProtocolFailure(s, UnknownMessageType, at.group), at.group);
    case LineTooLarge => FailureCarries(s, s, ControlLineTooLarge, at.group);
    case StdinEnd => StdinEndCarries(s, at.group);
    case StdinError => RequestCarries(s, s, StdinClosed, at.group);
  }

  lemma StdinEndCarries(s: Supervisor, group: GroupState)
    ensures Carries(s, OnStdinEnd(s, group))
  {
    RequestCarries(s, s, StdinClosed, group);
  }

  lemma CheckedCarries(s: Supervisor, u: Supervisor, backpressured: bool, now: nat, group: GroupState)
    requires LifeOf(u) == LifeOf(s)
    ensures Carries(s, CheckExitClose(u, backpressured, now, group))
  {
    var seen := if backpressured then u.(lastOutputAt := now) else u;
    assert LifeOf(seen) == LifeOf(u);
    ScheduledCarries(seen, now);
    RequestCarries(s, seen, DescendantAfterExit, group);
  }

  lemma CheckCarries(s: Supervisor, backpressured: bool, now: nat, group: GroupState)
    ensures Carries(s, OnExitCloseFires(s, backpressured, now, group))
  {
    ScheduledCarries(s, now);
    CheckedCarries(s, Fired(s), backpressured, now, group);
  }

  lemma WatchdogCarries(s: Supervisor, now: nat, group: GroupState)
    ensures Carries(s, OnWatchdogFires(s, now, group))
  {
    ScheduledCarries(s, now);
    RequestCarries(s, s, WatchdogExpired, group);
  }

  lemma TimerCarries(s: Supervisor, at: Stimulus)
    requires TimerEvent(at.event)
    ensures Carries(s, OnTimer(s, at))
  {
    match at.event
    case TimeoutFires => RequestCarries(s, s.(timers := s.timers.(timeout := None)), TimedOut, at.group);
    case WatchdogFires => WatchdogCarries(s, at.now, at.group);
    case ExitCloseFires(backpressured) => CheckCarries(s, backpressured, at.now, at.group);
  }

  lemma RecordCarries(s: Supervisor, code: Option<int>, now: nat)
    ensures LifeOf(ScheduleExitCloseCheck(RecordExit(s, code, now), now)) == LifeOf(s)
  {
    ScheduledCarries(RecordExit(s, code, now), now);
  }

  lemma ErrorCarries(s: Supervisor)
    ensures Carries(s, OnPayloadError(s))
  {
    CompleteEnds(s.(spawnFailed := true), SpawnFailed, false, false, false);
  }

  lemma PayloadCarries(s: Supervisor, at: Stimulus, t: Supervisor)
    requires PayloadEvent(at.event) && t == OnPayload(s, at)
    ensures Carries(s, t)
  {
    if s.hasPayload {
      match at.event
      case PayloadClose(code) => CloseEnds(s, code, at.now, at.group);
      case PayloadExit(code) => RecordCarries(s, code, at.now);
      case PayloadOutput => assert LifeOf(s.(lastOutputAt := at.now)) == LifeOf(s);
      case PayloadError => ErrorCarries(s);
    }
  }

  lemma OutsideCarries(s: Supervisor, at: Stimulus)
    ensures Carries(s, OnOutside(s, at))
  {
    match at.event
    case ChannelClosed(reason) => RequestCarries(s, s, reason, at.group);
    case ControlLost => assert LifeOf(s.(controlAvailable := false)) == LifeOf(s);
    case _ => RequestCarries(s, s, SupervisorSignal, at.group);
  }

  lemma ResumeCarries(s: Supervisor, at: Stimulus)
    requires Continuation(at.event)
    ensures Carries(s, Resume(s, at))
  {
    ResumeEnds(s, at);
    if s.Terminating() { EndedCarries(s, Resume(s, at)); }
  }

  /** Every event but the first launch message ends the payload's run or leaves its timeout as it was. */
  lemma StepCarries(s: Supervisor, at: Stimulus)
    requires !(at.event.LaunchMessage? && !s.completed && !s.firstMessageSeen)
    ensures Carries(s, Step(s, at))
  {
    if Continuation(at.event) { ResumeCarries(s, at); }
    else if Input(at.event) { InputCarries(s, at); }
    else if TimerEvent(at.event) { TimerCarries(s, at); }
    else if PayloadEvent(at.event) { PayloadCarries(s, at, Step(s, at)); }
    else { OutsideCarries(s, at); }
  }

  lemma FirstLaunchLife(s: Supervisor, at: Stimulus)
    requires Good(s) && at.event.LaunchMessage? && !s.completed && !s.firstMessageSeen
    ensures Step(s, at).RunningPayload() ==>
              Launches(s, at) && LifeOf(Step(s, at)) == Alive(at.event.spawned.pid, TimeoutAt(at.now, at.event.options))
  {
    if Launches(s, at) {
      LaunchStarts(s, at);
    } else {
      LaunchMessageFails(s.(firstMessageSeen := true), at.event.valid, at.event.options, at.event.spawned, at.now, at.group);
    }
  }

  lemma LaunchMessageFails(s: Supervisor, valid: bool, options: LaunchOptions, spawned: SpawnResult, now: nat, group: GroupState)
    requires s.payloadPid == 0 && !(valid && (options.deadlineAt == 0 || now < options.deadlineAt) && spawned.SpawnReturns? && spawned.pid > 0)
    ensures !valid ==> Ended(ProtocolFailure(s, InvalidLaunch, group))
    ensures valid ==> !LaunchPayload(s, options, spawned, now).RunningPayload()
  {
    ProtocolFailureEnds(s, InvalidLaunch, group);
    if valid && !LaunchAuthorityExpired(options.deadlineAt, now) {
      match spawned
      case SpawnThrows => CompleteEnds(Tried(Configured(s, options), now).(spawnFailed := true), SpawnFailed, false, false, false);
      case SpawnReturns(pid) => StartedPid(Tried(Configured(s, options), now).(hasPayload := true, payloadPid := pid), options, now);
    }
  }

  lemma StartedPid(s: Supervisor, options: LaunchOptions, now: nat)
    ensures Started(s, options, now).payloadPid == s.payloadPid
  {
  }

  /** The state after the first `n` events of a run. */
  function After(start: Supervisor, events: seq<Stimulus>, n: nat): Supervisor
    requires n <= |events|
  {
    Run(start, events[..n])
  }

  lemma AfterStep(start: Supervisor, events: seq<Stimulus>, n: nat)
    requires n < |events|
    ensures After(start, events, n + 1) == Step(After(start, events, n), events[n])
  {
    assert events[..n + 1][..n] == events[..n];
  }

  lemma SpawnsGrow(s: Supervisor, at: Stimulus)
    ensures Step(s, at).spawns >= s.spawns
  {
    match at.event
    case LaunchMessage(valid, options, spawned) => LaunchMessageSpawns(s, valid, options, spawned, at.now, at.group);
    case _ => StepKeepsSpawns(s, at);
  }

  lemma {:induction false} SpawnedStays(start: Supervisor, events: seq<Stimulus>, k: nat, n: nat)
    requires Good(start) && Armed(start) && k < n <= |events| && Launches(After(start, events, k), events[k])
    ensures Good(After(start, events, n)) && After(start, events, n).firstMessageSeen && After(start, events, n).spawns >= 1
    decreases n
  {
    RunExtends(start, events, n);
    RunExtends(start, events, n - 1);
    AfterStep(start, events, n - 1);
    if n == k + 1 {
      LaunchStarts(After(start, events, k), events[k]);
    } else {
      SpawnedStays(start, events, k, n - 1);
      SpawnsGrow(After(start, events, n - 1), events[n - 1]);
    }
  }

  /** A payload that runs is the one this event launched, with the timeout of that launch. */
  predicate TimedAs(s: Supervisor, launch: Stimulus)
    requires launch.event.LaunchMessage? && launch.event.spawned.SpawnReturns?
  {
    s.RunningPayload() ==>
      s.timers.timeout == TimeoutAt(launch.now, launch.event.options) && s.payloadPid == launch.event.spawned.pid
  }

  lemma LaunchIsTimed(s: Supervisor, at: Stimulus)
    requires Good(s) && Launches(s, at)
    ensures TimedAs(Step(s, at), at)
  {
    LaunchStarts(s, at);
  }

  lemma StaysTimed(s: Supervisor, at: Stimulus, launch: Stimulus)
    requires launch.event.LaunchMessage? && launch.event.spawned.SpawnReturns?
    requires s.firstMessageSeen && TimedAs(s, launch)
    ensures TimedAs(Step(s, at), launch)
  {
    StepCarries(s, at);
  }

  /**
   In every run, whatever messages come: a payload launched by event `k` that still runs has its timeout due at
   exactly the moment of the launch plus the timeout it was launched with (and no timeout if it had none).
   */
  lemma {:induction false} TimeoutIsKept(start: Supervisor, events: seq<Stimulus>, k: nat, n: nat)
    requires Good(start) && Armed(start) && k < n <= |events| && Launches(After(start, events, k), events[k])
    ensures TimedAs(After(start, events, n), events[k])
    decreases n
  {
    AfterStep(start, events, n - 1);
    if n == k + 1 {
      RunExtends(start, events, k);
      LaunchIsTimed(After(start, events, k), events[k]);
    } else {
      SpawnedStays(start, events, k, n - 1);
      TimeoutIsKept(start, events, k, n - 1);
      StaysTimed(After(start, events, n - 1), events[n - 1], events[k]);
    }
  }

  /** A payload that runs after a step was launched by it, or ran before with the same timeout. */
  lemma RunsAfterStep(s: Supervisor, at: Stimulus)
    requires Good(s) && Step(s, at).RunningPayload()
    ensures if s.RunningPayload() then Step(s, at).timers.timeout == s.timers.timeout
            else Launches(s, at) && Step(s, at).timers.timeout == TimeoutAt(at.now, at.event.options)
  {
    if at.event.LaunchMessage? && !s.completed && !s.firstMessageSeen { FirstLaunchLife(s, at); } else { StepCarries(s, at); }
  }

  lemma NothingRunsAtFirst(windows: bool, identityValid: bool, events: seq<Stimulus>)
    ensures !After(Initial(windows, identityValid), events, 0).RunningPayload()
  {
    assert events[..0] == [];
  }

  /** And every running payload was launched by some event of its run. */
  lemma {:induction false} RunningWasLaunched(windows: bool, identityValid: bool, events: seq<Stimulus>, n: nat) returns (k: nat)
    requires n <= |events| && After(Initial(windows, identityValid), events, n).RunningPayload()
    ensures k < n && Launches(After(Initial(windows, identityValid), events, k), events[k])
    ensures After(Initial(windows, identityValid), events, n).timers.timeout == TimeoutAt(events[k].now, events[k].event.options)
    decreases n
  {
    var start := Initial(windows, identityValid);
    NothingRunsAtFirst(windows, identityValid, events);
    RunGood(windows, identityValid, events[..n - 1]);
    AfterStep(start, events, n - 1);
    RunsAfterStep(After(start, events, n - 1), events[n - 1]);
    if After(start, events, n - 1).RunningPayload() {
      k := RunningWasLaunched(windows, identityValid, events, n - 1);
    } else {
      k := n - 1;
    }
  }

  /** No event is handled after an armed timeout was due, and the timeout itself is not early. */
  predicate TimeoutOnTime(s: Supervisor, at: Stimulus) {
    s.timers.timeout.Some? ==> at.now <= s.timers.timeout.value && (at.event.TimeoutFires? ==> at.now == s.timers.timeout.value)
  }

  lemma TimeoutRequests(s: Supervisor, group: GroupState)
    requires s.RunningPayload() && s.timers.timeout.Some?
    ensures OnTimeoutFires(s, group).Terminating() && OnTimeoutFires(s, group).terminationReason == TimedOut
  {
    RequestEnds(s.(timers := s.timers.(timeout := None)), TimedOut, group);
  }

  /**
   A payload launched with a timeout does not outlive it: in a run whose timeout is handled when it is due, every
   event that still meets the running payload comes no later than that; and its firing requests the termination.
   */
  lemma TimeoutStopsPayload(start: Supervisor, events: seq<Stimulus>, k: nat, n: nat)
    requires Good(start) && Armed(start) && k < n < |events| && Launches(After(start, events, k), events[k])
    requires events[k].event.options.timeoutMs > 0
    requires After(start, events, n).RunningPayload() && TimeoutOnTime(After(start, events, n), events[n])
    ensures events[n].now <= events[k].now + events[k].event.options.timeoutMs
    ensures events[n].event.TimeoutFires? ==>
              && events[n].now == events[k].now + events[k].event.options.timeoutMs
              && After(start, events, n + 1).Terminating() && After(start, events, n + 1).terminationReason == TimedOut
  {
    TimeoutIsKept(start, events, k, n);
    AfterStep(start, events, n);
    TimeoutRequests(After(start, events, n), events[n].group);
  }

  // ---------------------------------------------------------------- what ends a supervisor that has no process

  /** A supervisor starts by saying that it is ready, or ends at once when its identity is not valid. */
  lemma StartsReady(windows: bool, identityValid: bool)
    ensures var s := Initial(windows, identityValid);
            && s.completed == !identityValid && !s.firstMessageSeen && !s.hasPayload
            && s.log == if identityValid then [Ready]
                        else [ProtocolError(InvalidIdentity), Exit(ProtocolBroken, false, true, false, None, 0, false, false)]
  {
  }

  datatype Ending = GoesOn | ExitsWith(told: seq<Control>, reason: Reason, requested: bool, confirmed: bool)

  function Broken(code: Fault): Ending { ExitsWith([ProtocolError(code)], ProtocolBroken, false, true) }

  function AskedTo(why: Reason): Ending { ExitsWith([], why, true, true) }

  /** How an event from outside ends a supervisor without a process, if it does. */
  function EarlyEnding(s: Supervisor, at: Stimulus): Ending {
    match at.event
    case LaunchMessage(valid, options, spawned) =>
      if s.firstMessageSeen then Broken(DuplicateLaunch)
      else if !valid then Broken(InvalidLaunch)
      else if 0 < options.deadlineAt <= at.now then ExitsWith([], LaunchGateExpired, false, false)
      else if spawned.SpawnThrows? then ExitsWith([], SpawnFailed, false, false)
      else GoesOn
    case HeartbeatMessage(_) => Broken(if s.firstMessageSeen then HeartbeatBeforePayload else FirstMustBeLaunch)
    case TerminateMessage(why) => if s.firstMessageSeen then AskedTo(why) else Broken(FirstMustBeLaunch)
    case OtherMessage(parses) =>
      Broken(if !parses then InvalidMessage else if s.firstMessageSeen then UnknownMessageType else FirstMustBeLaunch)
    case LineTooLarge => Broken(ControlLineTooLarge)
    case StdinEnd => ExitsWith([], if s.firstMessageSeen then StdinClosedBeforePayload else StdinClosedBeforeLaunch, false, true)
    case StdinError => AskedTo(StdinClosed)
    case Signal => AskedTo(SupervisorSignal)
    case ChannelClosed(why) => if s.hasPayload then AskedTo(why) else GoesOn
    case PayloadError => if s.hasPayload then ExitsWith([], SpawnFailed, false, false) else GoesOn
    case _ => GoesOn
  }

  /** Ends so, with one exit event, or goes on. */
  predicate EndsEarly(s: Supervisor, t: Supervisor, ending: Ending) {
    match ending
    case GoesOn => !t.completed
    case ExitsWith(told, reason, requested, confirmed) =>
      && t.completed
      && t.log == s.log + told + [Exit(reason, requested, confirmed, false, s.payloadExitCode, 0, s.payloadExited, s.directChildClosed)]
  }

  predicate WithoutProcess(s: Supervisor) { !s.completed && !s.Terminating() && s.payloadPid == 0 && s.controlAvailable }

  lemma RequestEndsEarly(s: Supervisor, why: Reason, group: GroupState)
    requires WithoutProcess(s)
    ensures EndsEarly(s, RequestTermination(s, why, group), AskedTo(why))
  {
    assert FirstMove(s, group) == Confirm;
    assert s.log + [] == s.log;
  }

  lemma FailureEndsEarly(s: Supervisor, u: Supervisor, code: Fault, group: GroupState)
    requires WithoutProcess(s) && (u == s || u == s.(firstMessageSeen := true))
    ensures EndsEarly(s, ProtocolFailure(u, code, group), Broken(code))
  {
  }

  lemma CompletesEarly(s: Supervisor, u: Supervisor, reason: Reason, confirmed: bool)
    requires WithoutProcess(s) && !u.completed && u.controlAvailable && u.log == s.log && u.payloadPid == 0
    requires u.payloadExitCode == s.payloadExitCode && u.payloadExited == s.payloadExited && u.directChildClosed == s.directChildClosed
    ensures EndsEarly(s, Complete(u, reason, false, confirmed, false), ExitsWith([], reason, false, confirmed))
  {
    assert s.log + [] == s.log;
  }

  lemma StartedGoesOn(s: Supervisor, options: LaunchOptions, now: nat)
    requires !s.completed
    ensures !Started(s, options, now).completed
  {
  }

  function LaunchEnding(options: LaunchOptions, spawned: SpawnResult, now: nat): Ending {
    if 0 < options.deadlineAt <= now then ExitsWith([], LaunchGateExpired, false, false)
    else if spawned.SpawnThrows? then ExitsWith([], SpawnFailed, false, false)
    else GoesOn
  }

  lemma SpawnEndsEarly(s: Supervisor, u: Supervisor, options: LaunchOptions, spawned: SpawnResult, now: nat)
    requires WithoutProcess(s) && !u.completed && u.controlAvailable && u.log == s.log && u.payloadPid == 0
    requires u.payloadExitCode == s.payloadExitCode && u.payloadExited == s.payloadExited && u.directChildClosed == s.directChildClosed
    ensures EndsEarly(s, Spawn(u, options, spawned, now), if spawned.SpawnThrows? then ExitsWith([], SpawnFailed, false, false) else GoesOn)
  {
    match spawned
    case SpawnThrows => CompletesEarly(s, Tried(u, now).(spawnFailed := true), SpawnFailed, false);
    case SpawnReturns(pid) => StartedGoesOn(Tried(u, now).(hasPayload := true, payloadPid := pid), options, now);
  }

  lemma LaunchPayloadEndsEarly(s: Supervisor, options: LaunchOptions, spawned: SpawnResult, now: nat)
    requires WithoutProcess(s)
    ensures EndsEarly(s, LaunchPayload(s.(firstMessageSeen := true), options, spawned, now), LaunchEnding(options, spawned, now))
  {
    var configured := Configured(s.(firstMessageSeen := true), options);
    if LaunchAuthorityExpired(options.deadlineAt, now) {
      CompletesEarly(s, configured, LaunchGateExpired, false);
    } else {
      SpawnEndsEarly(s, configured, options, spawned, now);
    }
  }

  lemma LaunchEndsEarly(s: Supervisor, at: Stimulus)
    requires WithoutProcess(s) && at.event.LaunchMessage?
    ensures EndsEarly(s, OnInput(s, at), EarlyEnding(s, at))
  {
    if s.firstMessageSeen {
      FailureEndsEarly(s, s, DuplicateLaunch, at.group);
    } else if !at.event.valid {
      FailureEndsEarly(s, s.(firstMessageSeen := true), InvalidLaunch, at.group);
    } else {
      LaunchPayloadEndsEarly(s, at.event.options, at.event.spawned, at.now);
      assert EarlyEnding(s, at) == LaunchEnding(at.event.options, at.event.spawned, at.now);
    }
  }

  lemma InputEndsEarly(s: Supervisor, at: Stimulus)
    requires WithoutProcess(s) && Input(at.event)
    ensures EndsEarly(s, OnInput(s, at), EarlyEnding(s, at))
  {
    FailureEndsEarly(s, s.(firstMessageSeen := true), FirstMustBeLaunch, at.group);
    match at.event
    case LaunchMessage(_, _, _) => LaunchEndsEarly(s, at);
    case HeartbeatMessage(_) => FailureEndsEarly(s, s, HeartbeatBeforePayload, at.group);
    case TerminateMessage(why) => RequestEndsEarly(s, why, at.group);
    case OtherMessage(_) =>
      FailureEndsEarly(s, s, UnknownMessageType, at.group);
      FailureEndsEarly(s, s, InvalidMessage, at.group);
    case LineTooLarge => FailureEndsEarly(s, s, ControlLineTooLarge, at.group);
    case StdinEnd => CompletesEarly(s, s, StdinEndReason(s), true);
    case StdinError => RequestEndsEarly(s, StdinClosed, at.group);
  }

  lemma ErrorEndsEarly(s: Supervisor)
    requires WithoutProcess(s)
    ensures EndsEarly(s, OnPayloadError(s), ExitsWith([], SpawnFailed, false, false))
  {
    CompletesEarly(s, s.(spawnFailed := true), SpawnFailed, false);
  }

  lemma PayloadEndsEarly(s: Supervisor, at: Stimulus)
    requires WithoutProcess(s) && at.event.PayloadError?
    ensures EndsEarly(s, OnPayload(s, at), EarlyEnding(s, at))
  {
    if s.hasPayload { ErrorEndsEarly(s); }
  }

  lemma StepIsHandler(s: Supervisor, at: Stimulus)
    ensures Input(at.event) ==> Step(s, at) == OnInput(s, at)
    ensures at.event.PayloadError? ==> Step(s, at) == OnPayload(s, at)
    ensures at.event.Signal? || at.event.ChannelClosed? || at.event.ControlLost? ==> Step(s, at) == OnOutside(s, at)
  {
  }

  lemma OutsideEndsEarly(s: Supervisor, at: Stimulus)
    requires WithoutProcess(s) && (at.event.Signal? || at.event.ChannelClosed? || at.event.ControlLost?)
    ensures EndsEarly(s, OnOutside(s, at), EarlyEnding(s, at))
  {
    match at.event
    case Signal => RequestEndsEarly(s, SupervisorSignal, at.group);
    case ChannelClosed(why) => RequestEndsEarly(s, why, at.group);
    case ControlLost =>
  }

  /** Every event from outside ends a supervisor without a process exactly so: with this reason, these faults told, and this status. */
  lemma EndsWithoutProcess(s: Supervisor, at: Stimulus)
    requires WithoutProcess(s)
    requires Input(at.event) || at.event.Signal? || at.event.ChannelClosed? || at.event.ControlLost? || at.event.PayloadError?
    ensures EndsEarly(s, Step(s, at), EarlyEnding(s, at))
  {
    StepIsHandler(s, at);
    if Input(at.event) { InputEndsEarly(s, at); }
    else if at.event.PayloadError? { PayloadEndsEarly(s, at); }
    else { OutsideEndsEarly(s, at); }
  }

  // ---------------------------------------------------------------- what ends a running payload, and with which status

  /** The reason for which an event ends a running payload, if it does. */
  function StopReason(s: Supervisor, at: Stimulus): Option<Reason> {
    match at.event
    case TerminateMessage(why) => Some(why)
    case ChannelClosed(why) => Some(why)
    case Signal => Some(SupervisorSignal)
    case StdinEnd => Some(StdinClosed)
    case StdinError => Some(StdinClosed)
    case LaunchMessage(_, _, _) => Some(ProtocolBroken)
    case OtherMessage(_) => Some(ProtocolBroken)
    case LineTooLarge => Some(ProtocolBroken)
    case HeartbeatMessage(deadlineAt) => if s.watch.ms > 0 && deadlineAt <= at.now then Some(LeaseDeadlineInvalid) else None
    case TimeoutFires => if s.timers.timeout.Some? then Some(TimedOut) else None
    case WatchdogFires =>
      if s.timers.watchdog.Some? && (s.watch.lastHeartbeatAt + s.watch.ms <= at.now || 0 < s.watch.deadlineAt <= at.now) then Some(WatchdogExpired) else None
    case ExitCloseFires(backpressured) =>
      var grace := if s.confirmMs < 250 then 250 else if s.confirmMs < 2000 then s.confirmMs else 2000;
      if s.timers.exitClose.Some? && !backpressured && s.exitObservedAt + grace <= at.now && s.lastOutputAt + grace <= at.now
      then Some(DescendantAfterExit) else None
    case PayloadClose(_) => if !s.windows && at.group != GroupAbsent then Some(DescendantAfterExit) else None
    case _ => None
  }

  predicate OnlyFor(log: seq<Control>, why: Reason) {
    forall i :: 0 <= i < |log| && log[i].Exit? ==> log[i].requested && log[i].reason == why
  }

  /** Terminating for this reason: every exit event written is a requested one that names it. */
  predicate EndsFor(s: Supervisor, why: Reason) {
    s.Terminating() && s.payloadPid > 0 && s.terminationReason == why && OnlyFor(s.log, why)
  }

  lemma OnlyForMore(log: seq<Control>, more: seq<Control>, why: Reason)
    requires OnlyFor(log, why) && OnlyFor(more, why)
    ensures OnlyFor(log + more, why)
  {
  }

  lemma EmitOnlyFor(s: Supervisor, c: Control, why: Reason)
    requires OnlyFor(s.log, why) && (c.Exit? ==> c.requested && c.reason == why)
    ensures OnlyFor(Written(s, [c]), why)
  {
    OnlyForMore(s.log, [c], why);
  }

  lemma CompleteOnlyFor(s: Supervisor, confirmed: bool, bestEffort: bool)
    requires OnlyFor(s.log, s.terminationReason)
    ensures OnlyFor(Complete(s, s.terminationReason, true, confirmed, bestEffort).log, s.terminationReason)
  {
    EmitOnlyFor(s, ExitEvent(s, s.terminationReason, true, confirmed, bestEffort), s.terminationReason);
  }

  lemma UnconfirmedOnlyFor(s: Supervisor)
    requires OnlyFor(s.log, s.terminationReason)
    ensures OnlyFor(Unconfirmed(s).log, s.terminationReason)
  {
    EmitOnlyFor(s, TerminationUnconfirmed(s.terminationReason), s.terminationReason);
    CompleteOnlyFor(Emit(s, TerminationUnconfirmed(s.terminationReason)), false, false);
  }

  lemma ApplyOnlyFor(s: Supervisor, move: Move)
    requires OnlyFor(s.log, s.terminationReason)
    ensures OnlyFor(Apply(s, move).log, s.terminationReason)
  {
    match move
    case Stay =>
    case Wait(next) =>
    case Confirm => CompleteOnlyFor(s, true, false);
    case BestEffort => CompleteOnlyFor(s, false, true);
    case GiveUp => UnconfirmedOnlyFor(s);
  }

  /** Whom a termination is for. */
  function TargetOf(s: Supervisor): (nat, Reason) { (s.payloadPid, s.terminationReason) }

  lemma ApplyKeepsTarget(s: Supervisor, move: Move)
    ensures TargetOf(Apply(s, move)) == TargetOf(s)
  {
  }

  lemma RequestEndsFor(s: Supervisor, reason: Reason, group: GroupState)
    requires !s.Terminating() && s.payloadPid > 0 && OnlyFor(s.log, reason)
    ensures EndsFor(RequestTermination(s, reason, group), reason)
  {
    var asked := Observe(Asked(s, reason), group);
    RequestEnds(s, reason, group);
    ApplyKeepsTarget(asked, FirstMove(s, group));
    ApplyOnlyFor(asked, FirstMove(s, group));
  }

  lemma RunningHasNoExit(s: Supervisor, why: Reason)
    requires Good(s) && s.RunningPayload()
    ensures OnlyFor(s.log, why)
  {
    forall i | 0 <= i < |s.log| ensures s.log[i].Exit? ==> SoundEntry(s, i) {}
  }

  lemma FailureEndsFor(s: Supervisor, code: Fault, group: GroupState)
    requires Good(s) && s.RunningPayload()
    ensures EndsFor(ProtocolFailure(s, code, group), ProtocolBroken)
  {
    RunningHasNoExit(s, ProtocolBroken);
    EmitOnlyFor(s, ProtocolError(code), ProtocolBroken);
    RequestEndsFor(Emit(s, ProtocolError(code)), ProtocolBroken, group);
  }

  /** Stops for this reason, or goes on. */
  predicate StopsFor(t: Supervisor, why: Option<Reason>) {
    match why case Some(reason) => EndsFor(t, reason) case None => !t.Terminating()
  }

  lemma HeartbeatStops(s: Supervisor, deadlineAt: nat, now: nat, group: GroupState)
    requires Good(s) && s.RunningPayload()
    ensures StopsFor(OnHeartbeat(s, deadlineAt, now, group), if s.watch.ms > 0 && deadlineAt <= now then Some(LeaseDeadlineInvalid) else None)
  {
    if s.watch.ms > 0 && deadlineAt <= now {
      RunningHasNoExit(s, LeaseDeadlineInvalid);
      RequestEndsFor(s, LeaseDeadlineInvalid, group);
    }
  }

  lemma MessageStops(s: Supervisor, at: Stimulus)
    requires Good(s) && s.RunningPayload() && Input(at.event)
    ensures StopsFor(OnInput(s, at), StopReason(s, at))
  {
    match at.event
    case LaunchMessage(_, _, _) => FailureEndsFor(s, DuplicateLaunch, at.group);
    case HeartbeatMessage(deadlineAt) => HeartbeatStops(s, deadlineAt, at.now, at.group);
    case TerminateMessage(why) => RunningHasNoExit(s, why); RequestEndsFor(s, why, at.group);
    case OtherMessage(parses) =>
      FailureEndsFor(s, UnknownMessageType, at.group);
      FailureEndsFor(s, InvalidMessage, at.group);
    case LineTooLarge => FailureEndsFor(s, ControlLineTooLarge, at.group);
    case StdinEnd => RunningHasNoExit(s, StdinClosed); RequestEndsFor(s, StdinClosed, at.group);
    case StdinError => RunningHasNoExit(s, StdinClosed); RequestEndsFor(s, StdinClosed, at.group);
  }

  lemma WatchdogStops(s: Supervisor, at: Stimulus)
    requires Good(s) && s.RunningPayload() && at.event.WatchdogFires?
    ensures StopsFor(OnWatchdogFires(s, at.now, at.group), StopReason(s, at))
  {
    if StopReason(s, at).Some? {
      RunningHasNoExit(s, WatchdogExpired);
      RequestEndsFor(s, WatchdogExpired, at.group);
    }
  }

  lemma TimeoutStops(s: Supervisor, group: GroupState)
    requires Good(s) && s.RunningPayload()
    ensures StopsFor(OnTimeoutFires(s, group), if s.timers.timeout.Some? then Some(TimedOut) else None)
  {
    RunningHasNoExit(s, TimedOut);
    RequestEndsFor(s.(timers := s.timers.(timeout := None)), TimedOut, group);
  }

  /** The pipes have been idle, and the payload gone, for the grace the options gave (250 to 2000 ms). */
  predicate IdleForGrace(s: Supervisor, now: nat) {
    var grace := if s.confirmMs < 250 then 250 else if s.confirmMs < 2000 then s.confirmMs else 2000;
    s.exitObservedAt + grace <= now && s.lastOutputAt + grace <= now
  }

  lemma IdleIsGrace(s: Supervisor, now: nat)
    ensures now - Max(s.exitObservedAt, s.lastOutputAt) >= GraceMs(s) <==> IdleForGrace(s, now)
  {
  }

  lemma CheckedStops(s: Supervisor, seen: Supervisor, now: nat, group: GroupState, t: Supervisor)
    requires Good(s) && s.RunningPayload() && seen.RunningPayload() && seen.log == s.log
    requires t == if IdleForGrace(seen, now) then RequestTermination(seen, DescendantAfterExit, group) else ScheduleExitCloseCheck(seen, now)
    ensures StopsFor(t, if IdleForGrace(seen, now) then Some(DescendantAfterExit) else None)
  {
    RunningHasNoExit(s, DescendantAfterExit);
    if IdleForGrace(seen, now) { RequestEndsFor(seen, DescendantAfterExit, group); }
  }

  lemma CheckIs(s: Supervisor, backpressured: bool, now: nat, group: GroupState, seen: Supervisor)
    requires !Ended(s) && !s.directChildClosed && s.timers.exitClose.Some?
    requires seen == if backpressured then Fired(s).(lastOutputAt := now) else Fired(s)
    ensures OnExitCloseFires(s, backpressured, now, group) ==
              if IdleForGrace(seen, now) then RequestTermination(seen, DescendantAfterExit, group) else ScheduleExitCloseCheck(seen, now)
  {
    IdleIsGrace(seen, now);
  }

  lemma CheckReason(s: Supervisor, at: Stimulus, seen: Supervisor)
    requires at.event.ExitCloseFires? && s.timers.exitClose.Some?
    requires seen == if at.event.backpressured then Fired(s).(lastOutputAt := at.now) else Fired(s)
    ensures StopReason(s, at) == if IdleForGrace(seen, at.now) then Some(DescendantAfterExit) else None
  {
  }

  lemma CheckStops(s: Supervisor, at: Stimulus)
    requires Good(s) && Armed(s) && s.RunningPayload() && at.event.ExitCloseFires?
    ensures StopsFor(OnExitCloseFires(s, at.event.backpressured, at.now, at.group), StopReason(s, at))
  {
    if s.timers.exitClose.Some? {
      var seen := if at.event.backpressured then Fired(s).(lastOutputAt := at.now) else Fired(s);
      CheckReason(s, at, seen);
      CheckIs(s, at.event.backpressured, at.now, at.group, seen);
      CheckedStops(s, seen, at.now, at.group, OnExitCloseFires(s, at.event.backpressured, at.now, at.group));
    }
  }

  lemma TimerStops(s: Supervisor, at: Stimulus)
    requires Good(s) && Armed(s) && s.RunningPayload() && TimerEvent(at.event)
    ensures StopsFor(OnTimer(s, at), StopReason(s, at))
  {
    match at.event
    case TimeoutFires => TimeoutStops(s, at.group);
    case WatchdogFires => WatchdogStops(s, at);
    case ExitCloseFires(backpressured) => CheckStops(s, at);
  }

  lemma CloseStops(s: Supervisor, code: Option<int>, now: nat, group: GroupState)
    requires Good(s) && s.RunningPayload()
    ensures StopsFor(OnPayloadClose(s, code, now, group), if !s.windows && group != GroupAbsent then Some(DescendantAfterExit) else None)
  {
    var closed := ClearTimers(RecordExit(s.(directChildClosed := true), code, now));
    RunningHasNoExit(s, DescendantAfterExit);
    if !s.windows && group != GroupAbsent {
      RequestEndsFor(closed, DescendantAfterExit, group);
    }
    assert OnPayloadClose(s, code, now, group) == Closed(closed, group);
  }

  lemma PayloadStops(s: Supervisor, at: Stimulus)
    requires Good(s) && s.RunningPayload() && PayloadEvent(at.event)
    ensures StopsFor(OnPayload(s, at), StopReason(s, at))
  {
    match at.event
    case PayloadClose(code) => CloseStops(s, code, at.now, at.group);
    case PayloadExit(code) =>
    case PayloadOutput =>
    case PayloadError =>
  }

  lemma OutsideStops(s: Supervisor, at: Stimulus)
    requires Good(s) && s.RunningPayload()
    requires at.event.ChannelClosed? || at.event.ControlLost? || at.event.Signal?
    ensures StopsFor(OnOutside(s, at), StopReason(s, at))
  {
    match at.event
    case ChannelClosed(why) => RunningHasNoExit(s, why); RequestEndsFor(s, why, at.group);
    case ControlLost =>
    case Signal => RunningHasNoExit(s, SupervisorSignal); RequestEndsFor(s, SupervisorSignal, at.group);
  }

  /** Exactly these events end a running payload, each for its own reason. */
  lemma StopsIff(s: Supervisor, at: Stimulus)
    requires Good(s) && Armed(s) && s.RunningPayload()
    ensures StopsFor(Step(s, at), StopReason(s, at))
  {
    if Continuation(at.event) { ResumeEnds(s, at); }
    else if Input(at.event) { MessageStops(s, at); }
    else if TimerEvent(at.event) { TimerStops(s, at); }
    else if PayloadEvent(at.event) { PayloadStops(s, at); }
    else { OutsideStops(s, at); }
  }

  // Once a payload is being ended for one reason, no other reason is ever reported.

  lemma MoveEndsFor(s: Supervisor, move: Move, why: Reason)
    requires EndsFor(s, why) && Ends(move)
    ensures EndsFor(Apply(s, move), why)
  {
    ApplyEnds(s, move);
    ApplyKeepsTarget(s, move);
    ApplyOnlyFor(s, move);
  }

  lemma ResumeEndsFor(s: Supervisor, at: Stimulus, why: Reason)
    requires EndsFor(s, why) && Continuation(at.event)
    ensures EndsFor(Resume(s, at), why)
  {
    var seen := if PollsGroup(s, at) then Observe(s, at.group) else s;
    assert EndsFor(seen, why);
    MovesEnd(s, at.group, at);
    if NextMove(s, at).Stay? {} else { MoveEndsFor(seen, NextMove(s, at), why); }
  }

  lemma EndingFailure(s: Supervisor, code: Fault, group: GroupState, why: Reason)
    requires EndsFor(s, why)
    ensures EndsFor(ProtocolFailure(s, code, group), why)
  {
    EmitOnlyFor(s, ProtocolError(code), why);
    assert Emit(s, ProtocolError(code)).Terminating();
  }

  lemma EndingInput(s: Supervisor, at: Stimulus, why: Reason)
    requires Good(s) && EndsFor(s, why) && Input(at.event)
    ensures EndsFor(OnInput(s, at), why)
  {
    match at.event
    case LaunchMessage(_, _, _) => EndingFailure(s, DuplicateLaunch, at.group, why);
    case OtherMessage(parses) =>
      EndingFailure(s, UnknownMessageType, at.group, why);
      EndingFailure(s, InvalidMessage, at.group, why);
    case LineTooLarge => EndingFailure(s, ControlLineTooLarge, at.group, why);
    case HeartbeatMessage(_) =>
    case TerminateMessage(_) =>
    case StdinEnd =>
    case StdinError =>
  }

  function StoryOf(s: Supervisor): (Phase, nat, Reason, seq<Control>) { (s.phase, s.payloadPid, s.terminationReason, s.log) }

  lemma RecordKeepsStory(s: Supervisor, code: Option<int>, now: nat)
    ensures StoryOf(RecordExit(s, code, now)) == StoryOf(s)
  {
  }

  lemma CloseKeepsStory(s: Supervisor, code: Option<int>, now: nat, group: GroupState)
    requires s.Terminating()
    ensures StoryOf(OnPayloadClose(s, code, now, group)) == StoryOf(s)
  {
    RecordKeepsStory(s.(directChildClosed := true), code, now);
    assert RecordExit(s.(directChildClosed := true), code, now).Terminating();
    assert OnPayloadClose(s, code, now, group) == RecordExit(s.(directChildClosed := true), code, now);
  }

  lemma ExitKeepsStory(s: Supervisor, code: Option<int>, now: nat)
    ensures StoryOf(ScheduleExitCloseCheck(RecordExit(s, code, now), now)) == StoryOf(s)
  {
    RecordKeepsStory(s, code, now);
  }

  lemma EndingPayload(s: Supervisor, at: Stimulus)
    requires s.Terminating() && s.payloadPid > 0 && PayloadEvent(at.event)
    ensures StoryOf(OnPayload(s, at)) == StoryOf(s)
  {
    match at.event
    case PayloadClose(code) => CloseKeepsStory(s, code, at.now, at.group);
    case PayloadExit(code) => ExitKeepsStory(s, code, at.now);
    case PayloadOutput =>
    case PayloadError =>
  }

  lemma StepEndsFor(s: Supervisor, at: Stimulus, why: Reason)
    requires Good(s) && EndsFor(s, why)
    ensures EndsFor(Step(s, at), why)
  {
    if Continuation(at.event) { ResumeEndsFor(s, at, why); }
    else if Input(at.event) { EndingInput(s, at, why); }
    else if TimerEvent(at.event) { assert OnTimer(s, at) == s; }
    else if PayloadEvent(at.event) { EndingPayload(s, at); }
    else if at.event.ControlLost? { assert EndsFor(s.(controlAvailable := false), why); }
    else { assert OnOutside(s, at) == s; }
  }

  lemma {:induction false} GoesOnEndingFor(start: Supervisor, events: seq<Stimulus>, n: nat, m: nat, why: Reason)
    requires Good(start) && Armed(start) && n <= m <= |events| && EndsFor(After(start, events, n), why)
    ensures EndsFor(After(start, events, m), why)
    decreases m
  {
    if n < m {
      GoesOnEndingFor(start, events, n, m - 1, why);
      AfterStep(start, events, m - 1);
      RunExtends(start, events, m - 1);
      StepEndsFor(After(start, events, m - 1), events[m - 1], why);
    }
  }

  /**
   The event that first ends a running payload decides for good: in every run, at every later moment, each exit
   event written is a requested one with the reason of that event.
   */
  lemma FirstStopDecides(start: Supervisor, events: seq<Stimulus>, n: nat, m: nat, why: Reason)
    requires Good(start) && Armed(start) && n < m <= |events|
    requires After(start, events, n).RunningPayload() && StopReason(After(start, events, n), events[n]) == Some(why)
    ensures EndsFor(After(start, events, m), why)
  {
    AfterStep(start, events, n);
    RunExtends(start, events, n);
    StopsIff(After(start, events, n), events[n]);
    GoesOnEndingFor(start, events, n + 1, m, why);
  }

  /** So a payload whose timeout fired exits with 124 if it was contained, and with 70 if that could not be confirmed. */
  lemma TimedOutExitsWith124(start: Supervisor, events: seq<Stimulus>, n: nat, m: nat, i: nat)
    requires Good(start) && Armed(start) && n < m <= |events|
    requires After(start, events, n).RunningPayload() && After(start, events, n).timers.timeout.Some? && events[n].event.TimeoutFires?
    requires i < |After(start, events, m).log| && After(start, events, m).log[i].Exit?
    ensures var e := After(start, events, m).log[i];
            e.reason == TimedOut && SupervisorExitCode(e) == if e.confirmed || e.bestEffort then 124 else 70
  {
    FirstStopDecides(start, events, n, m, TimedOut);
  }

  /** The status of every requested end: by its reason, and by whether the process tree was contained. */
  lemma RequestedStatus(e: Control)
    requires e.Exit? && e.requested
    ensures var contained := e.confirmed || e.bestEffort;
            SupervisorExitCode(e) ==
              match e.reason
              case SpawnFailed => 127
              case ProtocolBroken => 64
              case TimedOut => if contained then 124 else 70
              case WatchdogExpired | DescendantAfterExit => 70
              case _ => if contained then 130 else 70
  {
  }

  /** A payload that closes by itself: the exit event carries the first exit code seen, and the status is that code if it is one. */
  lemma NaturalEnd(s: Supervisor, code: Option<int>, at: Stimulus)
    requires Good(s) && s.RunningPayload() && !s.directChildClosed && at.event == PayloadClose(code) && (s.windows || at.group == GroupAbsent)
    ensures var seen := if s.payloadExited then s.payloadExitCode else code;
            var e := Exit(if s.spawnFailed then SpawnFailed else PayloadClosed, false, !s.windows, false, seen, s.payloadPid, true, true);
            && Step(s, at).completed && Step(s, at).log == (if s.controlAvailable then s.log + [e] else s.log)
            && SupervisorExitCode(e) ==
                 if s.spawnFailed then 127 else match seen case Some(c) => (if 0 <= c <= 255 then c else 1) case None => 1
  {
    var closed := ClearTimers(RecordExit(s.(directChildClosed := true), code, at.now));
    assert Step(s, at) == Closed(closed, at.group);
  }

  /** The first exit seen is the one that counts. */
  lemma FirstExitCounts(s: Supervisor, code: Option<int>, at: Stimulus)
    requires Good(s) && s.RunningPayload() && at.event == PayloadExit(code)
    ensures var t := Step(s, at);
            && t.payloadExited
            && t.payloadExitCode == (if s.payloadExited then s.payloadExitCode else code)
            && t.exitObservedAt == (if s.payloadExited then s.exitObservedAt else at.now)
  {
  }

  /** While an exited payload's pipes are open they are looked at every 100 ms. */
  lemma PipesAreChecked(s: Supervisor, at: Stimulus)
    requires Good(s) && Armed(s) && s.RunningPayload() && (at.event.PayloadExit? || (at.event.ExitCloseFires? && s.timers.exitClose.Some?))
    ensures Step(s, at).RunningPayload() ==> Step(s, at).timers.exitClose == Some(at.now + 100)
  {
    match at.event
    case PayloadExit(code) => ExitIsChecked(s, code, at.now);
    case ExitCloseFires(backpressured) => CheckGoesOn(s, backpressured, at.now, at.group);
  }

  lemma ExitIsChecked(s: Supervisor, code: Option<int>, now: nat)
    requires !Ended(s) && !s.directChildClosed
    ensures ScheduleExitCloseCheck(RecordExit(s, code, now), now).timers.exitClose == Some(now + 100)
  {
    assert RecordExit(s, code, now).phase == s.phase;
  }

  lemma CheckGoesOn(s: Supervisor, backpressured: bool, now: nat, group: GroupState)
    requires !Ended(s) && !s.directChildClosed && s.timers.exitClose.Some?
    ensures Ended(OnExitCloseFires(s, backpressured, now, group)) || OnExitCloseFires(s, backpressured, now, group).timers.exitClose == Some(now + 100)
  {
    var seen := if backpressured then Fired(s).(lastOutputAt := now) else Fired(s);
    RequestEnds(seen, DescendantAfterExit, group);
    var next := OnExitCloseFires(s, backpressured, now, group);
    assert next == RequestTermination(seen, DescendantAfterExit, group) || next == ScheduleExitCloseCheck(seen, now);
  }

  predicate KilledOrGone(kill: Taskkill) { kill.started && (kill.exitCode == Some(0) || kill.exitCode == Some(128)) }

  /** When a resumed termination ends confirmed: with the process group seen gone and the pipes closed. */
  lemma ConfirmsIff(s: Supervisor, at: Stimulus)
    requires Continuation(at.event)
    ensures NextMove(s, at) == Confirm <==>
              && s.directChildClosed
              && (|| (at.event.GroupPollEnds? && (s.phase == PosixTermWait || s.phase == PosixKillWait) && at.group == GroupAbsent && !s.windows && s.payloadPid > 0)
                  || (at.event.CloseWaitEnds? && s.phase == PosixCloseWait))
  {
  }

  /** When it ends in best effort: pipes closed, and either a taskkill that succeeded or a payload that had exited, with its descendants killed if it left any. */
  lemma BestEffortIff(s: Supervisor, at: Stimulus)
    requires Continuation(at.event)
    ensures NextMove(s, at) == BestEffort <==>
              && s.directChildClosed
              && (|| (at.event.CloseWaitEnds? && s.phase.WinCloseWait? && KilledOrGone(s.phase.kill))
                  || (at.event.ExitPollEnds? && (s.phase.WinFirstPoll? || s.phase.WinRetryPoll?) && s.payloadExited && KilledOrGone(s.phase.kill))
                  || (at.event.CloseWaitEnds? && (s.phase == WinExitClose || s.phase == WinExitFinalClose(true, true)))
                  || (at.event == VerifiedKillEnds(true) && s.phase == WinVerifiedKill))
  {
  }

  /** Which taskkill is judged: the first, unless the retry ended with 0. */
  lemma JudgedKill(s: Supervisor, kill: Taskkill, at: Stimulus)
    requires at.event == TaskkillEnds(kill)
    ensures s.phase == WinFirstKill ==> NextMove(s, at) == Wait(WinFirstPoll(kill))
    ensures s.phase.WinRetryKill? ==> NextMove(s, at) == Wait(WinRetryPoll(if kill.started && kill.exitCode == Some(0) then kill else s.phase.kill))
  {
  }
}
