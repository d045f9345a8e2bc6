/**
 What every event order keeps: one payload, one exit event with a sound verdict, no taskkill for a
 payload that has exited, and exactly which events can still write to the control channel after the
 exit event.
 */
module SupervisorVerdict {
  import opened Options
  import opened SupervisorModel

  predicate Waiting(s: Supervisor) { s.Terminating() && !s.phase.Settled? }

  predicate PosixPhase(p: Phase) { p.PosixTermWait? || p.PosixKillWait? || p.PosixCloseWait? }

  /** What an exit event may claim. */
  predicate SoundExit(s: Supervisor, e: Control)
    requires e.Exit?
  {
    && e.payloadPid == s.payloadPid
    && (e.payloadExited ==> s.payloadExited)
    && (e.confirmed ==> e.payloadPid == 0 || (!s.windows && s.groupSeenAbsent && e.directChildClosed))
    && (e.bestEffort ==> s.windows && e.requested && e.payloadExited && e.directChildClosed)
    && (e.payloadExited ==> e.payloadExitCode == s.payloadExitCode)
    && (!e.requested && e.payloadPid > 0 ==> e.payloadExited && e.directChildClosed && (e.reason == PayloadClosed || e.reason == SpawnFailed))
  }

  predicate SoundLog(s: Supervisor) {
    forall i :: 0 <= i < |s.log| && s.log[i].Exit? ==> SoundEntry(s, i)
  }

  predicate SoundEntry(s: Supervisor, i: nat)
    requires i < |s.log| && s.log[i].Exit?
  {
    && s.completed
    && SoundExit(s, s.log[i])
    && (s.log[i].requested ==> s.phase.Settled?)
    && (i == |s.log| - 1 || LateAfter(s, i))
  }

  predicate LateAfter(s: Supervisor, i: nat)
    requires i < |s.log| && s.log[i].Exit?
  {
    i == |s.log| - 2 && s.log[i + 1].TerminationUnconfirmed? && s.phase.Settled? && !s.windows && !s.log[i].requested
  }

  /** A terminating or finished supervisor has no armed timer, so no timer event reaches it. */
  predicate Quiet(s: Supervisor) { s.completed || s.Terminating() ==> s.timers == NoTimers() }

  predicate Consistent(s: Supervisor) {
    && s.spawns <= 1
    && !s.spawnAfterDeadline
    && !s.taskkillAfterExit
    && (!s.firstMessageSeen ==> s.spawns == 0 && !s.hasPayload)
    && (s.payloadPid > 0 ==> s.hasPayload)
    && 1 <= s.confirmMs
    && Quiet(s)
    && (s.phase.Settled? ==> s.completed)
    && (s.Terminating() && s.payloadPid == 0 ==> s.phase.Settled?)
    && (Waiting(s) ==> s.windows == !PosixPhase(s.phase))
    // A phase reached only with the group observed absent, or only after the payload's exit.
    && (s.phase.PosixCloseWait? ==> s.groupSeenAbsent && !s.completed)
    && (Waiting(s) && s.windows && !BeforeExit(s.phase) ==> s.payloadExited)
    // The payload closed by itself.
    && (s.directChildClosed ==> s.payloadExited)
    && (s.payloadExited ==> s.hasPayload)
    && (s.completed && !s.phase.Settled? && s.payloadPid > 0 ==>
          s.directChildClosed && s.payloadExited && (!s.windows ==> s.groupSeenAbsent))
    && (s.completed && Waiting(s) ==> !s.windows)
  }

  predicate BeforeExit(p: Phase) {
    p.WinFirstKill? || p.WinFirstPoll? || p.WinPause? || p.WinRetryKill? || p.WinRetryPoll?
  }

  predicate Good(s: Supervisor) {
    Consistent(s) && SoundLog(s)
  }

  // ---------------------------------------------------------------- the building blocks

  lemma InitialGood(windows: bool, identityValid: bool)
    ensures Good(Initial(windows, identityValid))
  {
  }

  /** Before completion anything but an exit event may be emitted. */
  lemma EmitGood(s: Supervisor, c: Control)
    requires Good(s) && !s.completed && !c.Exit?
    ensures Good(Emit(s, c)) && !Emit(s, c).completed
  {
  }

  predicate MayExit(s: Supervisor, reason: Reason, requested: bool, confirmed: bool, bestEffort: bool) {
    && (confirmed ==> s.payloadPid == 0 || (!s.windows && s.groupSeenAbsent && s.directChildClosed))
    && (bestEffort ==> s.windows && requested && s.payloadExited && s.directChildClosed)
    && (!requested && s.payloadPid > 0 ==>
          s.directChildClosed && s.payloadExited && (!s.windows ==> s.groupSeenAbsent) && (reason == PayloadClosed || reason == SpawnFailed))
  }

  lemma SoundExitFrame(s: Supervisor, t: Supervisor, e: Control)
    requires e.Exit? && SoundExit(s, e)
    requires t.payloadPid == s.payloadPid && t.windows == s.windows && (s.groupSeenAbsent ==> t.groupSeenAbsent)
    requires s.payloadExited ==> t.payloadExited && t.payloadExitCode == s.payloadExitCode
    ensures SoundExit(t, e)
  {
  }

  lemma CompleteLog(s: Supervisor, reason: Reason, requested: bool, confirmed: bool, bestEffort: bool, t: Supervisor)
    requires Good(s) && !s.completed
    requires MayExit(s, reason, requested, confirmed, bestEffort)
    requires t == Complete(s, reason, requested, confirmed, bestEffort) || t == Complete(s, reason, requested, confirmed, bestEffort).(phase := Settled)
    requires requested ==> t.phase.Settled?
    ensures SoundLog(t)
  {
    var e := ExitEvent(s, reason, requested, confirmed, bestEffort);
    SoundExitFrame(s, t, e);
    assert t.log == s.log || t.log == s.log + [e];
    forall i | 0 <= i < |t.log| && t.log[i].Exit?
      ensures t.completed && SoundExit(t, t.log[i]) && i == |t.log| - 1 && (t.log[i].requested ==> t.phase.Settled?)
    {
      assert t.log[..|s.log|] == s.log;
    }
  }

  /** A step that writes nothing keeps what was written sound. */
  lemma QuietLog(s: Supervisor, t: Supervisor)
    requires SoundLog(s) && t.log == s.log
    requires s.completed ==> t.completed && t.payloadPid == s.payloadPid && t.windows == s.windows
    requires s.groupSeenAbsent ==> t.groupSeenAbsent
    requires s.phase.Settled? ==> t.phase.Settled?
    requires s.payloadExited ==> t.payloadExited && t.payloadExitCode == s.payloadExitCode
    ensures SoundLog(t)
  {
    forall i | 0 <= i < |t.log| && t.log[i].Exit?
      ensures SoundExit(t, t.log[i])
    {
      SoundExitFrame(s, t, s.log[i]);
    }
  }

  lemma LateNotice(s: Supervisor, t: Supervisor)
    requires Good(s) && !s.phase.Settled? && s.completed && !s.windows
    requires t == Emit(s, TerminationUnconfirmed(s.terminationReason)).(phase := Settled)
    ensures SoundLog(t)
  {
    forall i | 0 <= i < |t.log| && t.log[i].Exit?
      ensures SoundExit(t, t.log[i]) && !t.log[i].requested && i == |s.log| - 1
    {
      assert s.log[i] == t.log[i];
      assert SoundEntry(s, i);
      SoundExitFrame(s, t, s.log[i]);
    }
  }

  // ---------------------------------------------------------------- termination

  lemma UnconfirmedGood(s: Supervisor)
    requires Good(s) && !s.phase.Settled? && s.payloadPid > 0 && (s.completed ==> !s.windows)
    ensures Good(Unconfirmed(s))
  {
    if s.completed {
      LateNotice(s, Unconfirmed(s));
    } else {
      var told := Emit(s, TerminationUnconfirmed(s.terminationReason));
      EmitGood(s, TerminationUnconfirmed(s.terminationReason));
      CompleteLog(told, s.terminationReason, true, false, false, Unconfirmed(s));
    }
  }

  lemma ContainedGood(s: Supervisor, confirmed: bool, bestEffort: bool)
    requires Good(s) && !s.phase.Settled?
    requires MayExit(s, s.terminationReason, true, confirmed, bestEffort)
    ensures Good(Contained(s, confirmed, bestEffort))
  {
    var t := Contained(s, confirmed, bestEffort);
    if s.completed { QuietLog(s, t); } else { CompleteLog(s, s.terminationReason, true, confirmed, bestEffort, t); }
  }

  /** When a move is justified. */
  predicate SoundMove(s: Supervisor, move: Move) {
    match move
    case Stay => true
    case Wait(next) =>
      && s.payloadPid > 0 && !next.NotRequested? && !next.Settled? && s.windows == !PosixPhase(next)
      && (s.completed ==> !s.windows)
      && (next.PosixCloseWait? ==> s.groupSeenAbsent && !s.completed)
      && (s.windows && !BeforeExit(next) ==> s.payloadExited)
      && (StartsTaskkill(next) ==> !s.payloadExited)
    case Confirm => s.payloadPid == 0 || (!s.windows && s.groupSeenAbsent && s.directChildClosed)
    case BestEffort => s.windows && s.payloadExited && s.directChildClosed
    case GiveUp => s.payloadPid > 0 && (s.completed ==> !s.windows)
  }

  lemma WaitGood(s: Supervisor, next: Phase)
    requires Good(s) && !s.phase.Settled? && s.timers == NoTimers() && SoundMove(s, Wait(next))
    ensures Good(Apply(s, Wait(next)))
  {
    QuietLog(s, Apply(s, Wait(next)));
  }

  lemma ApplyGood(s: Supervisor, move: Move)
    requires Good(s) && !s.phase.Settled? && s.timers == NoTimers() && SoundMove(s, move)
    ensures Good(Apply(s, move))
  {
    match move
    case Stay =>
    case Wait(next) => WaitGood(s, next);
    case Confirm => ContainedGood(s, true, false);
    case BestEffort => ContainedGood(s, false, true);
    case GiveUp => UnconfirmedGood(s);
  }

  lemma ObserveGood(s: Supervisor, group: GroupState)
    requires Good(s)
    ensures Good(Observe(s, group))
  {
    QuietLog(s, Observe(s, group));
  }

  lemma FirstMoveSound(s: Supervisor, reason: Reason, group: GroupState)
    requires Good(s) && !s.Terminating()
    ensures SoundMove(Observe(Asked(s, reason), group), FirstMove(s, group))
  {
  }

  lemma NextMoveSound(s: Supervisor, at: Stimulus)
    requires Good(s) && Continuation(at.event)
    ensures SoundMove(if PollsGroup(s, at) then Observe(s, at.group) else s, NextMove(s, at))
  {
  }

  lemma NoMoveUnlessWaiting(s: Supervisor, at: Stimulus)
    requires Continuation(at.event)
    ensures !Waiting(s) ==> NextMove(s, at) == Stay
  {
  }

  lemma ResumeGood(s: Supervisor, at: Stimulus)
    requires Good(s) && Continuation(at.event)
    ensures Good(Resume(s, at))
  {
    NoMoveUnlessWaiting(s, at);
    if Waiting(s) {
      NextMoveSound(s, at);
      ObserveGood(s, at.group);
      ApplyGood(if PollsGroup(s, at) then Observe(s, at.group) else s, NextMove(s, at));
    }
  }

  lemma RequestGood(s: Supervisor, reason: Reason, group: GroupState)
    requires Good(s)
    ensures Good(RequestTermination(s, reason, group))
  {
    if !s.Terminating() {
      FirstMoveSound(s, reason, group);
      QuietLog(s, Asked(s, reason));
      ObserveGood(Asked(s, reason), group);
      ApplyGood(Observe(Asked(s, reason), group), FirstMove(s, group));
    }
  }

  lemma ProtocolFailureGood(s: Supervisor, code: Fault, group: GroupState)
    requires Good(s)
    ensures Good(ProtocolFailure(s, code, group))
  {
    if !s.completed {
      var told := Emit(s, ProtocolError(code));
      EmitGood(s, ProtocolError(code));
      if s.payloadPid > 0 { RequestGood(told, ProtocolBroken, group); }
      else { CompleteLog(told, ProtocolBroken, false, true, false, ProtocolFailure(s, code, group)); }
    }
  }

  // ---------------------------------------------------------------- timers, messages and payload events

  /** Everything but timers, clocks, configuration and reasons. */
  predicate SameCore(s: Supervisor, t: Supervisor) {
    && t.windows == s.windows && t.phase == s.phase && t.completed == s.completed && t.log == s.log
    && t.firstMessageSeen == s.firstMessageSeen && t.spawns == s.spawns && t.spawnAfterDeadline == s.spawnAfterDeadline && t.taskkillAfterExit == s.taskkillAfterExit
    && t.hasPayload == s.hasPayload && t.payloadPid == s.payloadPid && t.payloadExited == s.payloadExited
    && t.payloadExitCode == s.payloadExitCode && t.directChildClosed == s.directChildClosed && t.groupSeenAbsent == s.groupSeenAbsent
    && 1 <= t.confirmMs && Quiet(t)
  }

  lemma SameCoreGood(s: Supervisor, t: Supervisor)
    requires Good(s) && SameCore(s, t)
    ensures Good(t)
  {
    QuietLog(s, t);
  }

  lemma WatchdogCore(s: Supervisor, now: nat)
    requires 1 <= s.confirmMs && Quiet(s)
    ensures SameCore(s, ScheduleWatchdog(s, now))
  {
  }

  lemma ExitCloseCore(s: Supervisor, now: nat)
    requires 1 <= s.confirmMs && Quiet(s)
    ensures SameCore(s, ScheduleExitCloseCheck(s, now))
  {
  }

  lemma WatchdogFiresGood(s: Supervisor, now: nat, group: GroupState)
    requires Good(s)
    ensures Good(OnWatchdogFires(s, now, group))
  {
    if s.timers.watchdog != None {
      RequestGood(s, WatchdogExpired, group);
      WatchdogCore(s, now);
      SameCoreGood(s, ScheduleWatchdog(s, now));
    }
  }

  lemma ExitCloseFiresGood(s: Supervisor, backpressured: bool, now: nat, group: GroupState)
    requires Good(s)
    ensures Good(OnExitCloseFires(s, backpressured, now, group))
  {
    if s.timers.exitClose != None {
      SameCoreGood(s, Fired(s));
      if !(s.completed || s.Terminating() || s.directChildClosed) {
        CheckedGood(Fired(s), backpressured, now, group);
      }
    }
  }

  lemma CheckedGood(s: Supervisor, backpressured: bool, now: nat, group: GroupState)
    requires Good(s) && !s.completed
    ensures Good(CheckExitClose(s, backpressured, now, group))
  {
    var seen := if backpressured then s.(lastOutputAt := now) else s;
    SameCoreGood(s, seen);
    if now - Max(seen.exitObservedAt, seen.lastOutputAt) >= GraceMs(seen) {
      RequestGood(seen, DescendantAfterExit, group);
    } else {
      ExitCloseCore(seen, now);
      SameCoreGood(seen, ScheduleExitCloseCheck(seen, now));
    }
  }

  lemma LaunchGood(s: Supervisor, options: LaunchOptions, spawned: SpawnResult, now: nat)
    requires Good(s) && !s.completed && !s.Terminating() && s.firstMessageSeen && s.spawns == 0 && !s.hasPayload
    ensures Good(LaunchPayload(s, options, spawned, now))
  {
    var configured := Configured(s, options);
    SameCoreGood(s, configured);
    if LaunchAuthorityExpired(options.deadlineAt, now) {
      CompleteLog(configured, LaunchGateExpired, false, false, false, LaunchPayload(s, options, spawned, now));
    } else {
      SpawnGood(configured, options, spawned, now);
    }
  }

  lemma SpawnGood(s: Supervisor, options: LaunchOptions, spawned: SpawnResult, now: nat)
    requires Good(s) && !s.completed && !s.Terminating() && s.firstMessageSeen && s.spawns == 0 && !s.hasPayload
    requires s.watch.deadlineAt == 0 || now < s.watch.deadlineAt
    ensures Good(Spawn(s, options, spawned, now))
  {
    match spawned
    case SpawnThrows =>
      var failed := s.(spawns := 1, spawnFailed := true);
      QuietLog(s, failed);
      CompleteLog(failed, SpawnFailed, false, false, false, Spawn(s, options, spawned, now));
    case SpawnReturns(pid) =>
      var started := s.(spawns := 1, hasPayload := true, payloadPid := pid);
      QuietLog(s, started);
      StartedGood(started, options, now);
  }

  lemma StartedGood(s: Supervisor, options: LaunchOptions, now: nat)
    requires Good(s) && !s.completed && !s.Terminating() && s.hasPayload
    ensures Good(Started(s, options, now))
  {
    var told := if s.payloadPid > 0 then Emit(s, Launched(s.payloadPid)) else s;
    EmitGood(s, Launched(s.payloadPid));
    TimeoutGood(told, options.timeoutMs, now);
    StartWatchdogGood(StartTimeout(told, options.timeoutMs, now), now);
  }

  lemma TimeoutGood(s: Supervisor, timeoutMs: nat, now: nat)
    requires Good(s) && !s.completed && !s.Terminating()
    ensures Good(StartTimeout(s, timeoutMs, now))
  {
    if timeoutMs > 0 { SameCoreGood(s, s.(timers := s.timers.(timeout := Some(now + timeoutMs)))); }
  }

  lemma StartWatchdogGood(s: Supervisor, now: nat)
    requires Good(s)
    ensures Good(StartWatchdog(s, now))
  {
    BeatenGood(s, s.(watch := s.watch.(lastHeartbeatAt := now)), now);
  }

  lemma FirstSeenGood(s: Supervisor)
    requires Good(s)
    ensures Good(s.(firstMessageSeen := true))
  {
    QuietLog(s, s.(firstMessageSeen := true));
  }

  lemma LaunchMessageGood(s: Supervisor, valid: bool, options: LaunchOptions, spawned: SpawnResult, now: nat, group: GroupState)
    requires Good(s)
    ensures Good(OnLaunchMessage(s, valid, options, spawned, now, group))
  {
    FirstSeenGood(s);
    ProtocolFailureGood(s, DuplicateLaunch, group);
    ProtocolFailureGood(s.(firstMessageSeen := true), InvalidLaunch, group);
    if !s.completed && !s.firstMessageSeen { LaunchGood(s.(firstMessageSeen := true), options, spawned, now); }
  }

  lemma AfterFirstGood(s: Supervisor, next: Supervisor, group: GroupState)
    requires Good(s) && (!s.completed ==> Good(next))
    ensures Good(AfterFirst(s, next, group))
  {
    FirstSeenGood(s);
    ProtocolFailureGood(s.(firstMessageSeen := true), FirstMustBeLaunch, group);
  }

  lemma HeartbeatGood(s: Supervisor, deadlineAt: nat, now: nat, group: GroupState)
    requires Good(s) && !s.completed
    ensures Good(OnHeartbeat(s, deadlineAt, now, group))
  {
    if s.Terminating() {
    } else if s.payloadPid == 0 {
      ProtocolFailureGood(s, HeartbeatBeforePayload, group);
    } else if s.watch.ms == 0 {
    } else if deadlineAt == 0 || deadlineAt <= now {
      RequestGood(s, LeaseDeadlineInvalid, group);
    } else {
      BeatenGood(s, s.(watch := Watch(s.watch.ms, Min(now + s.watch.ms, deadlineAt), now)), now);
    }
  }

  lemma BeatenGood(s: Supervisor, beaten: Supervisor, now: nat)
    requires Good(s) && SameCore(s, beaten)
    ensures Good(ScheduleWatchdog(beaten, now))
  {
    WatchdogCore(beaten, now);
    SameCoreGood(s, ScheduleWatchdog(beaten, now));
  }

  lemma StdinEndGood(s: Supervisor, group: GroupState)
    requires Good(s)
    ensures Good(OnStdinEnd(s, group))
  {
    if !s.completed {
      if s.payloadPid == 0 { CompleteLog(s, StdinEndReason(s), false, true, false, OnStdinEnd(s, group)); }
      else { RequestGood(s, StdinClosed, group); }
    }
  }

  lemma ExitRecordedGood(s: Supervisor, code: Option<int>, now: nat)
    requires Good(s) && s.hasPayload
    ensures Good(RecordExit(s, code, now)) && Good(RecordExit(s.(directChildClosed := true), code, now))
  {
    QuietLog(s, RecordExit(s, code, now));
    QuietLog(s, RecordExit(s.(directChildClosed := true), code, now));
  }

  lemma PayloadCloseGood(s: Supervisor, code: Option<int>, now: nat, group: GroupState)
    requires Good(s) && s.hasPayload
    ensures Good(OnPayloadClose(s, code, now, group))
  {
    ExitRecordedGood(s, code, now);
    if !s.completed && !s.Terminating() {
      var cleared := ClearTimers(RecordExit(s.(directChildClosed := true), code, now));
      SameCoreGood(RecordExit(s.(directChildClosed := true), code, now), cleared);
      ClosedGood(cleared, group);
    }
  }

  lemma ClosedGood(s: Supervisor, group: GroupState)
    requires Good(s) && !s.completed && !s.Terminating() && s.directChildClosed
    ensures Good(Closed(s, group))
  {
    if s.windows {
      CompleteLog(s, CloseReason(s), false, false, false, Closed(s, group));
    } else if Probe(s, group).GroupAbsent? {
      QuietLog(s, Observe(s, group));
      CompleteLog(Observe(s, group), CloseReason(s), false, true, false, Closed(s, group));
    } else {
      RequestGood(s, DescendantAfterExit, group);
    }
  }

  lemma PayloadErrorGood(s: Supervisor)
    requires Good(s)
    ensures Good(OnPayloadError(s))
  {
    var failed := s.(spawnFailed := true);
    SameCoreGood(s, failed);
    if s.payloadPid == 0 {
      if !s.completed { CompleteLog(failed, SpawnFailed, false, false, false, OnPayloadError(s)); }
    }
  }

  // ---------------------------------------------------------------- every event, every run

  lemma InputGood(s: Supervisor, at: Stimulus)
    requires Good(s) && Input(at.event)
    ensures Good(OnInput(s, at))
  {
    match at.event
    case LaunchMessage(valid, options, spawned) => LaunchMessageGood(s, valid, options, spawned, at.now, at.group);
    case HeartbeatMessage(deadlineAt) =>
      if !s.completed { HeartbeatGood(s, deadlineAt, at.now, at.group); }
      AfterFirstGood(s, OnHeartbeat(s, deadlineAt, at.now, at.group), at.group);
    case TerminateMessage(reason) =>
      RequestGood(s, reason, at.group);
      AfterFirstGood(s, RequestTermination(s, reason, at.group), at.group);
    case OtherMessage(parses) =>
      ProtocolFailureGood(s, UnknownMessageType, at.group);
      ProtocolFailureGood(s, InvalidMessage, at.group);
      AfterFirstGood(s, ProtocolFailure(s, UnknownMessageType, at.group), at.group);
    case LineTooLarge => ProtocolFailureGood(s, ControlLineTooLarge, at.group);
    case StdinEnd => StdinEndGood(s, at.group);
    case StdinError => RequestGood(s, StdinClosed, at.group);
  }

  lemma TimeoutFiresGood(s: Supervisor, group: GroupState)
    requires Good(s)
    ensures Good(OnTimeoutFires(s, group))
  {
    if s.timers.timeout != None {
      var fired := s.(timers := s.timers.(timeout := None));
      SameCoreGood(s, fired);
      RequestGood(fired, TimedOut, group);
    }
  }

  lemma PayloadExitGood(s: Supervisor, code: Option<int>, now: nat)
    requires Good(s) && s.hasPayload
    ensures Good(ScheduleExitCloseCheck(RecordExit(s, code, now), now))
  {
    ExitRecordedGood(s, code, now);
    ExitCloseCore(RecordExit(s, code, now), now);
    SameCoreGood(RecordExit(s, code, now), ScheduleExitCloseCheck(RecordExit(s, code, now), now));
  }

  lemma PayloadGood(s: Supervisor, at: Stimulus)
    requires Good(s) && PayloadEvent(at.event)
    ensures Good(OnPayload(s, at))
  {
    if s.hasPayload {
      match at.event
      case PayloadOutput => SameCoreGood(s, s.(lastOutputAt := at.now));
      case PayloadError => PayloadErrorGood(s);
      case PayloadExit(code) => PayloadExitGood(s, code, at.now);
      case PayloadClose(code) => PayloadCloseGood(s, code, at.now, at.group);
    }
  }

  lemma TimerGood(s: Supervisor, at: Stimulus)
    requires Good(s) && TimerEvent(at.event)
    ensures Good(OnTimer(s, at))
  {
    match at.event
    case TimeoutFires => TimeoutFiresGood(s, at.group);
    case WatchdogFires => WatchdogFiresGood(s, at.now, at.group);
    case ExitCloseFires(backpressured) => ExitCloseFiresGood(s, backpressured, at.now, at.group);
  }

  lemma OutsideGood(s: Supervisor, at: Stimulus)
    requires Good(s)
    ensures Good(OnOutside(s, at))
  {
    match at.event
    case ChannelClosed(reason) => RequestGood(s, reason, at.group);
    case ControlLost => QuietLog(s, s.(controlAvailable := false));
    case _ => RequestGood(s, SupervisorSignal, at.group);
  }

  lemma StepGood(s: Supervisor, at: Stimulus)
    requires Good(s)
    ensures Good(Step(s, at))
  {
    if Continuation(at.event) { ResumeGood(s, at); }
    else if Input(at.event) { InputGood(s, at); }
    else if TimerEvent(at.event) { TimerGood(s, at); }
    else if PayloadEvent(at.event) { PayloadGood(s, at); }
    else { OutsideGood(s, at); }
  }
}
