/**
 The timers in every run: the watchdog of a running payload is armed for exactly the moment its
 bridge loses authority, whatever heartbeats arrive, and the exit-close check stays armed while an
 exited payload's pipes are open.
 */
module SupervisorTimers {
  import opened Options
  import opened SupervisorModel
  import opened SupervisorVerdict

  predicate Ended(s: Supervisor) { s.completed || s.Terminating() }

  predicate Armed(s: Supervisor) {
    s.payloadPid > 0 && !Ended(s) ==>
      && !s.directChildClosed
      && (s.watch.ms > 0 ==> s.timers.watchdog == Some(WatchdogBound(s.watch)))
      && (s.payloadExited ==> s.timers.exitClose.Some?)
  }

  predicate Ends(move: Move) { !move.Stay? && (move.Wait? ==> !move.next.NotRequested?) }

  lemma ApplyEnds(s: Supervisor, move: Move)
    requires Ends(move) || (s.Terminating() && move.Stay?)
    ensures Apply(s, move).Terminating()
  {
  }

  lemma MovesEnd(s: Supervisor, group: GroupState, at: Stimulus)
    ensures Ends(FirstMove(s, group))
    ensures Continuation(at.event) && !NextMove(s, at).Stay? ==> Ends(NextMove(s, at))
  {
  }

  lemma RequestEnds(s: Supervisor, reason: Reason, group: GroupState)
    ensures RequestTermination(s, reason, group).Terminating()
  {
    if !s.Terminating() {
      MovesEnd(s, group, Stimulus(0, group, Signal));
      ApplyEnds(Observe(Asked(s, reason), group), FirstMove(s, group));
    }
  }

  lemma ProtocolFailureEnds(s: Supervisor, code: Fault, group: GroupState)
    ensures Ended(ProtocolFailure(s, code, group))
  {
    RequestEnds(Emit(s, ProtocolError(code)), ProtocolBroken, group);
  }

  lemma ResumeEnds(s: Supervisor, at: Stimulus)
    requires Continuation(at.event)
    ensures if s.Terminating() then Resume(s, at).Terminating() else Resume(s, at) == s
  {
    NoMoveUnlessWaiting(s, at);
    if s.Terminating() {
      MovesEnd(s, at.group, at);
      ApplyEnds(if PollsGroup(s, at) then Observe(s, at.group) else s, NextMove(s, at));
    }
  }

  // ---------------------------------------------------------------- what keeps the timers armed

  lemma EndedArmed(s: Supervisor)
    requires Ended(s)
    ensures Armed(s)
  {
  }

  /** The watchdog is scheduled for the bound itself, provided the bound has not passed. */
  lemma ScheduledAtBound(s: Supervisor, now: nat)
    requires !Ended(s) && s.watch.ms > 0 && now <= WatchdogBound(s.watch)
    ensures ScheduleWatchdog(s, now).timers.watchdog == Some(WatchdogBound(s.watch))
  {
  }

  /** The watchdog's verdict: past the bound it terminates, before it is only armed again for the bound. */
  lemma WatchdogVerdict(s: Supervisor, now: nat, group: GroupState)
    requires s.timers.watchdog.Some?
    ensures if now >= WatchdogBound(s.watch) then OnWatchdogFires(s, now, group).Terminating()
            else OnWatchdogFires(s, now, group) == ScheduleWatchdog(s, now)
  {
    if now >= WatchdogBound(s.watch) { RequestEnds(s, WatchdogExpired, group); }
  }

  /** Re-arming the watchdog before its bound leaves everything else alone. */
  lemma RearmedArmed(s: Supervisor, t: Supervisor, now: nat)
    requires t.payloadPid > 0 && !Ended(t) ==> !t.directChildClosed && (t.payloadExited ==> t.timers.exitClose.Some?)
    requires t.watch.ms > 0 ==> now <= WatchdogBound(t.watch)
    requires s == ScheduleWatchdog(t, now)
    ensures Armed(s)
  {
    if !Ended(t) && t.watch.ms > 0 { ScheduledAtBound(t, now); }
  }

  lemma WatchdogArmed(s: Supervisor, now: nat, group: GroupState)
    requires Armed(s)
    ensures Armed(OnWatchdogFires(s, now, group))
  {
    if s.timers.watchdog.Some? {
      WatchdogVerdict(s, now, group);
      if now >= WatchdogBound(s.watch) { EndedArmed(OnWatchdogFires(s, now, group)); }
      else { RearmedArmed(ScheduleWatchdog(s, now), s, now); }
    }
  }

  lemma HeartbeatArmed(s: Supervisor, deadlineAt: nat, now: nat, group: GroupState)
    requires Armed(s)
    ensures Armed(OnHeartbeat(s, deadlineAt, now, group))
  {
    if s.Terminating() {
    } else if s.payloadPid == 0 {
      ProtocolFailureEnds(s, HeartbeatBeforePayload, group);
    } else if s.watch.ms == 0 {
    } else if deadlineAt == 0 || deadlineAt <= now {
      RequestEnds(s, LeaseDeadlineInvalid, group);
    } else {
      var beaten := s.(watch := Watch(s.watch.ms, Min(now + s.watch.ms, deadlineAt), now));
      RearmedArmed(ScheduleWatchdog(beaten, now), beaten, now);
    }
  }

  lemma StartedArmed(s: Supervisor, options: LaunchOptions, now: nat)
    requires !s.directChildClosed && !s.payloadExited && (s.watch.deadlineAt == 0 || now < s.watch.deadlineAt)
    ensures Armed(Started(s, options, now))
  {
    var told := if s.payloadPid > 0 then Emit(s, Launched(s.payloadPid)) else s;
    var timed := StartTimeout(told, options.timeoutMs, now);
    if timed.watch.ms > 0 {
      var beaten := timed.(watch := timed.watch.(lastHeartbeatAt := now));
      RearmedArmed(ScheduleWatchdog(beaten, now), beaten, now);
    }
  }

  lemma LaunchArmed(s: Supervisor, options: LaunchOptions, spawned: SpawnResult, now: nat)
    requires !s.directChildClosed && !s.payloadExited
    ensures Armed(LaunchPayload(s, options, spawned, now))
  {
    if !LaunchAuthorityExpired(options.deadlineAt, now) && spawned.SpawnReturns? {
      var c := Configured(s, options);
      StartedArmed(c.(spawns := c.spawns + 1, spawnAfterDeadline := c.spawnAfterDeadline, hasPayload := true, payloadPid := spawned.pid), options, now);
    }
  }

  lemma LaunchMessageArmed(s: Supervisor, valid: bool, options: LaunchOptions, spawned: SpawnResult, now: nat, group: GroupState)
    requires Good(s) && Armed(s)
    ensures Armed(OnLaunchMessage(s, valid, options, spawned, now, group))
  {
    ProtocolFailureEnds(s, DuplicateLaunch, group);
    ProtocolFailureEnds(s.(firstMessageSeen := true), InvalidLaunch, group);
    if !s.firstMessageSeen { LaunchArmed(s.(firstMessageSeen := true), options, spawned, now); }
  }

  lemma AfterFirstArmed(s: Supervisor, next: Supervisor, group: GroupState)
    requires Armed(s) && Armed(next)
    ensures Armed(AfterFirst(s, next, group))
  {
    ProtocolFailureEnds(s.(firstMessageSeen := true), FirstMustBeLaunch, group);
  }

  lemma InputArmed(s: Supervisor, at: Stimulus)
    requires Good(s) && Armed(s) && Input(at.event)
    ensures Armed(OnInput(s, at))
  {
    match at.event
    case LaunchMessage(valid, options, spawned) => LaunchMessageArmed(s, valid, options, spawned, at.now, at.group);
    case HeartbeatMessage(deadlineAt) =>
      HeartbeatArmed(s, deadlineAt, at.now, at.group);
      AfterFirstArmed(s, OnHeartbeat(s, deadlineAt, at.now, at.group), at.group);
    case TerminateMessage(reason) =>
      RequestEnds(s, reason, at.group);
      AfterFirstArmed(s, RequestTermination(s, reason, at.group), at.group);
    case OtherMessage(parses) =>
      ProtocolFailureEnds(s, UnknownMessageType, at.group);
      ProtocolFailureEnds(s, InvalidMessage, at.group);
      AfterFirstArmed(s, ProtocolFailure(s, UnknownMessageType, at.group), at.group);
    case LineTooLarge => ProtocolFailureEnds(s, ControlLineTooLarge, at.group);
    case StdinEnd => RequestEnds(s, StdinClosed, at.group);
    case StdinError => RequestEnds(s, StdinClosed, at.group);
  }

  lemma CheckedArmed(s: Supervisor, backpressured: bool, now: nat, group: GroupState)
    requires Armed(s) && !Ended(s) && !s.directChildClosed
    ensures Armed(CheckExitClose(Fired(s), backpressured, now, group))
  {
    var seen := if backpressured then Fired(s).(lastOutputAt := now) else Fired(s);
    if now - Max(seen.exitObservedAt, seen.lastOutputAt) >= GraceMs(seen) {
      RequestEnds(seen, DescendantAfterExit, group);
    } else {
      var checked := ScheduleExitCloseCheck(seen, now);
      assert checked.timers.exitClose.Some? && checked.timers.watchdog == s.timers.watchdog;
    }
  }

  lemma FiredArmed(s: Supervisor)
    requires Armed(s) && (Ended(s) || s.directChildClosed)
    ensures Armed(Fired(s))
  {
    if Ended(s) { EndedArmed(Fired(s)); }
  }

  lemma ExitCloseArmed(s: Supervisor, backpressured: bool, now: nat, group: GroupState)
    requires Armed(s)
    ensures Armed(OnExitCloseFires(s, backpressured, now, group))
  {
    if s.timers.exitClose != None {
      if s.completed || s.Terminating() || s.directChildClosed {
        FiredArmed(s);
      } else {
        CheckedArmed(s, backpressured, now, group);
        assert OnExitCloseFires(s, backpressured, now, group) == CheckExitClose(Fired(s), backpressured, now, group);
      }
    }
  }

  lemma TimerArmed(s: Supervisor, at: Stimulus)
    requires Armed(s) && TimerEvent(at.event)
    ensures Armed(OnTimer(s, at))
  {
    match at.event
    case TimeoutFires => RequestEnds(s.(timers := s.timers.(timeout := None)), TimedOut, at.group);
    case WatchdogFires => WatchdogArmed(s, at.now, at.group);
    case ExitCloseFires(backpressured) => ExitCloseArmed(s, backpressured, at.now, at.group);
  }

  lemma PayloadExitArmed(s: Supervisor, code: Option<int>, now: nat)
    requires Armed(s)
    ensures Armed(ScheduleExitCloseCheck(RecordExit(s, code, now), now))
  {
    var recorded := RecordExit(s, code, now);
    assert Ended(recorded) == Ended(s) && recorded.directChildClosed == s.directChildClosed;
  }

  lemma CloseEnds(s: Supervisor, code: Option<int>, now: nat, group: GroupState)
    ensures Ended(OnPayloadClose(s, code, now, group))
  {
    var closed := RecordExit(s.(directChildClosed := true), code, now);
    if !Ended(s) {
      RequestEnds(ClearTimers(closed), DescendantAfterExit, group);
      ClosedEnds(ClearTimers(closed), group);
    }
  }

  lemma ClosedEnds(s: Supervisor, group: GroupState)
    ensures Ended(Closed(s, group))
  {
    RequestEnds(s, DescendantAfterExit, group);
    if s.windows {} else if Probe(s, group).GroupAbsent? {}
  }

  lemma PayloadArmed(s: Supervisor, at: Stimulus, t: Supervisor)
    requires Armed(s) && PayloadEvent(at.event) && t == OnPayload(s, at)
    ensures Armed(t)
  {
    if s.hasPayload {
      match at.event
      case PayloadExit(code) => PayloadExitArmed(s, code, at.now);
      case PayloadClose(code) => CloseEnds(s, code, at.now, at.group);
      case PayloadOutput => assert t == s.(lastOutputAt := at.now);
      case PayloadError => ErrorArmed(s);
    }
  }

  lemma CompleteEnds(s: Supervisor, reason: Reason, requested: bool, confirmed: bool, bestEffort: bool)
    ensures Complete(s, reason, requested, confirmed, bestEffort).completed
  {
  }

  lemma ErrorArmed(s: Supervisor)
    requires Armed(s)
    ensures Armed(OnPayloadError(s))
  {
    var failed := s.(spawnFailed := true);
    assert Armed(failed);
    if s.payloadPid == 0 {
      CompleteEnds(failed, SpawnFailed, false, false, false);
      EndedArmed(Complete(failed, SpawnFailed, false, false, false));
    }
  }

  lemma ControlLostArmed(s: Supervisor)
    requires Armed(s)
    ensures Armed(s.(controlAvailable := false))
  {
  }

  lemma OutsideArmed(s: Supervisor, at: Stimulus)
    requires Armed(s)
    ensures Armed(OnOutside(s, at))
  {
    match at.event
    case ChannelClosed(reason) =>
      RequestEnds(s, reason, at.group);
      EndedArmed(RequestTermination(s, reason, at.group));
    case ControlLost => ControlLostArmed(s);
    case _ =>
      RequestEnds(s, SupervisorSignal, at.group);
      EndedArmed(RequestTermination(s, SupervisorSignal, at.group));
  }

  lemma StepArmed(s: Supervisor, at: Stimulus)
    requires Good(s) && Armed(s)
    ensures Armed(Step(s, at))
  {
    if Continuation(at.event) {
      ResumeEnds(s, at);
      if s.Terminating() { EndedArmed(Resume(s, at)); }
    }
    else if Input(at.event) { InputArmed(s, at); }
    else if TimerEvent(at.event) { TimerArmed(s, at); }
    else if PayloadEvent(at.event) { PayloadArmed(s, at, Step(s, at)); }
    else { OutsideArmed(s, at); }
  }
}
