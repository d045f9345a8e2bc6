/**
 `createSupervisor` as an object: its closure variables as fields, its inner functions and event
 handlers as methods that assign them, each proved to do what the state machine's function says.
 */
module SupervisorProcess {
  import opened Options
  import opened SupervisorModel

  class SupervisorObject {
    const windows: bool
    var controlAvailable: bool
    var firstMessageSeen: bool
    var completed: bool
    var hasPayload: bool
    var payloadPid: nat
    var payloadExited: bool
    var payloadExitCode: Option<int>
    var payloadExitObservedAt: nat
    var lastPayloadOutputAt: nat
    var directChildClosed: bool
    var spawnFailed: bool
    var timeoutTimer: Option<nat>
    var watchdogTimer: Option<nat>
    var exitCloseTimer: Option<nat>
    var watchdogMs: nat
    var watchdogDeadlineAt: nat
    var lastHeartbeatAt: nat
    var terminationConfirmMs: nat
    var terminationReason: Reason
    var phase: Phase
    var log: seq<Control>
    ghost var spawns: nat
    ghost var spawnAfterDeadline: bool
    ghost var taskkillAfterExit: bool
    ghost var groupSeenAbsent: bool

    ghost function State(): Supervisor
      reads this
    {
      Supervisor(windows, controlAvailable, firstMessageSeen, completed, hasPayload, payloadPid, payloadExited, payloadExitCode,
                 payloadExitObservedAt, lastPayloadOutputAt, directChildClosed, spawnFailed,
                 Timers(timeoutTimer, watchdogTimer, exitCloseTimer), Watch(watchdogMs, watchdogDeadlineAt, lastHeartbeatAt),
                 terminationConfirmMs, terminationReason, phase, log, spawns, spawnAfterDeadline, taskkillAfterExit, groupSeenAbsent)
    }

    constructor (onWindows: bool, identityValid: bool)
      ensures State() == Initial(onWindows, identityValid)
    {
      windows := onWindows;
      controlAvailable, firstMessageSeen, completed, hasPayload, payloadPid := true, false, false, false, 0;
      payloadExited, payloadExitCode, payloadExitObservedAt, lastPayloadOutputAt := false, None, 0, 0;
      directChildClosed, spawnFailed := false, false;
      timeoutTimer, watchdogTimer, exitCloseTimer := None, None, None;
      watchdogMs, watchdogDeadlineAt, lastHeartbeatAt, terminationConfirmMs := 0, 0, 0, DEFAULT_TERMINATION_CONFIRM_MS;
      terminationReason, phase, log := PayloadClosed, NotRequested, [];
      spawns, spawnAfterDeadline, taskkillAfterExit, groupSeenAbsent := 0, false, false, false;
      new;
      if identityValid {
        WriteControl(Ready);
      } else {
        WriteControl(ProtocolError(InvalidIdentity));
        CompleteWith(ProtocolBroken, false, true, false);
      }
    }

    /** emit */
    method WriteControl(c: Control)
      modifies this
      ensures State() == Emit(old(State()), c)
    {
      if controlAvailable { log := log + [c]; }
    }

    method ClearRuntimeTimers()
      modifies this
      ensures State() == ClearTimers(old(State()))
    {
      timeoutTimer, watchdogTimer, exitCloseTimer := None, None, None;
    }

    /** complete */
    method CompleteWith(reason: Reason, requested: bool, confirmed: bool, bestEffort: bool)
      modifies this
      ensures State() == Complete(old(State()), reason, requested, confirmed, bestEffort)
    {
      if completed { return; }
      completed := true;
      ClearRuntimeTimers();
      WriteControl(Exit(reason, requested, confirmed, bestEffort, payloadExitCode, payloadPid, payloadExited, directChildClosed));
    }

    /** processGroupState, and the record that it was seen empty */
    method ProbeGroup(group: GroupState) returns (absent: bool)
      modifies this
      ensures State() == Observe(old(State()), group) && absent == Probe(old(State()), group).GroupAbsent?
    {
      absent := !windows && payloadPid > 0 && group.GroupAbsent?;
      groupSeenAbsent := groupSeenAbsent || absent;
    }

    method WaitIn(next: Phase)
      modifies this
      ensures State() == Apply(old(State()), Wait(next))
    {
      phase := next;
      taskkillAfterExit := taskkillAfterExit || (StartsTaskkill(next) && payloadExited);
    }

    method ReportContained(confirmed: bool, bestEffort: bool)
      modifies this
      ensures State() == Contained(old(State()), confirmed, bestEffort)
    {
      CompleteWith(terminationReason, true, confirmed, bestEffort);
      phase := Settled;
    }

    method ReportUnconfirmed()
      modifies this
      ensures State() == Unconfirmed(old(State()))
    {
      WriteControl(TerminationUnconfirmed(terminationReason));
      CompleteWith(terminationReason, true, false, false);
      phase := Settled;
    }

    /** One leg of the termination routine: it waits again, or reports. */
    method Proceed(move: Move)
      modifies this
      ensures State() == Apply(old(State()), move)
    {
      match move
      case Stay =>
      case Wait(next) => WaitIn(next);
      case Confirm => ReportContained(true, false);
      case BestEffort => ReportContained(false, true);
      case GiveUp => ReportUnconfirmed();
    }

    /** terminatePosix and terminateWindows resume after an await. */
    method ResumeTermination(at: Stimulus)
      requires Continuation(at.event)
      modifies this
      ensures State() == Resume(old(State()), at)
    {
      var polls := at.event.GroupPollEnds? && (phase.PosixTermWait? || phase.PosixKillWait?);
      var move := NextMoveNow(at);
      ghost var was := State();
      if polls {
        var _ := ProbeGroup(at.group);
        assert Resume(was, at) == Apply(State(), move);
      } else {
        assert Resume(was, at) == Apply(State(), move);
      }
      Proceed(move);
    }

    /** What the routine decides from the fields as they are. */
    method NextMoveNow(at: Stimulus) returns (move: Move)
      requires Continuation(at.event)
      ensures move == NextMove(State(), at)
    {
      var absent := !windows && payloadPid > 0 && at.group.GroupAbsent?;
      var afterGroup := if directChildClosed then Confirm else Wait(PosixCloseWait);
      match at.event
      case GroupPollEnds =>
        if phase.PosixTermWait? { move := if absent then afterGroup else Wait(PosixKillWait); }
        else if phase.PosixKillWait? { move := if absent then afterGroup else GiveUp; }
        else { move := Stay; }
      case CloseWaitEnds =>
        move := CloseWaitMove();
      case TaskkillEnds(kill) =>
        move := TaskkillMove(kill);
      case ExitPollEnds => move := ExitPollMove();
      case PauseEnds =>
        match phase {
          case WinPause(kill) => move := Wait(if payloadPid == 0 || payloadExited then WinRetryPoll(kill) else WinRetryKill(kill));
          case _ => move := Stay;
        }
      case SnapshotEnds(ok) =>
        if !phase.WinSnapshot? { move := Stay; }
        else if ok { move := Wait(WinVerifiedKill); }
        else { move := if directChildClosed then GiveUp else Wait(WinExitFinalClose(false, false)); }
      case VerifiedKillEnds(ok) =>
        if !phase.WinVerifiedKill? { move := Stay; }
        else if directChildClosed { move := if ok then BestEffort else GiveUp; }
        else { move := Wait(WinExitFinalClose(true, ok)); }
      case TerminationThrows => move := if phase.NotRequested? || phase.Settled? then Stay else GiveUp;
    }

    method CloseWaitMove() returns (move: Move)
      ensures move == CloseWaited(State())
    {
      match phase {
        case PosixCloseWait => move := if directChildClosed then Confirm else GiveUp;
        case WinCloseWait(kill) => move := if WindowsTerminationSucceeded(kill, true, directChildClosed) then BestEffort else GiveUp;
        case WinExitClose => move := if directChildClosed then BestEffort else Wait(WinSnapshot);
        case WinExitFinalClose(snapshotOk, killOk) => move := if snapshotOk && killOk && directChildClosed then BestEffort else GiveUp;
        case _ => move := Stay;
      }
    }

    method TaskkillMove(kill: Taskkill) returns (move: Move)
      ensures move == TaskkillEnded(State(), kill)
    {
      match phase {
        case WinFirstKill => move := Wait(WinFirstPoll(kill));
        case WinRetryKill(first) => move := Wait(WinRetryPoll(if kill.started && kill.exitCode == Some(0) then kill else first));
        case _ => move := Stay;
      }
    }

    method ExitPollMove() returns (move: Move)
      ensures move == ExitPolled(State())
    {
      match phase {
        case WinFirstPoll(kill) =>
          if payloadExited && !directChildClosed { move := Wait(WinCloseWait(kill)); }
          else if payloadExited { move := if TaskkillSucceeded(kill) then BestEffort else GiveUp; }
          else if kill.timedOut || !kill.started || kill.exitCode != Some(0) { move := Wait(WinPause(kill)); }
          else { move := GiveUp; }
        case WinRetryPoll(kill) =>
          if payloadExited && !directChildClosed { move := Wait(WinCloseWait(kill)); }
          else if payloadExited { move := if TaskkillSucceeded(kill) then BestEffort else GiveUp; }
          else { move := GiveUp; }
        case _ => move := Stay;
      }
    }

    /** requestTermination: the first request wins. */
    method Request(reason: Reason, group: GroupState)
      modifies this
      ensures State() == RequestTermination(old(State()), reason, group)
    {
      if !phase.NotRequested? { return; }
      terminationReason := reason;
      ClearRuntimeTimers();
      var absent := ProbeGroup(group);
      if !hasPayload || payloadPid == 0 {
        Proceed(Confirm);
      } else if windows {
        if payloadExited { Proceed(if directChildClosed then BestEffort else Wait(WinExitClose)); }
        else { Proceed(Wait(WinFirstKill)); }
      } else if absent {
        Proceed(if directChildClosed then Confirm else Wait(PosixCloseWait));
      } else {
        Proceed(Wait(PosixTermWait));
      }
    }

    method FailProtocol(code: Fault, group: GroupState)
      modifies this
      ensures State() == ProtocolFailure(old(State()), code, group)
    {
      if completed { return; }
      WriteControl(ProtocolError(code));
      if payloadPid > 0 { Request(ProtocolBroken, group); } else { CompleteWith(ProtocolBroken, false, true, false); }
    }
  
    /** scheduleWatchdog */
    method ArmWatchdog(now: nat)
      modifies this
      ensures State() == ScheduleWatchdog(old(State()), now)
    {
      watchdogTimer := None;
      if watchdogMs == 0 || completed || !phase.NotRequested? { return; }
      var relativeRemaining := watchdogMs - (now - lastHeartbeatAt);
      var durableRemaining := if watchdogDeadlineAt > 0 then watchdogDeadlineAt - now else relativeRemaining;
      watchdogTimer := Some(now + Max(0, Min(relativeRemaining, durableRemaining)));
    }

    method FireWatchdog(now: nat, group: GroupState)
      modifies this
      ensures State() == OnWatchdogFires(old(State()), now, group)
    {
      if watchdogTimer == None { return; }
      if now - lastHeartbeatAt < watchdogMs && (watchdogDeadlineAt == 0 || now < watchdogDeadlineAt) { ArmWatchdog(now); }
      else { Request(WatchdogExpired, group); }
    }

    method FireTimeout(group: GroupState)
      modifies this
      ensures State() == OnTimeoutFires(old(State()), group)
    {
      if timeoutTimer == None { return; }
      timeoutTimer := None;
      Request(TimedOut, group);
    }

    /** scheduleExitCloseCheck */
    method ArmExitCloseCheck(now: nat)
      modifies this
      ensures State() == ScheduleExitCloseCheck(old(State()), now)
    {
      exitCloseTimer := if completed || !phase.NotRequested? || directChildClosed then None else Some(now + 2 * PROCESS_GROUP_POLL_MS);
    }

    method FireExitClose(backpressured: bool, now: nat, group: GroupState)
      modifies this
      ensures State() == OnExitCloseFires(old(State()), backpressured, now, group)
    {
      if exitCloseTimer == None { return; }
      exitCloseTimer := None;
      if completed || !phase.NotRequested? || directChildClosed { return; }
      CheckPipes(backpressured, now, group);
    }

    method CheckPipes(backpressured: bool, now: nat, group: GroupState)
      modifies this
      ensures State() == CheckExitClose(old(State()), backpressured, now, group)
    {
      if backpressured { lastPayloadOutputAt := now; }
      var graceMs := Min(DEFAULT_EXIT_CLOSE_GRACE_MS, Max(250, terminationConfirmMs));
      if now - Max(payloadExitObservedAt, lastPayloadOutputAt) >= graceMs { Request(DescendantAfterExit, group); }
      else { ArmExitCloseCheck(now); }
    }

    /** recordPayloadExit */
    method RecordPayloadExit(code: Option<int>, now: nat)
      modifies this
      ensures State() == RecordExit(old(State()), code, now)
    {
      if payloadExited { return; }
      payloadExited, payloadExitObservedAt, payloadExitCode := true, now, code;
    }

    method PayloadExits(code: Option<int>, now: nat)
      modifies this
      ensures State() == ScheduleExitCloseCheck(RecordExit(old(State()), code, now), now)
    {
      RecordPayloadExit(code, now);
      ArmExitCloseCheck(now);
    }

    method RecordPayloadClose(code: Option<int>, now: nat)
      modifies this
      ensures State() == RecordExit(old(State()).(directChildClosed := true), code, now)
    {
      directChildClosed := true;
      RecordPayloadExit(code, now);
    }

    method PayloadCloses(code: Option<int>, now: nat, group: GroupState)
      modifies this
      ensures State() == OnPayloadClose(old(State()), code, now, group)
    {
      var over := completed || !phase.NotRequested?;
      RecordPayloadClose(code, now);
      if over { return; }
      ClearRuntimeTimers();
      JudgeClose(group);
    }

    method JudgeClose(group: GroupState)
      modifies this
      ensures State() == Closed(old(State()), group)
    {
      var reason := if spawnFailed then SpawnFailed else PayloadClosed;
      if windows {
        CompleteWith(reason, false, false, false);
      } else if payloadPid > 0 && group.GroupAbsent? {
        var _ := ProbeGroup(group);
        CompleteWith(reason, false, true, false);
      } else {
        Request(DescendantAfterExit, group);
      }
    }

    method PayloadFails()
      modifies this
      ensures State() == OnPayloadError(old(State()))
    {
      RecordSpawnError();
      if payloadPid == 0 { CompleteWith(SpawnFailed, false, false, false); }
    }

    method Configure(options: LaunchOptions)
      modifies this
      ensures State() == Configured(old(State()), options)
    {
      watchdogMs, watchdogDeadlineAt := options.watchdogMs, options.deadlineAt;
      terminationConfirmMs := if options.confirmMs == 0 then DEFAULT_TERMINATION_CONFIRM_MS else options.confirmMs;
    }

    /** launchPayload */
    method LaunchNow(options: LaunchOptions, spawned: SpawnResult, now: nat)
      modifies this
      ensures State() == LaunchPayload(old(State()), options, spawned, now)
    {
      Configure(options);
      if LaunchAuthorityExpired(options.deadlineAt, now) { CompleteWith(LaunchGateExpired, false, false, false); }
      else { SpawnPayload(options, spawned, now); }
    }

    ghost method NoteSpawn(now: nat)
      modifies this`spawns, this`spawnAfterDeadline
      ensures State() == Tried(old(State()), now)
    {
      spawns, spawnAfterDeadline := spawns + 1, spawnAfterDeadline || (0 < watchdogDeadlineAt && watchdogDeadlineAt <= now);
    }

    method AdoptPayload(pid: nat)
      modifies this`hasPayload, this`payloadPid
      ensures State() == old(State()).(hasPayload := true, payloadPid := pid)
    {
      hasPayload, payloadPid := true, pid;
    }

    method RecordSpawnError()
      modifies this`spawnFailed
      ensures State() == old(State()).(spawnFailed := true)
    {
      spawnFailed := true;
    }

    method SpawnPayload(options: LaunchOptions, spawned: SpawnResult, now: nat)
      modifies this
      ensures State() == Spawn(old(State()), options, spawned, now)
    {
      NoteSpawn(now);
      match spawned
      case SpawnThrows =>
        RecordSpawnError();
        CompleteWith(SpawnFailed, false, false, false);
      case SpawnReturns(pid) =>
        AdoptPayload(pid);
        StartTimers(options, now);
    }

    method StartTimers(options: LaunchOptions, now: nat)
      modifies this
      ensures State() == Started(old(State()), options, now)
    {
      if payloadPid > 0 { WriteControl(Launched(payloadPid)); }
      ArmTimeout(options.timeoutMs, now);
      BeginWatching(now);
    }

    method ArmTimeout(timeoutMs: nat, now: nat)
      modifies this
      ensures State() == StartTimeout(old(State()), timeoutMs, now)
    {
      timeoutTimer := if timeoutMs > 0 then Some(now + timeoutMs) else None;
    }

    method BeginWatching(now: nat)
      modifies this
      ensures State() == StartWatchdog(old(State()), now)
    {
      if watchdogMs == 0 { return; }
      lastHeartbeatAt := now;
      ArmWatchdog(now);
    }

    method Heartbeat(deadlineAt: nat, now: nat, group: GroupState)
      modifies this
      ensures State() == OnHeartbeat(old(State()), deadlineAt, now, group)
    {
      if !phase.NotRequested? { return; }
      if payloadPid == 0 { FailProtocol(HeartbeatBeforePayload, group); return; }
      if watchdogMs == 0 { return; }
      if deadlineAt == 0 || deadlineAt <= now { Request(LeaseDeadlineInvalid, group); return; }
      lastHeartbeatAt := now;
      watchdogDeadlineAt := Min(now + watchdogMs, deadlineAt);
      ArmWatchdog(now);
    }

    /** handleMessage and the listeners of standard input. */
    method HandleInput(at: Stimulus)
      requires Input(at.event)
      modifies this
      ensures State() == OnInput(old(State()), at)
    {
      if completed { return; }
      if at.event.LineTooLarge? { FailProtocol(ControlLineTooLarge, at.group); }
      else if at.event.StdinEnd? { EndInput(at.group); }
      else if at.event.StdinError? { Request(StdinClosed, at.group); }
      else if at.event == OtherMessage(false) { FailProtocol(InvalidMessage, at.group); }
      else { HandleMessage(at); }
    }

    method EndInput(group: GroupState)
      modifies this
      ensures State() == OnStdinEnd(old(State()), group)
    {
      if completed { return; }
      if payloadPid > 0 { Request(StdinClosed, group); }
      else { CompleteWith(if firstMessageSeen then StdinClosedBeforePayload else StdinClosedBeforeLaunch, false, true, false); }
    }

    method HandleMessage(at: Stimulus)
      requires !completed
      requires at.event.LaunchMessage? || at.event.HeartbeatMessage? || at.event.TerminateMessage? || at.event == OtherMessage(true)
      modifies this
      ensures State() == OnInput(old(State()), at)
    {
      if !firstMessageSeen {
        firstMessageSeen := true;
        if at.event.LaunchMessage? && at.event.valid { LaunchNow(at.event.options, at.event.spawned, at.now); }
        else { FailProtocol(if at.event.LaunchMessage? then InvalidLaunch else FirstMustBeLaunch, at.group); }
        return;
      }
      if at.event.LaunchMessage? { FailProtocol(DuplicateLaunch, at.group); }
      else if at.event.HeartbeatMessage? { Heartbeat(at.event.deadlineAt, at.now, at.group); }
      else if at.event.TerminateMessage? { Request(at.event.why, at.group); }
      else { FailProtocol(UnknownMessageType, at.group); }
    }

    /** Every event reaches its handler; whatever is proved of runs of the machine holds of this object. */
    method Handle(at: Stimulus)
      modifies this
      ensures State() == Step(old(State()), at)
    {
      if Continuation(at.event) { ResumeTermination(at); }
      else if Input(at.event) { HandleInput(at); }
      else if TimerEvent(at.event) { HandleTimer(at); }
      else if PayloadEvent(at.event) { HandlePayload(at); }
      else {
        HandleOutside(at);
      }
    }

    method HandleOutside(at: Stimulus)
      modifies this
      ensures State() == OnOutside(old(State()), at)
    {
      if at.event.ChannelClosed? {
        if !completed && hasPayload { Request(at.event.why, at.group); }
      } else if at.event.ControlLost? {
        controlAvailable := false;
      } else {
        Request(SupervisorSignal, at.group);
      }
    }

    method HandleTimer(at: Stimulus)
      requires TimerEvent(at.event)
      modifies this
      ensures State() == OnTimer(old(State()), at)
    {
      match at.event
      case TimeoutFires => FireTimeout(at.group);
      case WatchdogFires => FireWatchdog(at.now, at.group);
      case ExitCloseFires(backpressured) => FireExitClose(backpressured, at.now, at.group);
    }

    method HandlePayload(at: Stimulus)
      requires PayloadEvent(at.event)
      modifies this
      ensures State() == OnPayload(old(State()), at)
    {
      if !hasPayload { return; }
      match at.event
      case PayloadOutput => lastPayloadOutputAt := at.now;
      case PayloadError => PayloadFails();
      case PayloadExit(code) => PayloadExits(code, at.now);
      case PayloadClose(code) => PayloadCloses(code, at.now, at.group);
    }
  }
}
