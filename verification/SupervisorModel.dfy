/**
 The process supervisor of bin/process-supervisor.js as a state machine: the closure variables of
 `createSupervisor`, one function per event handler, and the awaits of the termination routines as
 phases.  Every event carries the clock and the state of the payload's process group at that moment;
 events may come in any order.
 */
module SupervisorModel {
  import opened Options

  const PROCESS_GROUP_POLL_MS := 50
  const DEFAULT_EXIT_CLOSE_GRACE_MS := 2000
  const TASKKILL_PROCESS_NOT_FOUND := 128
  const DEFAULT_TERMINATION_CONFIRM_MS := 5000

  datatype GroupState = GroupPresent | GroupAbsent | GroupUnknown

  datatype Taskkill = Taskkill(started: bool, exitCode: Option<int>, timedOut: bool)

  /** Where the termination routine waits; `Settled` once its promise has resolved. */
  datatype Phase =
    | NotRequested
    | PosixTermWait | PosixKillWait | PosixCloseWait
    | WinFirstKill | WinFirstPoll(kill: Taskkill) | WinPause(kill: Taskkill) | WinRetryKill(kill: Taskkill) | WinRetryPoll(kill: Taskkill)
    | WinCloseWait(kill: Taskkill)
    | WinExitClose | WinSnapshot | WinVerifiedKill | WinExitFinalClose(snapshotOk: bool, killOk: bool)
    | Settled

  /** Why a supervisor exits; a terminate message may name any of these, or a reason of its own. */
  datatype Reason =
    | PayloadClosed | SpawnFailed | LaunchGateExpired | ProtocolBroken | StdinClosed | StdinClosedBeforeLaunch | StdinClosedBeforePayload
    | TimedOut | WatchdogExpired | LeaseDeadlineInvalid | DescendantAfterExit | SupervisorSignal | Named(text: string)

  datatype Fault =
    | InvalidIdentity | DuplicateLaunch | InvalidLaunch | FirstMustBeLaunch | HeartbeatBeforePayload | UnknownMessageType | InvalidMessage
    | ControlLineTooLarge

  datatype Control =
    | Ready
    | Launched(pid: nat)
    | ProtocolError(code: Fault)
    | TerminationUnconfirmed(why: Reason)
    | Exit(reason: Reason, requested: bool, confirmed: bool, bestEffort: bool, payloadExitCode: Option<int>,
           payloadPid: nat, payloadExited: bool, directChildClosed: bool)

  /** When each armed timer is due. */
  datatype Timers = Timers(timeout: Option<nat>, watchdog: Option<nat>, exitClose: Option<nat>)

  /** The watchdog's allowance: milliseconds between heartbeats (0 for none) and the durable deadline (0 for none). */
  datatype Watch = Watch(ms: nat, deadlineAt: nat, lastHeartbeatAt: nat)

  datatype Supervisor = Supervisor(
    windows: bool,
    controlAvailable: bool,
    firstMessageSeen: bool,
    completed: bool,
    hasPayload: bool,
    payloadPid: nat,
    payloadExited: bool,
    payloadExitCode: Option<int>,
    exitObservedAt: nat,
    lastOutputAt: nat,
    directChildClosed: bool,
    spawnFailed: bool,
    timers: Timers,
    watch: Watch,
    confirmMs: nat,
    terminationReason: Reason,
    phase: Phase,
    log: seq<Control>,
    // What an observer outside saw this supervisor do, which no handler reads.
    spawns: nat,
    spawnAfterDeadline: bool,
    taskkillAfterExit: bool,
    groupSeenAbsent: bool)
  {
    predicate Terminating() { !phase.NotRequested? }
    predicate LaunchedPayload() { payloadPid > 0 }
    predicate RunningPayload() { LaunchedPayload() && !completed && !Terminating() }
  }

  /** The launch message's timers; a missing confirmMs (0) means the default. */
  datatype LaunchOptions = LaunchOptions(timeoutMs: nat, watchdogMs: nat, deadlineAt: nat, confirmMs: nat)

  /** What spawn() does: it throws, or returns a child whose pid is 0 when it could not start. */
  datatype SpawnResult = SpawnThrows | SpawnReturns(pid: nat)

  datatype Event =
    | LaunchMessage(valid: bool, options: LaunchOptions, spawned: SpawnResult)
    | HeartbeatMessage(deadlineAt: nat)
    | TerminateMessage(why: Reason)
    | OtherMessage(parses: bool)
    | LineTooLarge
    | StdinEnd
    | StdinError
    | Signal
    | ChannelClosed(why: Reason)
    | ControlLost
    | PayloadOutput
    | PayloadError
    | PayloadExit(code: Option<int>)
    | PayloadClose(code: Option<int>)
    | TimeoutFires
    | WatchdogFires
    | ExitCloseFires(backpressured: bool)
    // Continuations of the termination routine.
    | GroupPollEnds
    | CloseWaitEnds
    | TaskkillEnds(kill: Taskkill)
    | ExitPollEnds
    | PauseEnds
    | SnapshotEnds(ok: bool)
    | VerifiedKillEnds(ok: bool)
    | TerminationThrows

  predicate Continuation(e: Event) {
    e.GroupPollEnds? || e.CloseWaitEnds? || e.TaskkillEnds? || e.ExitPollEnds? || e.PauseEnds? || e.SnapshotEnds? || e.VerifiedKillEnds?
    || e.TerminationThrows?
  }

  datatype Stimulus = Stimulus(now: nat, group: GroupState, event: Event)

  function Max(a: int, b: int): int { if a < b then b else a }
  function Min(a: int, b: int): int { if a < b then a else b }

  function Initial(windows: bool, identityValid: bool): Supervisor {
    var s := Supervisor(windows, true, false, false, false, 0, false, None, 0, 0, false, false, NoTimers(), Watch(0, 0, 0),
                        DEFAULT_TERMINATION_CONFIRM_MS, PayloadClosed, NotRequested, [], 0, false, false, false);
    if identityValid then Emit(s, Ready)
    else Complete(Emit(s, ProtocolError(InvalidIdentity)), ProtocolBroken, false, true, false)
  }

  /** The control channel with these events on it, if it still takes any. */
  function Written(s: Supervisor, events: seq<Control>): seq<Control> {
    if s.controlAvailable then s.log + events else s.log
  }

  function Emit(s: Supervisor, c: Control): Supervisor {
    s.(log := Written(s, [c]))
  }

  function ClearTimers(s: Supervisor): Supervisor {
    s.(timers := NoTimers())
  }

  function NoTimers(): Timers { Timers(None, None, None) }

  function ExitCodeFor(reason: Reason, requested: bool, contained: bool, original: Option<int>): int {
    if reason == SpawnFailed then 127
    else if reason == ProtocolBroken then 64
    else if requested && !contained then 70
    else if reason == TimedOut then 124
    else if reason == WatchdogExpired || reason == DescendantAfterExit then 70
    else if requested then 130
    else if original.Some? && 0 <= original.value <= 255 then original.value
    else 1
  }

  function ExitEvent(s: Supervisor, reason: Reason, requested: bool, confirmed: bool, bestEffort: bool): Control {
    Exit(reason, requested, confirmed, bestEffort, s.payloadExitCode, s.payloadPid, s.payloadExited, s.directChildClosed)
  }

  /** The supervisor's own exit status, which the exit event carries. */
  function SupervisorExitCode(e: Control): int
    requires e.Exit?
  {
    ExitCodeFor(e.reason, e.requested, e.confirmed || e.bestEffort, e.payloadExitCode)
  }

  /** The first call decides; every later one is ignored. */
  function Complete(s: Supervisor, reason: Reason, requested: bool, confirmed: bool, bestEffort: bool): Supervisor {
    if s.completed then s
    else s.(completed := true, timers := NoTimers(), log := Written(s, [ExitEvent(s, reason, requested, confirmed, bestEffort)]))
  }

  /** The end of a termination that left nothing it knows of behind. */
  function Contained(s: Supervisor, confirmed: bool, bestEffort: bool): Supervisor {
    Complete(s, s.terminationReason, true, confirmed, bestEffort).(phase := Settled)
  }

  /** The end of a termination that could not be confirmed: the control event, then the exit. */
  function Unconfirmed(s: Supervisor): Supervisor {
    Complete(Emit(s, TerminationUnconfirmed(s.terminationReason)), s.terminationReason, true, false, false).(phase := Settled)
  }

  /** processGroupState: on Windows or without a payload it is never absent. */
  function Probe(s: Supervisor, group: GroupState): GroupState {
    if s.windows || s.payloadPid == 0 then GroupUnknown else group
  }

  function Observe(s: Supervisor, group: GroupState): Supervisor {
    s.(groupSeenAbsent := s.groupSeenAbsent || Probe(s, group).GroupAbsent?)
  }

  // ---------------------------------------------------------------- termination

  /** What the termination routine does next: wait again, or give one of its three verdicts. */
  datatype Move = Stay | Wait(next: Phase) | Confirm | BestEffort | GiveUp

  predicate StartsTaskkill(p: Phase) { p.WinFirstKill? || p.WinRetryKill? }

  function Apply(s: Supervisor, move: Move): Supervisor {
    match move
    case Stay => s
    case Wait(next) => s.(phase := next, taskkillAfterExit := s.taskkillAfterExit || (StartsTaskkill(next) && s.payloadExited))
    case Confirm => Contained(s, true, false)
    case BestEffort => Contained(s, false, true)
    case GiveUp => Unconfirmed(s)
  }

  function PosixClosed(s: Supervisor): Move {
    if s.directChildClosed then Confirm else GiveUp
  }

  function AwaitPosixClose(s: Supervisor): Move {
    if s.directChildClosed then Confirm else Wait(PosixCloseWait)
  }

  function PosixStart(s: Supervisor, group: GroupState): Move {
    if Probe(s, group).GroupAbsent? then AwaitPosixClose(s) else Wait(PosixTermWait)
  }

  function GroupPolled(s: Supervisor, group: GroupState): Move {
    match s.phase
    case PosixTermWait => if Probe(s, group).GroupAbsent? then AwaitPosixClose(s) else Wait(PosixKillWait)
    case PosixKillWait => if Probe(s, group).GroupAbsent? then AwaitPosixClose(s) else GiveUp
    case _ => Stay
  }

  predicate TaskkillSucceeded(kill: Taskkill) {
    kill.started && (kill.exitCode == Some(0) || kill.exitCode == Some(TASKKILL_PROCESS_NOT_FOUND))
  }

  /** windowsTerminationSucceeded */
  predicate WindowsTerminationSucceeded(kill: Taskkill, directChildGone: bool, directChildClosed: bool) {
    directChildGone && directChildClosed && TaskkillSucceeded(kill)
  }

  function WindowsJudge(s: Supervisor, kill: Taskkill, gone: bool): Move {
    if WindowsTerminationSucceeded(kill, gone, s.directChildClosed) then BestEffort else GiveUp
  }

  function AwaitWindowsClose(s: Supervisor, kill: Taskkill): Move {
    if s.directChildClosed then WindowsJudge(s, kill, true) else Wait(WinCloseWait(kill))
  }

  /** runTaskkill: refused without a pid and once the payload's exit was observed. */
  function RunTaskkill(s: Supervisor, waiting: Phase, refused: Phase): Move {
    Wait(if s.payloadPid == 0 || s.payloadExited then refused else waiting)
  }

  function WindowsStart(s: Supervisor): Move {
    if s.payloadExited then if s.directChildClosed then BestEffort else Wait(WinExitClose)
    else RunTaskkill(s, WinFirstKill, WinFirstPoll(Taskkill(false, None, false)))
  }

  function TaskkillEnded(s: Supervisor, kill: Taskkill): Move {
    match s.phase
    case WinFirstKill => Wait(WinFirstPoll(kill))
    case WinRetryKill(first) => Wait(WinRetryPoll(if kill.started && kill.exitCode == Some(0) then kill else first))
    case _ => Stay
  }

  function ExitPolled(s: Supervisor): Move {
    match s.phase
    case WinFirstPoll(kill) =>
      if s.payloadExited then AwaitWindowsClose(s, kill)
      else if kill.timedOut || !kill.started || kill.exitCode != Some(0) then Wait(WinPause(kill))
      else WindowsJudge(s, kill, false)
    case WinRetryPoll(kill) => if s.payloadExited then AwaitWindowsClose(s, kill) else WindowsJudge(s, kill, false)
    case _ => Stay
  }

  function PauseEnded(s: Supervisor): Move {
    match s.phase
    case WinPause(kill) => RunTaskkill(s, WinRetryKill(kill), WinRetryPoll(kill))
    case _ => Stay
  }

  function ExitJudge(s: Supervisor, snapshotOk: bool, killOk: bool): Move {
    if snapshotOk && killOk && s.directChildClosed then BestEffort else GiveUp
  }

  function AwaitFinalClose(s: Supervisor, snapshotOk: bool, killOk: bool): Move {
    if s.directChildClosed then ExitJudge(s, snapshotOk, killOk) else Wait(WinExitFinalClose(snapshotOk, killOk))
  }

  function SnapshotEnded(s: Supervisor, ok: bool): Move {
    if !s.phase.WinSnapshot? then Stay else if ok then Wait(WinVerifiedKill) else AwaitFinalClose(s, false, false)
  }

  function VerifiedKillEnded(s: Supervisor, ok: bool): Move {
    if s.phase.WinVerifiedKill? then AwaitFinalClose(s, true, ok) else Stay
  }

  /** The end of a bounded wait for the direct child's stdio: closed, or out of time. */
  function CloseWaited(s: Supervisor): Move {
    match s.phase
    case PosixCloseWait => PosixClosed(s)
    case WinCloseWait(kill) => WindowsJudge(s, kill, true)
    case WinExitClose => if s.directChildClosed then BestEffort else Wait(WinSnapshot)
    case WinExitFinalClose(snapshotOk, killOk) => ExitJudge(s, snapshotOk, killOk)
    case _ => Stay
  }

  function Thrown(s: Supervisor): Move {
    if s.phase.NotRequested? || s.phase.Settled? then Stay else GiveUp
  }

  function NextMove(s: Supervisor, at: Stimulus): Move
    requires Continuation(at.event)
  {
    match at.event
    case GroupPollEnds => GroupPolled(s, at.group)
    case CloseWaitEnds => CloseWaited(s)
    case TaskkillEnds(kill) => TaskkillEnded(s, kill)
    case ExitPollEnds => ExitPolled(s)
    case PauseEnds => PauseEnded(s)
    case SnapshotEnds(ok) => SnapshotEnded(s, ok)
    case VerifiedKillEnds(ok) => VerifiedKillEnded(s, ok)
    case TerminationThrows => Thrown(s)
  }

  predicate PollsGroup(s: Supervisor, at: Stimulus) {
    at.event.GroupPollEnds? && (s.phase.PosixTermWait? || s.phase.PosixKillWait?)
  }

  /** The termination routine resumes after an await. */
  function Resume(s: Supervisor, at: Stimulus): Supervisor
    requires Continuation(at.event)
  {
    Apply(if PollsGroup(s, at) then Observe(s, at.group) else s, NextMove(s, at))
  }

  // ---------------------------------------------------------------- requests

  function FirstMove(s: Supervisor, group: GroupState): Move {
    if !s.hasPayload || s.payloadPid == 0 then Confirm else if s.windows then WindowsStart(s) else PosixStart(s, group)
  }

  function Asked(s: Supervisor, reason: Reason): Supervisor {
    s.(terminationReason := reason, timers := NoTimers())
  }

  function RequestTermination(s: Supervisor, reason: Reason, group: GroupState): Supervisor {
    if s.Terminating() then s else Apply(Observe(Asked(s, reason), group), FirstMove(s, group))
  }

  function ProtocolFailure(s: Supervisor, code: Fault, group: GroupState): Supervisor {
    if s.completed then s
    else
      var told := Emit(s, ProtocolError(code));
      if s.payloadPid > 0 then RequestTermination(told, ProtocolBroken, group)
      else Complete(told, ProtocolBroken, false, true, false)
  }

  // ---------------------------------------------------------------- watchdog and launch

  /** The moment by which a silent bridge has lost its authority. */
  function WatchdogBound(w: Watch): nat {
    var relative := w.lastHeartbeatAt + w.ms;
    if w.deadlineAt > 0 then Min(relative, w.deadlineAt) else relative
  }

  function WatchdogDue(s: Supervisor, now: nat): Option<nat> {
    if s.watch.ms == 0 || s.completed || s.Terminating() then None
    else
      var relativeRemaining := s.watch.ms - (now - s.watch.lastHeartbeatAt);
      var durableRemaining := if s.watch.deadlineAt > 0 then s.watch.deadlineAt - now else relativeRemaining;
      Some(now + Max(0, Min(relativeRemaining, durableRemaining)))
  }

  function ScheduleWatchdog(s: Supervisor, now: nat): Supervisor {
    s.(timers := s.timers.(watchdog := WatchdogDue(s, now)))
  }

  function OnWatchdogFires(s: Supervisor, now: nat, group: GroupState): Supervisor {
    if s.timers.watchdog == None then s
    else if now - s.watch.lastHeartbeatAt < s.watch.ms && (s.watch.deadlineAt == 0 || now < s.watch.deadlineAt) then ScheduleWatchdog(s, now)
    else RequestTermination(s, WatchdogExpired, group)
  }

  function OnTimeoutFires(s: Supervisor, group: GroupState): Supervisor {
    if s.timers.timeout == None then s else RequestTermination(s.(timers := s.timers.(timeout := None)), TimedOut, group)
  }

  predicate LaunchAuthorityExpired(deadlineAt: nat, now: nat) {
    deadlineAt > 0 && deadlineAt <= now
  }

  function Configured(s: Supervisor, options: LaunchOptions): Supervisor {
    s.(watch := Watch(options.watchdogMs, options.deadlineAt, s.watch.lastHeartbeatAt),
       confirmMs := if options.confirmMs == 0 then DEFAULT_TERMINATION_CONFIRM_MS else options.confirmMs)
  }

  function LaunchPayload(s: Supervisor, options: LaunchOptions, spawned: SpawnResult, now: nat): Supervisor {
    var configured := Configured(s, options);
    if LaunchAuthorityExpired(options.deadlineAt, now) then Complete(configured, LaunchGateExpired, false, false, false)
    else Spawn(configured, options, spawned, now)
  }

  function Tried(s: Supervisor, now: nat): Supervisor {
    s.(spawns := s.spawns + 1, spawnAfterDeadline := s.spawnAfterDeadline || (0 < s.watch.deadlineAt && s.watch.deadlineAt <= now))
  }

  function Spawn(s: Supervisor, options: LaunchOptions, spawned: SpawnResult, now: nat): Supervisor {
    match spawned
    case SpawnThrows => Complete(Tried(s, now).(spawnFailed := true), SpawnFailed, false, false, false)
    case SpawnReturns(pid) => Started(Tried(s, now).(hasPayload := true, payloadPid := pid), options, now)
  }

  function Started(s: Supervisor, options: LaunchOptions, now: nat): Supervisor {
    var told := if s.payloadPid > 0 then Emit(s, Launched(s.payloadPid)) else s;
    StartWatchdog(StartTimeout(told, options.timeoutMs, now), now)
  }

  function StartTimeout(s: Supervisor, timeoutMs: nat, now: nat): Supervisor {
    s.(timers := s.timers.(timeout := if timeoutMs > 0 then Some(now + timeoutMs) else None))
  }

  function StartWatchdog(s: Supervisor, now: nat): Supervisor {
    if s.watch.ms == 0 then s else ScheduleWatchdog(s.(watch := s.watch.(lastHeartbeatAt := now)), now)
  }

  function OnLaunchMessage(s: Supervisor, valid: bool, options: LaunchOptions, spawned: SpawnResult, now: nat, group: GroupState): Supervisor {
    if s.completed then s
    else if s.firstMessageSeen then ProtocolFailure(s, DuplicateLaunch, group)
    else if !valid then ProtocolFailure(s.(firstMessageSeen := true), InvalidLaunch, group)
    else LaunchPayload(s.(firstMessageSeen := true), options, spawned, now)
  }

  /** Any message but a launch: the first one must be a launch. */
  function AfterFirst(s: Supervisor, next: Supervisor, group: GroupState): Supervisor {
    if s.completed then s
    else if !s.firstMessageSeen then ProtocolFailure(s.(firstMessageSeen := true), FirstMustBeLaunch, group)
    else next
  }

  function OnHeartbeat(s: Supervisor, deadlineAt: nat, now: nat, group: GroupState): Supervisor {
    if s.Terminating() then s
    else if s.payloadPid == 0 then ProtocolFailure(s, HeartbeatBeforePayload, group)
    else if s.watch.ms == 0 then s
    else if deadlineAt == 0 || deadlineAt <= now then RequestTermination(s, LeaseDeadlineInvalid, group)
    else
      ScheduleWatchdog(s.(watch := Watch(s.watch.ms, Min(now + s.watch.ms, deadlineAt), now)), now)
  }

  function OnStdinEnd(s: Supervisor, group: GroupState): Supervisor {
    if s.completed then s
    else if s.payloadPid == 0 then
      Complete(s, StdinEndReason(s), false, true, false)
    else RequestTermination(s, StdinClosed, group)
  }

  function StdinEndReason(s: Supervisor): Reason {
    if s.firstMessageSeen then StdinClosedBeforePayload else StdinClosedBeforeLaunch
  }

  // ---------------------------------------------------------------- payload events

  function RecordExit(s: Supervisor, code: Option<int>, now: nat): Supervisor {
    if s.payloadExited then s else s.(payloadExited := true, payloadExitCode := code, exitObservedAt := now)
  }

  function ExitCloseDue(s: Supervisor, now: nat): Option<nat> {
    if s.completed || s.Terminating() || s.directChildClosed then None else Some(now + 2 * PROCESS_GROUP_POLL_MS)
  }

  function ScheduleExitCloseCheck(s: Supervisor, now: nat): Supervisor {
    s.(timers := s.timers.(exitClose := ExitCloseDue(s, now)))
  }

  function GraceMs(s: Supervisor): int {
    Min(DEFAULT_EXIT_CLOSE_GRACE_MS, Max(250, s.confirmMs))
  }

  function Fired(s: Supervisor): Supervisor { s.(timers := s.timers.(exitClose := None)) }

  function OnExitCloseFires(s: Supervisor, backpressured: bool, now: nat, group: GroupState): Supervisor {
    if s.timers.exitClose == None then s
    else if s.completed || s.Terminating() || s.directChildClosed then Fired(s)
    else CheckExitClose(Fired(s), backpressured, now, group)
  }

  function CheckExitClose(s: Supervisor, backpressured: bool, now: nat, group: GroupState): Supervisor {
    var seen := if backpressured then s.(lastOutputAt := now) else s;
    if now - Max(seen.exitObservedAt, seen.lastOutputAt) >= GraceMs(seen) then RequestTermination(seen, DescendantAfterExit, group)
    else ScheduleExitCloseCheck(seen, now)
  }

  function OnPayloadClose(s: Supervisor, code: Option<int>, now: nat, group: GroupState): Supervisor {
    var closed := RecordExit(s.(directChildClosed := true), code, now);
    if s.completed || s.Terminating() then closed else Closed(ClearTimers(closed), group)
  }

  function CloseReason(s: Supervisor): Reason {
    if s.spawnFailed then SpawnFailed else PayloadClosed
  }

  function Closed(s: Supervisor, group: GroupState): Supervisor {
    if s.windows then Complete(s, CloseReason(s), false, false, false)
    else if Probe(s, group).GroupAbsent? then Complete(Observe(s, group), CloseReason(s), false, true, false)
    else RequestTermination(s, DescendantAfterExit, group)
  }

  function OnPayloadError(s: Supervisor): Supervisor {
    var failed := s.(spawnFailed := true);
    if s.payloadPid == 0 then Complete(failed, SpawnFailed, false, false, false) else failed
  }

  predicate Input(e: Event) {
    e.LaunchMessage? || e.HeartbeatMessage? || e.TerminateMessage? || e.OtherMessage? || e.LineTooLarge? || e.StdinEnd? || e.StdinError?
  }

  predicate TimerEvent(e: Event) { e.TimeoutFires? || e.WatchdogFires? || e.ExitCloseFires? }

  predicate PayloadEvent(e: Event) { e.PayloadOutput? || e.PayloadError? || e.PayloadExit? || e.PayloadClose? }

  /** Standard input: its messages and its end.  The listeners are gone once the supervisor has completed. */
  function OnInput(s: Supervisor, at: Stimulus): Supervisor
    requires Input(at.event)
  {
    match at.event
    case LaunchMessage(valid, options, spawned) => OnLaunchMessage(s, valid, options, spawned, at.now, at.group)
    case HeartbeatMessage(deadlineAt) => AfterFirst(s, OnHeartbeat(s, deadlineAt, at.now, at.group), at.group)
    case TerminateMessage(reason) => AfterFirst(s, RequestTermination(s, reason, at.group), at.group)
    case OtherMessage(parses) =>
      if parses then AfterFirst(s, ProtocolFailure(s, UnknownMessageType, at.group), at.group) else ProtocolFailure(s, InvalidMessage, at.group)
    case LineTooLarge => ProtocolFailure(s, ControlLineTooLarge, at.group)
    case StdinEnd => OnStdinEnd(s, at.group)
    case StdinError => if s.completed then s else RequestTermination(s, StdinClosed, at.group)
  }

  function OnTimer(s: Supervisor, at: Stimulus): Supervisor
    requires TimerEvent(at.event)
  {
    match at.event
    case TimeoutFires => OnTimeoutFires(s, at.group)
    case WatchdogFires => OnWatchdogFires(s, at.now, at.group)
    case ExitCloseFires(backpressured) => OnExitCloseFires(s, backpressured, at.now, at.group)
  }

  /** Events of the payload, which need a payload. */
  function OnPayload(s: Supervisor, at: Stimulus): Supervisor
    requires PayloadEvent(at.event)
  {
    if !s.hasPayload then s
    else
      match at.event
      case PayloadOutput => s.(lastOutputAt := at.now)
      case PayloadError => OnPayloadError(s)
      case PayloadExit(code) => ScheduleExitCloseCheck(RecordExit(s, code, at.now), at.now)
      case PayloadClose(code) => OnPayloadClose(s, code, at.now, at.group)
  }

  /** Signals and the two output channels. */
  function OnOutside(s: Supervisor, at: Stimulus): Supervisor {
    match at.event
    case ChannelClosed(reason) => if s.completed || !s.hasPayload then s else RequestTermination(s, reason, at.group)
    case ControlLost => s.(controlAvailable := false)
    case _ => RequestTermination(s, SupervisorSignal, at.group)
  }

  function Step(s: Supervisor, at: Stimulus): Supervisor {
    if Continuation(at.event) then Resume(s, at)
    else if Input(at.event) then OnInput(s, at)
    else if TimerEvent(at.event) then OnTimer(s, at)
    else if PayloadEvent(at.event) then OnPayload(s, at)
    else OnOutside(s, at)
  }

  function Run(s: Supervisor, events: seq<Stimulus>): Supervisor {
    if events == [] then s else Step(Run(s, events[..|events| - 1]), events[|events| - 1])
  }
}
