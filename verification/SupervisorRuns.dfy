/**
 The supervisor's promises over whole runs: events in any order, any number of them, on either
 platform.
 */
module SupervisorRuns {
  import opened Options
  import opened SupervisorModel
  import opened SupervisorVerdict
  import opened SupervisorTimers

  lemma {:induction false} RunGood(windows: bool, identityValid: bool, events: seq<Stimulus>)
    ensures Good(Run(Initial(windows, identityValid), events)) && Armed(Run(Initial(windows, identityValid), events))
  {
    var s := Initial(windows, identityValid);
    if events == [] {
      InitialGood(windows, identityValid);
    } else {
      RunGood(windows, identityValid, events[..|events| - 1]);
      var before := Run(s, events[..|events| - 1]);
      StepGood(before, events[|events| - 1]);
      StepArmed(before, events[|events| - 1]);
    }
  }

  ghost predicate Reachable(s: Supervisor) {
    exists windows: bool, identityValid: bool, events: seq<Stimulus> :: s == Run(Initial(windows, identityValid), events)
  }

  lemma ReachableGood(s: Supervisor)
    requires Reachable(s)
    ensures Good(s) && Armed(s)
  {
    var windows: bool, identityValid: bool, events: seq<Stimulus> :| s == Run(Initial(windows, identityValid), events);
    RunGood(windows, identityValid, events);
  }

  // ---------------------------------------------------------------- verdicts

  /** In every run: at most one payload, never after its launch deadline, and no taskkill once its exit was seen. */
  lemma OnePayload(s: Supervisor)
    requires Reachable(s)
    ensures s.spawns <= 1 && !s.spawnAfterDeadline && !s.taskkillAfterExit
  {
    ReachableGood(s);
  }

  /** At most one exit event; only on POSIX can anything follow it, and then one unconfirmed notice after a natural close. */
  lemma OneExit(s: Supervisor, i: nat, j: nat)
    requires Reachable(s) && i <= j < |s.log| && s.log[i].Exit?
    ensures s.log[j].Exit? <==> i == j
    ensures i < j ==> !s.windows && !s.log[i].requested && s.log[j].TerminationUnconfirmed? && j == |s.log| - 1 == i + 1
  {
    ReachableGood(s);
    assert SoundEntry(s, i);
  }

  /**
   What an exit event claims is so: the whole tree is confirmed gone only when there never was a
   process, or when its group was seen empty and its pipes closed; best effort only on Windows, for an
   exited child whose pipes closed.
   */
  lemma ExitIsSound(s: Supervisor, i: nat)
    requires Reachable(s) && i < |s.log| && s.log[i].Exit?
    ensures s.completed && s.log[i].payloadPid == s.payloadPid
    ensures s.log[i].confirmed ==> s.payloadPid == 0 || (!s.windows && s.groupSeenAbsent && s.log[i].directChildClosed)
    ensures s.log[i].bestEffort ==> s.windows && s.log[i].payloadExited && s.log[i].directChildClosed
  {
    ReachableGood(s);
    assert SoundEntry(s, i);
  }

  /** The exit status a caller sees: 70 for an unconfirmed termination, and 0 only for a payload that closed by itself with 0. */
  lemma ExitStatusMeans(s: Supervisor, i: nat)
    requires Reachable(s) && i < |s.log| && s.log[i].Exit?
    ensures var e := s.log[i];
            && (e.requested && !e.confirmed && !e.bestEffort && !e.reason.SpawnFailed? && !e.reason.ProtocolBroken? ==> SupervisorExitCode(e) == 70)
            && (SupervisorExitCode(e) == 0 && e.payloadPid > 0 ==>
                  !e.requested && e.reason.PayloadClosed? && e.payloadExited && e.directChildClosed && e.payloadExitCode == Some(0))
  {
    ReachableGood(s);
    assert SoundEntry(s, i);
  }

  // ---------------------------------------------------------------- after the exit event

  /** A completed supervisor's late termination gives up. */
  predicate LateFailure(s: Supervisor, at: Stimulus) {
    && s.controlAvailable && Waiting(s)
    && ((s.phase.PosixKillWait? && at.event.GroupPollEnds? && !at.group.GroupAbsent?) || at.event.TerminationThrows?)
  }

  lemma CompletedInput(s: Supervisor, at: Stimulus)
    requires s.completed && Input(at.event)
    ensures OnInput(s, at) == s
  {
  }

  lemma CompletedTimer(s: Supervisor, at: Stimulus)
    requires Good(s) && s.completed && TimerEvent(at.event)
    ensures OnTimer(s, at) == s
  {
  }

  predicate SameStory(s: Supervisor, t: Supervisor) { t.log == s.log && t.phase == s.phase }

  lemma ErrorStory(s: Supervisor)
    requires s.completed
    ensures SameStory(s, OnPayloadError(s))
  {
    assert Complete(s.(spawnFailed := true), SpawnFailed, false, false, false) == s.(spawnFailed := true);
  }

  lemma RecordStory(s: Supervisor, code: Option<int>, now: nat)
    ensures SameStory(s, RecordExit(s, code, now)) && RecordExit(s, code, now).completed == s.completed
  {
  }

  lemma CloseStory(s: Supervisor, code: Option<int>, now: nat, group: GroupState)
    requires s.completed
    ensures SameStory(s, OnPayloadClose(s, code, now, group))
  {
    RecordStory(s.(directChildClosed := true), code, now);
    assert OnPayloadClose(s, code, now, group) == RecordExit(s.(directChildClosed := true), code, now);
  }

  lemma ExitStory(s: Supervisor, code: Option<int>, now: nat)
    ensures SameStory(s, ScheduleExitCloseCheck(RecordExit(s, code, now), now))
  {
    RecordStory(s, code, now);
  }

  lemma CompletedPayload(s: Supervisor, at: Stimulus)
    requires s.completed && PayloadEvent(at.event)
    ensures SameStory(s, OnPayload(s, at))
  {
    if s.hasPayload {
      match at.event
      case PayloadOutput =>
      case PayloadError => ErrorStory(s);
      case PayloadExit(code) => ExitStory(s, code, at.now);
      case PayloadClose(code) => CloseStory(s, code, at.now, at.group);
    }
  }

  lemma CompletedRequest(s: Supervisor, reason: Reason, group: GroupState)
    requires Good(s) && s.completed
    ensures RequestTermination(s, reason, group).log == s.log
  {
    if !s.Terminating() { FirstMoveSound(s, reason, group); }
  }

  /** After its exit event a supervisor writes nothing more, except the notice of a late termination that gives up. */
  lemma SilentAfterExit(s: Supervisor, at: Stimulus)
    requires Good(s) && s.completed
    ensures Step(s, at).log != s.log <==> LateFailure(s, at)
  {
    if Continuation(at.event) {
      CompletedResume(s, at);
    } else if Input(at.event) {
      CompletedInput(s, at);
    } else if TimerEvent(at.event) {
      CompletedTimer(s, at);
    } else if PayloadEvent(at.event) {
      CompletedPayload(s, at);
    } else {
      CompletedRequest(s, SupervisorSignal, at.group);
    }
  }

  lemma CompletedResume(s: Supervisor, at: Stimulus)
    requires Good(s) && s.completed && Continuation(at.event)
    ensures Resume(s, at).log != s.log <==> LateFailure(s, at)
  {
    NoMoveUnlessWaiting(s, at);
    NextMoveSound(s, at);
  }

  /** And only a signal can start such a termination, once the payload has closed by itself with its group gone and now back. */
  lemma OnlySignalsTerminateLate(s: Supervisor, at: Stimulus)
    requires Good(s) && s.completed && !Waiting(s)
    ensures Waiting(Step(s, at)) <==>
            at.event.Signal? && !s.windows && s.payloadPid > 0 && s.phase.NotRequested? && !at.group.GroupAbsent?
  {
    if Continuation(at.event) {
      NoMoveUnlessWaiting(s, at);
    } else if Input(at.event) {
      CompletedInput(s, at);
    } else if TimerEvent(at.event) {
      CompletedTimer(s, at);
    } else if PayloadEvent(at.event) {
      CompletedPayload(s, at);
    } else if at.event.Signal? && !s.Terminating() {
      FirstMoveSound(s, SupervisorSignal, at.group);
    }
  }

  /** One step at a time. */
  lemma RunSnoc(s: Supervisor, events: seq<Stimulus>, at: Stimulus)
    ensures Run(s, events + [at]) == Step(Run(s, events), at)
  {
    assert (events + [at])[..|events|] == events;
  }

  lemma NaturalClose(pid: nat) returns (events: seq<Stimulus>, s: Supervisor)
    requires pid > 0
    ensures s == Run(Initial(false, true), events)
    ensures s.completed && s.controlAvailable && !s.windows && s.payloadPid == pid && s.hasPayload && s.phase.NotRequested? && s.directChildClosed
    ensures s.log == [Ready, Launched(pid), Exit(PayloadClosed, false, true, false, Some(0), pid, true, true)]
  {
    var start := Initial(false, true);
    var launch := Stimulus(0, GroupUnknown, LaunchMessage(true, LaunchOptions(0, 0, 0, 0), SpawnReturns(pid)));
    var close := Stimulus(1, GroupAbsent, PayloadClose(Some(0)));
    var running := Step(start, launch);
    assert running == Started(Configured(start.(firstMessageSeen := true), LaunchOptions(0, 0, 0, 0)).(spawns := 1, hasPayload := true, payloadPid := pid),
                              LaunchOptions(0, 0, 0, 0), 0);
    assert running.log == [Ready, Launched(pid)];
    s := Step(running, close);
    events := [launch, close];
    RunSnoc(start, [], launch);
    RunSnoc(start, [launch], close);
    assert [] + [launch] == [launch] && [launch] + [close] == events;
  }

  lemma LateSignal(s: Supervisor, now: nat)
    requires s.completed && !s.windows && s.payloadPid > 0 && s.hasPayload && s.phase.NotRequested?
    ensures Step(s, Stimulus(now, GroupPresent, Signal)) == Observe(Asked(s, SupervisorSignal), GroupPresent).(phase := PosixTermWait)
  {
    assert FirstMove(s, GroupPresent) == Wait(PosixTermWait);
  }

  lemma LateTermPoll(s: Supervisor, now: nat)
    requires !s.windows && s.payloadPid > 0 && s.phase.PosixTermWait?
    ensures Step(s, Stimulus(now, GroupPresent, GroupPollEnds)) == Observe(s, GroupPresent).(phase := PosixKillWait)
  {
    assert NextMove(s, Stimulus(now, GroupPresent, GroupPollEnds)) == Wait(PosixKillWait);
  }

  lemma LateKillPoll(s: Supervisor, now: nat)
    requires s.completed && !s.windows && s.payloadPid > 0 && s.phase.PosixKillWait?
    ensures Step(s, Stimulus(now, GroupPresent, GroupPollEnds)).log == Written(s, [TerminationUnconfirmed(s.terminationReason)])
  {
    assert NextMove(s, Stimulus(now, GroupPresent, GroupPollEnds)) == GiveUp;
  }

  /** The exception is real: after a natural close a signal meets a reused process group, and a notice follows the exit event. */
  lemma NoticeAfterExit(pid: nat) returns (events: seq<Stimulus>)
    requires pid > 0
    ensures var log := Run(Initial(false, true), events).log; |log| == 4 && log[2].Exit? && log[3] == TerminationUnconfirmed(SupervisorSignal)
  {
    var closed, s := NaturalClose(pid);
    var signal := Stimulus(2, GroupPresent, Signal);
    var poll := Stimulus(3, GroupPresent, GroupPollEnds);
    LateSignal(s, 2);
    LateTermPoll(Step(s, signal), 3);
    LateKillPoll(Step(Step(s, signal), poll), 3);
    events := closed + [signal] + [poll] + [poll];
    RunSnoc(Initial(false, true), closed, signal);
    RunSnoc(Initial(false, true), closed + [signal], poll);
    RunSnoc(Initial(false, true), closed + [signal] + [poll], poll);
  }

  // ---------------------------------------------------------------- the watchdog over a run

  /** No event is handled after an armed watchdog was due, and the watchdog itself is not early. */
  predicate OnTime(s: Supervisor, at: Stimulus) {
    s.timers.watchdog.Some? ==> at.now <= s.timers.watchdog.value && (at.event.WatchdogFires? ==> at.now == s.timers.watchdog.value)
  }

  ghost predicate PromptRun(s: Supervisor, events: seq<Stimulus>) {
    events == [] || (PromptRun(s, events[..|events| - 1]) && OnTime(Run(s, events[..|events| - 1]), events[|events| - 1]))
  }

  predicate Silent(events: seq<Stimulus>) {
    forall k :: 0 <= k < |events| ==> !events[k].event.HeartbeatMessage?
  }

  // What leaves the watchdog's allowance alone: everything but a heartbeat, once the payload runs.

  /** What a launched payload's messages other than heartbeats leave alone. */
  function LaunchOf(s: Supervisor): (Watch, nat, bool) { (s.watch, s.payloadPid, s.firstMessageSeen) }

  lemma CompleteKeepsLaunch(s: Supervisor, reason: Reason, requested: bool, confirmed: bool, bestEffort: bool)
    ensures LaunchOf(Complete(s, reason, requested, confirmed, bestEffort)) == LaunchOf(s)
  {
  }

  lemma ApplyKeepsLaunch(s: Supervisor, move: Move)
    ensures LaunchOf(Apply(s, move)) == LaunchOf(s)
  {
    match move
    case Confirm => CompleteKeepsLaunch(s, s.terminationReason, true, true, false);
    case BestEffort => CompleteKeepsLaunch(s, s.terminationReason, true, false, true);
    case GiveUp => CompleteKeepsLaunch(Emit(s, TerminationUnconfirmed(s.terminationReason)), s.terminationReason, true, false, false);
    case _ =>
  }

  lemma RequestKeepsLaunch(s: Supervisor, reason: Reason, group: GroupState)
    ensures LaunchOf(RequestTermination(s, reason, group)) == LaunchOf(s)
  {
    if !s.Terminating() { ApplyKeepsLaunch(Observe(Asked(s, reason), group), FirstMove(s, group)); }
  }

  lemma FailureKeepsLaunch(s: Supervisor, code: Fault, group: GroupState)
    ensures LaunchOf(ProtocolFailure(s, code, group)) == LaunchOf(s)
  {
    RequestKeepsLaunch(Emit(s, ProtocolError(code)), ProtocolBroken, group);
  }

  lemma InputKeepsLaunch(s: Supervisor, at: Stimulus)
    requires s.firstMessageSeen && Input(at.event) && !at.event.HeartbeatMessage?
    ensures LaunchOf(OnInput(s, at)) == LaunchOf(s)
  {
    match at.event
    case LaunchMessage(valid, options, spawned) => FailureKeepsLaunch(s, DuplicateLaunch, at.group);
    case TerminateMessage(reason) => RequestKeepsLaunch(s, reason, at.group);
    case OtherMessage(parses) =>
      FailureKeepsLaunch(s, UnknownMessageType, at.group);
      FailureKeepsLaunch(s, InvalidMessage, at.group);
    case LineTooLarge => FailureKeepsLaunch(s, ControlLineTooLarge, at.group);
    case _ => RequestKeepsLaunch(s, StdinClosed, at.group);
  }

  lemma CheckedKeepsLaunch(s: Supervisor, backpressured: bool, now: nat, group: GroupState)
    ensures LaunchOf(CheckExitClose(s, backpressured, now, group)) == LaunchOf(s)
  {
    var seen := if backpressured then s.(lastOutputAt := now) else s;
    RequestKeepsLaunch(seen, DescendantAfterExit, group);
    assert LaunchOf(ScheduleExitCloseCheck(seen, now)) == LaunchOf(s);
  }

  lemma CheckKeepsLaunch(s: Supervisor, backpressured: bool, now: nat, group: GroupState)
    ensures LaunchOf(OnExitCloseFires(s, backpressured, now, group)) == LaunchOf(s)
  {
    CheckedKeepsLaunch(Fired(s), backpressured, now, group);
  }

  lemma TimerKeepsLaunch(s: Supervisor, at: Stimulus)
    requires TimerEvent(at.event)
    ensures LaunchOf(OnTimer(s, at)) == LaunchOf(s)
  {
    match at.event
    case TimeoutFires => RequestKeepsLaunch(s.(timers := s.timers.(timeout := None)), TimedOut, at.group);
    case WatchdogFires => RequestKeepsLaunch(s, WatchdogExpired, at.group);
    case ExitCloseFires(backpressured) => CheckKeepsLaunch(s, backpressured, at.now, at.group);
  }

  lemma RecordKeepsLaunch(s: Supervisor, code: Option<int>, now: nat)
    ensures LaunchOf(RecordExit(s, code, now)) == LaunchOf(s)
  {
  }

  lemma ClosedKeepsLaunch(s: Supervisor, group: GroupState)
    ensures LaunchOf(Closed(s, group)) == LaunchOf(s)
  {
    RequestKeepsLaunch(s, DescendantAfterExit, group);
    CompleteKeepsLaunch(s, CloseReason(s), false, false, false);
    CompleteKeepsLaunch(Observe(s, group), CloseReason(s), false, true, false);
  }

  lemma CloseKeepsLaunch(s: Supervisor, code: Option<int>, now: nat, group: GroupState)
    ensures LaunchOf(OnPayloadClose(s, code, now, group)) == LaunchOf(s)
  {
    RecordKeepsLaunch(s.(directChildClosed := true), code, now);
    ClosedKeepsLaunch(ClearTimers(RecordExit(s.(directChildClosed := true), code, now)), group);
  }

  lemma ErrorKeepsLaunch(s: Supervisor)
    ensures LaunchOf(OnPayloadError(s)) == LaunchOf(s)
  {
    CompleteKeepsLaunch(s.(spawnFailed := true), SpawnFailed, false, false, false);
  }

  lemma PayloadKeepsLaunch(s: Supervisor, at: Stimulus)
    requires PayloadEvent(at.event)
    ensures LaunchOf(OnPayload(s, at)) == LaunchOf(s)
  {
    match at.event
    case PayloadClose(code) => CloseKeepsLaunch(s, code, at.now, at.group);
    case PayloadExit(code) => RecordKeepsLaunch(s, code, at.now);
    case PayloadError => ErrorKeepsLaunch(s);
    case PayloadOutput =>
  }

  lemma StepKeepsLaunch(s: Supervisor, at: Stimulus)
    requires s.firstMessageSeen && !at.event.HeartbeatMessage?
    ensures LaunchOf(Step(s, at)) == LaunchOf(s)
  {
    if Continuation(at.event) { ApplyKeepsLaunch(if PollsGroup(s, at) then Observe(s, at.group) else s, NextMove(s, at)); }
    else if Input(at.event) { InputKeepsLaunch(s, at); }
    else if TimerEvent(at.event) { TimerKeepsLaunch(s, at); }
    else if PayloadEvent(at.event) { PayloadKeepsLaunch(s, at); }
    else {
      match at.event
      case ChannelClosed(reason) => RequestKeepsLaunch(s, reason, at.group);
      case ControlLost =>
      case _ => RequestKeepsLaunch(s, SupervisorSignal, at.group);
    }
  }

  lemma {:induction false} SilentRun(s: Supervisor, events: seq<Stimulus>)
    requires s.firstMessageSeen && Silent(events)
    ensures LaunchOf(Run(s, events)) == LaunchOf(s)
  {
    if events != [] {
      SilentRun(s, events[..|events| - 1]);
      StepKeepsLaunch(Run(s, events[..|events| - 1]), events[|events| - 1]);
    }
  }

  lemma RunExtends(s: Supervisor, events: seq<Stimulus>, k: nat)
    requires Good(s) && Armed(s) && k <= |events|
    ensures Good(Run(s, events[..k])) && Armed(Run(s, events[..k]))
  {
    if k > 0 {
      RunExtends(s, events, k - 1);
      StepGood(Run(s, events[..k - 1]), events[k - 1]);
      StepArmed(Run(s, events[..k - 1]), events[k - 1]);
      assert events[..k][..k - 1] == events[..k - 1];
    }
  }

  lemma PromptAt(s: Supervisor, events: seq<Stimulus>, k: nat)
    requires PromptRun(s, events) && k < |events|
    ensures OnTime(Run(s, events[..k]), events[k])
  {
    if k < |events| - 1 {
      PromptAt(s, events[..|events| - 1], k);
      assert events[..|events| - 1][..k] == events[..k];
    }
  }

  /** Through a prompt silent run, a payload that still runs is still watched as it was. */
  lemma StillWatched(s: Supervisor, events: seq<Stimulus>, k: nat) returns (t: Supervisor)
    requires Reachable(s) && s.RunningPayload() && s.watch.ms > 0
    requires Silent(events) && PromptRun(s, events) && k < |events|
    ensures t == Run(s, events[..k]) && OnTime(t, events[k])
    ensures t.RunningPayload() ==> t.timers.watchdog == Some(WatchdogBound(s.watch)) && t.watch == s.watch
  {
    ReachableGood(s);
    RunExtends(s, events, k);
    SilentRun(s, events[..k]);
    PromptAt(s, events, k);
    t := Run(s, events[..k]);
  }

  /**
   A silent bridge loses its payload in time: from any reachable state of a running payload with a
   watchdog, through any prompt run without heartbeats, an event handled while the payload still runs
   comes no later than the last heartbeat plus the allowance, and no later than the durable deadline.
   */
  lemma SilenceTerminates(s: Supervisor, events: seq<Stimulus>, k: nat)
    requires Reachable(s) && s.RunningPayload() && s.watch.ms > 0
    requires Silent(events) && PromptRun(s, events) && k < |events|
    ensures Run(s, events[..k]).RunningPayload() ==>
              && events[k].now <= s.watch.lastHeartbeatAt + s.watch.ms
              && (s.watch.deadlineAt > 0 ==> events[k].now <= s.watch.deadlineAt)
  {
    var t := StillWatched(s, events, k);
    BoundIsTheEarlier(s.watch);
  }

  lemma BoundIsTheEarlier(w: Watch)
    ensures WatchdogBound(w) <= w.lastHeartbeatAt + w.ms
    ensures w.deadlineAt > 0 ==> WatchdogBound(w) <= w.deadlineAt
  {
  }

  /** And the watchdog's own firing, when it comes, requests the termination. */
  lemma WatchdogFiresOnce(s: Supervisor, events: seq<Stimulus>, k: nat)
    requires Reachable(s) && s.RunningPayload() && s.watch.ms > 0
    requires Silent(events) && PromptRun(s, events) && k < |events| && events[k].event.WatchdogFires?
    requires Run(s, events[..k]).RunningPayload()
    ensures OnWatchdogFires(Run(s, events[..k]), events[k].now, events[k].group).Terminating()
  {
    var t := StillWatched(s, events, k);
    WatchdogVerdict(t, events[k].now, events[k].group);
  }

  /** Whatever a heartbeat claims, it extends the authority to no more than its own deadline and one allowance. */
  lemma HeartbeatExtends(s: Supervisor, deadlineAt: nat, now: nat, group: GroupState)
    requires s.RunningPayload() && s.watch.ms > 0
    ensures if deadlineAt <= now then OnHeartbeat(s, deadlineAt, now, group).Terminating()
            else OnHeartbeat(s, deadlineAt, now, group).timers.watchdog == Some(Min(deadlineAt, now + s.watch.ms))
  {
    if deadlineAt <= now {
      RequestEnds(s, LeaseDeadlineInvalid, group);
    } else {
      var beaten := s.(watch := Watch(s.watch.ms, Min(now + s.watch.ms, deadlineAt), now));
      assert OnHeartbeat(s, deadlineAt, now, group) == ScheduleWatchdog(beaten, now);
      ScheduledAtBound(beaten, now);
    }
  }

  /** While an exited payload's pipes stay open, the check for survivors stays armed. */
  lemma ExitedPayloadIsChecked(s: Supervisor)
    requires Reachable(s) && s.RunningPayload() && s.payloadExited
    ensures s.timers.exitClose.Some? && !s.directChildClosed
  {
    ReachableGood(s);
  }

  /** And that check requests containment exactly when the pipes have been idle, and the payload gone, for the whole grace. */
  lemma IdlePipesAreContained(s: Supervisor, backpressured: bool, now: nat, group: GroupState)
    requires s.RunningPayload() && s.timers.exitClose.Some? && !s.directChildClosed && s.exitObservedAt <= now
    ensures CheckExitClose(Fired(s), backpressured, now, group).Terminating() <==>
            !backpressured && now >= s.exitObservedAt + GraceMs(s) && now >= s.lastOutputAt + GraceMs(s)
  {
    var seen := if backpressured then Fired(s).(lastOutputAt := now) else Fired(s);
    if now - Max(seen.exitObservedAt, seen.lastOutputAt) >= GraceMs(seen) { RequestEnds(seen, DescendantAfterExit, group); }
  }
}
