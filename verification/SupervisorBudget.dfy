/**
 How long Windows termination may wait: the bounded waits of every path through it, added up over any
 run, against the closed form the supervisor promises its bridge.
 */
module SupervisorBudget {
  import opened Options
  import opened SupervisorModel
  import opened SupervisorVerdict
  import opened SupervisorRuns
  import SupervisorTimers

  // lib/run-command.js: how long the bridge waits before it kills the supervisor.
  const SUPERVISOR_TERMINATION_FALLBACK_MS := 2 * 5000 + 2 * 5000 + 250 + 1000 + 5000 + 5000

  /** windowsTerminationBudgetMs; 0 stands for a missing confirmation time. */
  function BudgetMs(terminationConfirmMs: nat): nat {
    var confirmMs := Max(1, if terminationConfirmMs == 0 then DEFAULT_TERMINATION_CONFIRM_MS else terminationConfirmMs);
    2 * Max(1000, confirmMs) + 3 * confirmMs + 250
  }

  /** The time limit of the wait that a phase stands for. */
  function WaitMs(p: Phase, confirmMs: nat): nat {
    match p
    case WinFirstKill => Max(1000, confirmMs)
    case WinFirstPoll(_) => confirmMs
    case WinPause(_) => 250
    case WinRetryKill(_) => Max(1000, confirmMs)
    case WinRetryPoll(_) => confirmMs
    case WinCloseWait(_) => confirmMs
    case WinExitClose => Min(confirmMs, 1000)
    case WinSnapshot => Max(1000, confirmMs)
    case WinVerifiedKill => Max(1000, confirmMs)
    case WinExitFinalClose(_, _) => confirmMs
    case _ => 0
  }

  /** The most that all waits from a phase on can take. */
  function RemainingMs(p: Phase, c: nat): nat {
    match p
    case WinFirstKill => 2 * Max(1000, c) + 3 * c + 250
    case WinFirstPoll(_) => Max(1000, c) + 3 * c + 250
    case WinPause(_) => 250 + Max(1000, c) + 2 * c
    case WinRetryKill(_) => Max(1000, c) + 2 * c
    case WinRetryPoll(_) => 2 * c
    case WinCloseWait(_) => c
    case WinExitClose => Min(c, 1000) + 2 * Max(1000, c) + c
    case WinSnapshot => 2 * Max(1000, c) + c
    case WinVerifiedKill => Max(1000, c) + c
    case WinExitFinalClose(_, _) => c
    case _ => 0
  }

  /** The wait that a step ends, at its limit. */
  function Spent(s: Supervisor, at: Stimulus): nat {
    if Step(s, at).phase != s.phase then WaitMs(s.phase, s.confirmMs) else 0
  }

  function TotalWaitMs(s: Supervisor, events: seq<Stimulus>): nat {
    if events == [] then 0
    else TotalWaitMs(s, events[..|events| - 1]) + Spent(Run(s, events[..|events| - 1]), events[|events| - 1])
  }

  // ---------------------------------------------------------------- one step

  function TermOf(s: Supervisor): (bool, nat) { (s.windows, s.confirmMs) }

  lemma ApplyKeepsTerm(s: Supervisor, move: Move)
    ensures TermOf(Apply(s, move)) == TermOf(s)
  {
    match move
    case GiveUp => assert TermOf(Emit(s, TerminationUnconfirmed(s.terminationReason))) == TermOf(s);
    case _ =>
  }

  function PhaseAfter(s: Supervisor, move: Move): Phase {
    match move
    case Stay => s.phase
    case Wait(next) => next
    case _ => Settled
  }

  lemma ApplyPhase(s: Supervisor, move: Move)
    ensures Apply(s, move).phase == PhaseAfter(s, move)
  {
  }

  /** A wait's limit and whatever can follow it fit into what was left. */
  lemma MoveFits(s: Supervisor, at: Stimulus, c: nat)
    requires Continuation(at.event)
    ensures var next := PhaseAfter(s, NextMove(s, at));
            next != s.phase ==> WaitMs(s.phase, c) + RemainingMs(next, c) <= RemainingMs(s.phase, c)
  {
    match at.event
    case GroupPollEnds =>
    case CloseWaitEnds =>
    case TaskkillEnds(kill) =>
    case ExitPollEnds =>
    case PauseEnds =>
    case SnapshotEnds(ok) =>
    case VerifiedKillEnds(ok) =>
    case TerminationThrows =>
  }

  /** Once a termination is under way, only its own awaits move it. */
  function RoutineOf(s: Supervisor): (Phase, bool, nat) { (s.phase, s.windows, s.confirmMs) }

  lemma FailureWaits(s: Supervisor, code: Fault, group: GroupState)
    requires s.Terminating() && (s.completed || s.payloadPid > 0)
    ensures RoutineOf(ProtocolFailure(s, code, group)) == RoutineOf(s)
  {
  }

  lemma InputWaits(s: Supervisor, at: Stimulus)
    requires Good(s) && s.Terminating() && Input(at.event)
    ensures RoutineOf(OnInput(s, at)) == RoutineOf(s)
  {
    match at.event
    case LaunchMessage(valid, options, spawned) => if !s.completed { FailureWaits(s, DuplicateLaunch, at.group); }
    case OtherMessage(parses) =>
      FailureWaits(s, UnknownMessageType, at.group);
      FailureWaits(s, InvalidMessage, at.group);
    case LineTooLarge => FailureWaits(s, ControlLineTooLarge, at.group);
    case _ =>
  }

  lemma TimerWaits(s: Supervisor, at: Stimulus)
    requires Good(s) && s.Terminating() && TimerEvent(at.event)
    ensures OnTimer(s, at) == s
  {
  }

  lemma ErrorWaits(s: Supervisor)
    ensures RoutineOf(OnPayloadError(s)) == RoutineOf(s)
  {
    if s.payloadPid == 0 { assert RoutineOf(Complete(s.(spawnFailed := true), SpawnFailed, false, false, false)) == RoutineOf(s); }
  }

  lemma RecordWaits(s: Supervisor, code: Option<int>, now: nat)
    ensures RoutineOf(RecordExit(s, code, now)) == RoutineOf(s)
  {
  }

  lemma ExitWaits(s: Supervisor, code: Option<int>, now: nat)
    ensures RoutineOf(ScheduleExitCloseCheck(RecordExit(s, code, now), now)) == RoutineOf(s)
  {
    RecordWaits(s, code, now);
  }

  lemma CloseWaits(s: Supervisor, code: Option<int>, now: nat, group: GroupState)
    requires s.Terminating()
    ensures RoutineOf(OnPayloadClose(s, code, now, group)) == RoutineOf(s)
  {
    RecordWaits(s.(directChildClosed := true), code, now);
    assert OnPayloadClose(s, code, now, group) == RecordExit(s.(directChildClosed := true), code, now);
  }

  lemma PayloadWaits(s: Supervisor, at: Stimulus)
    requires s.Terminating() && PayloadEvent(at.event)
    ensures RoutineOf(OnPayload(s, at)) == RoutineOf(s)
  {
    match at.event
    case PayloadOutput =>
    case PayloadError => ErrorWaits(s);
    case PayloadExit(code) => ExitWaits(s, code, at.now);
    case PayloadClose(code) => CloseWaits(s, code, at.now, at.group);
  }

  lemma OthersWait(s: Supervisor, at: Stimulus)
    requires Good(s) && s.Terminating() && !Continuation(at.event)
    ensures RoutineOf(Step(s, at)) == RoutineOf(s)
  {
    if Input(at.event) { InputWaits(s, at); }
    else if TimerEvent(at.event) { TimerWaits(s, at); }
    else if PayloadEvent(at.event) { PayloadWaits(s, at); }
  }

  lemma StepFits(s: Supervisor, at: Stimulus)
    requires Good(s) && s.Terminating()
    ensures TermOf(Step(s, at)) == TermOf(s)
    ensures Spent(s, at) + RemainingMs(Step(s, at).phase, s.confirmMs) <= RemainingMs(s.phase, s.confirmMs)
    ensures Step(s, at).Terminating()
  {
    if Continuation(at.event) {
      var polled := if PollsGroup(s, at) then Observe(s, at.group) else s;
      ApplyKeepsTerm(polled, NextMove(s, at));
      ApplyPhase(polled, NextMove(s, at));
      MoveFits(s, at, s.confirmMs);
      SupervisorTimers.ResumeEnds(s, at);
    } else {
      OthersWait(s, at);
    }
  }

  lemma {:induction false} RunFits(s: Supervisor, events: seq<Stimulus>)
    requires Good(s) && s.Terminating()
    ensures var t := Run(s, events);
            Good(t) && t.Terminating() && TermOf(t) == TermOf(s) && TotalWaitMs(s, events) + RemainingMs(t.phase, s.confirmMs) <= RemainingMs(s.phase, s.confirmMs)
  {
    if events != [] {
      RunFits(s, events[..|events| - 1]);
      StepGood(Run(s, events[..|events| - 1]), events[|events| - 1]);
      StepFits(Run(s, events[..|events| - 1]), events[|events| - 1]);
    }
  }

  // ---------------------------------------------------------------- the budget

  lemma StartRemaining(s: Supervisor, reason: Reason, group: GroupState)
    requires Good(s) && s.windows && !s.Terminating() && s.payloadPid > 0
    ensures var t := RequestTermination(s, reason, group);
            && TermOf(t) == TermOf(s)
            && RemainingMs(t.phase, s.confirmMs) <= BudgetMs(s.confirmMs)
            && (s.payloadExited ==> RemainingMs(t.phase, s.confirmMs) < BudgetMs(s.confirmMs))
  {
    ApplyKeepsTerm(Observe(Asked(s, reason), group), FirstMove(s, group));
    ApplyPhase(Observe(Asked(s, reason), group), FirstMove(s, group));
  }

  /**
   However events interleave with a requested Windows termination, its bounded waits add up to no more
   than the budget; strictly less when the payload had already exited.
   */
  lemma WindowsTerminationInBudget(s: Supervisor, reason: Reason, group: GroupState, events: seq<Stimulus>)
    requires Reachable(s) && s.windows && !s.Terminating() && s.payloadPid > 0
    ensures TotalWaitMs(RequestTermination(s, reason, group), events) <= BudgetMs(s.confirmMs)
    ensures s.payloadExited ==> TotalWaitMs(RequestTermination(s, reason, group), events) < BudgetMs(s.confirmMs)
  {
    ReachableGood(s);
    var t := RequestTermination(s, reason, group);
    RequestGood(s, reason, group);
    StartRemaining(s, reason, group);
    SupervisorTimers.RequestEnds(s, reason, group);
    RunFits(t, events);
  }

  lemma DefaultBudget()
    ensures BudgetMs(0) == BudgetMs(5000) == 25250 < SUPERVISOR_TERMINATION_FALLBACK_MS == 31250
  {
  }

  /** A wait of the Windows routine that ends in another wait. */
  lemma Advance(s: Supervisor, event: Event, next: Phase) returns (t: Supervisor)
    requires Continuation(event) && !event.GroupPollEnds?
    requires var at := Stimulus(0, GroupUnknown, event); NextMove(s, at) == Wait(next) && next != s.phase
    ensures t == Step(s, Stimulus(0, GroupUnknown, event)) == s.(phase := next, taskkillAfterExit := t.taskkillAfterExit)
    ensures Spent(s, Stimulus(0, GroupUnknown, event)) == WaitMs(s.phase, s.confirmMs)
  {
    t := Step(s, Stimulus(0, GroupUnknown, event));
  }

  lemma TotalSnoc(s: Supervisor, events: seq<Stimulus>, at: Stimulus)
    ensures Run(s, events + [at]) == Step(Run(s, events), at)
    ensures TotalWaitMs(s, events + [at]) == TotalWaitMs(s, events) + Spent(Run(s, events), at)
  {
    RunSnoc(s, events, at);
    assert (events + [at])[..|events|] == events;
  }

  /** The first taskkill timed out, and the child outlived its poll. */
  lemma SlowStart(s: Supervisor, start: Supervisor, before: seq<Stimulus>) returns (events: seq<Stimulus>, t: Supervisor)
    requires s.phase.WinFirstKill? && !s.payloadExited && s == Run(start, before)
    ensures t == Run(start, events) == s.(phase := WinPause(Taskkill(true, None, true)), taskkillAfterExit := t.taskkillAfterExit)
    ensures TotalWaitMs(start, events) == TotalWaitMs(start, before) + Max(1000, s.confirmMs) + s.confirmMs
  {
    var slow := Taskkill(true, None, true);
    var e1, e2 := Stimulus(0, GroupUnknown, TaskkillEnds(slow)), Stimulus(0, GroupUnknown, ExitPollEnds);
    var s1 := Advance(s, TaskkillEnds(slow), WinFirstPoll(slow));
    t := Advance(s1, ExitPollEnds, WinPause(slow));
    TotalSnoc(start, before, e1);
    TotalSnoc(start, before + [e1], e2);
    events := before + [e1] + [e2];
  }

  /** The retried taskkill succeeds at its limit. */
  lemma SlowRetry(s: Supervisor, start: Supervisor, before: seq<Stimulus>) returns (events: seq<Stimulus>, t: Supervisor)
    requires s.phase.WinPause? && s.payloadPid > 0 && !s.payloadExited && s == Run(start, before)
    ensures t == Run(start, events) == s.(phase := WinRetryPoll(Taskkill(true, Some(0), false)), taskkillAfterExit := t.taskkillAfterExit)
    ensures TotalWaitMs(start, events) == TotalWaitMs(start, before) + 250 + Max(1000, s.confirmMs)
  {
    var killed := Taskkill(true, Some(0), false);
    var e3, e4 := Stimulus(0, GroupUnknown, PauseEnds), Stimulus(0, GroupUnknown, TaskkillEnds(killed));
    var s3 := Advance(s, PauseEnds, WinRetryKill(s.phase.kill));
    t := Advance(s3, TaskkillEnds(killed), WinRetryPoll(killed));
    TotalSnoc(start, before, e3);
    TotalSnoc(start, before + [e3], e4);
    events := before + [e3] + [e4];
  }

  /** The child dies at the end of its second poll. */
  lemma Dies(s: Supervisor) returns (t: Supervisor)
    requires s.phase.WinRetryPoll? && s.hasPayload && !s.payloadExited && !s.directChildClosed
    ensures t == Step(s, Stimulus(0, GroupUnknown, PayloadExit(None))) && Spent(s, Stimulus(0, GroupUnknown, PayloadExit(None))) == 0
    ensures t.phase == s.phase && t.confirmMs == s.confirmMs && t.payloadExited && !t.directChildClosed
  {
    t := Step(s, Stimulus(0, GroupUnknown, PayloadExit(None)));
    ExitWaits(s, None, 0);
  }

  /** Its pipes never close. */
  lemma NeverCloses(s: Supervisor)
    requires s.phase.WinCloseWait? && !s.directChildClosed
    ensures Spent(s, Stimulus(0, GroupUnknown, CloseWaitEnds)) == s.confirmMs
  {
    assert NextMove(s, Stimulus(0, GroupUnknown, CloseWaitEnds)) == GiveUp;
    ApplyPhase(s, GiveUp);
  }

  /** It dies at the end of the second poll, and the wait for its pipes runs out. */
  lemma SlowDeath(s: Supervisor, start: Supervisor, before: seq<Stimulus>) returns (events: seq<Stimulus>)
    requires s.phase.WinRetryPoll? && s.hasPayload && !s.payloadExited && !s.directChildClosed && s == Run(start, before)
    ensures TotalWaitMs(start, events) == TotalWaitMs(start, before) + 2 * s.confirmMs
  {
    var exit, poll, close := Stimulus(0, GroupUnknown, PayloadExit(None)), Stimulus(0, GroupUnknown, ExitPollEnds), Stimulus(0, GroupUnknown, CloseWaitEnds);
    var dead := Dies(s);
    var open := Advance(dead, ExitPollEnds, WinCloseWait(dead.phase.kill));
    NeverCloses(open);
    TotalSnoc(start, before, exit);
    TotalSnoc(start, before + [exit], poll);
    TotalSnoc(start, before + [exit] + [poll], close);
    events := before + [exit] + [poll] + [close];
  }

  /** From the first taskkill on, a payload that dies only at the end of the second poll and never closes its pipes uses all of it. */
  lemma SlowestEnd(s: Supervisor, start: Supervisor, before: seq<Stimulus>) returns (events: seq<Stimulus>)
    requires s.phase.WinFirstKill? && s.payloadPid > 0 && s.hasPayload && !s.payloadExited && !s.directChildClosed && s.confirmMs >= 1
    requires s == Run(start, before)
    ensures TotalWaitMs(start, events) == TotalWaitMs(start, before) + BudgetMs(s.confirmMs)
  {
    var first, paused := SlowStart(s, start, before);
    var slow, killed := SlowRetry(paused, start, first);
    events := SlowDeath(killed, start, slow);
  }

  /** On Windows: a payload is launched with this confirmation time, and a signal asks for its end. */
  lemma WindowsStart(pid: nat, c: nat) returns (events: seq<Stimulus>, s: Supervisor)
    requires pid > 0 && c >= 1
    ensures s == Run(Initial(true, true), events) && TotalWaitMs(Initial(true, true), events) == 0
    ensures s.phase.WinFirstKill? && s.payloadPid == pid && s.hasPayload && !s.payloadExited && !s.directChildClosed && s.confirmMs == c
  {
    var start, options := Initial(true, true), LaunchOptions(0, 0, 0, c);
    var launch := Stimulus(0, GroupUnknown, LaunchMessage(true, options, SpawnReturns(pid)));
    var signal := Stimulus(1, GroupUnknown, Signal);
    var running := Step(start, launch);
    assert running == Started(Configured(start.(firstMessageSeen := true), options).(spawns := 1, hasPayload := true, payloadPid := pid), options, 0);
    s := Step(running, signal);
    assert FirstMove(running, GroupUnknown) == Wait(WinFirstKill);
    events := [] + [launch] + [signal];
    TotalSnoc(start, [], launch);
    TotalSnoc(start, [] + [launch], signal);
  }

  /** The budget is tight: for every confirmation time a run of a fresh supervisor on Windows uses all of it. */
  lemma BudgetIsAttained(pid: nat, c: nat) returns (events: seq<Stimulus>)
    requires pid > 0 && c >= 1
    ensures TotalWaitMs(Initial(true, true), events) == BudgetMs(c)
  {
    var before, s := WindowsStart(pid, c);
    events := SlowestEnd(s, Initial(true, true), before);
  }

  // ---------------------------------------------------------------- every wait ends

  /** The await of a phase ends with this event, at the latest when its limit passes. */
  function Deadline(p: Phase): Event {
    match p
    case PosixTermWait => GroupPollEnds
    case PosixKillWait => GroupPollEnds
    case WinFirstKill => TaskkillEnds(Taskkill(true, None, true))
    case WinRetryKill(_) => TaskkillEnds(Taskkill(true, None, true))
    case WinFirstPoll(_) => ExitPollEnds
    case WinRetryPoll(_) => ExitPollEnds
    case WinPause(_) => PauseEnds
    case WinSnapshot => SnapshotEnds(false)
    case WinVerifiedKill => VerifiedKillEnds(false)
    case _ => CloseWaitEnds
  }

  function Rank(p: Phase): nat {
    match p
    case WinFirstKill => 6
    case WinFirstPoll(_) => 5
    case WinPause(_) => 4
    case WinRetryKill(_) => 3
    case WinRetryPoll(_) => 2
    case WinCloseWait(_) => 1
    case WinExitClose => 4
    case WinSnapshot => 3
    case WinVerifiedKill => 2
    case WinExitFinalClose(_, _) => 1
    case PosixTermWait => 3
    case PosixKillWait => 2
    case PosixCloseWait => 1
    case _ => 0
  }

  lemma MovesShorten(s: Supervisor, at: Stimulus)
    requires Waiting(s) && Continuation(at.event)
    ensures NextMove(s, at).Stay? || Rank(PhaseAfter(s, NextMove(s, at))) < Rank(s.phase)
    ensures at.event == Deadline(s.phase) ==> !NextMove(s, at).Stay?
  {
  }

  /** No wait is stuck: the end of its time moves it on, and every move shortens what is left, so a verdict comes within six waits. */
  lemma EveryWaitEnds(s: Supervisor, at: Stimulus)
    requires Good(s) && Waiting(s)
    ensures Step(s, at).phase == s.phase || Rank(Step(s, at).phase) < Rank(s.phase) <= 6
    ensures at.event == Deadline(s.phase) ==> Step(s, at).phase != s.phase
  {
    if Continuation(at.event) {
      MovesShorten(s, at);
      ApplyPhase(if PollsGroup(s, at) then Observe(s, at.group) else s, NextMove(s, at));
    } else {
      OthersWait(s, at);
    }
  }

  // ---------------------------------------------------------------- the polls

  /** When pollUntil looks: at once, every 50 ms, and last at its deadline. */
  predicate LooksAt(start: nat, deadline: nat, t: nat) {
    start <= t <= deadline && ((t - start) % PROCESS_GROUP_POLL_MS == 0 || t == deadline)
  }

  /**
   pollUntil: it stops at the first look that finds the condition true, and gives up at its deadline,
   never later, when no look does.
   */
  method PollUntil(probe: nat -> bool, start: nat, timeoutMs: int) returns (found: bool, now: nat)
    ensures start <= now <= start + Max(0, timeoutMs)
    ensures found == probe(now)
    ensures LooksAt(start, start + Max(0, timeoutMs), now)
    ensures forall t: nat :: LooksAt(start, start + Max(0, timeoutMs), t) && t < now ==> !probe(t)
    ensures !found ==> now == start + Max(0, timeoutMs)
  {
    var deadline := start + Max(0, timeoutMs);
    now := start;
    found := probe(now);
    while !found && now < deadline
      invariant start <= now <= deadline && found == probe(now)
      invariant LooksAt(start, deadline, now)
      invariant forall t: nat :: LooksAt(start, deadline, t) && t < now ==> !probe(t)
      decreases deadline - now
    {
      var before := now;
      now := now + Min(PROCESS_GROUP_POLL_MS, Max(1, deadline - now));
      found := probe(now);
      forall t: nat | before < t < now ensures !LooksAt(start, deadline, t) {
        NoLookBetween(before - start, t - start);
      }
    }
  }

  lemma NoLookBetween(a: nat, b: nat)
    requires a % PROCESS_GROUP_POLL_MS == 0 && a < b < a + PROCESS_GROUP_POLL_MS
    ensures b % PROCESS_GROUP_POLL_MS != 0
  {
  }
}
