/** One operation's worker, its watchdog timers and any number of other threads racing to end it (OperationBase.cpp).
    A step is one atomic action of one thread. */
module Watchdog {
  import opened Core
  import opened Runs

  datatype Phase = AwaitingConsent | Authenticating | Reading | Done | Other(n: nat)

  predicate IsMachine(p: Phase) { p.Authenticating? || p.Reading? }

  datatype Outcome = WatchdogTimeout | Verdict(status: nat, code: nat)

  /** Where the worker is: in doWork, between the actions of setPhase, in finish, or past its end. */
  datatype Worker = Working | Arming | Disarming | Joining | Finishing | Quiescing | Gone

  /** Where a timer thread is. */
  datatype Timer = Waiting(stop: bool) | Expired | Latched | Cancelling | TimerFinishing | Exited

  type Timers = map<nat, Timer>

  datatype Who = TheWorker | TheTimer(id: nat) | Another(id: nat)

  /** The phase, the armed flag and the timer threads. `quiet` is for the statements: the worker has left a consent
      entry and entered no machine phase since. */
  datatype Timing = Timing(
    phase: Phase, armed: bool, worker: Worker, timers: Timers, started: nat, handle: Option<nat>, quiet: bool)

  /** The timeout's latch, with when it was set and whether a timer has tripped the cancel. */
  datatype Latch = Latch(fired: bool, firedAt: Option<nat>, cancelled: bool, cancelledByTimer: bool)

  datatype Stage = Checked | PhaseSet | Published | Marked

  /** The once flag of finish: free, being run by one caller, or spent. */
  datatype Once = Free | Busy(caller: Who, stage: Stage) | Spent

  /** The calls of finish, and what was published; with what the publishing call brought and when it checked the latch.
      */
  datatype Ending = Ending(
    once: Once, outcome: Outcome, finished: bool, inside: map<Who, Outcome>, log: seq<Outcome>, brought: Outcome,
    checkedAt: Option<nat>)

  datatype World = World(timing: Timing, latch: Latch, ending: Ending, clock: nat)

  const START := World(Timing(Other(0), false, Working, map[], 0, None, false), Latch(false, None, false, false),
                       Ending(Free, WatchdogTimeout, false, map[], [], WatchdogTimeout, None), 0)

  datatype Step =
    | SetPhase(phase: Phase)
    | Arm(starts: bool)
    | Disarm
    | Join
    | Quiesce
    | Wake(id: nat)
    | SetLatch(id: nat)
    | TripCancel(id: nat)
    | Cancel
    | CallFinish(who: Who, outcome: Outcome)
    | Take(who: Who)
    | Advance
    | Skip(who: Who)

  predicate At(timers: Timers, id: nat, t: Timer) { id in timers && timers[id] == t }

  predicate MayCall(w: World, who: Who, outcome: Outcome) {
    && who !in w.ending.inside
    && (who == TheWorker ==> w.timing.worker == Working)
    && (who.TheTimer? ==> At(w.timing.timers, who.id, Cancelling) && outcome == WatchdogTimeout)
  }

  predicate Enabled(w: World, s: Step) {
    match s
    case SetPhase(p) => w.timing.worker == Working && p != Done
    case Arm(_) => w.timing.worker == Arming
    case Disarm => w.timing.worker == Disarming
    case Join =>
      && (w.timing.worker == Joining || w.timing.worker == Quiescing)
      && w.timing.handle.Some? && At(w.timing.timers, w.timing.handle.value, Exited)
    case Quiesce => w.timing.worker == Working
    case Wake(id) => id in w.timing.timers && w.timing.timers[id].Waiting?
    case SetLatch(id) => At(w.timing.timers, id, Expired)
    case TripCancel(id) => At(w.timing.timers, id, Latched)
    case Cancel => true
    case CallFinish(who, outcome) => MayCall(w, who, outcome)
    case Take(who) => who in w.ending.inside && w.ending.once == Free
    case Advance => w.ending.once.Busy?
    case Skip(who) => who in w.ending.inside && w.ending.once == Spent
  }

  // --- the worker's setPhase ---------------------------------------------------------------------------

  /** The phase is exchanged; only a change arms or disarms, and only the flag decides whether to arm. */
  function PhaseChanged(t: Timing, p: Phase): Timing {
    if t.phase == p then t
    else if p == AwaitingConsent then t.(phase := p, worker := Disarming)
    else if !IsMachine(p) then t.(phase := p)
    else if t.armed then t.(phase := p, quiet := false)
    else t.(phase := p, armed := true, worker := Arming, quiet := false)
  }

  /** A timer is started, unless the timeout is zero or the thread cannot be made. */
  function Armed(t: Timing, starts: bool): Timing {
    if starts
    then t.(worker := Working, timers := t.timers[t.started := Waiting(false)], started := t.started + 1,
            handle := Some(t.started))
    else t.(worker := Working)
  }

  function Stopped(timers: Timers, id: nat): Timers {
    if id in timers && timers[id].Waiting? then timers[id := Waiting(true)] else timers
  }

  /** The flag is cleared first; a running timer is told to stop and then joined. */
  function Disarmed(t: Timing): Timing {
    if t.armed && t.handle.Some? then t.(armed := false, worker := Joining, timers := Stopped(t.timers, t.handle.value))
    else t.(armed := false, worker := Working, quiet := true)
  }

  function Joined(t: Timing): Timing {
    if t.worker == Joining then t.(handle := None, worker := Working, quiet := true)
    else t.(handle := None, worker := Gone)
  }

  function Quiesced(t: Timing): Timing {
    if t.handle.Some? then t.(worker := Quiescing, timers := Stopped(t.timers, t.handle.value)) else t.(worker := Gone)
  }

  /** The wait's predicate is asked again, whatever the wait returned. */
  function Woken(t: Timing, id: nat, finished: bool): Timing
    requires id in t.timers && t.timers[id].Waiting?
  {
    t.(timers := t.timers[id := if t.timers[id].stop || finished then Exited else Expired])
  }

  // --- finish -------------------------------------------------------------------------------------------

  function CallerEnters(t: Timing, who: Who): Timing {
    match who
    case TheWorker => t.(worker := Finishing)
    case TheTimer(id) => t.(timers := t.timers[id := TimerFinishing])
    case Another(_) => t
  }

  function CallerLeaves(t: Timing, who: Who): Timing {
    match who
    case TheWorker => t.(worker := Working)
    case TheTimer(id) => t.(timers := t.timers[id := Exited])
    case Another(_) => t
  }

  /** The call that gets the once flag looks at the latch, and from then on its outcome stands. */
  function Taken(e: Ending, who: Who, fired: bool, clock: nat): Ending
    requires who in e.inside
  {
    e.(once := Busy(who, Checked), brought := e.inside[who], checkedAt := Some(clock),
       outcome := if fired then WatchdogTimeout else e.inside[who])
  }

  function Advanced(e: Ending): Ending
    requires e.once.Busy?
  {
    match e.once.stage
    case Checked => e.(once := Busy(e.once.caller, PhaseSet))
    case PhaseSet => e.(once := Busy(e.once.caller, Published), log := e.log + [e.outcome])
    case Published => e.(once := Busy(e.once.caller, Marked), finished := true)
    case Marked => e.(once := Spent, inside := e.inside - {e.once.caller})
  }

  /** Publishing sets the phase to Done, which neither arms nor disarms; the last stage lets the caller go. */
  function TimingAdvanced(t: Timing, once: Once): Timing
    requires once.Busy?
  {
    if once.stage == Checked then t.(phase := Done)
    else if once.stage == Marked then CallerLeaves(t, once.caller)
    else t
  }

  function Effect(w: World, s: Step): World
    requires Enabled(w, s)
  {
    var t, l, e, now := w.timing, w.latch, w.ending, w.clock + 1;
    match s
    case SetPhase(p) => World(PhaseChanged(t, p), l, e, now)
    case Arm(starts) => World(Armed(t, starts), l, e, now)
    case Disarm => World(Disarmed(t), l, e, now)
    case Join => World(Joined(t), l, e, now)
    case Quiesce => World(Quiesced(t), l, e, now)
    case Wake(id) => World(Woken(t, id, e.finished), l, e, now)
    case SetLatch(id) =>
      World(t.(timers := t.timers[id := Latched]),
            l.(fired := true, firedAt := if l.fired then l.firedAt else Some(w.clock)), e, now)
    case TripCancel(id) =>
      World(t.(timers := t.timers[id := Cancelling]), l.(cancelled := true, cancelledByTimer := true), e, now)
    case Cancel => World(t, l.(cancelled := true), e, now)
    case CallFinish(who, outcome) => World(CallerEnters(t, who), l, e.(inside := e.inside[who := outcome]), now)
    case Take(who) => World(t, l, Taken(e, who, l.fired, w.clock), now)
    case Advance => World(TimingAdvanced(t, e.once), l, Advanced(e), now)
    case Skip(who) => World(CallerLeaves(t, who), l, e.(inside := e.inside - {who}), now)
  }

  /** A step that is not enabled does not happen. */
  function Apply(w: World, s: Step): World { if Enabled(w, s) then Effect(w, s) else w }

  // --- what every run keeps ----------------------------------------------------------------------------

  /** Only the timer the handle names can be alive. */
  ghost predicate OneTimer(timers: Timers, handle: Option<nat>, started: nat) {
    && (forall id <- timers :: id < started && (timers[id] != Exited ==> handle == Some(id)))
    && (handle.Some? ==> handle.value in timers)
  }

  /** The flag and the handle agree whenever the worker is not between them. */
  ghost predicate FlagMatches(t: Timing) {
    && (!t.armed && t.worker != Joining && t.worker != Quiescing ==> t.handle.None?)
    && (t.worker == Arming ==> t.armed && t.handle.None?)
    && (t.worker == Joining ==> !t.armed)
    && (t.worker == Joining || t.worker == Quiescing ==>
          t.handle.Some? && (t.handle.value in t.timers ==> t.timers[t.handle.value] != Waiting(false)))
    && (t.worker == Gone ==> t.handle.None?)
  }

  /** After the consent entry has returned, and until a machine phase, nothing is armed. */
  ghost predicate QuietMeansDisarmed(t: Timing) {
    && (t.quiet ==> !t.armed && t.worker != Arming && t.worker != Joining && t.handle.None?)
    && (t.phase == AwaitingConsent && t.worker != Disarming && t.worker != Joining ==> t.quiet)
  }

  ghost predicate TimingInv(t: Timing) {
    OneTimer(t.timers, t.handle, t.started) && FlagMatches(t) && QuietMeansDisarmed(t)
  }

  /** The terminal state is published once: by the one call that took the once flag, when it gets that far. */
  ghost predicate PublishedOnce(e: Ending) {
    match e.once
    case Free => e.log == [] && !e.finished
    case Busy(_, stage) =>
      && e.log == (if stage == Checked || stage == PhaseSet then [] else [e.outcome])
      && e.finished == (stage == Marked)
    case Spent => e.log == [e.outcome] && e.finished
  }

  /** The caller that runs finish is inside it, and everyone inside is where a caller of finish is. */
  ghost predicate CallersInside(once: Once, inside: map<Who, Outcome>, worker: Worker, timers: Timers) {
    && (once.Busy? ==> once.caller in inside)
    && (TheWorker in inside <==> worker == Finishing)
    && (forall id :: TheTimer(id) in inside <==> At(timers, id, TimerFinishing))
  }

  /** The latch comes before the timer's cancel, */
  ghost predicate LatchFirst(l: Latch, timers: Timers) {
    && (l.cancelledByTimer ==> l.fired)
    && (forall id <- timers ::
          timers[id] == Latched || timers[id] == Cancelling || timers[id] == TimerFinishing ==> l.fired)
  }

  /** and the publishing call honours every latch it could see. */
  ghost predicate VerdictHonoured(l: Latch, e: Ending, clock: nat) {
    && (l.fired <==> l.firedAt.Some?)
    && (l.firedAt.Some? ==> l.firedAt.value < clock)
    && (e.once == Free <==> e.checkedAt == None)
    && (e.checkedAt.Some? ==>
          && e.checkedAt.value < clock
          && e.outcome == if l.firedAt.Some? && l.firedAt.value < e.checkedAt.value then WatchdogTimeout else e.brought)
  }

  ghost predicate Inv(w: World) {
    && TimingInv(w.timing) && PublishedOnce(w.ending) && LatchFirst(w.latch, w.timing.timers)
    && CallersInside(w.ending.once, w.ending.inside, w.timing.worker, w.timing.timers)
    && VerdictHonoured(w.latch, w.ending, w.clock)
  }

  lemma {:induction false} WorkerStepsKeepTiming(w: World, s: Step)
    requires TimingInv(w.timing) && Enabled(w, s) && (s.SetPhase? || s.Arm? || s.Disarm? || s.Join? || s.Quiesce?)
    ensures TimingInv(Apply(w, s).timing)
  {
  }

  lemma {:induction false} OtherStepsKeepTiming(w: World, s: Step)
    requires Inv(w) && Enabled(w, s) && !(s.SetPhase? || s.Arm? || s.Disarm? || s.Join? || s.Quiesce?)
    ensures TimingInv(Apply(w, s).timing)
  {
  }

  lemma {:induction false} StepKeepsPublication(w: World, s: Step)
    requires PublishedOnce(w.ending) && Enabled(w, s)
    ensures PublishedOnce(Apply(w, s).ending)
  {
  }

  lemma {:induction false} StepKeepsLatch(w: World, s: Step)
    requires LatchFirst(w.latch, w.timing.timers) && Enabled(w, s)
    ensures LatchFirst(Apply(w, s).latch, Apply(w, s).timing.timers)
  {
  }

  ghost predicate CallersMatch(w: World) {
    CallersInside(w.ending.once, w.ending.inside, w.timing.worker, w.timing.timers)
  }

  predicate IsFinishStep(s: Step) { s.CallFinish? || s.Take? || s.Advance? || s.Skip? }

  lemma {:induction false} OtherStepsKeepCallers(w: World, s: Step)
    requires CallersMatch(w) && TimingInv(w.timing) && Enabled(w, s) && !IsFinishStep(s)
    ensures CallersMatch(Apply(w, s))
  {
    var r := Apply(w, s);
    assert forall id :: At(r.timing.timers, id, TimerFinishing) <==> At(w.timing.timers, id, TimerFinishing);
  }

  lemma {:induction false} CallKeepsCallers(w: World, who: Who, outcome: Outcome)
    requires CallersMatch(w) && MayCall(w, who, outcome)
    ensures CallersMatch(Apply(w, CallFinish(who, outcome)))
  {
  }

  lemma {:induction false} LeavingKeepsCallers(t: Timing, once: Once, inside: map<Who, Outcome>, who: Who)
    requires CallersInside(once, inside, t.worker, t.timers) && who in inside && (once.Busy? ==> once.caller == who)
    ensures var r := CallerLeaves(t, who); CallersInside(Spent, inside - {who}, r.worker, r.timers)
  {
  }

  lemma {:induction false} StepKeepsCallers(w: World, s: Step)
    requires CallersMatch(w) && TimingInv(w.timing) && Enabled(w, s)
    ensures CallersMatch(Apply(w, s))
  {
    match s
    case CallFinish(who, outcome) => CallKeepsCallers(w, who, outcome);
    case Take(who) =>
    case Advance =>
      if w.ending.once.stage == Marked {
        LeavingKeepsCallers(w.timing, w.ending.once, w.ending.inside, w.ending.once.caller);
      }
    case Skip(who) => LeavingKeepsCallers(w.timing, w.ending.once, w.ending.inside, who);
    case _ => OtherStepsKeepCallers(w, s);
  }

  lemma {:induction false} StepKeepsVerdict(w: World, s: Step)
    requires VerdictHonoured(w.latch, w.ending, w.clock) && Enabled(w, s)
    ensures VerdictHonoured(Apply(w, s).latch, Apply(w, s).ending, Apply(w, s).clock)
  {
  }

  // --- every run ------------------------------------------------------------------------------------------

  lemma {:induction false} StepKeeps(w: World, s: Step)
    requires Inv(w) && Enabled(w, s)
    ensures Inv(Apply(w, s))
  {
    if s.SetPhase? || s.Arm? || s.Disarm? || s.Join? || s.Quiesce? {
      WorkerStepsKeepTiming(w, s);
    } else {
      OtherStepsKeepTiming(w, s);
    }
    StepKeepsPublication(w, s);
    StepKeepsLatch(w, s);
    StepKeepsCallers(w, s);
    StepKeepsVerdict(w, s);
  }

  ghost const MACHINE := Machine(Enabled, Apply)

  ghost predicate IsRun(steps: seq<Step>) { CanRun(MACHINE, START, steps) }

  ghost function After(steps: seq<Step>): World { Ran(MACHINE, START, steps) }

  lemma {:induction false} EveryRunIsSound(steps: seq<Step>)
    requires IsRun(steps)
    ensures Inv(After(steps))
  {
    forall w, s | Inv(w) && Enabled(w, s) ensures Inv(Apply(w, s)) {
      StepKeeps(w, s);
    }
    RunsKeep(MACHINE, Inv, START, steps);
  }

  // --- what that says about any run -------------------------------------------------------------------------

  ghost predicate IsLive(w: World, id: nat) { id in w.timing.timers && w.timing.timers[id] != Exited }

  /** At most one terminal state is published, and exactly one once a call of finish has returned. */
  lemma {:induction false} OneTerminalState(steps: seq<Step>)
    requires IsRun(steps)
    ensures var e := After(steps).ending;
      && |e.log| <= 1 && (e.finished ==> |e.log| == 1) && (e.once == Spent ==> e.finished)
  {
    EveryRunIsSound(steps);
  }

  /** What is published is the watchdog's verdict if its latch was set before the publishing call checked it, and what
      that call brought if not; a timer trips the cancel only after the latch. */
  lemma {:induction false} TimeoutIsReportedAsTimeout(steps: seq<Step>)
    requires IsRun(steps)
    ensures var w := After(steps);
      && (w.ending.log != [] ==>
            && w.ending.checkedAt.Some?
            && w.ending.log[0] == if w.latch.firedAt.Some? && w.latch.firedAt.value < w.ending.checkedAt.value
                                  then WatchdogTimeout else w.ending.brought)
      && (w.latch.cancelledByTimer ==> w.latch.fired)
  {
    EveryRunIsSound(steps);
  }

  /** A call of finish that takes the once flag after a timer tripped the cancel publishes the timeout. */
  lemma {:induction false} WokenWorkReportsTimeout(steps: seq<Step>, who: Who)
    requires IsRun(steps) && After(steps).latch.cancelledByTimer && Enabled(After(steps), Take(who))
    ensures Apply(After(steps), Take(who)).ending.outcome == WatchdogTimeout
  {
    EveryRunIsSound(steps);
  }

  /** At most one timer thread is alive, and none while the phase is AwaitingConsent and its entry has returned, nor
      after that until the worker enters a machine phase. */
  lemma {:induction false} OneLiveTimer(steps: seq<Step>, a: nat, b: nat)
    requires IsRun(steps) && IsLive(After(steps), a)
    ensures var w := After(steps);
      && (IsLive(w, b) ==> a == b) && !w.timing.quiet
      && (w.timing.worker == Working ==> w.timing.phase != AwaitingConsent)
  {
    EveryRunIsSound(steps);
  }

  lemma {:induction false} QuietLastsUntilMachinePhase(steps: seq<Step>, s: Step)
    requires IsRun(steps) && Enabled(After(steps), s)
    requires After(steps).timing.quiet && !Apply(After(steps), s).timing.quiet
    ensures s.SetPhase? && IsMachine(s.phase)
  {
    EveryRunIsSound(steps);
  }

  /** A worker that waits to join its timer is never stuck: that timer, or the call it waits behind, can go on. */
  lemma {:induction false} JoinIsNotStuck(steps: seq<Step>) returns (s: Step)
    requires IsRun(steps) && (After(steps).timing.worker == Joining || After(steps).timing.worker == Quiescing)
    ensures Enabled(After(steps), s) && !s.Cancel? && !(s.CallFinish? && !s.who.TheTimer?)
    ensures s.Wake? ==> At(Apply(After(steps), s).timing.timers, s.id, Exited)
  {
    EveryRunIsSound(steps);
    var w := After(steps);
    var id := w.timing.handle.value;
    var timer := w.timing.timers[id];
    match timer
    case Waiting(_) => s := Wake(id);
    case Expired => s := SetLatch(id);
    case Latched => s := TripCancel(id);
    case Cancelling => s := CallFinish(TheTimer(id), WatchdogTimeout);
    case TimerFinishing =>
      assert At(w.timing.timers, id, TimerFinishing);
      s := if w.ending.once == Free then Take(TheTimer(id))
           else if w.ending.once == Spent then Skip(TheTimer(id))
           else Advance;
    case Exited => s := Join;
  }
}
