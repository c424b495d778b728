/** Every interleaving of C_* calls whose agent round trip runs with the global lock released (Module.cpp). A step is
    one locked section, or the end of a guard. */
module ModuleRuns {
  import opened Core
  import opened Runs
  import opened SessionState

  /** What a refresh is for: a look at the slots, or a session to open under the same lock. */
  datatype Purpose = Look | Open(slot: nat, flags: nat)

  /** A call between two of its locked sections. */
  datatype Call =
    | Snapshotting(ticket: nat, purpose: Purpose)
    | Publishing(ticket: nat, purpose: Purpose)
    | LoggingIn(session: nat)
    | Deriving(session: nat, slot: nat, serial: string)
    | Using(session: nat)
    | Asking(slot: nat, generation: nat, askedAt: nat)
    | Leaving(held: Option<nat>)

  type Calls = map<nat, Call>

  /** The in-flight guard a call carries. */
  datatype Guard = NoGuard | CountOnly | OnSession(session: nat)

  function GuardOf(calls: Calls, t: nat): Guard {
    if t !in calls then NoGuard
    else match calls[t]
      case Publishing(_, _) => NoGuard
      case Snapshotting(_, _) => CountOnly
      case Asking(_, _, _) => CountOnly
      case Leaving(None) => CountOnly
      case Leaving(Some(h)) => OnSession(h)
      case LoggingIn(h) => OnSession(h)
      case Deriving(h, _, _) => OnSession(h)
      case Using(h) => OnSession(h)
  }

  /** The module, with what the statements speak of: a clock of steps, when each slot's login was granted, which call
      occupies each session, and the tickets of the published snapshots in order. */
  datatype World = World(
    lib: Option<State>,
    inFlight: int,
    started: nat,
    published: nat,
    calls: Calls,
    clock: nat,
    grantedAt: map<nat, nat>,
    occupant: map<nat, nat>,
    log: seq<nat>)

  const START := World(None, 0, 0, 0, map[], 0, map[], map[], [])

  datatype Step =
    | Initialize
    | Finalize
    | StartSnapshot(t: nat, purpose: Purpose)
    | EndSnapshot(t: nat)
    | Publish(t: nat, model: seq<Slot>)
    | Close(h: nat)
    | CloseAll(slot: nat)
    | Logout(h: nat)
    | Destroy(h: nat, key: nat)
    | StartLogin(t: nat, h: nat, user: bool)
    | EndLogin(t: nat, ok: bool, now: int)
    | StartAsk(t: nat, h: nat, now: int)
    | EndAsk(t: nat, active: Option<bool>)
    | StartDerive(t: nat, h: nat)
    | EndDerive(t: nat, ok: bool, lapsed: bool)
    | StartUse(t: nat, h: nat)
    | EndUse(t: nat, lapsed: bool)
    | EndGuard(t: nat)

  predicate Idle(st: State, h: nat) { h in st.sessions && !st.sessions[h].rpcInFlight }

  predicate At(w: World, t: nat) { t in w.calls }

  ghost predicate Enabled(w: World, s: Step) {
    match s
    case Initialize => w.lib.None?
    case Finalize => w.lib.Some? && w.inFlight == 0
    case StartSnapshot(t, _) => w.lib.Some? && !At(w, t)
    case EndSnapshot(t) => At(w, t) && w.calls[t].Snapshotting?
    case Publish(t, _) => At(w, t) && w.calls[t].Publishing?
    case Close(h) => w.lib.Some? && h in w.lib.value.sessions
    case CloseAll(_) => w.lib.Some?
    case Logout(h) => w.lib.Some? && h in w.lib.value.sessions
    case Destroy(h, key) => w.lib.Some? && SeesKey(w.lib.value, h, key)
    case StartLogin(t, h, user) =>
      && w.lib.Some? && !At(w, t) && Idle(w.lib.value, h)
      && var slot := w.lib.value.sessions[h].slot;
      && !(user && IsLoggedIn(w.lib.value, slot))
      && var s := SlotById(w.lib.value, slot); s.Some? && s.value.tokenPresent && s.value.objects != []
    case EndLogin(t, _, _) => At(w, t) && w.calls[t].LoggingIn?
    case StartAsk(t, h, now) =>
      && w.lib.Some? && !At(w, t) && h in w.lib.value.sessions
      && SlotById(w.lib.value, w.lib.value.sessions[h].slot).Some?
      && CheckDue(w.lib.value, w.lib.value.sessions[h].slot, now)
    case EndAsk(t, _) => At(w, t) && w.calls[t].Asking?
    case StartDerive(t, h) =>
      && w.lib.Some? && !At(w, t) && Idle(w.lib.value, h)
      && SlotById(w.lib.value, w.lib.value.sessions[h].slot).Some?
      && IsLoggedIn(w.lib.value, w.lib.value.sessions[h].slot)
    case EndDerive(t, _, _) => At(w, t) && w.calls[t].Deriving?
    case StartUse(t, h) => w.lib.Some? && !At(w, t) && Idle(w.lib.value, h)
    case EndUse(t, _) => At(w, t) && w.calls[t].Using?
    case EndGuard(t) => At(w, t) && w.calls[t].Leaving?
  }

  // --- what the steps do -------------------------------------------------------------------------

  /** A call takes a guard on a session and leaves the lock. */
  function Occupied(w: World, t: nat, h: nat, call: Call): World
    requires w.lib.Some?
  {
    w.(lib := Some(SetFlag(w.lib.value, h, true)), inFlight := w.inFlight + 1, calls := w.calls[t := call],
       occupant := w.occupant[h := t])
  }

  /** The lease is gone: the session's slot is public again. */
  ghost function Lapsed(w: World, h: nat): World {
    if w.lib.Some? && h in w.lib.value.sessions
    then w.(lib := Some(SessionState.EndLogin(w.lib.value, w.lib.value.sessions[h].slot)))
    else w
  }

  function LoginGranted(w: World, h: nat, now: int): World {
    if w.lib.Some? && h in w.lib.value.sessions
    then
      var slot := w.lib.value.sessions[h].slot;
      w.(lib := Some(SetLoggedIn(w.lib.value, slot, now)), grantedAt := w.grantedAt[slot := w.clock])
    else w
  }

  /** An answer about an earlier login does not end the one held now. */
  ghost function Answered(w: World, slot: nat, generation: nat, active: Option<bool>): World {
    if && w.lib.Some? && active == Some(false)
       && IsLoggedIn(w.lib.value, slot) && Generation(w.lib.value, slot) == generation
    then w.(lib := Some(SessionState.EndLogin(w.lib.value, slot)))
    else w
  }

  /** The derived key is kept only if the session, the login and the token are still there. */
  predicate KeyIsKept(w: World, h: nat, slot: nat, serial: string) {
    && w.lib.Some? && h in w.lib.value.sessions
    && Shows(w.lib.value, slot, serial) && IsLoggedIn(w.lib.value, w.lib.value.sessions[h].slot)
  }

  ghost function Derived(w: World, h: nat, slot: nat, serial: string, ok: bool, lapsed: bool): World {
    if !ok then (if lapsed then Lapsed(w, h) else w)
    else if KeyIsKept(w, h, slot, serial)
    then w.(lib := Some(AddDerivedKey(w.lib.value, DerivedKey(slot, h, serial))))
    else w
  }

  /** Published only if no refresh that started later already was. */
  ghost function Published(w: World, ticket: nat, model: seq<Slot>): World {
    if w.lib.Some? && ticket > w.published
    then w.(lib := Some(SetModel(w.lib.value, model)), published := ticket, log := w.log + [ticket])
    else w
  }

  function Opened(w: World, purpose: Purpose): World {
    if w.lib.Some? && purpose.Open? && SlotById(w.lib.value, purpose.slot).Some?
       && SlotById(w.lib.value, purpose.slot).value.tokenPresent
    then w.(lib := Some(OpenSession(w.lib.value, purpose.slot, purpose.flags)))
    else w
  }

  function GuardEnded(w: World, t: nat, session: Option<nat>): World {
    var freed :=
      if session.Some? && w.lib.Some? then w.(lib := Some(SetFlag(w.lib.value, session.value, false))) else w;
    freed.(inFlight := w.inFlight - 1, calls := w.calls - {t},
           occupant := if session.Some? then w.occupant - {session.value} else w.occupant)
  }

  ghost function Effect(w: World, s: Step): World
    requires Enabled(w, s)
  {
    match s
    case Initialize => w.(lib := Some(FRESH), grantedAt := map[])
    case Finalize => w.(lib := None)
    case StartSnapshot(t, purpose) =>
      w.(started := w.started + 1, inFlight := w.inFlight + 1,
         calls := w.calls[t := Snapshotting(w.started + 1, purpose)])
    case EndSnapshot(t) =>
      w.(inFlight := w.inFlight - 1, calls := w.calls[t := Publishing(w.calls[t].ticket, w.calls[t].purpose)])
    case Publish(t, model) =>
      Opened(Published(w, w.calls[t].ticket, model), w.calls[t].purpose).(calls := w.calls - {t})
    case Close(h) => w.(lib := Some(CloseSession(w.lib.value, h)))
    case CloseAll(slot) => w.(lib := Some(CloseAllSessions(w.lib.value, slot)))
    case Logout(h) => Lapsed(w, h)
    case Destroy(_, key) => w.(lib := Some(w.lib.value.(derived := w.lib.value.derived - {key})))
    case StartLogin(t, h, _) => Occupied(w, t, h, LoggingIn(h))
    case EndLogin(t, ok, now) =>
      var h := w.calls[t].session;
      (if ok then LoginGranted(w, h, now) else w).(calls := w.calls[t := Leaving(Some(h))])
    case StartAsk(t, h, now) =>
      var slot := w.lib.value.sessions[h].slot;
      w.(lib := Some(MarkChecked(w.lib.value, slot, now)), inFlight := w.inFlight + 1,
         calls := w.calls[t := Asking(slot, Generation(w.lib.value, slot), w.clock)])
    case EndAsk(t, active) =>
      Answered(w, w.calls[t].slot, w.calls[t].generation, active).(calls := w.calls[t := Leaving(None)])
    case StartDerive(t, h) =>
      var slot := w.lib.value.sessions[h].slot;
      Occupied(w, t, h, Deriving(h, slot, SlotById(w.lib.value, slot).value.tokenSerial))
    case EndDerive(t, ok, lapsed) =>
      var call := w.calls[t];
      Derived(w, call.session, call.slot, call.serial, ok, lapsed).(calls := w.calls[t := Leaving(Some(call.session))])
    case StartUse(t, h) => Occupied(w, t, h, Using(h))
    case EndUse(t, lapsed) =>
      var h := w.calls[t].session;
      (if lapsed then Lapsed(w, h) else w).(calls := w.calls[t := Leaving(Some(h))])
    case EndGuard(t) => GuardEnded(w, t, w.calls[t].held)
  }

  /** A step that is not enabled does not happen. */
  ghost function Apply(w: World, s: Step): World {
    if Enabled(w, s) then Effect(w, s).(clock := w.clock + 1) else w
  }

  // --- what every run keeps ------------------------------------------------------------------------

  ghost predicate LibSound(lib: Option<State>) { lib.Some? ==> Sound(lib.value) }

  /** The library is there while any guard lives. */
  ghost predicate GuardsHoldLib(lib: Option<State>, calls: Calls) {
    forall t <- calls :: GuardOf(calls, t) != NoGuard ==> lib.Some?
  }

  ghost function Guarded(calls: Calls): set<nat> { set t | t in calls && GuardOf(calls, t) != NoGuard }

  ghost predicate CountIsGuards(inFlight: int, calls: Calls) { inFlight == |Guarded(calls)| }

  /** A guard names a session handle that was drawn, and is the only one on it; */
  ghost predicate GuardsAreAlone(nextSession: nat, calls: Calls, occupant: map<nat, nat>) {
    forall t <- calls, h: nat :: GuardOf(calls, t) == OnSession(h) ==>
      h < nextSession && h in occupant && occupant[h] == t
  }

  /** an open session is flagged exactly while its guard lives. */
  ghost predicate FlagsAreGuards(sessions: map<nat, Session>, calls: Calls, occupant: map<nat, nat>) {
    forall h <- sessions ::
      sessions[h].rpcInFlight <==> h in occupant && GuardOf(calls, occupant[h]) == OnSession(h)
  }

  ghost predicate SessionsMatch(lib: Option<State>, calls: Calls, occupant: map<nat, nat>) {
    lib.Some? ==>
      GuardsAreAlone(lib.value.nextSession, calls, occupant) && FlagsAreGuards(lib.value.sessions, calls, occupant)
  }

  /** A derivation remembers its own session's slot. */
  ghost predicate DerivationsMatch(lib: Option<State>, calls: Calls) {
    lib.Some? ==> forall t <- calls :: calls[t].Deriving? && calls[t].session in lib.value.sessions ==>
      lib.value.sessions[calls[t].session].slot == calls[t].slot
  }

  /** The published tickets, in order, are strictly increasing, and so far none is later than the last one started. */
  ghost predicate TicketsInOrder(w: World) {
    && w.published <= w.started
    && (forall t <- w.calls :: w.calls[t].Snapshotting? || w.calls[t].Publishing? ==> w.calls[t].ticket <= w.started)
    && (forall i :: 0 <= i < |w.log| ==> w.log[i] <= w.published)
    && (forall i, j :: 0 <= i < j < |w.log| ==> w.log[i] < w.log[j])
  }

  /** While a question is out, the login it asked about was granted before it, or has been replaced. */
  ghost predicate QuestionsMatch(w: World) {
    w.lib.Some? ==>
      && (forall slot :: IsLoggedIn(w.lib.value, slot) ==> slot in w.grantedAt)
      && (forall slot <- w.grantedAt :: w.grantedAt[slot] < w.clock)
      && forall t <- w.calls :: w.calls[t].Asking? ==>
           && w.calls[t].askedAt < w.clock
           && w.calls[t].generation <= Generation(w.lib.value, w.calls[t].slot)
           && (w.calls[t].slot in w.grantedAt && w.grantedAt[w.calls[t].slot] > w.calls[t].askedAt ==>
                 w.calls[t].generation < Generation(w.lib.value, w.calls[t].slot))
  }

  ghost predicate Inv(w: World) {
    && LibSound(w.lib) && GuardsHoldLib(w.lib, w.calls) && CountIsGuards(w.inFlight, w.calls)
    && SessionsMatch(w.lib, w.calls, w.occupant) && DerivationsMatch(w.lib, w.calls)
    && TicketsInOrder(w) && QuestionsMatch(w)
  }

  // --- the library --------------------------------------------------------------------------------------

  lemma {:induction false} DestroyKeeps(st: State, key: nat)
    requires Sound(st)
    ensures Sound(st.(derived := st.derived - {key}))
  {
    var r := st.(derived := st.derived - {key});
    assert NumbersOf(r) == NumbersOf(st);
    assert forall id :: IsLoggedIn(r, id) <==> IsLoggedIn(st, id);
  }

  lemma {:induction false} EndOneKeeps(st: State, slot: nat)
    requires Sound(st)
    ensures Sound(SessionState.EndLogin(st, slot))
  {
    EndLoginsKeeps(st, {slot});
    assert NumbersOf(SessionState.EndLogin(st, slot)) == NumbersOf(st);
  }

  lemma {:induction false} PublishKeepsLib(w: World, t: nat, model: seq<Slot>)
    requires LibSound(w.lib) && Enabled(w, Publish(t, model))
    ensures LibSound(Apply(w, Publish(t, model)).lib)
  {
    if w.lib.Some? {
      var w1 := Published(w, w.calls[t].ticket, model);
      SetModelKeeps(w.lib.value, model);
      OpenSessionKeeps(w1.lib.value, if w.calls[t].purpose.Open? then w.calls[t].purpose.slot else 0,
                       if w.calls[t].purpose.Open? then w.calls[t].purpose.flags else 0);
    }
  }

  lemma {:induction false} EndDeriveKeepsLib(w: World, t: nat, ok: bool, lapsed: bool)
    requires LibSound(w.lib) && DerivationsMatch(w.lib, w.calls) && Enabled(w, EndDerive(t, ok, lapsed))
    ensures LibSound(Apply(w, EndDerive(t, ok, lapsed)).lib)
  {
    var call := w.calls[t];
    if w.lib.Some? && call.session in w.lib.value.sessions {
      EndOneKeeps(w.lib.value, w.lib.value.sessions[call.session].slot);
      if KeyIsKept(w, call.session, call.slot, call.serial) {
        AddDerivedKeyKeeps(w.lib.value, DerivedKey(call.slot, call.session, call.serial));
      }
    }
  }

  lemma {:induction false} EndLoginKeepsLib(w: World, t: nat, ok: bool, now: int)
    requires LibSound(w.lib) && Enabled(w, EndLogin(t, ok, now))
    ensures LibSound(Apply(w, EndLogin(t, ok, now)).lib)
  {
    var h := w.calls[t].session;
    if w.lib.Some? && h in w.lib.value.sessions {
      SetLoggedInKeeps(w.lib.value, w.lib.value.sessions[h].slot, now);
    }
  }

  lemma {:induction false} LapsedKeepsLib(w: World, h: nat)
    requires LibSound(w.lib)
    ensures LibSound(Lapsed(w, h).lib)
  {
    if w.lib.Some? && h in w.lib.value.sessions {
      EndOneKeeps(w.lib.value, w.lib.value.sessions[h].slot);
    }
  }

  lemma {:induction false} StepKeepsLib(w: World, s: Step)
    requires LibSound(w.lib) && DerivationsMatch(w.lib, w.calls) && Enabled(w, s)
    ensures LibSound(Apply(w, s).lib)
  {
    match s
    case Publish(t, model) => PublishKeepsLib(w, t, model);
    case Close(h) => CloseSessionKeeps(w.lib.value, h);
    case CloseAll(slot) => CloseAllSessionsKeeps(w.lib.value, slot);
    case Logout(h) => LapsedKeepsLib(w, h);
    case Destroy(_, key) => DestroyKeeps(w.lib.value, key);
    case StartLogin(t, h, _) => SetFlagKeeps(w.lib.value, h, true);
    case EndLogin(t, ok, now) => EndLoginKeepsLib(w, t, ok, now);
    case StartAsk(t, h, now) => MarkCheckedKeeps(w.lib.value, w.lib.value.sessions[h].slot, now);
    case EndAsk(t, active) => if w.lib.Some? { EndOneKeeps(w.lib.value, w.calls[t].slot); }
    case StartDerive(t, h) => SetFlagKeeps(w.lib.value, h, true);
    case EndDerive(t, ok, lapsed) => EndDeriveKeepsLib(w, t, ok, lapsed);
    case StartUse(t, h) => SetFlagKeeps(w.lib.value, h, true);
    case EndUse(t, lapsed) => LapsedKeepsLib(w, w.calls[t].session);
    case EndGuard(t) =>
      if w.lib.Some? && w.calls[t].held.Some? {
        SetFlagKeeps(w.lib.value, w.calls[t].held.value, false);
      }
    case _ =>
  }

  // --- the count --------------------------------------------------------------------------------------------

  lemma {:induction false} GuardTaken(calls: Calls, t: nat, call: Call)
    requires t !in calls && GuardOf(calls[t := call], t) != NoGuard
    ensures |Guarded(calls[t := call])| == |Guarded(calls)| + 1
  {
    assert forall u :: u != t ==> GuardOf(calls[t := call], u) == GuardOf(calls, u);
    assert Guarded(calls[t := call]) == Guarded(calls) + {t};
  }

  lemma {:induction false} GuardDropped(calls: Calls, after: Calls, t: nat)
    requires GuardOf(calls, t) != NoGuard && GuardOf(after, t) == NoGuard
    requires forall u :: u != t ==> GuardOf(after, u) == GuardOf(calls, u)
    ensures |Guarded(after)| == |Guarded(calls)| - 1
  {
    assert Guarded(calls) == Guarded(after) + {t};
  }

  lemma {:induction false} GuardCarried(calls: Calls, after: Calls)
    requires forall u :: GuardOf(after, u) == GuardOf(calls, u)
    ensures Guarded(after) == Guarded(calls)
  {
  }

  predicate TakesGuard(s: Step) { s.StartSnapshot? || s.StartLogin? || s.StartAsk? || s.StartDerive? || s.StartUse? }

  predicate DropsGuard(s: Step) { s.EndSnapshot? || s.EndGuard? }

  /** Every other step leaves each call's guard as it is. */
  lemma {:induction false} GuardsCarriedOver(w: World, s: Step, t: nat)
    requires Enabled(w, s)
    ensures !TakesGuard(s) && !DropsGuard(s) ==> GuardOf(Apply(w, s).calls, t) == GuardOf(w.calls, t)
    ensures TakesGuard(s) || DropsGuard(s) ==> t == s.t || GuardOf(Apply(w, s).calls, t) == GuardOf(w.calls, t)
  {
  }

  lemma {:induction false} StepKeepsCount(w: World, s: Step)
    requires CountIsGuards(w.inFlight, w.calls) && Enabled(w, s)
    ensures CountIsGuards(Apply(w, s).inFlight, Apply(w, s).calls)
  {
    var after := Apply(w, s);
    forall t { GuardsCarriedOver(w, s, t); }
    if TakesGuard(s) {
      GuardTaken(w.calls, s.t, after.calls[s.t]);
    } else if DropsGuard(s) {
      GuardDropped(w.calls, after.calls, s.t);
    } else {
      GuardCarried(w.calls, after.calls);
    }
  }

  lemma {:induction false} NobodyInside(w: World, t: nat)
    requires CountIsGuards(w.inFlight, w.calls) && Enabled(w, Finalize)
    ensures GuardOf(w.calls, t) == NoGuard
  {
    assert GuardOf(w.calls, t) != NoGuard ==> t in Guarded(w.calls);
  }

  lemma {:induction false} StepKeepsGuards(w: World, s: Step)
    requires CountIsGuards(w.inFlight, w.calls) && GuardsHoldLib(w.lib, w.calls) && Enabled(w, s)
    ensures GuardsHoldLib(Apply(w, s).lib, Apply(w, s).calls)
  {
    forall t { GuardsCarriedOver(w, s, t); }
    if s == Finalize {
      forall t { NobodyInside(w, t); }
    }
  }

  // --- sessions and their guards ------------------------------------------------------------------------------

  /** Sessions go, but none comes or changes. */
  ghost predicate Shrinks(a: State, b: State) {
    b.nextSession == a.nextSession && forall h <- b.sessions :: h in a.sessions && b.sessions[h] == a.sessions[h]
  }

  /** The steps that neither open a session nor touch its flag. */
  predicate Plain(s: Step) {
    !s.Initialize? && !s.Finalize? && !s.Publish? && !s.StartLogin? && !s.StartDerive? && !s.StartUse? && !s.EndGuard?
  }

  lemma {:induction false} PlainStepsShrink(w: World, s: Step)
    requires Enabled(w, s) && Plain(s)
    ensures Apply(w, s).lib.Some? <==> w.lib.Some?
    ensures w.lib.Some? ==> Shrinks(w.lib.value, Apply(w, s).lib.value)
    ensures Apply(w, s).occupant == w.occupant
  {
    match s
    case Close(h) =>
    case CloseAll(slot) =>
    case Logout(h) =>
    case EndLogin(t, _, _) =>
    case EndAsk(t, _) =>
    case EndDerive(t, _, _) =>
    case EndUse(t, _) =>
    case _ =>
  }

  lemma {:induction false} ShrinkingKeeps(a: State, b: State, calls: Calls, after: Calls, occupant: map<nat, nat>)
    requires Shrinks(a, b) && SessionsMatch(Some(a), calls, occupant)
    requires forall t, h: nat :: GuardOf(after, t) == OnSession(h) <==> GuardOf(calls, t) == OnSession(h)
    ensures SessionsMatch(Some(b), after, occupant)
  {
    forall t <- after, h: nat | GuardOf(after, t) == OnSession(h)
      ensures h < b.nextSession && h in occupant && occupant[h] == t
    {
      assert GuardOf(calls, t) == OnSession(h);
    }
  }

  lemma {:induction false} PlainStepsKeepSessions(w: World, s: Step)
    requires SessionsMatch(w.lib, w.calls, w.occupant) && Enabled(w, s) && Plain(s)
    ensures SessionsMatch(Apply(w, s).lib, Apply(w, s).calls, Apply(w, s).occupant)
  {
    PlainStepsShrink(w, s);
    if w.lib.Some? {
      var after := Apply(w, s);
      forall t, h: nat ensures GuardOf(after.calls, t) == OnSession(h) <==> GuardOf(w.calls, t) == OnSession(h) {
        GuardsCarriedOver(w, s, t);
      }
      ShrinkingKeeps(w.lib.value, after.lib.value, w.calls, after.calls, w.occupant);
    }
  }

  lemma {:induction false} OpeningKeeps(st: State, slot: nat, flags: nat, calls: Calls, occupant: map<nat, nat>)
    requires SessionsMatch(Some(st), calls, occupant)
    ensures SessionsMatch(Some(OpenSession(st, slot, flags)), calls, occupant)
  {
  }

  lemma {:induction false} PublishKeepsSessions(w: World, t: nat, model: seq<Slot>)
    requires SessionsMatch(w.lib, w.calls, w.occupant) && Enabled(w, Publish(t, model))
    ensures SessionsMatch(Apply(w, Publish(t, model)).lib, Apply(w, Publish(t, model)).calls, w.occupant)
  {
    if w.lib.Some? {
      var w1, purpose, after := Published(w, w.calls[t].ticket, model), w.calls[t].purpose, w.calls - {t};
      assert forall u :: GuardOf(after, u) == GuardOf(w.calls, u);
      ShrinkingKeeps(w.lib.value, w1.lib.value, w.calls, after, w.occupant);
      if purpose.Open? {
        OpeningKeeps(w1.lib.value, purpose.slot, purpose.flags, after, w.occupant);
      }
    }
  }

  lemma {:induction false} OccupyingKeeps(w: World, t: nat, h: nat, call: Call)
    requires SessionsMatch(w.lib, w.calls, w.occupant) && w.lib.Some? && Idle(w.lib.value, h) && t !in w.calls
    requires h < w.lib.value.nextSession && GuardOf(w.calls[t := call], t) == OnSession(h)
    ensures var r := Occupied(w, t, h, call); SessionsMatch(r.lib, r.calls, r.occupant)
  {
    var r := Occupied(w, t, h, call);
    assert forall u :: u != t ==> GuardOf(r.calls, u) == GuardOf(w.calls, u);
  }

  lemma {:induction false} EndGuardKeepsSessions(w: World, t: nat)
    requires SessionsMatch(w.lib, w.calls, w.occupant) && Enabled(w, EndGuard(t))
    ensures SessionsMatch(Apply(w, EndGuard(t)).lib, Apply(w, EndGuard(t)).calls, Apply(w, EndGuard(t)).occupant)
  {
    var after := Apply(w, EndGuard(t));
    assert forall u :: u != t ==> GuardOf(after.calls, u) == GuardOf(w.calls, u);
    assert w.calls[t].held.Some? ==> GuardOf(w.calls, t) == OnSession(w.calls[t].held.value);
  }

  lemma {:induction false} FreshSessionsMatch(calls: Calls, occupant: map<nat, nat>)
    requires GuardsHoldLib(None, calls)
    ensures SessionsMatch(Some(FRESH), calls, occupant)
  {
  }

  lemma {:induction false} StepKeepsSessions(w: World, s: Step)
    requires SessionsMatch(w.lib, w.calls, w.occupant) && GuardsHoldLib(w.lib, w.calls) && LibSound(w.lib)
    requires Enabled(w, s)
    ensures SessionsMatch(Apply(w, s).lib, Apply(w, s).calls, Apply(w, s).occupant)
  {
    match s
    case Publish(t, model) => PublishKeepsSessions(w, t, model);
    case StartLogin(t, h, _) => OccupyingKeeps(w, t, h, LoggingIn(h));
    case StartDerive(t, h) => OccupyingKeeps(w, t, h, Apply(w, s).calls[t]);
    case StartUse(t, h) => OccupyingKeeps(w, t, h, Using(h));
    case EndGuard(t) => EndGuardKeepsSessions(w, t);
    case Initialize => FreshSessionsMatch(w.calls, w.occupant);
    case Finalize =>
    case _ => PlainStepsKeepSessions(w, s);
  }

  // --- derivations, tickets, questions ------------------------------------------------------------------------

  /** Handles are drawn once, so a call's session, while open, stays on its slot. */
  ghost predicate SlotsStay(a: State, b: State) {
    forall h <- b.sessions :: h < a.nextSession ==> h in a.sessions && b.sessions[h].slot == a.sessions[h].slot
  }

  lemma {:induction false} StepsKeepSlots(w: World, s: Step)
    requires Enabled(w, s) && !s.Initialize? && LibSound(w.lib)
    ensures Apply(w, s).lib.Some? ==> w.lib.Some? && SlotsStay(w.lib.value, Apply(w, s).lib.value)
  {
    if s.Publish? {
      PublishKeepsSlots(w, s.t, s.model);
    } else if Plain(s) {
      PlainStepsShrink(w, s);
    } else {
      FlagStepsKeepSlots(w, s);
    }
  }

  lemma {:induction false} PublishKeepsSlots(w: World, t: nat, model: seq<Slot>)
    requires Enabled(w, Publish(t, model)) && LibSound(w.lib)
    ensures var after := Apply(w, Publish(t, model)).lib;
      after.Some? ==> w.lib.Some? && SlotsStay(w.lib.value, after.value)
  {
    if w.lib.Some? {
      var w1 := Published(w, w.calls[t].ticket, model);
      assert w1.lib.value.sessions == w.lib.value.sessions && w1.lib.value.nextSession == w.lib.value.nextSession;
    }
  }

  lemma {:induction false} FlagStepsKeepSlots(w: World, s: Step)
    requires Enabled(w, s) && !Plain(s) && !s.Publish? && !s.Initialize?
    ensures Apply(w, s).lib.Some? ==> w.lib.Some? && SlotsStay(w.lib.value, Apply(w, s).lib.value)
  {
    match s
    case StartLogin(_, _, _) =>
    case StartDerive(_, _) =>
    case StartUse(_, _) =>
    case EndGuard(_) =>
    case Finalize =>
  }

  /** A step moves one call at most, and only a start makes a call that derives or asks. */
  lemma {:induction false} CallsUnderStep(w: World, s: Step, t: nat)
    requires Enabled(w, s) && t in Apply(w, s).calls
    ensures var call := Apply(w, s).calls[t];
      && (call.Deriving? && !(s.StartDerive? && t == s.t) ==> t in w.calls && w.calls[t] == call)
      && (call.Asking? && !(s.StartAsk? && t == s.t) ==> t in w.calls && w.calls[t] == call)
      && (call.Snapshotting? && !(s.StartSnapshot? && t == s.t) ==> t in w.calls && w.calls[t] == call)
      && (call.Publishing? ==>
            && t in w.calls
            && (w.calls[t] == call || (w.calls[t].Snapshotting? && w.calls[t].ticket == call.ticket)))
  {
  }

  lemma {:induction false} DerivationStays(w: World, a: State, b: State, t: nat)
    requires w.lib == Some(a) && SlotsStay(a, b) && DerivationsMatch(w.lib, w.calls)
    requires SessionsMatch(w.lib, w.calls, w.occupant)
    requires t in w.calls && w.calls[t].Deriving? && w.calls[t].session in b.sessions
    ensures b.sessions[w.calls[t].session].slot == w.calls[t].slot
  {
    assert GuardOf(w.calls, t) == OnSession(w.calls[t].session);
  }

  lemma {:induction false} StepKeepsDerivations(w: World, s: Step)
    requires DerivationsMatch(w.lib, w.calls) && SessionsMatch(w.lib, w.calls, w.occupant) && LibSound(w.lib)
    requires GuardsHoldLib(w.lib, w.calls) && Enabled(w, s)
    ensures DerivationsMatch(Apply(w, s).lib, Apply(w, s).calls)
  {
    var after := Apply(w, s);
    if s.Initialize? {
      assert forall t <- after.calls :: GuardOf(w.calls, t) == NoGuard;
    } else if after.lib.Some? {
      StepsKeepSlots(w, s);
      forall t <- after.calls | after.calls[t].Deriving? && after.calls[t].session in after.lib.value.sessions
        ensures after.lib.value.sessions[after.calls[t].session].slot == after.calls[t].slot
      {
        CallsUnderStep(w, s, t);
        if !(s.StartDerive? && t == s.t) {
          DerivationStays(w, w.lib.value, after.lib.value, t);
        }
      }
    }
  }

  lemma {:induction false} StepKeepsTickets(w: World, s: Step)
    requires TicketsInOrder(w) && Enabled(w, s)
    ensures TicketsInOrder(Apply(w, s))
  {
    var after := Apply(w, s);
    forall t <- after.calls { CallsUnderStep(w, s, t); }
    CountersUnderStep(w, s);
  }

  lemma {:induction false} CountersUnderStep(w: World, s: Step)
    requires Enabled(w, s)
    ensures var after := Apply(w, s);
      && after.started == (if s.StartSnapshot? then w.started + 1 else w.started)
      && ((after.log == w.log && after.published == w.published)
          || (s.Publish? && w.calls[s.t].ticket > w.published && after.published == w.calls[s.t].ticket
              && after.log == w.log + [after.published]))
  {
  }

  // --- logins and late answers ----------------------------------------------------------------------------------

  /** What a step does to the logins of one slot: nothing new, unless it is the step that grants one. */
  ghost predicate NoNewLogin(a: State, b: State, slot: nat) {
    Generation(b, slot) == Generation(a, slot) && (IsLoggedIn(b, slot) ==> IsLoggedIn(a, slot))
  }

  lemma {:induction false} EndingGrantsNothing(st: State, ids: set<nat>, slot: nat)
    ensures NoNewLogin(st, EndLogins(st, ids), slot)
  {
  }

  lemma {:induction false} ClosingGrantsNothing(st: State, h: nat, slot: nat)
    ensures NoNewLogin(st, CloseSession(st, h), slot)
  {
  }

  lemma {:induction false} PublishingGrantsNothing(w: World, t: nat, model: seq<Slot>, slot: nat)
    requires Enabled(w, Publish(t, model))
    ensures var after := Apply(w, Publish(t, model));
      after.lib.Some? ==> w.lib.Some? && NoNewLogin(w.lib.value, after.lib.value, slot)
  {
    if w.lib.Some? {
      SetModelGrantsNothing(w.lib.value, model, slot);
    }
  }

  lemma {:induction false} SetModelGrantsNothing(st: State, model: seq<Slot>, slot: nat)
    ensures NoNewLogin(st, SetModel(st, model), slot)
  {
    NumberingExtends(NumbersOf(st), model);
    var indexed := Indexed(st, model);
    EndingGrantsNothing(indexed, SlotsLeft(st, indexed), slot);
  }

  lemma {:induction false} LapsingGrantsNothing(w: World, h: nat, slot: nat)
    requires w.lib.Some?
    ensures Lapsed(w, h).lib.Some? && Lapsed(w, h).grantedAt == w.grantedAt
    ensures NoNewLogin(w.lib.value, Lapsed(w, h).lib.value, slot)
  {
    if h in w.lib.value.sessions {
      EndingGrantsNothing(w.lib.value, {w.lib.value.sessions[h].slot}, slot);
    }
  }

  lemma {:induction false} GrantTimesStay(w: World, s: Step)
    requires Enabled(w, s) && !s.Initialize? && !s.EndLogin?
    ensures Apply(w, s).grantedAt == w.grantedAt
  {
  }

  lemma {:induction false} OnlyEndLoginGrants(w: World, s: Step, slot: nat)
    requires Enabled(w, s) && !s.Initialize? && !s.EndLogin?
    ensures Apply(w, s).lib.Some? ==> w.lib.Some? && NoNewLogin(w.lib.value, Apply(w, s).lib.value, slot)
  {
    match s
    case Publish(t, model) => PublishingGrantsNothing(w, t, model, slot);
    case Close(h) => ClosingGrantsNothing(w.lib.value, h, slot);
    case CloseAll(id) => EndingGrantsNothing(w.lib.value, {id}, slot);
    case Logout(h) => LapsingGrantsNothing(w, h, slot);
    case EndAsk(t, active) => if w.lib.Some? { EndingGrantsNothing(w.lib.value, {w.calls[t].slot}, slot); }
    case EndDerive(t, _, _) => if w.lib.Some? { LapsingGrantsNothing(w, w.calls[t].session, slot); }
    case EndUse(t, _) => if w.lib.Some? { LapsingGrantsNothing(w, w.calls[t].session, slot); }
    case _ =>
  }

  lemma {:induction false} EndLoginGrants(w: World, s: Step, slot: nat)
    requires Enabled(w, s) && s.EndLogin? && w.lib.Some?
    ensures Apply(w, s).lib.Some?
    ensures var after := Apply(w, s);
      || (NoNewLogin(w.lib.value, after.lib.value, slot)
          && (slot in after.grantedAt <==> slot in w.grantedAt)
          && (slot in w.grantedAt ==> after.grantedAt[slot] == w.grantedAt[slot]))
      || (&& slot in after.grantedAt && after.grantedAt[slot] == w.clock
          && Generation(after.lib.value, slot) > Generation(w.lib.value, slot))
  {
  }

  lemma {:induction false} QuestionStays(w: World, s: Step, t: nat)
    requires Inv(w) && Enabled(w, s) && !s.Initialize? && Apply(w, s).lib.Some?
    requires t in w.calls && w.calls[t].Asking?
    ensures var q, after := w.calls[t], Apply(w, s);
      && q.generation <= Generation(after.lib.value, q.slot)
      && (q.slot in after.grantedAt && after.grantedAt[q.slot] > q.askedAt ==>
            q.generation < Generation(after.lib.value, q.slot))
  {
    if s.EndLogin? {
      assert GuardOf(w.calls, t) == CountOnly;
      EndLoginGrants(w, s, w.calls[t].slot);
    } else {
      OnlyEndLoginGrants(w, s, w.calls[t].slot);
      GrantTimesStay(w, s);
    }
  }

  lemma {:induction false} GrantsStay(w: World, s: Step, slot: nat)
    requires QuestionsMatch(w) && Enabled(w, s) && !s.Initialize? && Apply(w, s).lib.Some?
    ensures IsLoggedIn(Apply(w, s).lib.value, slot) ==> slot in Apply(w, s).grantedAt
    ensures slot in Apply(w, s).grantedAt ==> Apply(w, s).grantedAt[slot] < Apply(w, s).clock
  {
    if s.EndLogin? {
      if w.lib.Some? {
        EndLoginGrants(w, s, slot);
      }
    } else {
      OnlyEndLoginGrants(w, s, slot);
      GrantTimesStay(w, s);
    }
  }

  lemma {:induction false} QuestionIsNew(w: World, s: Step)
    requires QuestionsMatch(w) && Enabled(w, s) && s.StartAsk?
    ensures var q, after := Apply(w, s).calls[s.t], Apply(w, s);
      && q.askedAt < after.clock && after.lib.Some? && q.generation <= Generation(after.lib.value, q.slot)
      && (q.slot in after.grantedAt ==> after.grantedAt[q.slot] <= q.askedAt)
  {
  }

  lemma {:induction false} StepKeepsQuestions(w: World, s: Step)
    requires Inv(w) && Enabled(w, s)
    ensures QuestionsMatch(Apply(w, s))
  {
    var after := Apply(w, s);
    if s.Initialize? {
      assert forall t <- w.calls :: GuardOf(w.calls, t) == NoGuard;
    } else if after.lib.Some? {
      forall slot { GrantsStay(w, s, slot); }
      forall t <- after.calls | after.calls[t].Asking?
        ensures var q := after.calls[t];
          && q.askedAt < after.clock && q.generation <= Generation(after.lib.value, q.slot)
          && (q.slot in after.grantedAt && after.grantedAt[q.slot] > q.askedAt ==>
                q.generation < Generation(after.lib.value, q.slot))
      {
        CallsUnderStep(w, s, t);
        if s.StartAsk? && t == s.t {
          QuestionIsNew(w, s);
        } else {
          QuestionStays(w, s, t);
          assert GuardOf(w.calls, t) == CountOnly;
        }
      }
    }
  }

  // --- every run ---------------------------------------------------------------------------------------------------

  lemma {:induction false} StepKeeps(w: World, s: Step)
    requires Inv(w) && Enabled(w, s)
    ensures Inv(Apply(w, s))
  {
    StepKeepsLib(w, s);
    StepKeepsCount(w, s);
    StepKeepsGuards(w, s);
    StepKeepsSessions(w, s);
    StepKeepsDerivations(w, s);
    StepKeepsTickets(w, s);
    StepKeepsQuestions(w, s);
  }

  ghost const MACHINE := Machine(Enabled, Apply)

  ghost predicate IsRun(steps: seq<Step>) { CanRun(MACHINE, START, steps) }

  ghost function After(steps: seq<Step>): World { Ran(MACHINE, START, steps) }

  lemma {:induction false} EveryRunIsSound(steps: seq<Step>)
    requires IsRun(steps)
    ensures Inv(After(steps))
  {
    forall w, s | Inv(w) && Enabled(w, s) ensures Inv(Apply(w, s)) {
      StepKeeps(w, s);
    }
    assert Guarded(START.calls) == {};
    RunsKeep(MACHINE, Inv, START, steps);
  }

  /** A key kept anywhere in a run: its creator is open, its slot logged in, and its own token in the slot. */
  lemma {:induction false} KeysOutliveNothing(steps: seq<Step>, h: nat)
    requires IsRun(steps) && After(steps).lib.Some? && h in After(steps).lib.value.derived
    ensures KeyIsSound(After(steps).lib.value, After(steps).lib.value.derived[h])
  {
    EveryRunIsSound(steps);
  }

  /** The library object is destroyed only when no call is inside the agent. */
  lemma {:induction false} FinalizeFindsNobodyInside(steps: seq<Step>, t: nat)
    requires IsRun(steps) && Enabled(After(steps), Finalize)
    ensures GuardOf(After(steps).calls, t) == NoGuard
  {
    EveryRunIsSound(steps);
    NobodyInside(After(steps), t);
  }

  /** A late answer ends a login only if that login was granted before the question was asked. */
  lemma {:induction false} LateAnswerSparesNewerLogin(steps: seq<Step>, t: nat, active: Option<bool>, slot: nat)
    requires IsRun(steps) && After(steps).lib.Some? && Enabled(After(steps), EndAsk(t, active))
    requires var w := After(steps);
      IsLoggedIn(w.lib.value, slot) && !IsLoggedIn(Apply(w, EndAsk(t, active)).lib.value, slot)
    ensures var w := After(steps);
      && slot == w.calls[t].slot && active == Some(false)
      && slot in w.grantedAt && w.grantedAt[slot] <= w.calls[t].askedAt
  {
    EveryRunIsSound(steps);
  }

  /** An open session is flagged exactly while one call, and one only, has its guard. */
  lemma {:induction false} FlagMeansOneGuard(steps: seq<Step>, h: nat)
    requires IsRun(steps) && After(steps).lib.Some? && h in After(steps).lib.value.sessions
    ensures var w := After(steps);
      && (w.lib.value.sessions[h].rpcInFlight <==> exists t :: GuardOf(w.calls, t) == OnSession(h))
      && forall t, u :: GuardOf(w.calls, t) == OnSession(h) && GuardOf(w.calls, u) == OnSession(h) ==> t == u
  {
    EveryRunIsSound(steps);
    var w := After(steps);
    forall t | GuardOf(w.calls, t) == OnSession(h) ensures h in w.occupant && w.occupant[h] == t {
      assert t in w.calls;
    }
  }

  /** The tickets of the models published in a run strictly increase: no refresh is overtaken by an earlier one. */
  lemma {:induction false} PublishedTicketsIncrease(steps: seq<Step>, i: nat, j: nat)
    requires IsRun(steps) && i < j < |After(steps).log|
    ensures After(steps).log[i] < After(steps).log[j] <= After(steps).published
  {
    EveryRunIsSound(steps);
  }

  /** A refresh that started earlier never replaces the model of one that started later. */
  lemma {:induction false} LaterSnapshotStands(steps: seq<Step>, t: nat, model: seq<Slot>)
    requires IsRun(steps) && After(steps).log != [] && After(steps).lib.Some?
    requires Enabled(After(steps), Publish(t, model))
    requires var w := After(steps); w.calls[t].ticket <= w.log[|w.log| - 1]
    ensures var before, after := After(steps).lib.value, Apply(After(steps), Publish(t, model)).lib.value;
      after.slots == before.slots && after.slotIndex == before.slotIndex
  {
    EveryRunIsSound(steps);
  }
}
