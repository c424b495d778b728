/** The per-reader holder of the one card connection (CardSessionHolder.cpp): in use as a session, or parked as a power
    hold. The factory, the resolver and the clock are oracles, and each may throw. */
module CardHolder {
  import opened Core

  type Plugin = nat

  /** A connection: which plugins hold a credential for it, whether it caches PACE secrets, whether its channel is live.
      */
  datatype Connection = Connection(id: nat, deposits: set<Plugin>, pace: bool, channel: bool)

  /** `made` counts the connections opened so far and `live` holds those not yet closed. */
  datatype Holder = Holder(
    session: Option<Connection>, hold: Option<Connection>, candidates: seq<Option<Plugin>>, memo: Option<nat>,
    lastUsed: int, made: nat, live: set<nat>)

  const EMPTY := Holder(None, None, [], None, 0, 0, {})

  datatype Factory = Opens | Fails | FactoryThrows

  /** The seams as they answer this time; None is a throw. */
  datatype Seams = Seams(factory: Factory, resolved: Option<seq<Option<Plugin>>>, clock: Option<int>)

  datatype Acquire = Got(session: Connection, candidates: seq<Option<Plugin>>) | Refused | Threw

  const NO_AUTH: nat := 0

  // --- the pieces --------------------------------------------------------------------------------------

  function FreshConnection(h: Holder): Connection { Connection(h.made, {}, false, false) }

  function Registered(h: Holder): Holder { h.(made := h.made + 1, live := h.live + {h.made}) }

  function Closed(h: Holder, c: Option<Connection>): set<nat> { if c.Some? then h.live - {c.value.id} else h.live }

  function Left(deposits: set<Plugin>, candidates: seq<Option<Plugin>>): set<Plugin> {
    set p | p in deposits && Some(p) !in candidates
  }

  /** What the candidates hold for the session goes, and the candidates and the memo with it. */
  function Erased(h: Holder): Holder {
    h.(session := if h.session.None? then None
                  else Some(h.session.value.(deposits := Left(h.session.value.deposits, h.candidates))),
       candidates := [], memo := None)
  }

  function Invalidated(h: Holder): Holder {
    var e := Erased(h);
    e.(session := None, hold := None, live := Closed(e.(live := Closed(e, e.session)), e.hold))
  }

  // --- acquire --------------------------------------------------------------------------------------------

  /** The connection an operation gets when there is no session: the parked one, or a new one. */
  function Taken(h: Holder): (Holder, Connection) {
    if h.hold.Some? then (h.(hold := None), h.hold.value) else (Registered(h), FreshConnection(h))
  }

  /** Resolved before it is kept: a resolver that throws leaves no session, and the connection is closed. */
  function Committed(h: Holder, s: Seams): Option<Holder> {
    if s.resolved.None? then None
    else
      var (kept, c) := Taken(h);
      Some(kept.(session := Some(c), candidates := s.resolved.value))
  }

  function Dropped(h: Holder): Holder {
    var (kept, c) := Taken(h);
    kept.(live := kept.live - {c.id})
  }

  function Stamped(h: Holder, s: Seams): (Holder, Acquire)
    requires h.session.Some?
  {
    if s.clock.None? then (h, Threw) else (h.(lastUsed := s.clock.value), Got(h.session.value, h.candidates))
  }

  function Acquired(h: Holder, s: Seams): (Holder, Acquire) {
    if h.session.Some? then Stamped(h, s)
    else if h.hold.None? && s.factory != Opens then (h, if s.factory == Fails then Refused else Threw)
    else
      var committed := Committed(h, s);
      if committed.None? then (Dropped(h), Threw) else Stamped(committed.value, s)
  }

  // --- memo and resolution ----------------------------------------------------------------------------------

  /** The first candidate that asks for a method decides; None is a plugin that throws. */
  function FirstMethod(candidates: seq<Option<Plugin>>, ask: Plugin -> Option<nat>): Option<nat> {
    if candidates == [] then Some(NO_AUTH)
    else if candidates[0].None? then FirstMethod(candidates[1..], ask)
    else match ask(candidates[0].value)
      case None => None
      case Some(m) => if m != NO_AUTH then Some(m) else FirstMethod(candidates[1..], ask)
  }

  function Memoized(h: Holder, s: Seams, ask: Plugin -> Option<nat>): (Holder, nat) {
    if h.memo.Some? then (h, h.memo.value)
    else
      var (a, got) := Acquired(h, s);
      if !got.Got? then (a, NO_AUTH)
      else match FirstMethod(got.candidates, ask)
        case None => (a, NO_AUTH)
        case Some(m) => (a.(memo := Some(m)), m)
  }

  /** A card no plugin serves is not held. */
  function Resolved(h: Holder, s: Seams, again: Seams, ask: Plugin -> Option<nat>): Holder {
    var (a, got) := Acquired(h, s);
    if !got.Got? then a else if got.candidates == [] then Invalidated(a) else Memoized(a, again, ask).0
  }

  // --- the power hold and the sweep -----------------------------------------------------------------------------

  function Held(h: Holder, f: Factory): Holder {
    if h.hold.Some? || h.session.Some? || f != Opens then h else Registered(h).(hold := Some(FreshConnection(h)))
  }

  function Released(h: Holder): Holder { h.(hold := None, live := Closed(h, h.hold)) }

  /** A session with a live secure channel is closed; any other is emptied and parked. */
  function Demoted(h: Holder): Holder
    requires h.session.Some?
  {
    if h.session.value.channel then Invalidated(h)
    else
      var e := Erased(h);
      e.(session := None, hold := Some(e.session.value.(pace := false, channel := false)), live := Closed(h, h.hold))
  }

  function Swept(h: Holder, holdWanted: bool, clock: Option<int>, f: Factory, idle: nat): Holder {
    if clock.None? then h
    else if h.session.Some? then
      if clock.value - h.lastUsed < idle then h else if holdWanted then Demoted(h) else Invalidated(h)
    else if holdWanted then Held(h, f)
    else h
  }

  // --- what an operation does with its session ---------------------------------------------------------------------

  /** A candidate is given a credential, PACE secrets are cached, a channel comes or goes. */
  datatype Use = Deposit(p: Plugin) | CachePace | OpenChannel | CloseChannel

  function UsedBy(h: Holder, u: Use): Holder {
    if h.session.None? then h
    else
      var c := h.session.value;
      match u
      case Deposit(p) => if Some(p) in h.candidates then h.(session := Some(c.(deposits := c.deposits + {p}))) else h
      case CachePace => h.(session := Some(c.(pace := true)))
      case OpenChannel => h.(session := Some(c.(channel := true)))
      case CloseChannel => h.(session := Some(c.(channel := false)))
  }

  // --- what every run keeps -----------------------------------------------------------------------------------------

  /** The reader's one connection is the session or the hold, never both, and nothing else is open; */
  ghost predicate OneConnection(h: Holder) {
    && (h.session.None? || h.hold.None?)
    && h.live == (if h.session.Some? then {h.session.value.id} else if h.hold.Some? then {h.hold.value.id} else {})
    && (forall id <- h.live :: id < h.made)
  }

  /** candidates and memo exist only with a session, whose deposits are its candidates'; */
  ghost predicate SessionStateOnly(h: Holder) {
    && (h.session.None? ==> h.candidates == [] && h.memo.None?)
    && (h.session.Some? ==> forall p <- h.session.value.deposits :: Some(p) in h.candidates)
  }

  /** a parked connection carries no secret. */
  ghost predicate HoldIsEmpty(h: Holder) {
    h.hold.Some? ==> h.hold.value.deposits == {} && !h.hold.value.pace && !h.hold.value.channel
  }

  ghost predicate Sound(h: Holder) { OneConnection(h) && SessionStateOnly(h) && HoldIsEmpty(h) }

  datatype Step =
    | DoAcquire(seams: Seams)
    | DoInvalidate
    | DoMemo(seams: Seams, ask: Plugin -> Option<nat>)
    | DoResolve(seams: Seams, again: Seams, ask: Plugin -> Option<nat>)
    | DoHold(f: Factory)
    | DoRelease
    | DoSweep(holdWanted: bool, clock: Option<int>, f: Factory)
    | DoUse(u: Use)

  function Apply(h: Holder, s: Step, idle: nat): Holder {
    match s
    case DoAcquire(seams) => Acquired(h, seams).0
    case DoInvalidate => Invalidated(h)
    case DoMemo(seams, ask) => Memoized(h, seams, ask).0
    case DoResolve(seams, again, ask) => Resolved(h, seams, again, ask)
    case DoHold(f) => Held(h, f)
    case DoRelease => Released(h)
    case DoSweep(holdWanted, clock, f) => Swept(h, holdWanted, clock, f, idle)
    case DoUse(u) => UsedBy(h, u)
  }

  lemma {:induction false} InvalidatedIsSound(h: Holder)
    requires Sound(h)
    ensures Sound(Invalidated(h)) && Invalidated(h).live == {}
  {
  }

  lemma {:induction false} AcquiredIsSound(h: Holder, s: Seams)
    requires Sound(h)
    ensures Sound(Acquired(h, s).0)
    ensures Acquired(h, s).1.Got? ==> Acquired(h, s).0.session == Some(Acquired(h, s).1.session)
  {
  }

  lemma {:induction false} DemotedIsSound(h: Holder)
    requires Sound(h) && h.session.Some?
    ensures Sound(Demoted(h))
  {
    InvalidatedIsSound(h);
    assert Erased(h).session.value.deposits == {};
  }

  lemma {:induction false} MemoizedIsSound(h: Holder, s: Seams, ask: Plugin -> Option<nat>)
    requires Sound(h)
    ensures Sound(Memoized(h, s, ask).0)
  {
    AcquiredIsSound(h, s);
  }

  lemma {:induction false} StepKeeps(h: Holder, s: Step, idle: nat)
    requires Sound(h)
    ensures Sound(Apply(h, s, idle))
  {
    match s
    case DoAcquire(seams) => AcquiredIsSound(h, seams);
    case DoInvalidate => InvalidatedIsSound(h);
    case DoMemo(seams, ask) => MemoizedIsSound(h, seams, ask);
    case DoResolve(seams, again, ask) =>
      AcquiredIsSound(h, seams);
      InvalidatedIsSound(Acquired(h, seams).0);
      MemoizedIsSound(Acquired(h, seams).0, again, ask);
    case DoSweep(holdWanted, clock, f) =>
      InvalidatedIsSound(h);
      if h.session.Some? {
        DemotedIsSound(h);
      }
    case _ =>
  }

  function After(steps: seq<Step>, idle: nat): Holder {
    if steps == [] then EMPTY else Apply(After(steps[..|steps| - 1], idle), steps[|steps| - 1], idle)
  }

  /** Over every run of operations, sweeps and throwing seams. */
  lemma {:induction false} EveryRunIsSound(steps: seq<Step>, idle: nat)
    ensures Sound(After(steps, idle)) && |After(steps, idle).live| <= 1
  {
    if steps != [] {
      EveryRunIsSound(steps[..|steps| - 1], idle);
      StepKeeps(After(steps[..|steps| - 1], idle), steps[|steps| - 1], idle);
    }
  }

  // --- the idle sweep ------------------------------------------------------------------------------------------------

  /** The acquires a step makes, each with what its seams were and what it answered. */
  function AcquiresOf(h: Holder, s: Step): seq<(Seams, Acquire)> {
    match s
    case DoAcquire(seams) => [(seams, Acquired(h, seams).1)]
    case DoMemo(seams, _) => if h.memo.Some? then [] else [(seams, Acquired(h, seams).1)]
    case DoResolve(seams, again, _) =>
      var (a, got) := Acquired(h, seams);
      [(seams, got)]
      + if got.Got? && got.candidates != [] && a.memo.None? then [(again, Acquired(a, again).1)] else []
    case _ => []
  }

  function History(steps: seq<Step>, idle: nat): seq<(Seams, Acquire)> {
    if steps == [] then []
    else
      var before := steps[..|steps| - 1];
      History(before, idle) + AcquiresOf(After(before, idle), steps[|steps| - 1])
  }

  /** The clock of the last acquire that answered with a session. */
  function LastStamp(history: seq<(Seams, Acquire)>): Option<int> {
    if history == [] then None
    else
      var (seams, got) := history[|history| - 1];
      if got.Got? then seams.clock else LastStamp(history[..|history| - 1])
  }

  function OrElse(stamp: Option<int>, other: int): int { if stamp.Some? then stamp.value else other }

  lemma {:induction false} LastStampOfBoth(a: seq<(Seams, Acquire)>, b: seq<(Seams, Acquire)>)
    requires forall x <- b :: x.1.Got? ==> x.0.clock.Some?
    ensures LastStamp(a + b) == if LastStamp(b).Some? then LastStamp(b) else LastStamp(a)
  {
    if b == [] {
      assert a + b == a;
    } else {
      assert (a + b)[..|a + b| - 1] == a + b[..|b| - 1];
      LastStampOfBoth(a, b[..|b| - 1]);
    }
  }

  /** An acquire stamps its clock exactly when it answers with a session. */
  lemma {:induction false} AcquireStamps(h: Holder, s: Seams)
    ensures var (a, got) := Acquired(h, s);
      && (got.Got? ==> s.clock == Some(a.lastUsed) && a.candidates == got.candidates)
      && (!got.Got? ==> a.lastUsed == h.lastUsed)
  {
  }

  lemma {:induction false} StepStamps(h: Holder, s: Step, idle: nat)
    ensures forall x <- AcquiresOf(h, s) :: x.1.Got? ==> x.0.clock.Some?
    ensures Apply(h, s, idle).lastUsed == OrElse(LastStamp(AcquiresOf(h, s)), h.lastUsed)
  {
    match s
    case DoAcquire(seams) => AcquireStamps(h, seams);
    case DoMemo(seams, ask) => AcquireStamps(h, seams);
    case DoResolve(seams, again, ask) =>
      AcquireStamps(h, seams);
      var (a, got) := Acquired(h, seams);
      AcquireStamps(a, again);
      LastStampOfBoth([(seams, got)], AcquiresOf(h, s)[1..]);
      assert AcquiresOf(h, s) == [(seams, got)] + AcquiresOf(h, s)[1..];
    case _ =>
  }

  /** Over every run, the time a sweep measures from is the clock of the last acquire that answered with a session. */
  lemma {:induction false} StampIsLastAcquire(steps: seq<Step>, idle: nat)
    ensures After(steps, idle).lastUsed == OrElse(LastStamp(History(steps, idle)), EMPTY.lastUsed)
  {
    if steps != [] {
      var before, s := steps[..|steps| - 1], steps[|steps| - 1];
      StampIsLastAcquire(before, idle);
      StepStamps(After(before, idle), s, idle);
      LastStampOfBoth(History(before, idle), AcquiresOf(After(before, idle), s));
    }
  }

  lemma {:induction false} IdleIsSwept(h: Holder, holdWanted: bool, clock: Option<int>, f: Factory, idle: nat)
    requires h.session.Some?
    ensures var after := Swept(h, holdWanted, clock, f, idle);
      if clock.Some? && clock.value - h.lastUsed >= idle then after.session.None? else after == h
  {
  }

  lemma {:induction false} OneStepOn(steps: seq<Step>, s: Step, idle: nat)
    ensures After(steps + [s], idle) == Apply(After(steps, idle), s, idle)
  {
    assert (steps + [s])[..|steps|] == steps;
  }

  /** After any run, a sweep ends a session exactly when the last successful acquire is the idle time ago; otherwise it
      changes nothing at all. */
  lemma {:induction false} SweepEndsExactlyTheIdle(
    steps: seq<Step>, idle: nat, holdWanted: bool, clock: Option<int>, f: Factory)
    requires After(steps, idle).session.Some?
    ensures var before, after := After(steps, idle), After(steps + [DoSweep(holdWanted, clock, f)], idle);
      if clock.Some? && clock.value - OrElse(LastStamp(History(steps, idle)), EMPTY.lastUsed) >= idle
      then after.session.None? else after == before
  {
    StampIsLastAcquire(steps, idle);
    OneStepOn(steps, DoSweep(holdWanted, clock, f), idle);
    IdleIsSwept(After(steps, idle), holdWanted, clock, f, idle);
  }

  // --- the power hold -------------------------------------------------------------------------------------------

  /** A reader a hold is wanted for is without any connection after a sweep exactly in two cases: there was none and the
      clock or the factory did not let one be opened, or an idle session with a live secure channel was closed. */
  lemma {:induction false} HoldIsKeptExactly(h: Holder, clock: Option<int>, f: Factory, idle: nat)
    requires Sound(h)
    ensures Swept(h, true, clock, f, idle).live == {} <==>
      || (h.session.None? && h.hold.None? && (clock.None? || f != Opens))
      || (h.session.Some? && clock.Some? && clock.value - h.lastUsed >= idle && h.session.value.channel)
  {
    InvalidatedIsSound(h);
  }

  /** A run that ends so: a session opens its channel, goes idle, and the sweep that wants a hold closes it. */
  lemma {:induction false} LiveChannelLosesTheHold(resolved: seq<Option<Plugin>>, now: int, idle: nat)
    ensures After([DoAcquire(Seams(Opens, Some(resolved), Some(now))), DoUse(OpenChannel),
                   DoSweep(true, Some(now + idle), Opens)], idle).live == {}
  {
    var acquire, use := DoAcquire(Seams(Opens, Some(resolved), Some(now))), DoUse(OpenChannel);
    var steps := [acquire, use, DoSweep(true, Some(now + idle), Opens)];
    assert steps[..2] == [acquire, use] && steps[..2][..1] == [acquire] && [acquire][..0] == [];
    var session := Connection(0, {}, false, false);
    assert After([acquire], idle) == Holder(Some(session), None, resolved, None, now, 1, {0});
    assert After(steps[..2], idle) == Holder(Some(session.(channel := true)), None, resolved, None, now, 1, {0});
  }

  // --- the holder itself ---------------------------------------------------------------------------------------------

  class CardSessionHolder {
    const idleClose: nat
    var session: Option<Connection>
    var hold: Option<Connection>
    var candidates: seq<Option<Plugin>>
    var memo: Option<nat>
    var lastUsed: int
    var made: nat
    ghost var live: set<nat>

    ghost function View(): Holder
      reads this
    {
      Holder(session, hold, candidates, memo, lastUsed, made, live)
    }

    ghost predicate Valid()
      reads this
    {
      Sound(View())
    }

    constructor (idle: nat)
      ensures Valid() && View() == EMPTY && idleClose == idle
    {
      idleClose, session, hold, candidates, memo, lastUsed, made := idle, None, None, [], None, 0, 0;
      live := {};
    }

    method Connect() returns (c: Connection)
      modifies this`made, this`live
      ensures View() == Registered(old(View())) && c == FreshConnection(old(View()))
    {
      c := Connection(made, {}, false, false);
      live := live + {made};
      made := made + 1;
    }

    method Acquire(s: Seams) returns (r: Acquire)
      requires Valid()
      modifies this
      ensures (View(), r) == Acquired(old(View()), s) && Valid()
    {
      AcquiredIsSound(View(), s);
      if session.None? {
        var c;
        if hold.Some? {
          c, hold := hold.value, None;
        } else {
          if s.factory == Fails {
            return Refused;
          }
          if s.factory == FactoryThrows {
            return Threw;
          }
          c := Connect();
        }
        if s.resolved.None? {
          live := live - {c.id};
          return Threw;
        }
        session, candidates := Some(c), s.resolved.value;
      }
      if s.clock.None? {
        return Threw;
      }
      lastUsed := s.clock.value;
      return Got(session.value, candidates);
    }

    method EraseCredentials()
      modifies this`session, this`candidates, this`memo
      ensures View() == Erased(old(View()))
    {
      if session.Some? {
        var deposits := session.value.deposits;
        var i := 0;
        assert deposits == Left(deposits, []) && candidates[..0] == [];
        while i < |candidates|
          invariant 0 <= i <= |candidates|
          invariant deposits == Left(session.value.deposits, candidates[..i])
        {
          assert candidates[..i + 1] == candidates[..i] + [candidates[i]];
          if candidates[i].Some? {
            deposits := deposits - {candidates[i].value};
          }
          i := i + 1;
        }
        assert candidates[..i] == candidates;
        session := Some(session.value.(deposits := deposits));
      }
      candidates, memo := [], None;
    }

    method Invalidate()
      requires Valid()
      modifies this
      ensures View() == Invalidated(old(View())) && Valid()
    {
      InvalidatedIsSound(View());
      EraseCredentials();
      if session.Some? {
        live := live - {session.value.id};
      }
      if hold.Some? {
        live := live - {hold.value.id};
      }
      session, hold := None, None;
    }

    method AcquireHold(f: Factory)
      requires Valid()
      modifies this
      ensures View() == Held(old(View()), f) && Valid()
    {
      if hold.None? && session.None? && f == Opens {
        var c := Connect();
        hold := Some(c);
      }
    }

    method Demote()
      requires Valid() && session.Some?
      modifies this
      ensures View() == Demoted(old(View())) && Valid()
    {
      DemotedIsSound(View());
      if session.value.channel {
        Invalidate();
        return;
      }
      EraseCredentials();
      session := Some(session.value.(pace := false));
      session := Some(session.value.(channel := false));
      hold, session := session, None;
    }

    method Sweep(holdWanted: bool, clock: Option<int>, f: Factory)
      requires Valid()
      modifies this
      ensures View() == Swept(old(View()), holdWanted, clock, f, idleClose) && Valid()
    {
      if clock.None? {
        return;
      }
      if session.Some? {
        if clock.value - lastUsed < idleClose {
          return;
        }
        if holdWanted {
          Demote();
        } else {
          Invalidate();
        }
        return;
      }
      if holdWanted {
        AcquireHold(f);
      }
    }
  }
}
