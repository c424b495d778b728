/** Every interleaving of any number of threads through the prompt gate. */
module PromptRuns {
  import opened Core
  import opened Runs
  import opened PromptGate

  /** Where a thread stands in acquire, hold, release. A cancel callback stays registered until Leaving ends. */
  datatype Thread =
    | Registered(key: Key, token: nat)               // callback registered, mutex not yet taken
    | Parked(key: Key, token: nat, ticket: nat)      // waiting on the condition variable
    | Woken(key: Key, token: nat, ticket: nat)       // notified, about to re-take the mutex
    | Passed(key: Key, token: nat, ticket: nat)      // the wait is over, mutex held
    | Leaving(key: Key, token: nat, granted: bool)   // mutex released, callback being deregistered
    | Holding(key: Key)                              // acquire returned true

  /** The whole system, with what has happened so far kept for the statements about it: which card each ticket was
      drawn for and by whom, who holds each card's slot, the admissions in order, and the tickets given back. */
  datatype World = World(
    gates: Gates,
    threads: map<nat, Thread>,
    cancelled: set<nat>,
    callbacks: set<nat>,
    mutex: Option<nat>,
    cardOf: map<nat, Key>,
    owner: map<nat, nat>,
    holder: map<Key, nat>,
    admissions: seq<(Key, nat)>,
    givenBack: set<nat>)

  const START := World(Gates(map[], 0), map[], {}, {}, None, map[], map[], map[], [], {})

  function NotifyAll(threads: map<nat, Thread>): (r: map<nat, Thread>)
    ensures r.Keys == threads.Keys
    ensures forall t <- threads ::
      r[t] == if threads[t].Parked? then Woken(threads[t].key, threads[t].token, threads[t].ticket) else threads[t]
  {
    map t | t in threads ::
      if threads[t].Parked? then Woken(threads[t].key, threads[t].token, threads[t].ticket) else threads[t]
  }

  datatype Step =
    | Register(t: nat, key: Key, token: nat)
    | Cancel(token: nat)
    | RunCallback(t: nat)
    | EnterQueue(t: nat)
    | Recheck(t: nat)
    | WakeSpuriously(t: nat)
    | Conclude(t: nat)
    | Deregister(t: nat)
    | Release(t: nat)

  /** The wait's predicate. */
  predicate WaitIsOver(w: World, key: Key, token: nat, ticket: nat) {
    token in w.cancelled || MayEnter(w.gates, key, ticket)
  }

  predicate Enabled(w: World, s: Step) {
    match s
    case Register(t, key, token) => t !in w.threads && (token in w.cancelled ==> w.mutex.None?)
    case Cancel(token) => token !in w.cancelled
    case RunCallback(t) => t in w.callbacks && w.mutex.None?
    case EnterQueue(t) => t in w.threads && w.threads[t].Registered? && w.mutex.None?
    case Recheck(t) => t in w.threads && w.threads[t].Woken? && w.mutex.None?
    case WakeSpuriously(t) => t in w.threads && w.threads[t].Parked?
    case Conclude(t) => t in w.threads && w.threads[t].Passed?
    case Deregister(t) => t in w.threads && w.threads[t].Leaving?
    case Release(t) => t in w.threads && w.threads[t].Holding? && w.mutex.None?
  }

  /** A wait either goes on, parked, or ends with the mutex kept. */
  function Waited(w: World, t: nat, key: Key, token: nat, ticket: nat): World {
    if WaitIsOver(w, key, token, ticket)
    then w.(threads := w.threads[t := Passed(key, token, ticket)], mutex := Some(t))
    else w.(threads := w.threads[t := Parked(key, token, ticket)])
  }

  function Drawn(w: World, t: nat, key: Key): World {
    w.(gates := Enqueued(w.gates, key), cardOf := w.cardOf[w.gates.nextTicket := key],
       owner := w.owner[w.gates.nextTicket := t])
  }

  predicate ListensTo(th: Thread, token: nat) { !th.Holding? && th.token == token }

  function Listeners(w: World, token: nat): set<nat> { set t | t in w.threads && ListensTo(w.threads[t], token) }

  function Effect(w: World, s: Step): World
    requires Enabled(w, s)
  {
    match s
    case Register(t, key, token) =>
      // an already cancelled token runs the callback at once, on this thread
      w.(threads := (if token in w.cancelled then NotifyAll(w.threads) else w.threads)[t := Registered(key, token)])
    case Cancel(token) => w.(cancelled := w.cancelled + {token}, callbacks := w.callbacks + Listeners(w, token))
    case RunCallback(t) => w.(callbacks := w.callbacks - {t}, threads := NotifyAll(w.threads))
    case EnterQueue(t) =>
      var th := w.threads[t];
      Waited(Drawn(w, t, th.key), t, th.key, th.token, w.gates.nextTicket)
    case Recheck(t) =>
      var th := w.threads[t];
      Waited(w, t, th.key, th.token, th.ticket)
    case WakeSpuriously(t) =>
      var th := w.threads[t];
      w.(threads := w.threads[t := Woken(th.key, th.token, th.ticket)])
    case Conclude(t) =>
      // the token is read again: cancellation wins even if the slot is free
      var th := w.threads[t];
      if th.token in w.cancelled
      then w.(gates := Surrendered(w.gates, th.key, th.ticket), mutex := None,
              threads := NotifyAll(w.threads)[t := Leaving(th.key, th.token, false)],
              givenBack := w.givenBack + {th.ticket})
      else w.(gates := Taken(w.gates, th.key), mutex := None,
              threads := w.threads[t := Leaving(th.key, th.token, true)],
              holder := w.holder[th.key := t], admissions := w.admissions + [(th.key, th.ticket)])
    case Deregister(t) =>
      var th := w.threads[t];
      w.(callbacks := w.callbacks - {t},
         threads := if th.granted then w.threads[t := Holding(th.key)] else w.threads - {t})
    case Release(t) =>
      var th := w.threads[t];
      w.(gates := Released(w.gates, th.key), threads := NotifyAll(w.threads) - {t}, holder := w.holder - {th.key})
  }

  /** A step that is not enabled does not happen. */
  function Apply(w: World, s: Step): World { if Enabled(w, s) then Effect(w, s) else w }

  // --- what every reachable world satisfies -------------------------------------------------

  type Threads = map<nat, Thread>

  /** What a thread is to the gates: a queued ticket, the owner of a slot, or nothing. */
  datatype Standing = Idle | Queued(key: Key, ticket: nat) | InSlot(key: Key)

  function StandingOf(threads: Threads, t: nat): Standing {
    if t !in threads then Idle
    else match threads[t]
      case Parked(key, _, ticket) => Queued(key, ticket)
      case Woken(key, _, ticket) => Queued(key, ticket)
      case Passed(key, _, ticket) => Queued(key, ticket)
      case Holding(key) => InSlot(key)
      case Leaving(key, _, true) => InSlot(key)
      case _ => Idle
  }

  ghost predicate Ascending(s: seq<nat>) { forall i, j :: 0 <= i < j < |s| ==> s[i] < s[j] }

  /** Waiting threads and queued tickets are the same thing, */
  ghost predicate ThreadsAreQueued(g: Gates, threads: Threads, owner: map<nat, nat>) {
    forall t <- threads, k, n :: StandingOf(threads, t) == Queued(k, n) ==>
      n in WaitersOf(g, k) && n in owner && owner[n] == t
  }

  /** in both directions. */
  ghost predicate QueuedAreThreads(g: Gates, threads: Threads, owner: map<nat, nat>) {
    forall k, n :: n in WaitersOf(g, k) ==> n in owner && StandingOf(threads, owner[n]) == Queued(k, n)
  }

  ghost predicate QueuesAscend(g: Gates) {
    forall k :: Ascending(WaitersOf(g, k))
  }

  ghost predicate QueuedWereDrawn(g: Gates) { forall k, n :: n in WaitersOf(g, k) ==> n < g.nextTicket }

  /** A slot is taken exactly while one thread, and only one, holds it. */
  ghost predicate SlotsMatchHolders(g: Gates, threads: Threads, holder: map<Key, nat>) {
    && (forall k :: Held(g, k) ==> k in holder)
    && (forall k <- holder :: Held(g, k) && StandingOf(threads, holder[k]) == InSlot(k))
    && (forall t <- threads, k :: StandingOf(threads, t) == InSlot(k) ==> k in holder && holder[k] == t)
  }

  /** The mutex is held across a step only by a thread whose wait has ended. */
  ghost predicate MutexMatches(g: Gates, threads: Threads, cancelled: set<nat>, mutex: Option<nat>) {
    && (mutex.Some? ==> mutex.value in threads && threads[mutex.value].Passed?)
    && (forall t <- threads :: threads[t].Passed? ==>
          mutex == Some(t)
          && (threads[t].token in cancelled || MayEnter(g, threads[t].key, threads[t].ticket)))
  }

  /** No wake-up is lost: a parked thread's wait is not over, unless its own cancel callback is still to notify it. */
  ghost predicate NoLostWakeup(g: Gates, threads: Threads, cancelled: set<nat>, callbacks: set<nat>) {
    forall t <- threads :: threads[t].Parked? ==>
      && !MayEnter(g, threads[t].key, threads[t].ticket)
      && (threads[t].token in cancelled ==> t in callbacks)
  }

  /** Every ticket drawn is queued, admitted or given back, */
  ghost predicate TicketsAccountedFor(
    g: Gates, cardOf: map<nat, Key>, admissions: seq<(Key, nat)>, givenBack: set<nat>) {
    forall n :: 0 <= n < g.nextTicket ==>
      n in cardOf && (n in WaitersOf(g, cardOf[n]) || (cardOf[n], n) in admissions || n in givenBack)
  }

  /** and queued only for its own card. */
  ghost predicate QueuedForOwnCard(g: Gates, cardOf: map<nat, Key>) {
    forall k, n :: n in WaitersOf(g, k) ==> n in cardOf && cardOf[n] == k
  }

  /** Admissions of a card follow its tickets */
  ghost predicate AdmissionsInOrder(admissions: seq<(Key, nat)>) {
    forall i, j :: 0 <= i < j < |admissions| && admissions[i].0 == admissions[j].0 ==> admissions[i].1 < admissions[j].1
  }

  /** and run ahead of its queue. */
  ghost predicate AdmittedBeforeQueued(g: Gates, admissions: seq<(Key, nat)>) {
    && (forall a <- admissions :: a.1 < g.nextTicket)
    && (forall a <- admissions, n :: n in WaitersOf(g, a.0) ==> a.1 < n)
  }

  ghost predicate GatesInv(w: World) {
    && QueuesAscend(w.gates) && QueuedWereDrawn(w.gates) && NoIdleGate(w.gates) && QueuedForOwnCard(w.gates, w.cardOf)
    && TicketsAccountedFor(w.gates, w.cardOf, w.admissions, w.givenBack)
    && AdmissionsInOrder(w.admissions) && AdmittedBeforeQueued(w.gates, w.admissions)
  }

  ghost predicate StandingInv(w: World) {
    && ThreadsAreQueued(w.gates, w.threads, w.owner) && QueuedAreThreads(w.gates, w.threads, w.owner)
    && SlotsMatchHolders(w.gates, w.threads, w.holder)
  }

  ghost predicate WaitInv(w: World) {
    MutexMatches(w.gates, w.threads, w.cancelled, w.mutex) && NoLostWakeup(w.gates, w.threads, w.cancelled, w.callbacks)
  }

  ghost predicate Inv(w: World) { GatesInv(w) && StandingInv(w) && WaitInv(w) }

  // --- steps that leave the gates alone -----------------------------------------------------------

  ghost predicate LeavesGates(s: Step) { !s.EnterQueue? && !s.Conclude? && !s.Release? }

  lemma {:induction false} StandingsUnmoved(w: World, s: Step, t: nat)
    requires Enabled(w, s) && LeavesGates(s)
    ensures StandingOf(Apply(w, s).threads, t) == StandingOf(w.threads, t)
  {
  }

  lemma {:induction false} SameStandings(w: World, threads: Threads)
    requires StandingInv(w) && forall t :: StandingOf(threads, t) == StandingOf(w.threads, t)
    ensures StandingInv(w.(threads := threads))
  {
  }

  lemma {:induction false} QuietStepKeepsWaits(w: World, s: Step)
    requires WaitInv(w) && Enabled(w, s) && LeavesGates(s)
    ensures WaitInv(Apply(w, s))
  {
  }

  lemma {:induction false} QuietStepKeeps(w: World, s: Step)
    requires Inv(w) && Enabled(w, s) && LeavesGates(s)
    ensures Inv(Apply(w, s))
  {
    var after := Apply(w, s);
    forall t ensures StandingOf(after.threads, t) == StandingOf(w.threads, t) { StandingsUnmoved(w, s, t); }
    SameStandings(w, after.threads);
    QuietStepKeepsWaits(w, s);
  }

  // --- queues under each operation ----------------------------------------------------------------

  lemma {:induction false} DroppedElements(waiters: seq<nat>, ticket: nat, n: nat)
    requires Ascending(waiters)
    ensures n in Dropped(waiters, ticket) <==> n in waiters && n != ticket
  {
    if waiters != [] {
      assert forall i :: 0 < i < |waiters| ==> waiters[0] < waiters[i];
      assert forall m <- waiters[1..] :: waiters[0] < m;
      DroppedElements(waiters[1..], ticket, n);
      assert waiters == [waiters[0]] + waiters[1..];
    }
  }

  lemma {:induction false} DroppedAscends(waiters: seq<nat>, ticket: nat)
    requires Ascending(waiters)
    ensures Ascending(Dropped(waiters, ticket))
  {
    if waiters != [] && waiters[0] != ticket {
      var rest := Dropped(waiters[1..], ticket);
      DroppedAscends(waiters[1..], ticket);
      forall i | 0 <= i < |rest| ensures waiters[0] < rest[i] {
        DroppedElements(waiters[1..], ticket, rest[i]);
      }
    }
  }

  /** The queues of two worlds differ by one ticket. */
  ghost predicate TicketAdded(g: Gates, r: Gates, key: Key, ticket: nat) {
    forall k, n :: n in WaitersOf(r, k) <==> n in WaitersOf(g, k) || (k == key && n == ticket)
  }

  ghost predicate TicketRemoved(g: Gates, r: Gates, key: Key, ticket: nat) {
    forall k, n :: n in WaitersOf(r, k) <==> n in WaitersOf(g, k) && !(k == key && n == ticket)
  }

  ghost predicate SameSlots(g: Gates, r: Gates) { forall k :: Held(r, k) <==> Held(g, k) }

  lemma {:induction false} EnqueuedTickets(g: Gates, key: Key)
    requires QueuesAscend(g) && QueuedWereDrawn(g)
    ensures var r := Enqueued(g, key);
      TicketAdded(g, r, key, g.nextTicket) && SameSlots(g, r) && QueuesAscend(r) && r.nextTicket == g.nextTicket + 1
  {
    var waiters, n, r := WaitersOf(g, key), g.nextTicket, Enqueued(g, key);
    assert WaitersOf(r, key) == waiters + [n];
    assert forall i :: 0 <= i < |waiters| ==> waiters[i] in waiters;
    assert forall k :: k != key ==> WaitersOf(r, k) == WaitersOf(g, k);
  }

  lemma {:induction false} SurrenderedTickets(g: Gates, key: Key, ticket: nat)
    requires QueuesAscend(g)
    ensures var r := Surrendered(g, key, ticket);
      TicketRemoved(g, r, key, ticket) && SameSlots(g, r) && QueuesAscend(r) && r.nextTicket == g.nextTicket
  {
    var waiters := WaitersOf(g, key);
    DroppedAscends(waiters, ticket);
    forall n ensures n in Dropped(waiters, ticket) <==> n in waiters && n != ticket {
      DroppedElements(waiters, ticket, n);
    }
  }

  lemma {:induction false} TakenTickets(g: Gates, key: Key, ticket: nat)
    requires QueuesAscend(g) && AtHead(g, key, ticket)
    ensures var r := Taken(g, key);
      && TicketRemoved(g, r, key, ticket) && QueuesAscend(r) && r.nextTicket == g.nextTicket
      && (forall k :: Held(r, k) <==> Held(g, k) || k == key) && forall n <- WaitersOf(r, key) :: ticket < n
  {
    var waiters, r := WaitersOf(g, key), Taken(g, key);
    assert Ascending(waiters);
    assert WaitersOf(r, key) == waiters[1..];
    assert waiters == [ticket] + waiters[1..];
  }

  // --- taking a ticket -----------------------------------------------------------------------------

  lemma {:induction false} DrawingKeepsGates(w: World, t: nat, key: Key)
    requires GatesInv(w)
    ensures GatesInv(Drawn(w, t, key))
  {
    EnqueuedTickets(w.gates, key);
    DrawingKeepsTickets(w, Drawn(w, t, key).gates, key);
  }

  lemma {:induction false} DrawingKeepsTickets(w: World, r: Gates, key: Key)
    requires GatesInv(w)
    requires TicketAdded(w.gates, r, key, w.gates.nextTicket) && r.nextTicket == w.gates.nextTicket + 1
    ensures var cardOf := w.cardOf[w.gates.nextTicket := key];
      && QueuedWereDrawn(r) && QueuedForOwnCard(r, cardOf) && AdmittedBeforeQueued(r, w.admissions)
      && TicketsAccountedFor(r, cardOf, w.admissions, w.givenBack)
  {
  }

  lemma {:induction false} DrawingKeepsStandings(w: World, r: Gates, t: nat, key: Key, threads: Threads)
    requires StandingInv(w) && QueuedWereDrawn(w.gates) && StandingOf(w.threads, t) == Idle
    requires TicketAdded(w.gates, r, key, w.gates.nextTicket) && SameSlots(w.gates, r)
    requires StandingOf(threads, t) == Queued(key, w.gates.nextTicket)
    requires forall u :: u != t ==> StandingOf(threads, u) == StandingOf(w.threads, u)
    ensures StandingInv(w.(gates := r, owner := w.owner[w.gates.nextTicket := t], threads := threads))
  {
  }

  /** A new ticket at the back of a queue lets nobody in who was waiting. */
  lemma {:induction false} DrawingWakesNobody(w: World, t: nat, key: Key)
    requires NoLostWakeup(w.gates, w.threads, w.cancelled, w.callbacks)
    requires QueuedWereDrawn(w.gates) && ThreadsAreQueued(w.gates, w.threads, w.owner)
    ensures NoLostWakeup(Drawn(w, t, key).gates, w.threads, w.cancelled, w.callbacks)
  {
    var after := Drawn(w, t, key).gates;
    forall u <- w.threads | w.threads[u].Parked?
      ensures !MayEnter(after, w.threads[u].key, w.threads[u].ticket)
    {
      assert StandingOf(w.threads, u) == Queued(w.threads[u].key, w.threads[u].ticket);
      assert w.threads[u].ticket in WaitersOf(w.gates, w.threads[u].key);
    }
  }

  lemma {:induction false} EnterQueueKeepsWaits(w: World, t: nat)
    requires WaitInv(w) && QueuedWereDrawn(w.gates) && ThreadsAreQueued(w.gates, w.threads, w.owner)
    requires Enabled(w, EnterQueue(t))
    ensures WaitInv(Apply(w, EnterQueue(t)))
  {
    DrawingWakesNobody(w, t, w.threads[t].key);
  }

  lemma {:induction false} EnteredStandings(w: World, t: nat, u: nat)
    requires Enabled(w, EnterQueue(t))
    ensures StandingOf(Apply(w, EnterQueue(t)).threads, u) ==
            if u == t then Queued(w.threads[t].key, w.gates.nextTicket) else StandingOf(w.threads, u)
  {
  }

  lemma {:induction false} EnterQueueKeepsStandings(w: World, t: nat)
    requires StandingInv(w) && QueuesAscend(w.gates) && QueuedWereDrawn(w.gates) && Enabled(w, EnterQueue(t))
    ensures StandingInv(Apply(w, EnterQueue(t)))
  {
    var th, after := w.threads[t], Apply(w, EnterQueue(t));
    EnqueuedTickets(w.gates, th.key);
    forall u { EnteredStandings(w, t, u); }
    DrawingKeepsStandings(w, after.gates, t, th.key, after.threads);
  }

  lemma {:induction false} EnterQueueKeeps(w: World, t: nat)
    requires Inv(w) && Enabled(w, EnterQueue(t))
    ensures Inv(Apply(w, EnterQueue(t)))
  {
    DrawingKeepsGates(w, t, w.threads[t].key);
    EnterQueueKeepsStandings(w, t);
    EnterQueueKeepsWaits(w, t);
  }

  // --- giving a ticket back, or being admitted --------------------------------------------------------

  lemma {:induction false} RemovalKeepsTickets(w: World, r: Gates, key: Key, ticket: nat)
    requires QueuedWereDrawn(w.gates) && QueuedForOwnCard(w.gates, w.cardOf)
    requires AdmittedBeforeQueued(w.gates, w.admissions)
    requires TicketRemoved(w.gates, r, key, ticket) && r.nextTicket == w.gates.nextTicket
    ensures QueuedWereDrawn(r) && QueuedForOwnCard(r, w.cardOf) && AdmittedBeforeQueued(r, w.admissions)
  {
  }

  lemma {:induction false} RemovalKeepsThreads(w: World, r: Gates, t: nat, key: Key, ticket: nat, threads: Threads)
    requires ThreadsAreQueued(w.gates, w.threads, w.owner) && QueuedAreThreads(w.gates, w.threads, w.owner)
    requires TicketRemoved(w.gates, r, key, ticket)
    requires StandingOf(w.threads, t) == Queued(key, ticket) && !StandingOf(threads, t).Queued?
    requires forall u :: u != t ==> StandingOf(threads, u) == StandingOf(w.threads, u)
    ensures ThreadsAreQueued(r, threads, w.owner) && QueuedAreThreads(r, threads, w.owner)
  {
  }

  lemma {:induction false} SurrenderKeepsGates(w: World, key: Key, ticket: nat)
    requires GatesInv(w)
    ensures GatesInv(w.(gates := Surrendered(w.gates, key, ticket), givenBack := w.givenBack + {ticket}))
  {
    SurrenderedTickets(w.gates, key, ticket);
    RemovalKeepsTickets(w, Surrendered(w.gates, key, ticket), key, ticket);
  }

  lemma {:induction false} TakingKeepsGates(w: World, key: Key, ticket: nat)
    requires GatesInv(w) && AtHead(w.gates, key, ticket)
    ensures GatesInv(w.(gates := Taken(w.gates, key), admissions := w.admissions + [(key, ticket)]))
  {
    TakenTickets(w.gates, key, ticket);
    RemovalKeepsTickets(w, Taken(w.gates, key), key, ticket);
    assert ticket in WaitersOf(w.gates, key);
    var after := w.admissions + [(key, ticket)];
    assert forall a <- after :: a in w.admissions || a == (key, ticket);
    assert (key, ticket) in after && forall a <- w.admissions :: a in after;
  }

  lemma {:induction false} ConcludedStandings(w: World, t: nat, u: nat)
    requires Enabled(w, Conclude(t))
    ensures StandingOf(Apply(w, Conclude(t)).threads, u) ==
            if u != t then StandingOf(w.threads, u)
            else if w.threads[t].token in w.cancelled then Idle
            else InSlot(w.threads[t].key)
  {
  }

  lemma {:induction false} SlotsUnmoved(
    g: Gates, r: Gates, threads: Threads, after: Threads, holder: map<Key, nat>, t: nat)
    requires SlotsMatchHolders(g, threads, holder) && SameSlots(g, r)
    requires !StandingOf(threads, t).InSlot? && !StandingOf(after, t).InSlot?
    requires forall u :: u != t ==> StandingOf(after, u) == StandingOf(threads, u)
    ensures SlotsMatchHolders(r, after, holder)
  {
  }

  lemma {:induction false} SlotTaken(g: Gates, r: Gates, threads: Threads, after: Threads, holder: map<Key, nat>,
                                     t: nat, key: Key)
    requires SlotsMatchHolders(g, threads, holder)
    requires !Held(g, key) && forall k :: Held(r, k) <==> Held(g, k) || k == key
    requires !StandingOf(threads, t).InSlot? && StandingOf(after, t) == InSlot(key)
    requires forall u :: u != t ==> StandingOf(after, u) == StandingOf(threads, u)
    ensures SlotsMatchHolders(r, after, holder[key := t])
  {
  }

  lemma {:induction false} GivingBackKeepsStandings(w: World, t: nat)
    requires StandingInv(w) && QueuesAscend(w.gates)
    requires Enabled(w, Conclude(t)) && w.threads[t].token in w.cancelled
    ensures StandingInv(Apply(w, Conclude(t)))
  {
    var th, after := w.threads[t], Apply(w, Conclude(t));
    SurrenderedTickets(w.gates, th.key, th.ticket);
    forall u { ConcludedStandings(w, t, u); }
    RemovalKeepsThreads(w, after.gates, t, th.key, th.ticket, after.threads);
    SlotsUnmoved(w.gates, after.gates, w.threads, after.threads, w.holder, t);
  }

  lemma {:induction false} AdmissionKeepsStandings(w: World, t: nat)
    requires StandingInv(w) && QueuesAscend(w.gates)
    requires Enabled(w, Conclude(t)) && w.threads[t].token !in w.cancelled
    requires MayEnter(w.gates, w.threads[t].key, w.threads[t].ticket)
    ensures StandingInv(Apply(w, Conclude(t)))
  {
    var th, after := w.threads[t], Apply(w, Conclude(t));
    TakenTickets(w.gates, th.key, th.ticket);
    forall u { ConcludedStandings(w, t, u); }
    RemovalKeepsThreads(w, after.gates, t, th.key, th.ticket, after.threads);
    SlotTaken(w.gates, after.gates, w.threads, after.threads, w.holder, t, th.key);
  }

  lemma {:induction false} ConcludeKeepsWaits(w: World, t: nat)
    requires WaitInv(w) && Enabled(w, Conclude(t))
    ensures WaitInv(Apply(w, Conclude(t)))
  {
  }

  lemma {:induction false} ConcludeKeeps(w: World, t: nat)
    requires Inv(w) && Enabled(w, Conclude(t))
    ensures Inv(Apply(w, Conclude(t)))
  {
    var th := w.threads[t];
    ConcludeKeepsWaits(w, t);
    if th.token in w.cancelled {
      SurrenderKeepsGates(w, th.key, th.ticket);
      GivingBackKeepsStandings(w, t);
    } else {
      TakingKeepsGates(w, th.key, th.ticket);
      AdmissionKeepsStandings(w, t);
    }
  }

  // --- leaving -------------------------------------------------------------------------------------------

  lemma {:induction false} ReleasingKeepsGates(w: World, key: Key)
    requires GatesInv(w)
    ensures GatesInv(w.(gates := Released(w.gates, key)))
  {
  }

  lemma {:induction false} SlotFreed(g: Gates, r: Gates, threads: Threads, after: Threads, holder: map<Key, nat>,
                                     t: nat, key: Key)
    requires SlotsMatchHolders(g, threads, holder)
    requires forall k :: Held(r, k) <==> Held(g, k) && k != key
    requires StandingOf(threads, t) == InSlot(key) && StandingOf(after, t) == Idle
    requires forall u :: u != t ==> StandingOf(after, u) == StandingOf(threads, u)
    ensures SlotsMatchHolders(r, after, holder - {key})
  {
  }

  lemma {:induction false} ReleasedStandings(w: World, t: nat, u: nat)
    requires Enabled(w, Release(t))
    ensures StandingOf(Apply(w, Release(t)).threads, u) == if u == t then Idle else StandingOf(w.threads, u)
  {
  }

  lemma {:induction false} QueuesUnmoved(
    g: Gates, r: Gates, threads: Threads, after: Threads, owner: map<nat, nat>, t: nat)
    requires ThreadsAreQueued(g, threads, owner) && QueuedAreThreads(g, threads, owner)
    requires !StandingOf(threads, t).Queued? && !StandingOf(after, t).Queued?
    requires forall k :: WaitersOf(r, k) == WaitersOf(g, k)
    requires forall u :: u != t ==> StandingOf(after, u) == StandingOf(threads, u)
    ensures ThreadsAreQueued(r, after, owner) && QueuedAreThreads(r, after, owner)
  {
  }

  lemma {:induction false} ReleaseKeepsStandings(w: World, t: nat)
    requires StandingInv(w) && Enabled(w, Release(t))
    ensures StandingInv(Apply(w, Release(t)))
  {
    var th, after := w.threads[t], Apply(w, Release(t));
    forall u { ReleasedStandings(w, t, u); }
    QueuesUnmoved(w.gates, after.gates, w.threads, after.threads, w.owner, t);
    SlotFreed(w.gates, after.gates, w.threads, after.threads, w.holder, t, th.key);
  }

  lemma {:induction false} ReleaseKeepsWaits(w: World, t: nat)
    requires WaitInv(w) && Enabled(w, Release(t))
    ensures WaitInv(Apply(w, Release(t)))
  {
  }

  lemma {:induction false} ReleaseKeeps(w: World, t: nat)
    requires Inv(w) && Enabled(w, Release(t))
    ensures Inv(Apply(w, Release(t)))
  {
    ReleasingKeepsGates(w, w.threads[t].key);
    ReleaseKeepsStandings(w, t);
    ReleaseKeepsWaits(w, t);
  }

  // --- every run --------------------------------------------------------------------------------------------

  ghost const MACHINE := Machine(Enabled, Apply)

  ghost predicate IsRun(steps: seq<Step>) { CanRun(MACHINE, START, steps) }

  ghost function After(steps: seq<Step>): World { Ran(MACHINE, START, steps) }

  lemma {:induction false} StepKeeps(w: World, s: Step)
    requires Inv(w) && Enabled(w, s)
    ensures Inv(Apply(w, s))
  {
    match s
    case EnterQueue(t) => EnterQueueKeeps(w, t);
    case Conclude(t) => ConcludeKeeps(w, t);
    case Release(t) => ReleaseKeeps(w, t);
    case _ => QuietStepKeeps(w, s);
  }

  lemma {:induction false} EveryRunIsSound(steps: seq<Step>)
    requires IsRun(steps)
    ensures Inv(After(steps))
  {
    forall w, s | Inv(w) && Enabled(w, s) ensures Inv(Apply(w, s)) {
      StepKeeps(w, s);
    }
    RunsKeep(MACHINE, Inv, START, steps);
  }

  // --- what that says about every run --------------------------------------------------------------------------

  /** At most one thread holds a card. */
  lemma {:induction false} OneHolderPerCard(steps: seq<Step>, t: nat, u: nat, key: Key)
    requires IsRun(steps)
    requires StandingOf(After(steps).threads, t) == InSlot(key) && StandingOf(After(steps).threads, u) == InSlot(key)
    ensures t == u
  {
    EveryRunIsSound(steps);
    var w := After(steps);
    assert t in w.threads && u in w.threads;
  }

  ghost predicate Uses(threads: Threads, t: nat, key: Key) {
    var s := StandingOf(threads, t);
    !s.Idle? && s.key == key
  }

  lemma {:induction false} UserOfGate(w: World, key: Key) returns (t: nat)
    requires StandingInv(w) && NoIdleGate(w.gates) && key in w.gates.gates
    ensures Uses(w.threads, t, key)
  {
    if w.gates.gates[key].held {
      assert Held(w.gates, key);
      t := w.holder[key];
    } else {
      var n := WaitersOf(w.gates, key)[0];
      assert n in WaitersOf(w.gates, key);
      t := w.owner[n];
    }
  }

  /** A gate exists exactly while somebody holds the card's slot or waits for it. */
  lemma {:induction false} GatesAreUsed(steps: seq<Step>, key: Key)
    requires IsRun(steps)
    ensures key in After(steps).gates.gates <==> exists t :: Uses(After(steps).threads, t, key)
  {
    EveryRunIsSound(steps);
    var w := After(steps);
    if key in w.gates.gates {
      var t := UserOfGate(w, key);
    }
  }

  /** The wake-up theorem: a thread left parked although its wait is over was cancelled, and its own callback is still
      to notify it. */
  lemma {:induction false} NobodySleepsPastItsTurn(steps: seq<Step>, t: nat)
    requires IsRun(steps) && t in After(steps).threads && After(steps).threads[t].Parked?
    requires var w := After(steps); WaitIsOver(w, w.threads[t].key, w.threads[t].token, w.threads[t].ticket)
    ensures var w := After(steps); t in w.callbacks && w.threads[t].token in w.cancelled
  {
    EveryRunIsSound(steps);
  }

  lemma {:induction false} EarlierWasServed(w: World, j: nat, earlier: nat) returns (l: nat)
    requires GatesInv(w) && j < |w.admissions| && earlier < w.admissions[j].1
    requires earlier in w.cardOf && w.cardOf[earlier] == w.admissions[j].0
    ensures earlier in w.givenBack || (l < j && w.admissions[l] == (w.admissions[j].0, earlier))
  {
    l := 0;
    assert w.admissions[j] in w.admissions;
    assert earlier !in WaitersOf(w.gates, w.admissions[j].0);
    if earlier !in w.givenBack {
      l :| 0 <= l < |w.admissions| && w.admissions[l] == (w.admissions[j].0, earlier);
    }
  }

  /** First come, first served: once a later ticket of a card has been admitted, an earlier one was admitted before it
      or was given back; it is not still waiting. */
  lemma {:induction false} FirstComeFirstServed(steps: seq<Step>, j: nat, earlier: nat) returns (l: nat)
    requires IsRun(steps) && j < |After(steps).admissions| && earlier < After(steps).admissions[j].1
    requires var w := After(steps); earlier in w.cardOf && w.cardOf[earlier] == w.admissions[j].0
    ensures var w := After(steps);
      earlier in w.givenBack || (l < j && w.admissions[l] == (w.admissions[j].0, earlier))
  {
    EveryRunIsSound(steps);
    l := EarlierWasServed(After(steps), j, earlier);
  }

  /** Only a cancelled thread gives its ticket back. */
  lemma {:induction false} OnlyCancelledGiveBack(w: World, s: Step, n: nat)
    requires Enabled(w, s) && n in Apply(w, s).givenBack && n !in w.givenBack
    ensures s.Conclude? && w.threads[s.t].ticket == n && w.threads[s.t].token in w.cancelled
  {
  }

  lemma {:induction false} HeadThread(w: World, key: Key) returns (t: nat)
    requires StandingInv(w) && WaitersOf(w.gates, key) != []
    ensures StandingOf(w.threads, t) == Queued(key, WaitersOf(w.gates, key)[0])
  {
    var n := WaitersOf(w.gates, key)[0];
    assert n in WaitersOf(w.gates, key);
    t := w.owner[n];
  }

  /** No deadlock: while threads wait for a card that nobody holds, one of them can move on without a new arrival, a
      release or a spurious wake-up. */
  lemma {:induction false} FreeCardMovesOn(steps: seq<Step>, key: Key) returns (s: Step)
    requires IsRun(steps) && WaitersOf(After(steps).gates, key) != [] && !Held(After(steps).gates, key)
    ensures Enabled(After(steps), s) && IsRun(steps + [s]) && After(steps + [s]) == Apply(After(steps), s)
    ensures var w := After(steps);
      if w.mutex.Some? then s.Conclude?
      else s.Recheck? && AtHead(w.gates, key, w.threads[s.t].ticket) && After(steps + [s]).threads[s.t].Passed?
  {
    EveryRunIsSound(steps);
    var w := After(steps);
    var t := HeadThread(w, key);
    s := if w.mutex.Some? then Conclude(w.mutex.value) else Recheck(t);
    OneStepOn(MACHINE, START, steps, s);
  }
}
