/** The per-card prompt gate (PromptSerializer.cpp): a FIFO mutex per card with cancellation, one condition variable,
    and gates that are dropped when idle. */
module PromptGate {
  import opened Core

  type Key = string

  /** One card's gate: the tickets queued for it, and whether its slot is taken. */
  datatype Gate = Gate(waiters: seq<nat>, held: bool)

  /** What the mutex guards. */
  datatype Gates = Gates(gates: map<Key, Gate>, nextTicket: nat)

  // --- the locked sections -----------------------------------------------------------

  function WaitersOf(g: Gates, key: Key): seq<nat> { if key in g.gates then g.gates[key].waiters else [] }

  predicate Held(g: Gates, key: Key) { key in g.gates && g.gates[key].held }

  predicate AtHead(g: Gates, key: Key, ticket: nat) { WaitersOf(g, key) != [] && WaitersOf(g, key)[0] == ticket }

  predicate MayEnter(g: Gates, key: Key, ticket: nat) { !Held(g, key) && AtHead(g, key, ticket) }

  /** A gate is kept only while it is held or someone waits. */
  function Put(g: Gates, key: Key, gate: Gate): (r: Gates)
    ensures WaitersOf(r, key) == gate.waiters && (Held(r, key) <==> gate.held)
    ensures forall k :: k != key ==> WaitersOf(r, k) == WaitersOf(g, k) && (Held(r, k) <==> Held(g, k))
    ensures NoIdleGate(g) ==> NoIdleGate(r)
  {
    if gate.waiters == [] && !gate.held then g.(gates := g.gates - {key}) else g.(gates := g.gates[key := gate])
  }

  function Enqueued(g: Gates, key: Key): Gates {
    Put(g, key, Gate(WaitersOf(g, key) + [g.nextTicket], Held(g, key))).(nextTicket := g.nextTicket + 1)
  }

  function Dropped(waiters: seq<nat>, ticket: nat): seq<nat> {
    if waiters == [] then []
    else if waiters[0] == ticket then waiters[1..]
    else [waiters[0]] + Dropped(waiters[1..], ticket)
  }

  /** A cancelled waiter gives its ticket back, wherever it stands in the queue. */
  function Surrendered(g: Gates, key: Key, ticket: nat): Gates {
    Put(g, key, Gate(Dropped(WaitersOf(g, key), ticket), Held(g, key)))
  }

  /** The head takes the slot. */
  function Taken(g: Gates, key: Key): Gates {
    var waiters := WaitersOf(g, key);
    Put(g, key, Gate(if waiters == [] then [] else waiters[1..], true))
  }

  function Released(g: Gates, key: Key): Gates { Put(g, key, Gate(WaitersOf(g, key), false)) }

  predicate HasPending(g: Gates) { exists k :: k in g.gates && (g.gates[k].held || g.gates[k].waiters != []) }

  /** Gates exist exactly when they are held or have waiters. */
  ghost predicate NoIdleGate(g: Gates) { forall k :: k in g.gates ==> g.gates[k].held || g.gates[k].waiters != [] }

  /** The queue without one ticket. */
  method DropTicket(waiters: seq<nat>, ticket: nat) returns (r: seq<nat>)
    ensures r == Dropped(waiters, ticket)
  {
    var i := 0;
    assert waiters[0..] == waiters;
    while i < |waiters| && waiters[i] != ticket
      invariant 0 <= i <= |waiters|
      invariant Dropped(waiters, ticket) == waiters[..i] + Dropped(waiters[i..], ticket)
    {
      assert waiters[i..][1..] == waiters[i + 1..];
      assert waiters[..i + 1] == waiters[..i] + [waiters[i]];
      i := i + 1;
    }
    if i < |waiters| {
      assert waiters[i..][1..] == waiters[i + 1..];
      return waiters[..i] + waiters[i + 1..];
    }
    assert waiters[i..] == [] && waiters[..i] == waiters;
    return waiters;
  }

  // --- the object -------------------------------------------------------------------------

  class PromptSerializer {
    var gates: map<Key, Gate>
    var nextTicket: nat

    ghost function View(): Gates
      reads this
    {
      Gates(gates, nextTicket)
    }

    constructor ()
      ensures View() == Gates(map[], 0)
    {
      gates, nextTicket := map[], 0;
    }

    /** acquire, up to the wait: a ticket is drawn and queued. */
    method Enqueue(key: Key) returns (ticket: nat)
      modifies this
      ensures ticket == old(nextTicket) && View() == Enqueued(old(View()), key)
    {
      ticket := nextTicket;
      nextTicket := nextTicket + 1;
      var gate := if key in gates then gates[key] else Gate([], false);
      gates := gates[key := gate.(waiters := gate.waiters + [ticket])];
    }

    /** The part of the wait's predicate that reads the gates. */
    method CanEnter(key: Key, ticket: nat) returns (r: bool)
      ensures r == MayEnter(View(), key, ticket)
    {
      var slotFree := key !in gates || !gates[key].held;
      var atHead := key in gates && gates[key].waiters != [] && gates[key].waiters[0] == ticket;
      r := slotFree && atHead;
    }

    /** acquire after a wait that ended in cancellation. */
    method GiveUp(key: Key, ticket: nat)
      modifies this
      ensures View() == Surrendered(old(View()), key, ticket)
    {
      if key in gates {
        var waiters := DropTicket(gates[key].waiters, ticket);
        if waiters == [] && !gates[key].held {
          gates := gates - {key};
        } else {
          gates := gates[key := gates[key].(waiters := waiters)];
        }
      } else {
        assert gates - {key} == gates;
      }
    }

    /** acquire after a wait that ended at the head of a free gate. */
    method Take(key: Key)
      requires WaitersOf(View(), key) != []
      modifies this
      ensures View() == Taken(old(View()), key)
    {
      var mine := gates[key];
      gates := gates[key := Gate(mine.waiters[1..], true)];
    }

    method Release(key: Key)
      modifies this
      ensures View() == Released(old(View()), key)
    {
      if key in gates {
        var gate := gates[key].(held := false);
        if gate.waiters == [] {
          gates := gates - {key};
        } else {
          gates := gates[key := gate];
        }
      }
    }

    /** hasPendingPrompt: any card at all. */
    method HasPendingPrompt() returns (r: bool)
      ensures r == HasPending(View())
    {
      var rest := gates.Keys;
      while rest != {}
        invariant rest <= gates.Keys
        invariant forall k :: k in gates && k !in rest ==> !gates[k].held && gates[k].waiters == []
        decreases rest
      {
        var k :| k in rest;
        if gates[k].held || gates[k].waiters != [] {
          return true;
        }
        rest := rest - {k};
      }
      return false;
    }
  }
}
