/** The lease table (LeaseManager.cpp) and what the broker does with it around a raw operation (Pkcs11Broker.cpp). */
module LeaseTable {
  import opened Core
  import opened CryptoFlow

  datatype LeaseKey = LeaseKey(caller: string, card: nat)

  /** The idle timeout, and the hard cap on a lease's life; 0 is no cap. */
  datatype Config = Config(idle: nat, life: nat)

  datatype Lease = Lease(lastUse: int, origin: int, verified: bool)

  type Table = map<LeaseKey, Lease>

  predicate IsLive(c: Config, e: Lease, now: int) {
    now - e.lastUse < c.idle && (c.life > 0 ==> now - e.origin < c.life)
  }

  predicate Verified(t: Table, k: LeaseKey) { k in t && t[k].verified }

  /** The table's operations. Marking the PIN verified is the act of a raw-crypto run; ending a run revokes the lease if
      the card refused the PIN, unless the agent is shutting down. */
  datatype Op =
    | Grant(k: LeaseKey, now: int)
    | IsActive(k: LeaseKey, now: int)
    | Touch(k: LeaseKey, now: int)
    | MarkVerified(k: LeaseKey, script: Script)
    | ClearVerified(k: LeaseKey)
    | Revoke(k: LeaseKey)
    | RevokeCard(card: nat)
    | RevokeCaller(caller: string)
    | EndRun(k: LeaseKey, outcome: Outcome, shutdown: bool)

  /** A run marks only as its trace says. */
  ghost predicate Allowed(op: Op) { op.MarkVerified? ==> Mark in Run(op.script).trace }

  function Granted(t: Table, k: LeaseKey, now: int): Table {
    if k in t then t[k := t[k].(lastUse := now, verified := false)] else t[k := Lease(now, now, false)]
  }

  /** Looking at a lease that has run out removes it. */
  function Reaped(c: Config, t: Table, k: LeaseKey, now: int): Table {
    if k in t && !IsLive(c, t[k], now) then t - {k} else t
  }

  predicate Answers(c: Config, t: Table, k: LeaseKey, now: int) { k in t && IsLive(c, t[k], now) }

  function Touched(c: Config, t: Table, k: LeaseKey, now: int): Table {
    if Answers(c, t, k, now) then t[k := t[k].(lastUse := now)] else t - {k}
  }

  function Apply(c: Config, t: Table, op: Op): Table {
    match op
    case Grant(k, now) => Granted(t, k, now)
    case IsActive(k, now) => Reaped(c, t, k, now)
    case Touch(k, now) => Touched(c, t, k, now)
    case MarkVerified(k, _) => if k in t then t[k := t[k].(verified := true)] else t
    case ClearVerified(k) => if k in t then t[k := t[k].(verified := false)] else t
    case Revoke(k) => t - {k}
    case RevokeCard(card) => map k | k in t && k.card != card :: t[k]
    case RevokeCaller(caller) => map k | k in t && k.caller != caller :: t[k]
    case EndRun(k, outcome, shutdown) => if outcome == PinRefused && !shutdown then t - {k} else t
  }

  function Applied(c: Config, t: Table, ops: seq<Op>): Table {
    if ops == [] then t else Apply(c, Applied(c, t, ops[..|ops| - 1]), ops[|ops| - 1])
  }

  function TableAfter(c: Config, ops: seq<Op>): Table { Applied(c, map[], ops) }

  // --- what the flag means ----------------------------------------------------------------------------------

  /** An operation that takes a lease's verified state away. */
  predicate Resets(op: Op, k: LeaseKey) {
    match op
    case Grant(g, _) => g == k
    case ClearVerified(g) => g == k
    case Revoke(g) => g == k
    case RevokeCard(card) => card == k.card
    case RevokeCaller(caller) => caller == k.caller
    case EndRun(g, outcome, shutdown) => g == k && outcome == PinRefused && !shutdown
    case _ => false
  }

  lemma {:induction false} StepOfFlag(c: Config, t: Table, op: Op, k: LeaseKey)
    requires Verified(Apply(c, t, op), k)
    ensures !Resets(op, k) && (Verified(t, k) || (op.MarkVerified? && op.k == k && k in t))
  {
  }

  /** A verified lease was marked by a run that succeeded with a typed PIN and an ordinary key, and nothing has reset it
      since: no login, no clearing, no revocation, no refused PIN. */
  lemma {:induction false} VerifiedMeansOrdinarySuccess(c: Config, ops: seq<Op>, k: LeaseKey) returns (i: nat)
    requires Verified(TableAfter(c, ops), k) && forall op <- ops :: Allowed(op)
    ensures i < |ops| && ops[i].MarkVerified? && ops[i].k == k
    ensures Run(ops[i].script).outcome == Success && UseKey(true, false) in Run(ops[i].script).trace
    ensures forall j :: i <= j < |ops| ==> !Resets(ops[j], k)
  {
    var n := |ops| - 1;
    StepOfFlag(c, TableAfter(c, ops[..n]), ops[n], k);
    if Verified(TableAfter(c, ops[..n]), k) {
      i := VerifiedMeansOrdinarySuccess(c, ops[..n], k);
      assert ops[i] == ops[..n][i];
      forall j | i <= j < |ops| ensures !Resets(ops[j], k) {
        if j < n {
          assert ops[j] == ops[..n][j];
        }
      }
    } else {
      i := n;
      assert Allowed(ops[n]);
      var trace := Run(ops[n].script).trace;
      var m :| 0 <= m < |trace| && trace[m] == Mark;
      ArmedByOrdinarySuccess(ops[n].script, m);
    }
  }

  // --- how long a lease lives --------------------------------------------------------------------------------

  /** When an operation used the lease. */
  predicate UsesAt(op: Op, k: LeaseKey, at: int) {
    (op.Grant? && op.k == k && op.now == at) || (op.Touch? && op.k == k && op.now == at)
  }

  /** A lease's origin is a login it was granted by, and its last use a login or a touch no earlier in the history. */
  lemma {:induction false} LeaseHistory(c: Config, ops: seq<Op>, k: LeaseKey) returns (g: nat, u: nat)
    requires k in TableAfter(c, ops)
    ensures g <= u < |ops|
    ensures ops[g] == Grant(k, TableAfter(c, ops)[k].origin)
    ensures UsesAt(ops[u], k, TableAfter(c, ops)[k].lastUse)
  {
    var n := |ops| - 1;
    var t, op := TableAfter(c, ops[..n]), ops[n];
    if k in t {
      g, u := LeaseHistory(c, ops[..n], k);
      assert ops[g] == ops[..n][g] && ops[u] == ops[..n][u];
      if UsesAt(op, k, TableAfter(c, ops)[k].lastUse) {
        u := n;
      }
    } else {
      g, u := n, n;
    }
  }

  /** An operation is let through at `now` only on a login younger than the cap, used within the idle timeout. */
  lemma {:induction false} LetThroughWithinBounds(
    c: Config, ops: seq<Op>, k: LeaseKey, now: int) returns (g: nat, u: nat)
    requires Answers(c, TableAfter(c, ops), k, now)
    ensures g <= u < |ops| && ops[g].Grant? && ops[g].k == k && (c.life > 0 ==> now - ops[g].now < c.life)
    ensures (ops[u].Grant? || ops[u].Touch?) && ops[u].k == k && now - ops[u].now < c.idle
  {
    g, u := LeaseHistory(c, ops, k);
  }

  /** A login yields a live lease exactly when there is an idle timeout and no older entry past the cap: a stale entry
      that nobody has looked at keeps its origin. */
  lemma {:induction false} LoginYieldsLeaseExactly(c: Config, t: Table, k: LeaseKey, now: int)
    ensures Answers(c, Granted(t, k, now), k, now) <==>
      c.idle > 0 && (k in t && c.life > 0 ==> now - t[k].origin < c.life)
  {
  }

  lemma {:induction false} StaleEntryOutlivesLogin(c: Config, k: LeaseKey)
    requires c.life > 0
    ensures !Answers(c, TableAfter(c, [Grant(k, 0), Grant(k, c.life)]), k, c.life)
  {
    var ops := [Grant(k, 0), Grant(k, c.life)];
    assert ops[..1] == [Grant(k, 0)] && ops[..1][..0] == [];
    assert TableAfter(c, []) == map[];
    assert TableAfter(c, ops[..1]) == map[k := Lease(0, 0, false)];
  }

  /** After a refused PIN nothing is let through on the lease until the next login; */
  lemma {:induction false} RefusedPinEndsTheLease(c: Config, ops: seq<Op>, i: nat, k: LeaseKey)
    requires i < |ops| && ops[i] == EndRun(k, PinRefused, false)
    requires forall j :: i < j < |ops| ==> !(ops[j].Grant? && ops[j].k == k)
    ensures k !in TableAfter(c, ops)
  {
    var n := |ops| - 1;
    if i < n {
      RefusedPinEndsTheLease(c, ops[..n], i, k);
    }
  }

  /** only while the agent shuts down does the lease outlive the refusal. */
  lemma {:induction false} ShutdownSkipsTheRevoke(c: Config, k: LeaseKey, now: int)
    requires c.idle > 0
    ensures Answers(c, TableAfter(c, [Grant(k, now), EndRun(k, PinRefused, true)]), k, now)
  {
    var ops := [Grant(k, now), EndRun(k, PinRefused, true)];
    assert ops[..1] == [Grant(k, now)] && ops[..1][..0] == [];
    assert TableAfter(c, []) == map[];
    assert TableAfter(c, ops[..1]) == map[k := Lease(now, now, false)];
  }

  // --- a run among other operations ---------------------------------------------------------------------------------

  /** The marks and clears of a trace. */
  function FlagOps(k: LeaseKey, script: Script, trace: seq<Event>): seq<Op> {
    if trace == [] then []
    else
      var e := trace[|trace| - 1];
      FlagOps(k, script, trace[..|trace| - 1])
      + if e == Mark then [MarkVerified(k, script)] else if e == Clear then [ClearVerified(k)] else []
  }

  /** What a run does to the table after its touch: its callbacks in order, and its end. */
  function RunOps(k: LeaseKey, script: Script, shutdown: bool): seq<Op> {
    FlagOps(k, script, Run(script).trace) + [EndRun(k, Run(script).outcome, shutdown)]
  }

  /** The operations of a history that are a run's own, or those that are not. */
  ghost function Part(ops: seq<Op>, own: seq<bool>, mine: bool): seq<Op>
    requires |own| == |ops|
  {
    if ops == [] then []
    else
      var n := |ops| - 1;
      Part(ops[..n], own[..n], mine) + if own[n] == mine then [ops[n]] else []
  }

  lemma {:induction false} PartHas(ops: seq<Op>, own: seq<bool>, mine: bool, i: nat)
    requires |own| == |ops| && i < |ops| && own[i] == mine
    ensures ops[i] in Part(ops, own, mine)
  {
    var n := |ops| - 1;
    if i < n {
      PartHas(ops[..n], own[..n], mine, i);
    }
  }

  lemma {:induction false} FlagOpsAre(k: LeaseKey, script: Script, trace: seq<Event>, op: Op)
    requires op in FlagOps(k, script, trace)
    ensures (op == MarkVerified(k, script) && Mark in trace) || (op == ClearVerified(k) && Clear in trace)
  {
    var n := |trace| - 1;
    if op in FlagOps(k, script, trace[..n]) {
      FlagOpsAre(k, script, trace[..n], op);
    }
  }

  function At(t: Table, k: LeaseKey): Option<Lease> { if k in t then Some(t[k]) else None }

  /** An operation acts on each lease by itself. */
  lemma {:induction false} LeaseByLease(c: Config, t: Table, u: Table, op: Op, j: LeaseKey)
    requires At(t, j) == At(u, j)
    ensures At(Apply(c, t, op), j) == At(Apply(c, u, op), j)
  {
  }

  /** Operations that leave a lease alone can be taken out of a history without a trace on that lease. */
  lemma {:induction false} IdleOpsLeaveNoTrace(c: Config, ops: seq<Op>, own: seq<bool>, j: LeaseKey)
    requires |own| == |ops|
    requires forall i: nat, t: Table :: i < |ops| && own[i] ==> At(Apply(c, t, ops[i]), j) == At(t, j)
    ensures At(TableAfter(c, ops), j) == At(TableAfter(c, Part(ops, own, false)), j)
  {
    if ops != [] {
      var n := |ops| - 1;
      var before, rest := ops[..n], Part(ops[..n], own[..n], false);
      forall i: nat, t: Table | i < n && own[..n][i] ensures At(Apply(c, t, before[i]), j) == At(t, j) {
        assert own[i] && before[i] == ops[i];
      }
      IdleOpsLeaveNoTrace(c, before, own[..n], j);
      if !own[n] {
        LeaseByLease(c, TableAfter(c, before), TableAfter(c, rest), ops[n], j);
        assert (rest + [ops[n]])[..|rest|] == rest;
      } else {
        assert Part(ops, own, false) == rest;
      }
    }
  }

  /** Whatever else happens between its callbacks, a run leaves every lease but its own as it would be without it. */
  lemma {:induction false} RunKeepsToItsLease(
    c: Config, ops: seq<Op>, own: seq<bool>, k: LeaseKey, script: Script, shutdown: bool, j: LeaseKey)
    requires |own| == |ops| && Part(ops, own, true) == RunOps(k, script, shutdown) && j != k
    ensures At(TableAfter(c, ops), j) == At(TableAfter(c, Part(ops, own, false)), j)
  {
    forall i: nat, t: Table | i < |ops| && own[i] ensures At(Apply(c, t, ops[i]), j) == At(t, j) {
      OwnOpIs(ops, own, k, script, shutdown, i);
    }
    IdleOpsLeaveNoTrace(c, ops, own, j);
  }

  lemma {:induction false} OwnOpIs(ops: seq<Op>, own: seq<bool>, k: LeaseKey, script: Script, shutdown: bool, i: nat)
    requires |own| == |ops| && Part(ops, own, true) == RunOps(k, script, shutdown) && i < |ops| && own[i]
    ensures || ops[i] == EndRun(k, Run(script).outcome, shutdown)
            || (ops[i] == MarkVerified(k, script) && Mark in Run(script).trace)
            || (ops[i] == ClearVerified(k) && Clear in Run(script).trace)
  {
    PartHas(ops, own, true, i);
    if ops[i] in FlagOps(k, script, Run(script).trace) {
      FlagOpsAre(k, script, Run(script).trace, ops[i]);
    }
  }

  ghost predicate UsesMarkedKey(script: Script) {
    script.first.preflight.key.Some? ==> script.first.preflight.key.value.marked
  }

  lemma {:induction false} MarkedKeyOnlyEnds(
    ops: seq<Op>, own: seq<bool>, k: LeaseKey, script: Script, shutdown: bool, i: nat)
    requires |own| == |ops| && Part(ops, own, true) == RunOps(k, script, shutdown) && i < |ops| && own[i]
    requires UsesMarkedKey(script)
    ensures ops[i] == EndRun(k, Run(script).outcome, shutdown)
  {
    OwnOpIs(ops, own, k, script, shutdown, i);
    var trace := Run(script).trace;
    forall m: nat | m < |trace| ensures trace[m] != Mark && trace[m] != Clear {
      MarkedKeyLeavesTheFlag(script, m);
    }
  }

  /** Whatever else happens in between, a run with a marked key leaves the whole table as it would be without it, unless
      the card refused its PIN. */
  lemma {:induction false} MarkedKeyRunKeepsTheFlag(
    c: Config, ops: seq<Op>, own: seq<bool>, k: LeaseKey, script: Script, shutdown: bool)
    requires |own| == |ops| && Part(ops, own, true) == RunOps(k, script, shutdown) && UsesMarkedKey(script)
    requires Run(script).outcome != PinRefused || shutdown
    ensures TableAfter(c, ops) == TableAfter(c, Part(ops, own, false))
  {
    var with, without := TableAfter(c, ops), TableAfter(c, Part(ops, own, false));
    forall j ensures At(with, j) == At(without, j) {
      forall i: nat, t: Table | i < |ops| && own[i] ensures At(Apply(c, t, ops[i]), j) == At(t, j) {
        MarkedKeyOnlyEnds(ops, own, k, script, shutdown, i);
      }
      IdleOpsLeaveNoTrace(c, ops, own, j);
    }
    SameEntries(with, without);
  }

  lemma {:induction false} SameEntries(t: Table, u: Table)
    requires forall j :: At(t, j) == At(u, j)
    ensures t == u
  {
    forall j ensures (j in t <==> j in u) && (j in t ==> t[j] == u[j]) {
      assert At(t, j) == At(u, j);
    }
  }

  /** And whether its PIN was refused or not, it never arms the lease: what did is another run. */
  lemma {:induction false} MarkedKeyNeverArms(
    c: Config, ops: seq<Op>, own: seq<bool>, k: LeaseKey, script: Script, shutdown: bool) returns (i: nat)
    requires |own| == |ops| && Part(ops, own, true) == RunOps(k, script, shutdown) && UsesMarkedKey(script)
    requires Verified(TableAfter(c, ops), k) && forall op <- ops :: Allowed(op)
    ensures i < |ops| && !own[i] && ops[i].MarkVerified? && ops[i].k == k
    ensures Run(ops[i].script).outcome == Success && UseKey(true, false) in Run(ops[i].script).trace
  {
    i := VerifiedMeansOrdinarySuccess(c, ops, k);
    if own[i] {
      MarkedKeyOnlyEnds(ops, own, k, script, shutdown, i);
      assert false;
    }
  }

  // --- the manager itself ---------------------------------------------------------------------------------------

  class LeaseManager {
    const config: Config
    var leases: Table

    constructor (c: Config)
      ensures config == c && leases == map[]
    {
      config, leases := c, map[];
    }

    method Grant(k: LeaseKey, now: int)
      modifies this
      ensures leases == Apply(config, old(leases), Op.Grant(k, now))
    {
      if k !in leases {
        leases := leases[k := Lease(now, now, false)];
      } else {
        leases := leases[k := Lease(now, leases[k].origin, false)];
      }
    }

    method IsActive(k: LeaseKey, now: int) returns (r: bool)
      modifies this
      ensures leases == Apply(config, old(leases), Op.IsActive(k, now)) && r == Answers(config, old(leases), k, now)
    {
      if k !in leases {
        return false;
      }
      if !IsLive(config, leases[k], now) {
        leases := leases - {k};
        return false;
      }
      return true;
    }

    method Touch(k: LeaseKey, now: int) returns (r: bool)
      modifies this
      ensures leases == Apply(config, old(leases), Op.Touch(k, now)) && r == Answers(config, old(leases), k, now)
    {
      if k !in leases || !IsLive(config, leases[k], now) {
        leases := leases - {k};
        return false;
      }
      leases := leases[k := leases[k].(lastUse := now)];
      return true;
    }

    method MarkPinVerified(k: LeaseKey, ghost script: Script)
      modifies this
      ensures leases == Apply(config, old(leases), Op.MarkVerified(k, script))
    {
      if k in leases {
        leases := leases[k := leases[k].(verified := true)];
      }
    }

    method ClearPinVerified(k: LeaseKey)
      modifies this
      ensures leases == Apply(config, old(leases), Op.ClearVerified(k))
    {
      if k in leases {
        leases := leases[k := leases[k].(verified := false)];
      }
    }

    /** The leases of a removed card are erased one by one. */
    method RevokeCard(card: nat)
      modifies this
      ensures leases == Apply(config, old(leases), Op.RevokeCard(card))
    {
      var rest := leases.Keys;
      while rest != {}
        invariant rest <= old(leases).Keys
        invariant leases == map k | k in old(leases) && (k in rest || k.card != card) :: old(leases)[k]
        decreases rest
      {
        var k :| k in rest;
        if k.card == card {
          leases := leases - {k};
        }
        rest := rest - {k};
      }
    }

    method RevokeCaller(caller: string)
      modifies this
      ensures leases == Apply(config, old(leases), Op.RevokeCaller(caller))
    {
      var rest := leases.Keys;
      while rest != {}
        invariant rest <= old(leases).Keys
        invariant leases == map k | k in old(leases) && (k in rest || k.caller != caller) :: old(leases)[k]
        decreases rest
      {
        var k :| k in rest;
        if k.caller == caller {
          leases := leases - {k};
        }
        rest := rest - {k};
      }
    }

    method ApplyFlags(k: LeaseKey, ghost script: Script, trace: seq<Event>)
      modifies this
      ensures leases == Applied(config, old(leases), FlagOps(k, script, trace))
    {
      var i := 0;
      while i < |trace|
        invariant 0 <= i <= |trace| && leases == Applied(config, old(leases), FlagOps(k, script, trace[..i]))
      {
        assert trace[..i + 1][..i] == trace[..i];
        ghost var done := FlagOps(k, script, trace[..i]);
        if trace[i] == Mark {
          AppliedOne(config, old(leases), done, Op.MarkVerified(k, script));
          MarkPinVerified(k, script);
        } else if trace[i] == Clear {
          AppliedOne(config, old(leases), done, Op.ClearVerified(k));
          ClearPinVerified(k);
        } else {
          assert done + [] == done;
        }
        i := i + 1;
      }
      assert trace[..i] == trace;
    }

    /** The completion: a refused PIN revokes the lease, unless the agent is shutting down. */
    method EndRun(k: LeaseKey, outcome: Outcome, shutdown: bool)
      modifies this
      ensures leases == Apply(config, old(leases), Op.EndRun(k, outcome, shutdown))
    {
      if outcome == PinRefused && !shutdown {
        leases := leases - {k};
      }
    }

    /** runCrypto with nothing in between: the lease is touched, the run made with the lease's flag, its marks and
        clears applied, and the run ended. Nothing runs without a live lease. */
    method RunCrypto(k: LeaseKey, now: int, script: Script, shutdown: bool) returns (ran: bool, outcome: Outcome)
      modifies this
      ensures ran == Answers(config, old(leases), k, now)
      ensures !ran ==> leases == old(leases) - {k}
      ensures ran ==> var actual := script.(verified := old(leases)[k].verified);
        && outcome == Run(actual).outcome
        && leases == Applied(config, Touched(config, old(leases), k, now), RunOps(k, actual, shutdown))
    {
      ran := Touch(k, now);
      outcome := Cancelled;
      if ran {
        ghost var touched := leases;
        var actual := script.(verified := leases[k].verified);
        var trace;
        outcome, trace := RunOp(actual);
        ApplyFlags(k, actual, trace);
        EndRun(k, outcome, shutdown);
        AppliedOne(config, touched, FlagOps(k, actual, trace), Op.EndRun(k, outcome, shutdown));
      }
    }
  }

  lemma {:induction false} AppliedOne(c: Config, t: Table, ops: seq<Op>, op: Op)
    ensures Applied(c, t, ops + [op]) == Apply(c, Applied(c, t, ops), op)
  {
    assert (ops + [op])[..|ops|] == ops;
  }
}
