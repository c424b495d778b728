/** How long a PIN stays with the plugin that was given it (LmRawCrypto.cpp, PinChangeFlow.cpp). The card and the code
    around it are oracles; so is the erase, which the source lets fail. */
module PinDeposit {
  import opened Core
  import opened Runs

  /** A PIN as typed: the same digits typed again are another entry. */
  datatype Pin = Pin(text: string, entry: nat)

  datatype Status = Ok | KeyNotFound | AuthFailed | NotSupported | CardError | ConsentRequired | InvalidInput

  /** What happened once the plugin was asked: an answer, or an exception on this side with or without a PIN presented.
      */
  datatype Card = Answers(status: Status, accepted: bool) | Throws(presented: bool, accepted: bool)

  /** A use of the key: whether the card marks it for consent per operation, the PIN given for it, and the oracles. */
  datatype Op = Op(plugin: nat, marked: bool, pin: Option<Pin>, card: Card, eraseLost: bool)

  /** One presentation of a PIN to the card. */
  datatype Use = Use(pin: Pin, marked: bool, accepted: bool, ok: bool)

  type Deposits = map<nat, Pin>

  function Erased(d: Deposits, plugin: nat, lost: bool): Deposits { if lost then d else d - {plugin} }

  // --- one operation ----------------------------------------------------------------------------

  /** Refused before the card: an empty PIN, or a marked key without a PIN of its own. */
  predicate RefusedEarly(op: Op) {
    (op.pin.Some? && op.pin.value.text == "") || (op.marked && op.pin.None?)
  }

  predicate Succeeds(op: Op) { op.card.Answers? && op.card.status == Status.Ok }

  /** An ordinary key's success keeps the PIN; everything else erases it. */
  predicate Keeps(op: Op) { !op.marked && Succeeds(op) }

  /** What the plugin holds while the operation runs. */
  function During(d: Deposits, op: Op): Deposits {
    if op.pin.Some? && op.pin.value.text != "" then d[op.plugin := op.pin.value] else d
  }

  function DepositsAfter(d: Deposits, op: Op): Deposits {
    if op.pin.Some? && op.pin.value.text == "" then Erased(d, op.plugin, op.eraseLost)
    else if op.marked && op.pin.None? then d
    else if Keeps(op) then During(d, op)
    else Erased(During(d, op), op.plugin, op.eraseLost)
  }

  /** None: the exception propagates. */
  function StatusOf(op: Op): Option<Status> {
    if op.pin.Some? && op.pin.value.text == "" then Some(AuthFailed)
    else if op.marked && op.pin.None? then Some(ConsentRequired)
    else if op.card.Throws? then None
    else Some(op.card.status)
  }

  predicate Presents(d: Deposits, op: Op) {
    !RefusedEarly(op) && op.plugin in During(d, op) && (op.card.Throws? ==> op.card.presented)
  }

  function UseOf(d: Deposits, op: Op): Use
    requires Presents(d, op)
  {
    Use(During(d, op)[op.plugin], op.marked, op.card.accepted, Succeeds(op))
  }

  /** Success means the card took the PIN it was shown; a failed PIN means it did not. */
  predicate Plausible(card: Card) {
    card.Answers? ==> (card.status == Status.Ok ==> card.accepted) && (card.status == AuthFailed ==> !card.accepted)
  }

  // --- a session's whole life --------------------------------------------------------------------------

  /** `lost` holds the entries whose erase failed. */
  datatype World = World(deposits: Deposits, log: seq<Use>, typed: nat, lost: set<nat>)

  const START := World(map[], [], 0, {})

  /** A raw operation, a PIN change over the card's plugins, or the end of the session's credentials. */
  datatype Step = Raw(op: Op) | PinChange(ok: bool, candidates: seq<nat>, lost: set<nat>) | Invalidate

  predicate Enabled(w: World, s: Step) {
    s.Raw? ==> Plausible(s.op.card) && (s.op.pin.Some? ==> s.op.pin.value.entry == w.typed)
  }

  function AllErased(d: Deposits, candidates: seq<nat>, lost: set<nat>): Deposits {
    map p | p in d && !(p in candidates && p !in lost) :: d[p]
  }

  /** The entries an operation should have erased and did not. */
  function LostBy(d: Deposits, op: Op): set<nat> {
    if op.eraseLost && op.plugin in During(d, op) && (if RefusedEarly(op) then op.pin.Some? else !Keeps(op))
    then {During(d, op)[op.plugin].entry}
    else {}
  }

  function AfterRaw(w: World, op: Op): World {
    World(DepositsAfter(w.deposits, op), if Presents(w.deposits, op) then w.log + [UseOf(w.deposits, op)] else w.log,
          if op.pin.Some? then w.typed + 1 else w.typed, w.lost + LostBy(w.deposits, op))
  }

  function Apply(w: World, s: Step): World {
    match s
    case Raw(op) => AfterRaw(w, op)
    case PinChange(ok, candidates, lost) =>
      if !ok then w
      else w.(deposits := AllErased(w.deposits, candidates, lost),
              lost := w.lost + set p | p in w.deposits && p in candidates && p in lost :: w.deposits[p].entry)
    case Invalidate => w.(deposits := map[])
  }

  // --- what every run keeps --------------------------------------------------------------------------------

  /** The card accepted the PIN, and the key was an ordinary one. */
  predicate Good(u: Use) { u.ok && u.accepted && !u.marked }

  ghost predicate WasPresented(log: seq<Use>, pin: Pin) { exists u :: u in log && u.pin == pin }

  /** What is deposited was presented, and each time accepted for an ordinary key; */
  ghost predicate DepositsAreGood(deposits: Deposits, log: seq<Use>, lost: set<nat>) {
    forall p <- deposits :: deposits[p].entry in lost ||
      (WasPresented(log, deposits[p]) && forall u <- log :: u.pin.entry == deposits[p].entry ==> Good(u))
  }

  /** a PIN presented twice was accepted for an ordinary key the first time; */
  ghost predicate RepeatsAreGood(log: seq<Use>, lost: set<nat>) {
    forall i, j :: 0 <= i < j < |log| && log[i].pin.entry == log[j].pin.entry ==>
      log[i].pin.entry in lost || Good(log[i])
  }

  /** entries are numbered in the order they were typed, and each goes to one plugin. */
  ghost predicate EntriesAreTyped(deposits: Deposits, log: seq<Use>, typed: nat) {
    && (forall p <- deposits :: deposits[p].entry < typed)
    && (forall p <- deposits, q <- deposits :: deposits[p].entry == deposits[q].entry ==> p == q)
    && (forall u <- log :: u.pin.entry < typed)
  }

  ghost predicate Inv(w: World) {
    && DepositsAreGood(w.deposits, w.log, w.lost) && RepeatsAreGood(w.log, w.lost)
    && EntriesAreTyped(w.deposits, w.log, w.typed)
  }

  lemma {:induction false} RawKeepsEntries(w: World, op: Op)
    requires EntriesAreTyped(w.deposits, w.log, w.typed) && Enabled(w, Raw(op))
    ensures var r := AfterRaw(w, op); EntriesAreTyped(r.deposits, r.log, r.typed)
  {
    var r := AfterRaw(w, op);
    assert forall u <- r.log :: u in w.log || (Presents(w.deposits, op) && u == UseOf(w.deposits, op));
  }

  lemma {:induction false} RawKeepsRepeats(w: World, op: Op)
    requires Inv(w) && Enabled(w, Raw(op))
    ensures RepeatsAreGood(AfterRaw(w, op).log, AfterRaw(w, op).lost)
  {
    if Presents(w.deposits, op) {
      var u, n := UseOf(w.deposits, op), |w.log|;
      forall i | 0 <= i < n && w.log[i].pin.entry == u.pin.entry ensures u.pin.entry in w.lost || Good(w.log[i]) {
        assert w.log[i] in w.log;
      }
    }
  }

  ghost predicate IsGood(log: seq<Use>, lost: set<nat>, pin: Pin) {
    pin.entry in lost || (WasPresented(log, pin) && forall u <- log :: u.pin.entry == pin.entry ==> Good(u))
  }

  /** A deposit the operation did not concern is as good as it was. */
  lemma {:induction false} OtherDepositStays(w: World, op: Op, p: nat)
    requires Inv(w) && Enabled(w, Raw(op)) && p in w.deposits && p != op.plugin
    ensures IsGood(AfterRaw(w, op).log, AfterRaw(w, op).lost, w.deposits[p])
  {
    var r, pin := AfterRaw(w, op), w.deposits[p];
    if pin.entry !in w.lost {
      var v :| v in w.log && v.pin == pin;
      assert v in r.log;
      assert forall u <- r.log :: u in w.log || (Presents(w.deposits, op) && u == UseOf(w.deposits, op));
    }
  }

  /** What the operation left with its plugin is good: it was left because the card took it for an ordinary key. */
  lemma {:induction false} OwnDepositIsGood(w: World, op: Op)
    requires Inv(w) && Enabled(w, Raw(op)) && op.plugin in AfterRaw(w, op).deposits
    ensures IsGood(AfterRaw(w, op).log, AfterRaw(w, op).lost, AfterRaw(w, op).deposits[op.plugin])
  {
    var r := AfterRaw(w, op);
    var pin := r.deposits[op.plugin];
    if pin.entry !in r.lost {
      if Presents(w.deposits, op) {
        var u := UseOf(w.deposits, op);
        assert r.log[|w.log|] == u && u.pin == pin;
        assert forall v <- r.log :: v in w.log || v == u;
      }
    }
  }

  lemma {:induction false} RawKeeps(w: World, op: Op)
    requires Inv(w) && Enabled(w, Raw(op))
    ensures Inv(AfterRaw(w, op))
  {
    var r := AfterRaw(w, op);
    RawKeepsEntries(w, op);
    RawKeepsRepeats(w, op);
    forall p <- r.deposits ensures IsGood(r.log, r.lost, r.deposits[p]) {
      if p == op.plugin {
        OwnDepositIsGood(w, op);
      } else {
        OtherDepositStays(w, op, p);
      }
    }
  }

  lemma {:induction false} StepKeeps(w: World, s: Step)
    requires Inv(w) && Enabled(w, s)
    ensures Inv(Apply(w, s))
  {
    if s.Raw? {
      RawKeeps(w, s.op);
    } else if s.PinChange? && s.ok {
      var r := Apply(w, s);
      forall p <- r.deposits ensures IsGood(r.log, r.lost, r.deposits[p]) {
        assert IsGood(w.log, w.lost, w.deposits[p]);
      }
    }
  }

  ghost const MACHINE := Machine(Enabled, Apply)

  ghost predicate IsRun(steps: seq<Step>) { CanRun(MACHINE, START, steps) }

  ghost function After(steps: seq<Step>): World { Ran(MACHINE, START, steps) }

  lemma {:induction false} EveryRunIsSound(steps: seq<Step>)
    requires IsRun(steps)
    ensures Inv(After(steps))
  {
    forall w, s | Inv(w) && Enabled(w, s) ensures Inv(Apply(w, s)) {
      StepKeeps(w, s);
    }
    RunsKeep(MACHINE, Inv, START, steps);
  }

  /** Over every run: a deposited PIN was presented, and accepted for an ordinary key each time, unless its erase was
      lost. */
  lemma {:induction false} DepositedPinsWereAccepted(steps: seq<Step>, p: nat)
    requires IsRun(steps) && p in After(steps).deposits
    ensures var w := After(steps); IsGood(w.log, w.lost, w.deposits[p])
  {
    EveryRunIsSound(steps);
  }

  /** Over every run: a PIN the card refused, or one used with a marked key, is not presented again without being typed
      again, unless its erase was lost. */
  lemma {:induction false} RefusedPinsAreNotRepeated(steps: seq<Step>, i: nat, j: nat)
    requires IsRun(steps) && i < j < |After(steps).log|
    requires var w := After(steps); !Good(w.log[i]) && w.log[i].pin.entry !in w.lost
    ensures After(steps).log[j].pin.entry != After(steps).log[i].pin.entry
  {
    EveryRunIsSound(steps);
  }

  /** Exactly when an operation that reached the card leaves its plugin with a PIN: there was one, and either the key is
      ordinary and it succeeded, or the erase was lost. So none survives a use of a marked key whose erase works. */
  lemma {:induction false} PinSurvivesExactly(d: Deposits, op: Op)
    requires !RefusedEarly(op)
    ensures op.plugin in DepositsAfter(d, op) <==> op.plugin in During(d, op) && (Keeps(op) || op.eraseLost)
  {
  }

  /** A use of an ordinary key on which the card refuses the PIN. */
  function RefusedUse(pin: Option<Pin>, eraseLost: bool): Step {
    Raw(Op(0, false, pin, Answers(AuthFailed, false), eraseLost))
  }

  /** A lost erase is what it takes: a PIN the card refused comes back. */
  lemma {:induction false} LostEraseRepeatsRefusedPin(text: string)
    requires text != ""
    ensures var pin := Pin(text, 0);
      var steps := [RefusedUse(Some(pin), true), RefusedUse(None, false)];
      IsRun(steps) && After(steps).log == [Use(pin, false, false, false), Use(pin, false, false, false)]
  {
    var pin := Pin(text, 0);
    var first, second := RefusedUse(Some(pin), true), RefusedUse(None, false);
    var steps := [first, second];
    var w1 := Apply(START, first);
    var w2 := Apply(w1, second);
    assert steps[1..] == [second] && steps[1..][1..] == [];
    assert Ran(MACHINE, w2, []) == w2 && Ran(MACHINE, w1, [second]) == w2;
    assert CanRun(MACHINE, w2, []) && CanRun(MACHINE, w1, [second]);
    assert w1.deposits == map[0 := pin] && w1.log == [Use(pin, false, false, false)];
  }

  // --- the operation as it runs --------------------------------------------------------------------------------

  class Plugins {
    var deposits: Deposits

    constructor ()
      ensures deposits == map[]
    {
      deposits := map[];
    }

    method ErasePin(plugin: nat, lost: bool)
      modifies this
      ensures deposits == Erased(old(deposits), plugin, lost)
    {
      if !lost {
        deposits := deposits - {plugin};
      }
    }

    /** One raw operation under the rule of a raw operation's PIN; None is an exception that propagates. */
    method UnderTheOperationsPin(op: Op) returns (status: Option<Status>)
      modifies this
      ensures deposits == DepositsAfter(old(deposits), op) && status == StatusOf(op)
    {
      if op.marked && op.pin.None? {
        return Some(ConsentRequired);
      }
      if op.pin.Some? && op.pin.value.text == "" {
        ErasePin(op.plugin, op.eraseLost);
        return Some(AuthFailed);
      }
      if op.pin.Some? {
        deposits := deposits[op.plugin := op.pin.value];
      }
      if op.card.Throws? {
        ErasePin(op.plugin, op.eraseLost);
        return None;
      }
      if op.marked || op.card.status != Status.Ok {
        ErasePin(op.plugin, op.eraseLost);
      }
      return Some(op.card.status);
    }

    /** After a PIN change every candidate forgets the old PIN. */
    method EraseDepositedPin(candidates: seq<nat>, lost: set<nat>)
      modifies this
      ensures deposits == AllErased(old(deposits), candidates, lost)
    {
      var i := 0;
      while i < |candidates|
        invariant 0 <= i <= |candidates|
        invariant deposits == AllErased(old(deposits), candidates[..i], lost)
      {
        ErasePin(candidates[i], candidates[i] in lost);
        assert candidates[..i + 1] == candidates[..i] + [candidates[i]];
        i := i + 1;
      }
      assert candidates[..i] == candidates;
    }
  }
}
