/** One raw sign, decrypt or derive run (RawCryptoFlow.cpp), with the session, the prompter, the budget and the card as
    oracles. Every effect a run has on the outside is an event of its trace. */
module CryptoFlow {
  import opened Core
  import opened PinDeposit

  datatype Key = Key(marked: bool)

  datatype Preflight = Preflight(status: Status, key: Option<Key>)

  datatype OpenStatus = Opened | OpenCancelled | OpenFailed

  datatype PromptAnswer = Typed | Declined | Unavailable

  /** What the terminal operation does: refuse before looking at the key, report what the card did, or throw. */
  datatype Terminal = UnknownKey | WrongInput | Card(status: Status) | Raises

  datatype Try = Try(preflight: Preflight, charge: bool, prompt: PromptAnswer, terminal: Terminal)

  /** The oracles of one run, in the order they are asked; the second try's are asked only if it is made. */
  datatype Script = Script(
    verified: bool, session: OpenStatus, wired: bool, first: Try, second: Try,
    cancelledAtStart: bool, cancelledAfterPrompt: bool, cancelledBeforeRetry: bool, cancelledBeforeReuse: bool)

  datatype Outcome =
    Success | NoKey | PinRefused | Unsupported | CardFault | BadInput | Cancelled | RateLimited | Thrown

  datatype Event = Charge(granted: bool) | Prompt | UseKey(withPin: bool, marked: bool) | Mark | Clear | Evict

  datatype Result = Result(outcome: Outcome, trace: seq<Event>)

  // --- what the seams answer ------------------------------------------------------------------------

  function MapStatus(s: Status): Outcome {
    match s
    case Ok => Success
    case KeyNotFound => NoKey
    case AuthFailed => PinRefused
    case NotSupported => Unsupported
    case CardError => CardFault
    case ConsentRequired => CardFault
    case InvalidInput => BadInput
  }

  predicate Refuses(p: Preflight) { p.status != Status.Ok || p.key.None? }

  function RefusalOutcome(s: Status): Outcome { if s == Status.Ok then CardFault else MapStatus(s) }

  /** The status and whether it speaks of a marked key. A marked key without a PIN is not touched. */
  function TerminalAnswer(t: Terminal, key: Key, withPin: bool): (Status, bool)
    requires !t.Raises?
  {
    match t
    case UnknownKey => (KeyNotFound, false)
    case WrongInput => (InvalidInput, false)
    case Card(status) => if key.marked && !withPin then (ConsentRequired, true) else (status, key.marked)
  }

  function PromptOutcome(p: PromptAnswer): Outcome { if p == Declined then Cancelled else CardFault }

  // --- the run, stage by stage -----------------------------------------------------------------------------

  function Concluded(outcome: Outcome, trace: seq<Event>): Result {
    Result(outcome, if outcome == PinRefused then trace + [Evict] else trace)
  }

  /** The retry's use of the key: the PIN just typed, and the flag armed only by an ordinary key's success. */
  function Retried(s: Script, key: Key, trace: seq<Event>): Result {
    var used := trace + [UseKey(true, key.marked)];
    if s.second.terminal.Raises? then Result(Thrown, used)
    else
      var (status, marked) := TerminalAnswer(s.second.terminal, key, true);
      var outcome := MapStatus(status);
      Concluded(outcome, if outcome == Success && !marked then used + [Mark] else used)
  }

  function RetryPrompt(s: Script, key: Key, trace: seq<Event>): Result {
    if !s.second.charge then Result(RateLimited, trace + [Charge(false)])
    else
      var asked := trace + [Charge(true), Prompt];
      if s.second.prompt != Typed then Result(PromptOutcome(s.second.prompt), asked)
      else if s.cancelledBeforeReuse then Result(Cancelled, asked)
      else Retried(s, key, asked)
  }

  /** A lost channel clears the flag and resolves the key again; a marked key only asks for its PIN. */
  function Retry(s: Script, key: Key, channelLost: bool, trace: seq<Event>): Result {
    var cleared := if channelLost then trace + [Clear] else trace;
    if s.cancelledBeforeRetry then Result(Cancelled, cleared)
    else if channelLost && Refuses(s.second.preflight) then Result(RefusalOutcome(s.second.preflight.status), cleared)
    else RetryPrompt(s, if channelLost then s.second.preflight.key.value else key, cleared)
  }

  function Used(s: Script, key: Key, trace: seq<Event>): Result {
    var used := trace + [UseKey(!s.verified, key.marked)];
    if s.first.terminal.Raises? then Result(Thrown, used)
    else
      var (status, marked) := TerminalAnswer(s.first.terminal, key, !s.verified);
      var outcome := MapStatus(status);
      var consentAsked := s.verified && status == ConsentRequired;
      var channelLost := s.verified && !consentAsked && outcome == CardFault;
      if consentAsked || channelLost then Retry(s, key, channelLost, used)
      else Concluded(outcome, if outcome == Success && !s.verified && !marked then used + [Mark] else used)
  }

  function WithKey(s: Script, key: Key, trace: seq<Event>): Result {
    if s.verified then (if s.cancelledAfterPrompt then Result(Cancelled, trace) else Used(s, key, trace))
    else
      var asked := trace + [Prompt];
      if s.first.prompt != Typed then Result(PromptOutcome(s.first.prompt), asked)
      else if s.cancelledAfterPrompt then Result(Cancelled, asked)
      else Used(s, key, asked)
  }

  function Run(s: Script): Result {
    if !s.verified && !s.first.charge then Result(RateLimited, [Charge(false)])
    else
      var trace := if s.verified then [] else [Charge(true)];
      if s.session == OpenCancelled then Result(Cancelled, trace)
      else if s.session == OpenFailed then Result(CardFault, trace)
      else if s.cancelledAtStart then Result(Cancelled, trace)
      else if Refuses(s.first.preflight) then Result(RefusalOutcome(s.first.preflight.status), trace)
      else if !s.wired then Result(CardFault, trace)
      else WithKey(s, s.first.preflight.key.value, trace)
  }

  // --- the run as it is made ------------------------------------------------------------------------------

  /** A prompt, charged first if it is a re-prompt; the outcome to end with if no PIN comes of it. */
  method ObtainPin(t: Try, charge: bool, trace: seq<Event>) returns (stop: Option<Outcome>, after: seq<Event>)
    ensures charge && !t.charge ==> stop == Some(RateLimited) && after == trace + [Charge(false)]
    ensures !charge || t.charge ==>
      && after == trace + (if charge then [Charge(true), Prompt] else [Prompt])
      && stop == if t.prompt == Typed then None else Some(PromptOutcome(t.prompt))
  {
    after := trace;
    if charge {
      after := after + [Charge(t.charge)];
      if !t.charge {
        return Some(RateLimited), after;
      }
    }
    after := after + [Prompt];
    assert trace + [Charge(true)] + [Prompt] == trace + [Charge(true), Prompt];
    stop := if t.prompt == Typed then None else if t.prompt == Declined then Some(Cancelled) else Some(CardFault);
  }

  method RunOp(s: Script) returns (outcome: Outcome, trace: seq<Event>)
    ensures Result(outcome, trace) == Run(s)
  {
    trace := [];
    if !s.verified {
      trace := [Charge(s.first.charge)];
      if !s.first.charge {
        return RateLimited, trace;
      }
    }
    if s.session == OpenCancelled {
      return Cancelled, trace;
    }
    if s.session == OpenFailed {
      return CardFault, trace;
    }
    if s.cancelledAtStart {
      return Cancelled, trace;
    }
    var checked := s.first.preflight;
    if Refuses(checked) {
      return RefusalOutcome(checked.status), trace;
    }
    if !s.wired {
      return CardFault, trace;
    }
    if !s.verified {
      var stop;
      stop, trace := ObtainPin(s.first, false, trace);
      if stop.Some? {
        return stop.value, trace;
      }
    }
    if s.cancelledAfterPrompt {
      return Cancelled, trace;
    }
    outcome, trace := UseTheKey(s, checked.key.value, trace);
  }

  method UseTheKey(s: Script, key: Key, before: seq<Event>) returns (outcome: Outcome, trace: seq<Event>)
    ensures Result(outcome, trace) == Used(s, key, before)
  {
    trace := before + [UseKey(!s.verified, key.marked)];
    if s.first.terminal.Raises? {
      return Thrown, trace;
    }
    var (status, marked) := TerminalAnswer(s.first.terminal, key, !s.verified);
    outcome := MapStatus(status);
    var consentAsked := s.verified && status == ConsentRequired;
    var channelLost := s.verified && !consentAsked && outcome == CardFault;
    if consentAsked || channelLost {
      outcome, trace := RetryWithPin(s, key, channelLost, trace);
      return;
    }
    if outcome == Success && !s.verified && !marked {
      trace := trace + [Mark];
    }
    if outcome == PinRefused {
      trace := trace + [Evict];
    }
  }

  method RetryWithPin(
    s: Script, key: Key, channelLost: bool, before: seq<Event>) returns (outcome: Outcome, trace: seq<Event>)
    ensures Result(outcome, trace) == Retry(s, key, channelLost, before)
  {
    trace := before;
    var resolved := key;
    if channelLost {
      trace := trace + [Clear];
    }
    if s.cancelledBeforeRetry {
      return Cancelled, trace;
    }
    if channelLost {
      var checked := s.second.preflight;
      if Refuses(checked) {
        return RefusalOutcome(checked.status), trace;
      }
      resolved := checked.key.value;
    }
    var stop;
    stop, trace := ObtainPin(s.second, true, trace);
    if stop.Some? {
      return stop.value, trace;
    }
    if s.cancelledBeforeReuse {
      return Cancelled, trace;
    }
    trace := trace + [UseKey(true, resolved.marked)];
    if s.second.terminal.Raises? {
      return Thrown, trace;
    }
    var (status, marked) := TerminalAnswer(s.second.terminal, resolved, true);
    outcome := MapStatus(status);
    if outcome == Success && !marked {
      trace := trace + [Mark];
    }
    if outcome == PinRefused {
      trace := trace + [Evict];
    }
  }

  // --- the shapes a trace can have ------------------------------------------------------------------------

  /** A use of the key with a PIN, and what may follow it. */
  ghost predicate EndsLike(tail: seq<Event>, outcome: Outcome) {
    || tail == []
    || tail == [Charge(true)]
    || tail == [Charge(true), Prompt]
    || (|tail| == 3 && tail[..2] == [Charge(true), Prompt] && tail[2].UseKey? && tail[2].withPin)
    || (|tail| == 4 && tail[..2] == [Charge(true), Prompt] && tail[2].UseKey? && tail[2].withPin && tail[3] == Evict)
    || (|tail| == 4 && tail[..3] == [Charge(true), Prompt, UseKey(true, false)] && tail[3] == Mark
        && outcome == Success)
    || (tail == [Charge(false)] && outcome == RateLimited)
  }

  lemma {:induction false} ColdShape(s: Script)
    requires !s.verified
    ensures EndsLike(Run(s).trace, Run(s).outcome)
  {
  }

  lemma {:induction false} RetriedShape(s: Script, key: Key, trace: seq<Event>) returns (tail: seq<Event>)
    ensures RetryPrompt(s, key, trace).trace == trace + tail && EndsLike(tail, RetryPrompt(s, key, trace).outcome)
  {
    var r := RetryPrompt(s, key, trace);
    tail := r.trace[|trace|..];
    var asked := [Charge(true), Prompt];
    if s.second.charge && s.second.prompt == Typed && !s.cancelledBeforeReuse {
      assert trace + asked + [UseKey(true, key.marked)] == trace + (asked + [UseKey(true, key.marked)]);
      var use := UseKey(true, key.marked);
      assert forall e :: trace + asked + [use] + [e] == trace + (asked + [use, e]);
    }
  }

  /** A verified run starts with a use without a PIN, if it gets that far; then come the flag's clearing, if the channel
      was lost, and a paid retry; or nothing but an eviction. */
  lemma {:induction false} WarmShape(s: Script) returns (head: seq<Event>, tail: seq<Event>)
    requires s.verified
    ensures Run(s).trace == head + tail && EndsLike(tail, Run(s).outcome)
    ensures StartsLike(head)
  {
    var trace := Run(s).trace;
    head, tail := trace, [];
    if s.session == Opened && !s.cancelledAtStart && !Refuses(s.first.preflight) && s.wired && !s.cancelledAfterPrompt {
      var key := s.first.preflight.key.value;
      var used := [UseKey(false, key.marked)];
      assert [] + used == used;
      if !s.first.terminal.Raises? {
        var status := TerminalAnswer(s.first.terminal, key, false).0;
        if status == ConsentRequired || MapStatus(status) == CardFault {
          var lost := status != ConsentRequired;
          head := if lost then used + [Clear] else used;
          tail := trace[|head|..];
          if !s.cancelledBeforeRetry && !(lost && Refuses(s.second.preflight)) {
            var again := if lost then s.second.preflight.key.value else key;
            tail := RetriedShape(s, again, head);
          }
        }
      }
    }
  }

  // --- what a run promises -----------------------------------------------------------------------------------

  ghost predicate StartsLike(head: seq<Event>) {
    || head == []
    || (0 < |head| <= 2 && head[0].UseKey? && !head[0].withPin
        && (|head| == 2 ==> head[1] == Clear || head[1] == Evict))
  }

  lemma {:induction false} ShapedTrace(head: seq<Event>, tail: seq<Event>, outcome: Outcome, trace: seq<Event>, i: nat)
    requires StartsLike(head) && EndsLike(tail, outcome) && trace == head + tail && i < |trace|
    ensures trace[i] == Prompt ==> i == |head| + 1 && trace[i - 1] == Charge(true)
    ensures trace[i].UseKey? ==> if trace[i].withPin then i == |head| + 2 && trace[i - 1] == Prompt else head != []
    ensures trace[i] == Mark ==> outcome == Success && i == |trace| - 1 && i > 0 && trace[i - 1] == UseKey(true, false)
  {
  }

  lemma {:induction false} RunShape(s: Script) returns (head: seq<Event>, tail: seq<Event>)
    ensures StartsLike(head) && EndsLike(tail, Run(s).outcome) && Run(s).trace == head + tail
    ensures (head != [] ==> s.verified)
  {
    if s.verified {
      head, tail := WarmShape(s);
    } else {
      ColdShape(s);
      head, tail := [], Run(s).trace;
    }
  }

  /** At most one prompt is raised, and a granted charge comes right before it. */
  lemma {:induction false} OnePaidPrompt(s: Script, i: nat, j: nat)
    requires i < |Run(s).trace| && j < |Run(s).trace| && Run(s).trace[i] == Prompt
    ensures Run(s).trace[j] == Prompt ==> i == j
    ensures i > 0 && Run(s).trace[i - 1] == Charge(true)
  {
    var head, tail := RunShape(s);
    ShapedTrace(head, tail, Run(s).outcome, Run(s).trace, i);
    ShapedTrace(head, tail, Run(s).outcome, Run(s).trace, j);
  }

  /** At most one use of the key is given a PIN, the one just typed; a use without one happens on a verified lease. */
  lemma {:induction false} PinIsHandedOnce(s: Script, i: nat, j: nat)
    requires i < |Run(s).trace| && j < |Run(s).trace| && Run(s).trace[i].UseKey? && Run(s).trace[j].UseKey?
    ensures Run(s).trace[i].withPin && Run(s).trace[j].withPin ==> i == j
    ensures Run(s).trace[i].withPin ==> i > 0 && Run(s).trace[i - 1] == Prompt
    ensures !Run(s).trace[i].withPin ==> s.verified
  {
    var head, tail := RunShape(s);
    ShapedTrace(head, tail, Run(s).outcome, Run(s).trace, i);
    ShapedTrace(head, tail, Run(s).outcome, Run(s).trace, j);
  }

  /** If the first preflight refuses there is no prompt, no use of the key, and the lease's flag is left alone. */
  lemma {:induction false} RefusedPreflightDoesNothing(s: Script, i: nat)
    requires Refuses(s.first.preflight) && i < |Run(s).trace|
    ensures Run(s).trace[i].Charge?
  {
  }

  /** The flag is armed at the end of a successful run that gave a PIN to an ordinary key, and then only. */
  lemma {:induction false} ArmedByOrdinarySuccess(s: Script, i: nat)
    requires i < |Run(s).trace| && Run(s).trace[i] == Mark
    ensures Run(s).outcome == Success && i == |Run(s).trace| - 1 && i > 0 && Run(s).trace[i - 1] == UseKey(true, false)
  {
    var head, tail := RunShape(s);
    ShapedTrace(head, tail, Run(s).outcome, Run(s).trace, i);
  }

  /** A marked key neither arms nor clears the flag. */
  lemma {:induction false} MarkedKeyLeavesTheFlag(s: Script, i: nat)
    requires s.first.preflight.key.Some? ==> s.first.preflight.key.value.marked
    requires i < |Run(s).trace|
    ensures Run(s).trace[i] != Mark && Run(s).trace[i] != Clear
  {
  }
}
