/** Streaming frame reassembly (FrameReassembler.cpp): a byte buffer and a descriptor FIFO fed by reads, from which
    whole frames are cut, each with exactly the descriptors its header declares. */
module Frames {
  import opened Core
  import opened Sequences

  type Fd = nat

  const HEADER := 8
  const WORD := 0x1_0000_0000

  /** The largest body and the most descriptors a frame may declare. */
  datatype Limits = Limits(bytes: nat, fds: nat)

  datatype Frame = Frame(body: Bytes, fds: seq<Fd>)

  datatype FrameError = Io | Oversize | TooManyFds | FdMismatch

  datatype Status = Open | PeerClosed | Error(error: FrameError)

  /** What one non-blocking read brings. */
  datatype Read = Data(bytes: Bytes, fds: seq<Fd>, truncated: bool) | WouldBlock | Eof | Interrupted | Failed

  datatype State = State(buffer: Bytes, fds: seq<Fd>)

  // --- the wire form ------------------------------------------------------------------------

  function GetU32(b: Bytes): (n: nat)
    requires |b| == 4
    ensures n < WORD
  {
    var b0: int, b1: int, b2: int, b3: int := b[0], b[1], b[2], b[3];
    b0 + 0x100 * b1 + 0x1_0000 * b2 + 0x100_0000 * b3
  }

  function PutU32(n: nat): (b: Bytes)
    requires n < WORD
    ensures |b| == 4
  {
    [n % 0x100, n / 0x100 % 0x100, n / 0x1_0000 % 0x100, n / 0x100_0000]
  }

  lemma {:induction false} WordReadsBack(n: nat)
    requires n < WORD
    ensures GetU32(PutU32(n)) == n
  {
    assert n / 0x1_0000 == n / 0x100 / 0x100 && n / 0x100_0000 == n / 0x100 / 0x100 / 0x100;
  }

  lemma {:induction false} LowDigit(low: nat, high: nat)
    requires low < 0x100
    ensures (low + 0x100 * high) % 0x100 == low && (low + 0x100 * high) / 0x100 == high
  {
  }

  lemma {:induction false} WordWritesBack(b: Bytes)
    requires |b| == 4
    ensures PutU32(GetU32(b)) == b
  {
    var n := GetU32(b);
    var b0: int, b1: int, b2: int, b3: int := b[0], b[1], b[2], b[3];
    LowDigit(b0, b1 + 0x100 * (b2 + 0x100 * b3));
    LowDigit(b1, b2 + 0x100 * b3);
    LowDigit(b2, b3);
    assert n / 0x1_0000 == n / 0x100 / 0x100 && n / 0x100_0000 == n / 0x100 / 0x100 / 0x100;
  }

  predicate Admissible(l: Limits, f: Frame) {
    |f.body| <= l.bytes && |f.fds| <= l.fds && |f.body| < WORD && |f.fds| < WORD
  }

  function Serialised(body: Bytes, fdCount: nat): (b: Bytes)
    ensures |body| < WORD && fdCount < WORD ==> |b| == HEADER + |body|
  {
    if |body| < WORD && fdCount < WORD then PutU32(|body|) + PutU32(fdCount) + body else []
  }

  function Serialise(f: Frame): Bytes { Serialised(f.body, |f.fds|) }

  function FdsOf(f: Frame): seq<Fd> { f.fds }

  function Stream(frames: seq<Frame>): Bytes { Collect(Serialise, frames) }

  // --- extraction, the simple form --------------------------------------------------------------

  function BodyLength(b: Bytes): nat
    requires |b| >= HEADER
  {
    GetU32(b[..4])
  }

  function FdCount(b: Bytes): nat
    requires |b| >= HEADER
  {
    GetU32(b[4..8])
  }

  /** Why the frame at the head of the buffer cannot be cut: a violation, or not enough bytes yet. */
  datatype Head = Short | Bad(error: FrameError) | Whole

  function HeadOf(l: Limits, st: State): Head {
    if |st.buffer| < HEADER then Short
    else if BodyLength(st.buffer) > l.bytes then Bad(Oversize)
    else if FdCount(st.buffer) > l.fds then Bad(TooManyFds)
    else if |st.buffer| < HEADER + BodyLength(st.buffer) then Short
    else if |st.fds| < FdCount(st.buffer) then Bad(FdMismatch)
    else Whole
  }

  lemma {:induction false} WholeHeads(l: Limits, st: State)
    ensures HeadOf(l, st) == Whole ==>
      |st.buffer| >= HEADER && HEADER + BodyLength(st.buffer) <= |st.buffer| && FdCount(st.buffer) <= |st.fds|
  {
  }

  function FirstFrame(st: State): Frame
    requires HEADER <= |st.buffer| && HEADER + BodyLength(st.buffer) <= |st.buffer| && FdCount(st.buffer) <= |st.fds|
  {
    Frame(st.buffer[HEADER..HEADER + BodyLength(st.buffer)], st.fds[..FdCount(st.buffer)])
  }

  function AfterFirst(st: State): State
    requires HEADER <= |st.buffer| && HEADER + BodyLength(st.buffer) <= |st.buffer| && FdCount(st.buffer) <= |st.fds|
  {
    State(st.buffer[HEADER + BodyLength(st.buffer)..], st.fds[FdCount(st.buffer)..])
  }

  datatype Cut = Cut(frames: seq<Frame>, rest: State, end: Head)

  /** Frames are cut off the head until none is whole. */
  function Extract(l: Limits, st: State): (r: Cut)
    ensures r.end == HeadOf(l, r.rest) && r.end != Whole
    decreases |st.buffer|
  {
    if HeadOf(l, st) == Whole then
      var more := Extract(l, AfterFirst(st));
      more.(frames := [FirstFrame(st)] + more.frames)
    else Cut([], st, HeadOf(l, st))
  }

  // --- reading, the simple form --------------------------------------------------------------------

  datatype Drained = Drained(st: State, status: Status, taken: nat)

  /** Descriptors are owned before any verdict on the read; bytes are kept unless the read is refused before them. */
  function Arrived(l: Limits, st: State, r: Read): (State, Status)
    requires r.Data?
  {
    var owned := st.(fds := st.fds + r.fds);
    if r.truncated then (owned, Error(Io))
    else if |owned.fds| > 2 * l.fds then (owned, Error(TooManyFds))
    else
      var kept := owned.(buffer := st.buffer + r.bytes);
      (kept, if |kept.buffer| > HEADER + l.bytes then Error(Oversize) else Open)
  }

  predicate EndsRead(r: Read) { r.WouldBlock? || r.Eof? || r.Failed? || (r.Data? && r.bytes == []) }

  function EndStatus(r: Read): Status {
    if r.WouldBlock? then Open else if r.Failed? then Error(Io) else PeerClosed
  }

  /** Reads are taken until one ends the loop. */
  function Drain(l: Limits, st: State, input: seq<Read>): (r: Drained)
    ensures r.taken <= |input|
    decreases input
  {
    if input == [] then Drained(st, Open, 0)
    else if EndsRead(input[0]) then Drained(st, EndStatus(input[0]), 1)
    else
      var (next, status) := if input[0].Interrupted? then (st, Open) else Arrived(l, st, input[0]);
      if status != Open then Drained(next, status, 1)
      else
        var more := Drain(l, next, input[1..]);
        more.(taken := more.taken + 1)
  }

  datatype Pumped = Pumped(frames: seq<Frame>, status: Status, st: State, taken: nat)

  /** One call of pump. */
  function Pump(l: Limits, st: State, input: seq<Read>): (r: Pumped)
    ensures r.taken <= |input|
  {
    var d := Drain(l, st, input);
    if d.status.Error? then Pumped([], d.status, d.st, d.taken)
    else
      var cut := Extract(l, d.st);
      Pumped(cut.frames, if cut.end.Bad? then Error(cut.end.error) else d.status, cut.rest, d.taken)
  }

  // --- what a cut is worth --------------------------------------------------------------------------

  lemma {:induction false} FirstFrameSerialises(l: Limits, st: State)
    requires HeadOf(l, st) == Whole
    ensures Serialise(FirstFrame(st)) + AfterFirst(st).buffer == st.buffer
    ensures FirstFrame(st).fds + AfterFirst(st).fds == st.fds && Admissible(l, FirstFrame(st))
  {
    var b, n := st.buffer, BodyLength(st.buffer);
    WordWritesBack(b[..4]);
    WordWritesBack(b[4..8]);
    assert b == b[..4] + b[4..8] + b[8..8 + n] + b[8 + n..];
  }

  lemma {:induction false} CollectCons<A, B>(f: A -> seq<B>, x: A, s: seq<A>)
    ensures Collect(f, [x] + s) == f(x) + Collect(f, s)
  {
    CollectJoin(f, [x], s);
    CollectOne(f, x);
  }

  /** Extraction conserves everything: the frames serialised and what is left are the buffer, the frames' descriptors
      and what is left are the FIFO. */
  lemma {:induction false} ExtractConserves(l: Limits, st: State)
    ensures var r := Extract(l, st);
      && Stream(r.frames) + r.rest.buffer == st.buffer
      && Collect(FdsOf, r.frames) + r.rest.fds == st.fds
      && forall f <- r.frames :: Admissible(l, f)
    decreases |st.buffer|
  {
    if HeadOf(l, st) == Whole {
      var first, rest := FirstFrame(st), AfterFirst(st);
      var more := Extract(l, rest);
      ExtractConserves(l, rest);
      FirstFrameSerialises(l, st);
      CollectCons(Serialise, first, more.frames);
      CollectCons(FdsOf, first, more.frames);
      Regroup(Serialise(first), Stream(more.frames), more.rest.buffer);
      Regroup(first.fds, Collect(FdsOf, more.frames), more.rest.fds);
    }
  }

  lemma {:induction false} Regroup<A>(a: seq<A>, b: seq<A>, c: seq<A>)
    ensures a + b + c == a + (b + c)
  {
  }

  // --- what arrives -----------------------------------------------------------------------------------

  function BytesIn(r: Read): Bytes { if r.Data? then r.bytes else [] }

  /** A read without bytes is the end of the stream, whatever came with it. */
  function FdsIn(r: Read): seq<Fd> { if r.Data? && r.bytes != [] then r.fds else [] }

  /** Reading conserves every descriptor on every path, and every byte unless it ends in an error. */
  lemma {:induction false} DrainConserves(l: Limits, st: State, input: seq<Read>)
    ensures var d := Drain(l, st, input);
      && d.st.fds == st.fds + Collect(FdsIn, input[..d.taken])
      && (!d.status.Error? ==> d.st.buffer == st.buffer + Collect(BytesIn, input[..d.taken]))
    decreases input
  {
    if input == [] {
      assert input[..0] == [];
    } else {
      var r, next := input[0], AfterRead(l, st, input[0]);
      OneRead(l, st, r);
      if GoesOn(l, st, r) {
        var taken := input[1..][..Drain(l, next, input[1..]).taken];
        DrainConserves(l, next, input[1..]);
        DrainGoesOn(l, st, input);
        assert input[..1 + |taken|] == [r] + taken;
        CollectCons(FdsIn, r, taken);
        CollectCons(BytesIn, r, taken);
        Regroup(st.fds, FdsIn(r), Collect(FdsIn, taken));
        Regroup(st.buffer, BytesIn(r), Collect(BytesIn, taken));
      } else {
        assert input[..1] == [r];
        CollectOne(FdsIn, r);
        CollectOne(BytesIn, r);
      }
    }
  }

  function AfterRead(l: Limits, st: State, r: Read): State {
    if r.Data? && !EndsRead(r) then Arrived(l, st, r).0 else st
  }

  predicate GoesOn(l: Limits, st: State, r: Read) {
    r.Interrupted? || (r.Data? && !EndsRead(r) && Arrived(l, st, r).1 == Open)
  }

  lemma {:induction false} DrainGoesOn(l: Limits, st: State, input: seq<Read>)
    requires input != [] && GoesOn(l, st, input[0])
    ensures var more := Drain(l, AfterRead(l, st, input[0]), input[1..]);
      Drain(l, st, input) == more.(taken := more.taken + 1)
  {
  }

  lemma {:induction false} OneRead(l: Limits, st: State, r: Read)
    ensures AfterRead(l, st, r).fds == st.fds + FdsIn(r)
    ensures GoesOn(l, st, r) || EndsRead(r) ==> AfterRead(l, st, r).buffer == st.buffer + BytesIn(r)
  {
  }

  // --- a connection's whole life -----------------------------------------------------------------------

  /** Everything a run of pumps received and delivered; a run stops at its first error. */
  datatype Run = Run(st: State, alive: bool, frames: seq<Frame>, bytes: Bytes, fds: seq<Fd>)

  const EMPTY := State([], [])

  function Lived(l: Limits, calls: seq<seq<Read>>): Run {
    if calls == [] then Run(EMPTY, true, [], [], [])
    else
      var n := |calls| - 1;
      var before := Lived(l, calls[..n]);
      if !before.alive then before
      else
        var p := Pump(l, before.st, calls[n]);
        Run(p.st, !p.status.Error?, before.frames + p.frames,
            before.bytes + Collect(BytesIn, calls[n][..p.taken]), before.fds + Collect(FdsIn, calls[n][..p.taken]))
  }

  lemma {:induction false} PumpConserves(l: Limits, st: State, input: seq<Read>)
    ensures var p := Pump(l, st, input);
      && Collect(FdsOf, p.frames) + p.st.fds == st.fds + Collect(FdsIn, input[..p.taken])
      && (!p.status.Error? ==>
            && Stream(p.frames) + p.st.buffer == st.buffer + Collect(BytesIn, input[..p.taken])
            && HeadOf(l, p.st) == Short)
      && forall f <- p.frames :: Admissible(l, f)
  {
    DrainConserves(l, st, input);
    var d := Drain(l, st, input);
    ExtractConserves(l, d.st);
    assert Collect(FdsOf, []) == [];
  }

  lemma {:induction false} Append<A>(a: seq<A>, b: seq<A>, c: seq<A>, d: seq<A>, all: seq<A>, more: seq<A>)
    requires a + b == all && c + d == b + more
    ensures a + c + d == all + more
  {
    assert a + c + d == a + (c + d);
    assert a + (b + more) == (a + b) + more;
  }

  /** Conservation over any run: on every path the descriptors delivered, then those pending, are those harvested, in
      order; while no error occurs the frames serialised, then the residue, are the bytes received, and the residue
      holds no whole frame. */
  lemma {:induction false} RunsConserve(l: Limits, calls: seq<seq<Read>>)
    ensures var r := Lived(l, calls);
      && Collect(FdsOf, r.frames) + r.st.fds == r.fds
      && (r.alive ==> Stream(r.frames) + r.st.buffer == r.bytes && HeadOf(l, r.st) == Short)
      && forall f <- r.frames :: Admissible(l, f)
  {
    if calls == [] {
      assert Collect(FdsOf, []) == [];
      assert Collect(Serialise, []) == [];
    } else {
      var n := |calls| - 1;
      RunsConserve(l, calls[..n]);
      var before := Lived(l, calls[..n]);
      if before.alive {
        var p := Pump(l, before.st, calls[n]);
        PumpConserves(l, before.st, calls[n]);
        CollectJoin(FdsOf, before.frames, p.frames);
        CollectJoin(Serialise, before.frames, p.frames);
        Append(Collect(FdsOf, before.frames), before.st.fds, Collect(FdsOf, p.frames), p.st.fds, before.fds,
               Collect(FdsIn, calls[n][..p.taken]));
        if !p.status.Error? {
          Append(Stream(before.frames), before.st.buffer, Stream(p.frames), p.st.buffer, before.bytes,
                 Collect(BytesIn, calls[n][..p.taken]));
        }
      }
    }
  }

  // --- frames do not depend on how the reads were split --------------------------------------------------

  lemma {:induction false} HeaderOf(f: Frame, rest: Bytes)
    requires |f.body| < WORD && |f.fds| < WORD
    ensures var b := Serialise(f) + rest;
      && |b| >= HEADER && BodyLength(b) == |f.body| && FdCount(b) == |f.fds|
      && b[HEADER..HEADER + |f.body|] == f.body && b[HEADER + |f.body|..] == rest
  {
    var b := Serialise(f) + rest;
    WordReadsBack(|f.body|);
    WordReadsBack(|f.fds|);
    assert b[..4] == PutU32(|f.body|) && b[4..8] == PutU32(|f.fds|);
  }

  /** A residue: too short for a header, or an admissible header without its whole body. */
  predicate Unfinished(l: Limits, b: Bytes) {
    |b| < HEADER || (BodyLength(b) <= l.bytes && FdCount(b) <= l.fds && |b| < HEADER + BodyLength(b))
  }

  lemma {:induction false} UnfinishedStartsNoFrame(l: Limits, f: Frame, rest: Bytes)
    requires Admissible(l, f)
    ensures !Unfinished(l, Serialise(f) + rest)
  {
    HeaderOf(f, rest);
  }

  lemma {:induction false} SameFirst(l: Limits, f: Frame, g: Frame, x: Bytes, y: Bytes, p: seq<Fd>, q: seq<Fd>)
    requires Admissible(l, f) && Admissible(l, g)
    requires Serialise(f) + x == Serialise(g) + y && f.fds + p == g.fds + q
    ensures f == g && x == y && p == q
  {
    HeaderOf(f, x);
    HeaderOf(g, y);
    assert f.fds == (f.fds + p)[..|f.fds|] && g.fds == (g.fds + q)[..|g.fds|];
    assert p == (f.fds + p)[|f.fds|..] && q == (g.fds + q)[|g.fds|..];
  }

  /** A stream has one reading. */
  lemma {:induction false} OneReading(
    l: Limits, a: seq<Frame>, x: Bytes, p: seq<Fd>, b: seq<Frame>, y: Bytes, q: seq<Fd>)
    requires Stream(a) + x == Stream(b) + y && Collect(FdsOf, a) + p == Collect(FdsOf, b) + q
    requires Unfinished(l, x) && Unfinished(l, y)
    requires (forall f <- a :: Admissible(l, f)) && (forall f <- b :: Admissible(l, f))
    ensures a == b && x == y && p == q
    decreases |a|
  {
    if a != [] {
      FrontOf(a, x, p);
      if b == [] {
        assert Stream(b) + y == y;
        UnfinishedStartsNoFrame(l, a[0], Stream(a[1..]) + x);
      } else {
        FrontOf(b, y, q);
        SameFirst(l, a[0], b[0], Stream(a[1..]) + x, Stream(b[1..]) + y,
                  Collect(FdsOf, a[1..]) + p, Collect(FdsOf, b[1..]) + q);
        OneReading(l, a[1..], x, p, b[1..], y, q);
        assert a == [a[0]] + a[1..] && b == [b[0]] + b[1..];
      }
    } else {
      assert Stream(a) + x == x && Collect(FdsOf, a) + p == p;
      if b != [] {
        FrontOf(b, y, q);
        UnfinishedStartsNoFrame(l, b[0], Stream(b[1..]) + y);
      } else {
        assert Stream(b) + y == y && Collect(FdsOf, b) + q == q;
      }
    }
  }

  lemma {:induction false} FrontOf(a: seq<Frame>, x: Bytes, p: seq<Fd>)
    requires a != []
    ensures Stream(a) + x == Serialise(a[0]) + (Stream(a[1..]) + x)
    ensures Collect(FdsOf, a) + p == a[0].fds + (Collect(FdsOf, a[1..]) + p)
  {
    assert a == [a[0]] + a[1..];
    CollectCons(Serialise, a[0], a[1..]);
    CollectCons(FdsOf, a[0], a[1..]);
  }

  /** Two error-free runs that received the same bytes and the same descriptors delivered the same frames. */
  lemma {:induction false} SplitsDoNotMatter(l: Limits, one: seq<seq<Read>>, other: seq<seq<Read>>)
    requires Lived(l, one).alive && Lived(l, other).alive
    requires Lived(l, one).bytes == Lived(l, other).bytes && Lived(l, one).fds == Lived(l, other).fds
    ensures Lived(l, one).frames == Lived(l, other).frames && Lived(l, one).st == Lived(l, other).st
  {
    RunsConserve(l, one);
    RunsConserve(l, other);
    var r, t := Lived(l, one), Lived(l, other);
    OneReading(l, r.frames, r.st.buffer, r.st.fds, t.frames, t.st.buffer, t.st.fds);
  }

  // --- what may be left over -------------------------------------------------------------------------------

  ghost predicate StrictPrefixOf(l: Limits, b: Bytes, f: Frame) {
    Admissible(l, f) && |b| < |Serialise(f)| && b <= Serialise(f)
  }

  function Zeros(n: nat): (z: Bytes)
    ensures |z| == n
  {
    seq(n, i => 0)
  }

  /** The header as it would be if the bytes still missing were zero. */
  function Padded(b: Bytes): (r: Bytes)
    ensures |b| <= HEADER ==> |r| == HEADER
  {
    if |b| <= HEADER then b + Zeros(HEADER - |b|) else b
  }

  /** What is left in the buffer begins an admissible frame exactly when its header, as far as it has come, declares no
      more than the limits. A complete header was checked; one that is still arriving was not. */
  ghost predicate StillFits(l: Limits, b: Bytes) { BodyLength(Padded(b)) <= l.bytes && FdCount(Padded(b)) <= l.fds }

  lemma {:induction false} FillsUp(l: Limits, b: Bytes) returns (f: Frame)
    requires Unfinished(l, b) && StillFits(l, b)
    ensures StrictPrefixOf(l, b, f)
  {
    var h := Padded(b);
    var n, m := BodyLength(h), FdCount(h);
    WordWritesBack(h[..4]);
    WordWritesBack(h[4..8]);
    var body := if |b| <= HEADER then Zeros(n) else b[HEADER..] + Zeros(n - (|b| - HEADER));
    f := Frame(body, seq(m, i => 0));
    assert Serialise(f) == h[..4] + h[4..8] + body;
    assert h[..4] + h[4..8] == h[..8];
  }

  lemma {:induction false} DigitsGrow(a: Bytes, b: Bytes)
    requires |a| == |b| == 4 && forall i :: 0 <= i < 4 ==> a[i] <= b[i]
    ensures GetU32(a) <= GetU32(b)
  {
  }

  lemma {:induction false} PrefixFits(l: Limits, b: Bytes, f: Frame)
    requires StrictPrefixOf(l, b, f)
    ensures Unfinished(l, b) && StillFits(l, b)
  {
    var s, h := Serialise(f), Padded(b);
    HeaderOf(f, []);
    assert s + [] == s;
    if |b| <= HEADER {
      assert forall i :: 0 <= i < |b| ==> b[i] == s[i];
      assert forall i :: 0 <= i < HEADER ==> h[i] <= s[i];
      DigitsGrow(h[..4], s[..4]);
      DigitsGrow(h[4..8], s[4..8]);
    } else {
      assert b[..4] == s[..4] && b[4..8] == s[4..8];
    }
    if |b| == HEADER {
      assert h == b;
    }
  }

  lemma {:induction false} PartialHeaderPump(l: Limits, b: Bytes)
    requires 0 < |b| < HEADER
    ensures Pump(l, EMPTY, [Data(b, [], false), WouldBlock]) == Pumped([], Open, State(b, []), 2)
  {
    var input := [Data(b, [], false), WouldBlock];
    assert input[1..] == [WouldBlock] && EMPTY.buffer + b == b;
    DrainGoesOn(l, EMPTY, input);
  }

  /** Four bytes of a length no limit allows stay in the buffer without an error. */
  lemma {:induction false} PartialHeaderIsNotJudged(l: Limits, f: Frame)
    requires l.bytes < WORD - 1
    ensures var b: Bytes, r := [255, 255, 255, 255], Lived(l, [[Data([255, 255, 255, 255], [], false), WouldBlock]]);
      r.alive && r.st.buffer == b && !StrictPrefixOf(l, b, f)
  {
    var b: Bytes := [255, 255, 255, 255];
    var calls, input := [[Data(b, [], false), WouldBlock]], [Data(b, [], false), WouldBlock];
    assert calls[..0] == [] && calls[0] == input && input[1..] == [WouldBlock];
    assert GetU32(b) == WORD - 1;
    assert Padded(b)[..4] == b;
    if StrictPrefixOf(l, b, f) {
      PrefixFits(l, b, f);
    }
    PartialHeaderPump(l, b);
    assert Lived(l, calls[..0]) == Run(EMPTY, true, [], [], []);
  }
}

/** The reassembler itself, against the simple form. */
module FrameReassembler {
  import opened Core
  import opened Sequences
  import opened Frames

  datatype Next = NextBad(error: FrameError) | NextNone | NextFrame(frame: Frame)

  class Reassembler {
    const limits: Limits
    var buffer: Bytes
    var fds: seq<Fd>

    ghost function View(): State
      reads this
    {
      State(buffer, fds)
    }

    constructor (l: Limits)
      ensures limits == l && View() == EMPTY
    {
      limits, buffer, fds := l, [], [];
    }

    /** The descriptors of one frame, popped off the FIFO. */
    method PopFds(count: nat) returns (popped: seq<Fd>)
      requires count <= |fds|
      modifies this`fds
      ensures popped == old(fds)[..count] && fds == old(fds)[count..]
    {
      popped := [];
      for i := 0 to count
        invariant |popped| == i && popped + fds == old(fds)
      {
        popped, fds := popped + [fds[0]], fds[1..];
      }
    }

    /** Cuts every whole frame off the buffer, erasing the bytes it consumed even when a violation ends it. */
    method Extract() returns (frames: seq<Frame>, error: Option<FrameError>)
      modifies this
      ensures var cut := Frames.Extract(limits, old(View()));
        frames == cut.frames && View() == cut.rest && error == if cut.end.Bad? then Some(cut.end.error) else None
    {
      var pos := 0;
      frames, error := [], None;
      ghost var whole := Frames.Extract(limits, View());
      ghost var rest := View();
      while |buffer| - pos >= HEADER
        invariant 0 <= pos <= |buffer| && buffer == old(buffer) && error == None
        invariant rest == State(buffer[pos..], fds) && Continues(whole, frames, Frames.Extract(limits, rest))
        decreases |buffer| - pos
      {
        var head, next := CutNext(pos);
        if head.NextBad? {
          error := Some(head.error);
        }
        if !head.NextFrame? {
          break;
        }
        OneFrameOn(limits, whole, frames, rest);
        pos := next;
        rest := State(buffer[pos..], fds);
        frames := frames + [head.frame];
      }
      buffer := buffer[pos..];
    }

    /** What the frame at a position comes to: a violation, nothing yet, or the frame and where the next one starts. */
    method CutNext(pos: nat) returns (r: Next, next: nat)
      requires pos + HEADER <= |buffer|
      modifies this`fds
      ensures var here := State(buffer[pos..], old(fds));
        match HeadOf(limits, here)
        case Bad(e) => r == NextBad(e) && fds == old(fds)
        case Short => r == NextNone && fds == old(fds)
        case Whole =>
          && r == NextFrame(FirstFrame(here)) && pos < next <= |buffer|
          && State(buffer[next..], fds) == AfterFirst(here)
    {
      WholeHeads(limits, State(buffer[pos..], fds));
      var head, bodyLength, fdCount := JudgeHead(pos);
      next := pos;
      match head
      case Bad(e) => r := NextBad(e);
      case Short => r := NextNone;
      case Whole =>
        var f := CutFrame(pos, bodyLength, fdCount);
        r, next := NextFrame(f), pos + HEADER + bodyLength;
    }

    /** What stands at a position: a violation, an unfinished frame, or a whole one. */
    method JudgeHead(pos: nat) returns (head: Head, bodyLength: nat, fdCount: nat)
      requires pos + HEADER <= |buffer|
      ensures head == HeadOf(limits, State(buffer[pos..], fds))
      ensures head == Whole ==> pos + HEADER + bodyLength <= |buffer| && fdCount <= |fds|
      ensures bodyLength == BodyLength(buffer[pos..]) && fdCount == FdCount(buffer[pos..])
    {
      bodyLength, fdCount := ReadHeader(pos);
      if bodyLength > limits.bytes {
        head := Bad(Oversize);
      } else if fdCount > limits.fds {
        head := Bad(TooManyFds);
      } else if |buffer| - pos < HEADER + bodyLength {
        head := Short;
      } else if |fds| < fdCount {
        head := Bad(FdMismatch);
      } else {
        head := Whole;
      }
    }

    /** The two words of the header at a position. */
    method ReadHeader(pos: nat) returns (bodyLength: nat, fdCount: nat)
      requires pos + HEADER <= |buffer|
      ensures bodyLength == BodyLength(buffer[pos..]) && fdCount == FdCount(buffer[pos..])
    {
      assert buffer[pos..][..4] == buffer[pos..pos + 4];
      assert buffer[pos..][4..8] == buffer[pos + 4..pos + 8];
      bodyLength, fdCount := GetU32(buffer[pos..pos + 4]), GetU32(buffer[pos + 4..pos + 8]);
    }

    /** The frame at a position, with its descriptors off the FIFO. */
    method CutFrame(pos: nat, bodyLength: nat, fdCount: nat) returns (f: Frame)
      requires pos + HEADER <= |buffer| && bodyLength == BodyLength(buffer[pos..]) && fdCount == FdCount(buffer[pos..])
      requires pos + HEADER + bodyLength <= |buffer| && fdCount <= |fds|
      modifies this`fds
      ensures f == FirstFrame(State(buffer[pos..], old(fds)))
      ensures State(buffer[pos + HEADER + bodyLength..], fds) == AfterFirst(State(buffer[pos..], old(fds)))
    {
      assert buffer[pos..][HEADER..HEADER + bodyLength] == buffer[pos + HEADER..pos + HEADER + bodyLength];
      assert buffer[pos..][HEADER + bodyLength..] == buffer[pos + HEADER + bodyLength..];
      var own := PopFds(fdCount);
      f := Frame(buffer[pos + HEADER..pos + HEADER + bodyLength], own);
    }

    /** Takes reads until one ends the loop. */
    method Drain(input: seq<Read>) returns (status: Status, taken: nat)
      modifies this
      ensures Frames.Drain(limits, old(View()), input) == Drained(View(), status, taken)
    {
      ghost var start := View();
      status, taken := Open, 0;
      while taken < |input|
        invariant taken <= |input| && status == Open
        invariant var d := Frames.Drain(limits, View(), input[taken..]);
          Frames.Drain(limits, start, input) == d.(taken := d.taken + taken)
      {
        var r := input[taken];
        ghost var rest := input[taken..];
        assert rest[0] == r && rest[1..] == input[taken + 1..];
        taken := taken + 1;
        if EndsRead(r) {
          status := EndStatus(r);
          return;
        }
        if r.Data? {
          fds := fds + r.fds;
          if r.truncated {
            status := Error(Io);
            return;
          }
          if |fds| > 2 * limits.fds {
            status := Error(TooManyFds);
            return;
          }
          buffer := buffer + r.bytes;
          if |buffer| > HEADER + limits.bytes {
            status := Error(Oversize);
            return;
          }
        }
      }
    }

    method Pump(input: seq<Read>) returns (frames: seq<Frame>, status: Status, taken: nat)
      modifies this
      ensures Frames.Pump(limits, old(View()), input) == Pumped(frames, status, View(), taken)
    {
      frames := [];
      status, taken := Drain(input);
      if !status.Error? {
        var error;
        frames, error := Extract();
        if error.Some? {
          status := Error(error.value);
        }
      }
    }
  }

  ghost predicate Continues(whole: Cut, done: seq<Frame>, rest: Cut) {
    whole == Cut(done + rest.frames, rest.rest, rest.end)
  }

  lemma {:induction false} OneFrameOn(l: Limits, whole: Cut, done: seq<Frame>, st: State)
    requires HeadOf(l, st) == Whole && Continues(whole, done, Frames.Extract(l, st))
    ensures Continues(whole, done + [FirstFrame(st)], Frames.Extract(l, AfterFirst(st)))
  {
    var more := Frames.Extract(l, AfterFirst(st)).frames;
    assert done + ([FirstFrame(st)] + more) == done + [FirstFrame(st)] + more;
  }
}
