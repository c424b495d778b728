/** Readers and cards as the monitor reports them (MonitorBridge, PresenceModel, ObjectRegistry, CardKeyTracker): three
    structures kept in step, and what an observer hears of them. */
module Presence {
  import opened Core
  import opened ReaderLabels

  datatype Reader = Reader(id: nat, name: string, tag: Label, card: Option<nat>)

  /** `seat` is the reader's name, carried for the statements. */
  datatype Card = Card(id: nat, reader: nat, atr: Bytes, seat: string)

  datatype Registry = Registry(readers: seq<Reader>, cards: seq<Card>)

  /** What the registry tells its observers. */
  datatype Note =
    | ReaderCame(reader: Reader)
    | CardCame(card: Card)
    | Left(id: nat)
    | Changed(id: nat, seated: Option<nat>)
    | Relabelled(reader: Reader)

  // --- sequences by id --------------------------------------------------------------------------------

  /** The first element that is hit is taken out. */
  function Drop<T>(s: seq<T>, hit: T -> bool): seq<T> {
    if s == [] then [] else if hit(s[0]) then s[1..] else [s[0]] + Drop(s[1..], hit)
  }

  lemma {:induction false} DropAt<T>(s: seq<T>, hit: T -> bool, k: nat)
    requires k < |s| && hit(s[k]) && forall i :: 0 <= i < k ==> !hit(s[i])
    ensures Drop(s, hit) == s[..k] + s[k + 1..]
  {
    if k > 0 {
      DropAt(s[1..], hit, k - 1);
      assert s[1..][..k - 1] == s[1..k] && s[1..][k..] == s[k + 1..];
      assert [s[0]] + s[1..k] == s[..k];
    }
  }

  lemma {:induction false} DropNone<T>(s: seq<T>, hit: T -> bool)
    requires forall i :: 0 <= i < |s| ==> !hit(s[i])
    ensures Drop(s, hit) == s
  {
    if s != [] {
      DropNone(s[1..], hit);
    }
  }

  function ReaderIs(id: nat): Reader -> bool { (x: Reader) => x.id == id }

  function CardIs(id: nat): Card -> bool { (x: Card) => x.id == id }

  function WithCard(readers: seq<Reader>, id: nat, card: Option<nat>): seq<Reader> {
    seq(|readers|,
        i requires 0 <= i < |readers| => if readers[i].id == id then readers[i].(card := card) else readers[i])
  }

  function Replaced(readers: seq<Reader>, x: Reader): seq<Reader> {
    seq(|readers|, i requires 0 <= i < |readers| => if readers[i].id == x.id then x else readers[i])
  }

  // --- the registry --------------------------------------------------------------------------------------

  function NamesOf(readers: seq<Reader>): (names: seq<string>)
    ensures |names| == |readers|
  {
    seq(|readers|, i requires 0 <= i < |readers| => readers[i].name)
  }

  /** How a roster is labelled: one label per name. */
  type Labelling = seq<string> -> seq<Label>

  function TagAt(tags: seq<Label>, i: nat): Label { if i < |tags| then tags[i] else Label("", Unknown) }

  /** Every reader labelled over the current roster. */
  function Labelled(r: Labelling, readers: seq<Reader>): (after: seq<Reader>)
    ensures |after| == |readers|
  {
    seq(|readers|, i requires 0 <= i < |readers| => readers[i].(tag := TagAt(r(NamesOf(readers)), i)))
  }

  /** A note for each reader, but one, whose label changed. */
  function Relabels(before: seq<Reader>, after: seq<Reader>, except: nat, n: nat): seq<Note>
    requires n <= |before| == |after|
  {
    if n == 0 then []
    else
      Relabels(before, after, except, n - 1)
      + if before[n - 1].tag != after[n - 1].tag && after[n - 1].id != except then [Relabelled(after[n - 1])] else []
  }

  function WithReader(r: Labelling, g: Registry, x: Reader): (Registry, seq<Note>) {
    var before := g.readers + [x.(tag := Label("", Unknown))];
    var after := Labelled(r, before);
    (g.(readers := after), [ReaderCame(after[|after| - 1])] + Relabels(before, after, x.id, |after|))
  }

  function WithoutReader(r: Labelling, g: Registry, id: nat): (Registry, seq<Note>) {
    var before := Drop(g.readers, ReaderIs(id));
    var after := Labelled(r, before);
    (g.(readers := after), [Left(id)] + Relabels(before, after, id, |after|))
  }

  function WithNewCard(g: Registry, c: Card): (Registry, seq<Note>) { (g.(cards := g.cards + [c]), [CardCame(c)]) }

  function WithoutCard(g: Registry, id: nat): (Registry, seq<Note>) {
    (g.(cards := Drop(g.cards, CardIs(id))), [Left(id)])
  }

  /** A reader's card changes; a delta that changes nothing is not told. */
  function Updated(g: Registry, id: nat, card: Option<nat>): (Registry, seq<Note>) {
    var after := WithCard(g.readers, id, card);
    (g.(readers := after), if after == g.readers then [] else [Changed(id, card)])
  }

  // --- an observer ------------------------------------------------------------------------------------------

  /** An observer's copy, kept by nothing but the notes. */
  function Seen(g: Registry, n: Note): Registry {
    match n
    case ReaderCame(x) => g.(readers := g.readers + [x])
    case CardCame(c) => g.(cards := g.cards + [c])
    case Left(id) => Registry(Drop(g.readers, ReaderIs(id)), Drop(g.cards, CardIs(id)))
    case Changed(id, card) => g.(readers := WithCard(g.readers, id, card))
    case Relabelled(x) => g.(readers := Replaced(g.readers, x))
  }

  function SeenAll(g: Registry, notes: seq<Note>): Registry {
    if notes == [] then g else Seen(SeenAll(g, notes[..|notes| - 1]), notes[|notes| - 1])
  }

  lemma {:induction false} SeenInTurn(g: Registry, a: seq<Note>, b: seq<Note>)
    ensures SeenAll(g, a + b) == SeenAll(SeenAll(g, a), b)
  {
    if b == [] {
      assert a + b == a;
    } else {
      var n := |b| - 1;
      assert (a + b)[..|a + b| - 1] == a + b[..n];
      SeenInTurn(g, a, b[..n]);
    }
  }

  lemma {:induction false} SeenOne(g: Registry, n: Note)
    ensures SeenAll(g, [n]) == Seen(g, n)
  {
    assert [n][..0] == [];
  }

  ghost predicate DistinctIds(readers: seq<Reader>) {
    forall i, j :: 0 <= i < j < |readers| ==> readers[i].id != readers[j].id
  }

  /** Two rosters that differ only in labels. */
  ghost predicate SameButLabels(a: seq<Reader>, b: seq<Reader>) {
    |a| == |b| && forall i :: 0 <= i < |a| ==> a[i].(tag := b[i].tag) == b[i]
  }

  /** A copy up to date in its first n readers. */
  ghost function HalfWay(start: seq<Reader>, after: seq<Reader>, n: nat): seq<Reader>
    requires n <= |after| == |start|
  {
    after[..n] + start[n..]
  }

  /** A relabelling, and a copy with the old labels, the excepted reader's apart. */
  ghost predicate Relabelling(start: seq<Reader>, before: seq<Reader>, after: seq<Reader>, except: nat) {
    && |start| == |before| == |after| && DistinctIds(after) && SameButLabels(before, after)
    && forall i :: 0 <= i < |after| ==> start[i] == if after[i].id == except then after[i] else before[i]
  }

  /** The first n notes have brought the copy up to date that far. */
  ghost predicate SeenSoFar(
    cards: seq<Card>, start: seq<Reader>, before: seq<Reader>, after: seq<Reader>, except: nat, n: nat)
    requires Relabelling(start, before, after, except) && n <= |after|
  {
    SeenAll(Registry(start, cards), Relabels(before, after, except, n)) == Registry(HalfWay(start, after, n), cards)
  }

  /** The relabel notes bring a copy that still has the old labels up to date. */
  lemma {:induction false} RelabelsAreSeen(
    cards: seq<Card>, start: seq<Reader>, before: seq<Reader>, after: seq<Reader>, except: nat, n: nat)
    requires Relabelling(start, before, after, except) && n <= |after|
    ensures SeenSoFar(cards, start, before, after, except, n)
  {
    if n == 0 {
      assert HalfWay(start, after, 0) == start;
    } else {
      RelabelsAreSeen(cards, start, before, after, except, n - 1);
      OneMoreIsSeen(cards, start, before, after, except, n - 1);
    }
  }

  lemma {:induction false} OneMoreIsSeen(
    cards: seq<Card>, start: seq<Reader>, before: seq<Reader>, after: seq<Reader>, except: nat, k: nat)
    requires Relabelling(start, before, after, except) && k < |after|
    requires SeenSoFar(cards, start, before, after, except, k)
    ensures SeenSoFar(cards, start, before, after, except, k + 1)
  {
    var notes := Relabels(before, after, except, k);
    if before[k].tag != after[k].tag && after[k].id != except {
      RelabelIsSeen(Registry(start, cards), notes, HalfWay(start, after, k), cards, after[k]);
      OneMoreReplaced(start, before, after, except, k);
    } else {
      assert Relabels(before, after, except, k + 1) == notes;
      NoneToReplace(start, before, after, except, k);
    }
  }

  lemma {:induction false} RelabelIsSeen(g: Registry, notes: seq<Note>, copy: seq<Reader>, cards: seq<Card>, x: Reader)
    requires SeenAll(g, notes) == Registry(copy, cards)
    ensures SeenAll(g, notes + [Relabelled(x)]) == Registry(Replaced(copy, x), cards)
  {
    SeenInTurn(g, notes, [Relabelled(x)]);
    SeenOne(Registry(copy, cards), Relabelled(x));
  }

  lemma {:induction false} NoneToReplace(
    start: seq<Reader>, before: seq<Reader>, after: seq<Reader>, except: nat, k: nat)
    requires Relabelling(start, before, after, except) && k < |after|
    requires before[k].tag == after[k].tag || after[k].id == except
    ensures HalfWay(start, after, k) == HalfWay(start, after, k + 1)
  {
    assert before[k].(tag := after[k].tag) == after[k];
  }

  lemma {:induction false} OneMoreReplaced(
    start: seq<Reader>, before: seq<Reader>, after: seq<Reader>, except: nat, k: nat)
    requires Relabelling(start, before, after, except) && k < |after|
    ensures Replaced(HalfWay(start, after, k), after[k]) == HalfWay(start, after, k + 1)
  {
    forall i | 0 <= i < |after| ensures start[i].id == after[i].id {
      assert before[i].(tag := after[i].tag) == after[i];
    }
  }

  lemma {:induction false} LabellingKeeps(r: Labelling, readers: seq<Reader>)
    requires DistinctIds(readers)
    ensures SameButLabels(readers, Labelled(r, readers)) && DistinctIds(Labelled(r, readers))
    ensures NamesOf(Labelled(r, readers)) == NamesOf(readers)
  {
  }

  /** An observer that heard of a new reader, and of the relabels it caused, has the registry. */
  lemma {:induction false} NewReaderIsSeen(r: Labelling, g: Registry, x: Reader)
    requires DistinctIds(g.readers) && forall i :: 0 <= i < |g.readers| ==> g.readers[i].id != x.id
    ensures var (after, notes) := WithReader(r, g, x); SeenAll(g, notes) == after
  {
    var before := g.readers + [x.(tag := Label("", Unknown))];
    var after, n := Labelled(r, before), |before|;
    LabellingKeeps(r, before);
    var came, rest := [ReaderCame(after[n - 1])], Relabels(before, after, x.id, n);
    SeenInTurn(g, came, rest);
    SeenOne(g, came[0]);
    var start := g.readers + [after[n - 1]];
    RelabelsAreSeen(g.cards, start, before, after, x.id, n);
    assert HalfWay(start, after, n) == after;
  }

  /** And so for a reader that left. */
  lemma {:induction false} LostReaderIsSeen(r: Labelling, g: Registry, k: nat)
    requires DistinctIds(g.readers) && k < |g.readers|
    requires forall i :: 0 <= i < |g.cards| ==> g.cards[i].id != g.readers[k].id
    ensures var (after, notes) := WithoutReader(r, g, g.readers[k].id); SeenAll(g, notes) == after
    ensures Drop(g.readers, ReaderIs(g.readers[k].id)) == g.readers[..k] + g.readers[k + 1..]
  {
    var id := g.readers[k].id;
    DropAt(g.readers, ReaderIs(id), k);
    DropNone(g.cards, CardIs(id));
    var before := Drop(g.readers, ReaderIs(id));
    LabellingKeeps(r, before);
    var after := Labelled(r, before);
    var rest := Relabels(before, after, id, |after|);
    SeenInTurn(g, [Left(id)], rest);
    SeenOne(g, Left(id));
    RelabelsAreSeen(g.cards, before, before, after, id, |after|);
    assert HalfWay(before, after, |after|) == after;
  }
}
