/** Every sequence of monitor events, through the presence model, the registry and the card-key tracker. */
module PresenceRuns {
  import opened Core
  import opened ReaderLabels
  import opened Presence

  /** The ids in use by reader name, the last id minted, and the registry; with every note it has sent. */
  datatype Model = Model(
    readerIds: map<string, nat>, cardIds: map<string, nat>, next: nat, reg: Registry, notes: seq<Note>)

  /** The card each reader's caches are keyed by, and the keys reported removed so far. */
  datatype Tracker = Tracker(keys: map<string, nat>, dropped: seq<nat>)

  /** `minted` holds every card id ever given out. */
  datatype World = World(model: Model, tracker: Tracker, minted: set<nat>)

  const START := World(Model(map[], map[], 0, Registry([], []), []), Tracker(map[], []), {})

  datatype Event =
    | ReaderAdded(name: string)
    | ReaderRemoved(name: string)
    | CardInserted(name: string, atr: Bytes)
    | CardRemoved(name: string)
    | MonitorError(name: string)

  // --- the model's steps ------------------------------------------------------------------------------

  function Told(m: Model, change: (Registry, seq<Note>)): Model { m.(reg := change.0, notes := m.notes + change.1) }

  function ReaderJoins(r: Labelling, m: Model, name: string): Model {
    var id := m.next + 1;
    Told(m.(readerIds := m.readerIds[name := id], next := id),
         WithReader(r, m.reg, Reader(id, name, Label("", Unknown), None)))
  }

  function OnReaderAdded(r: Labelling, m: Model, name: string): Model {
    if name in m.readerIds then m else ReaderJoins(r, m, name)
  }

  /** The card goes from the registry, and its reader is told to have none. */
  function CardLeaves(m: Model, name: string): Model
    requires name in m.cardIds
  {
    var m1 := Told(m.(cardIds := m.cardIds - {name}), WithoutCard(m.reg, m.cardIds[name]));
    if name in m.readerIds then Told(m1, Updated(m1.reg, m.readerIds[name], None)) else m1
  }

  function OnCardRemoved(m: Model, name: string): Model { if name in m.cardIds then CardLeaves(m, name) else m }

  function ReaderLeaves(r: Labelling, m: Model, name: string): Model
    requires name in m.readerIds
  {
    Told(m.(readerIds := m.readerIds - {name}), WithoutReader(r, m.reg, m.readerIds[name]))
  }

  function OnReaderRemoved(r: Labelling, m: Model, name: string): Model {
    var m1 := OnCardRemoved(m, name);
    if name in m1.readerIds then ReaderLeaves(r, m1, name) else m1
  }

  /** A new card id is minted and seated in the reader. */
  function CardSits(m: Model, name: string, atr: Bytes): Model
    requires name in m.readerIds
  {
    var id := m.next + 1;
    var m1 := Told(m.(cardIds := m.cardIds[name := id], next := id),
                   WithNewCard(m.reg, Card(id, m.readerIds[name], atr, name)));
    Told(m1, Updated(m1.reg, m.readerIds[name], Some(id)))
  }

  function OnCardInserted(r: Labelling, m: Model, name: string, atr: Bytes): Model {
    var m1 := OnCardRemoved(OnReaderAdded(r, m, name), name);
    if name in m1.readerIds then CardSits(m1, name, atr) else m1
  }

  // --- the tracker's steps --------------------------------------------------------------------------------

  function Forgotten(t: Tracker, name: string): Tracker {
    if name in t.keys then Tracker(t.keys - {name}, t.dropped + [t.keys[name]]) else t
  }

  function Keyed(t: Tracker, name: string, card: nat): Tracker {
    var t1 := Forgotten(t, name);
    t1.(keys := t1.keys[name := card])
  }

  /** cardIdFor: 0 is no card. */
  function CardIdFor(m: Model, name: string): nat { if name in m.cardIds then m.cardIds[name] else 0 }

  // --- dispatch ---------------------------------------------------------------------------------------------

  function Dispatched(r: Labelling, w: World, e: Event): World {
    match e
    case ReaderAdded(name) => w.(model := OnReaderAdded(r, w.model, name))
    case ReaderRemoved(name) => w.(model := OnReaderRemoved(r, w.model, name), tracker := Forgotten(w.tracker, name))
    case CardInserted(name, atr) =>
      var m := OnCardInserted(r, w.model, name, atr);
      World(m, Keyed(w.tracker, name, CardIdFor(m, name)), w.minted + {CardIdFor(m, name)})
    case CardRemoved(name) => w.(model := OnCardRemoved(w.model, name), tracker := Forgotten(w.tracker, name))
    case MonitorError(_) => w
  }

  // --- what every run keeps ------------------------------------------------------------------------------------

  /** Ids are minted once and never shared. */
  ghost predicate IdsSound(readerIds: map<string, nat>, cardIds: map<string, nat>, next: nat) {
    && (forall n <- readerIds :: 0 < readerIds[n] <= next)
    && (forall n <- cardIds :: 0 < cardIds[n] <= next && n in readerIds)
    && (forall n <- readerIds, k <- readerIds :: readerIds[n] == readerIds[k] ==> n == k)
    && (forall n <- cardIds, k <- cardIds :: cardIds[n] == cardIds[k] ==> n == k)
    && (forall n <- readerIds, k <- cardIds :: readerIds[n] != cardIds[k])
  }

  function Seated(cardIds: map<string, nat>, name: string): Option<nat> {
    if name in cardIds then Some(cardIds[name]) else None
  }

  ghost predicate Lists(readers: seq<Reader>, name: string) {
    exists i :: 0 <= i < |readers| && readers[i].name == name
  }

  ghost predicate Holds(cards: seq<Card>, seat: string) { exists i :: 0 <= i < |cards| && cards[i].seat == seat }

  /** The registered readers are the model's, each once, each with the card the model has for it; */
  ghost predicate ReadersMatch(readerIds: map<string, nat>, cardIds: map<string, nat>, readers: seq<Reader>) {
    && (forall i :: 0 <= i < |readers| ==>
          && readers[i].name in readerIds && readerIds[readers[i].name] == readers[i].id
          && readers[i].card == Seated(cardIds, readers[i].name))
    && (forall i, j :: 0 <= i < j < |readers| ==> readers[i].name != readers[j].name)
    && (forall n <- readerIds :: Lists(readers, n))
  }

  /** the registered cards are the model's, each once; */
  ghost predicate CardsMatch(readerIds: map<string, nat>, cardIds: map<string, nat>, cards: seq<Card>) {
    && (forall i :: 0 <= i < |cards| ==>
          && cards[i].seat in cardIds && cardIds[cards[i].seat] == cards[i].id
          && cards[i].seat in readerIds && readerIds[cards[i].seat] == cards[i].reader)
    && (forall i, j :: 0 <= i < j < |cards| ==> cards[i].seat != cards[j].seat)
    && (forall n <- cardIds :: Holds(cards, n))
  }

  /** every label is the roster's; and the notes, replayed, give the registry. */
  ghost predicate Announced(r: Labelling, m: Model) {
    m.reg.readers == Labelled(r, m.reg.readers) && SeenAll(Registry([], []), m.notes) == m.reg
  }

  ghost predicate Matches(readerIds: map<string, nat>, cardIds: map<string, nat>, g: Registry) {
    ReadersMatch(readerIds, cardIds, g.readers) && CardsMatch(readerIds, cardIds, g.cards)
  }

  ghost predicate ModelSound(r: Labelling, m: Model) {
    IdsSound(m.readerIds, m.cardIds, m.next) && Matches(m.readerIds, m.cardIds, m.reg) && Announced(r, m)
  }

  lemma {:induction false} IdsOfReaders(m: Model)
    requires IdsSound(m.readerIds, m.cardIds, m.next) && ReadersMatch(m.readerIds, m.cardIds, m.reg.readers)
    ensures DistinctIds(m.reg.readers) && forall i :: 0 <= i < |m.reg.readers| ==> m.reg.readers[i].id <= m.next
  {
  }

  lemma {:induction false} ToldIsSeen(m: Model, change: (Registry, seq<Note>))
    requires SeenAll(Registry([], []), m.notes) == m.reg && SeenAll(m.reg, change.1) == change.0
    ensures SeenAll(Registry([], []), Told(m, change).notes) == Told(m, change).reg
  {
    SeenInTurn(Registry([], []), m.notes, change.1);
  }

  lemma {:induction false} LabelledIsStable(r: Labelling, readers: seq<Reader>)
    ensures Labelled(r, Labelled(r, readers)) == Labelled(r, readers)
  {
    assert NamesOf(Labelled(r, readers)) == NamesOf(readers);
  }

  lemma {:induction false} RelabellingMatches(
    r: Labelling, readerIds: map<string, nat>, cardIds: map<string, nat>, readers: seq<Reader>)
    requires ReadersMatch(readerIds, cardIds, readers)
    ensures ReadersMatch(readerIds, cardIds, Labelled(r, readers))
  {
    var after := Labelled(r, readers);
    forall n <- readerIds ensures Lists(after, n) {
      assert Lists(readers, n);
      var i :| 0 <= i < |readers| && readers[i].name == n;
      assert after[i].name == n;
    }
  }

  // --- a reader joins ------------------------------------------------------------------------------------------

  lemma {:induction false} ReadersMatchWithNew(
    readerIds: map<string, nat>, cardIds: map<string, nat>, readers: seq<Reader>, x: Reader)
    requires ReadersMatch(readerIds, cardIds, readers) && x.name !in readerIds && x.name !in cardIds && x.card == None
    ensures ReadersMatch(readerIds[x.name := x.id], cardIds, readers + [x])
  {
    var after, n := readers + [x], |readers|;
    assert after[n] == x && forall i :: 0 <= i < n ==> after[i] == readers[i];
    assert Lists(after, x.name);
    forall k <- readerIds ensures Lists(after, k) {
      assert Lists(readers, k);
      var i :| 0 <= i < n && readers[i].name == k;
      assert after[i].name == k;
    }
  }

  function Newcomer(m: Model, name: string): Reader { Reader(m.next + 1, name, Label("", Unknown), None) }

  lemma {:induction false} NewcomerIsSeen(r: Labelling, m: Model, name: string)
    requires IdsSound(m.readerIds, m.cardIds, m.next) && ReadersMatch(m.readerIds, m.cardIds, m.reg.readers)
    ensures var (after, notes) := WithReader(r, m.reg, Newcomer(m, name));
      SeenAll(m.reg, notes) == after && after == m.reg.(readers := Labelled(r, m.reg.readers + [Newcomer(m, name)]))
  {
    var x := Newcomer(m, name);
    IdsOfReaders(m);
    NewReaderIsSeen(r, m.reg, x);
    assert x.(tag := Label("", Unknown)) == x;
  }

  lemma {:induction false} JoinIsAnnounced(r: Labelling, m: Model, name: string)
    requires IdsSound(m.readerIds, m.cardIds, m.next) && ReadersMatch(m.readerIds, m.cardIds, m.reg.readers)
    requires Announced(r, m)
    ensures Announced(r, ReaderJoins(r, m, name))
    ensures ReaderJoins(r, m, name).reg == m.reg.(readers := Labelled(r, m.reg.readers + [Newcomer(m, name)]))
  {
    var change := WithReader(r, m.reg, Newcomer(m, name));
    NewcomerIsSeen(r, m, name);
    ToldIsSeen(m, change);
    LabelledIsStable(r, m.reg.readers + [Newcomer(m, name)]);
    assert ReaderJoins(r, m, name).notes == Told(m, change).notes;
  }

  lemma {:induction false} NewIdIsOwn(m: Model, name: string)
    requires IdsSound(m.readerIds, m.cardIds, m.next) && name !in m.readerIds
    ensures IdsSound(m.readerIds[name := m.next + 1], m.cardIds, m.next + 1)
  {
  }

  lemma {:induction false} ReaderJoinsKeeps(r: Labelling, m: Model, name: string)
    requires ModelSound(r, m) && name !in m.readerIds
    ensures ModelSound(r, ReaderJoins(r, m, name))
  {
    NewIdIsOwn(m, name);
    JoinIsAnnounced(r, m, name);
    JoinMatches(r, m, name);
  }

  lemma {:induction false} JoinMatches(r: Labelling, m: Model, name: string)
    requires IdsSound(m.readerIds, m.cardIds, m.next) && Matches(m.readerIds, m.cardIds, m.reg) && name !in m.readerIds
    ensures Matches(m.readerIds[name := m.next + 1], m.cardIds,
                    m.reg.(readers := Labelled(r, m.reg.readers + [Newcomer(m, name)])))
  {
    var x := Newcomer(m, name);
    ReadersMatchWithNew(m.readerIds, m.cardIds, m.reg.readers, x);
    RelabellingMatches(r, m.readerIds[name := x.id], m.cardIds, m.reg.readers + [x]);
    assert CardsMatch(m.readerIds[name := x.id], m.cardIds, m.reg.cards);
  }

  // --- a reader leaves ------------------------------------------------------------------------------------------

  lemma {:induction false} ReadersMatchWithout(
    readerIds: map<string, nat>, cardIds: map<string, nat>, readers: seq<Reader>, k: nat)
    requires ReadersMatch(readerIds, cardIds, readers) && k < |readers|
    ensures ReadersMatch(readerIds - {readers[k].name}, cardIds, readers[..k] + readers[k + 1..])
  {
    var after, gone := readers[..k] + readers[k + 1..], readers[k].name;
    assert forall i :: 0 <= i < |after| ==> after[i] == readers[if i < k then i else i + 1];
    forall n <- readerIds | n != gone ensures Lists(after, n) {
      assert Lists(readers, n);
      var i :| 0 <= i < |readers| && readers[i].name == n;
      assert after[if i < k then i else i - 1].name == n;
    }
  }

  lemma {:induction false} IndexOfReader(m: Model, name: string) returns (k: nat)
    requires ReadersMatch(m.readerIds, m.cardIds, m.reg.readers) && name in m.readerIds
    ensures k < |m.reg.readers| && m.reg.readers[k].name == name && m.reg.readers[k].id == m.readerIds[name]
  {
    assert Lists(m.reg.readers, name);
    k :| 0 <= k < |m.reg.readers| && m.reg.readers[k].name == name;
  }

  lemma {:induction false} LeavingIsAnnounced(r: Labelling, m: Model, name: string, k: nat)
    requires ModelSound(r, m) && name in m.readerIds && k < |m.reg.readers| && m.reg.readers[k].id == m.readerIds[name]
    ensures Announced(r, ReaderLeaves(r, m, name))
    ensures ReaderLeaves(r, m, name).reg.readers == Labelled(r, m.reg.readers[..k] + m.reg.readers[k + 1..])
  {
    IdsOfReaders(m);
    assert forall i :: 0 <= i < |m.reg.cards| ==> m.reg.cards[i].id != m.reg.readers[k].id;
    LostReaderIsSeen(r, m.reg, k);
    ToldIsSeen(m, WithoutReader(r, m.reg, m.readerIds[name]));
    LabelledIsStable(r, m.reg.readers[..k] + m.reg.readers[k + 1..]);
  }

  lemma {:induction false} ReaderLeavesKeeps(r: Labelling, m: Model, name: string)
    requires ModelSound(r, m) && name in m.readerIds && name !in m.cardIds
    ensures ModelSound(r, ReaderLeaves(r, m, name))
  {
    var k := IndexOfReader(m, name);
    LeavingIsAnnounced(r, m, name, k);
    LeavingMatches(r, m.readerIds, m.cardIds, m.reg, k);
    IdsWithout(m.readerIds, m.cardIds, m.next, name);
  }

  lemma {:induction false} LeavingMatches(
    r: Labelling, readerIds: map<string, nat>, cardIds: map<string, nat>, g: Registry, k: nat)
    requires Matches(readerIds, cardIds, g) && k < |g.readers| && g.readers[k].name !in cardIds
    ensures Matches(readerIds - {g.readers[k].name}, cardIds,
                    g.(readers := Labelled(r, g.readers[..k] + g.readers[k + 1..])))
  {
    ReadersMatchWithout(readerIds, cardIds, g.readers, k);
    RelabellingMatches(r, readerIds - {g.readers[k].name}, cardIds, g.readers[..k] + g.readers[k + 1..]);
    assert CardsMatch(readerIds - {g.readers[k].name}, cardIds, g.cards);
  }

  lemma {:induction false} IdsWithout(readerIds: map<string, nat>, cardIds: map<string, nat>, next: nat, name: string)
    requires IdsSound(readerIds, cardIds, next) && name !in cardIds
    ensures IdsSound(readerIds - {name}, cardIds, next)
  {
  }

  // --- cards come and go ------------------------------------------------------------------------------------------

  lemma {:induction false} UpdateIsSeen(g: Registry, id: nat, card: Option<nat>)
    ensures var (after, notes) := Updated(g, id, card); SeenAll(g, notes) == after
  {
    SeenOne(g, Changed(id, card));
  }

  lemma {:induction false} LostCardIsSeen(g: Registry, id: nat)
    requires forall i :: 0 <= i < |g.readers| ==> g.readers[i].id != id
    ensures var (after, notes) := WithoutCard(g, id); SeenAll(g, notes) == after
  {
    DropNone(g.readers, ReaderIs(id));
    SeenOne(g, Left(id));
  }

  lemma {:induction false} CardUpdateKeepsLabels(r: Labelling, readers: seq<Reader>, id: nat, card: Option<nat>)
    requires readers == Labelled(r, readers)
    ensures WithCard(readers, id, card) == Labelled(r, WithCard(readers, id, card))
  {
    var after := WithCard(readers, id, card);
    assert NamesOf(after) == NamesOf(readers);
    forall i | 0 <= i < |readers| ensures after[i] == Labelled(r, after)[i] {
      assert readers[i] == Labelled(r, readers)[i];
    }
  }

  /** A reader's card and the model's change together. */
  lemma {:induction false} CardUpdateMatches(
    readerIds: map<string, nat>, cardIds: map<string, nat>, after: map<string, nat>,
                                             readers: seq<Reader>, name: string)
    requires ReadersMatch(readerIds, cardIds, readers) && name in readerIds
    requires forall n <- readerIds, k <- readerIds :: readerIds[n] == readerIds[k] ==> n == k
    requires forall n :: n != name ==> Seated(after, n) == Seated(cardIds, n)
    ensures ReadersMatch(readerIds, after, WithCard(readers, readerIds[name], Seated(after, name)))
  {
    var updated := WithCard(readers, readerIds[name], Seated(after, name));
    forall i | 0 <= i < |readers| ensures updated[i].card == Seated(after, updated[i].name) {
      ReaderUpdateMatches(readerIds, cardIds, after, readers[i], name);
    }
    forall n <- readerIds ensures Lists(updated, n) {
      StillLists(readers, updated, n);
    }
  }

  lemma {:induction false} ReaderUpdateMatches(
    readerIds: map<string, nat>, cardIds: map<string, nat>, after: map<string, nat>,
                                               x: Reader, name: string)
    requires name in readerIds && x.name in readerIds && readerIds[x.name] == x.id && x.card == Seated(cardIds, x.name)
    requires readerIds[x.name] == readerIds[name] ==> x.name == name
    requires x.name != name ==> Seated(after, x.name) == Seated(cardIds, x.name)
    ensures (if x.id == readerIds[name] then x.(card := Seated(after, name)) else x).card == Seated(after, x.name)
  {
  }

  lemma {:induction false} StillLists(readers: seq<Reader>, updated: seq<Reader>, n: string)
    requires |updated| == |readers| && Lists(readers, n)
    requires forall i :: 0 <= i < |readers| ==> updated[i].name == readers[i].name
    ensures Lists(updated, n)
  {
    var i :| 0 <= i < |readers| && readers[i].name == n;
    assert updated[i].name == n;
  }

  lemma {:induction false} CardsMatchWithout(
    readerIds: map<string, nat>, cardIds: map<string, nat>, cards: seq<Card>, k: nat)
    requires CardsMatch(readerIds, cardIds, cards) && k < |cards|
    ensures CardsMatch(readerIds, cardIds - {cards[k].seat}, cards[..k] + cards[k + 1..])
  {
    var after, gone := cards[..k] + cards[k + 1..], cards[k].seat;
    assert forall i :: 0 <= i < |after| ==> after[i] == cards[if i < k then i else i + 1];
    forall n <- cardIds | n != gone ensures Holds(after, n) {
      assert Holds(cards, n);
      var i :| 0 <= i < |cards| && cards[i].seat == n;
      assert after[if i < k then i else i - 1].seat == n;
    }
  }

  /** The card seated at a name is taken out of the registry where it stands. */
  lemma {:induction false} SeatIsCut(
    readerIds: map<string, nat>, cardIds: map<string, nat>, cards: seq<Card>, name: string)
    requires CardsMatch(readerIds, cardIds, cards) && name in cardIds
    requires forall n <- cardIds, m <- cardIds :: cardIds[n] == cardIds[m] ==> n == m
    ensures CardsMatch(readerIds, cardIds - {name}, Drop(cards, CardIs(cardIds[name])))
  {
    assert Holds(cards, name);
    var k :| 0 <= k < |cards| && cards[k].seat == name;
    forall i | 0 <= i < k ensures !CardIs(cardIds[name])(cards[i]) {
      assert cards[i].seat != cards[k].seat;
    }
    DropAt(cards, CardIs(cardIds[name]), k);
    CardsMatchWithout(readerIds, cardIds, cards, k);
  }

  lemma {:induction false} CardsMatchWithNew(
    readerIds: map<string, nat>, cardIds: map<string, nat>, cards: seq<Card>, c: Card)
    requires CardsMatch(readerIds, cardIds, cards) && c.seat !in cardIds && c.seat in readerIds
    requires readerIds[c.seat] == c.reader
    ensures CardsMatch(readerIds, cardIds[c.seat := c.id], cards + [c])
  {
    var after, n := cards + [c], |cards|;
    assert after[n] == c && forall i :: 0 <= i < n ==> after[i] == cards[i];
    assert Holds(after, c.seat);
    forall k <- cardIds ensures Holds(after, k) {
      assert Holds(cards, k);
      var i :| 0 <= i < n && cards[i].seat == k;
      assert after[i].seat == k;
    }
  }

  lemma {:induction false} CardLeavesForm(m: Model, name: string)
    requires name in m.cardIds && name in m.readerIds
    ensures var m2 := CardLeaves(m, name);
      && m2.readerIds == m.readerIds && m2.cardIds == m.cardIds - {name} && m2.next == m.next
      && m2.reg == Registry(WithCard(m.reg.readers, m.readerIds[name], None),
                            Drop(m.reg.cards, CardIs(m.cardIds[name])))
  {
  }

  lemma {:induction false} CardLeavesIsSeen(r: Labelling, m: Model, name: string)
    requires ModelSound(r, m) && name in m.cardIds
    ensures Announced(r, CardLeaves(m, name))
  {
    IdsOfReaders(m);
    assert forall i :: 0 <= i < |m.reg.readers| ==> m.reg.readers[i].id != m.cardIds[name];
    var change := WithoutCard(m.reg, m.cardIds[name]);
    LostCardIsSeen(m.reg, m.cardIds[name]);
    var m0 := m.(cardIds := m.cardIds - {name});
    ToldIsSeen(m0, change);
    var m1 := Told(m0, change);
    UpdateIsSeen(m1.reg, m.readerIds[name], None);
    ToldIsSeen(m1, Updated(m1.reg, m.readerIds[name], None));
    CardUpdateKeepsLabels(r, m.reg.readers, m.readerIds[name], None);
  }

  lemma {:induction false} CardLeavesMatches(m: Model, name: string)
    requires IdsSound(m.readerIds, m.cardIds, m.next) && Matches(m.readerIds, m.cardIds, m.reg) && name in m.cardIds
    ensures Matches(m.readerIds, m.cardIds - {name},
                    Registry(WithCard(m.reg.readers, m.readerIds[name], None),
                             Drop(m.reg.cards, CardIs(m.cardIds[name]))))
  {
    SeatIsCut(m.readerIds, m.cardIds, m.reg.cards, name);
    CardUpdateMatches(m.readerIds, m.cardIds, m.cardIds - {name}, m.reg.readers, name);
  }

  lemma {:induction false} CardLeavesKeeps(r: Labelling, m: Model, name: string)
    requires ModelSound(r, m) && name in m.cardIds
    ensures ModelSound(r, CardLeaves(m, name))
  {
    CardLeavesIsSeen(r, m, name);
    CardLeavesMatches(m, name);
    CardLeavesForm(m, name);
  }

  function NewCard(m: Model, name: string, atr: Bytes): Card
    requires name in m.readerIds
  {
    Card(m.next + 1, m.readerIds[name], atr, name)
  }

  lemma {:induction false} CardSitsForm(m: Model, name: string, atr: Bytes)
    requires name in m.readerIds
    ensures IsSeated(m, CardSits(m, name, atr), NewCard(m, name, atr))
  {
  }

  lemma {:induction false} CardSitsIsSeen(m: Model, name: string, atr: Bytes)
    requires SeenAll(Registry([], []), m.notes) == m.reg && name in m.readerIds
    ensures SeenAll(Registry([], []), CardSits(m, name, atr).notes) == CardSits(m, name, atr).reg
  {
    var c := NewCard(m, name, atr);
    SeenOne(m.reg, CardCame(c));
    var m0 := m.(cardIds := m.cardIds[name := c.id], next := c.id);
    ToldIsSeen(m0, WithNewCard(m.reg, c));
    var m1 := Told(m0, WithNewCard(m.reg, c));
    UpdateIsSeen(m1.reg, c.reader, Some(c.id));
    ToldIsSeen(m1, Updated(m1.reg, c.reader, Some(c.id)));
  }

  lemma {:induction false} CardSitsMatches(m: Model, m2: Model, c: Card)
    requires IdsSound(m.readerIds, m.cardIds, m.next) && Matches(m.readerIds, m.cardIds, m.reg) && IsSeated(m, m2, c)
    requires c.seat in m.readerIds && m.readerIds[c.seat] == c.reader && c.seat !in m.cardIds
    ensures Matches(m2.readerIds, m2.cardIds, m2.reg)
  {
    CardsMatchWithNew(m.readerIds, m.cardIds, m.reg.cards, c);
    CardUpdateMatches(m.readerIds, m.cardIds, m2.cardIds, m.reg.readers, c.seat);
  }

  lemma {:induction false} CardSitsIds(m: Model, m2: Model, c: Card)
    requires IdsSound(m.readerIds, m.cardIds, m.next) && IsSeated(m, m2, c) && c.seat in m.readerIds
    requires c.id == m.next + 1
    ensures IdsSound(m2.readerIds, m2.cardIds, m2.next)
  {
  }

  /** The model with one card more. */
  ghost predicate IsSeated(m: Model, m2: Model, c: Card) {
    && m2.readerIds == m.readerIds && m2.cardIds == m.cardIds[c.seat := c.id] && m2.next == c.id
    && m2.reg == Registry(WithCard(m.reg.readers, c.reader, Some(c.id)), m.reg.cards + [c])
  }

  lemma {:induction false} CardSitsIsAnnounced(r: Labelling, m: Model, m2: Model, name: string, atr: Bytes)
    requires Announced(r, m) && name in m.readerIds && m2 == CardSits(m, name, atr)
    ensures Announced(r, m2)
  {
    CardSitsIsSeen(m, name, atr);
    CardSitsLabels(r, m, name, atr);
  }

  lemma {:induction false} CardSitsKeeps(r: Labelling, m: Model, name: string, atr: Bytes)
    requires ModelSound(r, m) && name in m.readerIds && name !in m.cardIds
    ensures ModelSound(r, CardSits(m, name, atr))
  {
    CardSitsForm(m, name, atr);
    CardSitsIds(m, CardSits(m, name, atr), NewCard(m, name, atr));
    CardSitsMatches(m, CardSits(m, name, atr), NewCard(m, name, atr));
    CardSitsIsAnnounced(r, m, CardSits(m, name, atr), name, atr);
  }

  lemma {:induction false} CardSitsLabels(r: Labelling, m: Model, name: string, atr: Bytes)
    requires m.reg.readers == Labelled(r, m.reg.readers) && name in m.readerIds
    ensures var readers := CardSits(m, name, atr).reg.readers; readers == Labelled(r, readers)
  {
    CardSitsForm(m, name, atr);
    CardUpdateKeepsLabels(r, m.reg.readers, m.readerIds[name], Some(m.next + 1));
  }

  // --- events ------------------------------------------------------------------------------------------------------

  lemma {:induction false} OnReaderAddedKeeps(r: Labelling, m: Model, name: string)
    requires ModelSound(r, m)
    ensures var m2 := OnReaderAdded(r, m, name);
      ModelSound(r, m2) && m2.cardIds == m.cardIds && name in m2.readerIds && m.next <= m2.next
  {
    if name !in m.readerIds {
      ReaderJoinsKeeps(r, m, name);
    }
  }

  lemma {:induction false} OnCardRemovedKeeps(r: Labelling, m: Model, name: string)
    requires ModelSound(r, m)
    ensures var m2 := OnCardRemoved(m, name);
      ModelSound(r, m2) && m2.cardIds == m.cardIds - {name} && m2.readerIds == m.readerIds && m2.next == m.next
  {
    if name in m.cardIds {
      CardLeavesKeeps(r, m, name);
      CardLeavesForm(m, name);
    }
  }

  lemma {:induction false} OnReaderRemovedKeeps(r: Labelling, m: Model, name: string)
    requires ModelSound(r, m)
    ensures var m2 := OnReaderRemoved(r, m, name);
      ModelSound(r, m2) && m2.cardIds == m.cardIds - {name} && m2.next == m.next
  {
    OnCardRemovedKeeps(r, m, name);
    var m1 := OnCardRemoved(m, name);
    if name in m1.readerIds {
      ReaderLeavesKeeps(r, m1, name);
    }
  }

  lemma {:induction false} OnCardInsertedKeeps(r: Labelling, m: Model, name: string, atr: Bytes)
    requires ModelSound(r, m)
    ensures var m2 := OnCardInserted(r, m, name, atr);
      && ModelSound(r, m2) && m2.next > m.next && name in m2.cardIds && m2.cardIds[name] == m2.next
      && m2.cardIds == (m.cardIds - {name})[name := m2.next]
  {
    OnReaderAddedKeeps(r, m, name);
    OnCardRemovedKeeps(r, OnReaderAdded(r, m, name), name);
    var m1 := OnCardRemoved(OnReaderAdded(r, m, name), name);
    CardSitsKeeps(r, m1, name, atr);
    CardSitsForm(m1, name, atr);
  }

  /** Every card id ever minted is seated, or was reported removed: once, and not while seated. */
  ghost predicate LedgerSound(keys: map<string, nat>, dropped: seq<nat>, minted: set<nat>, next: nat) {
    && (forall n <- keys :: keys[n] in minted && keys[n] !in dropped)
    && (forall id <- dropped :: id in minted)
    && (forall i, j :: 0 <= i < j < |dropped| ==> dropped[i] != dropped[j])
    && (forall id <- minted :: id <= next && (id in dropped || id in keys.Values))
    && (forall n <- keys, k <- keys :: keys[n] == keys[k] ==> n == k)
  }

  lemma {:induction false} ForgettingKeepsLedger(t: Tracker, name: string, minted: set<nat>, next: nat)
    requires LedgerSound(t.keys, t.dropped, minted, next)
    ensures var t2 := Forgotten(t, name); LedgerSound(t2.keys, t2.dropped, minted, next) && t2.keys == t.keys - {name}
  {
    var t2 := Forgotten(t, name);
    if name in t.keys {
      var gone := t.keys[name];
      assert gone !in t.dropped && t2.dropped[|t.dropped|] == gone;
      assert forall id <- t2.dropped :: id in t.dropped || id == gone;
      assert forall id <- t.dropped :: id in t2.dropped;
      forall id <- minted ensures id in t2.dropped || id in t2.keys.Values {
        if id !in t2.dropped {
          var n :| n in t.keys && t.keys[n] == id;
          assert n in t2.keys && t2.keys[n] == id;
        }
      }
    }
  }

  lemma {:induction false} KeyingKeepsLedger(t: Tracker, name: string, card: nat, minted: set<nat>, next: nat)
    requires LedgerSound(t.keys, t.dropped, minted, next) && next < card
    ensures var t2 := Keyed(t, name, card);
      LedgerSound(t2.keys, t2.dropped, minted + {card}, card) && t2.keys == (t.keys - {name})[name := card]
  {
    ForgettingKeepsLedger(t, name, minted, next);
    var t1, t2 := Forgotten(t, name), Keyed(t, name, card);
    assert t2.keys[name] == card && card in t2.keys.Values;
    forall id <- minted ensures id in t2.dropped || id in t2.keys.Values {
      if id !in t1.dropped {
        var n :| n in t1.keys && t1.keys[n] == id;
        assert n in t2.keys && t2.keys[n] == id;
      }
    }
  }

  lemma {:induction false} LedgerLater(
    keys: map<string, nat>, dropped: seq<nat>, minted: set<nat>, next: nat, later: nat)
    requires LedgerSound(keys, dropped, minted, next) && next <= later
    ensures LedgerSound(keys, dropped, minted, later)
  {
  }

  ghost predicate WorldSound(r: Labelling, w: World) {
    && ModelSound(r, w.model) && w.tracker.keys == w.model.cardIds
    && LedgerSound(w.tracker.keys, w.tracker.dropped, w.minted, w.model.next)
  }

  lemma {:induction false} DispatchKeeps(r: Labelling, w: World, e: Event)
    requires WorldSound(r, w)
    ensures WorldSound(r, Dispatched(r, w, e))
  {
    match e
    case ReaderAdded(name) =>
      OnReaderAddedKeeps(r, w.model, name);
      LedgerLater(w.tracker.keys, w.tracker.dropped, w.minted, w.model.next, OnReaderAdded(r, w.model, name).next);
    case ReaderRemoved(name) =>
      OnReaderRemovedKeeps(r, w.model, name);
      ForgettingKeepsLedger(w.tracker, name, w.minted, w.model.next);
    case CardInserted(name, atr) =>
      OnCardInsertedKeeps(r, w.model, name, atr);
      KeyingKeepsLedger(w.tracker, name, OnCardInserted(r, w.model, name, atr).next, w.minted, w.model.next);
    case CardRemoved(name) =>
      OnCardRemovedKeeps(r, w.model, name);
      ForgettingKeepsLedger(w.tracker, name, w.minted, w.model.next);
    case MonitorError(_) =>
  }

  function After(r: Labelling, events: seq<Event>): World {
    if events == [] then START else Dispatched(r, After(r, events[..|events| - 1]), events[|events| - 1])
  }

  lemma {:induction false} EveryRunIsSound(r: Labelling, events: seq<Event>)
    ensures WorldSound(r, After(r, events))
  {
    if events == [] {
      assert Labelled(r, []) == [];
    } else {
      EveryRunIsSound(r, events[..|events| - 1]);
      DispatchKeeps(r, After(r, events[..|events| - 1]), events[|events| - 1]);
    }
  }

  // --- what that says -------------------------------------------------------------------------------------------

  /** Model, registry and tracker name the same card for every reader. */
  lemma {:induction false} ThreeNamesOneCard(r: Labelling, events: seq<Event>, i: nat)
    requires i < |After(r, events).model.reg.readers|
    ensures var w := After(r, events); var x := w.model.reg.readers[i];
      && x.card == Seated(w.model.cardIds, x.name) && x.card == Seated(w.tracker.keys, x.name)
      && (x.card.Some? <==> Holds(w.model.reg.cards, x.name))
      && (forall k :: 0 <= k < |w.model.reg.cards| && w.model.reg.cards[k].seat == x.name ==>
            x.card == Some(w.model.reg.cards[k].id) && w.model.reg.cards[k].reader == x.id)
  {
    EveryRunIsSound(r, events);
  }

  /** An observer that applies the notes, and nothing else, holds an exact copy of the registry. */
  lemma {:induction false} ObserverHoldsACopy(r: Labelling, events: seq<Event>)
    ensures SeenAll(Registry([], []), After(r, events).model.notes) == After(r, events).model.reg
  {
    EveryRunIsSound(r, events);
  }

  /** Each minted card id is reported removed once, never while it is seated, and always once it is not. */
  lemma {:induction false} EachCardIsReportedOnce(r: Labelling, events: seq<Event>, id: nat)
    ensures var w := After(r, events);
      && (id in w.minted ==> (id in w.tracker.dropped <==> id !in w.tracker.keys.Values))
      && (id in w.tracker.dropped ==> id in w.minted)
      && forall i, j :: 0 <= i < j < |w.tracker.dropped| ==> w.tracker.dropped[i] != w.tracker.dropped[j]
  {
    EveryRunIsSound(r, events);
  }

  function LabelsOf(n: NameReader): Labelling { (names: seq<string>) => Labels(n, names) }

  /** No two registered readers share a label. */
  lemma {:induction false} RegisteredReadersDiffer(n: NameReader, events: seq<Event>, i: nat, j: nat)
    requires i < j < |After(LabelsOf(n), events).model.reg.readers|
    ensures After(LabelsOf(n), events).model.reg.readers[i].tag != After(LabelsOf(n), events).model.reg.readers[j].tag
  {
    EveryRunIsSound(LabelsOf(n), events);
    var readers := After(LabelsOf(n), events).model.reg.readers;
    var names := NamesOf(readers);
    LabelsTellReadersApart(n, names, i, j);
    assert readers[i] == Labelled(LabelsOf(n), readers)[i] && readers[j] == Labelled(LabelsOf(n), readers)[j];
  }
}
