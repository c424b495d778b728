/** The registry, the model, the tracker and the bridge as objects that are updated in place, against the values they
    stand for. */
module PresenceObjects {
  import opened Core
  import opened ReaderLabels
  import opened Presence
  import opened PresenceRuns

  /** Where a reader's id is, if anywhere. */
  method FindReader(readers: seq<Reader>, id: nat) returns (k: Option<nat>)
    ensures k.Some? ==>
      k.value < |readers| && readers[k.value].id == id && forall i :: 0 <= i < k.value ==> readers[i].id != id
    ensures k.None? ==> forall i :: 0 <= i < |readers| ==> readers[i].id != id
  {
    var i := 0;
    while i < |readers|
      invariant 0 <= i <= |readers| && forall j :: 0 <= j < i ==> readers[j].id != id
    {
      if readers[i].id == id {
        return Some(i);
      }
      i := i + 1;
    }
    return None;
  }

  method FindCard(cards: seq<Card>, id: nat) returns (k: Option<nat>)
    ensures k.Some? ==>
      k.value < |cards| && cards[k.value].id == id && forall i :: 0 <= i < k.value ==> cards[i].id != id
    ensures k.None? ==> forall i :: 0 <= i < |cards| ==> cards[i].id != id
  {
    var i := 0;
    while i < |cards|
      invariant 0 <= i <= |cards| && forall j :: 0 <= j < i ==> cards[j].id != id
    {
      if cards[i].id == id {
        return Some(i);
      }
      i := i + 1;
    }
    return None;
  }

  /** The readers among the first n whose label changed, by id. */
  function ChangedIds(before: seq<Reader>, after: seq<Reader>, n: nat): seq<nat>
    requires n <= |before| == |after|
  {
    if n == 0 then []
    else
      ChangedIds(before, after, n - 1)
      + if before[n - 1].tag != after[n - 1].tag then [after[n - 1].id] else []
  }

  /** A note for each id on the list but one, with the reader as it now is. */
  function Announcements(readers: seq<Reader>, ids: seq<nat>, except: nat): seq<Note> {
    if ids == [] then []
    else
      var n := |ids| - 1;
      Announcements(readers, ids[..n], except)
      + if ids[n] != except && HasId(readers, ids[n]) then [Relabelled(WithId(readers, ids[n]))] else []
  }

  predicate HasId(readers: seq<Reader>, id: nat) { exists i :: 0 <= i < |readers| && readers[i].id == id }

  function WithId(readers: seq<Reader>, id: nat): Reader
    requires HasId(readers, id)
  {
    if readers[0].id == id then readers[0] else WithId(readers[1..], id)
  }

  lemma {:induction false} WithIdAt(readers: seq<Reader>, k: nat)
    requires k < |readers| && forall i :: 0 <= i < k ==> readers[i].id != readers[k].id
    ensures HasId(readers, readers[k].id) && WithId(readers, readers[k].id) == readers[k]
  {
    if k > 0 {
      WithIdAt(readers[1..], k - 1);
    }
  }

  lemma {:induction false} AnnouncementsAreRelabels(before: seq<Reader>, after: seq<Reader>, except: nat, n: nat)
    requires n <= |before| == |after| && DistinctIds(after)
    ensures Announcements(after, ChangedIds(before, after, n), except) == Relabels(before, after, except, n)
  {
    if n > 0 {
      AnnouncementsAreRelabels(before, after, except, n - 1);
      var ids, earlier := ChangedIds(before, after, n), ChangedIds(before, after, n - 1);
      if before[n - 1].tag != after[n - 1].tag {
        assert ids[..|ids| - 1] == earlier && ids[|ids| - 1] == after[n - 1].id;
        WithIdAt(after, n - 1);
      } else {
        assert ids == earlier;
      }
    }
  }

  lemma {:induction false} Rejoined(a: seq<Note>, b: seq<Note>, c: seq<Note>)
    ensures a + b + c == a + (b + c)
  {
  }

  class ObjectRegistry {
    const labelling: Labelling
    var readers: seq<Reader>
    var cards: seq<Card>
    var notes: seq<Note>

    ghost function View(): Registry
      reads this
    {
      Registry(readers, cards)
    }

    /** Reader ids are distinct, as adding only unknown ones keeps them. */
    ghost predicate Valid()
      reads this
    {
      DistinctIds(readers)
    }

    constructor (l: Labelling)
      ensures Valid() && labelling == l && View() == Registry([], []) && notes == []
    {
      labelling, readers, cards, notes := l, [], [], [];
    }

    /** Labels every reader over the roster and lists the ids whose label changed. */
    method Relabel() returns (changed: seq<nat>)
      modifies this`readers
      ensures readers == Labelled(labelling, old(readers)) && changed == ChangedIds(old(readers), readers, |readers|)
    {
      var tags := labelling(NamesOf(readers));
      ghost var before, after := readers, Labelled(labelling, readers);
      changed := [];
      var i := 0;
      while i < |readers|
        invariant 0 <= i <= |readers| == |before| && changed == ChangedIds(before, after, i)
        invariant forall k :: 0 <= k < |before| ==> readers[k] == if k < i then after[k] else before[k]
      {
        if readers[i].tag != TagAt(tags, i) {
          changed := changed + [readers[i].id];
          readers := readers[i := readers[i].(tag := TagAt(tags, i))];
        }
        i := i + 1;
      }
      assert readers == after;
    }

    method AnnounceRelabels(ids: seq<nat>, except: nat)
      modifies this`notes
      ensures notes == old(notes) + Announcements(readers, ids, except)
    {
      var i := 0;
      while i < |ids|
        invariant 0 <= i <= |ids| && notes == old(notes) + Announcements(readers, ids[..i], except)
      {
        assert ids[..i + 1][..i] == ids[..i];
        if ids[i] != except {
          var k := FindReader(readers, ids[i]);
          if k.Some? {
            WithIdAt(readers, k.value);
            notes := notes + [Relabelled(readers[k.value])];
          }
        }
        i := i + 1;
      }
      assert ids[..i] == ids;
    }

    method Contains(id: nat) returns (r: bool)
      ensures r == IsKnown(View(), id)
    {
      var k := FindReader(readers, id);
      if k.Some? {
        return true;
      }
      var c := FindCard(cards, id);
      return c.Some?;
    }

    method AddReader(x: Reader)
      requires Valid()
      modifies this
      ensures Valid() && (View(), notes) == Sent(old(notes), Addition(labelling, old(View()), x))
    {
      assert notes + [] == notes;
      var known := Contains(x.id);
      if known {
        return;
      }
      readers := readers + [x.(tag := Label("", Unknown))];
      ghost var before := readers;
      LabellingKeeps(labelling, before);
      var changed := Relabel();
      notes := notes + [ReaderCame(readers[|readers| - 1])];
      TellRelabels(before, changed, x.id);
      Rejoined(old(notes), [ReaderCame(readers[|readers| - 1])], Relabels(before, readers, x.id, |readers|));
    }

    method AddCard(c: Card)
      requires Valid()
      modifies this
      ensures Valid()
      ensures (View(), notes)
        == Sent(old(notes), if IsKnown(old(View()), c.id) then (old(View()), []) else WithNewCard(old(View()), c))
    {
      assert notes + [] == notes;
      var known := Contains(c.id);
      if known {
        return;
      }
      cards := cards + [c];
      notes := notes + [CardCame(c)];
    }

    /** Readers are searched first, then cards. */
    method Remove(id: nat)
      requires Valid()
      modifies this
      ensures Valid() && (View(), notes) == Sent(old(notes), Removal(labelling, old(View()), id))
    {
      var k := FindReader(readers, id);
      if k.Some? {
        EraseReader(k.value);
        return;
      }
      assert old(notes) + [] == old(notes);
      var c := FindCard(cards, id);
      if c.Some? {
        DropAt(cards, CardIs(id), c.value);
        cards := cards[..c.value] + cards[c.value + 1..];
        notes := notes + [Left(id)];
      }
    }

    /** A reader goes, the others are relabelled, and both are told. */
    method EraseReader(k: nat)
      requires Valid() && k < |readers|
      modifies this
      ensures Valid() && (View(), notes) == Sent(old(notes), WithoutReader(labelling, old(View()), old(readers)[k].id))
    {
      var id := readers[k].id;
      DropAt(readers, ReaderIs(id), k);
      readers := readers[..k] + readers[k + 1..];
      ghost var before := readers;
      LabellingKeeps(labelling, before);
      var changed := Relabel();
      notes := notes + [Left(id)];
      TellRelabels(before, changed, id);
      Rejoined(old(notes), [Left(id)], Relabels(before, readers, id, |readers|));
    }

    method TellRelabels(ghost before: seq<Reader>, changed: seq<nat>, except: nat)
      requires |before| == |readers| && DistinctIds(readers) && changed == ChangedIds(before, readers, |readers|)
      modifies this`notes
      ensures notes == old(notes) + Relabels(before, readers, except, |readers|)
    {
      AnnouncementsAreRelabels(before, readers, except, |readers|);
      AnnounceRelabels(changed, except);
    }

    method Update(id: nat, card: Option<nat>)
      requires Valid()
      modifies this
      ensures Valid() && (View(), notes) == Sent(old(notes), Updated(old(View()), id, card))
    {
      var k := FindReader(readers, id);
      assert old(notes) + [] == old(notes);
      if k.None? {
        assert WithCard(readers, id, card) == readers;
        return;
      }
      if readers[k.value].card == card {
        assert WithCard(readers, id, card) == readers;
        return;
      }
      ghost var before := readers;
      readers := readers[k.value := readers[k.value].(card := card)];
      assert readers == WithCard(before, id, card);
      assert readers[k.value] != before[k.value];
      notes := notes + [Changed(id, card)];
    }
  }

  function Sent(notes: seq<Note>, change: (Registry, seq<Note>)): (Registry, seq<Note>) { (change.0, notes + change.1) }

  predicate HasCard(cards: seq<Card>, id: nat) { exists i :: 0 <= i < |cards| && cards[i].id == id }

  predicate IsKnown(g: Registry, id: nat) { HasId(g.readers, id) || HasCard(g.cards, id) }

  function Addition(r: Labelling, g: Registry, x: Reader): (Registry, seq<Note>) {
    if IsKnown(g, x.id) then (g, []) else WithReader(r, g, x)
  }

  function Removal(r: Labelling, g: Registry, id: nat): (Registry, seq<Note>) {
    if HasId(g.readers, id) then WithoutReader(r, g, id)
    else if HasCard(g.cards, id) then WithoutCard(g, id)
    else (g, [])
  }

  // --- the model's use of the registry --------------------------------------------------------------------

  /** Under the model's invariant the registry's general operations are the ones the model means. */
  lemma {:induction false} FreshIdIsUnknown(r: Labelling, m: Model, id: nat)
    requires ModelSound(r, m) && id > m.next
    ensures !IsKnown(m.reg, id)
  {
  }

  lemma {:induction false} CardIdIsNoReader(r: Labelling, m: Model, name: string)
    requires ModelSound(r, m) && name in m.cardIds
    ensures !HasId(m.reg.readers, m.cardIds[name]) && HasCard(m.reg.cards, m.cardIds[name])
  {
    assert Holds(m.reg.cards, name);
  }

  lemma {:induction false} ReaderIdIsKnown(r: Labelling, m: Model, name: string)
    requires ModelSound(r, m) && name in m.readerIds
    ensures HasId(m.reg.readers, m.readerIds[name])
  {
    var k := IndexOfReader(m, name);
    assert m.reg.readers[k].id == m.readerIds[name];
  }

  function SeatNotes(g: Registry, notes: seq<Note>, c: Card): (Registry, seq<Note>) {
    var (g1, sent) := Sent(notes, WithNewCard(g, c));
    Sent(sent, Updated(g1, c.reader, Some(c.id)))
  }

  class PresenceModel {
    const registry: ObjectRegistry
    var readerIds: map<string, nat>
    var cardIds: map<string, nat>
    var nextId: nat

    ghost function View(): Model
      reads this, registry
    {
      Model(readerIds, cardIds, nextId, registry.View(), registry.notes)
    }

    ghost predicate Valid()
      reads this, registry
    {
      ModelSound(registry.labelling, View()) && registry.Valid()
    }

    constructor (reg: ObjectRegistry)
      requires reg.Valid() && reg.View() == Registry([], []) && reg.notes == []
      ensures registry == reg && Valid() && View() == START.model
    {
      registry, readerIds, cardIds, nextId := reg, map[], map[], 0;
      new;
      assert Labelled(registry.labelling, []) == [];
    }

    method OnReaderAdded(name: string)
      requires Valid()
      modifies this, registry
      ensures Valid() && View() == PresenceRuns.OnReaderAdded(registry.labelling, old(View()), name)
    {
      OnReaderAddedKeeps(registry.labelling, View(), name);
      if name in readerIds {
        return;
      }
      FreshIdIsUnknown(registry.labelling, View(), nextId + 1);
      Register(name);
    }

    /** A new reader id is minted and registered. */
    method Register(name: string)
      requires registry.Valid() && !IsKnown(registry.View(), nextId + 1)
      modifies this, registry
      ensures registry.Valid() && View() == ReaderJoins(registry.labelling, old(View()), name)
    {
      nextId := nextId + 1;
      readerIds := readerIds[name := nextId];
      registry.AddReader(Reader(nextId, name, Label("", Unknown), None));
    }

    method OnCardRemoved(name: string)
      requires Valid()
      modifies this, registry
      ensures Valid() && View() == PresenceRuns.OnCardRemoved(old(View()), name)
    {
      OnCardRemovedKeeps(registry.labelling, View(), name);
      if name !in cardIds {
        return;
      }
      CardIdIsNoReader(registry.labelling, View(), name);
      Unseat(name);
    }

    method Unseat(name: string)
      requires registry.Valid() && name in cardIds
      requires !HasId(registry.readers, cardIds[name]) && HasCard(registry.cards, cardIds[name])
      modifies this, registry
      ensures registry.Valid() && View() == CardLeaves(old(View()), name)
    {
      registry.Remove(cardIds[name]);
      cardIds := cardIds - {name};
      if name in readerIds {
        registry.Update(readerIds[name], None);
      }
    }

    method OnReaderRemoved(name: string)
      requires Valid()
      modifies this, registry
      ensures Valid() && View() == PresenceRuns.OnReaderRemoved(registry.labelling, old(View()), name)
    {
      OnReaderRemovedKeeps(registry.labelling, View(), name);
      OnCardRemoved(name);
      if name !in readerIds {
        return;
      }
      ReaderIdIsKnown(registry.labelling, View(), name);
      registry.Remove(readerIds[name]);
      readerIds := readerIds - {name};
    }

    method OnCardInserted(name: string, atr: Bytes)
      requires Valid()
      modifies this, registry
      ensures Valid() && View() == PresenceRuns.OnCardInserted(registry.labelling, old(View()), name, atr)
    {
      OnCardInsertedKeeps(registry.labelling, View(), name, atr);
      OnReaderAddedKeeps(registry.labelling, View(), name);
      if name !in readerIds {
        OnReaderAdded(name);
      }
      OnCardRemovedKeeps(registry.labelling, View(), name);
      if name in cardIds {
        OnCardRemoved(name);
      }
      MintCard(name, atr);
    }

    method CardIdOf(name: string) returns (id: nat)
      ensures id == CardIdFor(View(), name)
    {
      id := if name in cardIds then cardIds[name] else 0;
    }

    method MintCard(name: string, atr: Bytes)
      requires Valid() && name in readerIds && name !in cardIds
      modifies this, registry
      ensures Valid() && View() == CardSits(old(View()), name, atr)
    {
      CardSitsKeeps(registry.labelling, View(), name, atr);
      FreshIdIsUnknown(registry.labelling, View(), nextId + 1);
      Seat(name, atr);
    }

    /** A new card id is minted, registered and put in its reader. */
    method Seat(name: string, atr: Bytes)
      requires registry.Valid() && name in readerIds && !IsKnown(registry.View(), nextId + 1)
      modifies this, registry
      ensures registry.Valid() && View() == CardSits(old(View()), name, atr)
    {
      nextId := nextId + 1;
      cardIds := cardIds[name := nextId];
      RegisterCard(Card(nextId, readerIds[name], atr, name));
    }

    method RegisterCard(c: Card)
      requires registry.Valid() && !IsKnown(registry.View(), c.id)
      modifies registry
      ensures registry.Valid()
      ensures (registry.View(), registry.notes) == SeatNotes(old(registry.View()), old(registry.notes), c)
    {
      registry.AddCard(c);
      registry.Update(c.reader, Some(c.id));
    }
  }

  class CardKeyTracker {
    var keys: map<string, nat>
    var dropped: seq<nat>

    ghost function View(): Tracker
      reads this
    {
      Tracker(keys, dropped)
    }

    constructor ()
      ensures View() == START.tracker
    {
      keys, dropped := map[], [];
    }

    method OnCardInserted(name: string, card: nat)
      modifies this
      ensures View() == Keyed(old(View()), name, card)
    {
      if name in keys {
        var previous := keys[name];
        keys := keys - {name};
        dropped := dropped + [previous];
      }
      keys := keys[name := card];
    }

    method OnCardRemoved(name: string)
      modifies this
      ensures View() == Forgotten(old(View()), name)
    {
      if name !in keys {
        return;
      }
      var gone := keys[name];
      keys := keys - {name};
      dropped := dropped + [gone];
    }
  }

  class MonitorBridge {
    const model: PresenceModel
    const tracker: CardKeyTracker
    ghost var minted: set<nat>

    ghost function View(): World
      reads this, model, model.registry, tracker
    {
      World(model.View(), tracker.View(), minted)
    }

    ghost predicate Valid()
      reads this, model, model.registry, tracker
    {
      WorldSound(model.registry.labelling, View()) && model.Valid()
    }

    constructor (m: PresenceModel, t: CardKeyTracker)
      requires m.Valid() && m.View() == START.model && t.View() == START.tracker
      ensures model == m && tracker == t && Valid() && View() == START
    {
      model, tracker, minted := m, t, {};
    }

    /** The model first, then the tracker, which is told the id the model minted. */
    method Dispatch(e: Event)
      requires Valid()
      modifies this, model, model.registry, tracker
      ensures Valid() && View() == Dispatched(model.registry.labelling, old(View()), e)
    {
      DispatchKeeps(model.registry.labelling, View(), e);
      match e
      case ReaderAdded(name) => model.OnReaderAdded(name);
      case ReaderRemoved(name) => ReaderGoes(name);
      case CardInserted(name, atr) => CardComes(name, atr);
      case CardRemoved(name) => CardGoes(name);
      case MonitorError(_) =>
    }

    method ReaderGoes(name: string)
      requires model.Valid()
      modifies model, model.registry, tracker
      ensures model.Valid() && View() == Dispatched(model.registry.labelling, old(View()), ReaderRemoved(name))
    {
      model.OnReaderRemoved(name);
      tracker.OnCardRemoved(name);
    }

    method CardComes(name: string, atr: Bytes)
      requires model.Valid()
      modifies this, model, model.registry, tracker
      ensures model.Valid() && model.View() == OnCardInserted(model.registry.labelling, old(model.View()), name, atr)
      ensures tracker.View() == Keyed(old(tracker.View()), name, CardIdFor(model.View(), name))
      ensures minted == old(minted) + {CardIdFor(model.View(), name)}
    {
      model.OnCardInserted(name, atr);
      var id := model.CardIdOf(name);
      tracker.OnCardInserted(name, id);
      minted := minted + {id};
    }

    method CardGoes(name: string)
      requires model.Valid()
      modifies model, model.registry, tracker
      ensures model.Valid() && View() == Dispatched(model.registry.labelling, old(View()), CardRemoved(name))
    {
      model.OnCardRemoved(name);
      tracker.OnCardRemoved(name);
    }
  }
}
