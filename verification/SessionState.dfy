/** The PKCS#11 module's bookkeeping (SessionState.cpp): slot numbering, sessions, logins, object handles and derived
    keys. Operation cursors are not part of it. */
module SessionState {
  import opened Core

  datatype CardObject = CardObject(certId: string)

  datatype Slot = Slot(readerPath: string, tokenPresent: bool, tokenSerial: string, objects: seq<CardObject>)

  datatype Session = Session(slot: nat, flags: nat, rpcInFlight: bool)

  datatype Login = Login(loggedIn: bool, generation: nat, checkedAt: int)

  /** `serial` is carried for statements only: the token the key was derived with. */
  datatype DerivedKey = DerivedKey(slot: nat, creator: nat, serial: string)

  datatype State = State(
    slots: seq<Slot>,
    readerToSlot: map<string, nat>,
    nextSlotId: nat,
    slotIndex: map<nat, nat>,
    sessions: map<nat, Session>,
    nextSession: nat,
    logins: map<nat, Login>,
    derived: map<nat, DerivedKey>,
    nextDerived: nat)

  const FRESH := State([], map[], 0, map[], map[], 1, map[], map[], 1)

  const WORD := 0x1_0000_0000
  const DERIVED_BIT := 0x8000_0000_0000_0000
  const LOGIN_CHECK_INTERVAL := 1

  // --- questions ---------------------------------------------------------------------

  function SlotById(st: State, id: nat): Option<Slot> {
    if id in st.slotIndex && st.slotIndex[id] < |st.slots| then Some(st.slots[st.slotIndex[id]]) else None
  }

  predicate Shows(st: State, id: nat, serial: string) {
    var s := SlotById(st, id);
    s.Some? && s.value.tokenPresent && s.value.tokenSerial == serial
  }

  ghost predicate HasSessions(sessions: map<nat, Session>, slot: nat) {
    exists h :: h in sessions && sessions[h].slot == slot
  }

  predicate IsLoggedIn(st: State, slot: nat) { slot in st.logins && st.logins[slot].loggedIn }

  function Generation(st: State, slot: nat): nat { if slot in st.logins then st.logins[slot].generation else 0 }

  predicate CheckDue(st: State, slot: nat, now: int) {
    IsLoggedIn(st, slot) && now - st.logins[slot].checkedAt >= LOGIN_CHECK_INTERVAL
  }

  // --- slots: numbers that stay with their reader ------------------------------------------------

  /** The number each reader was given, for good, and the next one to give. */
  datatype Numbers = Numbers(of: map<string, nat>, next: nat)

  function NumbersOf(st: State): Numbers { Numbers(st.readerToSlot, st.nextSlotId) }

  /** A reader keeps its number, or gets the next one. */
  function Numbered(ns: Numbers, reader: string): Numbers {
    if reader in ns.of then ns else Numbers(ns.of[reader := ns.next], ns.next + 1)
  }

  function AllNumbered(ns: Numbers, slots: seq<Slot>): Numbers {
    if slots == [] then ns else Numbered(AllNumbered(ns, slots[..|slots| - 1]), slots[|slots| - 1].readerPath)
  }

  predicate Known(of: map<string, nat>, slots: seq<Slot>) { forall i :: 0 <= i < |slots| ==> slots[i].readerPath in of }

  /** Slot number to position in the model; of two slots with one reader the later one stands. */
  function Entered(of: map<string, nat>, slots: seq<Slot>): map<nat, nat>
    requires Known(of, slots)
  {
    if slots == [] then map[]
    else
      var n := |slots| - 1;
      Entered(of, slots[..n])[of[slots[n].readerPath] := n]
  }

  ghost function Indexed(st: State, slots: seq<Slot>): State
    requires Known(AllNumbered(NumbersOf(st), slots).of, slots)
  {
    var ns := AllNumbered(NumbersOf(st), slots);
    st.(slots := slots, readerToSlot := ns.of, nextSlotId := ns.next, slotIndex := Entered(ns.of, slots))
  }

  ghost predicate Extends(a: map<string, nat>, b: map<string, nat>) { forall r <- a :: r in b && b[r] == a[r] }

  lemma {:induction false} NumberingExtends(ns: Numbers, slots: seq<Slot>)
    ensures Extends(ns.of, AllNumbered(ns, slots).of) && Known(AllNumbered(ns, slots).of, slots)
  {
    if slots != [] {
      NumberingExtends(ns, slots[..|slots| - 1]);
    }
  }

  lemma {:induction false} EnteredAlike(a: map<string, nat>, b: map<string, nat>, slots: seq<Slot>)
    requires Known(a, slots) && Extends(a, b)
    ensures Known(b, slots) && Entered(a, slots) == Entered(b, slots)
  {
    if slots != [] {
      EnteredAlike(a, b, slots[..|slots| - 1]);
    }
  }

  /** The slots whose token did not stay: gone, changed, or without a serial to tell it by. */
  ghost predicate Left(before: State, after: State, id: nat) {
    var was := SlotById(before, id);
    was.Some? && (!was.value.tokenPresent || was.value.tokenSerial == "" || !Shows(after, id, was.value.tokenSerial))
  }

  ghost function SlotsLeft(before: State, after: State): set<nat> {
    set id | id in before.slotIndex && Left(before, after, id)
  }

  /** Logins end, and the tokens' private session objects go with them. */
  ghost function EndLogins(st: State, ids: set<nat>): State {
    st.(logins := map id | id in st.logins :: if id in ids then st.logins[id].(loggedIn := false) else st.logins[id],
        derived := map h | h in st.derived && st.derived[h].slot !in ids :: st.derived[h])
  }

  ghost function EndLogin(st: State, slot: nat): State { EndLogins(st, {slot}) }

  ghost function SetModel(st: State, slots: seq<Slot>): State {
    NumberingExtends(NumbersOf(st), slots);
    var after := Indexed(st, slots);
    EndLogins(after, SlotsLeft(st, after))
  }

  // --- sessions, logins, keys -------------------------------------------------------------------------

  function OpenSession(st: State, slot: nat, flags: nat): State {
    st.(sessions := st.sessions[st.nextSession := Session(slot, flags, false)], nextSession := st.nextSession + 1)
  }

  ghost function WithoutKeysOf(st: State, creator: nat): State {
    st.(derived := map h | h in st.derived && st.derived[h].creator != creator :: st.derived[h])
  }

  ghost function CloseSession(st: State, h: nat): State {
    var kept := WithoutKeysOf(st, h);
    if h !in st.sessions then kept
    else
      var closed := kept.(sessions := st.sessions - {h});
      var slot := st.sessions[h].slot;
      if HasSessions(closed.sessions, slot) then closed else EndLogin(closed, slot)
  }

  ghost function CloseAllSessions(st: State, slot: nat): State {
    EndLogin(st, slot).(sessions := map h | h in st.sessions && st.sessions[h].slot != slot :: st.sessions[h])
  }

  function SetLoggedIn(st: State, slot: nat, now: int): State {
    st.(logins := st.logins[slot := Login(true, Generation(st, slot) + 1, now)])
  }

  function MarkChecked(st: State, slot: nat, now: int): State {
    if slot in st.logins then st.(logins := st.logins[slot := st.logins[slot].(checkedAt := now)]) else st
  }

  function AddDerivedKey(st: State, key: DerivedKey): State {
    st.(derived := st.derived[DERIVED_BIT + st.nextDerived := key], nextDerived := st.nextDerived + 1)
  }

  function SetFlag(st: State, h: nat, flag: bool): State {
    if h in st.sessions then st.(sessions := st.sessions[h := st.sessions[h].(rpcInFlight := flag)]) else st
  }

  predicate SeesKey(st: State, session: nat, h: nat) {
    session in st.sessions && h in st.derived
    && st.derived[h].slot == st.sessions[session].slot && IsLoggedIn(st, st.sessions[session].slot)
  }

  // --- object handles -----------------------------------------------------------------------------------

  /** A 64-bit handle: the slot in the high word, the index plus one in the low word. */
  function EncodeHandle(slot: nat, index: nat): nat { slot % WORD * WORD + (index + 1) % WORD }

  function ResolveObject(st: State, slot: nat, h: nat): Option<CardObject> {
    if h / WORD != slot || h % WORD == 0 then None
    else
      var s := SlotById(st, slot);
      if s.None? || h % WORD - 1 >= |s.value.objects| then None else Some(s.value.objects[h % WORD - 1])
  }

  predicate IsDerivedHandle(h: nat) { h >= DERIVED_BIT }

  /** A handle names its slot and index, and is no derived key's handle, exactly while the slot number stays in 31 bits
      and the index plus one in 32. */
  lemma {:induction false} HandlesName(slot: nat, index: nat)
    ensures var h := EncodeHandle(slot, index);
      h / WORD == slot && h % WORD == index + 1 && !IsDerivedHandle(h) <==> slot < WORD / 2 && index + 1 < WORD
  {
    var h := EncodeHandle(slot, index);
    assert h / WORD == slot % WORD && h % WORD == (index + 1) % WORD;
    if slot < WORD {
      assert IsDerivedHandle(h) <==> slot >= WORD / 2;
    }
  }

  lemma {:induction false} HandlesResolve(st: State, slot: nat, index: nat)
    requires SlotById(st, slot).Some? && index < |SlotById(st, slot).value.objects|
    requires slot < WORD / 2 && index + 1 < WORD
    ensures ResolveObject(st, slot, EncodeHandle(slot, index)) == Some(SlotById(st, slot).value.objects[index])
    ensures forall other :: other != slot ==> ResolveObject(st, other, EncodeHandle(slot, index)) == None
  {
    HandlesName(slot, index);
  }

  // --- what every operation keeps ---------------------------------------------------------------------------

  /** Slot numbers are handed out once each, */
  ghost predicate NumbersAreOwn(ns: Numbers) {
    && (forall r <- ns.of :: ns.of[r] < ns.next)
    && (forall r <- ns.of, q <- ns.of :: ns.of[r] == ns.of[q] ==> r == q)
  }

  /** and an indexed slot is one that shows the reader the number was given to. */
  ghost predicate IndexIsFaithful(of: map<string, nat>, slots: seq<Slot>, index: map<nat, nat>) {
    forall id <- index ::
      index[id] < |slots| && slots[index[id]].readerPath in of && of[slots[index[id]].readerPath] == id
  }

  ghost predicate HandlesAreDrawn(st: State) {
    && (forall h <- st.sessions :: h < st.nextSession)
    && (forall h <- st.derived :: DERIVED_BIT < h < DERIVED_BIT + st.nextDerived)
    && st.nextDerived > 0
  }

  /** A logged-in slot has an open session. */
  ghost predicate LoginsHaveSessions(st: State) { forall id :: IsLoggedIn(st, id) ==> HasSessions(st.sessions, id) }

  /** A derived key's creator is open on the key's slot, the slot is logged in, and it shows the key's own token. */
  ghost predicate KeyIsSound(st: State, key: DerivedKey) {
    && key.creator in st.sessions && st.sessions[key.creator].slot == key.slot
    && IsLoggedIn(st, key.slot) && Shows(st, key.slot, key.serial)
  }

  ghost predicate KeysAreSound(st: State) { forall h <- st.derived :: KeyIsSound(st, st.derived[h]) }

  ghost predicate SlotsSound(st: State) {
    NumbersAreOwn(NumbersOf(st)) && IndexIsFaithful(st.readerToSlot, st.slots, st.slotIndex)
  }

  ghost predicate UsersSound(st: State) { HandlesAreDrawn(st) && LoginsHaveSessions(st) && KeysAreSound(st) }

  ghost predicate Sound(st: State) { SlotsSound(st) && UsersSound(st) }

  lemma {:induction false} SameSlots(a: State, b: State)
    requires SlotsSound(a) && b.slots == a.slots && b.slotIndex == a.slotIndex && NumbersOf(b) == NumbersOf(a)
    ensures SlotsSound(b)
  {
  }

  lemma {:induction false} EndLoginsKeeps(st: State, ids: set<nat>)
    requires HandlesAreDrawn(st)
    requires forall id :: IsLoggedIn(st, id) && id !in ids ==> HasSessions(st.sessions, id)
    requires forall h <- st.derived :: st.derived[h].slot !in ids ==> KeyIsSound(st, st.derived[h])
    ensures UsersSound(EndLogins(st, ids))
  {
    var r := EndLogins(st, ids);
    assert forall id :: IsLoggedIn(r, id) <==> IsLoggedIn(st, id) && id !in ids;
  }

  lemma {:induction false} OpenSessionKeeps(st: State, slot: nat, flags: nat)
    requires Sound(st)
    ensures Sound(OpenSession(st, slot, flags)) && HasSessions(OpenSession(st, slot, flags).sessions, slot)
  {
    var r := OpenSession(st, slot, flags);
    assert r.sessions[st.nextSession].slot == slot;
    forall id | HasSessions(st.sessions, id) ensures HasSessions(r.sessions, id) {
      var h :| h in st.sessions && st.sessions[h].slot == id;
      assert h in r.sessions && r.sessions[h].slot == id;
    }
  }

  lemma {:induction false} ClosingKeepsOthers(st: State, h: nat, id: nat)
    requires h in st.sessions && HasSessions(st.sessions, id)
    ensures id == st.sessions[h].slot || HasSessions(st.sessions - {h}, id)
  {
    var g :| g in st.sessions && st.sessions[g].slot == id;
    assert g != h ==> g in st.sessions - {h} && (st.sessions - {h})[g].slot == id;
  }

  lemma {:induction false} ClosedIsSound(st: State, h: nat)
    requires Sound(st) && h in st.sessions
    ensures var closed := WithoutKeysOf(st, h).(sessions := st.sessions - {h});
      && HandlesAreDrawn(closed) && KeysAreSound(closed)
      && forall id :: IsLoggedIn(closed, id) && !HasSessions(closed.sessions, id) ==> id == st.sessions[h].slot
  {
    var closed := WithoutKeysOf(st, h).(sessions := st.sessions - {h});
    forall id | IsLoggedIn(closed, id) && !HasSessions(closed.sessions, id) ensures id == st.sessions[h].slot {
      assert IsLoggedIn(st, id);
      ClosingKeepsOthers(st, h, id);
    }
  }

  /** Closing a session takes its keys, and its slot's login if it was the last. */
  lemma {:induction false} CloseSessionKeeps(st: State, h: nat)
    requires Sound(st)
    ensures Sound(CloseSession(st, h))
  {
    SameSlots(st, CloseSession(st, h));
    if h in st.sessions {
      ClosingKeepsUsers(st, h);
    } else {
      assert forall id :: IsLoggedIn(WithoutKeysOf(st, h), id) ==> IsLoggedIn(st, id);
    }
  }

  lemma {:induction false} ClosingKeepsUsers(st: State, h: nat)
    requires Sound(st) && h in st.sessions
    ensures UsersSound(CloseSession(st, h))
  {
    var slot, closed := st.sessions[h].slot, WithoutKeysOf(st, h).(sessions := st.sessions - {h});
    ClosedIsSound(st, h);
    if !HasSessions(closed.sessions, slot) {
      EndLoginsKeeps(closed, {slot});
    }
  }

  lemma {:induction false} CloseAllSessionsKeeps(st: State, slot: nat)
    requires Sound(st)
    ensures Sound(CloseAllSessions(st, slot)) && !HasSessions(CloseAllSessions(st, slot).sessions, slot)
  {
    var closed := CloseAllSessions(st, slot);
    SameSlots(st, closed);
    forall id | IsLoggedIn(closed, id) ensures HasSessions(closed.sessions, id) {
      assert IsLoggedIn(st, id) && id != slot;
      var h :| h in st.sessions && st.sessions[h].slot == id;
      assert h in closed.sessions;
    }
  }

  lemma {:induction false} SetLoggedInKeeps(st: State, slot: nat, now: int)
    requires Sound(st) && HasSessions(st.sessions, slot)
    ensures Sound(SetLoggedIn(st, slot, now))
  {
    var r := SetLoggedIn(st, slot, now);
    assert forall id :: IsLoggedIn(r, id) ==> IsLoggedIn(st, id) || id == slot;
  }

  lemma {:induction false} MarkCheckedKeeps(st: State, slot: nat, now: int)
    requires Sound(st)
    ensures Sound(MarkChecked(st, slot, now))
  {
    var r := MarkChecked(st, slot, now);
    assert forall id :: IsLoggedIn(r, id) <==> IsLoggedIn(st, id);
  }

  lemma {:induction false} SetFlagKeeps(st: State, h: nat, flag: bool)
    requires Sound(st)
    ensures Sound(SetFlag(st, h, flag))
  {
    var r := SetFlag(st, h, flag);
    SameSlots(st, r);
    forall id | IsLoggedIn(r, id) ensures HasSessions(r.sessions, id) {
      assert IsLoggedIn(st, id);
      FlaggedHasSessions(st, h, flag, id);
    }
    forall k <- r.derived ensures KeyIsSound(r, r.derived[k]) {
      assert KeyIsSound(st, st.derived[k]);
    }
  }

  lemma {:induction false} FlaggedHasSessions(st: State, h: nat, flag: bool, id: nat)
    requires HasSessions(st.sessions, id)
    ensures HasSessions(SetFlag(st, h, flag).sessions, id)
  {
    var g :| g in st.sessions && st.sessions[g].slot == id;
    assert SetFlag(st, h, flag).sessions[g].slot == id;
  }

  lemma {:induction false} AddDerivedKeyKeeps(st: State, key: DerivedKey)
    requires Sound(st) && KeyIsSound(st, key)
    ensures Sound(AddDerivedKey(st, key)) && DERIVED_BIT + st.nextDerived !in st.derived
  {
    var r := AddDerivedKey(st, key);
    assert forall id :: IsLoggedIn(r, id) <==> IsLoggedIn(st, id);
  }

  // --- a new model -------------------------------------------------------------------------------------------

  lemma {:induction false} NumberingKeeps(ns: Numbers, slots: seq<Slot>)
    requires NumbersAreOwn(ns)
    ensures NumbersAreOwn(AllNumbered(ns, slots))
  {
    if slots != [] {
      NumberingKeeps(ns, slots[..|slots| - 1]);
    }
  }

  ghost predicate IsLast(slots: seq<Slot>, i: nat) {
    i < |slots| && forall j :: i < j < |slots| ==> slots[j].readerPath != slots[i].readerPath
  }

  lemma {:induction false} EnteredIsFaithful(of: map<string, nat>, slots: seq<Slot>)
    requires Known(of, slots)
    ensures IndexIsFaithful(of, slots, Entered(of, slots))
  {
    if slots != [] {
      EnteredIsFaithful(of, slots[..|slots| - 1]);
    }
  }

  lemma {:induction false} EnteredFinds(of: map<string, nat>, slots: seq<Slot>, i: nat)
    requires Known(of, slots) && IsLast(slots, i)
    requires forall r <- of, q <- of :: of[r] == of[q] ==> r == q
    ensures var id := of[slots[i].readerPath]; id in Entered(of, slots) && Entered(of, slots)[id] == i
  {
    if i < |slots| - 1 {
      var rest := slots[..|slots| - 1];
      assert rest[i] == slots[i];
      EnteredFinds(of, rest, i);
    }
  }

  /** A new model keeps the numbering, and no key outlives its token. */
  lemma {:induction false} SetModelKeeps(st: State, slots: seq<Slot>)
    requires Sound(st)
    ensures Sound(SetModel(st, slots)) && Extends(st.readerToSlot, SetModel(st, slots).readerToSlot)
  {
    var ns := NumbersOf(st);
    NumberingExtends(ns, slots);
    NumberingKeeps(ns, slots);
    EnteredIsFaithful(AllNumbered(ns, slots).of, slots);
    var after := Indexed(st, slots);
    forall h <- after.derived | after.derived[h].slot !in SlotsLeft(st, after)
      ensures KeyIsSound(after, after.derived[h])
    {
      assert KeyIsSound(st, st.derived[h]);
    }
    assert forall id :: IsLoggedIn(after, id) <==> IsLoggedIn(st, id);
    EndLoginsKeeps(after, SlotsLeft(st, after));
  }

  /** A login survives a refresh unless the slot showed a token that is gone, changed or nameless. */
  lemma {:induction false} LoginSurvivesWithItsToken(st: State, slots: seq<Slot>, id: nat)
    requires Sound(st)
    ensures IsLoggedIn(SetModel(st, slots), id) <==>
      && IsLoggedIn(st, id)
      && (SlotById(st, id).Some? ==>
            && SlotById(st, id).value.tokenPresent && SlotById(st, id).value.tokenSerial != ""
            && Shows(SetModel(st, slots), id, SlotById(st, id).value.tokenSerial))
  {
    NumberingExtends(NumbersOf(st), slots);
    var after := Indexed(st, slots);
    assert forall i, serial :: Shows(SetModel(st, slots), i, serial) <==> Shows(after, i, serial);
  }

  /** A slot id a caller holds keeps meaning the same reader: it is found exactly while the model lists that reader, and
      is then that reader's last entry. */
  lemma {:induction false} SlotIdsStayWithTheirReader(st: State, slots: seq<Slot>, reader: string)
    requires Sound(st) && reader in st.readerToSlot
    ensures var found := SlotById(SetModel(st, slots), st.readerToSlot[reader]);
      && (found.Some? <==> exists i :: 0 <= i < |slots| && slots[i].readerPath == reader)
      && (forall i: nat :: IsLast(slots, i) && slots[i].readerPath == reader ==> found == Some(slots[i]))
  {
    var ns := NumbersOf(st);
    NumberingExtends(ns, slots);
    NumberingKeeps(ns, slots);
    EnteredIsFaithful(AllNumbered(ns, slots).of, slots);
    if i :| 0 <= i < |slots| && slots[i].readerPath == reader {
      var last := LastEntry(slots, i);
      EnteredFinds(AllNumbered(ns, slots).of, slots, last);
    }
    forall i: nat | IsLast(slots, i) && slots[i].readerPath == reader
      ensures SlotById(SetModel(st, slots), st.readerToSlot[reader]) == Some(slots[i])
    {
      EnteredFinds(AllNumbered(ns, slots).of, slots, i);
    }
  }

  lemma {:induction false} LastEntry(slots: seq<Slot>, i: nat) returns (last: nat)
    requires i < |slots|
    ensures IsLast(slots, last) && slots[last].readerPath == slots[i].readerPath
    decreases |slots| - i
  {
    if j :| i < j < |slots| && slots[j].readerPath == slots[i].readerPath {
      last := LastEntry(slots, j);
    } else {
      last := i;
    }
  }
}
