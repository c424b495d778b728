/** The object behind the C_* calls, each method against the value it stands for. */
module SessionTable {
  import opened Core
  import opened SessionState

  class Table {
    var slots: seq<Slot>
    var readerToSlot: map<string, nat>
    var nextSlotId: nat
    var slotIndex: map<nat, nat>
    var sessions: map<nat, Session>
    var nextSession: nat
    var logins: map<nat, Login>
    var derived: map<nat, DerivedKey>
    var nextDerived: nat

    ghost function View(): State
      reads this
    {
      State(slots, readerToSlot, nextSlotId, slotIndex, sessions, nextSession, logins, derived, nextDerived)
    }

    constructor ()
      ensures View() == FRESH && Sound(View())
    {
      slots, readerToSlot, nextSlotId, slotIndex := [], map[], 0, map[];
      sessions, nextSession, logins, derived, nextDerived := map[], 1, map[], map[], 1;
    }

    method SlotHasSessions(slot: nat) returns (r: bool)
      ensures r == HasSessions(sessions, slot)
    {
      var rest := sessions.Keys;
      while rest != {}
        invariant rest <= sessions.Keys
        invariant forall h :: h in sessions && h !in rest ==> sessions[h].slot != slot
        decreases rest
      {
        var h :| h in rest;
        if sessions[h].slot == slot {
          return true;
        }
        rest := rest - {h};
      }
      return false;
    }

    method EndLogin(slot: nat)
      modifies this`logins, this`derived
      ensures View() == SessionState.EndLogin(old(View()), slot)
    {
      if slot in logins {
        logins := logins[slot := logins[slot].(loggedIn := false)];
      }
      derived := map h | h in derived && derived[h].slot != slot :: derived[h];
      assert logins == SessionState.EndLogin(old(View()), slot).logins;
    }

    method OpenSession(slot: nat, flags: nat) returns (h: nat)
      modifies this
      ensures h == old(nextSession) && View() == SessionState.OpenSession(old(View()), slot, flags)
    {
      h := nextSession;
      nextSession := nextSession + 1;
      sessions := sessions[h := Session(slot, flags, false)];
    }

    method CloseSession(h: nat) returns (known: bool)
      modifies this
      ensures known == (h in old(sessions)) && View() == SessionState.CloseSession(old(View()), h)
    {
      derived := map k | k in derived && derived[k].creator != h :: derived[k];
      if h !in sessions {
        return false;
      }
      var slot := sessions[h].slot;
      sessions := sessions - {h};
      var more := SlotHasSessions(slot);
      if !more {
        EndLogin(slot);
      }
      return true;
    }

    /** The sessions of a slot are erased one by one. */
    method CloseAllSessions(slot: nat)
      modifies this
      ensures View() == SessionState.CloseAllSessions(old(View()), slot)
    {
      EndLogin(slot);
      label ended:
      var rest := sessions.Keys;
      while rest != {}
        invariant rest <= old@ended(sessions).Keys
        invariant sessions == map h | h in old@ended(sessions)
                                      && (h in rest || old@ended(sessions)[h].slot != slot)
                              :: old@ended(sessions)[h]
        invariant View() == old@ended(View()).(sessions := sessions)
        decreases rest
      {
        var h :| h in rest;
        if sessions[h].slot == slot {
          sessions := sessions - {h};
        }
        rest := rest - {h};
      }
    }

    /** The readers of a new model get their numbers, and the index is rebuilt. */
    method NumberSlots()
      modifies this`readerToSlot, this`nextSlotId, this`slotIndex
      ensures NumbersOf(View()) == AllNumbered(old(NumbersOf(View())), slots)
      ensures Known(readerToSlot, slots) && slotIndex == Entered(readerToSlot, slots)
    {
      slotIndex := map[];
      ghost var before := NumbersOf(View());
      var i := 0;
      while i < |slots|
        invariant 0 <= i <= |slots|
        invariant Numbers(readerToSlot, nextSlotId) == AllNumbered(before, slots[..i])
        invariant Known(readerToSlot, slots[..i]) && slotIndex == Entered(readerToSlot, slots[..i])
      {
        var reader := slots[i].readerPath;
        ghost var known := readerToSlot;
        assert slots[..i + 1][..i] == slots[..i];
        if reader !in readerToSlot {
          readerToSlot := readerToSlot[reader := nextSlotId];
          nextSlotId := nextSlotId + 1;
        }
        EnteredAlike(known, readerToSlot, slots[..i]);
        slotIndex := slotIndex[readerToSlot[reader] := i];
        i := i + 1;
      }
      assert slots[..i] == slots;
    }

    /** What each slot showed before a refresh: the serial of the token in it, or nothing. */
    method TokensShown() returns (before: map<nat, string>)
      requires forall id :: id in slotIndex ==> slotIndex[id] < |slots|
      ensures ShownIn(View(), before)
    {
      before := map id | id in slotIndex ::
        if slots[slotIndex[id]].tokenPresent then slots[slotIndex[id]].tokenSerial else "";
    }

    method TokenStayed(id: nat, serial: string) returns (r: bool)
      ensures r == (serial != "" && Shows(View(), id, serial))
    {
      if serial == "" || id !in slotIndex || slotIndex[id] >= |slots| {
        return false;
      }
      var now := slots[slotIndex[id]];
      return now.tokenPresent && now.tokenSerial == serial;
    }

    /** The logins of the slots whose token did not stay end, one slot after the other. */
    method EndLoginsOfTokensLeft(before: map<nat, string>)
      modifies this`logins, this`derived
      ensures View() == EndLogins(old(View()), TokensLeft(old(View()), before, {}))
    {
      ghost var st := View();
      var rest := before.Keys;
      assert TokensLeft(st, before, rest) == {};
      EndingNone(st);
      while rest != {}
        invariant rest <= before.Keys && View() == EndLogins(st, TokensLeft(st, before, rest))
        decreases rest
      {
        var id :| id in rest;
        ghost var ended := TokensLeft(st, before, rest);
        var stayed := TokenStayed(id, before[id]);
        if !stayed {
          EndLoginsAlso(st, ended, id);
          EndLogin(id);
          assert TokensLeft(st, before, rest - {id}) == ended + {id};
        } else {
          assert TokensLeft(st, before, rest - {id}) == ended;
        }
        rest := rest - {id};
      }
    }

    method SetModel(model: seq<Slot>)
      requires Sound(View())
      modifies this
      ensures View() == SessionState.SetModel(old(View()), model) && Sound(View())
    {
      ghost var st := View();
      var before := TokensShown();
      slots := model;
      NumberSlots();
      NumberingExtends(NumbersOf(st), model);
      assert View() == Indexed(st, model);
      TokensLeftAreSlotsLeft(st, View(), before);
      EndLoginsOfTokensLeft(before);
      SetModelKeeps(st, model);
    }

    method SetLoggedIn(slot: nat, now: int)
      modifies this`logins
      ensures View() == SessionState.SetLoggedIn(old(View()), slot, now)
    {
      var generation := if slot in logins then logins[slot].generation else 0;
      logins := logins[slot := Login(true, generation + 1, now)];
    }

    method AddDerivedKey(key: DerivedKey) returns (h: nat)
      modifies this`derived, this`nextDerived
      ensures h == DERIVED_BIT + old(nextDerived) && View() == SessionState.AddDerivedKey(old(View()), key)
    {
      h := DERIVED_BIT + nextDerived;
      nextDerived := nextDerived + 1;
      derived := derived[h := key];
    }
  }

  /** Of the tokens shown before, those that did not stay, leaving out the slots still to be looked at. */
  ghost function TokensLeft(st: State, before: map<nat, string>, rest: set<nat>): set<nat> {
    set id | id in before && id !in rest && !(before[id] != "" && Shows(st, id, before[id]))
  }

  ghost predicate ShownIn(st: State, before: map<nat, string>) {
    && before.Keys == st.slotIndex.Keys
    && (forall id <- st.slotIndex :: st.slotIndex[id] < |st.slots|)
    && forall id <- st.slotIndex ::
         before[id] == if st.slots[st.slotIndex[id]].tokenPresent then st.slots[st.slotIndex[id]].tokenSerial else ""
  }

  lemma {:induction false} TokensLeftAreSlotsLeft(st: State, after: State, before: map<nat, string>)
    requires ShownIn(st, before)
    ensures TokensLeft(after, before, {}) == SlotsLeft(st, after)
  {
  }

  lemma {:induction false} EndingNone(st: State)
    ensures EndLogins(st, {}) == st
  {
    assert EndLogins(st, {}).logins == st.logins;
    assert EndLogins(st, {}).derived == st.derived;
  }

  lemma {:induction false} EndLoginsAlso(st: State, ended: set<nat>, id: nat)
    ensures EndLogin(EndLogins(st, ended), id) == EndLogins(st, ended + {id})
  {
    assert EndLogin(EndLogins(st, ended), id).logins == EndLogins(st, ended + {id}).logins;
    assert EndLogin(EndLogins(st, ended), id).derived == EndLogins(st, ended + {id}).derived;
  }
}
