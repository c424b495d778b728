/** The per-caller prompt throttle (RateLimiter.cpp): a sliding window, an exponential backoff, and a sweep of idle
    callers. */
module RateLimit {
  import opened Core

  /** kMaxPerWindow, kWindow, kBaseBackoff, kMaxBackoff, kSweepThreshold. */
  datatype Policy = Policy(max: nat, window: nat, base: nat, cap: nat, threshold: nat)

  type Caller = string

  /** Times count from the clock's epoch, which also stands for no backoff. */
  datatype Entry = Entry(recent: seq<nat>, level: nat, until: nat)

  type Table = map<Caller, Entry>

  const NEW := Entry([], 0, 0)

  // --- one attempt --------------------------------------------------------------------------------

  /** Attempts that aged out of the window leave from the front. */
  function InWindow(p: Policy, recent: seq<nat>, now: nat): seq<nat> {
    if recent != [] && now - recent[0] > p.window then InWindow(p, recent[1..], now) else recent
  }

  function Min(a: nat, b: nat): nat { if a < b then a else b }

  function Backoff(p: Policy, level: nat): nat { if level <= 1 then p.base else Min(Backoff(p, level - 1) * 2, p.cap) }

  function Judged(p: Policy, e: Entry, now: nat): (Entry, bool) {
    if e.until > now then (e, false)
    else
      var recent := InWindow(p, e.recent, now);
      if |recent| >= p.max then
        var level := Min(e.level + 1, 5);
        (Entry(recent, level, now + Backoff(p, level)), false)
      else (Entry(recent + [now], 0, 0), true)
  }

  // --- the table --------------------------------------------------------------------------------------

  function Of(t: Table, who: Caller): Entry { if who in t then t[who] else NEW }

  predicate IsIdle(p: Policy, e: Entry, now: nat) {
    (e.recent == [] || now - e.recent[|e.recent| - 1] > p.window) && e.until <= now
  }

  /** Over the threshold, every idle caller but the one asking is dropped. */
  function Swept(p: Policy, t: Table, who: Caller, now: nat): Table {
    if |t| > p.threshold then map c | c in t && !(c != who && IsIdle(p, t[c], now)) :: t[c] else t
  }

  datatype Attempt = Attempt(who: Caller, now: nat)

  function Allowed(p: Policy, t: Table, a: Attempt): (Table, bool) {
    var (e, ok) := Judged(p, Of(t, a.who), a.now);
    (t[a.who := e], ok)
  }

  /** The table after some attempts, with or without the sweep. */
  function TableAfter(p: Policy, attempts: seq<Attempt>, sweeps: bool): Table
    decreases attempts, 1
  {
    if attempts == [] then map[]
    else
      var n := |attempts| - 1;
      Allowed(p, BeforeLast(p, attempts, sweeps), attempts[n]).0
  }

  function BeforeLast(p: Policy, attempts: seq<Attempt>, sweeps: bool): Table
    requires attempts != []
    decreases attempts, 0
  {
    var n := |attempts| - 1;
    var t := TableAfter(p, attempts[..n], sweeps);
    if sweeps then Swept(p, t, attempts[n].who, attempts[n].now) else t
  }

  /** The answer to the last attempt. */
  predicate Granted(p: Policy, attempts: seq<Attempt>, sweeps: bool)
    requires attempts != []
  {
    Allowed(p, BeforeLast(p, attempts, sweeps), attempts[|attempts| - 1]).1
  }

  /** Times at the table run back by at most d: attempts read the clock before they queue for the lock. */
  ghost predicate Late(attempts: seq<Attempt>, d: nat) {
    forall i, j :: 0 <= i < j < |attempts| ==> attempts[i].now <= attempts[j].now + d
  }

  ghost predicate Timely(attempts: seq<Attempt>) { Late(attempts, 0) }

  // --- the sweep cannot be observed -----------------------------------------------------------------------

  /** The sweeping table agrees with the other on every caller it has, and lacks only idle ones. */
  ghost predicate Agree(p: Policy, swept: Table, full: Table, now: nat) {
    forall c :: Of(swept, c) == Of(full, c) || (c !in swept && c in full && IsIdle(p, full[c], now))
  }

  ghost predicate Rising(recent: seq<nat>) { forall i, j :: 0 <= i < j < |recent| ==> recent[i] <= recent[j] }

  lemma {:induction false} AgedOut(p: Policy, recent: seq<nat>, now: nat)
    requires Rising(recent) && (recent == [] || now - recent[|recent| - 1] > p.window)
    ensures InWindow(p, recent, now) == []
  {
    if recent != [] {
      AgedOut(p, recent[1..], now);
    }
  }

  /** An idle caller is judged as a new one: its level and times are forgotten either way. */
  lemma {:induction false} IdleIsNew(p: Policy, e: Entry, now: nat)
    requires IsIdle(p, e, now) && Rising(e.recent) && p.max > 0
    ensures Judged(p, e, now) == Judged(p, NEW, now)
  {
    AgedOut(p, e.recent, now);
  }

  lemma {:induction false} WindowIsSuffix(p: Policy, recent: seq<nat>, now: nat) returns (k: nat)
    ensures k <= |recent| && InWindow(p, recent, now) == recent[k..]
    ensures forall i :: 0 <= i < k ==> now - recent[i] > p.window
  {
    if recent != [] && now - recent[0] > p.window {
      var m := WindowIsSuffix(p, recent[1..], now);
      k := m + 1;
      assert recent[1..][m..] == recent[k..];
      forall i | 0 <= i < k ensures now - recent[i] > p.window {
        assert i > 0 ==> recent[i] == recent[1..][i - 1];
      }
    } else {
      k := 0;
    }
  }

  ghost predicate TimesSound(t: Table, now: nat) {
    forall c <- t :: Rising(t[c].recent) && forall x <- t[c].recent :: x <= now
  }

  lemma {:induction false} SuffixRises(recent: seq<nat>, k: nat, now: nat)
    requires Rising(recent) && (forall x <- recent :: x <= now) && k <= |recent|
    ensures Rising(recent[k..]) && forall x <- recent[k..] :: x <= now
    ensures Rising(recent[k..] + [now]) && forall x <- recent[k..] + [now] :: x <= now
  {
    assert forall i :: 0 <= i < |recent| ==> recent[i] in recent;
  }

  lemma {:induction false} JudgingKeepsTimes(p: Policy, e: Entry, now: nat)
    requires Rising(e.recent) && forall x <- e.recent :: x <= now
    ensures var r := Judged(p, e, now).0; Rising(r.recent) && forall x <- r.recent :: x <= now
  {
    var k := WindowIsSuffix(p, e.recent, now);
    SuffixRises(e.recent, k, now);
  }

  lemma {:induction false} AllowingKeepsTimes(p: Policy, t: Table, a: Attempt)
    requires TimesSound(t, a.now)
    ensures TimesSound(Allowed(p, t, a).0, a.now)
  {
    JudgingKeepsTimes(p, Of(t, a.who), a.now);
  }

  lemma {:induction false} TimesAreSound(p: Policy, attempts: seq<Attempt>, now: nat)
    requires Timely(attempts) && (attempts != [] ==> attempts[|attempts| - 1].now <= now)
    ensures TimesSound(TableAfter(p, attempts, false), now)
  {
    if attempts != [] {
      var n := |attempts| - 1;
      TimesAreSound(p, attempts[..n], attempts[n].now);
      AllowingKeepsTimes(p, TableAfter(p, attempts[..n], false), attempts[n]);
    }
  }

  lemma {:induction false} SweepAgrees(p: Policy, swept: Table, full: Table, who: Caller, now: nat)
    requires Agree(p, swept, full, now)
    ensures Agree(p, Swept(p, swept, who, now), full, now)
    ensures Of(Swept(p, swept, who, now), who) == Of(swept, who)
  {
    var r := Swept(p, swept, who, now);
    forall c ensures Of(r, c) == Of(full, c) || (c !in r && c in full && IsIdle(p, full[c], now)) {
      assert Of(swept, c) == Of(full, c) || (c !in swept && c in full && IsIdle(p, full[c], now));
    }
  }

  lemma {:induction false} AllowingAgrees(p: Policy, swept: Table, full: Table, a: Attempt)
    requires p.max > 0 && Agree(p, swept, full, a.now) && TimesSound(full, a.now)
    ensures Allowed(p, swept, a).1 == Allowed(p, full, a).1
    ensures Agree(p, Allowed(p, swept, a).0, Allowed(p, full, a).0, a.now)
  {
    if Of(swept, a.who) != Of(full, a.who) {
      IdleIsNew(p, full[a.who], a.now);
    }
    var s, f := Allowed(p, swept, a).0, Allowed(p, full, a).0;
    forall c ensures Of(s, c) == Of(f, c) || (c !in s && c in f && IsIdle(p, f[c], a.now)) {
      assert Of(swept, c) == Of(full, c) || (c !in swept && c in full && IsIdle(p, full[c], a.now));
    }
  }

  lemma {:induction false} AgreeLater(p: Policy, swept: Table, full: Table, now: nat, later: nat)
    requires Agree(p, swept, full, now) && now <= later
    ensures Agree(p, swept, full, later)
  {
  }

  lemma {:induction false} TablesAgree(p: Policy, attempts: seq<Attempt>, now: nat)
    requires p.max > 0 && Timely(attempts) && (attempts != [] ==> attempts[|attempts| - 1].now <= now)
    ensures Agree(p, TableAfter(p, attempts, true), TableAfter(p, attempts, false), now)
    ensures attempts != [] ==> Granted(p, attempts, true) == Granted(p, attempts, false)
  {
    if attempts != [] {
      var n := |attempts| - 1;
      var a, before := attempts[n], attempts[..n];
      TablesAgree(p, before, a.now);
      TimesAreSound(p, before, a.now);
      var swept, full := TableAfter(p, before, true), TableAfter(p, before, false);
      SweepAgrees(p, swept, full, a.who, a.now);
      var before' := BeforeLast(p, attempts, true);
      assert before' == Swept(p, swept, a.who, a.now) && BeforeLast(p, attempts, false) == full;
      AllowingAgrees(p, before', full, a);
      AgreeLater(p, Allowed(p, before', a).0, Allowed(p, full, a).0, a.now, now);
    }
  }

  /** Every answer is the one a limiter that never sweeps gives. */
  lemma {:induction false} SweepIsUnobservable(p: Policy, attempts: seq<Attempt>)
    requires p.max > 0 && Timely(attempts) && attempts != []
    ensures Granted(p, attempts, true) == Granted(p, attempts, false)
  {
    TablesAgree(p, attempts, attempts[|attempts| - 1].now);
  }

  // --- callers do not influence each other -------------------------------------------------------------------

  function Own(attempts: seq<Attempt>, who: Caller): seq<Attempt> {
    if attempts == [] then []
    else
      var n := |attempts| - 1;
      Own(attempts[..n], who) + if attempts[n].who == who then [attempts[n]] else []
  }

  lemma {:induction false} OwnTable(p: Policy, attempts: seq<Attempt>, who: Caller)
    ensures Of(TableAfter(p, attempts, false), who) == Of(TableAfter(p, Own(attempts, who), false), who)
  {
    if attempts != [] {
      var n := |attempts| - 1;
      OwnTable(p, attempts[..n], who);
      if attempts[n].who == who {
        var own := Own(attempts, who);
        assert own[..|own| - 1] == Own(attempts[..n], who);
      } else {
        assert Own(attempts, who) == Own(attempts[..n], who);
      }
    }
  }

  /** An answer depends on the caller's own attempts alone, with or without the sweep. */
  lemma {:induction false} CallersAreIndependent(p: Policy, attempts: seq<Attempt>)
    requires p.max > 0 && Timely(attempts) && attempts != []
    ensures Own(attempts, attempts[|attempts| - 1].who) != []
    ensures Granted(p, attempts, true) == Granted(p, Own(attempts, attempts[|attempts| - 1].who), false)
  {
    var n := |attempts| - 1;
    var who := attempts[n].who;
    var own := Own(attempts, who);
    SweepIsUnobservable(p, attempts);
    OwnTable(p, attempts[..n], who);
    assert own[..|own| - 1] == Own(attempts[..n], who);
  }

  // --- the window bound ---------------------------------------------------------------------------------------

  /** When a caller's attempts were allowed. */
  function Grants(p: Policy, attempts: seq<Attempt>, who: Caller, sweeps: bool): seq<nat> {
    if attempts == [] then []
    else
      var n := |attempts| - 1;
      Grants(p, attempts[..n], who, sweeps)
      + if attempts[n].who == who && Granted(p, attempts, sweeps) then [attempts[n].now] else []
  }

  /** The latest time any attempt has read. */
  ghost function Top(attempts: seq<Attempt>): nat {
    if attempts == [] then 0 else
      var n := |attempts| - 1;
      if Top(attempts[..n]) < attempts[n].now then attempts[n].now else Top(attempts[..n])
  }

  lemma {:induction false} NeverFarBelowTop(attempts: seq<Attempt>, d: nat)
    requires Late(attempts, d) && attempts != []
    ensures Top(attempts[..|attempts| - 1]) <= attempts[|attempts| - 1].now + d
    decreases |attempts|
  {
    var n := |attempts| - 1;
    if n > 0 {
      var before := attempts[..n - 1] + [attempts[n]];
      assert forall i :: 0 <= i < n - 1 ==> before[i] == attempts[i];
      assert before[..n - 1] == attempts[..n][..n - 1];
      NeverFarBelowTop(before, d);
    }
  }

  /** The entry remembers the latest grants, and the forgotten ones lie well below the latest time; */
  ghost predicate Remembers(p: Policy, recent: seq<nat>, grants: seq<nat>, top: nat, d: nat) {
    && |recent| <= |grants| && recent == grants[|grants| - |recent|..]
    && forall i :: 0 <= i < |grants| - |recent| ==> top - grants[i] > p.window - d
  }

  /** grants are as much out of order as the attempts; */
  ghost predicate GrantsLate(grants: seq<nat>, top: nat, d: nat) {
    (forall i, j :: 0 <= i < j < |grants| ==> grants[i] <= grants[j] + d) && forall x <- grants :: x <= top
  }

  /** and any max + 1 of them span more than the window, less what two attempts may be late. */
  ghost predicate Spaced(p: Policy, grants: seq<nat>, d: nat) {
    forall i, j :: 0 <= i && i + p.max <= j < |grants| ==> grants[j] - grants[i] > p.window - 2 * d
  }

  ghost predicate Kept(p: Policy, recent: seq<nat>, grants: seq<nat>, top: nat, d: nat) {
    Remembers(p, recent, grants, top, d) && GrantsLate(grants, top, d) && Spaced(p, grants, d)
  }

  lemma {:induction false} KeptLater(p: Policy, recent: seq<nat>, grants: seq<nat>, top: nat, later: nat, d: nat)
    requires Kept(p, recent, grants, top, d) && top <= later
    ensures Kept(p, recent, grants, later, d)
  {
  }

  /** Sweeping a caller forgets only grants that lie well below: its last one is out of the window, and the others are
      not much newer. */
  lemma {:induction false} SweepingKeeps(p: Policy, e: Entry, grants: seq<nat>, now: nat, top: nat, d: nat)
    requires Kept(p, e.recent, grants, top, d) && IsIdle(p, e, now) && now <= top
    ensures Kept(p, [], grants, top, d)
  {
    var k := |grants| - |e.recent|;
    assert e.recent != [] ==> e.recent[|e.recent| - 1] == grants[|grants| - 1];
    forall i | 0 <= i < |grants| ensures top - grants[i] > p.window - d {
      if i >= k && i < |grants| - 1 {
        assert grants[i] <= grants[|grants| - 1] + d;
      }
    }
  }

  lemma {:induction false} AgingKeeps(p: Policy, recent: seq<nat>, grants: seq<nat>, now: nat, top: nat, d: nat)
    requires Kept(p, recent, grants, top, d) && now <= top
    ensures Kept(p, InWindow(p, recent, now), grants, top, d)
  {
    var k := WindowIsSuffix(p, recent, now);
    var forgotten := |grants| - |recent|;
    assert recent[k..] == grants[forgotten + k..];
    forall i | 0 <= i < forgotten + k ensures top - grants[i] > p.window - d {
      assert i >= forgotten ==> grants[i] == recent[i - forgotten];
    }
  }

  lemma {:induction false} GrantingKeeps(p: Policy, recent: seq<nat>, grants: seq<nat>, now: nat, top: nat, d: nat)
    requires Kept(p, recent, grants, top, d) && |recent| < p.max && now <= top <= now + d
    ensures Kept(p, recent + [now], grants + [now], top, d)
  {
    var after, forgotten := grants + [now], |grants| - |recent|;
    assert recent + [now] == after[forgotten..];
    forall i, j | 0 <= i < j < |after| ensures after[i] <= after[j] + d {
      assert after[i] == grants[i] && grants[i] in grants;
    }
    forall i, j | 0 <= i && i + p.max <= j < |after| ensures after[j] - after[i] > p.window - 2 * d {
      if j == |grants| {
        assert i < forgotten && after[i] == grants[i];
      }
    }
  }

  lemma {:induction false} JudgingKeeps(p: Policy, e: Entry, grants: seq<nat>, now: nat, top: nat, d: nat)
    requires Kept(p, e.recent, grants, top, d) && now <= top <= now + d
    ensures var (r, ok) := Judged(p, e, now); Kept(p, r.recent, if ok then grants + [now] else grants, top, d)
  {
    if e.until <= now {
      AgingKeeps(p, e.recent, grants, now, top, d);
      if |InWindow(p, e.recent, now)| < p.max {
        GrantingKeeps(p, InWindow(p, e.recent, now), grants, now, top, d);
      }
    }
  }

  lemma {:induction false} LastAttempt(p: Policy, attempts: seq<Attempt>, who: Caller, sweeps: bool)
    requires attempts != []
    ensures var n := |attempts| - 1;
      var e, grants := Of(BeforeLast(p, attempts, sweeps), who), Grants(p, attempts[..n], who, sweeps);
      var (judged, ok) := Judged(p, e, attempts[n].now);
      && Of(TableAfter(p, attempts, sweeps), who) == (if attempts[n].who == who then judged else e)
      && Grants(p, attempts, who, sweeps)
         == if attempts[n].who == who && ok then grants + [attempts[n].now] else grants
  {
  }

  lemma {:induction false} BeforeLastKeeps(
    p: Policy, attempts: seq<Attempt>, who: Caller, sweeps: bool, top: nat, d: nat)
    requires attempts != [] && attempts[|attempts| - 1].now <= top
    requires var before := attempts[..|attempts| - 1];
      Kept(p, Of(TableAfter(p, before, sweeps), who).recent, Grants(p, before, who, sweeps), top, d)
    ensures Kept(p, Of(BeforeLast(p, attempts, sweeps), who).recent,
                 Grants(p, attempts[..|attempts| - 1], who, sweeps), top, d)
  {
    var n := |attempts| - 1;
    var t := TableAfter(p, attempts[..n], sweeps);
    if Of(BeforeLast(p, attempts, sweeps), who) != Of(t, who) {
      SweepingKeeps(p, t[who], Grants(p, attempts[..n], who, sweeps), attempts[n].now, top, d);
    }
  }

  lemma {:induction false} EntriesRemember(p: Policy, attempts: seq<Attempt>, who: Caller, sweeps: bool, d: nat)
    requires Late(attempts, d)
    ensures Kept(p, Of(TableAfter(p, attempts, sweeps), who).recent, Grants(p, attempts, who, sweeps), Top(attempts), d)
  {
    if attempts != [] {
      var n := |attempts| - 1;
      var before, now, top := attempts[..n], attempts[n].now, Top(attempts);
      EntriesRemember(p, before, who, sweeps, d);
      NeverFarBelowTop(attempts, d);
      KeptLater(p, Of(TableAfter(p, before, sweeps), who).recent, Grants(p, before, who, sweeps), Top(before), top, d);
      BeforeLastKeeps(p, attempts, who, sweeps, top, d);
      JudgingKeeps(p, Of(BeforeLast(p, attempts, sweeps), who), Grants(p, before, who, sweeps), now, top, d);
      LastAttempt(p, attempts, who, sweeps);
    }
  }

  ghost function GrantsWithin(grants: seq<nat>, from: nat, to: int): set<nat> {
    set k: nat | k < |grants| && from <= grants[k] <= to
  }

  lemma {:induction false} FewInARow(s: set<nat>, first: nat, n: nat)
    requires forall k <- s :: first <= k < first + n
    ensures |s| <= n
  {
    if n == 0 {
      assert forall k: nat :: k !in s;
    } else {
      var rest := s - {first + n - 1};
      FewInARow(rest, first, n - 1);
      assert s <= rest + {first + n - 1};
      Larger(s, rest + {first + n - 1});
    }
  }

  lemma {:induction false} Larger(a: set<nat>, b: set<nat>)
    requires a <= b
    ensures |a| <= |b|
  {
    assert b == a + (b - a);
  }

  lemma {:induction false} Least(s: set<nat>) returns (i: nat)
    requires s != {}
    ensures i in s && forall k <- s :: i <= k
  {
    var k :| k in s;
    i := k;
    var rest := s - {k};
    assert s == rest + {k};
    if rest != {} {
      var j := Least(rest);
      i := if k < j then k else j;
    }
  }

  /** However late attempts reach the table, by at most d, no closed interval of the window's length less 2d holds more
      than max allowed attempts of a caller; with times in order, none of the window's length. */
  lemma {:induction false} WindowBound(p: Policy, attempts: seq<Attempt>, who: Caller, d: nat, from: nat)
    requires Late(attempts, d)
    ensures |GrantsWithin(Grants(p, attempts, who, true), from, from + p.window - 2 * d)| <= p.max
  {
    var grants := Grants(p, attempts, who, true);
    EntriesRemember(p, attempts, who, true, d);
    assert Spaced(p, grants, d);
    var s := GrantsWithin(grants, from, from + p.window - 2 * d);
    if s != {} {
      var first := Least(s);
      FewInARow(s, first, p.max);
    }
  }

  /** A caller alone in the table, with these grants behind it. */
  ghost predicate Stands(p: Policy, attempts: seq<Attempt>, who: Caller, recent: seq<nat>, grants: seq<nat>) {
    && TableAfter(p, attempts, true) == map[who := Entry(recent, 0, 0)]
    && Grants(p, attempts, who, true) == grants
  }

  lemma {:induction false} FirstIsGranted(p: Policy, a: Attempt)
    requires p.max > 0
    ensures Stands(p, [a], a.who, [a.now], [a.now])
  {
    assert [a][..0] == [] && TableAfter(p, [], true) == map[] && Grants(p, [], a.who, true) == [];
    assert [] + [a.now] == [a.now];
  }

  lemma {:induction false} NextIsGranted(
    p: Policy, attempts: seq<Attempt>, a: Attempt, recent: seq<nat>, grants: seq<nat>, left: seq<nat>)
    requires Stands(p, attempts, a.who, recent, grants) && p.threshold > 0
    requires InWindow(p, recent, a.now) == left && |left| < p.max
    ensures Stands(p, attempts + [a], a.who, left + [a.now], grants + [a.now])
  {
    assert (attempts + [a])[..|attempts|] == attempts;
    assert attempts != [] by {
      assert a.who in TableAfter(p, attempts, true);
    }
  }

  lemma {:induction false} TwoAreGranted(p: Policy, a: Attempt)
    requires p.max == 2 && p.threshold > 0
    ensures Stands(p, [a] + [a], a.who, [a.now, a.now], [a.now, a.now])
  {
    FirstIsGranted(p, a);
    NextIsGranted(p, [a], a, [a.now], [a.now], [a.now]);
    assert [a.now] + [a.now] == [a.now, a.now];
  }

  lemma {:induction false} LaterForgets(p: Policy, first: seq<Attempt>, b: Attempt)
    requires p.max == 2 && p.threshold > 0 && Stands(p, first, b.who, [0, 0], [0, 0]) && b.now > p.window
    ensures Stands(p, first + [b], b.who, [b.now], [0, 0, b.now])
  {
    AgedOut(p, [0, 0], b.now);
    NextIsGranted(p, first, b, [0, 0], [0, 0], []);
    assert [] + [b.now] == [b.now] && [0, 0] + [b.now] == [0, 0, b.now];
  }

  lemma {:induction false} LateIsGranted(p: Policy, first: seq<Attempt>, b: Attempt, c: Attempt)
    requires p.max == 2 && p.threshold > 0 && Stands(p, first, b.who, [0, 0], [0, 0])
    requires c.who == b.who && c.now == p.window == b.now - 1
    ensures Grants(p, first + [b] + [c], b.who, true) == [0, 0, b.now, c.now]
  {
    LaterForgets(p, first, b);
    NextIsGranted(p, first + [b], c, [b.now], [0, 0, b.now], [b.now]);
    assert [0, 0, b.now] + [c.now] == [0, 0, b.now, c.now];
  }

  /** One attempt, one unit of time late, is enough to exceed the bound for the whole window. */
  lemma {:induction false} LateAttemptExceedsTheWindow(p: Policy, who: Caller)
    requires p.max == 2 && p.threshold > 0
    ensures var a, b, c := Attempt(who, 0), Attempt(who, p.window + 1), Attempt(who, p.window);
      var attempts := [a] + [a] + [b] + [c];
      Late(attempts, 1) && GrantsWithin(Grants(p, attempts, who, true), 0, p.window) == {0, 1, 3}
  {
    TwoAreGranted(p, Attempt(who, 0));
    LateIsGranted(p, [Attempt(who, 0)] + [Attempt(who, 0)], Attempt(who, p.window + 1), Attempt(who, p.window));
  }
}

/** The limiter itself, against the policy's functions. */
module RateLimiter {
  import opened Core
  import opened RateLimit

  method BackoffFor(p: Policy, level: nat) returns (r: nat)
    ensures r == Backoff(p, level)
  {
    r := p.base;
    var i := 1;
    while i < level
      invariant 1 <= i && (i <= level || (level <= 1 && i == 1)) && r == Backoff(p, i)
    {
      r := Min(r * 2, p.cap);
      i := i + 1;
    }
  }

  method Aged(p: Policy, recent: seq<nat>, now: nat) returns (r: seq<nat>)
    ensures r == InWindow(p, recent, now)
  {
    r := recent;
    while r != [] && now - r[0] > p.window
      invariant InWindow(p, r, now) == InWindow(p, recent, now)
      decreases r
    {
      r := r[1..];
    }
  }

  class Limiter {
    const policy: Policy
    var callers: Table

    constructor (p: Policy)
      ensures policy == p && callers == map[]
    {
      policy, callers := p, map[];
    }

    /** Erases idle callers one by one. */
    method Sweep(who: Caller, now: nat)
      modifies this
      ensures callers == Swept(policy, old(callers), who, now)
    {
      if |callers| > policy.threshold {
        var rest := callers.Keys;
        while rest != {}
          invariant rest <= old(callers).Keys
          invariant callers == map c | c in old(callers)
                                       && (c in rest || !(c != who && IsIdle(policy, old(callers)[c], now)))
                               :: old(callers)[c]
          decreases rest
        {
          var c :| c in rest;
          if c != who && IsIdle(policy, callers[c], now) {
            callers := callers - {c};
          }
          rest := rest - {c};
        }
      }
    }

    method Allow(who: Caller, now: nat) returns (ok: bool)
      modifies this
      ensures (callers, ok) == Allowed(policy, Swept(policy, old(callers), who, now), Attempt(who, now))
    {
      Sweep(who, now);
      var s := if who in callers then callers[who] else NEW;
      if s.until > now {
        callers := callers[who := s];
        return false;
      }
      var recent := Aged(policy, s.recent, now);
      if |recent| >= policy.max {
        var level := Min(s.level + 1, 5);
        var backoff := BackoffFor(policy, level);
        callers := callers[who := Entry(recent, level, now + backoff)];
        return false;
      }
      callers := callers[who := Entry(recent + [now], 0, 0)];
      return true;
    }
  }
}
