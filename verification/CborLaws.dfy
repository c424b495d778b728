/** Round trips, exactness and key order of the CBOR codec. */
module CborLaws {
  import opened Core
  import opened Floats
  import opened CborFormat
  import opened Cbor

  // --- one item ---------------------------------------------------------------------------------------

  lemma {:induction false} IntItem(head: Bytes, major: Major, info: nat, n: nat, rest: Bytes)
    requires ReadHead(head + rest) == Some(Head(major, info, n, |head|)) && major < 2 && info != 31
    requires major == 1 ==> n < 0x8000_0000_0000_0000
    ensures NextItem(head + rest) == Some((Leaf(Int(if major == 0 then n else -1 - n)), rest))
  {
    assert (head + rest)[|head|..] == rest;
  }

  lemma {:induction false} IntOpens(major: Major, n: nat, rest: Bytes)
    requires major < 2 && n < TOP && (major == 1 ==> n < 0x8000_0000_0000_0000)
    ensures NextItem(HeadOf(major, n) + rest) == Some((Leaf(Int(if major == 0 then n else -1 - n)), rest))
  {
    HeadReadsBack(major, n, rest);
    IntItem(HeadOf(major, n), major, InfoOf(n), n, rest);
  }

  lemma {:induction false} IntReads(n: int, rest: Bytes)
    requires WellFormed(Int(n))
    ensures NextItem(Encode(Int(n)) + rest) == Some((Leaf(Int(n)), rest))
  {
    if n >= 0 {
      IntOpens(0, n, rest);
    } else {
      IntOpens(1, -1 - n, rest);
    }
  }

  lemma {:induction false} StringReads(major: Major, s: Bytes, rest: Bytes)
    requires |s| < TOP
    ensures var b := HeadOf(major, |s|) + s + rest;
      ReadHead(b).Some? && ReadHead(b).value.major == major && StringAt(ReadHead(b).value, b) == Some((s, rest))
  {
    var b, k := HeadOf(major, |s|) + s + rest, 1 + ArgumentBytes(|s|);
    assert b == HeadOf(major, |s|) + (s + rest);
    HeadReadsBack(major, |s|, s + rest);
    assert b[k..k + |s|] == s && b[k + |s|..] == rest;
  }

  lemma {:induction false} FloatItem(b: Bytes, info: nat, n: nat, rest: Bytes)
    requires 25 <= info <= 27 && n < Lim(WidthOf(info).value)
    requires ReadHead(b) == Some(Head(7, info, n, 1 + WidthOf(info).value)) && b[1 + WidthOf(info).value..] == rest
    ensures Lim(2) == 0x1_0000 && Lim(4) == 0x1_0000_0000 && Lim(8) == TOP
    ensures NextItem(b) == Some((Leaf(Real(FloatRead(Head(7, info, n, 1 + WidthOf(info).value)))), rest))
  {
    Widths();
  }

  lemma {:induction false} FloatReads(d: Double, rest: Bytes)
    requires IsDouble(d)
    ensures NextItem(FloatBytes(Preferred(d)) + rest) == Some((Leaf(Real(d)), rest))
  {
    FloatsReadBack(d);
    WireReads(Preferred(d), rest);
  }

  lemma {:induction false} WireReads(w: Wire, rest: Bytes)
    requires IsWire(w)
    ensures NextItem(FloatBytes(w) + rest) == Some((Leaf(Real(Unwired(w))), rest))
  {
    Widths();
    var b := FloatBytes(w) + rest;
    match w
    case Wide(e) =>
      DoubleNumberReadsBack(e);
      FloatHead(27, 8, DoubleNumber(e), rest);
      FloatItem(b, 27, DoubleNumber(e), rest);
    case AsSingle(s) =>
      SingleNumberReadsBack(s);
      FloatHead(26, 4, FloatNumber(SINGLE, s), rest);
      FloatItem(b, 26, FloatNumber(SINGLE, s), rest);
    case AsHalf(s) =>
      HalfNumberReadsBack(s);
      FloatHead(25, 2, FloatNumber(HALF, s), rest);
      FloatItem(b, 25, FloatNumber(HALF, s), rest);
  }

  lemma {:induction false} FloatHead(info: nat, k: nat, n: nat, rest: Bytes)
    requires 25 <= info <= 27 && WidthOf(info) == Some(k) && n < Lim(k)
    ensures var first: byte := 224 + info; var b: Bytes := [first] + Big(n, k) + rest;
      ReadHead(b) == Some(Head(7, info, n, 1 + k)) && b[1 + k..] == rest
  {
    var first: byte := 224 + info;
    var b: Bytes := [first] + Big(n, k) + rest;
    BigReadsBack(n, k);
    assert b[1..1 + k] == Big(n, k);
  }

  lemma {:induction false} LeafReads(v: Value, rest: Bytes)
    requires WellFormed(v) && !v.Array? && !v.Map?
    ensures NextItem(Encode(v) + rest) == Some((Leaf(v), rest))
  {
    match v
    case Null => assert ([0xF6] + rest)[1..] == rest;
    case Bool(b) => assert ((if b then [0xF5] else [0xF4]) + rest)[1..] == rest;
    case Int(n) => IntReads(n, rest);
    case Real(d) => FloatReads(d, rest);
    case Text(s) => StringReads(3, s, rest);
    case Blob(s) => StringReads(2, s, rest);
  }

  lemma {:induction false} ContainerItem(head: Bytes, major: Major, info: nat, n: nat, rest: Bytes)
    requires ReadHead(head + rest) == Some(Head(major, info, n, |head|)) && 4 <= major <= 5 && info != 31
    ensures NextItem(head + rest) == Some((if major == 4 then OpenArray(n) else OpenMap(n), rest))
  {
    assert (head + rest)[|head|..] == rest;
  }

  lemma {:induction false} ContainerOpens(major: Major, n: nat, rest: Bytes)
    requires 4 <= major <= 5 && n < TOP
    ensures NextItem(HeadOf(major, n) + rest) == Some((if major == 4 then OpenArray(n) else OpenMap(n), rest))
  {
    HeadReadsBack(major, n, rest);
    ContainerItem(HeadOf(major, n), major, InfoOf(n), n, rest);
  }

  lemma {:induction false} Regroup(a: Bytes, b: Bytes, c: Bytes)
    ensures a + b + c == a + (b + c)
  {
  }

  // --- a value and everything inside it -------------------------------------------------------------------

  /** The limit a value breaks first, in the order it is read: its own nesting, the items read so far, then its parts.
      */
  function Breaks(l: Limits, v: Value, depth: nat, budget: int): Option<CborError>
    decreases v
  {
    if depth > l.depth then Some(TooDeep)
    else if budget <= 0 then Some(TooManyItems)
    else match v
      case Array(items) => ItemsBreak(l, items, depth + 1, budget - 1)
      case Map(entries) => EntriesBreak(l, entries, depth + 1, budget - 1)
      case _ => None
  }

  function ItemsBreak(l: Limits, items: seq<Value>, depth: nat, budget: int): Option<CborError>
    decreases items
  {
    if items == [] then None
    else
      var first := Breaks(l, items[0], depth, budget);
      if first.Some? then first else ItemsBreak(l, items[1..], depth, budget - Count(items[0]))
  }

  function EntriesBreak(l: Limits, entries: seq<Entry>, depth: nat, budget: int): Option<CborError>
    decreases entries
  {
    if entries == [] then None
    else
      var first := Breaks(l, entries[0].value, depth, budget);
      if first.Some? then first else EntriesBreak(l, entries[1..], depth, budget - Count(entries[0].value))
  }

  /** A limit is named only when it is broken, and nothing is named only when none is. */
  ghost predicate Names(broken: Option<CborError>, deep: bool, many: bool) {
    match broken
    case None => !deep && !many
    case Some(e) => (e == TooDeep && deep) || (e == TooManyItems && many)
  }

  lemma {:induction false} BrokenLimitIsNamed(l: Limits, v: Value, depth: nat, budget: nat)
    ensures Names(Breaks(l, v, depth, budget), depth + Depth(v) > l.depth, Count(v) > budget)
    decreases v
  {
    if depth <= l.depth && budget > 0 {
      match v
      case Array(items) => ItemsAreNamed(l, items, depth + 1, budget - 1);
      case Map(entries) => EntriesAreNamed(l, entries, depth + 1, budget - 1);
      case _ =>
    }
  }

  lemma {:induction false} ItemsAreNamed(l: Limits, items: seq<Value>, depth: nat, budget: nat)
    ensures Names(ItemsBreak(l, items, depth, budget), items != [] && depth + DepthOfItems(items) > l.depth,
                  CountOfItems(items) > budget)
    decreases items
  {
    if items != [] {
      BrokenLimitIsNamed(l, items[0], depth, budget);
      if Count(items[0]) <= budget {
        ItemsAreNamed(l, items[1..], depth, budget - Count(items[0]));
      }
    }
  }

  lemma {:induction false} EntriesAreNamed(l: Limits, entries: seq<Entry>, depth: nat, budget: nat)
    ensures Names(EntriesBreak(l, entries, depth, budget), entries != [] && depth + DepthOfEntries(entries) > l.depth,
                  CountOfEntries(entries) > budget)
    decreases entries
  {
    if entries != [] {
      BrokenLimitIsNamed(l, entries[0].value, depth, budget);
      if Count(entries[0].value) <= budget {
        EntriesAreNamed(l, entries[1..], depth, budget - Count(entries[0].value));
      }
    }
  }

  /** A reader that knows the encoding: leaves, openings of containers, and keys. */
  ghost predicate KnowsLeaves(r: Reader) {
    forall v, rest :: WellFormed(v) && !v.Array? && !v.Map? ==> r.next(Encode(v) + rest) == Some((Leaf(v), rest))
  }

  ghost predicate KnowsOpenings(r: Reader) {
    && (forall n: nat, rest :: n < TOP ==> r.next(HeadOf(4, n) + rest) == Some((OpenArray(n), rest)))
    && (forall n: nat, rest :: n < TOP ==> r.next(HeadOf(5, n) + rest) == Some((OpenMap(n), rest)))
  }

  ghost predicate KnowsKeys(r: Reader) {
    forall key: Bytes, rest :: |key| < TOP ==> r.key(HeadOf(3, |key|) + key + rest) == Ok((key, rest))
  }

  ghost predicate Knows(r: Reader) { KnowsLeaves(r) && KnowsOpenings(r) && KnowsKeys(r) }

  lemma {:induction false} OurReaderKnows()
    ensures Knows(READER)
  {
    forall v, rest | WellFormed(v) && !v.Array? && !v.Map? ensures NextItem(Encode(v) + rest) == Some((Leaf(v), rest)) {
      LeafReads(v, rest);
    }
    forall n: nat, rest | n < TOP ensures NextItem(HeadOf(4, n) + rest) == Some((OpenArray(n), rest)) {
      ContainerOpens(4, n, rest);
    }
    forall n: nat, rest | n < TOP ensures NextItem(HeadOf(5, n) + rest) == Some((OpenMap(n), rest)) {
      ContainerOpens(5, n, rest);
    }
    forall key: Bytes, rest | |key| < TOP ensures ReadKey(HeadOf(3, |key|) + key + rest) == Ok((key, rest)) {
      StringReads(3, key, rest);
    }
  }

  /** What a reader gives: the value, what follows it and the budget left, or the error of the limit broken first. */
  ghost predicate Gives<T>(g: Result<Got<T>, CborError>, broken: Option<CborError>, v: T, rest: Bytes, left: int) {
    if broken.None? then left >= 0 && g == Ok(Got(v, rest, left)) else g == Err(broken.value)
  }

  /** The limits of one item come before those of its parts. */
  function OwnThen(l: Limits, depth: nat, budget: nat, parts: Option<CborError>): Option<CborError> {
    if depth > l.depth then Some(TooDeep) else if budget == 0 then Some(TooManyItems) else parts
  }

  function Either(first: Option<CborError>, then': Option<CborError>): Option<CborError> {
    if first.Some? then first else then'
  }

  lemma {:induction false} LeafGives(r: Reader, l: Limits, b: Bytes, v: Value, rest: Bytes, depth: nat, budget: nat)
    requires r.next(b) == Some((Leaf(v), rest))
    ensures Gives(ReadValue(r, l, b, depth, budget), OwnThen(l, depth, budget, None), v, rest, budget - 1)
  {
  }

  lemma {:induction false} ArrayGives(
    r: Reader, l: Limits, b: Bytes, items: seq<Value>, x: Bytes, rest: Bytes, depth: nat, budget: nat,
    broken: Option<CborError>, left: int)
    requires r.next(b) == Some((OpenArray(|items|), x))
    requires depth <= l.depth && budget > 0 ==>
      Gives(ReadItems(r, l, |items|, x, depth + 1, budget - 1), broken, items, rest, left)
    ensures Gives(ReadValue(r, l, b, depth, budget), OwnThen(l, depth, budget, broken), Array(items), rest, left)
  {
  }

  lemma {:induction false} MapGives(
    r: Reader, l: Limits, b: Bytes, entries: seq<Entry>, x: Bytes, rest: Bytes, depth: nat, budget: nat,
    broken: Option<CborError>, left: int)
    requires r.next(b) == Some((OpenMap(|entries|), x))
    requires depth <= l.depth && budget > 0 ==>
      Gives(ReadEntries(r, l, |entries|, x, depth + 1, budget - 1, []), broken, entries, rest, left)
    ensures Gives(ReadValue(r, l, b, depth, budget), OwnThen(l, depth, budget, broken), Map(entries), rest, left)
  {
  }

  lemma {:induction false} ItemsGive(
    r: Reader, l: Limits, b: Bytes, v: Value, more: seq<Value>, x: Bytes, rest: Bytes, depth: nat, budget: nat,
    first: Option<CborError>, between: int, broken: Option<CborError>, left: int)
    requires Gives(ReadValue(r, l, b, depth, budget), first, v, x, between)
    requires first.None? ==> Gives(ReadItems(r, l, |more|, x, depth, between), broken, more, rest, left)
    ensures Gives(ReadItems(r, l, 1 + |more|, b, depth, budget), Either(first, broken), [v] + more, rest, left)
  {
  }

  lemma {:induction false} EntriesGive(
    r: Reader, l: Limits, b: Bytes, e: Entry, more: seq<Entry>, k: Bytes, x: Bytes, rest: Bytes, depth: nat,
    budget: nat, acc: seq<Entry>, first: Option<CborError>, between: int, broken: Option<CborError>, left: int)
    requires r.key(b) == Ok((e.key, k)) && Gives(ReadValue(r, l, k, depth, budget), first, e.value, x, between)
    requires Inserted(acc, e) == acc + [e] && !HasKey(acc, e.key)
    requires first.None? ==>
      Gives(ReadEntries(r, l, |more|, x, depth, between, acc + [e]), broken, acc + [e] + more, rest, left)
    ensures Gives(ReadEntries(r, l, 1 + |more|, b, depth, budget, acc), Either(first, broken), acc + [e] + more, rest,
                  left)
  {
  }

  ghost predicate ValueGiven(r: Reader, l: Limits, v: Value, b: Bytes, rest: Bytes, depth: nat, budget: nat) {
    Gives(ReadValue(r, l, b, depth, budget), Breaks(l, v, depth, budget), v, rest, budget - Count(v))
  }

  ghost predicate EntriesGiven(
    r: Reader, l: Limits, entries: seq<Entry>, b: Bytes, rest: Bytes, depth: nat, budget: nat, acc: seq<Entry>) {
    Gives(ReadEntries(r, l, |entries|, b, depth, budget, acc), EntriesBreak(l, entries, depth, budget), acc + entries,
          rest, budget - CountOfEntries(entries))
  }

  /** The reader gives back an encoded value, and what follows it, when the value is within the limits, and otherwise
      the error of the limit it breaks first. */
  lemma {:induction false} ValueReads(r: Reader, l: Limits, v: Value, rest: Bytes, depth: nat, budget: nat)
    requires Knows(r) && WellFormed(v)
    ensures ValueGiven(r, l, v, Encode(v) + rest, rest, depth, budget)
    decreases v
  {
    match v
    case Array(items) => ArrayReads(r, l, items, rest, depth, budget);
    case Map(entries) => MapReads(r, l, entries, rest, depth, budget);
    case _ => LeafValueReads(r, l, v, rest, depth, budget);
  }

  lemma {:induction false} LeafValueReads(r: Reader, l: Limits, v: Value, rest: Bytes, depth: nat, budget: nat)
    requires KnowsLeaves(r) && WellFormed(v) && !v.Array? && !v.Map?
    ensures ValueGiven(r, l, v, Encode(v) + rest, rest, depth, budget)
  {
    LeafGives(r, l, Encode(v) + rest, v, rest, depth, budget);
  }

  lemma {:induction false} ArrayReads(r: Reader, l: Limits, items: seq<Value>, rest: Bytes, depth: nat, budget: nat)
    requires Knows(r) && WellFormed(Array(items))
    ensures ValueGiven(r, l, Array(items), Encode(Array(items)) + rest, rest, depth, budget)
    decreases items, 1
  {
    var b, x := Encode(Array(items)) + rest, EncodeItems(items) + rest;
    Regroup(HeadOf(4, |items|), EncodeItems(items), rest);
    if depth <= l.depth && budget > 0 {
      ItemsRead(r, l, items, rest, depth + 1, budget - 1);
    }
    ArrayGives(r, l, b, items, x, rest, depth, budget, ItemsBreak(l, items, depth + 1, budget - 1),
               budget - Count(Array(items)));
  }

  lemma {:induction false} MapReads(r: Reader, l: Limits, entries: seq<Entry>, rest: Bytes, depth: nat, budget: nat)
    requires Knows(r) && WellFormed(Map(entries))
    ensures ValueGiven(r, l, Map(entries), Encode(Map(entries)) + rest, rest, depth, budget)
    decreases entries, 1
  {
    var b, x := Encode(Map(entries)) + rest, EncodeEntries(entries) + rest;
    Regroup(HeadOf(5, |entries|), EncodeEntries(entries), rest);
    assert [] + entries == entries;
    if depth <= l.depth && budget > 0 {
      InOrderGoesLast([], entries);
      EntriesRead(r, l, entries, rest, depth + 1, budget - 1, []);
    }
    MapGives(r, l, b, entries, x, rest, depth, budget, EntriesBreak(l, entries, depth + 1, budget - 1),
             budget - Count(Map(entries)));
  }

  lemma {:induction false} ItemsRead(r: Reader, l: Limits, items: seq<Value>, rest: Bytes, depth: nat, budget: nat)
    requires Knows(r) && forall x <- items :: WellFormed(x)
    ensures Gives(ReadItems(r, l, |items|, EncodeItems(items) + rest, depth, budget),
                  ItemsBreak(l, items, depth, budget), items, rest, budget - CountOfItems(items))
    decreases items, 0
  {
    if items == [] {
      assert EncodeItems(items) + rest == rest;
    } else {
      var first, more, x := items[0], items[1..], EncodeItems(items[1..]) + rest;
      Regroup(Encode(first), EncodeItems(more), rest);
      ValueReads(r, l, first, x, depth, budget);
      var broken, left := Breaks(l, first, depth, budget), budget - Count(first);
      if broken.None? {
        ItemsRead(r, l, more, rest, depth, left);
      }
      assert items == [first] + more;
      ItemsGive(r, l, Encode(first) + x, first, more, x, rest, depth, budget, broken, left,
                ItemsBreak(l, more, depth, left), budget - CountOfItems(items));
    }
  }

  lemma {:induction false} InsertedLast(entries: seq<Entry>, e: Entry)
    requires forall x <- entries :: KeyLess(x.key, e.key)
    ensures Inserted(entries, e) == entries + [e] && !HasKey(entries, e.key)
  {
    if entries != [] {
      KeysAreApart(entries[0].key, e.key);
      InsertedLast(entries[1..], e);
    }
  }

  lemma {:induction false} LessIsOneWay(a: Bytes, b: Bytes)
    requires BytewiseLess(a, b)
    ensures !BytewiseLess(b, a)
  {
    if a != [] && a[0] == b[0] {
      LessIsOneWay(a[1..], b[1..]);
    }
  }

  lemma {:induction false} KeysAreApart(a: Bytes, b: Bytes)
    requires KeyLess(a, b)
    ensures !KeyLess(b, a) && a != b
  {
    if |a| == |b| {
      LessIsOneWay(a, b);
    }
  }

  /** Each entry in turn is well formed and goes to the end of the map read so far, under a key it does not have. */
  ghost predicate GoesLast(acc: seq<Entry>, entries: seq<Entry>)
    decreases entries
  {
    entries == [] ||
      (Inserted(acc, entries[0]) == acc + [entries[0]] && !HasKey(acc, entries[0].key)
       && |entries[0].key| < TOP && WellFormed(entries[0].value)
       && GoesLast(acc + [entries[0]], entries[1..]))
  }

  lemma {:induction false} InOrderGoesLast(acc: seq<Entry>, entries: seq<Entry>)
    requires InOrder(acc + entries) && forall e <- entries :: |e.key| < TOP && WellFormed(e.value)
    ensures GoesLast(acc, entries)
    decreases entries
  {
    if entries != [] {
      NewKeyIsLast(acc, entries);
      assert acc + [entries[0]] + entries[1..] == acc + entries;
      InOrderGoesLast(acc + [entries[0]], entries[1..]);
    }
  }

  lemma {:induction false} EntriesRead(
    r: Reader, l: Limits, entries: seq<Entry>, rest: Bytes, depth: nat, budget: nat, acc: seq<Entry>)
    requires Knows(r) && GoesLast(acc, entries)
    ensures EntriesGiven(r, l, entries, EncodeEntries(entries) + rest, rest, depth, budget, acc)
    decreases entries, 0
  {
    if entries == [] {
      assert EncodeEntries(entries) + rest == rest && acc + entries == acc;
    } else {
      var e, more, x := entries[0], entries[1..], EncodeEntries(entries[1..]) + rest;
      EntryOpens(r, entries, rest);
      ValueReads(r, l, e.value, x, depth, budget);
      if Breaks(l, e.value, depth, budget).None? {
        EntriesRead(r, l, more, rest, depth, budget - Count(e.value), acc + [e]);
      }
      EntriesStep(r, l, entries, EncodeEntries(entries) + rest, x, rest, depth, budget, acc);
    }
  }

  lemma {:induction false} EntriesStep(
    r: Reader, l: Limits, entries: seq<Entry>, b: Bytes, x: Bytes, rest: Bytes, depth: nat, budget: nat,
    acc: seq<Entry>)
    requires entries != [] && Inserted(acc, entries[0]) == acc + [entries[0]] && !HasKey(acc, entries[0].key)
    requires r.key(b) == Ok((entries[0].key, Encode(entries[0].value) + x))
    requires ValueGiven(r, l, entries[0].value, Encode(entries[0].value) + x, x, depth, budget)
    requires Breaks(l, entries[0].value, depth, budget).None? ==>
      && Count(entries[0].value) <= budget
      && EntriesGiven(r, l, entries[1..], x, rest, depth, budget - Count(entries[0].value), acc + [entries[0]])
    ensures EntriesGiven(r, l, entries, b, rest, depth, budget, acc)
  {
    var e, more := entries[0], entries[1..];
    var between := budget - Count(e.value);
    assert acc + [e] + more == acc + entries;
    EntriesGive(r, l, b, e, more, Encode(e.value) + x, x, rest, depth, budget, acc, Breaks(l, e.value, depth, budget),
                between, EntriesBreak(l, more, depth, between), budget - CountOfEntries(entries));
  }

  lemma {:induction false} EntryOpens(r: Reader, entries: seq<Entry>, rest: Bytes)
    requires KnowsKeys(r) && entries != [] && |entries[0].key| < TOP
    ensures r.key(EncodeEntries(entries) + rest)
      == Ok((entries[0].key, Encode(entries[0].value) + (EncodeEntries(entries[1..]) + rest)))
  {
    var e := entries[0];
    Rearranged(HeadOf(3, |e.key|), e.key, Encode(e.value), EncodeEntries(entries[1..]), rest);
  }

  lemma {:induction false} Rearranged(h: Bytes, k: Bytes, v: Bytes, m: Bytes, rest: Bytes)
    ensures h + k + v + m + rest == h + k + (v + (m + rest))
  {
  }

  lemma {:induction false} NewKeyIsLast(acc: seq<Entry>, entries: seq<Entry>)
    requires InOrder(acc + entries) && entries != []
    ensures Inserted(acc, entries[0]) == acc + [entries[0]]
    ensures !HasKey(acc, entries[0].key)
  {
    var all, e := acc + entries, entries[0];
    forall i | 0 <= i < |acc| ensures KeyLess(acc[i].key, e.key) {
      assert all[i] == acc[i] && all[|acc|] == e;
    }
    InsertedLast(acc, e);
  }

  // --- the codec -------------------------------------------------------------------------------------------

  /** Decoding is exact: bytes decode to a value if and only if they are its encoding and it is within the limits. */
  lemma {:induction false} DecodesExactly(l: Limits, b: Bytes, v: Value)
    requires WellFormed(v)
    ensures Decode(l, b) == Ok(v) <==> b == Encode(v) && Depth(v) <= l.depth && Count(v) <= l.items
  {
    OurReaderKnows();
    ValueReads(READER, l, v, [], 0, l.items);
    BrokenLimitIsNamed(l, v, 0, l.items);
    assert Encode(v) + [] == Encode(v);
  }

  /** A value over the limits is refused with the error of a limit it breaks, the first one in the order it is read. */
  lemma {:induction false} RefusalNamesTheLimit(l: Limits, v: Value)
    requires WellFormed(v) && (Depth(v) > l.depth || Count(v) > l.items)
    ensures var e := Decode(l, Encode(v));
      && e.Err? && Breaks(l, v, 0, l.items) == Some(e.error)
      && ((e.error == TooDeep && Depth(v) > l.depth) || (e.error == TooManyItems && Count(v) > l.items))
  {
    OurReaderKnows();
    ValueReads(READER, l, v, [], 0, l.items);
    BrokenLimitIsNamed(l, v, 0, l.items);
    assert Encode(v) + [] == Encode(v);
  }

  /** Distinct values have distinct encodings. */
  lemma {:induction false} EncodingIsInjective(v: Value, w: Value)
    requires WellFormed(v) && WellFormed(w) && Encode(v) == Encode(w)
    ensures v == w
  {
    var l := Limits(Max(Depth(v), Depth(w)), Max(Count(v), Count(w)));
    DecodesExactly(l, Encode(v), v);
    DecodesExactly(l, Encode(w), w);
  }

  // --- what the reader can give ---------------------------------------------------------------------------------

  predicate HasNaN(v: Value) {
    match v
    case Real(d) => IsNaN(d)
    case Array(items) => exists x <- items :: HasNaN(x)
    case Map(entries) => exists e <- entries :: HasNaN(e.value)
    case _ => false
  }

  ghost predicate Fine(v: Value) { WellFormed(v) || HasNaN(v) }

  lemma {:induction false} LessIsTotal(a: Bytes, b: Bytes)
    requires |a| == |b| && !BytewiseLess(a, b) && a != b
    ensures BytewiseLess(b, a)
  {
    if a != [] && a[0] == b[0] {
      assert a == [a[0]] + a[1..] && b == [b[0]] + b[1..];
      LessIsTotal(a[1..], b[1..]);
    }
  }

  lemma {:induction false} LessCarries(a: Bytes, b: Bytes, c: Bytes)
    requires BytewiseLess(a, b) && BytewiseLess(b, c)
    ensures BytewiseLess(a, c)
  {
    if a != [] && a[0] == b[0] == c[0] {
      LessCarries(a[1..], b[1..], c[1..]);
    }
  }

  lemma {:induction false} KeysCarry(a: Bytes, b: Bytes, c: Bytes)
    requires KeyLess(a, b) && KeyLess(b, c)
    ensures KeyLess(a, c)
  {
    if |a| == |b| == |c| {
      LessCarries(a, b, c);
    }
  }

  lemma {:induction false} KeysAreTotal(a: Bytes, b: Bytes)
    requires !KeyLess(a, b) && a != b
    ensures KeyLess(b, a)
  {
    if |a| == |b| {
      LessIsTotal(a, b);
    }
  }

  lemma {:induction false} InsertedElements(entries: seq<Entry>, e: Entry, x: Entry)
    ensures x in Inserted(entries, e) <==> x in entries || x == e
  {
    if entries != [] && !KeyLess(e.key, entries[0].key) {
      InsertedElements(entries[1..], e, x);
      assert entries == [entries[0]] + entries[1..];
    }
  }

  ghost predicate AllAbove(key: Bytes, entries: seq<Entry>) { forall x <- entries :: KeyLess(key, x.key) }

  lemma {:induction false} ConsInOrder(e: Entry, entries: seq<Entry>)
    requires InOrder(entries) && AllAbove(e.key, entries)
    ensures InOrder([e] + entries)
  {
    var all := [e] + entries;
    forall i, j | 0 <= i < j < |all| ensures KeyLess(all[i].key, all[j].key) {
      assert all[j] == entries[j - 1] && entries[j - 1] in entries;
      assert i > 0 ==> all[i] == entries[i - 1];
    }
  }

  /** An ordered map stays ordered when a key it does not have goes in its place. */
  lemma {:induction false} InsertedInOrder(entries: seq<Entry>, e: Entry)
    requires InOrder(entries) && !HasKey(entries, e.key)
    ensures InOrder(Inserted(entries, e))
  {
    if entries != [] {
      var first, rest := entries[0], entries[1..];
      assert AllAbove(first.key, rest);
      if KeyLess(e.key, first.key) {
        forall x <- entries ensures KeyLess(e.key, x.key) {
          if x != first {
            assert entries == [first] + rest;
            KeysCarry(e.key, first.key, x.key);
          }
        }
        ConsInOrder(e, entries);
      } else {
        KeysAreTotal(e.key, first.key);
        InsertedInOrder(rest, e);
        forall x <- Inserted(rest, e) ensures KeyLess(first.key, x.key) {
          InsertedElements(rest, e, x);
        }
        ConsInOrder(first, Inserted(rest, e));
      }
    }
  }

  /** A reader whose leaves are values, and whose counts and keys are in range. */
  ghost predicate Sane(r: Reader) {
    && (forall b :: r.next(b).Some? ==>
          match r.next(b).value.0
          case Leaf(v) => Fine(v)
          case OpenArray(n) => n < TOP
          case OpenMap(n) => n < TOP
          case _ => true)
    && (forall b :: r.key(b).Ok? ==> |r.key(b).value.0| < TOP)
  }

  lemma {:induction false} ReadIsFine(r: Reader, l: Limits, b: Bytes, depth: nat, budget: nat)
    requires Sane(r)
    ensures var g := ReadValue(r, l, b, depth, budget); g.Ok? ==> Fine(g.value.value)
    decreases budget, 0
  {
    var next := r.next(b);
    if next.Some? && depth <= l.depth && budget > 0 {
      var (item, rest) := next.value;
      match item
      case OpenArray(n) => ReadItemsAreFine(r, l, n, rest, depth + 1, budget - 1);
      case OpenMap(n) => ReadEntriesAreFine(r, l, n, rest, depth + 1, budget - 1, []);
      case _ =>
    }
  }

  lemma {:induction false} ReadItemsAreFine(r: Reader, l: Limits, n: nat, b: Bytes, depth: nat, budget: nat)
    requires Sane(r)
    ensures var g := ReadItems(r, l, n, b, depth, budget);
      g.Ok? ==> |g.value.value| == n && forall x <- g.value.value :: Fine(x)
    decreases budget, 1
  {
    if n > 0 {
      ReadIsFine(r, l, b, depth, budget);
      var first := ReadValue(r, l, b, depth, budget);
      if first.Ok? {
        ReadItemsAreFine(r, l, n - 1, first.value.rest, depth, first.value.budget);
      }
    }
  }

  ghost predicate FineEntries(entries: seq<Entry>, n: nat) {
    |entries| == n && InOrder(entries) && forall e <- entries :: |e.key| < TOP && Fine(e.value)
  }

  lemma {:induction false} InsertedLength(entries: seq<Entry>, e: Entry)
    ensures |Inserted(entries, e)| == |entries| + 1
  {
    if entries != [] {
      InsertedLength(entries[1..], e);
    }
  }

  lemma {:induction false} InsertedAreFine(entries: seq<Entry>, e: Entry, n: nat)
    requires FineEntries(entries, n) && |e.key| < TOP && Fine(e.value) && !HasKey(entries, e.key)
    ensures FineEntries(Inserted(entries, e), n + 1)
  {
    InsertedLength(entries, e);
    InsertedInOrder(entries, e);
    forall x <- Inserted(entries, e) ensures |x.key| < TOP && Fine(x.value) {
      InsertedElements(entries, e, x);
    }
  }

  lemma {:induction false} ReadEntriesAreFine(
    r: Reader, l: Limits, n: nat, b: Bytes, depth: nat, budget: nat, acc: seq<Entry>)
    requires Sane(r) && FineEntries(acc, |acc|)
    ensures var g := ReadEntries(r, l, n, b, depth, budget, acc); g.Ok? ==> FineEntries(g.value.value, |acc| + n)
    decreases budget, 1
  {
    if n > 0 {
      var key := r.key(b);
      if key.Ok? {
        ReadIsFine(r, l, key.value.1, depth, budget);
        var first := ReadValue(r, l, key.value.1, depth, budget);
        if first.Ok? && !HasKey(acc, key.value.0) {
          var e := Entry(key.value.0, first.value.value);
          InsertedAreFine(acc, e, |acc|);
          ReadEntriesAreFine(r, l, n - 1, first.value.rest, depth, first.value.budget, Inserted(acc, e));
        }
      }
    }
  }

  /** What is accepted is a well-formed value within the limits, in its own encoding. */
  lemma {:induction false} AcceptedIsCanonical(l: Limits, b: Bytes)
    requires Decode(l, b).Ok? && !HasNaN(Decode(l, b).value)
    ensures var v := Decode(l, b).value; WellFormed(v) && b == Encode(v) && Depth(v) <= l.depth && Count(v) <= l.items
  {
    OurReaderIsSane();
    ReadIsFine(READER, l, b, 0, l.items);
    DecodesExactly(l, b, Decode(l, b).value);
  }

  lemma {:induction false} OurReaderIsSane()
    ensures Sane(READER)
  {
    forall b | NextItem(b).Some?
      ensures match NextItem(b).value.0
        case Leaf(v) => Fine(v)
        case OpenArray(n) => n < TOP
        case OpenMap(n) => n < TOP
        case _ => true
    {
      NextIsSane(b);
    }
    forall b | ReadKey(b).Ok? ensures |ReadKey(b).value.0| < TOP {
      HeadIsSane(b);
    }
  }

  lemma {:induction false} HeadIsSane(b: Bytes)
    requires ReadHead(b).Some?
    ensures var h := ReadHead(b).value;
      h.n < TOP && (h.info == 25 ==> h.n < 0x1_0000) && (h.info == 26 ==> h.n < 0x1_0000_0000)
  {
    Widths();
  }

  lemma {:induction false} NextIsSane(b: Bytes)
    requires NextItem(b).Some?
    ensures match NextItem(b).value.0
      case Leaf(v) => Fine(v)
      case OpenArray(n) => n < TOP
      case OpenMap(n) => n < TOP
      case _ => true
  {
    HeadIsSane(b);
    var h := ReadHead(b).value;
    if h.major == 7 && h.info == 25 {
      WidenNarrows(HALF, HalfOf(h.n));
    } else if h.major == 7 && h.info == 26 {
      WidenNarrows(SINGLE, SingleOf(h.n));
    }
  }

  // --- section 4.2.1 key order -------------------------------------------------------------------------------

  lemma {:induction false} SamePrefix(p: Bytes, a: Bytes, b: Bytes)
    ensures BytewiseLess(p + a, p + b) <==> BytewiseLess(a, b)
  {
    if p == [] {
      assert p + a == a && p + b == b;
    } else {
      assert (p + a)[1..] == p[1..] + a && (p + b)[1..] == p[1..] + b;
      SamePrefix(p[1..], a, b);
    }
  }

  /** Of two big-endian numbers of one width the smaller is bytewise first, whatever follows. */
  lemma {:induction false} SmallerIsFirst(n: nat, m: nat, k: nat, a: Bytes, b: Bytes)
    requires n < m < Lim(k)
    ensures BytewiseLess(Big(n, k) + a, Big(m, k) + b)
  {
    var x, y := Big(n / 256, k - 1), Big(m / 256, k - 1);
    assert Big(n, k) + a == x + ([n % 256] + a) && Big(m, k) + b == y + ([m % 256] + b);
    if n / 256 < m / 256 {
      SmallerIsFirst(n / 256, m / 256, k - 1, [n % 256] + a, [m % 256] + b);
    } else {
      SamePrefix(x, [n % 256] + a, [m % 256] + b);
    }
  }

  lemma {:induction false} ShorterHeadIsFirst(n: nat, m: nat, a: Bytes, b: Bytes)
    requires n < m < TOP
    ensures BytewiseLess(HeadOf(3, n) + a, HeadOf(3, m) + b)
  {
    Widths();
    var x, y := HeadOf(3, n) + a, HeadOf(3, m) + b;
    if InfoOf(n) == InfoOf(m) {
      var k := ArgumentBytes(n);
      SmallerIsFirst(n, m, k, a, b);
      assert x[1..] == Big(n, k) + a && y[1..] == Big(m, k) + b;
    }
  }

  /** The codec's key order is the bytewise order of the encoded keys. */
  lemma {:induction false} KeyOrderIsBytewise(a: Bytes, b: Bytes)
    requires |a| < TOP && |b| < TOP
    ensures KeyLess(a, b) <==> BytewiseLess(Encode(Text(a)), Encode(Text(b)))
  {
    if |a| < |b| {
      ShorterHeadIsFirst(|a|, |b|, a, b);
    } else if |b| < |a| {
      ShorterHeadIsFirst(|b|, |a|, b, a);
      LessIsOneWay(Encode(Text(b)), Encode(Text(a)));
    } else {
      SamePrefix(HeadOf(3, |a|), a, b);
    }
  }
}
