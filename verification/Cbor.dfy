/** The CBOR codec of the wire (Cbor.cpp): deterministic encoding, and a bounded reader that accepts nothing else. */
module Cbor {
  import opened Core
  import opened Floats
  import opened CborFormat

  /** Integers are one alternative here: which of the two storages holds one follows from its value. A map is its
      entries in canonical key order. */
  datatype Value =
    | Null
    | Bool(b: bool)
    | Int(n: int)
    | Real(d: Double)
    | Text(s: Bytes)
    | Blob(s: Bytes)
    | Array(items: seq<Value>)
    | Map(entries: seq<Entry>)

  datatype Entry = Entry(key: Bytes, value: Value)

  datatype CborError = Malformed | NotCanonical | TooDeep | TooManyItems | TrailingBytes | UnsupportedType

  datatype Limits = Limits(depth: nat, items: nat)

  // --- key order -----------------------------------------------------------------------------------

  predicate BytewiseLess(a: Bytes, b: Bytes) {
    b != [] && (a == [] || a[0] < b[0] || (a[0] == b[0] && BytewiseLess(a[1..], b[1..])))
  }

  /** Shorter keys first, then bytewise. */
  predicate KeyLess(a: Bytes, b: Bytes) { if |a| != |b| then |a| < |b| else BytewiseLess(a, b) }

  predicate InOrder(entries: seq<Entry>) {
    forall i, j :: 0 <= i < j < |entries| ==> KeyLess(entries[i].key, entries[j].key)
  }

  predicate WellFormed(v: Value) {
    match v
    case Null => true
    case Bool(_) => true
    case Int(n) => -0x8000_0000_0000_0000 <= n < TOP
    case Real(d) => IsDouble(d) && !IsNaN(d)
    case Text(s) => |s| < TOP
    case Blob(s) => |s| < TOP
    case Array(items) => |items| < TOP && forall x <- items :: WellFormed(x)
    case Map(entries) =>
      |entries| < TOP && InOrder(entries) && forall e <- entries :: |e.key| < TOP && WellFormed(e.value)
  }

  // --- encoding --------------------------------------------------------------------------------------

  function Encode(v: Value): (b: Bytes)
    ensures b != []
    decreases v
  {
    match v
    case Null => [0xF6]
    case Bool(b) => [if b then 0xF5 else 0xF4]
    case Int(n) => if n >= 0 then HeadOf(0, n) else HeadOf(1, -1 - n)
    case Real(d) => FloatBytes(Preferred(d))
    case Text(s) => HeadOf(3, |s|) + s
    case Blob(s) => HeadOf(2, |s|) + s
    case Array(items) => HeadOf(4, |items|) + EncodeItems(items)
    case Map(entries) => HeadOf(5, |entries|) + EncodeEntries(entries)
  }

  function EncodeItems(items: seq<Value>): Bytes
    decreases items
  {
    if items == [] then [] else Encode(items[0]) + EncodeItems(items[1..])
  }

  function EncodeEntries(entries: seq<Entry>): Bytes
    decreases entries
  {
    if entries == [] then []
    else HeadOf(3, |entries[0].key|) + entries[0].key + Encode(entries[0].value) + EncodeEntries(entries[1..])
  }

  // --- reading ------------------------------------------------------------------------------------------

  /** What the byte-level reader hands over: a leaf, the opening of a container, or something outside the subset. */
  datatype Item = Leaf(v: Value) | OpenArray(n: nat) | OpenMap(n: nat) | Indefinite | Foreign

  function StringAt(h: Head, b: Bytes): Option<(Bytes, Bytes)>
    requires 0 < h.size <= |b|
  {
    if h.info == 31 || |b| - h.size < h.n then None else Some((b[h.size..h.size + h.n], b[h.size + h.n..]))
  }

  function SimpleOrFloat(h: Head): Option<Item> {
    if h.info == 20 then Some(Leaf(Bool(false)))
    else if h.info == 21 then Some(Leaf(Bool(true)))
    else if h.info == 22 then Some(Leaf(Null))
    else if (h.info == 25 && h.n < 0x1_0000) || (h.info == 26 && h.n < 0x1_0000_0000) || (h.info == 27 && h.n < TOP)
    then Some(Leaf(Real(FloatRead(h))))
    else if h.info == 31 then None
    else Some(Foreign)
  }

  function NextItem(b: Bytes): Option<(Item, Bytes)> {
    var head := ReadHead(b);
    if head.None? then None
    else
      var h := head.value;
      var rest := b[h.size..];
      if h.major == 0 then (if h.info == 31 then None else Some((Leaf(Int(h.n)), rest)))
      else if h.major == 1 then
        if h.info == 31 || h.n >= 0x8000_0000_0000_0000 then None else Some((Leaf(Int(-1 - h.n)), rest))
      else if h.major == 2 || h.major == 3 then
        var s := StringAt(h, b);
        if s.None? then None else Some((Leaf(if h.major == 2 then Blob(s.value.0) else Text(s.value.0)), s.value.1))
      else if h.major == 4 then Some((if h.info == 31 then Indefinite else OpenArray(h.n), rest))
      else if h.major == 5 then Some((if h.info == 31 then Indefinite else OpenMap(h.n), rest))
      else if h.major == 6 then Some((Foreign, rest))
      else
        var item := SimpleOrFloat(h);
        if item.None? then None else Some((item.value, rest))
  }

  /** A text key. */
  function ReadKey(b: Bytes): Result<(Bytes, Bytes), CborError> {
    var head := ReadHead(b);
    if head.None? then Err(Malformed)
    else if head.value.major != 3 then Err(UnsupportedType)
    else match StringAt(head.value, b)
      case None => Err(Malformed)
      case Some(s) => Ok(s)
  }

  predicate HasKey(entries: seq<Entry>, key: Bytes) {
    entries != [] && (entries[0].key == key || HasKey(entries[1..], key))
  }

  /** An ordered map takes a new key in its place. */
  function Inserted(entries: seq<Entry>, e: Entry): seq<Entry> {
    if entries == [] then [e]
    else if KeyLess(e.key, entries[0].key) then [e] + entries
    else [entries[0]] + Inserted(entries[1..], e)
  }

  /** The byte-level reader: the next item and what follows it, and the next key. */
  datatype Reader = Reader(next: Bytes -> Option<(Item, Bytes)>, key: Bytes -> Result<(Bytes, Bytes), CborError>)

  datatype Got<T> = Got(value: T, rest: Bytes, budget: nat)

  function ReadValue(r: Reader, l: Limits, b: Bytes, depth: nat, budget: nat): (g: Result<Got<Value>, CborError>)
    ensures g.Ok? ==> g.value.budget < budget
    decreases budget, 0
  {
    var next := r.next(b);
    if next.None? then Err(Malformed)
    else if depth > l.depth then Err(TooDeep)
    else if budget == 0 then Err(TooManyItems)
    else
      var (item, rest) := next.value;
      match item
      case Leaf(v) => Ok(Got(v, rest, budget - 1))
      case OpenArray(n) =>
        (match ReadItems(r, l, n, rest, depth + 1, budget - 1)
         case Ok(g) => Ok(Got(Array(g.value), g.rest, g.budget))
         case Err(e) => Err(e))
      case OpenMap(n) =>
        (match ReadEntries(r, l, n, rest, depth + 1, budget - 1, [])
         case Ok(g) => Ok(Got(Map(g.value), g.rest, g.budget))
         case Err(e) => Err(e))
      case Indefinite => Err(NotCanonical)
      case Foreign => Err(UnsupportedType)
  }

  function ReadItems(
    r: Reader, l: Limits, n: nat, b: Bytes, depth: nat, budget: nat): (g: Result<Got<seq<Value>>, CborError>)
    ensures g.Ok? ==> g.value.budget <= budget
    decreases budget, 1
  {
    if n == 0 then Ok(Got([], b, budget))
    else match ReadValue(r, l, b, depth, budget)
      case Err(e) => Err(e)
      case Ok(first) =>
        match ReadItems(r, l, n - 1, first.rest, depth, first.budget)
        case Err(e) => Err(e)
        case Ok(more) => Ok(Got([first.value] + more.value, more.rest, more.budget))
  }

  function ReadEntries(r: Reader, l: Limits, n: nat, b: Bytes, depth: nat, budget: nat, acc: seq<Entry>)
    : (g: Result<Got<seq<Entry>>, CborError>)
    ensures g.Ok? ==> g.value.budget <= budget
    decreases budget, 1
  {
    if n == 0 then Ok(Got(acc, b, budget))
    else match r.key(b)
      case Err(e) => Err(e)
      case Ok(key) =>
        match ReadValue(r, l, key.1, depth, budget)
        case Err(e) => Err(e)
        case Ok(first) =>
          if HasKey(acc, key.0) then Err(NotCanonical)
          else ReadEntries(r, l, n - 1, first.rest, depth, first.budget, Inserted(acc, Entry(key.0, first.value)))
  }

  const READER := Reader(NextItem, ReadKey)

  /** One item, nothing after it, and exactly the bytes its own encoding has. */
  function Decode(l: Limits, b: Bytes): Result<Value, CborError> {
    match ReadValue(READER, l, b, 0, l.items)
    case Err(e) => Err(e)
    case Ok(g) =>
      if g.rest != [] then Err(TrailingBytes) else if Encode(g.value) != b then Err(NotCanonical) else Ok(g.value)
  }

  // --- what the limits count ------------------------------------------------------------------------------

  function Depth(v: Value): nat
    decreases v
  {
    match v
    case Array(items) => if items == [] then 0 else 1 + DepthOfItems(items)
    case Map(entries) => if entries == [] then 0 else 1 + DepthOfEntries(entries)
    case _ => 0
  }

  function Max(a: nat, b: nat): nat { if a < b then b else a }

  function DepthOfItems(items: seq<Value>): nat
    decreases items
  {
    if items == [] then 0 else Max(Depth(items[0]), DepthOfItems(items[1..]))
  }

  function DepthOfEntries(entries: seq<Entry>): nat
    decreases entries
  {
    if entries == [] then 0 else Max(Depth(entries[0].value), DepthOfEntries(entries[1..]))
  }

  function Count(v: Value): (n: nat)
    ensures n > 0
    decreases v
  {
    match v
    case Array(items) => 1 + CountOfItems(items)
    case Map(entries) => 1 + CountOfEntries(entries)
    case _ => 1
  }

  function CountOfItems(items: seq<Value>): nat
    decreases items
  {
    if items == [] then 0 else Count(items[0]) + CountOfItems(items[1..])
  }

  function CountOfEntries(entries: seq<Entry>): nat
    decreases entries
  {
    if entries == [] then 0 else Count(entries[0].value) + CountOfEntries(entries[1..])
  }
}
