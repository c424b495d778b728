/** Short labels that tell a roster's readers apart (ReaderLabels.cpp). How one PC/SC name is taken apart and shortened
    is a parameter; what is done with the parts over the whole roster is not. */
module ReaderLabels {
  import opened Core
  import opened Text

  datatype Interface = Unknown | Contact | Contactless

  datatype Label = Label(model: string, iface: Interface)

  datatype Name = Name(base: string, serial: string)

  datatype NameReader = NameReader(split: string -> Name, modelOf: string -> string, contactless: string -> bool)

  // --- the label before disambiguation -----------------------------------------------------------------

  /** The distinct names that carry a serial. */
  function SlotsOf(r: NameReader, names: seq<string>, serial: string): set<string> {
    set raw | raw in names && r.split(raw).serial == serial
  }

  function Plain(r: NameReader, names: seq<string>, raw: string): Label {
    var name := r.split(raw);
    var model := r.modelOf(name.base);
    Label(if model == "" then raw else model,
          if r.contactless(name.base) then Contactless
          else if name.serial != "" && |SlotsOf(r, names, name.serial)| > 1 then Contact
          else Unknown)
  }

  function Sharing(r: NameReader, names: seq<string>, tag: Label): set<string> {
    set raw | raw in names && Plain(r, names, raw) == tag
  }

  predicate Collides(r: NameReader, names: seq<string>, raw: string) { |Sharing(r, names, Plain(r, names, raw))| > 1 }

  function PlainLabels(r: NameReader, names: seq<string>): set<Label> { set raw | raw in names :: Plain(r, names, raw) }

  // --- a label of its own ---------------------------------------------------------------------------------

  function Suffixed(base: string, tag: string): string { base + " (" + tag + ")" }

  function Tail(serial: string): string { if |serial| <= 4 then serial else serial[|serial| - 4..] }

  function Numbered(base: string, iface: Interface, position: nat): Label {
    Label(Suffixed(base, Decimal(position)), iface)
  }

  lemma {:induction false} NumbersDiffer(base: string, iface: Interface, p: nat, q: nat)
    requires Numbered(base, iface, p) == Numbered(base, iface, q)
    ensures p == q
  {
    var a, b, n := Numbered(base, iface, p).model, Numbered(base, iface, q).model, |base| + 2;
    assert a[n..|a| - 1] == Decimal(p) && b[n..|b| - 1] == Decimal(q);
  }

  /** The first position whose label is free. Each one tried and found taken is crossed off, so the search ends. */
  function FirstFree(base: string, iface: Interface, taken: set<Label>, position: nat): nat
    decreases |taken|
  {
    var c := Numbered(base, iface, position);
    if c in taken then FirstFree(base, iface, taken - {c}, position + 1) else position
  }

  lemma {:induction false} FirstFreeIsFree(base: string, iface: Interface, taken: set<Label>, position: nat)
    ensures var p := FirstFree(base, iface, taken, position);
      && position <= p && Numbered(base, iface, p) !in taken
      && forall q :: position <= q < p ==> Numbered(base, iface, q) in taken
    decreases |taken|
  {
    var c := Numbered(base, iface, position);
    if c in taken {
      FirstFreeIsFree(base, iface, taken - {c}, position + 1);
      var p := FirstFree(base, iface, taken, position);
      if Numbered(base, iface, p) == c {
        NumbersDiffer(base, iface, p, position);
      }
    }
  }

  /** The serial's last characters if that label is free, else the first free position from its own. */
  function Chosen(plain: Label, serial: string, taken: set<Label>, position: nat): Label {
    var tagged := Label(Suffixed(plain.model, Tail(serial)), plain.iface);
    if serial != "" && tagged !in taken then tagged
    else Numbered(plain.model, plain.iface, FirstFree(plain.model, plain.iface, taken, position))
  }

  lemma {:induction false} ChosenIsFree(plain: Label, serial: string, taken: set<Label>, position: nat)
    ensures Chosen(plain, serial, taken, position) !in taken
    ensures Chosen(plain, serial, taken, position).iface == plain.iface
  {
    FirstFreeIsFree(plain.model, plain.iface, taken, position);
  }

  // --- the roster --------------------------------------------------------------------------------------------

  /** The labels given out so far, and the names that got one of their own. */
  datatype Board = Board(taken: set<Label>, settled: map<string, string>)

  function BoardAfter(r: NameReader, names: seq<string>, n: nat): Board
    requires n <= |names|
  {
    if n == 0 then Board(PlainLabels(r, names), map[])
    else
      var b, raw := BoardAfter(r, names, n - 1), names[n - 1];
      if raw in b.settled || !Collides(r, names, raw) then b
      else
        var tag := Chosen(Plain(r, names, raw), r.split(raw).serial, b.taken, n);
        Board(b.taken + {tag}, b.settled[raw := tag.model])
  }

  function LabelOf(r: NameReader, names: seq<string>, raw: string, settled: map<string, string>): Label {
    var plain := Plain(r, names, raw);
    if raw in settled then plain.(model := settled[raw]) else plain
  }

  function Labels(r: NameReader, names: seq<string>): (labels: seq<Label>)
    ensures |labels| == |names|
  {
    seq(|names|, i requires 0 <= i < |names| => LabelOf(r, names, names[i], BoardAfter(r, names, |names|).settled))
  }

  // --- no two readers share a label -----------------------------------------------------------------------------

  ghost predicate BoardSound(r: NameReader, names: seq<string>, b: Board, n: nat)
    requires n <= |names|
  {
    && PlainLabels(r, names) <= b.taken
    && (forall raw <- b.settled :: LabelOf(r, names, raw, b.settled) in b.taken - PlainLabels(r, names))
    && (forall raw <- b.settled, other <- b.settled ::
          LabelOf(r, names, raw, b.settled) == LabelOf(r, names, other, b.settled) ==> raw == other)
    && (forall i :: 0 <= i < n && Collides(r, names, names[i]) ==> names[i] in b.settled)
  }

  lemma {:induction false} EnteringKeepsSound(r: NameReader, names: seq<string>, b: Board, n: nat, tag: Label)
    requires n < |names| && BoardSound(r, names, b, n) && names[n] !in b.settled
    requires tag !in b.taken && tag.iface == Plain(r, names, names[n]).iface
    ensures BoardSound(r, names, Board(b.taken + {tag}, b.settled[names[n] := tag.model]), n + 1)
  {
    var after := b.settled[names[n] := tag.model];
    assert LabelOf(r, names, names[n], after) == tag;
    assert forall raw <- b.settled :: LabelOf(r, names, raw, after) == LabelOf(r, names, raw, b.settled);
  }

  lemma {:induction false} BoardIsSound(r: NameReader, names: seq<string>, n: nat)
    requires n <= |names|
    ensures BoardSound(r, names, BoardAfter(r, names, n), n)
  {
    if n > 0 {
      BoardIsSound(r, names, n - 1);
      var b, raw := BoardAfter(r, names, n - 1), names[n - 1];
      if raw !in b.settled && Collides(r, names, raw) {
        var plain, serial := Plain(r, names, raw), r.split(raw).serial;
        ChosenIsFree(plain, serial, b.taken, n);
        EnteringKeepsSound(r, names, b, n - 1, Chosen(plain, serial, b.taken, n));
      }
    }
  }

  lemma {:induction false} SharedPlainCollides(r: NameReader, names: seq<string>, raw: string, other: string)
    requires raw in names && other in names && raw != other && Plain(r, names, raw) == Plain(r, names, other)
    ensures Collides(r, names, raw)
  {
    var s := Sharing(r, names, Plain(r, names, raw));
    var rest := s - {raw, other};
    assert s == rest + {raw, other};
    assert |s| == |rest| + 2;
  }

  /** Two readers have the same label exactly when they are the same name listed twice. */
  lemma {:induction false} LabelsTellReadersApart(r: NameReader, names: seq<string>, i: nat, j: nat)
    requires i < |names| && j < |names|
    ensures Labels(r, names)[i] == Labels(r, names)[j] <==> names[i] == names[j]
  {
    BoardIsSound(r, names, |names|);
    var b := BoardAfter(r, names, |names|);
    assert Plain(r, names, names[i]) in PlainLabels(r, names) && Plain(r, names, names[j]) in PlainLabels(r, names);
    if names[i] != names[j] && Plain(r, names, names[i]) == Plain(r, names, names[j]) {
      SharedPlainCollides(r, names, names[i], names[j]);
      SharedPlainCollides(r, names, names[j], names[i]);
    }
  }

  // --- the loops ------------------------------------------------------------------------------------------------

  /** The disambiguation loop. It ends because the labels it finds taken are distinct. */
  method FreeLabel(plain: Label, serial: string, taken: set<Label>, start: nat) returns (tag: Label)
    ensures tag == Chosen(plain, serial, taken, start)
  {
    if serial != "" {
      tag := Label(Suffixed(plain.model, Tail(serial)), plain.iface);
      if tag !in taken {
        return;
      }
    }
    var position := start;
    tag := Numbered(plain.model, plain.iface, position);
    var untried := taken;
    while tag in taken
      invariant tag == Numbered(plain.model, plain.iface, position) && untried <= taken
      invariant forall q :: position <= q && Numbered(plain.model, plain.iface, q) in taken ==>
        Numbered(plain.model, plain.iface, q) in untried
      invariant FirstFree(plain.model, plain.iface, untried, position)
        == FirstFree(plain.model, plain.iface, taken, start)
      decreases |untried|
    {
      assert Numbered(plain.model, plain.iface, position) in untried;
      untried := untried - {tag};
      position := position + 1;
      forall q | position <= q && Numbered(plain.model, plain.iface, q) == tag ensures false {
        NumbersDiffer(plain.model, plain.iface, q, position - 1);
      }
      tag := Numbered(plain.model, plain.iface, position);
    }
  }

  method Disambiguate(r: NameReader, names: seq<string>, plain: seq<Label>) returns (settled: map<string, string>)
    requires |plain| == |names| && forall i :: 0 <= i < |names| ==> plain[i] == Plain(r, names, names[i])
    ensures settled == BoardAfter(r, names, |names|).settled
  {
    var taken: set<Label> := set i | 0 <= i < |plain| :: plain[i];
    assert taken == PlainLabels(r, names) by {
      forall raw | raw in names ensures Plain(r, names, raw) in taken {
        var i :| 0 <= i < |names| && names[i] == raw;
        assert plain[i] in taken;
      }
    }
    settled := map[];
    var i := 0;
    while i < |names|
      invariant 0 <= i <= |names| && BoardAfter(r, names, i) == Board(taken, settled)
    {
      var raw := names[i];
      if raw !in settled && Collides(r, names, raw) {
        var tag := FreeLabel(plain[i], r.split(raw).serial, taken, i + 1);
        taken := taken + {tag};
        settled := settled[raw := tag.model];
      }
      i := i + 1;
    }
  }

  method ReaderIdentities(r: NameReader, names: seq<string>) returns (labels: seq<Label>)
    ensures labels == Labels(r, names)
  {
    var plain := PlainOnes(r, names);
    var settled := Disambiguate(r, names, plain);
    labels := [];
    var i := 0;
    while i < |names|
      invariant 0 <= i <= |names| && |labels| == i
      invariant forall k :: 0 <= k < i ==> labels[k] == LabelOf(r, names, names[k], settled)
    {
      labels := labels + [if names[i] in settled then plain[i].(model := settled[names[i]]) else plain[i]];
      i := i + 1;
    }
  }

  method PlainOnes(r: NameReader, names: seq<string>) returns (plain: seq<Label>)
    ensures |plain| == |names| && forall i :: 0 <= i < |names| ==> plain[i] == Plain(r, names, names[i])
  {
    plain := [];
    var i := 0;
    while i < |names|
      invariant 0 <= i <= |names| && |plain| == i && forall k :: 0 <= k < i ==> plain[k] == Plain(r, names, names[k])
    {
      plain := plain + [Plain(r, names, names[i])];
      i := i + 1;
    }
  }
}
