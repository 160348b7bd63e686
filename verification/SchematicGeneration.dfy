/** Builds the schematic of a layout, and shows that its simulations are always consistent. */
module SchematicGeneration {
  import opened Wrappers
  import opened ElementLogic
  import opened Schematics
  import LayoutMessages

  const EPSILON := 1
  const WIRE_WITHOUT_INPUT_DELAY := 1
  const NO_HISTORY := 0

  /** A logic item with the flags of its inverted outputs. */
  datatype LayoutItem = LayoutItem(inserted: bool, data: NewElement, outputInverted: seq<bool>)

  /** The lengths from the input of a wire, if it has one, to its outputs. */
  datatype LayoutWire = LayoutWire(hasInput: bool, outputLengths: seq<nat>)

  datatype Link = Link(input: Input, output: Output)

  /** A layout, and for each wire the connections that were found at its end points. */
  datatype Layout = Layout(items: seq<LayoutItem>, wires: seq<LayoutWire>, found: seq<seq<Link>>)

  ghost predicate IsLayout(layout: Layout) {
    && |layout.found| == |layout.wires|
    && (forall item :: item in layout.items ==>
          IsLogicItem(item.data.elementType) && |item.outputInverted| == item.data.outputCount)
  }

  //
  // Ids
  //

  /** Logic items keep their ids, and the ids of wires follow. */
  function ItemElementId(item: nat): nat { item }

  function WireElementId(layout: Layout, wire: nat): nat { |layout.items| + wire }

  function ToItemId(layout: Layout, element: nat): Option<nat> {
    if element >= |layout.items| then None else Some(element)
  }

  function ToWireId(layout: Layout, element: nat): Option<nat> {
    if element < |layout.items| then None else Some(element - |layout.items|)
  }

  /** Every element id is that of exactly one logic item or wire, and the conversions are inverse to each other. */
  lemma IdsRoundTrip(layout: Layout, id: nat)
    ensures id < |layout.items| ==> ToItemId(layout, ItemElementId(id)) == Some(id)
    ensures ToWireId(layout, WireElementId(layout, id)) == Some(id)
    ensures ToItemId(layout, id).Some? <==> ToWireId(layout, id).None?
    ensures ToItemId(layout, id).Some? ==> ItemElementId(ToItemId(layout, id).value) == id
    ensures ToWireId(layout, id).Some? ==> WireElementId(layout, ToWireId(layout, id).value) == id
  {
  }

  //
  // Elements
  //

  const UNUSED_ELEMENT := NewElement(Unused, 0, 0, [], [], NO_HISTORY)
  const PLACEHOLDER_ELEMENT := NewElement(Placeholder, 1, 0, [false], [], NO_HISTORY)

  function Largest(delays: seq<int>): int {
    if delays == [] then 0
    else
      var rest := Largest(delays[..|delays| - 1]);
      if delays[|delays| - 1] > rest then delays[|delays| - 1] else rest
  }

  function OutputDelays(lengths: seq<nat>, delayPerDistance: nat): (r: seq<int>)
    ensures |r| == |lengths|
  {
    seq(|lengths|, k requires 0 <= k < |lengths| =>
      if delayPerDistance == 0 then EPSILON else delayPerDistance * lengths[k])
  }

  function WireWithInput(lengths: seq<nat>, delayPerDistance: nat): NewElement {
    var delays := OutputDelays(lengths, delayPerDistance);
    NewElement(Wire, 1, |lengths|, [false], delays, if delayPerDistance == 0 then 0 else Largest(delays))
  }

  function WireWithoutInput(outputs: nat): NewElement {
    NewElement(Wire, 0, outputs, [], seq(outputs, _ => WIRE_WITHOUT_INPUT_DELAY), NO_HISTORY)
  }

  /** The data of each element, in the order of their ids. */
  function ElementAt(layout: Layout, delayPerDistance: nat, e: nat): NewElement
    requires e < |layout.items| + |layout.wires|
  {
    if e < |layout.items| then
      if layout.items[e].inserted then layout.items[e].data else UNUSED_ELEMENT
    else
      var wire := layout.wires[e - |layout.items|];
      if e - |layout.items| < LayoutMessages.FIRST_INSERTED_WIRE then UNUSED_ELEMENT
      else if wire.hasInput then WireWithInput(wire.outputLengths, delayPerDistance)
      else WireWithoutInput(|wire.outputLengths|)
  }

  /** The circuit of the first n elements, without any connection. */
  function Elements(layout: Layout, delayPerDistance: nat, n: nat): Circuit
    requires n <= |layout.items| + |layout.wires|
  {
    if n == 0 then Circuit([], [], [], [], [], [])
    else Extended(Elements(layout, delayPerDistance, n - 1), ElementAt(layout, delayPerDistance, n - 1))
  }

  lemma {:induction false} ElementsAre(layout: Layout, delayPerDistance: nat, n: nat)
    requires n <= |layout.items| + |layout.wires|
    ensures var c := Elements(layout, delayPerDistance, n);
      && c.Size() == n && |c.inputInverters| == n && |c.inputConnections| == n && |c.outputConnections| == n
      && |c.outputDelays| == n && |c.historyLengths| == n
      && (forall e :: 0 <= e < n ==>
            var data := ElementAt(layout, delayPerDistance, e);
            && c.types[e] == data.elementType && c.inputInverters[e] == data.inputInverters
            && c.outputDelays[e] == data.outputDelays && c.historyLengths[e] == data.historyLength
            && |c.inputConnections[e]| == data.inputCount && |c.outputConnections[e]| == data.outputCount)
      && (forall i :: c.HasInput(i) ==> c.Driver(i).None?)
  {
    hide ElementAt;
    if n > 0 {
      ElementsAre(layout, delayPerDistance, n - 1);
      var before, c := Elements(layout, delayPerDistance, n - 1), Elements(layout, delayPerDistance, n);
      forall i | c.HasInput(i) ensures c.Driver(i).None? {
        if i.element < n - 1 {
          assert before.HasInput(i) && c.Driver(i) == before.Driver(i);
        }
      }
    }
  }

  /** Only logic items have inverted inputs. */
  ghost predicate OnlyItemsInverted(c: Circuit) {
    c.SameSizes() && forall i :: c.HasInput(i) && !IsLogicItem(c.types[i.element]) ==> !c.Inverted(i)
  }

  /** The elements of the layout, with the inputs of wires not inverted. */
  ghost predicate AreElementsOf(c: Circuit, layout: Layout) {
    && c.Size() >= |layout.items|
    && OnlyItemsInverted(c)
    && (forall l :: 0 <= l < |layout.items| && layout.items[l].inserted ==>
          c.types[l] == layout.items[l].data.elementType && |c.outputConnections[l]| == layout.items[l].data.outputCount)
  }

  lemma NotInverted(layout: Layout, delayPerDistance: nat, e: nat)
    requires IsLayout(layout) && e < |layout.items| + |layout.wires|
    requires !IsLogicItem(ElementAt(layout, delayPerDistance, e).elementType)
    ensures forall inverted :: inverted in ElementAt(layout, delayPerDistance, e).inputInverters ==> !inverted
  {
    hide OutputDelays, Largest;
  }

  lemma ElementsFit(layout: Layout, delayPerDistance: nat)
    requires IsLayout(layout)
    requires Elements(layout, delayPerDistance, |layout.items| + |layout.wires|).Valid()
    ensures AreElementsOf(Elements(layout, delayPerDistance, |layout.items| + |layout.wires|), layout)
  {
    hide Elements, WireWithInput, WireWithoutInput, IsLogicItem;
    var n := |layout.items| + |layout.wires|;
    var c := Elements(layout, delayPerDistance, n);
    ElementsAre(layout, delayPerDistance, n);
    forall i | c.HasInput(i) && !IsLogicItem(c.types[i.element]) ensures !c.Inverted(i) {
      NotInverted(layout, delayPerDistance, i.element);
      assert c.inputInverters[i.element][i.id] in ElementAt(layout, delayPerDistance, i.element).inputInverters;
    }
    forall l | 0 <= l < |layout.items| && layout.items[l].inserted
      ensures c.types[l] == layout.items[l].data.elementType && |c.outputConnections[l]| == layout.items[l].data.outputCount
    {
      assert ElementAt(layout, delayPerDistance, l) == layout.items[l].data;
    }
  }

  //
  // Connections
  //

  ghost predicate CanLink(c: Circuit, link: Link) {
    c.HasInput(link.input) && c.HasOutput(link.output)
  }

  /** The circuit after the links are connected one after the other, if all of them exist. */
  ghost function LinkedUp(c: Circuit, links: seq<Link>): Option<Circuit> {
    if links == [] then Some(c)
    else
      var front := LinkedUp(c, links[..|links| - 1]);
      var last := links[|links| - 1];
      if front.None? || !CanLink(front.value, last) then None else Some(Connected(front.value, last.input, last.output))
  }

  ghost predicate Independent(links: seq<Link>) {
    forall a, b :: 0 <= a < b < |links| ==> links[a].input != links[b].input && links[a].output != links[b].output
  }

  lemma {:induction false} LinkedUpValid(c: Circuit, links: seq<Link>)
    requires c.Valid() && LinkedUp(c, links).Some?
    ensures LinkedUp(c, links).value.Valid() && LinkedUp(c, links).value.OnlyConnectionsDiffer(c)
  {
    if links != [] {
      var front, last := links[..|links| - 1], links[|links| - 1];
      LinkedUpValid(c, front);
      ConnectedValid(LinkedUp(c, front).value, last.input, last.output);
      ConnectedPointwise(LinkedUp(c, front).value, last.input, last.output);
    }
  }

  ghost predicate IsLinked(c: Circuit, l: Link) {
    c.HasInput(l.input) && c.Driver(l.input) == Some(l.output)
  }

  lemma OtherLinkStays(c: Circuit, l: Link, last: Link)
    requires c.Linked() && IsLinked(c, l) && CanLink(c, last) && l.input != last.input && l.output != last.output
    ensures IsLinked(Connected(c, last.input, last.output), l)
  {
    ConnectedPointwise(c, last.input, last.output);
  }

  lemma NewLinkIsLinked(c: Circuit, last: Link)
    requires c.Linked() && CanLink(c, last)
    ensures IsLinked(Connected(c, last.input, last.output), last)
  {
    ConnectedPointwise(c, last.input, last.output);
  }

  /** Links with different ends do not disturb each other: in the end all of them are connected. */
  lemma {:induction false} IndependentLinksStay(c: Circuit, links: seq<Link>)
    requires c.Valid() && LinkedUp(c, links).Some? && Independent(links)
    ensures forall l :: l in links ==> IsLinked(LinkedUp(c, links).value, l)
  {
    hide IsLinked, Connected;
    if links != [] {
      var front, last := links[..|links| - 1], links[|links| - 1];
      LinkedUpValid(c, front);
      IndependentLinksStay(c, front);
      var was := LinkedUp(c, front).value;
      NewLinkIsLinked(was, last);
      forall a | 0 <= a < |front| ensures IsLinked(Connected(was, last.input, last.output), links[a]) {
        assert front[a] == links[a] && front[a] in front;
        OtherLinkStays(was, links[a], last);
      }
    }
  }

  /** The loops of an element to itself. */
  function InternalLinks(e: nat, pairs: seq<(nat, nat)>): seq<Link> {
    if pairs == [] then []
    else
      var (output, input) := pairs[|pairs| - 1];
      InternalLinks(e, pairs[..|pairs| - 1]) + [Link(Input(e, input), Output(e, output))]
  }

  /** The connections of one element: those inside of it, and those found for a wire. */
  function LinksOf(layout: Layout, types: seq<ElementType>, e: nat): seq<Link>
    requires e < |types|
  {
    InternalLinks(e, InternalConnections(types[e])) +
    if types[e] == Wire && |layout.items| <= e < |layout.items| + |layout.found| then layout.found[e - |layout.items|] else []
  }

  function AllLinks(layout: Layout, types: seq<ElementType>, n: nat): seq<Link>
    requires n <= |types|
  {
    if n == 0 then [] else AllLinks(layout, types, n - 1) + LinksOf(layout, types, n - 1)
  }

  lemma {:induction false} LinkedUpConcat(c: Circuit, a: seq<Link>, b: seq<Link>)
    ensures LinkedUp(c, a + b) ==
      if LinkedUp(c, a).None? then None else LinkedUp(LinkedUp(c, a).value, b)
  {
    if b == [] {
      assert a + b == a;
    } else {
      assert (a + b)[..|a + b| - 1] == a + b[..|b| - 1];
      LinkedUpConcat(c, a, b[..|b| - 1]);
    }
  }

  /** Connects a list of links; returns false if one of them does not exist. */
  method ConnectAll(schematic: Schematic, links: seq<Link>) returns (ok: bool)
    requires schematic.Valid()
    modifies schematic
    ensures schematic.Valid()
    ensures ok <==> LinkedUp(old(schematic.Value()), links).Some?
    ensures ok ==> LinkedUp(old(schematic.Value()), links) == Some(schematic.Value())
  {
    hide Connected;
    for n := 0 to |links|
      invariant schematic.Valid()
      invariant LinkedUp(old(schematic.Value()), links[..n]) == Some(schematic.Value())
    {
      assert links[..n + 1][..n] == links[..n];
      if !Exists(schematic, links[n]) {
        NoneStaysNone(old(schematic.Value()), links, n);
        return false;
      }
      schematic.Connect(links[n].input, links[n].output);
    }
    assert links[..|links|] == links;
    return true;
  }

  predicate Exists(schematic: Schematic, link: Link)
    reads schematic
    ensures Exists(schematic, link) <==> CanLink(schematic.Value(), link)
  {
    && link.input.element < |schematic.inputConnections|
    && link.input.id < |schematic.inputConnections[link.input.element]|
    && link.output.element < |schematic.outputConnections|
    && link.output.id < |schematic.outputConnections[link.output.element]|
  }

  lemma NoneStaysNone(c: Circuit, links: seq<Link>, n: nat)
    requires n < |links| && LinkedUp(c, links[..n + 1]) == None
    ensures LinkedUp(c, links) == None
  {
    hide LinkedUp, Connected;
    assert links == links[..n + 1] + links[n + 1..];
    LinkedUpConcat(c, links[..n + 1], links[n + 1..]);
  }

  /** The elements with all connections, made one after the other, if all of them exist. */
  ghost function Connections(layout: Layout, elements: Circuit): Option<Circuit> {
    LinkedUp(elements, AllLinks(layout, elements.types, |elements.types|))
  }

  lemma {:induction false} MissingLinkStays(c: Circuit, layout: Layout, types: seq<ElementType>, n: nat, all: nat)
    requires n <= all <= |types| && LinkedUp(c, AllLinks(layout, types, n)) == None
    ensures LinkedUp(c, AllLinks(layout, types, all)) == None
    decreases all
  {
    hide LinkedUp, LinksOf;
    if n < all {
      MissingLinkStays(c, layout, types, n, all - 1);
      LinkedUpConcat(c, AllLinks(layout, types, all - 1), LinksOf(layout, types, all - 1));
    }
  }

  /** Connects the elements; returns false if a connection does not exist. */
  method CreateConnections(schematic: Schematic, layout: Layout) returns (ok: bool)
    requires schematic.Valid() && AreElementsOf(schematic.Value(), layout)
    modifies schematic
    ensures schematic.Valid()
    ensures ok <==> Connections(layout, old(schematic.Value())).Some?
    ensures ok ==> Connections(layout, old(schematic.Value())) == Some(schematic.Value())
    ensures ok ==> schematic.Value().OnlyConnectionsDiffer(old(schematic.Value()))
    ensures TypesFit(layout, old(schematic.elementTypes)) ==>
      (ok <==> forall l :: NamesLink(layout, l) ==> CanLink(old(schematic.Value()), l))
    ensures ok && TypesFit(layout, old(schematic.elementTypes)) && NamesEndsOnce(layout) ==>
      forall l :: NamesLink(layout, l) ==> IsLinked(schematic.Value(), l)
  {
    hide LinkedUp, LinksOf, TypesFit, NamesLink, NamesEndsOnce, IsLinked, CanLink;
    NamedAreMade(layout, schematic.Value());
    ghost var was := schematic.Value();
    var types := schematic.elementTypes;
    NoLinks(was);
    for e := 0 to |types|
      invariant schematic.Valid()
      invariant LinkedUp(was, AllLinks(layout, types, e)) == Some(schematic.Value())
    {
      LinkedUpConcat(was, AllLinks(layout, types, e), LinksOf(layout, types, e));
      var linked := ConnectAll(schematic, LinksOf(layout, types, e));
      if !linked {
        MissingLinkStays(was, layout, types, e + 1, |types|);
        return false;
      }
    }
    LinkedUpValid(was, AllLinks(layout, types, |types|));
    return true;
  }

  lemma NamedAreMade(layout: Layout, c: Circuit)
    requires c.Valid()
    ensures TypesFit(layout, c.types) ==>
      (Connections(layout, c).Some? <==> forall l :: NamesLink(layout, l) ==> CanLink(c, l))
    ensures Connections(layout, c).Some? && TypesFit(layout, c.types) && NamesEndsOnce(layout) ==>
      forall l :: NamesLink(layout, l) ==> IsLinked(Connections(layout, c).value, l)
  {
    hide LinkedUp, AllLinks, TypesFit, NamesLink, NamesEndsOnce, IsLinked, CanLink, Circuit.Valid;
    if TypesFit(layout, c.types) {
      var links := AllLinks(layout, c.types, |c.types|);
      LinkedUpIff(c, links);
      forall l ensures l in links <==> NamesLink(layout, l) {
        AllLinksAreNamed(layout, c.types, l);
      }
      if LinkedUp(c, links).Some? && NamesEndsOnce(layout) {
        NamedOnceIsIndependent(layout, c.types, |c.types|);
        IndependentLinksStay(c, links);
      }
    }
  }

  lemma NoLinks(c: Circuit)
    ensures LinkedUp(c, []) == Some(c)
  {
  }

  //
  // Missing placeholders
  //

  /** Output p comes before output o of element e. */
  predicate Earlier(p: Output, e: nat, o: nat) {
    p.element < e || (p.element == e && p.id < o)
  }

  predicate IsItemOutput(c: Circuit, p: Output)
    requires |c.types| == |c.outputConnections|
  {
    c.HasOutput(p) && IsLogicItem(c.types[p.element])
  }

  /** The same elements, followed by new placeholders whose inputs are not inverted. */
  ghost predicate ElementsKept(was: Circuit, now: Circuit) {
    && was.SameSizes() && now.SameSizes() && was.Size() <= now.Size()
    && now.types[..was.Size()] == was.types && now.inputInverters[..was.Size()] == was.inputInverters
    && now.outputDelays[..was.Size()] == was.outputDelays && now.historyLengths[..was.Size()] == was.historyLengths
    && (forall e :: was.Size() <= e < now.Size() ==> now.types[e] == Placeholder && now.inputInverters[e] == [false])
    && (forall e :: was.Size() <= e < now.Size() ==> now.outputConnections[e] == [])
  }

  /** Every connection stays; the free outputs of logic items before the given one are connected to new placeholders. */
  ghost predicate FilledUpTo(was: Circuit, now: Circuit, e: nat, o: nat) {
    && ElementsKept(was, now)
    && (forall j :: was.HasInput(j) ==> now.HasInput(j) && now.Driver(j) == was.Driver(j))
    && (forall p :: was.HasOutput(p) <==> now.HasOutput(p))
    && (forall p :: was.HasOutput(p) ==>
          if was.Target(p).None? && IsItemOutput(was, p) && Earlier(p, e, o)
          then now.Target(p).Some? && now.Target(p).value.element >= was.Size()
          else now.Target(p) == was.Target(p))
  }

  lemma FillsNothing(c: Circuit)
    requires c.SameSizes()
    ensures FilledUpTo(c, c, 0, 0)
  {
  }

  function WithPlaceholder(c: Circuit, o: Output): Circuit
    requires c.SameSizes() && c.HasOutput(o)
  {
    Connected(Extended(c, PLACEHOLDER_ELEMENT), Input(c.Size(), 0), o)
  }

  lemma PlaceholderPointwise(c: Circuit, o: Output)
    requires c.Valid() && c.HasOutput(o) && c.Target(o).None?
    ensures var r := WithPlaceholder(c, o);
      && ElementsKept(c, r)
      && (forall j :: c.HasInput(j) ==> r.HasInput(j) && r.Driver(j) == c.Driver(j))
      && (forall p :: c.HasOutput(p) <==> r.HasOutput(p))
      && (forall p :: c.HasOutput(p) ==> r.Target(p) == if p == o then Some(Input(c.Size(), 0)) else c.Target(p))
  {
    hide Connected;
    var x := Extended(c, PLACEHOLDER_ELEMENT);
    ExtendedValid(c, PLACEHOLDER_ELEMENT);
    ConnectedPointwise(x, Input(c.Size(), 0), o);
    assert forall j :: c.HasInput(j) ==> x.HasInput(j) && x.Driver(j) == c.Driver(j);
    assert forall p :: c.HasOutput(p) ==> x.HasOutput(p) && x.Target(p) == c.Target(p);
  }

  lemma ElementsKeptTwice(a: Circuit, b: Circuit, c: Circuit)
    requires ElementsKept(a, b) && ElementsKept(b, c)
    ensures ElementsKept(a, c)
  {
    var n := a.Size();
    assert c.types[..n] == b.types[..n] && c.inputInverters[..n] == b.inputInverters[..n];
    assert c.outputDelays[..n] == b.outputDelays[..n] && c.historyLengths[..n] == b.historyLengths[..n];
    assert forall e :: n <= e < b.Size() ==> c.types[..b.Size()][e] == b.types[e];
    assert forall e :: n <= e < b.Size() ==> c.inputInverters[..b.Size()][e] == b.inputInverters[e];
    KeptOutputs(a, b, c);
  }

  lemma KeptOutputs(a: Circuit, b: Circuit, c: Circuit)
    requires ElementsKept(a, b) && ElementsKept(b, c)
    ensures forall e :: a.Size() <= e < c.Size() ==> c.outputConnections[e] == []
  {
    forall e | a.Size() <= e < b.Size() ensures c.outputConnections[e] == [] {
      assert c.outputDelays[..b.Size()][e] == b.outputDelays[e];
    }
  }

  /** The next output of a logic item gets a placeholder if it is free. */
  lemma FillsOneMore(was: Circuit, now: Circuit, e: nat, o: nat)
    requires now.Valid() && FilledUpTo(was, now, e, o) && IsItemOutput(was, Output(e, o))
    ensures now.HasOutput(Output(e, o))
    ensures now.Target(Output(e, o)).None? ==> FilledUpTo(was, WithPlaceholder(now, Output(e, o)), e, o + 1)
    ensures now.Target(Output(e, o)).Some? ==> FilledUpTo(was, now, e, o + 1)
  {
    hide ElementsKept, WithPlaceholder;
    var next := Output(e, o);
    assert was.HasOutput(next);
    assert forall p: Output :: Earlier(p, e, o + 1) <==> Earlier(p, e, o) || p == next;
    if now.Target(next).None? {
      PlaceholderPointwise(now, next);
      ElementsKeptTwice(was, now, WithPlaceholder(now, next));
      SizeKept(was, now);
    }
  }

  lemma SizeKept(was: Circuit, now: Circuit)
    requires ElementsKept(was, now)
    ensures was.Size() <= now.Size()
  {
  }

  lemma FillsRow(was: Circuit, now: Circuit, e: nat, o: nat)
    requires FilledUpTo(was, now, e, o) && e < was.Size()
    requires !IsLogicItem(was.types[e]) || o >= |was.outputConnections[e]|
    ensures FilledUpTo(was, now, e + 1, 0)
  {
    hide ElementsKept;
    SizesKept(was, now);
    assert forall p :: IsItemOutput(was, p) ==> (Earlier(p, e + 1, 0) <==> Earlier(p, e, o));
  }

  lemma SizesKept(was: Circuit, now: Circuit)
    requires ElementsKept(was, now)
    ensures was.SameSizes()
  {
  }

  /** Afterwards every output of a logic item is connected, and no connection that was there has changed. */
  method AddMissingPlaceholders(schematic: Schematic)
    requires schematic.Valid()
    modifies schematic
    ensures schematic.Valid()
    ensures FilledUpTo(old(schematic.Value()), schematic.Value(), old(schematic.Value()).Size(), 0)
  {
    hide FilledUpTo, WithPlaceholder, IsItemOutput;
    ghost var was := schematic.Value();
    var types, outputCounts := schematic.elementTypes, OutputCounts(schematic);
    FillsNothing(was);
    for e := 0 to |types|
      invariant schematic.Valid() && FilledUpTo(was, schematic.Value(), e, 0)
    {
      if IsLogicItem(types[e]) {
        for o := 0 to outputCounts[e]
          invariant schematic.Valid() && FilledUpTo(was, schematic.Value(), e, o)
        {
          IsItem(was, e, o);
          FillsOneMore(was, schematic.Value(), e, o);
          if schematic.outputConnections[e][o].None? {
            AddPlaceholder(schematic, Output(e, o));
          }
        }
        FillsRow(was, schematic.Value(), e, outputCounts[e]);
      } else {
        FillsRow(was, schematic.Value(), e, 0);
      }
    }
  }

  lemma IsItem(c: Circuit, e: nat, o: nat)
    requires c.SameSizes() && e < c.Size() && o < |c.outputConnections[e]| && IsLogicItem(c.types[e])
    ensures IsItemOutput(c, Output(e, o))
  {
  }

  function OutputCounts(schematic: Schematic): (r: seq<nat>)
    reads schematic
    ensures |r| == |schematic.outputConnections|
    ensures forall e :: 0 <= e < |r| ==> r[e] == |schematic.outputConnections[e]|
  {
    var connections := schematic.outputConnections;
    seq(|connections|, e requires 0 <= e < |connections| => |connections[e]|)
  }

  method AddPlaceholder(schematic: Schematic, o: Output)
    requires schematic.Valid() && schematic.Value().HasOutput(o) && schematic.Value().Target(o).None?
    modifies schematic
    ensures schematic.Valid() && schematic.Value() == WithPlaceholder(old(schematic.Value()), o)
  {
    var placeholder := schematic.AddElement(PLACEHOLDER_ELEMENT);
    assert schematic.Value().HasInput(Input(placeholder.value, 0));
    schematic.Connect(Input(placeholder.value, 0), o);
  }

  //
  // Output inverters
  //

  ghost predicate AllItemsConnected(c: Circuit) {
    c.SameSizes() && forall p :: IsItemOutput(c, p) ==> c.Target(p).Some?
  }

  lemma FilledConnectsAllItems(was: Circuit, now: Circuit)
    requires FilledUpTo(was, now, was.Size(), 0)
    ensures AllItemsConnected(now)
  {
    forall p | IsItemOutput(now, p) ensures now.Target(p).Some? {
      assert was.HasOutput(p) && now.types[..was.Size()][p.element] == was.types[p.element];
      assert IsItemOutput(was, p) && Earlier(p, was.Size(), 0);
    }
  }

  /** The input is driven by an inverted output of a logic item of the layout. */
  predicate DrivenInverted(layout: Layout, c: Circuit, i: Input)
    requires c.HasInput(i)
  {
    && c.Driver(i).Some?
    && c.Driver(i).value.element < |layout.items|
    && layout.items[c.Driver(i).value.element].inserted
    && c.Driver(i).value.id < |layout.items[c.Driver(i).value.element].outputInverted|
    && layout.items[c.Driver(i).value.element].outputInverted[c.Driver(i).value.id]
  }

  /** Exactly the inputs driven by inverted outputs before the given one became inverted. */
  ghost predicate InvertersSet(layout: Layout, was: Circuit, now: Circuit, l: nat, o: nat) {
    && was.SameSizes() && now.SameSizes() && now == was.(inputInverters := now.inputInverters)
    && (forall i :: was.HasInput(i) ==>
          (now.Inverted(i) <==> was.Inverted(i) || (DrivenInverted(layout, was, i) && Earlier(was.Driver(i).value, l, o))))
  }

  lemma SetsOneMore(layout: Layout, was: Circuit, now: Circuit, next: Circuit, l: nat, o: nat)
    requires was.Valid() && InvertersSet(layout, was, now, l, o) && l < |layout.items| && layout.items[l].inserted
    requires o < |layout.items[l].outputInverted| && was.HasOutput(Output(l, o))
    requires !layout.items[l].outputInverted[o] ==> next == now
    requires layout.items[l].outputInverted[o] ==> was.Target(Output(l, o)).Some? && next.SameSizes()
    requires layout.items[l].outputInverted[o] ==> next == now.(inputInverters := next.inputInverters)
    requires layout.items[l].outputInverted[o] ==> forall j :: now.HasInput(j) ==>
      next.Inverted(j) == (j == was.Target(Output(l, o)).value || now.Inverted(j))
    ensures InvertersSet(layout, was, next, l, o + 1)
  {
    var p := Output(l, o);
    assert forall q: Output :: Earlier(q, l, o + 1) <==> Earlier(q, l, o) || q == p;
    forall i | was.HasInput(i)
      ensures next.Inverted(i) <==>
        was.Inverted(i) || (DrivenInverted(layout, was, i) && Earlier(was.Driver(i).value, l, o + 1))
    {
      assert now.HasInput(i);
      assert was.Driver(i) == Some(p) <==> was.Target(p) == Some(i);
    }
  }

  lemma SetsRow(layout: Layout, was: Circuit, now: Circuit, l: nat, o: nat)
    requires InvertersSet(layout, was, now, l, o) && l < |layout.items|
    requires !layout.items[l].inserted || o >= |layout.items[l].outputInverted|
    ensures InvertersSet(layout, was, now, l + 1, 0)
  {
  }

  lemma SetsNothing(layout: Layout, c: Circuit)
    requires c.SameSizes()
    ensures InvertersSet(layout, c, c, 0, 0)
  {
  }

  /** Every logic item is connected to a wire or a placeholder, so there always is an input to invert. */
  method SetOutputInverters(schematic: Schematic, layout: Layout)
    requires schematic.Valid() && IsLayout(layout)
    requires AllItemsConnected(schematic.Value()) && ItemsFit(schematic.Value(), layout)
    modifies schematic
    ensures schematic.Valid()
    ensures InvertersSet(layout, old(schematic.Value()), schematic.Value(), |layout.items|, 0)
  {
    hide InvertersSet, IsItemOutput, AllItemsConnected, ItemsFit, IsLayout;
    ghost var was := schematic.Value();
    SetsNothing(layout, was);
    for l := 0 to |layout.items|
      invariant schematic.Valid() && InvertersSet(layout, was, schematic.Value(), l, 0)
    {
      if layout.items[l].inserted {
        SetItemInverters(schematic, layout, l, was);
        SetsRow(layout, was, schematic.Value(), l, |layout.items[l].outputInverted|);
      } else {
        SetsRow(layout, was, schematic.Value(), l, 0);
      }
    }
  }

  /** Inserted logic items are the elements with their ids. */
  ghost predicate ItemsFit(c: Circuit, layout: Layout) {
    && c.Size() >= |layout.items| && c.SameSizes()
    && (forall l :: 0 <= l < |layout.items| && layout.items[l].inserted ==>
          c.types[l] == layout.items[l].data.elementType && |c.outputConnections[l]| == layout.items[l].data.outputCount)
  }

  method SetItemInverters(schematic: Schematic, layout: Layout, l: nat, ghost was: Circuit)
    requires schematic.Valid() && IsLayout(layout) && l < |layout.items| && layout.items[l].inserted
    requires was.Valid() && AllItemsConnected(was) && ItemsFit(was, layout)
    requires InvertersSet(layout, was, schematic.Value(), l, 0)
    modifies schematic
    ensures schematic.Valid()
    ensures InvertersSet(layout, was, schematic.Value(), l, |layout.items[l].outputInverted|)
  {
    hide DrivenInverted, IsItemOutput;
    assert layout.items[l] in layout.items;
    for o := 0 to |layout.items[l].outputInverted|
      invariant schematic.Valid() && InvertersSet(layout, was, schematic.Value(), l, o)
    {
      ghost var now := schematic.Value();
      IsItem(was, l, o);
      assert was.HasOutput(Output(l, o));
      if layout.items[l].outputInverted[o] {
        var input := schematic.outputConnections[l][o];
        assert input.Some?;
        schematic.SetInputInverter(input.value, true);
      }
      SetsOneMore(layout, was, now, schematic.Value(), l, o);
    }
  }

  //
  // What a layout asks for
  //

  ghost predicate IsInsertedItem(layout: Layout, e: nat) {
    e < |layout.items| && layout.items[e].inserted
  }

  ghost predicate IsInsertedWire(layout: Layout, e: nat) {
    |layout.items| + LayoutMessages.FIRST_INSERTED_WIRE <= e < |layout.items| + |layout.wires|
  }

  ghost function WireOf(layout: Layout, e: nat): LayoutWire
    requires IsInsertedWire(layout, e)
  {
    layout.wires[e - |layout.items|]
  }

  ghost predicate InputExists(layout: Layout, i: Input) {
    || (IsInsertedItem(layout, i.element) && i.id < layout.items[i.element].data.inputCount)
    || (IsInsertedWire(layout, i.element) && WireOf(layout, i.element).hasInput && i.id == 0)
  }

  ghost predicate OutputExists(layout: Layout, o: Output) {
    || (IsInsertedItem(layout, o.element) && o.id < layout.items[o.element].data.outputCount)
    || (IsInsertedWire(layout, o.element) && o.id < |WireOf(layout, o.element).outputLengths|)
  }

  /** The link was found for an end point of an inserted wire: it is entry k of its list. */
  ghost predicate FoundAt(layout: Layout, wire: nat, k: nat, l: Link) {
    && LayoutMessages.FIRST_INSERTED_WIRE <= wire < |layout.wires| && wire < |layout.found|
    && k < |layout.found[wire]| && layout.found[wire][k] == l
  }

  /** The two outputs that time the phases of a clock generator go back to the generator itself. */
  ghost predicate IsLoop(layout: Layout, l: Link) {
    && IsInsertedItem(layout, l.input.element) && layout.items[l.input.element].data.elementType == ClockGenerator
    && (l.input.id == 1 || l.input.id == 2) && l.output == Output(l.input.element, l.input.id)
  }

  /** The connections that a layout names: those found at the end points of its wires, and the loops. */
  ghost predicate NamesLink(layout: Layout, l: Link) {
    (exists wire, k :: FoundAt(layout, wire, k, l)) || IsLoop(layout, l)
  }

  ghost predicate SameEnd(a: Link, b: Link) {
    a.input == b.input || a.output == b.output
  }

  /** No input and no output is named twice. */
  ghost predicate NamesEndsOnce(layout: Layout) {
    && (forall v, a, l, w, b, m :: FoundAt(layout, v, a, l) && FoundAt(layout, w, b, m) && (v != w || a != b) ==>
          !SameEnd(l, m))
    && (forall v, a, l, m :: FoundAt(layout, v, a, l) && IsLoop(layout, m) ==> !SameEnd(l, m))
  }

  /** Elements are accepted unless an item is not, or a wire that takes time has no length. */
  ghost predicate ElementsAccepted(layout: Layout, delayPerDistance: nat) {
    && (forall e: nat :: IsInsertedItem(layout, e) ==> IsAcceptable(layout.items[e].data))
    && (forall e: nat :: IsInsertedWire(layout, e) && WireOf(layout, e).hasInput && delayPerDistance > 0 ==>
          forall length :: length in WireOf(layout, e).outputLengths ==> length > 0)
  }

  ghost predicate LinksExist(layout: Layout) {
    forall l :: NamesLink(layout, l) ==> InputExists(layout, l.input) && OutputExists(layout, l.output)
  }

  ghost predicate IsLargestOf(delays: seq<int>, x: int) {
    && (forall delay :: delay in delays ==> delay <= x)
    && (if delays == [] then x == 0 else x in delays)
  }

  lemma {:induction false} LargestIs(delays: seq<int>)
    requires forall delay :: delay in delays ==> delay >= 0
    ensures IsLargestOf(delays, Largest(delays))
  {
    if delays != [] {
      var front, last := delays[..|delays| - 1], delays[|delays| - 1];
      assert delays == front + [last];
      assert forall delay :: delay in delays <==> delay in front || delay == last;
      LargestIs(front);
      assert last in delays && (Largest(delays) == last || Largest(delays) == Largest(front));
    }
  }

  /** What element e of the circuit of a layout is, apart from its connections and inverters. */
  ghost predicate HasAttributes(layout: Layout, delayPerDistance: nat, c: Circuit, e: nat)
    requires c.SameSizes() && e < c.Size()
  {
    var inputs, outputs := |c.inputConnections[e]|, |c.outputConnections[e]|;
    && (IsInsertedItem(layout, e) ==>
          var data := layout.items[e].data;
          && c.types[e] == data.elementType && inputs == data.inputCount && outputs == data.outputCount
          && c.outputDelays[e] == data.outputDelays && c.historyLengths[e] == data.historyLength)
    && (IsInsertedWire(layout, e) ==>
          var wire := WireOf(layout, e);
          && c.types[e] == Wire && inputs == (if wire.hasInput then 1 else 0) && outputs == |wire.outputLengths|
          && (if wire.hasInput && delayPerDistance > 0
              then
                && (forall k :: 0 <= k < outputs ==> c.outputDelays[e][k] == delayPerDistance * wire.outputLengths[k])
                && IsLargestOf(c.outputDelays[e], c.historyLengths[e])
              else
                && (forall k :: 0 <= k < outputs ==> c.outputDelays[e][k] == 1)
                && c.historyLengths[e] == 0))
    && (!IsInsertedItem(layout, e) && !IsInsertedWire(layout, e) ==>
          c.types[e] == Unused && inputs == 0 && outputs == 0)
  }

  lemma WireAttributes(layout: Layout, delayPerDistance: nat, e: nat)
    requires IsInsertedWire(layout, e)
    ensures var wire, data := WireOf(layout, e), ElementAt(layout, delayPerDistance, e);
      && data.elementType == Wire && data.inputCount == (if wire.hasInput then 1 else 0)
      && data.outputCount == |data.outputDelays| == |wire.outputLengths|
      && |data.inputInverters| == data.inputCount && (forall inverted :: inverted in data.inputInverters ==> !inverted)
      && data.historyLength >= 0
      && (if wire.hasInput && delayPerDistance > 0
          then
            && (forall k :: 0 <= k < data.outputCount ==> data.outputDelays[k] == delayPerDistance * wire.outputLengths[k])
            && IsLargestOf(data.outputDelays, data.historyLength)
          else
            && (forall k :: 0 <= k < data.outputCount ==> data.outputDelays[k] == 1)
            && data.historyLength == 0)
  {
    hide Largest, IsLargestOf;
    var wire := WireOf(layout, e);
    var delays := OutputDelays(wire.outputLengths, delayPerDistance);
    LargestIs(delays);
    LargestNotNegative(delays);
  }

  lemma LargestNotNegative(delays: seq<int>)
    requires forall delay :: delay in delays ==> delay >= 0
    ensures Largest(delays) >= 0
  {
    LargestIs(delays);
  }

  lemma ElementAcceptedIff(layout: Layout, delayPerDistance: nat, e: nat)
    requires e < |layout.items| + |layout.wires|
    ensures AddProblem(ElementAt(layout, delayPerDistance, e)).None? <==>
      && (IsInsertedItem(layout, e) ==> IsAcceptable(layout.items[e].data))
      && (IsInsertedWire(layout, e) && WireOf(layout, e).hasInput && delayPerDistance > 0 ==>
            forall length :: length in WireOf(layout, e).outputLengths ==> length > 0)
  {
    hide AddProblem, IsLargestOf, WireWithInput, WireWithoutInput;
    AcceptedIff(ElementAt(layout, delayPerDistance, e));
    if IsInsertedWire(layout, e) {
      WireAttributes(layout, delayPerDistance, e);
      if WireOf(layout, e).hasInput && delayPerDistance > 0 {
        var delays := ElementAt(layout, delayPerDistance, e).outputDelays;
        PositiveLengths(WireOf(layout, e).outputLengths, delayPerDistance, delays);
      }
    }
  }

  lemma PositiveLengths(lengths: seq<nat>, delayPerDistance: nat, delays: seq<int>)
    requires delayPerDistance > 0 && |lengths| == |delays|
    ensures (forall k :: 0 <= k < |delays| ==> delays[k] == delayPerDistance * lengths[k]) ==>
      ((forall delay :: delay in delays ==> delay > 0) <==> (forall length :: length in lengths ==> length > 0))
  {
    if forall k :: 0 <= k < |delays| ==> delays[k] == delayPerDistance * lengths[k] {
      forall k | 0 <= k < |delays| ensures delays[k] > 0 <==> lengths[k] > 0 {
      }
      if forall delay :: delay in delays ==> delay > 0 {
        forall length | length in lengths ensures length > 0 {
          var k :| 0 <= k < |lengths| && lengths[k] == length;
          assert delays[k] in delays;
        }
      }
      if forall length :: length in lengths ==> length > 0 {
        forall delay | delay in delays ensures delay > 0 {
          var k :| 0 <= k < |delays| && delays[k] == delay;
          assert lengths[k] in lengths;
        }
      }
    }
  }

  //
  // Which links are made
  //

  /** Entry a of the list is the link, and no later entry takes one of its ends away. */
  ghost predicate Wins(links: seq<Link>, a: int, l: Link) {
    0 <= a < |links| && links[a] == l && forall b :: a < b < |links| ==> !SameEnd(links[b], l)
  }

  lemma {:induction false} LinkedUpIff(c: Circuit, links: seq<Link>)
    requires c.Valid()
    ensures LinkedUp(c, links).Some? <==> forall l :: l in links ==> CanLink(c, l)
  {
    hide Connected, Circuit.Valid;
    if links != [] {
      var front, last := links[..|links| - 1], links[|links| - 1];
      assert links == front + [last];
      assert forall l :: l in links <==> l in front || l == last;
      LinkedUpIff(c, front);
      if LinkedUp(c, front).Some? {
        LinkedUpValid(c, front);
        assert CanLink(LinkedUp(c, front).value, last) <==> CanLink(c, last);
      }
    }
  }

  lemma OneMoreLink(c: Circuit, last: Link, l: Link)
    requires c.Linked() && CanLink(c, last)
    ensures IsLinked(Connected(c, last.input, last.output), l) <==> l == last || (IsLinked(c, l) && !SameEnd(last, l))
  {
    hide Connected;
    ConnectedPointwise(c, last.input, last.output);
  }

  /** After a list of links was connected, exactly those are linked whose ends no later link has taken. */
  lemma {:induction false} LastLinkWins(c: Circuit, links: seq<Link>, l: Link)
    requires c.Valid() && LinkedUp(c, links).Some? && forall i :: c.HasInput(i) ==> c.Driver(i).None?
    ensures IsLinked(LinkedUp(c, links).value, l) <==> exists a :: Wins(links, a, l)
  {
    hide IsLinked, Connected, SameEnd;
    if links == [] {
      NothingLinked(c, l);
    } else {
      var front, last := links[..|links| - 1], links[|links| - 1];
      LinkedUpValid(c, front);
      LastLinkWins(c, front, l);
      OneMoreLink(LinkedUp(c, front).value, last, l);
      if a :| Wins(links, a, l) {
        if a < |front| {
          assert Wins(front, a, l) && !SameEnd(last, l);
        }
      }
      if l == last {
        assert Wins(links, |front|, l);
      } else if a :| Wins(front, a, l) && !SameEnd(last, l) {
        assert Wins(links, a, l);
      }
    }
  }

  lemma NothingLinked(c: Circuit, l: Link)
    requires forall i :: c.HasInput(i) ==> c.Driver(i).None?
    ensures !IsLinked(c, l)
  {
  }

  /** The types of the elements of a layout. */
  ghost predicate TypesFit(layout: Layout, types: seq<ElementType>) {
    && IsLayout(layout) && |types| == |layout.items| + |layout.wires|
    && forall e :: 0 <= e < |types| ==>
         types[e] == if IsInsertedItem(layout, e) then layout.items[e].data.elementType
                     else if IsInsertedWire(layout, e) then Wire else Unused
  }

  /** The link belongs to element e: it is a loop of it, or was found for it. */
  ghost predicate NamedFor(layout: Layout, e: nat, l: Link) {
    (IsLoop(layout, l) && l.input.element == e) || (e >= |layout.items| && FoundForWire(layout, e - |layout.items|, l))
  }

  ghost predicate FoundForWire(layout: Layout, wire: nat, l: Link) {
    exists k :: FoundAt(layout, wire, k, l)
  }

  lemma KindsDiffer(layout: Layout, types: seq<ElementType>, e: nat)
    requires TypesFit(layout, types) && e < |types|
    ensures types[e] == Wire <==> IsInsertedWire(layout, e)
    ensures types[e] == ClockGenerator <==> IsInsertedItem(layout, e) && layout.items[e].data.elementType == ClockGenerator
  {
    if IsInsertedItem(layout, e) {
      assert layout.items[e] in layout.items;
    }
  }

  lemma LinksOfAre(layout: Layout, types: seq<ElementType>, e: nat)
    requires TypesFit(layout, types) && e < |types|
    ensures LinksOf(layout, types, e) ==
      if types[e] == ClockGenerator then [Link(Input(e, 1), Output(e, 1)), Link(Input(e, 2), Output(e, 2))]
      else if types[e] == Wire then layout.found[e - |layout.items|] else []
  {
    KindsDiffer(layout, types, e);
    var pairs := InternalConnections(types[e]);
    if types[e] == ClockGenerator {
      assert pairs[..1] == [(1, 1)];
      assert InternalLinks(e, pairs[..1]) == [Link(Input(e, 1), Output(e, 1))];
    }
  }

  lemma LinksOfMember(layout: Layout, types: seq<ElementType>, e: nat, l: Link)
    requires TypesFit(layout, types) && e < |types|
    ensures l in LinksOf(layout, types, e) <==> NamedFor(layout, e, l)
  {
    hide TypesFit, LinksOf;
    KindsDiffer(layout, types, e);
    LinksOfAre(layout, types, e);
    if types[e] == Wire {
      assert FoundForWire(layout, e - |layout.items|, l) <==> l in layout.found[e - |layout.items|] by {
        FoundIsListed(layout, types, e, l);
      }
    }
  }

  lemma FoundIsListed(layout: Layout, types: seq<ElementType>, e: nat, l: Link)
    requires TypesFit(layout, types) && IsInsertedWire(layout, e)
    ensures e - |layout.items| < |layout.found|
    ensures FoundForWire(layout, e - |layout.items|, l) <==> l in layout.found[e - |layout.items|]
  {
    if l in layout.found[e - |layout.items|] {
      var k :| 0 <= k < |layout.found[e - |layout.items|]| && layout.found[e - |layout.items|][k] == l;
      assert FoundAt(layout, e - |layout.items|, k, l);
    }
  }

  lemma {:induction false} AllLinksMember(layout: Layout, types: seq<ElementType>, n: nat, l: Link)
    requires TypesFit(layout, types) && n <= |types|
    ensures l in AllLinks(layout, types, n) <==> exists e: nat :: e < n && NamedFor(layout, e, l)
  {
    hide TypesFit, LinksOf, NamedFor;
    if n > 0 {
      AllLinksMember(layout, types, n - 1, l);
      LinksOfMember(layout, types, n - 1, l);
    }
  }

  /** The connections that are made are those that the layout names. */
  lemma AllLinksAreNamed(layout: Layout, types: seq<ElementType>, l: Link)
    requires TypesFit(layout, types)
    ensures l in AllLinks(layout, types, |types|) <==> NamesLink(layout, l)
  {
    hide AllLinks;
    AllLinksMember(layout, types, |types|, l);
    if wire, k :| FoundAt(layout, wire, k, l) {
      assert NamedFor(layout, |layout.items| + wire, l);
    }
    if IsLoop(layout, l) {
      assert NamedFor(layout, l.input.element, l);
    }
  }

  lemma IndependentConcat(a: seq<Link>, b: seq<Link>)
    requires Independent(a) && Independent(b) && forall l, m :: l in a && m in b ==> !SameEnd(l, m)
    ensures Independent(a + b)
  {
    var all := a + b;
    forall i, j | 0 <= i < j < |all| ensures all[i].input != all[j].input && all[i].output != all[j].output {
      if i < |a| && |a| <= j {
        assert a[i] in a && b[j - |a|] in b;
        assert !SameEnd(a[i], b[j - |a|]);
      }
    }
  }

  lemma OwnLinksIndependent(layout: Layout, types: seq<ElementType>, e: nat)
    requires TypesFit(layout, types) && NamesEndsOnce(layout) && e < |types|
    ensures Independent(LinksOf(layout, types, e))
  {
    hide LinksOf;
    KindsDiffer(layout, types, e);
    LinksOfAre(layout, types, e);
    if types[e] == Wire {
      var w := e - |layout.items|;
      forall a, b | 0 <= a < b < |layout.found[w]| ensures !SameEnd(layout.found[w][a], layout.found[w][b]) {
        assert FoundAt(layout, w, a, layout.found[w][a]) && FoundAt(layout, w, b, layout.found[w][b]);
      }
    }
  }

  lemma OtherLinksDiffer(layout: Layout, d: nat, l: Link, e: nat, m: Link)
    requires NamesEndsOnce(layout) && d != e && NamedFor(layout, d, l) && NamedFor(layout, e, m)
    ensures !SameEnd(l, m)
  {
  }

  lemma {:induction false} NamedOnceIsIndependent(layout: Layout, types: seq<ElementType>, n: nat)
    requires TypesFit(layout, types) && NamesEndsOnce(layout) && n <= |types|
    ensures Independent(AllLinks(layout, types, n))
  {
    hide TypesFit, LinksOf, NamesEndsOnce, NamedFor, Independent, SameEnd;
    if n == 0 {
      NoneIndependent();
    } else {
      var before, own := AllLinks(layout, types, n - 1), LinksOf(layout, types, n - 1);
      NamedOnceIsIndependent(layout, types, n - 1);
      OwnLinksIndependent(layout, types, n - 1);
      forall l, m | l in before && m in own ensures !SameEnd(l, m) {
        AllLinksMember(layout, types, n - 1, l);
        LinksOfMember(layout, types, n - 1, m);
        var d: nat :| d < n - 1 && NamedFor(layout, d, l);
        OtherLinksDiffer(layout, d, l, n - 1, m);
      }
      IndependentConcat(before, own);
    }
  }

  lemma NoneIndependent()
    ensures Independent([])
  {
  }

  //
  // What is generated
  //

  /**
   An input of an element of the layout is only connected as the layout says, and every other connection leads to a
   placeholder. If the layout names no end twice, all connections it names are there.
   */
  ghost predicate IsWired(layout: Layout, c: Circuit)
    requires c.SameSizes()
  {
    var n := |layout.items| + |layout.wires|;
    && n <= c.Size()
    && (forall i :: c.HasInput(i) && i.element < n && c.Driver(i).Some? ==> NamesLink(layout, Link(i, c.Driver(i).value)))
    && (forall o :: c.HasOutput(o) && c.Target(o).Some? ==>
          || NamesLink(layout, Link(c.Target(o).value, o))
          || (n <= c.Target(o).value.element < c.Size() && c.types[c.Target(o).value.element] == Placeholder))
    && (NamesEndsOnce(layout) ==> forall l :: NamesLink(layout, l) ==> IsLinked(c, l))
  }

  ghost predicate IsInvertedOutput(layout: Layout, o: Output) {
    && IsInsertedItem(layout, o.element) && o.id < |layout.items[o.element].outputInverted|
    && layout.items[o.element].outputInverted[o.id]
  }

  /** Inverted are the inputs that the items have inverted, and those that an inverted output drives. */
  ghost predicate AreInverted(layout: Layout, c: Circuit)
    requires c.SameSizes()
  {
    forall i :: c.HasInput(i) ==>
      (c.Inverted(i) <==>
        || IsInvertedInput(layout, i)
        || (c.Driver(i).Some? && IsInvertedOutput(layout, c.Driver(i).value)))
  }

  ghost predicate IsInvertedInput(layout: Layout, i: Input) {
    && IsInsertedItem(layout, i.element) && i.id < |layout.items[i.element].data.inputInverters|
    && layout.items[i.element].data.inputInverters[i.id]
  }

  ghost predicate HaveAttributes(layout: Layout, delayPerDistance: nat, c: Circuit) {
    && c.SameSizes() && |layout.items| + |layout.wires| <= c.Size()
    && forall e :: 0 <= e < |layout.items| + |layout.wires| ==> HasAttributes(layout, delayPerDistance, c, e)
  }

  ghost function AllElements(layout: Layout, delayPerDistance: nat): Circuit {
    Elements(layout, delayPerDistance, |layout.items| + |layout.wires|)
  }

  lemma {:induction false} ElementsValid(layout: Layout, delayPerDistance: nat, n: nat)
    requires n <= |layout.items| + |layout.wires|
    requires forall e :: 0 <= e < n ==> AddProblem(ElementAt(layout, delayPerDistance, e)).None?
    ensures Elements(layout, delayPerDistance, n).Valid()
  {
    hide ElementAt, AddProblem, Extended;
    if n == 0 {
      EmptyValid();
    } else {
      ElementsValid(layout, delayPerDistance, n - 1);
      ExtendedValid(Elements(layout, delayPerDistance, n - 1), ElementAt(layout, delayPerDistance, n - 1));
    }
  }

  lemma EmptyValid()
    ensures Circuit([], [], [], [], [], []).Valid()
  {
  }

  lemma ElementHasAttributes(layout: Layout, delayPerDistance: nat, c: Circuit, e: nat)
    requires c.Valid() && c == AllElements(layout, delayPerDistance) && e < |layout.items| + |layout.wires|
    ensures e < c.Size() && HasAttributes(layout, delayPerDistance, c, e)
  {
    hide Elements, WireWithInput, WireWithoutInput, IsLargestOf;
    ElementsAre(layout, delayPerDistance, |layout.items| + |layout.wires|);
    if IsInsertedWire(layout, e) {
      WireAttributes(layout, delayPerDistance, e);
    }
  }

  lemma ElementsFitLayout(layout: Layout, delayPerDistance: nat, c: Circuit)
    requires IsLayout(layout) && c.Valid() && c == AllElements(layout, delayPerDistance)
    ensures HaveAttributes(layout, delayPerDistance, c) && TypesFit(layout, c.types)
    ensures c.Size() == |layout.items| + |layout.wires|
    ensures forall i :: c.HasInput(i) <==> InputExists(layout, i)
    ensures forall o :: c.HasOutput(o) <==> OutputExists(layout, o)
    ensures forall i :: c.HasInput(i) ==> c.Driver(i).None? && (c.Inverted(i) <==> IsInvertedInput(layout, i))
  {
    hide Elements, WireWithInput, WireWithoutInput, IsLargestOf, HasAttributes, ElementAt, Circuit.Linked;
    ElementsAre(layout, delayPerDistance, |layout.items| + |layout.wires|);
    forall e | 0 <= e < |layout.items| + |layout.wires|
      ensures HasAttributes(layout, delayPerDistance, c, e)
      ensures AttributesGive(layout, c, e)
    {
      ElementHasAttributes(layout, delayPerDistance, c, e);
      FromAttributes(layout, delayPerDistance, c, e);
    }
    AllGiven(layout, c);
    forall i | c.HasInput(i) ensures c.Inverted(i) <==> IsInvertedInput(layout, i) {
      InvertersGiven(layout, delayPerDistance, c, i);
    }
  }

  /** The type and the counts of element e. */
  ghost predicate AttributesGive(layout: Layout, c: Circuit, e: nat)
    requires c.SameSizes() && e < c.Size()
  {
    && c.types[e] == (if IsInsertedItem(layout, e) then layout.items[e].data.elementType
                      else if IsInsertedWire(layout, e) then Wire else Unused)
    && (forall k: nat :: k < |c.inputConnections[e]| <==> InputExists(layout, Input(e, k)))
    && (forall k: nat :: k < |c.outputConnections[e]| <==> OutputExists(layout, Output(e, k)))
  }

  lemma AllGiven(layout: Layout, c: Circuit)
    requires IsLayout(layout) && c.SameSizes() && c.Size() == |layout.items| + |layout.wires|
    requires forall e :: 0 <= e < c.Size() ==> AttributesGive(layout, c, e)
    ensures TypesFit(layout, c.types)
    ensures forall i :: c.HasInput(i) <==> InputExists(layout, i)
    ensures forall o :: c.HasOutput(o) <==> OutputExists(layout, o)
  {
    hide IsInsertedWire, InputExists, OutputExists, IsLayout;
    forall e | 0 <= e < c.Size()
      ensures c.types[e] == if IsInsertedItem(layout, e) then layout.items[e].data.elementType
                            else if IsInsertedWire(layout, e) then Wire else Unused
    {
      assert AttributesGive(layout, c, e);
    }
    forall i ensures c.HasInput(i) <==> InputExists(layout, i) {
      assert i == Input(i.element, i.id);
      NoneBeyond(layout, i.element);
      assert i.element < c.Size() ==> AttributesGive(layout, c, i.element);
    }
    forall o ensures c.HasOutput(o) <==> OutputExists(layout, o) {
      assert o == Output(o.element, o.id);
      NoneBeyond(layout, o.element);
      assert o.element < c.Size() ==> AttributesGive(layout, c, o.element);
    }
  }

  lemma NoneBeyond(layout: Layout, e: nat)
    ensures e >= |layout.items| + |layout.wires| ==>
      forall k :: !InputExists(layout, Input(e, k)) && !OutputExists(layout, Output(e, k))
  {
  }

  lemma FromAttributes(layout: Layout, delayPerDistance: nat, c: Circuit, e: nat)
    requires c.SameSizes() && e < c.Size() && HasAttributes(layout, delayPerDistance, c, e)
    ensures AttributesGive(layout, c, e)
  {
    hide IsLargestOf;
  }

  lemma InvertersGiven(layout: Layout, delayPerDistance: nat, c: Circuit, i: Input)
    requires c.Valid() && c == AllElements(layout, delayPerDistance) && c.HasInput(i)
    ensures c.Inverted(i) <==> IsInvertedInput(layout, i)
  {
    hide Elements, WireWithInput, WireWithoutInput;
    ElementsAre(layout, delayPerDistance, |layout.items| + |layout.wires|);
    var data := ElementAt(layout, delayPerDistance, i.element);
    if IsInsertedWire(layout, i.element) {
      WireAttributes(layout, delayPerDistance, i.element);
      assert data.inputInverters[i.id] in data.inputInverters;
    }
  }

  //
  // Generating
  //

  lemma AcceptedElementsIff(layout: Layout, delayPerDistance: nat)
    ensures ElementsAccepted(layout, delayPerDistance) <==>
      forall e :: 0 <= e < |layout.items| + |layout.wires| ==> AddProblem(ElementAt(layout, delayPerDistance, e)).None?
    ensures ElementsAccepted(layout, delayPerDistance) ==>
      HaveAttributes(layout, delayPerDistance, AllElements(layout, delayPerDistance))
  {
    hide ElementAt, AddProblem, Elements, IsAcceptable, HasAttributes, Circuit.Valid;
    var n := |layout.items| + |layout.wires|;
    forall e: nat | e < n
      ensures AddProblem(ElementAt(layout, delayPerDistance, e)).None? <==>
        && (IsInsertedItem(layout, e) ==> IsAcceptable(layout.items[e].data))
        && (IsInsertedWire(layout, e) && WireOf(layout, e).hasInput && delayPerDistance > 0 ==>
              forall length :: length in WireOf(layout, e).outputLengths ==> length > 0)
    {
      ElementAcceptedIff(layout, delayPerDistance, e);
    }
    if ElementsAccepted(layout, delayPerDistance) {
      ElementsValid(layout, delayPerDistance, n);
      ElementsAre(layout, delayPerDistance, n);
      forall e: nat | e < n
        ensures e < AllElements(layout, delayPerDistance).Size()
        ensures AllElements(layout, delayPerDistance).SameSizes()
        ensures HasAttributes(layout, delayPerDistance, AllElements(layout, delayPerDistance), e)
      {
        ElementHasAttributes(layout, delayPerDistance, AllElements(layout, delayPerDistance), e);
        ValidSizes(AllElements(layout, delayPerDistance));
      }
      ValidSizes(AllElements(layout, delayPerDistance));
    }
  }

  lemma ValidSizes(c: Circuit)
    requires c.Valid()
    ensures c.SameSizes()
  {
  }

  /** Adds the elements of the layout; returns false if one of them is not accepted. */
  method AddLayoutElements(schematic: Schematic, layout: Layout, delayPerDistance: nat) returns (ok: bool)
    requires schematic.Valid() && schematic.Value() == Circuit([], [], [], [], [], [])
    modifies schematic
    ensures schematic.Valid()
    ensures ok <==> forall e :: 0 <= e < |layout.items| + |layout.wires| ==>
      AddProblem(ElementAt(layout, delayPerDistance, e)).None?
    ensures ok ==> schematic.Value() == Elements(layout, delayPerDistance, |layout.items| + |layout.wires|)
    ensures ok <==> ElementsAccepted(layout, delayPerDistance)
    ensures ok ==> HaveAttributes(layout, delayPerDistance, schematic.Value())
  {
    hide ElementAt, AddProblem, Extended, ElementsAccepted, HaveAttributes;
    AcceptedElementsIff(layout, delayPerDistance);
    for e := 0 to |layout.items| + |layout.wires|
      invariant schematic.Valid() && schematic.Value() == Elements(layout, delayPerDistance, e)
      invariant forall d :: 0 <= d < e ==> AddProblem(ElementAt(layout, delayPerDistance, d)).None?
    {
      var added := schematic.AddElement(ElementAt(layout, delayPerDistance, e));
      if added.Err? {
        return false;
      }
    }
    return true;
  }

  /** What the generated circuit has to do with the one of its elements and connections. */
  ghost predicate IsGenerated(layout: Layout, delayPerDistance: nat, c: Circuit) {
    var linked := Connections(layout, Elements(layout, delayPerDistance, |layout.items| + |layout.wires|));
    linked.Some? && exists filled ::
      FilledUpTo(linked.value, filled, linked.value.Size(), 0) && InvertersSet(layout, filled, c, |layout.items|, 0)
  }

  /** All elements are accepted, and all connections exist. */
  ghost predicate CanGenerate(layout: Layout, delayPerDistance: nat) {
    && (forall e :: 0 <= e < |layout.items| + |layout.wires| ==> AddProblem(ElementAt(layout, delayPerDistance, e)).None?)
    && Connections(layout, Elements(layout, delayPerDistance, |layout.items| + |layout.wires|)).Some?
  }

  /** A schematic is generated exactly if all elements are accepted and all named connections exist. */
  lemma CanGenerateIff(layout: Layout, delayPerDistance: nat)
    requires IsLayout(layout)
    ensures CanGenerate(layout, delayPerDistance) <==> ElementsAccepted(layout, delayPerDistance) && LinksExist(layout)
  {
    hide ElementAt, AddProblem, Elements, NamesLink, LinkedUp, AllLinks, IsAcceptable, InputExists, OutputExists, TypesFit,
      HaveAttributes, Circuit.Valid, IsLayout;
    AcceptedElementsIff(layout, delayPerDistance);
    if ElementsAccepted(layout, delayPerDistance) {
      var c := AllElements(layout, delayPerDistance);
      ElementsValid(layout, delayPerDistance, |layout.items| + |layout.wires|);
      ConnectionsIff(layout, delayPerDistance, c);
    }
  }

  lemma ConnectionsIff(layout: Layout, delayPerDistance: nat, c: Circuit)
    requires IsLayout(layout) && c.Valid() && c == AllElements(layout, delayPerDistance)
    ensures Connections(layout, c).Some? <==> LinksExist(layout)
  {
    hide Elements, NamesLink, LinkedUp, AllLinks, InputExists, OutputExists, TypesFit, HaveAttributes, Circuit.Valid, IsLayout,
      Circuit.HasInput, Circuit.HasOutput;
    ElementsFitLayout(layout, delayPerDistance, c);
    LinkedUpIff(c, AllLinks(layout, c.types, |c.types|));
    forall l ensures l in AllLinks(layout, c.types, |c.types|) <==> NamesLink(layout, l) {
      AllLinksAreNamed(layout, c.types, l);
    }
  }

  /** The connections of the elements of a layout. */
  lemma ConnectionsWired(layout: Layout, delayPerDistance: nat, c: Circuit, linked: Circuit)
    requires IsLayout(layout) && c.Valid() && c == AllElements(layout, delayPerDistance)
    requires Connections(layout, c) == Some(linked)
    ensures linked.Valid() && linked.OnlyConnectionsDiffer(c)
    ensures forall l :: IsLinked(linked, l) ==> NamesLink(layout, l)
    ensures NamesEndsOnce(layout) ==> forall l :: NamesLink(layout, l) ==> IsLinked(linked, l)
  {
    hide Elements, NamesLink, LinkedUp, AllLinks, InputExists, OutputExists, TypesFit, HaveAttributes, Circuit.Valid, IsLayout,
      Circuit.HasInput, Circuit.HasOutput, IsLinked, NamesEndsOnce, Circuit.OnlyConnectionsDiffer;
    var links := AllLinks(layout, c.types, |c.types|);
    ElementsFitLayout(layout, delayPerDistance, c);
    LinkedUpValid(c, links);
    forall l | IsLinked(linked, l) ensures NamesLink(layout, l) {
      LastLinkWins(c, links, l);
      var a :| Wins(links, a, l);
      assert l in links;
      AllLinksAreNamed(layout, c.types, l);
    }
    if NamesEndsOnce(layout) {
      NamedOnceIsIndependent(layout, c.types, |c.types|);
      IndependentLinksStay(c, links);
      forall l | NamesLink(layout, l) ensures IsLinked(linked, l) {
        AllLinksAreNamed(layout, c.types, l);
      }
    }
  }

  lemma LinkedElements(layout: Layout, delayPerDistance: nat, c: Circuit, linked: Circuit)
    requires HaveAttributes(layout, delayPerDistance, c) && linked.OnlyConnectionsDiffer(c) && linked.SameSizes()
    ensures HaveAttributes(layout, delayPerDistance, linked)
  {
    hide IsInsertedItem, IsInsertedWire, IsLargestOf;
    forall e | 0 <= e < |layout.items| + |layout.wires| ensures HasAttributes(layout, delayPerDistance, linked, e) {
      assert HasAttributes(layout, delayPerDistance, c, e);
    }
  }

  lemma FilledElements(layout: Layout, delayPerDistance: nat, was: Circuit, now: Circuit, e: nat, o: nat)
    requires HaveAttributes(layout, delayPerDistance, was) && FilledUpTo(was, now, e, o)
    ensures HaveAttributes(layout, delayPerDistance, now)
  {
    hide IsInsertedItem, IsInsertedWire, IsLargestOf;
    var n := was.Size();
    forall d: nat | d < |layout.items| + |layout.wires| ensures HasAttributes(layout, delayPerDistance, now, d) {
      assert HasAttributes(layout, delayPerDistance, was, d);
      assert now.types[..n][d] == was.types[d] && now.outputDelays[..n][d] == was.outputDelays[d];
      assert now.historyLengths[..n][d] == was.historyLengths[d] && now.inputInverters[..n][d] == was.inputInverters[d];
    }
  }

  lemma InvertedElements(layout: Layout, delayPerDistance: nat, was: Circuit, now: Circuit)
    requires HaveAttributes(layout, delayPerDistance, was)
    requires now.SameSizes() && now == was.(inputInverters := now.inputInverters)
    ensures HaveAttributes(layout, delayPerDistance, now)
  {
    hide IsInsertedItem, IsInsertedWire, IsLargestOf;
    forall d: nat | d < |layout.items| + |layout.wires| ensures HasAttributes(layout, delayPerDistance, now, d) {
      assert HasAttributes(layout, delayPerDistance, was, d);
    }
  }

  /** Links and inverters of the linked elements are those of the layout. */
  lemma FilledWired(layout: Layout, linked: Circuit, filled: Circuit)
    requires linked.Valid() && linked.Size() == |layout.items| + |layout.wires|
    requires FilledUpTo(linked, filled, linked.Size(), 0)
    requires forall l :: IsLinked(linked, l) ==> NamesLink(layout, l)
    requires NamesEndsOnce(layout) ==> forall l :: NamesLink(layout, l) ==> IsLinked(linked, l)
    ensures filled.SameSizes()
    ensures filled.Valid() ==> IsWired(layout, filled)
  {
    hide NamesLink, NamesEndsOnce, IsItemOutput;
    var n := linked.Size();
    if filled.Valid() {
      forall i | filled.HasInput(i) && i.element < n && filled.Driver(i).Some?
        ensures NamesLink(layout, Link(i, filled.Driver(i).value))
      {
        assert filled.inputInverters[..n][i.element] == linked.inputInverters[i.element];
        assert linked.HasInput(i) && IsLinked(linked, Link(i, filled.Driver(i).value));
      }
      forall o | filled.HasOutput(o) && filled.Target(o).Some?
        ensures NamesLink(layout, Link(filled.Target(o).value, o))
          || (n <= filled.Target(o).value.element < filled.Size()
              && filled.types[filled.Target(o).value.element] == Placeholder)
      {
        assert linked.HasOutput(o);
        if filled.Target(o) == linked.Target(o) {
          assert IsLinked(linked, Link(linked.Target(o).value, o));
        }
      }
      if NamesEndsOnce(layout) {
        forall l | NamesLink(layout, l) ensures IsLinked(filled, l) {
          assert IsLinked(linked, l);
        }
      }
    }
  }

  lemma InvertedWired(layout: Layout, was: Circuit, now: Circuit)
    requires was.SameSizes() && now.SameSizes() && IsWired(layout, was)
    requires now == was.(inputInverters := now.inputInverters)
    ensures IsWired(layout, now)
  {
    hide NamesLink, NamesEndsOnce;
    assert forall i :: now.HasInput(i) <==> was.HasInput(i);
    assert forall o :: now.HasOutput(o) <==> was.HasOutput(o);
    if NamesEndsOnce(layout) {
      forall l | NamesLink(layout, l) ensures IsLinked(now, l) {
        assert IsLinked(was, l);
      }
    }
  }

  lemma FilledInverters(layout: Layout, linked: Circuit, filled: Circuit, c: Circuit)
    requires linked.SameSizes() && linked.Size() == |layout.items| + |layout.wires|
    requires forall i :: linked.HasInput(i) ==> (linked.Inverted(i) <==> IsInvertedInput(layout, i))
    requires FilledUpTo(linked, filled, linked.Size(), 0) && InvertersSet(layout, filled, c, |layout.items|, 0)
    ensures c.SameSizes() && AreInverted(layout, c)
  {
    var n := linked.Size();
    forall i | c.HasInput(i)
      ensures c.Inverted(i) <==>
        IsInvertedInput(layout, i) || (c.Driver(i).Some? && IsInvertedOutput(layout, c.Driver(i).value))
    {
      assert filled.HasInput(i) && filled.Driver(i) == c.Driver(i);
      FilledInverted(layout, linked, filled, i);
      assert DrivenInverted(layout, filled, i) ==> Earlier(filled.Driver(i).value, |layout.items|, 0);
    }
  }

  lemma FilledInverted(layout: Layout, linked: Circuit, filled: Circuit, i: Input)
    requires linked.SameSizes() && linked.Size() == |layout.items| + |layout.wires|
    requires forall j :: linked.HasInput(j) ==> (linked.Inverted(j) <==> IsInvertedInput(layout, j))
    requires FilledUpTo(linked, filled, linked.Size(), 0) && filled.HasInput(i)
    ensures filled.Inverted(i) <==> IsInvertedInput(layout, i)
  {
    var n := linked.Size();
    if i.element < n {
      assert filled.inputInverters[..n][i.element] == linked.inputInverters[i.element];
      assert linked.HasInput(i);
    } else {
      assert filled.inputInverters[i.element] == [false];
    }
  }

  /** A generated circuit has the elements, connections and inverters that the layout asks for. */
  lemma GeneratedIsAsAsked(layout: Layout, delayPerDistance: nat, c: Circuit)
    requires IsLayout(layout) && CanGenerate(layout, delayPerDistance) && IsGenerated(layout, delayPerDistance, c)
    ensures c.SameSizes() && HaveAttributes(layout, delayPerDistance, c)
    ensures c.Valid() ==> IsWired(layout, c) && AreInverted(layout, c)
  {
    hide ElementAt, AddProblem, Elements, NamesLink, Connections, FilledUpTo, InvertersSet, HaveAttributes, IsWired,
      AreInverted, NamesEndsOnce, IsLinked, Circuit.Valid, Circuit.OnlyConnectionsDiffer, TypesFit;
    var elements := AllElements(layout, delayPerDistance);
    var linked := Connections(layout, elements).value;
    var filled :| FilledUpTo(linked, filled, linked.Size(), 0) && InvertersSet(layout, filled, c, |layout.items|, 0);
    ElementsValid(layout, delayPerDistance, |layout.items| + |layout.wires|);
    ElementsFitLayout(layout, delayPerDistance, elements);
    ConnectionsWired(layout, delayPerDistance, elements, linked);
    SameAttributes(layout, linked, elements);
    LinkedElements(layout, delayPerDistance, elements, linked);
    FilledElements(layout, delayPerDistance, linked, filled, linked.Size(), 0);
    OnlyInvertersDiffer(layout, filled, c, |layout.items|, 0);
    InvertedElements(layout, delayPerDistance, filled, c);
    FilledInverters(layout, linked, filled, c);
    FilledWired(layout, linked, filled);
    if c.Valid() {
      ValidDespiteInverters(filled, c);
      InvertedWired(layout, filled, c);
    }
  }

  lemma OnlyInvertersDiffer(layout: Layout, was: Circuit, now: Circuit, l: nat, o: nat)
    requires InvertersSet(layout, was, now, l, o)
    ensures was.SameSizes() && now.SameSizes() && now == was.(inputInverters := now.inputInverters)
  {
  }

  lemma ValidDespiteInverters(was: Circuit, now: Circuit)
    requires was.SameSizes() && now.Valid() && now == was.(inputInverters := now.inputInverters)
    ensures was.Valid()
  {
    assert forall i :: now.HasInput(i) <==> was.HasInput(i);
    assert forall o :: now.HasOutput(o) <==> was.HasOutput(o);
    assert forall i :: was.HasInput(i) ==> was.Driver(i) == now.Driver(i);
    assert forall o :: was.HasOutput(o) ==> was.Target(o) == now.Target(o);
  }

  lemma SameAttributes(layout: Layout, linked: Circuit, c: Circuit)
    requires c.Valid() && linked.Valid() && linked.OnlyConnectionsDiffer(c)
    requires forall i :: c.HasInput(i) ==> (c.Inverted(i) <==> IsInvertedInput(layout, i))
    ensures linked.Size() == c.Size() && linked.SameSizes() && c.SameSizes()
    ensures forall i :: linked.HasInput(i) ==> (linked.Inverted(i) <==> IsInvertedInput(layout, i))
  {
    assert forall i :: linked.HasInput(i) ==> c.HasInput(i);
  }

  /** Returns None if an element is not accepted or a connection does not exist. */
  method GenerateSchematic(layout: Layout, delayPerDistance: nat) returns (r: Option<Schematic>)
    requires IsLayout(layout)
    ensures r.Some? <==> CanGenerate(layout, delayPerDistance)
    ensures r.Some? ==> fresh(r.value) && r.value.Valid()
    ensures r.Some? ==> IsGenerated(layout, delayPerDistance, r.value.Value())
    ensures r.Some? <==> ElementsAccepted(layout, delayPerDistance) && LinksExist(layout)
    ensures r.Some? ==> HaveAttributes(layout, delayPerDistance, r.value.Value())
    ensures r.Some? ==> IsWired(layout, r.value.Value()) && AreInverted(layout, r.value.Value())
    ensures r.Some? ==> AllItemsConnected(r.value.Value()) && ItemInvertersOnly(r.value.Value())
  {
    hide Elements, Connections, FilledUpTo, InvertersSet, AllItemsConnected, AreElementsOf, ItemsFit, ItemInvertersOnly,
      ElementsAccepted, LinksExist, HaveAttributes, IsWired, AreInverted;
    CanGenerateIff(layout, delayPerDistance);
    var schematic := new Schematic();
    var added := AddLayoutElements(schematic, layout, delayPerDistance);
    if !added {
      return None;
    }
    ghost var elements := schematic.Value();
    ElementsFit(layout, delayPerDistance);
    var connected := CreateConnections(schematic, layout);
    if !connected {
      return None;
    }
    ghost var linked := schematic.Value();
    AddMissingPlaceholders(schematic);
    ghost var filled := schematic.Value();
    FilledConnectsAllItems(linked, filled);
    FilledFits(layout, elements, linked, filled);
    SetOutputInverters(schematic, layout);
    InvertersAreOfItems(layout, filled, schematic.Value());
    GeneratedIsAsAsked(layout, delayPerDistance, schematic.Value());
    return Some(schematic);
  }

  /** An inverted input belongs to a logic item, or a logic item drives it. */
  ghost predicate ItemInvertersOnly(c: Circuit) {
    c.Valid() && forall i :: c.HasInput(i) && c.Inverted(i) && !IsLogicItem(c.types[i.element]) ==>
      c.Driver(i).Some? && IsLogicItem(c.types[c.Driver(i).value.element])
  }

  lemma FilledFits(layout: Layout, elements: Circuit, linked: Circuit, filled: Circuit)
    requires AreElementsOf(elements, layout) && linked.OnlyConnectionsDiffer(elements)
    requires FilledUpTo(linked, filled, linked.Size(), 0)
    ensures ItemsFit(filled, layout) && OnlyItemsInverted(filled)
  {
    var n := linked.Size();
    forall l | 0 <= l < |layout.items| && layout.items[l].inserted
      ensures filled.types[l] == layout.items[l].data.elementType
      ensures |filled.outputConnections[l]| == layout.items[l].data.outputCount
    {
      assert filled.types[..n][l] == linked.types[l] && filled.outputDelays[..n][l] == linked.outputDelays[l];
    }
    forall i | filled.HasInput(i) && !IsLogicItem(filled.types[i.element]) ensures !filled.Inverted(i) {
      if i.element < n {
        assert filled.types[..n][i.element] == linked.types[i.element];
        assert filled.inputInverters[..n][i.element] == linked.inputInverters[i.element];
        assert elements.HasInput(i) && !elements.Inverted(i);
      }
    }
  }

  lemma InvertersAreOfItems(layout: Layout, was: Circuit, now: Circuit)
    requires IsLayout(layout) && was.Valid() && now.Valid() && ItemsFit(was, layout) && OnlyItemsInverted(was)
    requires InvertersSet(layout, was, now, |layout.items|, 0) && AllItemsConnected(was)
    ensures ItemInvertersOnly(now) && AllItemsConnected(now)
  {
    assert now.types == was.types && now.outputConnections == was.outputConnections;
    assert now.inputConnections == was.inputConnections;
    forall p | IsItemOutput(now, p) ensures now.Target(p).Some? {
      assert IsItemOutput(was, p) && was.Target(p) == now.Target(p);
    }
    forall i | now.HasInput(i) && now.Inverted(i) && !IsLogicItem(now.types[i.element])
      ensures now.Driver(i).Some? && IsLogicItem(now.types[now.Driver(i).value.element])
    {
      assert was.HasInput(i) && !was.Inverted(i) && DrivenInverted(layout, was, i);
      assert layout.items[was.Driver(i).value.element] in layout.items;
    }
  }
}

/** Simulations of generated schematics. */
module GeneratedSimulations {
  import opened Wrappers
  import opened ElementLogic
  import opened Schematics
  import opened SimulationModel
  import opened SimulationStart
  import opened ClockGenerators
  import opened SchematicGeneration

  /** No input of a wire is inverted unless a logic item drives it, so outputs and targets agree in all runs. */
  lemma GeneratedIsAlwaysConsistent(c: Circuit)
    requires Runnable(c) && ItemInvertersOnly(c)
    ensures NoWireStartsHigh(c) && AlwaysConsistent(c)
  {
    hide AlwaysConsistent;
    forall o | c.HasOutput(o) && c.Target(o).Some? ensures !StartsHigh(c, o.element) {
      var i := Input(o.element, 0);
      if o.element < c.Size() && c.types[o.element] == Wire && c.HasInput(i) && c.Inverted(i) {
        assert c.Driver(i).Some? && IsLogicItem(c.types[c.Driver(i).value.element]);
      }
    }
    AlwaysConsistentIff(c);
  }

  /** The clock generators of a layout have their loops, unless the layout names an end twice or inverts a loop. */
  lemma GeneratorsAreLooped(layout: Layout, delayPerDistance: nat, c: Circuit, e: nat)
    requires Runnable(c) && HaveAttributes(layout, delayPerDistance, c) && IsWired(layout, c) && AreInverted(layout, c)
    requires NamesEndsOnce(layout) && IsInsertedItem(layout, e) && layout.items[e].data.elementType == ClockGenerator
    requires forall k :: 1 <= k <= 2 ==>
      !IsInvertedInput(layout, Input(e, k)) && !IsInvertedOutput(layout, Output(e, k))
    ensures IsLooped(c, e)
  {
    hide NamesEndsOnce, IsInvertedInput, IsInvertedOutput;
    assert HasAttributes(layout, delayPerDistance, c, e);
    forall k: nat | 1 <= k <= 2
      ensures c.HasOutput(Output(e, k)) && c.Target(Output(e, k)) == Some(Input(e, k)) && !c.Inverted(Input(e, k))
    {
      var l := Link(Input(e, k), Output(e, k));
      assert IsLoop(layout, l) && NamesLink(layout, l) && IsLinked(c, l);
      assert c.Driver(Input(e, k)) == Some(Output(e, k));
    }
    assert c.Target(Output(e, 1)) == Some(Input(e, 1)) && c.Target(Output(e, 2)) == Some(Input(e, 2));
    assert !c.Inverted(Input(e, 1)) && !c.Inverted(Input(e, 2));
  }
}
