/**
 The schematic: elements with inputs and outputs, and the connections between them, stored twice, once
 from each side.
 */
module Schematics {
  import opened Wrappers
  import opened ElementLogic

  datatype Input = Input(element: nat, id: nat)
  datatype Output = Output(element: nat, id: nat)

  /** The contents of a schematic as a value; a simulation owns one that never changes. */
  datatype Circuit = Circuit(
    types: seq<ElementType>,
    inputConnections: seq<seq<Option<Output>>>,
    outputConnections: seq<seq<Option<Input>>>,
    inputInverters: seq<seq<bool>>,
    outputDelays: seq<seq<int>>,
    historyLengths: seq<int>)
  {
    function Size(): nat { |types| }

    ghost predicate SameSizes() {
      && |inputConnections| == |types| && |outputConnections| == |types| && |inputInverters| == |types|
      && |outputDelays| == |types| && |historyLengths| == |types|
      && (forall e :: 0 <= e < |types| ==>
            |inputInverters[e]| == |inputConnections[e]| && |outputDelays[e]| == |outputConnections[e]|)
    }

    predicate HasInput(i: Input) {
      i.element < |inputConnections| && i.id < |inputConnections[i.element]|
    }

    predicate HasOutput(o: Output) {
      o.element < |outputConnections| && o.id < |outputConnections[o.element]|
    }

    /** The output that drives an input, if any. */
    function Driver(i: Input): Option<Output>
      requires HasInput(i)
    {
      inputConnections[i.element][i.id]
    }

    /** The input that an output drives, if any. */
    function Target(o: Output): Option<Input>
      requires HasOutput(o)
    {
      outputConnections[o.element][o.id]
    }

    function Inverted(i: Input): bool
      requires SameSizes() && HasInput(i)
    {
      inputInverters[i.element][i.id]
    }

    function Delay(o: Output): int
      requires SameSizes() && HasOutput(o)
    {
      outputDelays[o.element][o.id]
    }

    /** Both sides tell the same story: they are mutually inverse partial maps. */
    ghost predicate Linked() {
      && (forall i :: HasInput(i) && Driver(i).Some? ==>
            HasOutput(Driver(i).value) && Target(Driver(i).value) == Some(i))
      && (forall o :: HasOutput(o) && Target(o).Some? ==>
            HasInput(Target(o).value) && Driver(Target(o).value) == Some(o))
    }

    ghost predicate Valid() {
      && SameSizes()
      && (forall e :: 0 <= e < |types| ==>
            && CountsValid(types[e], |inputConnections[e]|, |outputConnections[e]|)
            && historyLengths[e] >= 0
            && (forall k :: 0 <= k < |outputDelays[e]| ==> outputDelays[e][k] > 0))
      && Linked()
    }

    /** The same elements with the same attributes; only connections may differ. */
    ghost predicate OnlyConnectionsDiffer(was: Circuit) {
      && types == was.types && inputInverters == was.inputInverters
      && outputDelays == was.outputDelays && historyLengths == was.historyLengths
      && |inputConnections| == |was.inputConnections| && |outputConnections| == |was.outputConnections|
      && (forall e :: 0 <= e < |inputConnections| ==> |inputConnections[e]| == |was.inputConnections[e]|)
      && (forall e :: 0 <= e < |outputConnections| ==> |outputConnections[e]| == |was.outputConnections[e]|)
    }

    /** What is left when every link (input, output) that `drop` names is removed, on both sides. */
    function Cut(drop: (Input, Output) -> bool): Circuit {
      this.(
      inputConnections :=
        seq(|inputConnections|, e requires 0 <= e < |inputConnections| =>
          seq(|inputConnections[e]|, k requires 0 <= k < |inputConnections[e]| =>
            var driver := inputConnections[e][k];
            if driver.Some? && drop(Input(e, k), driver.value) then None else driver)),
      outputConnections :=
        seq(|outputConnections|, e requires 0 <= e < |outputConnections| =>
          seq(|outputConnections[e]|, k requires 0 <= k < |outputConnections[e]| =>
            var target := outputConnections[e][k];
            if target.Some? && drop(target.value, Output(e, k)) then None else target)))
    }

    /** The same links and one more. */
    function Joined(i: Input, o: Output): Circuit
      requires HasInput(i) && HasOutput(o)
    {
      this.(
      inputConnections := inputConnections[i.element := inputConnections[i.element][i.id := Some(o)]],
      outputConnections := outputConnections[o.element := outputConnections[o.element][o.id := Some(i)]])
    }
  }

  /** Validity only depends on the attributes, the sizes and the links. */
  lemma ValidWhenLinked(now: Circuit, was: Circuit)
    requires was.Valid() && now.OnlyConnectionsDiffer(was) && now.Linked()
    ensures now.Valid()
    ensures TotalLength(now.inputConnections) == TotalLength(was.inputConnections)
    ensures TotalLength(now.outputConnections) == TotalLength(was.outputConnections)
  {
    TotalLengthOfSameShape(now.inputConnections, was.inputConnections);
    TotalLengthOfSameShape(now.outputConnections, was.outputConnections);
  }

  lemma CutPointwise(c: Circuit, drop: (Input, Output) -> bool)
    ensures c.Cut(drop).OnlyConnectionsDiffer(c)
    ensures forall j :: c.HasInput(j) ==>
      c.Cut(drop).Driver(j) == if c.Driver(j).Some? && drop(j, c.Driver(j).value) then None else c.Driver(j)
    ensures forall p :: c.HasOutput(p) ==>
      c.Cut(drop).Target(p) == if c.Target(p).Some? && drop(c.Target(p).value, p) then None else c.Target(p)
  {
  }

  lemma CutValid(c: Circuit, drop: (Input, Output) -> bool)
    requires c.Valid()
    ensures c.Cut(drop).Valid() && c.Cut(drop).OnlyConnectionsDiffer(c)
    ensures TotalLength(c.Cut(drop).inputConnections) == TotalLength(c.inputConnections)
    ensures TotalLength(c.Cut(drop).outputConnections) == TotalLength(c.outputConnections)
  {
    CutPointwise(c, drop);
    var r := c.Cut(drop);
    forall j | r.HasInput(j) && r.Driver(j).Some?
      ensures r.HasOutput(r.Driver(j).value) && r.Target(r.Driver(j).value) == Some(j)
    {
      assert c.HasInput(j) && c.Driver(j) == r.Driver(j);
    }
    forall p | r.HasOutput(p) && r.Target(p).Some?
      ensures r.HasInput(r.Target(p).value) && r.Driver(r.Target(p).value) == Some(p)
    {
      assert c.HasOutput(p) && c.Target(p) == r.Target(p);
    }
    ValidWhenLinked(r, c);
  }

  /** Two circuits that differ only in connections are equal when every input and every output agrees. */
  lemma SameLinks(a: Circuit, b: Circuit)
    requires a.OnlyConnectionsDiffer(b)
    requires forall j :: a.HasInput(j) ==> a.Driver(j) == b.Driver(j)
    requires forall p :: a.HasOutput(p) ==> a.Target(p) == b.Target(p)
    ensures a == b
  {
    forall e | 0 <= e < |a.inputConnections| ensures a.inputConnections[e] == b.inputConnections[e] {
      forall k | 0 <= k < |a.inputConnections[e]| ensures a.inputConnections[e][k] == b.inputConnections[e][k] {
        assert a.HasInput(Input(e, k)) && a.Driver(Input(e, k)) == b.Driver(Input(e, k));
      }
    }
    forall e | 0 <= e < |a.outputConnections| ensures a.outputConnections[e] == b.outputConnections[e] {
      forall k | 0 <= k < |a.outputConnections[e]| ensures a.outputConnections[e][k] == b.outputConnections[e][k] {
        assert a.HasOutput(Output(e, k)) && a.Target(Output(e, k)) == b.Target(Output(e, k));
      }
    }
  }

  /** The links of one input, of one output, of both, of an element, or of some of its inputs and outputs. */
  function ByInput(i: Input): (Input, Output) -> bool { (j, p) => j == i }

  function ByOutput(o: Output): (Input, Output) -> bool { (j, p) => p == o }

  function ByBoth(i: Input, o: Output): (Input, Output) -> bool { (j, p) => j == i && p == o }

  function ByEither(i: Input, o: Output): (Input, Output) -> bool { (j, p) => j == i || p == o }

  function ByElement(e: nat): (Input, Output) -> bool { (j: Input, p: Output) => j.element == e || p.element == e }

  function ByFirst(e: nat, ins: nat, outs: nat): (Input, Output) -> bool {
    (j: Input, p: Output) => (j.element == e && j.id < ins) || (p.element == e && p.id < outs)
  }

  /** Cutting twice cuts what either cut names. */
  lemma CutTwice(c: Circuit, first: (Input, Output) -> bool, second: (Input, Output) -> bool,
                 both: (Input, Output) -> bool)
    requires c.Linked()
    requires forall j, p :: c.HasInput(j) && c.Driver(j) == Some(p) ==> both(j, p) == (first(j, p) || second(j, p))
    ensures c.Cut(first).Cut(second) == c.Cut(both)
  {
    CutPointwise(c, first);
    CutPointwise(c.Cut(first), second);
    CutPointwise(c, both);
    SameLinks(c.Cut(first).Cut(second), c.Cut(both));
  }

  /** Cuts that name the same existing links are the same. */
  lemma CutSame(c: Circuit, a: (Input, Output) -> bool, b: (Input, Output) -> bool)
    requires c.Linked()
    requires forall j, p :: c.HasInput(j) && c.Driver(j) == Some(p) ==> a(j, p) == b(j, p)
    ensures c.Cut(a) == c.Cut(b)
  {
    CutPointwise(c, a);
    CutPointwise(c, b);
    SameLinks(c.Cut(a), c.Cut(b));
  }

  /** Cutting a single link writes one entry on each side. */
  lemma CutOne(c: Circuit, i: Input, o: Output, drop: (Input, Output) -> bool)
    requires c.Linked() && c.HasInput(i) && c.Driver(i) == Some(o)
    requires forall j, p :: c.HasInput(j) && c.Driver(j) == Some(p) ==> (drop(j, p) <==> j == i)
    ensures c.HasOutput(o)
    ensures c.Cut(drop) ==
      c.(inputConnections := c.inputConnections[i.element := c.inputConnections[i.element][i.id := None]],
         outputConnections := c.outputConnections[o.element := c.outputConnections[o.element][o.id := None]])
  {
    CutPointwise(c, drop);
    var r :=
      c.(inputConnections := c.inputConnections[i.element := c.inputConnections[i.element][i.id := None]],
         outputConnections := c.outputConnections[o.element := c.outputConnections[o.element][o.id := None]]);
    forall p | r.HasOutput(p) ensures r.Target(p) == c.Cut(drop).Target(p) {
      assert c.HasOutput(p);
    }
    forall j | r.HasInput(j) ensures r.Driver(j) == c.Cut(drop).Driver(j) {
      assert c.HasInput(j);
    }
    SameLinks(r, c.Cut(drop));
  }

  /** Cutting what is not there changes nothing. */
  lemma CutNone(c: Circuit, drop: (Input, Output) -> bool)
    requires c.Linked()
    requires forall j, p :: c.HasInput(j) && c.Driver(j) == Some(p) ==> !drop(j, p)
    ensures c.Cut(drop) == c
  {
    CutPointwise(c, drop);
    SameLinks(c.Cut(drop), c);
  }

  lemma JoinedPointwise(c: Circuit, i: Input, o: Output)
    requires c.HasInput(i) && c.HasOutput(o)
    ensures c.Joined(i, o).OnlyConnectionsDiffer(c)
    ensures forall j :: c.HasInput(j) ==> c.Joined(i, o).Driver(j) == if j == i then Some(o) else c.Driver(j)
    ensures forall p :: c.HasOutput(p) ==> c.Joined(i, o).Target(p) == if p == o then Some(i) else c.Target(p)
  {
  }

  lemma JoinedValid(c: Circuit, i: Input, o: Output)
    requires c.Valid() && c.HasInput(i) && c.HasOutput(o) && c.Driver(i) == None && c.Target(o) == None
    ensures c.Joined(i, o).Valid() && c.Joined(i, o).OnlyConnectionsDiffer(c)
    ensures TotalLength(c.Joined(i, o).inputConnections) == TotalLength(c.inputConnections)
    ensures TotalLength(c.Joined(i, o).outputConnections) == TotalLength(c.outputConnections)
  {
    JoinedPointwise(c, i, o);
    var r := c.Joined(i, o);
    forall j | r.HasInput(j) && r.Driver(j).Some?
      ensures r.HasOutput(r.Driver(j).value) && r.Target(r.Driver(j).value) == Some(j)
    {
      assert c.HasInput(j) && (j != i ==> c.Driver(j) == r.Driver(j));
    }
    forall p | r.HasOutput(p) && r.Target(p).Some?
      ensures r.HasInput(r.Target(p).value) && r.Driver(r.Target(p).value) == Some(p)
    {
      assert c.HasOutput(p) && (p != o ==> c.Target(p) == r.Target(p));
    }
    ValidWhenLinked(r, c);
  }

  /** A circuit after input i and output o were freed and connected to each other. */
  function Connected(c: Circuit, i: Input, o: Output): Circuit
    requires c.HasInput(i) && c.HasOutput(o)
  {
    var free := c.Cut(ByEither(i, o));
    CutPointwise(c, ByEither(i, o));
    free.Joined(i, o)
  }

  lemma ConnectSteps(c: Circuit, i: Input, o: Output)
    requires c.Valid() && c.HasInput(i) && c.HasOutput(o)
    ensures c.Cut(ByInput(i)).HasOutput(o)
    ensures c.Cut(ByInput(i)).Cut(ByOutput(o)) == c.Cut(ByEither(i, o))
    ensures c.Cut(ByEither(i, o)).HasInput(i) && c.Cut(ByEither(i, o)).HasOutput(o)
    ensures c.Cut(ByEither(i, o)).Driver(i) == None && c.Cut(ByEither(i, o)).Target(o) == None
    ensures Connected(c, i, o) == c.Cut(ByEither(i, o)).Joined(i, o)
    ensures TotalLength(c.Cut(ByEither(i, o)).inputConnections) == TotalLength(c.inputConnections)
    ensures TotalLength(c.Cut(ByEither(i, o)).outputConnections) == TotalLength(c.outputConnections)
  {
    CutValid(c, ByEither(i, o));
    CutPointwise(c, ByInput(i));
    CutPointwise(c, ByEither(i, o));
    CutTwice(c, ByInput(i), ByOutput(o), ByEither(i, o));
  }

  /** One step of freeing an element: the first inputs and outputs are free, and one more becomes free. */
  lemma ClearStep(c: Circuit, e: nat, ins: nat, outs: nat)
    requires c.Valid() && e < c.Size() && ins <= |c.inputConnections[e]| && outs <= |c.outputConnections[e]|
    ensures ins < |c.inputConnections[e]| ==>
      && c.Cut(ByFirst(e, ins, outs)).HasInput(Input(e, ins))
      && c.Cut(ByFirst(e, ins, outs)).Cut(ByInput(Input(e, ins))) == c.Cut(ByFirst(e, ins + 1, outs))
    ensures outs < |c.outputConnections[e]| ==>
      && c.Cut(ByFirst(e, ins, outs)).HasOutput(Output(e, outs))
      && c.Cut(ByFirst(e, ins, outs)).Cut(ByOutput(Output(e, outs))) == c.Cut(ByFirst(e, ins, outs + 1))
  {
    CutPointwise(c, ByFirst(e, ins, outs));
    CutTwice(c, ByFirst(e, ins, outs), ByInput(Input(e, ins)), ByFirst(e, ins + 1, outs));
    CutTwice(c, ByFirst(e, ins, outs), ByOutput(Output(e, outs)), ByFirst(e, ins, outs + 1));
  }

  lemma ClearStart(c: Circuit, e: nat)
    requires c.Valid()
    ensures c.Cut(ByFirst(e, 0, 0)) == c
  {
    CutNone(c, ByFirst(e, 0, 0));
  }

  lemma ClearDone(c: Circuit, e: nat)
    requires c.Valid() && e < c.Size()
    ensures c.Cut(ByFirst(e, |c.inputConnections[e]|, |c.outputConnections[e]|)) == c.Cut(ByElement(e))
  {
    CutSame(c, ByFirst(e, |c.inputConnections[e]|, |c.outputConnections[e]|), ByElement(e));
  }

  lemma ConnectedValid(c: Circuit, i: Input, o: Output)
    requires c.Valid() && c.HasInput(i) && c.HasOutput(o)
    ensures Connected(c, i, o).Valid()
    ensures TotalLength(Connected(c, i, o).inputConnections) == TotalLength(c.inputConnections)
    ensures TotalLength(Connected(c, i, o).outputConnections) == TotalLength(c.outputConnections)
  {
    CutValid(c, ByEither(i, o));
    assert c.Cut(ByEither(i, o)).Driver(i) == None && c.Cut(ByEither(i, o)).Target(o) == None;
    JoinedValid(c.Cut(ByEither(i, o)), i, o);
  }

  /** Connecting links the two ends, frees their former partners and leaves every other link alone. */
  lemma ConnectedPointwise(c: Circuit, i: Input, o: Output)
    requires c.Linked() && c.HasInput(i) && c.HasOutput(o)
    ensures Connected(c, i, o).OnlyConnectionsDiffer(c)
    ensures forall j :: c.HasInput(j) ==>
      Connected(c, i, o).Driver(j) == if j == i then Some(o)
                                      else if c.Driver(j) == Some(o) then None else c.Driver(j)
    ensures forall p :: c.HasOutput(p) ==>
      Connected(c, i, o).Target(p) == if p == o then Some(i)
                                      else if c.Target(p) == Some(i) then None else c.Target(p)
  {
    var free := c.Cut(ByEither(i, o));
    CutPointwise(c, ByEither(i, o));
    JoinedPointwise(free, i, o);
    assert forall j :: c.HasInput(j) ==> free.HasInput(j);
    assert forall p :: c.HasOutput(p) ==> free.HasOutput(p);
  }

  /** A circuit with one more element that is not connected to anything. */
  function Extended(c: Circuit, data: NewElement): Circuit {
    Circuit(c.types + [data.elementType],
            c.inputConnections + [Unconnected(data.inputCount)],
            c.outputConnections + [Unconnected(data.outputCount)],
            c.inputInverters + [data.inputInverters],
            c.outputDelays + [data.outputDelays],
            c.historyLengths + [data.historyLength])
  }

  /** The attributes of the new element as given, its connections free, and every other element as it was. */
  ghost predicate IsAppended(was: Circuit, data: NewElement, now: Circuit) {
    var e := was.Size();
    && was.SameSizes() && now.SameSizes() && now.Size() == e + 1
    && now.types[e] == data.elementType && now.historyLengths[e] == data.historyLength
    && now.inputInverters[e] == data.inputInverters && now.outputDelays[e] == data.outputDelays
    && |now.inputConnections[e]| == data.inputCount && |now.outputConnections[e]| == data.outputCount
    && (forall i :: now.HasInput(i) && i.element == e ==> now.Driver(i).None?)
    && (forall o :: now.HasOutput(o) && o.element == e ==> now.Target(o).None?)
    && (forall d :: 0 <= d < e ==>
          && now.types[d] == was.types[d] && now.historyLengths[d] == was.historyLengths[d]
          && now.inputInverters[d] == was.inputInverters[d] && now.outputDelays[d] == was.outputDelays[d]
          && now.inputConnections[d] == was.inputConnections[d]
          && now.outputConnections[d] == was.outputConnections[d])
  }

  lemma ExtendedPointwise(c: Circuit, data: NewElement)
    requires c.SameSizes()
    ensures AddProblem(data) == None ==> IsAppended(c, data, Extended(c, data))
  {
  }

  /** Input i is free, and so is the output that drove it; every other end is as it was. */
  ghost predicate IsFreedInput(was: Circuit, i: Input, now: Circuit) {
    && now.OnlyConnectionsDiffer(was)
    && (forall j :: was.HasInput(j) ==> now.Driver(j) == if j == i then None else was.Driver(j))
    && (forall p :: was.HasOutput(p) ==> now.Target(p) == if was.Target(p) == Some(i) then None else was.Target(p))
  }

  ghost predicate IsFreedOutput(was: Circuit, o: Output, now: Circuit) {
    && now.OnlyConnectionsDiffer(was)
    && (forall p :: was.HasOutput(p) ==> now.Target(p) == if p == o then None else was.Target(p))
    && (forall j :: was.HasInput(j) ==> now.Driver(j) == if was.Driver(j) == Some(o) then None else was.Driver(j))
  }

  lemma FreesInput(c: Circuit, i: Input)
    requires c.Linked() && c.HasInput(i)
    ensures IsFreedInput(c, i, c.Cut(ByInput(i)))
  {
    CutPointwise(c, ByInput(i));
  }

  lemma FreesOutput(c: Circuit, o: Output)
    requires c.Linked() && c.HasOutput(o)
    ensures IsFreedOutput(c, o, c.Cut(ByOutput(o)))
  {
    CutPointwise(c, ByOutput(o));
  }

  /** No connection of element e is left, and no other connection has changed. */
  ghost predicate IsIsolated(was: Circuit, e: nat, now: Circuit) {
    && now.OnlyConnectionsDiffer(was)
    && (forall i :: now.HasInput(i) && now.Driver(i).Some? ==>
          was.HasInput(i) && now.Driver(i) == was.Driver(i) && i.element != e && now.Driver(i).value.element != e)
    && (forall i :: was.HasInput(i) && was.Driver(i).Some? && i.element != e && was.Driver(i).value.element != e ==>
          now.HasInput(i) && now.Driver(i) == was.Driver(i))
  }

  lemma Isolates(c: Circuit, e: nat)
    ensures IsIsolated(c, e, c.Cut(ByElement(e)))
  {
    CutPointwise(c, ByElement(e));
  }

  lemma ExtendedValid(c: Circuit, data: NewElement)
    requires c.Valid() && AddProblem(data) == None
    ensures Extended(c, data).Valid()
    ensures TotalLength(Extended(c, data).inputConnections) == TotalLength(c.inputConnections) + data.inputCount
    ensures TotalLength(Extended(c, data).outputConnections) == TotalLength(c.outputConnections) + data.outputCount
  {
    var r := Extended(c, data);
    assert r.inputConnections[..|r.inputConnections| - 1] == c.inputConnections;
    assert r.outputConnections[..|r.outputConnections| - 1] == c.outputConnections;
    forall j | r.HasInput(j) && r.Driver(j).Some?
      ensures r.HasOutput(r.Driver(j).value) && r.Target(r.Driver(j).value) == Some(j)
    {
      assert c.HasInput(j) && c.Driver(j) == r.Driver(j);
    }
    forall p | r.HasOutput(p) && r.Target(p).Some?
      ensures r.HasInput(r.Target(p).value) && r.Driver(r.Target(p).value) == Some(p)
    {
      assert c.HasOutput(p) && c.Target(p) == r.Target(p);
    }
  }

  datatype NewElement = NewElement(
    elementType: ElementType, inputCount: nat, outputCount: nat,
    inputInverters: seq<bool>, outputDelays: seq<int>, historyLength: int)

  datatype AddError =
    | InverterCountMismatch | DelayCountMismatch | DelayNotPositive | HistoryNegative | CountsNotValid

  /** The first check that a new element fails. */
  function AddProblem(data: NewElement): Option<AddError> {
    if |data.inputInverters| != data.inputCount then Some(InverterCountMismatch)
    else if |data.outputDelays| != data.outputCount then Some(DelayCountMismatch)
    else if exists k :: 0 <= k < |data.outputDelays| && data.outputDelays[k] <= 0 then Some(DelayNotPositive)
    else if data.historyLength < 0 then Some(HistoryNegative)
    else if !CountsValid(data.elementType, data.inputCount, data.outputCount) then Some(CountsNotValid)
    else None
  }

  /** Everything has its count and its sign. */
  ghost predicate IsAcceptable(data: NewElement) {
    && |data.inputInverters| == data.inputCount && |data.outputDelays| == data.outputCount
    && (forall delay :: delay in data.outputDelays ==> delay > 0)
    && data.historyLength >= 0 && CountsValid(data.elementType, data.inputCount, data.outputCount)
  }

  lemma AcceptedIff(data: NewElement)
    ensures AddProblem(data).None? <==> IsAcceptable(data)
  {
    if k :| 0 <= k < |data.outputDelays| && data.outputDelays[k] <= 0 {
      assert data.outputDelays[k] in data.outputDelays;
    }
  }

  function Unconnected<T>(n: nat): seq<Option<T>> {
    seq(n, _ => None)
  }

  function TotalLength<T>(rows: seq<seq<T>>): nat {
    if rows == [] then 0 else TotalLength(rows[..|rows| - 1]) + |rows[|rows| - 1]|
  }

  lemma {:induction false} TotalLengthOfSameShape<T>(a: seq<seq<T>>, b: seq<seq<T>>)
    requires |a| == |b| && forall e :: 0 <= e < |a| ==> |a[e]| == |b[e]|
    ensures TotalLength(a) == TotalLength(b)
  {
    if a != [] {
      TotalLengthOfSameShape(a[..|a| - 1], b[..|b| - 1]);
    }
  }

  class Schematic {
    var elementTypes: seq<ElementType>
    var inputConnections: seq<seq<Option<Output>>>
    var outputConnections: seq<seq<Option<Input>>>
    var inputInverters: seq<seq<bool>>
    var outputDelays: seq<seq<int>>
    var historyLengths: seq<int>
    var totalInputCount: nat
    var totalOutputCount: nat

    ghost function Value(): Circuit
      reads this
    {
      Circuit(elementTypes, inputConnections, outputConnections, inputInverters, outputDelays, historyLengths)
    }

    ghost predicate Valid()
      reads this
    {
      && Value().Valid()
      && totalInputCount == TotalLength(inputConnections)
      && totalOutputCount == TotalLength(outputConnections)
    }

    constructor ()
      ensures Valid() && Value() == Circuit([], [], [], [], [], [])
    {
      elementTypes, inputConnections, outputConnections := [], [], [];
      inputInverters, outputDelays, historyLengths := [], [], [];
      totalInputCount, totalOutputCount := 0, 0;
    }

    method Clear()
      modifies this
      ensures Valid() && Value() == Circuit([], [], [], [], [], [])
    {
      elementTypes, inputConnections, outputConnections := [], [], [];
      inputInverters, outputDelays, historyLengths := [], [], [];
      totalInputCount, totalOutputCount := 0, 0;
    }

    /** Appends an unconnected element; no existing element, connection or attribute changes. */
    method AddElement(data: NewElement) returns (r: Result<nat, AddError>)
      requires Valid()
      modifies this
      ensures Valid()
      ensures AddProblem(data).Some? ==> r == Err(AddProblem(data).value) && Value() == old(Value())
      ensures AddProblem(data).None? ==> r == Ok(old(Value()).Size())
      ensures AddProblem(data).None? ==> Value() == Extended(old(Value()), data)
      ensures r.Ok? <==> IsAcceptable(data)
      ensures r.Ok? ==> r.value == |old(elementTypes)| && IsAppended(old(Value()), data, Value())
      ensures r.Ok? ==> totalInputCount == old(totalInputCount) + data.inputCount
      ensures r.Ok? ==> totalOutputCount == old(totalOutputCount) + data.outputCount
    {
      hide IsAppended, TotalLength;
      ExtendedPointwise(Value(), data);
      AcceptedIff(data);
      var problem := AddProblem(data);
      if problem.Some? {
        return Err(problem.value);
      }
      ghost var next := Extended(Value(), data);
      ExtendedValid(Value(), data);
      elementTypes := elementTypes + [data.elementType];
      inputConnections := inputConnections + [Unconnected(data.inputCount)];
      outputConnections := outputConnections + [Unconnected(data.outputCount)];
      inputInverters := inputInverters + [data.inputInverters];
      outputDelays := outputDelays + [data.outputDelays];
      historyLengths := historyLengths + [data.historyLength];
      totalInputCount := totalInputCount + data.inputCount;
      totalOutputCount := totalOutputCount + data.outputCount;
      assert Value() == next;
      return Ok(|elementTypes| - 1);
    }

    method ClearConnection(i: Input, o: Output)
      requires Valid() && Value().HasInput(i) && Value().Driver(i) == Some(o)
      modifies this
      ensures Valid() && Value() == old(Value()).Cut(ByBoth(i, o))
    {
      ghost var next := Value().Cut(ByBoth(i, o));
      CutOne(Value(), i, o, ByBoth(i, o));
      CutValid(Value(), ByBoth(i, o));
      inputConnections := inputConnections[i.element := inputConnections[i.element][i.id := None]];
      outputConnections := outputConnections[o.element := outputConnections[o.element][o.id := None]];
      assert Value() == next;
    }

    method ClearInput(i: Input)
      requires Valid() && Value().HasInput(i)
      modifies this
      ensures Valid() && Value() == old(Value()).Cut(ByInput(i))
      ensures IsFreedInput(old(Value()), i, Value())
    {
      hide IsFreedInput;
      FreesInput(Value(), i);
      var driver := inputConnections[i.element][i.id];
      if driver.Some? {
        CutOne(Value(), i, driver.value, ByInput(i));
        CutOne(Value(), i, driver.value, ByBoth(i, driver.value));
        ClearConnection(i, driver.value);
      } else {
        CutNone(Value(), ByInput(i));
      }
    }

    method ClearOutput(o: Output)
      requires Valid() && Value().HasOutput(o)
      modifies this
      ensures Valid() && Value() == old(Value()).Cut(ByOutput(o))
      ensures IsFreedOutput(old(Value()), o, Value())
    {
      hide IsFreedOutput;
      FreesOutput(Value(), o);
      var target := outputConnections[o.element][o.id];
      if target.Some? {
        CutOne(Value(), target.value, o, ByOutput(o));
        CutOne(Value(), target.value, o, ByBoth(target.value, o));
        ClearConnection(target.value, o);
      } else {
        CutNone(Value(), ByOutput(o));
      }
    }

    method Connect(i: Input, o: Output)
      requires Valid() && Value().HasInput(i) && Value().HasOutput(o)
      modifies this
      ensures Valid() && Value() == Connected(old(Value()), i, o)
    {
      ghost var next := Connected(Value(), i, o);
      ghost var free := Value().Cut(ByEither(i, o));
      ConnectedValid(Value(), i, o);
      ConnectSteps(Value(), i, o);
      ClearInput(i);
      ClearOutput(o);
      JoinedValid(free, i, o);
      Join(i, o);
    }

    /** The last step of connecting: both ends are free. */
    method Join(i: Input, o: Output)
      requires Valid() && Value().HasInput(i) && Value().HasOutput(o)
      requires Value().Driver(i) == None && Value().Target(o) == None
      modifies this
      ensures Valid() && Value() == old(Value()).Joined(i, o)
    {
      ghost var was := Value();
      JoinedValid(was, i, o);
      outputConnections := outputConnections[o.element := outputConnections[o.element][o.id := Some(i)]];
      inputConnections := inputConnections[i.element := inputConnections[i.element][i.id := Some(o)]];
      assert Value() == was.Joined(i, o);
    }

    /** Frees every input and every output of an element, and with them the other ends. */
    method ClearAllConnections(e: nat)
      requires Valid() && e < Value().Size()
      modifies this
      ensures Valid() && Value() == old(Value()).Cut(ByElement(e))
      ensures IsIsolated(old(Value()), e, Value())
    {
      ghost var was := Value();
      Isolates(was, e);
      var ins, outs := |inputConnections[e]|, |outputConnections[e]|;
      ClearStart(was, e);
      for k := 0 to ins
        invariant Valid() && Value() == was.Cut(ByFirst(e, k, 0))
      {
        ClearStep(was, e, k, 0);
        ClearInput(Input(e, k));
      }
      for k := 0 to outs
        invariant Valid() && Value() == was.Cut(ByFirst(e, ins, k))
      {
        ClearStep(was, e, ins, k);
        ClearOutput(Output(e, k));
      }
      ClearDone(was, e);
    }

    method SetInputInverter(i: Input, value: bool)
      requires Valid() && Value().HasInput(i)
      modifies this`inputInverters
      ensures Valid()
      ensures Value() == old(Value()).(inputInverters := inputInverters)
      ensures forall j :: Value().HasInput(j) ==>
        Value().Inverted(j) == if j == i then value else old(Value()).Inverted(j)
    {
      ghost var was := Value();
      inputInverters := inputInverters[i.element := inputInverters[i.element][i.id := value]];
      assert forall j :: Value().HasInput(j) ==> was.HasInput(j) && Value().Driver(j) == was.Driver(j);
      assert forall p :: Value().HasOutput(p) ==> was.HasOutput(p) && Value().Target(p) == was.Target(p);
    }
  }
}
