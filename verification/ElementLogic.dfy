/**
 The element types of a schematic, their sizes and their logic: how the inputs of an element change its
 internal state, and which output values it drives.
 */
module ElementLogic {
  import opened Wrappers

  datatype ElementType =
    | BufferElement | AndElement | OrElement | XorElement
    | Button | Led | DisplayNumber | DisplayAscii
    | ClockGenerator | FlipflopJK | ShiftRegister | LatchD | FlipflopD | FlipflopMSD
    | SubCircuit
    | Unused | Placeholder | Wire

  predicate IsLogicItem(t: ElementType) {
    t != Unused && t != Placeholder && t != Wire
  }

  predicate HasNoLogic(t: ElementType) {
    t == Placeholder || t == Led || t == DisplayAscii || t == DisplayNumber
  }

  function InternalStateSize(t: ElementType): nat {
    match t
    case Button => 1
    case ClockGenerator => 4
    case FlipflopJK => 2
    case ShiftRegister => 10
    case LatchD => 1
    case FlipflopD => 1
    case FlipflopMSD => 2
    case _ => 0
  }

  predicate HasInternalState(t: ElementType) {
    InternalStateSize(t) != 0
  }

  /** The pairs (output, input) that an element loops back to itself. */
  function InternalConnections(t: ElementType): seq<(nat, nat)> {
    if t == ClockGenerator then [(1, 1), (2, 2)] else []
  }

  predicate IsStateUserWritable(t: ElementType) {
    InternalConnections(t) == []
  }

  function EnableInput(t: ElementType): Option<nat> {
    if t == DisplayNumber || t == DisplayAscii || t == ClockGenerator then Some(0) else None
  }

  predicate CountsValid(t: ElementType, inputs: nat, outputs: nat) {
    match t
    case BufferElement => inputs == 1 && outputs == 1
    case AndElement => 2 <= inputs <= 128 && outputs == 1
    case OrElement => 2 <= inputs <= 128 && outputs == 1
    case XorElement => 2 <= inputs <= 128 && outputs == 1
    case Button => inputs == 0 && outputs == 1
    case Led => inputs == 1 && outputs == 0
    case DisplayNumber => 3 <= inputs <= 66 && outputs == 0
    case DisplayAscii => inputs == 8 && outputs == 0
    case ClockGenerator => inputs == 3 && outputs == 3
    case FlipflopJK => inputs == 5 && outputs == 2
    case ShiftRegister => inputs == 3 && outputs == 2
    case LatchD => inputs == 2 && outputs == 1
    case FlipflopD => inputs == 4 && outputs == 1
    case FlipflopMSD => inputs == 4 && outputs == 1
    case SubCircuit => true
    case Unused => inputs == 0 && outputs == 0
    case Placeholder => inputs == 1 && outputs == 0
    case Wire => inputs <= 1
  }

  /** The types whose logic the simulation can evaluate: sub-circuits may be placed but not simulated. */
  predicate IsSimulatable(t: ElementType, outputs: nat) {
    t == SubCircuit ==> outputs == 0
  }

  /** Clock generator state: enabled, output value, on-finish event, off-finish event. */
  function UpdateClockGenerator(oldInput: seq<bool>, newInput: seq<bool>, state: seq<bool>): (r: seq<bool>)
    requires |oldInput| == |newInput| == 3 && |state| == 4
    ensures |r| == 4
  {
    var onFinished := newInput[1] != oldInput[1];
    var offFinished := newInput[2] != oldInput[2];
    if !state[0] then
      if newInput[0] then [true, true, !state[2], state[3]] else state
    else if onFinished then [true, false, state[2], !state[3]]
    else if offFinished then
      if newInput[0] then [true, true, !state[2], state[3]] else [false, state[1], state[2], state[3]]
    else state
  }

  function UpdateFlipflopJK(oldInput: seq<bool>, newInput: seq<bool>, state: seq<bool>): (r: seq<bool>)
    requires |oldInput| == |newInput| == 5 && |state| == 2
    ensures |r| == 2
  {
    if newInput[4] then [false, false]
    else if newInput[3] then [true, true]
    else if newInput[0] && !oldInput[0] then
      if newInput[1] && newInput[2] then [!state[1], state[1]]
      else if newInput[1] then [true, state[1]]
      else if newInput[2] then [false, state[1]]
      else state
    else if !newInput[0] && oldInput[0] then [state[0], state[0]]
    else state
  }

  /** A rising edge stores the data inputs, a falling edge shifts the register by their number. */
  function UpdateShiftRegister(oldInput: seq<bool>, newInput: seq<bool>, state: seq<bool>): (r: seq<bool>)
    requires |oldInput| == |newInput| == 3 && |state| == 10
    ensures |r| == 10
  {
    if newInput[0] && !oldInput[0] then newInput[1..] + state[2..]
    else if !newInput[0] && oldInput[0] then state[..2] + state[..8]
    else state
  }

  function UpdateFlipflopD(oldInput: seq<bool>, newInput: seq<bool>, state: seq<bool>): (r: seq<bool>)
    requires |oldInput| == |newInput| == 4 && |state| == 1
    ensures |r| == 1
  {
    if newInput[3] then [false]
    else if newInput[2] then [true]
    else if newInput[0] && !oldInput[0] then [newInput[1]]
    else state
  }

  function UpdateFlipflopMSD(oldInput: seq<bool>, newInput: seq<bool>, state: seq<bool>): (r: seq<bool>)
    requires |oldInput| == |newInput| == 4 && |state| == 2
    ensures |r| == 2
  {
    if newInput[3] then [false, false]
    else if newInput[2] then [true, true]
    else if newInput[0] && !oldInput[0] then [newInput[1], state[1]]
    else if !newInput[0] && oldInput[0] then [state[0], state[0]]
    else state
  }

  function UpdateInternalState(oldInput: seq<bool>, newInput: seq<bool>, t: ElementType, outputs: nat,
                               state: seq<bool>): (r: seq<bool>)
    requires HasInternalState(t) && |oldInput| == |newInput|
    requires CountsValid(t, |newInput|, outputs) && |state| == InternalStateSize(t)
    ensures |r| == |state|
  {
    match t
    case Button => state
    case ClockGenerator => UpdateClockGenerator(oldInput, newInput, state)
    case FlipflopJK => UpdateFlipflopJK(oldInput, newInput, state)
    case ShiftRegister => UpdateShiftRegister(oldInput, newInput, state)
    case LatchD => if newInput[0] then [newInput[1]] else state
    case FlipflopD => UpdateFlipflopD(oldInput, newInput, state)
    case FlipflopMSD => UpdateFlipflopMSD(oldInput, newInput, state)
  }

  function Last(values: seq<bool>, n: nat): (r: seq<bool>)
    requires n <= |values|
    ensures |r| == n
  {
    values[|values| - n..]
  }

  function OutputsFromState(state: seq<bool>, inputs: nat, outputs: nat, t: ElementType): (r: seq<bool>)
    requires HasInternalState(t) && CountsValid(t, inputs, outputs) && |state| == InternalStateSize(t)
    ensures |r| == outputs
  {
    match t
    case Button => [state[0]]
    case ClockGenerator => [state[1], state[2], state[3]]
    case FlipflopJK => [state[1], !state[1]]
    case ShiftRegister => Last(state, outputs)
    case LatchD => [state[0]]
    case FlipflopD => [state[0]]
    case FlipflopMSD => [state[1]]
  }

  function CountTrue(values: seq<bool>): nat {
    if values == [] then 0 else (if values[0] then 1 else 0) + CountTrue(values[1..])
  }

  /** Whether an element without internal state computes its outputs; a wire needs an input to copy. */
  predicate IsCombinational(t: ElementType, inputs: nat, outputs: nat) {
    !HasInternalState(t) && CountsValid(t, inputs, outputs) && IsSimulatable(t, outputs) && inputs > 0 && outputs > 0
  }

  function OutputsFromInputs(input: seq<bool>, outputs: nat, t: ElementType): (r: seq<bool>)
    requires IsCombinational(t, |input|, outputs)
    ensures |r| == outputs
  {
    match t
    case Wire => seq(outputs, _ => input[0])
    case BufferElement => [input[0]]
    case AndElement => [forall i :: 0 <= i < |input| ==> input[i]]
    case OrElement => [exists i :: 0 <= i < |input| && input[i]]
    case XorElement => [CountTrue(input) == 1]
  }
}
