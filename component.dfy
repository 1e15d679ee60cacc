/**
 VariableParameterTestComponent: a Grasshopper node whose output list is
 grown or shrunk to a requested count when the user presses its refresh button,
 and whose input list keeps two fixed integer inputs.
 */
module VariableParameterTest {
  import opened ParamList

  /** GH_ParameterSide. */
  datatype Side = Input | Output

  /** What DA.GetData yields for one input: its integer, or `None` when the read fails. */
  datatype Option<T> = None | Some(value: T)

  /**
   How MatchParameterCount ends: normally, or with the ArgumentOutOfRangeException
   that the output list's indexer raises for `Output[-1]`.
   */
  datatype Outcome = Completed | ArgumentOutOfRange

  /** The inputs RegisterInputParams declares and CanRemoveParameter keeps. */
  const FixedInputCount: nat := 2

  /** Input 0, registered under the name "OutputParamNo". */
  const OutputParamNoInput: Param := Param(0, IntegerParam, "OutputParamNo", "OutputParamNo", "OutputParamNo", Item)

  /** Input 1, registered under the name "InputParamNo". */
  const InputParamNoInput: Param := Param(1, IntegerParam, "InputParamNo", "InputParamNo", "InputParamNo", Item)

  class Component {
    /** Params.Input and Params.Output. */
    var inputs: seq<Param>
    var outputs: seq<Param>
    /** The two integer targets that SolveInstance fills in. */
    var outputparamno: int
    var inputparamno: int
    /** How many times OnAttributesChanged and ExpireSolution(true) have been issued. */
    var attributesChanged: nat
    var expireRequests: nat
    /** The identity the host gives the next parameter object it allocates. */
    var nextId: nat

    /**
     The component always keeps at least its two fixed inputs, and every
     registered parameter is an object the host has already allocated.
     */
    ghost predicate Valid()
      reads this
    {
      |inputs| >= FixedInputCount && IdsBelow(inputs, nextId) && IdsBelow(outputs, nextId)
    }

    /** The constructor together with RegisterInputParams and RegisterOutputParams. */
    constructor ()
      ensures Valid()
      ensures inputs == [OutputParamNoInput, InputParamNoInput] && outputs == []
      ensures outputparamno == 0 && inputparamno == 0
      ensures attributesChanged == 0 && expireRequests == 0
      ensures nextId == 2
    {
      inputs := [OutputParamNoInput, InputParamNoInput];
      outputs := [];
      outputparamno, inputparamno := 0, 0;
      attributesChanged, expireRequests := 0, 0;
      nextId := 2;
    }

    /**
     Copies the data the host delivers at input positions 0 and 1 into the two
     targets, stopping at the first read that fails (`None`). Position 0 is the
     input registered as "OutputParamNo", yet its value lands in `inputparamno`,
     and position 1 ("InputParamNo") lands in `outputparamno`.
     */
    method SolveInstance(data0: Option<int>, data1: Option<int>)
      requires Valid()
      modifies this`inputparamno, this`outputparamno
      ensures data0.None? ==> inputparamno == old(inputparamno) && outputparamno == old(outputparamno)
      ensures data0.Some? ==> inputparamno == data0.value
      ensures data0.Some? && data1.None? ==> outputparamno == old(outputparamno)
      ensures data0.Some? && data1.Some? ==> outputparamno == data1.value
    {
      if data0.None? { return; }
      inputparamno := data0.value;
      if data1.None? { return; }
      outputparamno := data1.value;
    }

    /** Any parameter may be inserted anywhere, on either side. */
    function CanInsertParameter(side: Side, index: int): (r: bool)
      ensures r
    {
      true
    }

    /**
     An input may be removed only while more than the two fixed inputs remain,
     and an output whenever there is one. The index is not consulted.
     */
    function CanRemoveParameter(side: Side, index: int): (r: bool)
      reads this
      ensures side == Input ==> (r <==> |inputs| - 1 >= FixedInputCount)
      ensures side == Output ==> (r <==> outputs != [])
    {
      if side == Input then |inputs| > FixedInputCount else |outputs| > 0
    }

    /** Nothing is released when a parameter is destroyed; it always agrees. */
    function DestroyParameter(side: Side, index: int): (r: bool)
      ensures r
    {
      true
    }

    /**
     The host's removal of the parameter at `index`: it asks CanRemoveParameter
     and DestroyParameter first and unregisters the parameter only if both agree.
     */
    method RemoveParameter(side: Side, index: nat) returns (removed: bool)
      requires Valid()
      requires index < if side == Input then |inputs| else |outputs|
      modifies this`inputs, this`outputs
      ensures Valid()
      ensures removed == old(CanRemoveParameter(side, index))
      ensures side == Input && removed ==> inputs == old(inputs[..index] + inputs[index + 1..])
      ensures side == Output && removed ==> outputs == old(outputs[..index] + outputs[index + 1..])
      ensures side == Output || !removed ==> inputs == old(inputs)
      ensures side == Input || !removed ==> outputs == old(outputs)
    {
      removed := CanRemoveParameter(side, index) && DestroyParameter(side, index);
      if removed {
        if side == Input {
          inputs := inputs[..index] + inputs[index + 1..];
        } else {
          outputs := outputs[..index] + outputs[index + 1..];
        }
      }
    }

    /**
     The host's insertion at `index` of the parameter that CreateParameter made
     with the attributes of `made`; the host allocates it as a new object. Since
     CanInsertParameter always agrees, an input can be placed in front of the
     two fixed inputs, after which SolveInstance reads from it at position 0.
     */
    method InsertParameter(side: Side, index: nat, made: Param) returns (p: Param)
      requires Valid()
      requires index <= if side == Input then |inputs| else |outputs|
      modifies this`inputs, this`outputs, this`nextId
      ensures Valid()
      ensures p == made.(id := old(nextId)) && nextId == old(nextId) + 1
      ensures side == Input ==> inputs == old(inputs[..index]) + [p] + old(inputs[index..]) && outputs == old(outputs)
      ensures side == Output ==> outputs == old(outputs[..index]) + [p] + old(outputs[index..]) && inputs == old(inputs)
      ensures side == Input && index < FixedInputCount ==> inputs[index] == p && inputs[FixedInputCount] == old(inputs[FixedInputCount - 1])
    {
      p := made.(id := nextId);
      nextId := nextId + 1;
      if CanInsertParameter(side, index) {
        if side == Input {
          inputs := inputs[..index] + [p] + inputs[index..];
        } else {
          outputs := outputs[..index] + [p] + outputs[index..];
        }
      }
    }

    /**
     Registers new generic outputs, or unregisters the last output, one at a
     time until the output count equals `outputparamno`, then issues one
     attributes-changed notification and one expire-solution request. An
     unregistered output is gone with its wires: growing again registers new
     objects. With a negative target every output is removed and the next
     removal indexes `Output[-1]`: the exception leaves the outputs empty and
     skips both calls.
     */
    method MatchParameterCount() returns (outcome: Outcome)
      requires Valid()
      modifies this`outputs, this`nextId, this`attributesChanged, this`expireRequests
      ensures Valid()
      ensures outcome == Completed <==> outputparamno >= 0
      ensures outputparamno >= 0 ==> outputs == Reconciled(old(outputs), outputparamno, old(nextId))
      ensures outputparamno >= 0 ==> nextId == old(nextId) + Registrations(old(outputs), outputparamno)
      ensures outputparamno >= 0 ==> attributesChanged == old(attributesChanged) + 1 && expireRequests == old(expireRequests) + 1
      ensures outputparamno < 0 ==> outputs == [] && nextId == old(nextId)
      ensures outputparamno < 0 ==> attributesChanged == old(attributesChanged) && expireRequests == old(expireRequests)
      ensures old(|outputs|) == outputparamno ==> outputs == old(outputs) && nextId == old(nextId)
    {
      ghost var start, startNext := outputs, nextId;
      while outputparamno != |outputs|
        invariant outputs == Reconciled(start, |outputs|, startNext)
        invariant nextId == startNext + Registrations(start, |outputs|)
        invariant attributesChanged == old(attributesChanged) && expireRequests == old(expireRequests)
        invariant outputparamno < |start| ==> outputparamno < |outputs| <= |start| || outputparamno == |outputs|
        invariant |start| <= outputparamno ==> |start| <= |outputs| <= outputparamno
        decreases if |start| <= outputparamno then outputparamno - |outputs| else |outputs|
      {
        if outputparamno > |outputs| {
          ReconciledGrow(start, |outputs|, startNext);
          outputs := outputs + [GenericObject(nextId)];
          nextId := nextId + 1;
        }
        if outputparamno < |outputs| {
          if |outputs| == 0 {
            outcome := ArgumentOutOfRange;
            return;
          }
          ReconciledShrink(start, |outputs|, startNext);
          outputs := outputs[..|outputs| - 1];
        }
      }
      ReconciledAtCount(start, startNext);
      ReconciledFresh(start, |outputs|, startNext);
      attributesChanged := attributesChanged + 1;
      expireRequests := expireRequests + 1;
      outcome := Completed;
    }
  }

  /**
   Two presses of the refresh button with the same target: the second leaves
   the outputs as the first left them and allocates nothing, but notifies and
   requests a recomputation again. With a negative target both presses fail.
   */
  method MatchTwice(c: Component) returns (first: Outcome, second: Outcome)
    requires c.Valid()
    modifies c`outputs, c`nextId, c`attributesChanged, c`expireRequests
    ensures c.Valid()
    ensures c.outputparamno >= 0 ==> first == Completed && second == Completed
    ensures c.outputparamno >= 0 ==> c.outputs == Reconciled(old(c.outputs), c.outputparamno, old(c.nextId))
    ensures c.outputparamno >= 0 ==> c.nextId == old(c.nextId) + Registrations(old(c.outputs), c.outputparamno)
    ensures c.outputparamno >= 0 ==> c.attributesChanged == old(c.attributesChanged) + 2 && c.expireRequests == old(c.expireRequests) + 2
    ensures c.outputparamno < 0 ==> first == ArgumentOutOfRange && second == ArgumentOutOfRange && c.outputs == []
    ensures c.outputparamno < 0 ==> c.attributesChanged == old(c.attributesChanged) && c.expireRequests == old(c.expireRequests)
  {
    first := c.MatchParameterCount();
    second := c.MatchParameterCount();
  }
}
