# VariableParameterTest: output-count reconciliation of a variable-parameter node

This project models the parameter-surface maintenance of
`VariableParameterTestComponent`, a Grasshopper component that keeps two fixed
integer inputs and a variable list of outputs. When the user presses the node's
"Param Refresh" button, `MatchParameterCount` registers generic outputs, or
unregisters the last output, one at a time until the output count equals the
integer target `outputparamno`. It then notifies the host once that the
attributes changed and requests one recomputation. `SolveInstance` fills the two
targets from the node's inputs. The `IGH_VariableParameterComponent` guards
decide what the host's parameter editing may do.

Two modules:

- `ParamList` (`param_list.dfy`) holds the parameter record and
  `Reconciled(outs, target, next)`, the closed form of the reconciliation loop.
  Each parameter carries an identity (`id`), the object the host allocated, so
  an output that is unregistered and a generic output registered later are
  different objects. The surviving prefix is kept and every new slot is a new
  generic object allocated from identity `next` on. Lemmas show that this
  contract determines the list, that the new objects are fresh, that each loop
  step moves one parameter, that a dropped output is never restored by a later
  growth, and that reconciling is idempotent.
- `VariableParameterTest` (`component.dfy`) holds the class `Component`. Its
  fields are `inputs`, `outputs`, `outputparamno`, `inputparamno`, two
  counters for the notifications and `nextId`, the host's next object identity.
  `MatchParameterCount` is the source's `while` loop over `outputs`, proved to
  end in `Reconciled(old(outputs), outputparamno, old(nextId))`.

Behaviour the model states explicitly:

- A negative target is not refused by the source. The loop removes every
  output, then evaluates `Output[Count - 1]` with `Count == 0` and throws. The
  model returns `ArgumentOutOfRange` with `outputs == []` and no notification.
- `SolveInstance` stores input position 0 in `inputparamno`. That input is
  registered under the name "OutputParamNo". Position 1 ("InputParamNo") goes to
  `outputparamno`. So the names and the fields are swapped.
- `CanRemoveParameter` protects the two fixed inputs by count only. It ignores
  the index. `CanInsertParameter` always agrees. So the host can remove
  or displace a fixed input as long as at least two inputs remain, and
  `SolveInstance` then reads whatever stands at positions 0 and 1.

The host library calls `RegisterOutputParam` and `UnregisterOutputParameter`
are sequence append and drop-last. The data access object is replaced by the two
values it yields (`Option<int>`, `None` when a read fails).

## Model

| member | source | states |
|---|---|---|
| `ParamList.Generics` | VariableParameterTest/VariableParameterTest/VariableParameterTestComponent.cs:150-153 | registering `n` generic outputs one after another yields exactly `n` entries, each a generic object with the next identity in turn |
| `ParamList.Reconciled` | VariableParameterTest/VariableParameterTest/VariableParameterTestComponent.cs:148-158 | the reconciled output list has exactly `target` entries; the first `min(old count, target)` are the old objects; every entry past the old count is a newly allocated generic object |
| `ParamList.ReconciledUnique` | VariableParameterTest/VariableParameterTest/VariableParameterTestComponent.cs:148-158 | any list with the count, surviving prefix and generic tail above is the reconciled list, so the contract pins the result down |
| `ParamList.ReconciledFresh` | VariableParameterTest/VariableParameterTest/VariableParameterTestComponent.cs:152 | every generic output a reconciliation registers is a new object, different from each old output, and all outputs are objects allocated before the identities it used up |
| `ParamList.ReconciledAtCount` | VariableParameterTest/VariableParameterTest/VariableParameterTestComponent.cs:148 | when the count already equals the target, reconciliation returns the list unchanged and registers nothing |
| `ParamList.ReconciledGrow` | VariableParameterTest/VariableParameterTest/VariableParameterTestComponent.cs:150-153 | below the target, one more step appends exactly one new generic object to the list |
| `ParamList.ReconciledShrink` | VariableParameterTest/VariableParameterTest/VariableParameterTestComponent.cs:154-157 | above the target, one more step drops exactly the last output and registers nothing |
| `ParamList.ReconcileTwice` | VariableParameterTest/VariableParameterTest/VariableParameterTestComponent.cs:147-161 | after reconciling to `t1` and then `t2`, an old output at index `i < t2` is still registered iff `i < t1`: a dropped output is replaced by a new object, never restored; so two passes keep what one pass to `t2` keeps iff `t1 >= min(old count, t2)` |
| `ParamList.ReconcileIdempotent` | VariableParameterTest/VariableParameterTest/VariableParameterTestComponent.cs:148 | a second reconciliation to the same target leaves the list as the first one left it and allocates no new object |
| `VariableParameterTest.Component.constructor` | VariableParameterTest/VariableParameterTest/VariableParameterTestComponent.cs:45-56 | a new node has exactly the inputs "OutputParamNo" and "InputParamNo", in that order, no outputs, both targets 0 and no notifications |
| `VariableParameterTest.Component.SolveInstance` | VariableParameterTest/VariableParameterTest/VariableParameterTestComponent.cs:63-67 | a failed read of input 0 changes neither field; if input 0 is read and input 1 fails, only `inputparamno` changes; `inputparamno` takes the value at position 0 (named "OutputParamNo") and `outputparamno` the value at position 1 |
| `VariableParameterTest.Component.CanInsertParameter` | VariableParameterTest/VariableParameterTest/VariableParameterTestComponent.cs:101-104 | insertion is allowed on every side and at every index |
| `VariableParameterTest.Component.CanRemoveParameter` | VariableParameterTest/VariableParameterTest/VariableParameterTestComponent.cs:106-123 | an input may be removed iff at least the two fixed inputs would remain; an output may be removed iff there is one |
| `VariableParameterTest.Component.DestroyParameter` | VariableParameterTest/VariableParameterTest/VariableParameterTestComponent.cs:136-140 | destruction always agrees, for every side and index |
| `VariableParameterTest.Component.RemoveParameter` | VariableParameterTest/VariableParameterTest/VariableParameterTestComponent.cs:106-123 | the host removes a parameter exactly when the guards agree, and removes only the entry at that index; the node keeps at least two inputs |
| `VariableParameterTest.Component.InsertParameter` | VariableParameterTest/VariableParameterTest/VariableParameterTestComponent.cs:101-104 | every insertion succeeds with a newly allocated object and keeps at least two inputs; an input inserted at position 0 or 1 pushes a fixed input to position 2 |
| `VariableParameterTest.Component.MatchParameterCount` | VariableParameterTest/VariableParameterTest/VariableParameterTestComponent.cs:147-161 | for a target of 0 or more, the outputs become `Reconciled(old outputs, outputparamno, old nextId)`, one new object is allocated per registration, and exactly one attributes-changed notification and one expire request are issued; for a negative target, the outputs end empty with `ArgumentOutOfRange` and no notification; inputs and both targets are unchanged; when the count already matches, the outputs are untouched; the loop terminates |
| `VariableParameterTest.MatchTwice` | VariableParameterTest/VariableParameterTest/VariableParameterTestComponent.cs:147-161 | two refreshes in a row with the same target leave the outputs as one refresh does and allocate only in the first, but notify and request recomputation twice each; with a negative target both fail, the outputs end empty and neither counter moves |

## Left out

- `CreateParameter`: the name comes from the host routine `InventUniqueNickname`, which is not part of this model. `InsertParameter` takes the new parameter as an argument instead.
- `VariableParameterMaintenance`: its body is empty.
- `Attributes_Custom`: canvas layout, rendering, mouse hit-testing and the `MessageBox`. Its only model-relevant act is calling `MatchParameterCount` when the button is clicked.
- `ExpireSolution(true)` and `OnAttributesChanged`: the host's reaction to them is not modelled. The model only counts how often they are called.
- `ParamList.GenericObject`: the default name, nickname and description that the host gives a `Param_GenericObject` are not modelled. The model leaves them blank.
- Wires: a parameter's identity stands for the object and its connections. The connections themselves are not modelled. The host's object allocation is a counter (`nextId`).
- `Icon` and `ComponentGuid`: host metadata constants.
- `Hairworm/HairwormComponent.cs`: a file-existence check, cluster construction from a file, insertion into the host document, and host compute calls. These are filesystem I/O and calls into the host.
- The name resolution, download, sub-graph loading and data bridging that a full proxy node would perform do not exist in the component modelled here. The code only reconciles the output count against an integer target. It does not use a sub-graph schema.
