/**
 The parameter lists of a Grasshopper component and the closed form of the
 output-count reconciliation that VariableParameterTestComponent performs one
 parameter at a time.
 */
module ParamList {

  /** How a parameter receives its data (GH_ParamAccess); the component registers item access only. */
  datatype Access = Item

  /** The parameter classes the component registers. */
  datatype Kind = IntegerParam | GenericObjectParam

  /**
   One registered input or output parameter. `id` is the identity of the
   parameter object: two parameters with different ids are different objects,
   each with its own wires, even when every other field agrees.
   */
  datatype Param = Param(id: nat, kind: Kind, name: string, nickName: string, description: string, access: Access)

  /**
   The object `new Param_GenericObject()` allocated under identity `id`. Its
   default name, nickname and description come from the host library and are
   left blank.
   */
  function GenericObject(id: nat): Param
  {
    Param(id, GenericObjectParam, "", "", "", Item)
  }

  /** Every parameter in `s` was allocated before identity `bound`. */
  ghost predicate IdsBelow(s: seq<Param>, bound: nat)
  {
    forall i :: 0 <= i < |s| ==> s[i].id < bound
  }

  /** The `n` generic outputs registered one after another, allocated from identity `first` on. */
  function Generics(first: nat, n: nat): (r: seq<Param>)
    ensures |r| == n
    ensures forall i :: 0 <= i < n ==> r[i] == GenericObject(first + i)
  {
    if n == 0 then [] else Generics(first, n - 1) + [GenericObject(first + n - 1)]
  }

  /** How many generic outputs a reconciliation to `target` registers. */
  function Registrations(outs: seq<Param>, target: nat): nat
  {
    if target <= |outs| then 0 else target - |outs|
  }

  /**
   The output list once its count has been brought to `target`, with the new
   objects allocated from identity `next` on: the surviving prefix is the old
   one, and every slot beyond the old count is a newly registered generic object.
   */
  function Reconciled(outs: seq<Param>, target: nat, next: nat): (r: seq<Param>)
    ensures |r| == target
    ensures forall i :: 0 <= i < |outs| && i < target ==> r[i] == outs[i]
    ensures forall i :: |outs| <= i < target ==> r[i] == GenericObject(next + i - |outs|)
  {
    if target <= |outs| then outs[..target] else outs + Generics(next, target - |outs|)
  }

  /** The three facts in Reconciled's contract determine the list completely. */
  lemma ReconciledUnique(outs: seq<Param>, target: nat, next: nat, r: seq<Param>)
    requires |r| == target
    requires forall i :: 0 <= i < |outs| && i < target ==> r[i] == outs[i]
    requires forall i :: |outs| <= i < target ==> r[i] == GenericObject(next + i - |outs|)
    ensures r == Reconciled(outs, target, next)
  {
  }

  /**
   The reconciled list holds only objects allocated before the identities it
   used up, and none of its new objects is one of the old outputs.
   */
  lemma ReconciledFresh(outs: seq<Param>, target: nat, next: nat)
    requires IdsBelow(outs, next)
    ensures IdsBelow(Reconciled(outs, target, next), next + Registrations(outs, target))
    ensures forall i, j :: |outs| <= i < target && 0 <= j < |outs| ==> Reconciled(outs, target, next)[i] != outs[j]
  {
  }

  /** A list whose count already equals the target is left as it is, and nothing is allocated. */
  lemma ReconciledAtCount(outs: seq<Param>, next: nat)
    ensures Reconciled(outs, |outs|, next) == outs && Registrations(outs, |outs|) == 0
  {
  }

  /** One iteration that registers a generic output (the target is above the count). */
  lemma ReconciledGrow(outs: seq<Param>, n: nat, next: nat)
    requires |outs| <= n
    ensures Reconciled(outs, n + 1, next) == Reconciled(outs, n, next) + [GenericObject(next + Registrations(outs, n))]
    ensures Registrations(outs, n + 1) == Registrations(outs, n) + 1
  {
  }

  /** One iteration that unregisters the last output (the target is below the count). */
  lemma ReconciledShrink(outs: seq<Param>, n: nat, next: nat)
    requires 0 < n <= |outs|
    ensures Reconciled(outs, n - 1, next) == Reconciled(outs, n, next)[..n - 1]
    ensures Registrations(outs, n - 1) == 0
  {
  }

  /**
   Reconciling to `t1` and then to `t2`: an old output at index `i < t2` is
   still registered afterwards iff the first pass kept it (`i < t1`). An output
   the first pass dropped is replaced by a new generic object, not restored.
   So the two passes keep every old output that a single pass to `t2` keeps
   iff `t1 >= min(|outs|, t2)`.
   */
  lemma ReconcileTwice(outs: seq<Param>, t1: nat, t2: nat, next: nat)
    requires IdsBelow(outs, next)
    ensures var twice := Reconciled(Reconciled(outs, t1, next), t2, next + Registrations(outs, t1));
      forall i :: 0 <= i < |outs| && i < t2 ==> (twice[i] == outs[i] <==> i < t1)
    ensures var twice := Reconciled(Reconciled(outs, t1, next), t2, next + Registrations(outs, t1));
      (forall i :: 0 <= i < |outs| && i < t2 ==> twice[i] == outs[i]) <==> (t1 >= |outs| || t1 >= t2)
  {
    var once := Reconciled(outs, t1, next);
    var twice := Reconciled(once, t2, next + Registrations(outs, t1));
    ReconciledFresh(outs, t1, next);
    forall i | 0 <= i < |outs| && i < t2 && t1 <= i
      ensures twice[i] != outs[i]
    {
      assert twice[i].id >= next > outs[i].id;
    }
    if t1 < |outs| && t1 < t2 {
      assert twice[t1] != outs[t1];
    }
  }

  /**
   Reconciling a second time to the same target changes nothing and allocates
   nothing: no old output is replaced.
   */
  lemma ReconcileIdempotent(outs: seq<Param>, t: nat, next: nat, next': nat)
    ensures Reconciled(Reconciled(outs, t, next), t, next') == Reconciled(outs, t, next)
    ensures Registrations(Reconciled(outs, t, next), t) == 0
  {
  }
}
