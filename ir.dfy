/** The fragment of the Relax intermediate representation that the
    LazyTransformParams pass reads and writes: variables, expressions,
    bindings of one dataflow block, and functions.  The order in which the
    visitor framework walks an expression is fixed here once, as PreOrder. */
module RelaxIR {

  /** A Relax variable.  Identity is its id (the source's `vid`); `dataflow`
      tells a DataflowVar (local to a dataflow block) from an ordinary Var. */
  datatype Var = Var(id: nat, dataflow: bool)

  /** The closed set of expression kinds the pass meets.  `Op` is a built-in
      operator such as `relax.vm.kill_object`; `ExternFunc` a named packed
      function such as `get_item`. */
  datatype Expr =
    | VarRef(v: Var)
    | TupleGetItem(tuple: Expr, index: int)
    | Tuple(fields: seq<Expr>)
    | Call(op: Expr, args: seq<Expr>)
    | PrimValue(value: int)
    | ExternFunc(name: string)
    | Op(name: string)

  /** `v = value` */
  datatype Binding = Binding(v: Var, value: Expr)

  datatype StructInfo = ObjectStructInfo | OtherStructInfo(name: string)

  /** A function whose body is one dataflow block followed by the returned
      expression. */
  datatype Function = Function(
    params: seq<Var>,
    bindings: seq<Binding>,
    body: Expr,
    ret: StructInfo,
    attrs: map<string, string>)

  /** The ways the pass can fail: `params[0]` of an empty parameter list, the
      `isinstance(binding.value, relax.Tuple)` assertion, the assertion on a
      self-release, and a lookup of a variable that has not been remapped. */
  datatype Error =
    | NoParams
    | OutputNotTuple
    | SelfKillNotOutput(v: Var)
    | MissingRemap(v: Var)

  datatype Option<+T> = None | Some(value: T)

  datatype Result<+T> = Ok(value: T) | Err(error: Error) {
    predicate IsFailure() { Err? }
    function PropagateFailure<U>(): Result<U>
      requires Err?
    {
      Err(error)
    }
    function Extract(): T
      requires Ok?
    {
      value
    }
  }

  /** The nodes of `e` in the order the visitor framework reaches them: the
      node itself, then (for a projection) its tuple, (for a tuple) its fields,
      (for a call) its operator and then its arguments, left to right. */
  function PreOrder(e: Expr): (nodes: seq<Expr>)
    ensures |nodes| >= 1 && nodes[0] == e
  {
    match e
    case TupleGetItem(t, _) => [e] + PreOrder(t)
    case Tuple(fs) => [e] + PreOrderAll(fs)
    case Call(op, args) => [e] + PreOrder(op) + PreOrderAll(args)
    case _ => [e]
  }

  /** The pre-order walks of `es`, one after the other. */
  function PreOrderAll(es: seq<Expr>): seq<Expr>
  {
    if es == [] then [] else PreOrderAll(es[..|es| - 1]) + PreOrder(es[|es| - 1])
  }

  /** Every node reached from an element of `es` is reached from `es`. */
  lemma {:induction false} PreOrderAllMember(es: seq<Expr>, i: nat, n: Expr)
    requires i < |es| && n in PreOrder(es[i])
    ensures n in PreOrderAll(es)
  {
    if i < |es| - 1 {
      PreOrderAllMember(es[..|es| - 1], i, n);
    }
  }

  /** Every node reached from `es` is reached from one of its elements. */
  lemma {:induction false} PreOrderAllSource(es: seq<Expr>, n: Expr)
    requires n in PreOrderAll(es)
    ensures exists i :: 0 <= i < |es| && n in PreOrder(es[i])
  {
    var init := es[..|es| - 1];
    if n !in PreOrder(es[|es| - 1]) {
      PreOrderAllSource(init, n);
      var i :| 0 <= i < |init| && n in PreOrder(init[i]);
      assert es[i] == init[i];
    }
  }

  /** The dataflow variables referenced among `nodes`. */
  function RefSet(nodes: seq<Expr>): set<Var>
  {
    set n | n in nodes && n.VarRef? && n.v.dataflow :: n.v
  }

  /** The dataflow variables an expression references. */
  function DataflowRefs(e: Expr): set<Var>
  {
    RefSet(PreOrder(e))
  }

  /** A bound on the variable ids that occur among `nodes`. */
  function MaxId(nodes: seq<Expr>): (m: nat)
    ensures forall n :: n in nodes && n.VarRef? ==> n.v.id <= m
  {
    if nodes == [] then 0
    else
      var init := nodes[..|nodes| - 1];
      var rest := MaxId(init);
      var last := nodes[|nodes| - 1];
      assert nodes == init + [last];
      if last.VarRef? && last.v.id > rest then last.v.id else rest
  }

  /** A bound on the ids of `vs`. */
  function MaxVarId(vs: seq<Var>): (m: nat)
    ensures forall v :: v in vs ==> v.id <= m
  {
    if vs == [] then 0
    else
      var init := vs[..|vs| - 1];
      var rest := MaxVarId(init);
      assert vs == init + [vs[|vs| - 1]];
      if vs[|vs| - 1].id > rest then vs[|vs| - 1].id else rest
  }

  /** Every node of every binding's value, in block order. */
  function BindingNodes(bs: seq<Binding>): (nodes: seq<Expr>)
    ensures forall k, n :: 0 <= k < |bs| && n in PreOrder(bs[k].value) ==> n in nodes
  {
    if bs == [] then []
    else
      var rest := BindingNodes(bs[..|bs| - 1]);
      assert forall k, n :: 0 <= k < |bs| - 1 && n in PreOrder(bs[k].value) ==> n in rest by {
        forall k, n | 0 <= k < |bs| - 1 && n in PreOrder(bs[k].value) ensures n in rest {
          assert bs[k] == bs[..|bs| - 1][k];
        }
      }
      rest + PreOrder(bs[|bs| - 1].value)
  }

  /** The variables the bindings define, in block order. */
  function BoundVars(bs: seq<Binding>): (vs: seq<Var>)
    ensures |vs| == |bs| && forall k :: 0 <= k < |bs| ==> vs[k] == bs[k].v
  {
    if bs == [] then [] else BoundVars(bs[..|bs| - 1]) + [bs[|bs| - 1].v]
  }

  /** The first id the builder may hand out for `f`: larger than the id of
      every variable that occurs in `f`. */
  function FreshBase(f: Function): (b: nat)
    ensures forall k :: 0 <= k < |f.params| ==> f.params[k].id < b
    ensures forall k :: 0 <= k < |f.bindings| ==> f.bindings[k].v.id < b
    ensures forall n :: n in BindingNodes(f.bindings) && n.VarRef? ==> n.v.id < b
    ensures forall n :: n in PreOrder(f.body) && n.VarRef? ==> n.v.id < b
  {
    var mn := MaxId(BindingNodes(f.bindings) + PreOrder(f.body));
    var mv := MaxVarId(f.params + BoundVars(f.bindings));
    assert forall k :: 0 <= k < |f.params| ==> f.params[k] in f.params + BoundVars(f.bindings);
    assert forall k :: 0 <= k < |f.bindings| ==> BoundVars(f.bindings)[k] in f.params + BoundVars(f.bindings);
    1 + (if mn > mv then mn else mv)
  }

  /** True when no two bindings define the same variable (single assignment). */
  predicate DistinctVars(bs: seq<Binding>)
  {
    forall i, j :: 0 <= i < j < |bs| ==> bs[i].v != bs[j].v
  }

  /** True when no binding references a dataflow variable that is defined by
      itself or by a later binding. */
  predicate DefinedBeforeUse(bs: seq<Binding>)
  {
    forall i, j :: 0 <= i <= j < |bs| ==> bs[j].v !in DataflowRefs(bs[i].value)
  }
}
