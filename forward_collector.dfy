/** Stage 1 of LazyTransformParams: the forward scan (ForwardCollector) that
    finds the position of every output-tuple field and the bindings whose
    value projects the input tuple parameter. */
module Forward {
  import opened RelaxIR

  /** The collector's three fields. */
  datatype CollectorState = CollectorState(
    outTupleMap: map<Expr, int>,
    varTupleGetItem: seq<Var>,
    isTupleGetItemInput: bool)

  const InitialCollector := CollectorState(map[], [], false)

  /** The hook `visit_tuple_getitem_` on one visited node: a projection sets
      the flag to whether its tuple is the input parameter; other nodes leave
      it alone. */
  function FlagStep(node: Expr, param: Var, flag: bool): (r: bool)
    ensures node.TupleGetItem? ==> (r <==> node.tuple == VarRef(param))
    ensures !node.TupleGetItem? ==> r == flag
  {
    if node.TupleGetItem? then node.tuple == VarRef(param) else flag
  }

  /** The flag after the hook has seen `nodes` in order, starting from `flag`. */
  function FlagAfter(nodes: seq<Expr>, param: Var, flag: bool): (r: bool)
    ensures (forall j :: 0 <= j < |nodes| ==> !nodes[j].TupleGetItem?) ==> r == flag
    ensures nodes != [] && nodes[|nodes| - 1].TupleGetItem? ==> (r <==> nodes[|nodes| - 1].tuple == VarRef(param))
  {
    if nodes == [] then flag
    else FlagStep(nodes[|nodes| - 1], param, FlagAfter(nodes[..|nodes| - 1], param, flag))
  }

  /** No projection among `nodes` after position `k`. */
  predicate NoProjectionAfter(nodes: seq<Expr>, k: int)
  {
    forall j :: 0 <= j < |nodes| && k < j ==> !nodes[j].TupleGetItem?
  }

  /** The flag reports the LAST projection seen: it is set exactly when the
      last projection among `nodes` is over the input parameter, or when
      there is no projection at all and it was set to begin with. */
  lemma {:induction false} FlagAfterIsLastProjection(nodes: seq<Expr>, param: Var, flag: bool)
    ensures FlagAfter(nodes, param, flag) <==>
      (exists k :: 0 <= k < |nodes| && nodes[k].TupleGetItem? && nodes[k].tuple == VarRef(param)
         && NoProjectionAfter(nodes, k))
      || (flag && NoProjectionAfter(nodes, -1))
  {
    if nodes != [] {
      var init := nodes[..|nodes| - 1];
      var last := nodes[|nodes| - 1];
      FlagAfterIsLastProjection(init, param, flag);
      if last.TupleGetItem? {
        if last.tuple == VarRef(param) {
          assert NoProjectionAfter(nodes, |nodes| - 1);
        } else {
          assert !NoProjectionAfter(nodes, -1);
          forall k | 0 <= k < |nodes| - 1 ensures !NoProjectionAfter(nodes, k) {
            assert nodes[|nodes| - 1].TupleGetItem?;
          }
        }
      } else {
        assert NoProjectionAfter(nodes, -1) <==> NoProjectionAfter(init, -1) by {
          assert forall j :: 0 <= j < |init| ==> init[j] == nodes[j];
        }
        forall k | 0 <= k < |init|
          ensures NoProjectionAfter(nodes, k) <==> NoProjectionAfter(init, k)
        {
          assert forall j :: 0 <= j < |init| ==> init[j] == nodes[j];
        }
        if FlagAfter(nodes, param, flag) && !(flag && NoProjectionAfter(nodes, -1)) {
          var k :| 0 <= k < |init| && init[k].TupleGetItem? && init[k].tuple == VarRef(param)
            && NoProjectionAfter(init, k);
          assert nodes[k] == init[k];
        }
        if exists k :: 0 <= k < |nodes| && nodes[k].TupleGetItem? && nodes[k].tuple == VarRef(param)
             && NoProjectionAfter(nodes, k)
        {
          var k :| 0 <= k < |nodes| && nodes[k].TupleGetItem? && nodes[k].tuple == VarRef(param)
            && NoProjectionAfter(nodes, k);
          assert k < |init| && init[k] == nodes[k];
        }
      }
    }
  }

  /** `m` with `fs[i] := i` stored for i = 0, 1, ... in turn, as the
      enumerate loop over the output tuple's fields does. */
  function FieldsInto(m: map<Expr, int>, fs: seq<Expr>): (r: map<Expr, int>)
    ensures m.Keys <= r.Keys && forall k :: 0 <= k < |fs| ==> fs[k] in r
    ensures fs != [] ==> r[fs[|fs| - 1]] == |fs| - 1
  {
    if fs == [] then m else FieldsInto(m, fs[..|fs| - 1])[fs[|fs| - 1] := |fs| - 1]
  }

  /** The fields become keys and nothing else does; other keys keep their
      value. */
  lemma {:induction false} FieldsIntoKeys(m: map<Expr, int>, fs: seq<Expr>)
    ensures FieldsInto(m, fs).Keys == m.Keys + set x | x in fs
    ensures forall x :: x in m && x !in fs ==> FieldsInto(m, fs)[x] == m[x]
  {
    if fs != [] {
      var init := fs[..|fs| - 1];
      var last := fs[|fs| - 1];
      FieldsIntoKeys(m, init);
      assert fs == init + [last];
      assert (set x | x in fs) == (set x | x in init) + {last};
    }
  }

  /** A field is mapped to its LAST position in the tuple. */
  lemma {:induction false} FieldsIntoLast(m: map<Expr, int>, fs: seq<Expr>)
    ensures forall x :: x in fs ==> x in FieldsInto(m, fs) && LastPosition(fs, x, FieldsInto(m, fs)[x])
  {
    if fs != [] {
      var init := fs[..|fs| - 1];
      var last := fs[|fs| - 1];
      FieldsIntoLast(m, init);
      assert fs == init + [last];
      var r := FieldsInto(m, fs);
      forall x | x in fs ensures x in r && LastPosition(fs, x, r[x]) {
        if x != last {
          assert x in init;
          var p := FieldsInto(m, init)[x];
          assert LastPosition(init, x, p);
          assert r[x] == p && fs[p] == init[p];
        }
      }
    }
  }

  /** Both of the above. */
  lemma FieldsIntoFacts(m: map<Expr, int>, fs: seq<Expr>)
    ensures FieldsInto(m, fs).Keys == m.Keys + set x | x in fs
    ensures forall x :: x in m && x !in fs ==> FieldsInto(m, fs)[x] == m[x]
    ensures forall x :: x in fs ==> LastPosition(fs, x, FieldsInto(m, fs)[x])
  {
    FieldsIntoKeys(m, fs);
    FieldsIntoLast(m, fs);
  }

  /** `p` is the last position of `x` in `fs`. */
  predicate LastPosition(fs: seq<Expr>, x: Expr, p: int)
  {
    0 <= p < |fs| && fs[p] == x && forall j :: p < j < |fs| ==> fs[j] != x
  }

  /** With distinct fields, field `i` is mapped to exactly `i`. */
  lemma OutTupleMapPositions(fs: seq<Expr>)
    requires forall i, j :: 0 <= i < j < |fs| ==> fs[i] != fs[j]
    ensures FieldsInto(map[], fs).Keys == set x | x in fs
    ensures forall i :: 0 <= i < |fs| ==> FieldsInto(map[], fs)[fs[i]] == i
  {
    var r := FieldsInto(map[], fs);
    FieldsIntoFacts(map[], fs);
    forall i | 0 <= i < |fs| ensures r[fs[i]] == i {
      assert fs[i] in fs;
      assert LastPosition(fs, fs[i], r[fs[i]]);
    }
  }

  /** `visit_var_binding_` on one binding: the output-tuple binding must bind a
      tuple, whose fields are entered into the map; any other binding resets the
      flag, is walked, and is recorded when the walk left the flag set. */
  function CollectBinding(s: CollectorState, b: Binding, out: Expr, param: Var): (r: Result<CollectorState>)
    ensures r.Err? <==> VarRef(b.v) == out && !b.value.Tuple?
    ensures r.Err? ==> r.error == OutputNotTuple
    ensures r.Ok? ==> s.varTupleGetItem <= r.value.varTupleGetItem
    ensures r.Ok? && VarRef(b.v) != out ==> r.value.outTupleMap == s.outTupleMap
  {
    if VarRef(b.v) == out then
      if b.value.Tuple? then Ok(s.(outTupleMap := FieldsInto(s.outTupleMap, b.value.fields)))
      else Err(OutputNotTuple)
    else
      var flag := FlagAfter(PreOrder(b.value), param, false);
      Ok(CollectorState(s.outTupleMap, if flag then s.varTupleGetItem + [b.v] else s.varTupleGetItem, flag))
  }

  /** The forward walk over the bindings of the block, from state `s`;
      a failed assertion stops it. */
  function CollectFrom(s: CollectorState, bs: seq<Binding>, out: Expr, param: Var): (r: Result<CollectorState>)
    ensures r.Err? ==> r.error == OutputNotTuple
    ensures r.Ok? ==> s.varTupleGetItem <= r.value.varTupleGetItem && |r.value.varTupleGetItem| <= |s.varTupleGetItem| + |bs|
  {
    if bs == [] then Ok(s)
    else
      var prev :- CollectFrom(s, bs[..|bs| - 1], out, param);
      CollectBinding(prev, bs[|bs| - 1], out, param)
  }

  /** The walk fails exactly when some output-tuple binding does not bind a
      tuple, and then with OutputNotTuple. */
  lemma {:induction false} CollectFailsIff(s: CollectorState, bs: seq<Binding>, out: Expr, param: Var)
    ensures CollectFrom(s, bs, out, param).Err? <==>
      exists k :: 0 <= k < |bs| && VarRef(bs[k].v) == out && !bs[k].value.Tuple?
    ensures CollectFrom(s, bs, out, param).Err? ==> CollectFrom(s, bs, out, param).error == OutputNotTuple
  {
    if bs != [] {
      var init := bs[..|bs| - 1];
      CollectFailsIff(s, init, out, param);
      assert forall k :: 0 <= k < |init| ==> init[k] == bs[k];
    }
  }

  /** The projection list grows by exactly the non-output bindings whose walk
      leaves the flag set; what it held before is kept. */
  lemma {:induction false} ProjectionListIff(s: CollectorState, bs: seq<Binding>, out: Expr, param: Var, v: Var)
    requires CollectFrom(s, bs, out, param).Ok?
    ensures v in CollectFrom(s, bs, out, param).value.varTupleGetItem <==>
      v in s.varTupleGetItem ||
      exists k :: 0 <= k < |bs| && bs[k].v == v && VarRef(v) != out
        && FlagAfter(PreOrder(bs[k].value), param, false)
  {
    if bs != [] {
      var init := bs[..|bs| - 1];
      ProjectionListIff(s, init, out, param, v);
      assert forall k :: 0 <= k < |init| ==> init[k] == bs[k];
    }
  }

  /** A binding `v = params[i]` (not the output tuple) is recorded. */
  lemma ExactProjectionRecorded(bs: seq<Binding>, out: Expr, param: Var, k: nat)
    requires CollectFrom(InitialCollector, bs, out, param).Ok?
    requires k < |bs| && bs[k].value.TupleGetItem? && bs[k].value.tuple == VarRef(param)
    requires VarRef(bs[k].v) != out
    ensures bs[k].v in CollectFrom(InitialCollector, bs, out, param).value.varTupleGetItem
  {
    var nodes := PreOrder(bs[k].value);
    assert PreOrder(VarRef(param)) == [VarRef(param)];
    assert nodes == [bs[k].value, VarRef(param)];
    assert nodes[..1] == [bs[k].value];
    assert FlagAfter(nodes, param, false);
    ProjectionListIff(InitialCollector, bs, out, param, bs[k].v);
  }

  /** Under single assignment, a binding whose value holds no projection is
      never recorded, whatever the bindings before it did to the flag. */
  lemma NoProjectionNotRecorded(bs: seq<Binding>, out: Expr, param: Var, k: nat)
    requires CollectFrom(InitialCollector, bs, out, param).Ok?
    requires DistinctVars(bs)
    requires k < |bs| && forall n :: n in PreOrder(bs[k].value) ==> !n.TupleGetItem?
    ensures bs[k].v !in CollectFrom(InitialCollector, bs, out, param).value.varTupleGetItem
  {
    var nodes := PreOrder(bs[k].value);
    FlagAfterIsLastProjection(nodes, param, false);
    assert forall j :: 0 <= j < |nodes| ==> !nodes[j].TupleGetItem? by {
      forall j | 0 <= j < |nodes| ensures !nodes[j].TupleGetItem? {
        assert nodes[j] in nodes;
      }
    }
    ProjectionListIff(InitialCollector, bs, out, param, bs[k].v);
  }

  /** The output-tuple binding is never recorded. */
  lemma OutputNotRecorded(bs: seq<Binding>, out: Expr, param: Var, k: nat)
    requires CollectFrom(InitialCollector, bs, out, param).Ok?
    requires k < |bs| && VarRef(bs[k].v) == out
    ensures bs[k].v !in CollectFrom(InitialCollector, bs, out, param).value.varTupleGetItem
  {
    ProjectionListIff(InitialCollector, bs, out, param, bs[k].v);
  }

  /** With a single output-tuple binding `out = (f0, f1, ...)`, the walk
      succeeds and the output map is exactly that tuple's field map. */
  lemma {:induction false} OutTupleMapOfSingleOutput(s: CollectorState, bs: seq<Binding>, out: Expr, param: Var, k: nat)
    requires k < |bs| && VarRef(bs[k].v) == out && bs[k].value.Tuple?
    requires forall j :: 0 <= j < |bs| && VarRef(bs[j].v) == out ==> j == k
    ensures CollectFrom(s, bs, out, param).Ok?
    ensures CollectFrom(s, bs, out, param).value.outTupleMap == FieldsInto(s.outTupleMap, bs[k].value.fields)
  {
    var init := bs[..|bs| - 1];
    assert forall j :: 0 <= j < |init| ==> init[j] == bs[j];
    if k < |bs| - 1 {
      OutTupleMapOfSingleOutput(s, init, out, param, k);
    } else {
      NoOutputKeepsMap(s, init, out, param);
    }
  }

  /** Without an output-tuple binding the walk succeeds and the map is unchanged. */
  lemma {:induction false} NoOutputKeepsMap(s: CollectorState, bs: seq<Binding>, out: Expr, param: Var)
    requires forall j :: 0 <= j < |bs| ==> VarRef(bs[j].v) != out
    ensures CollectFrom(s, bs, out, param).Ok?
    ensures CollectFrom(s, bs, out, param).value.outTupleMap == s.outTupleMap
  {
    if bs != [] {
      var init := bs[..|bs| - 1];
      assert forall j :: 0 <= j < |init| ==> init[j] == bs[j];
      NoOutputKeepsMap(s, init, out, param);
    }
  }

  /** A key the walk added to the output map is a field of some output-tuple
      binding, mapped to its last position in that tuple. */
  lemma {:induction false} OutTupleMapFields(s: CollectorState, bs: seq<Binding>, out: Expr, param: Var, x: Expr)
    requires CollectFrom(s, bs, out, param).Ok?
    requires x in CollectFrom(s, bs, out, param).value.outTupleMap && x !in s.outTupleMap
    ensures
      exists k :: 0 <= k < |bs| && VarRef(bs[k].v) == out && bs[k].value.Tuple? &&
        LastPosition(bs[k].value.fields, x, CollectFrom(s, bs, out, param).value.outTupleMap[x])
  {
    if bs != [] {
      var init := bs[..|bs| - 1];
      var b := bs[|bs| - 1];
      var prev := CollectFrom(s, init, out, param).value;
      var m := CollectFrom(s, bs, out, param).value.outTupleMap;
      if VarRef(b.v) == out && x in b.value.fields {
        FieldsIntoLast(prev.outTupleMap, b.value.fields);
      } else {
        if VarRef(b.v) == out {
          FieldsIntoKeys(prev.outTupleMap, b.value.fields);
        }
        assert x in prev.outTupleMap && m[x] == prev.outTupleMap[x];
        OutTupleMapFields(s, init, out, param, x);
        var k :| 0 <= k < |init| && VarRef(init[k].v) == out && init[k].value.Tuple? &&
          LastPosition(init[k].value.fields, x, prev.outTupleMap[x]);
        assert bs[k] == init[k];
      }
    }
  }

  /** The ForwardCollector visitor: its fields are updated as it walks. */
  class ForwardCollector {
    var outTupleMap: map<Expr, int>
    const outTupleVar: Expr
    const inputParams: Var
    var varTupleGetItem: seq<Var>
    var isTupleGetItemInput: bool

    function State(): CollectorState
      reads this
    {
      CollectorState(outTupleMap, varTupleGetItem, isTupleGetItemInput)
    }

    constructor (tupleVar: Expr, inputParams: Var)
      ensures outTupleVar == tupleVar && this.inputParams == inputParams
      ensures State() == InitialCollector
    {
      outTupleMap := map[];
      outTupleVar := tupleVar;
      this.inputParams := inputParams;
      varTupleGetItem := [];
      isTupleGetItemInput := false;
    }

    /** `visit_tuple_getitem_`: is this projection over the input tuple? */
    method VisitTupleGetItem(op: Expr)
      requires op.TupleGetItem?
      modifies this`isTupleGetItemInput
      ensures isTupleGetItemInput == (op.tuple == VarRef(inputParams))
    {
      if op.tuple == VarRef(inputParams) {
        isTupleGetItemInput := true;
      } else {
        isTupleGetItemInput := false;
      }
    }

    /** The framework's walk of `e`: every node in pre-order, projections
        handed to the hook. */
    method VisitExpr(e: Expr)
      modifies this`isTupleGetItemInput
      ensures isTupleGetItemInput == FlagAfter(PreOrder(e), inputParams, old(isTupleGetItemInput))
    {
      var nodes := PreOrder(e);
      for k := 0 to |nodes|
        invariant isTupleGetItemInput == FlagAfter(nodes[..k], inputParams, old(isTupleGetItemInput))
      {
        assert nodes[..k + 1][..k] == nodes[..k];
        if nodes[k].TupleGetItem? {
          VisitTupleGetItem(nodes[k]);
        }
      }
      assert nodes[..|nodes|] == nodes;
    }

    /** `visit_var_binding_`; `ok` is false where the source's assertion fails,
        and then nothing has changed. */
    method VisitVarBinding(b: Binding) returns (ok: bool)
      modifies this
      ensures var r := CollectBinding(old(State()), b, outTupleVar, inputParams);
        ok == r.Ok? && State() == (if ok then r.value else old(State()))
    {
      if VarRef(b.v) == outTupleVar {
        if !b.value.Tuple? {
          return false;
        }
        var fs := b.value.fields;
        var m := outTupleMap;
        for i := 0 to |fs|
          invariant m == FieldsInto(outTupleMap, fs[..i])
        {
          assert fs[..i + 1][..i] == fs[..i];
          m := m[fs[i] := i];
        }
        assert fs[..|fs|] == fs;
        outTupleMap := m;
      } else {
        isTupleGetItemInput := false;
        VisitExpr(b.value);
        if isTupleGetItemInput {
          varTupleGetItem := varTupleGetItem + [b.v];
        }
      }
      ok := true;
    }

    /** The walk over the bindings of the block, in order. */
    method VisitBindings(bs: seq<Binding>) returns (ok: bool)
      modifies this
      ensures var r := CollectFrom(old(State()), bs, outTupleVar, inputParams);
        ok == r.Ok? && (ok ==> State() == r.value)
    {
      for k := 0 to |bs|
        invariant CollectFrom(old(State()), bs[..k], outTupleVar, inputParams) == Ok(State())
      {
        assert bs[..k + 1][..k] == bs[..k];
        ok := VisitVarBinding(bs[k]);
        if !ok {
          CollectStaysFailed(old(State()), bs, k + 1, outTupleVar, inputParams);
          return;
        }
      }
      assert bs[..|bs|] == bs;
      ok := true;
    }
  }

  /** Once the walk has failed on a prefix it fails on the whole block. */
  lemma {:induction false} CollectStaysFailed(s: CollectorState, bs: seq<Binding>, n: nat, out: Expr, param: Var)
    requires n <= |bs| && CollectFrom(s, bs[..n], out, param).Err?
    ensures CollectFrom(s, bs, out, param).Err?
    decreases |bs| - n
  {
    if n < |bs| {
      assert bs[..n + 1][..n] == bs[..n];
      CollectStaysFailed(s, bs, n + 1, out, param);
    } else {
      assert bs[..n] == bs;
    }
  }
}
