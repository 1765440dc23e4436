/** Stage 3 of LazyTransformParams: the forward rewrite
    (LazyTransformParamsMutator) that turns input projections into `get_item`
    calls, stores every output field with `set_item`, and releases projected
    values where the liveness analysis says they die.  The transform itself
    chains the three stages. */
module Mutator {
  import opened RelaxIR
  import Forward
  import Liveness

  /** `get_item(i)`: fetch input `i`. */
  function GetItemCall(i: int): (r: Expr)
    ensures r.Call? && r.op == ExternFunc("get_item") && r.args == [PrimValue(i)]
  {
    Call(ExternFunc("get_item"), [PrimValue(i)])
  }

  /** `set_item(j, v)`: store `v` as output `j`. */
  function SetItemCall(j: int, v: Var): (r: Expr)
    ensures r.Call? && r.op == ExternFunc("set_item") && r.args == [PrimValue(j), VarRef(v)]
  {
    Call(ExternFunc("set_item"), [PrimValue(j), VarRef(v)])
  }

  /** `relax.op.vm.kill_object(v)`: release `v`. */
  function KillObject(v: Var): (r: Expr)
    ensures r.Call? && r.op == Op("relax.vm.kill_object") && r.args == [VarRef(v)]
  {
    Call(Op("relax.vm.kill_object"), [VarRef(v)])
  }

  /** The mutator's `visit_expr`: variables are looked up in the remap, the
      children are rewritten first, and a projection whose rewritten tuple is
      the input parameter becomes `get_item` with the same index
      (`visit_tuple_getitem_`). */
  function Rewrite(e: Expr, param: Var, remap: map<nat, Var>): (r: Expr)
    ensures e.VarRef? ==> r.VarRef? && (e.v.id in remap ==> r.v == remap[e.v.id]) && (e.v.id !in remap ==> r == e)
    ensures e.TupleGetItem? ==> r == GetItemCall(e.index) || (r.TupleGetItem? && r.index == e.index)
    ensures e.Tuple? ==> r.Tuple? && |r.fields| == |e.fields|
    ensures e.Call? ==> r.Call? && |r.args| == |e.args|
    ensures e.PrimValue? || e.ExternFunc? || e.Op? ==> r == e
  {
    match e
    case VarRef(v) => if v.id in remap then VarRef(remap[v.id]) else e
    case TupleGetItem(t, i) =>
      var t' := Rewrite(t, param, remap);
      if t' == VarRef(param) then GetItemCall(i) else TupleGetItem(t', i)
    case Tuple(fs) => Tuple(RewriteAll(fs, param, remap))
    case Call(op, args) => Call(Rewrite(op, param, remap), RewriteAll(args, param, remap))
    case _ => e
  }

  /** `Rewrite` on each element. */
  function RewriteAll(es: seq<Expr>, param: Var, remap: map<nat, Var>): (r: seq<Expr>)
    ensures |r| == |es| && forall i :: 0 <= i < |es| ==> r[i] == Rewrite(es[i], param, remap)
  {
    if es == [] then [] else RewriteAll(es[..|es| - 1], param, remap) + [Rewrite(es[|es| - 1], param, remap)]
  }

  /** The remap never sends anything to the input parameter, and the input
      parameter itself is not remapped. */
  predicate ParamUntouched(param: Var, remap: map<nat, Var>)
  {
    param.id !in remap && param !in remap.Values
  }

  /** A node of a rewritten expression: no projection of the input parameter
      is left, and every variable is either a remap target or an original
      variable of `src` that has no remap entry. */
  predicate RewrittenNode(n: Expr, param: Var, remap: map<nat, Var>, src: seq<Expr>)
  {
    !(n.TupleGetItem? && n.tuple == VarRef(param)) &&
    (n.VarRef? ==> n.v in remap.Values || (n.v.id !in remap && n in src))
  }

  /** No projection of the input survives the rewrite, and every variable that
      has a remap entry is replaced. */
  lemma {:induction false} RewriteNodes(e: Expr, param: Var, remap: map<nat, Var>)
    requires ParamUntouched(param, remap)
    ensures forall n :: n in PreOrder(Rewrite(e, param, remap)) ==> RewrittenNode(n, param, remap, PreOrder(e))
    decreases e, 1
  {
    match e
    case VarRef(v) =>
    case TupleGetItem(t, i) => RewriteProjectionNodes(t, i, param, remap);
    case Tuple(fs) =>
      RewriteAllNodes(fs, param, remap);
      assert forall m :: m in PreOrderAll(fs) ==> m in PreOrder(e);
    case Call(op, args) => RewriteCallNodes(op, args, param, remap);
    case PrimValue(_) =>
    case ExternFunc(_) =>
    case Op(_) =>
  }

  /** `RewriteNodes` for a projection. */
  lemma {:induction false} RewriteProjectionNodes(t: Expr, i: int, param: Var, remap: map<nat, Var>)
    requires ParamUntouched(param, remap)
    ensures var e := TupleGetItem(t, i);
      forall n :: n in PreOrder(Rewrite(e, param, remap)) ==> RewrittenNode(n, param, remap, PreOrder(e))
    decreases TupleGetItem(t, i), 0
  {
    var e := TupleGetItem(t, i);
    var r := Rewrite(e, param, remap);
    RewriteNodes(t, param, remap);
    if Rewrite(t, param, remap) != VarRef(param) {
      assert PreOrder(r) == [r] + PreOrder(Rewrite(t, param, remap));
      forall n | n in PreOrder(r) ensures RewrittenNode(n, param, remap, PreOrder(e)) {
        if n != r {
          assert n in PreOrder(Rewrite(t, param, remap));
          assert forall m :: m in PreOrder(t) ==> m in PreOrder(e);
        }
      }
    } else {
      assert PreOrder(r) == [r, ExternFunc("get_item"), PrimValue(i)] by {
        assert PreOrderAll([PrimValue(i)]) == [PrimValue(i)] by {
          assert [PrimValue(i)][..0] == [];
        }
      }
    }
  }

  /** `RewriteNodes` for a call. */
  lemma {:induction false} RewriteCallNodes(op: Expr, args: seq<Expr>, param: Var, remap: map<nat, Var>)
    requires ParamUntouched(param, remap)
    ensures var e := Call(op, args);
      forall n :: n in PreOrder(Rewrite(e, param, remap)) ==> RewrittenNode(n, param, remap, PreOrder(e))
    decreases Call(op, args), 0
  {
    var e := Call(op, args);
    var r := Rewrite(e, param, remap);
    RewriteNodes(op, param, remap);
    RewriteAllNodes(args, param, remap);
    assert forall m :: m in PreOrder(op) ==> m in PreOrder(e);
    assert forall m :: m in PreOrderAll(args) ==> m in PreOrder(e);
    forall n | n in PreOrder(r) ensures RewrittenNode(n, param, remap, PreOrder(e)) {
      if n != r && n !in PreOrder(Rewrite(op, param, remap)) {
        assert n in PreOrderAll(RewriteAll(args, param, remap));
      }
    }
  }

  /** `RewriteNodes` for a sequence of expressions. */
  lemma {:induction false} RewriteAllNodes(es: seq<Expr>, param: Var, remap: map<nat, Var>)
    requires ParamUntouched(param, remap)
    ensures forall n :: n in PreOrderAll(RewriteAll(es, param, remap)) ==> RewrittenNode(n, param, remap, PreOrderAll(es))
    decreases es, 0
  {
    var rs := RewriteAll(es, param, remap);
    forall n | n in PreOrderAll(rs) ensures RewrittenNode(n, param, remap, PreOrderAll(es)) {
      PreOrderAllSource(rs, n);
      var i :| 0 <= i < |rs| && n in PreOrder(rs[i]);
      RewriteNodes(es[i], param, remap);
      forall m | m in PreOrder(es[i]) ensures m in PreOrderAll(es) {
        PreOrderAllMember(es, i, m);
      }
    }
  }

  /** An expression with no remapped variable and no projection of the input
      is left exactly as it is. */
  lemma {:induction false} RewriteIdentity(e: Expr, param: Var, remap: map<nat, Var>)
    requires forall n :: n in PreOrder(e) ==>
      !(n.VarRef? && n.v.id in remap) && !(n.TupleGetItem? && n.tuple == VarRef(param))
    ensures Rewrite(e, param, remap) == e
    decreases e, 1
  {
    match e
    case VarRef(v) =>
    case TupleGetItem(t, i) =>
      RewriteIdentity(t, param, remap);
    case Tuple(fs) =>
      RewriteAllIdentity(fs, param, remap);
    case Call(op, args) =>
      RewriteIdentity(op, param, remap);
      RewriteAllIdentity(args, param, remap);
    case PrimValue(_) =>
    case ExternFunc(_) =>
    case Op(_) =>
  }

  /** `RewriteIdentity` for a sequence of expressions. */
  lemma {:induction false} RewriteAllIdentity(es: seq<Expr>, param: Var, remap: map<nat, Var>)
    requires forall n :: n in PreOrderAll(es) ==>
      !(n.VarRef? && n.v.id in remap) && !(n.TupleGetItem? && n.tuple == VarRef(param))
    ensures RewriteAll(es, param, remap) == es
    decreases es, 0
  {
    forall i | 0 <= i < |es| ensures Rewrite(es[i], param, remap) == es[i] {
      forall m | m in PreOrder(es[i]) ensures m in PreOrderAll(es) {
        PreOrderAllMember(es, i, m);
      }
      RewriteIdentity(es[i], param, remap);
    }
  }

  /** `params[i]` becomes `get_item(i)`. */
  lemma RewriteInputProjection(param: Var, remap: map<nat, Var>, i: int)
    requires ParamUntouched(param, remap)
    ensures Rewrite(TupleGetItem(VarRef(param), i), param, remap) == GetItemCall(i)
  {
  }

  /** A projection of anything other than the input parameter stays a
      projection with the same index. */
  lemma RewriteOtherProjection(t: Expr, param: Var, remap: map<nat, Var>, i: int)
    requires ParamUntouched(param, remap)
    requires t != VarRef(param)
    ensures Rewrite(TupleGetItem(t, i), param, remap) == TupleGetItem(Rewrite(t, param, remap), i)
  {
    if t.VarRef? && t.v.id in remap {
      assert remap[t.v.id] in remap.Values;
    }
  }

  /** The errors the rewrite stage can report: the self-release assertion and
      the remap lookup. */
  predicate RewriteError(e: Error)
  {
    e.SelfKillNotOutput? || e.MissingRemap?
  }

  /** The builder (emitted bindings of the new block, next fresh id) and the
      var remap. */
  datatype MutState = MutState(emitted: seq<Binding>, next: nat, remap: map<nat, Var>)

  /** `builder_.emit(value)`: append a binding to a fresh variable. */
  function Emit(s: MutState, value: Expr, dataflow: bool): (r: MutState)
    ensures s.emitted <= r.emitted && |r.emitted| == |s.emitted| + 1
    ensures r.emitted[|s.emitted|] == Binding(Var(s.next, dataflow), value)
    ensures r.next == s.next + 1 && r.remap == s.remap
  {
    s.(emitted := s.emitted + [Binding(Var(s.next, dataflow), value)], next := s.next + 1)
  }

  /** One dies-here entry `d` of the binding of `self`: the binding's own
      variable releases the value computed before `set_item` (an assertion
      fails when there is none); any other variable releases what it is
      remapped to (a failed lookup when it is not). */
  function KillOne(s: MutState, d: Var, self: Var, before: Option<Var>): (r: Result<MutState>)
    ensures r.Err? <==> (d == self && before.None?) || (d != self && d.id !in s.remap)
    ensures r.Err? ==> RewriteError(r.error)
    ensures r.Ok? ==>
      r.value.remap == s.remap && r.value.next == s.next + 1 &&
      |r.value.emitted| == |s.emitted| + 1 && s.emitted <= r.value.emitted
  {
    if d == self then
      if before.None? then Err(SelfKillNotOutput(d)) else Ok(Emit(s, KillObject(before.value), true))
    else if d.id in s.remap then Ok(Emit(s, KillObject(s.remap[d.id]), true))
    else Err(MissingRemap(d))
  }

  /** The release loop over a dies-here list, in list order. */
  function KillsFrom(s: MutState, dies: seq<Var>, self: Var, before: Option<Var>): (r: Result<MutState>)
    ensures r.Err? ==> RewriteError(r.error)
    ensures r.Ok? ==>
      r.value.remap == s.remap && r.value.next == s.next + |dies| &&
      |r.value.emitted| == |s.emitted| + |dies| && s.emitted <= r.value.emitted
  {
    if dies == [] then Ok(s)
    else
      var t :- KillsFrom(s, dies[..|dies| - 1], self, before);
      KillOne(t, dies[|dies| - 1], self, before)
  }

  /** `visit_var_binding_`.  An output field emits its rewritten value, then
      `set_item(j, value)`, and is remapped to the `set_item` result; any other
      binding is re-emitted with its value rewritten.  The releases its
      liveness entry lists follow. */
  function MutateBinding(s: MutState, b: Binding, param: Var, outMap: map<Expr, int>,
                         live: map<Var, seq<Var>>): (r: Result<MutState>)
    ensures r.Err? ==> RewriteError(r.error)
    ensures r.Ok? ==>
      s.emitted <= r.value.emitted && |r.value.emitted| > |s.emitted| &&
      r.value.next == s.next + (|r.value.emitted| - |s.emitted|) &&
      r.value.remap.Keys == s.remap.Keys + {b.v.id}
  {
    var before: Option<Var> := if VarRef(b.v) in outMap then Some(Var(s.next, true)) else None;
    var s1 := Rebind(s, b, param, outMap);
    if b.v in live then KillsFrom(s1, live[b.v], b.v, before) else Ok(s1)
  }

  /** The code `visit_var_binding_` emits for the binding itself, before the
      releases, and the remap entry it records. */
  function Rebind(s: MutState, b: Binding, param: Var, outMap: map<Expr, int>): (r: MutState)
    ensures s.emitted <= r.emitted
    ensures VarRef(b.v) in outMap ==> |r.emitted| == |s.emitted| + 2
    ensures VarRef(b.v) !in outMap ==> |r.emitted| == |s.emitted| + 1
    ensures r.emitted[|s.emitted|].value == Rewrite(b.value, param, s.remap)
    ensures r.remap == s.remap[b.v.id := r.emitted[|r.emitted| - 1].v]
  {
    var value := Rewrite(b.value, param, s.remap);
    if VarRef(b.v) in outMap then
      var t := Emit(Emit(s, value, true), SetItemCall(outMap[VarRef(b.v)], Var(s.next, true)), true);
      t.(remap := s.remap[b.v.id := Var(s.next + 1, true)])
    else
      var t := Emit(s, value, b.v.dataflow);
      t.(remap := s.remap[b.v.id := Var(s.next, b.v.dataflow)])
  }

  /** The forward walk over the bindings of the block. */
  function MutateFrom(s: MutState, bs: seq<Binding>, param: Var, outMap: map<Expr, int>,
                      live: map<Var, seq<Var>>): (r: Result<MutState>)
    ensures r.Err? ==> RewriteError(r.error)
    ensures r.Ok? ==>
      s.emitted <= r.value.emitted && |r.value.emitted| >= |s.emitted| + |bs| &&
      r.value.next == s.next + (|r.value.emitted| - |s.emitted|) &&
      s.remap.Keys <= r.value.remap.Keys &&
      forall k :: 0 <= k < |bs| ==> bs[k].v.id in r.value.remap
  {
    if bs == [] then Ok(s)
    else
      var t :- MutateFrom(s, bs[..|bs| - 1], param, outMap, live);
      MutateBinding(t, bs[|bs| - 1], param, outMap, live)
  }

  /** `input_params_set`: the collector's projection list as a set. */
  function Projected(c: Forward.CollectorState): (r: set<Var>)
    ensures forall v :: v in r <==> v in c.varTupleGetItem
  {
    set v | v in c.varTupleGetItem
  }

  /** `LazyTransformParamsMutator.transform`: the three stages in a row, and
      the new function with no parameters, an Object result and the old
      attributes. */
  function TransformSpec(f: Function): (r: Result<Function>)
    ensures r == Err(NoParams) <==> f.params == []
    ensures r.Ok? ==> r.value.params == [] && |r.value.bindings| >= |f.bindings|
  {
    if f.params == [] then Err(NoParams)
    else
      var param := f.params[0];
      var c :- Forward.CollectFrom(Forward.InitialCollector, f.bindings, f.body, param);
      var live := Liveness.LivenessEnd(f.bindings, f.body, Projected(c));
      var s :- MutateFrom(MutState([], FreshBase(f), map[]), f.bindings, param, c.outTupleMap, live);
      Ok(Function([], s.emitted, Rewrite(f.body, param, s.remap), ObjectStructInfo, f.attrs))
  }

  // ---------------------------------------------------------------------------
  // Properties of the rewrite

  /** The `kill_object` binding emitted for a release, to the fresh variable `id`. */
  function KillBinding(id: nat, target: Var): Binding
  {
    Binding(Var(id, true), KillObject(target))
  }

  /** What a release loop emits: one `kill_object` per entry, in list order,
      each to a fresh variable; the own variable's entry releases `before`,
      any other entry what it is remapped to. */
  lemma {:induction false} KillsShape(s: MutState, dies: seq<Var>, self: Var, before: Option<Var>)
    requires KillsFrom(s, dies, self, before).Ok?
    ensures var t := KillsFrom(s, dies, self, before).value;
      t.remap == s.remap && t.next == s.next + |dies| &&
      |t.emitted| == |s.emitted| + |dies| && t.emitted[..|s.emitted|] == s.emitted &&
      forall i :: 0 <= i < |dies| ==>
        (dies[i] == self ==> before.Some? && t.emitted[|s.emitted| + i] == KillBinding(s.next + i, before.value)) &&
        (dies[i] != self ==> dies[i].id in s.remap && t.emitted[|s.emitted| + i] == KillBinding(s.next + i, s.remap[dies[i].id]))
  {
    if dies != [] {
      var init := dies[..|dies| - 1];
      KillsShape(s, init, self, before);
      assert forall i :: 0 <= i < |init| ==> init[i] == dies[i];
    }
  }

  /** OUTPUT BINDING.  For an output field at position j the rewritten value is
      emitted first, `set_item(j, value)` right after it, then one release per
      liveness entry in list order, the own entry releasing the value stored by
      `set_item`; the field is remapped to the `set_item` result. */
  lemma OutputBindingRewrite(s: MutState, b: Binding, param: Var, outMap: map<Expr, int>,
                             live: map<Var, seq<Var>>)
    requires VarRef(b.v) in outMap
    requires MutateBinding(s, b, param, outMap, live).Ok?
    ensures var t := MutateBinding(s, b, param, outMap, live).value;
      var before := Var(s.next, true);
      var stored := Var(s.next + 1, true);
      var dies := if b.v in live then live[b.v] else [];
      var n := |s.emitted|;
      t.remap == s.remap[b.v.id := stored] &&
      |t.emitted| == n + 2 + |dies| &&
      t.emitted[..n] == s.emitted &&
      t.emitted[n] == Binding(before, Rewrite(b.value, param, s.remap)) &&
      t.emitted[n + 1] == Binding(stored, SetItemCall(outMap[VarRef(b.v)], before)) &&
      forall i :: 0 <= i < |dies| ==>
        (dies[i] == b.v ==> t.emitted[n + 2 + i] == KillBinding(s.next + 2 + i, before)) &&
        (dies[i] != b.v ==>
          dies[i].id in t.remap && t.emitted[n + 2 + i] == KillBinding(s.next + 2 + i, t.remap[dies[i].id]))
  {
    RebindOutput(s, b, param, outMap);
    if b.v in live {
      OutputReleases(s, b, param, outMap, live);
    }
  }

  /** The releases of an output field that has a liveness entry. */
  lemma OutputReleases(s: MutState, b: Binding, param: Var, outMap: map<Expr, int>, live: map<Var, seq<Var>>)
    requires VarRef(b.v) in outMap && b.v in live
    requires MutateBinding(s, b, param, outMap, live).Ok?
    ensures var t := MutateBinding(s, b, param, outMap, live).value;
      var s1 := Rebind(s, b, param, outMap);
      var before := Var(s.next, true);
      var dies := live[b.v];
      var n := |s.emitted|;
      t.remap == s1.remap && |t.emitted| == n + 2 + |dies| && t.emitted[..n + 2] == s1.emitted &&
      forall i :: 0 <= i < |dies| ==>
        (dies[i] == b.v ==> t.emitted[n + 2 + i] == KillBinding(s.next + 2 + i, before)) &&
        (dies[i] != b.v ==>
          dies[i].id in t.remap && t.emitted[n + 2 + i] == KillBinding(s.next + 2 + i, t.remap[dies[i].id]))
  {
    var before := Var(s.next, true);
    var s1 := Rebind(s, b, param, outMap);
    RebindOutput(s, b, param, outMap);
    assert MutateBinding(s, b, param, outMap, live) == KillsFrom(s1, live[b.v], b.v, Some(before));
    KillsShape(s1, live[b.v], b.v, Some(before));
  }

  /** The code an output field emits before its releases. */
  lemma RebindOutput(s: MutState, b: Binding, param: Var, outMap: map<Expr, int>)
    requires VarRef(b.v) in outMap
    ensures Rebind(s, b, param, outMap) ==
      MutState(s.emitted + [Binding(Var(s.next, true), Rewrite(b.value, param, s.remap)),
                            Binding(Var(s.next + 1, true), SetItemCall(outMap[VarRef(b.v)], Var(s.next, true)))],
               s.next + 2, s.remap[b.v.id := Var(s.next + 1, true)])
  {
  }

  /** ORDINARY BINDING.  Any other binding is re-emitted, its value rewritten,
      to a fresh variable that it is remapped to; the releases follow in list
      order, and its own entry (which only an output field may have) fails. */
  lemma OrdinaryBindingRewrite(s: MutState, b: Binding, param: Var, outMap: map<Expr, int>,
                               live: map<Var, seq<Var>>)
    requires VarRef(b.v) !in outMap
    requires MutateBinding(s, b, param, outMap, live).Ok?
    ensures var t := MutateBinding(s, b, param, outMap, live).value;
      var nv := Var(s.next, b.v.dataflow);
      var dies := if b.v in live then live[b.v] else [];
      var n := |s.emitted|;
      b.v !in dies &&
      t.remap == s.remap[b.v.id := nv] &&
      |t.emitted| == n + 1 + |dies| &&
      t.emitted[..n] == s.emitted &&
      t.emitted[n] == Binding(nv, Rewrite(b.value, param, s.remap)) &&
      forall i :: 0 <= i < |dies| ==>
        dies[i].id in t.remap && t.emitted[n + 1 + i] == KillBinding(s.next + 1 + i, t.remap[dies[i].id])
  {
    RebindOrdinary(s, b, param, outMap);
    if b.v in live {
      OrdinaryReleases(s, b, param, outMap, live);
    }
  }

  /** The code any other binding emits before its releases. */
  lemma RebindOrdinary(s: MutState, b: Binding, param: Var, outMap: map<Expr, int>)
    requires VarRef(b.v) !in outMap
    ensures Rebind(s, b, param, outMap) ==
      MutState(s.emitted + [Binding(Var(s.next, b.v.dataflow), Rewrite(b.value, param, s.remap))],
               s.next + 1, s.remap[b.v.id := Var(s.next, b.v.dataflow)])
  {
  }

  /** The releases of any other binding that has a liveness entry. */
  lemma OrdinaryReleases(s: MutState, b: Binding, param: Var, outMap: map<Expr, int>, live: map<Var, seq<Var>>)
    requires VarRef(b.v) !in outMap && b.v in live
    requires MutateBinding(s, b, param, outMap, live).Ok?
    ensures var t := MutateBinding(s, b, param, outMap, live).value;
      var s1 := Rebind(s, b, param, outMap);
      var dies := live[b.v];
      var n := |s.emitted|;
      b.v !in dies &&
      t.remap == s1.remap && |t.emitted| == n + 1 + |dies| && t.emitted[..n + 1] == s1.emitted &&
      forall i :: 0 <= i < |dies| ==>
        dies[i].id in t.remap && t.emitted[n + 1 + i] == KillBinding(s.next + 1 + i, t.remap[dies[i].id])
  {
    var s1 := Rebind(s, b, param, outMap);
    RebindOrdinary(s, b, param, outMap);
    assert MutateBinding(s, b, param, outMap, live) == KillsFrom(s1, live[b.v], b.v, None);
    KillsShape(s1, live[b.v], b.v, None);
  }

  /** PASS-THROUGH.  An output field `v = params[i]` at position j whose only
      liveness entry is itself emits exactly
      `get_item(i)`, `set_item(j, fetched)`, `kill_object(fetched)`. */
  lemma PassThroughRewrite(s: MutState, b: Binding, param: Var, outMap: map<Expr, int>,
                           live: map<Var, seq<Var>>, i: int)
    requires ParamUntouched(param, s.remap)
    requires b.value == TupleGetItem(VarRef(param), i)
    requires VarRef(b.v) in outMap && b.v in live && live[b.v] == [b.v]
    ensures MutateBinding(s, b, param, outMap, live) == Ok(MutState(
      s.emitted + [Binding(Var(s.next, true), GetItemCall(i)),
                   Binding(Var(s.next + 1, true), SetItemCall(outMap[VarRef(b.v)], Var(s.next, true))),
                   KillBinding(s.next + 2, Var(s.next, true))],
      s.next + 3,
      s.remap[b.v.id := Var(s.next + 1, true)]))
  {
    RewriteInputProjection(param, s.remap, i);
    var before := Var(s.next, true);
    var s1 := Emit(Emit(s, GetItemCall(i), true), SetItemCall(outMap[VarRef(b.v)], before), true)
      .(remap := s.remap[b.v.id := Var(s.next + 1, true)]);
    assert Rewrite(b.value, param, s.remap) == GetItemCall(i);
    assert MutateBinding(s, b, param, outMap, live) == KillsFrom(s1, [b.v], b.v, Some(before));
    assert [b.v][..0] == [];
    assert KillsFrom(s1, [b.v], b.v, Some(before)) == Ok(Emit(s1, KillObject(before), true));
    assert Emit(s1, KillObject(before), true).emitted == s.emitted + [
      Binding(before, GetItemCall(i)),
      Binding(Var(s.next + 1, true), SetItemCall(outMap[VarRef(b.v)], before)),
      KillBinding(s.next + 2, before)];
  }

  /** The transform produces a function with no parameters, an Object result
      and the original attributes. */
  lemma TransformSignature(f: Function)
    requires TransformSpec(f).Ok?
    ensures TransformSpec(f).value.params == []
    ensures TransformSpec(f).value.ret == ObjectStructInfo
    ensures TransformSpec(f).value.attrs == f.attrs
  {
  }

  /** The transform fails with NoParams exactly on a function without
      parameters, and otherwise with OutputNotTuple exactly when an
      output-tuple binding does not bind a tuple: the rewrite stage reports
      only the self-release and remap-lookup errors. */
  lemma TransformFailures(f: Function)
    ensures TransformSpec(f) == Err(NoParams) <==> f.params == []
    ensures f.params != [] ==>
      (TransformSpec(f) == Err(OutputNotTuple) <==>
       exists k :: 0 <= k < |f.bindings| && VarRef(f.bindings[k].v) == f.body && !f.bindings[k].value.Tuple?)
  {
    if f.params != [] {
      Forward.CollectFailsIff(Forward.InitialCollector, f.bindings, f.body, f.params[0]);
    }
  }

  // ---------------------------------------------------------------------------
  // Fresh variables and the absence of input projections

  /** No node of `e` projects the input parameter. */
  predicate NoInputProjection(e: Expr, param: Var)
  {
    forall n :: n in PreOrder(e) ==> !(n.TupleGetItem? && n.tuple == VarRef(param))
  }

  /** The builder state after emitting from `base`: the i-th emitted binding
      defines id `base + i`, every remap target is one of those, and no
      emitted value projects the input parameter. */
  predicate Fresh(s: MutState, base: nat, param: Var)
  {
    s.next == base + |s.emitted| &&
    (forall i :: 0 <= i < |s.emitted| ==> s.emitted[i].v.id == base + i) &&
    (forall k | k in s.remap :: base <= s.remap[k].id < s.next) &&
    (forall i :: 0 <= i < |s.emitted| ==> NoInputProjection(s.emitted[i].value, param))
  }

  lemma SetItemNoProjection(j: int, v: Var, param: Var)
    ensures NoInputProjection(SetItemCall(j, v), param)
  {
    var args := [PrimValue(j), VarRef(v)];
    assert args[..1] == [PrimValue(j)] && args[..1][..0] == [];
    assert PreOrderAll(args[..1]) == [PrimValue(j)];
    assert PreOrderAll(args) == [PrimValue(j), VarRef(v)];
  }

  lemma KillNoProjection(v: Var, param: Var)
    ensures NoInputProjection(KillObject(v), param)
  {
    assert [VarRef(v)][..0] == [];
    assert PreOrderAll([VarRef(v)]) == [VarRef(v)];
  }

  lemma RewriteNoProjection(e: Expr, param: Var, remap: map<nat, Var>)
    requires ParamUntouched(param, remap)
    ensures NoInputProjection(Rewrite(e, param, remap), param)
  {
    RewriteNodes(e, param, remap);
  }

  /** Emitting a value that does not project the input keeps `Fresh`. */
  lemma EmitFresh(s: MutState, value: Expr, dataflow: bool, base: nat, param: Var)
    requires Fresh(s, base, param) && NoInputProjection(value, param)
    ensures Fresh(Emit(s, value, dataflow), base, param)
  {
    var t := Emit(s, value, dataflow);
    assert forall i :: 0 <= i < |s.emitted| ==> t.emitted[i] == s.emitted[i];
  }

  /** The release loop keeps `Fresh`. */
  lemma {:induction false} KillsFresh(s: MutState, dies: seq<Var>, self: Var, before: Option<Var>, base: nat, param: Var)
    requires Fresh(s, base, param)
    requires KillsFrom(s, dies, self, before).Ok?
    ensures Fresh(KillsFrom(s, dies, self, before).value, base, param)
    ensures KillsFrom(s, dies, self, before).value.remap == s.remap
  {
    if dies != [] {
      KillsFresh(s, dies[..|dies| - 1], self, before, base, param);
      var t := KillsFrom(s, dies[..|dies| - 1], self, before).value;
      var d := dies[|dies| - 1];
      var target := if d == self then before.value else t.remap[d.id];
      KillNoProjection(target, param);
      EmitFresh(t, KillObject(target), true, base, param);
    }
  }

  /** One binding keeps `Fresh`, provided the binding's own id is not the
      input parameter's. */
  lemma MutateBindingFresh(s: MutState, b: Binding, param: Var, outMap: map<Expr, int>,
                           live: map<Var, seq<Var>>, base: nat)
    requires Fresh(s, base, param) && param.id < base && param.id !in s.remap && b.v.id != param.id
    requires MutateBinding(s, b, param, outMap, live).Ok?
    ensures var t := MutateBinding(s, b, param, outMap, live).value;
      Fresh(t, base, param) && param.id !in t.remap
  {
    assert ParamUntouched(param, s.remap) by {
      forall k | k in s.remap ensures s.remap[k] != param {
      }
    }
    RebindFresh(s, b, param, outMap, base);
    if b.v in live {
      var before: Option<Var> := if VarRef(b.v) in outMap then Some(Var(s.next, true)) else None;
      KillsFresh(Rebind(s, b, param, outMap), live[b.v], b.v, before, base, param);
    }
  }

  /** The binding's own code keeps `Fresh`. */
  lemma RebindFresh(s: MutState, b: Binding, param: Var, outMap: map<Expr, int>, base: nat)
    requires Fresh(s, base, param) && param.id < base && ParamUntouched(param, s.remap) && b.v.id != param.id
    ensures Fresh(Rebind(s, b, param, outMap), base, param) && param.id !in Rebind(s, b, param, outMap).remap
  {
    var value := Rewrite(b.value, param, s.remap);
    RewriteNoProjection(b.value, param, s.remap);
    if VarRef(b.v) in outMap {
      EmitFresh(s, value, true, base, param);
      SetItemNoProjection(outMap[VarRef(b.v)], Var(s.next, true), param);
      EmitFresh(Emit(s, value, true), SetItemCall(outMap[VarRef(b.v)], Var(s.next, true)), true, base, param);
    } else {
      EmitFresh(s, value, b.v.dataflow, base, param);
    }
  }

  /** The whole walk keeps `Fresh`. */
  lemma {:induction false} MutateFromFresh(s: MutState, bs: seq<Binding>, param: Var, outMap: map<Expr, int>,
                                           live: map<Var, seq<Var>>, base: nat)
    requires Fresh(s, base, param) && param.id < base && param.id !in s.remap
    requires forall k :: 0 <= k < |bs| ==> bs[k].v.id != param.id
    requires MutateFrom(s, bs, param, outMap, live).Ok?
    ensures var t := MutateFrom(s, bs, param, outMap, live).value;
      Fresh(t, base, param) && param.id !in t.remap
  {
    if bs != [] {
      var init := bs[..|bs| - 1];
      assert forall k :: 0 <= k < |init| ==> init[k] == bs[k];
      MutateFromFresh(s, init, param, outMap, live, base);
      MutateBindingFresh(MutateFrom(s, init, param, outMap, live).value, bs[|bs| - 1], param, outMap, live, base);
    }
  }

  /** The lazy function projects the input parameter nowhere, and its bindings
      define fresh, distinct variables numbered from `FreshBase(f)`: provided
      no binding of `f` defines a variable with the parameter's id. */
  lemma TransformNoInputProjection(f: Function)
    requires f.params != []
    requires forall k :: 0 <= k < |f.bindings| ==> f.bindings[k].v.id != f.params[0].id
    requires TransformSpec(f).Ok?
    ensures var g := TransformSpec(f).value;
      NoInputProjection(g.body, f.params[0]) &&
      forall i :: 0 <= i < |g.bindings| ==>
        g.bindings[i].v.id == FreshBase(f) + i && NoInputProjection(g.bindings[i].value, f.params[0])
  {
    var param := f.params[0];
    var c := Forward.CollectFrom(Forward.InitialCollector, f.bindings, f.body, param).value;
    var live := Liveness.LivenessEnd(f.bindings, f.body, Projected(c));
    var s0 := MutState([], FreshBase(f), map[]);
    MutateFromFresh(s0, f.bindings, param, c.outTupleMap, live, FreshBase(f));
    var s := MutateFrom(s0, f.bindings, param, c.outTupleMap, live).value;
    assert ParamUntouched(param, s.remap) by {
      forall k | k in s.remap ensures s.remap[k] != param {
      }
    }
    RewriteNoProjection(f.body, param, s.remap);
  }

  /** The name filter of the module pass: only functions whose name ends in
      `transform_params` are rewritten. */
  function IsTransformParamsName(name: string): (b: bool)
    ensures b <==> exists k :: 0 <= k <= |name| && name[k..] == "transform_params"
  {
    |name| >= |"transform_params"| && name[|name| - |"transform_params"|..] == "transform_params"
  }

  // ---------------------------------------------------------------------------
  // The mutator object

  /** LazyTransformParamsMutator: the builder's emitted bindings and next
      fresh id, the var remap, and the results of the first two stages. */
  class LazyTransformParamsMutator {
    var emitted: seq<Binding>
    var nextId: nat
    var varRemap: map<nat, Var>
    var inputTupleParam: Var
    var outTupleMap: map<Expr, int>
    var outTupleVar: Expr
    var memoryFreeInsertion: map<Var, seq<Var>>

    function State(): MutState
      reads this
    {
      MutState(emitted, nextId, varRemap)
    }

    /** The input parameter and the output variable are placeholders until
        `Transform` sets them. */
    constructor ()
      ensures State() == MutState([], 0, map[])
      ensures outTupleMap == map[] && memoryFreeInsertion == map[]
    {
      emitted := [];
      nextId := 0;
      varRemap := map[];
      inputTupleParam := Var(0, false);
      outTupleMap := map[];
      outTupleVar := PrimValue(0);
      memoryFreeInsertion := map[];
    }

    /** `builder_.emit(value)`: a fresh variable bound to `value`. */
    method EmitBinding(value: Expr, dataflow: bool) returns (v: Var)
      modifies this`emitted, this`nextId
      ensures v == Var(old(nextId), dataflow)
      ensures State() == Emit(old(State()), value, dataflow)
    {
      v := Var(nextId, dataflow);
      emitted := emitted + [Binding(v, value)];
      nextId := nextId + 1;
    }

    /** `visit_var_binding_`; a failed assertion or lookup is returned as the
        error, and then the builder holds what was emitted before it. */
    method VisitVarBinding(b: Binding) returns (err: Option<Error>)
      modifies this`emitted, this`nextId, this`varRemap
      ensures var r := MutateBinding(old(State()), b, inputTupleParam, outTupleMap, memoryFreeInsertion);
        (err.None? <==> r.Ok?) && (r.Ok? ==> State() == r.value) && (r.Err? ==> err == Some(r.error))
    {
      ghost var s := State();
      var before: Option<Var> := None;
      var value := Rewrite(b.value, inputTupleParam, varRemap);
      if VarRef(b.v) in outTupleMap {
        var index := outTupleMap[VarRef(b.v)];
        var varBeforeSetItem := EmitBinding(value, true);
        var newVar := EmitBinding(SetItemCall(index, varBeforeSetItem), true);
        varRemap := varRemap[b.v.id := newVar];
        before := Some(varBeforeSetItem);
      } else {
        var newVar := EmitBinding(value, b.v.dataflow);
        varRemap := varRemap[b.v.id := newVar];
      }
      if b.v in memoryFreeInsertion {
        err := EmitKills(memoryFreeInsertion[b.v], b.v, before);
        return;
      }
      return None;
    }

    /** The release loop of `visit_var_binding_`: one `kill_object` per
        variable whose last use is the binding of `self`, which is released
        through `before` (the value bound before `set_item`), any other
        variable through the remap. */
    method EmitKills(dies: seq<Var>, self: Var, before: Option<Var>) returns (err: Option<Error>)
      modifies this`emitted, this`nextId
      ensures var r := KillsFrom(old(State()), dies, self, before);
        (err.None? <==> r.Ok?) && (r.Ok? ==> State() == r.value) && (r.Err? ==> err == Some(r.error))
    {
      ghost var s1 := State();
      for k := 0 to |dies|
        invariant KillsFrom(s1, dies[..k], self, before) == Ok(State())
      {
        assert dies[..k + 1][..k] == dies[..k];
        var d := dies[k];
        if d == self {
          if before.None? {
            KillsStayFailed(s1, dies, k + 1, self, before);
            return Some(SelfKillNotOutput(d));
          }
          var _ := EmitBinding(KillObject(before.value), true);
        } else {
          if d.id !in varRemap {
            KillsStayFailed(s1, dies, k + 1, self, before);
            return Some(MissingRemap(d));
          }
          var _ := EmitBinding(KillObject(varRemap[d.id]), true);
        }
      }
      assert dies[..|dies|] == dies;
      return None;
    }

    /** The forward walk over the block; stops at the first error. */
    method VisitBindings(bs: seq<Binding>) returns (err: Option<Error>)
      modifies this`emitted, this`nextId, this`varRemap
      ensures var r := MutateFrom(old(State()), bs, inputTupleParam, outTupleMap, memoryFreeInsertion);
        (err.None? <==> r.Ok?) && (r.Ok? ==> State() == r.value) && (r.Err? ==> err == Some(r.error))
    {
      for k := 0 to |bs|
        invariant MutateFrom(old(State()), bs[..k], inputTupleParam, outTupleMap, memoryFreeInsertion) == Ok(State())
      {
        assert bs[..k + 1][..k] == bs[..k];
        err := VisitVarBinding(bs[k]);
        if err.Some? {
          MutateStaysFailed(old(State()), bs, k + 1, inputTupleParam, outTupleMap, memoryFreeInsertion);
          return;
        }
      }
      assert bs[..|bs|] == bs;
      return None;
    }

    /** Steps 1 and 2 of `transform`: the ForwardCollector's output map and
        projection list, then the LivenessAnalysis over the projections. */
    method Analyse(f: Function) returns (ok: bool)
      requires f.params != []
      modifies this`inputTupleParam, this`outTupleVar, this`outTupleMap, this`memoryFreeInsertion
      ensures inputTupleParam == f.params[0] && outTupleVar == f.body
      ensures var c := Forward.CollectFrom(Forward.InitialCollector, f.bindings, f.body, f.params[0]);
        ok == c.Ok? &&
        (ok ==> outTupleMap == c.value.outTupleMap &&
                memoryFreeInsertion == Liveness.LivenessEnd(f.bindings, f.body, Projected(c.value)))
    {
      inputTupleParam := f.params[0];
      outTupleVar := f.body;
      var forwardCollector := new Forward.ForwardCollector(outTupleVar, inputTupleParam);
      ok := forwardCollector.VisitBindings(f.bindings);
      if !ok {
        return;
      }
      outTupleMap := forwardCollector.outTupleMap;
      var inputParamsSet := set v | v in forwardCollector.varTupleGetItem;
      var liveness := new Liveness.LivenessAnalysis(outTupleVar, inputParamsSet);
      liveness.VisitDataflowBlock(f.bindings);
      memoryFreeInsertion := liveness.varLivenessEnd;
    }

    /** `transform`: collect, analyse liveness, then rewrite the block into a
        function without parameters. */
    method Transform(f: Function) returns (r: Result<Function>)
      modifies this
      ensures r == TransformSpec(f)
    {
      if f.params == [] {
        return Err(NoParams);
      }
      var ok := Analyse(f);
      if !ok {
        Forward.CollectFailsIff(Forward.InitialCollector, f.bindings, f.body, f.params[0]);
        return Err(OutputNotTuple);
      }
      TransformStages(f);
      r := RewriteBody(f);
    }

    /** Step 3 of `transform`: rewrite the block with a fresh builder and remap,
        and build the function without parameters. */
    method RewriteBody(f: Function) returns (r: Result<Function>)
      modifies this`emitted, this`nextId, this`varRemap
      ensures var m := MutateFrom(MutState([], FreshBase(f), map[]), f.bindings, inputTupleParam, outTupleMap,
                                  memoryFreeInsertion);
        r == if m.Err? then Err(m.error)
             else Ok(Function([], m.value.emitted, Rewrite(f.body, inputTupleParam, m.value.remap), ObjectStructInfo, f.attrs))
    {
      emitted := [];
      nextId := FreshBase(f);
      varRemap := map[];
      var err := VisitBindings(f.bindings);
      if err.Some? {
        return Err(err.value);
      }
      var newBody := Rewrite(f.body, inputTupleParam, varRemap);
      return Ok(Function([], emitted, newBody, ObjectStructInfo, f.attrs));
    }
  }

  /** `TransformSpec` once the collector has succeeded: the rewrite stage
      decides the outcome. */
  lemma TransformStages(f: Function)
    requires f.params != []
    requires Forward.CollectFrom(Forward.InitialCollector, f.bindings, f.body, f.params[0]).Ok?
    ensures var c := Forward.CollectFrom(Forward.InitialCollector, f.bindings, f.body, f.params[0]).value;
      var live := Liveness.LivenessEnd(f.bindings, f.body, Projected(c));
      var m := MutateFrom(MutState([], FreshBase(f), map[]), f.bindings, f.params[0], c.outTupleMap, live);
      TransformSpec(f) ==
        if m.Err? then Err(m.error)
        else Ok(Function([], m.value.emitted, Rewrite(f.body, f.params[0], m.value.remap), ObjectStructInfo, f.attrs))
  {
  }

  /** Once the walk has failed on a prefix it fails on the whole block. */
  lemma {:induction false} MutateStaysFailed(s: MutState, bs: seq<Binding>, n: nat, param: Var,
                                             outMap: map<Expr, int>, live: map<Var, seq<Var>>)
    requires n <= |bs| && MutateFrom(s, bs[..n], param, outMap, live).Err?
    ensures MutateFrom(s, bs, param, outMap, live) == MutateFrom(s, bs[..n], param, outMap, live)
    decreases |bs| - n
  {
    if n < |bs| {
      assert bs[..n + 1][..n] == bs[..n];
      MutateStaysFailed(s, bs, n + 1, param, outMap, live);
    } else {
      assert bs[..n] == bs;
    }
  }

  /** Once the release loop has failed on a prefix it fails the same way on
      the whole list. */
  lemma {:induction false} KillsStayFailed(s: MutState, dies: seq<Var>, n: nat, self: Var, before: Option<Var>)
    requires n <= |dies| && KillsFrom(s, dies[..n], self, before).Err?
    ensures KillsFrom(s, dies, self, before) == KillsFrom(s, dies[..n], self, before)
    decreases |dies| - n
  {
    if n < |dies| {
      assert dies[..n + 1][..n] == dies[..n];
      KillsStayFailed(s, dies, n + 1, self, before);
    } else {
      assert dies[..n] == dies;
    }
  }

  /** A prefix of a successful walk succeeds, and what it emitted starts what
      the whole walk emitted. */
  lemma {:induction false} MutatePrefix(s: MutState, bs: seq<Binding>, n: nat, param: Var,
                                        outMap: map<Expr, int>, live: map<Var, seq<Var>>)
    requires n <= |bs| && MutateFrom(s, bs, param, outMap, live).Ok?
    ensures MutateFrom(s, bs[..n], param, outMap, live).Ok?
    ensures MutateFrom(s, bs[..n], param, outMap, live).value.emitted <= MutateFrom(s, bs, param, outMap, live).value.emitted
  {
    if n == |bs| {
      assert bs[..n] == bs;
    } else {
      var init := bs[..|bs| - 1];
      assert init[..n] == bs[..n];
      MutatePrefix(s, init, n, param, outMap, live);
      var a := MutateFrom(s, bs[..n], param, outMap, live).value.emitted;
      var b := MutateFrom(s, init, param, outMap, live).value.emitted;
      var c := MutateFrom(s, bs, param, outMap, live).value.emitted;
      assert a == b[..|a|] && b == c[..|b|];
      assert c[..|b|][..|a|] == c[..|a|];
    }
  }

  /** A projection that is no output field and that no later binding uses
      lists itself as dying at its own binding, so the self-release assertion
      (which only output fields pass) makes the transform fail, at that
      binding or earlier. */
  lemma DeadProjectionFails(f: Function, d: nat)
    requires f.params != [] && DistinctVars(f.bindings)
    requires Forward.CollectFrom(Forward.InitialCollector, f.bindings, f.body, f.params[0]).Ok?
    requires var c := Forward.CollectFrom(Forward.InitialCollector, f.bindings, f.body, f.params[0]).value;
      d < |f.bindings| && f.bindings[d].v in c.varTupleGetItem && VarRef(f.bindings[d].v) !in c.outTupleMap &&
      !Liveness.UsedFrom(f.bindings, f.body, f.bindings[d].v, d)
    ensures TransformSpec(f).Err? && RewriteError(TransformSpec(f).error)
  {
    var bs := f.bindings;
    var param := f.params[0];
    var c := Forward.CollectFrom(Forward.InitialCollector, bs, f.body, param).value;
    var x := bs[d].v;
    var live := Liveness.LivenessEnd(bs, f.body, Projected(c));
    Forward.ProjectionListIff(Forward.InitialCollector, bs, f.body, param, x);
    var k :| 0 <= k < |bs| && bs[k].v == x && VarRef(x) != f.body;
    assert !Liveness.IsOutput(bs[d], f.body);
    Liveness.LastUse(Liveness.LivenessState([], Projected(c), map[]), bs, f.body, d);
    TransformStages(f);
    SelfReleaseFails(MutState([], FreshBase(f), map[]), bs, param, c.outTupleMap, live, d);
  }

  /** The rewrite stage fails on a block in which a binding that is no output
      field lists itself as dying there. */
  lemma SelfReleaseFails(s0: MutState, bs: seq<Binding>, param: Var, outMap: map<Expr, int>,
                         live: map<Var, seq<Var>>, d: nat)
    requires d < |bs| && VarRef(bs[d].v) !in outMap && bs[d].v in live && bs[d].v in live[bs[d].v]
    ensures MutateFrom(s0, bs, param, outMap, live).Err?
  {
    var m := MutateFrom(s0, bs[..d], param, outMap, live);
    if m.Err? {
      MutateStaysFailed(s0, bs, d, param, outMap, live);
    } else {
      assert bs[..d + 1][..d] == bs[..d];
      if MutateBinding(m.value, bs[d], param, outMap, live).Ok? {
        OrdinaryBindingRewrite(m.value, bs[d], param, outMap, live);
        assert false;
      }
      MutateStaysFailed(s0, bs, d + 1, param, outMap, live);
    }
  }

  /** RELEASE AFTER LAST USE.  In a successful transform, a projection `v` that
      some non-output binding uses is listed in exactly one dies-here list: that
      of its last non-output user `k`. Its `kill_object` is emitted right after
      the code for binding `k` (its value, and for an output field its
      `set_item`), preceded only by the releases listed before it, and it
      releases what `v` is remapped to; `p` and `q` are the walk's states
      before and after binding `k`. */
  lemma ReleasedAfterLastUse(f: Function, v: Var) returns (k: nat, i: nat, p: MutState, q: MutState, emitted: seq<Binding>, at: nat)
    requires f.params != [] && DistinctVars(f.bindings) && DefinedBeforeUse(f.bindings)
    requires TransformSpec(f).Ok?
    requires Forward.CollectFrom(Forward.InitialCollector, f.bindings, f.body, f.params[0]).Ok?
    requires v in Forward.CollectFrom(Forward.InitialCollector, f.bindings, f.body, f.params[0]).value.varTupleGetItem
    requires Liveness.UsedFrom(f.bindings, f.body, v, 0)
    ensures var bs := f.bindings;
      k < |bs| && !Liveness.IsOutput(bs[k], f.body) && v in DataflowRefs(bs[k].value) &&
      !Liveness.UsedFrom(bs, f.body, v, k + 1)
    ensures var bs := f.bindings;
      var c := Forward.CollectFrom(Forward.InitialCollector, bs, f.body, f.params[0]).value;
      var live := Liveness.LivenessEnd(bs, f.body, Projected(c));
      (forall j :: 0 <= j < |bs| && !Liveness.IsOutput(bs[j], f.body) && bs[j].v in live && v in live[bs[j].v] ==> j == k) &&
      k < |bs| && bs[k].v in live && i < |live[bs[k].v]| && live[bs[k].v][i] == v &&
      var s0 := MutState([], FreshBase(f), map[]);
      MutateFrom(s0, bs[..k], f.params[0], c.outTupleMap, live) == Ok(p) &&
      MutateFrom(s0, bs[..k + 1], f.params[0], c.outTupleMap, live) == Ok(q)
    ensures TransformSpec(f).value.bindings == emitted
    ensures ReleasedAt(emitted, p, q, at, v)
    ensures var c := Forward.CollectFrom(Forward.InitialCollector, f.bindings, f.body, f.params[0]).value;
      k < |f.bindings| && at == |p.emitted| + (if VarRef(f.bindings[k].v) in c.outTupleMap then 2 else 1) + i
  {
    var bs := f.bindings;
    var param := f.params[0];
    var c := Forward.CollectFrom(Forward.InitialCollector, bs, f.body, param).value;
    var projected := Projected(c);
    var live := Liveness.LivenessEnd(bs, f.body, projected);
    var s0 := MutState([], FreshBase(f), map[]);
    k, i := Liveness.ReleasedAtLastUser(bs, f.body, projected, v);
    emitted := TransformBindings(f);
    MutateStep(s0, bs, k, param, c.outTupleMap, live);
    p := MutateFrom(s0, bs[..k], param, c.outTupleMap, live).value;
    q := MutateFrom(s0, bs[..k + 1], param, c.outTupleMap, live).value;
    at := ReleaseEmitted(p, q, emitted, bs[k], param, c.outTupleMap, live, i, v);
  }

  /** The bindings of a successful transform are what the rewrite stage
      emitted. */
  lemma TransformBindings(f: Function) returns (emitted: seq<Binding>)
    requires f.params != [] && TransformSpec(f).Ok?
    requires Forward.CollectFrom(Forward.InitialCollector, f.bindings, f.body, f.params[0]).Ok?
    ensures var c := Forward.CollectFrom(Forward.InitialCollector, f.bindings, f.body, f.params[0]).value;
      var live := Liveness.LivenessEnd(f.bindings, f.body, Projected(c));
      var m := MutateFrom(MutState([], FreshBase(f), map[]), f.bindings, f.params[0], c.outTupleMap, live);
      m.Ok? && m.value.emitted == emitted && TransformSpec(f).value.bindings == emitted
  {
    TransformStages(f);
    var c := Forward.CollectFrom(Forward.InitialCollector, f.bindings, f.body, f.params[0]).value;
    var live := Liveness.LivenessEnd(f.bindings, f.body, Projected(c));
    emitted := MutateFrom(MutState([], FreshBase(f), map[]), f.bindings, f.params[0], c.outTupleMap, live).value.emitted;
  }

  /** The emitted code starts with `p`'s, and at position `at` releases what
      `v` is remapped to in `q`, to the variable numbered as the builder
      numbers that position. */
  predicate ReleasedAt(emitted: seq<Binding>, p: MutState, q: MutState, at: int, v: Var)
  {
    v.id in q.remap && |p.emitted| <= at < |emitted| &&
    emitted[..|p.emitted|] == p.emitted &&
    emitted[at] == KillBinding(p.next + (at - |p.emitted|), q.remap[v.id])
  }

  /** Where the rewrite stage puts the release of entry `i` of binding `b`'s
      dies-here list, for an entry other than the binding's own variable, in
      any walk whose emitted code starts with that of `b`. */
  lemma ReleaseEmitted(p: MutState, q: MutState, emitted: seq<Binding>, b: Binding, param: Var,
                       outMap: map<Expr, int>, live: map<Var, seq<Var>>, i: nat, v: Var) returns (at: nat)
    requires MutateBinding(p, b, param, outMap, live) == Ok(q) && p.emitted <= q.emitted <= emitted
    requires b.v in live && i < |live[b.v]| && live[b.v][i] == v && v != b.v
    ensures at == |p.emitted| + (if VarRef(b.v) in outMap then 2 else 1) + i
    ensures ReleasedAt(emitted, p, q, at, v)
  {
    ReleaseInBinding(p, b, param, outMap, live, i);
    at := |p.emitted| + (if VarRef(b.v) in outMap then 2 else 1) + i;
    assert emitted[at] == q.emitted[at];
  }

  /** Inside a successful walk, binding `k` takes the state the walk over
      `bs[..k]` left to the one the walk over `bs[..k + 1]` leaves, and both
      emitted sequences start what the whole walk emitted. */
  lemma MutateStep(s0: MutState, bs: seq<Binding>, k: nat, param: Var, outMap: map<Expr, int>,
                   live: map<Var, seq<Var>>)
    requires MutateFrom(s0, bs, param, outMap, live).Ok? && k < |bs|
    ensures var m := MutateFrom(s0, bs, param, outMap, live).value;
      var p := MutateFrom(s0, bs[..k], param, outMap, live);
      var q := MutateFrom(s0, bs[..k + 1], param, outMap, live);
      p.Ok? && q.Ok? && MutateBinding(p.value, bs[k], param, outMap, live) == q &&
      p.value.emitted <= q.value.emitted <= m.emitted
  {
    MutatePrefix(s0, bs, k + 1, param, outMap, live);
    MutatePrefix(s0, bs, k, param, outMap, live);
    assert bs[..k + 1][..k] == bs[..k];
  }

  /** The same within the code emitted for one binding. */
  lemma ReleaseInBinding(s: MutState, b: Binding, param: Var, outMap: map<Expr, int>,
                         live: map<Var, seq<Var>>, i: nat)
    requires MutateBinding(s, b, param, outMap, live).Ok?
    requires b.v in live && i < |live[b.v]| && live[b.v][i] != b.v
    ensures var t := MutateBinding(s, b, param, outMap, live).value;
      var width := if VarRef(b.v) in outMap then 2 else 1;
      var v := live[b.v][i];
      v.id in t.remap && |s.emitted| + width + i < |t.emitted| &&
      t.emitted[|s.emitted| + width + i] == KillBinding(s.next + width + i, t.remap[v.id])
  {
    if VarRef(b.v) in outMap {
      ReleaseInOutputBinding(s, b, param, outMap, live, i);
    } else {
      ReleaseInOrdinaryBinding(s, b, param, outMap, live, i);
    }
  }

  lemma ReleaseInOutputBinding(s: MutState, b: Binding, param: Var, outMap: map<Expr, int>,
                               live: map<Var, seq<Var>>, i: nat)
    requires VarRef(b.v) in outMap && MutateBinding(s, b, param, outMap, live).Ok?
    requires b.v in live && i < |live[b.v]| && live[b.v][i] != b.v
    ensures var t := MutateBinding(s, b, param, outMap, live).value;
      live[b.v][i].id in t.remap && |s.emitted| + 2 + i < |t.emitted| &&
      t.emitted[|s.emitted| + 2 + i] == KillBinding(s.next + 2 + i, t.remap[live[b.v][i].id])
  {
    OutputBindingRewrite(s, b, param, outMap, live);
  }

  lemma ReleaseInOrdinaryBinding(s: MutState, b: Binding, param: Var, outMap: map<Expr, int>,
                                 live: map<Var, seq<Var>>, i: nat)
    requires VarRef(b.v) !in outMap && MutateBinding(s, b, param, outMap, live).Ok?
    requires b.v in live && i < |live[b.v]|
    ensures var t := MutateBinding(s, b, param, outMap, live).value;
      live[b.v][i].id in t.remap && |s.emitted| + 1 + i < |t.emitted| &&
      t.emitted[|s.emitted| + 1 + i] == KillBinding(s.next + 1 + i, t.remap[live[b.v][i].id])
  {
    OrdinaryBindingRewrite(s, b, param, outMap, live);
  }

  /** STORED RIGHT AFTER IT IS COMPUTED.  In a successful transform, an output
      field bound at position `k` has its rewritten value emitted where the
      walk stood before binding `k` (state `p`), and `set_item(j, value)` right
      after it, where `j` is the field's last position in an output tuple. */
  lemma StoredAfterComputed(f: Function, k: nat) returns (p: MutState, emitted: seq<Binding>)
    requires f.params != [] && TransformSpec(f).Ok?
    requires Forward.CollectFrom(Forward.InitialCollector, f.bindings, f.body, f.params[0]).Ok?
    requires k < |f.bindings| &&
      VarRef(f.bindings[k].v) in Forward.CollectFrom(Forward.InitialCollector, f.bindings, f.body, f.params[0]).value.outTupleMap
    ensures TransformSpec(f).value.bindings == emitted
    ensures var c := Forward.CollectFrom(Forward.InitialCollector, f.bindings, f.body, f.params[0]).value;
      var live := Liveness.LivenessEnd(f.bindings, f.body, Projected(c));
      var j := c.outTupleMap[VarRef(f.bindings[k].v)];
      var n := |p.emitted|;
      MutateFrom(MutState([], FreshBase(f), map[]), f.bindings[..k], f.params[0], c.outTupleMap, live) == Ok(p) &&
      n + 1 < |emitted| && emitted[..n] == p.emitted &&
      emitted[n] == Binding(Var(p.next, true), Rewrite(f.bindings[k].value, f.params[0], p.remap)) &&
      emitted[n + 1] == Binding(Var(p.next + 1, true), SetItemCall(j, Var(p.next, true)))
    ensures var c := Forward.CollectFrom(Forward.InitialCollector, f.bindings, f.body, f.params[0]).value;
      (exists o :: 0 <= o < |f.bindings| && VarRef(f.bindings[o].v) == f.body && f.bindings[o].value.Tuple? &&
        Forward.LastPosition(f.bindings[o].value.fields, VarRef(f.bindings[k].v), c.outTupleMap[VarRef(f.bindings[k].v)]))
  {
    var bs := f.bindings;
    var param := f.params[0];
    var c := Forward.CollectFrom(Forward.InitialCollector, bs, f.body, param).value;
    var live := Liveness.LivenessEnd(bs, f.body, Projected(c));
    var s0 := MutState([], FreshBase(f), map[]);
    emitted := TransformBindings(f);
    MutateStep(s0, bs, k, param, c.outTupleMap, live);
    p := MutateFrom(s0, bs[..k], param, c.outTupleMap, live).value;
    var q := MutateFrom(s0, bs[..k + 1], param, c.outTupleMap, live).value;
    StoredInBinding(p, q, emitted, bs[k], param, c.outTupleMap, live);
    Forward.OutTupleMapFields(Forward.InitialCollector, bs, f.body, param, VarRef(bs[k].v));
  }

  /** The value and its `set_item` inside any walk whose emitted code starts
      with that of output field `b`. */
  lemma StoredInBinding(p: MutState, q: MutState, emitted: seq<Binding>, b: Binding, param: Var,
                        outMap: map<Expr, int>, live: map<Var, seq<Var>>)
    requires VarRef(b.v) in outMap
    requires MutateBinding(p, b, param, outMap, live) == Ok(q) && p.emitted <= q.emitted <= emitted
    ensures var n := |p.emitted|;
      n + 1 < |emitted| && emitted[..n] == p.emitted &&
      emitted[n] == Binding(Var(p.next, true), Rewrite(b.value, param, p.remap)) &&
      emitted[n + 1] == Binding(Var(p.next + 1, true), SetItemCall(outMap[VarRef(b.v)], Var(p.next, true)))
  {
    OutputBindingRewrite(p, b, param, outMap, live);
    var n := |p.emitted|;
    assert emitted[n] == q.emitted[n] && emitted[n + 1] == q.emitted[n + 1];
  }

  // ---------------------------------------------------------------------------
  // Two whole functions

  /** The pre-order walk of `params[i]`, and the collector's flag after it. */
  lemma InputProjectionWalk(p: Var, i: int)
    ensures PreOrder(TupleGetItem(VarRef(p), i)) == [TupleGetItem(VarRef(p), i), VarRef(p)]
    ensures Forward.FlagAfter(PreOrder(TupleGetItem(VarRef(p), i)), p, false)
  {
    var nodes := PreOrder(TupleGetItem(VarRef(p), i));
    assert nodes[..1] == [TupleGetItem(VarRef(p), i)] && nodes[..1][..0] == [];
  }

  /** `fn(params) { x = params[0]; out = (x,); return out }` */
  function PassThroughSource(): Function
  {
    Function([Var(0, false)],
             [Binding(Var(1, true), TupleGetItem(VarRef(Var(0, false)), 0)),
              Binding(Var(2, false), Tuple([VarRef(Var(1, true))]))],
             VarRef(Var(2, false)), OtherStructInfo("tuple"), map[])
  }

  /** The first two stages on `PassThroughSource`: `x` is output field 0 and
      the only projection, and it dies at its own binding. */
  lemma PassThroughStages()
    ensures var f := PassThroughSource();
      var x := Var(1, true);
      Forward.CollectFrom(Forward.InitialCollector, f.bindings, f.body, f.params[0]) ==
        Ok(Forward.CollectorState(map[VarRef(x) := 0], [x], true)) &&
      Liveness.LivenessEnd(f.bindings, f.body, set v | v in [x]) == map[x := [x]]
  {
    var f := PassThroughSource();
    var p := Var(0, false);
    var x := Var(1, true);
    var out := VarRef(Var(2, false));
    var bs := f.bindings;
    InputProjectionWalk(p, 0);
    var init := Forward.InitialCollector;
    var c1 := Forward.CollectorState(map[], [x], true);
    assert bs[..1] == [bs[0]] && bs[..1][..0] == [];
    assert Forward.FlagAfter(PreOrder(bs[0].value), p, false);
    assert init.varTupleGetItem + [x] == [x];
    assert Forward.CollectBinding(init, bs[0], out, p) == Ok(c1);
    assert Forward.CollectFrom(init, bs[..1], out, p) == Ok(c1);
    assert Forward.FieldsInto(map[], [VarRef(x)]) == map[VarRef(x) := 0] by {
      assert [VarRef(x)][..0] == [];
    }
    var l0 := Liveness.LivenessState([], {x}, map[]);
    assert bs[1..] == [bs[1]] && bs[1..][1..] == [];
    assert Liveness.ScanBlock(l0, bs[1..], out) == l0;
    assert Liveness.ScanNodes(l0, PreOrder(bs[0].value)) == l0 by {
      var nodes := PreOrder(bs[0].value);
      assert nodes[..1] == [TupleGetItem(VarRef(p), 0)] && nodes[..1][..0] == [];
      assert Liveness.ScanNodes(l0, nodes[..1]) == l0;
    }
    assert (set v | v in [x]) == {x};
  }

  /** The rewrite stage on `PassThroughSource`. */
  lemma PassThroughRewriteStage(b: nat)
    ensures var f := PassThroughSource();
      var x := Var(1, true);
      MutateFrom(MutState([], b, map[]), f.bindings, f.params[0], map[VarRef(x) := 0], map[x := [x]]) ==
        Ok(MutState([
          Binding(Var(b, true), GetItemCall(0)),
          Binding(Var(b + 1, true), SetItemCall(0, Var(b, true))),
          KillBinding(b + 2, Var(b, true)),
          Binding(Var(b + 3, false), Tuple([VarRef(Var(b + 1, true))]))],
          b + 4, map[1 := Var(b + 1, true), 2 := Var(b + 3, false)]))
  {
    var f := PassThroughSource();
    var p := Var(0, false);
    var x := Var(1, true);
    var bs := f.bindings;
    var outMap := map[VarRef(x) := 0];
    var live := map[x := [x]];
    var s0 := MutState([], b, map[]);
    PassThroughRewrite(s0, bs[0], p, outMap, live, 0);
    var s1 := MutateBinding(s0, bs[0], p, outMap, live).value;
    assert bs[..1] == [bs[0]] && bs[..1][..0] == [];
    assert MutateFrom(s0, bs[..1], p, outMap, live) == Ok(s1);
    assert Rewrite(Tuple([VarRef(x)]), p, s1.remap) == Tuple([VarRef(Var(b + 1, true))]) by {
      assert [VarRef(x)][..0] == [];
    }
    var s2 := Emit(s1, Tuple([VarRef(Var(b + 1, true))]), false).(remap := s1.remap[2 := Var(b + 3, false)]);
    assert MutateBinding(s1, bs[1], p, outMap, live) == Ok(s2);
    assert s2.emitted == [
      Binding(Var(b, true), GetItemCall(0)),
      Binding(Var(b + 1, true), SetItemCall(0, Var(b, true))),
      KillBinding(b + 2, Var(b, true)),
      Binding(Var(b + 3, false), Tuple([VarRef(Var(b + 1, true))]))];
  }

  /** On `PassThroughSource` the projection is a pass-through output field, so
      the lazy function fetches it, stores it and releases it, then rebuilds
      the output tuple from the stored value. */
  lemma PassThroughExample()
    ensures var b := FreshBase(PassThroughSource());
      TransformSpec(PassThroughSource()) == Ok(Function([], [
        Binding(Var(b, true), GetItemCall(0)),
        Binding(Var(b + 1, true), SetItemCall(0, Var(b, true))),
        KillBinding(b + 2, Var(b, true)),
        Binding(Var(b + 3, false), Tuple([VarRef(Var(b + 1, true))]))],
        VarRef(Var(b + 3, false)), ObjectStructInfo, map[]))
  {
    PassThroughStages();
    PassThroughRewriteStage(FreshBase(PassThroughSource()));
  }

  /** `fn(params) { x = params[0]; out = (); return out }`: a projection that
      nothing uses and that is not an output field trips the assertion on the
      self-release. */
  lemma DeadProjectionExample()
    ensures var p := Var(0, false);
      var x := Var(1, true);
      var out := Var(2, false);
      var f := Function([p], [Binding(x, TupleGetItem(VarRef(p), 0)), Binding(out, Tuple([]))],
                        VarRef(out), OtherStructInfo("tuple"), map[]);
      TransformSpec(f) == Err(SelfKillNotOutput(x))
  {
    var p := Var(0, false);
    var x := Var(1, true);
    var out := Var(2, false);
    var bs := [Binding(x, TupleGetItem(VarRef(p), 0)), Binding(out, Tuple([]))];
    var f := Function([p], bs, VarRef(out), OtherStructInfo("tuple"), map[]);
    InputProjectionWalk(p, 0);
    var init := Forward.InitialCollector;
    var c1 := Forward.CollectorState(map[], [x], true);
    assert bs[..1] == [bs[0]] && bs[..1][..0] == [];
    assert Forward.FlagAfter(PreOrder(bs[0].value), p, false);
    assert init.varTupleGetItem + [x] == [x];
    assert Forward.CollectBinding(init, bs[0], VarRef(out), p) == Ok(c1);
    assert Forward.CollectFrom(init, bs[..1], VarRef(out), p) == Ok(c1);
    assert Forward.CollectFrom(init, bs, VarRef(out), p) == Ok(c1);
    var l0 := Liveness.LivenessState([], {x}, map[]);
    assert bs[1..] == [bs[1]] && bs[1..][1..] == [];
    assert Liveness.ScanBlock(l0, bs[1..], VarRef(out)) == l0;
    assert Liveness.ScanNodes(l0, PreOrder(bs[0].value)) == l0 by {
      var nodes := PreOrder(bs[0].value);
      assert nodes[..1] == [TupleGetItem(VarRef(p), 0)] && nodes[..1][..0] == [];
      assert Liveness.ScanNodes(l0, nodes[..1]) == l0;
    }
    var live := map[x := [x]];
    assert (set v | v in [x]) == {x};
    assert Liveness.LivenessEnd(bs, VarRef(out), {x}) == live;
    var s0 := MutState([], FreshBase(f), map[]);
    assert [x][..0] == [];
    var s1 := Emit(s0, Rewrite(bs[0].value, p, map[]), true).(remap := map[1 := Var(s0.next, true)]);
    assert KillsFrom(s1, [x], x, None) == Err(SelfKillNotOutput(x));
    assert MutateBinding(s0, bs[0], p, map[], live) == Err(SelfKillNotOutput(x));
    assert MutateFrom(s0, bs[..1], p, map[], live) == Err(SelfKillNotOutput(x));
  }

  /** `fn(params) { x = params[0]; y = f(x); out = (x, y); return out }`:
      an output field that a later binding uses. */
  function UsedFieldSource(): Function
  {
    Function([Var(0, false)],
             [Binding(Var(1, true), TupleGetItem(VarRef(Var(0, false)), 0)),
              Binding(Var(2, true), Call(ExternFunc("f"), [VarRef(Var(1, true))])),
              Binding(Var(3, false), Tuple([VarRef(Var(1, true)), VarRef(Var(2, true))]))],
             VarRef(Var(3, false)), OtherStructInfo("tuple"), map[])
  }

  /** The first two stages on `UsedFieldSource`: `x` and `y` are output fields
      0 and 1, `x` is the only projection, and it dies at `y`. */
  lemma UsedFieldStages()
    ensures var f := UsedFieldSource();
      var x := Var(1, true);
      var y := Var(2, true);
      Forward.CollectFrom(Forward.InitialCollector, f.bindings, f.body, f.params[0]) ==
        Ok(Forward.CollectorState(UsedFieldOutMap(), [x], false)) &&
      Liveness.LivenessEnd(f.bindings, f.body, Projected(Forward.CollectorState(UsedFieldOutMap(), [x], false))) ==
        UsedFieldLive()
  {
    UsedFieldForward();
    UsedFieldLiveness();
    var x := Var(1, true);
    assert Projected(Forward.CollectorState(UsedFieldOutMap(), [x], false)) == {x};
  }

  lemma UsedFieldForward()
    ensures var f := UsedFieldSource();
      Forward.CollectFrom(Forward.InitialCollector, f.bindings, f.body, f.params[0]) ==
        Ok(Forward.CollectorState(UsedFieldOutMap(), [Var(1, true)], false))
  {
    var f := UsedFieldSource();
    var p := f.params[0];
    var out := f.body;
    var bs := f.bindings;
    var x := Var(1, true);
    var init := Forward.InitialCollector;
    var c1 := Forward.CollectorState(map[], [x], true);
    var c2 := Forward.CollectorState(map[], [x], false);
    InputProjectionWalk(p, 0);
    assert init.varTupleGetItem + [x] == [x];
    assert Forward.CollectBinding(init, bs[0], out, p) == Ok(c1);
    assert bs[..1] == [bs[0]] && bs[..1][..0] == [];
    assert Forward.CollectFrom(init, bs[..1], out, p) == Ok(c1);
    UsedFieldCollectSecond();
    assert bs[..2][..1] == bs[..1];
    assert Forward.CollectFrom(init, bs[..2], out, p) == Ok(c2);
    UsedFieldCollectThird();
    assert bs[..3][..2] == bs[..2] && bs[..3] == bs;
  }

  /** The nodes of `f(x)` in the order the walks reach them. */
  lemma UsedFieldCallNodes()
    ensures var e := UsedFieldSource().bindings[1].value;
      PreOrder(e) == [e, ExternFunc("f"), VarRef(Var(1, true))]
  {
    assert [VarRef(Var(1, true))][..0] == [];
  }

  /** The forward scan at `y = f(x)`: no projection, so `y` is not recorded. */
  lemma UsedFieldCollectSecond()
    ensures var f := UsedFieldSource();
      Forward.CollectBinding(Forward.CollectorState(map[], [Var(1, true)], true), f.bindings[1], f.body, f.params[0]) ==
        Ok(Forward.CollectorState(map[], [Var(1, true)], false))
  {
    var f := UsedFieldSource();
    UsedFieldCallNodes();
    assert !Forward.FlagAfter(PreOrder(f.bindings[1].value), f.params[0], false);
  }

  /** The forward scan at `out = (x, y)`: the output map. */
  lemma UsedFieldCollectThird()
    ensures var f := UsedFieldSource();
      Forward.CollectBinding(Forward.CollectorState(map[], [Var(1, true)], false), f.bindings[2], f.body, f.params[0]) ==
        Ok(Forward.CollectorState(UsedFieldOutMap(), [Var(1, true)], false))
  {
    var fs := [VarRef(Var(1, true)), VarRef(Var(2, true))];
    assert fs[..1] == [VarRef(Var(1, true))] && fs[..1][..0] == [];
    assert Forward.FieldsInto(map[], fs) == UsedFieldOutMap();
  }

  lemma UsedFieldLiveness()
    ensures var f := UsedFieldSource();
      Liveness.LivenessEnd(f.bindings, f.body, {Var(1, true)}) == UsedFieldLive()
  {
    var f := UsedFieldSource();
    var out := VarRef(Var(3, false));
    var bs := f.bindings;
    var x := Var(1, true);
    var l0 := Liveness.LivenessState([], {x}, map[]);
    assert bs[1..][1..] == [bs[2]] && bs[1..][1..][1..] == [];
    assert Liveness.ScanBlock(l0, bs[1..][1..], out) == l0;
    var l1 := UsedFieldLivenessSecond();
    assert Liveness.ScanBlock(l0, bs[1..], out) == l1;
    UsedFieldLivenessFirst();
  }

  /** The backward scan at `y = f(x)`: `x` is seen there last. */
  lemma UsedFieldLivenessSecond() returns (l1: Liveness.LivenessState)
    ensures l1 == Liveness.LivenessState([Var(1, true)], {}, map[Var(2, true) := [Var(1, true)]])
    ensures Liveness.BindingStep(Liveness.LivenessState([], {Var(1, true)}, map[]), UsedFieldSource().bindings[1],
                                 UsedFieldSource().body) == l1
  {
    var x := Var(1, true);
    var b1 := UsedFieldSource().bindings[1];
    var l0 := Liveness.LivenessState([], {x}, map[]);
    l1 := Liveness.LivenessState([x], {}, map[Var(2, true) := [x]]);
    var call := PreOrder(b1.value);
    UsedFieldCallNodes();
    assert call[..2] == [b1.value, ExternFunc("f")] && call[..2][..1] == [b1.value] && call[..2][..1][..0] == [];
    assert Liveness.ScanNodes(l0, call[..2][..1]) == l0;
    assert Liveness.ScanNodes(l0, call[..2]) == l0;
    assert Liveness.ScanNodes(l0, call) == Liveness.LivenessState([x], {}, map[]);
  }

  /** The backward scan at `x = params[0]`: nothing is left to die there. */
  lemma UsedFieldLivenessFirst()
    ensures var l1 := Liveness.LivenessState([Var(1, true)], {}, map[Var(2, true) := [Var(1, true)]]);
      Liveness.BindingStep(l1, UsedFieldSource().bindings[0], UsedFieldSource().body) ==
        Liveness.LivenessState([], {}, UsedFieldLive())
  {
    var p := Var(0, false);
    var l := Liveness.LivenessState([], {}, map[Var(2, true) := [Var(1, true)]]);
    InputProjectionWalk(p, 0);
    var nodes := PreOrder(UsedFieldSource().bindings[0].value);
    assert nodes[..1] == [TupleGetItem(VarRef(p), 0)] && nodes[..1][..0] == [];
    assert Liveness.ScanNodes(l, nodes[..1]) == l;
    assert Liveness.ScanNodes(l, nodes) == l;
  }

  /** The rewrite stage on `UsedFieldSource`. */
  lemma UsedFieldRewriteStage(b: nat)
    ensures var f := UsedFieldSource();
      MutateFrom(MutState([], b, map[]), f.bindings, f.params[0], UsedFieldOutMap(), UsedFieldLive()) ==
        Ok(MutState(UsedFieldCode(b), b + 6,
                    map[1 := Var(b + 1, true), 2 := Var(b + 3, true), 3 := Var(b + 5, false)]))
    ensures Rewrite(UsedFieldSource().body, Var(0, false),
                    map[1 := Var(b + 1, true), 2 := Var(b + 3, true), 3 := Var(b + 5, false)]) == VarRef(Var(b + 5, false))
  {
    var f := UsedFieldSource();
    var bs := f.bindings;
    var p := f.params[0];
    var s0 := MutState([], b, map[]);
    var s1 := UsedFieldFirst(b);
    var s2 := UsedFieldSecond(b, s1);
    var s3 := UsedFieldThird(b, s2);
    assert bs[..1] == [bs[0]] && bs[..1][..0] == [];
    assert MutateFrom(s0, bs[..1], p, UsedFieldOutMap(), UsedFieldLive()) == Ok(s1);
    assert bs[..2][..1] == bs[..1];
    assert MutateFrom(s0, bs[..2], p, UsedFieldOutMap(), UsedFieldLive()) == Ok(s2);
    assert bs[..3][..2] == bs[..2] && bs[..3] == bs;
  }

  function UsedFieldOutMap(): map<Expr, int>
  {
    map[VarRef(Var(1, true)) := 0, VarRef(Var(2, true)) := 1]
  }

  function UsedFieldLive(): map<Var, seq<Var>>
  {
    map[Var(2, true) := [Var(1, true)], Var(1, true) := []]
  }

  /** `x = params[0]`, output field 0 with nothing dying there: fetch and store. */
  lemma UsedFieldFirst(b: nat) returns (s1: MutState)
    ensures s1 == MutState([Binding(Var(b, true), GetItemCall(0)),
                            Binding(Var(b + 1, true), SetItemCall(0, Var(b, true)))],
                           b + 2, map[1 := Var(b + 1, true)])
    ensures MutateBinding(MutState([], b, map[]), UsedFieldSource().bindings[0], Var(0, false),
                          UsedFieldOutMap(), UsedFieldLive()) == Ok(s1)
  {
    var p := Var(0, false);
    var x := Var(1, true);
    var s0 := MutState([], b, map[]);
    var bx := UsedFieldSource().bindings[0];
    RewriteInputProjection(p, map[], 0);
    s1 := MutState([Binding(Var(b, true), GetItemCall(0)),
                    Binding(Var(b + 1, true), SetItemCall(0, Var(b, true)))],
                   b + 2, map[1 := Var(b + 1, true)]);
    assert Rebind(s0, bx, p, UsedFieldOutMap()) == s1;
    assert UsedFieldLive()[x] == [];
  }

  /** `y = f(x)`, output field 1, where `x` dies: the call reads the stored
      `x`, is stored, and the stored `x` is released. */
  lemma UsedFieldSecond(b: nat, s1: MutState) returns (s2: MutState)
    requires s1 == MutState([Binding(Var(b, true), GetItemCall(0)),
                             Binding(Var(b + 1, true), SetItemCall(0, Var(b, true)))],
                            b + 2, map[1 := Var(b + 1, true)])
    ensures s2 == MutState(UsedFieldCode(b)[..5], b + 5, map[1 := Var(b + 1, true), 2 := Var(b + 3, true)])
    ensures MutateBinding(s1, UsedFieldSource().bindings[1], Var(0, false), UsedFieldOutMap(), UsedFieldLive()) == Ok(s2)
  {
    var p := Var(0, false);
    var x := Var(1, true);
    var y := Var(2, true);
    var yb := UsedFieldSource().bindings[1];
    var fx := Call(ExternFunc("f"), [VarRef(Var(b + 1, true))]);
    assert Rewrite(yb.value, p, s1.remap) == fx by {
      assert [VarRef(x)][..0] == [];
    }
    var r1 := MutState(s1.emitted + [Binding(Var(b + 2, true), fx),
                                     Binding(Var(b + 3, true), SetItemCall(1, Var(b + 2, true)))],
                       b + 4, map[1 := Var(b + 1, true), 2 := Var(b + 3, true)]);
    assert Rebind(s1, yb, p, UsedFieldOutMap()) == r1;
    assert UsedFieldLive()[y] == [x] && [x][..0] == [];
    s2 := Emit(r1, KillObject(Var(b + 1, true)), true);
    assert KillsFrom(r1, [x], y, Some(Var(b + 2, true))) == Ok(s2);
    assert s2.emitted == UsedFieldCode(b)[..5];
  }

  /** `out = (x, y)`: the tuple is rebuilt over the stored values. */
  lemma UsedFieldThird(b: nat, s2: MutState) returns (s3: MutState)
    requires s2 == MutState(UsedFieldCode(b)[..5], b + 5, map[1 := Var(b + 1, true), 2 := Var(b + 3, true)])
    ensures s3 == MutState(UsedFieldCode(b), b + 6,
                           map[1 := Var(b + 1, true), 2 := Var(b + 3, true), 3 := Var(b + 5, false)])
    ensures MutateBinding(s2, UsedFieldSource().bindings[2], Var(0, false), UsedFieldOutMap(), UsedFieldLive()) == Ok(s3)
  {
    var p := Var(0, false);
    var bo := UsedFieldSource().bindings[2];
    var tup := Tuple([VarRef(Var(b + 1, true)), VarRef(Var(b + 3, true))]);
    assert Rewrite(bo.value, p, s2.remap) == tup by {
      var fs := [VarRef(Var(1, true)), VarRef(Var(2, true))];
      assert fs[..1] == [VarRef(Var(1, true))] && fs[..1][..0] == [];
    }
    s3 := MutState(UsedFieldCode(b), b + 6,
                   map[1 := Var(b + 1, true), 2 := Var(b + 3, true), 3 := Var(b + 5, false)]);
    assert UsedFieldCode(b)[..5] + [Binding(Var(b + 5, false), tup)] == UsedFieldCode(b);
    assert Rebind(s2, bo, p, UsedFieldOutMap()) == s3;
  }

  /** The code the lazy function holds for `UsedFieldSource`, numbered from
      `b`: no `kill_object` in it releases the fetched value `b`. */
  function UsedFieldCode(b: nat): (r: seq<Binding>)
    ensures forall k :: 0 <= k < |r| ==> r[k].value != KillObject(Var(b, true))
  {
    [Binding(Var(b, true), GetItemCall(0)),
     Binding(Var(b + 1, true), SetItemCall(0, Var(b, true))),
     Binding(Var(b + 2, true), Call(ExternFunc("f"), [VarRef(Var(b + 1, true))])),
     Binding(Var(b + 3, true), SetItemCall(1, Var(b + 2, true))),
     KillBinding(b + 4, Var(b + 1, true)),
     Binding(Var(b + 5, false), Tuple([VarRef(Var(b + 1, true)), VarRef(Var(b + 3, true))]))]
  }

  /** On `UsedFieldSource` the later user `y = f(x)` reads the `set_item`
      result, so the release after it names that result, and the value
      `get_item` fetched is never released (see `UsedFieldCode`). */
  lemma UsedFieldExample()
    ensures var b := FreshBase(UsedFieldSource());
      TransformSpec(UsedFieldSource()) ==
        Ok(Function([], UsedFieldCode(b), VarRef(Var(b + 5, false)), ObjectStructInfo, map[]))
  {
    UsedFieldStages();
    UsedFieldRewriteStage(FreshBase(UsedFieldSource()));
  }
}
