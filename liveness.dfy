/** Stage 2 of LazyTransformParams: the backward scan (LivenessAnalysis) that
    decides, for every binding of the dataflow block, which input projections
    die there and may be released right after it. */
module Liveness {
  import opened RelaxIR

  /** The analysis' fields: the dies-here list of the binding being visited,
      the shrinking set of projected variables not yet seen, and the map from
      binding variable to its dies-here list. */
  datatype LivenessState = LivenessState(
    lastAppear: seq<Var>,
    inputParams: set<Var>,
    varLivenessEnd: map<Var, seq<Var>>)

  predicate NoDup(s: seq<Var>)
  {
    forall i, j :: 0 <= i < j < |s| ==> s[i] != s[j]
  }

  predicate IsOutput(b: Binding, out: Expr)
  {
    VarRef(b.v) == out
  }

  /** The hook `visit_dataflow_var_` on one visited node: a dataflow variable
      still in the set is appended to the dies-here list and removed. */
  function ScanStep(s: LivenessState, node: Expr): (r: LivenessState)
    ensures r.varLivenessEnd == s.varLivenessEnd
    ensures r.inputParams <= s.inputParams && s.lastAppear <= r.lastAppear
    ensures |r.lastAppear| - |s.lastAppear| == |s.inputParams| - |r.inputParams|
    ensures forall v :: v in r.lastAppear ==> v in s.lastAppear || v in s.inputParams
  {
    if node.VarRef? && node.v.dataflow && node.v in s.inputParams then
      s.(lastAppear := s.lastAppear + [node.v], inputParams := s.inputParams - {node.v})
    else s
  }

  /** The hook applied to `nodes` in order. */
  function ScanNodes(s: LivenessState, nodes: seq<Expr>): (r: LivenessState)
    ensures r.varLivenessEnd == s.varLivenessEnd
    ensures r.inputParams <= s.inputParams && s.lastAppear <= r.lastAppear
    ensures |r.lastAppear| - |s.lastAppear| == |s.inputParams| - |r.inputParams|
    ensures forall v :: v in r.lastAppear ==> v in s.lastAppear || v in s.inputParams
  {
    if nodes == [] then s else ScanStep(ScanNodes(s, nodes[..|nodes| - 1]), nodes[|nodes| - 1])
  }

  /** `visit_var_binding_`: the output-tuple binding is skipped; any other
      binding starts an empty list, has its value scanned, adds its own
      variable when that is still in the set (a pass-through), and records
      the list under its variable. */
  function BindingStep(s: LivenessState, b: Binding, out: Expr): (r: LivenessState)
    ensures IsOutput(b, out) ==> r == s
    ensures r.inputParams <= s.inputParams && s.varLivenessEnd.Keys <= r.varLivenessEnd.Keys
    ensures !IsOutput(b, out) ==>
      b.v in r.varLivenessEnd && r.varLivenessEnd[b.v] == r.lastAppear &&
      (forall v :: v in r.lastAppear ==> v in s.inputParams)
  {
    if IsOutput(b, out) then s
    else
      var t := ScanNodes(s.(lastAppear := []), PreOrder(b.value));
      var dies := if b.v in t.inputParams then t.lastAppear + [b.v] else t.lastAppear;
      LivenessState(dies, t.inputParams, t.varLivenessEnd[b.v := dies])
  }

  /** `visit_dataflow_block_`: the bindings in reverse order. */
  function ScanBlock(s: LivenessState, bs: seq<Binding>, out: Expr): (r: LivenessState)
    ensures r.inputParams <= s.inputParams && s.varLivenessEnd.Keys <= r.varLivenessEnd.Keys
    ensures forall k :: 0 <= k < |bs| && !IsOutput(bs[k], out) ==> bs[k].v in r.varLivenessEnd
  {
    if bs == [] then s else BindingStep(ScanBlock(s, bs[1..], out), bs[0], out)
  }

  /** The analysis of a block from a fresh object holding the projected set `s0`. */
  function LivenessEnd(bs: seq<Binding>, out: Expr, s0: set<Var>): (r: map<Var, seq<Var>>)
    ensures forall k :: 0 <= k < |bs| && !IsOutput(bs[k], out) ==> bs[k].v in r
    ensures forall v :: v in r ==> exists k :: 0 <= k < |bs| && !IsOutput(bs[k], out) && bs[k].v == v
  {
    ScanBlockKeys(LivenessState([], s0, map[]), bs, out);
    ScanBlock(LivenessState([], s0, map[]), bs, out).varLivenessEnd
  }

  /** Some non-output binding at position `i` or later references `v`. */
  predicate UsedFrom(bs: seq<Binding>, out: Expr, v: Var, i: int)
  {
    exists k :: 0 <= k < |bs| && i <= k && !IsOutput(bs[k], out) && v in DataflowRefs(bs[k].value)
  }

  /** Scanning nodes removes each referenced variable from the set, appends
      exactly those that were in it, and leaves the map alone. */
  lemma ScanNodesFacts(s: LivenessState, nodes: seq<Expr>)
    ensures ScanNodes(s, nodes).varLivenessEnd == s.varLivenessEnd
    ensures ScanNodes(s, nodes).inputParams == s.inputParams - RefSet(nodes)
    ensures forall v :: v in ScanNodes(s, nodes).lastAppear <==>
      v in s.lastAppear || (v in s.inputParams && v in RefSet(nodes))
    ensures NoDup(s.lastAppear) && (forall v :: v in s.lastAppear ==> v !in s.inputParams) ==>
      NoDup(ScanNodes(s, nodes).lastAppear) &&
      forall v :: v in ScanNodes(s, nodes).lastAppear ==> v !in ScanNodes(s, nodes).inputParams
  {
    ScanNodesSet(s, nodes);
    ScanNodesList(s, nodes);
    if NoDup(s.lastAppear) && (forall v :: v in s.lastAppear ==> v !in s.inputParams) {
      ScanNodesNoDup(s, nodes);
    }
  }

  /** The references one node adds to `RefSet` when appended. */
  lemma RefSetSnoc(nodes: seq<Expr>)
    requires nodes != []
    ensures var last := nodes[|nodes| - 1];
      RefSet(nodes) == RefSet(nodes[..|nodes| - 1]) + (if last.VarRef? && last.v.dataflow then {last.v} else {})
  {
    var init := nodes[..|nodes| - 1];
    assert forall n :: n in nodes <==> n in init || n == nodes[|nodes| - 1];
  }

  lemma {:induction false} ScanNodesSet(s: LivenessState, nodes: seq<Expr>)
    ensures ScanNodes(s, nodes).inputParams == s.inputParams - RefSet(nodes)
  {
    if nodes != [] {
      ScanNodesSet(s, nodes[..|nodes| - 1]);
      RefSetSnoc(nodes);
    }
  }

  lemma {:induction false} ScanNodesList(s: LivenessState, nodes: seq<Expr>)
    ensures forall v :: v in ScanNodes(s, nodes).lastAppear <==>
      v in s.lastAppear || (v in s.inputParams && v in RefSet(nodes))
  {
    if nodes != [] {
      ScanNodesSet(s, nodes[..|nodes| - 1]);
      ScanNodesList(s, nodes[..|nodes| - 1]);
      RefSetSnoc(nodes);
    }
  }

  lemma {:induction false} ScanNodesNoDup(s: LivenessState, nodes: seq<Expr>)
    requires NoDup(s.lastAppear) && forall v :: v in s.lastAppear ==> v !in s.inputParams
    ensures NoDup(ScanNodes(s, nodes).lastAppear)
    ensures forall v :: v in ScanNodes(s, nodes).lastAppear ==> v !in ScanNodes(s, nodes).inputParams
  {
    if nodes != [] {
      ScanNodesNoDup(s, nodes[..|nodes| - 1]);
    }
  }

  /** What one non-output binding records: the set loses the value's
      references; the list holds the references that were still in the set,
      each once, and the binding's own variable when it is still in the set
      after the value was scanned. */
  lemma BindingStepFacts(s: LivenessState, b: Binding, out: Expr)
    requires !IsOutput(b, out)
    ensures BindingStep(s, b, out).inputParams == s.inputParams - DataflowRefs(b.value)
    ensures BindingStep(s, b, out).varLivenessEnd == s.varLivenessEnd[b.v := BindingStep(s, b, out).lastAppear]
    ensures forall v :: v in BindingStep(s, b, out).lastAppear <==>
      (v in s.inputParams && v in DataflowRefs(b.value)) ||
      (v == b.v && b.v in s.inputParams && b.v !in DataflowRefs(b.value))
    ensures NoDup(BindingStep(s, b, out).lastAppear)
  {
    var s0 := s.(lastAppear := []);
    ScanNodesFacts(s0, PreOrder(b.value));
    var t := ScanNodes(s0, PreOrder(b.value));
    if b.v in t.inputParams {
      assert forall v :: v in t.lastAppear ==> v != b.v;
    }
  }

  /** Shifting the block by one binding shifts the positions of `UsedFrom`. */
  lemma UsedFromShift(bs: seq<Binding>, out: Expr, v: Var, i: int)
    requires |bs| > 0 && i >= 1
    ensures UsedFrom(bs, out, v, i) <==> UsedFrom(bs[1..], out, v, i - 1)
  {
    if UsedFrom(bs, out, v, i) {
      var j :| 0 <= j < |bs| && i <= j && !IsOutput(bs[j], out) && v in DataflowRefs(bs[j].value);
      assert bs[1..][j - 1] == bs[j];
    }
    if UsedFrom(bs[1..], out, v, i - 1) {
      var j :| 0 <= j < |bs[1..]| && i - 1 <= j && !IsOutput(bs[1..][j], out) && v in DataflowRefs(bs[1..][j].value);
      assert bs[j + 1] == bs[1..][j];
    }
  }

  /** A use from position k on is a use at k or a use from k + 1 on. */
  lemma UsedFromHere(bs: seq<Binding>, out: Expr, v: Var, k: nat)
    requires k < |bs|
    ensures UsedFrom(bs, out, v, k) <==>
      (!IsOutput(bs[k], out) && v in DataflowRefs(bs[k].value)) || UsedFrom(bs, out, v, k + 1)
  {
    if UsedFrom(bs, out, v, k) && !UsedFrom(bs, out, v, k + 1) {
      var j :| 0 <= j < |bs| && k <= j && !IsOutput(bs[j], out) && v in DataflowRefs(bs[j].value);
      assert j == k;
    }
  }

  /** The set that is left: exactly the projected variables that no non-output
      binding references. */
  lemma {:induction false} ScanBlockRemaining(s: LivenessState, bs: seq<Binding>, out: Expr)
    ensures forall v :: v in ScanBlock(s, bs, out).inputParams <==>
      v in s.inputParams && !UsedFrom(bs, out, v, 0)
  {
    if bs != [] {
      ScanBlockRemaining(s, bs[1..], out);
      var prev := ScanBlock(s, bs[1..], out);
      if !IsOutput(bs[0], out) {
        BindingStepFacts(prev, bs[0], out);
      }
      forall v ensures v in ScanBlock(s, bs, out).inputParams <==> v in s.inputParams && !UsedFrom(bs, out, v, 0) {
        UsedFromShift(bs, out, v, 1);
        UsedFromHere(bs, out, v, 0);
      }
    }
  }

  /** Every non-output binding gets an entry, and nothing else does. */
  lemma {:induction false} ScanBlockKeys(s: LivenessState, bs: seq<Binding>, out: Expr)
    ensures forall k :: 0 <= k < |bs| && !IsOutput(bs[k], out) ==> bs[k].v in ScanBlock(s, bs, out).varLivenessEnd
    ensures forall v :: v in ScanBlock(s, bs, out).varLivenessEnd ==>
      v in s.varLivenessEnd || exists k :: 0 <= k < |bs| && !IsOutput(bs[k], out) && bs[k].v == v
  {
    if bs != [] {
      var tail := bs[1..];
      ScanBlockKeys(s, tail, out);
      var prev := ScanBlock(s, tail, out);
      var m := ScanBlock(s, bs, out).varLivenessEnd;
      if !IsOutput(bs[0], out) {
        BindingStepFacts(prev, bs[0], out);
      }
      assert prev.varLivenessEnd.Keys <= m.Keys;
      forall k | 0 <= k < |bs| && !IsOutput(bs[k], out) ensures bs[k].v in m {
        if k > 0 { assert tail[k - 1] == bs[k]; }
      }
      forall v | v in m
        ensures v in s.varLivenessEnd || exists k :: 0 <= k < |bs| && !IsOutput(bs[k], out) && bs[k].v == v
      {
        if v != bs[0].v || IsOutput(bs[0], out) {
          assert v in prev.varLivenessEnd;
          if v !in s.varLivenessEnd {
            var k :| 0 <= k < |tail| && !IsOutput(tail[k], out) && tail[k].v == v;
            assert bs[k + 1] == tail[k];
          }
        }
      }
    }
  }

  /** LAST USE.  Under single assignment, the list recorded for the non-output
      binding at position k holds, each once: every projected variable that
      this binding references and no later non-output binding references;
      and the binding's own variable when it is projected and no non-output
      binding from k on references it (a pass-through). */
  lemma {:induction false} LastUse(s: LivenessState, bs: seq<Binding>, out: Expr, k: nat)
    requires DistinctVars(bs)
    requires k < |bs| && !IsOutput(bs[k], out)
    ensures bs[k].v in ScanBlock(s, bs, out).varLivenessEnd
    ensures NoDup(ScanBlock(s, bs, out).varLivenessEnd[bs[k].v])
    ensures forall v :: v in ScanBlock(s, bs, out).varLivenessEnd[bs[k].v] <==>
      (v in s.inputParams && v in DataflowRefs(bs[k].value) && !UsedFrom(bs, out, v, k + 1)) ||
      (v == bs[k].v && v in s.inputParams && !UsedFrom(bs, out, v, k))
  {
    var tail := bs[1..];
    var prev := ScanBlock(s, tail, out);
    if k == 0 {
      LastUseFirst(s, bs, out);
    } else {
      assert tail[k - 1] == bs[k];
      assert DistinctVars(tail) by {
        forall i, j | 0 <= i < j < |tail| ensures tail[i].v != tail[j].v {
          assert tail[i] == bs[i + 1] && tail[j] == bs[j + 1];
        }
      }
      LastUse(s, tail, out, k - 1);
      assert ScanBlock(s, bs, out) == BindingStep(prev, bs[0], out);
      if !IsOutput(bs[0], out) {
        BindingStepFacts(prev, bs[0], out);
        assert bs[0].v != bs[k].v;
      }
      assert ScanBlock(s, bs, out).varLivenessEnd[bs[k].v] == prev.varLivenessEnd[bs[k].v];
      forall v ensures UsedFrom(bs, out, v, k + 1) <==> UsedFrom(tail, out, v, k) {
        UsedFromShift(bs, out, v, k + 1);
      }
      forall v ensures UsedFrom(bs, out, v, k) <==> UsedFrom(tail, out, v, k - 1) {
        UsedFromShift(bs, out, v, k);
      }
    }
  }

  /** LastUse for the first binding, the one the backward scan visits last. */
  lemma LastUseFirst(s: LivenessState, bs: seq<Binding>, out: Expr)
    requires |bs| > 0 && !IsOutput(bs[0], out)
    ensures bs[0].v in ScanBlock(s, bs, out).varLivenessEnd
    ensures NoDup(ScanBlock(s, bs, out).varLivenessEnd[bs[0].v])
    ensures forall v :: v in ScanBlock(s, bs, out).varLivenessEnd[bs[0].v] <==>
      (v in s.inputParams && v in DataflowRefs(bs[0].value) && !UsedFrom(bs, out, v, 1)) ||
      (v == bs[0].v && v in s.inputParams && !UsedFrom(bs, out, v, 0))
  {
    var prev := ScanBlock(s, bs[1..], out);
    ScanBlockRemaining(s, bs[1..], out);
    BindingStepFacts(prev, bs[0], out);
    forall v ensures v in prev.inputParams <==> v in s.inputParams && !UsedFrom(bs, out, v, 1) {
      UsedFromShift(bs, out, v, 1);
    }
    forall v ensures UsedFrom(bs, out, v, 0) <==> v in DataflowRefs(bs[0].value) || UsedFrom(bs, out, v, 1) {
      UsedFromHere(bs, out, v, 0);
    }
  }

  /** RELEASED AT MOST ONCE.  Under single assignment, when no binding
      references a variable defined by itself or later, a variable sits in
      the dies-here list of at most one binding. */
  lemma ReleasedAtMostOnce(bs: seq<Binding>, out: Expr, s0: set<Var>, k1: nat, k2: nat, v: Var)
    requires DistinctVars(bs) && DefinedBeforeUse(bs)
    requires k1 < |bs| && k2 < |bs| && !IsOutput(bs[k1], out) && !IsOutput(bs[k2], out)
    requires bs[k1].v in LivenessEnd(bs, out, s0) && v in LivenessEnd(bs, out, s0)[bs[k1].v]
    requires bs[k2].v in LivenessEnd(bs, out, s0) && v in LivenessEnd(bs, out, s0)[bs[k2].v]
    ensures k1 == k2
  {
    var s := LivenessState([], s0, map[]);
    LastUse(s, bs, out, k1);
    LastUse(s, bs, out, k2);
    assert k1 < k2 && v in DataflowRefs(bs[k2].value) ==> UsedFrom(bs, out, v, k1 + 1);
    assert k2 < k1 && v in DataflowRefs(bs[k1].value) ==> UsedFrom(bs, out, v, k2 + 1);
    assert k1 <= k2 && v in DataflowRefs(bs[k1].value) ==> UsedFrom(bs, out, v, k2) || k1 < k2;
    assert k2 <= k1 && v in DataflowRefs(bs[k2].value) ==> UsedFrom(bs, out, v, k1) || k2 < k1;
    assert k1 <= k2 ==> bs[k2].v !in DataflowRefs(bs[k1].value);
    assert k2 <= k1 ==> bs[k1].v !in DataflowRefs(bs[k2].value);
  }

  /** RELEASED AT LEAST ONCE.  Under single assignment, a projected variable
      that some non-output binding references or defines is in some list. */
  lemma ReleasedSomewhere(bs: seq<Binding>, out: Expr, s0: set<Var>, v: Var)
    requires DistinctVars(bs)
    requires v in s0
    requires UsedFrom(bs, out, v, 0) || exists d :: 0 <= d < |bs| && !IsOutput(bs[d], out) && bs[d].v == v
    ensures exists k :: (0 <= k < |bs| && !IsOutput(bs[k], out) &&
      bs[k].v in LivenessEnd(bs, out, s0) && v in LivenessEnd(bs, out, s0)[bs[k].v])
  {
    var s := LivenessState([], s0, map[]);
    if UsedFrom(bs, out, v, 0) {
      var k := LastUser(bs, out, v, 0);
      LastUse(s, bs, out, k);
    } else {
      var d :| 0 <= d < |bs| && !IsOutput(bs[d], out) && bs[d].v == v;
      LastUse(s, bs, out, d);
    }
  }

  /** A projected variable that some non-output binding uses is in exactly one
      dies-here list, that of its last non-output user, and it is not that
      binding's own variable. */
  lemma ReleasedAtLastUser(bs: seq<Binding>, out: Expr, s0: set<Var>, v: Var) returns (k: nat, i: nat)
    requires DistinctVars(bs) && DefinedBeforeUse(bs)
    requires v in s0 && UsedFrom(bs, out, v, 0)
    ensures k < |bs| && !IsOutput(bs[k], out) && v in DataflowRefs(bs[k].value) && !UsedFrom(bs, out, v, k + 1)
    ensures bs[k].v in LivenessEnd(bs, out, s0) && i < |LivenessEnd(bs, out, s0)[bs[k].v]| &&
      LivenessEnd(bs, out, s0)[bs[k].v][i] == v && v != bs[k].v
    ensures forall j ::
      (0 <= j < |bs| && !IsOutput(bs[j], out) && bs[j].v in LivenessEnd(bs, out, s0) &&
       v in LivenessEnd(bs, out, s0)[bs[j].v]) ==> j == k
  {
    var live := LivenessEnd(bs, out, s0);
    k := LastUser(bs, out, v, 0);
    LastUse(LivenessState([], s0, map[]), bs, out, k);
    assert v in live[bs[k].v];
    i :| 0 <= i < |live[bs[k].v]| && live[bs[k].v][i] == v;
    forall j | 0 <= j < |bs| && !IsOutput(bs[j], out) && bs[j].v in live && v in live[bs[j].v]
      ensures j == k
    {
      ReleasedAtMostOnce(bs, out, s0, j, k, v);
    }
  }

  /** The position of the last non-output binding that references `v`. */
  lemma {:induction false} LastUser(bs: seq<Binding>, out: Expr, v: Var, i: nat) returns (k: nat)
    requires UsedFrom(bs, out, v, i)
    ensures i <= k < |bs| && !IsOutput(bs[k], out) && v in DataflowRefs(bs[k].value)
    ensures !UsedFrom(bs, out, v, k + 1)
    decreases |bs| - i
  {
    if UsedFrom(bs, out, v, i + 1) {
      k := LastUser(bs, out, v, i + 1);
    } else {
      var j :| 0 <= j < |bs| && i <= j && !IsOutput(bs[j], out) && v in DataflowRefs(bs[j].value);
      k := j;
    }
  }

  /** The LivenessAnalysis visitor: its fields are updated as it walks. */
  class LivenessAnalysis {
    var lastAppearInVarBinding: seq<Var>
    const outTupleVar: Expr
    var inputParams: set<Var>
    var varLivenessEnd: map<Var, seq<Var>>

    function State(): LivenessState
      reads this
    {
      LivenessState(lastAppearInVarBinding, inputParams, varLivenessEnd)
    }

    constructor (outTupleVar: Expr, inputParams: set<Var>)
      ensures this.outTupleVar == outTupleVar
      ensures State() == LivenessState([], inputParams, map[])
    {
      lastAppearInVarBinding := [];
      this.outTupleVar := outTupleVar;
      this.inputParams := inputParams;
      varLivenessEnd := map[];
    }

    /** `visit_dataflow_var_` */
    method VisitDataflowVar(v: Var)
      modifies this`lastAppearInVarBinding, this`inputParams
      ensures v in old(inputParams) ==>
        lastAppearInVarBinding == old(lastAppearInVarBinding) + [v] && inputParams == old(inputParams) - {v}
      ensures v !in old(inputParams) ==>
        lastAppearInVarBinding == old(lastAppearInVarBinding) && inputParams == old(inputParams)
    {
      if v in inputParams {
        lastAppearInVarBinding := lastAppearInVarBinding + [v];
        inputParams := inputParams - {v};
      }
    }

    /** The framework's walk of `e`: every node in pre-order, dataflow
        variables handed to the hook. */
    method VisitExpr(e: Expr)
      modifies this`lastAppearInVarBinding, this`inputParams
      ensures State() == ScanNodes(old(State()), PreOrder(e))
    {
      var nodes := PreOrder(e);
      for k := 0 to |nodes|
        invariant State() == ScanNodes(old(State()), nodes[..k])
      {
        assert nodes[..k + 1][..k] == nodes[..k];
        if nodes[k].VarRef? && nodes[k].v.dataflow {
          VisitDataflowVar(nodes[k].v);
        }
      }
      assert nodes[..|nodes|] == nodes;
    }

    /** `visit_var_binding_` */
    method VisitVarBinding(b: Binding)
      modifies this
      ensures State() == BindingStep(old(State()), b, outTupleVar)
    {
      if outTupleVar == VarRef(b.v) {
        return;
      }
      lastAppearInVarBinding := [];
      VisitExpr(b.value);
      if b.v in inputParams {
        lastAppearInVarBinding := lastAppearInVarBinding + [b.v];
      }
      varLivenessEnd := varLivenessEnd[b.v := lastAppearInVarBinding];
    }

    /** `visit_dataflow_block_`: the bindings from last to first. */
    method VisitDataflowBlock(bs: seq<Binding>)
      modifies this
      ensures State() == ScanBlock(old(State()), bs, outTupleVar)
    {
      var i := |bs|;
      while i > 0
        invariant 0 <= i <= |bs|
        invariant State() == ScanBlock(old(State()), bs[i..], outTupleVar)
      {
        assert bs[i - 1..][1..] == bs[i..];
        VisitVarBinding(bs[i - 1]);
        i := i - 1;
      }
    }
  }
}
