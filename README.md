# LazyTransformParams, modelled in Dafny

This project models TVM Relax's LazyTransformParams pass. The pass takes a
parameter-transform function: one tuple parameter, one dataflow block, and an
output tuple as the result. It turns that function into a "lazy" function with
no parameters:

- every projection `params[i]` of the input tuple becomes a call `get_item(i)`;
- a binding whose variable is a field of the output tuple has its value stored
  with `set_item(j, v)` right after it is computed, where `j` is the field's
  last position in the tuple (a field written twice is stored once, at its
  last position; a field that no binding of the block defines is never stored);
- a projected variable is released with `relax.vm.kill_object` right after its
  last use by a non-output binding; what is released is the variable's
  replacement in the rewritten code. For an output field that a later binding
  uses, that replacement is the `set_item` result, so the value `get_item`
  fetched is not released (`Mutator.UsedFieldExample`). A projection that is
  no output field and that nothing uses makes the transform fail
  (`Mutator.DeadProjectionFails`).

The pass runs in three stages. The model has one module per stage, plus a
module for the IR:

- `RelaxIR` (`ir.dfy`) holds the IR fragment the pass sees:
  - variables `Var(id, dataflow)`;
  - expressions (variable, projection, tuple, call, prim value, extern
    function, operator);
  - bindings, and functions whose body is one dataflow block followed by the
    returned expression;
  - the order in which the visitor framework reaches the nodes of an
    expression, fixed once as `PreOrder`: the node itself, then a projection's
    tuple, a tuple's fields, a call's operator and then its arguments.
- `Forward` (`forward_collector.dfy`) is the forward scan. It builds the
  output-field map and the list of variables bound to a projection of the input.
- `Liveness` (`liveness.dfy`) is the backward scan. It consumes the set of
  projected variables and records, for each binding, the projected variables
  whose last use it is.
- `Mutator` (`mutator.dfy`) is the forward rewrite and the whole transform.

Each visitor is a `class` with the source's fields. Its hook methods update
those fields, and its loops walk the bindings (backwards for the liveness
analysis) or walk the nodes of an expression in `PreOrder`.

Each method is proved against a pure function of the old state (`ScanBlock`,
`CollectFrom`, `MutateFrom`, `TransformSpec`), and the properties are lemmas
about those functions. The builder is an append-only sequence of emitted
bindings:
- emitted variables get fresh ids, counting up from `FreshBase(f)`, which is
  above every id occurring in `f`;
- the var remap maps a variable id to the variable that replaces it.

The three assertions or lookups that can fail, and `params[0]` of an empty
parameter list, are modelled as `Err` results:
- the output binding must bind a tuple;
- a self-release must come from an output field;
- a released variable must have been remapped.

## Model

| member | source | states |
|---|---|---|
| RelaxIR.PreOrder | python/tvm/relax/transform/lazy_transform_params.py:49-54 | The walk of an expression starts at the expression itself, before its children, as the hook runs before `super().visit_tuple_getitem_`; every child's nodes follow. |
| RelaxIR.PreOrderAllMember | python/tvm/relax/transform/lazy_transform_params.py:54 | Every node reached from one field or argument is reached from the whole sequence. |
| RelaxIR.PreOrderAllSource | python/tvm/relax/transform/lazy_transform_params.py:54 | Every node reached from a sequence of fields or arguments is reached from one of them. |
| RelaxIR.FreshBase | python/tvm/relax/transform/lazy_transform_params.py:166 | The first id the builder hands out lies above every parameter id, every bound variable id and every variable referenced in the function, so emitted variables never clash with the source's. |
| Forward.FlagStep | python/tvm/relax/transform/lazy_transform_params.py:49-53 | At a projection node the flag becomes whether its tuple is the input parameter; any other node leaves the flag as it was. |
| Forward.FlagAfter | python/tvm/relax/transform/lazy_transform_params.py:49-54 | After a walk without projections the flag is unchanged; when the last node is a projection, the flag says whether it is over the input parameter. The general case is `Forward.FlagAfterIsLastProjection`. |
| Forward.FlagAfterIsLastProjection | python/tvm/relax/transform/lazy_transform_params.py:49-54 | After walking a value, the flag is set iff the last projection seen is over the input parameter (or there was none and the flag was already set). |
| Forward.FieldsInto | python/tvm/relax/transform/lazy_transform_params.py:59-60 | Entering fields keeps the old keys and makes every field a key; the last field is mapped to the last position. The full characterisation is `Forward.FieldsIntoFacts`. |
| Forward.FieldsIntoFacts | python/tvm/relax/transform/lazy_transform_params.py:59-60 | Entering the output tuple's fields makes exactly those fields new keys, keeps the other keys' values, and maps each field to its last position in the tuple. |
| Forward.FieldsIntoKeys | python/tvm/relax/transform/lazy_transform_params.py:59-60 | The keys after entering the fields are the old keys plus the fields, and keys that are not fields keep their values. |
| Forward.FieldsIntoLast | python/tvm/relax/transform/lazy_transform_params.py:59-60 | Every field is a key and is mapped to its last position in the tuple. |
| Forward.CollectBinding | python/tvm/relax/transform/lazy_transform_params.py:56-65 | One binding fails iff it is the output binding and its value is not a Tuple, and then with OutputNotTuple. The projection list only grows, keeping the old list as a prefix, and a non-output binding leaves the output map alone. |
| Forward.CollectFrom | python/tvm/relax/transform/lazy_transform_params.py:56-65 | The forward walk fails only with OutputNotTuple. On success the projection list extends the old one by at most one variable per binding. |
| Forward.OutTupleMapPositions | python/tvm/relax/transform/lazy_transform_params.py:57-60 | With distinct fields, the output map's keys are exactly the fields and field i is mapped to i. |
| Forward.OutTupleMapFields | python/tvm/relax/transform/lazy_transform_params.py:56-60 | Every key the forward scan adds to the output map is a field of some output-tuple binding's tuple, mapped to its last position in that tuple. |
| Forward.CollectFailsIff | python/tvm/relax/transform/lazy_transform_params.py:57-58 | The forward scan fails iff some output-tuple binding does not bind a Tuple, and then with OutputNotTuple. |
| Forward.ProjectionListIff | python/tvm/relax/transform/lazy_transform_params.py:61-65 | A variable is in the projection list iff it was there before or is defined by a non-output binding whose walk, started from a reset flag, leaves the flag set. |
| Forward.ExactProjectionRecorded | python/tvm/relax/transform/lazy_transform_params.py:49-51 | A non-output binding `v = params[i]` has its variable appended to the projection list. |
| Forward.NoProjectionNotRecorded | python/tvm/relax/transform/lazy_transform_params.py:61-65 | Because the flag is reset per binding, under single assignment a binding whose value holds no projection is never recorded. |
| Forward.OutputNotRecorded | python/tvm/relax/transform/lazy_transform_params.py:56-60 | The output-tuple binding is never added to the projection list. |
| Forward.OutTupleMapOfSingleOutput | python/tvm/relax/transform/lazy_transform_params.py:57-60 | With one output-tuple binding that binds a tuple, the scan succeeds and the output map is that tuple's field map. |
| Forward.NoOutputKeepsMap | python/tvm/relax/transform/lazy_transform_params.py:56-65 | Bindings other than the output binding never fail and never change the output map. |
| Forward.CollectStaysFailed | python/tvm/relax/transform/lazy_transform_params.py:58 | A failed assertion on a prefix of the block fails the whole scan. |
| Forward.ForwardCollector.constructor | python/tvm/relax/transform/lazy_transform_params.py:42-47 | The collector starts with an empty map, an empty list and a cleared flag. |
| Forward.ForwardCollector.VisitTupleGetItem | python/tvm/relax/transform/lazy_transform_params.py:49-53 | The flag becomes whether the projection's tuple is the input parameter. |
| Forward.ForwardCollector.VisitExpr | python/tvm/relax/transform/lazy_transform_params.py:49-54 | Walking an expression leaves the flag as `FlagAfter` of its pre-order nodes. |
| Forward.ForwardCollector.VisitVarBinding | python/tvm/relax/transform/lazy_transform_params.py:56-65 | The new state is `CollectBinding` of the old one; `ok` is false exactly when the tuple assertion fails, and then nothing changes. |
| Forward.ForwardCollector.VisitBindings | python/tvm/relax/transform/lazy_transform_params.py:56-65 | Visiting the block in order succeeds iff `CollectFrom` does, and then leaves its state. |
| Liveness.LivenessEnd | python/tvm/relax/transform/lazy_transform_params.py:142-144 | The liveness map has an entry for exactly the variables of the non-output bindings. |
| Liveness.ScanNodesFacts | python/tvm/relax/transform/lazy_transform_params.py:92-95 | Scanning nodes removes every referenced variable from the set and appends, without duplicates, exactly the referenced ones that were still in it; the map is untouched. |
| Liveness.ScanNodesSet | python/tvm/relax/transform/lazy_transform_params.py:92-95 | Scanning nodes removes exactly the referenced variables from the set. |
| Liveness.ScanNodesList | python/tvm/relax/transform/lazy_transform_params.py:92-95 | A variable is in the list after the scan iff it was there before or it is referenced and was still in the set. |
| Liveness.ScanNodesNoDup | python/tvm/relax/transform/lazy_transform_params.py:92-95 | A list without duplicates and disjoint from the set stays so. |
| Liveness.ScanStep | python/tvm/relax/transform/lazy_transform_params.py:92-95 | One node leaves the map alone, only shrinks the set and only extends the list, by exactly as many variables as leave the set, all taken from the set. |
| Liveness.ScanNodes | python/tvm/relax/transform/lazy_transform_params.py:92-95 | The same for a walk over several nodes. |
| Liveness.BindingStep | python/tvm/relax/transform/lazy_transform_params.py:97-105 | The output binding changes nothing. Any other binding gets an entry equal to the new current list, whose variables all come from the set, and earlier keys stay keys. |
| Liveness.ScanBlock | python/tvm/relax/transform/lazy_transform_params.py:88-90 | The backward scan only shrinks the set, keeps earlier keys, and gives every non-output binding an entry. |
| Liveness.BindingStepFacts | python/tvm/relax/transform/lazy_transform_params.py:97-105 | A non-output binding records under its own variable the projected variables it references that were still in the set, plus itself when it is still in the set after its value is scanned. |
| Liveness.ScanBlockRemaining | python/tvm/relax/transform/lazy_transform_params.py:88-95 | After the backward scan, the set holds exactly the projected variables that no non-output binding references. |
| Liveness.ScanBlockKeys | python/tvm/relax/transform/lazy_transform_params.py:88-90 | Every non-output binding gets an entry; the output binding gets none. |
| Liveness.LastUse | python/tvm/relax/transform/lazy_transform_params.py:92-105 | A binding's dies-here list, without duplicates, holds exactly the projected variables it references that no later non-output binding references, plus its own variable when no non-output binding from it on references it (pass-through). |
| Liveness.LastUseFirst | python/tvm/relax/transform/lazy_transform_params.py:92-105 | LastUse for the first binding, the last one the backward scan visits. |
| Liveness.ReleasedAtMostOnce | python/tvm/relax/transform/lazy_transform_params.py:92-95 | Under single assignment and definition before use, a projected variable is in the dies-here list of at most one binding. |
| Liveness.ReleasedSomewhere | python/tvm/relax/transform/lazy_transform_params.py:92-105 | A projected variable that some non-output binding references or defines is in some binding's dies-here list. |
| Liveness.ReleasedAtLastUser | python/tvm/relax/transform/lazy_transform_params.py:89-105 | Under single assignment and definition before use, a projected variable that a non-output binding references is in exactly one dies-here list, that of its last non-output user, and it is not that binding's own variable. |
| Liveness.LastUser | python/tvm/relax/transform/lazy_transform_params.py:89-95 | A variable that some non-output binding from position i on references has a last such binding: the position returned references it, and no later non-output binding does. |
| Liveness.UsedFromShift | python/tvm/relax/transform/lazy_transform_params.py:89-90 | "Referenced from position i on" is invariant under dropping the first binding, where the backward scan recurses. |
| Liveness.UsedFromHere | python/tvm/relax/transform/lazy_transform_params.py:89-90 | A reference from position k on is one at k or one from k + 1 on. |
| Liveness.LivenessAnalysis.constructor | python/tvm/relax/transform/lazy_transform_params.py:82-86 | The analysis starts from the given projected set and an empty map. |
| Liveness.LivenessAnalysis.VisitDataflowVar | python/tvm/relax/transform/lazy_transform_params.py:92-95 | A variable still in the set is appended to the current list and removed from the set; otherwise nothing changes. |
| Liveness.LivenessAnalysis.VisitExpr | python/tvm/relax/transform/lazy_transform_params.py:92-95 | Walking an expression leaves `ScanNodes` of its pre-order nodes. |
| Liveness.LivenessAnalysis.VisitVarBinding | python/tvm/relax/transform/lazy_transform_params.py:97-105 | The new state is `BindingStep` of the old one. |
| Liveness.LivenessAnalysis.VisitDataflowBlock | python/tvm/relax/transform/lazy_transform_params.py:88-90 | Visiting the bindings in reverse leaves `ScanBlock` of the old state. |
| Mutator.GetItemCall | python/tvm/relax/transform/lazy_transform_params.py:153-158 | The fetch is a call of the extern function `get_item` with the projection's index as its only argument. |
| Mutator.SetItemCall | python/tvm/relax/transform/lazy_transform_params.py:169-174 | The store is a call of the extern function `set_item` with the field position and the stored variable as arguments. |
| Mutator.KillObject | python/tvm/relax/transform/lazy_transform_params.py:184-186 | The release is a call of the operator `relax.vm.kill_object` with the released variable as its only argument. |
| Mutator.Emit | python/tvm/relax/transform/lazy_transform_params.py:166 | Emitting appends exactly one binding, of the next fresh variable to the value, keeps everything emitted before, advances the counter by one and leaves the remap alone. |
| Mutator.Rebind | python/tvm/relax/transform/lazy_transform_params.py:163-178 | A binding's own code, without releases, is two bindings for an output field and one otherwise, starts with the rewritten value, keeps what was emitted, and remaps the binding's id to the last variable emitted. |
| Mutator.Projected | python/tvm/relax/transform/lazy_transform_params.py:140 | The projected set holds exactly the variables of the forward scan's projection list. |
| Mutator.RewriteAll | python/tvm/relax/transform/lazy_transform_params.py:149-151 | The fields and arguments are rewritten one by one, position for position. |
| Mutator.Rewrite | python/tvm/relax/transform/lazy_transform_params.py:149-160 | A variable becomes its remap target, or stays when it has none. A projection becomes `get_item` with the same index or stays a projection with the same index. Tuples and calls keep their kind and arity, and leaves are unchanged. |
| Mutator.RewriteInputProjection | python/tvm/relax/transform/lazy_transform_params.py:151-158 | `params[i]` becomes `get_item(i)` with the same index. |
| Mutator.RewriteOtherProjection | python/tvm/relax/transform/lazy_transform_params.py:151-160 | A projection of anything other than the input parameter stays a projection with the same index over the rewritten tuple. |
| Mutator.RewriteNodes | python/tvm/relax/transform/lazy_transform_params.py:149-160 | No projection of the input is left after the rewrite. Every variable in the result is a remap target or an original variable without a remap entry. |
| Mutator.RewriteProjectionNodes | python/tvm/relax/transform/lazy_transform_params.py:151-160 | RewriteNodes for a projection. |
| Mutator.RewriteCallNodes | python/tvm/relax/transform/lazy_transform_params.py:149-151 | RewriteNodes for a call. |
| Mutator.RewriteAllNodes | python/tvm/relax/transform/lazy_transform_params.py:149-160 | RewriteNodes for a sequence of expressions. |
| Mutator.RewriteIdentity | python/tvm/relax/transform/lazy_transform_params.py:158-160 | An expression with no remapped variable and no input projection is returned unchanged. |
| Mutator.RewriteAllIdentity | python/tvm/relax/transform/lazy_transform_params.py:158-160 | RewriteIdentity for a sequence of expressions. |
| Mutator.KillsShape | python/tvm/relax/transform/lazy_transform_params.py:179-186 | The release loop emits one `kill_object` per dies-here entry, in list order, to fresh variables, and leaves the remap alone; the own entry releases the value before `set_item` and any other entry releases its remap target. |
| Mutator.KillsStayFailed | python/tvm/relax/transform/lazy_transform_params.py:182-186 | A failed self-release assertion or remap lookup ends the release loop with that error. |
| Mutator.KillOne | python/tvm/relax/transform/lazy_transform_params.py:179-186 | One release fails iff it is the own entry of a non-output binding or an entry without a remap target. Otherwise it appends one binding and keeps the remap. |
| Mutator.KillsFrom | python/tvm/relax/transform/lazy_transform_params.py:179-186 | The release loop fails only with the self-release or lookup error. On success it appends one binding per entry, keeping what was emitted and the remap. |
| Mutator.MutateBinding | python/tvm/relax/transform/lazy_transform_params.py:162-186 | One binding fails only with the self-release or lookup error. On success it appends at least one binding, fresh ids follow the builder, and the remap gains exactly the binding's id. |
| Mutator.MutateFrom | python/tvm/relax/transform/lazy_transform_params.py:162-186 | The rewrite walk fails only with the self-release or lookup error. On success it keeps what was emitted, appends at least one binding per binding, and remaps every binding's id. |
| Mutator.TransformSpec | python/tvm/relax/transform/lazy_transform_params.py:131-147 | The transform fails with NoParams iff there is no parameter. On success the lazy function has no parameters and at least as many bindings as the source. |
| Mutator.TransformStages | python/tvm/relax/transform/lazy_transform_params.py:131-147 | Once the forward scan succeeds, the rewrite walk over the liveness result decides the outcome: its error, or the function built from its builder and remap. |
| Mutator.LazyTransformParamsMutator.RewriteBody | python/tvm/relax/transform/lazy_transform_params.py:145-147 | Rewriting the block from an empty builder and remap gives the rewrite walk's error, or the function with no parameters, the emitted bindings, the rewritten returned expression, an Object return type and the original attributes. |
| Mutator.MutatePrefix | python/tvm/relax/transform/lazy_transform_params.py:162-186 | A prefix of a successful rewrite walk succeeds, and its emitted code is a prefix of the whole walk's. |
| Mutator.ReleaseEmitted | python/tvm/relax/transform/lazy_transform_params.py:163-186 | A dies-here entry other than the binding's own variable is released, of its remap target, at the position after the binding's own code (one binding, or two for an output field) and the entries listed before it. |
| Mutator.ReleaseInBinding | python/tvm/relax/transform/lazy_transform_params.py:163-186 | Inside one binding's code, entry i of its dies-here list other than itself is a `kill_object` of that entry's remap target, after the value (and `set_item`) and the entries before it. |
| Mutator.ReleaseInOutputBinding | python/tvm/relax/transform/lazy_transform_params.py:163-186 | ReleaseInBinding for an output field. |
| Mutator.ReleaseInOrdinaryBinding | python/tvm/relax/transform/lazy_transform_params.py:177-186 | ReleaseInBinding for any other binding. |
| Mutator.MutateStep | python/tvm/relax/transform/lazy_transform_params.py:162-186 | In a successful walk, the walk up to binding k and the one up to k + 1 succeed, the second is one MutateBinding step from the first, and both emit prefixes of the whole walk's code. |
| Mutator.TransformBindings | python/tvm/relax/transform/lazy_transform_params.py:131-147 | A successful transform's bindings are exactly what the rewrite walk over the liveness result emits. |
| Mutator.SelfReleaseFails | python/tvm/relax/transform/lazy_transform_params.py:177-183 | A binding that is no output field and lists itself as dying there makes the rewrite walk fail. |
| Mutator.DeadProjectionFails | python/tvm/relax/transform/lazy_transform_params.py:182-183 | Under single assignment, a projection that is no output field and that no non-output binding from its own on references makes the whole transform fail, with the self-release or lookup error. |
| Mutator.ReleasedAfterLastUse | python/tvm/relax/transform/lazy_transform_params.py:177-186 | The docstring at line 193 (free each input right after its last use), proved: in a successful transform of a single-assignment block, a projection that a non-output binding references is in exactly one dies-here list, its last user's, and its `kill_object` is emitted right after that user's code and the releases listed before it, releasing its remap target. |
| Mutator.StoredAfterComputed | python/tvm/relax/transform/lazy_transform_params.py:163-176 | In a successful transform, an output field bound at position k has its rewritten value emitted where the walk stood before binding k, and `set_item(j, value)` right after it, where j is the field's last position in an output tuple. |
| Mutator.StoredInBinding | python/tvm/relax/transform/lazy_transform_params.py:163-176 | The value and its `set_item` of an output field sit at the start of that binding's code inside any longer emitted sequence. |
| Mutator.RebindOutput | python/tvm/relax/transform/lazy_transform_params.py:163-176 | An output field's own code is its value, then `set_item` of its position on that value, with the field remapped to the `set_item` result. |
| Mutator.OutputReleases | python/tvm/relax/transform/lazy_transform_params.py:179-186 | After an output field's own code, the releases follow in list order: the own entry releases the value before `set_item`, every other entry its remap target; the remap stays. |
| Mutator.RebindOrdinary | python/tvm/relax/transform/lazy_transform_params.py:177-178 | Any other binding's own code is one binding of a fresh variable to the rewritten value, and the binding is remapped to it. |
| Mutator.OrdinaryReleases | python/tvm/relax/transform/lazy_transform_params.py:179-186 | After such a binding's own code, every entry of its list is released as its remap target, in list order, and its own variable is never in the list. |
| Mutator.OutputBindingRewrite | python/tvm/relax/transform/lazy_transform_params.py:163-176 | For an output field at position j, the rewritten value is emitted first, then `set_item(j, that value)`, then the releases in list order (the own entry releasing the stored value); the field is remapped to the `set_item` result. |
| Mutator.OrdinaryBindingRewrite | python/tvm/relax/transform/lazy_transform_params.py:177-186 | Any other binding is re-emitted with its value rewritten and remapped to the new variable, then the releases follow; its own variable is never in its list. |
| Mutator.PassThroughRewrite | python/tvm/relax/transform/lazy_transform_params.py:163-186 | An output field `v = params[i]` that dies at its own binding emits exactly `get_item(i)`, `set_item(j, fetched)` and `kill_object(fetched)`. |
| Mutator.TransformSignature | python/tvm/relax/transform/lazy_transform_params.py:147 | The result has no parameters and an Object return struct info, and it keeps the original attributes. |
| Mutator.TransformFailures | python/tvm/relax/transform/lazy_transform_params.py:131-137 | The transform reports NoParams iff there is no parameter. With a parameter it reports OutputNotTuple iff some output-tuple binding does not bind a Tuple, since the rewrite stage reports only the self-release and remap-lookup errors. |
| Mutator.MutateStaysFailed | python/tvm/relax/transform/lazy_transform_params.py:162-186 | The first binding whose rewrite fails decides the error of the whole walk. |
| Mutator.SetItemNoProjection | python/tvm/relax/transform/lazy_transform_params.py:167-174 | A `set_item` call projects nothing. |
| Mutator.KillNoProjection | python/tvm/relax/transform/lazy_transform_params.py:183-186 | A `kill_object` call projects nothing. |
| Mutator.RewriteNoProjection | python/tvm/relax/transform/lazy_transform_params.py:149-160 | A rewritten value projects the input nowhere. |
| Mutator.EmitFresh | python/tvm/relax/transform/lazy_transform_params.py:166 | Emitting a value that projects nothing keeps the builder's fresh numbering. |
| Mutator.KillsFresh | python/tvm/relax/transform/lazy_transform_params.py:179-186 | The release loop keeps the builder's fresh numbering and the remap. |
| Mutator.MutateBindingFresh | python/tvm/relax/transform/lazy_transform_params.py:162-186 | One binding keeps the builder's fresh numbering, and every remap target stays a fresh variable. |
| Mutator.RebindFresh | python/tvm/relax/transform/lazy_transform_params.py:163-177 | Re-emitting a binding without its releases keeps the fresh numbering and leaves the input parameter unmapped. |
| Mutator.MutateFromFresh | python/tvm/relax/transform/lazy_transform_params.py:162-186 | The whole walk emits binding i with id `base + i`, and no emitted value projects the input. |
| Mutator.TransformNoInputProjection | python/tvm/relax/transform/lazy_transform_params.py:131-147 | No binding or returned expression of the lazy function projects the input parameter, and its bindings define distinct fresh variables numbered from `FreshBase(f)`. |
| Mutator.InputProjectionWalk | python/tvm/relax/transform/lazy_transform_params.py:49-54 | Walking `params[i]` visits the projection and then the parameter, and leaves the collector's flag set. |
| Mutator.PassThroughStages | python/tvm/relax/transform/lazy_transform_params.py:56-105 | On `x = params[0]; out = (x,)`, `x` is output field 0 and the only projection, and it dies at its own binding. |
| Mutator.PassThroughRewriteStage | python/tvm/relax/transform/lazy_transform_params.py:162-186 | On the same function, the rewrite emits get, set, release, and the rebuilt tuple over the stored value. |
| Mutator.PassThroughExample | python/tvm/relax/transform/lazy_transform_params.py:131-186 | The whole transform of `x = params[0]; out = (x,)` is `get_item(0)`, `set_item(0, ...)`, `kill_object(...)`, then the output tuple over the `set_item` result. |
| Mutator.UsedFieldStages | python/tvm/relax/transform/lazy_transform_params.py:56-105 | On `x = params[0]; y = f(x); out = (x, y)`, `x` and `y` are output fields 0 and 1, `x` is the only projection, and it dies at `y`. |
| Mutator.UsedFieldRewriteStage | python/tvm/relax/transform/lazy_transform_params.py:162-186 | On the same function the rewrite emits get, set, `f` of the stored value, set, the release of the stored value, and the rebuilt tuple; the returned variable is rewritten to that tuple. |
| Mutator.UsedFieldCode | python/tvm/relax/transform/lazy_transform_params.py:163-186 | In that code, no `kill_object` releases the value that `get_item` fetched. |
| Mutator.UsedFieldExample | python/tvm/relax/transform/lazy_transform_params.py:131-186 | The whole transform of `x = params[0]; y = f(x); out = (x, y)` is exactly `UsedFieldCode`: the release after `y` names the `set_item` result that `y` reads, so the fetched value itself is never released. |
| Mutator.DeadProjectionExample | python/tvm/relax/transform/lazy_transform_params.py:182-183 | On the concrete function `x = params[0]; out = ()` the transform fails exactly with the self-release assertion on `x`. |
| Mutator.LazyTransformParamsMutator.constructor | python/tvm/relax/transform/lazy_transform_params.py:119-129 | The mutator starts with an empty builder, an empty remap and empty stage results. |
| Mutator.LazyTransformParamsMutator.EmitBinding | python/tvm/relax/transform/lazy_transform_params.py:166 | Emitting appends one binding of a fresh variable to the value. |
| Mutator.LazyTransformParamsMutator.VisitVarBinding | python/tvm/relax/transform/lazy_transform_params.py:162-186 | The new builder state and remap are `MutateBinding` of the old. A failed assertion or lookup returns that error. |
| Mutator.LazyTransformParamsMutator.EmitKills | python/tvm/relax/transform/lazy_transform_params.py:179-186 | The release loop leaves `KillsFrom` of the old state, or returns its error. |
| Mutator.LazyTransformParamsMutator.VisitBindings | python/tvm/relax/transform/lazy_transform_params.py:162-186 | Rewriting the block in order leaves `MutateFrom` of the old state, or returns its error. |
| Mutator.LazyTransformParamsMutator.Analyse | python/tvm/relax/transform/lazy_transform_params.py:132-144 | The input parameter is `params[0]`. The output map is the forward scan's, and the release map is the liveness analysis over the set of projected variables. |
| Mutator.LazyTransformParamsMutator.Transform | python/tvm/relax/transform/lazy_transform_params.py:131-147 | The result is `TransformSpec(f)`. |
| Mutator.IsTransformParamsName | python/tvm/relax/transform/lazy_transform_params.py:199 | A name passes the filter iff it ends in `transform_params`: some suffix of it is that string. |

## Left out

- The module pass driver `transform_module` (lines 196-206) and its registration. Looping over an IRModule, `update_func` and `get` belong to the framework. Its name filter is the predicate `Mutator.IsTransformParamsName`.
- The visitor/mutator framework and the BlockBuilder. Their traversal is fixed as `PreOrder`, and emission is an append to a sequence. Variable names, normalisation and struct-info inference are not modelled.
- The framework's fast path for an unchanged binding is not modelled. That path re-emits the original variable with no remap entry. The model gives every re-emitted binding a fresh variable and a remap entry. This affects only variable identities, never which calls are emitted or where. Every variable a release can name comes from a projection, whose value always changes.
- Functions with more than one binding block, non-dataflow blocks, MatchCast bindings and nested functions are not modelled. A function body is one dataflow block followed by the returned expression.
- The visits of the function's parameters and of its returned expression in the two analyses are not modelled. They change none of the analyses' fields: the returned output variable is not a dataflow variable.
- Extra parameters: the code takes `params[0]` (line 132) and ignores any further parameters, and so does the model. The comment at line 124 calls `params[0]` the only input parameter, a tuple; nothing in the code rejects a function with more parameters.
- The runtime meaning of `get_item`, `set_item` and `relax.vm.kill_object` is not modelled. They are opaque calls; only their arguments and their position are.
- Struct info is not modelled, except that the result's return type is `ObjectStructInfo`. The output map stores the field position as an integer. The source stores it as a `PrimValue`, which is how `set_item` receives it in the model.
- Releases are stated as the source emits them: a projected variable's release names its remap target. For an output field used by a later binding, the target is the `set_item` result and the fetched value is never released, and a field written twice in the output tuple is stored only at its last position (`Mutator.UsedFieldExample`, `Mutator.StoredAfterComputed`). The model does not claim that every fetched value is freed or every tuple position stored, which is what the docstring at line 193 suggests.
- The var remap is reset for each transformed function. In the source, one mutator object serves every function of the module.
