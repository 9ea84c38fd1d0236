/**
 The "add causal relationship" action recipe. When a template's causal action
 fires, the recipe turns the action's bound source and target vertices into one
 step that adds a `causes` edge from source to target; its undo turns the same
 bindings into one step that removes that edge.
 */
module AddCausalRelationship {
  import opened ActionSteps

  /** Template field naming the role of the cause vertex. */
  const SOURCE: string := "source"
  /** Template field naming the role of the effect vertex. */
  const TARGET: string := "target"
  /** Edge property that holds an edge's label. */
  const RELATIONSHIP_TYPE: string := "relationship_type"
  /** The label of a causal edge. */
  const CAUSES: string := "causes"

  /** The three field names are pairwise distinct, so the parameter dictionary has three entries. */
  lemma FieldNamesDistinct()
    ensures SOURCE != TARGET && SOURCE != RELATIONSHIP_TYPE && TARGET != RELATIONSHIP_TYPE
  {
  }

  /** Both roles a causal edge needs are bound. */
  predicate Bound<V>(targets: map<string, V>)
  {
    SOURCE in targets && TARGET in targets
  }

  /**
   _get_edge_params: the parameters of the causal edge between the vertices
   bound to SOURCE and TARGET. A missing role is a KeyError; SOURCE is looked up
   first, so it is the key reported when both are missing.
   */
  function GetEdgeParams<V>(targets: map<string, V>): (r: Result<Params<V>>)
    ensures r.Ok? <==> Bound(targets)
    ensures r.KeyError? ==> r.key == (if SOURCE !in targets then SOURCE else TARGET)
    ensures r.Ok? ==> r.value.Keys == {SOURCE, TARGET, RELATIONSHIP_TYPE}
    ensures r.Ok? ==> r.value[SOURCE] == Vertex(targets[SOURCE])
    ensures r.Ok? ==> r.value[TARGET] == Vertex(targets[TARGET])
    ensures r.Ok? ==> r.value[RELATIONSHIP_TYPE] == Label(CAUSES)
  {
    FieldNamesDistinct();
    if SOURCE !in targets then KeyError(SOURCE)
    else if TARGET !in targets then KeyError(TARGET)
    else Ok(map[SOURCE := Vertex(targets[SOURCE]),
                TARGET := Vertex(targets[TARGET]),
                RELATIONSHIP_TYPE := Label(CAUSES)])
  }

  /** get_do_recipe: a one-step list that adds the causal edge. */
  function GetDoRecipe<V>(spec: ActionSpec<V>): (r: Result<seq<ActionStep<V>>>)
    ensures r.Ok? <==> Bound(spec.targets)
    ensures r.KeyError? ==> r.key == GetEdgeParams(spec.targets).key
    ensures r.Ok? ==> |r.value| == 1 && r.value[0].kind == AddEdge
    ensures r.Ok? ==> r.value[0].params == GetEdgeParams(spec.targets).value
  {
    match GetEdgeParams(spec.targets)
    case KeyError(k) => KeyError(k)
    case Ok(edgeParams) => Ok([ActionStep(AddEdge, edgeParams)])
  }

  /** get_undo_recipe: a one-step list that removes the causal edge. */
  function GetUndoRecipe<V>(spec: ActionSpec<V>): (r: Result<seq<ActionStep<V>>>)
    ensures r.Ok? <==> Bound(spec.targets)
    ensures r.KeyError? ==> r.key == GetEdgeParams(spec.targets).key
    ensures r.Ok? ==> |r.value| == 1 && r.value[0].kind == RemoveEdge
    ensures r.Ok? ==> r.value[0].params == GetEdgeParams(spec.targets).value
  {
    match GetEdgeParams(spec.targets)
    case KeyError(k) => KeyError(k)
    case Ok(edgeParams) => Ok([ActionStep(RemoveEdge, edgeParams)])
  }

  /**
   Undo names exactly the edge do adds: for the same action the two recipes
   succeed or fail together (on the same key), and on success they are single
   steps of opposite kinds over identical parameters.
   */
  lemma UndoMirrorsDo<V>(spec: ActionSpec<V>)
    ensures GetDoRecipe(spec).Ok? <==> GetUndoRecipe(spec).Ok?
    ensures GetDoRecipe(spec).KeyError? ==> GetDoRecipe(spec).key == GetUndoRecipe(spec).key
    ensures GetDoRecipe(spec).Ok? ==>
              var doSteps, undoSteps := GetDoRecipe(spec).value, GetUndoRecipe(spec).value;
              && |doSteps| == |undoSteps| == 1
              && doSteps[0].kind == AddEdge && undoSteps[0].kind == RemoveEdge
              && doSteps[0].params == undoSteps[0].params
  {
  }

  /**
   The edge parameters depend on nothing but the vertices bound to SOURCE and
   TARGET: any other role in `targets`, and everything else in the action, is
   dropped. In particular the relationship type is CAUSES whatever the action holds.
   */
  lemma RecipesReadOnlyEndpoints<V>(a: ActionSpec<V>, b: ActionSpec<V>)
    requires Bound(a.targets) && Bound(b.targets)
    requires a.targets[SOURCE] == b.targets[SOURCE] && a.targets[TARGET] == b.targets[TARGET]
    ensures GetDoRecipe(a) == GetDoRecipe(b)
    ensures GetUndoRecipe(a) == GetUndoRecipe(b)
  {
  }

  /**
   The direction is never swapped and distinct bindings give distinct edges:
   two actions produce the same edge parameters only when they bind the same
   source and the same target.
   */
  lemma EdgeParamsInjective<V>(a: map<string, V>, b: map<string, V>)
    requires Bound(a) && Bound(b)
    requires GetEdgeParams(a) == GetEdgeParams(b)
    ensures a[SOURCE] == b[SOURCE] && a[TARGET] == b[TARGET]
  {
  }
}
