# Vitrage causal-relationship action recipe

Vitrage performs root-cause analysis over an entity graph of resources and
alarms. Its scenario evaluator matches templates against the graph. When a
template's "add causal relationship" action fires, the evaluator asks the
`AddCausalRelationship` recipe for the graph-mutation steps to run:

- the do recipe gives one `ADD_EDGE` step;
- the undo recipe gives one `REMOVE_EDGE` step;
- both steps carry the same parameters: the vertex bound to the action's
  `source` role, the vertex bound to its `target` role, and the relationship
  type `causes`.

The evaluator runs the undo recipe to retract a causal edge when its cause
disappears. It relies on undo naming exactly the edge that do added.

The model has three modules:

- `ActionSteps` (`action_steps.dfy`): step kinds, the parameter dictionary,
  `ActionStepWrapper` as a plain (kind, params) pair, the observable part of an
  action specification, and a `Result` whose error is Python's `KeyError`.
- `AddCausalRelationship` (`add_causal_relationship.py` as functions):
  `GetEdgeParams`, `GetDoRecipe` and `GetUndoRecipe`, with lemmas relating them.
- `CausalEdges`: reads, from the step lists alone, which edge each step names.
  It then states the recipe's promise for several causal actions at once. The
  graph identifies an edge by its source, target and label, so it holds each
  edge the steps name once. When n active causes bind pairwise distinct
  endpoints, their do steps give n distinct causal edges, and undoing one cause
  removes only that cause's edge. The evaluator's functional test exercises
  this case (two causes give two `causes` edges; retracting one leaves one).
  Actions that bind the same source and target share one edge, and the undo of
  either action removes it.

A missing `source` or `target` role is a dictionary lookup failure in the
source (Python raises `KeyError`). The model returns `KeyError(key)` instead of
forbidding the input. `source` is looked up first, so it is the key reported
when both roles are missing.

The constants `TemplateFields.SOURCE`, `TemplateFields.TARGET`,
`EdgeProperties.RELATIONSHIP_TYPE` and `EdgeLabels.CAUSES` live in
`vitrage/common/constants.py` and `vitrage/evaluator/template_fields.py`, which
are not part of this model. They are modelled as the string literals
`"source"`, `"target"`, `"relationship_type"` and `"causes"`. The functional
test filters causal edges on the literal `"causes"`. The model only relies on
the three field names being distinct, which `FieldNamesDistinct` proves.

The type of the vertices bound in `targets` is a type parameter `V`, because
the shown source does not fix it.

## Model

| member | source | states |
|---|---|---|
| `AddCausalRelationship.GetEdgeParams` | vitrage/evaluator/actions/recipes/add_causal_relationship.py:43-50 | Succeeds exactly when both `source` and `target` are bound; otherwise reports the missing key, `source` first. On success the dictionary has exactly the keys source, target and relationship type; source and target hold the bound vertices in that direction; the relationship type is `causes`. |
| `AddCausalRelationship.FieldNamesDistinct` | vitrage/evaluator/actions/recipes/add_causal_relationship.py:46-49 | The three keys of the edge dictionary are pairwise distinct, so no entry overwrites another. |
| `AddCausalRelationship.GetDoRecipe` | vitrage/evaluator/actions/recipes/add_causal_relationship.py:25-32 | Succeeds exactly when both roles are bound, failing on the same key as the edge parameters. On success it is a list of exactly one step, of kind `ADD_EDGE`, carrying the edge parameters. |
| `AddCausalRelationship.GetUndoRecipe` | vitrage/evaluator/actions/recipes/add_causal_relationship.py:34-41 | Succeeds exactly when both roles are bound, failing on the same key as the edge parameters. On success it is a list of exactly one step, of kind `REMOVE_EDGE`, carrying the edge parameters. |
| `AddCausalRelationship.UndoMirrorsDo` | vitrage/evaluator/actions/recipes/add_causal_relationship.py:26-41 | For one action, do and undo succeed or fail together and fail on the same key. On success they are single steps of opposite kinds whose parameters are identical, so undo names the edge do adds. |
| `AddCausalRelationship.RecipesReadOnlyEndpoints` | vitrage/evaluator/actions/recipes/add_causal_relationship.py:43-50 | Two actions that bind the same source and target vertices get equal do recipes and equal undo recipes, whatever else their targets or properties hold. Other roles are dropped, the relationship type never depends on the action, and the same action always gives the same steps. |
| `AddCausalRelationship.EdgeParamsInjective` | vitrage/evaluator/actions/recipes/add_causal_relationship.py:46-48 | Equal edge parameters imply the same source vertex and the same target vertex. Distinct causes give distinct edges, and source and target are never swapped or merged. |
| `CausalEdges.DoAddsCausalEdge` | vitrage/evaluator/actions/recipes/add_causal_relationship.py:26-32 | The do steps add exactly one edge, from the source vertex to the target vertex, labelled `causes`, and remove none. |
| `CausalEdges.UndoRemovesCausalEdge` | vitrage/evaluator/actions/recipes/add_causal_relationship.py:35-41 | The undo steps remove exactly one edge, the same one the do steps add, and add none. |
| `CausalEdges.AllSteps` | vitrage/evaluator/actions/recipes/add_causal_relationship.py:25-41 | The recipes of several actions laid end to end, all in do mode or all in undo mode, succeed exactly when every action binds both roles. On success there is one step per action, all `ADD_EDGE` in do mode and all `REMOVE_EDGE` in undo mode. |
| `CausalEdges.AllStepsEdges` | vitrage/evaluator/actions/recipes/add_causal_relationship.py:25-50 | The do steps of several actions add one causal edge per action, counted with multiplicity, and remove none. Their undo steps remove the same edges and add none. |
| `CausalEdges.UndoAllRemovesWhatDoAllAdds` | vitrage/evaluator/actions/recipes/add_causal_relationship.py:28-39 | Retracting a group of causal actions removes exactly the multiset of edges that applying them added. |
| `CausalEdges.RetractOneCause` | vitrage/evaluator/actions/recipes/add_causal_relationship.py:25-50 | Counted over the step lists with multiplicity: taking the edge one action's undo removes out of the edges all the do steps add leaves exactly the edges the other actions' do steps add. |
| `CausalEdges.CausalEdgeCount` | vitrage/evaluator/actions/recipes/add_causal_relationship.py:25-32 | Counted over the step lists with multiplicity: n causal actions' do steps name n edges. |
| `CausalEdges.DistinctCausalEdgeCount` | vitrage/tests/functional/evaluator/test_scenario_evaluator.py:240-273 | When no two active causes stand for the same (source, target, `causes`) edge, their do steps name exactly n distinct edges, so two causes give two `causes` edges. |
| `CausalEdges.RetractDistinctCause` | vitrage/tests/functional/evaluator/test_scenario_evaluator.py:240-284 | When no two active causes stand for the same edge, the distinct edges left after removing the one edge a cause's undo names are exactly the distinct edges of the remaining causes, so two causes with one retracted leave one `causes` edge. |
| `CausalEdges.SharedEndpointsShareEdge` | vitrage/evaluator/actions/recipes/add_causal_relationship.py:26-50 | Two actions binding the same source and target name a single distinct edge between them, and the undo of either one names that edge, so retracting either leaves no causal edge between them. |

## Left out

- Applying `ADD_EDGE` and `REMOVE_EDGE` to the entity graph: the action executor, soft deletion and notification are not part of this model. Edge effects are read off the step lists (`CausalEdges.EdgesOf`), never off a graph.
- CausalEdges.RetractOneCause: counts edges over the step lists, with multiplicity. This matches the graph only when the actions bind pairwise distinct endpoints. Actions sharing endpoints share one graph edge, which the undo of either removes (`CausalEdges.RetractDistinctCause` and `CausalEdges.SharedEndpointsShareEdge` state the graph-level facts).
- CausalEdges.CausalEdgeCount: counts edges over the step lists, with multiplicity. The graph count equals it only when the endpoint pairs are distinct (`CausalEdges.DistinctCausalEdgeCount`); actions sharing endpoints share one edge.
- `CausalEdges.AllSteps` only serves to state facts about several actions at once. How the evaluator runs several actions, and how it contains a failing one, is not part of this model.
- `base.Recipe`, `ActionStepWrapper` and the rest of the action specification are defined outside the recipe. The wrapper is a plain (kind, params) pair; only `targets` is observed, and every other entry of the action is `properties`.
- The other action-step kinds (vertex steps) are not emitted by this recipe and are not modelled.
- The exact values of the imported constants are taken as the string literals above; their defining files are not part of this model.
- The scenario evaluator, scenario repository, entity graph, aggregated-state severity and deduced-alarm history appear only in the functional test, whose implementation is not part of this model.
- The cinder volume transformer test and the nova properties file hold no behaviour of the recipe.
