/**
 The vocabulary shared by Vitrage's action recipes: the kinds of graph-mutation
 step a recipe can emit, the parameter dictionary each step carries, and the
 action specification a recipe reads its bound vertices from.
 */
module ActionSteps {

  /** The two step kinds a causal-relationship recipe emits (ADD_EDGE, REMOVE_EDGE). */
  datatype StepKind = AddEdge | RemoveEdge

  /**
   A value in a step's parameter dictionary. The dictionary is heterogeneous in
   the source: the endpoints hold the vertices bound by the template match, the
   relationship type holds an edge label.
   */
  datatype ParamValue<V> = Vertex(vertex: V) | Label(name: string)

  /** A step's parameters: a dictionary keyed by field name. */
  type Params<V> = map<string, ParamValue<V>>

  /** ActionStepWrapper: a step kind paired with its parameters. */
  datatype ActionStep<V> = ActionStep(kind: StepKind, params: Params<V>)

  /**
   The part of an action specification a recipe can observe: `targets` maps
   each template role (source, target, ...) to the vertex bound to it;
   `properties` stands for every other entry of the action.
   */
  datatype ActionSpec<V> = ActionSpec(targets: map<string, V>, properties: map<string, string>)

  /** A failed dictionary lookup, as Python's KeyError names the missing key. */
  datatype Result<T> = Ok(value: T) | KeyError(key: string)
}
