/**
 What the causal recipe's steps mean for the edges of the entity graph, read
 off the step lists alone: the edge an ADD_EDGE or REMOVE_EDGE step names, and
 the edges named by the steps of several causal actions taken together. The
 graph identifies an edge by its source, target and label, so the graph's edges
 are the distinct edges the steps name: causes bound to distinct endpoints give
 one causal edge each and undoing one removes only its own, while actions bound
 to the same endpoints share one edge that the undo of either removes.
 */
module CausalEdges {
  import opened ActionSteps
  import opened AddCausalRelationship

  /** An edge's identity in the entity graph: its endpoints and its relationship type. */
  datatype Edge<V> = Edge(source: V, target: V, relType: string)

  /** The step's parameters name an edge: two endpoint vertices and a relationship type. */
  predicate NamesEdge<V>(step: ActionStep<V>)
  {
    && SOURCE in step.params && step.params[SOURCE].Vertex?
    && TARGET in step.params && step.params[TARGET].Vertex?
    && RELATIONSHIP_TYPE in step.params && step.params[RELATIONSHIP_TYPE].Label?
  }

  /** The edge a step adds or removes. */
  function StepEdge<V>(step: ActionStep<V>): Edge<V>
    requires NamesEdge(step)
  {
    Edge(step.params[SOURCE].vertex, step.params[TARGET].vertex, step.params[RELATIONSHIP_TYPE].name)
  }

  /** The edges named by the steps of the given kind, with multiplicity. */
  ghost function EdgesOf<V>(steps: seq<ActionStep<V>>, kind: StepKind): multiset<Edge<V>>
  {
    if steps == [] then multiset{}
    else
      var rest := EdgesOf(steps[1..], kind);
      if steps[0].kind == kind && NamesEdge(steps[0]) then multiset{StepEdge(steps[0])} + rest else rest
  }

  /** Reference definition: the causal edge an action stands for, from its cause to its effect. */
  function CausalEdge<V>(spec: ActionSpec<V>): Edge<V>
    requires Bound(spec.targets)
  {
    Edge(spec.targets[SOURCE], spec.targets[TARGET], CAUSES)
  }

  /** The causal edges of several actions, with multiplicity. */
  ghost function CausalEdgesOf<V>(specs: seq<ActionSpec<V>>): multiset<Edge<V>>
    requires forall i :: 0 <= i < |specs| ==> Bound(specs[i].targets)
  {
    if specs == [] then multiset{} else multiset{CausalEdge(specs[0])} + CausalEdgesOf(specs[1..])
  }

  /** The do recipe adds exactly the action's causal edge, and removes nothing. */
  lemma DoAddsCausalEdge<V>(spec: ActionSpec<V>)
    requires Bound(spec.targets)
    ensures EdgesOf(GetDoRecipe(spec).value, AddEdge) == multiset{CausalEdge(spec)}
    ensures EdgesOf(GetDoRecipe(spec).value, RemoveEdge) == multiset{}
  {
  }

  /** The undo recipe removes exactly the action's causal edge, and adds nothing. */
  lemma UndoRemovesCausalEdge<V>(spec: ActionSpec<V>)
    requires Bound(spec.targets)
    ensures EdgesOf(GetUndoRecipe(spec).value, RemoveEdge) == multiset{CausalEdge(spec)}
    ensures EdgesOf(GetUndoRecipe(spec).value, AddEdge) == multiset{}
  {
  }

  /** Whether an action is being applied (its do recipe) or retracted (its undo recipe). */
  datatype Mode = Do | Undo

  /** The recipe for an action in the given mode. */
  function Recipe<V>(mode: Mode, spec: ActionSpec<V>): Result<seq<ActionStep<V>>>
  {
    if mode == Do then GetDoRecipe(spec) else GetUndoRecipe(spec)
  }

  /** The step kind each mode's recipe emits. */
  function KindOf(mode: Mode): StepKind
  {
    if mode == Do then AddEdge else RemoveEdge
  }

  /**
   The recipes of several causal actions laid end to end. This list serves only
   to state facts about several actions at once; it is not a runner of actions.
   It fails, with the first action's KeyError, exactly when some action lacks a role.
   */
  function AllSteps<V>(mode: Mode, specs: seq<ActionSpec<V>>): (r: Result<seq<ActionStep<V>>>)
    ensures r.Ok? <==> forall i :: 0 <= i < |specs| ==> Bound(specs[i].targets)
    ensures r.Ok? ==> |r.value| == |specs|
    ensures r.Ok? ==> forall j :: 0 <= j < |r.value| ==> r.value[j].kind == KindOf(mode)
  {
    if specs == [] then Ok([])
    else
      match Recipe(mode, specs[0])
      case KeyError(k) => KeyError(k)
      case Ok(first) =>
        match AllSteps(mode, specs[1..])
        case KeyError(k) => KeyError(k)
        case Ok(rest) => Ok(first + rest)
  }

  lemma {:induction false} EdgesOfAppend<V>(a: seq<ActionStep<V>>, b: seq<ActionStep<V>>, kind: StepKind)
    ensures EdgesOf(a + b, kind) == EdgesOf(a, kind) + EdgesOf(b, kind)
  {
    if a == [] {
      assert a + b == b;
    } else {
      assert (a + b)[1..] == a[1..] + b;
      EdgesOfAppend(a[1..], b, kind);
    }
  }

  /**
   Applying several causal actions adds one causal edge per action, and their
   steps remove nothing; retracting them removes one causal edge per action
   and adds nothing.
   */
  lemma {:induction false} AllStepsEdges<V>(specs: seq<ActionSpec<V>>)
    requires forall i :: 0 <= i < |specs| ==> Bound(specs[i].targets)
    ensures EdgesOf(AllSteps(Do, specs).value, AddEdge) == CausalEdgesOf(specs)
    ensures EdgesOf(AllSteps(Do, specs).value, RemoveEdge) == multiset{}
    ensures EdgesOf(AllSteps(Undo, specs).value, RemoveEdge) == CausalEdgesOf(specs)
    ensures EdgesOf(AllSteps(Undo, specs).value, AddEdge) == multiset{}
  {
    if specs != [] {
      AllStepsEdges(specs[1..]);
      DoAddsCausalEdge(specs[0]);
      UndoRemovesCausalEdge(specs[0]);
      EdgesOfAppend(GetDoRecipe(specs[0]).value, AllSteps(Do, specs[1..]).value, AddEdge);
      EdgesOfAppend(GetDoRecipe(specs[0]).value, AllSteps(Do, specs[1..]).value, RemoveEdge);
      EdgesOfAppend(GetUndoRecipe(specs[0]).value, AllSteps(Undo, specs[1..]).value, RemoveEdge);
      EdgesOfAppend(GetUndoRecipe(specs[0]).value, AllSteps(Undo, specs[1..]).value, AddEdge);
    }
  }

  /** Retracting a set of applied causal actions removes exactly the edges applying them added. */
  lemma UndoAllRemovesWhatDoAllAdds<V>(specs: seq<ActionSpec<V>>)
    requires forall i :: 0 <= i < |specs| ==> Bound(specs[i].targets)
    ensures EdgesOf(AllSteps(Undo, specs).value, RemoveEdge)
         == EdgesOf(AllSteps(Do, specs).value, AddEdge)
  {
    AllStepsEdges(specs);
  }

  lemma {:induction false} CausalEdgesOfAppend<V>(a: seq<ActionSpec<V>>, b: seq<ActionSpec<V>>)
    requires forall i :: 0 <= i < |a| ==> Bound(a[i].targets)
    requires forall i :: 0 <= i < |b| ==> Bound(b[i].targets)
    ensures forall i :: 0 <= i < |a + b| ==> Bound((a + b)[i].targets)
    ensures CausalEdgesOf(a + b) == CausalEdgesOf(a) + CausalEdgesOf(b)
  {
    if a == [] {
      assert a + b == b;
    } else {
      assert (a + b)[1..] == a[1..] + b;
      CausalEdgesOfAppend(a[1..], b);
    }
  }

  /**
   Counted over the step lists, with multiplicity: taking the edge the i-th
   action's undo removes out of the edges all the do steps add leaves exactly
   the edges the other actions' do steps add. The graph keeps one edge per
   (source, target, label), so RetractDistinctCause and SharedEndpointsShareEdge
   state what this means for the graph.
   */
  lemma RetractOneCause<V>(specs: seq<ActionSpec<V>>, i: nat)
    requires forall j :: 0 <= j < |specs| ==> Bound(specs[j].targets)
    requires i < |specs|
    ensures var others := specs[..i] + specs[i + 1..];
            EdgesOf(AllSteps(Do, specs).value, AddEdge)
              - EdgesOf(GetUndoRecipe(specs[i]).value, RemoveEdge)
            == EdgesOf(AllSteps(Do, others).value, AddEdge)
  {
    var others := specs[..i] + specs[i + 1..];
    assert specs == specs[..i] + ([specs[i]] + specs[i + 1..]);
    CausalEdgesOfAppend([specs[i]], specs[i + 1..]);
    CausalEdgesOfAppend(specs[..i], [specs[i]] + specs[i + 1..]);
    CausalEdgesOfAppend(specs[..i], specs[i + 1..]);
    assert CausalEdgesOf([specs[i]]) == multiset{CausalEdge(specs[i])};
    AllStepsEdges(specs);
    AllStepsEdges(others);
    UndoRemovesCausalEdge(specs[i]);
  }

  /**
   Counted over the step lists, with multiplicity: n actions' do steps name n
   edges. DistinctCausalEdgeCount states the count of distinct graph edges.
   */
  lemma CausalEdgeCount<V>(specs: seq<ActionSpec<V>>)
    requires forall i :: 0 <= i < |specs| ==> Bound(specs[i].targets)
    ensures |EdgesOf(AllSteps(Do, specs).value, AddEdge)| == |specs|
  {
    AllStepsEdges(specs);
    CausalEdgesOfSize(specs);
  }

  lemma {:induction false} CausalEdgesOfSize<V>(specs: seq<ActionSpec<V>>)
    requires forall i :: 0 <= i < |specs| ==> Bound(specs[i].targets)
    ensures |CausalEdgesOf(specs)| == |specs|
  {
    if specs != [] {
      CausalEdgesOfSize(specs[1..]);
    }
  }

  /** The distinct edges a multiset of edges names: the graph holds each edge once. */
  ghost function Support<V>(edges: multiset<Edge<V>>): set<Edge<V>>
  {
    set e | e in edges
  }

  /** No two of the actions stand for the same causal edge. */
  ghost predicate DistinctCauses<V>(specs: seq<ActionSpec<V>>)
    requires forall i :: 0 <= i < |specs| ==> Bound(specs[i].targets)
  {
    forall j, k :: 0 <= j < k < |specs| ==> CausalEdge(specs[j]) != CausalEdge(specs[k])
  }

  lemma {:induction false} CausalEdgesOfMembers<V>(specs: seq<ActionSpec<V>>, e: Edge<V>)
    requires forall i :: 0 <= i < |specs| ==> Bound(specs[i].targets)
    ensures e in CausalEdgesOf(specs) <==> exists j :: 0 <= j < |specs| && CausalEdge(specs[j]) == e
  {
    if specs != [] {
      CausalEdgesOfMembers(specs[1..], e);
      if e in CausalEdgesOf(specs[1..]) {
        var j :| 0 <= j < |specs[1..]| && CausalEdge(specs[1..][j]) == e;
        assert CausalEdge(specs[j + 1]) == e;
      }
      if exists j :: 0 <= j < |specs| && CausalEdge(specs[j]) == e {
        var j :| 0 <= j < |specs| && CausalEdge(specs[j]) == e;
        if j > 0 {
          assert CausalEdge(specs[1..][j - 1]) == e;
        }
      }
    }
  }

  lemma {:induction false} DistinctSupportSize<V>(specs: seq<ActionSpec<V>>)
    requires forall i :: 0 <= i < |specs| ==> Bound(specs[i].targets)
    requires DistinctCauses(specs)
    ensures |Support(CausalEdgesOf(specs))| == |specs|
  {
    if specs != [] {
      var rest := specs[1..];
      assert DistinctCauses(rest) by {
        forall j, k | 0 <= j < k < |rest| ensures CausalEdge(rest[j]) != CausalEdge(rest[k]) {
          assert rest[j] == specs[j + 1] && rest[k] == specs[k + 1];
        }
      }
      DistinctSupportSize(rest);
      CausalEdgesOfMembers(rest, CausalEdge(specs[0]));
      assert CausalEdge(specs[0]) !in CausalEdgesOf(rest);
      assert Support(CausalEdgesOf(specs)) == {CausalEdge(specs[0])} + Support(CausalEdgesOf(rest));
    }
  }

  /**
   When no two active causes stand for the same edge, n causes give n distinct
   causal edges in the graph: two causes give two `causes` edges.
   */
  lemma DistinctCausalEdgeCount<V>(specs: seq<ActionSpec<V>>)
    requires forall i :: 0 <= i < |specs| ==> Bound(specs[i].targets)
    requires DistinctCauses(specs)
    ensures |Support(EdgesOf(AllSteps(Do, specs).value, AddEdge))| == |specs|
  {
    AllStepsEdges(specs);
    DistinctSupportSize(specs);
  }

  /** Taking one copy of an edge the rest does not hold out of a multiset removes that edge from its support. */
  lemma SupportRemove<V>(all: multiset<Edge<V>>, x: Edge<V>, rest: multiset<Edge<V>>)
    requires all - multiset{x} == rest
    requires x !in rest
    ensures Support(all) - {x} == Support(rest)
  {
  }

  /** Distinct causes: the i-th action's edge is not the edge of any other action. */
  lemma NotAmongOthers<V>(specs: seq<ActionSpec<V>>, i: nat)
    requires forall j :: 0 <= j < |specs| ==> Bound(specs[j].targets)
    requires DistinctCauses(specs)
    requires i < |specs|
    ensures var others := specs[..i] + specs[i + 1..];
            CausalEdge(specs[i]) !in CausalEdgesOf(others)
  {
    var others := specs[..i] + specs[i + 1..];
    CausalEdgesOfMembers(others, CausalEdge(specs[i]));
  }

  /**
   When no two active causes stand for the same edge, retracting the i-th one
   removes exactly its edge from the graph's edges and leaves the edges of all
   the others: two causes, one retracted, leave one `causes` edge.
   */
  lemma RetractDistinctCause<V>(specs: seq<ActionSpec<V>>, i: nat)
    requires forall j :: 0 <= j < |specs| ==> Bound(specs[j].targets)
    requires DistinctCauses(specs)
    requires i < |specs|
    ensures var others := specs[..i] + specs[i + 1..];
            Support(EdgesOf(AllSteps(Do, specs).value, AddEdge))
              - Support(EdgesOf(GetUndoRecipe(specs[i]).value, RemoveEdge))
            == Support(EdgesOf(AllSteps(Do, others).value, AddEdge))
  {
    var others := specs[..i] + specs[i + 1..];
    RetractOneCause(specs, i);
    UndoRemovesCausalEdge(specs[i]);
    AllStepsEdges(others);
    NotAmongOthers(specs, i);
    SupportRemove(EdgesOf(AllSteps(Do, specs).value, AddEdge), CausalEdge(specs[i]),
                  EdgesOf(AllSteps(Do, others).value, AddEdge));
    assert Support(multiset{CausalEdge(specs[i])}) == {CausalEdge(specs[i])};
  }

  /**
   Two actions that bind the same source and target stand for one graph edge:
   their do steps add that single `causes` edge, and the undo of either one
   names it, so retracting either leaves no causal edge between them.
   */
  lemma SharedEndpointsShareEdge<V>(a: ActionSpec<V>, b: ActionSpec<V>)
    requires Bound(a.targets) && Bound(b.targets)
    requires a.targets[SOURCE] == b.targets[SOURCE] && a.targets[TARGET] == b.targets[TARGET]
    ensures Support(EdgesOf(AllSteps(Do, [a, b]).value, AddEdge)) == {CausalEdge(a)}
    ensures Support(EdgesOf(AllSteps(Do, [a, b]).value, AddEdge))
              - Support(EdgesOf(GetUndoRecipe(a).value, RemoveEdge)) == {}
    ensures Support(EdgesOf(AllSteps(Do, [a, b]).value, AddEdge))
              - Support(EdgesOf(GetUndoRecipe(b).value, RemoveEdge)) == {}
  {
    AllStepsEdges([a, b]);
    assert [a, b][1..] == [b];
    assert CausalEdgesOf([a, b]) == multiset{CausalEdge(a), CausalEdge(b)};
    UndoRemovesCausalEdge(a);
    UndoRemovesCausalEdge(b);
  }
}
