/**
 Start-up validation of one definition: node and type checks, an edge count, and
 a depth-first search. It accepts exactly the rooted trees whose checks hold.
 */
module DefinitionRegistry {
  import opened Prelude
  import opened WorkflowDefinition

  datatype Node = Node(inputType: TypeId, outputType: TypeId)

  type NodeTable = map<string, Node>

  datatype Rejection =
    | NodeNotFound(stepId: StepId)
    | InputTypeMismatch(stepId: StepId)
    | BindingsNeedDict(stepId: StepId)
    | StartReadsPrevious
    | UnknownNextStep(stepId: StepId, nextId: StepId)
    | MultiplePredecessors(stepId: StepId)
    | OutputTypeMismatch(stepId: StepId, nextId: StepId)
    | DefinitionInputMismatch
    | Cycle(stepId: StepId)
    | Unreachable(stepIds: set<StepId>)

  /** A step against its own node. */
  predicate StepChecked(nodes: NodeTable, def: Definition, step: StepDef) {
    && step.nodeKey in nodes
    && nodes[step.nodeKey].inputType == step.inputType
    && (step.bindings != [] ==> step.inputType == DICT_TYPE)
    && (step.stepId == def.startStepId ==>
          forall b :: b in step.bindings ==> b.source != PreviousStepOutput)
  }

  /** An edge against the nodes at its two ends. */
  predicate EdgeChecked(nodes: NodeTable, def: Definition, step: StepDef, nextId: StepId) {
    && nextId in def.StepIds()
    && step.nodeKey in nodes
    && def.StepById(nextId).nodeKey in nodes
    && nodes[step.nodeKey].outputType == nodes[def.StepById(nextId).nodeKey].inputType
  }

  predicate EdgesChecked(nodes: NodeTable, def: Definition, step: StepDef, n: nat)
    requires n <= |step.Outgoing()|
  {
    forall k :: 0 <= k < n ==> EdgeChecked(nodes, def, step, step.Outgoing()[k])
  }

  predicate PrefixChecked(nodes: NodeTable, def: Definition, n: nat)
    requires n <= |def.steps|
  {
    forall i :: 0 <= i < n ==>
      StepChecked(nodes, def, def.steps[i]) && EdgesChecked(nodes, def, def.steps[i], |def.steps[i].Outgoing()|)
  }

  predicate ChecksHold(nodes: NodeTable, def: Definition)
    requires def.Valid()
  {
    && PrefixChecked(nodes, def, |def.steps|)
    && def.inputType == def.StepById(def.startStepId).inputType
  }

  /** The condition each rejection reports. */
  ghost predicate Justified(nodes: NodeTable, def: Definition, e: Rejection)
    requires def.Valid()
  {
    match e
    case NodeNotFound(id) => exists i :: 0 <= i < |def.steps| && (def.steps[i].stepId == id) && def.steps[i].nodeKey !in nodes
    case InputTypeMismatch(id) =>
      id in def.StepIds() && def.StepById(id).nodeKey in nodes
      && nodes[def.StepById(id).nodeKey].inputType != def.StepById(id).inputType
    case BindingsNeedDict(id) =>
      id in def.StepIds() && def.StepById(id).bindings != [] && def.StepById(id).inputType != DICT_TYPE
    case StartReadsPrevious =>
      exists b :: b in def.StepById(def.startStepId).bindings && b.source == PreviousStepOutput
    case UnknownNextStep(id, nextId) =>
      id in def.StepIds() && nextId in def.StepById(id).Outgoing() && nextId !in def.StepIds()
    case MultiplePredecessors(id) => id in def.StepIds() && InDegree(def, id) >= 2
    case OutputTypeMismatch(id, nextId) =>
      && HasEdge(def.Edges(), id, nextId) && nextId in def.StepIds()
      && def.StepById(id).nodeKey in nodes && def.StepById(nextId).nodeKey in nodes
      && nodes[def.StepById(id).nodeKey].outputType != nodes[def.StepById(nextId).nodeKey].inputType
    case DefinitionInputMismatch => def.inputType != def.StepById(def.startStepId).inputType
    case Cycle(id) => id in def.StepIds() && OnCycle(def.Edges(), id)
    case Unreachable(ids) =>
      ids != {} && ids <= def.StepIds() && forall id :: id in def.StepIds() ==> (id in ids <==> !Reachable(def.Edges(), def.startStepId, id))
  }

  lemma RejectionRefutes(nodes: NodeTable, def: Definition, e: Rejection)
    requires def.Valid() && Justified(nodes, def, e)
    ensures !(ChecksHold(nodes, def) && IsRootedTree(def))
  {
    if ChecksHold(nodes, def) && IsRootedTree(def) {
      match e
      case NodeNotFound(id) =>
      case InputTypeMismatch(id) => var i := StepIndex(def, id);
      case BindingsNeedDict(id) => var i := StepIndex(def, id);
      case StartReadsPrevious => var i := StepIndex(def, def.startStepId);
      case UnknownNextStep(id, nextId) => var i := StepIndex(def, id);
      case MultiplePredecessors(id) =>
      case OutputTypeMismatch(id, nextId) => var i := StepIndex(def, id);
      case DefinitionInputMismatch =>
      case Cycle(id) => TreeHasNoCycle(def, id);
      case Unreachable(ids) =>
    }
  }

  lemma StepIndex(def: Definition, id: StepId) returns (i: nat)
    requires def.Valid() && id in def.StepIds()
    ensures i < |def.steps| && def.steps[i] == def.StepById(id)
  {
    i :| 0 <= i < |def.steps| && def.steps[i] == def.StepById(id);
  }

  // ---- Depth-first search ------------------------------------------------

  ghost predicate ClosedUnderEdges(g: Graph, ids: set<StepId>) {
    forall a, b :: a in ids && HasEdge(g, a, b) ==> b in ids
  }

  /** The steps being visited are the distinct steps of one walk from the start. */
  ghost predicate IsTrail(g: Graph, start: StepId, trail: seq<StepId>, visiting: set<StepId>) {
    && (forall x :: x in visiting <==> x in trail)
    && (trail != [] ==> IsWalk(g, trail) && trail[0] == start)
  }

  ghost predicate ReachesNext(g: Graph, start: StepId, trail: seq<StepId>, id: StepId) {
    id in g && if trail == [] then id == start else HasEdge(g, trail[|trail| - 1], id)
  }

  lemma TrailExtends(g: Graph, start: StepId, trail: seq<StepId>, visiting: set<StepId>, id: StepId)
    requires IsTrail(g, start, trail, visiting) && ReachesNext(g, start, trail, id)
    ensures IsTrail(g, start, trail + [id], visiting + {id})
    ensures Reachable(g, start, id)
  {}

  lemma RevisitIsCycle(g: Graph, start: StepId, trail: seq<StepId>, visiting: set<StepId>, id: StepId)
    requires IsTrail(g, start, trail, visiting) && ReachesNext(g, start, trail, id) && id in visiting
    ensures OnCycle(g, id)
  {
    var k :| 0 <= k < |trail| && trail[k] == id;
    var round := trail[k..] + [id];
    forall i | 0 <= i < |round| - 1 ensures HasEdge(g, round[i], round[i + 1]) {
      if i < |trail| - k - 1 { assert HasEdge(g, trail[k + i], trail[k + i + 1]); }
    }
    assert IsWalk(g, round) && |round| >= 2 && round[0] == id && round[|round| - 1] == id;
  }

  ghost predicate SoundSets(g: Graph, start: StepId, reachable: set<StepId>, visiting: set<StepId>) {
    && reachable !! visiting
    && reachable <= g.Keys && visiting <= g.Keys
    && ClosedUnderEdges(g, reachable)
    && forall x {:trigger Reachable(g, start, x)} :: x in reachable ==> Reachable(g, start, x)
  }

  /** The two sets the nested function `visit` updates. */
  class Traversal {
    const edges: Graph
    ghost const start: StepId
    var reachable: set<StepId>
    var visiting: set<StepId>

    constructor (edges: Graph, ghost start: StepId)
      ensures this.edges == edges && this.start == start && reachable == {} && visiting == {}
    {
      this.edges, this.start := edges, start;
      reachable, visiting := {}, {};
    }

    /** Finishes with the step and all its descendants reachable, or finds a cycle. */
    method Visit(id: StepId, ghost trail: seq<StepId>) returns (cycleAt: Option<StepId>)
      requires forall a, b :: HasEdge(edges, a, b) ==> b in edges
      requires SoundSets(edges, start, reachable, visiting)
      requires IsTrail(edges, start, trail, visiting) && ReachesNext(edges, start, trail, id)
      modifies this
      ensures cycleAt.Some? ==> cycleAt.value in edges && OnCycle(edges, cycleAt.value)
      ensures cycleAt.None? ==>
        && SoundSets(edges, start, reachable, visiting) && visiting == old(visiting)
        && old(reachable) + {id} <= reachable
        && (id !in old(reachable) ==> forall a :: a in reachable ==> !HasEdge(edges, a, id))
      decreases |edges.Keys - visiting|, 1
    {
      if id in visiting {
        RevisitIsCycle(edges, start, trail, visiting, id);
        return Some(id);
      }
      if id in reachable {
        return None;
      }
      cycleAt := VisitNew(id, trail);
    }

    /** A step seen for the first time is visited with all its targets, and then finished. */
    method VisitNew(id: StepId, ghost trail: seq<StepId>) returns (cycleAt: Option<StepId>)
      requires forall a, b :: HasEdge(edges, a, b) ==> b in edges
      requires SoundSets(edges, start, reachable, visiting) && id !in visiting && id !in reachable
      requires IsTrail(edges, start, trail, visiting) && ReachesNext(edges, start, trail, id)
      modifies this
      ensures cycleAt.Some? ==> cycleAt.value in edges && OnCycle(edges, cycleAt.value)
      ensures cycleAt.None? ==>
        && SoundSets(edges, start, reachable, visiting) && visiting == old(visiting)
        && old(reachable) + {id} <= reachable
        && forall a :: a in reachable ==> !HasEdge(edges, a, id)
      decreases |edges.Keys - visiting|, 0
    {
      TrailExtends(edges, start, trail, visiting, id);
      Shrinks(edges.Keys, visiting, id);
      visiting := visiting + {id};
      cycleAt := VisitTargets(id, trail + [id]);
      if cycleAt.None? {
        Finish(id);
      }
    }

    method Finish(id: StepId)
      requires SoundSets(edges, start, reachable, visiting) && id in visiting && Reachable(edges, start, id)
      requires forall b :: b in edges[id] ==> b in reachable
      modifies this
      ensures SoundSets(edges, start, reachable, visiting)
      ensures visiting == old(visiting) - {id} && reachable == old(reachable) + {id}
      ensures forall a :: a in reachable ==> !HasEdge(edges, a, id)
    {
      FinishStep(edges, start, reachable, visiting, id);
      visiting := visiting - {id};
      reachable := reachable + {id};
    }

    /** The loop over the targets of the step being visited. */
    method VisitTargets(id: StepId, ghost trail: seq<StepId>) returns (cycleAt: Option<StepId>)
      requires forall a, b :: HasEdge(edges, a, b) ==> b in edges
      requires SoundSets(edges, start, reachable, visiting) && id in visiting
      requires IsTrail(edges, start, trail, visiting) && trail != [] && trail[|trail| - 1] == id
      modifies this
      ensures cycleAt.Some? ==> cycleAt.value in edges && OnCycle(edges, cycleAt.value)
      ensures cycleAt.None? ==>
        && SoundSets(edges, start, reachable, visiting) && visiting == old(visiting) && old(reachable) <= reachable
        && (forall b :: b in edges[id] ==> b in reachable)
      decreases |edges.Keys - visiting|, 2
    {
      var outgoing := edges[id];
      for i := 0 to |outgoing|
        invariant visiting == old(visiting)
        invariant SoundSets(edges, start, reachable, visiting) && old(reachable) <= reachable
        invariant forall j :: 0 <= j < i ==> outgoing[j] in reachable
      {
        assert HasEdge(edges, id, outgoing[i]);
        cycleAt := Visit(outgoing[i], trail);
        if cycleAt.Some? {
          return;
        }
      }
      return None;
    }
  }

  /** Once all targets of a step are finished before it, nothing finished leads back to it. */
  lemma FinishStep(g: Graph, start: StepId, descendants: set<StepId>, visiting: set<StepId>, id: StepId)
    requires SoundSets(g, start, descendants, visiting) && id in visiting && Reachable(g, start, id)
    requires forall b :: b in g[id] ==> b in descendants
    ensures SoundSets(g, start, descendants + {id}, visiting - {id})
    ensures forall a :: a in descendants + {id} ==> !HasEdge(g, a, id)
  {}

  lemma Shrinks(all: set<StepId>, visiting: set<StepId>, id: StepId)
    requires id in all && id !in visiting
    ensures |all - (visiting + {id})| < |all - visiting|
  {
    assert all - visiting == all - (visiting + {id}) + {id};
  }

  // ---- The whole validation ----------------------------------------------

  ghost predicate Accepted(nodes: NodeTable, def: Definition)
    requires def.Valid()
  {
    ChecksHold(nodes, def) && IsRootedTree(def)
  }

  /** Counts of incoming edges after the first i steps and the first j targets of the next one. */
  ghost predicate Counted(def: Definition, incoming: map<StepId, nat>, seen: seq<StepId>) {
    && incoming.Keys == def.StepIds()
    && (forall t :: t in seen ==> t in incoming)
    && forall x :: x in incoming ==> incoming[x] == multiset(seen)[x] && incoming[x] <= 1
  }

  method CheckStep(nodes: NodeTable, def: Definition, i: nat) returns (e: Option<Rejection>)
    requires def.Valid() && i < |def.steps|
    ensures e.None? ==> StepChecked(nodes, def, def.steps[i])
    ensures e.Some? ==> Justified(nodes, def, e.value)
  {
    var step := def.steps[i];
    StepByIdIs(def, i);
    if step.nodeKey !in nodes {
      return Some(NodeNotFound(step.stepId));
    }
    if nodes[step.nodeKey].inputType != step.inputType {
      return Some(InputTypeMismatch(step.stepId));
    }
    if step.bindings != [] && step.inputType != DICT_TYPE {
      return Some(BindingsNeedDict(step.stepId));
    }
    if step.stepId == def.startStepId && exists b :: b in step.bindings && b.source == PreviousStepOutput {
      return Some(StartReadsPrevious);
    }
    return None;
  }

  lemma CountOneMore(def: Definition, incoming: map<StepId, nat>, seen: seq<StepId>, t: StepId)
    requires Counted(def, incoming, seen) && t in incoming
    ensures multiset(seen + [t])[t] == incoming[t] + 1
    ensures incoming[t] == 0 ==> Counted(def, incoming[t := incoming[t] + 1], seen + [t])
  {}

  lemma SeenTwice(def: Definition, i: nat, seen: seq<StepId>, rest: seq<StepId>, t: StepId)
    requires i < |def.steps| && seen + rest == Targets(def.steps[..i + 1]) && multiset(seen)[t] >= 2
    ensures InDegree(def, t) >= 2
  {
    assert multiset(seen + rest) == multiset(seen) + multiset(rest);
    TargetsPrefix(def.steps, i + 1);
  }

  lemma {:induction false} TargetsPrefix(steps: seq<StepDef>, n: nat)
    requires n <= |steps|
    ensures multiset(Targets(steps[..n])) <= multiset(Targets(steps))
  {
    if n < |steps| {
      TargetsPrefix(steps[..|steps| - 1], n);
      assert steps[..|steps| - 1][..n] == steps[..n];
    } else {
      assert steps[..n] == steps;
    }
  }

  /** The type contract along one edge whose target is known. */
  method CheckEdgeTypes(nodes: NodeTable, def: Definition, i: nat, t: StepId) returns (e: Option<Rejection>)
    requires def.Valid() && i < |def.steps| && StepChecked(nodes, def, def.steps[i])
    requires t in def.steps[i].Outgoing() && t in def.StepIds()
    ensures e.None? ==> EdgeChecked(nodes, def, def.steps[i], t)
    ensures e.Some? ==> Justified(nodes, def, e.value)
  {
    var step, next := def.steps[i], def.StepById(t);
    if next.nodeKey !in nodes {
      var k := StepIndex(def, t);
      return Some(NodeNotFound(t));
    }
    if nodes[step.nodeKey].outputType != nodes[next.nodeKey].inputType {
      StepByIdIs(def, i);
      assert HasEdge(def.Edges(), step.stepId, t);
      return Some(OutputTypeMismatch(step.stepId, t));
    }
    return None;
  }

  /** The targets seen when the j-th edge of step i is about to be counted. */
  ghost function SeenSoFar(def: Definition, i: nat, j: nat): seq<StepId>
    requires i < |def.steps| && j <= |def.steps[i].Outgoing()|
  {
    Targets(def.steps[..i]) + def.steps[i].Outgoing()[..j]
  }

  lemma SeenGrows(def: Definition, i: nat, j: nat)
    requires i < |def.steps| && j < |def.steps[i].Outgoing()|
    ensures SeenSoFar(def, i, j + 1) == SeenSoFar(def, i, j) + [def.steps[i].Outgoing()[j]]
    ensures SeenSoFar(def, i, j + 1) + def.steps[i].Outgoing()[j + 1..] == Targets(def.steps[..i + 1])
  {
    var before, out := Targets(def.steps[..i]), def.steps[i].Outgoing();
    PrefixGrows(def.steps, i);
    PrefixGrows(out, j);
    Associates(before, out[..j], [out[j]]);
    Associates(before, out[..j + 1], out[j + 1..]);
    assert out[..j + 1] + out[j + 1..] == out;
  }

  /** One edge: its target exists and has no other predecessor yet. */
  method CountEdge(nodes: NodeTable, def: Definition, i: nat, j: nat, counts: map<StepId, nat>)
    returns (e: Option<Rejection>, incoming: map<StepId, nat>)
    requires def.Valid() && i < |def.steps| && j < |def.steps[i].Outgoing()|
    requires Counted(def, counts, SeenSoFar(def, i, j))
    ensures e.None? ==> Counted(def, incoming, SeenSoFar(def, i, j + 1)) && def.steps[i].Outgoing()[j] in def.StepIds()
    ensures e.Some? ==> Justified(nodes, def, e.value)
  {
    incoming := counts;
    var t := def.steps[i].Outgoing()[j];
    if t !in incoming {
      StepByIdIs(def, i);
      return Some(UnknownNextStep(def.steps[i].stepId, t)), incoming;
    }
    SeenGrows(def, i, j);
    CountOneMore(def, incoming, SeenSoFar(def, i, j), t);
    incoming := incoming[t := incoming[t] + 1];
    if incoming[t] > 1 {
      SeenTwice(def, i, SeenSoFar(def, i, j + 1), def.steps[i].Outgoing()[j + 1..], t);
      return Some(MultiplePredecessors(t)), incoming;
    }
    return None, incoming;
  }

  /** The edges of one step: known targets, at most one predecessor each, matching types. */
  method CheckEdges(nodes: NodeTable, def: Definition, i: nat, counts: map<StepId, nat>)
    returns (e: Option<Rejection>, incoming: map<StepId, nat>)
    requires def.Valid() && i < |def.steps| && StepChecked(nodes, def, def.steps[i])
    requires Counted(def, counts, Targets(def.steps[..i]))
    ensures e.None? ==>
      && Counted(def, incoming, Targets(def.steps[..i + 1]))
      && EdgesChecked(nodes, def, def.steps[i], |def.steps[i].Outgoing()|)
    ensures e.Some? ==> Justified(nodes, def, e.value)
  {
    incoming := counts;
    SeenAtEnds(def, i);
    for j := 0 to |def.steps[i].Outgoing()|
      invariant Counted(def, incoming, SeenSoFar(def, i, j))
      invariant EdgesChecked(nodes, def, def.steps[i], j)
    {
      e, incoming := CheckEdge(nodes, def, i, j, incoming);
      if e.Some? {
        return;
      }
    }
    return None, incoming;
  }

  /** Counting first, then the types of both ends. */
  method CheckEdge(nodes: NodeTable, def: Definition, i: nat, j: nat, counts: map<StepId, nat>)
    returns (e: Option<Rejection>, incoming: map<StepId, nat>)
    requires def.Valid() && i < |def.steps| && j < |def.steps[i].Outgoing()| && StepChecked(nodes, def, def.steps[i])
    requires Counted(def, counts, SeenSoFar(def, i, j)) && EdgesChecked(nodes, def, def.steps[i], j)
    ensures e.None? ==> Counted(def, incoming, SeenSoFar(def, i, j + 1)) && EdgesChecked(nodes, def, def.steps[i], j + 1)
    ensures e.Some? ==> Justified(nodes, def, e.value)
  {
    e, incoming := CountEdge(nodes, def, i, j, counts);
    if e.None? {
      e := CheckEdgeTypes(nodes, def, i, def.steps[i].Outgoing()[j]);
    }
  }

  lemma SeenAtEnds(def: Definition, i: nat)
    requires i < |def.steps|
    ensures SeenSoFar(def, i, 0) == Targets(def.steps[..i])
    ensures SeenSoFar(def, i, |def.steps[i].Outgoing()|) == Targets(def.steps[..i + 1])
    ensures def.steps[i].Outgoing()[..|def.steps[i].Outgoing()|] == def.steps[i].Outgoing()
  {
    assert def.steps[..i + 1][..i] == def.steps[..i];
  }

  lemma EdgesStayInside(nodes: NodeTable, def: Definition)
    requires def.Valid() && ChecksHold(nodes, def)
    ensures forall a, b :: HasEdge(def.Edges(), a, b) ==> b in def.Edges()
  {}

  /** What the count and the search establish together is the tree. */
  lemma SearchProvesTree(nodes: NodeTable, def: Definition, incoming: map<StepId, nat>)
    requires def.Valid() && ChecksHold(nodes, def) && Counted(def, incoming, Targets(def.steps))
    requires forall id :: id in def.StepIds() ==> Reachable(def.Edges(), def.startStepId, id)
    requires forall a :: !HasEdge(def.Edges(), a, def.startStepId)
    ensures IsRootedTree(def)
  {
    var start := def.startStepId;
    if start in Targets(def.steps) {
      var i := TargetHasStep(def.steps, start);
      StepByIdIs(def, i);
      assert HasEdge(def.Edges(), def.steps[i].stepId, start);
    }
    forall id | id in def.StepIds() && id != start ensures InDegree(def, id) == 1 {
      var parent := LastHop(def.Edges(), start, id);
      EdgeCounts(def, parent, id);
      assert incoming[id] <= 1;
    }
  }

  lemma LastHop(g: Graph, start: StepId, id: StepId) returns (parent: StepId)
    requires Reachable(g, start, id) && id != start
    ensures HasEdge(g, parent, id)
  {
    var walk :| IsWalk(g, walk) && walk[0] == start && walk[|walk| - 1] == id;
    parent := walk[|walk| - 2];
    assert HasEdge(g, walk[|walk| - 2], walk[|walk| - 1]);
  }

  /** _validate_definition: no rejection means the checks hold and the steps form a tree; a rejection names a real defect. */
  method ValidateDefinition(nodes: NodeTable, def: Definition) returns (e: Option<Rejection>)
    requires def.Valid()
    ensures e.None? <==> Accepted(nodes, def)
    ensures e.Some? ==> Justified(nodes, def, e.value)
  {
    e := FindRejection(nodes, def);
    if e.Some? {
      RejectionRefutes(nodes, def, e.value);
    }
  }

  method FindRejection(nodes: NodeTable, def: Definition) returns (e: Option<Rejection>)
    requires def.Valid()
    ensures e.None? ==> Accepted(nodes, def)
    ensures e.Some? ==> Justified(nodes, def, e.value)
  {
    var incoming;
    e, incoming := CheckAllSteps(nodes, def);
    if e.Some? {
      return;
    }
    if def.inputType != def.StepById(def.startStepId).inputType {
      return Some(DefinitionInputMismatch);
    }
    EdgesStayInside(nodes, def);
    e := SearchFromStart(nodes, def);
    if e.None? {
      SearchProvesTree(nodes, def, incoming);
    }
  }

  method CheckAllSteps(nodes: NodeTable, def: Definition) returns (e: Option<Rejection>, incoming: map<StepId, nat>)
    requires def.Valid()
    ensures e.None? ==> PrefixChecked(nodes, def, |def.steps|) && Counted(def, incoming, Targets(def.steps))
    ensures e.Some? ==> Justified(nodes, def, e.value)
  {
    incoming := map id | id in def.StepIds() :: 0;
    for i := 0 to |def.steps|
      invariant Counted(def, incoming, Targets(def.steps[..i]))
      invariant PrefixChecked(nodes, def, i)
    {
      e, incoming := CheckStepAndEdges(nodes, def, i, incoming);
      if e.Some? {
        return;
      }
    }
    WholePrefix(def.steps);
    return None, incoming;
  }

  method CheckStepAndEdges(nodes: NodeTable, def: Definition, i: nat, counts: map<StepId, nat>)
    returns (e: Option<Rejection>, incoming: map<StepId, nat>)
    requires def.Valid() && i < |def.steps|
    requires Counted(def, counts, Targets(def.steps[..i])) && PrefixChecked(nodes, def, i)
    ensures e.None? ==> Counted(def, incoming, Targets(def.steps[..i + 1])) && PrefixChecked(nodes, def, i + 1)
    ensures e.Some? ==> Justified(nodes, def, e.value)
  {
    incoming := counts;
    e := CheckStep(nodes, def, i);
    if e.None? {
      e, incoming := CheckEdges(nodes, def, i, counts);
    }
  }

  method SearchFromStart(nodes: NodeTable, def: Definition) returns (e: Option<Rejection>)
    requires def.Valid() && forall a, b :: HasEdge(def.Edges(), a, b) ==> b in def.Edges()
    ensures e.None? ==>
      && (forall id :: id in def.StepIds() ==> Reachable(def.Edges(), def.startStepId, id))
      && forall a :: !HasEdge(def.Edges(), a, def.startStepId)
    ensures e.Some? ==> Justified(nodes, def, e.value)
  {
    var search := new Traversal(def.Edges(), def.startStepId);
    var cycleAt := search.Visit(def.startStepId, []);
    if cycleAt.Some? {
      return Some(Cycle(cycleAt.value));
    }
    ClosedReachesAll(def.Edges(), def.startStepId, search.reachable);
    var unreachable := def.StepIds() - search.reachable;
    return if unreachable != {} then Some(Unreachable(unreachable)) else None;
  }

  /** A set closed under edges that holds the start holds everything reachable. */
  lemma ClosedReachesAll(g: Graph, start: StepId, ids: set<StepId>)
    requires ClosedUnderEdges(g, ids) && start in ids
    ensures forall id :: Reachable(g, start, id) ==> id in ids
  {
    forall id | Reachable(g, start, id) ensures id in ids {
      var walk :| IsWalk(g, walk) && walk[0] == start && walk[|walk| - 1] == id;
      WalkStaysInside(g, ids, walk);
    }
  }

  lemma {:induction false} WalkStaysInside(g: Graph, ids: set<StepId>, walk: seq<StepId>)
    requires ClosedUnderEdges(g, ids) && IsWalk(g, walk) && walk[0] in ids
    ensures walk[|walk| - 1] in ids
  {
    if |walk| <= 1 {
    } else {
      assert HasEdge(g, walk[0], walk[1]);
      forall i | 0 <= i < |walk[1..]| - 1 ensures HasEdge(g, walk[1..][i], walk[1..][i + 1]) {
        assert HasEdge(g, walk[i + 1], walk[i + 2]);
      }
      WalkStaysInside(g, ids, walk[1..]);
    }
  }

  // ---- Registering several definitions -----------------------------------

  datatype RegistryError = DuplicateDefinition(key: string, version: int) | Rejected(rejection: Rejection)

  type DefinitionKey = (string, int)

  function KeyOf(def: Definition): DefinitionKey {
    (def.key, def.version)
  }

  ghost predicate IsAccepted(nodes: NodeTable, def: Definition) {
    def.Valid() && Accepted(nodes, def)
  }

  ghost predicate AllAccepted(nodes: NodeTable, defs: seq<Definition>) {
    Every((def: Definition) => IsAccepted(nodes, def), defs)
  }

  predicate DistinctKeys(defs: seq<Definition>) {
    forall i, j :: 0 <= i < j < |defs| ==> KeyOf(defs[i]) != KeyOf(defs[j])
  }

  /** The table holds these definitions, each under its own key and version, and nothing else. */
  ghost predicate Registers(defs: seq<Definition>, table: map<DefinitionKey, Definition>) {
    && (forall k :: k in table ==> table[k] in defs && KeyOf(table[k]) == k)
    && (forall i :: 0 <= i < |defs| ==> KeyOf(defs[i]) in table && table[KeyOf(defs[i])] == defs[i])
  }

  lemma RegisterOneMore(defs: seq<Definition>, table: map<DefinitionKey, Definition>, def: Definition)
    requires Registers(defs, table) && DistinctKeys(defs)
    ensures KeyOf(def) !in table ==> Registers(defs + [def], table[KeyOf(def) := def]) && DistinctKeys(defs + [def])
    ensures KeyOf(def) in table ==> !DistinctKeys(defs + [def])
  {
    var longer := defs + [def];
    if KeyOf(def) in table {
      var i :| 0 <= i < |defs| && defs[i] == table[KeyOf(def)];
      assert KeyOf(longer[i]) == KeyOf(longer[|defs|]);
    }
  }

  /** A key seen before means the whole list repeats a key. */
  lemma RepeatedPrefix(defs: seq<Definition>, i: nat)
    requires i < |defs| && !DistinctKeys(defs[..i + 1])
    ensures !DistinctKeys(defs)
  {}

  method RegisterDefinitions(nodes: NodeTable, defs: seq<Definition>)
    returns (r: Result<map<DefinitionKey, Definition>, RegistryError>)
    requires forall i :: 0 <= i < |defs| ==> defs[i].Valid()
    ensures r.Ok? <==> AllAccepted(nodes, defs) && DistinctKeys(defs)
    ensures r.Ok? ==> Registers(defs, r.value)
  {
    var registered: map<DefinitionKey, Definition> := map[];
    for i := 0 to |defs|
      invariant AllAccepted(nodes, defs[..i])
      invariant Registers(defs[..i], registered) && DistinctKeys(defs[..i])
    {
      RegisterOneMore(defs[..i], registered, defs[i]);
      PrefixGrows(defs, i);
      if KeyOf(defs[i]) in registered {
        RepeatedPrefix(defs, i);
        return Err(DuplicateDefinition(defs[i].key, defs[i].version));
      }
      EveryGrows((def: Definition) => IsAccepted(nodes, def), defs, i);
      var e := ValidateDefinition(nodes, defs[i]);
      if e.Some? {
        return Err(Rejected(e.value));
      }
      registered := registered[KeyOf(defs[i]) := defs[i]];
    }
    WholePrefix(defs);
    return Ok(registered);
  }
}
