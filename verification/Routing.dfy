/** Building a step's input from its bindings, and choosing the one next step. */
module Routing {
  import opened Prelude
  import Text
  import opened WorkflowDefinition
  import opened DefinitionRegistry

  datatype Json = Str(text: string) | Other(id: nat)

  type JsonObject = map<string, Json>

  datatype RouteError = MissingSelector | SelectorNotText | UnsupportedValue

  datatype InputError = MissingField(field: string) | PreviousOutputRequired

  predicate CaseMatches(cases: seq<BranchCase>, value: string) {
    exists i :: 0 <= i < |cases| && cases[i].expectedValue == value
  }

  /** The first case with this value, as the loop over the cases finds it. */
  function SelectCase(cases: seq<BranchCase>, value: string): Result<StepId, RouteError> {
    if cases == [] then Err(UnsupportedValue)
    else if cases[0].expectedValue == value then Ok(cases[0].nextStepId)
    else SelectCase(cases[1..], value)
  }

  function SelectNextStepId(step: StepDef, output: JsonObject): Result<Option<StepId>, RouteError> {
    if step.branch.None? then Ok(step.next)
    else
      var branch := step.branch.value;
      if branch.selectorField !in output then Err(MissingSelector)
      else if !output[branch.selectorField].Str? then Err(SelectorNotText)
      else
        match SelectCase(branch.cases, output[branch.selectorField].text)
        case Ok(target) => Ok(Some(target))
        case Err(e) => Err(e)
  }

  lemma {:induction false} SelectCaseIsExact(cases: seq<BranchCase>, value: string)
    ensures SelectCase(cases, value).Ok? <==> CaseMatches(cases, value)
    ensures SelectCase(cases, value).Err? ==> SelectCase(cases, value) == Err(UnsupportedValue)
    ensures SelectCase(cases, value).Ok? ==>
              exists i :: 0 <= i < |cases| && cases[i].expectedValue == value && cases[i].nextStepId == SelectCase(cases, value).value
  {
    if cases == [] || cases[0].expectedValue == value {
    } else {
      SelectCaseIsExact(cases[1..], value);
      if CaseMatches(cases[1..], value) {
        var i :| 0 <= i < |cases[1..]| && cases[1..][i].expectedValue == value && cases[1..][i].nextStepId == SelectCase(cases[1..], value).value;
        assert cases[i + 1].expectedValue == value;
      } else {
        forall i | 0 <= i < |cases| ensures cases[i].expectedValue != value {
          if i > 0 { assert cases[1..][i - 1].expectedValue != value; }
        }
      }
    }
  }

  /** Which step comes next: the linear successor, or the target of the one case whose value the selector field holds; each error has its own condition. */
  lemma SelectNextIsExact(step: StepDef, output: JsonObject)
    ensures step.branch.None? ==> SelectNextStepId(step, output) == Ok(step.next)
    ensures step.branch.Some? ==>
      var field, cases, r := step.branch.value.selectorField, step.branch.value.cases, SelectNextStepId(step, output);
      && (r == Err(MissingSelector) <==> field !in output)
      && (r == Err(SelectorNotText) <==> field in output && !output[field].Str?)
      && (r == Err(UnsupportedValue) <==>
            field in output && output[field].Str? && forall i :: 0 <= i < |cases| ==> cases[i].expectedValue != output[field].text)
      && (r.Ok? ==> exists i :: 0 <= i < |cases| && Str(cases[i].expectedValue) == output[field] && r == Ok(Some(cases[i].nextStepId)))
  {
    if step.branch.Some? && step.branch.value.selectorField in output && output[step.branch.value.selectorField].Str? {
      SelectCaseIsExact(step.branch.value.cases, output[step.branch.value.selectorField].text);
    }
  }

  /** A selected step is one of the targets validation has already seen. */
  lemma SelectedIsOutgoing(step: StepDef, output: JsonObject, t: StepId)
    requires SelectNextStepId(step, output) == Ok(Some(t))
    ensures t in step.Outgoing()
  {
    if step.branch.Some? {
      var branch := step.branch.value;
      SelectCaseIsExact(branch.cases, output[branch.selectorField].text);
      var i :| 0 <= i < |branch.cases| && branch.cases[i].nextStepId == t;
      assert step.Outgoing()[i] == t;
    } else {
      assert step.Outgoing()[0] == t;
    }
  }

  /** The steps taken from the start when the i-th executed node returns outputs[i]. */
  ghost predicate IsRoute(def: Definition, outputs: seq<JsonObject>, route: seq<StepId>)
    requires def.Valid()
  {
    && 0 < |route| <= |outputs|
    && route[0] == def.startStepId
    && (forall i :: 0 <= i < |route| ==> route[i] in def.StepIds())
    && forall i :: 0 <= i < |route| - 1 ==> SelectNextStepId(def.StepById(route[i]), outputs[i]) == Ok(Some(route[i + 1]))
  }

  lemma RouteIsWalk(def: Definition, outputs: seq<JsonObject>, route: seq<StepId>)
    requires def.Valid() && IsRoute(def, outputs, route)
    ensures IsWalk(def.Edges(), route)
  {
    forall i | 0 <= i < |route| - 1 ensures HasEdge(def.Edges(), route[i], route[i + 1]) {
      SelectedIsOutgoing(def.StepById(route[i]), outputs[i], route[i + 1]);
    }
  }

  lemma {:induction false} DistinctFit(route: seq<StepId>, ids: set<StepId>)
    requires forall i :: 0 <= i < |route| ==> route[i] in ids
    requires forall i, j :: 0 <= i < j < |route| ==> route[i] != route[j]
    ensures |route| <= |ids|
  {
    if route == [] {
    } else {
      DistinctFit(route[1..], ids - {route[0]});
    }
  }

  /** For any node outputs: no step runs twice and the run ends within the number of steps. */
  lemma RouteVisitsEachStepOnce(nodes: NodeTable, def: Definition, outputs: seq<JsonObject>, route: seq<StepId>)
    requires def.Valid() && Accepted(nodes, def) && IsRoute(def, outputs, route)
    ensures forall i, j :: 0 <= i < j < |route| ==> route[i] != route[j]
    ensures |route| <= |def.steps|
  {
    RouteIsWalk(def, outputs, route);
    forall i, j | 0 <= i < j < |route| ensures route[i] != route[j] {
      WalkNeverRepeats(def, route, i, j);
    }
    DistinctFit(route, def.StepIds());
    DistinctIds(def.steps);
  }

  lemma AcceptedEdge(nodes: NodeTable, def: Definition, a: StepId, b: StepId)
    requires def.Valid() && ChecksHold(nodes, def) && a in def.StepIds() && b in def.StepById(a).Outgoing()
    ensures EdgeChecked(nodes, def, def.StepById(a), b) && b in def.StepIds()
    ensures StepChecked(nodes, def, def.StepById(b))
  {}

  /** Each hop hands over a value of the type the next step takes, to a step that exists. */
  lemma HopsAreTyped(nodes: NodeTable, def: Definition, id: StepId, output: JsonObject, next: StepId)
    requires def.Valid() && Accepted(nodes, def) && id in def.StepIds()
    requires SelectNextStepId(def.StepById(id), output) == Ok(Some(next))
    ensures next in def.StepIds()
    ensures def.StepById(id).nodeKey in nodes
    ensures nodes[def.StepById(id).nodeKey].outputType == def.StepById(next).inputType
  {
    SelectedIsOutgoing(def.StepById(id), output, next);
    AcceptedEdge(nodes, def, id, next);
  }

  // ---- Node input ----------------------------------------------------------

  function SourceOf(b: Binding, runInput: JsonObject, previous: Option<JsonObject>): Result<JsonObject, InputError> {
    if b.source == RunInput then Ok(runInput)
    else if previous.None? then Err(PreviousOutputRequired)
    else Ok(previous.value)
  }

  /** The value a binding asks for, if its declared source has it. */
  ghost predicate Supplies(b: Binding, runInput: JsonObject, previous: Option<JsonObject>, value: Json) {
    match b.source
    case RunInput => b.sourceField in runInput && runInput[b.sourceField] == value
    case PreviousStepOutput => previous.Some? && b.sourceField in previous.value && previous.value[b.sourceField] == value
  }

  ghost predicate Resolvable(b: Binding, runInput: JsonObject, previous: Option<JsonObject>) {
    exists value :: Supplies(b, runInput, previous, value)
  }

  /** What is wrong with a binding that cannot be resolved. */
  ghost predicate Fails(b: Binding, runInput: JsonObject, previous: Option<JsonObject>, error: InputError) {
    && !Resolvable(b, runInput, previous)
    && error == if b.source == PreviousStepOutput && previous.None? then PreviousOutputRequired else MissingField(b.sourceField)
  }

  lemma SourceSupplies(b: Binding, runInput: JsonObject, previous: Option<JsonObject>)
    ensures var source := SourceOf(b, runInput, previous);
            match source
            case Err(e) => Fails(b, runInput, previous, e)
            case Ok(found) =>
              if b.sourceField in found then Supplies(b, runInput, previous, found[b.sourceField])
              else Fails(b, runInput, previous, MissingField(b.sourceField))
  {}

  /** Exactly the bound fields, each copied from its declared source, or the failure of the first binding that has none. */
  method BuildNodeInput(step: StepDef, runInput: JsonObject, previous: Option<JsonObject>)
    returns (r: Result<JsonObject, InputError>)
    requires step.Valid()
    ensures r.Ok? <==> forall i :: 0 <= i < |step.bindings| ==> Resolvable(step.bindings[i], runInput, previous)
    ensures r.Ok? ==> forall f :: f in r.value <==> exists i :: 0 <= i < |step.bindings| && step.bindings[i].targetField == f
    ensures r.Ok? ==> forall i :: 0 <= i < |step.bindings| ==>
              && step.bindings[i].targetField in r.value
              && Supplies(step.bindings[i], runInput, previous, r.value[step.bindings[i].targetField])
    ensures r.Err? ==> exists i :: 0 <= i < |step.bindings| && Fails(step.bindings[i], runInput, previous, r.error)
                                   && forall k :: 0 <= k < i ==> Resolvable(step.bindings[k], runInput, previous)
  {
    var input: JsonObject := map[];
    for i := 0 to |step.bindings|
      invariant forall k :: 0 <= k < i ==> Resolvable(step.bindings[k], runInput, previous)
      invariant forall f :: f in input <==> exists k :: 0 <= k < i && step.bindings[k].targetField == f
      invariant forall k :: 0 <= k < i ==>
                  && step.bindings[k].targetField in input
                  && Supplies(step.bindings[k], runInput, previous, input[step.bindings[k].targetField])
    {
      var b := step.bindings[i];
      var source := SourceOf(b, runInput, previous);
      SourceSupplies(b, runInput, previous);
      if source.Err? {
        return Err(source.error);
      }
      if b.sourceField !in source.value {
        return Err(MissingField(b.sourceField));
      }
      input := input[b.targetField := source.value[b.sourceField]];
    }
    return Ok(input);
  }

  /** The start step of an accepted definition never asks for an output that cannot exist yet. */
  lemma StartNeedsNoPreviousOutput(nodes: NodeTable, def: Definition, runInput: JsonObject, i: nat)
    requires def.Valid() && Accepted(nodes, def) && i < |def.StepById(def.startStepId).bindings|
    ensures SourceOf(def.StepById(def.startStepId).bindings[i], runInput, None) == Ok(runInput)
  {
    var k := StepIndex(def, def.startStepId);
    assert StepChecked(nodes, def, def.steps[k]);
    assert def.steps[k].bindings[i] in def.steps[k].bindings;
  }

  // ---- The approval workflow's own definition ------------------------------

  const WAIT_STEP: StepId := "wait_for_approval"
  const INDEX_STEP: StepId := "index_and_activate_version"

  const APPROVAL_NODES: NodeTable := map[
    "wait_for_approval" := Node(DICT_TYPE, DICT_TYPE),
    "index_and_activate_version" := Node(DICT_TYPE, DICT_TYPE)]

  const APPROVAL_DEFINITION: Definition := Definition(
    "knowledge_revision_approval", 1, DICT_TYPE, WAIT_STEP,
    [ StepDef(WAIT_STEP, "wait_for_approval", DICT_TYPE, None, [],
              Some(Branch("decision", [BranchCase("approved", INDEX_STEP)])), 3),
      StepDef(INDEX_STEP, "index_and_activate_version", DICT_TYPE, None,
              [ Binding("owner_id", RunInput, "owner_id"),
                Binding("document_id", RunInput, "document_id"),
                Binding("document_version_id", RunInput, "document_version_id") ],
              None, 3) ])

  const WAIT: StepDef := APPROVAL_DEFINITION.steps[0]
  const INDEX: StepDef := APPROVAL_DEFINITION.steps[1]

  lemma ApprovalNamesShow()
    ensures !Text.Blank(WAIT_STEP) && !Text.Blank(INDEX_STEP) && !Text.Blank("knowledge_revision_approval")
    ensures !Text.Blank("decision") && !Text.Blank("approved")
    ensures !Text.Blank("owner_id") && !Text.Blank("document_id") && !Text.Blank("document_version_id")
  {}

  lemma WaitIsValid()
    ensures WAIT.Valid()
  {
    ApprovalNamesShow();
  }

  lemma IndexIsValid()
    ensures INDEX.Valid()
  {
    ApprovalNamesShow();
    assert "owner_id"[0] != "document_id"[0];
    assert |"document_id"| != |"document_version_id"|;
  }

  lemma ApprovalIsValid()
    ensures APPROVAL_DEFINITION.Valid()
  {
    ApprovalNamesShow();
    WaitIsValid();
    IndexIsValid();
    assert WAIT_STEP[0] != INDEX_STEP[0];
    assert APPROVAL_DEFINITION.steps[0].stepId in APPROVAL_DEFINITION.StepIds();
  }

  lemma ApprovalEdges()
    ensures APPROVAL_DEFINITION.Valid() && WAIT_STEP != INDEX_STEP
    ensures APPROVAL_DEFINITION.StepIds() == {WAIT_STEP, INDEX_STEP}
    ensures APPROVAL_DEFINITION.StepById(WAIT_STEP) == APPROVAL_DEFINITION.steps[0]
    ensures APPROVAL_DEFINITION.StepById(INDEX_STEP) == APPROVAL_DEFINITION.steps[1]
    ensures APPROVAL_DEFINITION.steps[0].Outgoing() == [INDEX_STEP]
    ensures APPROVAL_DEFINITION.steps[1].Outgoing() == []
  {
    var def := APPROVAL_DEFINITION;
    ApprovalIsValid();
    assert WAIT_STEP[0] != INDEX_STEP[0];
    StepByIdIs(def, 0);
    StepByIdIs(def, 1);
    forall id | id in def.StepIds() ensures id in {WAIT_STEP, INDEX_STEP} {
      var i :| 0 <= i < |def.steps| && def.steps[i].stepId == id;
    }
  }

  lemma ApprovalTargets()
    ensures Targets(APPROVAL_DEFINITION.steps) == [INDEX_STEP]
  {
    var steps := APPROVAL_DEFINITION.steps;
    ApprovalEdges();
    assert steps[..1] == [steps[0]] && steps[..1][..0] == [];
    assert Targets(steps[..1]) == [INDEX_STEP];
  }

  lemma ReachedAtOnce(g: Graph, start: StepId, next: StepId)
    ensures Reachable(g, start, start)
    ensures HasEdge(g, start, next) ==> Reachable(g, start, next)
  {
    var alone, both := [start], [start, next];
    assert IsWalk(g, alone) && alone[0] == start && alone[|alone| - 1] == start;
    if HasEdge(g, start, next) {
      assert IsWalk(g, both) && both[0] == start && both[|both| - 1] == next;
    }
  }

  lemma ApprovalInDegrees()
    ensures InDegree(APPROVAL_DEFINITION, WAIT_STEP) == 0 && InDegree(APPROVAL_DEFINITION, INDEX_STEP) == 1
  {
    ApprovalEdges();
    ApprovalTargets();
    assert multiset([INDEX_STEP]) == multiset{INDEX_STEP};
  }

  lemma ApprovalReaches()
    ensures APPROVAL_DEFINITION.Valid()
    ensures Reachable(APPROVAL_DEFINITION.Edges(), WAIT_STEP, WAIT_STEP) && Reachable(APPROVAL_DEFINITION.Edges(), WAIT_STEP, INDEX_STEP)
  {
    ApprovalEdges();
    assert HasEdge(APPROVAL_DEFINITION.Edges(), WAIT_STEP, INDEX_STEP);
    ReachedAtOnce(APPROVAL_DEFINITION.Edges(), WAIT_STEP, INDEX_STEP);
  }

  lemma ApprovalIsTree()
    ensures IsRootedTree(APPROVAL_DEFINITION)
  {
    ApprovalEdges();
    ApprovalTargets();
    ApprovalInDegrees();
    ApprovalReaches();
  }

  lemma ApprovalChecks()
    ensures APPROVAL_DEFINITION.Valid() && ChecksHold(APPROVAL_NODES, APPROVAL_DEFINITION)
  {
    ApprovalEdges();
    var def := APPROVAL_DEFINITION;
    assert StepChecked(APPROVAL_NODES, def, def.steps[0]);
    assert StepChecked(APPROVAL_NODES, def, def.steps[1]);
    assert EdgeChecked(APPROVAL_NODES, def, def.steps[0], INDEX_STEP);
    assert EdgesChecked(APPROVAL_NODES, def, def.steps[0], 1);
    assert EdgesChecked(APPROVAL_NODES, def, def.steps[1], 0);
  }

  /** The production definition passes its own registry's validation. */
  lemma ApprovalIsAccepted()
    ensures APPROVAL_DEFINITION.Valid() && Accepted(APPROVAL_NODES, APPROVAL_DEFINITION)
  {
    ApprovalChecks();
    ApprovalIsTree();
  }

  /** An approval routes to the index step, and to no other; any other decision routes nowhere. */
  lemma ApprovalRoutes(decision: string)
    ensures SelectNextStepId(APPROVAL_DEFINITION.steps[0], map["decision" := Str(decision)])
            == if decision == "approved" then Ok(Some(INDEX_STEP)) else Err(UnsupportedValue)
  {
    var step := APPROVAL_DEFINITION.steps[0];
    var output: JsonObject := map["decision" := Str(decision)];
    var cases := step.branch.value.cases;
    assert cases == [BranchCase("approved", INDEX_STEP)] && cases[1..] == [];
    assert SelectCase(cases, decision) == if decision == "approved" then Ok(INDEX_STEP) else Err(UnsupportedValue);
  }
}
