/** The immutable workflow definition, with the checks its constructors make. */
module WorkflowDefinition {
  import opened Prelude
  import opened Text

  type StepId = string

  // A runtime class; only identity matters, and `dict` is the one the registry names.
  type TypeId = nat
  const DICT_TYPE: TypeId := 0

  datatype InputSource = RunInput | PreviousStepOutput

  datatype Binding = Binding(targetField: string, source: InputSource, sourceField: string)

  datatype BranchCase = BranchCase(expectedValue: string, nextStepId: StepId)

  datatype Branch = Branch(selectorField: string, cases: seq<BranchCase>)

  datatype StepDef = StepDef(
    stepId: StepId,
    nodeKey: string,
    inputType: TypeId,
    next: Option<StepId>,
    bindings: seq<Binding>,
    branch: Option<Branch>,
    maxAttempts: int)
  {
    predicate Valid() {
      && !Blank(stepId) && !Blank(nodeKey)
      && (next.Some? ==> !Blank(next.value) && branch.None?)
      && (forall i :: 0 <= i < |bindings| ==> !Blank(bindings[i].targetField) && !Blank(bindings[i].sourceField))
      && (forall i, j :: 0 <= i < j < |bindings| ==> bindings[i].targetField != bindings[j].targetField)
      && (branch.Some? ==>
            && !Blank(branch.value.selectorField) && branch.value.cases != []
            && (forall c :: c in branch.value.cases ==> !Blank(c.expectedValue) && !Blank(c.nextStepId))
            && forall i, j :: 0 <= i < j < |branch.value.cases| ==>
                 branch.value.cases[i].expectedValue != branch.value.cases[j].expectedValue)
      && maxAttempts > 0
    }

    function Outgoing(): seq<StepId> {
      if branch.Some? then
        seq(|branch.value.cases|, i requires 0 <= i < |branch.value.cases| => branch.value.cases[i].nextStepId)
      else if next.Some? then [next.value]
      else []
    }
  }

  datatype Definition = Definition(
    key: string,
    version: int,
    inputType: TypeId,
    startStepId: StepId,
    steps: seq<StepDef>)
  {
    predicate Valid() {
      && !Blank(key) && version > 0 && !Blank(startStepId)
      && (forall i :: 0 <= i < |steps| ==> steps[i].Valid())
      && (forall i, j :: 0 <= i < j < |steps| ==> steps[i].stepId != steps[j].stepId)
      && startStepId in StepIds()
    }

    function StepIds(): set<StepId> {
      set i | 0 <= i < |steps| :: steps[i].stepId
    }

    /** step_by_id: the first, and only, step with this id. */
    function StepById(id: StepId): (step: StepDef)
      requires id in StepIds()
      ensures step in steps && step.stepId == id
    {
      FindStep(steps, id)
    }

    function Edges(): Graph {
      map id | id in StepIds() :: StepById(id).Outgoing()
    }
  }

  function FindStep(steps: seq<StepDef>, id: StepId): (step: StepDef)
    requires exists i :: 0 <= i < |steps| && steps[i].stepId == id
    ensures step in steps && step.stepId == id
  {
    if steps[0].stepId == id then steps[0]
    else
      assert exists i :: 0 <= i < |steps[1..]| && steps[1..][i].stepId == id by {
        var i :| 0 <= i < |steps| && steps[i].stepId == id;
        assert steps[1..][i - 1].stepId == id;
      }
      FindStep(steps[1..], id)
  }

  /** All targets named by all steps, with repetitions. */
  function Targets(steps: seq<StepDef>): seq<StepId> {
    if steps == [] then [] else Targets(steps[..|steps| - 1]) + steps[|steps| - 1].Outgoing()
  }

  function InDegree(def: Definition, id: StepId): nat {
    multiset(Targets(def.steps))[id]
  }

  /** Step id to the ids it may hand over to. */
  type Graph = map<StepId, seq<StepId>>

  predicate HasEdge(g: Graph, a: StepId, b: StepId) {
    a in g && b in g[a]
  }

  predicate IsWalk(g: Graph, walk: seq<StepId>) {
    && walk != []
    && forall i :: 0 <= i < |walk| - 1 ==> HasEdge(g, walk[i], walk[i + 1])
  }

  ghost predicate Reachable(g: Graph, start: StepId, id: StepId) {
    exists walk :: IsWalk(g, walk) && walk[0] == start && walk[|walk| - 1] == id
  }

  ghost predicate OnCycle(g: Graph, id: StepId) {
    exists walk :: IsWalk(g, walk) && |walk| >= 2 && walk[0] == id && walk[|walk| - 1] == id
  }

  /** A tree hanging from the start step, every edge counted. */
  ghost predicate IsRootedTree(def: Definition) {
    && (forall t :: t in Targets(def.steps) ==> t in def.StepIds())
    && InDegree(def, def.startStepId) == 0
    && (forall id :: id in def.StepIds() && id != def.startStepId ==> InDegree(def, id) == 1)
    && (forall id :: id in def.StepIds() ==> Reachable(def.Edges(), def.startStepId, id))
  }

  // ---- In-degrees and edges ---------------------------------------------

  lemma {:induction false} TargetsSplit(steps: seq<StepDef>, i: nat)
    requires i < |steps|
    ensures multiset(Targets(steps)) >= multiset(Targets(steps[..i])) + multiset(steps[i].Outgoing())
  {
    var front := steps[..|steps| - 1];
    if i == |steps| - 1 {
    } else {
      TargetsSplit(front, i);
      assert front[..i] == steps[..i];
    }
  }

  lemma StepByIdIs(def: Definition, i: nat)
    requires def.Valid() && i < |def.steps|
    ensures def.steps[i].stepId in def.StepIds() && def.StepById(def.steps[i].stepId) == def.steps[i]
  {}

  lemma EdgeStep(def: Definition, a: StepId, b: StepId) returns (i: nat)
    requires def.Valid() && HasEdge(def.Edges(), a, b)
    ensures i < |def.steps| && def.steps[i].stepId == a && b in def.steps[i].Outgoing()
  {
    i :| 0 <= i < |def.steps| && def.steps[i] == def.StepById(a);
  }

  lemma EdgeCounts(def: Definition, a: StepId, b: StepId)
    requires def.Valid() && HasEdge(def.Edges(), a, b)
    ensures InDegree(def, b) >= 1
  {
    var i := EdgeStep(def, a, b);
    TargetsSplit(def.steps, i);
    assert b in multiset(def.steps[i].Outgoing());
  }

  lemma {:induction false} EarlierTargets(steps: seq<StepDef>, i: nat, b: StepId)
    requires i < |steps| && b in steps[i].Outgoing()
    ensures b in multiset(Targets(steps))
  {
    TargetsSplit(steps, i);
    assert b in multiset(steps[i].Outgoing());
  }

  lemma TwoTargetsCount(steps: seq<StepDef>, i: nat, j: nat, b: StepId)
    requires i < j < |steps| && b in steps[i].Outgoing() && b in steps[j].Outgoing()
    ensures multiset(Targets(steps))[b] >= 2
  {
    assert steps[..j][i] == steps[i];
    EarlierTargets(steps[..j], i, b);
    TargetsSplit(steps, j);
    assert b in multiset(steps[j].Outgoing());
  }

  lemma TwoEdgesCount(def: Definition, a: StepId, c: StepId, b: StepId)
    requires def.Valid() && HasEdge(def.Edges(), a, b) && HasEdge(def.Edges(), c, b) && a != c
    ensures InDegree(def, b) >= 2
  {
    var i := EdgeStep(def, a, b);
    var j := EdgeStep(def, c, b);
    if i < j {
      TwoTargetsCount(def.steps, i, j, b);
    } else {
      TwoTargetsCount(def.steps, j, i, b);
    }
  }

  lemma {:induction false} TargetHasStep(steps: seq<StepDef>, b: StepId) returns (i: nat)
    requires b in Targets(steps)
    ensures i < |steps| && b in steps[i].Outgoing()
  {
    if b in steps[|steps| - 1].Outgoing() {
      i := |steps| - 1;
    } else {
      i := TargetHasStep(steps[..|steps| - 1], b);
    }
  }

  // ---- What a rooted tree gives ------------------------------------------

  /** No walk from the start visits a step twice. */
  lemma {:induction false} WalkNeverRepeats(def: Definition, walk: seq<StepId>, i: nat, j: nat)
    requires def.Valid() && IsRootedTree(def)
    requires IsWalk(def.Edges(), walk) && walk[0] == def.startStepId && i < j < |walk|
    ensures walk[i] != walk[j]
    decreases i
  {
    assert HasEdge(def.Edges(), walk[j - 1], walk[j]);
    EdgeCounts(def, walk[j - 1], walk[j]);
    if i > 0 && walk[i] == walk[j] {
      WalkNeverRepeats(def, walk, i - 1, j - 1);
      assert HasEdge(def.Edges(), walk[i - 1], walk[i]);
      TwoEdgesCount(def, walk[i - 1], walk[j - 1], walk[i]);
    }
  }

  lemma WalksJoin(g: Graph, a: seq<StepId>, b: seq<StepId>)
    requires IsWalk(g, a) && IsWalk(g, b) && a[|a| - 1] == b[0]
    ensures IsWalk(g, a + b[1..])
  {}

  lemma TreeHasNoCycle(def: Definition, id: StepId)
    requires def.Valid() && IsRootedTree(def) && id in def.StepIds()
    ensures !OnCycle(def.Edges(), id)
  {
    if OnCycle(def.Edges(), id) {
      assert Reachable(def.Edges(), def.startStepId, id);
      var walk :| IsWalk(def.Edges(), walk) && walk[0] == def.startStepId && walk[|walk| - 1] == id;
      var round :| IsWalk(def.Edges(), round) && |round| >= 2 && round[0] == id && round[|round| - 1] == id;
      WalksJoin(def.Edges(), walk, round);
      WalkNeverRepeats(def, walk + round[1..], |walk| - 1, |walk| + |round| - 2);
    }
  }

  lemma {:induction false} MultisetOfDistinct(s: multiset<StepId>, ids: set<StepId>)
    requires forall x :: s[x] == if x in ids then 1 else 0
    ensures |s| == |ids|
  {
    assert s == multiset(ids);
  }

  lemma {:induction false} DistinctIds(steps: seq<StepDef>)
    requires forall i, j :: 0 <= i < j < |steps| ==> steps[i].stepId != steps[j].stepId
    ensures |set i | 0 <= i < |steps| :: steps[i].stepId| == |steps|
  {
    if steps == [] {
    } else {
      var front, last := steps[..|steps| - 1], steps[|steps| - 1];
      DistinctIds(front);
      assert (set i | 0 <= i < |steps| :: steps[i].stepId)
          == (set i | 0 <= i < |front| :: front[i].stepId) + {last.stepId};
    }
  }

  /** The edges of a rooted tree number its steps minus one. */
  lemma TreeEdgeCount(def: Definition)
    requires def.Valid() && IsRootedTree(def)
    ensures |Targets(def.steps)| == |def.steps| - 1
  {
    var all := multiset(Targets(def.steps));
    var others := def.StepIds() - {def.startStepId};
    forall x ensures all[x] == if x in others then 1 else 0 {
      if x in all {
        assert x in Targets(def.steps);
      }
    }
    MultisetOfDistinct(all, others);
    DistinctIds(def.steps);
  }
}
