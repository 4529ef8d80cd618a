// The compute step of the modifier node (src/serlio/modifiers/PRTModifierNode.cpp):
// how a node evaluation drives the modifier action. A pass-through state copies
// the input mesh; the output mesh plug detects a change of rule package by
// comparing it with the stored current package, records the new package at once,
// and then runs the action's calls in a fixed order, stopping after a failed
// rule update or attribute fill. The action's calls are recorded, with the
// status each one returns given as input.

module ModifierNodeCompute {

  /** The MStatus values the node tells apart. */
  datatype Status = Success | UnknownParameter | Failure

  /** What one evaluation does, in order. */
  datatype Call =
    | CopyInMesh
    | SetMesh
    | UpdateUserSetAttributes
    | SetRandomSeed(seed: int)
    | UpdateRuleFiles(rulePkg: string)
    | FillAttributesFromNode
    | DoIt
    | UpdateUI
    | SetClean

  /** One evaluation request: the node state (1 is pass-through), whether
    * the plug asked for is outMesh, the rule package and random seed plugs,
    * and what the action's fallible calls return. */
  datatype Request = Request(
    state: int,
    plugIsOutMesh: bool,
    rulePkg: string,
    randomSeed: int,
    updateStatus: Status,
    fillStatus: Status,
    doItStatus: Status)

  /** What an evaluation leaves behind: the stored current package, the
    * calls made, and the returned status. */
  datatype Step = Step(currentRulePkg: string, calls: seq<Call>, status: Status)

  /** Asked for the output mesh outside pass-through. */
  predicate Computes(req: Request)
  {
    req.state != 1 && req.plugIsOutMesh
  }

  /** The calls of an outMesh evaluation after the rule update: fill, and
    * unless it fails, generation, the UI update and the clean mark. */
  function AfterUpdate(req: Request): seq<Call>
  {
    if req.fillStatus != Success then [FillAttributesFromNode]
    else [FillAttributesFromNode, DoIt, UpdateUI, SetClean]
  }

  /** PRTModifierNode::compute as a function of the stored package. */
  function Evaluate(currentRulePkg: string, req: Request): (r: Step)
    ensures req.state == 1 ==> r == Step(currentRulePkg, [CopyInMesh], Success)
    ensures req.state != 1 && !req.plugIsOutMesh ==> r == Step(currentRulePkg, [], UnknownParameter)
    ensures Computes(req) ==> r.currentRulePkg == req.rulePkg
    ensures Computes(req) ==> |r.calls| >= 2 && r.calls[..2] == [CopyInMesh, SetMesh]
    ensures (UpdateRuleFiles(req.rulePkg) in r.calls) <==> Computes(req) && currentRulePkg != req.rulePkg
    ensures (UpdateUserSetAttributes in r.calls) <==> Computes(req) && currentRulePkg == req.rulePkg
  {
    if req.state == 1 then Step(currentRulePkg, [CopyInMesh], Success)
    else if !req.plugIsOutMesh then Step(currentRulePkg, [], UnknownParameter)
    else
      var seed := SetRandomSeed(req.randomSeed);
      var status := if req.fillStatus != Success then req.fillStatus else req.doItStatus;
      if req.rulePkg == currentRulePkg then
        Step(req.rulePkg, [CopyInMesh, SetMesh, UpdateUserSetAttributes, seed] + AfterUpdate(req), status)
      else if req.updateStatus != Success then
        Step(req.rulePkg, [CopyInMesh, SetMesh, seed, UpdateRuleFiles(req.rulePkg)], req.updateStatus)
      else
        Step(req.rulePkg, [CopyInMesh, SetMesh, seed, UpdateRuleFiles(req.rulePkg)] + AfterUpdate(req), status)
  }

  /** Generation runs exactly when the rule update and the attribute fill both succeed; it ends
      with the UI refresh and the clean mark, and otherwise the first failing status is returned. */
  lemma EvaluateGeneration(currentRulePkg: string, req: Request)
    ensures var r := Evaluate(currentRulePkg, req);
      && ((DoIt in r.calls) <==>
           Computes(req) && (currentRulePkg == req.rulePkg || req.updateStatus == Success) && req.fillStatus == Success)
      && (DoIt in r.calls ==> r.status == req.doItStatus && r.calls[|r.calls| - 3..] == [DoIt, UpdateUI, SetClean])
      && (Computes(req) && DoIt !in r.calls ==> r.status == req.updateStatus || r.status == req.fillStatus)
      && (Computes(req) && DoIt !in r.calls ==> r.status != Success)
  {
  }

  /** A failed rule update is not retried: the package was recorded before
    * the update, so the next evaluation with the same package treats it as
    * unchanged and runs the user-set update instead. */
  lemma FailedUpdateNotRetried(current: string, first: Request, second: Request)
    requires Computes(first) && current != first.rulePkg && first.updateStatus != Success
    requires Computes(second) && second.rulePkg == first.rulePkg
    ensures DoIt !in Evaluate(current, first).calls
    ensures var next := Evaluate(Evaluate(current, first).currentRulePkg, second);
      UpdateRuleFiles(second.rulePkg) !in next.calls && UpdateUserSetAttributes in next.calls
  {
  }

  /** The attribute fill comes right before generation. */
  lemma FillBeforeDoIt(current: string, req: Request)
    requires DoIt in Evaluate(current, req).calls
    ensures var calls := Evaluate(current, req).calls;
      exists i :: 0 <= i < |calls| - 1 && calls[i] == FillAttributesFromNode && calls[i + 1] == DoIt
  {
    var calls := Evaluate(current, req).calls;
    var n := |calls|;
    assert calls[n - 3] == DoIt;
    assert calls[n - 4] == FillAttributesFromNode;
  }

  /** The node: the stored current rule package and the calls made so far. */
  class PrtModifierNode {
    var currentRulePkg: string
    var calls: seq<Call>

    constructor()
      ensures currentRulePkg == "" && calls == []
    {
      currentRulePkg := "";
      calls := [];
    }

    /** compute: the stored package, the calls and the status follow
      * Evaluate. */
    method Compute(req: Request) returns (status: Status)
      modifies this
      ensures var r := Evaluate(old(currentRulePkg), req);
        currentRulePkg == r.currentRulePkg && calls == old(calls) + r.calls && status == r.status
    {
      var added: seq<Call> := [];
      status := Success;
      if req.state == 1 {
        added := [CopyInMesh];
      } else if !req.plugIsOutMesh {
        status := UnknownParameter;
      } else {
        var ruleFileWasChanged := req.rulePkg != currentRulePkg;
        currentRulePkg := req.rulePkg;
        if ruleFileWasChanged {
          added := [CopyInMesh, SetMesh, SetRandomSeed(req.randomSeed), UpdateRuleFiles(req.rulePkg)];
          status := req.updateStatus;
        } else {
          added := [CopyInMesh, SetMesh, UpdateUserSetAttributes, SetRandomSeed(req.randomSeed)];
        }
        if status == Success {
          added := added + [FillAttributesFromNode];
          status := req.fillStatus;
          if status == Success {
            added := added + [DoIt, UpdateUI, SetClean];
            status := req.doItStatus;
          }
        }
      }
      calls := calls + added;
    }
  }
}
