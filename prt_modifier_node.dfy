// The compute step of the older modifier node
// (src/serlio/prtModifier/PRTModifierNode.cpp): on a changed rule package the
// rule files are reloaded, whatever that returns; the attributes are filled,
// the mesh and seed are set, generation runs, and only then is the new package
// stored. The returned status is generation's.

module PrtModifierNodeCompute {
  import opened ModifierNodeCompute

  /** PRTModifierNode::compute of the older node as a function of the stored
    * package. */
  function ComputeStep(currentRulePkg: string, req: Request): (r: Step)
    ensures req.state == 1 ==> r == Step(currentRulePkg, [CopyInMesh], Success)
    ensures req.state != 1 && !req.plugIsOutMesh ==> r == Step(currentRulePkg, [], UnknownParameter)
    ensures Computes(req) ==> r.currentRulePkg == req.rulePkg && r.status == req.doItStatus
    ensures (UpdateRuleFiles(req.rulePkg) in r.calls) <==> Computes(req) && currentRulePkg != req.rulePkg
    ensures UpdateUserSetAttributes !in r.calls && UpdateUI !in r.calls
    ensures (DoIt in r.calls) <==> Computes(req)
    ensures Computes(req) ==>
      |r.calls| >= 6 && r.calls[|r.calls| - 5..] == [FillAttributesFromNode, SetMesh, SetRandomSeed(req.randomSeed), DoIt, SetClean]
  {
    if req.state == 1 then Step(currentRulePkg, [CopyInMesh], Success)
    else if !req.plugIsOutMesh then Step(currentRulePkg, [], UnknownParameter)
    else
      var upd := if req.rulePkg != currentRulePkg then [UpdateRuleFiles(req.rulePkg)] else [];
      var tail := [FillAttributesFromNode, SetMesh, SetRandomSeed(req.randomSeed), DoIt, SetClean];
      var calls := [CopyInMesh] + upd + tail;
      ComputeCalls(req.rulePkg, upd, tail, calls);
      Step(req.rulePkg, calls, req.doItStatus)
  }

  /** The calls of a computing step: the mesh copy, the optional rule
    * update, then the fixed tail ending in generation and cleaning. */
  lemma ComputeCalls(rulePkg: string, upd: seq<Call>, tail: seq<Call>, calls: seq<Call>)
    requires upd == [] || upd == [UpdateRuleFiles(rulePkg)]
    requires |tail| == 5 && tail[3] == DoIt
    requires forall k :: 0 <= k < |tail| ==> !tail[k].UpdateRuleFiles? && tail[k] != UpdateUserSetAttributes && tail[k] != UpdateUI
    requires calls == [CopyInMesh] + upd + tail
    ensures UpdateRuleFiles(rulePkg) in calls <==> upd != []
    ensures DoIt in calls && UpdateUserSetAttributes !in calls && UpdateUI !in calls
    ensures |calls| >= 6 && calls[|calls| - 5..] == tail
  {
    assert calls[|calls| - 5..] == tail;
    assert calls[|calls| - 2] == DoIt;
    forall k | 0 <= k < |calls| && calls[k] != CopyInMesh && k >= |upd| + 1
      ensures !calls[k].UpdateRuleFiles? && calls[k] != UpdateUserSetAttributes && calls[k] != UpdateUI
    {
      assert calls[k] == tail[k - 1 - |upd|];
    }
    if upd != [] {
      assert calls[1] == UpdateRuleFiles(rulePkg);
    }
  }

  /** Neither a failed rule update nor a failed fill stops generation, and
    * the older node's status is generation's alone. */
  lemma FailuresIgnored(current: string, req: Request)
    requires Computes(req) && req.updateStatus != Success && req.fillStatus != Success
    ensures DoIt in ComputeStep(current, req).calls
    ensures ComputeStep(current, req).status == req.doItStatus
  {
  }

  /** The two node generations detect a rule change alike and store the
    * same package afterwards; they differ in whether a failure stops
    * generation. */
  lemma GenerationsAgreeOnRuleChange(current: string, req: Request)
    ensures (UpdateRuleFiles(req.rulePkg) in ComputeStep(current, req).calls) <==>
            (UpdateRuleFiles(req.rulePkg) in ModifierNodeCompute.Evaluate(current, req).calls)
    ensures ComputeStep(current, req).currentRulePkg == ModifierNodeCompute.Evaluate(current, req).currentRulePkg
    ensures (DoIt in ModifierNodeCompute.Evaluate(current, req).calls) ==> DoIt in ComputeStep(current, req).calls
  {
  }

  /** The older node: the stored current rule package and the calls made. */
  class PrtModifierNode {
    var currentRulePkg: string
    var calls: seq<Call>

    constructor()
      ensures currentRulePkg == "" && calls == []
    {
      currentRulePkg := "";
      calls := [];
    }

    /** compute: the stored package, the calls and the status follow
      * ComputeStep. */
    method Compute(req: Request) returns (status: Status)
      modifies this
      ensures var r := ComputeStep(old(currentRulePkg), req);
        currentRulePkg == r.currentRulePkg && calls == old(calls) + r.calls && status == r.status
    {
      var added: seq<Call> := [];
      status := Success;
      if req.state == 1 {
        added := [CopyInMesh];
      } else if !req.plugIsOutMesh {
        status := UnknownParameter;
      } else {
        var upd := if req.rulePkg != currentRulePkg then [UpdateRuleFiles(req.rulePkg)] else [];
        // fill, mesh and seed, generation, then the package is stored
        added := [CopyInMesh] + upd + [FillAttributesFromNode, SetMesh, SetRandomSeed(req.randomSeed), DoIt, SetClean];
        status := req.doItStatus;
        currentRulePkg := req.rulePkg;
      }
      calls := calls + added;
    }
  }
}
