// The material nodes' compute: every element of the incoming material
// stream either reuses an existing shader whose MaterialInfo equals it, or
// gets a freshly numbered shader and shading group.

module MaterialMatching {
  import opened Wrappers
  import opened Text
  import opened MaterialNames
  import P = PrtMaterials

  /** A hardware shader node of the scene. `material` is the info stored in
    * its metadata when that metadata holds a one-element material stream
    * of the material structure, and None otherwise. */
  datatype ShaderNode = ShaderNode(name: String, material: Option<P.MaterialInfo>)

  datatype ExistingMaterial = ExistingMaterial(name: String, info: P.MaterialInfo)

  /** One element of the incoming material stream. `info` is the
    * MaterialInfo read from its handle (PrtMaterials.FromHandle);
    * `faceStart`/`faceEnd` are None when the handle has no such member;
    * `stale` is the integer the handle yields at the position it had before
    * either member was looked for, which is what a read returns when no
    * positioning has succeeded. */
  datatype StreamElement = StreamElement(
    hasData: bool, usesStructure: bool, info: P.MaterialInfo,
    faceStart: Option<int>, faceEnd: Option<int>, stale: int)

  /** The existing materials, in scene order: the shader nodes that carry
    * material metadata. */
  function ExistingMaterials(nodes: seq<ShaderNode>): (r: seq<ExistingMaterial>)
    ensures |r| <= |nodes|
    ensures forall e :: e in r <==> exists i :: 0 <= i < |nodes| && nodes[i].material.Some? &&
                                               e == ExistingMaterial(nodes[i].name, nodes[i].material.value)
    decreases |nodes|
  {
    if |nodes| == 0 then []
    else
      var front := ExistingMaterials(nodes[..|nodes| - 1]);
      var last := nodes[|nodes| - 1];
      assert forall i :: 0 <= i < |nodes| - 1 ==> nodes[..|nodes| - 1][i] == nodes[i];
      match last.material
      case None => front
      case Some(info) => front + [ExistingMaterial(last.name, info)]
  }

  function ShaderNames(nodes: seq<ShaderNode>): (r: set<String>)
    ensures forall s :: s in r <==> exists i :: 0 <= i < |nodes| && nodes[i].name == s
  {
    set i | 0 <= i < |nodes| :: nodes[i].name
  }

  /** The scan over the hardware shader nodes before the stream is read:
    * every node's name is recorded, and the nodes with material metadata
    * become the candidates for reuse. */
  method CollectShaderNodes(nodes: seq<ShaderNode>) returns (shaderNames: set<String>, existing: seq<ExistingMaterial>)
    ensures shaderNames == ShaderNames(nodes)
    ensures existing == ExistingMaterials(nodes)
  {
    shaderNames := {};
    existing := [];
    for i := 0 to |nodes|
      invariant shaderNames == ShaderNames(nodes[..i])
      invariant existing == ExistingMaterials(nodes[..i])
    {
      assert nodes[..i + 1][..i] == nodes[..i];
      assert ShaderNames(nodes[..i + 1]) == ShaderNames(nodes[..i]) + {nodes[i].name};
      shaderNames := shaderNames + {nodes[i].name};
      if nodes[i].material.Some? {
        existing := existing + [ExistingMaterial(nodes[i].name, nodes[i].material.value)];
      }
    }
    assert nodes[..|nodes|] == nodes;
  }

  /** The first existing material whose info `equals` the incoming one. */
  function FirstMatch(existing: seq<ExistingMaterial>, info: P.MaterialInfo): (r: Option<nat>)
    ensures r.Some? ==> r.value < |existing| && P.Equals(info, existing[r.value].info)
    ensures r.Some? ==> forall j :: 0 <= j < r.value ==> !P.Equals(info, existing[j].info)
    ensures r.None? ==> forall j :: 0 <= j < |existing| ==> !P.Equals(info, existing[j].info)
    decreases |existing|
  {
    if |existing| == 0 then None
    else if P.Equals(info, existing[0].info) then Some(0)
    else match FirstMatch(existing[1..], info)
      case None => None
      case Some(j) => Some(j + 1)
  }

  /** A material is reused exactly when an existing one holds the identical,
    * NaN-free info. */
  lemma MatchIffIdentical(existing: seq<ExistingMaterial>, info: P.MaterialInfo)
    ensures FirstMatch(existing, info).Some? <==>
            P.NaNFree(info) && exists j :: 0 <= j < |existing| && existing[j].info == info
  {
    var r := FirstMatch(existing, info);
    if r.Some? {
      P.EqualsIsIdentity(info, existing[r.value].info);
    }
    if P.NaNFree(info) && exists j :: 0 <= j < |existing| && existing[j].info == info {
      var j :| 0 <= j < |existing| && existing[j].info == info;
      P.EqualsIsIdentity(info, existing[j].info);
    }
  }

  /** The search over the existing materials, stopping at the first equal
    * one. */
  method FindMatchingMaterial(existing: seq<ExistingMaterial>, info: P.MaterialInfo) returns (r: Option<nat>)
    ensures r == FirstMatch(existing, info)
  {
    r := None;
    var j := 0;
    while j < |existing|
      invariant j <= |existing|
      invariant forall i :: 0 <= i < j ==> !P.Equals(info, existing[i].info)
    {
      if P.Equals(info, existing[j].info) {
        r := Some(j);
        break;
      }
      j := j + 1;
    }
    FirstMatchUnique(existing, info, r);
  }

  lemma FirstMatchUnique(existing: seq<ExistingMaterial>, info: P.MaterialInfo, r: Option<nat>)
    requires r.Some? ==> r.value < |existing| && P.Equals(info, existing[r.value].info)
    requires r.Some? ==> forall j :: 0 <= j < r.value ==> !P.Equals(info, existing[j].info)
    requires r.None? ==> forall j :: 0 <= j < |existing| ==> !P.Equals(info, existing[j].info)
    ensures r == FirstMatch(existing, info)
  {
  }

  /** The two material nodes. They differ in the names they generate and in
    * how they treat an element without face range members. */
  datatype Node = Stingray | Arnold

  /** The stem of the generated names: the shader is <stem>Sh<k> and its
    * shading group <stem>Sg<k>. */
  function BaseName(node: Node): String
  {
    match node
    case Stingray => "serlioGeneratedMaterial"
    case Arnold => "serlioGeneratedArnoldMaterial"
  }

  function ShaderPrefix(node: Node): String
  {
    BaseName(node) + "Sh"
  }

  function ShadingGroupPrefix(node: Node): String
  {
    BaseName(node) + "Sg"
  }

  /** The face range an element is assigned to. The Stingray node reads both
    * members unconditionally: a failed positioning leaves the handle where it
    * was, so a missing end reads the start and a missing start the stale
    * integer. The Arnold node skips the element. */
  function FaceRangeOf(node: Node, e: StreamElement): (r: Option<(int, int)>)
    ensures node == Stingray ==> r.Some?
    ensures node == Arnold ==> (r.Some? <==> e.faceStart.Some? && e.faceEnd.Some?)
    ensures r.Some? && e.faceStart.Some? ==> r.value.0 == e.faceStart.value
    ensures r.Some? && e.faceEnd.Some? ==> r.value.1 == e.faceEnd.value
    ensures node == Stingray && e.faceEnd.None? ==> r.value.1 == r.value.0
  {
    match node
    case Stingray => Some(StingrayFaceRange(e))
    case Arnold =>
      if e.faceStart.Some? && e.faceEnd.Some? then Some((e.faceStart.value, e.faceEnd.value)) else None
  }

  /** The two reads of the Stingray node, each from where the handle stands. */
  function StingrayFaceRange(e: StreamElement): (int, int)
  {
    var faceStart := e.faceStart.GetOr(e.stale);
    (faceStart, e.faceEnd.GetOr(faceStart))
  }

  /** What compute decides for one stream element: add the face range to the
    * shading group of an existing material, or create a new material with
    * a shader and a shading group of the same index. */
  datatype Assignment =
    | AddFaceRange(shadingGroup: String, faceStart: int, faceEnd: int)
    | NewMaterial(info: P.MaterialInfo, shaderName: String, shadingGroupName: String,
                  faceStart: int, faceEnd: int)

  /** What compute carries through the stream: the decisions so far and the
    * shader names in use. */
  datatype State = State(assignments: seq<Assignment>, shaderNames: set<String>)

  /** Whether an element is acted upon: it has data of the material
    * structure and a face range. */
  predicate Handled(node: Node, e: StreamElement)
  {
    e.hasData && e.usesStructure && FaceRangeOf(node, e).Some?
  }

  /** Whether an element creates a new material. */
  predicate Creates(node: Node, e: StreamElement, existing: seq<ExistingMaterial>)
  {
    Handled(node, e) && FirstMatch(existing, e.info).None?
  }

  function Step(node: Node, st: State, e: StreamElement, existing: seq<ExistingMaterial>): State
  {
    if !Handled(node, e) then st
    else
      var info := e.info;
      var (faceStart, faceEnd) := FaceRangeOf(node, e).value;
      match FirstMatch(existing, info)
      case Some(j) =>
        State(st.assignments + [AddFaceRange(ShadingGroupOfShader(existing[j].name), faceStart, faceEnd)],
              st.shaderNames)
      case None =>
        var k := LeastFree(st.shaderNames, ShaderPrefix(node));
        var shaderName := Candidate(ShaderPrefix(node), k);
        State(st.assignments + [NewMaterial(info, shaderName, Candidate(ShadingGroupPrefix(node), k),
                                            faceStart, faceEnd)],
              st.shaderNames + {shaderName})
  }

  function Run(node: Node, st: State, elements: seq<StreamElement>, existing: seq<ExistingMaterial>): State
    decreases |elements|
  {
    if |elements| == 0 then st
    else Step(node, Run(node, st, elements[..|elements| - 1], existing), elements[|elements| - 1], existing)
  }

  function HandledCount(node: Node, elements: seq<StreamElement>): nat
    decreases |elements|
  {
    if |elements| == 0 then 0
    else HandledCount(node, elements[..|elements| - 1]) + (if Handled(node, elements[|elements| - 1]) then 1 else 0)
  }

  function CreatedCount(node: Node, elements: seq<StreamElement>, existing: seq<ExistingMaterial>): nat
    decreases |elements|
  {
    if |elements| == 0 then 0
    else CreatedCount(node, elements[..|elements| - 1], existing) +
         (if Creates(node, elements[|elements| - 1], existing) then 1 else 0)
  }

  /** A new material whose shader name was not in use before, is in use
    * after, and shares its index with its shading group's name. */
  ghost predicate FreshMaterial(node: Node, a: Assignment, before: set<String>, after: set<String>)
  {
    a.NewMaterial? ==>
      a.shaderName !in before && a.shaderName in after &&
      exists k: nat :: a.shaderName == Candidate(ShaderPrefix(node), k) &&
                       a.shadingGroupName == Candidate(ShadingGroupPrefix(node), k)
  }

  lemma StepAssignments(node: Node, st: State, e: StreamElement, existing: seq<ExistingMaterial>)
    ensures var r := Step(node, st, e, existing);
            |r.assignments| == |st.assignments| + (if Handled(node, e) then 1 else 0) &&
            r.assignments[..|st.assignments|] == st.assignments &&
            st.shaderNames <= r.shaderNames &&
            |r.shaderNames| == |st.shaderNames| + (if Creates(node, e, existing) then 1 else 0) &&
            (Handled(node, e) ==> FreshMaterial(node, r.assignments[|st.assignments|], st.shaderNames, r.shaderNames))
  {
    var r := Step(node, st, e, existing);
    if Handled(node, e) {
      assert r.assignments[..|st.assignments|] == st.assignments;
    }
  }

  /** Exactly one assignment per handled element, assignments only appended,
    * one new shader name per created material, and every new material's
    * shader name is new and shares its index with its shading group. */
  lemma {:induction false} RunAssignments(node: Node, st: State, elements: seq<StreamElement>,
                                          existing: seq<ExistingMaterial>)
    ensures var r := Run(node, st, elements, existing);
            |r.assignments| == |st.assignments| + HandledCount(node, elements) &&
            r.assignments[..|st.assignments|] == st.assignments &&
            st.shaderNames <= r.shaderNames &&
            |r.shaderNames| == |st.shaderNames| + CreatedCount(node, elements, existing) &&
            forall i :: |st.assignments| <= i < |r.assignments| ==>
              FreshMaterial(node, r.assignments[i], st.shaderNames, r.shaderNames)
    decreases |elements|
  {
    if |elements| > 0 {
      var front := elements[..|elements| - 1];
      var last := elements[|elements| - 1];
      var mid := Run(node, st, front, existing);
      var r := Run(node, st, elements, existing);
      assert r == Step(node, mid, last, existing);
      RunAssignments(node, st, front, existing);
      StepAssignments(node, mid, last, existing);
      assert r.assignments[..|st.assignments|] == r.assignments[..|mid.assignments|][..|st.assignments|];
      forall i | |st.assignments| <= i < |r.assignments|
        ensures FreshMaterial(node, r.assignments[i], st.shaderNames, r.shaderNames)
      {
        if i < |mid.assignments| {
          assert r.assignments[i] == r.assignments[..|mid.assignments|][i] == mid.assignments[i];
          assert FreshMaterial(node, mid.assignments[i], st.shaderNames, mid.shaderNames);
        }
      }
    }
  }

  /** An element equal to an existing generated material <prefix>Sh<k> is
    * assigned to the matching shading group <prefix>Sg<k>, and no name is
    * added. */
  lemma ReuseOfGeneratedMaterial(node: Node, st: State, e: StreamElement, existing: seq<ExistingMaterial>, k: nat)
    requires Handled(node, e)
    requires var m := FirstMatch(existing, e.info);
             m.Some? && existing[m.value].name == Candidate(ShaderPrefix(node), k)
    ensures Step(node, st, e, existing) ==
            State(st.assignments + [AddFaceRange(Candidate(ShadingGroupPrefix(node), k),
                                                 FaceRangeOf(node, e).value.0, FaceRangeOf(node, e).value.1)],
                  st.shaderNames)
  {
    GeneratedShadingGroup(BaseName(node), k);
  }
}

// src/serlio/prtMaterial/PRTMaterialNode.cpp: the stream is turned into one
// MEL script for the StingrayPBS shader.
module PrtMaterialNode {
  import opened Wrappers
  import opened Text
  import opened MaterialNames
  import opened MaterialMatching
  import P = PrtMaterials

  const Declarations: String :=
    "string $sgName;\nstring $shName;\nstring $colormap;\nstring $nodeName;\nint $shadingNodeIndex;\n"
  const ForceElement: String := "sets -forceElement "
  const ShNameAssign: String := "$shName = \""
  const SgNameAssign: String := "$sgName = \""
  const QuoteEnd: String := "\";\n"
  const GroupSetup: String :=
    "sets -empty -renderable true -noSurfaceShader true -name $sgName;\nsetAttr ($shName+\".initgraph\") true;\nconnectAttr -force ($shName + \".outColor\") ($sgName + \".surfaceShader\");\n"
  const NodeIndexLine: String :=
    "$shadingNodeIndex = `shaderfx -sfxnode $shName -getNodeIDByName \"Standard_Base\"`;\n"
  const BlendModeCmd: String := "shaderfx -sfxnode $shName -edit_stringlist $shadingNodeIndex blendmode "
  const ColormapAssign: String := "$colormap = \""
  const NodeNameAssign: String := "$nodeName = $sgName +\""
  const FileNodeLine: String := "shadingNode -asTexture file -n $nodeName -ss;\n"
  const FileTextureLine: String := "setAttr($nodeName + \".fileTextureName\") -type \"string\" $colormap ;\n"
  const ConnectTextureCmd: String := "connectAttr -force ($nodeName + \".outColor\") ($shName + \".TEX_"
  const UseCmd: String := "setAttr ($shName+\".use_"
  const UseOn: String := "\") 1;\n"
  const UseOff: String := "\") 0;\n"

  /** "mesh.f[start:end];\n" */
  function FaceRange(meshName: String, faceStart: int, faceEnd: int): String
  {
    meshName + ".f[" + IntToString(faceStart) + ":" + IntToString(faceEnd) + "];\n"
  }

  /** The line that forces a face range onto an existing shading group. */
  function ReuseLine(shadingGroup: String, meshName: String, faceStart: int, faceEnd: int): (r: String)
    ensures IsPrefix(ForceElement + shadingGroup + " ", r)
  {
    ForceElement + shadingGroup + " " + FaceRange(meshName, faceStart, faceEnd)
  }

  /** The shader's blend mode: opaque ("0") only without an opacity map and
    * with an opacity of at least 1; a NaN opacity is not opaque. */
  function BlendMode(info: P.MaterialInfo): (r: String)
    ensures r == "0" || r == "1"
    ensures r == "0" <==> info.opacityMap == "" && info.opacity.Num? && info.opacity.v >= 1.0
  {
    if info.opacityMap == "" && info.opacity.Num? && info.opacity.v >= 1.0 then "0" else "1"
  }

  /** setTexture: a non-empty texture gets a file node connected to
    * TEX_<target> and use_<target> 1; an empty one only use_<target> 0. */
  function TextureText(target: String, tex: String): String
  {
    if |tex| > 0 then
      ColormapAssign + tex + QuoteEnd +
      (NodeNameAssign + target + QuoteEnd + FileNodeLine + FileTextureLine + ConnectTextureCmd + target + "\");\n") +
      (UseCmd + target + UseOn)
    else
      UseCmd + target + UseOff
  }

  /** A texture is switched on, behind a file node holding its path, exactly
    * when its path is not empty. */
  lemma TextureTextShape(target: String, tex: String)
    ensures |tex| == 0 ==> TextureText(target, tex) == UseCmd + target + UseOff
    ensures |tex| > 0 ==> IsPrefix(ColormapAssign + tex + QuoteEnd, TextureText(target, tex))
    ensures IsSuffix(UseCmd + target + UseOn, TextureText(target, tex)) <==> |tex| > 0
  {
    if |tex| > 0 {
      ConcatEnds(ColormapAssign + tex + QuoteEnd,
                 NodeNameAssign + target + QuoteEnd + FileNodeLine + FileTextureLine + ConnectTextureCmd + target + "\");\n",
                 UseCmd + target + UseOn);
    } else {
      UseLinesDiffer(target);
    }
  }

  lemma UseLinesDiffer(target: String)
    ensures !IsSuffix(UseCmd + target + UseOn, UseCmd + target + UseOff)
  {
    var off := UseCmd + target + UseOff;
    var on := UseCmd + target + UseOn;
    assert off[|off| - 3] == '0' && on[|on| - 3] == '1';
  }

  /** The seven textures the Stingray shader uses, as (target, path), in
    * emission order. */
  function Textures(info: P.MaterialInfo): (r: seq<(String, String)>)
    ensures |r| == 7
  {
    [("color_map", info.colormap), ("dirt_map", info.dirtmap), ("emissive_map", info.emissiveMap),
     ("metallic_map", info.metallicMap), ("normal_map", info.normalMap),
     ("roughness_map", info.roughnessMap), ("opacity_map", info.opacityMap)]
  }

  function TexturesText(textures: seq<(String, String)>): String
    decreases |textures|
  {
    if |textures| == 0 then ""
    else TextureText(textures[0].0, textures[0].1) + TexturesText(textures[1..])
  }

  /** The script of a new material: assign the names, create the shading
    * group and connect the shader, set the blend mode, the attribute lines
    * (whose floating-point text is a parameter), the textures, and finally
    * force the face range onto the new group. */
  function NewMaterialText(shaderName: String, shadingGroupName: String, info: P.MaterialInfo,
                           meshName: String, faceStart: int, faceEnd: int,
                           attributes: P.MaterialInfo -> String): String
  {
    (ShNameAssign + shaderName + QuoteEnd) +
    (SgNameAssign + shadingGroupName + QuoteEnd + GroupSetup + NodeIndexLine +
     BlendModeCmd + BlendMode(info) + ";\n" + attributes(info) + TexturesText(Textures(info))) +
    (ForceElement + "$sgName " + FaceRange(meshName, faceStart, faceEnd))
  }

  /** A new material's script starts by naming its shader and ends by
    * forcing the face range onto the new group. */
  lemma NewMaterialTextEnds(shaderName: String, shadingGroupName: String, info: P.MaterialInfo,
                            meshName: String, faceStart: int, faceEnd: int,
                            attributes: P.MaterialInfo -> String)
    ensures var r := NewMaterialText(shaderName, shadingGroupName, info, meshName, faceStart, faceEnd, attributes);
            IsPrefix(ShNameAssign + shaderName + QuoteEnd, r) &&
            IsSuffix(ForceElement + "$sgName " + FaceRange(meshName, faceStart, faceEnd), r)
  {
    ConcatEnds(ShNameAssign + shaderName + QuoteEnd,
               SgNameAssign + shadingGroupName + QuoteEnd + GroupSetup + NodeIndexLine +
               BlendModeCmd + BlendMode(info) + ";\n" + attributes(info) + TexturesText(Textures(info)),
               ForceElement + "$sgName " + FaceRange(meshName, faceStart, faceEnd));
  }

  lemma ConcatEnds(a: String, b: String, c: String)
    ensures IsPrefix(a, a + b + c) && IsSuffix(c, a + b + c)
  {
    assert (a + b + c)[..|a|] == a;
    assert (a + b + c)[|a + b|..] == c;
  }

  lemma PrefixTransitive(a: String, b: String, c: String)
    requires IsPrefix(a, b) && IsPrefix(b, c)
    ensures IsPrefix(a, c)
  {
    assert c[..|a|] == c[..|b|][..|a|];
  }


  /** The text of one decision: a face range forced onto an existing group,
    * or the script of a new material. */
  function AssignmentText(a: Assignment, meshName: String, attributes: P.MaterialInfo -> String): String
  {
    match a
    case AddFaceRange(group, faceStart, faceEnd) => ReuseLine(group, meshName, faceStart, faceEnd)
    case NewMaterial(info, shaderName, groupName, faceStart, faceEnd) =>
      NewMaterialText(shaderName, groupName, info, meshName, faceStart, faceEnd, attributes)
  }

  /** The renderer compute uses for one mesh. */
  function Render(meshName: String, attributes: P.MaterialInfo -> String): Assignment -> String
  {
    a => AssignmentText(a, meshName, attributes)
  }

  /** The text of a sequence of decisions, in order. */
  function ScriptText(assignments: seq<Assignment>, render: Assignment -> String): String
    decreases |assignments|
  {
    if |assignments| == 0 then ""
    else ScriptText(assignments[..|assignments| - 1], render) + render(assignments[|assignments| - 1])
  }

  /** The script of consecutive decisions is the concatenation of their
    * scripts. */
  lemma {:induction false} ScriptTextAppend(a: seq<Assignment>, b: seq<Assignment>, render: Assignment -> String)
    ensures ScriptText(a + b, render) == ScriptText(a, render) + ScriptText(b, render)
    decreases |b|
  {
    if |b| > 0 {
      var b' := b[..|b| - 1];
      assert (a + b)[..|a + b| - 1] == a + b';
      assert (a + b)[|a + b| - 1] == b[|b| - 1];
      ScriptTextAppend(a, b', render);
    } else {
      assert a + b == a;
    }
  }

  lemma AppendAssociative(a: String, b: String, c: String)
    ensures (a + b) + c == a + (b + c)
  {
  }

  lemma ScriptTextSingle(a: Assignment, render: Assignment -> String)
    ensures ScriptText([a], render) == render(a)
  {
    assert [a][..0] == [];
  }

  /** One step appends exactly the decisions of the same step taken from an
    * empty list. */
  lemma StepAppends(st: State, e: StreamElement, existing: seq<ExistingMaterial>)
    ensures Step(Stingray, st, e, existing).assignments ==
            st.assignments + Step(Stingray, State([], st.shaderNames), e, existing).assignments
    ensures Step(Stingray, st, e, existing).shaderNames ==
            Step(Stingray, State([], st.shaderNames), e, existing).shaderNames
  {
  }

  /** One element, as the loop body of compute handles it: the text it
    * appends is the script of its decision. */
  method ProcessElement(text: String, shaderNames: set<String>, e: StreamElement,
                        existing: seq<ExistingMaterial>, meshName: String,
                        attributes: P.MaterialInfo -> String)
    returns (text': String, shaderNames': set<String>)
    ensures var r := Step(Stingray, State([], shaderNames), e, existing);
            text' == text + ScriptText(r.assignments, Render(meshName, attributes)) &&
            shaderNames' == r.shaderNames
  {
    text', shaderNames' := text, shaderNames;
    if !e.hasData || !e.usesStructure {
      assert text + "" == text;
      return;
    }
    var info := e.info;
    var matching := FindMatchingMaterial(existing, info);
    var faceStart := e.faceStart.GetOr(e.stale);
    var faceEnd := e.faceEnd.GetOr(faceStart);
    if matching.Some? {
      var matName := ShadingGroupOfShader(existing[matching.value].name);
      ghost var a := AddFaceRange(matName, faceStart, faceEnd);
      assert Step(Stingray, State([], shaderNames), e, existing) == State([a], shaderNames);
      ScriptTextSingle(a, Render(meshName, attributes));
      text' := text + ReuseLine(matName, meshName, faceStart, faceEnd);
      return;
    }
    var shIdx := SmallestFreeIndex(shaderNames, ShaderPrefix(Stingray));
    var shaderName := Candidate(ShaderPrefix(Stingray), shIdx);
    var shadingGroupName := Candidate(ShadingGroupPrefix(Stingray), shIdx);
    ghost var a := NewMaterial(info, shaderName, shadingGroupName, faceStart, faceEnd);
    assert Step(Stingray, State([], shaderNames), e, existing) == State([a], shaderNames + {shaderName});
    ScriptTextSingle(a, Render(meshName, attributes));
    shaderNames' := shaderNames + {shaderName};
    text' := text + NewMaterialText(shaderName, shadingGroupName, info, meshName, faceStart, faceEnd, attributes);
  }

  /** The material part of compute: collect the scene's hardware shaders,
    * then walk the stream and build the MEL command, which is the
    * declarations followed by the script of every decision in order. */
  method ShadingCommand(nodes: seq<ShaderNode>, stream: seq<StreamElement>, meshName: String,
                        attributes: P.MaterialInfo -> String)
    returns (shadingCmd: String, shaderNames: set<String>)
    ensures var r := Run(Stingray, State([], ShaderNames(nodes)), stream, ExistingMaterials(nodes));
            shadingCmd == Declarations + ScriptText(r.assignments, Render(meshName, attributes)) &&
            shaderNames == r.shaderNames
  {
    var existing;
    shaderNames, existing := CollectShaderNodes(nodes);
    shadingCmd := Declarations;
    ghost var st := State([], shaderNames);
    for i := 0 to |stream|
      invariant st == Run(Stingray, State([], ShaderNames(nodes)), stream[..i], existing)
      invariant shadingCmd == Declarations + ScriptText(st.assignments, Render(meshName, attributes))
      invariant shaderNames == st.shaderNames
    {
      assert stream[..i + 1][..i] == stream[..i];
      var text', names' := ProcessElement(shadingCmd, shaderNames, stream[i], existing, meshName, attributes);
      ghost var one := Step(Stingray, State([], st.shaderNames), stream[i], existing);
      StepAppends(st, stream[i], existing);
      ScriptTextAppend(st.assignments, one.assignments, Render(meshName, attributes));
      AppendAssociative(Declarations, ScriptText(st.assignments, Render(meshName, attributes)),
                        ScriptText(one.assignments, Render(meshName, attributes)));
      st := Step(Stingray, st, stream[i], existing);
      shadingCmd, shaderNames := text', names';
    }
    assert stream[..|stream|] == stream;
  }
}

// src/serlio/prtMaterial/ArnoldMaterialNode.cpp: the same matching and
// naming; face ranges go through the script builder and new materials
// through buildMaterialShaderScript.
module ArnoldMaterialNode {
  import opened Wrappers
  import opened Text
  import opened MaterialNames
  import opened MaterialMatching
  import P = PrtMaterials
  import L = LegacyMelScriptBuilder

  /** The builder command of a face-range decision. */
  function FaceRangeCommand(a: Assignment, meshName: String): (c: L.LegacyCommand)
    requires a.AddFaceRange?
    ensures L.WellFormed(c) && c.SetsAddFaceRange? && c.setName == a.shadingGroup
  {
    L.SetsAddFaceRange(a.shadingGroup, meshName, a.faceStart, a.faceEnd)
  }

  /** One element, as the loop body of compute handles it; the match is
    * looked up before the face range members are checked. */
  method ProcessElement(assignments: seq<Assignment>, shaderNames: set<String>, e: StreamElement,
                        existing: seq<ExistingMaterial>)
    returns (assignments': seq<Assignment>, shaderNames': set<String>)
    ensures State(assignments', shaderNames') == Step(Arnold, State(assignments, shaderNames), e, existing)
  {
    assignments', shaderNames' := assignments, shaderNames;
    if !e.hasData || !e.usesStructure {
      return;
    }
    var info := e.info;
    var matching := FindMatchingMaterial(existing, info);
    if e.faceStart.None? || e.faceEnd.None? {
      return;
    }
    if matching.Some? {
      var matchingMaterialName := ShadingGroupOfShader(existing[matching.value].name);
      assignments' := assignments + [AddFaceRange(matchingMaterialName, e.faceStart.value, e.faceEnd.value)];
      return;
    }
    var shIdx := SmallestFreeIndex(shaderNames, ShaderPrefix(Arnold));
    var shaderName := Candidate(ShaderPrefix(Arnold), shIdx);
    shaderNames' := shaderNames + {shaderName};
    assignments' := assignments + [NewMaterial(info, shaderName, Candidate(ShadingGroupPrefix(Arnold), shIdx),
                                               e.faceStart.value, e.faceEnd.value)];
  }

  /** The material part of compute. */
  method MaterialAssignments(nodes: seq<ShaderNode>, stream: seq<StreamElement>)
    returns (assignments: seq<Assignment>, shaderNames: set<String>)
    ensures State(assignments, shaderNames) == Run(Arnold, State([], ShaderNames(nodes)), stream, ExistingMaterials(nodes))
  {
    var existing;
    shaderNames, existing := CollectShaderNodes(nodes);
    assignments := [];
    for i := 0 to |stream|
      invariant State(assignments, shaderNames) == Run(Arnold, State([], ShaderNames(nodes)), stream[..i], existing)
    {
      assert stream[..i + 1][..i] == stream[..i];
      assignments, shaderNames := ProcessElement(assignments, shaderNames, stream[i], existing);
    }
    assert stream[..|stream|] == stream;
  }
}
