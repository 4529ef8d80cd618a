// The creation and pruning of rule attributes on the modifier node
// (src/serlio/modifiers/PRTModifierAction.cpp, createNodeAttributes and
// removeUnusedAttribs): the annotation that decides how an attribute is
// shown, the kind of Maya attribute each rule attribute of the "Default"
// style gets, and which dynamic attributes are deleted afterwards.

module ModifierAttributes {
  import opened Wrappers
  import opened Text
  import opened RuleInfo
  import Utilities
  import RA = RuleAttributes
  import MA = ModifierAction
  import EV = EnumValues
  import M = Materials

  /** The only style the plug-in shows. */
  const RuleStyle: String := "Default"
  const MinKey: String := "min"
  const MaxKey: String := "max"
  const AllFiles: String := "All Files (*.*)"

  // ---------------------------------------------------------------------
  // removeUnusedAttribs
  // ---------------------------------------------------------------------

  /** The attributes of attrs for which keep holds, in order. */
  function Select(attrs: seq<MA.NodeAttribute>, keep: MA.NodeAttribute -> bool): (r: seq<MA.NodeAttribute>)
    ensures forall a :: a in r <==> a in attrs && keep(a)
    ensures |r| <= |attrs|
  {
    if |attrs| == 0 then []
    else
      var prev := Select(attrs[..|attrs| - 1], keep);
      var a := attrs[|attrs| - 1];
      assert attrs == attrs[..|attrs| - 1] + [a];
      if keep(a) then prev + [a] else prev
  }

  /** The channels of every dynamic colour attribute, hidden or not. */
  function ColorChildren(attrs: seq<MA.NodeAttribute>): (r: seq<String>)
    ensures forall c :: c in r <==>
      exists i :: 0 <= i < |attrs| && attrs[i].dynamic && attrs[i].usedAsColor && c in attrs[i].children
  {
    if |attrs| == 0 then []
    else
      var a := attrs[|attrs| - 1];
      var prev := ColorChildren(attrs[..|attrs| - 1]);
      assert forall i :: 0 <= i < |attrs| - 1 ==> attrs[..|attrs| - 1][i] == attrs[i];
      if a.dynamic && a.usedAsColor then prev + a.children else prev
  }

  /** A dynamic attribute whose name no rule attribute uses. */
  function Unused(inUse: String -> bool): MA.NodeAttribute -> bool
  {
    (a: MA.NodeAttribute) => a.dynamic && !inUse(a.name)
  }

  /** An attribute that is not one of the given colour channels. */
  function NotIgnored(ignore: seq<String>): MA.NodeAttribute -> bool
  {
    (a: MA.NodeAttribute) => a.name !in ignore
  }

  /** The attributes removeUnusedAttribs deletes, in node order: the unused
    * dynamic attributes that are not channels of a dynamic colour attribute. */
  function Removed(attrs: seq<MA.NodeAttribute>, inUse: String -> bool): seq<MA.NodeAttribute>
  {
    Select(Select(attrs, Unused(inUse)), NotIgnored(ColorChildren(attrs)))
  }

  /** The scan: one pass collecting the unused dynamic attributes and the
    * colour channels, then the removal list without the channels. */
  method AttributesToRemove(attrs: seq<MA.NodeAttribute>, inUse: String -> bool) returns (removed: seq<MA.NodeAttribute>)
    ensures removed == Removed(attrs, inUse)
  {
    var unused: seq<MA.NodeAttribute> := [];
    var ignore: seq<String> := [];
    var isUnused := Unused(inUse);
    for i := 0 to |attrs|
      invariant unused == Select(attrs[..i], isUnused)
      invariant ignore == ColorChildren(attrs[..i])
    {
      assert attrs[..i + 1][..i] == attrs[..i];
      var a := attrs[i];
      if a.dynamic && a.usedAsColor {
        ignore := ignore + a.children;
      }
      if isUnused(a) {
        unused := unused + [a];
      }
    }
    assert attrs[..|attrs|] == attrs;
    var notIgnored := NotIgnored(ignore);
    removed := [];
    for j := 0 to |unused|
      invariant removed == Select(unused[..j], notIgnored)
    {
      assert unused[..j + 1][..j] == unused[..j];
      if notIgnored(unused[j]) {
        removed := removed + [unused[j]];
      }
    }
    assert unused[..|unused|] == unused;
  }

  /** n is the attribute name itself or one of its two flag names. */
  predicate NamesAttribute(n: String, fullName: String)
  {
    n == fullName || n == MA.UserSetName(fullName) || n == MA.ForceDefaultName(fullName)
  }

  /** The newer action's use test: the name is some rule attribute's Maya
    * full name, or that name with the user-set or force-default suffix. */
  function InUse(ruleAttrs: seq<RA.RuleAttribute>): String -> bool
  {
    n => exists i :: 0 <= i < |ruleAttrs| && NamesAttribute(n, ruleAttrs[i].mayaFullName)
  }

  /** A node attribute survives the pruning iff it is static, is in use, or
    * is a channel of a dynamic colour attribute. */
  lemma KeptIff(attrs: seq<MA.NodeAttribute>, ruleAttrs: seq<RA.RuleAttribute>, a: MA.NodeAttribute)
    requires a in attrs
    ensures a !in Removed(attrs, InUse(ruleAttrs)) <==>
      !a.dynamic || InUse(ruleAttrs)(a.name) ||
      exists i :: 0 <= i < |attrs| && attrs[i].dynamic && attrs[i].usedAsColor && a.name in attrs[i].children
  {
  }

  /** removeUnusedAttribs of either plug-in, given its use test: the unused
    * attributes leave the node, with their values and flags. */
  method RemoveUnusedAttribs(node: MA.ModifierNode, inUse: String -> bool)
    modifies node
    ensures var removed := Removed(old(node.attributes), inUse);
            var names := set a | a in removed :: a.name;
            node.attributes == Select(old(node.attributes), a => a !in removed) &&
            node.values == old(node.values) - names &&
            node.flags == old(node.flags) - names
  {
    var removed := AttributesToRemove(node.attributes, inUse);
    var names := set a | a in removed :: a.name;
    node.attributes := Select(node.attributes, a => a !in removed);
    node.values := node.values - names;
    node.flags := node.flags - names;
  }

  // ---------------------------------------------------------------------
  // Attribute traits
  // ---------------------------------------------------------------------

  /** How an attribute is shown, with what its annotation carries. */
  datatype Trait =
    | EnumTrait(annot: Annotation)
    | RangeTrait(annot: Annotation)
    | ColorTrait
    | DirTrait
    | FileTrait(exts: String)
    | PlainTrait

  /** One entry of a file filter: "ext (*.ext)" and the closing text, ");"
    * here and ");;" in the older plug-in. */
  function FilterEntry(ext: String, close: String): String
  {
    ext + " (*." + ext + close
  }

  /** The entries of the @File annotation's string arguments, in order; a
    * null string argument counts as empty. */
  function FilterEntries(args: seq<AnnotationArg>, close: String): String
  {
    if |args| == 0 then []
    else
      var prev := FilterEntries(args[..|args| - 1], close);
      match args[|args| - 1].value
      case StrArg(s) => prev + FilterEntry(s.GetOr(""), close)
      case _ => prev
  }

  /** The file filter of a @File annotation: its entries, then "All Files". */
  function FileFilter(args: seq<AnnotationArg>): (r: String)
    ensures IsSuffix(AllFiles, r)
    ensures (forall i :: 0 <= i < |args| ==> !args[i].value.StrArg?) ==> r == AllFiles
  {
    FilterEntriesEmpty(args, ");");
    FilterEntries(args, ");") + AllFiles
  }

  lemma {:induction false} FilterEntriesEmpty(args: seq<AnnotationArg>, close: String)
    ensures (forall i :: 0 <= i < |args| ==> !args[i].value.StrArg?) ==> FilterEntries(args, close) == []
    decreases |args|
  {
    if |args| > 0 {
      FilterEntriesEmpty(args[..|args| - 1], close);
      assert forall i :: 0 <= i < |args| - 1 ==> args[..|args| - 1][i] == args[i];
    }
  }

  /** The loop building the file filter. */
  method FileExtensions(args: seq<AnnotationArg>) returns (exts: String)
    ensures exts == FileFilter(args)
  {
    exts := [];
    for arg := 0 to |args|
      invariant exts == FilterEntries(args[..arg], ");")
    {
      assert args[..arg + 1][..arg] == args[..arg];
      if args[arg].value.StrArg? {
        var s := args[arg].value.str.GetOr("");
        exts := exts + s + " (*." + s + ");";
      }
    }
    assert args[..|args|] == args;
    exts := exts + AllFiles;
  }

  /** The trait an annotation names, None for any other annotation. */
  function AnnotationTrait(an: Annotation): Option<Trait>
  {
    if an.name == RA.AnnotEnum then Some(EnumTrait(an))
    else if an.name == RA.AnnotRange then Some(RangeTrait(an))
    else if an.name == RA.AnnotColor then Some(ColorTrait)
    else if an.name == RA.AnnotDir then Some(DirTrait)
    else if an.name == RA.AnnotFile then Some(FileTrait(FileFilter(an.args)))
    else None
  }

  /** The first annotation naming a trait. */
  function FirstTrait(annots: seq<Annotation>): Option<Trait>
  {
    if |annots| == 0 then None
    else if AnnotationTrait(annots[0]).Some? then AnnotationTrait(annots[0])
    else FirstTrait(annots[1..])
  }

  /** detectAttributeTrait: the first trait-naming annotation of the first
    * attribute entry called `key` that has one; PLAIN otherwise. */
  function DetectTrait(entries: seq<Entry>, key: String): (r: Trait)
    ensures (forall i :: 0 <= i < |entries| ==> entries[i].name != key) ==> r == PlainTrait
  {
    if |entries| == 0 then PlainTrait
    else if entries[0].name == key && FirstTrait(entries[0].annotations).Some? then FirstTrait(entries[0].annotations).value
    else
      assert forall i :: 1 <= i < |entries| ==> entries[1..][i - 1] == entries[i];
      DetectTrait(entries[1..], key)
  }

  /** The search over the attribute's annotations, returning at the first
    * one that names a trait. */
  method TraitOfAnnotations(annots: seq<Annotation>) returns (tr: Option<Trait>)
    ensures tr == FirstTrait(annots)
  {
    for a := 0 to |annots|
      invariant FirstTrait(annots[a..]) == FirstTrait(annots)
    {
      assert annots[a..][1..] == annots[a + 1..];
      var an := annots[a];
      if an.name == RA.AnnotEnum {
        return Some(EnumTrait(an));
      } else if an.name == RA.AnnotRange {
        return Some(RangeTrait(an));
      } else if an.name == RA.AnnotColor {
        return Some(ColorTrait);
      } else if an.name == RA.AnnotDir {
        return Some(DirTrait);
      } else if an.name == RA.AnnotFile {
        var exts := FileExtensions(an.args);
        return Some(FileTrait(exts));
      }
    }
    tr := None;
  }

  /** detectAttributeTrait. */
  method DetectAttributeTrait(info: RuleFileInfo, key: String) returns (tr: Trait)
    ensures tr == DetectTrait(info.attributes, key)
  {
    var entries := info.attributes;
    for ai := 0 to |entries|
      invariant DetectTrait(entries[ai..], key) == DetectTrait(entries, key)
    {
      assert entries[ai..][1..] == entries[ai + 1..];
      if entries[ai].name != key {
        continue;
      }
      var found := TraitOfAnnotations(entries[ai].annotations);
      if found.Some? {
        return found.value;
      }
    }
    tr := PlainTrait;
  }

  // ---------------------------------------------------------------------
  // The node attribute of a rule attribute
  // ---------------------------------------------------------------------

  /** getFloat of an annotation argument, 0 for an argument of another type. */
  function ArgDouble(v: ArgValue): real
  {
    if v.FloatArg? then v.f else 0.0
  }

  /** The bounds of a @Range annotation: the last "min" and "max" arguments,
    * NaN for a bound it does not give. */
  function RangeBounds(args: seq<AnnotationArg>): (r: (M.Double, M.Double))
    ensures (forall i :: 0 <= i < |args| ==> args[i].key != MinKey) ==> r.0 == M.NaN
    ensures (forall i :: 0 <= i < |args| ==> args[i].key != MaxKey) ==> r.1 == M.NaN
  {
    if |args| == 0 then (M.NaN, M.NaN)
    else
      var prev := RangeBounds(args[..|args| - 1]);
      var arg := args[|args| - 1];
      assert forall i :: 0 <= i < |args| - 1 ==> args[..|args| - 1][i] == args[i];
      if arg.key == MinKey then (M.Num(ArgDouble(arg.value)), prev.1)
      else if arg.key == MaxKey then (prev.0, M.Num(ArgDouble(arg.value)))
      else prev
  }

  /** tryParseRangeAnnotation. */
  method TryParseRangeAnnotation(an: Annotation) returns (minMax: (M.Double, M.Double))
    ensures minMax == RangeBounds(an.args)
  {
    minMax := (M.NaN, M.NaN);
    for argIdx := 0 to |an.args|
      invariant minMax == RangeBounds(an.args[..argIdx])
    {
      assert an.args[..argIdx + 1][..argIdx] == an.args[..argIdx];
      var arg := an.args[argIdx];
      if arg.key == MinKey {
        minMax := (M.Num(ArgDouble(arg.value)), minMax.1);
      } else if arg.key == MaxKey {
        minMax := (minMax.0, M.Num(ArgDouble(arg.value)));
      }
    }
    assert an.args[..|an.args|] == an.args;
  }

  /** The Maya attribute a rule attribute gets, with its default. */
  datatype Parameter =
    | BoolParameter(flag: bool)
    | EnumParameter(annot: Annotation, default: EV.EnumDefault)
    | FloatParameter(number: real, min: M.Double, max: M.Double)
    | FileParameter(value: String, exts: String)
    | ColorParameter(value: String)
    | StrParameter(value: String)

  /** A plain string default of seven characters starting with '#' is shown
    * as a colour. */
  function StringTrait(tr: Trait, value: String): (r: Trait)
    ensures tr != PlainTrait ==> r == tr
  {
    if tr == PlainTrait && |value| == 7 && value[0] == '#' then ColorTrait else tr
  }

  /** The dispatch on the default's primitive type and the trait: None where
    * the source warns or the default has another type. */
  function ParameterFor(generated: AttributeMap, fqName: String, tr: Trait): Option<Parameter>
  {
    if fqName !in generated then None
    else match generated[fqName]
      case BoolValue(b) =>
        if tr.EnumTrait? then Some(EnumParameter(tr.annot, EV.BoolDefault(b))) else Some(BoolParameter(b))
      case FloatValue(x) =>
        (match tr
         case EnumTrait(an) => Some(EnumParameter(an, EV.FloatDefault(x)))
         case RangeTrait(an) => Some(FloatParameter(x, RangeBounds(an.args).0, RangeBounds(an.args).1))
         case PlainTrait => Some(FloatParameter(x, M.NaN, M.NaN))
         case _ => None)
      case StringValue(s) =>
        (match StringTrait(tr, s)
         case EnumTrait(an) => Some(EnumParameter(an, EV.StringDefault(s)))
         case FileTrait(exts) => Some(FileParameter(s, exts))
         case DirTrait => Some(FileParameter(s, ""))
         case ColorTrait => Some(ColorParameter(s))
         case PlainTrait => Some(StrParameter(s))
         case RangeTrait(_) => None)
      case _ => None
  }

  /** A plain string attribute whose default looks like "#RRGGBB" becomes a
    * colour attribute; any other plain string stays a string. */
  lemma HexStringIsColor(generated: AttributeMap, fqName: String)
    requires fqName in generated && generated[fqName].StringValue?
    ensures var s := generated[fqName].s;
            ParameterFor(generated, fqName, PlainTrait) ==
              if |s| == 7 && s[0] == '#' then Some(ColorParameter(s)) else Some(StrParameter(s))
  {
  }

  /** A boolean attribute is an enum exactly when @Enum is its trait;
    * booleans never fail to get an attribute. */
  lemma BoolAlwaysShown(generated: AttributeMap, fqName: String, tr: Trait)
    requires fqName in generated && generated[fqName].BoolValue?
    ensures var p := ParameterFor(generated, fqName, tr);
            p.Some? && (p.value.EnumParameter? <==> tr.EnumTrait?)
  {
  }

  /** p is a rule attribute of the "Default" style and gets param. */
  predicate Shown(ruleAttrs: seq<RA.RuleAttribute>, generated: AttributeMap, info: RuleFileInfo,
                  p: RA.RuleAttribute, param: Parameter)
  {
    p in ruleAttrs && Utilities.GetStyle(p.fqName) == RuleStyle &&
    ParameterFor(generated, p.fqName, DetectTrait(info.attributes, p.fqName)) == Some(param)
  }

  /** createNodeAttributes over the sorted rule attributes, as a
    * specification: the attributes of the "Default" style with the
    * parameter each gets. */
  function CreatedParameters(ruleAttrs: seq<RA.RuleAttribute>, generated: AttributeMap, info: RuleFileInfo)
    : (r: seq<(RA.RuleAttribute, Parameter)>)
    ensures forall k :: 0 <= k < |r| ==> Shown(ruleAttrs, generated, info, r[k].0, r[k].1)
  {
    if |ruleAttrs| == 0 then []
    else
      var prev := CreatedParameters(ruleAttrs[..|ruleAttrs| - 1], generated, info);
      var p := ruleAttrs[|ruleAttrs| - 1];
      assert forall x :: x in ruleAttrs[..|ruleAttrs| - 1] ==> x in ruleAttrs;
      if Utilities.GetStyle(p.fqName) != RuleStyle then prev
      else match ParameterFor(generated, p.fqName, DetectTrait(info.attributes, p.fqName))
        case Some(param) => prev + [(p, param)]
        case None => prev
  }

  /** Conversely, every "Default"-style rule attribute that gets a
    * parameter is among the created ones. */
  lemma {:induction false} CreatedParametersComplete(ruleAttrs: seq<RA.RuleAttribute>, generated: AttributeMap,
                                                     info: RuleFileInfo, p: RA.RuleAttribute, param: Parameter)
    requires Shown(ruleAttrs, generated, info, p, param)
    ensures (p, param) in CreatedParameters(ruleAttrs, generated, info)
    decreases |ruleAttrs|
  {
    var last := |ruleAttrs| - 1;
    if ruleAttrs[last] != p {
      assert ruleAttrs == ruleAttrs[..last] + [ruleAttrs[last]];
      assert p in ruleAttrs[..last];
      CreatedParametersComplete(ruleAttrs[..last], generated, info, p, param);
    }
  }

  /** createNodeAttributes: the parameters of the rule attributes in order,
    * skipping other styles. */
  method CreateNodeAttributes(ruleAttrs: seq<RA.RuleAttribute>, generated: AttributeMap, info: RuleFileInfo)
    returns (created: seq<(RA.RuleAttribute, Parameter)>)
    ensures created == CreatedParameters(ruleAttrs, generated, info)
  {
    created := [];
    for i := 0 to |ruleAttrs|
      invariant created == CreatedParameters(ruleAttrs[..i], generated, info)
    {
      assert ruleAttrs[..i + 1][..i] == ruleAttrs[..i];
      var p := ruleAttrs[i];
      var style := Utilities.GetStyle(p.fqName);
      if style != RuleStyle {
        continue;
      }
      var tr := DetectAttributeTrait(info, p.fqName);
      var param := ParameterFor(generated, p.fqName, tr);
      if param.Some? {
        created := created + [(p, param.value)];
      }
    }
    assert ruleAttrs[..|ruleAttrs|] == ruleAttrs;
  }
}
