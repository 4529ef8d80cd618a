// The rule attribute handling of the older modifier generation
// (src/serlio/prtModifier/PRTModifierAction.cpp): the Maya names of a rule
// attribute, the brief-name table the action keeps, the node attributes it
// creates, the attribute map it fills from the node (only values that differ
// from the rule's defaults), and the pruning of unused attributes.

module PrtModifierAction {
  import opened Wrappers
  import opened Text
  import opened RuleInfo
  import Utilities
  import MayaUtilities
  import RA = RuleAttributes
  import PRA = PrtRuleAttributes
  import MA = ModifierAction
  import MAttr = ModifierAttributes
  import EV = EnumValues
  import M = Materials

  const Prt: String := "PRT"

  // ---------------------------------------------------------------------
  // Names
  // ---------------------------------------------------------------------

  /** MString::indexW: the first index of c, -1 without one. */
  function IndexW(s: String, c: char): (r: int)
    ensures -1 <= r < |s|
    ensures r == -1 <==> c !in s
    ensures r >= 0 ==> s[r] == c && c !in s[..r]
  {
    match FirstOf(s, {c})
    case None => -1
    case Some(i) => i
  }

  /** MString::rindexW: the last index of c, -1 without one. */
  function RIndexW(s: String, c: char): (r: int)
    ensures -1 <= r < |s|
    ensures r == -1 <==> c !in s
    ensures r >= 0 ==> s[r] == c && c !in s[r + 1..]
  {
    match LastOf(s, {c})
    case None => -1
    case Some(i) => i
  }

  /** longName: "PRT" and the cleaned rule attribute name. */
  function LongName(attrName: String): (r: String)
    ensures IsPrefix(Prt, r) && r[|Prt|..] == MayaUtilities.CleanId(attrName)
  {
    Prt + MayaUtilities.CleanId(attrName)
  }

  /** Two rule attributes share a long name exactly when their cleaned
    * names agree. */
  lemma LongNameCollides(a: String, b: String)
    ensures LongName(a) == LongName(b) <==> MayaUtilities.CleanId(a) == MayaUtilities.CleanId(b)
  {
    if LongName(a) == LongName(b) {
      assert LongName(a)[|Prt|..] == LongName(b)[|Prt|..];
    }
  }

  /** briefName: the cleaned name after the first '$', the style. It is the
    * cleaned name without its style in the sense of the newer plug-in's
    * removeStyle. */
  function BriefName(attrName: String): (r: String)
    ensures r == MayaUtilities.CleanId(Utilities.RemoveStyle(attrName))
  {
    MayaUtilities.CleanId(attrName[IndexW(attrName, '$') + 1..])
  }

  /** niceName: the cleaned name after the style and after the last '.', the
    * import prefix. */
  function NiceName(attrName: String): (r: String)
    ensures '.' !in attrName ==> r == BriefName(attrName)
  {
    MayaUtilities.CleanId(attrName[NiceCut(attrName) + 1..])
  }

  /** std::max of the style's '$' and the import's last '.'. */
  function NiceCut(attrName: String): (cut: int)
    ensures IndexW(attrName, '$') <= cut < |attrName|
    ensures '.' !in attrName ==> cut == IndexW(attrName, '$')
  {
    var i := IndexW(attrName, '$');
    var j := RIndexW(attrName, '.');
    if i < j then j else i
  }

  /** Cleaning commutes with dropping a prefix. */
  lemma CleanIdTail(s: String, k: nat)
    requires k <= |s|
    ensures MayaUtilities.CleanId(s[k..]) == MayaUtilities.CleanId(s)[k..]
  {
  }

  /** The nice name is a tail of the brief name. */
  lemma NiceNameOfBriefName(attrName: String)
    ensures IsSuffix(NiceName(attrName), BriefName(attrName))
  {
    CleanIdLaterSuffix(attrName, IndexW(attrName, '$'), NiceCut(attrName));
  }

  /** Cleaning the text after a later cut gives a suffix of cleaning the
    * text after an earlier one. */
  lemma CleanIdLaterSuffix(s: String, i: int, j: int)
    requires -1 <= i <= j < |s|
    ensures IsSuffix(MayaUtilities.CleanId(s[j + 1..]), MayaUtilities.CleanId(s[i + 1..]))
  {
    var rest := s[i + 1..];
    assert s[j + 1..] == rest[j - i..];
    CleanIdTail(rest, j - i);
  }

  // ---------------------------------------------------------------------
  // Reading the node
  // ---------------------------------------------------------------------

  /** A plug of the node: its brief (partial) name, whether it is dynamic,
    * and what it holds. */
  datatype Plug = Plug(briefName: String, dynamic: bool, value: MA.PlugValue)

  /** std::map::operator[] on the brief-name table: the mapped name, and
    * the empty name for a brief name the table lacks. */
  function Lookup(table: map<String, String>, key: String): String
  {
    if key in table then table[key] else ""
  }

  /** The table after looking up the given brief names: every missing one
    * is inserted with the empty name. */
  function Touched(table: map<String, String>, plugs: seq<Plug>): (r: map<String, String>)
    ensures forall k :: k in table ==> k in r && r[k] == table[k]
    ensures forall k :: Lookup(r, k) == Lookup(table, k)
    ensures forall k :: k in r <==> k in table || exists i :: 0 <= i < |plugs| && plugs[i].dynamic && plugs[i].briefName == k
  {
    if |plugs| == 0 then table
    else
      var prev := Touched(table, plugs[..|plugs| - 1]);
      var p := plugs[|plugs| - 1];
      assert forall i :: 0 <= i < |plugs| - 1 ==> plugs[..|plugs| - 1][i] == plugs[i];
      if p.dynamic && p.briefName !in prev then prev[p.briefName := ""] else prev
  }

  /** getRuleAttributeType: the return type of the first entry with that
    * name, unknown without one. */
  function RuleAttributeType(entries: seq<Entry>, name: String): (r: AttrType)
    ensures (forall i :: 0 <= i < |entries| ==> entries[i].name != name) ==> r == OtherType
    ensures |entries| > 0 && entries[0].name == name ==> r == entries[0].returnType
  {
    if |entries| == 0 then OtherType
    else if entries[0].name == name then entries[0].returnType
    else
      assert forall i :: 1 <= i < |entries| ==> entries[1..][i - 1] == entries[i];
      RuleAttributeType(entries[1..], name)
  }

  /** The entry a plug contributes: its value when it differs from the
    * rule's default; an enum contributes when its index is not the default
    * index, as its field converted by the rule attribute's type. */
  function ChangedValue(v: MA.PlugValue, name: String, defaults: AttributeMap, ruleType: AttrType,
                        asDouble: String -> real, asInt: String -> int): (r: Option<PrtValue>)
    ensures v.BoolPlug? ==> (r.Some? <==> v.flag != GetBool(defaults, name))
    ensures v.FloatPlug? ==> (r.Some? <==> v.x != GetFloat(defaults, name))
    ensures v.StringPlug? ==> (r.Some? <==> v.s != MA.DefaultString(defaults, name))
    ensures v.ColorPlug? ==> (r.Some? <==> Utilities.ColorString(v.red, v.green, v.blue) != MA.DefaultString(defaults, name))
    ensures v.EnumPlug? ==> r == if v.index == v.defaultIndex then None else MA.FilledValue(v, ruleType, asDouble, asInt)
    ensures r.Some? ==> r == MA.FilledValue(v, ruleType, asDouble, asInt)
  {
    match v
    case BoolPlug(b) => if b != GetBool(defaults, name) then Some(BoolValue(b)) else None
    case FloatPlug(x) => if x != GetFloat(defaults, name) then Some(FloatValue(x)) else None
    case ColorPlug(red, green, blue) =>
      var colStr := Utilities.ColorString(red, green, blue);
      if colStr != MA.DefaultString(defaults, name) then Some(StringValue(colStr)) else None
    case StringPlug(s) => if s != MA.DefaultString(defaults, name) then Some(StringValue(s)) else None
    case EnumPlug(i, di, _) => if i != di then MA.FilledValue(v, ruleType, asDouble, asInt) else None
    case OtherPlug => None
  }

  /** What one plug writes, by the rule attribute name it maps to. */
  function PlugEntry(table: map<String, String>, p: Plug, defaults: AttributeMap, entries: seq<Entry>,
                     asDouble: String -> real, asInt: String -> int): Option<(String, PrtValue)>
  {
    if !p.dynamic then None
    else
      var name := Lookup(table, p.briefName);
      match ChangedValue(p.value, name, defaults, RuleAttributeType(entries, name), asDouble, asInt)
      case Some(x) => Some((name, x))
      case None => None
  }

  /** fillAttributesFromNode as a specification: the changed values of the
    * dynamic plugs, later plugs overwriting earlier ones. */
  function ChangedAttributes(table: map<String, String>, plugs: seq<Plug>, defaults: AttributeMap, entries: seq<Entry>,
                             asDouble: String -> real, asInt: String -> int): (r: AttributeMap)
    ensures (forall i :: 0 <= i < |plugs| ==> !plugs[i].dynamic) ==> r == map[]
    decreases |plugs|
  {
    if |plugs| == 0 then map[]
    else
      var prev := ChangedAttributes(table, plugs[..|plugs| - 1], defaults, entries, asDouble, asInt);
      match PlugEntry(table, plugs[|plugs| - 1], defaults, entries, asDouble, asInt)
      case Some(e) => prev[e.0 := e.1]
      case None => prev
  }

  /** A rule attribute is in the filled map exactly when some dynamic plug
    * maps to it and holds a value other than its default. */
  lemma {:induction false} ChangedAttributesKeys(table: map<String, String>, plugs: seq<Plug>, defaults: AttributeMap,
                                                 entries: seq<Entry>, asDouble: String -> real, asInt: String -> int, key: String)
    ensures key in ChangedAttributes(table, plugs, defaults, entries, asDouble, asInt) <==>
      exists i :: 0 <= i < |plugs| && PlugEntry(table, plugs[i], defaults, entries, asDouble, asInt).Some? &&
                  PlugEntry(table, plugs[i], defaults, entries, asDouble, asInt).value.0 == key
    decreases |plugs|
  {
    if |plugs| > 0 {
      var last := |plugs| - 1;
      var init := plugs[..last];
      ChangedAttributesKeys(table, init, defaults, entries, asDouble, asInt, key);
      assert forall i :: 0 <= i < last ==> init[i] == plugs[i];
      if key in ChangedAttributes(table, plugs, defaults, entries, asDouble, asInt) {
        if key !in ChangedAttributes(table, init, defaults, entries, asDouble, asInt) {
          assert PlugEntry(table, plugs[last], defaults, entries, asDouble, asInt).Some?;
        }
      } else {
        forall i | 0 <= i < |plugs| && PlugEntry(table, plugs[i], defaults, entries, asDouble, asInt).Some?
          ensures PlugEntry(table, plugs[i], defaults, entries, asDouble, asInt).value.0 != key
        {
          if i < last {
            assert init[i] == plugs[i];
          }
        }
      }
    }
  }

  /** A node whose plugs all hold the rule's defaults sends no attribute at
    * all: the generated model then follows the rule alone. */
  lemma DefaultsSendNothing(table: map<String, String>, plugs: seq<Plug>, defaults: AttributeMap,
                            entries: seq<Entry>, asDouble: String -> real, asInt: String -> int)
    requires forall i :: 0 <= i < |plugs| ==> PlugEntry(table, plugs[i], defaults, entries, asDouble, asInt).None?
    ensures ChangedAttributes(table, plugs, defaults, entries, asDouble, asInt) == map[]
  {
    forall key | key in ChangedAttributes(table, plugs, defaults, entries, asDouble, asInt)
      ensures false
    {
      ChangedAttributesKeys(table, plugs, defaults, entries, asDouble, asInt, key);
    }
  }

  // ---------------------------------------------------------------------
  // Creating the node attributes
  // ---------------------------------------------------------------------

  /** The table after recording every attribute's name under `key` of that
    * name, in order: a later attribute overwrites an earlier one. */
  function RecordUnder(key: String -> String, table: map<String, String>, sorted: seq<PRA.AttributeProperties>): (r: map<String, String>)
    ensures table.Keys <= r.Keys
    ensures forall j :: 0 <= j < |sorted| ==> key(sorted[j].name) in r
    decreases |sorted|
  {
    if |sorted| == 0 then table
    else
      var p := sorted[|sorted| - 1];
      RecordUnder(key, table, sorted[..|sorted| - 1])[key(p.name) := p.name]
  }

  lemma {:induction false} RecordUnderLast(key: String -> String, table: map<String, String>,
                                           sorted: seq<PRA.AttributeProperties>, i: nat)
    requires i < |sorted|
    requires forall j :: i < j < |sorted| ==> key(sorted[j].name) != key(sorted[i].name)
    ensures Lookup(RecordUnder(key, table, sorted), key(sorted[i].name)) == sorted[i].name
    decreases |sorted|
  {
    var last := |sorted| - 1;
    var init := sorted[..last];
    if i < last {
      assert init[i] == sorted[i];
      forall j | i < j < |init|
        ensures key(init[j].name) != key(init[i].name)
      {
        assert init[j] == sorted[j];
      }
      RecordUnderLast(key, table, init, i);
    }
  }

  lemma {:induction false} RecordUnderElsewhere(key: String -> String, table: map<String, String>,
                                                sorted: seq<PRA.AttributeProperties>, k: String)
    requires forall j :: 0 <= j < |sorted| ==> key(sorted[j].name) != k
    ensures Lookup(RecordUnder(key, table, sorted), k) == Lookup(table, k)
    decreases |sorted|
  {
    if |sorted| > 0 {
      RecordUnderElsewhere(key, table, sorted[..|sorted| - 1], k);
    }
  }

  /** The table after createNodeAttributes recorded the given attributes:
    * each brief name maps to the last attribute that has it. */
  function Recorded(table: map<String, String>, sorted: seq<PRA.AttributeProperties>): (r: map<String, String>)
    ensures table.Keys <= r.Keys
    ensures forall j :: 0 <= j < |sorted| ==> BriefName(sorted[j].name) in r
  {
    RecordUnder(BriefName, table, sorted)
  }

  /** The table maps the brief name of a created attribute back to it when
    * no later attribute shares the brief name, so fillAttributesFromNode
    * finds the rule attribute of each plug the action made. */
  lemma RecordedRoundTrip(table: map<String, String>, sorted: seq<PRA.AttributeProperties>, i: nat)
    requires i < |sorted|
    requires forall j :: i < j < |sorted| ==> BriefName(sorted[j].name) != BriefName(sorted[i].name)
    ensures Lookup(Recorded(table, sorted), BriefName(sorted[i].name)) == sorted[i].name
  {
    RecordUnderLast(BriefName, table, sorted, i);
  }

  /** Brief names of no recorded attribute keep their old entry. */
  lemma RecordedElsewhere(table: map<String, String>, sorted: seq<PRA.AttributeProperties>, key: String)
    requires forall j :: 0 <= j < |sorted| ==> BriefName(sorted[j].name) != key
    ensures Lookup(Recorded(table, sorted), key) == Lookup(table, key)
  {
    RecordUnderElsewhere(BriefName, table, sorted, key);
  }

  /** The bounds of a float attribute: every @Range annotation overrides the
    * bound it gives, NaN where none gives one. */
  function RangeOfAnnotations(annots: seq<Annotation>): (r: (M.Double, M.Double))
    ensures (forall a :: 0 <= a < |annots| ==> annots[a].name != RA.AnnotRange) ==> r == (M.NaN, M.NaN)
  {
    if |annots| == 0 then (M.NaN, M.NaN)
    else
      var prev := RangeOfAnnotations(annots[..|annots| - 1]);
      var an := annots[|annots| - 1];
      assert forall a :: 0 <= a < |annots| - 1 ==> annots[..|annots| - 1][a] == annots[a];
      if an.name != RA.AnnotRange then prev
      else
        var b := MAttr.RangeBounds(an.args);
        (if b.0.NaN? then prev.0 else b.0, if b.1.NaN? then prev.1 else b.1)
  }

  /** What the annotations of a string attribute say: the file filter, and
    * whether it is a file or a colour. */
  datatype StringTraits = StringTraits(exts: String, asFile: bool, asColor: bool)

  /** The scan of a string attribute's annotations; @Directory replaces the
    * filter by its own name, every @File appends its entries and "All Files". */
  function ScanStringAnnotations(annots: seq<Annotation>): (r: StringTraits)
    ensures r.asColor <==> exists a :: 0 <= a < |annots| && annots[a].name == RA.AnnotColor
    ensures r.asFile <==> exists a :: 0 <= a < |annots| && (annots[a].name == RA.AnnotDir || annots[a].name == RA.AnnotFile)
  {
    if |annots| == 0 then StringTraits([], false, false)
    else
      var prev := ScanStringAnnotations(annots[..|annots| - 1]);
      var an := annots[|annots| - 1];
      assert forall a :: 0 <= a < |annots| - 1 ==> annots[..|annots| - 1][a] == annots[a];
      if an.name == RA.AnnotColor then prev.(asColor := true)
      else if an.name == RA.AnnotDir then prev.(exts := RA.AnnotDir, asFile := true)
      else if an.name == RA.AnnotFile then
        prev.(exts := prev.exts + MAttr.FilterEntries(an.args, ");;") + MAttr.AllFiles, asFile := true)
      else prev
  }

  /** The parameter an attribute gets, by the return type of its entry:
    * @Enum first, then the type's own kind; a string default of seven
    * characters starting with '#' is a colour; other types get none. */
  function PrtParameterFor(generated: AttributeMap, p: PRA.AttributeProperties, e: Entry): (r: Option<MAttr.Parameter>)
    ensures r.Some? <==> e.returnType != OtherType
    ensures r.Some? && p.enumAnnotation.Some? ==> r.value.EnumParameter? && r.value.annot == p.enumAnnotation.value
  {
    match e.returnType
    case BoolType =>
      var value := GetBool(generated, p.name);
      if p.enumAnnotation.Some? then Some(MAttr.EnumParameter(p.enumAnnotation.value, EV.BoolDefault(value)))
      else Some(MAttr.BoolParameter(value))
    case FloatType =>
      var range := RangeOfAnnotations(e.annotations);
      var value := GetFloat(generated, p.name);
      if p.enumAnnotation.Some? then Some(MAttr.EnumParameter(p.enumAnnotation.value, EV.FloatDefault(value)))
      else Some(MAttr.FloatParameter(value, range.0, range.1))
    case StrType =>
      var st := ScanStringAnnotations(e.annotations);
      var value := GetString(generated, p.name).GetOr("");
      var asColor := st.asColor || (|value| == 7 && value[0] == '#');
      if p.enumAnnotation.Some? then Some(MAttr.EnumParameter(p.enumAnnotation.value, EV.StringDefault(value)))
      else if st.asFile then Some(MAttr.FileParameter(value, st.exts))
      else if asColor then Some(MAttr.ColorParameter(value))
      else Some(MAttr.StrParameter(value))
    case OtherType => None
  }

  /** A string attribute without annotations is a colour exactly when its
    * default looks like "#RRGGBB"; the newer plug-in agrees on such a plain
    * attribute. */
  lemma PlainStringAgreesWithNewer(generated: AttributeMap, p: PRA.AttributeProperties, e: Entry)
    requires e.returnType == StrType && e.annotations == [] && p.enumAnnotation.None?
    requires p.name in generated && generated[p.name].StringValue?
    ensures PrtParameterFor(generated, p, e) == MAttr.ParameterFor(generated, p.name, MAttr.PlainTrait)
  {
  }

  /** createNodeAttributes over the sorted attributes, as a specification:
    * each attribute with the parameter its entry gives it. */
  function CreatedParameters(sorted: seq<PRA.AttributeProperties>, generated: AttributeMap, info: RuleFileInfo)
    : (r: seq<(PRA.AttributeProperties, MAttr.Parameter)>)
    requires forall k :: 0 <= k < |sorted| ==> sorted[k].index < |info.attributes|
    ensures |r| <= |sorted|
    ensures forall k :: 0 <= k < |r| ==>
      r[k].0 in sorted && PrtParameterFor(generated, r[k].0, info.attributes[r[k].0.index]) == Some(r[k].1)
  {
    if |sorted| == 0 then []
    else
      var p := sorted[|sorted| - 1];
      var prev := CreatedParameters(sorted[..|sorted| - 1], generated, info);
      assert forall x :: x in sorted[..|sorted| - 1] ==> x in sorted;
      match PrtParameterFor(generated, p, info.attributes[p.index])
      case Some(param) => prev + [(p, param)]
      case None => prev
  }

  /** The use test of the older plug-in: some rule attribute's long name. */
  function InUse(info: RuleFileInfo): String -> bool
  {
    n => exists j :: 0 <= j < |info.attributes| && LongName(info.attributes[j].name) == n
  }

  /** A node attribute survives the pruning iff it is static, is the long
    * name of a rule attribute, or is a channel of a dynamic colour. */
  lemma KeptIff(attrs: seq<MA.NodeAttribute>, info: RuleFileInfo, a: MA.NodeAttribute)
    requires a in attrs
    ensures a !in MAttr.Removed(attrs, InUse(info)) <==>
      !a.dynamic || (exists j :: 0 <= j < |info.attributes| && LongName(info.attributes[j].name) == a.name) ||
      exists i :: 0 <= i < |attrs| && attrs[i].dynamic && attrs[i].usedAsColor && a.name in attrs[i].children
  {
  }

  // ---------------------------------------------------------------------
  // Adding the attributes to the node
  // ---------------------------------------------------------------------

  /** Maya keeps the attribute names of a node distinct. */
  predicate UniqueNames(node: seq<Plug>)
  {
    forall i, j :: 0 <= i < j < |node| ==> node[i].briefName != node[j].briefName
  }

  /** MFnDependencyNode::hasAttribute. */
  predicate HasAttribute(node: seq<Plug>, name: String)
  {
    exists i :: 0 <= i < |node| && node[i].briefName == name
  }

  /** The position of the attribute of that name, if the node has one. */
  function FindAttribute(node: seq<Plug>, name: String): (r: Option<nat>)
    ensures r.None? <==> !HasAttribute(node, name)
    ensures r.Some? ==> r.value < |node| && node[r.value].briefName == name
  {
    if |node| == 0 then None
    else if node[|node| - 1].briefName == name then Some(|node| - 1)
    else
      var r := FindAttribute(node[..|node| - 1], name);
      assert forall i :: 0 <= i < |node| - 1 ==> node[..|node| - 1][i] == node[i];
      r
  }

  /** MFnDependencyNode::removeAttribute: Maya removes dynamic attributes
    * and leaves the static ones of the node type in place. */
  function RemoveAttribute(node: seq<Plug>, i: nat): seq<Plug>
    requires i < |node|
  {
    if node[i].dynamic then node[..i] + node[i + 1..] else node
  }

  /** getPlugValueAndRemoveAttr: the value of a dynamic attribute of that
    * name, otherwise the default; the attribute of that name is removed. */
  function PlugValueAndRemoveAttr(node: seq<Plug>, name: String, defaultValue: MA.PlugValue): (r: (MA.PlugValue, seq<Plug>))
    ensures !HasAttribute(node, name) ==> r == (defaultValue, node)
    ensures |node| - 1 <= |r.1| <= |node|
  {
    match FindAttribute(node, name)
    case None => (defaultValue, node)
    case Some(i) => (if node[i].dynamic then node[i].value else defaultValue, RemoveAttribute(node, i))
  }

  /** Removing a dynamic attribute removes its name and nothing else. */
  lemma RemoveDynamic(node: seq<Plug>, i: nat)
    requires UniqueNames(node) && i < |node| && node[i].dynamic
    ensures var rest := RemoveAttribute(node, i);
      UniqueNames(rest) && forall p :: p in rest <==> p in node && p.briefName != node[i].briefName
  {
    var rest := node[..i] + node[i + 1..];
    assert forall k :: 0 <= k < |rest| ==> rest[k] == if k < i then node[k] else node[k + 1];
    forall p | p in node && p.briefName != node[i].briefName
      ensures p in rest
    {
      var k :| 0 <= k < |node| && node[k] == p;
      assert rest[if k < i then k else k - 1] == p;
    }
  }

  /** The value read is the user's one exactly when a dynamic attribute of
    * that name exists; afterwards no dynamic attribute has the name and every
    * other attribute is still there. */
  lemma PlugValueAndRemoveAttrSpec(node: seq<Plug>, name: String, defaultValue: MA.PlugValue)
    requires UniqueNames(node)
    ensures var (v, rest) := PlugValueAndRemoveAttr(node, name, defaultValue);
      (forall i :: 0 <= i < |node| && node[i].briefName == name && node[i].dynamic ==> v == node[i].value) &&
      ((forall i :: 0 <= i < |node| && node[i].briefName == name ==> !node[i].dynamic) ==> v == defaultValue) &&
      (forall p :: p in rest <==> p in node && !(p.briefName == name && p.dynamic)) &&
      UniqueNames(rest)
  {
    match FindAttribute(node, name)
    case None =>
    case Some(i) =>
      if node[i].dynamic {
        RemoveDynamic(node, i);
      }
  }

  /** addParameter: the attribute is added only when the node has no
    * attribute of its name. */
  function AddParameter(node: seq<Plug>, attr: Plug): (r: seq<Plug>)
    ensures HasAttribute(r, attr.briefName)
    ensures UniqueNames(node) ==> UniqueNames(r)
    ensures forall p :: p in r <==> p in node || (p == attr && !HasAttribute(node, attr.briefName))
  {
    if HasAttribute(node, attr.briefName) then node
    else
      assert (node + [attr])[|node|] == attr;
      node + [attr]
  }

  /** The add<Type>Parameter functions as far as the node's attributes go:
    * read and remove the old attribute, add the new one under the brief
    * name and give it the value read. Afterwards the node has an attribute
    * of the brief name; a new one is appended with the rule's default. */
  function AddRuleParameter(node: seq<Plug>, name: String, defaultValue: MA.PlugValue): (r: seq<Plug>)
    ensures HasAttribute(r, BriefName(name))
    ensures !HasAttribute(node, BriefName(name)) ==> r == node + [Plug(BriefName(name), true, defaultValue)]
  {
    var (v, rest) := PlugValueAndRemoveAttr(node, BriefName(name), defaultValue);
    AddParameter(rest, Plug(BriefName(name), true, v))
  }

  /** Regenerating the attributes keeps what the user set: a dynamic
    * attribute of the brief name comes back with its value, the only
    * attribute of that name, and all other attributes stay. */
  lemma AddRuleParameterKeepsValue(node: seq<Plug>, name: String, defaultValue: MA.PlugValue, i: nat)
    requires UniqueNames(node)
    requires i < |node| && node[i].briefName == BriefName(name) && node[i].dynamic
    ensures var r := AddRuleParameter(node, name, defaultValue);
      UniqueNames(r) && Plug(BriefName(name), true, node[i].value) in r &&
      forall p: Plug :: p.briefName != BriefName(name) ==> (p in r <==> p in node)
  {
    PlugValueAndRemoveAttrSpec(node, BriefName(name), defaultValue);
    var (v, rest) := PlugValueAndRemoveAttr(node, BriefName(name), defaultValue);
    assert !HasAttribute(rest, BriefName(name));
  }

  /** A static attribute of the node type with the brief name blocks the
    * rule attribute: the node is left as it was. */
  lemma AddRuleParameterStaticClash(node: seq<Plug>, name: String, defaultValue: MA.PlugValue, i: nat)
    requires UniqueNames(node)
    requires i < |node| && node[i].briefName == BriefName(name) && !node[i].dynamic
    ensures AddRuleParameter(node, name, defaultValue) == node
  {
  }

  /** Two rule attributes with one brief name, such as the same attribute in
    * two styles, share one node attribute: the second reads the first's
    * value back, so the node ends up with the first one's default. */
  lemma SameBriefNameKeepsFirst(node: seq<Plug>, name1: String, name2: String, d1: MA.PlugValue, d2: MA.PlugValue)
    requires UniqueNames(node) && !HasAttribute(node, BriefName(name1))
    requires BriefName(name1) == BriefName(name2)
    ensures var r := AddRuleParameter(AddRuleParameter(node, name1, d1), name2, d2);
      Plug(BriefName(name1), true, d1) in r && UniqueNames(r)
  {
    var once := AddRuleParameter(node, name1, d1);
    assert once[|node|] == Plug(BriefName(name1), true, d1);
    assert UniqueNames(once) by {
      assert AddParameter(node, Plug(BriefName(name1), true, d1)) == once;
    }
    AddRuleParameterKeepsValue(once, name2, d2, |node|);
  }

  /** The action's state: the brief-name table and the attribute map handed
    * to generation. */
  class PrtModifierAction {
    var briefName2prtAttr: map<String, String>
    var generateAttrs: AttributeMap

    constructor()
      ensures briefName2prtAttr == map[] && generateAttrs == map[]
    {
      briefName2prtAttr := map[];
      generateAttrs := map[];
    }

    /** fillAttributesFromNode: the map becomes the plugs' changed values;
      * the table gains an empty entry for each unknown brief name. */
    method FillAttributesFromNode(plugs: seq<Plug>, defaults: AttributeMap, info: RuleFileInfo,
                                  asDouble: String -> real, asInt: String -> int)
      modifies this
      ensures generateAttrs == ChangedAttributes(old(briefName2prtAttr), plugs, defaults, info.attributes, asDouble, asInt)
      ensures briefName2prtAttr == Touched(old(briefName2prtAttr), plugs)
    {
      var built: AttributeMap := map[];
      for i := 0 to |plugs|
        invariant built == ChangedAttributes(old(briefName2prtAttr), plugs[..i], defaults, info.attributes, asDouble, asInt)
        invariant briefName2prtAttr == Touched(old(briefName2prtAttr), plugs[..i])
      {
        assert plugs[..i + 1][..i] == plugs[..i];
        var plug := plugs[i];
        if plug.dynamic {
          if plug.briefName !in briefName2prtAttr {
            briefName2prtAttr := briefName2prtAttr[plug.briefName := ""];
          }
          var name := briefName2prtAttr[plug.briefName];
          assert name == Lookup(old(briefName2prtAttr), plug.briefName);
          var ruleAttrType := RuleAttributeType(info.attributes, name);
          var changed := ChangedValue(plug.value, name, defaults, ruleAttrType, asDouble, asInt);
          if changed.Some? {
            built := built[name := changed.value];
          }
        }
      }
      assert plugs[..|plugs|] == plugs;
      generateAttrs := built;
    }

    /** createNodeAttributes: the map becomes the rule's defaults, every
      * attribute's brief name is recorded, and each gets its parameter. */
    method CreateNodeAttributes(sorted: seq<PRA.AttributeProperties>, defaults: AttributeMap, info: RuleFileInfo)
      returns (created: seq<(PRA.AttributeProperties, MAttr.Parameter)>)
      requires forall k :: 0 <= k < |sorted| ==> sorted[k].index < |info.attributes|
      modifies this
      ensures generateAttrs == defaults
      ensures briefName2prtAttr == Recorded(old(briefName2prtAttr), sorted)
      ensures created == CreatedParameters(sorted, defaults, info)
    {
      generateAttrs := defaults;
      created := [];
      for i := 0 to |sorted|
        invariant generateAttrs == defaults
        invariant briefName2prtAttr == Recorded(old(briefName2prtAttr), sorted[..i])
        invariant created == CreatedParameters(sorted[..i], defaults, info)
      {
        assert sorted[..i + 1][..i] == sorted[..i];
        var p := sorted[i];
        briefName2prtAttr := briefName2prtAttr[BriefName(p.name) := p.name];
        var param := PrtParameterFor(generateAttrs, p, info.attributes[p.index]);
        if param.Some? {
          created := created + [(p, param.value)];
        }
      }
      assert sorted[..|sorted|] == sorted;
    }
  }
}
