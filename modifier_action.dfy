// The per-attribute bookkeeping of the modifier action
// (src/serlio/modifiers/PRTModifierAction.cpp): which node attributes are
// CGA rule attributes, the hidden `_user_set` and `_force_default` flags
// beside each of them, the user-set update, the reset of untouched values to
// the rule defaults, and the transfer of user-set values into the attribute
// map handed to generation.

module ModifierAction {
  import opened Wrappers
  import opened Text
  import opened RuleInfo
  import Utilities
  import RA = RuleAttributes
  import ME = ModifierEnum

  const UserSetSuffix: String := "_user_set"
  const ForceDefaultSuffix: String := "_force_default"

  function UserSetName(name: String): String { name + UserSetSuffix }
  function ForceDefaultName(name: String): String { name + ForceDefaultSuffix }

  /** A user-set flag is never a force-default flag, and different
    * attributes have different flags. */
  lemma FlagNamesDistinct(a: String, b: String)
    ensures UserSetName(a) != ForceDefaultName(b)
    ensures a != b ==> UserSetName(a) != UserSetName(b)
    ensures a != b ==> ForceDefaultName(a) != ForceDefaultName(b)
  {
    var u, f := UserSetName(a), ForceDefaultName(b);
    assert u[|u| - 2] == 'e';
    assert f[|f| - 2] == 'l';
    if UserSetName(a) == UserSetName(b) {
      assert a == UserSetName(a)[..|a|];
      assert b == UserSetName(b)[..|b|];
    }
    if ForceDefaultName(a) == ForceDefaultName(b) {
      assert a == ForceDefaultName(a)[..|a|];
      assert b == ForceDefaultName(b)[..|b|];
    }
  }

  predicate NoDuplicates(names: seq<String>)
  {
    forall i, j :: 0 <= i < j < |names| ==> names[i] != names[j]
  }

  // ---------------------------------------------------------------------
  // Node attributes
  // ---------------------------------------------------------------------

  /** The value of a node attribute, tagged with the kind of Maya attribute
    * the dispatch looks at: boolean and double numeric attributes, colour
    * attributes (the 8-bit channels behind the float triple), typed string
    * attributes, and enum attributes with their default index and fields.
    * OtherPlug is any other kind, which the dispatch skips. */
  datatype PlugValue =
    | BoolPlug(flag: bool)
    | FloatPlug(x: real)
    | ColorPlug(red: int, green: int, blue: int)
    | StringPlug(s: String)
    | EnumPlug(index: int, defaultIndex: int, fields: seq<ME.EnumField>)
    | OtherPlug

  /** What the attribute scan sees of a node attribute. */
  datatype NodeAttribute = NodeAttribute(
    name: String,
    dynamic: bool,
    hidden: bool,
    usedAsColor: bool,
    children: seq<String>)

  /** CGA rule attributes are dynamic and not hidden. */
  predicate IsCandidate(a: NodeAttribute)
  {
    a.dynamic && !a.hidden
  }

  /** The names of the candidate attributes, in node order. */
  function Candidates(attrs: seq<NodeAttribute>): (r: seq<String>)
    ensures forall n :: n in r <==> exists i :: 0 <= i < |attrs| && IsCandidate(attrs[i]) && attrs[i].name == n
  {
    if |attrs| == 0 then []
    else
      var a := attrs[|attrs| - 1];
      var prev := Candidates(attrs[..|attrs| - 1]);
      assert forall i :: 0 <= i < |attrs| - 1 ==> attrs[..|attrs| - 1][i] == attrs[i];
      if IsCandidate(a) then prev + [a.name] else prev
  }

  /** The per-channel child attributes of the candidate colour attributes. */
  function IgnoreList(attrs: seq<NodeAttribute>): (r: seq<String>)
    ensures forall c :: c in r <==>
      exists i :: 0 <= i < |attrs| && IsCandidate(attrs[i]) && attrs[i].usedAsColor && c in attrs[i].children
  {
    if |attrs| == 0 then []
    else
      var a := attrs[|attrs| - 1];
      var prev := IgnoreList(attrs[..|attrs| - 1]);
      assert forall i :: 0 <= i < |attrs| - 1 ==> attrs[..|attrs| - 1][i] == attrs[i];
      if IsCandidate(a) && a.usedAsColor then prev + a.children else prev
  }

  /** The elements of xs that are not in ys, in order. */
  function Without(xs: seq<String>, ys: seq<String>): (r: seq<String>)
    ensures forall n :: n in r <==> n in xs && n !in ys
  {
    if |xs| == 0 then []
    else
      var prev := Without(xs[..|xs| - 1], ys);
      assert xs == xs[..|xs| - 1] + [xs[|xs| - 1]];
      if xs[|xs| - 1] in ys then prev else prev + [xs[|xs| - 1]]
  }

  /** getNodeAttributesCorrespondingToCGA, as a specification: the candidate
    * attributes without the colour children. */
  function CgaAttributeNames(attrs: seq<NodeAttribute>): seq<String>
  {
    Without(Candidates(attrs), IgnoreList(attrs))
  }

  /** A node attribute takes part in the rule attribute passes iff it is
    * dynamic, not hidden and not a channel of a visible colour attribute. */
  lemma CgaAttributeMember(attrs: seq<NodeAttribute>, n: String)
    ensures n in CgaAttributeNames(attrs) <==>
      (exists i :: 0 <= i < |attrs| && IsCandidate(attrs[i]) && attrs[i].name == n) &&
      !(exists i :: 0 <= i < |attrs| && IsCandidate(attrs[i]) && attrs[i].usedAsColor && n in attrs[i].children)
  {
  }

  /** The scan: one pass collecting the candidates and the colour children,
    * then the removal of the ignored ones. */
  method GetNodeAttributesCorrespondingToCGA(attrs: seq<NodeAttribute>) returns (names: seq<String>)
    ensures names == CgaAttributeNames(attrs)
  {
    var raw: seq<String> := [];
    var ignore: seq<String> := [];
    for i := 0 to |attrs|
      invariant raw == Candidates(attrs[..i])
      invariant ignore == IgnoreList(attrs[..i])
    {
      assert attrs[..i + 1][..i] == attrs[..i];
      var a := attrs[i];
      if !a.dynamic || a.hidden {
        continue;
      }
      if a.usedAsColor {
        ignore := ignore + a.children;
      }
      raw := raw + [a.name];
    }
    assert attrs[..|attrs|] == attrs;
    names := [];
    for j := 0 to |raw|
      invariant names == Without(raw[..j], ignore)
    {
      assert raw[..j + 1][..j] == raw[..j];
      if raw[j] !in ignore {
        names := names + [raw[j]];
      }
    }
    assert raw[..|raw|] == raw;
  }

  /** RULE_NOT_FOUND: a value-initialised rule attribute. */
  const RuleNotFound: RA.RuleAttribute := RA.RuleAttribute("", "", "", "", OtherType, [], 0, 0, "", false, 0, 0)

  /** The first rule attribute whose Maya full name is the node attribute's
    * name, RULE_NOT_FOUND when there is none. */
  function ReverseLookup(ruleAttrs: seq<RA.RuleAttribute>, mayaFullName: String): (r: RA.RuleAttribute)
    ensures (exists i :: 0 <= i < |ruleAttrs| && ruleAttrs[i].mayaFullName == mayaFullName) ==>
      r in ruleAttrs && r.mayaFullName == mayaFullName
    ensures (forall i :: 0 <= i < |ruleAttrs| ==> ruleAttrs[i].mayaFullName != mayaFullName) ==>
      r == RuleNotFound
  {
    if |ruleAttrs| == 0 then RuleNotFound
    else if ruleAttrs[0].mayaFullName == mayaFullName then ruleAttrs[0]
    else
      assert forall i :: 1 <= i < |ruleAttrs| ==> ruleAttrs[1..][i - 1] == ruleAttrs[i];
      ReverseLookup(ruleAttrs[1..], mayaFullName)
  }

  /** Whether a flag attribute exists and is set. */
  predicate Flag(flags: map<String, bool>, key: String)
  {
    key in flags && flags[key]
  }

  /** The plug value of a node attribute, OtherPlug for one the node lacks. */
  function ValueOf(values: map<String, PlugValue>, name: String): PlugValue
  {
    if name in values then values[name] else OtherPlug
  }

  /** A Maya node carrying rule attributes: its attribute list, the values
    * of the rule attributes, and the boolean values of the hidden flag
    * attributes, by attribute name. */
  class ModifierNode {
    var attributes: seq<NodeAttribute>
    var values: map<String, PlugValue>
    var flags: map<String, bool>

    constructor(attributes: seq<NodeAttribute>, values: map<String, PlugValue>, flags: map<String, bool>)
      ensures this.attributes == attributes && this.values == values && this.flags == flags
    {
      this.attributes := attributes;
      this.values := values;
      this.flags := flags;
    }

    /** getIsUserSet: the `_user_set` flag, false when the node lacks it. */
    method GetIsUserSet(name: String) returns (isUserSet: bool)
      ensures UserSetName(name) !in flags ==> !isUserSet
      ensures UserSetName(name) in flags ==> isUserSet == flags[UserSetName(name)]
    {
      var key := UserSetName(name);
      if key in flags {
        isUserSet := flags[key];
      } else {
        isUserSet := false;
      }
    }

    /** setIsUserSet: writes the flag only when the node has it; reports
      * whether it did. */
    method SetIsUserSet(name: String, value: bool) returns (found: bool)
      modifies this
      ensures found == (UserSetName(name) in old(flags))
      ensures flags == if found then old(flags)[UserSetName(name) := value] else old(flags)
      ensures attributes == old(attributes) && values == old(values)
    {
      var key := UserSetName(name);
      found := key in flags;
      if found {
        flags := flags[key := value];
      }
    }

    /** getAndResetForceDefault: the previous `_force_default` flag; the
      * flag is false afterwards, and a missing flag stays missing. */
    method GetAndResetForceDefault(name: String) returns (forced: bool)
      modifies this
      ensures forced == Flag(old(flags), ForceDefaultName(name))
      ensures !Flag(flags, ForceDefaultName(name))
      ensures flags == if ForceDefaultName(name) in old(flags) then old(flags)[ForceDefaultName(name) := false] else old(flags)
      ensures attributes == old(attributes) && values == old(values)
    {
      var key := ForceDefaultName(name);
      if key in flags {
        forced := flags[key];
        flags := flags[key := false];
      } else {
        forced := false;
      }
    }
  }

  // ---------------------------------------------------------------------
  // Comparison with the rule defaults
  // ---------------------------------------------------------------------

  /** The rule's default string; a missing one reads as empty. */
  function DefaultString(defaults: AttributeMap, fqName: String): String
  {
    GetString(defaults, fqName).GetOr("")
  }

  /** The comparison the source makes: booleans and floats with ==, a colour
    * as the text of its channels against the default text, a string as
    * text, an enum index against the attribute's default index. */
  function IsDefaultAsWritten(v: PlugValue, fqName: String, defaults: AttributeMap): (r: bool)
    ensures v.ColorPlug? && r ==> |DefaultString(defaults, fqName)| == 7 && DefaultString(defaults, fqName)[0] == '#'
    ensures v.OtherPlug? ==> !r
  {
    match v
    case BoolPlug(b) => GetBool(defaults, fqName) == b
    case FloatPlug(x) => GetFloat(defaults, fqName) == x
    case ColorPlug(r, g, b) => Utilities.ColorString(r, g, b) == DefaultString(defaults, fqName)
    case StringPlug(s) => s == DefaultString(defaults, fqName)
    case EnumPlug(i, d, _) => d == i
    case OtherPlug => false
  }

  lemma ColorTextRoundTrip(r: int, g: int, b: int)
    ensures 0 <= r < 256 && 0 <= g < 256 && 0 <= b < 256 ==> Utilities.ParseColor(Utilities.ColorString(r, g, b)) == (r, g, b)
  {
    if 0 <= r < 256 && 0 <= g < 256 && 0 <= b < 256 {
      Utilities.ColorRoundTrip(r, g, b);
    }
  }

  /** The comparison with the colour compared as channels: the default text
    * is parsed the way the reset parses it. */
  function IsDefault(v: PlugValue, fqName: String, defaults: AttributeMap): (r: bool)
    ensures !v.ColorPlug? ==> (r <==> IsDefaultAsWritten(v, fqName, defaults))
    ensures (v.ColorPlug? && 0 <= v.red < 256 && 0 <= v.green < 256 && 0 <= v.blue < 256 &&
             GetString(defaults, fqName) == Some(Utilities.ColorString(v.red, v.green, v.blue))) ==> r
  {
    if v.ColorPlug? then
      ColorTextRoundTrip(v.red, v.green, v.blue);
      Utilities.ParseColor(DefaultString(defaults, fqName)) == (v.red, v.green, v.blue)
    else IsDefaultAsWritten(v, fqName, defaults)
  }

  /** Both comparisons agree whenever the default text is one that
    * getColorString could have produced. */
  lemma CanonicalDefaultsAgree(r: int, g: int, b: int, fqName: String, defaults: AttributeMap, dr: int, dg: int, db: int)
    requires 0 <= r < 256 && 0 <= g < 256 && 0 <= b < 256
    requires 0 <= dr < 256 && 0 <= dg < 256 && 0 <= db < 256
    requires GetString(defaults, fqName) == Some(Utilities.ColorString(dr, dg, db))
    ensures IsDefault(ColorPlug(r, g, b), fqName, defaults) == IsDefaultAsWritten(ColorPlug(r, g, b), fqName, defaults)
  {
    Utilities.ColorRoundTrip(dr, dg, db);
    Utilities.ColorRoundTrip(r, g, b);
  }

  /** The value updateUI writes into an untouched attribute: the rule
    * default, a colour parsed from the default text, an enum at its default
    * index. */
  function DefaultValue(v: PlugValue, fqName: String, defaults: AttributeMap): (r: PlugValue)
    ensures !v.OtherPlug? ==> IsDefault(r, fqName, defaults)
    ensures v.EnumPlug? ==> r.EnumPlug? && r.fields == v.fields && r.defaultIndex == v.defaultIndex
  {
    match v
    case BoolPlug(_) => BoolPlug(GetBool(defaults, fqName))
    case FloatPlug(_) => FloatPlug(GetFloat(defaults, fqName))
    case ColorPlug(_, _, _) =>
      var rgb := Utilities.ParseColor(DefaultString(defaults, fqName));
      ColorPlug(rgb.0, rgb.1, rgb.2)
    case StringPlug(_) => StringPlug(DefaultString(defaults, fqName))
    case EnumPlug(_, d, fields) => EnumPlug(d, d, fields)
    case OtherPlug => OtherPlug
  }

  /** updateUI's rule for one attribute, given the outcome of the default
    * comparison: a user-set value is written back unchanged, an untouched
    * value that differs from the default is reset to it. */
  function UiValueWith(isDefault: bool, userSet: bool, v: PlugValue, fqName: String, defaults: AttributeMap): PlugValue
  {
    if userSet then v
    else if !isDefault then DefaultValue(v, fqName, defaults)
    else v
  }

  /** updateUI's rule as written: a colour is left alone when the text
    * getColorString writes for it equals the default text; any value reset
    * is reset to a value equal to its default. */
  function UiValue(userSet: bool, v: PlugValue, fqName: String, defaults: AttributeMap): (r: PlugValue)
    ensures userSet ==> r == v
    ensures IsDefaultAsWritten(v, fqName, defaults) ==> r == v
    ensures !userSet && !v.OtherPlug? && !IsDefaultAsWritten(v, fqName, defaults) ==> IsDefault(r, fqName, defaults)
  {
    UiValueWith(IsDefaultAsWritten(v, fqName, defaults), userSet, v, fqName, defaults)
  }

  /** updateUI's rule with the colour compared as channels. */
  function UiValueCorrected(userSet: bool, v: PlugValue, fqName: String, defaults: AttributeMap): (r: PlugValue)
    ensures userSet ==> r == v
    ensures IsDefault(v, fqName, defaults) ==> r == v
    ensures !userSet && !v.OtherPlug? ==> IsDefault(r, fqName, defaults)
  {
    UiValueWith(IsDefault(v, fqName, defaults), userSet, v, fqName, defaults)
  }

  /** The two rules write the same value unless the plug holds a colour
    * with a channel outside 0..255. */
  lemma UiValuesAgreeInRange(userSet: bool, v: PlugValue, fqName: String, defaults: AttributeMap)
    requires v.ColorPlug? ==> 0 <= v.red < 256 && 0 <= v.green < 256 && 0 <= v.blue < 256
    ensures UiValue(userSet, v, fqName, defaults) == UiValueCorrected(userSet, v, fqName, defaults)
  {
    if v.ColorPlug? {
      Utilities.ColorRoundTrip(v.red, v.green, v.blue);
    }
  }

  /** Out of range the rules differ: a colour whose red channel reads 382
    * (a Maya red of 1.5) writes the text "#7E0000", so as written it stays
    * when that is the default text, while the channel rule resets it. */
  lemma UiKeepsOutOfRangeColor()
    ensures var defaults := map["Default$color" := StringValue("#7E0000")];
            var v := ColorPlug(382, 0, 0);
            UiValue(false, v, "Default$color", defaults) == v &&
            UiValueCorrected(false, v, "Default$color", defaults) == ColorPlug(126, 0, 0)
  {
    var defaults := map["Default$color" := StringValue("#7E0000")];
    var d := DefaultString(defaults, "Default$color");
    assert d == "#7E0000";
    assert Utilities.ColorString(382, 0, 0) == d by {
      assert Utilities.ToHex(23) == '7' && Utilities.ToHex(382) == 'E' && Utilities.ToHex(0) == '0';
    }
    Utilities.ColorStringParses(382, 0, 0);
    assert Utilities.ParseColor(d) == (126, 0, 0);
  }

  /** updateUserSetAttribute's rule for one attribute: the force-default
    * flag is cleared, and the user-set flag becomes false when it was set
    * and otherwise records whether the value differs from the default.
    * Neither flag is created when the node lacks it. */
  function FlagsAfterUpdate(flags: map<String, bool>, name: String, isDefault: bool): (r: map<String, bool>)
    ensures r.Keys == flags.Keys
    ensures !Flag(r, ForceDefaultName(name))
    ensures Flag(r, UserSetName(name)) <==>
      UserSetName(name) in flags && !Flag(flags, ForceDefaultName(name)) && !isDefault
    ensures forall k :: k in flags && k != UserSetName(name) && k != ForceDefaultName(name) ==> r[k] == flags[k]
  {
    FlagNamesDistinct(name, name);
    var forced := Flag(flags, ForceDefaultName(name));
    var reset := if ForceDefaultName(name) in flags then flags[ForceDefaultName(name) := false] else flags;
    var userSet := if forced then false else !isDefault;
    if UserSetName(name) in reset then reset[UserSetName(name) := userSet] else reset
  }

  /** One compute cycle without user edits (user-set update, then the UI
    * reset, then the next user-set update) leaves the user-set flag as the
    * first update put it, and the value settled. */
  lemma UserSetStableAcrossCycle(flags: map<String, bool>, name: String, v: PlugValue, fqName: String, defaults: AttributeMap)
    requires !v.OtherPlug?
    ensures var first := FlagsAfterUpdate(flags, name, IsDefault(v, fqName, defaults));
            var shown := UiValueCorrected(Flag(first, UserSetName(name)), v, fqName, defaults);
            var second := FlagsAfterUpdate(first, name, IsDefault(shown, fqName, defaults));
            Flag(second, UserSetName(name)) == Flag(first, UserSetName(name)) &&
            UiValueCorrected(Flag(second, UserSetName(name)), shown, fqName, defaults) == shown
  {
  }

  /** With the comparison as written, a colour attribute whose rule default
    * is written in lower-case hexadecimal is marked user-set again right
    * after a reset to its default, without any user edit. */
  lemma ColorResetMarkedUserSet()
    ensures var name, fq := "color", "Default$color";
            var defaults := map[fq := StringValue("#ff0000")];
            var flags := map[UserSetName(name) := true, ForceDefaultName(name) := true];
            var v := ColorPlug(0, 0, 0);
            var first := FlagsAfterUpdate(flags, name, IsDefaultAsWritten(v, fq, defaults));
            var shown := UiValue(Flag(first, UserSetName(name)), v, fq, defaults);
            var second := FlagsAfterUpdate(first, name, IsDefaultAsWritten(shown, fq, defaults));
            !Flag(first, UserSetName(name)) && shown == ColorPlug(255, 0, 0) && Flag(second, UserSetName(name))
  {
    var name, fq := "color", "Default$color";
    var defaults := map[fq := StringValue("#ff0000")];
    FlagNamesDistinct(name, name);
    var d := DefaultString(defaults, fq);
    assert d == "#ff0000";
    assert Utilities.FromHex('f') == 15 && Utilities.FromHex('0') == 0;
    assert Utilities.ParseColor(d) == (255, 0, 0);
    assert Utilities.ColorString(0, 0, 0) != d by {
      assert Utilities.ColorString(0, 0, 0)[1] == Utilities.ToHex(0);
      assert Utilities.FromHex(Utilities.ToHex(0)) == 0;
    }
    assert Utilities.ColorString(255, 0, 0) != d by {
      assert d[1] == 'f';
    }
  }

  // ---------------------------------------------------------------------
  // The passes over the node's rule attributes
  // ---------------------------------------------------------------------

  /** The default comparison for a scanned attribute, by name: against the
    * default of the rule attribute found by the reverse lookup. */
  function DefaultRule(ruleAttrs: seq<RA.RuleAttribute>, defaults: AttributeMap): (String, PlugValue) -> bool
  {
    (n: String, v: PlugValue) => IsDefault(v, ReverseLookup(ruleAttrs, n).fqName, defaults)
  }

  /** The same, with the colour compared as text the way the source does. */
  function DefaultRuleAsWritten(ruleAttrs: seq<RA.RuleAttribute>, defaults: AttributeMap): (String, PlugValue) -> bool
  {
    (n: String, v: PlugValue) => IsDefaultAsWritten(v, ReverseLookup(ruleAttrs, n).fqName, defaults)
  }

  /** A pass of the user-set update over the scanned names; `isDefault`
    * compares a plug with its default. Attributes of other kinds are
    * skipped. */
  function UserSetFlags(flags: map<String, bool>, names: seq<String>, values: map<String, PlugValue>,
                        isDefault: (String, PlugValue) -> bool): map<String, bool>
  {
    if |names| == 0 then flags
    else
      var prev := UserSetFlags(flags, names[..|names| - 1], values, isDefault);
      var n := names[|names| - 1];
      var v := ValueOf(values, n);
      if v.OtherPlug? then prev
      else FlagsAfterUpdate(prev, n, isDefault(n, v))
  }

  /** Both flags of one attribute agree in two flag maps. */
  predicate SameFlags(a: map<String, bool>, b: map<String, bool>, n: String)
  {
    (UserSetName(n) in a <==> UserSetName(n) in b) &&
    (UserSetName(n) in a ==> a[UserSetName(n)] == b[UserSetName(n)]) &&
    (ForceDefaultName(n) in a <==> ForceDefaultName(n) in b) &&
    (ForceDefaultName(n) in a ==> a[ForceDefaultName(n)] == b[ForceDefaultName(n)])
  }

  lemma {:induction false} UserSetFlagsElsewhere(flags: map<String, bool>, names: seq<String>, values: map<String, PlugValue>,
                                                 isDefault: (String, PlugValue) -> bool, n: String)
    requires n !in names
    ensures SameFlags(UserSetFlags(flags, names, values, isDefault), flags, n)
    decreases |names|
  {
    if |names| > 0 {
      var m := names[|names| - 1];
      assert names[..|names| - 1] + [m] == names;
      UserSetFlagsElsewhere(flags, names[..|names| - 1], values, isDefault, n);
      FlagNamesDistinct(m, n);
      FlagNamesDistinct(n, m);
    }
  }

  /** The pass applies the one-attribute rule to every scanned attribute:
    * afterwards the attribute's force-default flag is clear and its user-set
    * flag is as the rule says, read from the flags before the pass. */
  lemma {:induction false} UserSetFlagsAt(flags: map<String, bool>, names: seq<String>, values: map<String, PlugValue>,
                                          isDefault: (String, PlugValue) -> bool, i: nat)
    requires NoDuplicates(names) && i < |names| && !ValueOf(values, names[i]).OtherPlug?
    ensures var r := UserSetFlags(flags, names, values, isDefault);
            var n := names[i];
            !Flag(r, ForceDefaultName(n)) &&
            (Flag(r, UserSetName(n)) <==>
               UserSetName(n) in flags && !Flag(flags, ForceDefaultName(n)) && !isDefault(n, values[n]))
    decreases |names|
  {
    var last := |names| - 1;
    var prefix := names[..last];
    if i == last {
      assert names[i] !in prefix;
      UserSetFlagsElsewhere(flags, prefix, values, isDefault, names[i]);
    } else {
      assert prefix[i] == names[i];
      UserSetFlagsAt(flags, prefix, values, isDefault, i);
      FlagNamesDistinct(names[last], names[i]);
      FlagNamesDistinct(names[i], names[last]);
    }
  }

  /** The loop of updateUserSetAttributes with the default comparison
    * `isDefaultOf`: every scanned attribute gets the one-attribute rule, in
    * node order; values and attributes are untouched. */
  method UserSetPass(node: ModifierNode, isDefaultOf: (String, PlugValue) -> bool)
    modifies node
    ensures node.flags == UserSetFlags(old(node.flags), CgaAttributeNames(node.attributes), node.values, isDefaultOf)
    ensures node.values == old(node.values) && node.attributes == old(node.attributes)
  {
    var names := GetNodeAttributesCorrespondingToCGA(node.attributes);
    for i := 0 to |names|
      invariant node.flags == UserSetFlags(old(node.flags), names[..i], node.values, isDefaultOf)
      invariant node.values == old(node.values) && node.attributes == old(node.attributes)
    {
      assert names[..i + 1][..i] == names[..i];
      var n := names[i];
      var v := ValueOf(node.values, n);
      if !v.OtherPlug? {
        var isDefault := isDefaultOf(n, v);
        var forced := node.GetAndResetForceDefault(n);
        FlagNamesDistinct(n, n);
        if forced {
          var _ := node.SetIsUserSet(n, false);
        } else {
          var _ := node.SetIsUserSet(n, !isDefault);
        }
      }
    }
    assert names[..|names|] == names;
  }

  /** updateUserSetAttributes as written: a colour counts as default when the
    * upper-case text getColorString writes equals the default text. */
  method UpdateUserSetAttributes(node: ModifierNode, ruleAttrs: seq<RA.RuleAttribute>, defaults: AttributeMap)
    modifies node
    ensures node.flags == UserSetFlags(old(node.flags), CgaAttributeNames(node.attributes), node.values,
                                       DefaultRuleAsWritten(ruleAttrs, defaults))
    ensures node.values == old(node.values) && node.attributes == old(node.attributes)
  {
    UserSetPass(node, DefaultRuleAsWritten(ruleAttrs, defaults));
  }

  /** updateUserSetAttributes with the colour compared as channels, the
    * comparison under which a reset colour stays untouched. */
  method UpdateUserSetAttributesCorrected(node: ModifierNode, ruleAttrs: seq<RA.RuleAttribute>, defaults: AttributeMap)
    modifies node
    ensures node.flags == UserSetFlags(old(node.flags), CgaAttributeNames(node.attributes), node.values,
                                       DefaultRule(ruleAttrs, defaults))
    ensures node.values == old(node.values) && node.attributes == old(node.attributes)
  {
    UserSetPass(node, DefaultRule(ruleAttrs, defaults));
  }

  /** updateUI's rule for a scanned attribute, by name, as written. */
  function UiRule(flags: map<String, bool>, ruleAttrs: seq<RA.RuleAttribute>, defaults: AttributeMap): (String, PlugValue) -> PlugValue
  {
    (n: String, v: PlugValue) => UiValue(Flag(flags, UserSetName(n)), v, ReverseLookup(ruleAttrs, n).fqName, defaults)
  }

  /** updateUI's rule for a scanned attribute with colours compared as
    * channels. */
  function UiRuleCorrected(flags: map<String, bool>, ruleAttrs: seq<RA.RuleAttribute>, defaults: AttributeMap): (String, PlugValue) -> PlugValue
  {
    (n: String, v: PlugValue) => UiValueCorrected(Flag(flags, UserSetName(n)), v, ReverseLookup(ruleAttrs, n).fqName, defaults)
  }

  /** A pass that rewrites every scanned plug by `rule`, skipping attributes
    * of other kinds. */
  function UiValues(values: map<String, PlugValue>, names: seq<String>, rule: (String, PlugValue) -> PlugValue): (r: map<String, PlugValue>)
    ensures r.Keys == values.Keys
    decreases |names|
  {
    if |names| == 0 then values
    else
      var prev := UiValues(values, names[..|names| - 1], rule);
      var n := names[|names| - 1];
      var v := ValueOf(prev, n);
      if v.OtherPlug? then prev else prev[n := rule(n, v)]
  }

  lemma {:induction false} UiValuesElsewhere(values: map<String, PlugValue>, names: seq<String>,
                                             rule: (String, PlugValue) -> PlugValue, n: String)
    requires n !in names
    ensures ValueOf(UiValues(values, names, rule), n) == ValueOf(values, n)
    decreases |names|
  {
    if |names| > 0 {
      assert names[..|names| - 1] + [names[|names| - 1]] == names;
      UiValuesElsewhere(values, names[..|names| - 1], rule, n);
    }
  }

  /** Each scanned plug is rewritten exactly once, from its value before
    * the pass. */
  lemma {:induction false} UiValuesAt(values: map<String, PlugValue>, names: seq<String>,
                                      rule: (String, PlugValue) -> PlugValue, i: nat)
    requires NoDuplicates(names) && i < |names| && !ValueOf(values, names[i]).OtherPlug?
    ensures ValueOf(UiValues(values, names, rule), names[i]) == rule(names[i], values[names[i]])
    decreases |names|
  {
    var last := |names| - 1;
    var prefix := names[..last];
    if i == last {
      assert names[i] !in prefix;
      UiValuesElsewhere(values, prefix, rule, names[i]);
    } else {
      assert prefix[i] == names[i];
      UiValuesAt(values, prefix, rule, i);
    }
  }

  /** After the UI pass as written a user-set value is as it was, so is a
    * value whose default comparison holds, and any other scanned value
    * equals its rule default. */
  lemma UiPassResult(values: map<String, PlugValue>, flags: map<String, bool>, names: seq<String>,
                     ruleAttrs: seq<RA.RuleAttribute>, defaults: AttributeMap, i: nat)
    requires NoDuplicates(names) && i < |names| && !ValueOf(values, names[i]).OtherPlug?
    ensures var r := ValueOf(UiValues(values, names, UiRule(flags, ruleAttrs, defaults)), names[i]);
            var fq := ReverseLookup(ruleAttrs, names[i]).fqName;
            (Flag(flags, UserSetName(names[i])) ==> r == values[names[i]]) &&
            (IsDefaultAsWritten(values[names[i]], fq, defaults) ==> r == values[names[i]]) &&
            (!Flag(flags, UserSetName(names[i])) && !IsDefaultAsWritten(values[names[i]], fq, defaults) ==> IsDefault(r, fq, defaults))
  {
    UiValuesAt(values, names, UiRule(flags, ruleAttrs, defaults), i);
  }

  /** After the corrected UI pass every user-set value is as it was and
    * every other scanned value equals its rule default. */
  lemma UiPassResultCorrected(values: map<String, PlugValue>, flags: map<String, bool>, names: seq<String>,
                              ruleAttrs: seq<RA.RuleAttribute>, defaults: AttributeMap, i: nat)
    requires NoDuplicates(names) && i < |names| && !ValueOf(values, names[i]).OtherPlug?
    ensures var r := ValueOf(UiValues(values, names, UiRuleCorrected(flags, ruleAttrs, defaults)), names[i]);
            (Flag(flags, UserSetName(names[i])) ==> r == values[names[i]]) &&
            (!Flag(flags, UserSetName(names[i])) ==> IsDefault(r, ReverseLookup(ruleAttrs, names[i]).fqName, defaults))
  {
    UiValuesAt(values, names, UiRuleCorrected(flags, ruleAttrs, defaults), i);
  }

  /** The loop of updateUI with the one-attribute rule `rule`: every
    * scanned plug is rewritten in node order; the flags and the attribute
    * list are untouched. */
  method UiPass(node: ModifierNode, rule: (String, PlugValue) -> PlugValue)
    modifies node
    ensures node.values == UiValues(old(node.values), CgaAttributeNames(node.attributes), rule)
    ensures node.flags == old(node.flags) && node.attributes == old(node.attributes)
  {
    var names := GetNodeAttributesCorrespondingToCGA(node.attributes);
    for i := 0 to |names|
      invariant node.values == UiValues(old(node.values), names[..i], rule)
      invariant node.flags == old(node.flags) && node.attributes == old(node.attributes)
    {
      assert names[..i + 1][..i] == names[..i];
      var n := names[i];
      var v := ValueOf(node.values, n);
      if !v.OtherPlug? {
        node.values := node.values[n := rule(n, v)];
      }
    }
    assert names[..|names|] == names;
  }

  /** updateUI as written: a colour is left alone when its colour text
    * equals the default text. */
  method UpdateUI(node: ModifierNode, ruleAttrs: seq<RA.RuleAttribute>, defaults: AttributeMap)
    modifies node
    ensures node.values == UiValues(old(node.values), CgaAttributeNames(node.attributes), UiRule(node.flags, ruleAttrs, defaults))
    ensures node.flags == old(node.flags) && node.attributes == old(node.attributes)
  {
    UiPass(node, UiRule(node.flags, ruleAttrs, defaults));
  }

  /** updateUI with colours compared as channels. */
  method UpdateUICorrected(node: ModifierNode, ruleAttrs: seq<RA.RuleAttribute>, defaults: AttributeMap)
    modifies node
    ensures node.values == UiValues(old(node.values), CgaAttributeNames(node.attributes), UiRuleCorrected(node.flags, ruleAttrs, defaults))
    ensures node.flags == old(node.flags) && node.attributes == old(node.attributes)
  {
    UiPass(node, UiRuleCorrected(node.flags, ruleAttrs, defaults));
  }

  // ---------------------------------------------------------------------
  // fillAttributesFromNode
  // ---------------------------------------------------------------------

  /** The attribute-map value a user-set plug contributes: the value itself,
    * a colour as its text, an enum as its field name converted to the rule
    * attribute's type. An enum of another rule type contributes nothing.
    * `asDouble` and `asInt` are MString's number conversions. */
  function FilledValue(v: PlugValue, ruleType: AttrType, asDouble: String -> real, asInt: String -> int): (r: Option<PrtValue>)
    ensures v.ColorPlug? ==> r == Some(StringValue(Utilities.ColorString(v.red, v.green, v.blue)))
    ensures v.EnumPlug? && ruleType == StrType ==> r == Some(StringValue(ME.FieldName(v.fields, v.index)))
    ensures r.None? <==> v.OtherPlug? || (v.EnumPlug? && ruleType == OtherType)
  {
    match v
    case BoolPlug(b) => Some(BoolValue(b))
    case FloatPlug(x) => Some(FloatValue(x))
    case ColorPlug(r, g, b) => Some(StringValue(Utilities.ColorString(r, g, b)))
    case StringPlug(s) => Some(StringValue(s))
    case EnumPlug(i, _, fields) =>
      var field := ME.FieldName(fields, i);
      (match ruleType
       case StrType => Some(StringValue(field))
       case FloatType => Some(FloatValue(asDouble(field)))
       case BoolType => Some(BoolValue(asInt(field) != 0))
       case OtherType => None)
    case OtherPlug => None
  }

  /** The entry a scanned attribute would write, by name: its value under
    * the fully qualified name of its rule attribute. */
  function FillRule(ruleAttrs: seq<RA.RuleAttribute>, asDouble: String -> real, asInt: String -> int)
    : (String, PlugValue) -> Option<(String, PrtValue)>
  {
    (n: String, v: PlugValue) =>
      var ra := ReverseLookup(ruleAttrs, n);
      match FilledValue(v, ra.mType, asDouble, asInt)
      case Some(x) => Some((ra.fqName, x))
      case None => None
  }

  /** A pass of fillAttributesFromNode over the scanned names: the entries
    * of the user-set attributes, later ones overwriting earlier ones. */
  function GenerateAttributes(values: map<String, PlugValue>, flags: map<String, bool>, names: seq<String>,
                              fill: (String, PlugValue) -> Option<(String, PrtValue)>): (r: AttributeMap)
    ensures (forall i :: 0 <= i < |names| ==> !Flag(flags, UserSetName(names[i]))) ==> r == map[]
    decreases |names|
  {
    if |names| == 0 then map[]
    else
      var prev := GenerateAttributes(values, flags, names[..|names| - 1], fill);
      var n := names[|names| - 1];
      match fill(n, ValueOf(values, n))
      case Some(entry) => if Flag(flags, UserSetName(n)) then prev[entry.0 := entry.1] else prev
      case None => prev
  }

  /** names[i] is user-set and writes an entry under `key`. */
  predicate Contributes(values: map<String, PlugValue>, flags: map<String, bool>, names: seq<String>,
                        fill: (String, PlugValue) -> Option<(String, PrtValue)>, i: int, key: String)
    requires 0 <= i < |names|
  {
    Flag(flags, UserSetName(names[i])) &&
    fill(names[i], ValueOf(values, names[i])).Some? &&
    fill(names[i], ValueOf(values, names[i])).value.0 == key
  }

  /** Exactly the user-set attributes with an entry reach the attribute map,
    * under the entry's key. */
  lemma {:induction false} GenerateAttributesKeys(values: map<String, PlugValue>, flags: map<String, bool>, names: seq<String>,
                                                  fill: (String, PlugValue) -> Option<(String, PrtValue)>, key: String)
    ensures key in GenerateAttributes(values, flags, names, fill) <==>
            (exists i :: 0 <= i < |names| && Contributes(values, flags, names, fill, i, key))
    decreases |names|
  {
    if |names| > 0 {
      var last := |names| - 1;
      var prefix := names[..last];
      GenerateAttributesKeys(values, flags, prefix, fill, key);
      assert forall i :: 0 <= i < last ==>
        Contributes(values, flags, prefix, fill, i, key) == Contributes(values, flags, names, fill, i, key);
      if Contributes(values, flags, names, fill, last, key) {
        assert key in GenerateAttributes(values, flags, names, fill);
      }
    }
  }

  /** A user-set attribute's value reaches the map under its rule
    * attribute's fully qualified name, and an attribute the user did not
    * set never does. */
  lemma UserSetReachesMap(values: map<String, PlugValue>, flags: map<String, bool>, names: seq<String>,
                          ruleAttrs: seq<RA.RuleAttribute>, asDouble: String -> real, asInt: String -> int, i: nat)
    requires i < |names|
    requires Flag(flags, UserSetName(names[i]))
    requires FilledValue(ValueOf(values, names[i]), ReverseLookup(ruleAttrs, names[i]).mType, asDouble, asInt).Some?
    ensures ReverseLookup(ruleAttrs, names[i]).fqName in GenerateAttributes(values, flags, names, FillRule(ruleAttrs, asDouble, asInt))
  {
    var fill := FillRule(ruleAttrs, asDouble, asInt);
    GenerateAttributesKeys(values, flags, names, fill, ReverseLookup(ruleAttrs, names[i]).fqName);
    assert Contributes(values, flags, names, fill, i, ReverseLookup(ruleAttrs, names[i]).fqName);
  }

  /** fillAttributesFromNode: the attribute map for generation, holding
    * only what the user set. */
  method FillAttributesFromNode(node: ModifierNode, ruleAttrs: seq<RA.RuleAttribute>,
                                asDouble: String -> real, asInt: String -> int) returns (generateAttrs: AttributeMap)
    ensures generateAttrs == GenerateAttributes(node.values, node.flags, CgaAttributeNames(node.attributes),
                                                FillRule(ruleAttrs, asDouble, asInt))
  {
    var names := GetNodeAttributesCorrespondingToCGA(node.attributes);
    var fill := FillRule(ruleAttrs, asDouble, asInt);
    generateAttrs := map[];
    for i := 0 to |names|
      invariant generateAttrs == GenerateAttributes(node.values, node.flags, names[..i], fill)
    {
      assert names[..i + 1][..i] == names[..i];
      var n := names[i];
      var v := ValueOf(node.values, n);
      var entry := fill(n, v);
      if entry.Some? {
        var userSet := node.GetIsUserSet(n);
        if userSet {
          generateAttrs := generateAttrs[entry.value.0 := entry.value.1];
        }
      }
    }
    assert names[..|names|] == names;
  }
}
