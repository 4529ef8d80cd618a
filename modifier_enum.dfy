// The enum attribute of the modifier node (modifiers/PRTModifierEnum.cpp):
// its fields are filled from an @Enum annotation; its option list comes
// either from those static fields or, for a dynamic enum, from a "values"
// attribute of the rule's default values; the Maya fields are rewritten only
// when the option list changed.

module ModifierEnum {
  import opened Wrappers
  import opened Text
  import opened RuleInfo
  import RuleAttributes
  import Utilities

  const NullKey: String := "#NULL#"
  const RestrictedKey: String := "restricted"
  const ValuesAttrKey: String := "valuesAttr"

  /** A field of a Maya enum attribute: a name and its index. */
  datatype EnumField = EnumField(name: String, index: int)

  // ---------------------------------------------------------------------
  // The Maya enum attribute's fields
  // ---------------------------------------------------------------------

  /** The position of the first field with index `idx`. */
  function FieldPosition(fields: seq<EnumField>, idx: int): (r: Option<nat>)
    ensures r.Some? ==> r.value < |fields| && fields[r.value].index == idx
    ensures r.Some? ==> forall k :: 0 <= k < r.value ==> fields[k].index != idx
    ensures r.None? ==> forall k :: 0 <= k < |fields| ==> fields[k].index != idx
  {
    if |fields| == 0 then None
    else if fields[0].index == idx then Some(0)
    else match FieldPosition(fields[1..], idx)
      case None => None
      case Some(p) => Some(p + 1)
  }

  /** MFnEnumAttribute::fieldName: the name of the field with index `idx`,
    * empty when there is none. */
  function FieldName(fields: seq<EnumField>, idx: int): String
  {
    match FieldPosition(fields, idx)
    case None => ""
    case Some(p) => fields[p].name
  }

  /** MFnEnumAttribute::getMax: the largest field index, 0 without fields. */
  function MaxFieldIndex(fields: seq<EnumField>): (m: int)
    ensures forall k :: 0 <= k < |fields| ==> fields[k].index <= m
    ensures |fields| > 0 ==> exists k :: 0 <= k < |fields| && fields[k].index == m
    ensures |fields| == 0 ==> m == 0
  {
    if |fields| == 0 then 0
    else
      var rest := MaxFieldIndex(fields[1..]);
      if |fields| == 1 || fields[0].index >= rest then fields[0].index
      else
        assert exists k :: 0 <= k < |fields[1..]| && fields[1..][k].index == rest;
        rest
  }

  // ---------------------------------------------------------------------
  // Option lists
  // ---------------------------------------------------------------------

  /** The options of a static enum: the names of fields 1..max, in order. */
  function StaticOptions(fields: seq<EnumField>): (options: seq<String>)
    ensures |options| == if MaxFieldIndex(fields) > 0 then MaxFieldIndex(fields) else 0
    ensures forall i :: 0 <= i < |options| ==> options[i] == FieldName(fields, i + 1)
  {
    var n := if MaxFieldIndex(fields) > 0 then MaxFieldIndex(fields) else 0;
    seq(n, i requires 0 <= i < n => FieldName(fields, i + 1))
  }

  /** The key of a dynamic enum's values: the style, '$', the import and '.'
    * when there is an import, and the values attribute. `attrImport` is what
    * getImport returns for the attribute's name. */
  function DynamicValuesKey(fqName: String, attrImport: String, valuesAttr: String): String
  {
    Utilities.GetStyle(fqName) + [Utilities.StyleDelimiter] +
    (if |attrImport| > 0 then attrImport + [Utilities.ImportDelimiter] else "") + valuesAttr
  }

  /** A string option ends before its first line break. */
  function CutAtLineBreak(s: String): (r: String)
    ensures IsPrefix(r, s)
    ensures forall i :: 0 <= i < |r| ==> r[i] != '\r' && r[i] != '\n'
    ensures |r| < |s| ==> s[|r|] == '\r' || s[|r|] == '\n'
  {
    match FirstOf(s, {'\r', '\n'})
    case None => s
    case Some(p) => s[..p]
  }

  /** The options of a string array: null entries are skipped, the others
    * cut at their first line break. */
  function StringArrayOptions(ss: seq<Option<String>>): (options: seq<String>)
    ensures |options| <= |ss|
    ensures forall i :: 0 <= i < |options| ==> '\r' !in options[i] && '\n' !in options[i]
  {
    if |ss| == 0 then []
    else
      var prev := StringArrayOptions(ss[..|ss| - 1]);
      match ss[|ss| - 1]
      case None => prev
      case Some(s) => prev + [CutAtLineBreak(s)]
  }

  function FloatArrayOptions(fs: seq<real>): seq<String>
  {
    seq(|fs|, i requires 0 <= i < |fs| => FloatToWString(fs[i]))
  }

  function BoolArrayOptions(bs: seq<bool>): seq<String>
  {
    seq(|bs|, i requires 0 <= i < |bs| => BoolToWString(bs[i]))
  }

  /** The options a dynamic enum reads from the value stored under its key.
    * A float scalar is read into a bool, so it yields "0" or "1". */
  function DynamicOptions(value: Option<PrtValue>): seq<String>
  {
    match value
    case None => []
    case Some(v) =>
      match v
      case StringArray(ss) => StringArrayOptions(ss)
      case FloatArray(fs) => FloatArrayOptions(fs)
      case BoolArray(bs) => BoolArrayOptions(bs)
      case StringValue(s) => [s]
      case FloatValue(f) => [BoolToWString(f != 0.0)]
      case BoolValue(b) => [BoolToWString(b)]
      case _ => []
  }

  function Lookup(defaults: AttributeMap, key: String): Option<PrtValue>
  {
    if key in defaults then Some(defaults[key]) else None
  }

  /** getEnumOptions: the dynamic options when there is a values attribute,
    * the static fields otherwise. */
  function EnumOptions(fields: seq<EnumField>, valuesAttr: String, fqName: String, attrImport: String,
                       defaults: AttributeMap): seq<String>
  {
    if |valuesAttr| > 0 then DynamicOptions(Lookup(defaults, DynamicValuesKey(fqName, attrImport, valuesAttr)))
    else StaticOptions(fields)
  }

  /** Scalar values give one option, other non-array types none, and every
    * option of a string array is free of line breaks. */
  lemma DynamicOptionsShape(value: PrtValue)
    ensures value.StringValue? || value.FloatValue? || value.BoolValue? ==> |DynamicOptions(Some(value))| == 1
    ensures value.IntValue? || value.IntArray? ==> DynamicOptions(Some(value)) == []
    ensures value.FloatValue? ==> DynamicOptions(Some(value)) == [if value.f != 0.0 then "1" else "0"]
    ensures value.FloatArray? ==> |DynamicOptions(Some(value))| == |value.fs|
    ensures value.BoolArray? ==> |DynamicOptions(Some(value))| == |value.bs|
    ensures value.StringArray? ==> forall i :: 0 <= i < |DynamicOptions(Some(value))| ==>
              '\r' !in DynamicOptions(Some(value))[i] && '\n' !in DynamicOptions(Some(value))[i]
  {
  }

  /** A string array without null entries yields each entry, cut at its
    * first line break, in order. */
  lemma {:induction false} StringArrayOptionsNonNull(ss: seq<Option<String>>)
    requires forall i :: 0 <= i < |ss| ==> ss[i].Some?
    ensures |StringArrayOptions(ss)| == |ss|
    ensures forall i :: 0 <= i < |ss| ==> StringArrayOptions(ss)[i] == CutAtLineBreak(ss[i].value)
  {
    if |ss| > 0 {
      var n := |ss| - 1;
      StringArrayOptionsNonNull(ss[..n]);
    }
  }

  // ---------------------------------------------------------------------
  // The custom default value
  // ---------------------------------------------------------------------

  /** updateCustomEnumValue: the rule's default value as text for string,
    * float and bool attributes; unchanged for a missing string or another
    * type. */
  function CustomDefault(current: String, mType: AttrType, fqName: String, defaults: AttributeMap): (r: String)
    ensures mType == OtherType ==> r == current
    ensures mType == StrType ==> r == GetString(defaults, fqName).GetOr(current)
    ensures mType == BoolType ==> r == "0" || r == "1"
  {
    match mType
    case StrType =>
      (match GetString(defaults, fqName)
       case None => current
       case Some(s) => s)
    case FloatType => FloatToWString(GetFloat(defaults, fqName))
    case BoolType => BoolToWString(GetBool(defaults, fqName))
    case OtherType => current
  }

  /** Updating the custom default twice changes nothing the second time. */
  lemma CustomDefaultIdempotent(current: String, mType: AttrType, fqName: String, defaults: AttributeMap)
    ensures var c := CustomDefault(current, mType, fqName, defaults);
            CustomDefault(c, mType, fqName, defaults) == c
  {
  }

  // ---------------------------------------------------------------------
  // Rebuilding the fields
  // ---------------------------------------------------------------------

  /** The options as fields 1..n. */
  function NumberedFields(options: seq<String>): (fields: seq<EnumField>)
    ensures |fields| == |options|
    ensures forall i :: 0 <= i < |options| ==> fields[i] == EnumField(options[i], i + 1)
  {
    seq(|options|, i requires 0 <= i < |options| => EnumField(options[i], i + 1))
  }

  /** The custom default is added exactly when the loop found no option
    * carrying its name. */
  lemma RebuiltFieldsByIndex(options: seq<String>, customDefault: String)
    ensures LastOptionIndex(options, customDefault) == 0 ==>
              RebuiltFields(options, customDefault) == NumberedFields(options) + [EnumField(customDefault, 0)]
    ensures LastOptionIndex(options, customDefault) != 0 ==>
              RebuiltFields(options, customDefault) == NumberedFields(options)
  {
    assert NumberedFields(options) + [] == NumberedFields(options);
  }

  lemma NumberedFieldsSnoc(options: seq<String>, i: nat)
    requires i < |options|
    ensures NumberedFields(options[..i + 1]) == NumberedFields(options[..i]) + [EnumField(options[i], i + 1)]
  {
  }

  /** The fields after an update: the options at 1..n, then the custom
    * default at 0 unless it is one of the options. */
  function RebuiltFields(options: seq<String>, customDefault: String): seq<EnumField>
  {
    NumberedFields(options) + (if customDefault in options then [] else [EnumField(customDefault, 0)])
  }

  /** The index the update loop records for `x`: one more than the position
    * of the last option equal to `x`, and 0 when there is none. */
  function LastOptionIndex(options: seq<String>, x: String): (r: nat)
    ensures r == 0 <==> x !in options
    ensures r > 0 ==> r <= |options| && options[r - 1] == x
    ensures r > 0 ==> forall k :: r <= k < |options| ==> options[k] != x
  {
    if |options| == 0 then 0
    else if options[|options| - 1] == x then |options|
    else LastOptionIndex(options[..|options| - 1], x)
  }

  lemma LastOptionIndexSnoc(options: seq<String>, i: nat, x: String)
    requires i < |options|
    ensures LastOptionIndex(options[..i + 1], x) ==
            if options[i] == x then i + 1 else LastOptionIndex(options[..i], x)
  {
    assert options[..i + 1][..i] == options[..i];
  }

  /** Reading the options back from rebuilt fields gives the options. */
  lemma StaticOptionsOfRebuilt(options: seq<String>, customDefault: String)
    ensures StaticOptions(RebuiltFields(options, customDefault)) == options
  {
    var fields := RebuiltFields(options, customDefault);
    var n := |options|;
    assert forall k :: 0 <= k < |fields| ==> fields[k].index <= n;
    if n > 0 {
      assert fields[n - 1].index == n;
    }
    var m := MaxFieldIndex(fields);
    assert m == n;
    forall i | 0 <= i < n ensures FieldName(fields, i + 1) == options[i] {
      assert fields[i].index == i + 1;
      var p := FieldPosition(fields, i + 1);
      assert p.Some? && p.value <= i;
      assert fields[p.value].index == p.value + 1;
    }
  }

  /** Whatever an update computes, a second update with the same inputs
    * computes the same option list and custom default again. */
  lemma UpdateOptionsIdempotent(fields: seq<EnumField>, valuesAttr: String, fqName: String, attrImport: String,
                                defaults: AttributeMap, mType: AttrType, customDefault: String)
    ensures var options := EnumOptions(fields, valuesAttr, fqName, attrImport, defaults);
            var c := CustomDefault(customDefault, mType, fqName, defaults);
            EnumOptions(RebuiltFields(options, c), valuesAttr, fqName, attrImport, defaults) == options &&
            CustomDefault(c, mType, fqName, defaults) == c
  {
    var options := EnumOptions(fields, valuesAttr, fqName, attrImport, defaults);
    var c := CustomDefault(customDefault, mType, fqName, defaults);
    StaticOptionsOfRebuilt(options, c);
  }

  // ---------------------------------------------------------------------
  // fill
  // ---------------------------------------------------------------------

  /** The position of the last argument with key `key`. */
  function LastKeyed(args: seq<AnnotationArg>, key: String): (r: Option<nat>)
    ensures r.Some? ==> r.value < |args| && args[r.value].key == key
    ensures r.Some? ==> forall k :: r.value < k < |args| ==> args[k].key != key
    ensures r.None? ==> forall k :: 0 <= k < |args| ==> args[k].key != key
  {
    if |args| == 0 then None
    else if args[|args| - 1].key == key then Some(|args| - 1)
    else LastKeyed(args[..|args| - 1], key)
  }

  lemma LastKeyedSnoc(args: seq<AnnotationArg>, i: nat, key: String)
    requires i < |args|
    ensures LastKeyed(args[..i + 1], key) == if args[i].key == key then Some(i) else LastKeyed(args[..i], key)
  {
    assert args[..i + 1][..i] == args[..i];
  }

  /** getBool of an argument: false unless it is a bool. */
  function ArgBool(v: ArgValue): bool
  {
    v.BoolArg? && v.b
  }

  /** getStr of an argument as a string: empty unless it is a non-null string. */
  function ArgStr(v: ArgValue): String
  {
    if v.StrArg? && v.str.Some? then v.str.value else ""
  }

  /** fill's restricted flag: the last "restricted" argument, true without one. */
  function FilledRestricted(args: seq<AnnotationArg>): bool
  {
    match LastKeyed(args, RestrictedKey)
    case None => true
    case Some(i) => ArgBool(args[i].value)
  }

  /** fill's values attribute: the last "valuesAttr" argument, else unchanged. */
  function FilledValuesAttr(args: seq<AnnotationArg>, valuesAttr: String): String
  {
    match LastKeyed(args, ValuesAttrKey)
    case None => valuesAttr
    case Some(i) => ArgStr(args[i].value)
  }

  /** The field text of a #NULL#-keyed argument; none for other types. */
  function FieldText(v: ArgValue): Option<String>
  {
    match v
    case BoolArg(b) => Some(BoolToWString(b))
    case FloatArg(f) => Some(FloatToWString(f))
    case StrArg(s) => Some(s.GetOr(""))
    case OtherArg => None
  }

  /** The fields fill adds: one per #NULL#-keyed bool, float or string
    * argument, numbered from 1 without gaps. */
  function FilledFields(args: seq<AnnotationArg>): (fields: seq<EnumField>)
    ensures |fields| <= |args|
    ensures forall k :: 0 <= k < |fields| ==> fields[k].index == k + 1
  {
    if |args| == 0 then []
    else
      var prev := FilledFields(args[..|args| - 1]);
      var arg := args[|args| - 1];
      if arg.key == NullKey && FieldText(arg.value).Some? then prev + [EnumField(FieldText(arg.value).value, |prev| + 1)]
      else prev
  }

  lemma FilledFieldsSnoc(args: seq<AnnotationArg>, i: nat)
    requires i < |args|
    ensures FilledFields(args[..i + 1]) ==
      var prev := FilledFields(args[..i]);
      if args[i].key == NullKey && FieldText(args[i].value).Some? then
        prev + [EnumField(FieldText(args[i].value).value, |prev| + 1)]
      else prev
  {
    assert args[..i + 1][..i] == args[..i];
  }

  /** Without #NULL#-keyed arguments fill adds no field. */
  lemma {:induction false} FilledFieldsNeedNullKeys(args: seq<AnnotationArg>)
    requires forall k :: 0 <= k < |args| ==> args[k].key != NullKey
    ensures FilledFields(args) == []
  {
    if |args| > 0 {
      FilledFieldsNeedNullKeys(args[..|args| - 1]);
    }
  }

  // ---------------------------------------------------------------------
  // The enum
  // ---------------------------------------------------------------------

  class PRTModifierEnum {
    /** The name of the Maya enum attribute (mAttr.name()). */
    var attrName: String
    /** The fields of the Maya enum attribute. */
    var fields: seq<EnumField>
    var restricted: bool
    var valuesAttr: String
    var customDefaultValue: String
    var enumOptions: seq<String>

    constructor (name: String)
      ensures attrName == name && fields == [] && restricted
      ensures valuesAttr == "" && customDefaultValue == "" && enumOptions == []
    {
      attrName := name;
      fields := [];
      restricted := true;
      valuesAttr := "";
      customDefaultValue := "";
      enumOptions := [];
    }

    /** isDynamic: the enum has a values attribute. */
    method IsDynamic() returns (dynamic: bool)
      ensures dynamic <==> |valuesAttr| > 0
    {
      return |valuesAttr| > 0;
    }

    /** getEnumOptions: the dynamic options, or the names of fields 1..max. */
    method GetEnumOptions(ruleAttr: RuleAttributes.RuleAttribute, defaults: AttributeMap, attrImport: String)
      returns (options: seq<String>)
      ensures options == EnumOptions(fields, valuesAttr, ruleAttr.fqName, attrImport, defaults)
    {
      var dynamic := IsDynamic();
      if dynamic {
        options := GetDynamicEnumOptions(ruleAttr, defaults, attrImport);
        return;
      }
      options := [];
      var maxVal := MaxFieldIndex(fields);
      var currIdx := 1;
      while currIdx <= maxVal
        invariant 1 <= currIdx <= (if maxVal > 0 then maxVal else 0) + 1
        invariant options == StaticOptions(fields)[..currIdx - 1]
      {
        options := options + [FieldName(fields, currIdx)];
        currIdx := currIdx + 1;
      }
      assert options == StaticOptions(fields);
    }

    /** getDynamicEnumOptions: the options read from the values attribute;
      * none for a static enum. */
    method GetDynamicEnumOptions(ruleAttr: RuleAttributes.RuleAttribute, defaults: AttributeMap, attrImport: String)
      returns (options: seq<String>)
      ensures |valuesAttr| > 0 ==>
        options == DynamicOptions(Lookup(defaults, DynamicValuesKey(ruleAttr.fqName, attrImport, valuesAttr)))
      ensures |valuesAttr| == 0 ==> options == []
    {
      options := [];
      var dynamic := IsDynamic();
      if !dynamic {
        return;
      }
      var attrStyle := Utilities.GetStyle(ruleAttr.fqName);
      var import_ := attrImport;
      if |import_| > 0 {
        import_ := import_ + [Utilities.ImportDelimiter];
      }
      var key := attrStyle + [Utilities.StyleDelimiter] + import_ + valuesAttr;
      assert key == DynamicValuesKey(ruleAttr.fqName, attrImport, valuesAttr);
      if key !in defaults {
        return;
      }
      match defaults[key]
      case StringArray(ss) =>
        options := CollectStrings(ss);
      case FloatArray(fs) =>
        options := CollectFloats(fs);
      case BoolArray(bs) =>
        options := CollectBools(bs);
      case StringValue(s) =>
        options := [s];
      case FloatValue(f) =>
        var currFloat: bool := f != 0.0;
        options := [BoolToWString(currFloat)];
      case BoolValue(b) =>
        options := [BoolToWString(b)];
      case IntValue(_) =>
      case IntArray(_) =>
    }

    /** updateCustomEnumValue. */
    method UpdateCustomEnumValue(ruleAttr: RuleAttributes.RuleAttribute, defaults: AttributeMap)
      modifies this
      ensures customDefaultValue == CustomDefault(old(customDefaultValue), ruleAttr.mType, ruleAttr.fqName, defaults)
      ensures attrName == old(attrName) && fields == old(fields) && restricted == old(restricted)
      ensures valuesAttr == old(valuesAttr) && enumOptions == old(enumOptions)
    {
      var defMStringVal;
      match ruleAttr.mType {
        case StrType =>
          var defStringVal := GetString(defaults, ruleAttr.fqName);
          if defStringVal.None? {
            return;
          }
          defMStringVal := defStringVal.value;
        case FloatType =>
          defMStringVal := FloatToWString(GetFloat(defaults, ruleAttr.fqName));
        case BoolType =>
          defMStringVal := BoolToWString(GetBool(defaults, ruleAttr.fqName));
        case OtherType =>
          return;
      }
      customDefaultValue := defMStringVal;
    }

    /** updateOptions: recompute the option list and the custom default;
      * when the list is unchanged touch nothing else and keep the
      * selection, otherwise rebuild the fields and re-select the last
      * option named like the old selection (0 when there is none). */
    method UpdateOptions(ruleAttributes: map<String, RuleAttributes.RuleAttribute>, defaults: AttributeMap,
                         attrImport: String, selectedEnumIdx: int)
      returns (changed: bool, newSelectedEnumIdx: int)
      requires attrName in ruleAttributes
      modifies this
      ensures attrName == old(attrName) && restricted == old(restricted) && valuesAttr == old(valuesAttr)
      ensures var ruleAttr := ruleAttributes[attrName];
              customDefaultValue == CustomDefault(old(customDefaultValue), ruleAttr.mType, ruleAttr.fqName, defaults)
      ensures var newOptions := EnumOptions(old(fields), old(valuesAttr), ruleAttributes[attrName].fqName, attrImport, defaults);
              (changed <==> newOptions != old(enumOptions)) &&
              (!changed ==> newSelectedEnumIdx == selectedEnumIdx && fields == old(fields) && enumOptions == old(enumOptions)) &&
              (changed ==> enumOptions == newOptions && fields == RebuiltFields(newOptions, customDefaultValue) &&
                           newSelectedEnumIdx == LastOptionIndex(newOptions, FieldName(old(fields), selectedEnumIdx)))
    {
      var ruleAttr := ruleAttributes[attrName];
      var newEnumOptions := GetEnumOptions(ruleAttr, defaults, attrImport);
      UpdateCustomEnumValue(ruleAttr, defaults);
      if newEnumOptions == enumOptions {
        return false, selectedEnumIdx;
      }
      var oldSelectedOption := FieldName(fields, selectedEnumIdx);
      // clearEnumValues
      fields := [];
      enumOptions := newEnumOptions;
      newSelectedEnumIdx := AddOptionFields(oldSelectedOption);
      changed := true;
    }

    /** The field-building part of updateOptions: after the fields were
      * cleared, add the options as fields 1..n, then the custom default at 0
      * unless an option carries its name; report the index of the last
      * option named `oldSelectedOption`. */
    method AddOptionFields(oldSelectedOption: String) returns (newSelectedEnumIdx: int)
      requires fields == []
      modifies this
      ensures fields == RebuiltFields(enumOptions, customDefaultValue)
      ensures newSelectedEnumIdx == LastOptionIndex(enumOptions, oldSelectedOption)
      ensures attrName == old(attrName) && restricted == old(restricted) && valuesAttr == old(valuesAttr)
      ensures enumOptions == old(enumOptions) && customDefaultValue == old(customDefaultValue)
    {
      var added, customDefaultIdx, selectedIdx := NumberOptions(enumOptions, customDefaultValue, oldSelectedOption);
      RebuiltFieldsByIndex(enumOptions, customDefaultValue);
      if customDefaultIdx == 0 {
        added := added + [EnumField(customDefaultValue, 0)];
      }
      fields := added;
      newSelectedEnumIdx := selectedIdx;
    }

    /** fill: restricted by default, a "valuesAttr" argument makes the enum
      * dynamic, and #NULL#-keyed arguments become fields 1, 2, .... */
    method Fill(annot: Annotation)
      modifies this
      ensures restricted == FilledRestricted(annot.args)
      ensures valuesAttr == FilledValuesAttr(annot.args, old(valuesAttr))
      ensures fields == old(fields) + FilledFields(annot.args)
      ensures attrName == old(attrName) && customDefaultValue == old(customDefaultValue)
      ensures enumOptions == old(enumOptions)
    {
      restricted := true;
      var enumIndex := 1;
      var args := annot.args;
      for arg := 0 to |args|
        invariant restricted == FilledRestricted(args[..arg])
        invariant valuesAttr == FilledValuesAttr(args[..arg], old(valuesAttr))
        invariant fields == old(fields) + FilledFields(args[..arg])
        invariant enumIndex == |FilledFields(args[..arg])| + 1
        invariant attrName == old(attrName) && customDefaultValue == old(customDefaultValue)
        invariant enumOptions == old(enumOptions)
      {
        enumIndex := FillArg(args, arg, enumIndex, old(valuesAttr), old(fields));
      }
      assert args[..|args|] == args;
    }

    /** One argument of fill. */
    method FillArg(args: seq<AnnotationArg>, arg: nat, enumIndex: int,
                   ghost valuesAttr0: String, ghost fields0: seq<EnumField>) returns (next: int)
      requires arg < |args|
      requires restricted == FilledRestricted(args[..arg])
      requires valuesAttr == FilledValuesAttr(args[..arg], valuesAttr0)
      requires fields == fields0 + FilledFields(args[..arg])
      requires enumIndex == |FilledFields(args[..arg])| + 1
      modifies this
      ensures restricted == FilledRestricted(args[..arg + 1])
      ensures valuesAttr == FilledValuesAttr(args[..arg + 1], valuesAttr0)
      ensures fields == fields0 + FilledFields(args[..arg + 1])
      ensures next == |FilledFields(args[..arg + 1])| + 1
      ensures attrName == old(attrName) && customDefaultValue == old(customDefaultValue)
      ensures enumOptions == old(enumOptions)
    {
      next := enumIndex;
      var key := args[arg].key;
      if key != NullKey {
        LastKeyedSnoc(args, arg, RestrictedKey);
        LastKeyedSnoc(args, arg, ValuesAttrKey);
        FilledFieldsSnoc(args, arg);
        if key == RestrictedKey {
          restricted := ArgBool(args[arg].value);
        }
        if key == ValuesAttrKey {
          valuesAttr := ArgStr(args[arg].value);
        }
        return;
      }
      FillNullKeyed(args, arg, valuesAttr0);
      var text := FieldText(args[arg].value);
      if text.Some? {
        fields := fields + [EnumField(text.value, enumIndex)];
        next := enumIndex + 1;
      }
    }
  }

  /** A #NULL#-keyed argument changes neither the restricted flag nor the
    * values attribute, and adds the field its value spells, if any. */
  lemma FillNullKeyed(args: seq<AnnotationArg>, arg: nat, valuesAttr0: String)
    requires arg < |args| && args[arg].key == NullKey
    ensures FilledRestricted(args[..arg + 1]) == FilledRestricted(args[..arg])
    ensures FilledValuesAttr(args[..arg + 1], valuesAttr0) == FilledValuesAttr(args[..arg], valuesAttr0)
    ensures FilledFields(args[..arg + 1]) ==
      var prev := FilledFields(args[..arg]);
      if FieldText(args[arg].value).Some? then prev + [EnumField(FieldText(args[arg].value).value, |prev| + 1)]
      else prev
  {
    LastKeyedSnoc(args, arg, RestrictedKey);
    LastKeyedSnoc(args, arg, ValuesAttrKey);
    FilledFieldsSnoc(args, arg);
  }

  /** The loop of updateOptions: the options numbered from 1, and the
    * indices of the last options named `custom` and `selected`. */
  method NumberOptions(options: seq<String>, custom: String, selected: String)
    returns (fields: seq<EnumField>, customDefaultIdx: int, selectedIdx: int)
    ensures fields == NumberedFields(options)
    ensures customDefaultIdx == LastOptionIndex(options, custom)
    ensures selectedIdx == LastOptionIndex(options, selected)
  {
    fields := [];
    customDefaultIdx := 0;
    selectedIdx := 0;
    var currIdx := 1;
    for i := 0 to |options|
      invariant currIdx == i + 1
      invariant fields == NumberedFields(options[..i])
      invariant customDefaultIdx == LastOptionIndex(options[..i], custom)
      invariant selectedIdx == LastOptionIndex(options[..i], selected)
    {
      LastOptionIndexSnoc(options, i, custom);
      LastOptionIndexSnoc(options, i, selected);
      NumberedFieldsSnoc(options, i);
      var option := options[i];
      fields := fields + [EnumField(option, currIdx)];
      if option == custom {
        customDefaultIdx := currIdx;
      }
      if option == selected {
        selectedIdx := currIdx;
      }
      currIdx := currIdx + 1;
    }
    assert options[..|options|] == options;
  }

  /** Collect the options of a string array. */
  method CollectStrings(ss: seq<Option<String>>) returns (options: seq<String>)
    ensures options == StringArrayOptions(ss)
  {
    options := [];
    for enumIndex := 0 to |ss|
      invariant options == StringArrayOptions(ss[..enumIndex])
    {
      assert ss[..enumIndex + 1][..enumIndex] == ss[..enumIndex];
      if ss[enumIndex].None? {
        continue;
      }
      // remove newlines from strings, because they break the Maya UI
      var currString := ss[enumIndex].value;
      var cutoff := FirstOf(currString, {'\r', '\n'});
      var currStringView := if cutoff.Some? then currString[..cutoff.value] else currString;
      options := options + [currStringView];
    }
    assert ss[..|ss|] == ss;
  }

  /** Collect the options of a float array. */
  method CollectFloats(fs: seq<real>) returns (options: seq<String>)
    ensures options == FloatArrayOptions(fs)
  {
    options := [];
    for enumIndex := 0 to |fs|
      invariant options == FloatArrayOptions(fs[..enumIndex])
    {
      assert FloatArrayOptions(fs[..enumIndex + 1]) == FloatArrayOptions(fs[..enumIndex]) + [FloatToWString(fs[enumIndex])];
      options := options + [FloatToWString(fs[enumIndex])];
    }
    assert fs[..|fs|] == fs;
  }

  /** Collect the options of a bool array. */
  method CollectBools(bs: seq<bool>) returns (options: seq<String>)
    ensures options == BoolArrayOptions(bs)
  {
    options := [];
    for enumIndex := 0 to |bs|
      invariant options == BoolArrayOptions(bs[..enumIndex])
    {
      assert BoolArrayOptions(bs[..enumIndex + 1]) == BoolArrayOptions(bs[..enumIndex]) + [BoolToWString(bs[enumIndex])];
      options := options + [BoolToWString(bs[enumIndex])];
    }
    assert bs[..|bs|] == bs;
  }

  /** An update right after an update reports no change and keeps the
    * selection. */
  method UpdateOptionsTwice(e: PRTModifierEnum, ruleAttributes: map<String, RuleAttributes.RuleAttribute>,
                            defaults: AttributeMap, attrImport: String, selectedEnumIdx: int)
    returns (firstIdx: int, secondChanged: bool, secondIdx: int)
    requires e.attrName in ruleAttributes
    modifies e
    ensures !secondChanged && secondIdx == firstIdx
  {
    var changed;
    changed, firstIdx := e.UpdateOptions(ruleAttributes, defaults, attrImport, selectedEnumIdx);
    var ruleAttr := ruleAttributes[e.attrName];
    UpdateOptionsIdempotent(old(e.fields), e.valuesAttr, ruleAttr.fqName, attrImport, defaults, ruleAttr.mType,
                            old(e.customDefaultValue));
    secondChanged, secondIdx := e.UpdateOptions(ruleAttributes, defaults, attrImport, firstIdx);
  }
}
