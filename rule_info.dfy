// The rule-file information the CGA compiler hands the plug-in
// (prt::RuleFileInfo and its entries, annotations and annotation
// arguments), as plain values. Every module that walks rule attributes or
// rules reads this one shape.

module RuleInfo {
  import opened Wrappers
  import opened Text

  /** The type tag and value of an annotation argument (prt::AnnotationArgumentType).
    * A string argument may be null. */
  datatype ArgValue =
    | StrArg(str: Option<String>)
    | FloatArg(f: real)
    | BoolArg(b: bool)
    | OtherArg

  datatype AnnotationArg = AnnotationArg(key: String, value: ArgValue)

  datatype Annotation = Annotation(name: String, args: seq<AnnotationArg>)

  /** The return type of an attribute (prt::AnnotationArgumentType of its value). */
  datatype AttrType = BoolType | FloatType | StrType | OtherType

  /** A rule or an attribute of a rule file (prt::RuleFileInfo::Entry). */
  datatype Entry = Entry(
    name: String,
    returnType: AttrType,
    numParameters: nat,
    annotations: seq<Annotation>)

  datatype RuleFileInfo = RuleFileInfo(
    annotations: seq<Annotation>,
    attributes: seq<Entry>,
    rules: seq<Entry>)

  /** A value of a prt::AttributeMap, tagged with its primitive type. */
  datatype PrtValue =
    | StringValue(s: String)
    | FloatValue(f: real)
    | BoolValue(b: bool)
    | IntValue(i: int)
    | StringArray(ss: seq<Option<String>>)
    | FloatArray(fs: seq<real>)
    | BoolArray(bs: seq<bool>)
    | IntArray(ints: seq<int>)

  /** A prt::AttributeMap: values by fully qualified attribute name. */
  type AttributeMap = map<String, PrtValue>

  /** getString: null when the key is absent or not a string. */
  function GetString(m: AttributeMap, key: String): (r: Option<String>)
    ensures r.Some? <==> key in m && m[key].StringValue?
  {
    if key in m && m[key].StringValue? then Some(m[key].s) else None
  }

  /** getFloat: 0 when the key is absent or not a float. */
  function GetFloat(m: AttributeMap, key: String): real
  {
    if key in m && m[key].FloatValue? then m[key].f else 0.0
  }

  /** getBool: false when the key is absent or not a bool. */
  function GetBool(m: AttributeMap, key: String): bool
  {
    key in m && m[key].BoolValue? && m[key].b
  }
}
