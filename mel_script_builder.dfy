// The MEL script builders: each emitter appends one command to a text
// buffer (the commandStream member), and execute hands the whole buffer to
// Maya. MelScriptBuilder is utils/MELScriptBuilder.cpp;
// LegacyMelScriptBuilder is the older util/MELScriptBuilder.cpp.
//
// Doubles are written with the stream's default formatting, which is not
// modelled: the double emitters take the text each number prints as.

module MelScriptBuilder {
  import opened Wrappers
  import opened Text
  import Utilities

  // ---------------------------------------------------------------------
  // MEL variables, literals and attribute expressions
  // ---------------------------------------------------------------------

  /** A MEL variable name: non-empty and without the leading '$'. */
  predicate ValidVariable(name: String)
  {
    |name| > 0 && name[0] != '$'
  }

  /** MELVariable::mel: the name with its '$'. */
  function Mel(name: String): (r: String)
    requires ValidVariable(name)
    ensures |r| == |name| + 1 && r[0] == '$' && r[1..] == name
  {
    "$" + name
  }

  /** MELStringLiteral::mel: the text in double quotes, unescaped. It is
    * what std::quoted writes only for a text without '"' and '\'. */
  function MelLiteral(s: String): (r: String)
    ensures |r| == |s| + 2 && r[0] == '"' && r[|r| - 1] == '"' && r[1..|r| - 1] == s
    ensures (forall i :: 0 <= i < |s| ==> !NeedsEscape(s[i])) ==> r == "\"" + Escaped(s) + "\""
  {
    EscapedPlain(s);
    "\"" + s + "\""
  }

  /** A text with nothing to escape is its own escaped body. */
  lemma {:induction false} EscapedPlain(s: String)
    ensures (forall i :: 0 <= i < |s| ==> !NeedsEscape(s[i])) ==> Escaped(s) == s
    decreases |s|
  {
    if |s| > 0 {
      EscapedPlain(s[1..]);
    }
  }

  /** The characters std::quoted escapes: the delimiter and the escape. */
  predicate NeedsEscape(c: char)
  {
    c == '"' || c == '\\'
  }

  /** The body std::quoted writes: every '"' and '\' preceded by a '\'. */
  function Escaped(s: String): (r: String)
    ensures |r| >= |s|
  {
    if |s| == 0 then []
    else (if NeedsEscape(s[0]) then ['\\', s[0]] else [s[0]]) + Escaped(s[1..])
  }

  /** What reading a quoted body back yields: a '\' takes the next
    * character literally. */
  function Unescaped(t: String): String
  {
    if |t| == 0 then []
    else if t[0] == '\\' && |t| >= 2 then [t[1]] + Unescaped(t[2..])
    else [t[0]] + Unescaped(t[1..])
  }

  /** std::quoted is undone by reading the quoted text back. */
  lemma {:induction false} EscapedRoundTrip(s: String)
    ensures Unescaped(Escaped(s)) == s
  {
    if |s| > 0 {
      EscapedRoundTrip(s[1..]);
      var e := Escaped(s);
      if NeedsEscape(s[0]) {
        assert e == ['\\', s[0]] + Escaped(s[1..]);
        assert e[2..] == Escaped(s[1..]);
      } else {
        assert e == [s[0]] + Escaped(s[1..]);
        assert e[1..] == Escaped(s[1..]);
      }
    }
  }

  /** An escaped body has no '"' that is not preceded by a '\'. */
  lemma {:induction false} EscapedQuotesAreEscaped(s: String, i: nat)
    requires i < |Escaped(s)| && Escaped(s)[i] == '"'
    ensures i > 0 && Escaped(s)[i - 1] == '\\'
  {
    if |s| > 0 {
      var head := if NeedsEscape(s[0]) then ['\\', s[0]] else [s[0]];
      assert Escaped(s) == head + Escaped(s[1..]);
      if i >= |head| {
        EscapedQuotesAreEscaped(s[1..], i - |head|);
      }
    }
  }

  /** std::quoted with the default delimiter and escape. */
  function Quoted(s: String): String
  {
    "\"" + Escaped(s) + "\""
  }

  /** An attribute name as the emitters take it: non-empty, without the
    * leading '.'. */
  predicate ValidAttribute(attribute: String)
  {
    |attribute| > 0 && attribute[0] != '.'
  }

  /** composeAttributeExpression: ( $node + ".attribute" ), the attribute
    * part quoted. */
  function AttributeExpression(node: String, attribute: String): (r: String)
    requires ValidVariable(node) && ValidAttribute(attribute)
    ensures IsPrefix("($" + node + " + \".", r)
    ensures r[|r| - 1] == ')'
  {
    var q := Quoted("." + attribute);
    assert q == "\"" + Escaped("." + attribute) + "\"";
    assert Escaped("." + attribute)[..1] == ".";
    "(" + Mel(node) + " + " + q + ")"
  }

  // ---------------------------------------------------------------------
  // Enum options
  // ---------------------------------------------------------------------

  const EnumBannedChars: String := "=:\\;\r\n"

  /** The banned characters replaced by '_' (replaceAllOf). */
  function ReplacedOf(s: String, banned: String): (r: String)
    ensures |r| == |s|
    ensures forall i :: 0 <= i < |s| ==> r[i] == if s[i] in banned then '_' else s[i]
  {
    seq(|s|, i requires 0 <= i < |s| => if s[i] in banned then '_' else s[i])
  }

  /** cleanEnumOptionName: an empty name becomes " ", otherwise the banned
    * characters are replaced. */
  function CleanEnumOptionName(optionName: String): (r: String)
    ensures |r| > 0
    ensures forall i :: 0 <= i < |r| ==> r[i] !in EnumBannedChars
    ensures |optionName| > 0 ==> |r| == |optionName|
    ensures |optionName| > 0 && (forall i :: 0 <= i < |optionName| ==> optionName[i] !in EnumBannedChars)
            ==> r == optionName
  {
    if |optionName| == 0 then " " else ReplacedOf(optionName, EnumBannedChars)
  }

  lemma CleanEnumOptionNameIdempotent(optionName: String)
    ensures CleanEnumOptionName(CleanEnumOptionName(optionName)) == CleanEnumOptionName(optionName)
  {
  }

  /** One enum entry: the cleaned name, '=', the index. */
  function EnumEntry(name: String, index: nat): (r: String)
    ensures ':' !in r
    ensures |r| >= 3
  {
    EntryWithoutColon(CleanEnumOptionName(name), NatToString(index));
    CleanEnumOptionName(name) + "=" + NatToString(index)
  }

  lemma EntryWithoutColon(clean: String, digits: String)
    requires forall i :: 0 <= i < |clean| ==> clean[i] !in EnumBannedChars
    requires forall i :: 0 <= i < |digits| ==> IsDigit(digits[i])
    ensures ':' !in clean + "=" + digits
  {
    var r := clean + "=" + digits;
    forall i | 0 <= i < |r| ensures r[i] != ':' {
      if i < |clean| {
        assert r[i] == clean[i];
      } else if i > |clean| {
        assert r[i] == digits[i - |clean| - 1];
      }
    }
  }

  /** The entries of an enum: the custom default at 0 when present, then
    * option i at i + 1. */
  function EnumEntries(options: seq<String>, customDefault: Option<String>): (entries: seq<String>)
    ensures |entries| == |options| + (if customDefault.Some? then 1 else 0)
    ensures forall i :: 0 <= i < |entries| ==> |entries[i]| > 0 && ':' !in entries[i]
  {
    if |options| == 0 then
      (if customDefault.Some? then [EnumEntry(customDefault.value, 0)] else [])
    else
      EnumEntries(options[..|options| - 1], customDefault) + [EnumEntry(options[|options| - 1], |options|)]
  }

  /** Where the options start among the entries. */
  function Offset(customDefault: Option<String>): nat
  {
    if customDefault.Some? then 1 else 0
  }

  /** Option i is entry i + 1 of the enum, shifted past the custom
    * default when there is one. */
  lemma {:induction false} EnumEntriesIndexed(options: seq<String>, customDefault: Option<String>, i: nat)
    requires i < |options|
    ensures EnumEntries(options, customDefault)[i + Offset(customDefault)] == EnumEntry(options[i], i + 1)
    decreases |options|
  {
    var front := options[..|options| - 1];
    var prev := EnumEntries(front, customDefault);
    var last := EnumEntry(options[|options| - 1], |options|);
    assert EnumEntries(options, customDefault) == prev + [last];
    var k := i + Offset(customDefault);
    if i < |front| {
      assert k < |prev|;
      assert (prev + [last])[k] == prev[k];
      EnumEntriesIndexed(front, customDefault, i);
      assert front[i] == options[i];
    } else {
      assert k == |prev|;
    }
  }

  /** The custom default is entry 0, with index 0. */
  lemma {:induction false} EnumEntriesCustomFirst(options: seq<String>, customDefault: Option<String>)
    requires customDefault.Some?
    ensures EnumEntries(options, customDefault)[0] == EnumEntry(customDefault.value, 0)
    decreases |options|
  {
    if |options| > 0 {
      var front := options[..|options| - 1];
      assert EnumEntries(options, customDefault) ==
             EnumEntries(front, customDefault) + [EnumEntry(options[|options| - 1], |options|)];
      EnumEntriesCustomFirst(front, customDefault);
    }
  }

  lemma EnumEntriesSnoc(options: seq<String>, customDefault: Option<String>, i: nat)
    requires i < |options|
    ensures EnumEntries(options[..i + 1], customDefault) ==
            EnumEntries(options[..i], customDefault) + [EnumEntry(options[i], i + 1)]
  {
    assert options[..i + 1][..i] == options[..i];
  }

  /** The enum string: the entries separated by ':', or " " when there are
    * none, so that the enum is never emptied. */
  function EnumString(options: seq<String>, customDefault: Option<String>): (r: String)
    ensures |r| > 0
    ensures r == " " <==> |options| == 0 && customDefault.None?
  {
    var entries := EnumEntries(options, customDefault);
    if |entries| == 0 then " "
    else
      Utilities.JoinedEnds(entries, ":");
      Utilities.Joined(entries, ":")
  }

  // ---------------------------------------------------------------------
  // Splitting the enum string
  // ---------------------------------------------------------------------

  /** The pieces of `s` between occurrences of `c`. */
  function Split(s: String, c: char): (pieces: seq<String>)
    ensures |pieces| > 0
  {
    match LastOf(s, {c})
    case None => [s]
    case Some(p) => Split(s[..p], c) + [s[p + 1..]]
  }

  /** The last separator of f + c + last is the one after f. */
  lemma {:induction false} LastSeparator(f: String, c: char, last: String)
    requires c !in last
    ensures LastOf(f + [c] + last, {c}) == Some(|f|)
    decreases |last|
  {
    var s := f + [c] + last;
    if |last| > 0 {
      var front := last[..|last| - 1];
      assert s[|s| - 1] == last[|last| - 1];
      assert last[|last| - 1] in last;
      assert s[..|s| - 1] == f + [c] + front;
      LastSeparator(f, c, front);
    }
  }

  /** Splitting the joined pieces at the separator gives the pieces back,
    * when no piece holds the separator. */
  lemma {:induction false} SplitJoined(xs: seq<String>, c: char)
    requires |xs| > 0
    requires forall i :: 0 <= i < |xs| ==> c !in xs[i]
    ensures Split(Utilities.Joined(xs, [c]), c) == xs
  {
    if |xs| == 1 {
      assert Utilities.Joined(xs, [c]) == xs[0];
    } else {
      var front := xs[..|xs| - 1];
      var last := xs[|xs| - 1];
      var f := Utilities.Joined(front, [c]);
      var s := f + [c] + last;
      assert Utilities.Joined(xs, [c]) == s;
      LastSeparator(f, c, last);
      assert s[..|f|] == f;
      assert s[|f| + 1..] == last;
      SplitJoined(front, c);
      assert front + [last] == xs;
    }
  }

  /** An entry splits at '=' into the cleaned option name and its index. */
  lemma EnumEntryParts(name: String, index: nat)
    ensures Split(EnumEntry(name, index), '=') == [CleanEnumOptionName(name), NatToString(index)]
  {
    var parts := [CleanEnumOptionName(name), NatToString(index)];
    assert Utilities.Joined(parts, "=") == Utilities.Joined(parts[..1], "=") + "=" + parts[1];
    assert parts[..1] == [CleanEnumOptionName(name)];
    SplitJoined(parts, '=');
  }

  /** The enum string names every entry: split at ':' it gives back the
    * entries, custom default first. */
  lemma EnumStringEntries(options: seq<String>, customDefault: Option<String>)
    requires |options| > 0 || customDefault.Some?
    ensures Split(EnumString(options, customDefault), ':') == EnumEntries(options, customDefault)
  {
    SplitJoined(EnumEntries(options, customDefault), ':');
  }

  // ---------------------------------------------------------------------
  // Commands
  // ---------------------------------------------------------------------

  // The fixed words of the commands.
  const SetAttrCmd: String := "setAttr "
  const SetAttrDouble2Cmd: String := "setAttr -type double2 "
  const SetAttrDouble3Cmd: String := "setAttr -type double3 "
  const SetAttrStringCmd: String := "setAttr -type \"string\" "
  const AddAttrEnumCmd: String := "addAttr -e -en "
  const ConnectAttrCmd: String := "connectAttr -force "
  const SetsCreateCmd: String := "= `sets -empty -renderable true -noSurfaceShader true -name "
  const CreateShaderCmd: String := " = `shadingNode -asShader -skipSelect -name "
  const CreateTextureCmd: String := "= `shadingNode -asTexture -skipSelect -name "
  const UndoQueryCmd: String := " = `undoInfo -q -state`"
  const UndoSetCmd: String := "undoInfo -stateWithoutFlush "
  const InitialShadingGroupCmd: String := "sets -forceElement initialShadingGroup "
  const ForceElementCmd: String := "sets -forceElement "
  const WorkspaceCmd: String := "workspace -q -rd"

  /** The commands the builder emits. */
  datatype Command =
    | SetAttrBool(node: String, attribute: String, b: bool)
    | SetAttrInt(node: String, attribute: String, i: int)
    | SetAttrDouble(node: String, attribute: String, v: String)
    | SetAttrDouble2(node: String, attribute: String, v1: String, v2: String)
    | SetAttrDouble3(node: String, attribute: String, v1: String, v2: String, v3: String)
    | SetAttrVariable(node: String, attribute: String, variable: String)
    | SetAttrLiteral(node: String, attribute: String, literal: String)
    | SetAttrEnumOptions(node: String, attribute: String, options: seq<String>, customDefault: Option<String>)
    | ConnectAttr(srcNode: String, srcAttr: String, dstNode: String, dstAttr: String)
    | Python(pythonCmd: String)
    | DeclInt(variable: String)
    | DeclString(variable: String)
    | SetVar(variable: String, literal: String)
    | SetsCreate(variable: String)
    | SetsAddFaceRange(setName: String, meshName: String, faceStart: int, faceEnd: int)
    | SetsUseInitialShadingGroup(meshName: String)
    | CreateShader(shaderType: String, variable: String)
    | CreateTextureShadingNode(variable: String)
    | GetUndoState(variable: String)
    | SetUndoStateVariable(variable: String)
    | SetUndoState(on: bool)
    | AddCmdLine(line: String)
    | GetWorkspaceDir

  /** What the emitters assert of their arguments. */
  predicate WellFormed(c: Command)
  {
    match c
    case SetAttrBool(n, a, _) => ValidVariable(n) && ValidAttribute(a)
    case SetAttrInt(n, a, _) => ValidVariable(n) && ValidAttribute(a)
    case SetAttrDouble(n, a, _) => ValidVariable(n) && ValidAttribute(a)
    case SetAttrDouble2(n, a, _, _) => ValidVariable(n) && ValidAttribute(a)
    case SetAttrDouble3(n, a, _, _, _) => ValidVariable(n) && ValidAttribute(a)
    case SetAttrVariable(n, a, v) => ValidVariable(n) && ValidAttribute(a) && ValidVariable(v)
    case SetAttrLiteral(n, a, _) => ValidVariable(n) && ValidAttribute(a)
    case SetAttrEnumOptions(n, a, _, _) => ValidVariable(n) && ValidAttribute(a)
    case ConnectAttr(sn, sa, dn, da) => ValidVariable(sn) && ValidAttribute(sa) && ValidVariable(dn) && ValidAttribute(da)
    case DeclInt(v) => ValidVariable(v)
    case DeclString(v) => ValidVariable(v)
    case SetVar(v, _) => ValidVariable(v)
    case SetsCreate(v) => ValidVariable(v)
    case CreateShader(_, v) => ValidVariable(v)
    case CreateTextureShadingNode(v) => ValidVariable(v)
    case GetUndoState(v) => ValidVariable(v)
    case SetUndoStateVariable(v) => ValidVariable(v)
    case _ => true
  }

  /** One MEL statement on a line of its own. */
  function Statement(body: String): (r: String)
    ensures |r| >= 2 && r[|r| - 1] == '\n' && r[|r| - 2] == ';'
  {
    body + ";\n"
  }

  /** The commands that address node attributes. */
  predicate IsAttributeCommand(c: Command)
  {
    c.SetAttrBool? || c.SetAttrInt? || c.SetAttrDouble? || c.SetAttrDouble2? || c.SetAttrDouble3? ||
    c.SetAttrVariable? || c.SetAttrLiteral? || c.SetAttrEnumOptions? || c.ConnectAttr?
  }

  /** The text a command appends to the buffer. Every command but
    * setsUseInitialShadingGroup ends its line. */
  function CommandText(c: Command): (r: String)
    requires WellFormed(c)
    ensures |r| > 0
    ensures r[|r| - 1] == '\n' <==> !c.SetsUseInitialShadingGroup?
  {
    if IsAttributeCommand(c) then
      assert !c.SetsUseInitialShadingGroup?;
      AttributeCommandText(c)
    else OtherCommandText(c)
  }

  function AttributeCommandText(c: Command): (r: String)
    requires WellFormed(c) && IsAttributeCommand(c)
    ensures |r| >= 2 && r[|r| - 1] == '\n'
  {
    match c
    case SetAttrBool(n, a, b) =>
      Statement(SetAttrCmd + AttributeExpression(n, a) + " " + (if b then "1" else "0"))
    case SetAttrInt(n, a, i) =>
      Statement(SetAttrCmd + AttributeExpression(n, a) + " " + IntToString(i))
    case SetAttrDouble(n, a, v) =>
      Statement(SetAttrCmd + AttributeExpression(n, a) + " " + v)
    case SetAttrDouble2(n, a, v1, v2) =>
      Statement(SetAttrDouble2Cmd + AttributeExpression(n, a) + " " + v1 + " " + v2)
    case SetAttrDouble3(n, a, v1, v2, v3) =>
      Statement(SetAttrDouble3Cmd + AttributeExpression(n, a) + " " + v1 + " " + v2 + " " + v3)
    case SetAttrVariable(n, a, v) =>
      Statement(SetAttrStringCmd + AttributeExpression(n, a) + " " + Mel(v))
    case SetAttrLiteral(n, a, l) =>
      Statement(SetAttrStringCmd + AttributeExpression(n, a) + " " + MelLiteral(l))
    case SetAttrEnumOptions(n, a, options, customDefault) =>
      EnumOptionsText(EnumString(options, customDefault), n, a)
    case ConnectAttr(sn, sa, dn, da) =>
      Statement(ConnectAttrCmd + AttributeExpression(sn, sa) + " " + AttributeExpression(dn, da))
  }

  /** The commands that declare or assign a MEL variable. */
  predicate IsVariableCommand(c: Command)
  {
    c.DeclInt? || c.DeclString? || c.SetVar? || c.SetsCreate? || c.CreateShader? ||
    c.CreateTextureShadingNode? || c.GetUndoState? || c.SetUndoStateVariable?
  }

  function OtherCommandText(c: Command): (r: String)
    requires WellFormed(c) && !IsAttributeCommand(c)
    ensures |r| > 0
    ensures r[|r| - 1] == '\n' <==> !c.SetsUseInitialShadingGroup?
  {
    if IsVariableCommand(c) then
      assert !c.SetsUseInitialShadingGroup?;
      VariableCommandText(c)
    else PlainCommandText(c)
  }

  function VariableCommandText(c: Command): (r: String)
    requires WellFormed(c) && IsVariableCommand(c)
    ensures |r| >= 2 && r[|r| - 1] == '\n'
  {
    match c
    case DeclInt(v) => Statement("int " + Mel(v))
    case DeclString(v) => Statement("string " + Mel(v))
    case SetVar(v, l) => Statement(Mel(v) + " = " + MelLiteral(l))
    case SetsCreate(v) =>
      Statement(Mel(v) + SetsCreateCmd + Mel(v) + "`")
    case CreateShader(t, v) =>
      Statement(Mel(v) + CreateShaderCmd + Mel(v) + " " + t + "`")
    case CreateTextureShadingNode(v) =>
      Statement(Mel(v) + CreateTextureCmd + Mel(v) + " file`")
    case GetUndoState(v) => Statement(Mel(v) + UndoQueryCmd)
    case SetUndoStateVariable(v) => Statement(UndoSetCmd + Mel(v))
  }

  function PlainCommandText(c: Command): (r: String)
    requires !IsAttributeCommand(c) && !IsVariableCommand(c)
    ensures |r| > 0
    ensures r[|r| - 1] == '\n' <==> !c.SetsUseInitialShadingGroup?
  {
    match c
    case Python(p) => Statement("python(\"" + p + "\")")
    case SetsAddFaceRange(s, m, a, b) =>
      Statement(ForceElementCmd + s + " " + m + ".f[" + IntToString(a) + ":" + IntToString(b) + "]")
    case SetsUseInitialShadingGroup(m) => InitialShadingGroupCmd + m + ";"
    case SetUndoState(on) => Statement(UndoSetCmd + (if on then "on" else "off"))
    case AddCmdLine(line) => line + "\n"
    case GetWorkspaceDir => Statement(WorkspaceCmd)
  }

  /** The addAttr line of setAttrEnumOptions for an enum string. */
  function EnumOptionsText(enumString: String, node: String, attribute: String): (r: String)
    requires ValidVariable(node) && ValidAttribute(attribute)
    ensures |r| >= 2 && r[|r| - 1] == '\n' && r[|r| - 2] == ';'
  {
    Statement(AddAttrEnumCmd + MelLiteral(enumString) + " " + AttributeExpression(node, attribute))
  }

  /** The builder: the text of the commands emitted so far. */
  class MELScriptBuilder {
    var commandStream: String

    constructor ()
      ensures commandStream == []
    {
      commandStream := [];
    }

    /** Append one command. */
    method Emit(c: Command)
      requires WellFormed(c)
      modifies this
      ensures commandStream == old(commandStream) + CommandText(c)
    {
      commandStream := commandStream + CommandText(c);
    }

    method SetAttrBool(node: String, attribute: String, val: bool)
      requires ValidVariable(node) && ValidAttribute(attribute)
      modifies this
      ensures commandStream == old(commandStream) + CommandText(Command.SetAttrBool(node, attribute, val))
    {
      Emit(Command.SetAttrBool(node, attribute, val));
    }

    method SetAttrInt(node: String, attribute: String, val: int)
      requires ValidVariable(node) && ValidAttribute(attribute)
      modifies this
      ensures commandStream == old(commandStream) + CommandText(Command.SetAttrInt(node, attribute, val))
    {
      Emit(Command.SetAttrInt(node, attribute, val));
    }

    method SetAttrDouble(node: String, attribute: String, val: String)
      requires ValidVariable(node) && ValidAttribute(attribute)
      modifies this
      ensures commandStream == old(commandStream) + CommandText(Command.SetAttrDouble(node, attribute, val))
    {
      Emit(Command.SetAttrDouble(node, attribute, val));
    }

    /** The two-value setAttr, also used for std::array<double, 2>. */
    method SetAttrDouble2(node: String, attribute: String, val1: String, val2: String)
      requires ValidVariable(node) && ValidAttribute(attribute)
      modifies this
      ensures commandStream == old(commandStream) + CommandText(Command.SetAttrDouble2(node, attribute, val1, val2))
    {
      Emit(Command.SetAttrDouble2(node, attribute, val1, val2));
    }

    /** The three-value setAttr, also used for std::array<double, 3> and
      * MaterialColor (r, g, b). */
    method SetAttrDouble3(node: String, attribute: String, val1: String, val2: String, val3: String)
      requires ValidVariable(node) && ValidAttribute(attribute)
      modifies this
      ensures commandStream == old(commandStream) + CommandText(Command.SetAttrDouble3(node, attribute, val1, val2, val3))
    {
      Emit(Command.SetAttrDouble3(node, attribute, val1, val2, val3));
    }

    method SetAttrVariable(node: String, attribute: String, val: String)
      requires ValidVariable(node) && ValidAttribute(attribute) && ValidVariable(val)
      modifies this
      ensures commandStream == old(commandStream) + CommandText(Command.SetAttrVariable(node, attribute, val))
    {
      Emit(Command.SetAttrVariable(node, attribute, val));
    }

    method SetAttrLiteral(node: String, attribute: String, val: String)
      requires ValidVariable(node) && ValidAttribute(attribute)
      modifies this
      ensures commandStream == old(commandStream) + CommandText(Command.SetAttrLiteral(node, attribute, val))
    {
      Emit(Command.SetAttrLiteral(node, attribute, val));
    }

    /** setAttrEnumOptions: the enum string is built entry by entry. */
    method SetAttrEnumOptions(node: String, attribute: String, enumOptions: seq<String>,
                              customDefaultOption: Option<String>)
      requires ValidVariable(node) && ValidAttribute(attribute)
      modifies this
      ensures commandStream == old(commandStream) +
              CommandText(Command.SetAttrEnumOptions(node, attribute, enumOptions, customDefaultOption))
    {
      var enumString := BuildEnumString(enumOptions, customDefaultOption);
      ghost var c := Command.SetAttrEnumOptions(node, attribute, enumOptions, customDefaultOption);
      assert CommandText(c) == AttributeCommandText(c) == EnumOptionsText(enumString, node, attribute);
      commandStream := commandStream + EnumOptionsText(enumString, node, attribute);
    }

    method ConnectAttr(srcNode: String, srcAttr: String, dstNode: String, dstAttr: String)
      requires ValidVariable(srcNode) && ValidAttribute(srcAttr)
      requires ValidVariable(dstNode) && ValidAttribute(dstAttr)
      modifies this
      ensures commandStream == old(commandStream) + CommandText(Command.ConnectAttr(srcNode, srcAttr, dstNode, dstAttr))
    {
      Emit(Command.ConnectAttr(srcNode, srcAttr, dstNode, dstAttr));
    }

    method SetsAddFaceRange(setName: String, meshName: String, faceStart: int, faceEnd: int)
      modifies this
      ensures commandStream == old(commandStream) + CommandText(Command.SetsAddFaceRange(setName, meshName, faceStart, faceEnd))
    {
      Emit(Command.SetsAddFaceRange(setName, meshName, faceStart, faceEnd));
    }

    /** execute: the whole buffer goes to Maya; clear() resets only the
      * stream's state flags, so the buffer keeps its commands. */
    method Execute() returns (script: String)
      ensures script == commandStream
    {
      script := commandStream;
    }

    /** executeSync: as execute, with Maya's answer copied to `output`. */
    method ExecuteSync(mayaResult: String) returns (script: String, output: String)
      ensures script == commandStream && output == mayaResult
    {
      script := commandStream;
      output := mayaResult;
    }

    /** execute as its clear() call intends: the buffer is emptied, so the
      * next execution runs only the commands emitted since. */
    method ExecuteAndReset() returns (script: String)
      modifies this
      ensures script == old(commandStream) && commandStream == []
    {
      script := commandStream;
      commandStream := [];
    }
  }

  /** Appending an entry to the joined entries adds the separator only
    * when there are entries already, and there are exactly when the text
    * is non-empty. */
  lemma JoinedSnoc(entries: seq<String>, entry: String)
    requires forall i :: 0 <= i < |entries| ==> |entries[i]| > 0
    ensures |Utilities.Joined(entries, ":")| == 0 <==> |entries| == 0
    ensures Utilities.Joined(entries + [entry], ":") ==
            if |entries| == 0 then entry else Utilities.Joined(entries, ":") + ":" + entry
  {
    if |entries| > 0 {
      Utilities.JoinedEnds(entries, ":");
      assert (entries + [entry])[..|entries|] == entries;
    }
  }

  /** One step of the loop of setAttrEnumOptions: the separator, then the
    * next entry. */
  lemma EnumStringStep(enumOptions: seq<String>, customDefaultOption: Option<String>, idx: nat, text: String)
    requires idx < |enumOptions|
    requires text == Utilities.Joined(EnumEntries(enumOptions[..idx], customDefaultOption), ":")
    ensures (if |text| > 0 then text + ":" else text) + EnumEntry(enumOptions[idx], idx + 1)
            == Utilities.Joined(EnumEntries(enumOptions[..idx + 1], customDefaultOption), ":")
  {
    EnumEntriesSnoc(enumOptions, customDefaultOption, idx);
    JoinedSnoc(EnumEntries(enumOptions[..idx], customDefaultOption), EnumEntry(enumOptions[idx], idx + 1));
  }

  /** The loop of setAttrEnumOptions. */
  method BuildEnumString(enumOptions: seq<String>, customDefaultOption: Option<String>) returns (enumString: String)
    ensures enumString == EnumString(enumOptions, customDefaultOption)
  {
    enumString := [];
    if customDefaultOption.Some? {
      var customDefaultOptionString := CleanEnumOptionName(customDefaultOption.value);
      enumString := customDefaultOptionString + "=0";
    }
    for idx := 0 to |enumOptions|
      invariant enumString == Utilities.Joined(EnumEntries(enumOptions[..idx], customDefaultOption), ":")
    {
      EnumStringStep(enumOptions, customDefaultOption, idx, enumString);
      if |enumString| > 0 {
        enumString := enumString + ":";
      }
      var entry := CleanEnumOptionName(enumOptions[idx]) + "=" + NatToString(idx + 1);
      enumString := enumString + entry;
    }
    assert enumOptions[..|enumOptions|] == enumOptions;
    // Don't update to an empty enum
    if |enumString| == 0 {
      enumString := " ";
    }
  }

  /** As written, a builder executed twice runs its first commands again. */
  method ExecuteTwiceAsWritten(first: Command, second: Command) returns (script1: String, script2: String)
    requires WellFormed(first) && WellFormed(second)
    ensures script1 == CommandText(first)
    ensures script2 == CommandText(first) + CommandText(second)
  {
    var builder := new MELScriptBuilder();
    builder.Emit(first);
    script1 := builder.Execute();
    builder.Emit(second);
    script2 := builder.Execute();
  }

  /** With the buffer emptied, the second execution runs only the second
    * command. */
  method ExecuteTwiceCorrected(first: Command, second: Command) returns (script1: String, script2: String)
    requires WellFormed(first) && WellFormed(second)
    ensures script1 == CommandText(first)
    ensures script2 == CommandText(second)
  {
    var builder := new MELScriptBuilder();
    builder.Emit(first);
    script1 := builder.ExecuteAndReset();
    builder.Emit(second);
    script2 := builder.ExecuteAndReset();
  }
}

module LegacyMelScriptBuilder {
  import opened Wrappers
  import opened Text
  import M = MelScriptBuilder

  const SetsCreateCmd: String := "sets -empty -renderable true -noSurfaceShader true -name "

  /** The commands of the older builder. Its string setAttr, connectAttr,
    * setVar and setsCreate take raw text. */
  datatype LegacyCommand =
    | SetAttrBool(node: String, attribute: String, b: bool)
    | SetAttrInt(node: String, attribute: String, i: int)
    | SetAttrDouble(node: String, attribute: String, v: String)
    | SetAttrDouble2(node: String, attribute: String, v1: String, v2: String)
    | SetAttrDouble3(node: String, attribute: String, v1: String, v2: String, v3: String)
    | SetAttrString(node: String, attribute: String, val: String)
    | ConnectAttr(source: String, dest: String)
    | Python(pythonCmd: String)
    | DeclInt(variable: String)
    | DeclString(variable: String)
    | SetVar(variable: String, val: String)
    | SetsCreate(setName: String)
    | SetsAddFaceRange(setName: String, meshName: String, faceStart: int, faceEnd: int)
    | CreateShader(shaderType: String, variable: String)
    | CreateTextureShadingNode(variable: String)
    | AddCmdLine(line: String)

  predicate WellFormed(c: LegacyCommand)
  {
    match c
    case SetAttrBool(n, a, _) => M.ValidVariable(n) && M.ValidAttribute(a)
    case SetAttrInt(n, a, _) => M.ValidVariable(n) && M.ValidAttribute(a)
    case SetAttrDouble(n, a, _) => M.ValidVariable(n) && M.ValidAttribute(a)
    case SetAttrDouble2(n, a, _, _) => M.ValidVariable(n) && M.ValidAttribute(a)
    case SetAttrDouble3(n, a, _, _, _) => M.ValidVariable(n) && M.ValidAttribute(a)
    case SetAttrString(n, a, _) => M.ValidVariable(n) && M.ValidAttribute(a)
    case DeclInt(v) => M.ValidVariable(v)
    case DeclString(v) => M.ValidVariable(v)
    case SetVar(v, _) => M.ValidVariable(v)
    case CreateShader(_, v) => M.ValidVariable(v)
    case CreateTextureShadingNode(v) => M.ValidVariable(v)
    case _ => true
  }

  predicate IsAttributeCommand(c: LegacyCommand)
  {
    c.SetAttrBool? || c.SetAttrInt? || c.SetAttrDouble? || c.SetAttrDouble2? || c.SetAttrDouble3? ||
    c.SetAttrString?
  }

  /** The text of a command; every one ends its line. */
  function CommandText(c: LegacyCommand): (r: String)
    requires WellFormed(c)
    ensures |r| > 0 && r[|r| - 1] == '\n'
  {
    if IsAttributeCommand(c) then AttributeCommandText(c) else OtherCommandText(c)
  }

  function AttributeCommandText(c: LegacyCommand): (r: String)
    requires WellFormed(c) && IsAttributeCommand(c)
    ensures |r| >= 2 && r[|r| - 1] == '\n'
  {
    match c
    case SetAttrBool(n, a, b) =>
      M.Statement(M.SetAttrCmd + M.AttributeExpression(n, a) + " " + (if b then "1" else "0"))
    case SetAttrInt(n, a, i) =>
      M.Statement(M.SetAttrCmd + M.AttributeExpression(n, a) + " " + IntToString(i))
    case SetAttrDouble(n, a, v) =>
      M.Statement(M.SetAttrCmd + M.AttributeExpression(n, a) + " " + v)
    case SetAttrDouble2(n, a, v1, v2) =>
      M.Statement(M.SetAttrDouble2Cmd + M.AttributeExpression(n, a) + " " + v1 + " " + v2)
    case SetAttrDouble3(n, a, v1, v2, v3) =>
      M.Statement(M.SetAttrDouble3Cmd + M.AttributeExpression(n, a) + " " + v1 + " " + v2 + " " + v3)
    case SetAttrString(n, a, v) =>
      M.Statement(M.SetAttrStringCmd + M.AttributeExpression(n, a) + " " + v)
  }

  function OtherCommandText(c: LegacyCommand): (r: String)
    requires WellFormed(c) && !IsAttributeCommand(c)
    ensures |r| > 0 && r[|r| - 1] == '\n'
  {
    match c
    case ConnectAttr(s, d) => M.Statement(M.ConnectAttrCmd + s + " " + d)
    case Python(p) => M.Statement("python(\"" + p + "\")")
    case DeclInt(v) => M.Statement("int " + M.Mel(v))
    case DeclString(v) => M.Statement("string " + M.Mel(v))
    case SetVar(v, val) => M.Statement(M.Mel(v) + " = \"" + val + "\"")
    case SetsCreate(s) => M.Statement(SetsCreateCmd + s)
    case SetsAddFaceRange(s, m, a, b) =>
      M.Statement(M.ForceElementCmd + s + " " + m + ".f[" + IntToString(a) + ":" + IntToString(b) + "]")
    case CreateShader(t, v) =>
      M.Statement(M.Mel(v) + M.CreateShaderCmd + M.Mel(v) + " " + t + "`")
    case CreateTextureShadingNode(v) =>
      M.Statement(M.Mel(v) + M.CreateTextureCmd + M.Mel(v) + " file`")
    case AddCmdLine(line) => line + "\n"
  }

  /** The older setVar quotes its value without escaping: a value holding a
    * '"' ends the MEL string early. */
  lemma SetVarUnescaped(v: String, val: String, k: nat)
    requires M.ValidVariable(v) && k < |val| && val[k] == '"'
    ensures var t := CommandText(SetVar(v, val));
            t[|v| + 5 + k] == '"' && t[|v| + 4 + k] == (if k == 0 then '"' else val[k - 1])
  {
    var t := CommandText(SetVar(v, val));
    assert t == OtherCommandText(SetVar(v, val));
    assert t == M.Mel(v) + " = \"" + val + "\"" + ";\n";
    assert |M.Mel(v) + " = \""| == |v| + 5;
  }

  /** The face-range commands of both builders agree. */
  lemma FaceRangeAgrees(setName: String, meshName: String, faceStart: int, faceEnd: int)
    ensures CommandText(SetsAddFaceRange(setName, meshName, faceStart, faceEnd)) ==
            M.CommandText(M.Command.SetsAddFaceRange(setName, meshName, faceStart, faceEnd))
  {
    var c := M.Command.SetsAddFaceRange(setName, meshName, faceStart, faceEnd);
    assert M.CommandText(c) == M.OtherCommandText(c) == M.PlainCommandText(c);
    var lc := SetsAddFaceRange(setName, meshName, faceStart, faceEnd);
    assert CommandText(lc) == OtherCommandText(lc);
  }

  /** The older builder: the text of the commands emitted so far. */
  class MELScriptBuilder {
    var commandStream: String

    constructor ()
      ensures commandStream == []
    {
      commandStream := [];
    }

    /** Append one command; every emitter of the older builder is this. */
    method Emit(c: LegacyCommand)
      requires WellFormed(c)
      modifies this
      ensures commandStream == old(commandStream) + CommandText(c)
    {
      commandStream := commandStream + CommandText(c);
    }

    /** execute: the buffer goes to Maya and is kept. */
    method Execute() returns (script: String)
      ensures script == commandStream
    {
      script := commandStream;
    }

    method ExecuteSync(mayaResult: String) returns (script: String, output: String)
      ensures script == commandStream && output == mayaResult
    {
      script := commandStream;
      output := mayaResult;
    }
  }
}
