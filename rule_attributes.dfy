// Derivation of the rule attributes the modifier node exposes
// (modifiers/RuleAttributes.cpp): Maya names made unique with a shared
// duplicate counter, the rule file an attribute belongs to and its import
// order, the @Hidden/@Order/@Group annotations, the global group order of
// every group path, the comparator that orders attributes in the UI and the
// std::set the sorted attributes are collected in.

module RuleAttributes {
  import opened Wrappers
  import opened Text
  import opened RuleInfo
  import Utilities

  const AnnotHidden: String := "@Hidden"
  const AnnotOrder: String := "@Order"
  const AnnotGroup: String := "@Group"
  const AnnotRange: String := "@Range"
  const AnnotEnum: String := "@Enum"
  const AnnotColor: String := "@Color"
  const AnnotDir: String := "@Directory"
  const AnnotFile: String := "@File"

  /** std::numeric_limits<int>::min() and ::max(). */
  const OrderFirst: int := -2147483648
  const OrderNone: int := 2147483647

  const PrtAttrFullNamePrefix: String := "PRT_"

  datatype RuleAttribute = RuleAttribute(
    fqName: String,
    mayaBriefName: String,
    mayaFullName: String,
    mayaNiceName: String,
    mType: AttrType,
    groups: seq<String>,
    order: int,
    groupOrder: int,
    ruleFile: String,
    memberOfStartRuleFile: bool,
    ruleOrder: int,
    globalGroupOrder: int)

  function Min(a: int, b: int): (m: int)
    ensures m <= a && m <= b && (m == a || m == b)
  {
    if b < a then b else a
  }

  /** static_cast<int> of a float: truncation toward zero. */
  function TruncToInt(f: real): (i: int)
    ensures f >= 0.0 ==> i as real <= f < i as real + 1.0
    ensures f < 0.0 ==> i as real - 1.0 < f <= i as real
  {
    if f >= 0.0 then f.Floor else -((-f).Floor)
  }

  // ---------------------------------------------------------------------
  // Names
  // ---------------------------------------------------------------------

  /** getAttrBaseName: the name without style and import prefixes. */
  function AttrBaseName(fqName: String): (base: String)
  {
    Utilities.RemoveImport(Utilities.RemoveStyle(fqName))
  }

  /** getNiceName: the Maya-safe base name. */
  function NiceName(fqName: String): (nice: String)
    ensures Utilities.IsMayaName(nice)
  {
    Utilities.CleanNameIsMayaName(AttrBaseName(fqName));
    Utilities.CleanName(AttrBaseName(fqName))
  }

  /** The name getBriefName makes unique: the Maya-safe name without style. */
  function BriefBase(fqName: String): String
  {
    Utilities.CleanName(Utilities.RemoveStyle(fqName))
  }

  /** The name getFullName makes unique: "PRT_" and the Maya-safe fully
    * qualified name. */
  function FullBase(fqName: String): String
  {
    PrtAttrFullNamePrefix + Utilities.CleanName(fqName)
  }

  /** A unique Maya name: the base, '_' and the base's counter. */
  function UniqueName(base: String, counts: map<String, int>): String
    requires base in counts
  {
    base + Utilities.MayaSeparator + IntToString(counts[base])
  }

  /** getBriefName and getFullName: clean the name, then append the suffix
    * of the shared duplicate counter. */
  method GetUniqueName(base: String, counts: map<String, int>) returns (name: String, next: map<String, int>)
    ensures next == Utilities.BumpCount(counts, base)
    ensures name == UniqueName(base, next)
  {
    var suffix;
    suffix, next := Utilities.GetDuplicateCountSuffix(base, counts);
    name := base + suffix;
  }

  /** A digit string never holds '_', so the '_' of "<base>_<digits>" is
    * the last one. */
  lemma SeparatorIsLast(b: String, digits: String)
    requires forall i :: 0 <= i < |digits| ==> IsDigit(digits[i])
    ensures var s := b + "_" + digits;
      s[|b|] == '_' && forall i :: |b| < i < |s| ==> s[i] != '_'
  {
    var front := b + "_";
    var s := front + digits;
    assert s[|b|] == front[|b|];
    forall i | |front| <= i < |s| ensures s[i] != '_' {
      assert s[i] == digits[i - |front|];
    }
  }

  /** "<base>_<digits>" splits at its last '_' and both parts can be read
    * back. */
  lemma UniqueNameSplit(b1: String, k1: nat, b2: String, k2: nat)
    requires b1 + "_" + NatToString(k1) == b2 + "_" + NatToString(k2)
    ensures b1 == b2 && k1 == k2
  {
    var s := b1 + "_" + NatToString(k1);
    SeparatorIsLast(b1, NatToString(k1));
    SeparatorIsLast(b2, NatToString(k2));
    assert |b1| == |b2|;
    assert b1 == s[..|b1|] == b2;
    assert NatToString(k1) == s[|b1| + 1..] == NatToString(k2);
    NatToStringInjective(k1, k2);
  }

  // ---------------------------------------------------------------------
  // Rule file and import order
  // ---------------------------------------------------------------------

  /** std::filesystem::path::stem of a '/'-separated path: the file name
    * without its last extension ("." and ".." and names whose only dot
    * leads are kept whole). */
  function Stem(path: String): (stem: String)
  {
    StemOfFilename(match LastOf(path, {'/'}) case None => path case Some(p) => path[p + 1..])
  }

  function StemOfFilename(name: String): (stem: String)
    ensures IsPrefix(stem, name)
  {
    if name == "." || name == ".." then name
    else match LastOf(name, {'.'})
      case None => name
      case Some(d) => if d == 0 then name else name[..d]
  }

  /** The rule name of an attribute: the text after the first '$'. */
  function RuleNameOf(fqName: String): (ruleName: String)
    ensures '$' !in fqName ==> ruleName == fqName
    ensures '$' in fqName ==> IsSuffix(ruleName, fqName) && |ruleName| < |fqName|
  {
    match FirstOf(fqName, {'$'})
    case None => fqName
    case Some(p) => fqName[p + 1..]
  }

  /** The rule file of an attribute and whether it is the start rule file:
    * the rule name up to its last '.', or the main rule when it has none. */
  function RuleFileOf(fqName: String, mainRule: String): (rf: (String, bool))
    ensures rf.1 <==> '.' !in RuleNameOf(fqName)
    ensures rf.1 ==> rf.0 == mainRule
    ensures !rf.1 ==> |rf.0| < |RuleNameOf(fqName)| && RuleNameOf(fqName)[|rf.0|] == '.' &&
                      RuleNameOf(fqName)[..|rf.0|] == rf.0
    ensures !rf.1 ==> forall k :: |rf.0| < k < |RuleNameOf(fqName)| ==> RuleNameOf(fqName)[k] != '.'
  {
    var ruleName := RuleNameOf(fqName);
    match LastOf(ruleName, {'.'})
    case None =>
      assert forall k :: 0 <= k < |ruleName| ==> ruleName[k] != '.';
      (mainRule, true)
    case Some(d) =>
      assert ruleName[d] == '.';
      (ruleName[..d], false)
  }

  /** The imported rule names of one annotation argument list, in order. */
  function ArgImports(args: seq<AnnotationArg>, importsKey: String): (imports: seq<String>)
  {
    if |args| == 0 then []
    else
      ArgImports(args[..|args| - 1], importsKey) +
      match args[|args| - 1]
      case AnnotationArg(key, StrArg(Some(s))) => if key == importsKey then [s] else []
      case _ => []
  }

  /** The imported rule names of a list of rule-file annotations, in order. */
  function ImportList(annots: seq<Annotation>, importsAnnot: String, importsKey: String): (imports: seq<String>)
  {
    if |annots| == 0 then []
    else
      ImportList(annots[..|annots| - 1], importsAnnot, importsKey) +
      (if annots[|annots| - 1].name == importsAnnot
       then ArgImports(annots[|annots| - 1].args, importsKey) else [])
  }

  /** The import order map: every import numbered by its position, a later
    * repetition overwriting the earlier number. */
  function ImportOrders(imports: seq<String>): (m: map<String, int>)
  {
    if |imports| == 0 then map[]
    else ImportOrders(imports[..|imports| - 1])[imports[|imports| - 1] := |imports| - 1]
  }

  /** An import's order is the position of its last occurrence. */
  lemma {:induction false} ImportOrdersLastWins(imports: seq<String>, s: String)
    ensures s in ImportOrders(imports) <==> s in imports
    ensures s in ImportOrders(imports) ==>
      var k := ImportOrders(imports)[s];
      0 <= k < |imports| && imports[k] == s && forall j :: k < j < |imports| ==> imports[j] != s
  {
    if |imports| > 0 {
      var front := imports[..|imports| - 1];
      ImportOrdersLastWins(front, s);
      assert imports == front + [imports[|imports| - 1]];
    }
  }

  lemma ImportOrdersSnoc(imports: seq<String>, s: String)
    ensures ImportOrders(imports + [s]) == ImportOrders(imports)[s := |imports|]
  {
    assert (imports + [s])[..|imports|] == imports;
  }

  lemma ArgImportsSnoc(args: seq<AnnotationArg>, k: nat, importsKey: String)
    requires k < |args|
    ensures ArgImports(args[..k + 1], importsKey) ==
      ArgImports(args[..k], importsKey) +
      match args[k]
      case AnnotationArg(key, StrArg(Some(s))) => if key == importsKey then [s] else []
      case _ => []
  {
    assert args[..k + 1][..k] == args[..k];
  }

  lemma ImportListSnoc(annots: seq<Annotation>, i: nat, importsAnnot: String, importsKey: String)
    requires i < |annots|
    ensures ImportList(annots[..i + 1], importsAnnot, importsKey) ==
      ImportList(annots[..i], importsAnnot, importsKey) +
      (if annots[i].name == importsAnnot then ArgImports(annots[i].args, importsKey) else [])
  {
    assert annots[..i + 1][..i] == annots[..i];
  }

  /** The argument loop of getImportOrderMap for one imports annotation:
    * number its string arguments keyed `importsKey` from `order0` on. */
  method NumberImports(args: seq<AnnotationArg>, importsKey: String, ghost before: seq<String>,
                       m0: map<String, int>, order0: int)
    returns (m: map<String, int>, order: int)
    requires m0 == ImportOrders(before) && order0 == |before|
    ensures m == ImportOrders(before + ArgImports(args, importsKey))
    ensures order == |before + ArgImports(args, importsKey)|
  {
    m, order := m0, order0;
    ghost var done := before;
    for argIdx := 0 to |args|
      invariant done == before + ArgImports(args[..argIdx], importsKey)
      invariant order == |done| && m == ImportOrders(done)
    {
      ArgImportsSnoc(args, argIdx, importsKey);
      var anArg := args[argIdx];
      if anArg.value.StrArg? && anArg.key == importsKey && anArg.value.str.Some? {
        var importRule := anArg.value.str.value;
        ImportOrdersSnoc(done, importRule);
        m := m[importRule := order];
        order := order + 1;
        done := done + [importRule];
      }
    }
    assert args[..|args|] == args;
  }

  /** getImportOrderMap: number the string arguments keyed `importsKey` of
    * the rule file's `importsAnnot` annotations 0, 1, 2, ... in order. The
    * two names are the plug-in's ANNOT_IMPORTS and ANNOT_IMPORTS_KEY. */
  method GetImportOrderMap(info: RuleFileInfo, importsAnnot: String, importsKey: String)
    returns (importOrderMap: map<String, int>)
    ensures importOrderMap == ImportOrders(ImportList(info.annotations, importsAnnot, importsKey))
  {
    var annots := info.annotations;
    importOrderMap := map[];
    var importOrder := 0;
    for i := 0 to |annots|
      invariant importOrder == |ImportList(annots[..i], importsAnnot, importsKey)|
      invariant importOrderMap == ImportOrders(ImportList(annots[..i], importsAnnot, importsKey))
    {
      ImportListSnoc(annots, i, importsAnnot, importsKey);
      var an := annots[i];
      if an.name == importsAnnot {
        ghost var before := ImportList(annots[..i], importsAnnot, importsKey);
        importOrderMap, importOrder := NumberImports(an.args, importsKey, before, importOrderMap, importOrder);
        assert ImportList(annots[..i + 1], importsAnnot, importsKey) == before + ArgImports(an.args, importsKey);
      } else {
        ghost var before := ImportList(annots[..i], importsAnnot, importsKey);
        assert before + [] == before;
        assert ImportList(annots[..i + 1], importsAnnot, importsKey) == before;
      }
    }
    assert annots[..|annots|] == annots;
  }

  // ---------------------------------------------------------------------
  // Annotations of one attribute
  // ---------------------------------------------------------------------

  /** What the annotation loop of getRuleAttributes collects. */
  datatype AnnotScan = AnnotScan(hidden: bool, order: int, groups: seq<String>, groupOrder: int)

  const InitialScan: AnnotScan := AnnotScan(false, OrderNone, [], OrderNone)

  /** A @Group string argument must not be null: it is turned into
    * a std::wstring. */
  predicate GroupStringsNotNull(annots: seq<Annotation>)
  {
    forall a, k :: 0 <= a < |annots| && annots[a].name == AnnotGroup && 0 <= k < |annots[a].args| ==>
      annots[a].args[k].value != StrArg(None)
  }

  /** One @Group argument: a string nests one more group, a float in last
    * position sets the group order. */
  function GroupArgStep(st: AnnotScan, arg: AnnotationArg, isLast: bool): (next: AnnotScan)
    requires arg.value != StrArg(None)
  {
    match arg.value
    case StrArg(s) => st.(groups := st.groups + [s.value])
    case FloatArg(f) => if isLast then st.(groupOrder := TruncToInt(f)) else st
    case _ => st
  }

  function GroupArgsScan(st: AnnotScan, args: seq<AnnotationArg>, k: nat): (next: AnnotScan)
    requires k <= |args|
    requires forall j :: 0 <= j < |args| ==> args[j].value != StrArg(None)
  {
    if k == 0 then st
    else GroupArgStep(GroupArgsScan(st, args, k - 1), args[k - 1], k - 1 == |args| - 1)
  }

  /** One annotation: @Hidden hides, @Order with a float first argument
    * sets the order, @Group walks its arguments. */
  function AnnotationStep(st: AnnotScan, an: Annotation): (next: AnnotScan)
    requires an.name == AnnotGroup ==> forall j :: 0 <= j < |an.args| ==> an.args[j].value != StrArg(None)
  {
    if an.name == AnnotHidden then st.(hidden := true)
    else if an.name == AnnotOrder then
      if |an.args| >= 1 && an.args[0].value.FloatArg? then st.(order := TruncToInt(an.args[0].value.f)) else st
    else if an.name == AnnotGroup then GroupArgsScan(st, an.args, |an.args|)
    else st
  }

  function ScanAnnotations(annots: seq<Annotation>): (st: AnnotScan)
    requires GroupStringsNotNull(annots)
  {
    if |annots| == 0 then InitialScan
    else AnnotationStep(ScanAnnotations(annots[..|annots| - 1]), annots[|annots| - 1])
  }

  lemma ScanAnnotationsSnoc(annots: seq<Annotation>, a: nat)
    requires a < |annots| && GroupStringsNotNull(annots)
    ensures GroupStringsNotNull(annots[..a]) && GroupStringsNotNull(annots[..a + 1])
    ensures ScanAnnotations(annots[..a + 1]) == AnnotationStep(ScanAnnotations(annots[..a]), annots[a])
  {
    assert annots[..a + 1][..a] == annots[..a];
  }

  /** The argument loop of a @Group annotation. */
  method ScanGroupArgs(st0: AnnotScan, args: seq<AnnotationArg>) returns (st: AnnotScan)
    requires forall j :: 0 <= j < |args| ==> args[j].value != StrArg(None)
    ensures st == GroupArgsScan(st0, args, |args|)
  {
    st := st0;
    for argIdx := 0 to |args|
      invariant st == GroupArgsScan(st0, args, argIdx)
    {
      var arg := args[argIdx];
      if arg.value.StrArg? {
        st := st.(groups := st.groups + [arg.value.str.value]);
      } else if argIdx == |args| - 1 && arg.value.FloatArg? {
        st := st.(groupOrder := TruncToInt(arg.value.f));
      }
    }
  }

  /** The annotation loop of getRuleAttributes. */
  method ScanAttributeAnnotations(annots: seq<Annotation>) returns (st: AnnotScan)
    requires GroupStringsNotNull(annots)
    ensures st == ScanAnnotations(annots)
  {
    st := InitialScan;
    for a := 0 to |annots|
      invariant GroupStringsNotNull(annots[..a])
      invariant st == ScanAnnotations(annots[..a])
    {
      ScanAnnotationsSnoc(annots, a);
      var an := annots[a];
      if an.name == AnnotHidden {
        st := st.(hidden := true);
      } else if an.name == AnnotOrder {
        if |an.args| >= 1 && an.args[0].value.FloatArg? {
          st := st.(order := TruncToInt(an.args[0].value.f));
        }
      } else if an.name == AnnotGroup {
        st := ScanGroupArgs(st, an.args);
      }
    }
    assert annots[..|annots|] == annots;
  }

  /** The @Group argument walk touches neither the hidden flag nor the order. */
  lemma {:induction false} GroupArgsKeep(st: AnnotScan, args: seq<AnnotationArg>, k: nat)
    requires k <= |args|
    requires forall j :: 0 <= j < |args| ==> args[j].value != StrArg(None)
    ensures GroupArgsScan(st, args, k).hidden == st.hidden
    ensures GroupArgsScan(st, args, k).order == st.order
  {
    if k > 0 {
      GroupArgsKeep(st, args, k - 1);
    }
  }

  /** An attribute is hidden exactly when one of its annotations is @Hidden. */
  lemma {:induction false} ScanHiddenIff(annots: seq<Annotation>)
    requires GroupStringsNotNull(annots)
    ensures ScanAnnotations(annots).hidden <==> exists a :: 0 <= a < |annots| && annots[a].name == AnnotHidden
  {
    if |annots| > 0 {
      ScanAnnotationsSnoc(annots, |annots| - 1);
      assert annots[..|annots| - 1 + 1] == annots;
      var n := |annots| - 1;
      ScanHiddenIff(annots[..n]);
      assert forall a :: 0 <= a < n ==> annots[..n][a] == annots[a];
      if annots[n].name == AnnotGroup {
        GroupArgsKeep(ScanAnnotations(annots[..n]), annots[n].args, |annots[n].args|);
      }
    }
  }

  lemma {:induction false} GroupArgsNames(st: AnnotScan, args: seq<AnnotationArg>, k: nat, g: String)
    requires k <= |args|
    requires forall j :: 0 <= j < |args| ==> args[j].value != StrArg(None)
    ensures g in GroupArgsScan(st, args, k).groups ==>
      g in st.groups || exists j :: 0 <= j < k && args[j].value == StrArg(Some(g))
  {
    if k > 0 {
      GroupArgsNames(st, args, k - 1, g);
      var prev := GroupArgsScan(st, args, k - 1);
      var next := GroupArgsScan(st, args, k);
      assert next == GroupArgStep(prev, args[k - 1], k - 1 == |args| - 1);
      if g in next.groups && g !in prev.groups {
        assert args[k - 1].value.StrArg?;
        assert next.groups == prev.groups + [args[k - 1].value.str.value];
        assert args[k - 1].value == StrArg(Some(g));
      }
    }
  }

  /** Every group name is a string argument of some @Group annotation. */
  lemma {:induction false} ScanGroupNames(annots: seq<Annotation>, g: String)
    requires GroupStringsNotNull(annots)
    ensures g in ScanAnnotations(annots).groups ==>
      exists a, j :: 0 <= a < |annots| && annots[a].name == AnnotGroup &&
                     0 <= j < |annots[a].args| && annots[a].args[j].value == StrArg(Some(g))
  {
    if |annots| > 0 {
      var n := |annots| - 1;
      ScanAnnotationsSnoc(annots, n);
      assert annots[..n + 1] == annots;
      ScanGroupNames(annots[..n], g);
      assert forall a :: 0 <= a < n ==> annots[..n][a] == annots[a];
      if annots[n].name == AnnotGroup {
        GroupArgsNames(ScanAnnotations(annots[..n]), annots[n].args, |annots[n].args|, g);
      }
    }
  }

  // ---------------------------------------------------------------------
  // getRuleAttributes
  // ---------------------------------------------------------------------

  /** Attribute entries without parameters whose @Group strings are not null. */
  predicate WellFormedEntries(entries: seq<Entry>)
  {
    forall i :: 0 <= i < |entries| && entries[i].numParameters == 0 ==> GroupStringsNotNull(entries[i].annotations)
  }

  /** The attribute built from one entry (before the hidden check), and the
    * duplicate counters after its brief and full names were issued. */
  function DeriveEntry(e: Entry, mainRule: String, importOrderMap: map<String, int>, counts: map<String, int>)
    : (r: (RuleAttribute, bool, map<String, int>))
    requires GroupStringsNotNull(e.annotations)
  {
    var counts1 := Utilities.BumpCount(counts, BriefBase(e.name));
    var counts2 := Utilities.BumpCount(counts1, FullBase(e.name));
    var rf := RuleFileOf(e.name, mainRule);
    var scan := ScanAnnotations(e.annotations);
    var p := RuleAttribute(
      e.name,
      UniqueName(BriefBase(e.name), counts1),
      UniqueName(FullBase(e.name), counts2),
      NiceName(e.name),
      e.returnType,
      scan.groups,
      scan.order,
      if |scan.groups| == 0 then OrderFirst else scan.groupOrder,
      rf.0,
      rf.1,
      if rf.0 in importOrderMap then importOrderMap[rf.0] else OrderNone,
      OrderNone);
    (p, scan.hidden, counts2)
  }

  /** The attributes the derivation loop collects from `entries`, and the
    * duplicate counters afterwards. */
  function DeriveAll(entries: seq<Entry>, mainRule: String, importOrderMap: map<String, int>)
    : (r: (seq<RuleAttribute>, map<String, int>))
    requires WellFormedEntries(entries)
  {
    if |entries| == 0 then ([], map[])
    else
      var front := entries[..|entries| - 1];
      var e := entries[|entries| - 1];
      assert WellFormedEntries(front);
      var prev := DeriveAll(front, mainRule, importOrderMap);
      if e.numParameters != 0 then prev
      else
        var d := DeriveEntry(e, mainRule, importOrderMap, prev.1);
        (if d.1 then prev.0 else prev.0 + [d.0], d.2)
  }

  lemma DeriveAllSnoc(entries: seq<Entry>, i: nat, mainRule: String, importOrderMap: map<String, int>)
    requires i < |entries| && WellFormedEntries(entries)
    ensures WellFormedEntries(entries[..i]) && WellFormedEntries(entries[..i + 1])
    ensures DeriveAll(entries[..i + 1], mainRule, importOrderMap) ==
      var prev := DeriveAll(entries[..i], mainRule, importOrderMap);
      if entries[i].numParameters != 0 then prev
      else
        var d := DeriveEntry(entries[i], mainRule, importOrderMap, prev.1);
        (if d.1 then prev.0 else prev.0 + [d.0], d.2)
  {
    assert entries[..i + 1][..i] == entries[..i];
  }

  /** The body of the derivation loop for one parameterless entry. */
  method DeriveAttribute(e: Entry, mainRule: String, importOrderMap: map<String, int>, counts: map<String, int>)
    returns (p: RuleAttribute, hidden: bool, next: map<String, int>)
    requires GroupStringsNotNull(e.annotations)
    ensures (p, hidden, next) == DeriveEntry(e, mainRule, importOrderMap, counts)
  {
    var niceName := Utilities.CleanNameForMaya(AttrBaseName(e.name));
    var briefBase := Utilities.CleanNameForMaya(Utilities.RemoveStyle(e.name));
    var briefName, counts1 := GetUniqueName(briefBase, counts);
    var cleanFq := Utilities.CleanNameForMaya(e.name);
    var fullName;
    fullName, next := GetUniqueName(PrtAttrFullNamePrefix + cleanFq, counts1);
    var rf := RuleFileOf(e.name, mainRule);
    var ruleOrder := if rf.0 in importOrderMap then importOrderMap[rf.0] else OrderNone;
    var scan := ScanAttributeAnnotations(e.annotations);
    hidden := scan.hidden;
    // no group? put to front
    var groupOrder := if |scan.groups| == 0 then OrderFirst else scan.groupOrder;
    p := RuleAttribute(e.name, briefName, fullName, niceName, e.returnType, scan.groups, scan.order,
                       groupOrder, rf.0, rf.1, ruleOrder, OrderNone);
  }

  /** A Maya name issued by the duplicate counters: "<base>_<k>" for a base
    * whose counter has reached k. */
  predicate IssuedName(name: String, counts: map<String, int>)
  {
    exists b, k: nat :: b in counts && k <= counts[b] && name == b + "_" + NatToString(k)
  }

  /** Every name in `names` is issued by `counts`, whose counters are never negative. */
  predicate NamesIssuedBy(names: seq<String>, counts: map<String, int>)
  {
    (forall b :: b in counts ==> counts[b] >= 0) &&
    forall i :: 0 <= i < |names| ==> IssuedName(names[i], counts)
  }

  /** The brief and full names of the attributes, in order. */
  function MayaNames(attrs: seq<RuleAttribute>): (names: seq<String>)
    ensures |names| == 2 * |attrs|
  {
    if |attrs| == 0 then []
    else MayaNames(attrs[..|attrs| - 1]) + [attrs[|attrs| - 1].mayaBriefName, attrs[|attrs| - 1].mayaFullName]
  }

  predicate Distinct(names: seq<String>)
  {
    forall i, j :: 0 <= i < j < |names| ==> names[i] != names[j]
  }

  /** A counter bump keeps every issued name issued, and the name it issues
    * is new. */
  lemma BumpIssuesNewName(names: seq<String>, counts: map<String, int>, base: String)
    requires NamesIssuedBy(names, counts) && Distinct(names)
    ensures var next := Utilities.BumpCount(counts, base);
      NamesIssuedBy(names + [UniqueName(base, next)], next) &&
      Distinct(names + [UniqueName(base, next)])
  {
    var next := Utilities.BumpCount(counts, base);
    var newName := UniqueName(base, next);
    assert newName == base + "_" + NatToString(next[base]);
    forall i | 0 <= i < |names|
      ensures IssuedName(names[i], next) && names[i] != newName
    {
      assert IssuedName(names[i], counts);
      var b, k: nat :| b in counts && k <= counts[b] && names[i] == b + "_" + NatToString(k);
      assert b in next && k <= next[b];
      if names[i] == newName {
        UniqueNameSplit(b, k, base, next[base]);
      }
    }
    var all := names + [newName];
    assert IssuedName(newName, next);
    assert forall i :: 0 <= i < |names| ==> all[i] == names[i];
  }

  /** A counter bump keeps every issued name issued. */
  lemma BumpKeepsIssued(names: seq<String>, counts: map<String, int>, base: String)
    requires NamesIssuedBy(names, counts)
    ensures NamesIssuedBy(names, Utilities.BumpCount(counts, base))
  {
    var next := Utilities.BumpCount(counts, base);
    forall i | 0 <= i < |names| ensures IssuedName(names[i], next) {
      assert IssuedName(names[i], counts);
      var b, k: nat :| b in counts && k <= counts[b] && names[i] == b + "_" + NatToString(k);
      assert b in next && k <= next[b];
    }
  }

  lemma MayaNamesSnoc(attrs: seq<RuleAttribute>, p: RuleAttribute)
    ensures MayaNames(attrs + [p]) == MayaNames(attrs) + [p.mayaBriefName] + [p.mayaFullName]
  {
    assert (attrs + [p])[..|attrs|] == attrs;
  }

  /** What one entry contributes: its two names are the next names of the
    * shared counter. */
  lemma DeriveEntryNames(e: Entry, mainRule: String, importOrderMap: map<String, int>, counts: map<String, int>)
    requires GroupStringsNotNull(e.annotations)
    ensures var d := DeriveEntry(e, mainRule, importOrderMap, counts);
      var counts1 := Utilities.BumpCount(counts, BriefBase(e.name));
      d.2 == Utilities.BumpCount(counts1, FullBase(e.name)) &&
      d.0.mayaBriefName == UniqueName(BriefBase(e.name), counts1) &&
      d.0.mayaFullName == UniqueName(FullBase(e.name), d.2)
  {
  }

  /** The derivation issues pairwise distinct Maya names: brief and full
    * names share one duplicate counter, so no brief or full name of one
    * attribute equals a brief or full name of the same or another one. */
  lemma {:induction false} DerivedNamesDistinct(entries: seq<Entry>, mainRule: String, importOrderMap: map<String, int>)
    requires WellFormedEntries(entries)
    ensures NamesIssuedBy(MayaNames(DeriveAll(entries, mainRule, importOrderMap).0), DeriveAll(entries, mainRule, importOrderMap).1)
    ensures Distinct(MayaNames(DeriveAll(entries, mainRule, importOrderMap).0))
  {
    if |entries| > 0 {
      var n := |entries| - 1;
      DeriveAllSnoc(entries, n, mainRule, importOrderMap);
      assert entries[..n + 1] == entries;
      DerivedNamesDistinct(entries[..n], mainRule, importOrderMap);
      var prev := DeriveAll(entries[..n], mainRule, importOrderMap);
      var e := entries[n];
      if e.numParameters == 0 {
        var names := MayaNames(prev.0);
        var d := DeriveEntry(e, mainRule, importOrderMap, prev.1);
        DeriveEntryNames(e, mainRule, importOrderMap, prev.1);
        var counts1 := Utilities.BumpCount(prev.1, BriefBase(e.name));
        if d.1 {
          BumpKeepsIssued(names, prev.1, BriefBase(e.name));
          BumpKeepsIssued(names, counts1, FullBase(e.name));
        } else {
          BumpIssuesNewName(names, prev.1, BriefBase(e.name));
          BumpIssuesNewName(names + [d.0.mayaBriefName], counts1, FullBase(e.name));
          MayaNamesSnoc(prev.0, d.0);
        }
      }
    }
  }

  /** What one entry contributes to the attribute built from it. */
  lemma DeriveEntryFacts(e: Entry, mainRule: String, importOrderMap: map<String, int>, counts: map<String, int>)
    requires GroupStringsNotNull(e.annotations)
    ensures var d := DeriveEntry(e, mainRule, importOrderMap, counts);
      d.0.fqName == e.name && d.1 == ScanAnnotations(e.annotations).hidden &&
      (|d.0.groups| == 0 ==> d.0.groupOrder == OrderFirst) &&
      (d.0.ruleFile, d.0.memberOfStartRuleFile) == RuleFileOf(d.0.fqName, mainRule)
  {
  }

  /** The properties every derived attribute has. */
  predicate DerivedFrom(entries: seq<Entry>, mainRule: String, p: RuleAttribute)
  {
    (exists i :: 0 <= i < |entries| && entries[i].numParameters == 0 &&
                 GroupStringsNotNull(entries[i].annotations) &&
                 !ScanAnnotations(entries[i].annotations).hidden && entries[i].name == p.fqName) &&
    (|p.groups| == 0 ==> p.groupOrder == OrderFirst) &&
    (p.ruleFile, p.memberOfStartRuleFile) == RuleFileOf(p.fqName, mainRule)
  }

  /** Every derived attribute comes from a parameterless entry that is not
    * hidden and carries that entry's name; an attribute without groups has
    * group order ORDER_FIRST; its rule file is derived from its name. */
  lemma {:induction false} DerivedFromVisibleEntries(entries: seq<Entry>, mainRule: String, importOrderMap: map<String, int>)
    requires WellFormedEntries(entries)
    ensures forall j :: 0 <= j < |DeriveAll(entries, mainRule, importOrderMap).0| ==>
      DerivedFrom(entries, mainRule, DeriveAll(entries, mainRule, importOrderMap).0[j])
  {
    if |entries| > 0 {
      var n := |entries| - 1;
      DeriveAllSnoc(entries, n, mainRule, importOrderMap);
      assert entries[..n + 1] == entries;
      DerivedFromVisibleEntries(entries[..n], mainRule, importOrderMap);
      var prev := DeriveAll(entries[..n], mainRule, importOrderMap);
      forall j | 0 <= j < |prev.0| ensures DerivedFrom(entries, mainRule, prev.0[j]) {
        assert DerivedFrom(entries[..n], mainRule, prev.0[j]);
        var i :| 0 <= i < n && entries[..n][i].numParameters == 0 &&
                 GroupStringsNotNull(entries[..n][i].annotations) &&
                 !ScanAnnotations(entries[..n][i].annotations).hidden && entries[..n][i].name == prev.0[j].fqName;
        assert entries[i] == entries[..n][i];
      }
      if entries[n].numParameters == 0 {
        DeriveEntryFacts(entries[n], mainRule, importOrderMap, prev.1);
      }
    }
  }

  // ---------------------------------------------------------------------
  // Global group order
  // ---------------------------------------------------------------------

  /** isChildOf on group paths: `parent` is a proper prefix of `child`. */
  predicate IsAncestorPath(parent: seq<String>, child: seq<String>)
  {
    |parent| < |child| && child[..|parent|] == parent
  }

  /** The loop of isChildOf: a shorter parent path whose names all match. */
  method AncestorPath(parent: seq<String>, child: seq<String>) returns (b: bool)
    ensures b == IsAncestorPath(parent, child)
  {
    var np := |parent|;
    var nc := |child|;
    if np >= nc {
      return false;
    }
    for i := 0 to np
      invariant forall k :: 0 <= k < i ==> parent[k] == child[k]
    {
      if parent[i] != child[i] {
        return false;
      }
    }
    assert child[..np] == parent;
    return true;
  }

  /** A group path of a rule file. */
  type GroupKey = (String, seq<String>)

  /** Does the attribute lie under the (non-empty) group path of `key`? */
  predicate UnderGroup(a: RuleAttribute, key: GroupKey)
  {
    a.ruleFile == key.0 && 0 < |key.1| <= |a.groups| && a.groups[..|key.1|] == key.1
  }

  /** The emplace-then-min update for one group path prefix of `a`. */
  function AddPrefix(m: map<GroupKey, int>, a: RuleAttribute, len: nat): (next: map<GroupKey, int>)
    requires len <= |a.groups|
  {
    var key := (a.ruleFile, a.groups[..len]);
    m[key := Min(a.groupOrder, if key in m then m[key] else OrderNone)]
  }

  /** The prefixes of lengths |groups|, |groups| - 1, ..., |groups| - k + 1,
    * in the order the reverse iterator visits them. */
  function AddPrefixes(m: map<GroupKey, int>, a: RuleAttribute, k: nat): (next: map<GroupKey, int>)
    requires k <= |a.groups|
  {
    if k == 0 then m else AddPrefix(AddPrefixes(m, a, k - 1), a, |a.groups| - (k - 1))
  }

  /** The global group order map after the attributes `attrs`. */
  function GroupOrderMap(attrs: seq<RuleAttribute>): (m: map<GroupKey, int>)
  {
    if |attrs| == 0 then map[]
    else
      var a := attrs[|attrs| - 1];
      AddPrefixes(GroupOrderMap(attrs[..|attrs| - 1]), a, |a.groups|)
  }

  /** The smallest group order of the attributes under a group path, and
    * ORDER_NONE when there is none. */
  function MinGroupOrder(attrs: seq<RuleAttribute>, key: GroupKey): (m: int)
  {
    if |attrs| == 0 then OrderNone
    else
      var prev := MinGroupOrder(attrs[..|attrs| - 1], key);
      if UnderGroup(attrs[|attrs| - 1], key) then Min(attrs[|attrs| - 1].groupOrder, prev) else prev
  }

  lemma {:induction false} AddPrefixesAt(m: map<GroupKey, int>, a: RuleAttribute, k: nat, key: GroupKey)
    requires k <= |a.groups|
    ensures var touched := a.ruleFile == key.0 && |a.groups| - k < |key.1| <= |a.groups| &&
                           a.groups[..|key.1|] == key.1;
      var old_ := if key in m then m[key] else OrderNone;
      (key in AddPrefixes(m, a, k) <==> key in m || touched) &&
      (key in AddPrefixes(m, a, k) ==>
         AddPrefixes(m, a, k)[key] == if touched then Min(a.groupOrder, old_) else m[key])
  {
    if k > 0 {
      AddPrefixesAt(m, a, k - 1, key);
    }
  }

  lemma GroupOrderMapSnoc(attrs: seq<RuleAttribute>, i: nat)
    requires i < |attrs|
    ensures GroupOrderMap(attrs[..i + 1]) == AddPrefixes(GroupOrderMap(attrs[..i]), attrs[i], |attrs[i].groups|)
  {
    assert attrs[..i + 1][..i] == attrs[..i];
  }

  /** The loop-built map holds exactly the group paths some attribute lies
    * under, each with the smallest group order below it. */
  lemma {:induction false} GroupOrderMapIsMin(attrs: seq<RuleAttribute>, key: GroupKey)
    ensures key in GroupOrderMap(attrs) <==> exists i :: 0 <= i < |attrs| && UnderGroup(attrs[i], key)
    ensures key in GroupOrderMap(attrs) ==> GroupOrderMap(attrs)[key] == MinGroupOrder(attrs, key)
    ensures key !in GroupOrderMap(attrs) ==> MinGroupOrder(attrs, key) == OrderNone
  {
    if |attrs| > 0 {
      var n := |attrs| - 1;
      var a := attrs[n];
      GroupOrderMapIsMin(attrs[..n], key);
      AddPrefixesAt(GroupOrderMap(attrs[..n]), a, |a.groups|, key);
      assert forall i :: 0 <= i < n ==> attrs[..n][i] == attrs[i];
    }
  }

  /** The global group order of a path is at most the group order of every
    * attribute under it. */
  lemma {:induction false} MinGroupOrderBound(attrs: seq<RuleAttribute>, key: GroupKey, i: nat)
    requires i < |attrs| && UnderGroup(attrs[i], key)
    ensures MinGroupOrder(attrs, key) <= attrs[i].groupOrder
  {
    var n := |attrs| - 1;
    if i < n {
      MinGroupOrderBound(attrs[..n], key, i);
    }
  }

  /** The global group order setGlobalGroupOrder assigns to `a`. */
  function GlobalGroupOrderFor(attrs: seq<RuleAttribute>, a: RuleAttribute): int
  {
    var key := (a.ruleFile, a.groups);
    if key in GroupOrderMap(attrs) then GroupOrderMap(attrs)[key] else OrderNone
  }

  lemma AddPrefixSnoc(m: map<GroupKey, int>, a: RuleAttribute, k: nat)
    requires k < |a.groups|
    ensures AddPrefixes(m, a, k + 1) == AddPrefix(AddPrefixes(m, a, k), a, |a.groups| - k)
  {
  }

  /** setGlobalGroupOrder: collect the minimum group order of every group
    * path prefix per rule file, then give every attribute the value of its
    * own path (ORDER_NONE without groups). */
  method SetGlobalGroupOrder(ruleAttributes: array<RuleAttribute>)
    modifies ruleAttributes
    ensures forall i :: 0 <= i < ruleAttributes.Length ==>
      ruleAttributes[i] == old(ruleAttributes[i]).(globalGroupOrder := GlobalGroupOrderFor(old(ruleAttributes[..]), old(ruleAttributes[i])))
  {
    ghost var attrs := ruleAttributes[..];
    var globalGroupOrder: map<GroupKey, int> := map[];
    for i := 0 to ruleAttributes.Length
      invariant ruleAttributes[..] == attrs
      invariant globalGroupOrder == GroupOrderMap(attrs[..i])
    {
      GroupOrderMapSnoc(attrs, i);
      var attribute := ruleAttributes[i];
      ghost var m0 := globalGroupOrder;
      for it := 0 to |attribute.groups|
        invariant globalGroupOrder == AddPrefixes(m0, attribute, it)
      {
        var g := attribute.groups[..|attribute.groups| - it];
        var key := (attribute.ruleFile, g);
        var current := if key in globalGroupOrder then globalGroupOrder[key] else OrderNone;
        globalGroupOrder := globalGroupOrder[key := Min(attribute.groupOrder, current)];
      }
    }
    assert attrs[..ruleAttributes.Length] == attrs;
    for i := 0 to ruleAttributes.Length
      invariant forall j :: 0 <= j < i ==>
        ruleAttributes[j] == attrs[j].(globalGroupOrder := GlobalGroupOrderFor(attrs, attrs[j]))
      invariant forall j :: i <= j < ruleAttributes.Length ==> ruleAttributes[j] == attrs[j]
    {
      var key := (ruleAttributes[i].ruleFile, ruleAttributes[i].groups);
      var value := if key in globalGroupOrder then globalGroupOrder[key] else OrderNone;
      ruleAttributes[i] := ruleAttributes[i].(globalGroupOrder := value);
    }
  }

  /** An attribute with groups gets a global group order no larger than its
    * own group order; one without groups gets ORDER_NONE. */
  lemma GlobalGroupOrderOwnPath(attrs: seq<RuleAttribute>, i: nat)
    requires i < |attrs|
    ensures |attrs[i].groups| > 0 ==> GlobalGroupOrderFor(attrs, attrs[i]) <= attrs[i].groupOrder
    ensures |attrs[i].groups| == 0 ==> GlobalGroupOrderFor(attrs, attrs[i]) == OrderNone
  {
    var key := (attrs[i].ruleFile, attrs[i].groups);
    GroupOrderMapIsMin(attrs, key);
    if |attrs[i].groups| > 0 {
      assert attrs[i].groups[..|key.1|] == key.1;
      MinGroupOrderBound(attrs, key, i);
    }
  }
}
