// The rule attributes of the older modifier generation
// (prtModifier/RuleAttributes.cpp, prtModifier/RuleAttributes.h and
// prtModifier/AttributeProperties.h): the attribute properties read from the
// rule file information, the global group order of every group path, and the
// comparators the attribute lists are sorted with.

module PrtRuleAttributes {
  import opened Wrappers
  import opened Text
  import opened RuleInfo
  import opened RuleAttributes
  import LegacyUtilities
  import Utilities
  import Sorting

  const AnnotEnum: String := "@Enum"

  /** The properties of one visible rule attribute; the @Enum annotation is
    * kept by value where the C++ code refers to it by address. */
  datatype AttributeProperties = AttributeProperties(
    order: int,
    groupOrder: int,
    index: nat,
    name: String,
    ruleFile: String,
    groups: seq<String>,
    enumAnnotation: Option<Annotation>,
    memberOfStartRuleFile: bool)

  // ---------------------------------------------------------------------
  // getRuleAttributes
  // ---------------------------------------------------------------------

  /** The main rule name: the file name of the rule package path, cut before
    * its first ".cgb". */
  function MainRuleName(ruleFile: String): (main: String)
    ensures IsPrefix(main, LegacyUtilities.Filename(ruleFile))
    ensures forall k :: 0 <= k < |main| ==> !MatchAt(LegacyUtilities.Filename(ruleFile), Utilities.CgbExtension, k)
    ensures main != LegacyUtilities.Filename(ruleFile) ==>
              MatchAt(LegacyUtilities.Filename(ruleFile), Utilities.CgbExtension, |main|)
    ensures main == LegacyUtilities.Filename(ruleFile) ==>
              forall k :: 0 <= k ==> !MatchAt(LegacyUtilities.Filename(ruleFile), Utilities.CgbExtension, k)
  {
    var name := LegacyUtilities.Filename(ruleFile);
    match FindFrom(name, Utilities.CgbExtension, 0)
    case None => name
    case Some(idx) =>
      assert |name[..idx]| < |name|;
      name[..idx]
  }

  /** The main rule name holds no ".cgb". */
  lemma MainRuleNameHasNoCgb(ruleFile: String, k: nat)
    ensures !MatchAt(MainRuleName(ruleFile), Utilities.CgbExtension, k)
  {
    var name := LegacyUtilities.Filename(ruleFile);
    var main := MainRuleName(ruleFile);
    if k + |Utilities.CgbExtension| <= |main| {
      assert main == name[..|main|];
      assert main[k..k + |Utilities.CgbExtension|] == name[k..k + |Utilities.CgbExtension|];
      assert !MatchAt(name, Utilities.CgbExtension, k);
    }
  }

  /** The position of the last @Enum annotation. */
  function LastEnumIndex(annots: seq<Annotation>): (r: Option<nat>)
    ensures r.Some? ==> r.value < |annots| && annots[r.value].name == AnnotEnum
    ensures r.Some? ==> forall b :: r.value < b < |annots| ==> annots[b].name != AnnotEnum
    ensures r.None? ==> forall b :: 0 <= b < |annots| ==> annots[b].name != AnnotEnum
  {
    if |annots| == 0 then None
    else if annots[|annots| - 1].name == AnnotEnum then Some(|annots| - 1)
    else LastEnumIndex(annots[..|annots| - 1])
  }

  /** The enum annotation of an attribute: its last @Enum annotation. */
  function EnumAnnotationOf(annots: seq<Annotation>): Option<Annotation>
  {
    match LastEnumIndex(annots)
    case None => None
    case Some(a) => Some(annots[a])
  }

  lemma EnumAnnotationSnoc(annots: seq<Annotation>, a: nat)
    requires a < |annots|
    ensures EnumAnnotationOf(annots[..a + 1]) ==
      if annots[a].name == AnnotEnum then Some(annots[a]) else EnumAnnotationOf(annots[..a])
  {
    assert annots[..a + 1][..a] == annots[..a];
  }

  /** The annotation loop: @Enum remembers the annotation, @Hidden hides,
    * @Order and @Group as in the newer modifier. */
  method ScanPropertyAnnotations(annots: seq<Annotation>) returns (st: AnnotScan, enumAnnotation: Option<Annotation>)
    requires GroupStringsNotNull(annots)
    ensures st == ScanAnnotations(annots)
    ensures enumAnnotation == EnumAnnotationOf(annots)
  {
    st := InitialScan;
    enumAnnotation := None;
    for a := 0 to |annots|
      invariant GroupStringsNotNull(annots[..a])
      invariant st == ScanAnnotations(annots[..a])
      invariant enumAnnotation == EnumAnnotationOf(annots[..a])
    {
      ScanAnnotationsSnoc(annots, a);
      EnumAnnotationSnoc(annots, a);
      var an := annots[a];
      if an.name == AnnotEnum {
        enumAnnotation := Some(an);
      } else if an.name == AnnotHidden {
        st := st.(hidden := true);
      } else if an.name == AnnotOrder {
        if |an.args| >= 1 && an.args[0].value.FloatArg? {
          st := st.(order := TruncToInt(an.args[0].value.f));
        }
      } else if an.name == AnnotGroup {
        st := ScanGroupArgs(st, an.args);
      }
    }
    assert annots[..|annots|] == annots;
  }

  /** The properties built from entry `i`, and whether it is hidden. */
  function DeriveProperties(e: Entry, i: nat, mainRule: String): (r: (AttributeProperties, bool))
    requires GroupStringsNotNull(e.annotations)
    ensures r.0.index == i && r.0.name == e.name
    ensures r.0.memberOfStartRuleFile ==> r.0.ruleFile == mainRule
    ensures r.0.memberOfStartRuleFile <==> '.' !in RuleNameOf(e.name)
    ensures |r.0.groups| == 0 ==> r.0.groupOrder == OrderFirst
  {
    var rf := RuleFileOf(e.name, mainRule);
    var scan := ScanAnnotations(e.annotations);
    (AttributeProperties(scan.order, if |scan.groups| == 0 then OrderFirst else scan.groupOrder, i, e.name,
                         rf.0, scan.groups, EnumAnnotationOf(e.annotations), rf.1),
     scan.hidden)
  }

  /** The attribute properties the loop collects from `entries`. */
  function DeriveAllProperties(entries: seq<Entry>, mainRule: String): seq<AttributeProperties>
    requires WellFormedEntries(entries)
  {
    if |entries| == 0 then []
    else
      var n := |entries| - 1;
      assert WellFormedEntries(entries[..n]);
      var prev := DeriveAllProperties(entries[..n], mainRule);
      if entries[n].numParameters != 0 then prev
      else
        var d := DeriveProperties(entries[n], n, mainRule);
        if d.1 then prev else prev + [d.0]
  }

  lemma DeriveAllPropertiesSnoc(entries: seq<Entry>, i: nat, mainRule: String)
    requires i < |entries| && WellFormedEntries(entries)
    ensures WellFormedEntries(entries[..i]) && WellFormedEntries(entries[..i + 1])
    ensures DeriveAllProperties(entries[..i + 1], mainRule) ==
      var prev := DeriveAllProperties(entries[..i], mainRule);
      if entries[i].numParameters != 0 then prev
      else
        var d := DeriveProperties(entries[i], i, mainRule);
        if d.1 then prev else prev + [d.0]
  {
    assert entries[..i + 1][..i] == entries[..i];
  }

  /** The attribute properties of a rule package. */
  function RuleAttributesOf(ruleFile: String, info: RuleFileInfo): seq<AttributeProperties>
    requires WellFormedEntries(info.attributes)
  {
    DeriveAllProperties(info.attributes, MainRuleName(ruleFile))
  }

  /** getRuleAttributes: one entry per visible attribute without parameters. */
  method GetRuleAttributes(ruleFile: String, info: RuleFileInfo) returns (ra: seq<AttributeProperties>)
    requires WellFormedEntries(info.attributes)
    ensures ra == RuleAttributesOf(ruleFile, info)
  {
    var mainCgaRuleName := LegacyUtilities.Filename(ruleFile);
    var idxExtension := FindFrom(mainCgaRuleName, Utilities.CgbExtension, 0);
    if idxExtension.Some? {
      mainCgaRuleName := mainCgaRuleName[..idxExtension.value];
    }
    assert mainCgaRuleName == MainRuleName(ruleFile);
    var entries := info.attributes;
    ra := [];
    for i := 0 to |entries|
      invariant WellFormedEntries(entries[..i])
      invariant ra == DeriveAllProperties(entries[..i], mainCgaRuleName)
    {
      DeriveAllPropertiesSnoc(entries, i, mainCgaRuleName);
      var e := entries[i];
      if e.numParameters != 0 {
        continue;
      }
      var rf := RuleFileOf(e.name, mainCgaRuleName);
      var scan, enumAnnotation := ScanPropertyAnnotations(e.annotations);
      if scan.hidden {
        continue;
      }
      // no group? put to front
      var groupOrder := if |scan.groups| == 0 then OrderFirst else scan.groupOrder;
      var p := AttributeProperties(scan.order, groupOrder, i, e.name, rf.0, scan.groups, enumAnnotation, rf.1);
      ra := ra + [p];
    }
    assert entries[..|entries|] == entries;
  }

  /** `p` is what entry `p.index` derives to, and that entry is visible and
    * has no parameters. */
  predicate DerivedEntry(entries: seq<Entry>, mainRule: String, p: AttributeProperties)
  {
    p.index < |entries| && entries[p.index].numParameters == 0 &&
    GroupStringsNotNull(entries[p.index].annotations) &&
    DeriveProperties(entries[p.index], p.index, mainRule) == (p, false)
  }

  /** The last entry adds at most one element, derived from itself. */
  lemma DeriveAllLast(entries: seq<Entry>, mainRule: String)
    requires 0 < |entries| && WellFormedEntries(entries)
    ensures WellFormedEntries(entries[..|entries| - 1])
    ensures var prev := DeriveAllProperties(entries[..|entries| - 1], mainRule);
            var ra := DeriveAllProperties(entries, mainRule);
            ra == prev ||
            (|ra| == |prev| + 1 && ra[..|prev|] == prev &&
             DerivedEntry(entries, mainRule, ra[|prev|]) && ra[|prev|].index == |entries| - 1)
  {
    var n := |entries| - 1;
    DeriveAllPropertiesSnoc(entries, n, mainRule);
    assert entries[..n + 1] == entries;
    var prev := DeriveAllProperties(entries[..n], mainRule);
    var ra := DeriveAllProperties(entries, mainRule);
    if entries[n].numParameters == 0 && !DeriveProperties(entries[n], n, mainRule).1 {
      assert ra == prev + [DeriveProperties(entries[n], n, mainRule).0];
      assert ra[..|prev|] == prev;
    }
  }

  lemma DerivedEntryPrefix(entries: seq<Entry>, mainRule: String, prev: seq<AttributeProperties>)
    requires 0 < |entries|
    requires forall k :: 0 <= k < |prev| ==> DerivedEntry(entries[..|entries| - 1], mainRule, prev[k])
    ensures forall k :: 0 <= k < |prev| ==> DerivedEntry(entries, mainRule, prev[k]) && prev[k].index < |entries| - 1
  {
    var n := |entries| - 1;
    forall k | 0 <= k < |prev| ensures DerivedEntry(entries, mainRule, prev[k]) && prev[k].index < n {
      assert DerivedEntry(entries[..n], mainRule, prev[k]);
      assert entries[..n][prev[k].index] == entries[prev[k].index];
    }
  }

  /** Every collected element is derived from its own visible, parameterless
    * entry. */
  lemma {:induction false} DeriveAllFromVisibleEntries(entries: seq<Entry>, mainRule: String)
    requires WellFormedEntries(entries)
    ensures forall k :: 0 <= k < |DeriveAllProperties(entries, mainRule)| ==>
      DerivedEntry(entries, mainRule, DeriveAllProperties(entries, mainRule)[k])
  {
    if |entries| > 0 {
      var n := |entries| - 1;
      DeriveAllLast(entries, mainRule);
      DeriveAllFromVisibleEntries(entries[..n], mainRule);
      var prev := DeriveAllProperties(entries[..n], mainRule);
      var ra := DeriveAllProperties(entries, mainRule);
      DerivedEntryPrefix(entries, mainRule, prev);
      forall k | 0 <= k < |ra| ensures DerivedEntry(entries, mainRule, ra[k]) {
        if k < |prev| {
          assert ra[k] == ra[..|prev|][k];
        }
      }
    }
  }

  /** The indices of the collected elements lie below the number of entries. */
  lemma {:induction false} DeriveAllIndicesBelow(entries: seq<Entry>, mainRule: String)
    requires WellFormedEntries(entries)
    ensures forall k :: 0 <= k < |DeriveAllProperties(entries, mainRule)| ==>
      DeriveAllProperties(entries, mainRule)[k].index < |entries|
  {
    if |entries| > 0 {
      var n := |entries| - 1;
      DeriveAllIndexStep(entries, mainRule);
      DeriveAllIndicesBelow(entries[..n], mainRule);
      var prev := DeriveAllProperties(entries[..n], mainRule);
      var ra := DeriveAllProperties(entries, mainRule);
      forall k | 0 <= k < |ra| ensures ra[k].index < |entries| {
        if k < |prev| {
          assert ra[k] == ra[..|prev|][k];
        }
      }
    }
  }

  /** The last entry adds at most one element, carrying its index. */
  lemma DeriveAllIndexStep(entries: seq<Entry>, mainRule: String)
    requires 0 < |entries| && WellFormedEntries(entries)
    ensures WellFormedEntries(entries[..|entries| - 1])
    ensures var prev := DeriveAllProperties(entries[..|entries| - 1], mainRule);
            var ra := DeriveAllProperties(entries, mainRule);
            ra == prev || (|ra| == |prev| + 1 && ra[..|prev|] == prev && ra[|prev|].index == |entries| - 1)
  {
    DeriveAllLast(entries, mainRule);
  }

  /** The collected elements keep the order of their entries. */
  lemma {:induction false} DeriveAllKeepsEntryOrder(entries: seq<Entry>, mainRule: String)
    requires WellFormedEntries(entries)
    ensures forall k, l :: 0 <= k < l < |DeriveAllProperties(entries, mainRule)| ==>
      DeriveAllProperties(entries, mainRule)[k].index < DeriveAllProperties(entries, mainRule)[l].index
  {
    if |entries| > 0 {
      var n := |entries| - 1;
      DeriveAllIndexStep(entries, mainRule);
      DeriveAllKeepsEntryOrder(entries[..n], mainRule);
      DeriveAllIndicesBelow(entries[..n], mainRule);
      var prev := DeriveAllProperties(entries[..n], mainRule);
      var ra := DeriveAllProperties(entries, mainRule);
      forall k, l | 0 <= k < l < |ra| ensures ra[k].index < ra[l].index {
        assert ra[k] == ra[..|prev|][k];
        if l < |prev| {
          assert ra[l] == ra[..|prev|][l];
        }
      }
    }
  }

  /** Every visible entry without parameters is collected. */
  lemma {:induction false} VisibleEntriesDerived(entries: seq<Entry>, mainRule: String, i: nat)
    requires WellFormedEntries(entries) && i < |entries|
    requires entries[i].numParameters == 0 && !ScanAnnotations(entries[i].annotations).hidden
    ensures exists k :: 0 <= k < |DeriveAllProperties(entries, mainRule)| &&
                        DeriveAllProperties(entries, mainRule)[k].index == i
  {
    var n := |entries| - 1;
    DeriveAllPropertiesSnoc(entries, n, mainRule);
    assert entries[..n + 1] == entries;
    var prev := DeriveAllProperties(entries[..n], mainRule);
    var ra := DeriveAllProperties(entries, mainRule);
    if i == n {
      assert ra[|ra| - 1].index == i;
    } else {
      assert entries[..n][i] == entries[i];
      VisibleEntriesDerived(entries[..n], mainRule, i);
      var k :| 0 <= k < |prev| && prev[k].index == i;
      assert ra[k] == prev[k];
    }
  }

  /** All start rule file members of a list share one rule file. */
  predicate StartFilesAgree(s: seq<AttributeProperties>)
  {
    forall i, j :: 0 <= i < |s| && 0 <= j < |s| && s[i].memberOfStartRuleFile && s[j].memberOfStartRuleFile ==>
      s[i].ruleFile == s[j].ruleFile
  }

  /** Derived start rule file members all belong to the main rule. */
  lemma DerivedStartFilesAgree(entries: seq<Entry>, mainRule: String)
    requires WellFormedEntries(entries)
    ensures forall k :: 0 <= k < |DeriveAllProperties(entries, mainRule)| &&
                        DeriveAllProperties(entries, mainRule)[k].memberOfStartRuleFile ==>
                        DeriveAllProperties(entries, mainRule)[k].ruleFile == mainRule
    ensures StartFilesAgree(DeriveAllProperties(entries, mainRule))
  {
    DeriveAllFromVisibleEntries(entries, mainRule);
  }

  // ---------------------------------------------------------------------
  // getGlobalGroupOrder
  // ---------------------------------------------------------------------

  /** A group path. */
  type GroupPath = seq<String>

  /** Does the attribute lie under the (non-empty) group path `g`? */
  predicate UnderPath(a: AttributeProperties, g: GroupPath)
  {
    0 < |g| <= |a.groups| && a.groups[..|g|] == g
  }

  /** The emplace-then-min update for one group path prefix of `a`. */
  function AddPath(m: map<GroupPath, int>, a: AttributeProperties, len: nat): map<GroupPath, int>
    requires len <= |a.groups|
  {
    var g := a.groups[..len];
    m[g := Min(a.groupOrder, if g in m then m[g] else OrderNone)]
  }

  /** The prefixes of lengths |groups|, ..., |groups| - k + 1, in the order
    * the reverse iterator visits them. */
  function AddPaths(m: map<GroupPath, int>, a: AttributeProperties, k: nat): map<GroupPath, int>
    requires k <= |a.groups|
  {
    if k == 0 then m else AddPath(AddPaths(m, a, k - 1), a, |a.groups| - (k - 1))
  }

  /** The global group order map after the attributes `attrs`. */
  function PathOrderMap(attrs: seq<AttributeProperties>): map<GroupPath, int>
  {
    if |attrs| == 0 then map[]
    else
      var a := attrs[|attrs| - 1];
      AddPaths(PathOrderMap(attrs[..|attrs| - 1]), a, |a.groups|)
  }

  /** The smallest group order of the attributes under a group path, and
    * ORDER_NONE when there is none. */
  function MinPathOrder(attrs: seq<AttributeProperties>, g: GroupPath): int
  {
    if |attrs| == 0 then OrderNone
    else
      var prev := MinPathOrder(attrs[..|attrs| - 1], g);
      if UnderPath(attrs[|attrs| - 1], g) then Min(attrs[|attrs| - 1].groupOrder, prev) else prev
  }

  lemma {:induction false} AddPathsAt(m: map<GroupPath, int>, a: AttributeProperties, k: nat, g: GroupPath)
    requires k <= |a.groups|
    ensures var touched := |a.groups| - k < |g| <= |a.groups| && a.groups[..|g|] == g;
      var old_ := if g in m then m[g] else OrderNone;
      (g in AddPaths(m, a, k) <==> g in m || touched) &&
      (g in AddPaths(m, a, k) ==> AddPaths(m, a, k)[g] == if touched then Min(a.groupOrder, old_) else m[g])
  {
    if k > 0 {
      AddPathsAt(m, a, k - 1, g);
    }
  }

  lemma PathOrderMapSnoc(attrs: seq<AttributeProperties>, i: nat)
    requires i < |attrs|
    ensures PathOrderMap(attrs[..i + 1]) == AddPaths(PathOrderMap(attrs[..i]), attrs[i], |attrs[i].groups|)
  {
    assert attrs[..i + 1][..i] == attrs[..i];
  }

  /** The map holds exactly the group paths some attribute lies under, each
    * with the smallest group order below it. */
  lemma {:induction false} PathOrderMapIsMin(attrs: seq<AttributeProperties>, g: GroupPath)
    ensures g in PathOrderMap(attrs) <==> exists i :: 0 <= i < |attrs| && UnderPath(attrs[i], g)
    ensures g in PathOrderMap(attrs) ==> PathOrderMap(attrs)[g] == MinPathOrder(attrs, g)
    ensures g !in PathOrderMap(attrs) ==> MinPathOrder(attrs, g) == OrderNone
  {
    if |attrs| > 0 {
      var n := |attrs| - 1;
      var a := attrs[n];
      PathOrderMapIsMin(attrs[..n], g);
      AddPathsAt(PathOrderMap(attrs[..n]), a, |a.groups|, g);
      assert forall i :: 0 <= i < n ==> attrs[..n][i] == attrs[i];
    }
  }

  /** The minimum is at most the group order of every attribute under the path. */
  lemma {:induction false} MinPathOrderBound(attrs: seq<AttributeProperties>, g: GroupPath, i: nat)
    requires i < |attrs| && UnderPath(attrs[i], g)
    ensures MinPathOrder(attrs, g) <= attrs[i].groupOrder
  {
    var n := |attrs| - 1;
    if i < n {
      MinPathOrderBound(attrs[..n], g, i);
    }
  }

  /** A group is never ordered after one of its subgroups: every attribute
    * under the subgroup lies under the group too. */
  lemma {:induction false} MinPathOrderMonotone(attrs: seq<AttributeProperties>, g: GroupPath, h: GroupPath)
    requires 0 < |g| && IsAncestorPath(g, h)
    ensures MinPathOrder(attrs, g) <= MinPathOrder(attrs, h)
  {
    if |attrs| > 0 {
      var n := |attrs| - 1;
      var a := attrs[n];
      MinPathOrderMonotone(attrs[..n], g, h);
      if UnderPath(a, h) {
        assert a.groups[..|g|] == h[..|g|];
      }
    }
  }

  /** getGlobalGroupOrder: the minimum group order of every group path prefix. */
  method GetGlobalGroupOrder(ruleAttributes: seq<AttributeProperties>) returns (globalGroupOrder: map<GroupPath, int>)
    ensures globalGroupOrder == PathOrderMap(ruleAttributes)
  {
    globalGroupOrder := map[];
    for i := 0 to |ruleAttributes|
      invariant globalGroupOrder == PathOrderMap(ruleAttributes[..i])
    {
      PathOrderMapSnoc(ruleAttributes, i);
      var attribute := ruleAttributes[i];
      ghost var m0 := globalGroupOrder;
      for it := 0 to |attribute.groups|
        invariant globalGroupOrder == AddPaths(m0, attribute, it)
      {
        var g := attribute.groups[..|attribute.groups| - it];
        var current := if g in globalGroupOrder then globalGroupOrder[g] else OrderNone;
        globalGroupOrder := globalGroupOrder[g := Min(attribute.groupOrder, current)];
      }
    }
    assert ruleAttributes[..|ruleAttributes|] == ruleAttributes;
  }

  /** getGroupOrder: the global order of the attribute's own path, ORDER_NONE
    * when the path is not in the map. */
  function GroupOrderOf(globalGroupOrder: map<GroupPath, int>, ap: AttributeProperties): int
  {
    if ap.groups in globalGroupOrder then globalGroupOrder[ap.groups] else OrderNone
  }

  /** An attribute with groups gets a global order no larger than its own
    * group order; one without groups gets ORDER_NONE. */
  lemma GroupOrderOfOwnPath(attrs: seq<AttributeProperties>, i: nat)
    requires i < |attrs|
    ensures |attrs[i].groups| > 0 ==> GroupOrderOf(PathOrderMap(attrs), attrs[i]) <= attrs[i].groupOrder
    ensures |attrs[i].groups| == 0 ==> GroupOrderOf(PathOrderMap(attrs), attrs[i]) == OrderNone
  {
    var g := attrs[i].groups;
    PathOrderMapIsMin(attrs, g);
    if |g| > 0 {
      assert g[..|g|] == g;
      MinPathOrderBound(attrs, g, i);
    }
  }

  /** A parent path's global order is at most its child path's. */
  lemma ParentPathOrderFirst(attrs: seq<AttributeProperties>, g: GroupPath, h: GroupPath)
    requires 0 < |g| && IsAncestorPath(g, h) && h in PathOrderMap(attrs)
    ensures g in PathOrderMap(attrs) && PathOrderMap(attrs)[g] <= PathOrderMap(attrs)[h]
  {
    PathOrderMapIsMin(attrs, h);
    var i :| 0 <= i < |attrs| && UnderPath(attrs[i], h);
    assert attrs[i].groups[..|g|] == h[..|g|];
    assert UnderPath(attrs[i], g);
    PathOrderMapIsMin(attrs, g);
    MinPathOrderMonotone(attrs, g, h);
  }

  // ---------------------------------------------------------------------
  // Comparators
  // ---------------------------------------------------------------------

  /** lowerCaseOrdering: std::wstring < on the ASCII-lower-cased texts. */
  predicate LowerCaseLess(a: String, b: String)
  {
    LexLess(LowerCase(a), LowerCase(b))
  }

  lemma LowerCaseLessAsymmetric(a: String, b: String)
    ensures LowerCaseLess(a, b) ==> !LowerCaseLess(b, a)
    ensures !LowerCaseLess(a, a)
  {
    LexLessAsymmetric(LowerCase(a), LowerCase(b));
    LexLessIrreflexive(LowerCase(a));
  }

  /** Texts that differ only in letter case are equivalent. */
  lemma LowerCaseEquivalent(a: String, b: String)
    requires LowerCase(a) == LowerCase(b)
    ensures !LowerCaseLess(a, b) && !LowerCaseLess(b, a)
  {
    LexLessIrreflexive(LowerCase(a));
  }

  /** The position of the first group name two equally long, different paths
    * disagree on. */
  function FirstDifference(ga: seq<String>, gb: seq<String>): (i: nat)
    requires |ga| == |gb| && ga != gb
    ensures i < |ga| && ga[i] != gb[i] && ga[..i] == gb[..i]
  {
    FirstDifferenceFrom(ga, gb, 0)
  }

  function FirstDifferenceFrom(ga: seq<String>, gb: seq<String>, j: nat): (i: nat)
    requires |ga| == |gb| && ga != gb && j <= |ga| && ga[..j] == gb[..j]
    ensures j <= i < |ga| && ga[i] != gb[i] && ga[..i] == gb[..i]
    decreases |ga| - j
  {
    assert j < |ga| by {
      assert ga[..|ga|] == ga && gb[..|gb|] == gb;
    }
    if ga[j] != gb[j] then j
    else
      assert ga[..j + 1] == ga[..j] + [ga[j]] && gb[..j + 1] == gb[..j] + [gb[j]];
      FirstDifferenceFrom(ga, gb, j + 1)
  }

  /** The first difference does not depend on the argument order. */
  lemma FirstDifferenceSymmetric(ga: seq<String>, gb: seq<String>)
    requires |ga| == |gb| && ga != gb
    ensures FirstDifference(ga, gb) == FirstDifference(gb, ga)
  {
    var i := FirstDifference(ga, gb);
    var j := FirstDifference(gb, ga);
    assert forall k :: 0 <= k < i ==> ga[k] == gb[k] by {
      forall k | 0 <= k < i ensures ga[k] == gb[k] {
        assert ga[..i][k] == gb[..i][k];
      }
    }
    assert forall k :: 0 <= k < j ==> ga[k] == gb[k] by {
      forall k | 0 <= k < j ensures ga[k] == gb[k] {
        assert gb[..j][k] == ga[..j][k];
      }
    }
  }

  /** firstDifferentGroupInA: the group name of `a` at the first position
    * where the paths of `a` and `b` differ. */
  method FirstDifferentGroupInA(a: AttributeProperties, b: AttributeProperties) returns (g: String)
    requires |a.groups| == |b.groups| && a.groups != b.groups
    ensures g == a.groups[FirstDifference(a.groups, b.groups)]
  {
    var i := 0;
    while i < |a.groups| && a.groups[i] == b.groups[i]
      invariant i <= FirstDifference(a.groups, b.groups)
    {
      i := i + 1;
    }
    return a.groups[i];
  }

  /** compareRuleFile: start rule file members first, then the rule files
    * case-insensitively. */
  predicate CompareRuleFile(a: AttributeProperties, b: AttributeProperties)
  {
    if a.memberOfStartRuleFile then true
    else if b.memberOfStartRuleFile then false
    else LowerCaseLess(a.ruleFile, b.ruleFile)
  }

  /** compareAttributeOrder: the names case-insensitively when neither has
    * an order, else the orders. */
  predicate CompareAttributeOrder(a: AttributeProperties, b: AttributeProperties)
  {
    if a.order == OrderNone && b.order == OrderNone then LowerCaseLess(a.name, b.name)
    else a.order < b.order
  }

  /** compareGroups of RuleAttributes.cpp: parents before children, then the
    * global group orders, then shallower paths, then the first differing
    * group names case-insensitively. */
  predicate CompareGroups(globalGroupOrder: map<GroupPath, int>, a: AttributeProperties, b: AttributeProperties)
    requires a.groups != b.groups
  {
    if IsAncestorPath(b.groups, a.groups) then false
    else if IsAncestorPath(a.groups, b.groups) then true
    else if GroupOrderOf(globalGroupOrder, a) != GroupOrderOf(globalGroupOrder, b) then
      GroupOrderOf(globalGroupOrder, a) < GroupOrderOf(globalGroupOrder, b)
    else if |a.groups| != |b.groups| then |a.groups| < |b.groups|
    else LowerCaseLess(a.groups[FirstDifference(a.groups, b.groups)], b.groups[FirstDifference(b.groups, a.groups)])
  }

  /** attributeOrder of RuleAttributes.cpp. */
  predicate AttributeOrder(globalGroupOrder: map<GroupPath, int>, a: AttributeProperties, b: AttributeProperties)
  {
    if a.ruleFile != b.ruleFile then CompareRuleFile(a, b)
    else if a.groups != b.groups then CompareGroups(globalGroupOrder, a, b)
    else CompareAttributeOrder(a, b)
  }

  /** compareGroups of RuleAttributes.h: parents before children; between
    * paths without group order, shallower paths and then the first
    * differing group names case-insensitively; else the group orders. */
  predicate CompareGroupsByGroupOrder(a: AttributeProperties, b: AttributeProperties)
    requires a.groups != b.groups
  {
    if IsAncestorPath(b.groups, a.groups) then false
    else if IsAncestorPath(a.groups, b.groups) then true
    else if a.groupOrder == OrderNone && b.groupOrder == OrderNone then
      if |a.groups| != |b.groups| then |a.groups| < |b.groups|
      else
        var i := FirstDifference(a.groups, b.groups);
        LowerCaseLess(a.groups[i], b.groups[i])
    else a.groupOrder < b.groupOrder
  }

  /** attributeOrder of RuleAttributes.h. */
  predicate HeaderAttributeOrder(a: AttributeProperties, b: AttributeProperties)
  {
    if a.ruleFile != b.ruleFile then CompareRuleFile(a, b)
    else if a.groups != b.groups then CompareGroupsByGroupOrder(a, b)
    else CompareAttributeOrder(a, b)
  }

  /** attributeOrder of RuleAttributes.cpp with its loops. */
  method CompareAttributes(globalGroupOrder: map<GroupPath, int>, a: AttributeProperties, b: AttributeProperties)
    returns (less: bool)
    ensures less == AttributeOrder(globalGroupOrder, a, b)
  {
    if a.ruleFile != b.ruleFile {
      return CompareRuleFile(a, b);
    }
    if a.groups != b.groups {
      var aIsChild := AncestorPath(b.groups, a.groups);
      if aIsChild {
        return false;
      }
      var bIsChild := AncestorPath(a.groups, b.groups);
      if bIsChild {
        return true;
      }
      var globalOrderA := GroupOrderOf(globalGroupOrder, a);
      var globalOrderB := GroupOrderOf(globalGroupOrder, b);
      if globalOrderA != globalOrderB {
        return globalOrderA < globalOrderB;
      }
      if |a.groups| != |b.groups| {
        return |a.groups| < |b.groups|;
      }
      var ga := FirstDifferentGroupInA(a, b);
      var gb := FirstDifferentGroupInA(b, a);
      return LowerCaseLess(ga, gb);
    }
    return CompareAttributeOrder(a, b);
  }

  /** attributeOrder of RuleAttributes.h with its loops. */
  method CompareAttributesByGroupOrder(a: AttributeProperties, b: AttributeProperties) returns (less: bool)
    ensures less == HeaderAttributeOrder(a, b)
  {
    if a.ruleFile != b.ruleFile {
      return CompareRuleFile(a, b);
    }
    if a.groups != b.groups {
      var aIsChild := AncestorPath(b.groups, a.groups);
      if aIsChild {
        return false;
      }
      var bIsChild := AncestorPath(a.groups, b.groups);
      if bIsChild {
        return true;
      }
      if a.groupOrder == OrderNone && b.groupOrder == OrderNone {
        if |a.groups| != |b.groups| {
          return |a.groups| < |b.groups|;
        }
        var i := 0;
        while i < |a.groups| && a.groups[i] == b.groups[i]
          invariant i <= FirstDifference(a.groups, b.groups)
        {
          i := i + 1;
        }
        return LowerCaseLess(a.groups[i], b.groups[i]);
      }
      return a.groupOrder < b.groupOrder;
    }
    return CompareAttributeOrder(a, b);
  }

  // Properties of the two comparators.

  lemma CompareAttributeOrderAsymmetric(a: AttributeProperties, b: AttributeProperties)
    ensures CompareAttributeOrder(a, b) ==> !CompareAttributeOrder(b, a)
    ensures !CompareAttributeOrder(a, a)
  {
    LowerCaseLessAsymmetric(a.name, b.name);
  }

  /** No attribute sorts before itself. */
  lemma AttributeOrderIrreflexive(globalGroupOrder: map<GroupPath, int>, a: AttributeProperties)
    ensures !AttributeOrder(globalGroupOrder, a, a)
    ensures !HeaderAttributeOrder(a, a)
  {
    CompareAttributeOrderAsymmetric(a, a);
  }

  /** Both comparators are asymmetric as long as start rule file members
    * never come from two different rule files. */
  lemma AttributeOrderAsymmetric(globalGroupOrder: map<GroupPath, int>, a: AttributeProperties, b: AttributeProperties)
    requires a.memberOfStartRuleFile && b.memberOfStartRuleFile ==> a.ruleFile == b.ruleFile
    ensures AttributeOrder(globalGroupOrder, a, b) ==> !AttributeOrder(globalGroupOrder, b, a)
    ensures HeaderAttributeOrder(a, b) ==> !HeaderAttributeOrder(b, a)
  {
    LowerCaseLessAsymmetric(a.ruleFile, b.ruleFile);
    CompareAttributeOrderAsymmetric(a, b);
    if a.groups != b.groups && |a.groups| == |b.groups| {
      FirstDifferenceSymmetric(a.groups, b.groups);
      var i := FirstDifference(a.groups, b.groups);
      LowerCaseLessAsymmetric(a.groups[i], b.groups[i]);
    }
  }

  /** Start rule file members sort before the attributes of other rule files. */
  lemma StartRuleFileFirst(globalGroupOrder: map<GroupPath, int>, a: AttributeProperties, b: AttributeProperties)
    requires a.memberOfStartRuleFile && !b.memberOfStartRuleFile && a.ruleFile != b.ruleFile
    ensures AttributeOrder(globalGroupOrder, a, b) && !AttributeOrder(globalGroupOrder, b, a)
    ensures HeaderAttributeOrder(a, b) && !HeaderAttributeOrder(b, a)
  {
  }

  /** Within a rule file, a parent group sorts before its subgroups. */
  lemma ParentGroupFirst(globalGroupOrder: map<GroupPath, int>, p: AttributeProperties, c: AttributeProperties)
    requires p.ruleFile == c.ruleFile && IsAncestorPath(p.groups, c.groups)
    ensures AttributeOrder(globalGroupOrder, p, c) && !AttributeOrder(globalGroupOrder, c, p)
    ensures HeaderAttributeOrder(p, c) && !HeaderAttributeOrder(c, p)
  {
  }

  /** Within a rule file, unrelated groups follow their global group order,
    * and for equal global orders the shallower group comes first. */
  lemma GlobalGroupOrderDecides(globalGroupOrder: map<GroupPath, int>, a: AttributeProperties, b: AttributeProperties)
    requires a.ruleFile == b.ruleFile && a.groups != b.groups
    requires !IsAncestorPath(a.groups, b.groups) && !IsAncestorPath(b.groups, a.groups)
    ensures GroupOrderOf(globalGroupOrder, a) < GroupOrderOf(globalGroupOrder, b) ==>
              AttributeOrder(globalGroupOrder, a, b)
    ensures GroupOrderOf(globalGroupOrder, a) == GroupOrderOf(globalGroupOrder, b) && |a.groups| < |b.groups| ==>
              AttributeOrder(globalGroupOrder, a, b)
  {
  }

  /** Within one group, an attribute with an order sorts before one without,
    * and names differing only in case are equivalent when neither has one. */
  lemma AttributeOrderWithinGroup(globalGroupOrder: map<GroupPath, int>, a: AttributeProperties, b: AttributeProperties)
    requires a.ruleFile == b.ruleFile && a.groups == b.groups
    ensures a.order < OrderNone && b.order == OrderNone ==>
              AttributeOrder(globalGroupOrder, a, b) && !AttributeOrder(globalGroupOrder, b, a)
    ensures a.order == OrderNone && b.order == OrderNone && LowerCase(a.name) == LowerCase(b.name) ==>
              !AttributeOrder(globalGroupOrder, a, b) && !AttributeOrder(globalGroupOrder, b, a)
  {
    if LowerCase(a.name) == LowerCase(b.name) {
      LowerCaseEquivalent(a.name, b.name);
    }
  }

  // ---------------------------------------------------------------------
  // sortRuleAttributes
  // ---------------------------------------------------------------------

  lemma AttributeOrderAsymmetricOn(s: seq<AttributeProperties>, globalGroupOrder: map<GroupPath, int>)
    requires StartFilesAgree(s)
    ensures forall x, y :: x in s && y in s && AttributeOrder(globalGroupOrder, x, y) ==>
                           !AttributeOrder(globalGroupOrder, y, x)
    ensures forall x, y :: x in s && y in s && HeaderAttributeOrder(x, y) ==> !HeaderAttributeOrder(y, x)
  {
    forall x, y | x in s && y in s
      ensures AttributeOrder(globalGroupOrder, x, y) ==> !AttributeOrder(globalGroupOrder, y, x)
      ensures HeaderAttributeOrder(x, y) ==> !HeaderAttributeOrder(y, x)
    {
      AttributeOrderAsymmetric(globalGroupOrder, x, y);
    }
  }

  /** sortRuleAttributes of RuleAttributes.cpp: sort by attributeOrder under
    * the global group order of the unsorted attributes. */
  method SortRuleAttributes(ra: array<AttributeProperties>)
    requires StartFilesAgree(ra[..])
    modifies ra
    ensures multiset(ra[..]) == multiset(old(ra[..]))
    ensures forall k :: 0 <= k < ra.Length - 1 ==> !AttributeOrder(PathOrderMap(old(ra[..])), ra[k + 1], ra[k])
  {
    var globalGroupOrder := GetGlobalGroupOrder(ra[..]);
    var attributeOrder := (x: AttributeProperties, y: AttributeProperties) => AttributeOrder(globalGroupOrder, x, y);
    AttributeOrderAsymmetricOn(ra[..], globalGroupOrder);
    assert Sorting.AsymmetricOn(ra[..], attributeOrder);
    Sorting.Sort(ra, attributeOrder);
    assert Sorting.AdjacentSorted(ra[..], attributeOrder);
  }

  /** sortRuleAttributes of RuleAttributes.h: sort by its attributeOrder. */
  method SortRuleAttributesByGroupOrder(ra: array<AttributeProperties>)
    requires StartFilesAgree(ra[..])
    modifies ra
    ensures multiset(ra[..]) == multiset(old(ra[..]))
    ensures forall k :: 0 <= k < ra.Length - 1 ==> !HeaderAttributeOrder(ra[k + 1], ra[k])
  {
    var attributeOrder := (x: AttributeProperties, y: AttributeProperties) => HeaderAttributeOrder(x, y);
    AttributeOrderAsymmetricOn(ra[..], map[]);
    assert Sorting.AsymmetricOn(ra[..], attributeOrder);
    Sorting.Sort(ra, attributeOrder);
    assert Sorting.AdjacentSorted(ra[..], attributeOrder);
  }

  // ---------------------------------------------------------------------
  // AttributeProperties.h: the flat variant
  // ---------------------------------------------------------------------

  /** NO_ORDER, which equals ORDER_NONE. */
  const NoOrder: int := 2147483647

  /** The attribute properties of AttributeProperties.h: one group string
    * and no start rule file flag. */
  datatype FlatAttributeProperties = FlatAttributeProperties(
    order: int,
    groupOrder: int,
    index: nat,
    name: String,
    ruleFile: String,
    groups: String,
    enumAnnotation: Option<Annotation>)

  /** The comparator of AttributeProperties.h: the main rule's file first,
    * then rule files, groups and names case-insensitively unless an order
    * is given. */
  predicate FlatLess(mainCgaRuleName: String, a: FlatAttributeProperties, b: FlatAttributeProperties)
  {
    if a.ruleFile != b.ruleFile then
      if a.ruleFile == mainCgaRuleName then true
      else if b.ruleFile == mainCgaRuleName then false
      else LowerCaseLess(a.ruleFile, b.ruleFile)
    else if a.groups != b.groups then
      if a.groupOrder == NoOrder && b.groupOrder == NoOrder then LowerCaseLess(a.groups, b.groups)
      else a.groupOrder < b.groupOrder
    else
      if a.order == NoOrder && b.order == NoOrder then LowerCaseLess(a.name, b.name)
      else a.order < b.order
  }

  /** The flat comparator is irreflexive and asymmetric on all inputs. */
  lemma FlatLessAsymmetric(mainCgaRuleName: String, a: FlatAttributeProperties, b: FlatAttributeProperties)
    ensures !FlatLess(mainCgaRuleName, a, a)
    ensures FlatLess(mainCgaRuleName, a, b) ==> !FlatLess(mainCgaRuleName, b, a)
  {
    LowerCaseLessAsymmetric(a.ruleFile, b.ruleFile);
    LowerCaseLessAsymmetric(a.groups, b.groups);
    LowerCaseLessAsymmetric(a.name, b.name);
  }

  /** The main rule's attributes sort before those of other rule files. */
  lemma FlatMainRuleFirst(mainCgaRuleName: String, a: FlatAttributeProperties, b: FlatAttributeProperties)
    requires a.ruleFile == mainCgaRuleName && b.ruleFile != mainCgaRuleName
    ensures FlatLess(mainCgaRuleName, a, b) && !FlatLess(mainCgaRuleName, b, a)
  {
  }

  /** Within a rule file, groups with a group order sort by it, ahead of
    * groups without one. */
  lemma FlatGroupOrderFirst(mainCgaRuleName: String, a: FlatAttributeProperties, b: FlatAttributeProperties)
    requires a.ruleFile == b.ruleFile && a.groups != b.groups
    requires a.groupOrder < NoOrder && b.groupOrder == NoOrder
    ensures FlatLess(mainCgaRuleName, a, b) && !FlatLess(mainCgaRuleName, b, a)
  {
  }

  /** sortRuleAttributes of AttributeProperties.h. */
  method SortFlatRuleAttributes(ra: array<FlatAttributeProperties>, mainCgaRuleName: String)
    modifies ra
    ensures multiset(ra[..]) == multiset(old(ra[..]))
    ensures forall k :: 0 <= k < ra.Length - 1 ==> !FlatLess(mainCgaRuleName, ra[k + 1], ra[k])
  {
    var comparator := (x: FlatAttributeProperties, y: FlatAttributeProperties) => FlatLess(mainCgaRuleName, x, y);
    forall x, y | x in ra[..] && y in ra[..] ensures comparator(x, y) ==> !comparator(y, x) {
      FlatLessAsymmetric(mainCgaRuleName, x, y);
    }
    Sorting.Sort(ra, comparator);
    assert Sorting.AdjacentSorted(ra[..], comparator);
  }
}
