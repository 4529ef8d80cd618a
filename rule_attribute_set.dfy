// The order in which the modifier node shows rule attributes
// (RuleAttributeCmp in modifiers/RuleAttributes.cpp), the std::set the
// sorted attributes are collected in, and getRuleAttributes, which builds
// that set from a rule file's information.

module RuleAttributeSet {
  import opened Text
  import opened RuleInfo
  import opened RuleAttributes

  // ---------------------------------------------------------------------
  // The comparator
  // ---------------------------------------------------------------------

  /** compareRuleFile: attributes of the start rule file first, then by
    * import order, then by rule file name. */
  predicate RuleFileLess(a: RuleAttribute, b: RuleAttribute)
  {
    if a.memberOfStartRuleFile && !b.memberOfStartRuleFile then true
    else if b.memberOfStartRuleFile && !a.memberOfStartRuleFile then false
    else if a.ruleOrder != b.ruleOrder then a.ruleOrder < b.ruleOrder
    else LexLess(a.ruleFile, b.ruleFile)
  }

  /** isChildOf: the parent's group path is a proper prefix of the child's. */
  predicate IsChildOf(child: RuleAttribute, parent: RuleAttribute)
  {
    IsAncestorPath(parent.groups, child.groups)
  }

  /** compareGroups from position i on: the first differing group name
    * decides; a path that runs out first sorts after the longer one. */
  predicate GroupsLessFrom(ga: seq<String>, gb: seq<String>, i: nat)
    decreases |ga| + |gb| - i
  {
    if i >= |ga| && i >= |gb| then false
    else if i >= |ga| then false
    else if i >= |gb| then true
    else if ga[i] != gb[i] then LexLess(ga[i], gb[i])
    else GroupsLessFrom(ga, gb, i + 1)
  }

  predicate GroupsLess(ga: seq<String>, gb: seq<String>)
  {
    GroupsLessFrom(ga, gb, 0)
  }

  /** compareOrderToGroupOrder: an attribute with groups against one
    * without, by the global group order against the order, ties broken by
    * the first group name against the base name. */
  predicate OrderToGroupOrderLess(withGroups: RuleAttribute, withoutGroups: RuleAttribute)
  {
    if |withGroups.groups| > 0 && withGroups.globalGroupOrder == withoutGroups.order
    then !LexLess(AttrBaseName(withoutGroups.fqName), withGroups.groups[0])
    else withGroups.globalGroupOrder < withoutGroups.order
  }

  /** compareGroupOrder: attributes of one rule file in different groups. */
  predicate GroupOrderLess(a: RuleAttribute, b: RuleAttribute)
  {
    if |b.groups| == 0 then OrderToGroupOrderLess(a, b)
    else if |a.groups| == 0 then !OrderToGroupOrderLess(b, a)
    else if IsChildOf(a, b) then false
    else if IsChildOf(b, a) then true
    else if a.globalGroupOrder != b.globalGroupOrder then a.globalGroupOrder < b.globalGroupOrder
    else GroupsLess(a.groups, b.groups)
  }

  /** compareAttributeOrder: by order, ties broken by base name. */
  predicate AttributeOrderLess(a: RuleAttribute, b: RuleAttribute)
  {
    if a.order == b.order then LexLess(AttrBaseName(a.fqName), AttrBaseName(b.fqName))
    else a.order < b.order
  }

  /** RuleAttributeCmp::operator(). */
  predicate Less(a: RuleAttribute, b: RuleAttribute)
  {
    if a.ruleFile != b.ruleFile then RuleFileLess(a, b)
    else if a.groups != b.groups then GroupOrderLess(a, b)
    else AttributeOrderLess(a, b)
  }

  /** The loop of compareGroups. */
  method CompareGroups(ga: seq<String>, gb: seq<String>) returns (less: bool)
    ensures less == GroupsLess(ga, gb)
  {
    var n := if |ga| < |gb| then |gb| else |ga|;
    for i := 0 to n
      invariant GroupsLessFrom(ga, gb, i) == GroupsLess(ga, gb)
    {
      if i >= |ga| {
        return false;
      }
      if i >= |gb| {
        return true;
      }
      if ga[i] != gb[i] {
        return LexLess(ga[i], gb[i]);
      }
    }
    return false;
  }

  /** RuleAttributeCmp::operator() with its loops. */
  method Compare(lhs: RuleAttribute, rhs: RuleAttribute) returns (less: bool)
    ensures less == Less(lhs, rhs)
  {
    if lhs.ruleFile != rhs.ruleFile {
      return RuleFileLess(lhs, rhs);
    }
    if lhs.groups != rhs.groups {
      if |rhs.groups| == 0 {
        return OrderToGroupOrderLess(lhs, rhs);
      }
      if |lhs.groups| == 0 {
        return !OrderToGroupOrderLess(rhs, lhs);
      }
      var aChild := AncestorPath(rhs.groups, lhs.groups);
      if aChild {
        return false;
      }
      var bChild := AncestorPath(lhs.groups, rhs.groups);
      if bChild {
        return true;
      }
      if lhs.globalGroupOrder != rhs.globalGroupOrder {
        return lhs.globalGroupOrder < rhs.globalGroupOrder;
      }
      less := CompareGroups(lhs.groups, rhs.groups);
      return;
    }
    return AttributeOrderLess(lhs, rhs);
  }

  // ---------------------------------------------------------------------
  // Properties of the comparator
  // ---------------------------------------------------------------------

  lemma {:induction false} GroupsLessFromAsymmetric(ga: seq<String>, gb: seq<String>, i: nat)
    ensures GroupsLessFrom(ga, gb, i) ==> !GroupsLessFrom(gb, ga, i)
    decreases |ga| + |gb| - i
  {
    if i < |ga| && i < |gb| {
      if ga[i] != gb[i] {
        LexLessAsymmetric(ga[i], gb[i]);
      } else {
        GroupsLessFromAsymmetric(ga, gb, i + 1);
      }
    }
  }

  lemma {:induction false} GroupsLessFromTotal(ga: seq<String>, gb: seq<String>, i: nat)
    requires i <= |ga| && i <= |gb| && ga[..i] == gb[..i]
    ensures ga != gb ==> GroupsLessFrom(ga, gb, i) || GroupsLessFrom(gb, ga, i)
    decreases |ga| + |gb| - i
  {
    if i < |ga| && i < |gb| {
      if ga[i] != gb[i] {
        LexLessTotal(ga[i], gb[i]);
      } else {
        assert ga[..i + 1] == ga[..i] + [ga[i]];
        assert gb[..i + 1] == gb[..i] + [gb[i]];
        GroupsLessFromTotal(ga, gb, i + 1);
      }
    } else if i >= |ga| && i >= |gb| {
      assert ga == ga[..i] && gb == gb[..i];
    }
  }

  /** Two different group paths are ordered one way or the other, never both. */
  lemma GroupsLessTrichotomy(ga: seq<String>, gb: seq<String>)
    ensures GroupsLess(ga, gb) ==> !GroupsLess(gb, ga)
    ensures ga != gb ==> GroupsLess(ga, gb) || GroupsLess(gb, ga)
    ensures !GroupsLess(ga, ga)
  {
    GroupsLessFromAsymmetric(ga, gb, 0);
    GroupsLessFromAsymmetric(ga, ga, 0);
    GroupsLessFromTotal(ga, gb, 0);
  }

  /** The key the comparator sorts by: two attributes neither of which sorts
    * before the other agree on all four. */
  predicate SameSortKey(a: RuleAttribute, b: RuleAttribute)
  {
    a.ruleFile == b.ruleFile && a.groups == b.groups && a.order == b.order &&
    AttrBaseName(a.fqName) == AttrBaseName(b.fqName)
  }

  /** No attribute sorts before itself. */
  lemma LessIrreflexive(a: RuleAttribute)
    ensures !Less(a, a)
  {
    LexLessIrreflexive(AttrBaseName(a.fqName));
  }

  /** The comparator is asymmetric. */
  lemma LessAsymmetric(a: RuleAttribute, b: RuleAttribute)
    ensures Less(a, b) ==> !Less(b, a)
  {
    LexLessAsymmetric(a.ruleFile, b.ruleFile);
    LexLessAsymmetric(AttrBaseName(a.fqName), AttrBaseName(b.fqName));
    GroupsLessTrichotomy(a.groups, b.groups);
  }

  /** Two attributes are ordered one way or the other unless they agree on
    * rule file, groups, order and base name. */
  lemma LessTrichotomy(a: RuleAttribute, b: RuleAttribute)
    ensures Less(a, b) || Less(b, a) || SameSortKey(a, b)
  {
    LexLessTotal(a.ruleFile, b.ruleFile);
    LexLessTotal(AttrBaseName(a.fqName), AttrBaseName(b.fqName));
    GroupsLessTrichotomy(a.groups, b.groups);
    if a.ruleFile == b.ruleFile && a.groups != b.groups && |a.groups| > 0 && |b.groups| > 0 &&
       !IsChildOf(a, b) && !IsChildOf(b, a) && a.globalGroupOrder == b.globalGroupOrder {
      assert Less(a, b) == GroupsLess(a.groups, b.groups);
      assert Less(b, a) == GroupsLess(b.groups, a.groups);
    }
  }

  /** Neither sorts before the other exactly when the sort keys agree. */
  lemma EquivalentIffSameSortKey(a: RuleAttribute, b: RuleAttribute)
    ensures (!Less(a, b) && !Less(b, a)) <==> SameSortKey(a, b)
  {
    LessTrichotomy(a, b);
    if SameSortKey(a, b) {
      LexLessIrreflexive(AttrBaseName(a.fqName));
    }
  }

  /** Attributes of the start rule file precede those of imported files. */
  lemma StartRuleFileFirst(a: RuleAttribute, b: RuleAttribute)
    requires a.memberOfStartRuleFile && !b.memberOfStartRuleFile && a.ruleFile != b.ruleFile
    ensures Less(a, b) && !Less(b, a)
  {
  }

  /** Among attributes of one rule file, a group precedes its sub-groups. */
  lemma ParentGroupFirst(parent: RuleAttribute, child: RuleAttribute)
    requires parent.ruleFile == child.ruleFile && |parent.groups| > 0 && IsChildOf(child, parent)
    ensures Less(parent, child) && !Less(child, parent)
  {
    assert parent.groups != child.groups;
  }

  /** Imported rule files follow their import order. */
  lemma ImportOrderFirst(a: RuleAttribute, b: RuleAttribute)
    requires !a.memberOfStartRuleFile && !b.memberOfStartRuleFile && a.ruleFile != b.ruleFile
    requires a.ruleOrder < b.ruleOrder
    ensures Less(a, b) && !Less(b, a)
  {
  }

  // ---------------------------------------------------------------------
  // The std::set of sorted attributes
  // ---------------------------------------------------------------------

  /** std::set's notion of an element already present. */
  predicate Equivalent(a: RuleAttribute, b: RuleAttribute)
  {
    !Less(a, b) && !Less(b, a)
  }

  predicate HasEquivalent(s: seq<RuleAttribute>, x: RuleAttribute)
  {
    exists i :: 0 <= i < |s| && Equivalent(s[i], x)
  }

  /** The position an insertion puts `x` at: before the first element it
    * sorts before. */
  function InsertPosition(s: seq<RuleAttribute>, x: RuleAttribute): (p: nat)
    ensures p <= |s|
    ensures forall i :: 0 <= i < p ==> !Less(x, s[i])
    ensures p < |s| ==> Less(x, s[p])
  {
    if |s| == 0 then 0
    else if Less(x, s[0]) then 0
    else 1 + InsertPosition(s[1..], x)
  }

  /** std::set::insert: an element equivalent to one present is dropped,
    * any other goes to its place in the order. */
  function Insert(s: seq<RuleAttribute>, x: RuleAttribute): (r: seq<RuleAttribute>)
  {
    if HasEquivalent(s, x) then s
    else
      var p := InsertPosition(s, x);
      s[..p] + [x] + s[p..]
  }

  /** The set built from the range [ra.begin(), ra.end()), as a sequence in
    * iteration order. */
  function BuildSet(xs: seq<RuleAttribute>): (r: seq<RuleAttribute>)
  {
    if |xs| == 0 then [] else Insert(BuildSet(xs[..|xs| - 1]), xs[|xs| - 1])
  }

  /** Each element sorts before the next one. */
  predicate Ordered(s: seq<RuleAttribute>)
  {
    forall i :: 0 <= i < |s| - 1 ==> Less(s[i], s[i + 1])
  }

  /** No two elements are equivalent. */
  predicate NoEquivalents(s: seq<RuleAttribute>)
  {
    forall i, j :: 0 <= i < j < |s| ==> !Equivalent(s[i], s[j])
  }

  /** Inserting `x` at its position keeps the elements in order. */
  lemma InsertOrdered(s: seq<RuleAttribute>, x: RuleAttribute)
    requires Ordered(s) && !HasEquivalent(s, x)
    ensures Ordered(Insert(s, x))
  {
    var p := InsertPosition(s, x);
    var r := Insert(s, x);
    assert r == s[..p] + [x] + s[p..];
    if p > 0 {
      assert !Equivalent(s[p - 1], x);
      assert Less(s[p - 1], x);
    }
    forall i | 0 <= i < |r| - 1 ensures Less(r[i], r[i + 1]) {
      if i + 1 < p {
        assert r[i] == s[i] && r[i + 1] == s[i + 1];
      } else if i > p {
        assert r[i] == s[i - 1] && r[i + 1] == s[i];
      }
    }
  }

  /** Inserting `x` at its position adds no equivalent pair. */
  lemma InsertNoEquivalents(s: seq<RuleAttribute>, x: RuleAttribute)
    requires NoEquivalents(s) && !HasEquivalent(s, x)
    ensures NoEquivalents(Insert(s, x))
  {
    var p := InsertPosition(s, x);
    var r := Insert(s, x);
    assert r == s[..p] + [x] + s[p..];
    forall i, j | 0 <= i < j < |r| ensures !Equivalent(r[i], r[j]) {
      var si := if i < p then i else i - 1;
      var sj := if j <= p then j else j - 1;
      if i == p {
        assert r[i] == x && r[j] == s[sj];
        assert !Equivalent(s[sj], x);
      } else if j == p {
        assert r[i] == s[si] && r[j] == x;
        assert !Equivalent(s[si], x);
      } else {
        assert r[i] == s[si] && r[j] == s[sj] && si < sj;
      }
    }
  }

  /** An insertion holds `x` or an equivalent of it, keeps every element and
    * adds nothing but `x`. */
  lemma InsertMembers(s: seq<RuleAttribute>, x: RuleAttribute)
    ensures HasEquivalent(Insert(s, x), x)
    ensures forall e :: e in Insert(s, x) ==> e in s || e == x
    ensures forall e :: e in s ==> e in Insert(s, x)
  {
    if !HasEquivalent(s, x) {
      var p := InsertPosition(s, x);
      var r := Insert(s, x);
      assert r == s[..p] + [x] + s[p..];
      LessIrreflexive(x);
      assert r[p] == x && Equivalent(r[p], x);
      assert s == s[..p] + s[p..];
    }
  }

  /** An element with an equivalent in the set still has one after an
    * insertion. */
  lemma InsertKeepsEquivalent(s: seq<RuleAttribute>, x: RuleAttribute, y: RuleAttribute)
    requires HasEquivalent(s, y)
    ensures HasEquivalent(Insert(s, x), y)
  {
    InsertMembers(s, x);
    var k :| 0 <= k < |s| && Equivalent(s[k], y);
    assert s[k] in Insert(s, x);
    var k2 :| 0 <= k2 < |Insert(s, x)| && Insert(s, x)[k2] == s[k];
  }

  /** The set is ordered, free of equivalents, holds an equivalent of every
    * attribute of the range, and only attributes of the range. */
  lemma {:induction false} BuildSetProperties(xs: seq<RuleAttribute>)
    ensures Ordered(BuildSet(xs)) && NoEquivalents(BuildSet(xs))
    ensures forall i :: 0 <= i < |xs| ==> HasEquivalent(BuildSet(xs), xs[i])
    ensures forall e :: e in BuildSet(xs) ==> e in xs
  {
    if |xs| > 0 {
      var n := |xs| - 1;
      var front, x := xs[..n], xs[n];
      assert xs == front + [x];
      BuildSetProperties(front);
      var s := BuildSet(front);
      var r := BuildSet(xs);
      assert r == Insert(s, x);
      InsertMembers(s, x);
      if !HasEquivalent(s, x) {
        InsertOrdered(s, x);
        InsertNoEquivalents(s, x);
      }
      forall i | 0 <= i < n ensures HasEquivalent(r, xs[i]) {
        assert xs[i] == front[i];
        InsertKeepsEquivalent(s, x, xs[i]);
      }
      forall e | e in r ensures e in xs {
        assert e in s ==> e in front;
      }
    }
  }

  // ---------------------------------------------------------------------
  // getRuleAttributes
  // ---------------------------------------------------------------------

  /** The attributes after setGlobalGroupOrder. */
  function WithGlobalGroupOrder(attrs: seq<RuleAttribute>): (r: seq<RuleAttribute>)
    ensures |r| == |attrs|
  {
    seq(|attrs|, i requires 0 <= i < |attrs| => attrs[i].(globalGroupOrder := GlobalGroupOrderFor(attrs, attrs[i])))
  }

  /** The attribute set getRuleAttributes returns for the rule file `ruleFile`. */
  function RuleAttributesOf(ruleFile: String, info: RuleFileInfo, importsAnnot: String, importsKey: String)
    : seq<RuleAttribute>
    requires WellFormedEntries(info.attributes)
  {
    var importOrderMap := ImportOrders(ImportList(info.annotations, importsAnnot, importsKey));
    BuildSet(WithGlobalGroupOrder(DeriveAll(info.attributes, Stem(ruleFile), importOrderMap).0))
  }

  /** getRuleAttributes: derive an attribute from every parameterless entry
    * that is not hidden, set the global group orders and collect the
    * attributes in the sorted set. */
  method GetRuleAttributes(ruleFile: String, info: RuleFileInfo, importsAnnot: String, importsKey: String)
    returns (sorted: seq<RuleAttribute>)
    requires WellFormedEntries(info.attributes)
    ensures sorted == RuleAttributesOf(ruleFile, info, importsAnnot, importsKey)
  {
    var mainCgaRuleName := Stem(ruleFile);
    var importOrderMap := GetImportOrderMap(info, importsAnnot, importsKey);
    var entries := info.attributes;
    var ra: seq<RuleAttribute> := [];
    var counts: map<String, int> := map[];
    for i := 0 to |entries|
      invariant WellFormedEntries(entries[..i])
      invariant (ra, counts) == DeriveAll(entries[..i], mainCgaRuleName, importOrderMap)
    {
      DeriveAllSnoc(entries, i, mainCgaRuleName, importOrderMap);
      var attr := entries[i];
      if attr.numParameters != 0 {
        continue;
      }
      var p, hidden;
      p, hidden, counts := DeriveAttribute(attr, mainCgaRuleName, importOrderMap, counts);
      if hidden {
        continue;
      }
      ra := ra + [p];
    }
    assert entries[..|entries|] == entries;
    var arr := new RuleAttribute[|ra|](i requires 0 <= i < |ra| => ra[i]);
    assert arr[..] == ra;
    SetGlobalGroupOrder(arr);
    assert arr[..] == WithGlobalGroupOrder(ra);
    sorted := BuildSet(arr[..]);
  }

  /** The returned set is in order, free of equivalents, and made of
    * attributes derived from visible parameterless entries. */
  lemma RuleAttributesOfProperties(ruleFile: String, info: RuleFileInfo, importsAnnot: String, importsKey: String)
    requires WellFormedEntries(info.attributes)
    ensures var r := RuleAttributesOf(ruleFile, info, importsAnnot, importsKey);
      Ordered(r) && NoEquivalents(r) &&
      forall e :: e in r ==> DerivedFrom(info.attributes, Stem(ruleFile), e)
  {
    var importOrderMap := ImportOrders(ImportList(info.annotations, importsAnnot, importsKey));
    var attrs := DeriveAll(info.attributes, Stem(ruleFile), importOrderMap).0;
    var withOrder := WithGlobalGroupOrder(attrs);
    BuildSetProperties(withOrder);
    DerivedFromVisibleEntries(info.attributes, Stem(ruleFile), importOrderMap);
    forall e | e in BuildSet(withOrder) ensures DerivedFrom(info.attributes, Stem(ruleFile), e) {
      var k :| 0 <= k < |withOrder| && withOrder[k] == e;
      assert DerivedFrom(info.attributes, Stem(ruleFile), attrs[k]);
    }
  }
}
