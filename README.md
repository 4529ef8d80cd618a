# Serlio core logic in Dafny

Serlio is the ArcGIS CityEngine plug-in for Autodesk Maya. Its modifier node runs CGA rule packages (`.rpk`) through the procedural runtime (PRT). It exposes the rules' attributes as Maya attributes and turns the generated geometry and materials into a Maya mesh, shaders and shading groups.

This project models the sequential logic underneath the plug-in's Maya and PRT calls, and proves properties of that model. Every host call becomes a value: plugs and attributes as maps, files as maps or sets of paths, and engine or Maya answers as inputs. The modelled logic covers:

- **Geometry encoder** (`maya_encoder.dfy`). `convertGeometry` merges leaf geometries into one indexed mesh with running vertex and UV bases, binds UVs face corner by face corner, and cuts one shading-group face range per geometry of more than one face.
- **Modifier callbacks** (`maya_callbacks.dfy`). `addAsset` and its result buffer; the conversion of index buffers; the per-corner normal layout; the order in which UV sets are created; the layout of the material metadata stream.
- **Caches** (`asset_cache.dfy`, `resolve_map_cache.dfy`).
  - The asset cache maps a URI to a content-hashed path and handles reuse, rewrite after deletion, hash change and write failure.
  - Three generations of the resolve-map cache are invalidated by the package's modification time.
- **Rule attributes** (`rule_info.dfy`, `rule_attributes.dfy`, `rule_attribute_set.dfy`, `prt_rule_attributes.dfy`, `sorting.dfy`). Name parsing, import and group order maps, Maya-safe unique names, and the comparators that order attributes in the attribute editor, with the sort applied to them.
- **Enum attributes** (`modifier_enum.dfy`, `enum_values.dfy`).
  - Static and dynamic option lists, and the diff-aware rewrite of the Maya enum.
  - The value arrays filled from an `@Enum` annotation, and the default index search.
- **Modifier actions** (`modifier_action.dfy`, `modifier_attributes.dfy`, `prt_modifier_action.dfy`). The `_user_set`/`_force_default` bookkeeping, the user-set and UI update rules, attribute creation and pruning, and the attribute map handed to generation.
- **Modifier nodes** (`modifier_node.dfy`, `prt_modifier_node.dfy`). The call sequence of both generations of `PRTModifierNode::compute`.
- **Materials** (`material_info.dfy`, `material_names.dfy`, `material_nodes.dfy`). MaterialInfo equality (IEEE NaN included) and ordering; unique shader names; the matching of incoming materials against existing shaders in the PRT and Arnold material nodes.
- **Text and MEL** (`text.dfy`, `utilities.dfy`, `legacy_utilities.dfy`, `mel_script_builder.dfy`). Hexadecimal colours, the CGAC version rewrite, clean identifiers, and both generations of the MEL script builder.

Objects whose fields the C++ code updates are classes:
- the MEL builders' command stream;
- the asset and resolve-map caches;
- the enum attribute;
- the modifier node;
- the encoder's data block.

Loops are methods proved against the functions that specify them. The properties of those functions are lemmas.

## Model

| member | source | states |
|---|---|---|
| Utilities.FromHex | src/serlio/utils/Utilities.cpp:132-147 | a digit or letter a-f/A-F gives its value, anything else 0; always below 16 |
| Utilities.ToHex | src/serlio/utils/Utilities.cpp:149-153 | the upper-case hex digit of the low four bits: reading it back with fromHex gives i mod 16 |
| Utilities.HexDigitsRead | src/serlio/utils/Utilities.cpp:149 | every entry of the hex table is a hex digit that fromHex reads as its index |
| Utilities.ParseColor | src/serlio/utils/Utilities.cpp:155-163 | three channels in 0..255; text that is shorter than 7 or lacks the leading '#' is black |
| Utilities.ParseColorReadsSevenChars | src/serlio/utils/Utilities.cpp:155-163 | only the first seven characters decide the colour |
| Utilities.ColorString | src/serlio/utils/Utilities.cpp:165-175 | '#' followed by six upper-case hex digits |
| Utilities.ChannelRead | src/serlio/utils/Utilities.cpp:165-175 | the two digits written for a channel read back as the channel mod 256 |
| Utilities.ColorStringParses | src/serlio/utils/Utilities.cpp:155-175 | parsing the colour text gives each channel mod 256 |
| Utilities.ColorRoundTrip | src/serlio/utils/Utilities.cpp:155-175 | for channels in 0..255, parseColor(getColorString(c)) == c |
| Utilities.CEVersion | src/serlio/utils/Utilities.cpp:56-99 | a known CGAC version maps to its CityEngine release, any other to "newer than 2021.1" |
| Utilities.VersionSpan | src/serlio/utils/Utilities.cpp:80-87 | the version text lies between the end of the first prefix and the next suffix, inside the string |
| Utilities.ReplaceCGACVersionBetween | src/serlio/utils/Utilities.cpp:79-101 | no prefix or no suffix after it leaves the message unchanged; otherwise exactly the span between them is replaced by the CityEngine version |
| Utilities.ReplaceAllSubstrings | src/serlio/utils/Utilities.cpp:277 | an empty pattern changes nothing |
| Utilities.ReplaceAllSubstringsAbsent | src/serlio/utils/Utilities.cpp:277 | a message without the pattern is unchanged |
| Utilities.ReplaceAllSubstringsRemovesChar | src/serlio/utils/Utilities.cpp:277 | replacing a one-character pattern by text without it removes every occurrence |
| Utilities.ReplaceCGACWithCEVersion | src/serlio/utils/Utilities.cpp:274-281 | a message with neither version phrase nor '(' is returned unchanged |
| Utilities.InMayaCompatibleChars | src/serlio/utils/Utilities.cpp:49 | the allowed characters are exactly the ASCII letters, digits and '_' |
| Utilities.InDigitChars | src/serlio/utils/Utilities.cpp:50 | the digit characters are exactly '0'..'9' |
| Utilities.FirstNotOf | src/serlio/utils/Utilities.h:212 | find_first_not_of from a position: the first disallowed character at or after it, none when all are allowed |
| Utilities.ReplacedNotOf | src/serlio/utils/Utilities.h:210-218 | same length; allowed characters kept, every other one becomes '_' |
| Utilities.ReplaceAllNotOf | src/serlio/utils/Utilities.h:210-218 | the loop's result is the position-wise replacement |
| Utilities.ReplacedNotOfIdempotent | src/serlio/utils/Utilities.h:210-218 | with '_' allowed, replacing twice equals replacing once |
| Utilities.CleanNameForMaya | src/serlio/utils/Utilities.cpp:290-297 | the cleaned name: disallowed characters replaced, a leading digit guarded by '_' |
| Utilities.CleanNameIsMayaName | src/serlio/utils/Utilities.cpp:290-297 | the result holds only allowed characters and does not start with a digit; its length grows by at most one |
| Utilities.CleanNameKeepsMayaName | src/serlio/utils/Utilities.cpp:290-297 | a name that is already Maya-safe is returned unchanged |
| Utilities.CleanNameIdempotent | src/serlio/utils/Utilities.cpp:290-297 | cleaning twice equals cleaning once |
| Utilities.BumpCount | src/serlio/utils/Utilities.cpp:283-286 | try_emplace: a new name starts at 0, a known one is incremented, other counts unchanged |
| Utilities.GetDuplicateCountSuffix | src/serlio/utils/Utilities.cpp:283-288 | the suffix is "_" and the name's updated count |
| Utilities.Occurrences | src/serlio/utils/Utilities.cpp:283-288 | the number of earlier requests for a name is at most the number of requests |
| Utilities.CountsAfterOccurrences | src/serlio/utils/Utilities.cpp:283-288 | after a run of requests a name is counted iff it was requested, with count one less than its requests |
| Utilities.SuffixCountsEarlierCalls | src/serlio/utils/Utilities.cpp:283-288 | the i-th request's suffix numbers the earlier requests for the same name |
| Utilities.OccurrencesGrow | src/serlio/utils/Utilities.cpp:283-288 | a later request for the same name has seen strictly more earlier requests |
| Utilities.DistinctSuffixes | src/serlio/utils/Utilities.cpp:283-288 | two requests for the same name get different suffixes |
| Utilities.GetStyle | src/serlio/utils/Utilities.h:182-187 | the text before the first '$', empty without one or when it is first; never holds '$' |
| Utilities.RemovePrefix | src/serlio/utils/Utilities.h:189-198 | without the delimiter the name is unchanged; otherwise a strictly shorter suffix of it |
| Utilities.RemovePrefixSplit | src/serlio/utils/Utilities.h:189-198 | the name is the text before its first delimiter, the delimiter, and the result |
| Utilities.RemoveStyle | src/serlio/utils/Utilities.h:200-202 | a name without '$' is kept; otherwise a strictly shorter suffix of it |
| Utilities.RemoveImport | src/serlio/utils/Utilities.h:204-206 | a name without '.' is kept; otherwise a strictly shorter suffix of it |
| Utilities.StyleSplit | src/serlio/utils/Utilities.h:182-202 | a name with '$' is style + '$' + removeStyle(name) |
| Utilities.StartsWithAnyOf | src/serlio/utils/Utilities.h:220-226 | true iff some listed text is a prefix |
| Utilities.FirstCgbKey | src/serlio/utils/Utilities.h:146-158 | the first resolve-map key ending in ".cgb", none when no key does |
| Utilities.GetRuleFileEntry | src/serlio/utils/Utilities.h:146-158 | returns the first key ending in ".cgb", empty text without one; defined when no key before the match is a proper suffix of ".cgb", which the reverse comparison would read in front of |
| Utilities.EqualsCgbFromBack | src/serlio/utils/Utilities.h:153 | comparing ".cgb" with the key from the back, stopping at the first mismatch, is true iff the key ends in ".cgb" |
| Utilities.FirstCgbKeyAt | src/serlio/utils/Utilities.h:146-158 | a ".cgb" key with none before it is the one found |
| Utilities.FirstStartRule | src/serlio/utils/Utilities.h:162-177 | the first rule without parameters carrying @StartRule, none otherwise |
| Utilities.FirstStartRuleAt | src/serlio/utils/Utilities.h:162-177 | a start rule with none before it is the one found |
| Utilities.DetectStartRule | src/serlio/utils/Utilities.h:162-177 | the name of the first start rule, empty text without one |
| Utilities.Joined | src/serlio/utils/Utilities.h:228-241 | a single element is joined to itself |
| Utilities.Join | src/serlio/utils/Utilities.h:228-241 | the stream loop's result is the elements separated by the delimiter |
| Utilities.JoinedEnds | src/serlio/utils/Utilities.h:228-241 | the joined text starts with the first element and ends with the last |
| Utilities.JoinedLength | src/serlio/utils/Utilities.h:228-241 | its length is the elements' lengths plus one delimiter between each pair |
| Utilities.GetCachedValue | src/serlio/utils/Utilities.h:250-259 | the value function runs iff the key is missing; a present key returns its value and leaves the cache; a missing one is inserted with the computed value |
| MayaUtilities.CleanIdChar | src/serlio/util/MayaUtilities.cpp:13-19 | an ASCII digit or letter is kept, any other character becomes '_' |
| MayaUtilities.CleanId | src/serlio/util/MayaUtilities.cpp:8-23 | same length, each character cleaned on its own |
| MayaUtilities.ToCleanId | src/serlio/util/MayaUtilities.cpp:8-23 | the copy loop's result is the cleaned identifier |
| MayaUtilities.CleanIdCharset | src/serlio/util/MayaUtilities.cpp:8-23 | the result holds only ASCII letters, digits and '_' |
| MayaUtilities.CleanIdIdempotent | src/serlio/util/MayaUtilities.cpp:8-23 | cleaning a cleaned identifier changes nothing |
| LegacyUtilities.Filename | src/serlio/util/Utilities.cpp:46-53 | the text after the last '/', the whole path without one; a suffix of the path without '/' |
| LegacyUtilities.FilenameSplit | src/serlio/util/Utilities.cpp:46-53 | a path with '/' is some directory, '/', and the file name |
| LegacyUtilities.ToHexColor | src/serlio/util/Utilities.cpp:131-138 | slots 1..6 of the buffer get the six hex digits of the colour; slot 0 and the slots after 6 are untouched |
| LegacyUtilities.ToCleanId | src/serlio/util/Utilities.cpp:141-157 | the prtu copy of toCleanId gives the same identifier as mu::toCleanId |
| LegacyUtilities.CleanIdIsReplacedNotOf | src/serlio/util/Utilities.cpp:141-157 | the older cleaning equals the newer replace-all-not-of over the Maya-compatible characters |
| LegacyUtilities.TempDirectoryPath | src/serlio/util/Utilities.cpp:309-322 | the first of TMPDIR, TMP, TEMP, TEMPDIR that is set, "/tmp" when none is |
| RuleAttributes.NiceName | src/serlio/modifiers/RuleAttributes.cpp:52-58 | the nice name (style and import removed, cleaned) is a Maya-safe name |
| RuleAttributes.GetUniqueName | src/serlio/modifiers/RuleAttributes.cpp:40-50 | the name is the cleaned base, '_' and the base's bumped counter from the shared map |
| RuleAttributes.UniqueNameSplit | src/serlio/modifiers/RuleAttributes.cpp:40-50 | base + "_" + count determines both the base and the count |
| RuleAttributes.StemOfFilename | src/serlio/modifiers/RuleAttributes.cpp:107 | the main rule name is a prefix of the rule file's file name |
| RuleAttributes.RuleNameOf | src/serlio/modifiers/RuleAttributes.cpp:127-130 | the text after the first '$', the whole name without one |
| RuleAttributes.RuleFileOf | src/serlio/modifiers/RuleAttributes.cpp:131-138 | the rule file is the rule name up to its last '.', and the attribute belongs to the start rule file iff there is no '.', in which case the file is the main rule |
| RuleAttributes.ImportOrdersLastWins | src/serlio/modifiers/RuleAttributes.cpp:62-85 | an import is in the map iff it is listed, and maps to the position of its last listing |
| RuleAttributes.NumberImports | src/serlio/modifiers/RuleAttributes.cpp:69-81 | the argument loop numbers every non-null string argument under the imports key in turn |
| RuleAttributes.GetImportOrderMap | src/serlio/modifiers/RuleAttributes.cpp:62-85 | the map numbers the imports of all @Imports annotations in order |
| RuleAttributes.ScanGroupArgs | src/serlio/modifiers/RuleAttributes.cpp:154-164 | the @Group loop collects string arguments as groups and takes a trailing float as group order |
| RuleAttributes.ScanAttributeAnnotations | src/serlio/modifiers/RuleAttributes.cpp:143-165 | the annotation loop yields the hidden flag, order, groups and group order of the scan function |
| RuleAttributes.GroupArgsKeep | src/serlio/modifiers/RuleAttributes.cpp:154-164 | group arguments change neither the hidden flag nor the order |
| RuleAttributes.ScanHiddenIff | src/serlio/modifiers/RuleAttributes.cpp:143-148 | an attribute is hidden iff it carries @Hidden |
| RuleAttributes.GroupArgsNames | src/serlio/modifiers/RuleAttributes.cpp:155-158 | every group collected from one annotation was one of its string arguments |
| RuleAttributes.ScanGroupNames | src/serlio/modifiers/RuleAttributes.cpp:154-164 | every group of an attribute is a string argument of one of its @Group annotations |
| RuleAttributes.DeriveAttribute | src/serlio/modifiers/RuleAttributes.cpp:119-171 | the per-attribute body yields the attribute, its hidden flag and the updated name counter |
| RuleAttributes.MayaNames | src/serlio/modifiers/RuleAttributes.cpp:123-124 | two Maya names (brief and full) per attribute |
| RuleAttributes.BumpIssuesNewName | src/serlio/modifiers/RuleAttributes.cpp:40-50 | a name issued from the bumped counter is new among the names issued so far |
| RuleAttributes.BumpKeepsIssued | src/serlio/modifiers/RuleAttributes.cpp:40-50 | bumping a counter keeps the earlier names accounted for |
| RuleAttributes.DeriveEntryNames | src/serlio/modifiers/RuleAttributes.cpp:123-124 | the brief name is issued first, the full name from the counter after it |
| RuleAttributes.DerivedNamesDistinct | src/serlio/modifiers/RuleAttributes.cpp:111-176 | all brief and full Maya names of the derived attributes are pairwise different |
| RuleAttributes.DeriveEntryFacts | src/serlio/modifiers/RuleAttributes.cpp:119-171 | the attribute keeps the entry's name, is hidden iff annotated so, gets ORDER_FIRST as group order without groups, and its rule file as derived |
| RuleAttributes.DerivedFromVisibleEntries | src/serlio/modifiers/RuleAttributes.cpp:113-176 | every derived attribute comes from an entry without parameters and without @Hidden |
| RuleAttributes.AncestorPath | src/serlio/modifiers/RuleAttributes.cpp:198-213 | true iff the parent path is a proper prefix of the child path |
| RuleAttributes.AddPrefixesAt | src/serlio/modifiers/RuleAttributes.cpp:90-95 | one attribute's pass touches exactly the prefixes of its group path in its rule file, lowering each to the minimum with its group order |
| RuleAttributes.GroupOrderMapIsMin | src/serlio/modifiers/RuleAttributes.cpp:87-96 | a (rule file, path) key is present iff some attribute lies under it, and holds the least group order among them |
| RuleAttributes.MinGroupOrderBound | src/serlio/modifiers/RuleAttributes.cpp:87-96 | the global order of a path is at most the group order of every attribute under it |
| RuleAttributes.SetGlobalGroupOrder | src/serlio/modifiers/RuleAttributes.cpp:87-102 | each attribute is unchanged except that its global group order becomes the minimum over its own path, ORDER_NONE if absent |
| RuleAttributes.GlobalGroupOrderOwnPath | src/serlio/modifiers/RuleAttributes.cpp:98-101 | an attribute with groups gets at most its own group order; one without groups gets ORDER_NONE |
| RuleAttributeSet.CompareGroups | src/serlio/modifiers/RuleAttributes.cpp:215-233 | the loop of compareGroups decides the group-path order: a proper prefix first, else the first differing name |
| RuleAttributeSet.Compare | src/serlio/modifiers/RuleAttributes.cpp:184-286 | the comparator's result is the attribute order: rule file, then group order, then attribute order |
| RuleAttributeSet.GroupsLessTrichotomy | src/serlio/modifiers/RuleAttributes.cpp:215-233 | the group-path order is irreflexive, asymmetric and total on different paths |
| RuleAttributeSet.LessIrreflexive | src/serlio/modifiers/RuleAttributes.cpp:184-286 | no attribute sorts before itself |
| RuleAttributeSet.LessAsymmetric | src/serlio/modifiers/RuleAttributes.cpp:184-286 | two attributes never sort before each other |
| RuleAttributeSet.LessTrichotomy | src/serlio/modifiers/RuleAttributes.cpp:184-286 | of two attributes one sorts first unless they share rule file, groups, order and base name |
| RuleAttributeSet.EquivalentIffSameSortKey | src/serlio/modifiers/RuleAttributes.cpp:268-283 | the set treats two attributes as the same exactly when they share rule file, groups, order and base name |
| RuleAttributeSet.StartRuleFileFirst | src/serlio/modifiers/RuleAttributes.cpp:185-190 | attributes of the start rule file come before those of other files |
| RuleAttributeSet.ParentGroupFirst | src/serlio/modifiers/RuleAttributes.cpp:254-258 | an attribute of a parent group comes before one of its child group |
| RuleAttributeSet.ImportOrderFirst | src/serlio/modifiers/RuleAttributes.cpp:192-193 | outside the start rule file, a lower import order comes first |
| RuleAttributeSet.InsertPosition | src/serlio/modifiers/RuleAttributes.cpp:179 | the insertion point of std::set: after every element the new one does not sort before, before the next |
| RuleAttributeSet.InsertOrdered | src/serlio/modifiers/RuleAttributes.cpp:179 | inserting a new element keeps the set sorted |
| RuleAttributeSet.InsertNoEquivalents | src/serlio/modifiers/RuleAttributes.cpp:179 | inserting keeps the elements pairwise non-equivalent |
| RuleAttributeSet.InsertMembers | src/serlio/modifiers/RuleAttributes.cpp:179 | after insertion the element has an equivalent in the set, nothing is lost and nothing else appears |
| RuleAttributeSet.InsertKeepsEquivalent | src/serlio/modifiers/RuleAttributes.cpp:179 | an element with an equivalent keeps one after further insertions |
| RuleAttributeSet.BuildSetProperties | src/serlio/modifiers/RuleAttributes.cpp:179 | the range constructor yields a sorted set without equivalents holding an equivalent of every input and only inputs |
| RuleAttributeSet.WithGlobalGroupOrder | src/serlio/modifiers/RuleAttributes.cpp:178 | the global group order keeps the number of attributes |
| RuleAttributeSet.GetRuleAttributes | src/serlio/modifiers/RuleAttributes.cpp:104-182 | the loop builds the attribute set of the rule file |
| RuleAttributeSet.RuleAttributesOfProperties | src/serlio/modifiers/RuleAttributes.cpp:104-182 | the returned set is sorted, free of equivalents, and every element derives from a visible, parameterless entry |
| PrtRuleAttributes.MainRuleName | src/serlio/prtModifier/RuleAttributes.cpp:41-44 | the file name of the rule file up to its first ".cgb", the whole file name without one |
| PrtRuleAttributes.MainRuleNameHasNoCgb | src/serlio/prtModifier/RuleAttributes.cpp:41-44 | the main rule name never contains ".cgb" |
| PrtRuleAttributes.LastEnumIndex | src/serlio/prtModifier/RuleAttributes.cpp:71-72 | the last @Enum annotation of an attribute is the one kept, none without one |
| PrtRuleAttributes.ScanPropertyAnnotations | src/serlio/prtModifier/RuleAttributes.cpp:67-92 | the annotation loop yields the hidden flag, order, groups, group order and the last @Enum annotation |
| PrtRuleAttributes.DeriveProperties | src/serlio/prtModifier/RuleAttributes.cpp:50-98 | the properties keep the entry's index and name, belong to the start rule file iff the rule name has no '.', with the main rule as file, and get ORDER_FIRST without groups |
| PrtRuleAttributes.GetRuleAttributes | src/serlio/prtModifier/RuleAttributes.cpp:38-105 | the loop returns the properties of every visible attribute without parameters |
| PrtRuleAttributes.DeriveAllFromVisibleEntries | src/serlio/prtModifier/RuleAttributes.cpp:46-102 | every returned element comes from an entry without parameters and without @Hidden |
| PrtRuleAttributes.DeriveAllIndicesBelow | src/serlio/prtModifier/RuleAttributes.cpp:51 | every stored index points at an entry of the rule file information |
| PrtRuleAttributes.DeriveAllKeepsEntryOrder | src/serlio/prtModifier/RuleAttributes.cpp:46-102 | the result keeps the entries' order: indices strictly increase |
| PrtRuleAttributes.VisibleEntriesDerived | src/serlio/prtModifier/RuleAttributes.cpp:46-102 | every visible entry without parameters is in the result |
| PrtRuleAttributes.DerivedStartFilesAgree | src/serlio/prtModifier/RuleAttributes.cpp:62-65 | all start-rule-file members carry the same rule file, the main rule |
| PrtRuleAttributes.AddPathsAt | src/serlio/prtModifier/RuleAttributes.cpp:110-115 | one attribute's pass touches exactly the prefixes of its group path, lowering each to the minimum with its group order |
| PrtRuleAttributes.PathOrderMapIsMin | src/serlio/prtModifier/RuleAttributes.cpp:107-118 | a path is present iff some attribute lies under it and holds their least group order |
| PrtRuleAttributes.MinPathOrderBound | src/serlio/prtModifier/RuleAttributes.cpp:107-118 | a path's order is at most that of every attribute under it |
| PrtRuleAttributes.MinPathOrderMonotone | src/serlio/prtModifier/RuleAttributes.cpp:107-118 | a parent path's order is at most its child's |
| PrtRuleAttributes.GetGlobalGroupOrder | src/serlio/prtModifier/RuleAttributes.cpp:107-118 | the loop yields the minimum group order of every path prefix |
| PrtRuleAttributes.GroupOrderOfOwnPath | src/serlio/prtModifier/RuleAttributes.cpp:164-167 | an attribute with groups looks up at most its own group order; one without groups gets ORDER_NONE |
| PrtRuleAttributes.ParentPathOrderFirst | src/serlio/prtModifier/RuleAttributes.cpp:107-118 | whenever a child path is present, its parent path is too, with an order no larger |
| PrtRuleAttributes.LowerCaseLessAsymmetric | src/serlio/prtModifier/RuleAttributes.cpp:121-125 | the lower-case ordering is irreflexive and asymmetric |
| PrtRuleAttributes.LowerCaseEquivalent | src/serlio/prtModifier/RuleAttributes.cpp:121-125 | names equal up to case are equivalent in the lower-case ordering |
| PrtRuleAttributes.FirstDifference | src/serlio/prtModifier/RuleAttributes.cpp:154-159 | on equally long different paths, the first index where they differ |
| PrtRuleAttributes.FirstDifferenceSymmetric | src/serlio/prtModifier/RuleAttributes.cpp:185 | both calls of firstDifferentGroupInA look at the same index |
| PrtRuleAttributes.FirstDifferentGroupInA | src/serlio/prtModifier/RuleAttributes.cpp:154-159 | the while loop returns a's group at the first difference |
| PrtRuleAttributes.CompareAttributes | src/serlio/prtModifier/RuleAttributes.cpp:120-203 | the comparator's result is the attribute order over the global group order |
| PrtRuleAttributes.CompareAttributesByGroupOrder | src/serlio/prtModifier/RuleAttributes.h:113-183 | the header's comparator's result is its attribute order over each attribute's own group order |
| PrtRuleAttributes.CompareAttributeOrderAsymmetric | src/serlio/prtModifier/RuleAttributes.cpp:188-193 | the order within a group is irreflexive and asymmetric |
| PrtRuleAttributes.AttributeOrderIrreflexive | src/serlio/prtModifier/RuleAttributes.cpp:195-203 | neither comparator sorts an attribute before itself |
| PrtRuleAttributes.AttributeOrderAsymmetric | src/serlio/prtModifier/RuleAttributes.cpp:195-203 | when start-rule-file members share their file, neither comparator sorts two attributes before each other |
| PrtRuleAttributes.StartRuleFileFirst | src/serlio/prtModifier/RuleAttributes.cpp:127-132 | start rule file members come first |
| PrtRuleAttributes.ParentGroupFirst | src/serlio/prtModifier/RuleAttributes.cpp:169-174 | an attribute of a parent group comes before one of its descendant groups |
| PrtRuleAttributes.GlobalGroupOrderDecides | src/serlio/prtModifier/RuleAttributes.cpp:176-183 | unrelated groups sort by global group order, then the higher level first |
| PrtRuleAttributes.AttributeOrderWithinGroup | src/serlio/prtModifier/RuleAttributes.cpp:188-193 | inside a group an ordered attribute comes before an unordered one, and unordered names equal up to case are equivalent |
| PrtRuleAttributes.AttributeOrderAsymmetricOn | src/serlio/prtModifier/RuleAttributes.cpp:195-205 | on the attribute list both comparators are asymmetric, as std::sort needs |
| PrtRuleAttributes.SortRuleAttributes | src/serlio/prtModifier/RuleAttributes.cpp:120-206 | the sorted list is a permutation in which no attribute sorts before its predecessor |
| PrtRuleAttributes.SortRuleAttributesByGroupOrder | src/serlio/prtModifier/RuleAttributes.h:113-186 | the header's sort: a permutation in which no attribute sorts before its predecessor |
| PrtRuleAttributes.FlatLessAsymmetric | src/serlio/prtModifier/AttributeProperties.h:32-50 | the flat comparator is irreflexive and asymmetric |
| PrtRuleAttributes.FlatMainRuleFirst | src/serlio/prtModifier/AttributeProperties.h:33-37 | attributes of the main rule come first |
| PrtRuleAttributes.FlatGroupOrderFirst | src/serlio/prtModifier/AttributeProperties.h:40-44 | an ordered group comes before an unordered one |
| PrtRuleAttributes.SortFlatRuleAttributes | src/serlio/prtModifier/AttributeProperties.h:25-53 | the sorted list is a permutation in which no attribute sorts before its predecessor |
| ModifierEnum.FieldPosition | src/serlio/modifiers/PRTModifierEnum.cpp:66 | the first field with the given index, none when no field has it |
| ModifierEnum.MaxFieldIndex | src/serlio/modifiers/PRTModifierEnum.cpp:103-106 | the largest field index, 0 for no fields |
| ModifierEnum.StaticOptions | src/serlio/modifiers/PRTModifierEnum.cpp:100-112 | one option per index 1..max, each the name of the field with that index |
| ModifierEnum.CutAtLineBreak | src/serlio/modifiers/PRTModifierEnum.cpp:176-178 | the longest prefix free of '\r' and '\n' |
| ModifierEnum.StringArrayOptions | src/serlio/modifiers/PRTModifierEnum.cpp:167-184 | at most one option per array element, none holding a line break |
| ModifierEnum.StringArrayOptionsNonNull | src/serlio/modifiers/PRTModifierEnum.cpp:171-182 | without null entries each element yields its text cut at the first line break |
| ModifierEnum.DynamicOptionsShape | src/serlio/modifiers/PRTModifierEnum.cpp:164-233 | single values give one option, arrays one per element (strings without line breaks), integer types none, a float is kept as bool |
| ModifierEnum.CustomDefault | src/serlio/modifiers/PRTModifierEnum.cpp:115-147 | other types keep the custom default, a string default replaces it when present, a bool gives "0" or "1" |
| ModifierEnum.CustomDefaultIdempotent | src/serlio/modifiers/PRTModifierEnum.cpp:115-147 | applying the custom default update twice changes nothing more |
| ModifierEnum.NumberedFields | src/serlio/modifiers/PRTModifierEnum.cpp:74-83 | the i-th option becomes the field with index i+1 |
| ModifierEnum.RebuiltFieldsByIndex | src/serlio/modifiers/PRTModifierEnum.cpp:76-86 | the custom default is added at index 0 exactly when no option equals it |
| ModifierEnum.LastOptionIndex | src/serlio/modifiers/PRTModifierEnum.cpp:76-83 | 0 iff the text is no option, else the 1-based position of its last occurrence |
| ModifierEnum.StaticOptionsOfRebuilt | src/serlio/modifiers/PRTModifierEnum.cpp:76-112 | reading the static options back from rebuilt fields gives the options written |
| ModifierEnum.UpdateOptionsIdempotent | src/serlio/modifiers/PRTModifierEnum.cpp:50-89 | after an update, recomputing the options gives the same list and the same custom default |
| ModifierEnum.LastKeyed | src/serlio/modifiers/PRTModifierEnum.cpp:242-252 | the last argument with the given key, none when no argument has it |
| ModifierEnum.FilledFields | src/serlio/modifiers/PRTModifierEnum.cpp:241-273 | fields get consecutive indices from 1, at most one per argument |
| ModifierEnum.FilledFieldsNeedNullKeys | src/serlio/modifiers/PRTModifierEnum.cpp:245-252 | only #NULL#-keyed arguments add fields |
| ModifierEnum.PRTModifierEnum.constructor | src/serlio/modifiers/PRTModifierEnum.h:30-58 | a new enum attribute is restricted, not dynamic, and has no fields or options |
| ModifierEnum.PRTModifierEnum.IsDynamic | src/serlio/modifiers/PRTModifierEnum.cpp:91-93 | dynamic iff the values attribute is non-empty |
| ModifierEnum.PRTModifierEnum.GetEnumOptions | src/serlio/modifiers/PRTModifierEnum.cpp:95-113 | dynamic options for a dynamic enum, the static field names otherwise |
| ModifierEnum.PRTModifierEnum.GetDynamicEnumOptions | src/serlio/modifiers/PRTModifierEnum.cpp:149-235 | the options come from the default value stored under style$import.valuesAttr; none when not dynamic |
| ModifierEnum.PRTModifierEnum.UpdateCustomEnumValue | src/serlio/modifiers/PRTModifierEnum.cpp:115-147 | the custom default becomes CustomDefault of the old one; nothing else changes |
| ModifierEnum.PRTModifierEnum.UpdateOptions | src/serlio/modifiers/PRTModifierEnum.cpp:50-89 | changed iff the new options differ; unchanged keeps fields and index; changed rebuilds the fields and reselects the old option by its last position |
| ModifierEnum.PRTModifierEnum.AddOptionFields | src/serlio/modifiers/PRTModifierEnum.cpp:72-88 | the loop rebuilds the fields from the options and finds the old selection |
| ModifierEnum.PRTModifierEnum.Fill | src/serlio/modifiers/PRTModifierEnum.cpp:237-276 | restricted and valuesAttr come from their last keyed arguments; #NULL#-keyed arguments append fields |
| ModifierEnum.PRTModifierEnum.FillArg | src/serlio/modifiers/PRTModifierEnum.cpp:243-272 | one loop step extends restricted, valuesAttr and fields to one more argument |
| ModifierEnum.FillNullKeyed | src/serlio/modifiers/PRTModifierEnum.cpp:254-272 | a #NULL#-keyed argument leaves the flags and appends its text as the next field |
| ModifierEnum.NumberOptions | src/serlio/modifiers/PRTModifierEnum.cpp:76-83 | the loop numbers the options and finds the custom default's and the old selection's last index |
| ModifierEnum.CollectStrings | src/serlio/modifiers/PRTModifierEnum.cpp:167-184 | the loop over a string array yields StringArrayOptions |
| ModifierEnum.CollectFloats | src/serlio/modifiers/PRTModifierEnum.cpp:185-196 | the loop over a float array yields one text per element |
| ModifierEnum.CollectBools | src/serlio/modifiers/PRTModifierEnum.cpp:197-208 | the loop over a bool array yields "0" or "1" per element |
| ModifierEnum.UpdateOptionsTwice | src/serlio/modifiers/PRTModifierEnum.cpp:50-89 | a second update with the same inputs reports no change and keeps the index |
| EnumValues.FillStep | src/serlio/prtModifier/PRTModifierAction.cpp:514-560 | one argument appends to the three value arrays and the fields in lockstep and never shrinks them |
| EnumValues.FilledKeepsLockstep | src/serlio/prtModifier/PRTModifierAction.cpp:514-560 | a whole fill keeps the arrays and fields in lockstep, extends each, and leaves restricted as its last keyed argument says |
| EnumValues.FilledSlotsDescribeFields | src/serlio/modifiers/PRTModifierAction.cpp:825-870 | after a fill from nothing, every field's index is its slot and the slot of its own array holds its value |
| EnumValues.PRTModifierEnum.constructor | src/serlio/prtModifier/PRTModifierAction.h:43-59 | a new enum helper has empty arrays and no fields |
| EnumValues.PRTModifierEnum.Fill | src/serlio/modifiers/PRTModifierAction.cpp:825-870 | the helper's state after the loop is the filled table |
| EnumValues.LastMatch | src/serlio/modifiers/PRTModifierAction.cpp:987-992 | the last slot whose value equals the default, 0 when none does |
| EnumValues.DefaultIndex | src/serlio/modifiers/PRTModifierAction.cpp:984-1023 | the backward search loop returns LastMatch over the helper's array for the default's type |
| EnumValues.DefaultIndexSelectsField | src/serlio/modifiers/PRTModifierAction.cpp:984-1023 | searching after the fill finds a field whose value is the default, no earlier than any other match |
| EnumValues.AddEnumParameterAsWritten | src/serlio/modifiers/PRTModifierAction.cpp:984-1042 | as written the search runs over the still empty arrays, so the index is always 0 |
| EnumValues.AddEnumParameter | src/serlio/prtModifier/PRTModifierAction.cpp:652-704 | corrected: the fill first, then the search over the filled arrays |
| EnumValues.EnumDefaultBeforeFill | src/serlio/prtModifier/PRTModifierAction.cpp:652-704 | for options "a", "b" with default "b", the written order selects "a" and the corrected order "b" |
| ModifierAction.FlagNamesDistinct | src/serlio/modifiers/PRTModifierAction.cpp:89-131 | the `_user_set` and `_force_default` flag names never clash, and distinct attributes have distinct flags |
| ModifierAction.Candidates | src/serlio/modifiers/PRTModifierAction.cpp:136-155 | exactly the dynamic, visible attributes are candidates |
| ModifierAction.IgnoreList | src/serlio/modifiers/PRTModifierAction.cpp:150-154 | exactly the children of candidate colour attributes are ignored |
| ModifierAction.Without | src/serlio/modifiers/PRTModifierAction.cpp:159-162 | the erase-remove keeps exactly the names not on the ignore list |
| ModifierAction.CgaAttributeMember | src/serlio/modifiers/PRTModifierAction.cpp:133-165 | an attribute is a CGA attribute iff it is a dynamic visible attribute and no colour attribute's child |
| ModifierAction.GetNodeAttributesCorrespondingToCGA | src/serlio/modifiers/PRTModifierAction.cpp:133-165 | the loop over the node's attributes returns CgaAttributeNames |
| ModifierAction.ReverseLookup | src/serlio/modifiers/PRTModifierAction.cpp:175-181 | the first rule attribute with that Maya full name, RULE_NOT_FOUND when there is none |
| ModifierAction.ModifierNode.constructor | src/serlio/modifiers/PRTModifierAction.cpp:226-238 | the node holds the given attributes, plug values and flags |
| ModifierAction.ModifierNode.GetIsUserSet | src/serlio/modifiers/PRTModifierAction.cpp:89-101 | false without a `_user_set` attribute, its value otherwise |
| ModifierAction.ModifierNode.SetIsUserSet | src/serlio/modifiers/PRTModifierAction.cpp:103-114 | sets the flag only when its attribute exists and reports whether it did; nothing else changes |
| ModifierAction.ModifierNode.GetAndResetForceDefault | src/serlio/modifiers/PRTModifierAction.cpp:116-129 | returns the old `_force_default` flag and leaves it false |
| ModifierAction.IsDefaultAsWritten | src/serlio/modifiers/PRTModifierAction.cpp:331-384 | a colour counts as default only when the default text is a seven-character "#..." string; an attribute of another kind never does |
| ModifierAction.IsDefault | src/serlio/modifiers/PRTModifierAction.cpp:331-384 | agrees with the source's comparison except for colours; a colour whose default text is its own colour string is default |
| ModifierAction.CanonicalDefaultsAgree | src/serlio/modifiers/PRTModifierAction.cpp:351-361 | for a rule default written as getColorString writes it, the text comparison agrees with comparing colours |
| ModifierAction.DefaultValue | src/serlio/modifiers/PRTModifierAction.cpp:406-513 | the value updateUI writes back is a default; an enum keeps its fields |
| ModifierAction.UiValue | src/serlio/modifiers/PRTModifierAction.cpp:406-513 | as written: a user-set value stays, and so does a value whose text equals the default text (wcscmp of getColorString for colours); any other value is reset to one equal to its default |
| ModifierAction.UiValueCorrected | src/serlio/modifiers/PRTModifierAction.cpp:406-513 | with colours compared as channels: a user-set or default value stays, and any other value ends equal to its default |
| ModifierAction.UiValuesAgreeInRange | src/serlio/modifiers/PRTModifierAction.cpp:445-470 | both rules write the same value unless a colour channel lies outside 0..255 |
| ModifierAction.UiKeepsOutOfRangeColor | src/serlio/modifiers/PRTModifierAction.cpp:445-470 | a red of 382 writes "#7E0000", so as written it is kept under that default while the channel rule resets it to 126 |
| ModifierAction.UiValues | src/serlio/modifiers/PRTModifierAction.cpp:402-520 | the updateUI pass rewrites plugs in place: the set of plugs is unchanged |
| ModifierAction.FlagsAfterUpdate | src/serlio/modifiers/PRTModifierAction.cpp:386-391 | the force-default flag is cleared; user-set becomes "not forced and not default" where its attribute exists; other flags unchanged |
| ModifierAction.UserSetStableAcrossCycle | src/serlio/modifiers/PRTModifierAction.cpp:324-513 | with a value-based default test, a second user-set update after updateUI keeps the flag and the shown value |
| ModifierAction.ColorResetMarkedUserSet | src/serlio/modifiers/PRTModifierAction.cpp:443-470 | as written, a colour reset to the lower-case default "#ff0000" is marked user-set on the next cycle |
| ModifierAction.UserSetFlagsElsewhere | src/serlio/modifiers/PRTModifierAction.cpp:324-399 | the user-set pass leaves the flags of other attributes unchanged |
| ModifierAction.UserSetFlagsAt | src/serlio/modifiers/PRTModifierAction.cpp:324-399 | each CGA attribute's flags end as FlagsAfterUpdate says |
| ModifierAction.UpdateUserSetAttributes | src/serlio/modifiers/PRTModifierAction.cpp:324-399 | as written: the flag update over every CGA attribute uses the text comparison of colours; values and attributes unchanged |
| ModifierAction.UserSetPass | src/serlio/modifiers/PRTModifierAction.cpp:324-399 | the loop applies the flag update, for the given default test, to every CGA attribute; values and attributes unchanged |
| ModifierAction.UpdateUserSetAttributesCorrected | src/serlio/modifiers/PRTModifierAction.cpp:324-399 | the same pass with colours compared as channels |
| ModifierAction.UiValuesElsewhere | src/serlio/modifiers/PRTModifierAction.cpp:402-520 | updateUI leaves other plugs unchanged |
| ModifierAction.UiValuesAt | src/serlio/modifiers/PRTModifierAction.cpp:402-520 | each CGA attribute's plug gets the rule's value |
| ModifierAction.UiPassResult | src/serlio/modifiers/PRTModifierAction.cpp:402-520 | after updateUI as written a user-set plug keeps its value, so does a plug whose text equals the default, and every other plug ends equal to its rule default |
| ModifierAction.UiPassResultCorrected | src/serlio/modifiers/PRTModifierAction.cpp:402-520 | after the corrected pass a user-set plug keeps its value and every other plug holds its rule default |
| ModifierAction.UpdateUI | src/serlio/modifiers/PRTModifierAction.cpp:402-520 | the loop writes UiValues under the source's text comparison over the CGA attributes; flags and attributes unchanged |
| ModifierAction.UiPass | src/serlio/modifiers/PRTModifierAction.cpp:402-520 | the loop rewrites every CGA attribute's plug by the given rule in node order; flags and attributes unchanged |
| ModifierAction.UpdateUICorrected | src/serlio/modifiers/PRTModifierAction.cpp:402-520 | the same pass with colours compared as channels |
| ModifierAction.FilledValue | src/serlio/modifiers/PRTModifierAction.cpp:243-315 | a colour is sent as its colour string, a string enum as its field name; nothing for unknown kinds and untyped enums |
| ModifierAction.GenerateAttributes | src/serlio/modifiers/PRTModifierAction.cpp:240-322 | the generated map has at most one entry per scanned attribute |
| ModifierAction.GenerateAttributesKeys | src/serlio/modifiers/PRTModifierAction.cpp:240-322 | a key is in the generated map iff some user-set CGA attribute contributes it |
| ModifierAction.UserSetReachesMap | src/serlio/modifiers/PRTModifierAction.cpp:240-322 | every user-set attribute with a value to send reaches the generated map |
| ModifierAction.FillAttributesFromNode | src/serlio/modifiers/PRTModifierAction.cpp:240-322 | the loop builds GenerateAttributes over the CGA attributes |
| ModifierAttributes.Select | src/serlio/modifiers/PRTModifierAction.cpp:818-822 | keeps exactly the attributes the test accepts, in order |
| ModifierAttributes.ColorChildren | src/serlio/modifiers/PRTModifierAction.cpp:806-810 | exactly the children of dynamic colour attributes are ignored |
| ModifierAttributes.AttributesToRemove | src/serlio/modifiers/PRTModifierAction.cpp:794-822 | the two loops remove exactly Removed: dynamic, not in use and no colour child |
| ModifierAttributes.KeptIff | src/serlio/modifiers/PRTModifierAction.cpp:784-823 | an attribute stays iff it is static, in use (itself or one of its two flags) or a colour attribute's child |
| ModifierAttributes.RemoveUnusedAttribs | src/serlio/modifiers/PRTModifierAction.cpp:784-823 | the node loses exactly the removed attributes, with their values and flags |
| ModifierAttributes.FileFilter | src/serlio/modifiers/PRTModifierAction.cpp:660-671 | the filter always ends in "All Files (*.*)", and is only that without string arguments |
| ModifierAttributes.FilterEntriesEmpty | src/serlio/modifiers/PRTModifierAction.cpp:662-669 | non-string arguments add no filter entry |
| ModifierAttributes.FileExtensions | src/serlio/modifiers/PRTModifierAction.cpp:661-670 | the loop builds FileFilter |
| ModifierAttributes.DetectTrait | src/serlio/modifiers/PRTModifierAction.cpp:641-676 | an attribute the rule file does not list is plain |
| ModifierAttributes.TraitOfAnnotations | src/serlio/modifiers/PRTModifierAction.cpp:648-673 | the annotation loop returns the trait of the first recognised annotation |
| ModifierAttributes.DetectAttributeTrait | src/serlio/modifiers/PRTModifierAction.cpp:641-676 | the loop over the rule file's attributes returns DetectTrait |
| ModifierAttributes.RangeBounds | src/serlio/modifiers/PRTModifierAction.cpp:704-718 | a bound without its min or max key stays NaN |
| ModifierAttributes.TryParseRangeAnnotation | src/serlio/modifiers/PRTModifierAction.cpp:704-718 | the loop returns RangeBounds |
| ModifierAttributes.StringTrait | src/serlio/modifiers/PRTModifierAction.cpp:739-743 | only a plain trait can be turned into a colour by the value |
| ModifierAttributes.HexStringIsColor | src/serlio/modifiers/PRTModifierAction.cpp:736-761 | a plain string of 7 characters starting with '#' becomes a colour parameter, any other a string parameter |
| ModifierAttributes.BoolAlwaysShown | src/serlio/modifiers/PRTModifierAction.cpp:683-692 | a bool always gets a parameter, an enum one iff the trait is @Enum |
| ModifierAttributes.CreatedParameters | src/serlio/modifiers/PRTModifierAction.cpp:624-777 | every created parameter belongs to a rule attribute of the current style |
| ModifierAttributes.CreatedParametersComplete | src/serlio/modifiers/PRTModifierAction.cpp:624-777 | every shown rule attribute gets its parameter |
| ModifierAttributes.CreateNodeAttributes | src/serlio/modifiers/PRTModifierAction.cpp:619-782 | the loop over the rule attributes creates CreatedParameters |
| PrtModifierAction.IndexW | src/serlio/prtModifier/PRTModifierAction.cpp:592 | the first position of the character, -1 iff it does not occur |
| PrtModifierAction.RIndexW | src/serlio/prtModifier/PRTModifierAction.cpp:596 | the last position of the character, -1 iff it does not occur |
| PrtModifierAction.LongName | src/serlio/prtModifier/PRTModifierAction.cpp:587-589 | "PRT" followed by the clean id of the name |
| PrtModifierAction.LongNameCollides | src/serlio/prtModifier/PRTModifierAction.cpp:587-589 | two names get the same long name iff their clean ids agree |
| PrtModifierAction.BriefName | src/serlio/prtModifier/PRTModifierAction.cpp:591-593 | the brief name is the clean id of the name without its style prefix |
| PrtModifierAction.NiceCut | src/serlio/prtModifier/PRTModifierAction.cpp:595-597 | the cut is after the later of the first '$' and the last '.', the '$' without a '.' |
| PrtModifierAction.NiceName | src/serlio/prtModifier/PRTModifierAction.cpp:595-597 | without an import prefix the nice name is the brief name |
| PrtModifierAction.CleanIdTail | src/serlio/prtModifier/PRTModifierAction.cpp:592-596 | cleaning a tail is the tail of cleaning, since toCleanId works per character |
| PrtModifierAction.NiceNameOfBriefName | src/serlio/prtModifier/PRTModifierAction.cpp:591-597 | the nice name is a suffix of the brief name |
| PrtModifierAction.Touched | src/serlio/prtModifier/PRTModifierAction.cpp:148-149 | the brief-name lookup with operator[] inserts an empty entry for every dynamic plug and changes no existing one |
| PrtModifierAction.RuleAttributeType | src/serlio/prtModifier/PRTModifierAction.cpp:124-132 | the return type of the first attribute with that name, AAT_UNKNOWN when none has it |
| PrtModifierAction.ChangedValue | src/serlio/prtModifier/PRTModifierAction.cpp:152-223 | a value is sent iff it differs from the rule default (colours compared as colour strings, enums by index), and then as the newer generation sends it |
| PrtModifierAction.ChangedAttributes | src/serlio/prtModifier/PRTModifierAction.cpp:141-226 | a node without dynamic plugs sends no attribute |
| PrtModifierAction.ChangedAttributesKeys | src/serlio/prtModifier/PRTModifierAction.cpp:141-226 | a key is in the generated map iff some dynamic plug contributes it |
| PrtModifierAction.DefaultsSendNothing | src/serlio/prtModifier/PRTModifierAction.cpp:141-226 | when every plug holds its default the generated map is empty |
| PrtModifierAction.Recorded | src/serlio/prtModifier/PRTModifierAction.cpp:357-364 | the table keeps its old names and finds the brief name of every created attribute |
| PrtModifierAction.RecordedRoundTrip | src/serlio/prtModifier/PRTModifierAction.cpp:357-364 | looking up an attribute's brief name gives back its name unless a later attribute shares the brief name |
| PrtModifierAction.RecordedElsewhere | src/serlio/prtModifier/PRTModifierAction.cpp:357-364 | brief names of no attribute keep their old entry |
| PrtModifierAction.RangeOfAnnotations | src/serlio/prtModifier/PRTModifierAction.cpp:379-395 | without @Range both bounds stay NaN |
| PrtModifierAction.ScanStringAnnotations | src/serlio/prtModifier/PRTModifierAction.cpp:409-433 | colour iff some @Color annotation, file iff some @Directory or @File annotation |
| PrtModifierAction.PrtParameterFor | src/serlio/prtModifier/PRTModifierAction.cpp:366-457 | a parameter iff the return type is bool, float or string; with an @Enum annotation always an enum parameter on it |
| PrtModifierAction.PlainStringAgreesWithNewer | src/serlio/prtModifier/PRTModifierAction.cpp:435-452 | for an unannotated string both generations create the same parameter |
| PrtModifierAction.CreatedParameters | src/serlio/prtModifier/PRTModifierAction.cpp:357-465 | at most one parameter per sorted attribute, each as PrtParameterFor gives it |
| PrtModifierAction.KeptIff | src/serlio/prtModifier/PRTModifierAction.cpp:472-511 | an attribute stays iff it is static, the long name of a rule attribute, or a colour attribute's child |
| PrtModifierAction.FindAttribute | src/serlio/prtModifier/PRTModifierAction.cpp:574-575 | finds an attribute with the brief name iff the node has one |
| PrtModifierAction.RemoveDynamic | src/serlio/prtModifier/PRTModifierAction.cpp:582 | removing a dynamic attribute drops exactly that name and keeps names unique |
| PrtModifierAction.PlugValueAndRemoveAttr | src/serlio/prtModifier/PRTModifierAction.cpp:562-585 | without an attribute of that name the default is returned and the node is unchanged; otherwise at most that one attribute is removed |
| PrtModifierAction.PlugValueAndRemoveAttrSpec | src/serlio/prtModifier/PRTModifierAction.cpp:562-585 | the value of a dynamic attribute of that name, else the default; that attribute is gone afterwards |
| PrtModifierAction.AddParameter | src/serlio/prtModifier/PRTModifierAction.cpp:599-607 | the attribute is added iff no attribute has its brief name; afterwards one has; names stay unique |
| PrtModifierAction.AddRuleParameterKeepsValue | src/serlio/prtModifier/PRTModifierAction.cpp:609-624 | re-adding a rule attribute keeps the value of its old dynamic attribute and touches no other name |
| PrtModifierAction.AddRuleParameter | src/serlio/prtModifier/PRTModifierAction.cpp:609-624 | afterwards the node has an attribute of the brief name; a new one is appended with the rule's default |
| PrtModifierAction.AddRuleParameterStaticClash | src/serlio/prtModifier/PRTModifierAction.cpp:574-607 | a static attribute with the same brief name leaves the node unchanged |
| PrtModifierAction.SameBriefNameKeepsFirst | src/serlio/prtModifier/PRTModifierAction.cpp:591-624 | of two rule attributes with the same brief name, the first one's default stays |
| PrtModifierAction.PrtModifierAction.constructor | src/serlio/prtModifier/PRTModifierAction.cpp:103-115 | an action starts with an empty brief-name table and an empty attribute map |
| PrtModifierAction.PrtModifierAction.FillAttributesFromNode | src/serlio/prtModifier/PRTModifierAction.cpp:117-227 | the loop builds ChangedAttributes and leaves the table Touched |
| PrtModifierAction.PrtModifierAction.CreateNodeAttributes | src/serlio/prtModifier/PRTModifierAction.cpp:347-470 | the attribute map is the defaults, the table records every brief name, the parameters are CreatedParameters |
| Materials.GetTexture | src/serlio/materials/MaterialInfo.cpp:38-43 | the member's text, empty when the member is missing |
| Materials.GetDouble | src/serlio/materials/MaterialInfo.cpp:45-53 | the member's first value, NaN when it is missing or empty |
| Materials.Zeros | src/serlio/materials/MaterialInfo.cpp:35 | n zeros |
| Materials.GetDoubleArray | src/serlio/materials/MaterialInfo.cpp:26-36 | the first N values when the member has at least N, else N zeros |
| Materials.FromHandle | src/serlio/materials/MaterialInfo.cpp:129-145 | the colormap is read from "diffuseMap", the dirtmap from "diffuseMap1"; colours have 3 values and transforms 5 |
| Materials.ArrayEqSame | src/serlio/materials/MaterialInfo.cpp:73-119 | array equality under IEEE comparison implies equal arrays, and an array equals itself iff it holds no NaN |
| Materials.Equals | src/serlio/materials/MaterialInfo.cpp:147-178 | a material equal to another holds no NaN, and neither does the other |
| Materials.EqualsIsIdentity | src/serlio/materials/MaterialInfo.cpp:147-178 | equals implies identical records; an identical record is equal iff it holds no NaN |
| Materials.MissingScalarNeverEqual | src/serlio/materials/MaterialInfo.cpp:147-178 | a material missing opacity, metallic or roughness is not equal to itself, so it is never found again |
| Materials.KeysAsWritten | src/serlio/materials/MaterialInfo.cpp:180-246 | operator< as written compares 27 keys |
| Materials.LessAsWritten | src/serlio/materials/MaterialInfo.cpp:180-246 | no material sorts before itself under operator< as written |
| Materials.Keys | src/serlio/materials/MaterialInfo.cpp:180-246 | the corrected ordering compares 27 keys, one per member |
| Materials.Less | src/serlio/materials/MaterialInfo.cpp:180-246 | no material sorts before itself under the corrected ordering |
| Materials.ArrayLessIrreflexive | src/serlio/materials/MaterialInfo.cpp:77-79 | the lexicographic array order is irreflexive |
| Materials.ArrayLessAsymmetric | src/serlio/materials/MaterialInfo.cpp:77-79 | the lexicographic array order is asymmetric |
| Materials.ArrayLessTotal | src/serlio/materials/MaterialInfo.cpp:77-79 | without NaN two arrays are equal or ordered one way |
| Materials.KeyLess | src/serlio/materials/MaterialInfo.cpp:182-242 | no key sorts before itself |
| Materials.KeyLessAsymmetric | src/serlio/materials/MaterialInfo.cpp:182-242 | no two keys sort before each other |
| Materials.KeyLessTotal | src/serlio/materials/MaterialInfo.cpp:182-242 | two NaN-free keys of one kind are equal or ordered |
| Materials.ChainLessIrreflexive | src/serlio/materials/MaterialInfo.cpp:180-246 | the member-by-member comparison is irreflexive |
| Materials.ChainLessAsymmetric | src/serlio/materials/MaterialInfo.cpp:180-246 | the member-by-member comparison is asymmetric |
| Materials.ChainLessTotal | src/serlio/materials/MaterialInfo.cpp:180-246 | two well-formed key chains are equal or ordered |
| Materials.AsWrittenIgnoresColormapTrafo | src/serlio/materials/MaterialInfo.cpp:214-242 | as written, materials differing only in colormapTrafo are not ordered either way |
| Materials.ColormapTrafoCounterexample | src/serlio/materials/MaterialInfo.cpp:214-242 | two NaN-free materials that are not equal but neither is less than the other |
| Materials.TextureKeysCover | src/serlio/materials/MaterialInfo.cpp:182-191 | the texture keys determine all ten texture paths |
| Materials.ScalarAndColorKeysCover | src/serlio/materials/MaterialInfo.cpp:193-212 | those keys determine the scalars and the colours |
| Materials.TrafoKeysCover | src/serlio/materials/MaterialInfo.cpp:214-242 | those keys determine the transforms the comparison looks at |
| Materials.KeysCoverFields | src/serlio/materials/MaterialInfo.cpp:180-246 | the corrected key chain determines the whole material |
| Materials.PiecesAppend | src/serlio/materials/MaterialInfo.cpp:180-246 | well-formed key chains stay well formed when appended |
| Materials.KeysWellFormed | src/serlio/materials/MaterialInfo.cpp:180-246 | the key chains of two NaN-free materials are comparable piece by piece |
| Materials.LessTrichotomy | src/serlio/materials/MaterialInfo.cpp:147-246 | with the corrected ordering, two NaN-free materials are equal iff neither is less than the other |
| Materials.LessStrict | src/serlio/materials/MaterialInfo.cpp:180-246 | the corrected ordering is irreflexive and asymmetric |
| PrtMaterials.GetDoubleVector | src/serlio/prtMaterial/MaterialInfo.cpp:40-50 | exactly the first numElements values, or nothing when the member is missing or shorter |
| PrtMaterials.FromHandle | src/serlio/prtMaterial/MaterialInfo.cpp:62-92 | the colormap is read from "diffuseMap", the dirtmap from "diffuseMap1" |
| PrtMaterials.EqualsIsIdentity | src/serlio/prtMaterial/MaterialInfo.cpp:94-122 | equal iff identical and NaN-free |
| PrtMaterials.MissingScalarNeverEqual | src/serlio/prtMaterial/MaterialInfo.cpp:94-122 | a material missing a scalar is equal to no material, itself included |
| PrtMaterials.CountCharAppend | src/serlio/prtMaterial/MaterialInfo.cpp:24-31 | counting a character is additive over concatenation |
| PrtMaterials.ValuesTextSpaces | src/serlio/prtMaterial/MaterialInfo.cpp:24-31 | the text holds one space per value rendered: those from offset up to offset+size that exist |
| PrtMaterials.ToMString | src/serlio/prtMaterial/MaterialInfo.cpp:24-31 | the loop appends each value from offset, bounded by the size and the vector, followed by a space |
| MaterialNames.Candidate | src/serlio/prtMaterial/MaterialNameSource.cpp:25 | the prefix followed by only digits |
| MaterialNames.CandidateInjective | src/serlio/prtMaterial/MaterialNameSource.cpp:25 | different numbers give different names |
| MaterialNames.Candidates | src/serlio/prtMaterial/MaterialNameSource.cpp:24-27 | the first n candidate names |
| MaterialNames.CandidatesMembers | src/serlio/prtMaterial/MaterialNameSource.cpp:24-27 | nothing else is among the first n candidates |
| MaterialNames.CandidatesCount | src/serlio/prtMaterial/MaterialNameSource.cpp:24-27 | the first n candidates are n names |
| MaterialNames.LeastFreeUnique | src/serlio/prtMaterial/MaterialNameSource.cpp:24-27 | the least free index is unique |
| MaterialNames.LeastFreeFrom | src/serlio/prtMaterial/MaterialNameSource.cpp:24-27 | searching on from k finds an index no larger than the number of names whose candidate is free and all earlier ones taken |
| MaterialNames.LeastFree | src/serlio/prtMaterial/MaterialNameSource.cpp:24-27 | the search always ends, at most at the number of names taken |
| MaterialNames.NextFreeIsLater | src/serlio/prtMaterial/MaterialNameSource.cpp:28-29 | after inserting the found name, the next search finds a later, different name |
| MaterialNames.SmallestFreeIndex | src/serlio/prtMaterial/PRTMaterialNode.cpp:243-246 | the while loop returns the least free index |
| MaterialNames.NameSet | src/serlio/prtMaterial/MaterialNameSource.cpp:12-18 | exactly the names of the shading engines |
| MaterialNames.MaterialNameSource.constructor | src/serlio/prtMaterial/MaterialNameSource.cpp:8-19 | the source starts with the names of all shading engines |
| MaterialNames.MaterialNameSource.GetUniqueName | src/serlio/prtMaterial/MaterialNameSource.cpp:21-35 | shading group and shader share the least free index of the "Sg" names; the group name was free and is now taken |
| MaterialNames.ShadingGroupOfShader | src/serlio/prtMaterial/PRTMaterialNode.cpp:229-232 | the last 'S' or 'h' becomes 'g'; a name with neither stays |
| MaterialNames.GeneratedShadingGroup | src/serlio/prtMaterial/PRTMaterialNode.cpp:229-248 | the rename maps a generated shader name to its shading group's name |
| MaterialNames.RenameIgnoresConvention | src/serlio/prtMaterial/PRTMaterialNode.cpp:230-232 | find_last_of looks for either character, so "blush" becomes "blusg" |
| MaterialMatching.ExistingMaterials | src/serlio/prtMaterial/PRTMaterialNode.cpp:154-179 | exactly the shader nodes whose metadata holds one material, with that material, in order |
| MaterialMatching.ShaderNames | src/serlio/prtMaterial/PRTMaterialNode.cpp:154-156 | exactly the names of all hardware shader nodes |
| MaterialMatching.CollectShaderNodes | src/serlio/prtMaterial/ArnoldMaterialNode.cpp:155-190 | the loop over the shader nodes collects ShaderNames and ExistingMaterials |
| MaterialMatching.FirstMatch | src/serlio/prtMaterial/PRTMaterialNode.cpp:213-220 | the first existing material equal to the info, none when none is |
| MaterialMatching.MatchIffIdentical | src/serlio/prtMaterial/MaterialInfo.cpp:94-122 | a match exists iff the info is NaN-free and some existing material is identical |
| MaterialMatching.FindMatchingMaterial | src/serlio/prtMaterial/PRTMaterialNode.cpp:213-220 | the loop with break returns FirstMatch |
| MaterialMatching.FirstMatchUnique | src/serlio/prtMaterial/ArnoldMaterialNode.cpp:223-230 | any first equal material is FirstMatch, so find_if and the loop agree |
| MaterialMatching.FaceRangeOf | src/serlio/prtMaterial/ArnoldMaterialNode.cpp:232-240 | the Arnold node skips an element without face start or end; the Stingray node always reads them, and a missing end reads the start again |
| MaterialMatching.StepAssignments | src/serlio/prtMaterial/PRTMaterialNode.cpp:203-329 | one element appends one assignment when handled, adds one shader name when it creates a material, and its new material's names were free |
| MaterialMatching.RunAssignments | src/serlio/prtMaterial/PRTMaterialNode.cpp:203-329 | the whole stream appends one assignment per handled element and one name per created material, every new material with fresh names |
| MaterialMatching.ReuseOfGeneratedMaterial | src/serlio/prtMaterial/PRTMaterialNode.cpp:228-237 | reusing a generated shader assigns the faces to its own shading group and creates nothing |
| PrtMaterialNode.ReuseLine | src/serlio/prtMaterial/PRTMaterialNode.cpp:233-235 | the reuse line is a sets -forceElement command on the shading group |
| PrtMaterialNode.BlendMode | src/serlio/prtMaterial/PRTMaterialNode.cpp:286 | "0" iff there is no opacity map and the opacity is at least 1 (a NaN opacity gives "1") |
| PrtMaterialNode.TextureTextShape | src/serlio/prtMaterial/PRTMaterialNode.cpp:371-386 | an empty texture only turns its use flag off; a texture is assigned and turns it on |
| PrtMaterialNode.UseLinesDiffer | src/serlio/prtMaterial/PRTMaterialNode.cpp:381-384 | the on and off lines differ |
| PrtMaterialNode.Textures | src/serlio/prtMaterial/PRTMaterialNode.cpp:317-324 | seven textures are set, bump, specular and occlusion maps are not |
| PrtMaterialNode.NewMaterialTextEnds | src/serlio/prtMaterial/PRTMaterialNode.cpp:279-328 | a new material's text starts by naming the shader and ends assigning the faces to $sgName |
| PrtMaterialNode.ScriptTextAppend | src/serlio/prtMaterial/PRTMaterialNode.cpp:203-329 | the script of two runs of elements is the concatenation of their scripts |
| PrtMaterialNode.StepAppends | src/serlio/prtMaterial/PRTMaterialNode.cpp:203-329 | an element's assignments do not depend on those before it |
| PrtMaterialNode.ProcessElement | src/serlio/prtMaterial/PRTMaterialNode.cpp:203-329 | one loop iteration appends the element's script text and updates the shader names |
| PrtMaterialNode.ShadingCommand | src/serlio/prtMaterial/PRTMaterialNode.cpp:148-331 | the shading command is the declarations followed by the script of every assignment of the run |
| ArnoldMaterialNode.FaceRangeCommand | src/serlio/prtMaterial/ArnoldMaterialNode.cpp:253 | a reuse becomes a well-formed setsAddFaceRange command on the shading group |
| ArnoldMaterialNode.ProcessElement | src/serlio/prtMaterial/ArnoldMaterialNode.cpp:213-270 | one loop iteration is the Arnold Step |
| ArnoldMaterialNode.MaterialAssignments | src/serlio/prtMaterial/ArnoldMaterialNode.cpp:155-270 | the two loops produce the Arnold Run from the shader nodes |
| MelScriptBuilder.Mel | src/serlio/utils/MELScriptBuilder.h:36-39 | a variable's MEL text is '$' followed by the name, which must be non-empty and not start with '$' |
| MelScriptBuilder.MelLiteral | src/serlio/utils/MELScriptBuilder.h:45-47 | the literal is the text between two double quotes, unescaped; it equals what std::quoted writes only for a text without '"' and '\\' |
| MelScriptBuilder.Escaped | src/serlio/utils/MELScriptBuilder.cpp:32-37 | the quoted body std::quoted writes for the attribute path is never shorter than the path |
| MelScriptBuilder.EscapedRoundTrip | src/serlio/utils/MELScriptBuilder.cpp:35 | reading the quoted attribute path back gives the path itself, for every path |
| MelScriptBuilder.EscapedQuotesAreEscaped | src/serlio/utils/MELScriptBuilder.cpp:35 | every '"' inside the quoted attribute path is preceded by a '\', so it cannot end the MEL string |
| MelScriptBuilder.AttributeExpression | src/serlio/utils/MELScriptBuilder.cpp:32-37 | the attribute expression opens with "($node + \"." and closes with ')' |
| MelScriptBuilder.ReplacedOf | src/serlio/utils/MELScriptBuilder.cpp:44 | every banned character is replaced by '_', every other kept, length unchanged (replaceAllOf, whose body is not part of this model) |
| MelScriptBuilder.CleanEnumOptionName | src/serlio/utils/MELScriptBuilder.cpp:30-46 | the cleaned option is non-empty and free of the banned characters "=:\;\r\n"; an empty option becomes " ", a non-empty one keeps its length, and one without banned characters is unchanged |
| MelScriptBuilder.CleanEnumOptionNameIdempotent | src/serlio/utils/MELScriptBuilder.cpp:39-46 | cleaning an option name twice gives the same as cleaning it once |
| MelScriptBuilder.EnumEntry | src/serlio/utils/MELScriptBuilder.cpp:103-115 | an entry "name=index" is at least three characters long and holds no ':' separator |
| MelScriptBuilder.EntryWithoutColon | src/serlio/utils/MELScriptBuilder.cpp:30 | a cleaned name joined to decimal digits by '=' holds no ':' |
| MelScriptBuilder.EnumEntries | src/serlio/utils/MELScriptBuilder.cpp:98-115 | one entry per option plus one for a custom default, each non-empty and free of ':' |
| MelScriptBuilder.EnumEntriesIndexed | src/serlio/utils/MELScriptBuilder.cpp:109-115 | option i is entered with index i + 1, after the custom default when there is one |
| MelScriptBuilder.EnumEntriesCustomFirst | src/serlio/utils/MELScriptBuilder.cpp:103-107 | a custom default option comes first, with index 0 |
| MelScriptBuilder.EnumEntriesSnoc | src/serlio/utils/MELScriptBuilder.cpp:109-115 | one more option adds exactly its own entry at the end |
| MelScriptBuilder.EnumString | src/serlio/utils/MELScriptBuilder.cpp:98-121 | the enum string is never empty, and is " " exactly when there are neither options nor a custom default |
| MelScriptBuilder.Split | src/serlio/utils/MELScriptBuilder.cpp:111-112 | splitting a text at a separator yields at least one piece |
| MelScriptBuilder.LastSeparator | src/serlio/utils/MELScriptBuilder.cpp:111-112 | the last separator of a text is the one before a separator-free tail |
| MelScriptBuilder.SplitJoined | src/serlio/utils/MELScriptBuilder.cpp:111-112 | splitting pieces joined by a separator they do not hold gives back the pieces |
| MelScriptBuilder.EnumEntryParts | src/serlio/utils/MELScriptBuilder.cpp:114 | an entry splits at '=' into exactly the cleaned name and the index's decimal text |
| MelScriptBuilder.EnumStringEntries | src/serlio/utils/MELScriptBuilder.cpp:98-121 | Maya, splitting the enum string at ':', reads back exactly the entries, so no option can break the enum definition |
| MelScriptBuilder.Statement | src/serlio/utils/MELScriptBuilder.cpp:50-56 | every statement ends in ";\n" |
| MelScriptBuilder.CommandText | src/serlio/utils/MELScriptBuilder.cpp:50-191 | every command's text is non-empty and ends its line, except setsUseInitialShadingGroup, which writes no newline |
| MelScriptBuilder.AttributeCommandText | src/serlio/utils/MELScriptBuilder.cpp:50-127 | every setAttr, addAttr and connectAttr text ends its line |
| MelScriptBuilder.OtherCommandText | src/serlio/utils/MELScriptBuilder.cpp:129-191 | every other command's text ends its line, except setsUseInitialShadingGroup |
| MelScriptBuilder.VariableCommandText | src/serlio/utils/MELScriptBuilder.cpp:133-178 | the commands on a MEL variable (declarations, setVar, sets, shaders, undo state) end their line |
| MelScriptBuilder.PlainCommandText | src/serlio/utils/MELScriptBuilder.cpp:129-131 | the commands on raw text end their line, except setsUseInitialShadingGroup |
| MelScriptBuilder.EnumOptionsText | src/serlio/utils/MELScriptBuilder.cpp:118-120 | the addAttr -e -en statement ends in ";\n" |
| MelScriptBuilder.MELScriptBuilder.constructor | src/serlio/utils/MELScriptBuilder.h:50-100 | a new builder has an empty command stream |
| MelScriptBuilder.MELScriptBuilder.Emit | src/serlio/utils/MELScriptBuilder.h:50-100 | emitting a command appends exactly its text to the stream |
| MelScriptBuilder.MELScriptBuilder.SetAttrBool | src/serlio/utils/MELScriptBuilder.cpp:50-52 | appends the bool setAttr text, 1 or 0 |
| MelScriptBuilder.MELScriptBuilder.SetAttrInt | src/serlio/utils/MELScriptBuilder.cpp:54-56 | appends the int setAttr text |
| MelScriptBuilder.MELScriptBuilder.SetAttrDouble | src/serlio/utils/MELScriptBuilder.cpp:58-60 | appends the double setAttr text, the number given as its decimal text |
| MelScriptBuilder.MELScriptBuilder.SetAttrDouble2 | src/serlio/utils/MELScriptBuilder.cpp:62-71 | appends the double2 setAttr text |
| MelScriptBuilder.MELScriptBuilder.SetAttrDouble3 | src/serlio/utils/MELScriptBuilder.cpp:73-82 | appends the double3 setAttr text |
| MelScriptBuilder.MELScriptBuilder.SetAttrVariable | src/serlio/utils/MELScriptBuilder.cpp:84-87 | appends the string setAttr text with a variable value |
| MelScriptBuilder.MELScriptBuilder.SetAttrLiteral | src/serlio/utils/MELScriptBuilder.cpp:89-92 | appends the string setAttr text with a quoted literal value |
| MelScriptBuilder.MELScriptBuilder.SetAttrEnumOptions | src/serlio/utils/MELScriptBuilder.cpp:98-121 | appends the addAttr -e -en text with the enum string |
| MelScriptBuilder.MELScriptBuilder.ConnectAttr | src/serlio/utils/MELScriptBuilder.cpp:123-127 | appends the connectAttr -force text of the two attribute expressions |
| MelScriptBuilder.MELScriptBuilder.SetsAddFaceRange | src/serlio/utils/MELScriptBuilder.cpp:150-154 | appends the sets -forceElement text for the face range |
| MelScriptBuilder.MELScriptBuilder.Execute | src/serlio/utils/MELScriptBuilder.cpp:202-206 | the script sent to Maya is the whole stream so far |
| MelScriptBuilder.MELScriptBuilder.ExecuteSync | src/serlio/utils/MELScriptBuilder.cpp:193-200 | the script sent is the whole stream and the output is Maya's answer |
| MelScriptBuilder.MELScriptBuilder.ExecuteAndReset | src/serlio/utils/MELScriptBuilder.cpp:202-206 | the script sent is the stream, and the stream is empty afterwards |
| MelScriptBuilder.JoinedSnoc | src/serlio/utils/MELScriptBuilder.cpp:109-112 | joining one more entry adds a ':' only when there are entries already, which is when the text is non-empty |
| MelScriptBuilder.EnumStringStep | src/serlio/utils/MELScriptBuilder.cpp:109-115 | one loop step extends the joined entries by the next option's entry |
| MelScriptBuilder.BuildEnumString | src/serlio/utils/MELScriptBuilder.cpp:100-117 | the loop builds exactly EnumString, whose entries EnumStringEntries reads back |
| MelScriptBuilder.ExecuteTwiceAsWritten | src/serlio/utils/MELScriptBuilder.cpp:193-206 | a builder executed twice sends its first command again with the second |
| MelScriptBuilder.ExecuteTwiceCorrected | src/serlio/utils/MELScriptBuilder.cpp:193-206 | with the stream emptied, the second execution sends only the second command |
| LegacyMelScriptBuilder.CommandText | src/serlio/util/MELScriptBuilder.cpp:41-129 | every command of the older builder is non-empty and ends its line |
| LegacyMelScriptBuilder.AttributeCommandText | src/serlio/util/MELScriptBuilder.cpp:41-81 | every setAttr text of the older builder ends its line |
| LegacyMelScriptBuilder.OtherCommandText | src/serlio/util/MELScriptBuilder.cpp:87-129 | every other command of the older builder ends its line |
| LegacyMelScriptBuilder.SetVarUnescaped | src/serlio/util/MELScriptBuilder.cpp:103-105 | the older setVar writes a '"' of the value unescaped, so the MEL string ends there |
| LegacyMelScriptBuilder.FaceRangeAgrees | src/serlio/util/MELScriptBuilder.cpp:111-115 | both builders write the same face-range command |
| LegacyMelScriptBuilder.MELScriptBuilder.constructor | src/serlio/util/MELScriptBuilder.h:30-70 | a new builder has an empty command stream |
| LegacyMelScriptBuilder.MELScriptBuilder.Emit | src/serlio/util/MELScriptBuilder.cpp:41-129 | emitting a command appends exactly its text to the stream |
| LegacyMelScriptBuilder.MELScriptBuilder.Execute | src/serlio/util/MELScriptBuilder.cpp:140-144 | the script sent to Maya is the whole stream |
| LegacyMelScriptBuilder.MELScriptBuilder.ExecuteSync | src/serlio/util/MELScriptBuilder.cpp:131-138 | the script sent is the whole stream and the output is Maya's answer |
| MayaEncoder.Offset | codec/src/encoder/MayaEncoder.cpp:153-155 | each merged index is the geometry's base plus its local index, one for one |
| MayaEncoder.Bindings | codec/src/encoder/MayaEncoder.cpp:226-233 | one UV binding per face corner walked |
| MayaEncoder.FaceCountsLength | codec/src/encoder/MayaEncoder.cpp:149-151 | one count per face, equal to the face's number of vertex indices |
| MayaEncoder.SumAppend | codec/src/encoder/MayaEncoder.cpp:149-155 | the corner total of two face lists is the sum of their totals |
| MayaEncoder.FaceConnectsLength | codec/src/encoder/MayaEncoder.cpp:149-155 | a geometry contributes exactly as many connects as its faces have corners |
| MayaEncoder.ConnectsMatchCounts | codec/src/encoder/MayaEncoder.cpp:131-165 | the merged connects hold exactly as many entries as the counts sum to, as MFnMesh::create expects |
| MayaEncoder.AllCountsLength | codec/src/encoder/MayaEncoder.cpp:131-165 | appending a geometry adds one count per face |
| MayaEncoder.FaceConnectsBounded | codec/src/encoder/MayaEncoder.cpp:153-155 | offset connects of faces whose indices stay under a limit stay under it |
| MayaEncoder.AllVerticesGrow | codec/src/encoder/MayaEncoder.cpp:137-138 | the merged vertex list of a prefix of the geometries is no longer than the whole |
| MayaEncoder.ConnectsInRange | codec/src/encoder/MayaEncoder.cpp:129-165 | when every face indexes its own geometry's vertices, every merged connect indexes a merged vertex |
| MayaEncoder.FacesTcBounded | codec/src/encoder/MayaEncoder.cpp:157-160 | offset UV connects of faces whose UV indices stay under a limit stay under it |
| MayaEncoder.TcConnectsInRange | codec/src/encoder/MayaEncoder.cpp:140-165 | when every face indexes its own geometry's UVs, every merged UV connect indexes a merged UV |
| MayaEncoder.FaceCornersMatchTc | codec/src/encoder/MayaEncoder.cpp:157-160 | faces that all carry UV indices get one UV connect per corner walked |
| MayaEncoder.NoUVsNoTc | codec/src/encoder/MayaEncoder.cpp:157-160 | faces that carry no UV indices contribute no UV connects |
| MayaEncoder.WalkConsumesTcConnects | codec/src/encoder/MayaEncoder.cpp:205-235 | for consistent geometries the binding walk consumes exactly the UV connects collected |
| MayaEncoder.RangesAppend | codec/src/encoder/MayaEncoder.cpp:237-247 | appending a range start < end past the earlier ranges keeps the ranges well formed |
| MayaEncoder.RangesGrow | codec/src/encoder/MayaEncoder.cpp:237-247 | well-formed ranges stay well formed as the face total grows |
| MayaEncoder.ShadingRangesWellFormed | codec/src/encoder/MayaEncoder.cpp:205-250 | the shading ranges come in increasing, non-overlapping start/end pairs inside the face total |
| MayaEncoder.ShadingGroups | codec/src/encoder/MayaEncoder.cpp:237-247 | at most one shading group per geometry |
| MayaEncoder.GroupPerRange | codec/src/encoder/MayaEncoder.cpp:237-247 | every shading group has exactly one start/end pair of face ranges |
| MayaEncoder.ShadingRanges | codec/src/encoder/MayaEncoder.cpp:237-247 | at most one start/end pair, two entries, per geometry |
| MayaEncoder.MayaData.constructor | codec/src/encoder/MayaEncoder.cpp:188-190 | a fresh data block holds no shading groups and no ranges, the state convertGeometry clears it to |
| MayaEncoder.Us | codec/src/encoder/MayaEncoder.cpp:143-146 | the U list holds each texture coordinate's u, in order |
| MayaEncoder.Vs | codec/src/encoder/MayaEncoder.cpp:143-146 | the V list holds each texture coordinate's v, in order |
| MayaEncoder.Zip | codec/src/encoder/MayaEncoder.cpp:200 | pairing the U and V lists gives one coordinate per entry |
| MayaEncoder.ZipUsVs | codec/src/encoder/MayaEncoder.cpp:143-146 | pairing the U and V lists gives back the coordinates split into them |
| MayaEncoder.AppendVertices | codec/src/encoder/MayaEncoder.cpp:137-138 | appends exactly the geometry's vertices |
| MayaEncoder.AppendUVs | codec/src/encoder/MayaEncoder.cpp:140-147 | appends exactly the geometry's u and v values to the two lists |
| MayaEncoder.AppendOffset | codec/src/encoder/MayaEncoder.cpp:153-159 | appends the first n indices, each offset by the base |
| MayaEncoder.AppendFaces | codec/src/encoder/MayaEncoder.cpp:149-161 | appends the faces' counts, their offset vertex connects, and their offset UV connects for faces that have UVs |
| MayaEncoder.FaceCountsSnoc | codec/src/encoder/MayaEncoder.cpp:149-151 | one more face adds its own count at the end |
| MayaEncoder.FaceConnectsSnoc | codec/src/encoder/MayaEncoder.cpp:153-155 | one more face adds its own offset connects at the end |
| MayaEncoder.FacesTcSnoc | codec/src/encoder/MayaEncoder.cpp:157-160 | one more face adds one UV connect per corner when it has UVs, none otherwise |
| MayaEncoder.AllUVsStep | codec/src/encoder/MayaEncoder.cpp:140-147 | one more geometry adds its UVs, and its u and v values, at the end |
| MayaEncoder.AccumulateStep | codec/src/encoder/MayaEncoder.cpp:131-165 | one more geometry extends vertices, counts, connects and UV connects by its own, offset by the totals before it |
| MayaEncoder.Accumulate | codec/src/encoder/MayaEncoder.cpp:121-165 | the merge loop builds exactly the merged vertices, counts, connects, U, V and UV connects of all geometries |
| MayaEncoder.BindingsSnoc | codec/src/encoder/MayaEncoder.cpp:228-231 | binding one more corner adds its binding at the end |
| MayaEncoder.BindingsAppend | codec/src/encoder/MayaEncoder.cpp:226-233 | binding two corner runs one after another is binding their concatenation |
| MayaEncoder.FaceCornersSnoc | codec/src/encoder/MayaEncoder.cpp:227-233 | one more face adds its run of corners, and the prefix walks no more corners than the whole |
| MayaEncoder.CornerRunSnoc | codec/src/encoder/MayaEncoder.cpp:228-231 | one more corner extends a face's run by that corner |
| MayaEncoder.BindFaces | codec/src/encoder/MayaEncoder.cpp:226-233 | the nested loop binds each face corner to the next UV connect and advances the UV cursor by the corners walked |
| MayaEncoder.CornersFit | codec/src/encoder/MayaEncoder.cpp:226-233 | a geometry's corners fit in the UV connects left after the earlier ones |
| MayaEncoder.BindPost | codec/src/encoder/MayaEncoder.cpp:205-235 | binding a geometry's corners extends the walk's bindings by exactly them |
| MayaEncoder.BindGeometry | codec/src/encoder/MayaEncoder.cpp:218-235 | one geometry's binding step extends the bindings to the walk over one more geometry |
| MayaEncoder.ShadeGeometry | codec/src/encoder/MayaEncoder.cpp:237-247 | one geometry with more than one face appends its shading group and face range; others append nothing |
| MayaEncoder.WalkMaterials | codec/src/encoder/MayaEncoder.cpp:205-250 | the material walk produces the bindings of all corners and exactly the shading groups and ranges of all geometries |
| MayaEncoder.BindingsPrefix | codec/src/encoder/MayaEncoder.cpp:226-233 | bindings read only the UV connects they consume |
| MayaEncoder.PrefixCountsBound | codec/src/encoder/MayaEncoder.cpp:149-151 | the counts of a prefix of the geometries are a prefix of all counts |
| MayaEncoder.RangesStep | codec/src/encoder/MayaEncoder.cpp:237-247 | one more geometry adds the range [start, start + faces - 1] when it has more than one face |
| MayaEncoder.GroupsStep | codec/src/encoder/MayaEncoder.cpp:210-247 | one more geometry with more than one face adds the result of createShadingGroup on its texture name |
| MayaEncoder.CornersStep | codec/src/encoder/MayaEncoder.cpp:224-235 | one more geometry with UVs adds its corners to the walk; one without UVs adds none |
| MayaEncoder.CountsSlots | codec/src/encoder/MayaEncoder.cpp:224-233 | the walk's current face reads the count of the geometry's own face |
| MayaEncoder.PrefixCornersBound | codec/src/encoder/MayaEncoder.cpp:205-235 | the walk over a prefix of the geometries is no longer than the whole walk |
| MayaEncoder.FaceCornersPrefix | codec/src/encoder/MayaEncoder.cpp:227-233 | the corners of a prefix of the faces are no more than those of all faces |
| MayaEncoder.ConvertGeometry | codec/src/encoder/MayaEncoder.cpp:112-263 | the mesh gets the merged vertices, counts and connects; only with a connected plug and UV connects are the UV layer set, every corner bound, and the shading groups and ranges refilled; otherwise those are left empty; the UV pass is defined when it reads no more UV connects than there are |
| AssetCache.PathJoin | src/serlio/utils/AssetCache.cpp:108 | joining onto an absolute path gives that path; otherwise the parts are joined by one '/' |
| AssetCache.Extension | src/serlio/utils/AssetCache.cpp:127 | the extension is a suffix of the name that starts with '.' and is shorter than the name |
| AssetCache.Stem | src/serlio/utils/AssetCache.cpp:121 | the stem followed by the extension is the file name |
| AssetCache.AssetsDir | src/serlio/utils/AssetCache.cpp:103-108 | the asset folder is a non-empty path below the workspace, ending in serlio_assets |
| AssetCache.CachedPath | src/serlio/utils/AssetCache.cpp:103-132 | the cached path is the asset folder, '/', and stem + "_" + hash + extension of the file name; it is never empty |
| AssetCache.CachedPathHashInjective | src/serlio/utils/AssetCache.cpp:121-128 | the same file name with two different hashes is cached under two different paths |
| AssetCache.Kept | src/serlio/utils/AssetCache.cpp:38-43 | the truncated file keeps a prefix of the buffer, all of it after a successful write |
| AssetCache.WriteEntry | src/serlio/utils/AssetCache.cpp:35-46 | an existing file counts as written and is left alone; otherwise a stream that cannot open changes nothing, and an opened stream truncates the file, which keeps the full buffer when the write succeeds and a prefix of it when the write fails; no other file changes |
| AssetCache.RemoveEntry | src/serlio/utils/AssetCache.cpp:48-51 | a successful remove deletes exactly that file; a failed one (only logged) changes nothing |
| AssetCache.Emplace | src/serlio/utils/AssetCache.cpp:88-90 | emplace leaves a present key as it is and adds an absent one |
| AssetCache.PutSpec | src/serlio/utils/AssetCache.cpp:55-101 | put changes at most the URI's table entry, a successful put leaves an entry for the URI, and only the new cached file and the URI's old file can change on disk |
| AssetCache.PutReuses | src/serlio/utils/AssetCache.cpp:66-76 | a known URI with the same hash whose cached file exists returns the stored path and changes nothing |
| AssetCache.PutWriteFailure | src/serlio/utils/AssetCache.cpp:35-86 | when the asset must be written and writing fails, put returns the empty path and keeps the table; a stream that never opened leaves the files alone, one that failed while writing leaves the truncated file behind |
| AssetCache.PutAfterFailedWrite | src/serlio/utils/AssetCache.cpp:35-101 | after a write that failed part-way, a second put of the same new asset finds the truncated file, skips writing and returns its path, so the cache serves a file with only a prefix of the asset |
| AssetCache.PutPath | src/serlio/utils/AssetCache.cpp:55-101 | when the cached file exists or the write succeeds, put returns the stored path on reuse and otherwise the new cached path, which then exists on disk unless the expired file removed was that very path |
| AssetCache.PutNewUri | src/serlio/utils/AssetCache.cpp:88-90 | a new URI is entered with its cached path and hash |
| AssetCache.PutRewritesDeletedFile | src/serlio/utils/AssetCache.cpp:66-71 | a known URI with the same hash whose file was deleted is written again, and its table entry is kept as it was |
| AssetCache.PutHashMismatch | src/serlio/utils/AssetCache.cpp:94-98 | a known URI with a new hash gets the new path and hash, and its expired file is removed when removal succeeds |
| AssetCache.PutTwice | src/serlio/utils/AssetCache.cpp:55-101 | a second put of the same asset after a successful one reuses the stored path and changes nothing |
| AssetCache.FileSystem.constructor | src/serlio/utils/AssetCache.cpp:35-51 | the file system starts with the given files |
| AssetCache.FileSystem.WriteCacheEntry | src/serlio/utils/AssetCache.cpp:35-46 | writing a cache entry has the effect and result WriteEntry states |
| AssetCache.FileSystem.RemoveCacheEntry | src/serlio/utils/AssetCache.cpp:48-51 | removing an expired entry has the effect RemoveEntry states |
| AssetCache.AssetCache.constructor | src/serlio/utils/AssetCache.h:28-36 | a new asset cache holds no entries |
| AssetCache.AssetCache.Put | src/serlio/utils/AssetCache.cpp:55-101 | put returns the path and leaves the table and files as PutSpec states, for the hash of the buffer |
| ResolveMapCache.GetInvalidTimestamp | src/serlio/utils/ResolveMapCache.cpp:44-46 | an unreadable modification time fails the lookup and leaves the cache alone |
| ResolveMapCache.GetSpec | src/serlio/utils/ResolveMapCache.cpp:36-82 | a lookup changes only the package's own entry; after a lookup with a readable time that entry, if any, carries that time, and a returned resolve map is the one then cached |
| ResolveMapCache.GetHit | src/serlio/utils/ResolveMapCache.cpp:48-53 | a package cached with the same time is a hit returning the cached resolve map |
| ResolveMapCache.GetReload | src/serlio/utils/ResolveMapCache.cpp:48-79 | a missing or stale entry is a miss: the stale entry is dropped, the engine's resolve map is returned and stored with the new time, nothing is stored when the engine fails, and other packages are untouched |
| ResolveMapCache.GetThenHit | src/serlio/utils/ResolveMapCache.cpp:36-82 | a lookup that returned a resolve map makes the next lookup with the same time a hit on it |
| ResolveMapCache.RemoveTree | src/serlio/util/ResolveMapCache.cpp:39-40 | remove_all removes the directory and everything below it and nothing outside it; an empty path removes nothing |
| ResolveMapCache.Disk.constructor | src/serlio/util/ResolveMapCache.cpp:38-42 | the disk starts with the given paths |
| ResolveMapCache.Disk.RemoveAll | src/serlio/util/ResolveMapCache.cpp:39-40 | removing a directory leaves the paths RemoveTree states |
| ResolveMapCache.ResolveMapCache.constructor | src/serlio/utils/ResolveMapCache.h:32 | a new cache is empty and keeps its unpack path |
| ResolveMapCache.ResolveMapCache.Get | src/serlio/utils/ResolveMapCache.cpp:36-82 | get returns the result and leaves the cache as the shared lookup rule states, with -1 as the invalid time |
| ResolveMapCache.LegacyResolveMapCache.constructor | src/serlio/util/ResolveMapCache.cpp:38-42 | a new cache is empty and keeps its unpack path |
| ResolveMapCache.LegacyResolveMapCache.Get | src/serlio/util/ResolveMapCache.cpp:44-91 | get follows the shared lookup rule, and on a stale entry removes the package's unpack directory when the unpack path and file name are non-empty; no other lookup touches the disk |
| ResolveMapCache.LegacyResolveMapCache.Destroy | src/serlio/util/ResolveMapCache.cpp:38-42 | the destructor removes the unpack directory when its path is non-empty |
| ResolveMapCache.FileModificationTime | src/client/prtModifier/ResolveMapCache.cpp:16-26 | the time is the file's last write time exactly when the path is non-empty and names a regular file, and the invalid time otherwise |
| ResolveMapCache.CreateCacheKey | src/client/prtModifier/ResolveMapCache.cpp:28-30 | the cache key is the package path itself |
| ResolveMapCache.ClientResolveMapCache.constructor | src/client/prtModifier/ResolveMapCache.h:14 | a new cache is empty and keeps its unpack path |
| ResolveMapCache.ClientResolveMapCache.Get | src/client/prtModifier/ResolveMapCache.cpp:51-97 | get reads the time itself, follows the shared lookup rule, and on a stale entry removes the package's directory below the unpack path |
| ResolveMapCache.ClientResolveMapCache.Destroy | src/client/prtModifier/ResolveMapCache.cpp:46-49 | the destructor removes the unpack directory without checking its path, which for an empty path removes nothing |
| MayaCallbacks.CString | src/serlio/modifiers/MayaCallbacks.cpp:385-395 | the string a wide-character buffer holds is its NUL-free prefix |
| MayaCallbacks.CStringOfTerminated | src/serlio/modifiers/MayaCallbacks.cpp:385-395 | a NUL-free text followed by NUL reads back as itself, whatever follows |
| MayaCallbacks.CopyExtentAsWritten | src/serlio/modifiers/MayaCallbacks.cpp:385-395 | as written, the copy writes max(given size, length + 1) slots, the given size whenever that exceeds the length |
| MayaCallbacks.CopyOverrunsBuffer | src/serlio/modifiers/MayaCallbacks.cpp:385-395 | as written, a path that does not fit writes length + 1 - given size slots past the caller's buffer |
| MayaCallbacks.CopyStringToWCharPtr | src/serlio/modifiers/MayaCallbacks.cpp:385-395 | corrected: the size always becomes length + 1; when the path fits in the given size, it and its NUL are copied to the start and the last given slot is NUL, otherwise the buffer is left alone; nothing at or beyond the given size changes, and a filled buffer reads back as the path |
| MayaCallbacks.AddAsset | src/serlio/modifiers/MayaCallbacks.cpp:456-473 | an absent or empty URI or file name yields size 0 and changes nothing; otherwise the asset cache's put decides the table and files; an empty path yields size 0, a non-empty one sets the size to its length + 1 and is copied NUL-terminated when it fits the given size, else the buffer is left alone |
| MayaCallbacks.AsInt32 | src/serlio/modifiers/MayaCallbacks.cpp:56-61 | an unsigned 32-bit index is stored as the signed int with the same bits; indices below 2^31 keep their value |
| MayaCallbacks.AsInt32RoundTrip | src/serlio/modifiers/MayaCallbacks.cpp:56-61 | reading the signed int back as unsigned gives the original index |
| MayaCallbacks.ToMayaIntArray | src/serlio/modifiers/MayaCallbacks.cpp:56-61 | the Maya int array has s entries, entry i the signed reading of a[i] |
| MayaCallbacks.Owners | src/serlio/modifiers/MayaCallbacks.cpp:157-167 | one owning face per vertex index, each a valid face number |
| MayaCallbacks.SumPrefix | src/serlio/modifiers/MayaCallbacks.cpp:157-167 | the corners of fewer faces are no more than those of more faces |
| MayaCallbacks.PrefixStep | src/serlio/modifiers/MayaCallbacks.cpp:158-166 | one more face adds its corners to the total and its number to the owner list, once per corner |
| MayaCallbacks.OwnersAreCornerRanges | src/serlio/modifiers/MayaCallbacks.cpp:157-167 | the owner of corner k is the face whose corner range contains k |
| MayaCallbacks.FillFace | src/serlio/modifiers/MayaCallbacks.cpp:161-166 | the inner loop marks the face's corners with its number and sets their expanded normals from the normal indices |
| MayaCallbacks.AssignVertexNormals | src/serlio/modifiers/MayaCallbacks.cpp:144-170 | without normals nothing is set; otherwise the face list is Owners of the face counts and corner k gets the normal its index selects |
| MayaCallbacks.PrtIndexZeroOnlyFirst | src/serlio/modifiers/MayaCallbacks.cpp:82-99 | only the first entry of the texture UV order, map1, reads engine UV set 0 |
| MayaCallbacks.OpForCreates | src/serlio/modifiers/MayaCallbacks.cpp:109-140 | every entry other than map1 creates its named UV set, filled or empty; map1 is never created, only filled or skipped |
| MayaCallbacks.CreatedSetsKeepOrder | src/serlio/modifiers/MayaCallbacks.cpp:109-140 | the UV sets are created in the order of the table, whether or not the engine supplies them |
| MayaCallbacks.CreatedSetNames | src/serlio/modifiers/MayaCallbacks.cpp:82-140 | exactly dirtMap, normalMap, opacityMap, bumpMap, specularMap, emissiveMap, occlusionMap, roughnessMap and metallicMap are created, in this order |
| MayaCallbacks.FilledIff | src/serlio/modifiers/MayaCallbacks.cpp:113 | a UV set is filled exactly when the engine reports its index and its coordinate list is non-empty |
| MayaCallbacks.AssignTextureCoordinates | src/serlio/modifiers/MayaCallbacks.cpp:101-142 | with no UV sets nothing happens; otherwise the UVs are cleared and every table entry performs its operation, in order |
| MayaCallbacks.SplitUVs | src/serlio/modifiers/MayaCallbacks.cpp:116-119 | the U and V lists hold the even and odd coordinates, half as many as given |
| MayaCallbacks.Interleave | src/serlio/modifiers/MayaCallbacks.cpp:116-119 | interleaving U and V lists gives twice as many coordinates |
| MayaCallbacks.SplitInterleaves | src/serlio/modifiers/MayaCallbacks.cpp:116-119 | interleaving the split lists gives back the coordinates, up to an odd last one |
| MayaCallbacks.WriteCellsAt | src/serlio/modifiers/MayaCallbacks.cpp:289-306 | writing a member's cells sets exactly its first slots and keeps every other slot |
| MayaCallbacks.BoolCells | src/serlio/modifiers/MayaCallbacks.cpp:286-292 | a bool array fills at most 400 slots, each with its element |
| MayaCallbacks.IntCells | src/serlio/modifiers/MayaCallbacks.cpp:293-299 | an int array fills at most 400 slots, each with its element |
| MayaCallbacks.DoubleCells | src/serlio/modifiers/MayaCallbacks.cpp:300-308 | a float array fills at most 5 slots, each with its element |
| MayaCallbacks.FloatArrayTruncated | src/serlio/modifiers/MayaCallbacks.cpp:300-308 | element j of a float array is written when j < 5, and a slot from 5 on is never touched |
| MayaCallbacks.FillHandle | src/serlio/modifiers/MayaCallbacks.cpp:251-347 | the loop over a material's keys fills exactly the handle MaterialHandle describes |
| MayaCallbacks.WriteArray | src/serlio/modifiers/MayaCallbacks.cpp:289-306 | the element loop writes exactly WriteCells |
| MayaCallbacks.WriteStringArray | src/serlio/modifiers/MayaCallbacks.cpp:309-330 | the string element loop writes exactly WriteStrings up to the limit |
| MayaCallbacks.FillMetadata | src/serlio/modifiers/MayaCallbacks.cpp:233-356 | without materials the stream stays empty; otherwise there is one element per face range, element i the material i handle with the range's start and end |
| MayaCallbacks.RangesChain | src/serlio/modifiers/MayaCallbacks.cpp:343-347 | an element's start is its range start, and each element ends where the next one starts |
| MayaCallbacks.MemberKeyUndeclared | src/serlio/modifiers/MayaCallbacks.cpp:174-231 | the member keys of a string array from index 2 on are not declared in the structure |
| MayaCallbacks.LaterStringsDropped | src/serlio/modifiers/MayaCallbacks.cpp:309-330 | writing any number of strings of an array leaves the same cells as writing only the first two, since later member keys are undeclared |
| MayaCallbacks.StringArrayKeepsTwo | src/serlio/modifiers/MayaCallbacks.cpp:174-231 | for every string array, the handle built from the material holds its first string under the key and its second under the key's member 1, and nothing else |
| Sorting.Sort | src/serlio/prtModifier/RuleAttributes.cpp:205 | the array becomes a permutation of its old contents in which no element sorts before its predecessor |
| Sorting.InsertLast | src/serlio/prtModifier/RuleAttributes.cpp:205 | moving the next element into the sorted prefix keeps the contents and extends the sorted prefix by one |
| Sorting.Swap | src/serlio/prtModifier/AttributeProperties.h:52 | exchanging two elements keeps the contents as a multiset |
| Sorting.SortedFromAdjacent | src/serlio/prtModifier/AttributeProperties.h:52 | under a transitive not-less relation, adjacent order gives order between any two positions |
| Sorting.NotLessChain | src/serlio/prtModifier/AttributeProperties.h:52 | under a transitive not-less relation, no later element sorts before an earlier one |
| ModifierNodeCompute.Evaluate | src/serlio/modifiers/PRTModifierNode.cpp:61-145 | pass-through only copies the mesh; another plug is an unknown parameter; for outMesh the package is recorded at once, the call list starts with copying and setting the mesh, and the rule files are updated exactly when the package changed and the user-set attributes exactly when it did not |
| ModifierNodeCompute.EvaluateGeneration | src/serlio/modifiers/PRTModifierNode.cpp:61-145 | generation runs exactly when neither the rule update nor the attribute fill failed and then ends with updateUI and setClean and returns the generation status; otherwise compute stops with the failing update or fill status, which is never success |
| ModifierNodeCompute.FailedUpdateNotRetried | src/serlio/modifiers/PRTModifierNode.cpp:100-124 | after a failed rule update nothing is generated, and the next evaluation with the same package runs the user-set update instead of retrying the rule update |
| ModifierNodeCompute.FillBeforeDoIt | src/serlio/modifiers/PRTModifierNode.cpp:127-132 | whenever generation runs, the attribute fill comes right before it |
| ModifierNodeCompute.PrtModifierNode.constructor | src/serlio/modifiers/PRTModifierNode.cpp:97-101 | a new node has no current package and has made no calls |
| ModifierNodeCompute.PrtModifierNode.Compute | src/serlio/modifiers/PRTModifierNode.cpp:61-145 | compute records the package, makes the calls and returns the status Evaluate states |
| PrtModifierNodeCompute.ComputeStep | src/serlio/prtModifier/PRTModifierNode.cpp:59-135 | pass-through only copies the mesh; another plug is an unknown parameter; for outMesh the rule files are updated exactly when the package changed, then fill, setMesh, the seed, generation and setClean always follow, the package is stored, and the status is generation's |
| PrtModifierNodeCompute.FailuresIgnored | src/serlio/prtModifier/PRTModifierNode.cpp:111-122 | neither a failed rule update nor a failed fill stops generation, whose status is returned |
| PrtModifierNodeCompute.GenerationsAgreeOnRuleChange | src/serlio/prtModifier/PRTModifierNode.cpp:111-124 | both node generations detect a rule change alike and store the same package; whenever the newer one generates, so does the older |
| PrtModifierNodeCompute.PrtModifierNode.constructor | src/serlio/prtModifier/PRTModifierNode.cpp:99-100 | a new node has no current package and has made no calls |
| PrtModifierNodeCompute.PrtModifierNode.Compute | src/serlio/prtModifier/PRTModifierNode.cpp:59-135 | compute stores the package, makes the calls and returns the status ComputeStep states |

## Left out

- Maya and PRT API plumbing is not modelled; host calls are replaced by values:
  - mesh creation and the UV and normal setters (except their arguments);
  - `adsk::Data` structures, plug reads and writes, and dependency-graph iteration.
  - Engine calls (`generate`, `createResolveMap`, `createRuleFileInfo`) and MEL execution become inputs or an `execute` oracle from command text to its result.
- File system, clock and environment become parameters:
  - file contents as a map, directories as a set of paths;
  - modification times, the workspace root and environment variables as inputs;
  - how a write ends (the stream cannot open, the write fails after a prefix, or it succeeds) and whether a remove succeeds, as inputs;
  - the content hash as a function passed in.
- The mutexes of the resolve-map caches are dropped: each `get` runs under its lock as one sequential step.
- Floating point is not modelled:
  - colours are handled at the hexadecimal-byte level, so the /255 scaling is not modelled;
  - `double` values in MaterialInfo are reals or NaN;
  - MEL number formatting is given as text;
  - the float casts of UVs and vertices, the ×100 vertex scale, and `computeSeed`'s bit casts are not modelled.
- Logging, plug-in lifecycle, iterator adapters and the shader-graph scripts of the Arnold and Stingray material nodes are not modelled.
- MayaEncoder.SchemeFits: the texture URI is assumed at least as long as the file scheme prefix; shorter URIs make `substr` throw and are excluded.
  - The scheme prefix is a parameter, because `URIUtils::SCHEME_FILE` is not part of this model.
- MayaEncoder.Accumulate: the `uint32_t` vertex and UV bases are unbounded here; their wrap-around is not modelled.
- MayaEncoder.ConvertGeometry: a failed Maya status (the `M_CHECK3` exceptions) is not modelled.
- `replaceAllSubstrings`, `replaceAllNotOf`, `replaceAllOf` and `getImport` are called but not defined in the files modelled; they are given their evident meaning (replace every occurrence / every character outside or inside a set, strip up to the import separator).
- RuleAttributeSet.LessTrichotomy: the comparator is proved irreflexive, asymmetric and trichotomous, but transitivity is not claimed. The `std::set` model matches `std::set` only when the comparator is a strict weak order.
- Sorting.Sort: proved to return a permutation in which no element sorts before its predecessor (an insertion sort standing in for `std::sort`). Full sortedness follows from Sorting.SortedFromAdjacent only when the comparator's negation is transitive.
- ModifierAction.FillAttributesFromNode: `asDouble`/`asInt`/`asString` conversion of plug values, and failing `getValue` calls, are not modelled; plug values are typed inputs.
- A null rule default string is read as the empty string.
- Maya attribute flags (keyable, hidden, storable, categories, nice names shown) are not modelled; only which attributes exist, their kind and their values are.
- Header declarations that disagree with their `.cpp` follow the `.cpp`:
  - the node calls `updateRuleFiles` and `updateUI` with an extra `cgacProblems` argument the `.cpp` definitions do not take;
  - `AssetCache.h` declares the table with a different key type than `put` uses.
- MayaCallbacks.CopyStringToWCharPtr: models the `_MSC_VER` branch; the other branch names an undefined `pathStr`.
- MayaCallbacks.FillHandle: strings are stored whole. The cut to the 400-character member size made by `toOSNarrowFromUTF16` is not modelled, and that conversion is the identity on the modelled text. `checkStringLength` only logs.
- The extensions passed to `addFileParameter` and a `getFloat` on a non-float argument (read as 0) are not modelled beyond that value.
- PrtModifierAction.AddParameter: `hasAttribute` is checked by brief name only.
- PrtModifierAction.PlugValueAndRemoveAttr: plug values are given typed. When the stored attribute has another type than the one requested, `plug.getValue` fails and the default stays; the model returns the stored value instead.
- Materials.Equals, Materials.KeyLess, Materials.Less and Materials.LessAsWritten compare the texture paths (`std::filesystem::path`) as plain strings. Path comparison element by element, under which "a//b" equals "a/b", is not modelled.
- ModifierAttributes.RemoveUnusedAttribs: removing a colour compound attribute leaves its channel children in the model's attribute list. Maya removes them with the compound.
- PrtMaterialNode: the face-assignment lines are formatted with `swprintf` into a 512-character buffer, with 511 passed as its size, so at most 510 characters and the terminator fit. A longer line makes `swprintf` fail, and what the buffer then holds is not modelled; the model keeps the whole line.
- Maya's `removeAttribute` is taken to remove dynamic attributes only, and to leave static ones in place.
- ModifierNodeCompute.Evaluate: the statuses of the action's calls are inputs, and the geometry `doIt` produces is not modelled. The same holds for the older node in PrtModifierNodeCompute.ComputeStep. Failures of the `MCheckStatus` handle reads are not modelled.
- Utilities.GetRuleFileEntry: requires every key that is a proper suffix of ".cgb" (the empty key, "b", "gb", "cgb") to come after a matching key. The reverse `std::equal` compares such a key all the way to its start and then reads in front of it, which the model does not define. Any other key stops at a mismatch or matches.
- MayaEncoder.ConvertGeometry: requires, with a connected plug and UV connects, that the UV pass reads no more UV connects than there are; reading past the end of `tcConnects` is not defined by the model.
- RuleAttributes.GroupStringsNotNull: the members that scan @Group annotations (in both generations of the rule attribute code) require every string argument of a @Group annotation to be non-null. The source pushes `getStr()` into a `std::wstring` vector, which is undefined for a null pointer, so the model leaves that case out. The file filter appends `getStr()` to a `std::wstring` just as unguardedly; there ModifierAttributes.FilterEntries reads a null string as "" instead of excluding it, a choice of the model and not the source's behaviour.
- MayaEncoder.FaceReadable: the members that walk UV indices require a face with any UV index to have at least as many UV indices as vertex indices. The source reads `getUVIndices()[vi]` for every vertex index `vi`, and a shorter list is an out-of-range read the model does not define.
- The test expectation in `src/test/tests.cpp:24-42` is not a property of the model: the comparator in `prtModifier/AttributeProperties.h` cannot produce that order.

## Findings

| source | as written | input that shows it | evidently intended | confidence | as-written member | corrected member |
|---|---|---|---|---|---|---|
| src/serlio/modifiers/PRTModifierAction.cpp:443-470 | a colour is "default" when the upper-case text `getColorString` writes equals the rule's default text | rule default "#ff0000", plug black, user-set and force-default flags set (a reset): the update clears user-set, updateUI sets the plug to red, and the next update compares "#FF0000" with "#ff0000" and marks it user-set again | compare colour values, or both texts in one case | low/medium; not executed | ModifierAction.ColorResetMarkedUserSet | ModifierAction.UserSetStableAcrossCycle |
| src/serlio/modifiers/PRTModifierAction.cpp:984-1042 | the default index is searched in the enum's value arrays before `fill` has filled them, so it is always 0 | options "a", "b" with default "b": index 0 ("a") is selected | fill first, then search | medium; not executed | EnumValues.AddEnumParameterAsWritten | EnumValues.AddEnumParameter |
| src/serlio/materials/MaterialInfo.cpp:214-242 | `operator<` compares `specularmapTrafo` twice and never `colormapTrafo` | two NaN-free materials differing only in `colormapTrafo`: neither is less than the other, yet they are not equal | compare `colormapTrafo` in place of the repeated key | medium; not executed | Materials.ColormapTrafoCounterexample | Materials.LessTrichotomy |
| src/serlio/utils/MELScriptBuilder.cpp:193-206 | `commandStream.clear()` resets only the stream's state flags, so the commands stay in the buffer | a builder that emits a command, executes, emits a second and executes again sends the first command twice | empty the buffer (`str(L"")`) after executing | low; not executed | MelScriptBuilder.ExecuteTwiceAsWritten | MelScriptBuilder.ExecuteTwiceCorrected |
| src/serlio/modifiers/MayaCallbacks.cpp:385-395 | when the path does not fit, `resultSize` is raised to length + 1 before the copy, so `wcsncpy_s` and the terminator write that many slots into a buffer of the caller's smaller size | a 2-character path with a given size of 2: 3 slots are written, one past the buffer | report the needed size and copy nothing, as the caller then retries with a larger buffer | medium; not executed | MayaCallbacks.CopyOverrunsBuffer | MayaCallbacks.CopyStringToWCharPtr |
