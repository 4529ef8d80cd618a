// The value arrays of the modifier action's enum helper: the older
// PRTModifierEnum (src/serlio/prtModifier/PRTModifierAction.h:43-59) keeps
// one boolean, one double and one string array beside its Maya enum
// attribute. `fill` turns the #NULL#-keyed arguments of an @Enum annotation
// into fields, one slot per field in each array; addEnumParameter looks up
// the slot of the rule default. The newer action
// (src/serlio/modifiers/PRTModifierAction.cpp) repeats both on the same
// arrays.

module EnumValues {
  import opened Wrappers
  import opened Text
  import opened RuleInfo
  import M = Materials
  import ME = ModifierEnum

  /** The enum helper's state: the Maya enum fields, the three value arrays
    * and the restricted flag. */
  datatype Table = Table(
    fields: seq<ME.EnumField>,
    bVals: seq<bool>,
    fVals: seq<M.Double>,
    sVals: seq<String>,
    restricted: bool)

  /** A default-constructed helper. */
  function EmptyTable(): Table
  {
    Table([], [], [], [], true)
  }

  /** The arrays run in lockstep with the fields: field k is numbered k and
    * its values sit in slot k of each array. */
  predicate Lockstep(t: Table)
  {
    |t.bVals| == |t.fields| && |t.fVals| == |t.fields| && |t.sVals| == |t.fields| &&
    forall k :: 0 <= k < |t.fields| ==> t.fields[k].index == k
  }

  /** One argument of fill: a "restricted" key sets the flag, other keyed
    * arguments are skipped, and a #NULL#-keyed bool, float or string adds a
    * field numbered by the length of its own array and one slot to every
    * array (false, NaN and "" in the others). */
  function FillStep(t: Table, arg: AnnotationArg): (r: Table)
    ensures Lockstep(t) ==> Lockstep(r)
    ensures t.fields <= r.fields && t.bVals <= r.bVals && t.fVals <= r.fVals && t.sVals <= r.sVals
  {
    if arg.key != ME.NullKey then
      if arg.key == ME.RestrictedKey then t.(restricted := ME.ArgBool(arg.value)) else t
    else
      match arg.value
      case BoolArg(b) =>
        t.(fields := t.fields + [ME.EnumField(BoolToWString(b), |t.bVals|)],
           bVals := t.bVals + [b], fVals := t.fVals + [M.NaN], sVals := t.sVals + [""])
      case FloatArg(f) =>
        t.(fields := t.fields + [ME.EnumField(FloatToWString(f), |t.fVals|)],
           bVals := t.bVals + [false], fVals := t.fVals + [M.Num(f)], sVals := t.sVals + [""])
      case StrArg(s) =>
        t.(fields := t.fields + [ME.EnumField(s.GetOr(""), |t.sVals|)],
           bVals := t.bVals + [false], fVals := t.fVals + [M.NaN], sVals := t.sVals + [s.GetOr("")])
      case OtherArg => t
  }

  /** fill over all arguments, after setting the restricted flag. */
  function Filled(t: Table, args: seq<AnnotationArg>): Table
    decreases |args|
  {
    if |args| == 0 then t.(restricted := true)
    else FillStep(Filled(t, args[..|args| - 1]), args[|args| - 1])
  }

  /** fill keeps the arrays in lockstep with the fields, leaves the existing
    * slots alone, and the restricted flag ends as the last "restricted"
    * argument says, true without one. */
  lemma {:induction false} FilledKeepsLockstep(t: Table, args: seq<AnnotationArg>)
    requires Lockstep(t)
    ensures var r := Filled(t, args);
            Lockstep(r) && r.restricted == ME.FilledRestricted(args) &&
            t.fields <= r.fields && t.bVals <= r.bVals && t.fVals <= r.fVals && t.sVals <= r.sVals
    decreases |args|
  {
    if |args| > 0 {
      var last := |args| - 1;
      FilledKeepsLockstep(t, args[..last]);
      ME.LastKeyedSnoc(args, last, ME.RestrictedKey);
    }
  }

  /** Every slot describes its field: a non-empty string slot holds the
    * field's text, a number in the float slot is the one the field's text
    * shows, and a set boolean slot belongs to a field showing "1". */
  predicate SlotDescribesField(t: Table, k: int)
    requires Lockstep(t) && 0 <= k < |t.fields|
  {
    var name := t.fields[k].name;
    (t.sVals[k] != "" ==> name == t.sVals[k]) &&
    (t.fVals[k].Num? ==> name == FloatToWString(t.fVals[k].v)) &&
    (t.bVals[k] ==> name == "1")
  }

  lemma {:induction false} FilledSlotsDescribeFields(args: seq<AnnotationArg>)
    ensures Lockstep(Filled(EmptyTable(), args))
    ensures forall k :: 0 <= k < |Filled(EmptyTable(), args).fields| ==> SlotDescribesField(Filled(EmptyTable(), args), k)
    decreases |args|
  {
    FilledKeepsLockstep(EmptyTable(), args);
    if |args| > 0 {
      var last := |args| - 1;
      var prev := Filled(EmptyTable(), args[..last]);
      FilledSlotsDescribeFields(args[..last]);
      var r := Filled(EmptyTable(), args);
      assert r == FillStep(prev, args[last]);
      forall k | 0 <= k < |r.fields|
        ensures SlotDescribesField(r, k)
      {
        if k < |prev.fields| {
          assert r.fields[k] == prev.fields[k] && r.bVals[k] == prev.bVals[k] && r.fVals[k] == prev.fVals[k];
          assert r.sVals[k] == prev.sVals[k];
          assert SlotDescribesField(prev, k);
        }
      }
    }
  }

  /** The enum helper as an object: fill updates it in place. */
  class PRTModifierEnum {
    var fields: seq<ME.EnumField>
    var bVals: seq<bool>
    var fVals: seq<M.Double>
    var sVals: seq<String>
    var restricted: bool

    constructor()
      ensures Snapshot() == EmptyTable()
    {
      fields, bVals, fVals, sVals, restricted := [], [], [], [], true;
    }

    function Snapshot(): Table
      reads this
    {
      Table(fields, bVals, fVals, sVals, restricted)
    }

    /** PRTModifierEnum::fill: one pass over the annotation's arguments. */
    method Fill(args: seq<AnnotationArg>)
      modifies this
      ensures Snapshot() == Filled(old(Snapshot()), args)
    {
      ghost var start := Snapshot();
      var t := Snapshot();
      t := t.(restricted := true);
      for i := 0 to |args|
        invariant t == Filled(start, args[..i])
      {
        assert args[..i + 1][..i] == args[..i];
        t := FillStep(t, args[i]);
      }
      assert args[..|args|] == args;
      fields, bVals, fVals, sVals, restricted := t.fields, t.bVals, t.fVals, t.sVals, t.restricted;
    }
  }

  // ---------------------------------------------------------------------
  // The slot of the rule default
  // ---------------------------------------------------------------------

  /** The default value of an enum attribute, by its primitive type. */
  datatype EnumDefault = BoolDefault(b: bool) | FloatDefault(x: real) | StringDefault(s: String)

  /** The number of slots the search walks: the length of the array of the
    * default's type. */
  function SlotCount(t: Table, d: EnumDefault): nat
  {
    match d
    case BoolDefault(_) => |t.bVals|
    case FloatDefault(_) => |t.fVals|
    case StringDefault(_) => |t.sVals|
  }

  /** Whether slot i holds the default: booleans and strings by equality,
    * doubles by IEEE equality, so a NaN slot never matches. */
  predicate SlotMatches(t: Table, d: EnumDefault, i: int)
  {
    match d
    case BoolDefault(b) => 0 <= i < |t.bVals| && t.bVals[i] == b
    case FloatDefault(x) => 0 <= i < |t.fVals| && M.DoubleEq(t.fVals[i], M.Num(x))
    case StringDefault(s) => 0 <= i < |t.sVals| && t.sVals[i] == s
  }

  /** The highest slot below n that holds the default, 0 when none does. */
  function LastMatch(t: Table, d: EnumDefault, n: nat): (r: nat)
    ensures (exists i :: 0 <= i < n && SlotMatches(t, d, i)) ==>
      r < n && SlotMatches(t, d, r) && forall j :: r < j < n ==> !SlotMatches(t, d, j)
    ensures (forall i :: 0 <= i < n ==> !SlotMatches(t, d, i)) ==> r == 0
  {
    if n == 0 then 0
    else if SlotMatches(t, d, n - 1) then n - 1
    else LastMatch(t, d, n - 1)
  }

  /** The three addEnumParameter overloads' search: downwards from the last
    * slot, stopping at the first match. */
  method DefaultIndex(t: Table, d: EnumDefault) returns (idx: nat)
    ensures idx == LastMatch(t, d, SlotCount(t, d))
  {
    idx := 0;
    var i: nat := SlotCount(t, d);
    while i > 0
      invariant i <= SlotCount(t, d)
      invariant LastMatch(t, d, SlotCount(t, d)) == LastMatch(t, d, i)
    {
      i := i - 1;
      if SlotMatches(t, d, i) {
        idx := i;
        return;
      }
    }
  }

  /** In a filled helper the search finds the field showing the default:
    * its number is the slot, and no later slot holds the default. */
  lemma DefaultIndexSelectsField(args: seq<AnnotationArg>, d: EnumDefault, i: nat)
    requires i < |Filled(EmptyTable(), args).fields| && SlotMatches(Filled(EmptyTable(), args), d, i)
    ensures var t := Filled(EmptyTable(), args);
            var idx := LastMatch(t, d, SlotCount(t, d));
            idx < |t.fields| && t.fields[idx].index == idx && SlotMatches(t, d, idx) && i <= idx
  {
    FilledKeepsLockstep(EmptyTable(), args);
  }

  /** addEnumParameter as written: the helper is new when the search runs,
    * and fill comes after it, inside the overload that creates the
    * attribute. */
  method AddEnumParameterAsWritten(args: seq<AnnotationArg>, d: EnumDefault) returns (e: PRTModifierEnum, idx: nat)
    ensures e.Snapshot() == Filled(EmptyTable(), args)
    ensures idx == LastMatch(EmptyTable(), d, SlotCount(EmptyTable(), d))
    ensures idx == 0
  {
    e := new PRTModifierEnum();
    idx := DefaultIndex(e.Snapshot(), d);
    e.Fill(args);
  }

  /** addEnumParameter with fill before the search. */
  method AddEnumParameter(args: seq<AnnotationArg>, d: EnumDefault) returns (e: PRTModifierEnum, idx: nat)
    ensures e.Snapshot() == Filled(EmptyTable(), args)
    ensures idx == LastMatch(Filled(EmptyTable(), args), d, SlotCount(Filled(EmptyTable(), args), d))
  {
    e := new PRTModifierEnum();
    e.Fill(args);
    idx := DefaultIndex(e.Snapshot(), d);
  }

  /** With @Enum("a", "b") and rule default "b", the search as written
    * makes field "a" the default; after fill it picks "b". */
  lemma EnumDefaultBeforeFill()
    ensures var args := [AnnotationArg(ME.NullKey, StrArg(Some("a"))), AnnotationArg(ME.NullKey, StrArg(Some("b")))];
            var t := Filled(EmptyTable(), args);
            var d := StringDefault("b");
            ME.FieldName(t.fields, LastMatch(EmptyTable(), d, SlotCount(EmptyTable(), d))) == "a" &&
            ME.FieldName(t.fields, LastMatch(t, d, SlotCount(t, d))) == "b"
  {
    var a0 := AnnotationArg(ME.NullKey, StrArg(Some("a")));
    var a1 := AnnotationArg(ME.NullKey, StrArg(Some("b")));
    var args := [a0, a1];
    assert args[..1] == [a0] && args[..1][..0] == [];
    var t1 := Filled(EmptyTable(), args[..1]);
    assert t1 == FillStep(Filled(EmptyTable(), []), a0);
    assert t1.fields == [ME.EnumField("a", 0)] && t1.sVals == ["a"];
    var t := Filled(EmptyTable(), args);
    assert t == FillStep(t1, a1);
    assert t.fields == [ME.EnumField("a", 0), ME.EnumField("b", 1)] && t.sVals == ["a", "b"];
    assert ME.FieldPosition(t.fields, 0) == Some(0);
    assert ME.FieldPosition(t.fields, 1) == Some(1);
    assert SlotMatches(t, StringDefault("b"), 1);
  }
}
