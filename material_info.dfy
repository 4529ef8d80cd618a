// Material identity: the MaterialInfo records read from a material's
// metadata handle, their equality (used to find an existing material) and,
// for the newer generation, their ordering.
//
// A `double` is either NaN or a number; only equality and ordering matter,
// so numbers are reals. IEEE comparison is modelled explicitly: NaN is
// neither equal to, less than nor greater than anything.

module Materials {
  import opened Text

  datatype Double = NaN | Num(v: real)

  /** IEEE `==`. */
  predicate DoubleEq(a: Double, b: Double) { a.Num? && b.Num? && a.v == b.v }

  /** IEEE `<`. */
  predicate DoubleLess(a: Double, b: Double) { a.Num? && b.Num? && a.v < b.v }

  /** Element-wise `==` of two std::array or std::vector values. */
  predicate ArrayEq(a: seq<Double>, b: seq<Double>)
  {
    |a| == |b| && forall i :: 0 <= i < |a| ==> DoubleEq(a[i], b[i])
  }

  /** std::lexicographical_compare with `<` on the elements: an element pair
    * that is neither less nor greater (equal, or involving NaN) moves on to
    * the next pair; a proper prefix is less. */
  predicate ArrayLess(a: seq<Double>, b: seq<Double>)
    decreases |a|
  {
    if |a| == 0 || |b| == 0 then |a| == 0 && |b| > 0
    else if DoubleLess(a[0], b[0]) then true
    else if DoubleLess(b[0], a[0]) then false
    else ArrayLess(a[1..], b[1..])
  }

  predicate NoNaN(a: seq<Double>) { forall i :: 0 <= i < |a| ==> a[i].Num? }

  /** The members of one element of the material metadata stream. A member
    * absent from a map is a member the handle cannot position on. */
  datatype Handle = Handle(texts: map<String, String>, doubles: map<String, seq<Double>>)

  /** getTexture: the member's text, or an empty path when it is missing. */
  function GetTexture(h: Handle, name: String): (r: String)
    ensures name !in h.texts ==> r == ""
    ensures name in h.texts ==> r == h.texts[name]
  {
    if name in h.texts then h.texts[name] else ""
  }

  /** getDouble: the member's first value, or NaN when it is missing or
    * empty. */
  function GetDouble(h: Handle, name: String): (r: Double)
    ensures (name !in h.doubles || |h.doubles[name]| == 0) ==> r.NaN?
    ensures name in h.doubles && |h.doubles[name]| > 0 ==> r == h.doubles[name][0]
  {
    if name in h.doubles && |h.doubles[name]| >= 1 then h.doubles[name][0] else NaN
  }

  function Zeros(n: nat): (r: seq<Double>)
    ensures |r| == n && forall i :: 0 <= i < n ==> r[i] == Num(0.0)
  {
    seq(n, _ => Num(0.0))
  }

  /** getDoubleArray<N>: the first N values, or N zeros when the member is
    * missing or shorter than N. */
  function GetDoubleArray(h: Handle, name: String, n: nat): (r: seq<Double>)
    ensures |r| == n
    ensures name in h.doubles && |h.doubles[name]| >= n ==> r == h.doubles[name][..n]
    ensures !(name in h.doubles && |h.doubles[name]| >= n) ==> r == Zeros(n)
  {
    if name in h.doubles && |h.doubles[name]| >= n then h.doubles[name][..n] else Zeros(n)
  }

  /** materials/MaterialInfo: ten texture paths, three scalars, four colours
    * of three values and ten texture transforms of five values. */
  datatype MaterialInfo = MaterialInfo(
    bumpMap: String, colormap: String, dirtmap: String, emissiveMap: String,
    metallicMap: String, normalMap: String, occlusionMap: String,
    opacityMap: String, roughnessMap: String, specularMap: String,
    opacity: Double, metallic: Double, roughness: Double,
    ambientColor: seq<Double>, diffuseColor: seq<Double>,
    emissiveColor: seq<Double>, specularColor: seq<Double>,
    specularmapTrafo: seq<Double>, bumpmapTrafo: seq<Double>,
    colormapTrafo: seq<Double>, dirtmapTrafo: seq<Double>,
    emissivemapTrafo: seq<Double>, metallicmapTrafo: seq<Double>,
    normalmapTrafo: seq<Double>, occlusionmapTrafo: seq<Double>,
    opacitymapTrafo: seq<Double>, roughnessmapTrafo: seq<Double>)

  /** The constructor: each field reads the member of the same name, except
    * that `colormap` reads "diffuseMap" and `dirtmap` reads "diffuseMap1". */
  function FromHandle(h: Handle): (m: MaterialInfo)
    ensures m.colormap == GetTexture(h, "diffuseMap")
    ensures m.dirtmap == GetTexture(h, "diffuseMap1")
    ensures |m.ambientColor| == 3 && |m.diffuseColor| == 3
    ensures |m.emissiveColor| == 3 && |m.specularColor| == 3
    ensures |m.colormapTrafo| == 5 && |m.specularmapTrafo| == 5
  {
    MaterialInfo(
      GetTexture(h, "bumpMap"), GetTexture(h, "diffuseMap"), GetTexture(h, "diffuseMap1"),
      GetTexture(h, "emissiveMap"), GetTexture(h, "metallicMap"), GetTexture(h, "normalMap"),
      GetTexture(h, "occlusionMap"), GetTexture(h, "opacityMap"), GetTexture(h, "roughnessMap"),
      GetTexture(h, "specularMap"),
      GetDouble(h, "opacity"), GetDouble(h, "metallic"), GetDouble(h, "roughness"),
      GetDoubleArray(h, "ambientColor", 3), GetDoubleArray(h, "diffuseColor", 3),
      GetDoubleArray(h, "emissiveColor", 3), GetDoubleArray(h, "specularColor", 3),
      GetDoubleArray(h, "specularmapTrafo", 5), GetDoubleArray(h, "bumpmapTrafo", 5),
      GetDoubleArray(h, "colormapTrafo", 5), GetDoubleArray(h, "dirtmapTrafo", 5),
      GetDoubleArray(h, "emissivemapTrafo", 5), GetDoubleArray(h, "metallicmapTrafo", 5),
      GetDoubleArray(h, "normalmapTrafo", 5), GetDoubleArray(h, "occlusionmapTrafo", 5),
      GetDoubleArray(h, "opacitymapTrafo", 5), GetDoubleArray(h, "roughnessmapTrafo", 5))
  }

  /** MaterialInfo::equals: the conjunction over all 27 fields. Doubles
    * compare with IEEE `==`, so a material holding a NaN equals nothing. */
  function Equals(a: MaterialInfo, o: MaterialInfo): (r: bool)
    ensures r ==> NaNFree(a) && NaNFree(o)
  {
    a.bumpMap == o.bumpMap && a.colormap == o.colormap && a.dirtmap == o.dirtmap &&
    a.emissiveMap == o.emissiveMap && a.metallicMap == o.metallicMap &&
    a.normalMap == o.normalMap && a.occlusionMap == o.occlusionMap &&
    a.opacityMap == o.opacityMap && a.roughnessMap == o.roughnessMap &&
    a.specularMap == o.specularMap &&
    DoubleEq(a.opacity, o.opacity) && DoubleEq(a.metallic, o.metallic) &&
    DoubleEq(a.roughness, o.roughness) &&
    ArrayEq(a.ambientColor, o.ambientColor) && ArrayEq(a.bumpmapTrafo, o.bumpmapTrafo) &&
    ArrayEq(a.colormapTrafo, o.colormapTrafo) && ArrayEq(a.diffuseColor, o.diffuseColor) &&
    ArrayEq(a.dirtmapTrafo, o.dirtmapTrafo) && ArrayEq(a.emissiveColor, o.emissiveColor) &&
    ArrayEq(a.emissivemapTrafo, o.emissivemapTrafo) &&
    ArrayEq(a.metallicmapTrafo, o.metallicmapTrafo) &&
    ArrayEq(a.normalmapTrafo, o.normalmapTrafo) &&
    ArrayEq(a.occlusionmapTrafo, o.occlusionmapTrafo) &&
    ArrayEq(a.opacitymapTrafo, o.opacitymapTrafo) &&
    ArrayEq(a.roughnessmapTrafo, o.roughnessmapTrafo) &&
    ArrayEq(a.specularColor, o.specularColor) &&
    ArrayEq(a.specularmapTrafo, o.specularmapTrafo)
  }

  /** No scalar is NaN and no colour or transform holds a NaN. */
  predicate NaNFree(m: MaterialInfo)
  {
    m.opacity.Num? && m.metallic.Num? && m.roughness.Num? &&
    NoNaN(m.ambientColor) && NoNaN(m.diffuseColor) && NoNaN(m.emissiveColor) &&
    NoNaN(m.specularColor) && NoNaN(m.specularmapTrafo) && NoNaN(m.bumpmapTrafo) &&
    NoNaN(m.colormapTrafo) && NoNaN(m.dirtmapTrafo) && NoNaN(m.emissivemapTrafo) &&
    NoNaN(m.metallicmapTrafo) && NoNaN(m.normalmapTrafo) && NoNaN(m.occlusionmapTrafo) &&
    NoNaN(m.opacitymapTrafo) && NoNaN(m.roughnessmapTrafo)
  }

  lemma ArrayEqSame(a: seq<Double>, b: seq<Double>)
    ensures ArrayEq(a, b) ==> a == b
    ensures ArrayEq(a, a) <==> NoNaN(a)
  {
    if ArrayEq(a, b) {
      assert forall i :: 0 <= i < |a| ==> a[i] == b[i];
    }
  }

  /** Equal infos are identical records. */
  lemma EqualsIsIdentity(a: MaterialInfo, b: MaterialInfo)
    ensures Equals(a, b) ==> a == b
    ensures a == b ==> (Equals(a, b) <==> NaNFree(a))
  {
    ArrayEqSame(a.ambientColor, b.ambientColor);
    ArrayEqSame(a.diffuseColor, b.diffuseColor);
    ArrayEqSame(a.emissiveColor, b.emissiveColor);
    ArrayEqSame(a.specularColor, b.specularColor);
    ArrayEqSame(a.specularmapTrafo, b.specularmapTrafo);
    ArrayEqSame(a.bumpmapTrafo, b.bumpmapTrafo);
    ArrayEqSame(a.colormapTrafo, b.colormapTrafo);
    ArrayEqSame(a.dirtmapTrafo, b.dirtmapTrafo);
    ArrayEqSame(a.emissivemapTrafo, b.emissivemapTrafo);
    ArrayEqSame(a.metallicmapTrafo, b.metallicmapTrafo);
    ArrayEqSame(a.normalmapTrafo, b.normalmapTrafo);
    ArrayEqSame(a.occlusionmapTrafo, b.occlusionmapTrafo);
    ArrayEqSame(a.opacitymapTrafo, b.opacitymapTrafo);
    ArrayEqSame(a.roughnessmapTrafo, b.roughnessmapTrafo);
  }

  /** A material read from a handle without "opacity", "metallic" or
    * "roughness" is not even equal to itself, so it never matches an
    * existing material. */
  lemma MissingScalarNeverEqual(h: Handle)
    requires "opacity" !in h.doubles || "metallic" !in h.doubles || "roughness" !in h.doubles
    ensures !Equals(FromHandle(h), FromHandle(h))
  {
    EqualsIsIdentity(FromHandle(h), FromHandle(h));
  }

  /** One step of operator<: a texture path, a scalar, a colour or a
    * transform. Texture paths compare as strings. */
  datatype Key = TextKey(s: String) | ScalarKey(d: Double) | ArrayKey(a: seq<Double>)

  /** `<` on one key; no key sorts before itself. */
  function KeyLess(x: Key, y: Key): (r: bool)
    ensures x == y ==> !r
  {
    match (x, y)
    case (TextKey(s), TextKey(t)) => LexLessIrreflexive(s); LexLess(s, t)
    case (ScalarKey(d), ScalarKey(e)) => DoubleLess(d, e)
    case (ArrayKey(a), ArrayKey(b)) => ArrayLessIrreflexive(a); ArrayLess(a, b)
    case _ => false
  }

  /** The chain of comparisons: "if (x > y) return false; if (x < y) return
    * true;" per key, and false when every key ties. */
  predicate ChainLess(xs: seq<Key>, ys: seq<Key>)
    requires |xs| == |ys|
    decreases |xs|
  {
    if |xs| == 0 then false
    else if KeyLess(ys[0], xs[0]) then false
    else if KeyLess(xs[0], ys[0]) then true
    else ChainLess(xs[1..], ys[1..])
  }

  function TextureKeys(m: MaterialInfo): (r: seq<Key>)
    ensures |r| == 10
  {
    [TextKey(m.bumpMap), TextKey(m.colormap), TextKey(m.dirtmap), TextKey(m.emissiveMap),
     TextKey(m.metallicMap), TextKey(m.normalMap), TextKey(m.occlusionMap),
     TextKey(m.opacityMap), TextKey(m.roughnessMap), TextKey(m.specularMap)]
  }

  function ScalarAndColorKeys(m: MaterialInfo): (r: seq<Key>)
    ensures |r| == 7
  {
    [ScalarKey(m.opacity), ScalarKey(m.metallic), ScalarKey(m.roughness),
     ArrayKey(m.ambientColor), ArrayKey(m.diffuseColor), ArrayKey(m.emissiveColor),
     ArrayKey(m.specularColor)]
  }

  /** The transforms in the order operator< visits them, minus the last one. */
  function TrafoKeys(m: MaterialInfo): (r: seq<Key>)
    ensures |r| == 9
  {
    [ArrayKey(m.specularmapTrafo), ArrayKey(m.bumpmapTrafo), ArrayKey(m.dirtmapTrafo),
     ArrayKey(m.emissivemapTrafo), ArrayKey(m.metallicmapTrafo), ArrayKey(m.normalmapTrafo),
     ArrayKey(m.occlusionmapTrafo), ArrayKey(m.opacitymapTrafo), ArrayKey(m.roughnessmapTrafo)]
  }

  /** The keys operator< compares as written: the transform list ends with
    * specularmapTrafo a second time and colormapTrafo is never visited. */
  function KeysAsWritten(m: MaterialInfo): (r: seq<Key>)
    ensures |r| == 27
  {
    TextureKeys(m) + ScalarAndColorKeys(m) + TrafoKeys(m) + [ArrayKey(m.specularmapTrafo)]
  }

  /** MaterialInfo::operator< as written; no material sorts before itself. */
  function LessAsWritten(a: MaterialInfo, b: MaterialInfo): (r: bool)
    ensures a == b ==> !r
  {
    ChainLessIrreflexive(KeysAsWritten(a));
    ChainLess(KeysAsWritten(a), KeysAsWritten(b))
  }

  /** The keys with the second specularmapTrafo replaced by colormapTrafo,
    * so that every field of `equals` takes part. */
  function Keys(m: MaterialInfo): (r: seq<Key>)
    ensures |r| == 27
  {
    TextureKeys(m) + ScalarAndColorKeys(m) + TrafoKeys(m) + [ArrayKey(m.colormapTrafo)]
  }

  /** The corrected ordering; no material sorts before itself. */
  function Less(a: MaterialInfo, b: MaterialInfo): (r: bool)
    ensures a == b ==> !r
  {
    ChainLessIrreflexive(Keys(a));
    ChainLess(Keys(a), Keys(b))
  }

  // ---- properties of the building blocks ----

  lemma {:induction false} ArrayLessIrreflexive(a: seq<Double>)
    ensures !ArrayLess(a, a)
    decreases |a|
  {
    if |a| > 0 { ArrayLessIrreflexive(a[1..]); }
  }

  lemma {:induction false} ArrayLessAsymmetric(a: seq<Double>, b: seq<Double>)
    ensures ArrayLess(a, b) ==> !ArrayLess(b, a)
    decreases |a|
  {
    if |a| > 0 && |b| > 0 { ArrayLessAsymmetric(a[1..], b[1..]); }
  }

  /** Without NaN, two arrays that are neither less nor greater are equal. */
  lemma {:induction false} ArrayLessTotal(a: seq<Double>, b: seq<Double>)
    requires NoNaN(a) && NoNaN(b)
    ensures a == b || ArrayLess(a, b) || ArrayLess(b, a)
    decreases |a|
  {
    if |a| > 0 && |b| > 0 {
      assert a[0].Num? && b[0].Num?;
      ArrayLessTotal(a[1..], b[1..]);
      if a[0] == b[0] && a[1..] == b[1..] {
        assert a == [a[0]] + a[1..] && b == [b[0]] + b[1..];
      }
    }
  }

  lemma KeyLessAsymmetric(x: Key, y: Key)
    ensures KeyLess(x, y) ==> !KeyLess(y, x)
  {
    match (x, y)
    case (TextKey(s), TextKey(t)) => LexLessAsymmetric(s, t);
    case (ArrayKey(a), ArrayKey(b)) => ArrayLessAsymmetric(a, b);
    case _ =>
  }

  predicate KeyNaNFree(x: Key)
  {
    match x
    case TextKey(_) => true
    case ScalarKey(d) => d.Num?
    case ArrayKey(a) => NoNaN(a)
  }

  predicate SameKind(x: Key, y: Key)
  {
    (x.TextKey? && y.TextKey?) || (x.ScalarKey? && y.ScalarKey?) || (x.ArrayKey? && y.ArrayKey?)
  }

  lemma KeyLessTotal(x: Key, y: Key)
    requires KeyNaNFree(x) && KeyNaNFree(y) && SameKind(x, y)
    ensures x == y || KeyLess(x, y) || KeyLess(y, x)
  {
    match (x, y)
    case (TextKey(s), TextKey(t)) => LexLessTotal(s, t);
    case (ArrayKey(a), ArrayKey(b)) => ArrayLessTotal(a, b);
    case (ScalarKey(d), ScalarKey(e)) =>
  }

  lemma {:induction false} ChainLessIrreflexive(xs: seq<Key>)
    ensures !ChainLess(xs, xs)
    decreases |xs|
  {
    if |xs| > 0 {
      ChainLessIrreflexive(xs[1..]);
    }
  }

  lemma {:induction false} ChainLessAsymmetric(xs: seq<Key>, ys: seq<Key>)
    requires |xs| == |ys|
    ensures ChainLess(xs, ys) ==> !ChainLess(ys, xs)
    decreases |xs|
  {
    if |xs| > 0 {
      KeyLessAsymmetric(xs[0], ys[0]);
      ChainLessAsymmetric(xs[1..], ys[1..]);
    }
  }

  lemma {:induction false} ChainLessTotal(xs: seq<Key>, ys: seq<Key>)
    requires PiecesWellFormed(xs, ys)
    ensures xs == ys || ChainLess(xs, ys) || ChainLess(ys, xs)
    decreases |xs|
  {
    if |xs| > 0 {
      KeyLessTotal(xs[0], ys[0]);
      KeyLessAsymmetric(xs[0], ys[0]);
      ChainLessTotal(xs[1..], ys[1..]);
      if xs[0] == ys[0] && xs[1..] == ys[1..] {
        assert xs == [xs[0]] + xs[1..] && ys == [ys[0]] + ys[1..];
      }
    }
  }

  // ---- the ordering as written ----

  /** operator< as written never looks at colormapTrafo: two infos that
    * differ only there are mutually not-less. */
  lemma AsWrittenIgnoresColormapTrafo(a: MaterialInfo, t: seq<Double>)
    ensures !LessAsWritten(a, a.(colormapTrafo := t))
    ensures !LessAsWritten(a.(colormapTrafo := t), a)
  {
    var b := a.(colormapTrafo := t);
    assert KeysAsWritten(b) == KeysAsWritten(a);
    ChainLessIrreflexive(KeysAsWritten(a));
  }

  /** A concrete pair: all-zero materials that differ only in the first
    * colormapTrafo value are NaN-free and not `equals`, yet operator< as
    * written ranks neither below the other, so an ordered container keyed
    * on it would take them for the same material. */
  lemma ColormapTrafoCounterexample()
    ensures var a := MaterialInfo("", "", "", "", "", "", "", "", "", "",
              Num(0.0), Num(0.0), Num(0.0), Zeros(3), Zeros(3), Zeros(3), Zeros(3),
              Zeros(5), Zeros(5), Zeros(5), Zeros(5), Zeros(5), Zeros(5), Zeros(5),
              Zeros(5), Zeros(5), Zeros(5));
            var b := a.(colormapTrafo := [Num(1.0)] + Zeros(4));
            NaNFree(a) && NaNFree(b) && !Equals(a, b) &&
            !LessAsWritten(a, b) && !LessAsWritten(b, a)
  {
    var a := MaterialInfo("", "", "", "", "", "", "", "", "", "",
              Num(0.0), Num(0.0), Num(0.0), Zeros(3), Zeros(3), Zeros(3), Zeros(3),
              Zeros(5), Zeros(5), Zeros(5), Zeros(5), Zeros(5), Zeros(5), Zeros(5),
              Zeros(5), Zeros(5), Zeros(5));
    var t := [Num(1.0)] + Zeros(4);
    assert !DoubleEq(a.colormapTrafo[0], t[0]);
    AsWrittenIgnoresColormapTrafo(a, t);
  }

  // ---- the corrected ordering ----

  lemma TextureKeysCover(a: MaterialInfo, b: MaterialInfo)
    requires TextureKeys(a) == TextureKeys(b)
    ensures a.bumpMap == b.bumpMap && a.colormap == b.colormap && a.dirtmap == b.dirtmap
    ensures a.emissiveMap == b.emissiveMap && a.metallicMap == b.metallicMap
    ensures a.normalMap == b.normalMap && a.occlusionMap == b.occlusionMap
    ensures a.opacityMap == b.opacityMap && a.roughnessMap == b.roughnessMap
    ensures a.specularMap == b.specularMap
  {
    var x, y := TextureKeys(a), TextureKeys(b);
    assert x[0] == y[0] && x[1] == y[1] && x[2] == y[2] && x[3] == y[3] && x[4] == y[4];
    assert x[5] == y[5] && x[6] == y[6] && x[7] == y[7] && x[8] == y[8] && x[9] == y[9];
  }

  lemma ScalarAndColorKeysCover(a: MaterialInfo, b: MaterialInfo)
    requires ScalarAndColorKeys(a) == ScalarAndColorKeys(b)
    ensures a.opacity == b.opacity && a.metallic == b.metallic && a.roughness == b.roughness
    ensures a.ambientColor == b.ambientColor && a.diffuseColor == b.diffuseColor
    ensures a.emissiveColor == b.emissiveColor && a.specularColor == b.specularColor
  {
    var x, y := ScalarAndColorKeys(a), ScalarAndColorKeys(b);
    assert x[0] == y[0] && x[1] == y[1] && x[2] == y[2] && x[3] == y[3];
    assert x[4] == y[4] && x[5] == y[5] && x[6] == y[6];
  }

  lemma TrafoKeysCover(a: MaterialInfo, b: MaterialInfo)
    requires TrafoKeys(a) == TrafoKeys(b)
    ensures a.specularmapTrafo == b.specularmapTrafo && a.bumpmapTrafo == b.bumpmapTrafo
    ensures a.dirtmapTrafo == b.dirtmapTrafo && a.emissivemapTrafo == b.emissivemapTrafo
    ensures a.metallicmapTrafo == b.metallicmapTrafo && a.normalmapTrafo == b.normalmapTrafo
    ensures a.occlusionmapTrafo == b.occlusionmapTrafo && a.opacitymapTrafo == b.opacitymapTrafo
    ensures a.roughnessmapTrafo == b.roughnessmapTrafo
  {
    var x, y := TrafoKeys(a), TrafoKeys(b);
    assert x[0] == y[0] && x[1] == y[1] && x[2] == y[2] && x[3] == y[3] && x[4] == y[4];
    assert x[5] == y[5] && x[6] == y[6] && x[7] == y[7] && x[8] == y[8];
  }

  /** The corrected keys determine the whole record. */
  lemma KeysCoverFields(a: MaterialInfo, b: MaterialInfo)
    requires Keys(a) == Keys(b)
    ensures a == b
  {
    assert TextureKeys(a) == Keys(a)[..10] && TextureKeys(b) == Keys(b)[..10];
    assert ScalarAndColorKeys(a) == Keys(a)[10..17] && ScalarAndColorKeys(b) == Keys(b)[10..17];
    assert TrafoKeys(a) == Keys(a)[17..26] && TrafoKeys(b) == Keys(b)[17..26];
    assert Keys(a)[26] == Keys(b)[26];
    TextureKeysCover(a, b);
    ScalarAndColorKeysCover(a, b);
    TrafoKeysCover(a, b);
  }

  predicate PiecesWellFormed(x: seq<Key>, y: seq<Key>)
  {
    |x| == |y| &&
    forall i :: 0 <= i < |x| ==> KeyNaNFree(x[i]) && KeyNaNFree(y[i]) && SameKind(x[i], y[i])
  }

  lemma PiecesAppend(x: seq<Key>, y: seq<Key>, x2: seq<Key>, y2: seq<Key>)
    requires PiecesWellFormed(x, y) && PiecesWellFormed(x2, y2)
    ensures PiecesWellFormed(x + x2, y + y2)
  {
    forall i | 0 <= i < |x + x2|
      ensures KeyNaNFree((x + x2)[i]) && KeyNaNFree((y + y2)[i]) && SameKind((x + x2)[i], (y + y2)[i])
    {
      if i >= |x| {
        assert (x + x2)[i] == x2[i - |x|] && (y + y2)[i] == y2[i - |x|];
      }
    }
  }

  lemma KeysWellFormed(a: MaterialInfo, b: MaterialInfo)
    requires NaNFree(a) && NaNFree(b)
    ensures PiecesWellFormed(Keys(a), Keys(b))
  {
    assert PiecesWellFormed(TextureKeys(a), TextureKeys(b));
    assert PiecesWellFormed(ScalarAndColorKeys(a), ScalarAndColorKeys(b));
    assert PiecesWellFormed(TrafoKeys(a), TrafoKeys(b));
    assert PiecesWellFormed([ArrayKey(a.colormapTrafo)], [ArrayKey(b.colormapTrafo)]);
    PiecesAppend(TextureKeys(a), TextureKeys(b), ScalarAndColorKeys(a), ScalarAndColorKeys(b));
    PiecesAppend(TextureKeys(a) + ScalarAndColorKeys(a), TextureKeys(b) + ScalarAndColorKeys(b),
      TrafoKeys(a), TrafoKeys(b));
    PiecesAppend(TextureKeys(a) + ScalarAndColorKeys(a) + TrafoKeys(a),
      TextureKeys(b) + ScalarAndColorKeys(b) + TrafoKeys(b),
      [ArrayKey(a.colormapTrafo)], [ArrayKey(b.colormapTrafo)]);
  }

  /** The corrected operator< is a strict order whose incomparable pairs are
    * exactly the `equals` pairs, for NaN-free materials; it is irreflexive
    * and asymmetric for all materials. */
  lemma LessTrichotomy(a: MaterialInfo, b: MaterialInfo)
    requires NaNFree(a) && NaNFree(b)
    ensures Equals(a, b) <==> !Less(a, b) && !Less(b, a)
  {
    KeysWellFormed(a, b);
    ChainLessTotal(Keys(a), Keys(b));
    ChainLessAsymmetric(Keys(a), Keys(b));
    EqualsIsIdentity(a, b);
    if Keys(a) == Keys(b) {
      KeysCoverFields(a, b);
    }
    if Equals(a, b) {
      ChainLessIrreflexive(Keys(a));
    }
  }

  lemma LessStrict(a: MaterialInfo, b: MaterialInfo)
    ensures !Less(a, a)
    ensures Less(a, b) ==> !Less(b, a)
  {
    ChainLessIrreflexive(Keys(a));
    ChainLessAsymmetric(Keys(a), Keys(b));
  }
}

// The older generation: colours and transforms are vectors that are either
// complete or empty, and there is no ordering.
module PrtMaterials {
  import opened Text
  import M = Materials

  /** getDoubleVector: exactly `numElements` leading values, or nothing when
    * the member is missing or shorter. */
  function GetDoubleVector(h: M.Handle, name: String, numElements: nat): (r: seq<M.Double>)
    ensures |r| == numElements || |r| == 0
    ensures |r| == numElements <==> numElements == 0 || (name in h.doubles && |h.doubles[name]| >= numElements)
    ensures |r| == numElements ==> forall i :: 0 <= i < numElements ==> r[i] == h.doubles[name][i]
  {
    if name in h.doubles && |h.doubles[name]| >= numElements then h.doubles[name][..numElements] else []
  }

  datatype MaterialInfo = MaterialInfo(
    bumpMap: String, colormap: String, dirtmap: String, emissiveMap: String,
    metallicMap: String, normalMap: String, occlusionMap: String,
    opacityMap: String, roughnessMap: String, specularMap: String,
    opacity: M.Double, metallic: M.Double, roughness: M.Double,
    ambientColor: seq<M.Double>, bumpmapTrafo: seq<M.Double>,
    colormapTrafo: seq<M.Double>, diffuseColor: seq<M.Double>,
    dirtmapTrafo: seq<M.Double>, emissiveColor: seq<M.Double>,
    emissivemapTrafo: seq<M.Double>, metallicmapTrafo: seq<M.Double>,
    normalmapTrafo: seq<M.Double>, occlusionmapTrafo: seq<M.Double>,
    opacitymapTrafo: seq<M.Double>, roughnessmapTrafo: seq<M.Double>,
    specularColor: seq<M.Double>, specularmapTrafo: seq<M.Double>)

  /** The constructor, with the same member names as the newer generation. */
  function FromHandle(h: M.Handle): (m: MaterialInfo)
    ensures m.colormap == M.GetTexture(h, "diffuseMap")
    ensures m.dirtmap == M.GetTexture(h, "diffuseMap1")
  {
    MaterialInfo(
      M.GetTexture(h, "bumpMap"), M.GetTexture(h, "diffuseMap"), M.GetTexture(h, "diffuseMap1"),
      M.GetTexture(h, "emissiveMap"), M.GetTexture(h, "metallicMap"), M.GetTexture(h, "normalMap"),
      M.GetTexture(h, "occlusionMap"), M.GetTexture(h, "opacityMap"),
      M.GetTexture(h, "roughnessMap"), M.GetTexture(h, "specularMap"),
      M.GetDouble(h, "opacity"), M.GetDouble(h, "metallic"), M.GetDouble(h, "roughness"),
      GetDoubleVector(h, "ambientColor", 3), GetDoubleVector(h, "bumpmapTrafo", 5),
      GetDoubleVector(h, "colormapTrafo", 5), GetDoubleVector(h, "diffuseColor", 3),
      GetDoubleVector(h, "dirtmapTrafo", 5), GetDoubleVector(h, "emissiveColor", 3),
      GetDoubleVector(h, "emissivemapTrafo", 5), GetDoubleVector(h, "metallicmapTrafo", 5),
      GetDoubleVector(h, "normalmapTrafo", 5), GetDoubleVector(h, "occlusionmapTrafo", 5),
      GetDoubleVector(h, "opacitymapTrafo", 5), GetDoubleVector(h, "roughnessmapTrafo", 5),
      GetDoubleVector(h, "specularColor", 3), GetDoubleVector(h, "specularmapTrafo", 5))
  }

  /** MaterialInfo::equals: the conjunction over all 27 fields; vectors of
    * different lengths differ. */
  predicate Equals(a: MaterialInfo, o: MaterialInfo)
  {
    a.bumpMap == o.bumpMap && a.colormap == o.colormap && a.dirtmap == o.dirtmap &&
    a.emissiveMap == o.emissiveMap && a.metallicMap == o.metallicMap &&
    a.normalMap == o.normalMap && a.occlusionMap == o.occlusionMap &&
    a.opacityMap == o.opacityMap && a.roughnessMap == o.roughnessMap &&
    a.specularMap == o.specularMap &&
    M.DoubleEq(a.opacity, o.opacity) && M.DoubleEq(a.metallic, o.metallic) &&
    M.DoubleEq(a.roughness, o.roughness) &&
    M.ArrayEq(a.ambientColor, o.ambientColor) && M.ArrayEq(a.bumpmapTrafo, o.bumpmapTrafo) &&
    M.ArrayEq(a.colormapTrafo, o.colormapTrafo) && M.ArrayEq(a.diffuseColor, o.diffuseColor) &&
    M.ArrayEq(a.dirtmapTrafo, o.dirtmapTrafo) && M.ArrayEq(a.emissiveColor, o.emissiveColor) &&
    M.ArrayEq(a.emissivemapTrafo, o.emissivemapTrafo) &&
    M.ArrayEq(a.metallicmapTrafo, o.metallicmapTrafo) &&
    M.ArrayEq(a.normalmapTrafo, o.normalmapTrafo) &&
    M.ArrayEq(a.occlusionmapTrafo, o.occlusionmapTrafo) &&
    M.ArrayEq(a.opacitymapTrafo, o.opacitymapTrafo) &&
    M.ArrayEq(a.roughnessmapTrafo, o.roughnessmapTrafo) &&
    M.ArrayEq(a.specularColor, o.specularColor) &&
    M.ArrayEq(a.specularmapTrafo, o.specularmapTrafo)
  }

  predicate NaNFree(m: MaterialInfo)
  {
    m.opacity.Num? && m.metallic.Num? && m.roughness.Num? &&
    M.NoNaN(m.ambientColor) && M.NoNaN(m.bumpmapTrafo) && M.NoNaN(m.colormapTrafo) &&
    M.NoNaN(m.diffuseColor) && M.NoNaN(m.dirtmapTrafo) && M.NoNaN(m.emissiveColor) &&
    M.NoNaN(m.emissivemapTrafo) && M.NoNaN(m.metallicmapTrafo) && M.NoNaN(m.normalmapTrafo) &&
    M.NoNaN(m.occlusionmapTrafo) && M.NoNaN(m.opacitymapTrafo) &&
    M.NoNaN(m.roughnessmapTrafo) && M.NoNaN(m.specularColor) && M.NoNaN(m.specularmapTrafo)
  }

  /** equals holds exactly between identical NaN-free infos: it is
    * symmetric and transitive, and reflexive only without NaN. */
  lemma EqualsIsIdentity(a: MaterialInfo, b: MaterialInfo)
    ensures Equals(a, b) <==> a == b && NaNFree(a)
  {
    M.ArrayEqSame(a.ambientColor, b.ambientColor);
    M.ArrayEqSame(a.bumpmapTrafo, b.bumpmapTrafo);
    M.ArrayEqSame(a.colormapTrafo, b.colormapTrafo);
    M.ArrayEqSame(a.diffuseColor, b.diffuseColor);
    M.ArrayEqSame(a.dirtmapTrafo, b.dirtmapTrafo);
    M.ArrayEqSame(a.emissiveColor, b.emissiveColor);
    M.ArrayEqSame(a.emissivemapTrafo, b.emissivemapTrafo);
    M.ArrayEqSame(a.metallicmapTrafo, b.metallicmapTrafo);
    M.ArrayEqSame(a.normalmapTrafo, b.normalmapTrafo);
    M.ArrayEqSame(a.occlusionmapTrafo, b.occlusionmapTrafo);
    M.ArrayEqSame(a.opacitymapTrafo, b.opacitymapTrafo);
    M.ArrayEqSame(a.roughnessmapTrafo, b.roughnessmapTrafo);
    M.ArrayEqSame(a.specularColor, b.specularColor);
    M.ArrayEqSame(a.specularmapTrafo, b.specularmapTrafo);
  }

  /** A handle missing one of the scalars yields an info that matches no
    * material, not even one read from the same handle. */
  lemma MissingScalarNeverEqual(h: M.Handle, o: MaterialInfo)
    requires "opacity" !in h.doubles || "metallic" !in h.doubles || "roughness" !in h.doubles
    ensures !Equals(FromHandle(h), o)
  {
    EqualsIsIdentity(FromHandle(h), o);
  }

  /** toMString: each value in [offset, min(|d|, offset + size)) rendered
    * by `fmt` and followed by one space. MString's rendering of a double
    * is a parameter. */
  function ValuesText(d: seq<M.Double>, size: nat, offset: nat, fmt: M.Double -> String): (r: String)
    decreases size
  {
    if size == 0 || offset >= |d| then ""
    else fmt(d[offset]) + " " + ValuesText(d, size - 1, offset + 1, fmt)
  }

  /** The number of values rendered. */
  function RenderedCount(n: nat, size: nat, offset: nat): nat
  {
    if offset >= n then 0 else if n - offset < size then n - offset else size
  }

  function CountChar(s: String, c: char): nat
  {
    if |s| == 0 then 0 else (if s[0] == c then 1 else 0) + CountChar(s[1..], c)
  }

  lemma {:induction false} CountCharAppend(s: String, t: String, c: char)
    ensures CountChar(s + t, c) == CountChar(s, c) + CountChar(t, c)
    decreases |s|
  {
    if |s| > 0 {
      assert (s + t)[0] == s[0];
      assert (s + t)[1..] == s[1..] + t;
      CountCharAppend(s[1..], t, c);
    } else {
      assert s + t == t;
    }
  }

  /** When the rendering never produces a space, the text holds exactly one
    * space per rendered value. */
  lemma {:induction false} ValuesTextSpaces(d: seq<M.Double>, size: nat, offset: nat, fmt: M.Double -> String)
    requires forall x :: ' ' !in fmt(x)
    ensures CountChar(ValuesText(d, size, offset, fmt), ' ') == RenderedCount(|d|, size, offset)
    decreases size
  {
    if size > 0 && offset < |d| {
      var head := fmt(d[offset]);
      ValuesTextSpaces(d, size - 1, offset + 1, fmt);
      CountCharAppend(head, " ", ' ');
      CountCharAppend(head + " ", ValuesText(d, size - 1, offset + 1, fmt), ' ');
      assert CountChar(head, ' ') == 0 by { NoCharCount(head, ' '); }
      assert CountChar(" ", ' ') == 1;
    }
  }

  lemma {:induction false} NoCharCount(s: String, c: char)
    requires c !in s
    ensures CountChar(s, c) == 0
    decreases |s|
  {
    if |s| > 0 {
      assert c !in s[1..];
      NoCharCount(s[1..], c);
    }
  }

  /** The loop of toMString, appending value and space one index at a
    * time. */
  method ToMString(d: seq<M.Double>, size: nat, offset: nat, fmt: M.Double -> String) returns (colString: String)
    ensures colString == ValuesText(d, size, offset, fmt)
  {
    colString := "";
    var i := offset;
    while i < |d| && i < offset + size
      invariant offset <= i
      invariant i <= offset + size
      invariant colString + ValuesText(d, offset + size - i, i, fmt) == ValuesText(d, size, offset, fmt)
      decreases offset + size - i
    {
      colString := colString + (fmt(d[i]) + " ");
      i := i + 1;
    }
  }
}
