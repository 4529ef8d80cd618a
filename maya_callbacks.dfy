// The generation callbacks of the newer modifier (src/serlio/modifiers/
// MayaCallbacks.cpp): the result-path contract of addAsset, the conversion
// of index buffers, the face-vertex layout of normals, the order in which UV
// sets are created, and the layout of the per-face-range material metadata.

module MayaCallbacks {
  import opened Wrappers
  import opened Text
  import AC = AssetCache

  // ---------------------------------------------------------------------
  // addAsset
  // ---------------------------------------------------------------------

  const Nul: char := '\0'

  /** The text of a NUL-terminated buffer: everything before its first NUL. */
  function CString(buf: seq<char>): (s: String)
    ensures Nul !in s && IsPrefix(s, buf)
  {
    if |buf| == 0 || buf[0] == Nul then [] else [buf[0]] + CString(buf[1..])
  }

  lemma {:induction false} CStringOfTerminated(s: String, rest: seq<char>)
    requires Nul !in s
    ensures CString(s + [Nul] + rest) == s
    decreases |s|
  {
    if |s| > 0 {
      assert (s + [Nul] + rest)[1..] == s[1..] + [Nul] + rest;
      CStringOfTerminated(s[1..], rest);
    }
  }

  /** The slots copyStringToWCharPtr (the MSVC branch) writes as written:
    * a size too small for the text and its terminator is grown to fit them,
    * wcsncpy_s copies the text and a NUL with that grown size as the
    * destination size, and the slot at the size minus one is cleared. */
  function CopyExtentAsWritten(inputLength: nat, resultSize: nat): (slots: nat)
    ensures slots >= inputLength + 1 && slots >= resultSize
    ensures resultSize > inputLength ==> slots == resultSize
  {
    if resultSize <= inputLength then inputLength + 1 else resultSize
  }

  /** As written, a caller's buffer of `resultSize` slots too small for the
    * text and its terminator is written past its end. */
  lemma CopyOverrunsBuffer(input: String, resultSize: nat)
    requires resultSize <= |input|
    ensures CopyExtentAsWritten(|input|, resultSize) > resultSize
    ensures CopyExtentAsWritten(|input|, resultSize) - resultSize == |input| + 1 - resultSize
  {
  }

  /** copyStringToWCharPtr, corrected: the required size (text plus
    * terminator) is always reported; a buffer of `resultSize` slots that
    * cannot hold it is left alone, and otherwise the text and a NUL are
    * copied and the slot at `resultSize` minus one is cleared. Nothing at or
    * beyond `resultSize` is written. */
  method CopyStringToWCharPtr(input: String, result: array<char>, resultSize: nat) returns (newSize: nat)
    requires resultSize <= result.Length
    modifies result
    ensures newSize == |input| + 1
    ensures resultSize <= |input| ==> result[..] == old(result[..])
    ensures |input| < resultSize ==> result[..|input|] == input && result[|input|] == Nul && result[resultSize - 1] == Nul
    ensures forall k :: |input| < k < result.Length && k != resultSize - 1 ==> result[k] == old(result[k])
    ensures forall k :: resultSize <= k < result.Length ==> result[k] == old(result[k])
    ensures |input| < resultSize && Nul !in input ==> CString(result[..]) == input
  {
    newSize := |input| + 1;
    if resultSize <= |input| {
      return;
    }
    for i := 0 to |input|
      invariant result[..i] == input[..i]
      invariant forall k :: i <= k < result.Length ==> result[k] == old(result[k])
    {
      result[i] := input[i];
    }
    result[|input|] := Nul;
    result[resultSize - 1] := Nul;
    assert result[..] == input + [Nul] + result[|input| + 1..];
    if Nul !in input {
      CStringOfTerminated(input, result[|input| + 1..]);
    }
  }

  /** A uri or file name that is null or empty. */
  predicate Invalid(s: Option<String>)
  {
    s.None? || s.value == []
  }

  /** addAsset: an invalid uri or file name, or an asset the cache could not
    * write, reports size 0 and writes nothing; otherwise the size the cached
    * path needs is reported and the path copied into the caller's buffer
    * when it fits. */
  method AddAsset(uri: Option<String>, fileName: Option<String>, buffer: seq<AC.Byte>, hasher: seq<AC.Byte> -> nat,
                  cache: AC.AssetCache, fs: AC.FileSystem, workspaceRoot: String, write: AC.WriteResult,
                  removeSucceeds: bool, result: array<char>, resultSize: nat) returns (newSize: nat)
    requires resultSize <= result.Length
    modifies cache, fs, result
    ensures Invalid(uri) || Invalid(fileName) ==>
      newSize == 0 && unchanged(cache) && unchanged(fs) && unchanged(result)
    ensures !Invalid(uri) && !Invalid(fileName) ==>
      var o := AC.PutSpec(old(cache.cache), old(fs.files), uri.value, fileName.value, buffer, hasher(buffer),
                          workspaceRoot, write, removeSucceeds);
      cache.cache == o.table && fs.files == o.files &&
      (o.path == [] ==> newSize == 0 && result[..] == old(result[..])) &&
      (o.path != [] ==> newSize == |o.path| + 1) &&
      (o.path != [] && |o.path| < resultSize ==> result[..|o.path|] == o.path && result[|o.path|] == Nul) &&
      (o.path != [] && resultSize <= |o.path| ==> result[..] == old(result[..]))
  {
    if Invalid(uri) || Invalid(fileName) {
      return 0;
    }
    ghost var o := AC.PutSpec(cache.cache, fs.files, uri.value, fileName.value, buffer, hasher(buffer),
                              workspaceRoot, write, removeSucceeds);
    var assetPath := cache.Put(uri.value, fileName.value, buffer, hasher, fs, workspaceRoot, write, removeSucceeds);
    assert assetPath == o.path;
    if assetPath == [] {
      return 0;
    }
    newSize := CopyStringToWCharPtr(assetPath, result, resultSize);
  }

  // ---------------------------------------------------------------------
  // toMayaIntArray
  // ---------------------------------------------------------------------

  type UInt32 = x: int | 0 <= x < 0x1_0000_0000

  /** The int a uint32_t becomes in an MIntArray: two's complement wrap. */
  function AsInt32(u: UInt32): (i: int)
    ensures -0x8000_0000 <= i < 0x8000_0000
    ensures u < 0x8000_0000 ==> i == u
  {
    if u < 0x8000_0000 then u else u - 0x1_0000_0000
  }

  /** Reading the int back as unsigned gives the original value. */
  lemma AsInt32RoundTrip(u: UInt32)
    ensures (if AsInt32(u) < 0 then AsInt32(u) + 0x1_0000_0000 else AsInt32(u)) == u
  {
  }

  /** toMayaIntArray: the first s values, converted one by one. */
  method ToMayaIntArray(a: seq<UInt32>, s: nat) returns (mia: seq<int>)
    requires s <= |a|
    ensures |mia| == s
    ensures forall i :: 0 <= i < s ==> mia[i] == AsInt32(a[i])
  {
    var arr := new int[s](_ => 0);
    for i := 0 to s
      invariant forall k :: 0 <= k < i ==> arr[k] == AsInt32(a[k])
    {
      arr[i] := AsInt32(a[i]);
    }
    mia := arr[..];
  }

  // ---------------------------------------------------------------------
  // assignVertexNormals
  // ---------------------------------------------------------------------

  /** The number of corners of the given faces. */
  function Sum(counts: seq<nat>): nat
  {
    if |counts| == 0 then 0 else Sum(counts[..|counts| - 1]) + counts[|counts| - 1]
  }

  /** The face owning each corner, corners enumerated face by face. */
  function Owners(counts: seq<nat>): (r: seq<nat>)
    ensures |r| == Sum(counts)
    ensures forall k :: 0 <= k < |r| ==> r[k] < |counts|
  {
    if |counts| == 0 then []
    else Owners(counts[..|counts| - 1]) + seq(counts[|counts| - 1], _ => |counts| - 1)
  }

  lemma {:induction false} SumPrefix(counts: seq<nat>, i: nat, j: nat)
    requires i <= j <= |counts|
    ensures Sum(counts[..i]) <= Sum(counts[..j])
    decreases j
  {
    if i < j {
      assert counts[..j][..j - 1] == counts[..j - 1];
      SumPrefix(counts, i, j - 1);
    }
  }

  /** Adding face i to the faces before it adds its corners at the end, all
    * owned by i, and stays within the total corner count. */
  lemma PrefixStep(counts: seq<nat>, i: nat)
    requires i < |counts|
    ensures Sum(counts[..i + 1]) == Sum(counts[..i]) + counts[i] <= Sum(counts)
    ensures Owners(counts[..i + 1]) == Owners(counts[..i]) + seq(counts[i], _ => i)
  {
    SumPrefix(counts, i + 1, |counts|);
    assert counts[..|counts|] == counts;
    assert counts[..i + 1][..i] == counts[..i];
  }

  /** Corner k belongs to face f exactly when k lies in f's range of
    * corners: after the corners of the faces before f, and before those of
    * the faces up to and including f. */
  lemma {:induction false} OwnersAreCornerRanges(counts: seq<nat>, k: nat)
    requires k < Sum(counts)
    ensures var f := Owners(counts)[k];
            Sum(counts[..f]) <= k < Sum(counts[..f + 1])
    decreases |counts|
  {
    var n := |counts| - 1;
    var init := counts[..n];
    if k < Sum(init) {
      OwnersAreCornerRanges(init, k);
      var f := Owners(init)[k];
      assert init[..f] == counts[..f] && init[..f + 1] == counts[..f + 1];
    } else {
      assert counts[..n + 1] == counts;
    }
  }

  /** A normal, the three doubles of nrm at an index. */
  datatype Vector = Vector(x: real, y: real, z: real)

  function NormalAt(nrm: seq<real>, idx: nat): Vector
    requires 3 * idx + 2 < |nrm|
  {
    Vector(nrm[3 * idx], nrm[3 * idx + 1], nrm[3 * idx + 2])
  }

  /** The first n expanded normals are those the normal indices point at. */
  ghost predicate NormalsFilled(expanded: seq<Vector>, nrm: seq<real>, normalIndices: seq<UInt32>, n: nat)
  {
    n <= |expanded| && n <= |normalIndices| &&
    forall k :: 0 <= k < n ==> 3 * normalIndices[k] + 2 < |nrm| && expanded[k] == NormalAt(nrm, normalIndices[k])
  }

  /** The inner loop of assignVertexNormals: the count corners of one face,
    * from start on, get the face and their normals. */
  method FillFace(faceList: array<int>, expandedNormals: array<Vector>, start: nat, count: nat, face: nat,
                  nrm: seq<real>, normalIndices: seq<UInt32>)
    requires start + count <= faceList.Length == expandedNormals.Length <= |normalIndices|
    requires forall k :: start <= k < start + count ==> 3 * normalIndices[k] + 2 < |nrm|
    requires NormalsFilled(expandedNormals[..], nrm, normalIndices, start)
    modifies faceList, expandedNormals
    ensures faceList[..start + count] == old(faceList[..start]) + seq(count, _ => face)
    ensures NormalsFilled(expandedNormals[..], nrm, normalIndices, start + count)
  {
    ghost var before := faceList[..start];
    for j := 0 to count
      invariant faceList[..start + j] == before + seq(j, _ => face)
      invariant NormalsFilled(expandedNormals[..], nrm, normalIndices, start + j)
    {
      faceList[start + j] := face;
      expandedNormals[start + j] := NormalAt(nrm, normalIndices[start + j]);
      assert faceList[..start + j + 1] == faceList[..start + j] + [face];
    }
  }

  /** assignVertexNormals: without normals nothing is set; otherwise each
    * corner gets its face and the normal its normal index points at. The
    * corner count is the vertex index count, which the encoder makes the
    * sum of the face counts and the normal index count. */
  method AssignVertexNormals(faceCounts: seq<nat>, vertexIndexCount: nat, nrm: seq<real>, normalIndices: seq<UInt32>)
    returns (normals: Option<(seq<int>, seq<Vector>)>)
    requires Sum(faceCounts) == vertexIndexCount && vertexIndexCount <= |normalIndices|
    requires |nrm| > 0 ==> forall k :: 0 <= k < vertexIndexCount ==> 3 * normalIndices[k] + 2 < |nrm|
    ensures |nrm| == 0 <==> normals.None?
    ensures normals.Some? ==>
      normals.value.0 == Owners(faceCounts) &&
      |normals.value.1| == vertexIndexCount &&
      forall k :: 0 <= k < vertexIndexCount ==> normals.value.1[k] == NormalAt(nrm, normalIndices[k])
  {
    if |nrm| == 0 {
      return None;
    }
    var expandedNormals := new Vector[vertexIndexCount](_ => Vector(0.0, 0.0, 0.0));
    var faceList := new int[vertexIndexCount](_ => 0);
    var indexCount: nat := 0;
    for i := 0 to |faceCounts|
      invariant indexCount == Sum(faceCounts[..i]) <= vertexIndexCount
      invariant faceList[..indexCount] == Owners(faceCounts[..i])
      invariant NormalsFilled(expandedNormals[..], nrm, normalIndices, indexCount)
    {
      PrefixStep(faceCounts, i);
      FillFace(faceList, expandedNormals, indexCount, faceCounts[i], i, nrm, normalIndices);
      indexCount := indexCount + faceCounts[i];
    }
    assert faceCounts[..|faceCounts|] == faceCounts;
    assert faceList[..] == faceList[..indexCount];
    normals := Some((faceList[..], expandedNormals[..]));
  }

  // ---------------------------------------------------------------------
  // assignTextureCoordinates
  // ---------------------------------------------------------------------

  /** A Maya UV set and the PRT UV set it is filled from. */
  datatype TextureUVOrder = TextureUVOrder(mayaUvSetName: String, mayaUvSetIndex: nat, prtUvSetIndex: nat)

  /** The fixed order of the UV sets; the first four suit the Stingray PBR
    * shader. */
  const TextureUVOrders: seq<TextureUVOrder> := [
    TextureUVOrder("map1", 0, 0),
    TextureUVOrder("dirtMap", 1, 2),
    TextureUVOrder("normalMap", 2, 5),
    TextureUVOrder("opacityMap", 3, 4),
    TextureUVOrder("bumpMap", 4, 1),
    TextureUVOrder("specularMap", 5, 3),
    TextureUVOrder("emissiveMap", 6, 6),
    TextureUVOrder("occlusionMap", 7, 7),
    TextureUVOrder("roughnessMap", 8, 8),
    TextureUVOrder("metallicMap", 9, 9)
  ]

  /** What happens to one Maya UV set: filled from its PRT set (created
    * first unless it is the default set), or created empty. */
  datatype UvSetOp = FilledSet(name: String, prtIndex: nat, created: bool) | EmptySet(name: String)

  function UvSetOpFor(o: TextureUVOrder, uvsSizes: seq<nat>, uvSetsCount: nat): Option<UvSetOp>
    requires uvSetsCount <= |uvsSizes|
  {
    if uvSetsCount > o.prtUvSetIndex && uvsSizes[o.prtUvSetIndex] > 0 then
      Some(FilledSet(o.mayaUvSetName, o.prtUvSetIndex, o.prtUvSetIndex > 0))
    else if o.prtUvSetIndex > 0 then Some(EmptySet(o.mayaUvSetName))
    else None
  }

  /** The operations on the first n entries of the order table. */
  function UvSetOps(uvsSizes: seq<nat>, uvSetsCount: nat, n: nat): seq<UvSetOp>
    requires uvSetsCount <= |uvsSizes| && n <= |TextureUVOrders|
  {
    if n == 0 then []
    else
      var prev := UvSetOps(uvsSizes, uvSetsCount, n - 1);
      match UvSetOpFor(TextureUVOrders[n - 1], uvsSizes, uvSetsCount)
      case Some(op) => prev + [op]
      case None => prev
  }

  /** The sets an operation list creates, in order. */
  function CreatedSets(ops: seq<UvSetOp>): seq<String>
  {
    if |ops| == 0 then []
    else
      var op := ops[|ops| - 1];
      CreatedSets(ops[..|ops| - 1]) + (if op.EmptySet? || op.created then [op.name] else [])
  }

  /** The Maya names of table entries 1 to n - 1. */
  function OtherSetNames(n: nat): seq<String>
    requires n <= |TextureUVOrders|
  {
    if n <= 1 then [] else OtherSetNames(n - 1) + [TextureUVOrders[n - 1].mayaUvSetName]
  }

  /** Only the first entry of the table reads PRT set 0. */
  lemma PrtIndexZeroOnlyFirst(k: nat)
    requires k < |TextureUVOrders|
    ensures TextureUVOrders[k].prtUvSetIndex == 0 <==> k == 0
  {
  }

  /** An entry reading a PRT set other than 0 always creates its Maya set;
    * one reading set 0 ("map1") never does. */
  lemma OpForCreates(o: TextureUVOrder, uvsSizes: seq<nat>, uvSetsCount: nat)
    requires uvSetsCount <= |uvsSizes|
    ensures o.prtUvSetIndex > 0 ==>
      var op := UvSetOpFor(o, uvsSizes, uvSetsCount);
      op.Some? && (op.value.EmptySet? || op.value.created) && op.value.name == o.mayaUvSetName
    ensures o.prtUvSetIndex == 0 ==>
      var op := UvSetOpFor(o, uvsSizes, uvSetsCount);
      op.None? || (op.value.FilledSet? && !op.value.created)
  {
  }

  /** Whatever UV data arrives, the sets besides "map1" are created in the
    * table's order, so their Maya indices do not depend on the data. */
  lemma {:induction false} CreatedSetsKeepOrder(uvsSizes: seq<nat>, uvSetsCount: nat, n: nat)
    requires uvSetsCount <= |uvsSizes| && n <= |TextureUVOrders|
    ensures CreatedSets(UvSetOps(uvsSizes, uvSetsCount, n)) == OtherSetNames(n)
  {
    if n > 0 {
      CreatedSetsKeepOrder(uvsSizes, uvSetsCount, n - 1);
      var o := TextureUVOrders[n - 1];
      var prev := UvSetOps(uvsSizes, uvSetsCount, n - 1);
      assert CreatedSets(UvSetOps(uvsSizes, uvSetsCount, n)) ==
             CreatedSets(prev) + (if n > 1 then [o.mayaUvSetName] else []) by {
        PrtIndexZeroOnlyFirst(n - 1);
        OpForCreates(o, uvsSizes, uvSetsCount);
        match UvSetOpFor(o, uvsSizes, uvSetsCount)
        case Some(op) =>
          assert UvSetOps(uvsSizes, uvSetsCount, n) == prev + [op];
          CreatedSetsSnoc(prev, op);
        case None =>
          assert UvSetOps(uvsSizes, uvSetsCount, n) == prev;
      }
    }
  }

  lemma CreatedSetsSnoc(prev: seq<UvSetOp>, op: UvSetOp)
    ensures CreatedSets(prev + [op]) == CreatedSets(prev) + (if op.EmptySet? || op.created then [op.name] else [])
  {
    assert (prev + [op])[..|prev|] == prev;
  }

  /** With any UV sets at all, the nine named sets come out in this order. */
  lemma CreatedSetNames(uvsSizes: seq<nat>, uvSetsCount: nat)
    requires uvSetsCount <= |uvsSizes|
    ensures CreatedSets(UvSetOps(uvsSizes, uvSetsCount, |TextureUVOrders|)) ==
      ["dirtMap", "normalMap", "opacityMap", "bumpMap", "specularMap", "emissiveMap", "occlusionMap",
       "roughnessMap", "metallicMap"]
  {
    CreatedSetsKeepOrder(uvsSizes, uvSetsCount, |TextureUVOrders|);
  }

  /** A Maya set is filled exactly when its PRT set exists and has data. */
  lemma FilledIff(o: TextureUVOrder, uvsSizes: seq<nat>, uvSetsCount: nat)
    requires uvSetsCount <= |uvsSizes|
    ensures (UvSetOpFor(o, uvsSizes, uvSetsCount).Some? && UvSetOpFor(o, uvsSizes, uvSetsCount).value.FilledSet?) <==>
            o.prtUvSetIndex < uvSetsCount && uvsSizes[o.prtUvSetIndex] > 0
  {
  }

  /** assignTextureCoordinates: nothing without UV sets; otherwise the sets
    * are cleared and each table entry is filled or created empty. */
  method AssignTextureCoordinates(uvsSizes: seq<nat>, uvSetsCount: nat) returns (cleared: bool, ops: seq<UvSetOp>)
    requires uvSetsCount <= |uvsSizes|
    ensures cleared <==> uvSetsCount > 0
    ensures ops == if uvSetsCount == 0 then [] else UvSetOps(uvsSizes, uvSetsCount, |TextureUVOrders|)
  {
    if uvSetsCount == 0 {
      return false, [];
    }
    cleared := true;
    ops := [];
    for n := 0 to |TextureUVOrders|
      invariant ops == UvSetOps(uvsSizes, uvSetsCount, n)
    {
      var o := TextureUVOrders[n];
      var uvSet := o.prtUvSetIndex;
      if uvSetsCount > uvSet && uvsSizes[uvSet] > 0 {
        ops := ops + [FilledSet(o.mayaUvSetName, uvSet, uvSet > 0)];
      } else if uvSet > 0 {
        ops := ops + [EmptySet(o.mayaUvSetName)];
      }
    }
  }

  /** The interleaved u, v pairs of a UV buffer, split into two arrays; an
    * odd last value is dropped. */
  method SplitUVs(uvs: seq<real>) returns (us: seq<real>, vs: seq<real>)
    ensures |us| == |vs| == |uvs| / 2
    ensures forall i :: 0 <= i < |us| ==> us[i] == uvs[2 * i] && vs[i] == uvs[2 * i + 1]
  {
    us, vs := [], [];
    for uvIdx := 0 to |uvs| / 2
      invariant |us| == |vs| == uvIdx
      invariant forall i :: 0 <= i < uvIdx ==> us[i] == uvs[2 * i] && vs[i] == uvs[2 * i + 1]
    {
      us := us + [uvs[uvIdx * 2 + 0]];
      vs := vs + [uvs[uvIdx * 2 + 1]];
    }
  }

  function Interleave(us: seq<real>, vs: seq<real>): (r: seq<real>)
    requires |us| == |vs|
    ensures |r| == 2 * |us|
  {
    if |us| == 0 then [] else Interleave(us[..|us| - 1], vs[..|vs| - 1]) + [us[|us| - 1], vs[|vs| - 1]]
  }

  /** Interleaving the split arrays again gives the buffer back, less an
    * odd last value. */
  lemma {:induction false} SplitInterleaves(uvs: seq<real>, us: seq<real>, vs: seq<real>)
    requires |us| == |vs| == |uvs| / 2
    requires forall i :: 0 <= i < |us| ==> us[i] == uvs[2 * i] && vs[i] == uvs[2 * i + 1]
    ensures Interleave(us, vs) == uvs[..2 * |us|]
    decreases |us|
  {
    if |us| > 0 {
      var n := |us| - 1;
      var shorter := uvs[..2 * n];
      assert |shorter| / 2 == n;
      SplitInterleaves(shorter, us[..n], vs[..n]);
      assert uvs[..2 * |us|] == shorter + [uvs[2 * n], uvs[2 * n + 1]];
    }
  }

  // ---------------------------------------------------------------------
  // fillMetadata
  // ---------------------------------------------------------------------

  const MaterialMaxStringLength: nat := 400
  const MaterialMaxFloatArrayLength: nat := 5
  const MaterialMaxStringArrayLength: nat := 2
  const FaceIndexStart: String := "faceIndexStart"
  const FaceIndexEnd: String := "faceIndexEnd"

  /** A material attribute as the engine reports it. */
  datatype MatValue =
    | MBool(b: bool)
    | MFloat(x: real)
    | MInt(i: int)
    | MString(s: String)
    | MBoolArray(bs: seq<bool>)
    | MIntArray(ns: seq<int>)
    | MFloatArray(xs: seq<real>)
    | MStringArray(ss: seq<String>)
    | MUndefined

  /** A material: its keys in the engine's order with their values. */
  type Material = seq<(String, MatValue)>

  /** One slot of a metadata member. */
  datatype Cell = BoolCell(b: bool) | IntCell(n: int) | DoubleCell(x: real) | TextCell(s: String)

  /** A metadata handle: the written slots, by member name and index. */
  type Handle = map<(String, nat), Cell>

  /** The member of string array element i: the key itself, then key1, key2, ... */
  function MemberKey(key: String, i: nat): String
  {
    if i == 0 then key else key + NatToString(i)
  }

  function Min(a: nat, b: nat): nat { if a < b then a else b }

  /** Slots 0, 1, ... of a member, written in order. */
  function WriteCells(h: Handle, key: String, cells: seq<Cell>): (r: Handle)
  {
    if |cells| == 0 then h else WriteCells(h, key, cells[..|cells| - 1])[(key, |cells| - 1) := cells[|cells| - 1]]
  }

  /** Exactly the first |cells| slots of the member change. */
  lemma {:induction false} WriteCellsAt(h: Handle, key: String, cells: seq<Cell>, slot: (String, nat))
    ensures slot.0 == key && slot.1 < |cells| ==> slot in WriteCells(h, key, cells) && WriteCells(h, key, cells)[slot] == cells[slot.1]
    ensures !(slot.0 == key && slot.1 < |cells|) ==>
      (slot in WriteCells(h, key, cells) <==> slot in h) && (slot in h ==> WriteCells(h, key, cells)[slot] == h[slot])
    decreases |cells|
  {
    if |cells| > 0 {
      WriteCellsAt(h, key, cells[..|cells| - 1], slot);
    }
  }

  /** The string array elements up to n: empty ones are skipped, element 0
    * goes to the key, element i > 0 to member key + i when it exists. */
  function WriteStrings(h: Handle, members: set<String>, key: String, ss: seq<String>, n: nat): Handle
    requires n <= |ss|
  {
    if n == 0 then h
    else
      var prev := WriteStrings(h, members, key, ss, n - 1);
      var i := n - 1;
      if ss[i] == [] then prev
      else if i > 0 && MemberKey(key, i) !in members then prev
      else prev[(MemberKey(key, i), 0) := TextCell(ss[i])]
  }

  /** The slots a bool array fills: at most as many as a string member has. */
  function BoolCells(bs: seq<bool>): (cells: seq<Cell>)
    ensures |cells| == Min(|bs|, MaterialMaxStringLength)
    ensures forall i :: 0 <= i < |cells| ==> cells[i] == BoolCell(bs[i])
  {
    seq(Min(|bs|, MaterialMaxStringLength), i requires 0 <= i < Min(|bs|, MaterialMaxStringLength) => BoolCell(bs[i]))
  }

  function IntCells(ns: seq<int>): (cells: seq<Cell>)
    ensures |cells| == Min(|ns|, MaterialMaxStringLength)
    ensures forall i :: 0 <= i < |cells| ==> cells[i] == IntCell(ns[i])
  {
    seq(Min(|ns|, MaterialMaxStringLength), i requires 0 <= i < Min(|ns|, MaterialMaxStringLength) => IntCell(ns[i]))
  }

  /** The slots a float array fills: at most five. */
  function DoubleCells(xs: seq<real>): (cells: seq<Cell>)
    ensures |cells| == Min(Min(|xs|, MaterialMaxStringLength), MaterialMaxFloatArrayLength)
    ensures forall i :: 0 <= i < |cells| ==> cells[i] == DoubleCell(xs[i])
  {
    var n := Min(Min(|xs|, MaterialMaxStringLength), MaterialMaxFloatArrayLength);
    seq(n, i requires 0 <= i < n => DoubleCell(xs[i]))
  }

  /** What one material attribute writes when its member exists; strings
    * are stored whole. */
  function WriteValue(h: Handle, members: set<String>, key: String, v: MatValue): Handle
  {
    if key !in members then h
    else match v
      case MBool(b) => h[(key, 0) := BoolCell(b)]
      case MFloat(x) => h[(key, 0) := DoubleCell(x)]
      case MInt(i) => h[(key, 0) := IntCell(i)]
      case MString(s) => if s == [] then h else h[(key, 0) := TextCell(s)]
      case MBoolArray(bs) => WriteCells(h, key, BoolCells(bs))
      case MIntArray(ns) => WriteCells(h, key, IntCells(ns))
      case MFloatArray(xs) => WriteCells(h, key, DoubleCells(xs))
      case MStringArray(ss) => WriteStrings(h, members, key, ss, Min(|ss|, MaterialMaxStringLength))
      case MUndefined => h
  }

  /** The handle after all attributes of a material, in key order. */
  function MaterialHandle(mat: Material, members: set<String>): Handle
  {
    if |mat| == 0 then map[]
    else
      var last := mat[|mat| - 1];
      WriteValue(MaterialHandle(mat[..|mat| - 1], members), members, last.0, last.1)
  }

  /** A float array reaches at most five slots: the ones it fills hold its
    * first values and later slots keep what they held. */
  lemma FloatArrayTruncated(h: Handle, members: set<String>, key: String, xs: seq<real>, j: nat)
    requires key in members
    ensures j < Min(|xs|, MaterialMaxFloatArrayLength) ==>
      (key, j) in WriteValue(h, members, key, MFloatArray(xs)) &&
      WriteValue(h, members, key, MFloatArray(xs))[(key, j)] == DoubleCell(xs[j])
    ensures j >= MaterialMaxFloatArrayLength ==>
      ((key, j) in WriteValue(h, members, key, MFloatArray(xs)) <==> (key, j) in h)
  {
    WriteCellsAt(h, key, DoubleCells(xs), (key, j));
  }

  /** The stream element of one face range: the material's slots, then the
    * range's start and end. */
  function ElementFor(mat: Material, members: set<String>, start: UInt32, end: UInt32): Handle
  {
    MaterialHandle(mat, members)[(FaceIndexStart, 0) := IntCell(AsInt32(start))][(FaceIndexEnd, 0) := IntCell(AsInt32(end))]
  }

  /** The loop over one material's attributes, with the array loops. */
  method FillHandle(mat: Material, members: set<String>) returns (handle: Handle)
    ensures handle == MaterialHandle(mat, members)
  {
    handle := map[];
    for k := 0 to |mat|
      invariant handle == MaterialHandle(mat[..k], members)
    {
      assert mat[..k + 1][..k] == mat[..k];
      var key := mat[k].0;
      if key !in members {
        continue;
      }
      match mat[k].1 {
        case MBool(b) => handle := handle[(key, 0) := BoolCell(b)];
        case MFloat(x) => handle := handle[(key, 0) := DoubleCell(x)];
        case MInt(i) => handle := handle[(key, 0) := IntCell(i)];
        case MString(s) =>
          if s != [] {
            handle := handle[(key, 0) := TextCell(s)];
          }
        case MBoolArray(bs) => handle := WriteArray(handle, key, BoolCells(bs));
        case MIntArray(ns) => handle := WriteArray(handle, key, IntCells(ns));
        case MFloatArray(xs) => handle := WriteArray(handle, key, DoubleCells(xs));
        case MStringArray(ss) =>
          handle := WriteStringArray(handle, members, key, ss);
        case MUndefined =>
      }
    }
    assert mat[..|mat|] == mat;
  }

  /** The element loop of the bool, int and float arrays. */
  method WriteArray(h: Handle, key: String, cells: seq<Cell>) returns (r: Handle)
    ensures r == WriteCells(h, key, cells)
  {
    r := h;
    for i := 0 to |cells|
      invariant r == WriteCells(h, key, cells[..i])
    {
      assert cells[..i + 1][..i] == cells[..i];
      r := r[(key, i) := cells[i]];
    }
    assert cells[..|cells|] == cells;
  }

  /** The element loop of a string array. */
  method WriteStringArray(h: Handle, members: set<String>, key: String, ss: seq<String>) returns (r: Handle)
    ensures r == WriteStrings(h, members, key, ss, Min(|ss|, MaterialMaxStringLength))
  {
    r := h;
    var n := Min(|ss|, MaterialMaxStringLength);
    for i := 0 to n
      invariant r == WriteStrings(h, members, key, ss, i)
    {
      if ss[i] == [] {
        continue;
      }
      if i > 0 && MemberKey(key, i) !in members {
        continue;
      }
      r := r[(MemberKey(key, i), 0) := TextCell(ss[i])];
    }
  }

  /** fillMetadata: without materials the stream stays empty; otherwise
    * element i describes face range i, from faceRanges[i] to
    * faceRanges[i + 1]. */
  method FillMetadata(faceRanges: seq<UInt32>, materials: Option<seq<Material>>, members: set<String>)
    returns (stream: seq<Handle>)
    requires |faceRanges| > 1
    requires materials.Some? ==> |materials.value| >= |faceRanges| - 1
    ensures materials.None? ==> stream == []
    ensures materials.Some? ==> |stream| == |faceRanges| - 1
    ensures materials.Some? ==>
      forall i :: 0 <= i < |stream| ==> stream[i] == ElementFor(materials.value[i], members, faceRanges[i], faceRanges[i + 1])
  {
    stream := [];
    if materials.None? {
      return;
    }
    for fri := 0 to |faceRanges| - 1
      invariant |stream| == fri
      invariant forall i :: 0 <= i < fri ==> stream[i] == ElementFor(materials.value[i], members, faceRanges[i], faceRanges[i + 1])
    {
      var handle := FillHandle(materials.value[fri], members);
      handle := handle[(FaceIndexStart, 0) := IntCell(AsInt32(faceRanges[fri]))];
      handle := handle[(FaceIndexEnd, 0) := IntCell(AsInt32(faceRanges[fri + 1]))];
      stream := stream + [handle];
    }
  }

  /** Every element carries its range, whatever its material's keys, and
    * consecutive elements share their boundary face. */
  lemma RangesChain(faceRanges: seq<UInt32>, mats: seq<Material>, members: set<String>, i: nat)
    requires i + 2 < |faceRanges| && |mats| >= |faceRanges| - 1
    ensures ElementFor(mats[i], members, faceRanges[i], faceRanges[i + 1])[(FaceIndexStart, 0)] == IntCell(AsInt32(faceRanges[i]))
    ensures ElementFor(mats[i], members, faceRanges[i], faceRanges[i + 1])[(FaceIndexEnd, 0)] ==
            ElementFor(mats[i + 1], members, faceRanges[i + 1], faceRanges[i + 2])[(FaceIndexStart, 0)]
  {
    assert FaceIndexStart != FaceIndexEnd by {
      assert FaceIndexStart[9] != FaceIndexEnd[9];
    }
  }

  /** createNewMayaStructure: the range members, one member per attribute
    * of a known type, and a second member key1 for a string array. */
  function StructureMembers(mat: Material): set<String>
  {
    if |mat| == 0 then {FaceIndexStart, FaceIndexEnd}
    else
      var prev := StructureMembers(mat[..|mat| - 1]);
      var (key, v) := mat[|mat| - 1];
      if v.MUndefined? then prev
      else if v.MStringArray? then prev + {key, MemberKey(key, 1)}
      else prev + {key}
  }

  /** The slots of a string array member that a consumer expecting at most
    * two strings reads: the first entry under the key, the second under
    * key1, each only when non-empty. */
  function FirstTwoStrings(key: String, ss: seq<String>): Handle
  {
    var first: Handle := if |ss| > 0 && ss[0] != [] then map[(key, 0) := TextCell(ss[0])] else map[];
    if |ss| > 1 && ss[1] != [] then first[(MemberKey(key, 1), 0) := TextCell(ss[1])] else first
  }

  /** The members createNewMayaStructure declares for one string array. */
  function ArrayMembers(key: String): set<String>
  {
    {FaceIndexStart, FaceIndexEnd, key, MemberKey(key, 1)}
  }

  /** The member names of entries from the third on were never declared. */
  lemma MemberKeyUndeclared(key: String, i: nat)
    requires i >= 2
    ensures MemberKey(key, i) !in ArrayMembers(key)
  {
    var d := NatToString(i);
    var mk := key + d;
    assert mk[|mk| - 1] == d[|d| - 1];
    assert mk != FaceIndexStart && mk != FaceIndexEnd by {
      assert FaceIndexStart[13] == 't' && FaceIndexEnd[11] == 'd';
    }
    if mk == key + NatToString(1) {
      assert d == mk[|key|..] == NatToString(1);
      NatToStringInjective(i, 1);
    }
  }

  lemma {:induction false} LaterStringsDropped(key: String, ss: seq<String>, n: nat)
    requires n <= |ss|
    ensures WriteStrings(map[], ArrayMembers(key), key, ss, n) == WriteStrings(map[], ArrayMembers(key), key, ss, Min(n, 2))
    decreases n
  {
    if n > 2 {
      LaterStringsDropped(key, ss, n - 1);
      MemberKeyUndeclared(key, n - 1);
    }
  }

  /** With the structure built from the material itself, a string array
    * keeps only its first two entries, under the key and key1, whatever its
    * length. */
  lemma StringArrayKeepsTwo(key: String, ss: seq<String>)
    ensures var mat := [(key, MStringArray(ss))];
            MaterialHandle(mat, StructureMembers(mat)) == FirstTwoStrings(key, ss)
  {
    var mat := [(key, MStringArray(ss))];
    assert mat[..0] == [];
    assert StructureMembers(mat) == ArrayMembers(key);
    var n := Min(|ss|, MaterialMaxStringLength);
    LaterStringsDropped(key, ss, n);
    assert WriteStrings(map[], ArrayMembers(key), key, ss, 0) == map[];
  }
}
