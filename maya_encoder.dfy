// MayaEncoder::convertGeometry: merges the leaf geometries produced by the
// procedural runtime into one indexed Maya mesh, then walks the faces in the
// same order to bind texture coordinates and to cut one shading-group face
// range per geometry.
//
// Geometries are values; the buffers the encoder appends to are the
// sequences built by Accumulate, and the plug-in data block whose shading
// group and range lists are cleared and refilled is the class MayaData.

module MayaEncoder {
  import opened Text

  datatype Vertex = Vertex(x: real, y: real, z: real)
  datatype TexCoord = TexCoord(u: real, v: real)

  /** One polygon: its vertex indices (local to its geometry) and its UV
    * indices (local too; empty when the face carries none). */
  datatype Face = Face(vertexIndices: seq<nat>, uvIndices: seq<nat>)

  datatype Geometry = Geometry(vertices: seq<Vertex>, uvs: seq<TexCoord>, faces: seq<Face>,
                               diffuseMaps: seq<String>)

  /** One call of MFnMesh::assignUV(face, corner, uvId). */
  datatype UVBinding = UVBinding(face: int, corner: int, uvId: int)

  /** The mesh handed to MFnMesh::create, plus the "map1" UV layer and the
    * per-corner UV bindings when the material pass ran. */
  datatype Mesh = Mesh(vertices: seq<Vertex>, counts: seq<int>, connects: seq<int>,
                       uvLayer: seq<TexCoord>, bindings: seq<UVBinding>)

  /** The source reads getUVIndices()[vi] for every vi below getIndexCount()
    * whenever the face has any UV index at all. */
  predicate FaceReadable(f: Face)
  {
    |f.uvIndices| == 0 || |f.uvIndices| >= |f.vertexIndices|
  }

  predicate GeometriesReadable(gs: seq<Geometry>)
  {
    forall g, f :: g in gs && f in g.faces ==> FaceReadable(f)
  }

  function Sum(s: seq<int>): int
  {
    if |s| == 0 then 0 else Sum(s[..|s| - 1]) + s[|s| - 1]
  }

  // ---------------------------------------------------------------------
  // Reference definitions of the accumulated buffers, geometry by geometry.
  // ---------------------------------------------------------------------

  function AllVertices(gs: seq<Geometry>): seq<Vertex>
  {
    if |gs| == 0 then [] else AllVertices(gs[..|gs| - 1]) + gs[|gs| - 1].vertices
  }

  function AllUVs(gs: seq<Geometry>): seq<TexCoord>
  {
    if |gs| == 0 then [] else AllUVs(gs[..|gs| - 1]) + gs[|gs| - 1].uvs
  }

  function FaceCounts(faces: seq<Face>): seq<int>
  {
    if |faces| == 0 then [] else FaceCounts(faces[..|faces| - 1]) + [|faces[|faces| - 1].vertexIndices|]
  }

  function AllCounts(gs: seq<Geometry>): seq<int>
  {
    if |gs| == 0 then [] else AllCounts(gs[..|gs| - 1]) + FaceCounts(gs[|gs| - 1].faces)
  }

  /** Local indices shifted by a running base. */
  function Offset(indices: seq<int>, base: nat): (r: seq<int>)
    ensures |r| == |indices|
    ensures forall i :: 0 <= i < |indices| ==> r[i] == base + indices[i]
  {
    seq(|indices|, i requires 0 <= i < |indices| => base + indices[i])
  }

  function FaceConnects(faces: seq<Face>, base: nat): seq<int>
  {
    if |faces| == 0 then []
    else FaceConnects(faces[..|faces| - 1], base) + Offset(faces[|faces| - 1].vertexIndices, base)
  }

  function AllConnects(gs: seq<Geometry>): seq<int>
  {
    if |gs| == 0 then []
    else AllConnects(gs[..|gs| - 1]) + FaceConnects(gs[|gs| - 1].faces, |AllVertices(gs[..|gs| - 1])|)
  }

  /** The UV connectivity one face contributes: its first getIndexCount()
    * UV indices shifted by tcBase, or nothing when it has no UV index. */
  function FaceTc(f: Face, tcBase: nat): seq<int>
    requires FaceReadable(f)
  {
    if |f.uvIndices| > 0 then Offset(f.uvIndices[..|f.vertexIndices|], tcBase) else []
  }

  function FacesTc(faces: seq<Face>, tcBase: nat): seq<int>
    requires forall f :: f in faces ==> FaceReadable(f)
  {
    if |faces| == 0 then []
    else FacesTc(faces[..|faces| - 1], tcBase) + FaceTc(faces[|faces| - 1], tcBase)
  }

  function AllTcConnects(gs: seq<Geometry>): seq<int>
    requires GeometriesReadable(gs)
  {
    if |gs| == 0 then []
    else AllTcConnects(gs[..|gs| - 1]) + FacesTc(gs[|gs| - 1].faces, |AllUVs(gs[..|gs| - 1])|)
  }

  // ---------------------------------------------------------------------
  // Reference definitions of the material pass.
  // ---------------------------------------------------------------------

  /** The (face, corner) pairs the UV walk visits for the faces of one
    * UV-carrying geometry whose first face has global index `first`. */
  function FaceCorners(faces: seq<Face>, first: nat): seq<(int, int)>
  {
    if |faces| == 0 then []
    else
      var last := |faces| - 1;
      FaceCorners(faces[..last], first)
      + seq(|faces[last].vertexIndices|, j requires 0 <= j < |faces[last].vertexIndices| => (first + last, j))
  }

  /** Every corner the walk visits: geometries without UVs are skipped. */
  function WalkCorners(gs: seq<Geometry>): seq<(int, int)>
  {
    if |gs| == 0 then []
    else
      var g := gs[|gs| - 1];
      WalkCorners(gs[..|gs| - 1])
      + (if |g.uvs| > 0 then FaceCorners(g.faces, |AllCounts(gs[..|gs| - 1])|) else [])
  }

  /** The texture name of a geometry: its first diffuse-map URI with as many
    * characters dropped as the file scheme is long, or "". */
  function TextureName(g: Geometry, schemeFile: String): String
    requires |g.diffuseMaps| > 0 ==> |schemeFile| <= |g.diffuseMaps[0]|
  {
    if |g.diffuseMaps| > 0 then g.diffuseMaps[0][|schemeFile|..] else ""
  }

  predicate SchemeFits(gs: seq<Geometry>, schemeFile: String)
  {
    forall g :: g in gs && |g.diffuseMaps| > 0 ==> |schemeFile| <= |g.diffuseMaps[0]|
  }

  /** The MEL command issued for one shading group. */
  function ShadingGroupCommand(texName: String): String
  {
    "createShadingGroup(\"" + texName + "\")"
  }

  /** One group per geometry spanning at least two faces: for every group
    * there is one (first face, last face) pair. */
  function ShadingGroups(gs: seq<Geometry>, schemeFile: String, execute: String -> String): (r: seq<String>)
    requires SchemeFits(gs, schemeFile)
    ensures |r| <= |gs|
  {
    if |gs| == 0 then []
    else
      var g := gs[|gs| - 1];
      ShadingGroups(gs[..|gs| - 1], schemeFile, execute)
      + (if |g.faces| > 1 then [execute(ShadingGroupCommand(TextureName(g, schemeFile)))] else [])
  }

  /** Every shading group has exactly one (first face, last face) pair. */
  lemma {:induction false} GroupPerRange(gs: seq<Geometry>, schemeFile: String, execute: String -> String)
    requires SchemeFits(gs, schemeFile)
    ensures 2 * |ShadingGroups(gs, schemeFile, execute)| == |ShadingRanges(gs)|
  {
    if |gs| > 0 {
      var init := gs[..|gs| - 1];
      assert SchemeFits(init, schemeFile) by {
        forall g | g in init ensures g in gs { }
      }
      GroupPerRange(init, schemeFile, execute);
    }
  }

  /** The (first face, last face) pair of every geometry spanning at least
    * two faces, flattened. */
  function ShadingRanges(gs: seq<Geometry>): (r: seq<int>)
    ensures |r| <= 2 * |gs|
  {
    if |gs| == 0 then []
    else
      var g := gs[|gs| - 1];
      var start := |AllCounts(gs[..|gs| - 1])|;
      ShadingRanges(gs[..|gs| - 1]) + FaceRange(start, |g.faces|)
  }

  /** The (first face, last face) pair of a geometry of n faces starting at
    * face `start`, when it spans at least two faces. */
  function FaceRange(start: nat, n: nat): seq<int>
  {
    if n > 1 then [start, start + n - 1] else []
  }

  function Bindings(corners: seq<(int, int)>, tc: seq<int>): (r: seq<UVBinding>)
    requires |corners| <= |tc|
    ensures |r| == |corners|
  {
    seq(|corners|, k requires 0 <= k < |corners| => UVBinding(corners[k].0, corners[k].1, tc[k]))
  }

  // ---------------------------------------------------------------------
  // Facts about the reference definitions.
  // ---------------------------------------------------------------------

  lemma {:induction false} FaceCountsLength(faces: seq<Face>)
    ensures |FaceCounts(faces)| == |faces|
    ensures forall i :: 0 <= i < |faces| ==> FaceCounts(faces)[i] == |faces[i].vertexIndices|
  {
    if |faces| > 0 {
      FaceCountsLength(faces[..|faces| - 1]);
    }
  }

  lemma SumAppend(a: seq<int>, b: seq<int>)
    ensures Sum(a + b) == Sum(a) + Sum(b)
    decreases |b|
  {
    if |b| == 0 {
      assert a + b == a;
    } else {
      assert (a + b)[..|a + b| - 1] == a + b[..|b| - 1];
      SumAppend(a, b[..|b| - 1]);
    }
  }

  lemma {:induction false} FaceConnectsLength(faces: seq<Face>, base: nat)
    ensures |FaceConnects(faces, base)| == Sum(FaceCounts(faces))
  {
    if |faces| > 0 {
      FaceConnectsLength(faces[..|faces| - 1], base);
      SumAppend(FaceCounts(faces[..|faces| - 1]), [|faces[|faces| - 1].vertexIndices|]);
      assert Sum([|faces[|faces| - 1].vertexIndices|]) == |faces[|faces| - 1].vertexIndices| by {
        assert [|faces[|faces| - 1].vertexIndices|][..0] == [];
      }
    }
  }

  /** Each face appends exactly one count equal to its index count, so the
    * connectivity is as long as the sum of the counts. */
  lemma {:induction false} ConnectsMatchCounts(gs: seq<Geometry>)
    ensures |AllConnects(gs)| == Sum(AllCounts(gs))
  {
    if |gs| > 0 {
      var init := gs[..|gs| - 1];
      ConnectsMatchCounts(init);
      FaceConnectsLength(gs[|gs| - 1].faces, |AllVertices(init)|);
      SumAppend(AllCounts(init), FaceCounts(gs[|gs| - 1].faces));
    }
  }

  lemma {:induction false} AllCountsLength(gs: seq<Geometry>)
    ensures |AllCounts(gs)| == |gs| == 0 || |AllCounts(gs)| == |AllCounts(gs[..|gs| - 1])| + |gs[|gs| - 1].faces|
  {
    if |gs| > 0 {
      FaceCountsLength(gs[|gs| - 1].faces);
    }
  }

  lemma {:induction false} FaceConnectsBounded(faces: seq<Face>, base: nat, limit: nat)
    requires forall f, i :: f in faces && 0 <= i < |f.vertexIndices| ==> base + f.vertexIndices[i] < limit
    ensures forall c :: c in FaceConnects(faces, base) ==> c < limit
  {
    if |faces| > 0 {
      FaceConnectsBounded(faces[..|faces| - 1], base, limit);
      assert faces[|faces| - 1] in faces;
    }
  }

  lemma {:induction false} AllVerticesGrow(gs: seq<Geometry>, k: nat)
    requires k <= |gs|
    ensures |AllVertices(gs[..k])| <= |AllVertices(gs)|
    decreases |gs|
  {
    if k < |gs| {
      assert gs[..|gs| - 1][..k] == gs[..k];
      AllVerticesGrow(gs[..|gs| - 1], k);
    } else {
      assert gs[..k] == gs;
    }
  }

  /** Every merged vertex index is the running base plus a local index; if
    * each geometry's local indices are in range, every merged index points
    * into the merged vertex list. */
  lemma {:induction false} ConnectsInRange(gs: seq<Geometry>)
    requires forall g, f, i :: g in gs && f in g.faces && 0 <= i < |f.vertexIndices| ==> f.vertexIndices[i] < |g.vertices|
    ensures forall c :: c in AllConnects(gs) ==> c < |AllVertices(gs)|
  {
    if |gs| > 0 {
      var init := gs[..|gs| - 1];
      var g := gs[|gs| - 1];
      assert forall h :: h in init ==> h in gs;
      ConnectsInRange(init);
      assert g in gs;
      FaceConnectsBounded(g.faces, |AllVertices(init)|, |AllVertices(gs)|);
    }
  }

  lemma {:induction false} FacesTcBounded(faces: seq<Face>, tcBase: nat, limit: nat)
    requires forall f :: f in faces ==> FaceReadable(f)
    requires forall f, i :: f in faces && 0 <= i < |f.uvIndices| ==> tcBase + f.uvIndices[i] < limit
    ensures forall c :: c in FacesTc(faces, tcBase) ==> c < limit
  {
    if |faces| > 0 {
      FacesTcBounded(faces[..|faces| - 1], tcBase, limit);
      assert faces[|faces| - 1] in faces;
    }
  }

  /** Same for UV connectivity: tcBase is the number of UVs of the earlier
    * geometries, so in-range local UV indices stay in range when merged. */
  lemma {:induction false} TcConnectsInRange(gs: seq<Geometry>)
    requires GeometriesReadable(gs)
    requires forall g, f, i :: g in gs && f in g.faces && 0 <= i < |f.uvIndices| ==> f.uvIndices[i] < |g.uvs|
    ensures forall c :: c in AllTcConnects(gs) ==> c < |AllUVs(gs)|
  {
    if |gs| > 0 {
      var init := gs[..|gs| - 1];
      var g := gs[|gs| - 1];
      assert forall h :: h in init ==> h in gs;
      TcConnectsInRange(init);
      assert g in gs;
      FacesTcBounded(g.faces, |AllUVs(init)|, |AllUVs(gs)|);
    }
  }

  /** A geometry whose UV presence agrees with its faces: with UVs, every
    * non-empty face has UV indices; without, none has. */
  predicate UVConsistent(g: Geometry)
  {
    forall f :: f in g.faces && |f.vertexIndices| > 0 ==> (|f.uvIndices| > 0 <==> |g.uvs| > 0)
  }

  lemma {:induction false} FaceCornersMatchTc(faces: seq<Face>, first: nat, tcBase: nat)
    requires forall f :: f in faces ==> FaceReadable(f)
    requires forall f :: f in faces && |f.vertexIndices| > 0 ==> |f.uvIndices| > 0
    ensures |FaceCorners(faces, first)| == |FacesTc(faces, tcBase)|
  {
    if |faces| > 0 {
      FaceCornersMatchTc(faces[..|faces| - 1], first, tcBase);
      assert faces[|faces| - 1] in faces;
    }
  }

  lemma {:induction false} NoUVsNoTc(faces: seq<Face>, tcBase: nat)
    requires forall f :: f in faces ==> FaceReadable(f)
    requires forall f :: f in faces && |f.vertexIndices| > 0 ==> |f.uvIndices| == 0
    ensures |FacesTc(faces, tcBase)| == 0
  {
    if |faces| > 0 {
      NoUVsNoTc(faces[..|faces| - 1], tcBase);
      assert faces[|faces| - 1] in faces;
    }
  }

  /** When every geometry is UV-consistent, the UV walk visits exactly as
    * many corners as the accumulation appended UV connectivity entries, so
    * `uvInd` ends at tcConnects.length() and every entry is bound once. */
  lemma {:induction false} WalkConsumesTcConnects(gs: seq<Geometry>)
    requires GeometriesReadable(gs)
    requires forall g :: g in gs ==> UVConsistent(g)
    ensures |WalkCorners(gs)| == |AllTcConnects(gs)|
  {
    if |gs| > 0 {
      var init := gs[..|gs| - 1];
      var g := gs[|gs| - 1];
      assert forall h :: h in init ==> h in gs;
      WalkConsumesTcConnects(init);
      assert g in gs;
      if |g.uvs| > 0 {
        FaceCornersMatchTc(g.faces, |AllCounts(init)|, |AllUVs(init)|);
      } else {
        NoUVsNoTc(g.faces, |AllUVs(init)|);
      }
    }
  }

  /** Ranges come out as (start, end) pairs with start < end, each pair
    * after the previous one, all within the merged face list; a one-face
    * geometry never gets a range. */
  predicate RangesWellFormed(r: seq<int>, faceTotal: nat)
  {
    |r| % 2 == 0
    && (forall k :: 0 <= k < |r| / 2 ==> 0 <= r[2 * k] < r[2 * k + 1] < faceTotal)
    && (forall k :: 0 < k < |r| / 2 ==> r[2 * k - 1] < r[2 * k])
  }

  /** Appending a range that starts after every earlier entry keeps the
    * list well formed. */
  lemma RangesAppend(r0: seq<int>, total0: nat, start: int, end: int, total: nat)
    requires RangesWellFormed(r0, total0) && forall x :: x in r0 ==> x < total0
    requires total0 <= start < end < total
    ensures RangesWellFormed(r0 + [start, end], total)
    ensures forall x :: x in r0 + [start, end] ==> x < total
  {
    var r := r0 + [start, end];
    assert |r| / 2 == |r0| / 2 + 1;
    forall k | 0 <= k < |r| / 2
      ensures 0 <= r[2 * k] < r[2 * k + 1] < total
    {
      if k < |r0| / 2 {
        assert r[2 * k] == r0[2 * k] && r[2 * k + 1] == r0[2 * k + 1];
      }
    }
    forall k | 0 < k < |r| / 2
      ensures r[2 * k - 1] < r[2 * k]
    {
      if k < |r0| / 2 {
        assert r[2 * k - 1] == r0[2 * k - 1] && r[2 * k] == r0[2 * k];
      } else {
        assert r[2 * k - 1] == r0[|r0| - 1];
        assert r0[|r0| - 1] in r0;
      }
    }
  }

  lemma RangesGrow(r: seq<int>, total0: nat, total: nat)
    requires RangesWellFormed(r, total0) && forall x :: x in r ==> x < total0
    requires total0 <= total
    ensures RangesWellFormed(r, total) && forall x :: x in r ==> x < total
  {
  }

  /** The range, if any, of one more geometry of n faces keeps the list
    * well formed. */
  lemma RangesExtend(r0: seq<int>, start: nat, n: nat, total: nat)
    requires RangesWellFormed(r0, start) && forall x :: x in r0 ==> x < start
    requires total == start + n
    ensures RangesWellFormed(r0 + FaceRange(start, n), total)
    ensures forall x :: x in r0 + FaceRange(start, n) ==> x < total
  {
    if n > 1 {
      RangesAppend(r0, start, start, start + n - 1, total);
    } else {
      assert r0 + [] == r0;
      RangesGrow(r0, start, total);
    }
  }

  lemma {:induction false} ShadingRangesWellFormed(gs: seq<Geometry>)
    ensures RangesWellFormed(ShadingRanges(gs), |AllCounts(gs)|)
    ensures forall x :: x in ShadingRanges(gs) ==> x < |AllCounts(gs)|
  {
    if |gs| > 0 {
      var init := gs[..|gs| - 1];
      var g := gs[|gs| - 1];
      ShadingRangesWellFormed(init);
      AllCountsLength(gs);
      RangesExtend(ShadingRanges(init), |AllCounts(init)|, |g.faces|, |AllCounts(gs)|);
    }
  }

  // ---------------------------------------------------------------------
  // The encoder.
  // ---------------------------------------------------------------------

  /** The plug-in's per-node data block: shading groups and their ranges. */
  class MayaData {
    var shadingGroups: seq<String>
    var shadingRanges: seq<int>

    constructor ()
      ensures shadingGroups == [] && shadingRanges == []
    {
      shadingGroups := [];
      shadingRanges := [];
    }
  }

  function Us(uvs: seq<TexCoord>): (r: seq<real>)
    ensures |r| == |uvs| && forall i :: 0 <= i < |uvs| ==> r[i] == uvs[i].u
  {
    seq(|uvs|, i requires 0 <= i < |uvs| => uvs[i].u)
  }

  function Vs(uvs: seq<TexCoord>): (r: seq<real>)
    ensures |r| == |uvs| && forall i :: 0 <= i < |uvs| ==> r[i] == uvs[i].v
  {
    seq(|uvs|, i requires 0 <= i < |uvs| => uvs[i].v)
  }

  /** The UV set handed to MFnMesh::setUVs: the i-th u paired with the
    * i-th v. */
  function Zip(us: seq<real>, vs: seq<real>): (r: seq<TexCoord>)
    requires |us| == |vs|
    ensures |r| == |us|
  {
    seq(|us|, i requires 0 <= i < |us| => TexCoord(us[i], vs[i]))
  }

  /** Splitting UVs into their u and v arrays and pairing them again gives
    * back the UVs. */
  lemma ZipUsVs(uvs: seq<TexCoord>)
    ensures Zip(Us(uvs), Vs(uvs)) == uvs
  {
    assert forall i :: 0 <= i < |uvs| ==> Zip(Us(uvs), Vs(uvs))[i] == uvs[i];
  }

  /** vertices.append for every point of one geometry. */
  method AppendVertices(vertices: seq<Vertex>, points: seq<Vertex>) returns (r: seq<Vertex>)
    ensures r == vertices + points
  {
    r := vertices;
    var i := 0;
    while i < |points|
      invariant 0 <= i <= |points|
      invariant r == vertices + points[..i]
    {
      r := r + [points[i]];
      i := i + 1;
      assert points[..i] == points[..i - 1] + [points[i - 1]];
    }
    assert points[..i] == points;
  }

  /** tcsU/tcsV.append for every UV of one geometry, in lockstep. */
  method AppendUVs(tcsU: seq<real>, tcsV: seq<real>, uvs: seq<TexCoord>) returns (u: seq<real>, v: seq<real>)
    ensures u == tcsU + Us(uvs) && v == tcsV + Vs(uvs)
  {
    u, v := tcsU, tcsV;
    var i := 0;
    while i < |uvs|
      invariant 0 <= i <= |uvs|
      invariant u == tcsU + Us(uvs[..i]) && v == tcsV + Vs(uvs[..i])
    {
      u := u + [uvs[i].u];
      v := v + [uvs[i].v];
      i := i + 1;
      assert Us(uvs[..i]) == Us(uvs[..i - 1]) + [uvs[i - 1].u];
      assert Vs(uvs[..i]) == Vs(uvs[..i - 1]) + [uvs[i - 1].v];
    }
    assert uvs[..i] == uvs;
  }

  /** buffer.append(base + indices[vi]) for vi < n. */
  method AppendOffset(buffer: seq<int>, indices: seq<int>, n: nat, base: nat) returns (r: seq<int>)
    requires n <= |indices|
    ensures r == buffer + Offset(indices[..n], base)
  {
    r := buffer;
    var vi := 0;
    while vi < n
      invariant 0 <= vi <= n
      invariant r == buffer + Offset(indices[..vi], base)
    {
      r := r + [base + indices[vi]];
      vi := vi + 1;
    }
  }

  /** The face loop of one geometry: one count per face, its shifted vertex
    * indices, and its shifted UV indices when it has any. */
  method AppendFaces(faces: seq<Face>, base: nat, tcBase: nat,
                     counts: seq<int>, connects: seq<int>, tcConnects: seq<int>)
    returns (counts': seq<int>, connects': seq<int>, tcConnects': seq<int>)
    requires forall f :: f in faces ==> FaceReadable(f)
    ensures counts' == counts + FaceCounts(faces)
    ensures connects' == connects + FaceConnects(faces, base)
    ensures tcConnects' == tcConnects + FacesTc(faces, tcBase)
  {
    counts', connects', tcConnects' := counts, connects, tcConnects;
    var fi := 0;
    while fi < |faces|
      invariant 0 <= fi <= |faces|
      invariant counts' == counts + FaceCounts(faces[..fi])
      invariant connects' == connects + FaceConnects(faces[..fi], base)
      invariant tcConnects' == tcConnects + FacesTc(faces[..fi], tcBase)
    {
      var face := faces[fi];
      FaceCountsSnoc(faces, fi, counts);
      FaceConnectsSnoc(faces, fi, base, connects);
      FacesTcSnoc(faces, fi, tcBase, tcConnects);
      counts' := counts' + [|face.vertexIndices|];
      connects' := AppendOffset(connects', face.vertexIndices, |face.vertexIndices|, base);
      if |face.uvIndices| > 0 {
        tcConnects' := AppendOffset(tcConnects', face.uvIndices, |face.vertexIndices|, tcBase);
      }
      fi := fi + 1;
    }
    assert faces[..fi] == faces;
  }

  // One more face, stated on a buffer that already holds `pre`.

  lemma FaceCountsSnoc(faces: seq<Face>, fi: nat, pre: seq<int>)
    requires fi < |faces|
    ensures pre + FaceCounts(faces[..fi]) + [|faces[fi].vertexIndices|] == pre + FaceCounts(faces[..fi + 1])
  {
    assert faces[..fi + 1][..fi] == faces[..fi];
  }

  lemma FaceConnectsSnoc(faces: seq<Face>, fi: nat, base: nat, pre: seq<int>)
    requires fi < |faces|
    ensures pre + FaceConnects(faces[..fi], base) + Offset(faces[fi].vertexIndices[..|faces[fi].vertexIndices|], base)
         == pre + FaceConnects(faces[..fi + 1], base)
  {
    assert faces[..fi + 1][..fi] == faces[..fi];
    assert faces[fi].vertexIndices[..|faces[fi].vertexIndices|] == faces[fi].vertexIndices;
  }

  lemma FacesTcSnoc(faces: seq<Face>, fi: nat, tcBase: nat, pre: seq<int>)
    requires fi < |faces|
    requires forall f :: f in faces ==> FaceReadable(f)
    ensures |faces[fi].uvIndices| >= |faces[fi].vertexIndices| || |faces[fi].uvIndices| == 0
    ensures |faces[fi].uvIndices| > 0 ==>
      pre + FacesTc(faces[..fi], tcBase) + Offset(faces[fi].uvIndices[..|faces[fi].vertexIndices|], tcBase)
      == pre + FacesTc(faces[..fi + 1], tcBase)
    ensures |faces[fi].uvIndices| == 0 ==> pre + FacesTc(faces[..fi], tcBase) == pre + FacesTc(faces[..fi + 1], tcBase)
  {
    assert faces[..fi + 1][..fi] == faces[..fi];
    assert faces[fi] in faces;
  }

  lemma AllUVsStep(gs: seq<Geometry>, gi: nat)
    requires gi < |gs|
    ensures AllUVs(gs[..gi + 1]) == AllUVs(gs[..gi]) + gs[gi].uvs
    ensures Us(AllUVs(gs[..gi + 1])) == Us(AllUVs(gs[..gi])) + Us(gs[gi].uvs)
    ensures Vs(AllUVs(gs[..gi + 1])) == Vs(AllUVs(gs[..gi])) + Vs(gs[gi].uvs)
  {
    assert gs[..gi + 1][..gi] == gs[..gi];
  }

  /** What one more geometry adds to each accumulated buffer. */
  lemma AccumulateStep(gs: seq<Geometry>, gi: nat)
    requires gi < |gs| && GeometriesReadable(gs)
    ensures GeometriesReadable(gs[..gi]) && GeometriesReadable(gs[..gi + 1])
    ensures forall f :: f in gs[gi].faces ==> FaceReadable(f)
    ensures AllVertices(gs[..gi + 1]) == AllVertices(gs[..gi]) + gs[gi].vertices
    ensures AllCounts(gs[..gi + 1]) == AllCounts(gs[..gi]) + FaceCounts(gs[gi].faces)
    ensures AllConnects(gs[..gi + 1]) == AllConnects(gs[..gi]) + FaceConnects(gs[gi].faces, |AllVertices(gs[..gi])|)
    ensures AllTcConnects(gs[..gi + 1]) == AllTcConnects(gs[..gi]) + FacesTc(gs[gi].faces, |AllUVs(gs[..gi])|)
  {
    assert gs[..gi + 1][..gi] == gs[..gi];
    assert gs[gi] in gs;
  }

  /** The accumulation loop: vertices, UVs, counts and connectivity of all
    * geometries, with `base`/`tcBase` moved to the buffer lengths after each
    * geometry. */
  method Accumulate(gs: seq<Geometry>)
    returns (vertices: seq<Vertex>, counts: seq<int>, connects: seq<int>,
             tcsU: seq<real>, tcsV: seq<real>, tcConnects: seq<int>)
    requires GeometriesReadable(gs)
    ensures vertices == AllVertices(gs)
    ensures counts == AllCounts(gs)
    ensures connects == AllConnects(gs)
    ensures tcsU == Us(AllUVs(gs)) && tcsV == Vs(AllUVs(gs))
    ensures tcConnects == AllTcConnects(gs)
  {
    vertices, counts, connects, tcsU, tcsV, tcConnects := [], [], [], [], [], [];
    var base: nat, tcBase: nat := 0, 0;
    var gi := 0;
    while gi < |gs|
      invariant 0 <= gi <= |gs|
      invariant vertices == AllVertices(gs[..gi]) && base == |vertices|
      invariant counts == AllCounts(gs[..gi])
      invariant connects == AllConnects(gs[..gi])
      invariant tcsU == Us(AllUVs(gs[..gi])) && tcsV == Vs(AllUVs(gs[..gi])) && tcBase == |tcsU|
      invariant tcConnects == AllTcConnects(gs[..gi])
    {
      var g := gs[gi];
      AccumulateStep(gs, gi);
      AllUVsStep(gs, gi);

      vertices := AppendVertices(vertices, g.vertices);
      if |g.uvs| > 0 {
        tcsU, tcsV := AppendUVs(tcsU, tcsV, g.uvs);
      } else {
        assert Us(g.uvs) == [] && Vs(g.uvs) == [];
      }
      counts, connects, tcConnects := AppendFaces(g.faces, base, tcBase, counts, connects, tcConnects);

      base := |vertices|;
      tcBase := |tcsU|;
      gi := gi + 1;
    }
    assert gs[..gi] == gs;
  }

  /** The corners 0..n-1 of one face. */
  function CornerRun(face: nat, n: nat): seq<(int, int)>
  {
    seq(n, j requires 0 <= j < n => (face, j))
  }

  /** One more corner bound to the next UV connectivity entry. */
  lemma BindingsSnoc(c: seq<(int, int)>, x: (int, int), tc: seq<int>, a: nat)
    requires a + |c| + 1 <= |tc|
    ensures Bindings(c, tc[a..a + |c|]) + [UVBinding(x.0, x.1, tc[a + |c|])] == Bindings(c + [x], tc[a..a + |c| + 1])
  {
  }

  lemma BindingsAppend(a: seq<(int, int)>, b: seq<(int, int)>, tc: seq<int>, n: nat)
    requires n == |a| && n + |b| <= |tc|
    ensures Bindings(a + b, tc[..n + |b|]) == Bindings(a, tc[..n]) + Bindings(b, tc[n..n + |b|])
  {
  }

  /** The corners of one more face: corner j of face `first + i` for every j
    * below its index count. */
  lemma FaceCornersSnoc(faces: seq<Face>, first: nat, i: nat)
    requires i < |faces|
    ensures FaceCorners(faces[..i + 1], first) == FaceCorners(faces[..i], first) + CornerRun(first + i, |faces[i].vertexIndices|)
    ensures |FaceCorners(faces[..i + 1], first)| <= |FaceCorners(faces, first)|
  {
    assert faces[..i + 1][..i] == faces[..i];
    FaceCornersPrefix(faces, first, i + 1);
  }

  lemma CornerRunSnoc(done: seq<(int, int)>, face: nat, j: nat)
    ensures done + CornerRun(face, j) + [(face, j)] == done + CornerRun(face, j + 1)
  {
    assert CornerRun(face, j + 1) == CornerRun(face, j) + [(face, j)];
  }

  /** The UV walk over the faces of one UV-carrying geometry: for each face,
    * assignUV(curFace, j, tcConnects[uvInd++]) for every corner j below
    * counts[curFace]. */
  method BindFaces(faces: seq<Face>, first: nat, counts: seq<int>, tcConnects: seq<int>, uvInd0: nat)
    returns (uvInd: nat, bound: seq<UVBinding>)
    requires first + |faces| <= |counts|
    requires forall i :: 0 <= i < |faces| ==> counts[first + i] == |faces[i].vertexIndices|
    requires uvInd0 + |FaceCorners(faces, first)| <= |tcConnects|
    ensures uvInd == uvInd0 + |FaceCorners(faces, first)|
    ensures bound == Bindings(FaceCorners(faces, first), tcConnects[uvInd0..uvInd])
  {
    uvInd, bound := uvInd0, [];
    var curFace := first;
    var i := 0;
    while i < |faces|
      invariant 0 <= i <= |faces| && curFace == first + i
      invariant uvInd == uvInd0 + |FaceCorners(faces[..i], first)| <= |tcConnects|
      invariant bound == Bindings(FaceCorners(faces[..i], first), tcConnects[uvInd0..uvInd])
    {
      FaceCornersSnoc(faces, first, i);
      ghost var done := FaceCorners(faces[..i], first);
      var j := 0;
      while j < counts[curFace]
        invariant 0 <= j <= counts[curFace]
        invariant uvInd == uvInd0 + |done| + j
        invariant bound == Bindings(done + CornerRun(curFace, j), tcConnects[uvInd0..uvInd])
      {
        CornerRunSnoc(done, curFace, j);
        BindingsSnoc(done + CornerRun(curFace, j), (curFace, j), tcConnects, uvInd0);
        bound := bound + [UVBinding(curFace, j, tcConnects[uvInd])];
        uvInd := uvInd + 1;
        j := j + 1;
      }
      curFace := curFace + 1;
      i := i + 1;
    }
    assert faces[..i] == faces;
  }

  /** The corners of a UV-carrying geometry `gi` fit in the UV
    * connectivity after those of the earlier geometries. */
  lemma CornersFit(gs: seq<Geometry>, gi: nat, tcConnects: seq<int>, startFace: nat, uvInd0: nat)
    requires gi < |gs| && |gs[gi].uvs| > 0
    requires |WalkCorners(gs)| <= |tcConnects|
    requires startFace == |AllCounts(gs[..gi])| && uvInd0 == |WalkCorners(gs[..gi])|
    ensures uvInd0 + |FaceCorners(gs[gi].faces, startFace)| <= |tcConnects|
  {
    CornersStep(gs, gi);
    PrefixCornersBound(gs, gi + 1);
  }

  /** Appending the bindings of a UV-carrying geometry `gi` to those of the
    * earlier geometries gives the bindings of the first gi + 1. */
  lemma BindPost(gs: seq<Geometry>, gi: nat, tcConnects: seq<int>, startFace: nat, uvInd0: nat, uvInd: nat,
                 bindings0: seq<UVBinding>, bound: seq<UVBinding>)
    requires gi < |gs| && |gs[gi].uvs| > 0
    requires startFace == |AllCounts(gs[..gi])| && uvInd0 == |WalkCorners(gs[..gi])|
    requires uvInd == uvInd0 + |FaceCorners(gs[gi].faces, startFace)| <= |tcConnects|
    requires bound == Bindings(FaceCorners(gs[gi].faces, startFace), tcConnects[uvInd0..uvInd])
    requires bindings0 == Bindings(WalkCorners(gs[..gi]), tcConnects[..uvInd0])
    ensures uvInd == |WalkCorners(gs[..gi + 1])| <= |tcConnects|
    ensures bindings0 + bound == Bindings(WalkCorners(gs[..gi + 1]), tcConnects[..uvInd])
  {
    CornersStep(gs, gi);
    var before := WalkCorners(gs[..gi]);
    var corners := FaceCorners(gs[gi].faces, startFace);
    assert WalkCorners(gs[..gi + 1]) == before + corners;
    assert uvInd == uvInd0 + |corners|;
    BindingsAppend(before, corners, tcConnects, uvInd0);
    calc {
      Bindings(WalkCorners(gs[..gi + 1]), tcConnects[..uvInd]);
      Bindings(before + corners, tcConnects[..uvInd0 + |corners|]);
      Bindings(before, tcConnects[..uvInd0]) + Bindings(corners, tcConnects[uvInd0..uvInd0 + |corners|]);
    }
  }

  /** The UV walk of geometry `gi`, started at uvInd: extends the bindings
    * of the earlier geometries to those of the first gi + 1. */
  method BindGeometry(gs: seq<Geometry>, gi: nat, counts: seq<int>, tcConnects: seq<int>,
                      startFace: nat, uvInd0: nat, bindings0: seq<UVBinding>)
    returns (uvInd: nat, bindings: seq<UVBinding>)
    requires gi < |gs|
    requires counts == AllCounts(gs)
    requires |WalkCorners(gs)| <= |tcConnects|
    requires startFace == |AllCounts(gs[..gi])|
    requires uvInd0 == |WalkCorners(gs[..gi])| <= |tcConnects|
    requires bindings0 == Bindings(WalkCorners(gs[..gi]), tcConnects[..uvInd0])
    ensures uvInd == |WalkCorners(gs[..gi + 1])| <= |tcConnects|
    ensures bindings == Bindings(WalkCorners(gs[..gi + 1]), tcConnects[..uvInd])
  {
    var g := gs[gi];
    if |g.uvs| > 0 {
      CountsSlots(gs, gi, counts, startFace);
      CornersFit(gs, gi, tcConnects, startFace, uvInd0);
      var bound;
      uvInd, bound := BindFaces(g.faces, startFace, counts, tcConnects, uvInd0);
      BindPost(gs, gi, tcConnects, startFace, uvInd0, uvInd, bindings0, bound);
      bindings := bindings0 + bound;
    } else {
      CornersStep(gs, gi);
      uvInd, bindings := uvInd0, bindings0;
    }
  }

  /** The shading-group part of one geometry's material step: a group and
    * a (first, last) range when the geometry spans at least two faces. */
  method ShadeGeometry(gs: seq<Geometry>, gi: nat, schemeFile: String, execute: String -> String,
                       mdata: MayaData, startFace: nat, ghost groups0: seq<String>, ghost ranges0: seq<int>)
    requires gi < |gs|
    requires SchemeFits(gs, schemeFile)
    requires startFace == |AllCounts(gs[..gi])|
    requires mdata.shadingGroups == groups0 + ShadingGroups(gs[..gi], schemeFile, execute)
    requires mdata.shadingRanges == ranges0 + ShadingRanges(gs[..gi])
    modifies mdata
    ensures mdata.shadingGroups == groups0 + ShadingGroups(gs[..gi + 1], schemeFile, execute)
    ensures mdata.shadingRanges == ranges0 + ShadingRanges(gs[..gi + 1])
  {
    var g := gs[gi];
    assert g in gs;
    var texName := TextureName(g, schemeFile);
    var curFace := startFace + |g.faces|;
    if curFace - 1 > startFace {
      var result := execute(ShadingGroupCommand(texName));
      ShadeStep(gs, gi, schemeFile, execute, groups0, ranges0, mdata.shadingGroups, mdata.shadingRanges,
                [result], [startFace, curFace - 1]);
      mdata.shadingGroups := mdata.shadingGroups + [result];
      mdata.shadingRanges := mdata.shadingRanges + [startFace, curFace - 1];
    } else {
      ShadeStep(gs, gi, schemeFile, execute, groups0, ranges0, mdata.shadingGroups, mdata.shadingRanges, [], []);
    }
  }

  /** Appending the group and range of geometry `gi` to those of the
    * earlier geometries gives those of the first gi + 1. */
  lemma ShadeStep(gs: seq<Geometry>, gi: nat, schemeFile: String, execute: String -> String,
                  groups0: seq<String>, ranges0: seq<int>, groups: seq<String>, ranges: seq<int>,
                  newGroups: seq<String>, newRanges: seq<int>)
    requires gi < |gs|
    requires SchemeFits(gs, schemeFile)
    requires groups == groups0 + ShadingGroups(gs[..gi], schemeFile, execute)
    requires ranges == ranges0 + ShadingRanges(gs[..gi])
    requires gs[gi] in gs
    requires newGroups == (if |gs[gi].faces| > 1 then [execute(ShadingGroupCommand(TextureName(gs[gi], schemeFile)))] else [])
    requires newRanges == FaceRange(|AllCounts(gs[..gi])|, |gs[gi].faces|)
    ensures SchemeFits(gs[..gi + 1], schemeFile)
    ensures groups + newGroups == groups0 + ShadingGroups(gs[..gi + 1], schemeFile, execute)
    ensures ranges + newRanges == ranges0 + ShadingRanges(gs[..gi + 1])
  {
    GroupsStep(gs, gi, schemeFile, execute);
    GroupsAppendAssociative(groups0, ShadingGroups(gs[..gi], schemeFile, execute), newGroups);
    RangesStep(gs, gi);
    RangesAppendAssociative(ranges0, ShadingRanges(gs[..gi]), newRanges);
  }

  lemma GroupsAppendAssociative(a: seq<String>, b: seq<String>, c: seq<String>)
    ensures (a + b) + c == a + (b + c)
  {
  }

  lemma RangesAppendAssociative(a: seq<int>, b: seq<int>, c: seq<int>)
    ensures (a + b) + c == a + (b + c)
  {
  }

  /** The material pass: bind every corner of every UV-carrying geometry to
    * the next UV connectivity entry, and give each geometry spanning at
    * least two faces a shading group and a (first, last) face range. */
  method WalkMaterials(gs: seq<Geometry>, counts: seq<int>, tcConnects: seq<int>,
                       schemeFile: String, execute: String -> String, mdata: MayaData)
    returns (bindings: seq<UVBinding>)
    requires counts == AllCounts(gs)
    requires SchemeFits(gs, schemeFile)
    requires |WalkCorners(gs)| <= |tcConnects|
    modifies mdata
    ensures bindings == Bindings(WalkCorners(gs), tcConnects)
    ensures mdata.shadingGroups == old(mdata.shadingGroups) + ShadingGroups(gs, schemeFile, execute)
    ensures mdata.shadingRanges == old(mdata.shadingRanges) + ShadingRanges(gs)
  {
    bindings := [];
    var uvInd: nat, curFace: nat := 0, 0;
    var gi := 0;
    while gi < |gs|
      invariant 0 <= gi <= |gs|
      invariant curFace == |AllCounts(gs[..gi])|
      invariant uvInd == |WalkCorners(gs[..gi])| <= |tcConnects|
      invariant bindings == Bindings(WalkCorners(gs[..gi]), tcConnects[..uvInd])
      invariant mdata.shadingGroups == old(mdata.shadingGroups) + ShadingGroups(gs[..gi], schemeFile, execute)
      invariant mdata.shadingRanges == old(mdata.shadingRanges) + ShadingRanges(gs[..gi])
    {
      RangesStep(gs, gi);
      uvInd, bindings := BindGeometry(gs, gi, counts, tcConnects, curFace, uvInd, bindings);
      ShadeGeometry(gs, gi, schemeFile, execute, mdata, curFace, old(mdata.shadingGroups), old(mdata.shadingRanges));
      curFace := curFace + |gs[gi].faces|;
      gi := gi + 1;
    }
    assert gs[..gi] == gs;
    BindingsPrefix(WalkCorners(gs), tcConnects, uvInd);
  }

  lemma BindingsPrefix(c: seq<(int, int)>, tc: seq<int>, n: nat)
    requires |c| <= n <= |tc|
    ensures Bindings(c, tc[..n]) == Bindings(c, tc)
  {
    assert forall k :: 0 <= k < |c| ==> Bindings(c, tc[..n])[k] == Bindings(c, tc)[k];
  }

  lemma {:induction false} PrefixCountsBound(gs: seq<Geometry>, k: nat)
    requires k <= |gs|
    ensures |AllCounts(gs[..k])| <= |AllCounts(gs)|
    ensures AllCounts(gs[..k]) == AllCounts(gs)[..|AllCounts(gs[..k])|]
    decreases |gs|
  {
    if k < |gs| {
      var init := gs[..|gs| - 1];
      assert init[..k] == gs[..k];
      PrefixCountsBound(init, k);
      var p := AllCounts(gs[..k]);
      assert AllCounts(gs) == AllCounts(init) + FaceCounts(gs[|gs| - 1].faces);
      assert AllCounts(gs)[..|p|] == AllCounts(init)[..|p|];
    } else {
      assert gs[..k] == gs;
    }
  }

  // Unfolding the per-geometry reference definitions one geometry further,
  // one definition per lemma.

  lemma RangesStep(gs: seq<Geometry>, gi: nat)
    requires gi < |gs|
    ensures |AllCounts(gs[..gi + 1])| == |AllCounts(gs[..gi])| + |gs[gi].faces|
    ensures ShadingRanges(gs[..gi + 1]) == ShadingRanges(gs[..gi]) + FaceRange(|AllCounts(gs[..gi])|, |gs[gi].faces|)
  {
    assert gs[..gi + 1][..gi] == gs[..gi] && gs[..gi + 1][gi] == gs[gi];
    FaceCountsLength(gs[gi].faces);
  }

  lemma GroupsStep(gs: seq<Geometry>, gi: nat, schemeFile: String, execute: String -> String)
    requires gi < |gs|
    requires SchemeFits(gs, schemeFile)
    ensures SchemeFits(gs[..gi + 1], schemeFile) && SchemeFits(gs[..gi], schemeFile)
    ensures ShadingGroups(gs[..gi + 1], schemeFile, execute)
         == ShadingGroups(gs[..gi], schemeFile, execute)
            + (if |gs[gi].faces| > 1 then [execute(ShadingGroupCommand(TextureName(gs[gi], schemeFile)))] else [])
  {
    assert gs[..gi + 1][..gi] == gs[..gi] && gs[..gi + 1][gi] == gs[gi];
    assert gs[gi] in gs;
  }

  lemma CornersStep(gs: seq<Geometry>, gi: nat)
    requires gi < |gs|
    ensures |gs[gi].uvs| > 0 ==>
      WalkCorners(gs[..gi + 1]) == WalkCorners(gs[..gi]) + FaceCorners(gs[gi].faces, |AllCounts(gs[..gi])|)
    ensures |gs[gi].uvs| == 0 ==> WalkCorners(gs[..gi + 1]) == WalkCorners(gs[..gi])
  {
    assert gs[..gi + 1][..gi] == gs[..gi] && gs[..gi + 1][gi] == gs[gi];
  }

  /** The faces of geometry `gi` occupy the next slots of the merged counts. */
  lemma CountsSlots(gs: seq<Geometry>, gi: nat, counts: seq<int>, startFace: nat)
    requires gi < |gs|
    requires counts == AllCounts(gs) && startFace == |AllCounts(gs[..gi])|
    ensures startFace + |gs[gi].faces| <= |counts|
    ensures forall i :: 0 <= i < |gs[gi].faces| ==> counts[startFace + i] == |gs[gi].faces[i].vertexIndices|
  {
    var g := gs[gi];
    var cur := AllCounts(gs[..gi + 1]);
    assert gs[..gi + 1][..gi] == gs[..gi] && gs[..gi + 1][gi] == g;
    assert cur == AllCounts(gs[..gi]) + FaceCounts(g.faces);
    FaceCountsLength(g.faces);
    PrefixCountsBound(gs, gi + 1);
    forall i | 0 <= i < |g.faces|
      ensures counts[startFace + i] == |g.faces[i].vertexIndices|
    {
      assert counts[startFace + i] == cur[startFace + i];
    }
  }

  lemma {:induction false} PrefixCornersBound(gs: seq<Geometry>, k: nat)
    requires k <= |gs|
    ensures |WalkCorners(gs[..k])| <= |WalkCorners(gs)|
    decreases |gs|
  {
    if k < |gs| {
      assert gs[..|gs| - 1][..k] == gs[..k];
      PrefixCornersBound(gs[..|gs| - 1], k);
    } else {
      assert gs[..k] == gs;
    }
  }

  lemma {:induction false} FaceCornersPrefix(faces: seq<Face>, first: nat, k: nat)
    requires k <= |faces|
    ensures |FaceCorners(faces[..k], first)| <= |FaceCorners(faces, first)|
    decreases |faces|
  {
    if k < |faces| {
      assert faces[..|faces| - 1][..k] == faces[..k];
      FaceCornersPrefix(faces[..|faces| - 1], first, k);
    } else {
      assert faces[..k] == faces;
    }
  }

  /** convertGeometry: the merged mesh, then (shading groups and ranges
    * cleared first) the material pass, which runs only when the output plug
    * has connections and some face carried UV indices. */
  method ConvertGeometry(gs: seq<Geometry>, schemeFile: String, plugConnected: bool,
                         execute: String -> String, mdata: MayaData)
    returns (mesh: Mesh)
    requires GeometriesReadable(gs)
    requires SchemeFits(gs, schemeFile)
    requires plugConnected && |AllTcConnects(gs)| > 0 ==> |WalkCorners(gs)| <= |AllTcConnects(gs)|
    modifies mdata
    ensures mesh.vertices == AllVertices(gs)
    ensures mesh.counts == AllCounts(gs)
    ensures mesh.connects == AllConnects(gs)
    ensures var runs := plugConnected && |AllTcConnects(gs)| > 0;
      && mesh.uvLayer == (if runs then AllUVs(gs) else [])
      && mesh.bindings == (if runs then Bindings(WalkCorners(gs), AllTcConnects(gs)) else [])
      && mdata.shadingGroups == (if runs then ShadingGroups(gs, schemeFile, execute) else [])
      && mdata.shadingRanges == (if runs then ShadingRanges(gs) else [])
  {
    var vertices, counts, connects, tcsU, tcsV, tcConnects := Accumulate(gs);
    mesh := Mesh(vertices, counts, connects, [], []);

    mdata.shadingGroups := [];
    mdata.shadingRanges := [];

    if plugConnected && |tcConnects| > 0 {
      ZipUsVs(AllUVs(gs));
      var layer := Zip(tcsU, tcsV);
      var bindings := WalkMaterials(gs, counts, tcConnects, schemeFile, execute, mdata);
      mesh := mesh.(uvLayer := layer, bindings := bindings);
    }
  }
}
