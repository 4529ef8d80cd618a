// Naming of generated shading groups and shaders: the smallest unused
// numeric suffix (MaterialNameSource::getUniqueName and the loops in the
// material nodes' compute), and the "Sh" -> 'g' rename that turns the name
// of an existing shader into the name of its shading group.

module MaterialNames {
  import opened Wrappers
  import opened Text

  /** The k-th candidate name for a prefix: prefix followed by k in decimal. */
  function Candidate(prefix: String, k: nat): (r: String)
    ensures |r| > |prefix| && r[..|prefix|] == prefix
    ensures forall i :: |prefix| <= i < |r| ==> IsDigit(r[i])
  {
    prefix + NatToString(k)
  }

  lemma CandidateInjective(prefix: String, j: nat, k: nat)
    ensures Candidate(prefix, j) == Candidate(prefix, k) ==> j == k
  {
    if Candidate(prefix, j) == Candidate(prefix, k) {
      assert NatToString(j) == Candidate(prefix, j)[|prefix|..];
      assert NatToString(k) == Candidate(prefix, k)[|prefix|..];
      NatToStringInjective(j, k);
    }
  }

  /** The first n candidates. */
  function Candidates(prefix: String, n: nat): (r: set<String>)
    ensures forall k :: 0 <= k < n ==> Candidate(prefix, k) in r
    decreases n
  {
    if n == 0 then {} else Candidates(prefix, n - 1) + {Candidate(prefix, n - 1)}
  }

  lemma {:induction false} CandidatesMembers(prefix: String, n: nat, s: String)
    requires s in Candidates(prefix, n)
    ensures exists k :: 0 <= k < n && s == Candidate(prefix, k)
    decreases n
  {
    if s != Candidate(prefix, n - 1) {
      CandidatesMembers(prefix, n - 1, s);
    }
  }

  /** The first n candidates are n different names. */
  lemma {:induction false} CandidatesCount(prefix: String, n: nat)
    ensures |Candidates(prefix, n)| == n
    decreases n
  {
    if n > 0 {
      CandidatesCount(prefix, n - 1);
      if Candidate(prefix, n - 1) in Candidates(prefix, n - 1) {
        CandidatesMembers(prefix, n - 1, Candidate(prefix, n - 1));
        var k :| 0 <= k < n - 1 && Candidate(prefix, n - 1) == Candidate(prefix, k);
        CandidateInjective(prefix, n - 1, k);
      }
    }
  }

  lemma {:induction false} SubsetCardinality(a: set<String>, b: set<String>)
    requires a <= b
    ensures |a| <= |b|
    decreases |a|
  {
    if a != {} {
      var x :| x in a;
      SubsetCardinality(a - {x}, b - {x});
    }
  }

  /** k is the smallest suffix whose candidate is not yet taken. */
  predicate IsLeastFree(names: set<String>, prefix: String, k: nat)
  {
    Candidate(prefix, k) !in names &&
    forall j :: 0 <= j < k ==> Candidate(prefix, j) in names
  }

  /** The least free suffix is unique. */
  lemma LeastFreeUnique(names: set<String>, prefix: String, j: nat, k: nat)
    requires IsLeastFree(names, prefix, j) && IsLeastFree(names, prefix, k)
    ensures j == k
  {
  }

  /** The least free suffix at or after k, as a function for specifications. */
  function LeastFreeFrom(names: set<String>, prefix: String, k: nat): (r: nat)
    requires Candidates(prefix, k) <= names
    ensures k <= r <= |names|
    ensures Candidate(prefix, r) !in names
    ensures forall j :: 0 <= j < r ==> Candidate(prefix, j) in names
    decreases |names| - k
  {
    CandidatesCount(prefix, k);
    SubsetCardinality(Candidates(prefix, k), names);
    if Candidate(prefix, k) !in names then k
    else
      CandidatesCount(prefix, k + 1);
      SubsetCardinality(Candidates(prefix, k + 1), names);
      LeastFreeFrom(names, prefix, k + 1)
  }

  /** The smallest suffix whose candidate is free. */
  function LeastFree(names: set<String>, prefix: String): (k: nat)
    ensures IsLeastFree(names, prefix, k) && k <= |names|
  {
    LeastFreeFrom(names, prefix, 0)
  }

  /** Once the chosen name is taken, the next search ends strictly later, so
    * consecutive searches give different names. */
  lemma NextFreeIsLater(names: set<String>, prefix: String, k: nat, next: nat)
    requires IsLeastFree(names, prefix, k)
    requires IsLeastFree(names + {Candidate(prefix, k)}, prefix, next)
    ensures k < next
    ensures Candidate(prefix, k) != Candidate(prefix, next)
  {
    CandidateInjective(prefix, k, next);
  }

  /** The search loop shared by getUniqueName and both material nodes:
    * count up from 0 while prefix + k is taken. It stops by |names| at the
    * latest, because the first |names| + 1 candidates are all different. */
  method SmallestFreeIndex(names: set<String>, prefix: String) returns (k: nat)
    ensures IsLeastFree(names, prefix, k)
    ensures k <= |names|
    ensures k == LeastFree(names, prefix)
  {
    k := 0;
    while Candidate(prefix, k) in names
      invariant Candidates(prefix, k) <= names
      invariant k <= |names|
      decreases |names| - k
    {
      CandidatesCount(prefix, k + 1);
      SubsetCardinality(Candidates(prefix, k + 1), names);
      k := k + 1;
    }
    LeastFreeUnique(names, prefix, k, LeastFree(names, prefix));
  }

  /** The set of shading engine names in the scene, with which the name
    * source starts. */
  function NameSet(nodes: seq<String>): (r: set<String>)
    ensures forall i :: 0 <= i < |nodes| ==> nodes[i] in r
    ensures forall s :: s in r ==> exists i :: 0 <= i < |nodes| && nodes[i] == s
  {
    set i | 0 <= i < |nodes| :: nodes[i]
  }

  /** MaterialNameSource: the set of names already handed out or present in
    * the scene. */
  class MaterialNameSource {
    var names: set<String>

    /** Collects the names of all shading engine nodes. */
    constructor(shadingEngines: seq<String>)
      ensures names == NameSet(shadingEngines)
    {
      var collected: set<String> := {};
      for i := 0 to |shadingEngines|
        invariant collected == NameSet(shadingEngines[..i])
      {
        assert shadingEngines[..i + 1] == shadingEngines[..i] + [shadingEngines[i]];
        collected := collected + {shadingEngines[i]};
      }
      assert shadingEngines[..|shadingEngines|] == shadingEngines;
      names := collected;
    }

    /** The shading engine gets the smallest free suffix and is recorded; the
      * shader shares the suffix and is not checked against the set. */
    method GetUniqueName(baseName: String) returns (shadingEngineName: String, shaderName: String)
      modifies this
      ensures exists k: nat ::
        IsLeastFree(old(names), baseName + "Sg", k) &&
        shadingEngineName == Candidate(baseName + "Sg", k) &&
        shaderName == Candidate(baseName + "Sh", k)
      ensures shadingEngineName !in old(names)
      ensures names == old(names) + {shadingEngineName}
    {
      var sgPrefix := baseName + "Sg";
      var shIdx := SmallestFreeIndex(names, sgPrefix);
      shadingEngineName := Candidate(sgPrefix, shIdx);
      names := names + {shadingEngineName};
      shaderName := Candidate(baseName + "Sh", shIdx);
    }
  }

  /** std::wstring::find_last_of(L"Sh") followed by replacing that character
    * with 'g'; a name holding neither character is left as it is. */
  function ShadingGroupOfShader(matName: String): (r: String)
    ensures |r| == |matName|
    ensures LastOf(matName, {'S', 'h'}).None? ==> r == matName
    ensures LastOf(matName, {'S', 'h'}).Some? ==>
      r == matName[LastOf(matName, {'S', 'h'}).value := 'g']
  {
    match LastOf(matName, {'S', 'h'})
    case None => matName
    case Some(idx) => matName[idx := 'g']
  }

  /** For a generated shader name prefix + "Sh" + k the rename yields the
    * matching shading group prefix + "Sg" + k, whatever the prefix. */
  lemma GeneratedShadingGroup(prefix: String, k: nat)
    ensures ShadingGroupOfShader(Candidate(prefix + "Sh", k)) == Candidate(prefix + "Sg", k)
  {
    var s := Candidate(prefix + "Sh", k);
    var h := |prefix| + 1;
    assert s[h] == 'h';
    assert s[h] in {'S', 'h'};
    assert forall i :: h < i < |s| ==> IsDigit(s[i]);
    assert LastOf(s, {'S', 'h'}) == Some(h);
    var r := s[h := 'g'];
    assert r == Candidate(prefix + "Sg", k);
  }

  /** The rename edits only the last 'S' or 'h', so a name whose suffix after
    * that character is not a number is still renamed there: a user shader
    * "blush" maps to "blusg". */
  lemma RenameIgnoresConvention()
    ensures ShadingGroupOfShader("blush") == "blusg"
  {
    assert "blush"[4] == 'h';
    assert LastOf("blush", {'S', 'h'}) == Some(4);
  }
}
