// The older generation of the plug-in's helpers (util/Utilities.cpp and
// util/MayaUtilities.cpp): file names of paths, the colour buffer writer,
// Maya-safe identifiers and the temporary-directory fallback chain. Its
// fromHex and toHex have the same bodies as the newer ones and are the
// functions Utilities.FromHex and Utilities.ToHex.

module MayaUtilities {
  import opened Text

  /** The character toCleanId keeps: an ASCII digit or letter; anything else becomes '_'. */
  function CleanIdChar(c: char): (d: char)
    ensures IsAsciiAlnum(c) ==> d == c
    ensures !IsAsciiAlnum(c) ==> d == '_'
  {
    if ('0' <= c <= '9') || ('A' <= c <= 'Z') || ('a' <= c <= 'z') then c else '_'
  }

  /** The identifier toCleanId produces. */
  function CleanId(name: String): (r: String)
    ensures |r| == |name|
    ensures forall i :: 0 <= i < |name| ==> r[i] == CleanIdChar(name[i])
  {
    seq(|name|, i requires 0 <= i < |name| => CleanIdChar(name[i]))
  }

  /** mu::toCleanId: fill a buffer of `numChars() + 1` characters one by one
    * and terminate it; the result is the text before the terminator. */
  method ToCleanId(name: String) returns (r: String)
    ensures r == CleanId(name)
  {
    var len := |name|;
    var dst := new char[len + 1];
    for i := 0 to len
      invariant forall k :: 0 <= k < i ==> dst[k] == CleanIdChar(name[k])
    {
      var c := name[i];
      if ('0' <= c <= '9') || ('A' <= c <= 'Z') || ('a' <= c <= 'z') {
        dst[i] := c;
      } else {
        dst[i] := '_';
      }
    }
    dst[len] := '\0';
    r := dst[..len];
  }

  /** Cleaned identifiers only hold ASCII letters, digits and '_'. */
  lemma CleanIdCharset(name: String)
    ensures forall i :: 0 <= i < |CleanId(name)| ==> IsAsciiAlnum(CleanId(name)[i]) || CleanId(name)[i] == '_'
  {
  }

  /** Cleaning a cleaned identifier changes nothing. */
  lemma CleanIdIdempotent(name: String)
    ensures CleanId(CleanId(name)) == CleanId(name)
  {
  }
}

module LegacyUtilities {
  import opened Wrappers
  import opened Text
  import Utilities
  import MayaUtilities

  const PathSeparator: char := '/'

  /** filename: the text after the last '/', or the whole path without one. */
  function Filename(path: String): (name: String)
    ensures PathSeparator !in name
    ensures IsSuffix(name, path)
    ensures PathSeparator !in path ==> name == path
  {
    match LastOf(path, {PathSeparator})
    case None => path
    case Some(p) => path[p + 1..]
  }

  /** A path with a separator is its directory part, '/', and its file name. */
  lemma FilenameSplit(path: String)
    requires PathSeparator in path
    ensures exists dir :: path == dir + [PathSeparator] + Filename(path)
  {
    var p := LastOf(path, {PathSeparator}).value;
    assert path == path[..p] + [PathSeparator] + path[p + 1..];
  }

  /** toHex(color, r, g, b): write the six digits of the three truncated
    * channel values into positions 1..6; position 0 and anything after
    * position 6 stay as they were. */
  method ToHexColor(color: array<char>, r: int, g: int, b: int)
    requires color.Length >= 7
    modifies color
    ensures color[0] == old(color[0])
    ensures color[1..7] == Utilities.ColorString(r, g, b)[1..]
    ensures color[7..] == old(color[7..])
  {
    color[1] := Utilities.ToHex(r / 16);
    color[2] := Utilities.ToHex(r);
    color[3] := Utilities.ToHex(g / 16);
    color[4] := Utilities.ToHex(g);
    color[5] := Utilities.ToHex(b / 16);
    color[6] := Utilities.ToHex(b);
  }

  /** prtu::toCleanId has the same body as mu::toCleanId. */
  method ToCleanId(name: String) returns (r: String)
    ensures r == MayaUtilities.CleanId(name)
  {
    r := MayaUtilities.ToCleanId(name);
  }

  /** The older identifier cleaning agrees with the newer replace_all_not_of
    * over the Maya-compatible characters: '_' is kept by one and written by
    * the other. */
  lemma CleanIdIsReplacedNotOf(name: String)
    ensures MayaUtilities.CleanId(name) == Utilities.ReplacedNotOf(name, Utilities.MayaCompatibleChars)
  {
    forall i | 0 <= i < |name|
      ensures MayaUtilities.CleanId(name)[i] == Utilities.ReplacedNotOf(name, Utilities.MayaCompatibleChars)[i]
    {
      Utilities.InMayaCompatibleChars(name[i]);
    }
  }

  /** The environment variables temp_directory_path consults, in order. */
  const TempVariables: seq<String> := ["TMPDIR", "TMP", "TEMP", "TEMPDIR"]
  const DefaultTempDirectory: String := "/tmp"

  /** temp_directory_path outside Windows: the first of TMPDIR, TMP, TEMP and
    * TEMPDIR that is set, else "/tmp". The environment is the map `env`. */
  function TempDirectoryPath(env: map<String, String>): (dir: String)
    ensures forall i :: 0 <= i < |TempVariables| && TempVariables[i] in env ==>
                        (exists j :: 0 <= j < i && TempVariables[j] in env) || dir == env[TempVariables[i]]
    ensures (forall i :: 0 <= i < |TempVariables| ==> TempVariables[i] !in env) ==> dir == DefaultTempDirectory
  {
    assert TempVariables[0] == "TMPDIR" && TempVariables[1] == "TMP";
    assert TempVariables[2] == "TEMP" && TempVariables[3] == "TEMPDIR";
    if "TMPDIR" in env then env["TMPDIR"]
    else if "TMP" in env then env["TMP"]
    else if "TEMP" in env then env["TEMP"]
    else if "TEMPDIR" in env then env["TEMPDIR"]
    else DefaultTempDirectory
  }
}
