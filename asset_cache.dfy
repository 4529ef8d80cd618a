// The asset cache (utils/AssetCache.cpp): assets the encoder hands over
// (textures and the like) are written once into the workspace's
// assets/serlio_assets directory under a name that carries the hash of their
// content, and a table maps each URI to the cached path and that hash.
//
// The file system is a map from paths to contents; whether opening or
// writing a file, or removing one, fails is an input, as is the content hash
// (std::hash of the byte buffer) and the workspace root.

module AssetCache {
  import opened Wrappers
  import opened Text
  import LegacyUtilities

  newtype Byte = b: int | 0 <= b < 256

  const MayaAssetFolder: String := "assets"
  const SerlioAssetFolder: String := "serlio_assets"

  // ---------------------------------------------------------------------
  // std::filesystem::path composition
  // ---------------------------------------------------------------------

  /** p / q: an absolute q replaces p; otherwise a separator is inserted
    * unless p is empty or already ends in one. */
  function PathJoin(p: String, q: String): (r: String)
    ensures |q| > 0 && q[0] == '/' ==> r == q
    ensures (|q| == 0 || q[0] != '/') && |p| > 0 && p[|p| - 1] != '/' ==> r == p + "/" + q
  {
    if |q| > 0 && q[0] == '/' then q
    else if |p| == 0 || p[|p| - 1] == '/' then p + q
    else p + "/" + q
  }

  /** path::extension of a file name: from its last '.', except for "." and
    * "..", a name without a '.', or a name whose only '.' leads. */
  function Extension(name: String): (ext: String)
    ensures IsSuffix(ext, name)
    ensures |ext| > 0 ==> ext[0] == '.' && |ext| < |name|
  {
    if name == "." || name == ".." then ""
    else match LastOf(name, {'.'})
      case None => ""
      case Some(p) => if p == 0 then "" else name[p..]
  }

  /** path::stem: the file name without its extension. */
  function Stem(name: String): (stem: String)
    ensures stem + Extension(name) == name
  {
    var ext := Extension(name);
    assert name == name[..|name| - |ext|] + name[|name| - |ext|..];
    name[..|name| - |ext|]
  }

  /** The cache directory: <workspace>/assets/serlio_assets. */
  function AssetsDir(workspaceRoot: String): (dir: String)
    ensures |dir| > 0 && dir[|dir| - 1] != '/'
  {
    var d := PathJoin(PathJoin(workspaceRoot, MayaAssetFolder), SerlioAssetFolder);
    assert d[|d| - 1] == 's';
    d
  }

  /** The name of a cached asset: stem, '_', the decimal hash, extension. */
  function CachedName(fileName: String, hash: nat): String
  {
    var file := LegacyUtilities.Filename(fileName);
    Stem(file) + "_" + NatToString(hash) + Extension(file)
  }

  /** getCachedPath: <workspace>/assets/serlio_assets/<stem>_<hash><ext>. */
  function CachedPath(workspaceRoot: String, fileName: String, hash: nat): (path: String)
    ensures path == AssetsDir(workspaceRoot) + "/" + CachedName(fileName, hash)
    ensures |path| > 0
  {
    var name := CachedName(fileName, hash);
    assert name[0] != '/' by {
      var stem := Stem(LegacyUtilities.Filename(fileName));
      if |stem| > 0 {
        assert stem[0] == LegacyUtilities.Filename(fileName)[0];
        assert stem[0] in LegacyUtilities.Filename(fileName);
      } else {
        assert name[0] == '_';
      }
    }
    PathJoin(AssetsDir(workspaceRoot), name)
  }

  /** Two contents of the same file name with different hashes are cached
    * under different paths. */
  lemma CachedPathHashInjective(workspaceRoot: String, fileName: String, h1: nat, h2: nat)
    ensures CachedPath(workspaceRoot, fileName, h1) == CachedPath(workspaceRoot, fileName, h2) ==> h1 == h2
  {
    var file := LegacyUtilities.Filename(fileName);
    var dir, stem, ext := AssetsDir(workspaceRoot) + "/", Stem(file) + "_", Extension(file);
    var d1, d2 := NatToString(h1), NatToString(h2);
    if CachedPath(workspaceRoot, fileName, h1) == CachedPath(workspaceRoot, fileName, h2) {
      assert CachedPath(workspaceRoot, fileName, h1) == dir + (stem + d1 + ext);
      assert CachedPath(workspaceRoot, fileName, h2) == dir + (stem + d2 + ext);
      MiddleCancel(dir, stem, d1, d2, ext);
      NatToStringInjective(h1, h2);
    }
  }

  /** Common leading and trailing parts cancel. */
  lemma MiddleCancel(dir: String, stem: String, x: String, y: String, ext: String)
    requires dir + (stem + x + ext) == dir + (stem + y + ext)
    ensures x == y
  {
    var s := dir + (stem + x + ext);
    assert |x| == |y|;
    assert x == s[|dir| + |stem|..|dir| + |stem| + |x|];
  }

  // ---------------------------------------------------------------------
  // Files
  // ---------------------------------------------------------------------

  type Files = map<String, seq<Byte>>

  /** What happens when writeCacheEntry writes a missing file: the stream
    * opens and the write completes; the stream does not open, so no file is
    * created; or the stream opens, truncating the file, and the write fails
    * after `written` bytes, which stay on disk. */
  datatype WriteResult = Written | OpenFails | WriteFails(written: nat)

  /** The bytes left on disk by a write of `buffer` with the given result. */
  function Kept(buffer: seq<Byte>, result: WriteResult): (kept: seq<Byte>)
    ensures kept <= buffer
    ensures result == Written ==> kept == buffer
  {
    if result.WriteFails? && result.written < |buffer| then buffer[..result.written] else buffer
  }

  /** The outcome of writeCacheEntry: whether it succeeded, and the files. */
  datatype WriteOutcome = WriteOutcome(ok: bool, files: Files)

  /** writeCacheEntry: an existing target counts as written and is left alone.
    * Otherwise the write succeeds only when it completes; a stream that does
    * not open creates nothing, and a write that fails after opening leaves
    * the truncated file with what was written. No other file changes. */
  function WriteEntry(files: Files, path: String, buffer: seq<Byte>, result: WriteResult): (w: WriteOutcome)
    ensures path in files ==> w == WriteOutcome(true, files)
    ensures path !in files ==> (w.ok <==> result == Written)
    ensures w.ok ==> path in w.files
    ensures path !in files && result == Written ==> w.files[path] == buffer
    ensures path !in files && result.WriteFails? ==> path in w.files && w.files[path] <= buffer
    ensures result == OpenFails ==> w.files == files
    ensures forall p :: p != path ==> (p in w.files <==> p in files) && (p in files ==> w.files[p] == files[p])
  {
    if path in files then WriteOutcome(true, files)
    else if result == OpenFails then WriteOutcome(false, files)
    else WriteOutcome(result == Written, files[path := Kept(buffer, result)])
  }

  /** removeCacheEntry: the file is gone unless removing it fails, in which
    * case only a warning is logged. */
  function RemoveEntry(files: Files, path: String, removeSucceeds: bool): (r: Files)
    ensures removeSucceeds ==> path !in r
    ensures forall p :: p != path ==> (p in r <==> p in files)
    ensures !removeSucceeds ==> r == files
  {
    if removeSucceeds then files - {path} else files
  }

  // ---------------------------------------------------------------------
  // put
  // ---------------------------------------------------------------------

  /** A cache entry: the cached path and the content hash. */
  datatype Entry = Entry(path: String, hash: nat)

  type Table = map<String, Entry>

  /** std::unordered_map::emplace: no effect when the key is present. */
  function Emplace(table: Table, key: String, e: Entry): (r: Table)
    ensures key in table ==> r == table
    ensures key !in table ==> r == table[key := e]
  {
    if key in table then table else table[key := e]
  }

  /** The outcome of put: the returned path (empty on failure), the table
    * and the files. */
  datatype PutOutcome = PutOutcome(path: String, table: Table, files: Files)

  /** What put does, given the content hash, how writing the file ends and
    * whether removing a file succeeds. Only the URI's entry can change, and
    * only the new cached file and the URI's old file can be touched. */
  function PutSpec(table: Table, files: Files, uri: String, fileName: String, buffer: seq<Byte>, hash: nat,
                   workspaceRoot: String, write: WriteResult, removeSucceeds: bool): (o: PutOutcome)
    ensures o.path != "" ==> uri in o.table
    ensures forall k :: k != uri ==> (k in o.table <==> k in table)
    ensures forall k :: k != uri && k in table ==> o.table[k] == table[k]
    ensures forall p :: (p in files && p != CachedPath(workspaceRoot, fileName, hash) &&
                         (uri !in table || p != table[uri].path)) ==> p in o.files && o.files[p] == files[p]
  {
    var newPath := CachedPath(workspaceRoot, fileName, hash);
    var found := uri in table;
    if found && table[uri].hash == hash && newPath in files then
      // reuse the cached asset
      PutOutcome(table[uri].path, table, files)
    else
      var fileWasDeletedByUser := found && table[uri].hash == hash;
      var w := WriteEntry(files, newPath, buffer, write);
      if !w.ok then PutOutcome("", table, w.files)
      else if !found || fileWasDeletedByUser then
        PutOutcome(newPath, Emplace(table, uri, Entry(newPath, hash)), w.files)
      else
        // hash mismatch: the expired file goes, the entry is replaced
        PutOutcome(newPath, table[uri := Entry(newPath, hash)], RemoveEntry(w.files, table[uri].path, removeSucceeds))
  }

  /** A known URI with the same content whose cached file exists: the
    * stored path comes back, nothing is written and the table is kept. */
  lemma PutReuses(table: Table, files: Files, uri: String, fileName: String, buffer: seq<Byte>, hash: nat,
                  workspaceRoot: String, write: WriteResult, removeSucceeds: bool)
    requires uri in table && table[uri].hash == hash
    requires CachedPath(workspaceRoot, fileName, hash) in files
    ensures PutSpec(table, files, uri, fileName, buffer, hash, workspaceRoot, write, removeSucceeds)
            == PutOutcome(table[uri].path, table, files)
  {
  }

  /** A failed write returns the empty path and keeps the table. A stream
    * that does not open leaves the files as they were; a write that fails
    * after opening leaves the truncated file at the cache path. */
  lemma PutWriteFailure(table: Table, files: Files, uri: String, fileName: String, buffer: seq<Byte>, hash: nat,
                        workspaceRoot: String, write: WriteResult, removeSucceeds: bool)
    requires CachedPath(workspaceRoot, fileName, hash) !in files
    requires write != Written
    ensures var o := PutSpec(table, files, uri, fileName, buffer, hash, workspaceRoot, write, removeSucceeds);
            o.path == "" && o.table == table &&
            (write == OpenFails ==> o.files == files) &&
            (write.WriteFails? ==> o.files == files[CachedPath(workspaceRoot, fileName, hash) := Kept(buffer, write)])
  {
  }

  /** After a write that failed part-way, the next put of the same new asset
    * finds the truncated file, counts it as written and returns its path:
    * the cached file then holds only the bytes of the failed write. */
  lemma PutAfterFailedWrite(table: Table, files: Files, uri: String, fileName: String, buffer: seq<Byte>,
                            hash: nat, workspaceRoot: String, written: nat, second: WriteResult,
                            removeSucceeds: bool)
    requires uri !in table
    requires CachedPath(workspaceRoot, fileName, hash) !in files
    ensures var newPath := CachedPath(workspaceRoot, fileName, hash);
            var o1 := PutSpec(table, files, uri, fileName, buffer, hash, workspaceRoot, WriteFails(written), removeSucceeds);
            var o2 := PutSpec(o1.table, o1.files, uri, fileName, buffer, hash, workspaceRoot, second, removeSucceeds);
            o1.path == "" && o2.path == newPath && o2.files == o1.files &&
            o2.table == table[uri := Entry(newPath, hash)] &&
            newPath in o2.files && (written < |buffer| ==> o2.files[newPath] == buffer[..written] != buffer)
  {
  }

  /** A successful put returns a non-empty path: the check for an empty
    * cache path never fires. Apart from reuse, the path returned is the
    * cache path and that file exists afterwards. */
  lemma PutPath(table: Table, files: Files, uri: String, fileName: String, buffer: seq<Byte>, hash: nat,
                workspaceRoot: String, write: WriteResult, removeSucceeds: bool)
    requires CachedPath(workspaceRoot, fileName, hash) in files || write == Written
    ensures var o := PutSpec(table, files, uri, fileName, buffer, hash, workspaceRoot, write, removeSucceeds);
            var newPath := CachedPath(workspaceRoot, fileName, hash);
            (uri in table && table[uri].hash == hash && newPath in files ==> o.path == table[uri].path) &&
            (!(uri in table && table[uri].hash == hash && newPath in files) ==> o.path == newPath && |o.path| > 0) &&
            (uri !in table || table[uri].hash == hash || table[uri].path != newPath || !removeSucceeds ==>
               newPath in o.files)
  {
  }

  /** A new URI is entered with the cache path and the hash; other entries
    * are kept. */
  lemma PutNewUri(table: Table, files: Files, uri: String, fileName: String, buffer: seq<Byte>, hash: nat,
                  workspaceRoot: String, write: WriteResult, removeSucceeds: bool)
    requires uri !in table
    requires CachedPath(workspaceRoot, fileName, hash) in files || write == Written
    ensures PutSpec(table, files, uri, fileName, buffer, hash, workspaceRoot, write, removeSucceeds).table
            == table[uri := Entry(CachedPath(workspaceRoot, fileName, hash), hash)]
  {
  }

  /** A known URI with the same content whose cached file was deleted: the
    * file is written again, but emplace leaves the old entry in place. */
  lemma PutRewritesDeletedFile(table: Table, files: Files, uri: String, fileName: String, buffer: seq<Byte>,
                               hash: nat, workspaceRoot: String, removeSucceeds: bool)
    requires uri in table && table[uri].hash == hash
    requires CachedPath(workspaceRoot, fileName, hash) !in files
    ensures PutSpec(table, files, uri, fileName, buffer, hash, workspaceRoot, Written, removeSucceeds)
            == PutOutcome(CachedPath(workspaceRoot, fileName, hash), table,
                          files[CachedPath(workspaceRoot, fileName, hash) := buffer])
  {
  }

  /** A known URI with new content: the new file is written, the expired one
    * removed (unless that fails) and the entry replaced. */
  lemma PutHashMismatch(table: Table, files: Files, uri: String, fileName: String, buffer: seq<Byte>,
                        hash: nat, workspaceRoot: String, write: WriteResult, removeSucceeds: bool)
    requires uri in table && table[uri].hash != hash
    requires CachedPath(workspaceRoot, fileName, hash) in files || write == Written
    ensures var o := PutSpec(table, files, uri, fileName, buffer, hash, workspaceRoot, write, removeSucceeds);
            o.table == table[uri := Entry(CachedPath(workspaceRoot, fileName, hash), hash)] &&
            (removeSucceeds ==> table[uri].path !in o.files) &&
            (!removeSucceeds ==> CachedPath(workspaceRoot, fileName, hash) in o.files)
  {
  }

  /** Repeating a successful put with the same inputs reuses the entry and
    * changes nothing, unless the first call removed the file it had just
    * written (an expired path equal to the new one). */
  lemma PutTwice(table: Table, files: Files, uri: String, fileName: String, buffer: seq<Byte>, hash: nat,
                 workspaceRoot: String, write: WriteResult, removeSucceeds: bool)
    requires CachedPath(workspaceRoot, fileName, hash) in files || write == Written
    requires uri in table && table[uri].hash != hash ==>
               table[uri].path != CachedPath(workspaceRoot, fileName, hash) || !removeSucceeds
    ensures var o := PutSpec(table, files, uri, fileName, buffer, hash, workspaceRoot, write, removeSucceeds);
            uri in o.table &&
            PutSpec(o.table, o.files, uri, fileName, buffer, hash, workspaceRoot, write, removeSucceeds)
              == PutOutcome(o.table[uri].path, o.table, o.files)
  {
    PutPath(table, files, uri, fileName, buffer, hash, workspaceRoot, write, removeSucceeds);
  }

  /** The directory the cache writes into. */
  class FileSystem {
    var files: Files

    constructor (initial: Files)
      ensures files == initial
    {
      files := initial;
    }

    /** writeCacheEntry. */
    method WriteCacheEntry(assetPath: String, buffer: seq<Byte>, write: WriteResult) returns (ok: bool)
      modifies this
      ensures WriteOutcome(ok, files) == WriteEntry(old(files), assetPath, buffer, write)
    {
      if assetPath in files {
        return true;
      }
      if write == OpenFails {
        return false;
      }
      // the stream truncates the file on opening; then the bytes are written
      files := files[assetPath := Kept(buffer, write)];
      return write == Written;
    }

    /** removeCacheEntry. */
    method RemoveCacheEntry(expiredAssetPath: String, removeSucceeds: bool)
      modifies this
      ensures files == RemoveEntry(old(files), expiredAssetPath, removeSucceeds)
    {
      if removeSucceeds {
        files := files - {expiredAssetPath};
      }
    }
  }

  class AssetCache {
    /** The URI → (cached path, content hash) table. */
    var cache: Table

    constructor ()
      ensures cache == map[]
    {
      cache := map[];
    }

    /** put: cache the asset `buffer` known under `uri` and return its path,
      * or the empty path when it could not be written. */
    method Put(uri: String, fileName: String, buffer: seq<Byte>, hasher: seq<Byte> -> nat, fs: FileSystem,
               workspaceRoot: String, write: WriteResult, removeSucceeds: bool) returns (path: String)
      modifies this, fs
      ensures PutOutcome(path, cache, fs.files) ==
              PutSpec(old(cache), old(fs.files), uri, fileName, buffer, hasher(buffer), workspaceRoot,
                      write, removeSucceeds)
    {
      var hash := hasher(buffer);
      var found := uri in cache;
      var newAssetPath := CachedPath(workspaceRoot, fileName, hash);

      var fileWasDeletedByUser := false;
      // a known URI with the same content hash: serve the stored file
      if found && cache[uri].hash == hash {
        if newAssetPath !in fs.files {
          fileWasDeletedByUser := true;
        } else {
          return cache[uri].path;
        }
      }

      var ok := fs.WriteCacheEntry(newAssetPath, buffer, write);
      if !ok {
        return "";
      }

      if !found || fileWasDeletedByUser {
        cache := Emplace(cache, uri, Entry(newAssetPath, hash));
      } else {
        // the content changed: the old cached file is deleted
        fs.RemoveCacheEntry(cache[uri].path, removeSucceeds);
        cache := cache[uri := Entry(newAssetPath, hash)];
      }
      return newAssetPath;
    }
  }
}
