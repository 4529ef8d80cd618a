// The resolve-map caches: a rule package (.rpk) is unpacked into an engine
// resolve map once and kept, keyed by the package path, together with the
// package file's modification time; a lookup with a newer (or older) time
// drops the entry and reloads the package. Three generations exist side by
// side: utils/ResolveMapCache.cpp, util/ResolveMapCache.cpp (which also
// removes the package's unpack directory) and
// client/prtModifier/ResolveMapCache.cpp (which reads the time itself).
//
// The modification time and the engine's createResolveMap are inputs: the
// time as an integer, the engine's result as an optional handle (none when
// the engine reports an error). The unpack directories live in a set of
// paths.

module ResolveMapCache {
  import opened Wrappers
  import opened Text
  import LegacyUtilities
  import AssetCache

  datatype CacheStatus = Hit | Miss

  /** A handle to a resolve map created by the engine. */
  datatype ResolveMap = ResolveMap(id: nat)

  /** The result of get: the resolve map (none on failure) and the status. */
  datatype LookupResult = LookupResult(resolveMap: Option<ResolveMap>, status: CacheStatus)

  const LookupFailure: LookupResult := LookupResult(None, Miss)

  datatype Entry = Entry(resolveMap: ResolveMap, timeStamp: int)

  type Cache = map<String, Entry>

  datatype GetOutcome = GetOutcome(result: LookupResult, cache: Cache)

  /** The entry for `key` exists but was stored with a different time. */
  predicate Stale(cache: Cache, key: String, timeStamp: int)
  {
    key in cache && cache[key].timeStamp != timeStamp
  }

  /** What get does in every generation, given the time read for the
    * package, the value that marks an unreadable time, and what the engine
    * returns when the package is (re)loaded. */
  function GetSpec(cache: Cache, key: String, timeStamp: int, invalid: int, created: Option<ResolveMap>): (o: GetOutcome)
    ensures forall k :: k != key ==> (k in o.cache <==> k in cache)
    ensures forall k :: k != key && k in cache ==> o.cache[k] == cache[k]
    ensures timeStamp != invalid && key in o.cache ==> o.cache[key].timeStamp == timeStamp
    ensures o.result.resolveMap.Some? ==> key in o.cache && o.result.resolveMap.value == o.cache[key].resolveMap
  {
    if timeStamp == invalid then GetOutcome(LookupFailure, cache)
    else if key in cache && cache[key].timeStamp == timeStamp then
      GetOutcome(LookupResult(Some(cache[key].resolveMap), Hit), cache)
    else
      var erased := cache - {key};
      match created
      case None => GetOutcome(LookupFailure, erased)
      case Some(rm) => GetOutcome(LookupResult(Some(rm), Miss), erased[key := Entry(rm, timeStamp)])
  }

  /** An unreadable time fails the lookup and leaves the cache alone. */
  lemma GetInvalidTimestamp(cache: Cache, key: String, invalid: int, created: Option<ResolveMap>)
    ensures GetSpec(cache, key, invalid, invalid, created) == GetOutcome(LookupResult(None, Miss), cache)
  {
  }

  /** A known package with an unchanged time is a hit on the stored map,
    * whatever the engine would return. */
  lemma GetHit(cache: Cache, key: String, timeStamp: int, invalid: int, created: Option<ResolveMap>)
    requires timeStamp != invalid && key in cache && cache[key].timeStamp == timeStamp
    ensures GetSpec(cache, key, timeStamp, invalid, created) ==
            GetOutcome(LookupResult(Some(cache[key].resolveMap), Hit), cache)
  {
  }

  /** An unknown or stale package is reloaded and reported as a miss; a
    * failed reload leaves no entry for it; other entries are kept. */
  lemma GetReload(cache: Cache, key: String, timeStamp: int, invalid: int, created: Option<ResolveMap>)
    requires timeStamp != invalid && (key !in cache || Stale(cache, key, timeStamp))
    ensures var o := GetSpec(cache, key, timeStamp, invalid, created);
            o.result.status == Miss && o.result.resolveMap == created &&
            (created.None? ==> key !in o.cache) &&
            (created.Some? ==> key in o.cache && o.cache[key] == Entry(created.value, timeStamp)) &&
            (forall k :: k != key ==> (k in o.cache <==> k in cache) && (k in cache ==> o.cache[k] == cache[k]))
  {
  }

  /** After a successful lookup, the same lookup again is a hit on the same
    * map and changes nothing. */
  lemma GetThenHit(cache: Cache, key: String, timeStamp: int, invalid: int, created: Option<ResolveMap>,
                   createdAgain: Option<ResolveMap>)
    requires GetSpec(cache, key, timeStamp, invalid, created).result.resolveMap.Some?
    ensures var o := GetSpec(cache, key, timeStamp, invalid, created);
            GetSpec(o.cache, key, timeStamp, invalid, createdAgain) ==
              GetOutcome(LookupResult(o.result.resolveMap, Hit), o.cache)
  {
  }

  // ---------------------------------------------------------------------
  // Unpack directories
  // ---------------------------------------------------------------------

  /** The paths left after removing `root` and everything below it. An
    * empty path names no file, so nothing is removed for it. */
  function RemoveTree(paths: set<String>, root: String): (r: set<String>)
    ensures r <= paths
    ensures root == "" ==> r == paths
    ensures root != "" ==> root !in r && forall p :: p in r ==> !IsPrefix(root + "/", p)
    ensures forall p :: p in paths && p != root && !IsPrefix(root + "/", p) ==> p in r
  {
    if root == "" then paths
    else set p | p in paths && p != root && !IsPrefix(root + "/", p)
  }

  /** The unpack directories on disk. */
  class Disk {
    var paths: set<String>

    constructor (initial: set<String>)
      ensures paths == initial
    {
      paths := initial;
    }

    /** remove_all. */
    method RemoveAll(root: String)
      modifies this
      ensures paths == RemoveTree(old(paths), root)
    {
      paths := RemoveTree(paths, root);
    }
  }

  /** The unpack directory of a package in util/ResolveMapCache.cpp, when
    * both the unpack path and the package's file name are non-empty. */
  function LegacyUnpackDir(unpackPath: String, rpk: String): Option<String>
  {
    var filename := LegacyUtilities.Filename(rpk);
    if |unpackPath| > 0 && |filename| > 0 then Some(unpackPath + "/" + filename) else None
  }

  // ---------------------------------------------------------------------
  // utils/ResolveMapCache.cpp
  // ---------------------------------------------------------------------

  /** The generation whose time is -1 when the package cannot be read. */
  class ResolveMapCache {
    var cache: Cache
    const unpackPath: String

    constructor (unpackPath: String)
      ensures cache == map[] && this.unpackPath == unpackPath
    {
      this.unpackPath := unpackPath;
      cache := map[];
    }

    method Get(rpk: String, timeStamp: int, created: Option<ResolveMap>) returns (r: LookupResult)
      modifies this
      ensures GetOutcome(r, cache) == GetSpec(old(cache), rpk, timeStamp, -1, created)
    {
      // a cached map is current only when its recorded time matches
      if timeStamp == -1 {
        return LookupFailure;
      }
      var cs := Hit;
      if rpk in cache {
        if cache[rpk].timeStamp != timeStamp {
          cache := cache - {rpk};
          cs := Miss;
        }
      } else {
        cs := Miss;
      }
      if cs == Miss {
        if created.None? {
          return LookupFailure;
        }
        cache := cache[rpk := Entry(created.value, timeStamp)];
      }
      return LookupResult(Some(cache[rpk].resolveMap), cs);
    }
  }

  // ---------------------------------------------------------------------
  // util/ResolveMapCache.cpp
  // ---------------------------------------------------------------------

  /** The generation that also removes the unpacked copy of a stale package
    * and, when destroyed, the whole unpack directory. */
  class LegacyResolveMapCache {
    var cache: Cache
    const unpackPath: String

    constructor (unpackPath: String)
      ensures cache == map[] && this.unpackPath == unpackPath
    {
      this.unpackPath := unpackPath;
      cache := map[];
    }

    method Get(rpk: String, timeStamp: int, created: Option<ResolveMap>, disk: Disk) returns (r: LookupResult)
      modifies this, disk
      ensures GetOutcome(r, cache) == GetSpec(old(cache), rpk, timeStamp, -1, created)
      ensures timeStamp != -1 && Stale(old(cache), rpk, timeStamp) && LegacyUnpackDir(unpackPath, rpk).Some?
              ==> disk.paths == RemoveTree(old(disk.paths), LegacyUnpackDir(unpackPath, rpk).value)
      ensures !(timeStamp != -1 && Stale(old(cache), rpk, timeStamp) && LegacyUnpackDir(unpackPath, rpk).Some?)
              ==> disk.paths == old(disk.paths)
    {
      // a cached map is current only when its recorded time matches
      if timeStamp == -1 {
        return LookupFailure;
      }
      var cs := Hit;
      if rpk in cache {
        if cache[rpk].timeStamp != timeStamp {
          cache := cache - {rpk};
          var filename := LegacyUtilities.Filename(rpk);
          if |unpackPath| > 0 && |filename| > 0 {
            disk.RemoveAll(unpackPath + "/" + LegacyUtilities.Filename(rpk));
          }
          cs := Miss;
        }
      } else {
        cs := Miss;
      }
      if cs == Miss {
        if created.None? {
          return LookupFailure;
        }
        cache := cache[rpk := Entry(created.value, timeStamp)];
      }
      return LookupResult(Some(cache[rpk].resolveMap), cs);
    }

    /** The destructor: the unpack directory goes when it is set. */
    method Destroy(disk: Disk)
      modifies disk
      ensures |unpackPath| > 0 ==> disk.paths == RemoveTree(old(disk.paths), unpackPath)
      ensures |unpackPath| == 0 ==> disk.paths == old(disk.paths)
    {
      if |unpackPath| > 0 {
        disk.RemoveAll(unpackPath);
      }
    }
  }

  // ---------------------------------------------------------------------
  // client/prtModifier/ResolveMapCache.cpp
  // ---------------------------------------------------------------------

  /** The client generation marks an unreadable time with a
    * default-constructed file time, the clock's epoch. */
  const InvalidTimestamp: int := 0

  /** What the file system says about a path. */
  datatype FileStatus = FileStatus(isRegularFile: bool, lastWriteTime: int)

  /** getFileModificationTime: the last write time of an existing regular
    * file at a non-empty path, the invalid time otherwise. */
  function FileModificationTime(p: String, files: map<String, FileStatus>): (t: int)
    ensures t != InvalidTimestamp ==> |p| > 0 && p in files && files[p].isRegularFile && t == files[p].lastWriteTime
    ensures |p| > 0 && p in files && files[p].isRegularFile ==> t == files[p].lastWriteTime
    ensures !(|p| > 0 && p in files && files[p].isRegularFile) ==> t == InvalidTimestamp
  {
    if |p| > 0 && p in files && files[p].isRegularFile then files[p].lastWriteTime else InvalidTimestamp
  }

  /** createCacheKey: the path's text. */
  function CreateCacheKey(rpk: String): (key: String)
    ensures key == rpk
  {
    rpk
  }

  class ClientResolveMapCache {
    var cache: Cache
    const unpackPath: String

    constructor (unpackPath: String)
      ensures cache == map[] && this.unpackPath == unpackPath
    {
      this.unpackPath := unpackPath;
      cache := map[];
    }

    method Get(rpk: String, files: map<String, FileStatus>, created: Option<ResolveMap>, disk: Disk)
      returns (r: LookupResult)
      modifies this, disk
      ensures GetOutcome(r, cache) ==
              GetSpec(old(cache), rpk, FileModificationTime(rpk, files), InvalidTimestamp, created)
      ensures var t := FileModificationTime(rpk, files);
              t != InvalidTimestamp && Stale(old(cache), rpk, t) ==>
                disk.paths == RemoveTree(old(disk.paths),
                                         AssetCache.PathJoin(unpackPath, LegacyUtilities.Filename(rpk)))
      ensures var t := FileModificationTime(rpk, files);
              !(t != InvalidTimestamp && Stale(old(cache), rpk, t)) ==> disk.paths == old(disk.paths)
    {
      var cacheKey := CreateCacheKey(rpk);
      var timeStamp := FileModificationTime(rpk, files);
      // a cached map is current only when its recorded time matches
      if timeStamp == InvalidTimestamp {
        return LookupFailure;
      }
      var cs := Hit;
      if cacheKey in cache {
        if cache[cacheKey].timeStamp != timeStamp {
          cache := cache - {cacheKey};
          disk.RemoveAll(AssetCache.PathJoin(unpackPath, LegacyUtilities.Filename(rpk)));
          cs := Miss;
        }
      } else {
        cs := Miss;
      }
      if cs == Miss {
        if created.None? {
          return LookupFailure;
        }
        cache := cache[cacheKey := Entry(created.value, timeStamp)];
      }
      return LookupResult(Some(cache[cacheKey].resolveMap), cs);
    }

    /** The destructor removes the whole unpack directory. */
    method Destroy(disk: Disk)
      modifies disk
      ensures disk.paths == RemoveTree(old(disk.paths), unpackPath)
    {
      disk.RemoveAll(unpackPath);
    }
  }
}
