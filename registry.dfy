/** The process-wide bookkeeping of open workbooks: a cache from path to the
    workbook last loaded there, and the set of paths considered open. Only the
    open, close and list operations touch it; no data operation reads it. */
module Registry {
  import opened Results
  import opened Workbook
  import opened Access

  /** What `open_workbook` reports: the sheet count and the rendered sheet names. */
  datatype OpenInfo = OpenInfo(sheetCount: nat, sheetNames: string)

  class OpenWorkbooks {
    var cache: map<string, Book>
    var openPaths: set<string>

    /** The cache holds an entry for exactly the open paths. */
    ghost predicate Valid()
      reads this
    {
      cache.Keys == openPaths
    }

    constructor ()
      ensures Valid()
      ensures cache == map[] && openPaths == {}
    {
      cache := map[];
      openPaths := {};
    }

    /** `open_workbook`: load the file; on success record it in both structures. */
    method Open(disk: Disk, path: string) returns (res: Result<OpenInfo, Error>)
      requires Valid()
      modifies this
      ensures Valid()
      ensures Load(disk, path).Err? ==>
        res == Err(Error(OpenOp, Load(disk, path).error)) && cache == old(cache) && openPaths == old(openPaths)
      ensures Load(disk, path).Ok? ==>
        var b := Load(disk, path).value;
        && res == Ok(OpenInfo(|b.names|, JoinNames(b.names)))
        && cache == old(cache)[path := b]
        && openPaths == old(openPaths) + {path}
    {
      var loaded := Load(disk, path);
      if loaded.Err? {
        return Err(Error(OpenOp, loaded.error));
      }
      var b := loaded.value;
      cache := cache[path := b];
      openPaths := openPaths + {path};
      res := Ok(OpenInfo(|b.names|, JoinNames(b.names)));
    }

    /** `close_workbook`: validate the path, then forget it. The result says whether
        the path was open; closing a path that was never opened succeeds with false. */
    method Close(path: string) returns (res: Result<bool, Error>)
      requires Valid()
      modifies this
      ensures Valid()
      ensures CheckPath(path).Some? ==>
        res == Err(Error(CloseOp, BadPath(CheckPath(path).value))) && cache == old(cache) && openPaths == old(openPaths)
      ensures CheckPath(path).None? ==>
        && res == Ok(path in old(openPaths))
        && openPaths == old(openPaths) - {path}
        && cache == old(cache) - {path}
    {
      var bad := CheckPath(path);
      if bad.Some? {
        return Err(Error(CloseOp, BadPath(bad.value)));
      }
      var wasOpen := path in openPaths;
      if wasOpen {
        if path in cache {
          cache := cache - {path};
        }
        openPaths := openPaths - {path};
      }
      res := Ok(wasOpen);
    }

    /** `list_open_workbooks`: the number of open paths and each of them once. */
    method ListOpen() returns (count: nat, paths: seq<string>)
      ensures count == |openPaths| == |paths|
      ensures forall p :: p in paths <==> p in openPaths
      ensures forall i, j :: 0 <= i < j < |paths| ==> paths[i] != paths[j]
    {
      paths := [];
      var rest := openPaths;
      while rest != {}
        invariant rest <= openPaths
        invariant forall p :: p in paths <==> p in openPaths - rest
        invariant forall i, j :: 0 <= i < j < |paths| ==> paths[i] != paths[j]
        invariant |paths| + |rest| == |openPaths|
        decreases |rest|
      {
        var p :| p in rest;
        assert p !in paths;
        paths := paths + [p];
        rest := rest - {p};
      }
      count := |paths|;
    }
  }
}
