/**
 * internal/finder/datasource/local_datasource.go: the finder's repository over
 * the public disk. The disk's answers (listings, existence checks, the
 * outcome of each rename, delete, copy or move) are parameters.
 */
module LocalDatasource {
  import opened GoTypes
  import opened Errors
  import opened Slices
  import opened FinderEntities
  import opened FinderPaths
  import opened GoStrings
  import opened Disks
  import FinderUseCase

  /** A filesystem.File as the disk lists it. */
  datatype StoredFile = StoredFile(
    path: string,
    name: string,
    modTime: Option<int>,
    size: Option<int>,
    mime: Option<string>,
    extension: Option<string>)

  /** A filesystem.Directory as the disk lists it. */
  datatype StoredDir = StoredDir(path: string, name: string, modTime: Option<int>)

  /** The disk's answer to ListContents. */
  datatype Listing = Listing(files: seq<StoredFile>, dirs: seq<StoredDir>, err: Option<GoError>)

  /** What GetContents returns: the entities, or nil slices and an error. */
  datatype Contents = Contents(files: seq<File>, dirs: seq<Directory>, err: Option<Contract>)

  datatype LocalRepo = LocalRepo(disk: PublicDisk, pathHelper: PathHelper, ignores: seq<string>)
  {
    /** The names the listing hides. */
    predicate Ignored(name: string)
    {
      name in ignores
    }

    /** isIgnore: a scan of Ignores that stops at the first equal name. */
    method IsIgnore(name: string) returns (b: bool)
      ensures b <==> Ignored(name)
    {
      var i := 0;
      while i < |ignores|
        invariant 0 <= i <= |ignores|
        invariant name !in ignores[..i]
      {
        if ignores[i] == name {
          return true;
        }
        assert ignores[..i + 1] == ignores[..i] + [ignores[i]];
        i := i + 1;
      }
      assert ignores[..i] == ignores;
      return false;
    }

    predicate ShownFile(f: StoredFile)
    {
      !Ignored(f.name)
    }

    predicate ShownDir(d: StoredDir)
    {
      !Ignored(d.name)
    }

    /** The entity of a listed file: its fields, and the disk's URL for its path. */
    function FileEntity(f: StoredFile): (e: File)
      ensures e.path == f.path && e.name == f.name && e.modTime == f.modTime
      ensures e.size == f.size && e.mime == f.mime && e.extension == f.extension
      ensures e.url == disk.Url(f.path)
    {
      File(f.path, f.name, f.modTime, f.size, f.mime, f.extension, disk.Url(f.path))
    }

    function DirEntity(d: StoredDir): (e: Directory)
      ensures e.path == d.path && e.name == d.name && e.modTime == d.modTime
    {
      Directory(d.path, d.name, d.modTime)
    }

    /**
     * GetContents: a failed listing becomes a datasource error; otherwise the
     * entries whose names are not ignored, in listing order. The sort
     * arguments of the source are accepted and not used, so they are absent.
     */
    function GetContents(listing: Listing): (r: Contents)
      ensures listing.err.Some? ==> r == Contents([], [], Some(NewDatasource(listing.err.value)))
      ensures listing.err.None? ==> r.err.None?
    {
      if listing.err.Some? then Contents([], [], Some(NewDatasource(listing.err.value)))
      else
        var files := Kept(ShownFile, listing.files);
        var dirs := Kept(ShownDir, listing.dirs);
        Contents(
          seq(|files|, i requires 0 <= i < |files| => FileEntity(files[i])),
          seq(|dirs|, i requires 0 <= i < |dirs| => DirEntity(dirs[i])),
          None)
    }

    /** FileExist / DirExist: the disk's error becomes a datasource error and `false`. */
    function Exist(exist: bool, err: Option<GoError>): (a: FinderUseCase.Answer)
      ensures err.Some? ==> !a.exist && a.err == Some(NewDatasource(err.value))
      ensures err.None? ==> a == FinderUseCase.Answer(exist, None)
    {
      if err.Some? then FinderUseCase.Answer(false, Some(NewDatasource(err.value))) else FinderUseCase.Answer(exist, None)
    }

    /** Upload writes to the stripped directory joined with the file name. */
    function UploadPath(path: string, filename: string): (p: string)
      ensures p == pathHelper.StripSlash(path, []) + [pathHelper.separator] + filename
    {
      var parts := [pathHelper.StripSlash(path, []), filename];
      assert Join(parts[1..], [pathHelper.separator]) == filename;
      pathHelper.Concat(parts)
    }
  }

  /** No entry of a listing is ignored, and every entry that is not ignored is listed. */
  lemma GetContentsShowsExactly(r: LocalRepo, listing: Listing)
    requires listing.err.None?
    ensures forall e :: e in r.GetContents(listing).files ==> !r.Ignored(e.name)
    ensures forall d :: d in r.GetContents(listing).dirs ==> !r.Ignored(d.name)
    ensures forall f :: f in listing.files && !r.Ignored(f.name) ==> r.FileEntity(f) in r.GetContents(listing).files
    ensures forall d :: d in listing.dirs && !r.Ignored(d.name) ==> r.DirEntity(d) in r.GetContents(listing).dirs
    ensures |r.GetContents(listing).files| <= |listing.files| && |r.GetContents(listing).dirs| <= |listing.dirs|
  {
    KeptMembers(r.ShownFile, listing.files);
    KeptMembers(r.ShownDir, listing.dirs);
    var files := Kept(r.ShownFile, listing.files);
    var dirs := Kept(r.ShownDir, listing.dirs);
    var c := r.GetContents(listing);
    forall e | e in c.files
      ensures !r.Ignored(e.name)
    {
      var i :| 0 <= i < |c.files| && c.files[i] == e;
      assert files[i] in files;
    }
    forall d | d in c.dirs
      ensures !r.Ignored(d.name)
    {
      var i :| 0 <= i < |c.dirs| && c.dirs[i] == d;
      assert dirs[i] in dirs;
    }
    forall f | f in listing.files && !r.Ignored(f.name)
      ensures r.FileEntity(f) in c.files
    {
      var i :| 0 <= i < |files| && files[i] == f;
      assert c.files[i] == r.FileEntity(f);
    }
    forall d | d in listing.dirs && !r.Ignored(d.name)
      ensures r.DirEntity(d) in c.dirs
    {
      var i :| 0 <= i < |dirs| && dirs[i] == d;
      assert c.dirs[i] == r.DirEntity(d);
    }
  }

  /** Without ignored names the listing comes through whole and in order. */
  lemma NothingIgnored(r: LocalRepo, listing: Listing)
    requires listing.err.None? && r.ignores == []
    ensures |r.GetContents(listing).files| == |listing.files|
    ensures forall i :: 0 <= i < |listing.files| ==> r.GetContents(listing).files[i] == r.FileEntity(listing.files[i])
  {
    KeptAll(r.ShownFile, listing.files);
  }

  /** Filtering by a predicate every element meets keeps the list. */
  lemma {:induction false} KeptAll<T>(f: T -> bool, arr: seq<T>)
    requires forall i :: 0 <= i < |arr| ==> f(arr[i])
    ensures Kept(f, arr) == arr
    decreases |arr|
  {
    if |arr| > 0 {
      KeptAll(f, arr[..|arr| - 1]);
    }
  }

  /** The number of leading items `op` carries out before the first that fails. */
  function Performed<T>(items: seq<T>, op: T -> Option<GoError>): (n: nat)
    ensures n <= |items|
    ensures forall i :: 0 <= i < n ==> op(items[i]).None?
    ensures n < |items| ==> op(items[n]).Some?
    decreases |items|
  {
    if |items| == 0 then 0
    else if op(items[0]).Some? then 0
    else 1 + Performed(items[1..], op)
  }

  /** The prefix of successes before a failure (or the end) is what Performed counts. */
  lemma {:induction false} PerformedIs<T>(items: seq<T>, op: T -> Option<GoError>, n: nat)
    requires n <= |items|
    requires forall i :: 0 <= i < n ==> op(items[i]).None?
    requires n < |items| ==> op(items[n]).Some?
    ensures Performed(items, op) == n
    decreases n
  {
    if n > 0 {
      assert op(items[0]).None?;
      PerformedIs(items[1..], op, n - 1);
    }
  }

  /**
   * The loop of Rename, Delete, Copy and Cut: each item in turn goes to the
   * disk (rename, delete, copy or move as `op`), and the first failure ends
   * the loop as a datasource error; the items before it stay done.
   */
  method RunUntilError<T>(items: seq<T>, op: T -> Option<GoError>) returns (done: nat, err: Option<Contract>)
    ensures done == Performed(items, op)
    ensures err.None? <==> done == |items|
    ensures done < |items| ==> err == Some(NewDatasource(op(items[done]).value))
  {
    var i := 0;
    while i < |items|
      invariant 0 <= i <= |items|
      invariant forall j :: 0 <= j < i ==> op(items[j]).None?
    {
      var e := op(items[i]);
      if e.Some? {
        PerformedIs(items, op, i);
        return i, Some(NewDatasource(e.value));
      }
      i := i + 1;
    }
    PerformedIs(items, op, i);
    return i, None;
  }

  /** Carrying out a batch in two parts: the second part only runs when the first had no failure. */
  lemma {:induction false} PerformedConcat<T>(a: seq<T>, b: seq<T>, op: T -> Option<GoError>)
    ensures Performed(a + b, op) == (if Performed(a, op) < |a| then Performed(a, op) else |a| + Performed(b, op))
  {
    var n := Performed(a, op);
    if n < |a| {
      assert (a + b)[n] == a[n];
      PerformedIs(a + b, op, n);
    } else {
      var m := Performed(b, op);
      assert forall i :: |a| <= i < |a| + m ==> (a + b)[i] == b[i - |a|];
      assert |a| + m < |a + b| ==> (a + b)[|a| + m] == b[m];
      PerformedIs(a + b, op, |a| + m);
    }
  }
}
