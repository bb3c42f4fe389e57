/**
 * pkg/filesystem/helper: the path prefixer the local disk uses to map
 * storage-relative paths under a root, and the S3 directory-path helper.
 */
module FilesystemHelper {
  import opened GoStrings

  /** The characters both helpers treat as slashes. */
  const Slashes := "\\/"

  datatype PathPreFixer = PathPreFixer(prefix: string, separator: string)
  {
    /** PrefixPath: the prefix, then the path without its leading slashes. */
    function PrefixPath(path: string): (r: string)
      ensures HasPrefix(r, prefix)
      ensures r[|prefix|..] == TrimLeft(path, Slashes)
    {
      prefix + TrimLeft(path, Slashes)
    }

    /** StripPrefix: drops as many characters as the prefix has; a shorter path makes Go's slice panic. */
    function StripPrefix(path: string): (r: string)
      requires |path| >= |prefix|
      ensures |r| == |path| - |prefix|
      ensures path == path[..|prefix|] + r
    {
      path[|prefix|..]
    }

    /** StripDirectoryPrefix: StripPrefix, then trailing slashes removed. */
    function StripDirectoryPrefix(path: string): (r: string)
      requires |path| >= |prefix|
      ensures r == [] || r[|r| - 1] !in Slashes
      ensures HasPrefix(path[|prefix|..], r)
    {
      TrimRight(StripPrefix(path), Slashes)
    }

    /** PrefixDirectoryPath: the prefixed path with exactly one separator appended unless it already ends in it. */
    function PrefixDirectoryPath(path: string): (r: string)
      ensures r == "" || HasSuffix(r, separator)
      ensures r == "" <==> PrefixPath(TrimRight(path, Slashes)) == ""
      ensures HasPrefix(r, PrefixPath(TrimRight(path, Slashes)))
    {
      var prefixed := PrefixPath(TrimRight(path, Slashes));
      if prefixed == "" || prefixed[|prefixed| - 1..] == separator then prefixed
      else
        var r := prefixed + separator;
        assert r[..|prefixed|] == prefixed && r[|r| - |separator|..] == separator;
        r
    }

    /** StripTrailingSeparator: trailing characters of the separator removed. */
    function StripTrailingSeparator(path: string): (r: string)
      ensures HasPrefix(path, r)
      ensures separator != "" ==> !HasSuffix(r, separator)
    {
      TrimRight(path, separator)
    }
  }

  /** NewPreFixer: trailing slashes cut from the prefix, then one separator added to a non-empty prefix. */
  function NewPreFixer(prefix: string, separator: string): (p: PathPreFixer)
    ensures p.separator == separator
    ensures TrimRight(prefix, Slashes) == "" ==> p.prefix == ""
    ensures TrimRight(prefix, Slashes) != "" ==> p.prefix == TrimRight(prefix, Slashes) + separator
  {
    var fixer := PathPreFixer(TrimRight(prefix, Slashes), separator);
    if fixer.prefix != "" || fixer.prefix == fixer.separator then fixer.(prefix := fixer.prefix + fixer.separator)
    else fixer
  }

  /** Stripping the prefix from a prefixed path gives the path without its leading slashes. */
  lemma PrefixRoundTrip(p: PathPreFixer, path: string)
    ensures |p.PrefixPath(path)| >= |p.prefix|
    ensures p.StripPrefix(p.PrefixPath(path)) == TrimLeft(path, Slashes)
  {
  }

  /** A prefixed directory path comes back without its prefix and its trailing slashes. */
  lemma {:induction false} DirectoryRoundTrip(p: PathPreFixer, dir: string)
    requires p.separator != "" && forall i :: 0 <= i < |p.separator| ==> p.separator[i] in Slashes
    requires dir == [] || (dir[0] !in Slashes && dir[|dir| - 1] !in Slashes)
    ensures |p.PrefixDirectoryPath(dir)| >= |p.prefix|
    ensures p.StripDirectoryPrefix(p.PrefixDirectoryPath(dir)) == dir
  {
    TrimRightNoop(dir, Slashes);
    TrimLeftNoop(dir, Slashes);
    var prefixed := p.prefix + dir;
    assert p.PrefixPath(TrimRight(dir, Slashes)) == prefixed;
    var r := p.PrefixDirectoryPath(dir);
    if prefixed == "" {
      assert r == "";
    } else if prefixed[|prefixed| - 1..] == p.separator {
      assert r == prefixed;
      assert r[|p.prefix|..] == dir;
    } else {
      assert r == prefixed + p.separator;
      assert r[|p.prefix|..] == dir + p.separator;
      TrimRightSkips(dir, p.separator, Slashes);
    }
  }

  /** NewPreFixer("storage", "/"), the fixture of path_prefixer_test.go. */
  lemma StorageFixer()
    ensures NewPreFixer("storage", "/") == PathPreFixer("storage/", "/")
  {
    TrimRightNoop("storage", Slashes);
  }

  lemma PrefixPathExample()
    ensures PathPreFixer("storage/", "/").PrefixPath("/image/image.png") == "storage/image/image.png"
  {
    var path := "/image/image.png";
    assert path[0] in Slashes && path[1..] == "image/image.png";
    TrimLeftNoop("image/image.png", Slashes);
  }

  lemma StripPrefixExample()
    ensures PathPreFixer("storage/", "/").StripPrefix("storage/image/image.png") == "image/image.png"
  {
  }

  lemma StripDirectoryPrefixExample()
    ensures PathPreFixer("storage/", "/").StripDirectoryPrefix("storage/image/") == "image"
  {
    assert "storage/image/"[8..] == "image/";
    assert TrimRight("image/", Slashes) == TrimRight("image", Slashes);
    TrimRightNoop("image", Slashes);
  }

  lemma PrefixDirectoryPathExamples()
    ensures PathPreFixer("storage/", "/").PrefixDirectoryPath("image") == "storage/image/"
    ensures PathPreFixer("storage/", "/").PrefixDirectoryPath("") == "storage/"
  {
    var p := PathPreFixer("storage/", "/");
    TrimRightNoop("image", Slashes);
    TrimLeftNoop("image", Slashes);
    assert p.PrefixPath("image") == "storage/image";
    assert p.PrefixPath("") == "storage/";
  }

  /** S3PathHelper.GetDirectoryPath: trailing slashes removed ("" stays ""). */
  function GetDirectoryPath(path: string): (r: string)
    ensures HasPrefix(path, r)
    ensures r == [] || r[|r| - 1] !in Slashes
    ensures (forall i :: 0 <= i < |path| ==> path[i] in Slashes) <==> r == ""
  {
    var p := TrimRight(path, Slashes);
    if p == "" then "" else p
  }

  /** Taking the directory path twice changes nothing. */
  lemma GetDirectoryPathIdempotent(path: string)
    ensures GetDirectoryPath(GetDirectoryPath(path)) == GetDirectoryPath(path)
  {
    TrimRightNoop(GetDirectoryPath(path), Slashes);
  }
}
