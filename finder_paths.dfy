/**
 * internal/finder/datasource: the path helper and the file-type helper the
 * finder's datasource uses. The separator is a single character here.
 */
module FinderPaths {
  import opened GoTypes
  import opened GoStrings

  /** The cutset StripSlash uses: its first optional argument when that is a string, else both slashes. */
  function CutSet(vars: seq<Value>): (c: string)
    ensures |vars| > 0 && vars[0].Str? ==> c == vars[0].s
    ensures !(|vars| > 0 && vars[0].Str?) ==> c == "\\/"
  {
    if |vars| > 0 && vars[0].Str? then vars[0].s else "\\/"
  }

  datatype PathHelper = PathHelper(separator: char)
  {
    /** StripSlash: the cutset trimmed from both ends. */
    function StripSlash(path: string, vars: seq<Value>): (r: string)
      ensures r == [] || (r[0] !in CutSet(vars) && r[|r| - 1] !in CutSet(vars))
      ensures exists i :: OccursAt(path, r, i)
    {
      var cutset := CutSet(vars);
      var left := TrimLeft(path, cutset);
      var r := TrimRight(left, cutset);
      assert path[|path| - |left|..][..|r|] == path[|path| - |left|..|path| - |left| + |r|];
      assert OccursAt(path, r, |path| - |left|);
      r
    }

    /** Concat: the parts joined by the separator. */
    function Concat(paths: seq<string>): string
    {
      Join(paths, [separator])
    }

    /** DirPath: every segment but the last, joined again; "." and "" become "". */
    function DirPath(path: string): string
    {
      var split := Split(path, separator);
      var dirPath := Concat(split[..|split| - 1]);
      if dirPath == "." || dirPath == "" then "" else dirPath
    }
  }

  /** Stripping twice with the same cutset changes nothing. */
  lemma StripSlashIdempotent(h: PathHelper, path: string, vars: seq<Value>)
    ensures h.StripSlash(h.StripSlash(path, vars), vars) == h.StripSlash(path, vars)
  {
    var r := h.StripSlash(path, vars);
    TrimLeftNoop(r, CutSet(vars));
    TrimRightNoop(r, CutSet(vars));
  }

  /** DirPath undoes Concat of a directory and a name, when no part holds the separator. */
  lemma DirPathOfConcat(h: PathHelper, dir: seq<string>, name: string)
    requires forall i :: 0 <= i < |dir| ==> h.separator !in dir[i]
    requires h.separator !in name
    ensures h.DirPath(h.Concat(dir + [name])) == (if h.Concat(dir) == "." || h.Concat(dir) == "" then "" else h.Concat(dir))
  {
    var parts := dir + [name];
    SplitJoin(parts, h.separator);
    assert parts[..|parts| - 1] == dir;
  }

  /** The examples of path_helper_test.go, with separator '/'. */
  lemma ConcatExample()
    ensures PathHelper('/').Concat(["a", "b", "c"]) == "a/b/c"
  {
  }

  lemma DirPathExample()
    ensures PathHelper('/').DirPath("images/image.png") == "images"
  {
    var h := PathHelper('/');
    var parts := ["images", "image.png"];
    assert parts == ["images"] + ["image.png"];
    assert h.Concat(parts) == "images/image.png";
    DirPathOfConcat(h, ["images"], "image.png");
  }

  lemma DirPathOfNameExample()
    ensures PathHelper('/').DirPath("image.png") == ""
  {
    var h := PathHelper('/');
    assert [] + ["image.png"] == ["image.png"];
    DirPathOfConcat(h, [], "image.png");
  }

  /** A path padded on both sides with cutset characters strips back to its middle. */
  lemma StripSlashOfPadded(h: PathHelper, pre: string, mid: string, post: string, vars: seq<Value>)
    requires forall i :: 0 <= i < |pre| ==> pre[i] in CutSet(vars)
    requires forall i :: 0 <= i < |post| ==> post[i] in CutSet(vars)
    requires mid != [] && mid[0] !in CutSet(vars) && mid[|mid| - 1] !in CutSet(vars)
    ensures h.StripSlash(pre + mid + post, vars) == mid
  {
    var c := CutSet(vars);
    assert pre + mid + post == pre + (mid + post);
    TrimLeftSkips(pre, mid + post, c);
    TrimLeftNoop(mid + post, c);
    TrimRightSkips(mid, post, c);
    TrimRightNoop(mid, c);
  }

  lemma StripSlashExample()
    ensures PathHelper('/').StripSlash("./images/image.png", [Str("./")]) == "images/image.png"
  {
    var pre: string, mid: string, post: string := "./", "images/image.png", "";
    assert CutSet([Str("./")]) == "./";
    assert pre + mid + post == "./images/image.png";
    StripSlashOfPadded(PathHelper('/'), pre, mid, post, [Str("./")]);
  }

  lemma StripSlashDirectoryExample()
    ensures PathHelper('/').StripSlash("./images/", [Str("./")]) == "images"
  {
    var pre: string, mid: string, post: string := "./", "images", "/";
    assert CutSet([Str("./")]) == "./";
    assert pre + mid + post == "./images/";
    StripSlashOfPadded(PathHelper('/'), pre, mid, post, [Str("./")]);
  }

  /** FileTypeHelper.IsImageFile */
  predicate IsImageFile(mime: string)
  {
    HasPrefix(mime, "image/")
  }

  /** FileTypeHelper.IsVideoFile */
  predicate IsVideoFile(mime: string)
  {
    HasPrefix(mime, "video/")
  }

  /** No mime type is both an image and a video, and a bare "image" is neither. */
  lemma FileTypesDisjoint(mime: string)
    ensures !(IsImageFile(mime) && IsVideoFile(mime))
    ensures !IsImageFile("image")
  {
  }
}
