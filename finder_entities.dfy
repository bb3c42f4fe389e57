/**
 * internal/finder/entities: the file and directory entries the finder lists,
 * and their JSON projections. Optional fields are Go pointers.
 */
module FinderEntities {
  import opened GoTypes

  /** The pointee of an optional integer field as stored in a `map[string]interface{}`. */
  function IntPtr(p: Option<int>): (v: Value)
    ensures v.Ptr? && (v.target.Some? <==> p.Some?)
    ensures p.Some? ==> v.target.value == Int(p.value)
  {
    match p
    case None => Ptr(None)
    case Some(n) => Ptr(Some(Int(n)))
  }

  const FileKeys: set<string> := {"type", "path", "name", "mod_time", "size", "mime", "extension", "url"}
  const DirectoryKeys: set<string> := {"type", "path", "name", "mod_time"}

  datatype File = File(
    path: string,
    name: string,
    modTime: Option<int>,
    size: Option<int>,
    mime: Option<string>,
    extension: Option<string>,
    url: string)
  {
    /** ToMap: the eight JSON keys, "type" fixed to "file" and every field copied. */
    function ToMap(): (m: map<string, Value>)
      ensures m.Keys == FileKeys
      ensures m["type"] == Str("file")
      ensures m["path"] == Str(path) && m["name"] == Str(name) && m["url"] == Str(url)
      ensures m["mod_time"] == TimePtr(modTime) && m["size"] == IntPtr(size)
      ensures m["mime"] == StrPtr(mime) && m["extension"] == StrPtr(extension)
    {
      map[
        "type" := Str("file"),
        "path" := Str(path),
        "name" := Str(name),
        "mod_time" := TimePtr(modTime),
        "size" := IntPtr(size),
        "mime" := StrPtr(mime),
        "extension" := StrPtr(extension),
        "url" := Str(url)]
    }
  }

  datatype Directory = Directory(path: string, name: string, modTime: Option<int>)
  {
    /** ToMap: the four JSON keys, "type" fixed to "dir". */
    function ToMap(): (m: map<string, Value>)
      ensures m.Keys == DirectoryKeys
      ensures m["type"] == Str("dir")
      ensures m["path"] == Str(path) && m["name"] == Str(name) && m["mod_time"] == TimePtr(modTime)
    {
      map["type" := Str("dir"), "path" := Str(path), "name" := Str(name), "mod_time" := TimePtr(modTime)]
    }
  }

  /** The projections lose nothing: two entries with the same map are the same entry. */
  lemma ToMapInjective(f: File, g: File, d: Directory, e: Directory)
    ensures f.ToMap() == g.ToMap() ==> f == g
    ensures d.ToMap() == e.ToMap() ==> d == e
  {
    if f.ToMap() == g.ToMap() {
      assert f.ToMap()["mod_time"] == g.ToMap()["mod_time"];
      assert f.ToMap()["size"] == g.ToMap()["size"];
      assert f.ToMap()["mime"] == g.ToMap()["mime"];
      assert f.ToMap()["extension"] == g.ToMap()["extension"];
    }
    if d.ToMap() == e.ToMap() {
      assert d.ToMap()["mod_time"] == e.ToMap()["mod_time"];
    }
  }

  /** A file's map and a directory's map never coincide: their "type" tells them apart. */
  lemma FileIsNotDirectory(f: File, d: Directory)
    ensures f.ToMap() != d.ToMap()
  {
    assert f.ToMap()["type"] != d.ToMap()["type"];
  }
}
