/**
 * internal/finder/usecase/finder_usecase.go: the finder's operations. Each
 * checks existence through the repository before it asks the repository to
 * act. The repository's existence answers are the functions `fileExist`
 * and `dirExist`; its answer to the final request is `reply`.
 */
module FinderUseCase {
  import opened GoTypes
  import opened GoStrings
  import opened Errors
  import FinderPaths

  const ErrPathNotExist := GoError("path not exist")
  const ErrPathAlreadyExist := GoError("path already exist")
  /** Upload's own message for an existing file. */
  const ErrPathExists := GoError("path exists")

  /** The repository's answer to FileExist / DirExist. */
  datatype Answer = Answer(exist: bool, err: Option<Contract>)

  /** The request an operation finally makes of the repository. */
  datatype Call =
    | ListContents(path: string)
    | MakeDirectory(path: string)
    | MakeThumbnail(path: string)
    | ShowPreview(path: string)
    | UploadTo(path: string, filename: string)
    | RenameAll(renames: map<string, string>)
    | DeleteAll(paths: seq<string>)
    | CopyAll(copies: map<string, string>)
    | CutAll(moves: map<string, string>)

  /** What an operation did: the request it made, if any, and the error it returns. */
  datatype Outcome = Outcome(call: Option<Call>, err: Option<Contract>)

  /** trimSlash: '/' removed from both ends. */
  function TrimSlash(p: string): (r: string)
    ensures r == [] || (r[0] != '/' && r[|r| - 1] != '/')
    ensures exists i :: OccursAt(p, r, i)
  {
    var right := TrimRight(p, "/");
    var r := TrimLeft(right, "/");
    assert right[|right| - |r|..] == r;
    assert p[..|right|] == right;
    assert p[|right| - |r|..|right|] == r;
    assert OccursAt(p, r, |right| - |r|);
    r
  }

  /** concatPaths: the same join as the datasource's path helper with '/'. */
  function ConcatPaths(paths: seq<string>): string
  {
    FinderPaths.PathHelper('/').Concat(paths)
  }

  /** dirPath: the same code as the datasource's path helper with '/'. */
  function DirPath(path: string): string
  {
    FinderPaths.PathHelper('/').DirPath(path)
  }

  /** The characters after the last '/' of `t`. */
  function LastSegment(t: string): (r: string)
    ensures |r| <= |t| && r == t[|t| - |r|..]
    ensures '/' !in r
    ensures |r| == |t| || t[|t| - |r| - 1] == '/'
    decreases |t|
  {
    if |t| == 0 || t[|t| - 1] == '/' then ""
    else LastSegment(t[..|t| - 1]) + [t[|t| - 1]]
  }

  /** path.Base: "." for "", "/" for slashes only, else the last element once trailing slashes are gone. */
  function BaseName(path: string): (r: string)
    ensures path == "" ==> r == "."
    ensures path != "" && TrimRight(path, "/") == "" ==> r == "/"
    ensures TrimRight(path, "/") != "" ==> r != "" && '/' !in r
  {
    if path == "" then "."
    else
      var t := TrimRight(path, "/");
      if t == "" then "/" else LastSegment(t)
  }

  /** The check before a request: a repository error wins, then the path must (or must not) exist. */
  function Check(a: Answer, wantExist: bool, e: GoError): (r: Option<Contract>)
    ensures r.None? <==> a.err.None? && a.exist == wantExist
    ensures a.err.Some? ==> r == a.err
    ensures a.err.None? && a.exist != wantExist ==> r == Some(NewDomain(e))
  {
    if a.err.Some? then a.err
    else if a.exist != wantExist then Some(NewDomain(e))
    else None
  }

  /** After a failed check no request is made; after a passed one the request's answer is returned. */
  function Run(guard: Option<Contract>, call: Call, reply: Call -> Option<Contract>): (o: Outcome)
    ensures o.call.Some? <==> guard.None?
    ensures guard.Some? ==> o.err == guard
    ensures guard.None? ==> o == Outcome(Some(call), reply(call))
  {
    if guard.Some? then Outcome(None, guard) else Outcome(Some(call), reply(call))
  }

  /** The path a new directory or an uploaded file gets: the trimmed directory and the name, or the name alone. */
  function Target(dir: string, name: string): (r: string)
    ensures TrimSlash(dir) == "" ==> r == name
    ensures TrimSlash(dir) != "" ==> r == TrimSlash(dir) + "/" + name
  {
    if TrimSlash(dir) != "" then
      var parts := [TrimSlash(dir), name];
      assert Join(parts[1..], "/") == name;
      ConcatPaths(parts)
    else name
  }

  /** GetContents: a missing directory is a domain error and nothing is listed. */
  function GetContents(path: string, dirExist: string -> Answer, reply: Call -> Option<Contract>): (o: Outcome)
    ensures o.call.Some? <==> dirExist(path) == Answer(true, None)
    ensures o.call.Some? ==> o.call.value == ListContents(path)
    ensures dirExist(path) == Answer(false, None) ==> o.err == Some(NewDomain(ErrPathNotExist))
  {
    Run(Check(dirExist(path), true, ErrPathNotExist), ListContents(path), reply)
  }

  /** CreateDirectory: the target must not exist yet. */
  function CreateDirectory(path: string, name: string, dirExist: string -> Answer, reply: Call -> Option<Contract>): (o: Outcome)
    ensures o.call.Some? <==> dirExist(Target(path, name)) == Answer(false, None)
    ensures o.call.Some? ==> o.call.value == MakeDirectory(Target(path, name))
    ensures dirExist(Target(path, name)) == Answer(true, None) ==> o.err == Some(NewDomain(ErrPathAlreadyExist))
  {
    var target := Target(path, name);
    Run(Check(dirExist(target), false, ErrPathAlreadyExist), MakeDirectory(target), reply)
  }

  /** Thumbnail: the file must exist. */
  function Thumbnail(path: string, fileExist: string -> Answer, reply: Call -> Option<Contract>): (o: Outcome)
    ensures o.call.Some? <==> fileExist(path) == Answer(true, None)
    ensures o.call.Some? ==> o.call.value == MakeThumbnail(path)
    ensures fileExist(path) == Answer(false, None) ==> o.err == Some(NewDomain(ErrPathNotExist))
  {
    Run(Check(fileExist(path), true, ErrPathNotExist), MakeThumbnail(path), reply)
  }

  /** Preview: the file must exist. */
  function Preview(path: string, fileExist: string -> Answer, reply: Call -> Option<Contract>): (o: Outcome)
    ensures o.call.Some? <==> fileExist(path) == Answer(true, None)
    ensures o.call.Some? ==> o.call.value == ShowPreview(path)
    ensures fileExist(path) == Answer(false, None) ==> o.err == Some(NewDomain(ErrPathNotExist))
  {
    Run(Check(fileExist(path), true, ErrPathNotExist), ShowPreview(path), reply)
  }

  /**
   * Upload: the target file must not exist. The repository is handed the
   * directory as the caller gave it, not the checked target.
   */
  function Upload(path: string, filename: string, fileExist: string -> Answer, reply: Call -> Option<Contract>): (o: Outcome)
    ensures o.call.Some? <==> fileExist(Target(path, filename)) == Answer(false, None)
    ensures o.call.Some? ==> o.call.value == UploadTo(path, filename)
    ensures fileExist(Target(path, filename)) == Answer(true, None) ==> o.err == Some(NewDomain(ErrPathExists))
  {
    Run(Check(fileExist(Target(path, filename)), false, ErrPathExists), UploadTo(path, filename), reply)
  }

  /** Rename's new path: the old path's directory with the new name, or the new name alone. */
  function RenameTarget(oldPath: string, newName: string): (r: string)
    ensures DirPath(TrimSlash(oldPath)) == "" ==> r == newName
    ensures DirPath(TrimSlash(oldPath)) != "" ==> r == DirPath(TrimSlash(oldPath)) + "/" + newName
  {
    var dir := DirPath(TrimSlash(oldPath));
    if dir != "" then
      var paths := [dir, newName];
      assert Join(paths[1..], "/") == newName;
      ConcatPaths(paths)
    else ConcatPaths([newName])
  }

  /** Copy's and Cut's new path: the destination as given, '/', and the item's base name. */
  function TransferTarget(dest: string, path: string): (r: string)
    ensures r == dest + "/" + BaseName(path)
  {
    var parts := [dest, BaseName(path)];
    assert Join(parts[1..], "/") == BaseName(path);
    ConcatPaths(parts)
  }

  /** The map a batch has collected so far, or the error that stopped it. */
  datatype Collected = Collected(items: map<string, string>, err: Option<Contract>)

  /** The checks of one move: the source must exist and the target must not. */
  function MoveCheck(from: string, to: string, fileExist: string -> Answer): (r: Option<Contract>)
    ensures r.None? <==> fileExist(from) == Answer(true, None) && fileExist(to) == Answer(false, None)
  {
    var c := Check(fileExist(from), true, ErrPathNotExist);
    if c.Some? then c else Check(fileExist(to), false, ErrPathAlreadyExist)
  }

  /** A move that Rename leaves out: one whose new path is its old path. */
  predicate Skipped(skipSame: bool, move: (string, string))
  {
    skipSame && move.0 == move.1
  }

  /**
   * The loops of Rename, Copy and Cut: moves are checked in order and
   * collected into a map; the first failed check stops the batch.
   */
  function Collect(moves: seq<(string, string)>, skipSame: bool, fileExist: string -> Answer): Collected
    decreases |moves|
  {
    if |moves| == 0 then Collected(map[], None)
    else
      var prev := Collect(moves[..|moves| - 1], skipSame, fileExist);
      var move := moves[|moves| - 1];
      if prev.err.Some? || Skipped(skipSame, move) then prev
      else
        var e := MoveCheck(move.0, move.1, fileExist);
        if e.Some? then Collected(prev.items, e) else Collected(prev.items[move.0 := move.1], None)
  }

  /** A batch goes through exactly when every move it does not skip passes its checks. */
  lemma {:induction false} CollectSucceeds(moves: seq<(string, string)>, skipSame: bool, fileExist: string -> Answer)
    ensures Collect(moves, skipSame, fileExist).err.None? <==>
      (forall i :: 0 <= i < |moves| ==> (Skipped(skipSame, moves[i]) || MoveCheck(moves[i].0, moves[i].1, fileExist).None?))
    decreases |moves|
  {
    if |moves| > 0 {
      var init := moves[..|moves| - 1];
      CollectSucceeds(init, skipSame, fileExist);
      assert forall i :: 0 <= i < |init| ==> init[i] == moves[i];
    }
  }

  /** A batch that goes through maps every unskipped source to its target and nothing else. */
  lemma {:induction false} CollectMap(moves: seq<(string, string)>, skipSame: bool, fileExist: string -> Answer)
    requires Collect(moves, skipSame, fileExist).err.None?
    requires forall i, j :: 0 <= i < j < |moves| ==> moves[i].0 != moves[j].0
    ensures forall k :: k in Collect(moves, skipSame, fileExist).items <==>
      (exists i :: 0 <= i < |moves| && moves[i].0 == k && !Skipped(skipSame, moves[i]))
    ensures forall i :: 0 <= i < |moves| && !Skipped(skipSame, moves[i]) ==>
      moves[i].0 in Collect(moves, skipSame, fileExist).items && Collect(moves, skipSame, fileExist).items[moves[i].0] == moves[i].1
    decreases |moves|
  {
    if |moves| > 0 {
      var init := moves[..|moves| - 1];
      assert forall i :: 0 <= i < |init| ==> init[i] == moves[i];
      CollectMap(init, skipSame, fileExist);
    }
  }

  /** The shared loop of Rename, Copy and Cut, proved against Collect. */
  method CollectMoves(moves: seq<(string, string)>, skipSame: bool, fileExist: string -> Answer)
    returns (items: map<string, string>, err: Option<Contract>)
    ensures Collected(items, err) == Collect(moves, skipSame, fileExist)
  {
    items := map[];
    var i := 0;
    while i < |moves|
      invariant 0 <= i <= |moves|
      invariant Collect(moves[..i], skipSame, fileExist) == Collected(items, None)
    {
      assert moves[..i + 1][..i] == moves[..i];
      var move := moves[i];
      if !Skipped(skipSame, move) {
        var e := MoveCheck(move.0, move.1, fileExist);
        if e.Some? {
          assert moves[..i + 1][..i] == moves[..i];
          PrefixStops(moves, i + 1, skipSame, fileExist);
          return items, e;
        }
        items := items[move.0 := move.1];
      }
      i := i + 1;
    }
    assert moves[..i] == moves;
    return items, None;
  }

  /** Once a prefix of a batch has failed, the whole batch fails with the same error. */
  lemma {:induction false} PrefixStops(moves: seq<(string, string)>, n: nat, skipSame: bool, fileExist: string -> Answer)
    requires n <= |moves|
    requires Collect(moves[..n], skipSame, fileExist).err.Some?
    ensures Collect(moves, skipSame, fileExist) == Collect(moves[..n], skipSame, fileExist)
    decreases |moves| - n
  {
    if n < |moves| {
      assert moves[..n + 1][..n] == moves[..n];
      PrefixStops(moves, n + 1, skipSame, fileExist);
    } else {
      assert moves[..n] == moves;
    }
  }

  /** A batch request: nothing is asked of the repository when a check failed. */
  function RunBatch(c: Collected, call: Call, reply: Call -> Option<Contract>): (o: Outcome)
    ensures o.call.Some? <==> c.err.None?
    ensures c.err.Some? ==> o.err == c.err
    ensures c.err.None? ==> o == Outcome(Some(call), reply(call))
  {
    Run(c.err, call, reply)
  }

  /** Rename: each (old path, new name) in `items` (the DTO's map in iteration order). */
  method Rename(items: seq<(string, string)>, fileExist: string -> Answer, reply: Call -> Option<Contract>)
    returns (o: Outcome)
    ensures var moves := seq(|items|, i requires 0 <= i < |items| => (items[i].0, RenameTarget(items[i].0, items[i].1)));
      var c := Collect(moves, true, fileExist);
      o == RunBatch(c, RenameAll(c.items), reply)
  {
    var moves := seq(|items|, i requires 0 <= i < |items| => (items[i].0, RenameTarget(items[i].0, items[i].1)));
    var m, err := CollectMoves(moves, true, fileExist);
    o := RunBatch(Collected(m, err), RenameAll(m), reply);
  }

  /** Copy: each item to the destination under its base name. */
  method Copy(dest: string, paths: seq<string>, fileExist: string -> Answer, reply: Call -> Option<Contract>)
    returns (o: Outcome)
    ensures var moves := seq(|paths|, i requires 0 <= i < |paths| => (paths[i], TransferTarget(dest, paths[i])));
      var c := Collect(moves, false, fileExist);
      o == RunBatch(c, CopyAll(c.items), reply)
  {
    var moves := seq(|paths|, i requires 0 <= i < |paths| => (paths[i], TransferTarget(dest, paths[i])));
    var m, err := CollectMoves(moves, false, fileExist);
    o := RunBatch(Collected(m, err), CopyAll(m), reply);
  }

  /** Cut: the same checks as Copy, then a move. */
  method Cut(dest: string, paths: seq<string>, fileExist: string -> Answer, reply: Call -> Option<Contract>)
    returns (o: Outcome)
    ensures var moves := seq(|paths|, i requires 0 <= i < |paths| => (paths[i], TransferTarget(dest, paths[i])));
      var c := Collect(moves, false, fileExist);
      o == RunBatch(c, CutAll(c.items), reply)
  {
    var moves := seq(|paths|, i requires 0 <= i < |paths| => (paths[i], TransferTarget(dest, paths[i])));
    var m, err := CollectMoves(moves, false, fileExist);
    o := RunBatch(Collected(m, err), CutAll(m), reply);
  }

  /** Delete's checks: the first path that is missing (or whose check fails) stops the batch. */
  function DeleteCheck(paths: seq<string>, fileExist: string -> Answer): (r: Option<Contract>)
    decreases |paths|
  {
    if |paths| == 0 then None
    else
      var prev := DeleteCheck(paths[..|paths| - 1], fileExist);
      if prev.Some? then prev else Check(fileExist(paths[|paths| - 1]), true, ErrPathNotExist)
  }

  /** Delete's checks pass exactly when every item exists. */
  lemma {:induction false} DeleteCheckSucceeds(paths: seq<string>, fileExist: string -> Answer)
    ensures DeleteCheck(paths, fileExist).None? <==> forall i :: 0 <= i < |paths| ==> fileExist(paths[i]) == Answer(true, None)
    decreases |paths|
  {
    if |paths| > 0 {
      var init := paths[..|paths| - 1];
      DeleteCheckSucceeds(init, fileExist);
      assert forall i :: 0 <= i < |init| ==> init[i] == paths[i];
    }
  }

  /** Delete: every item is checked before any is deleted; the request names them all, in order. */
  method Delete(paths: seq<string>, fileExist: string -> Answer, reply: Call -> Option<Contract>) returns (o: Outcome)
    ensures var e := DeleteCheck(paths, fileExist);
      o == Run(e, DeleteAll(paths), reply)
  {
    var items := [];
    var i := 0;
    while i < |paths|
      invariant 0 <= i <= |paths|
      invariant DeleteCheck(paths[..i], fileExist).None?
      invariant items == paths[..i]
    {
      assert paths[..i + 1][..i] == paths[..i];
      var e := Check(fileExist(paths[i]), true, ErrPathNotExist);
      if e.Some? {
        DeleteCheckStops(paths, i + 1, fileExist);
        return Outcome(None, e);
      }
      items := items + [paths[i]];
      i := i + 1;
    }
    assert paths[..i] == paths;
    o := Run(None, DeleteAll(items), reply);
  }

  /** Once a prefix of Delete's items fails its check, the whole batch fails with the same error. */
  lemma {:induction false} DeleteCheckStops(paths: seq<string>, n: nat, fileExist: string -> Answer)
    requires n <= |paths|
    requires DeleteCheck(paths[..n], fileExist).Some?
    ensures DeleteCheck(paths, fileExist) == DeleteCheck(paths[..n], fileExist)
    decreases |paths| - n
  {
    if n < |paths| {
      assert paths[..n + 1][..n] == paths[..n];
      DeleteCheckStops(paths, n + 1, fileExist);
    } else {
      assert paths[..n] == paths;
    }
  }

  /** A renamed item stays in its directory when the new name has no '/'. */
  lemma RenameStaysInDirectory(oldPath: string, newName: string)
    requires '/' !in newName
    ensures DirPath(RenameTarget(oldPath, newName)) == DirPath(TrimSlash(oldPath))
  {
    var dir := DirPath(TrimSlash(oldPath));
    var target := RenameTarget(oldPath, newName);
    if dir != "" {
      SplitAppended(dir, newName, '/');
      var split := Split(target, '/');
      assert split[..|split| - 1] == Split(dir, '/');
      JoinSplit(dir, '/');
    } else {
      assert Split(newName, '/') == [newName];
    }
  }
}
