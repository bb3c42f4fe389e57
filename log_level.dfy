/**
 * The log helpers of pkg/log/helper.go and pkg/logger/helper.go: the level
 * a configured name selects, the directory logs go to and the base name of
 * a log file. Opening files, the logrus logger and its hooks are not part
 * of this model.
 */
module LogHelper {
  import opened GoStrings

  /** logrus.Level, most severe first. */
  datatype Level = PanicLevel | FatalLevel | ErrorLevel | WarnLevel | InfoLevel | DebugLevel | TraceLevel

  /** getLogLevel: the four known names in any case; anything else is Info. */
  function GetLogLevel(l: string): (level: Level)
    ensures level == ErrorLevel <==> ToLower(l) == "error"
    ensures level == WarnLevel <==> ToLower(l) == "warn"
    ensures level == DebugLevel <==> ToLower(l) == "debug"
    ensures level in {ErrorLevel, WarnLevel, InfoLevel, DebugLevel}
  {
    match ToLower(l)
    case "error" => ErrorLevel
    case "warn" => WarnLevel
    case "info" => InfoLevel
    case "debug" => DebugLevel
    case _ => InfoLevel
  }

  lemma LowerCharIdempotent(c: char)
    ensures LowerChar(LowerChar(c)) == LowerChar(c)
  {
  }

  /** The level depends on the name only up to case: lower-casing first changes nothing. */
  lemma LevelIgnoresCase(l: string)
    ensures GetLogLevel(ToLower(l)) == GetLogLevel(l)
  {
    forall i | 0 <= i < |l|
      ensures ToLower(ToLower(l))[i] == ToLower(l)[i]
    {
      LowerCharIdempotent(l[i]);
    }
    assert ToLower(ToLower(l)) == ToLower(l);
  }

  /** Unknown names, the empty one among them, select Info. */
  lemma UnknownIsInfo(l: string)
    requires ToLower(l) !in ["error", "warn", "info", "debug"]
    ensures GetLogLevel(l) == InfoLevel
    ensures GetLogLevel("") == InfoLevel && GetLogLevel("WARN") == WarnLevel
  {
    assert ToLower("WARN") == "warn";
  }

  /** getLogsDir */
  const LogsDir := "storage/logs"

  /** path/filepath.Ext: the part from the last '.' of the last path element, or "". */
  function Ext(path: string): (e: string)
    ensures HasSuffix(path, e)
    ensures e != "" ==> e[0] == '.' && forall k :: 1 <= k < |e| ==> e[k] != '.' && e[k] != '/'
    decreases |path|
  {
    if |path| == 0 || path[|path| - 1] == '/' then ""
    else if path[|path| - 1] == '.' then path[|path| - 1..]
    else
      var e := Ext(path[..|path| - 1]);
      if e == "" then "" else e + [path[|path| - 1]]
  }

  /** A name ending in ".log" has exactly that extension. */
  lemma LogExt(file: string)
    requires HasSuffix(file, ".log")
    ensures Ext(file) == ".log"
  {
    var p := file[..|file| - 4];
    var p1 := p + ['.'];
    var p2 := p1 + ['l'];
    var p3 := p2 + ['o'];
    assert file == p3 + ['g'];
    ExtOfDot(p);
    ExtAppend(p1, 'l');
    ExtAppend(p2, 'o');
    ExtAppend(p3, 'g');
  }

  /** A final dot is the whole extension. */
  lemma ExtOfDot(p: string)
    ensures Ext(p + ['.']) == "."
  {
    var s := p + ['.'];
    assert s[|s| - 1..] == ".";
  }

  /** Once there is an extension, any other character extends it. */
  lemma ExtAppend(p: string, c: char)
    requires c != '/' && c != '.' && Ext(p) != ""
    ensures Ext(p + [c]) == Ext(p) + [c]
  {
    var s := p + [c];
    assert s[..|s| - 1] == p;
  }

  /** normalizedFilename: a ".log" extension removed, any other name kept. */
  function NormalizedFilename(file: string): (r: string)
    ensures HasSuffix(file, ".log") ==> r + ".log" == file
    ensures !HasSuffix(file, ".log") ==> r == file
  {
    if HasSuffix(file, ".log") then
      LogExt(file);
      TrimSuffix(file, Ext(file))
    else file
  }

  /** Normalizing "app.log" gives "app", and "app.txt" stays as it is. */
  lemma NormalizedFilenameExamples()
    ensures NormalizedFilename("app.log") == "app"
    ensures NormalizedFilename("app.txt") == "app.txt"
  {
    assert HasSuffix("app.log", ".log");
    assert !HasSuffix("app.txt", ".log") by { assert "app.txt"[3..] != ".log"; }
  }
}

/** pkg/logger/helper.go: the newer logger's copy of the level mapping. */
module LoggerHelper {
  import opened GoStrings
  import LogHelper

  function GetLogLevel(l: string): (level: LogHelper.Level)
    ensures level == LogHelper.InfoLevel <==> ToLower(l) !in ["error", "warn", "debug"]
  {
    match ToLower(l)
    case "error" => LogHelper.ErrorLevel
    case "warn" => LogHelper.WarnLevel
    case "info" => LogHelper.InfoLevel
    case "debug" => LogHelper.DebugLevel
    case _ => LogHelper.InfoLevel
  }

  /** Both packages map every name to the same level. */
  lemma AgreesWithLog(l: string)
    ensures GetLogLevel(l) == LogHelper.GetLogLevel(l)
  {
  }
}
