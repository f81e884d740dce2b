/**
 * The log line format: a `[source / level] message` line whose level is
 * wrapped in a colour markup tag.
 */
module Log {
  import opened Errors
  import opened Text

  /** The colour tag of each recognised level name. */
  const LevelColors: map<string, string> :=
    map["DEBUG" := "magenta", "INFO" := "blue", "WARNING" := "yellow", "ERROR" := "red", "CRITICAL" := "black"]

  /** The fields of a log record the formatter reads; `err` is `extra["err"]` when it is set. */
  datatype LogRecord = LogRecord(name: string, func: string, err: Option<string>, level: string, message: string)

  function Wrap(color: string, level: string): string {
    "<" + color + ">" + level + "</" + color + ">"
  }

  /**
   * `_colorize_level`: a recognised level, upper case exactly, comes back
   * wrapped in its colour tag; anything else gives an empty string and an
   * `UnrecognizedLevel` error.
   */
  function ColorizeLevel(level: string): (r: (string, Option<Error>))
    ensures r.1.None? <==> level in LevelColors
    ensures level in LevelColors ==> r.0 == Wrap(LevelColors[level], level)
    ensures level !in LevelColors ==> r == ("", Some(UnrecognizedLevel(level)))
  {
    if level == "DEBUG" then (Wrap("magenta", level), None)
    else if level == "INFO" then (Wrap("blue", level), None)
    else if level == "WARNING" then (Wrap("yellow", level), None)
    else if level == "ERROR" then (Wrap("red", level), None)
    else if level == "CRITICAL" then (Wrap("black", level), None)
    else ("", Some(UnrecognizedLevel(level)))
  }

  /** Level names are matched case-sensitively. */
  lemma ColorizeIsCaseSensitive()
    ensures ColorizeLevel("debug") == ("", Some(UnrecognizedLevel("debug")))
  {
    assert "debug"[0] !in {'D', 'I', 'W', 'E', 'C'};
  }

  /** Whether `extra["err"]` is truthy: set and not the empty string. */
  predicate HasErr(record: LogRecord) {
    record.err.Some? && record.err.value != ""
  }

  /** The source segment: `name.function`, then `.err` when the record carries an error. */
  function Source(record: LogRecord): string {
    record.name + "." + record.func + (if HasErr(record) then "." + record.err.value else "")
  }

  /**
   * The source segment is unambiguous when its parts contain no `.`: it
   * splits back into the name, the function and, when present, the error.
   */
  lemma SourceSplits(record: LogRecord)
    requires '.' !in record.name && '.' !in record.func
    requires HasErr(record) ==> '.' !in record.err.value
    ensures Split(Source(record), '.') ==
            [record.name, record.func] + (if HasErr(record) then [record.err.value] else [])
  {
    var n := record.name;
    var f := record.func;
    if HasErr(record) {
      var e := record.err.value;
      assert Source(record) == n + "." + (f + "." + e);
      SplitCons(n, f + "." + e, '.');
      SplitPair(f, e, '.');
    } else {
      assert Source(record) == n + "." + f;
      SplitPair(n, f, '.');
    }
  }

  /**
   * `_format_log` without its diagnostic `print`: `[source / level] message`
   * and a newline; an unrecognised level leaves the level segment empty.
   */
  method FormatLog(record: LogRecord) returns (line: string)
    ensures line == "[" + Source(record) + " / " + ColorizeLevel(record.level).0 + "] " + record.message + "\n"
    ensures record.level !in LevelColors ==> line == "[" + Source(record) + " / ] " + record.message + "\n"
  {
    var srcArgs := [record.name, record.func];
    if HasErr(record) {
      srcArgs := srcArgs + [record.err.value];
    }
    var src := Join(srcArgs, ".");
    if HasErr(record) {
      assert srcArgs[1..] == [record.func, record.err.value];
      assert Join(srcArgs[1..], ".") == record.func + "." + record.err.value;
      assert src == record.name + "." + (record.func + "." + record.err.value);
      assert record.name + "." + (record.func + "." + record.err.value) ==
             record.name + "." + record.func + ("." + record.err.value);
    } else {
      assert srcArgs[1..] == [record.func];
      assert Join(srcArgs[1..], ".") == record.func;
      assert |srcArgs| == 2 && srcArgs[0] == record.name;
      assert src == record.name + "." + record.func;
    }
    assert src == Source(record);
    var level := ColorizeLevel(record.level).0;
    line := "[" + src + " / " + level + "] " + record.message + "\n";
  }
}
