/**
 * The crawler's activity log writer: one line per event, fields joined with the
 * middle-dot separator. The wall-clock timestamp is a parameter; the file append
 * and its lock are I/O and are not modelled, so `WriteActivity` returns the line it
 * would append.
 */
module ActivityLog {
  import opened Wrappers
  import opened Text

  /** The field separator " · " (space, U+00B7, space). */
  const Separator: string := " \U{B7} "

  /** `(level or '').upper()`. */
  function CleanLevel(level: Option<string>): string {
    ToUpper(level.GetOr(""))
  }

  /** The fields of a line in order: timestamp, source, the level unless it is empty or INFO, message. */
  function Fields(timestamp: string, source: string, level: Option<string>, message: string): (fields: seq<string>)
    ensures 3 <= |fields| <= 4 && fields[0] == timestamp && fields[1] == source && fields[|fields| - 1] == message
    ensures |fields| == 4 <==> CleanLevel(level) != "" && CleanLevel(level) != "INFO"
    ensures |fields| == 4 ==> fields[2] == CleanLevel(level)
  {
    var levelClean := CleanLevel(level);
    [timestamp, source] + (if levelClean != "" && levelClean != "INFO" then [levelClean] else []) + [message]
  }

  /** `format_line(source, level, message)` with the clock reading `timestamp`. */
  function FormatLine(timestamp: string, source: string, level: Option<string>, message: string): (line: string)
    ensures EndsWith(line, "\n")
  {
    Join(Fields(timestamp, source, level, message), Separator) + "\n"
  }

  /**
   * When no field contains the middle dot, cutting the final newline and splitting on
   * the separator gives back exactly timestamp, source, optional level and message:
   * the serialised line is unambiguous.
   */
  lemma FormatLineSplitsIntoFields(timestamp: string, source: string, level: Option<string>, message: string)
    requires '\U{B7}' !in timestamp && '\U{B7}' !in source && '\U{B7}' !in message
    requires '\U{B7}' !in CleanLevel(level)
    ensures var line := FormatLine(timestamp, source, level, message);
      Split(line[..|line| - 1], Separator) == Fields(timestamp, source, level, message)
  {
    var fields := Fields(timestamp, source, level, message);
    var line := FormatLine(timestamp, source, level, message);
    assert line[..|line| - 1] == Join(fields, Separator);
    SplitJoin(fields, Separator);
  }

  /**
   * `write_activity(path, source, level, message)`: nothing is written when the path
   * is None or empty; otherwise the formatted line is appended.
   */
  function WriteActivity(path: Option<string>, timestamp: string, source: string, level: Option<string>, message: string): (appended: Option<string>)
    ensures appended.None? <==> path.None? || path.value == ""
    ensures appended.Some? ==> appended.value == FormatLine(timestamp, source, level, message)
  {
    if path.None? || path.value == "" then None
    else Some(FormatLine(timestamp, source, level, message))
  }
}
