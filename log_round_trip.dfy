/**
 * The activity-log writer and the log monitor's parser agree: a line written by
 * `format_line` is read back by `parseLogContent` with its time, source, message and
 * (when it is one the parser recognises) its level.
 */
module LogRoundTrip {
  import opened Wrappers
  import opened Text
  import opened Seqs
  import opened ActivityLog
  import opened LogParser

  /** A field that survives the trip: non-empty, already trimmed, one line, no middle dot. */
  predicate CleanField(f: string) {
    f != "" && TrimJs(f) == f && '\U{B7}' !in f && '\n' !in f
  }

  /** Levels that come back as written: the ones the parser consumes, and the ones the writer omits. */
  predicate RecoverableLevel(level: Option<string>) {
    CleanLevel(level) == "" || CleanLevel(level) == "INFO" || CleanLevel(level) in LevelTokens
  }

  /** A message the parser takes as a plain message: not a level word, not "#N", not a formatter template. */
  predicate PlainMessage(message: string) {
    ToUpper(message) !in LevelTokens && !IsIndexToken(message) && !IsTemplated([message])
  }

  lemma CleanFieldEnds(f: string)
    requires CleanField(f)
    ensures !IsJsSpace(f[0]) && !IsJsSpace(f[|f| - 1])
  {
    StripIsInfix(f, IsJsSpace);
  }

  /** The level words are clean fields. */
  lemma LevelTokensClean(t: string)
    requires t in LevelTokens
    ensures CleanField(t)
  {
    UpperWordClean(t);
  }

  /** A word of capital letters is a clean field. */
  lemma UpperWordClean(t: string)
    requires t != "" && forall k :: 0 <= k < |t| ==> 'A' <= t[k] <= 'Z'
    ensures CleanField(t)
  {
    StripUnchanged(t, IsJsSpace);
  }

  /** Every field `format_line` writes is clean when its inputs are. */
  lemma FieldsClean(timestamp: string, source: string, level: Option<string>, message: string)
    requires CleanField(timestamp) && CleanField(source) && CleanField(message) && RecoverableLevel(level)
    ensures forall k :: 0 <= k < |Fields(timestamp, source, level, message)| ==> CleanField(Fields(timestamp, source, level, message)[k])
  {
    var fields := Fields(timestamp, source, level, message);
    if |fields| == 4 {
      LevelTokensClean(fields[2]);
    }
  }

  /** The written text holds exactly one non-blank line: the fields joined by the separator. */
  lemma LinesOfFormattedLine(timestamp: string, source: string, level: Option<string>, message: string)
    requires CleanField(timestamp) && CleanField(source) && CleanField(message) && RecoverableLevel(level)
    ensures Lines(FormatLine(timestamp, source, level, message)) == [Join(Fields(timestamp, source, level, message), Separator)]
  {
    var fields := Fields(timestamp, source, level, message);
    var line := Join(fields, Separator);
    FieldsClean(timestamp, source, level, message);
    SingleLine(fields);
    assert FormatLine(timestamp, source, level, message) == line + ['\n'];
    LineEdges(fields, line);
    LineKept(line);
  }

  /** No field and not the separator holds a newline, so the joined fields are one line. */
  lemma SingleLine(fields: seq<string>)
    requires forall k :: 0 <= k < |fields| ==> '\n' !in fields[k]
    ensures '\n' !in Join(fields, Separator)
  {
    JoinAvoids(fields, Separator, '\n');
  }

  /** The joined fields start with the first field's first character and end with the last field's last one. */
  lemma LineEdges(fields: seq<string>, line: string)
    requires |fields| >= 1 && CleanField(fields[0]) && CleanField(fields[|fields| - 1])
    requires line == Join(fields, Separator)
    ensures line != "" && !IsJsSpace(line[0]) && !IsJsSpace(line[|line| - 1])
  {
    JoinEndsWithLast(fields, Separator);
    JoinStartsWithFirst(fields, Separator);
    var first, last := fields[0], fields[|fields| - 1];
    CleanFieldEnds(last);
    CleanFieldEnds(first);
    assert line[|line| - |last|..][|last| - 1] == last[|last| - 1];
    assert line[..|first|][0] == first[0];
  }

  /** A newline-free line that starts and ends with something other than white space is the only line kept. */
  lemma LineKept(line: string)
    requires line != "" && !IsJsSpace(line[0]) && !IsJsSpace(line[|line| - 1]) && '\n' !in line
    ensures Lines(line + ['\n']) == [line]
  {
    SplitTerminated(line, '\n');
    assert DropCarriageReturn(line) == line;
    assert DropCarriageReturns([line, ""]) == [line, ""];
    TrimEmptyIffBlank(line);
    KeepNonBlank(line);
  }

  /** Of a non-blank line and an empty one, only the line is kept. */
  lemma KeepNonBlank(line: string)
    requires NonBlank(line)
    ensures Filter([line, ""], NonBlank) == [line]
  {
    assert !NonBlank("");
    assert [line, ""][..1] == [line];
    assert Filter([line], NonBlank) == Filter([], NonBlank) + [line];
  }

  /** Splitting the joined line and trimming each piece gives the fields back. */
  lemma TokensOfFields(fields: seq<string>)
    requires |fields| >= 1
    requires forall k :: 0 <= k < |fields| ==> CleanField(fields[k])
    ensures Tokens(Join(fields, LogSeparator)) == fields
  {
    var line := Join(fields, LogSeparator);
    SplitFields(fields);
    TrimFields(fields);
    FilterAll(fields, NonEmpty);
    assert Tokens(line) == Filter(TrimEach(Split(line, LogSeparator)), NonEmpty);
  }

  lemma SplitFields(fields: seq<string>)
    requires |fields| >= 1
    requires forall k :: 0 <= k < |fields| ==> CleanField(fields[k])
    ensures Split(Join(fields, LogSeparator), LogSeparator) == fields
  {
    assert LogSeparator[1] == '\U{B7}';
    SplitJoin(fields, LogSeparator);
  }

  lemma TrimFields(fields: seq<string>)
    requires forall k :: 0 <= k < |fields| ==> CleanField(fields[k])
    ensures TrimEach(fields) == fields
  {
  }

  /** The header the parser reads from the written fields. */
  lemma HeaderOfFields(timestamp: string, source: string, level: Option<string>, message: string, line: string)
    requires CleanField(timestamp) && CleanField(source) && CleanField(message) && RecoverableLevel(level)
    requires PlainMessage(message)
    ensures var lvl := if CleanLevel(level) in LevelTokens then CleanLevel(level) else "";
      ReadHeader(line, Fields(timestamp, source, level, message)) == Header(timestamp, source, lvl, None, [message])
  {
    var fields := Fields(timestamp, source, level, message);
    if |fields| == 4 {
      ToUpperIdempotent(level.GetOr(""));
      assert fields == [timestamp, source, CleanLevel(level), message];
      HeaderOfFour(line, timestamp, source, CleanLevel(level), message);
    } else {
      assert fields == [timestamp, source, message];
      HeaderOfThree(line, timestamp, source, message);
    }
  }

  /** Three fields whose last is a plain message read as time, source and message. */
  lemma HeaderOfThree(line: string, t: string, s: string, m: string)
    requires ToUpper(m) !in LevelTokens && !IsIndexToken(m)
    ensures ReadHeader(line, [t, s, m]) == Header(t, s, "", None, [m])
  {
    assert [t, s, m][2..] == [m];
  }

  /** Four fields with an upper-case level word read as time, source, level and message. */
  lemma HeaderOfFour(line: string, t: string, s: string, l: string, m: string)
    requires l in LevelTokens && ToUpper(l) == l && !IsIndexToken(m)
    ensures ReadHeader(line, [t, s, l, m]) == Header(t, s, l, None, [m])
  {
    assert [t, s, l, m][2..] == [l, m] && [l, m][1..] == [m];
  }

  /**
   * Round trip: the text `format_line` appends, given to `parseLogContent`, yields one
   * entry carrying the written time, source and message, and the written level when
   * it is one the parser recognises (an omitted or INFO level reads back as empty).
   */
  lemma FormatThenParse(timestamp: string, source: string, level: Option<string>, message: string)
    requires CleanField(timestamp) && CleanField(source) && CleanField(message) && RecoverableLevel(level)
    requires PlainMessage(message)
    ensures var lines := Lines(FormatLine(timestamp, source, level, message));
      var entries := Scan(lines, |lines|, ParseLine).entries;
      |entries| == 1
      && entries[0].time == timestamp && entries[0].source == source && entries[0].message == message
      && entries[0].level == (if CleanLevel(level) in LevelTokens then CleanLevel(level) else "")
  {
    var fields := Fields(timestamp, source, level, message);
    var line := Join(fields, Separator);
    LinesOfFormattedLine(timestamp, source, level, message);
    FieldsClean(timestamp, source, level, message);
    TokensOfFields(fields);
    HeaderOfFields(timestamp, source, level, message, line);
    var entry := ParseLine(line, 0, None).entry;
    assert Scan([line], 1, ParseLine).entries == [entry];
    assert TrimJs(Join([message], MessageJoiner)) == message;
    ParseLineMessage(line, 0, None);
  }
}
