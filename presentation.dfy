/**
 * What the log panel shows: the severity filter, the newest 400 entries, the line that
 * reports a truncation, the entry counter and, in grouped mode, one group per source
 * index with its title. The DOM elements become the returned `LogView`.
 */
module Presentation {
  import opened Wrappers
  import opened Text
  import opened Seqs
  import opened LogParser

  /** `MAX_LOG_ENTRIES`: how many entries the panel renders at most. */
  const MaxLogEntries: nat := 400

  /** The filter button that shows every entry. */
  const AllFilter: string := "all"

  // ---------------------------------------------------------------------------
  // Filtering and truncation
  // ---------------------------------------------------------------------------

  function SeverityIs(filter: string): LogEntry -> bool {
    (e: LogEntry) => SeverityName(e.severity) == filter
  }

  /** `getFilteredLogEntries`: every entry under "all", otherwise the entries whose severity is named by the filter. */
  function FilterEntries(entries: seq<LogEntry>, filter: string): (r: seq<LogEntry>)
    ensures |r| <= |entries|
  {
    if filter == AllFilter then entries else Filter(entries, SeverityIs(filter))
  }

  /**
   * "all" keeps every entry; any other filter keeps exactly the entries whose severity it
   * names, and the button of one severity keeps exactly the entries of that severity.
   */
  lemma FilterEntriesExactly(entries: seq<LogEntry>, filter: string, e: LogEntry, s: Severity)
    ensures filter == AllFilter ==> FilterEntries(entries, filter) == entries
    ensures filter != AllFilter ==>
      (e in FilterEntries(entries, filter) <==> e in entries && SeverityName(e.severity) == filter)
    ensures filter == SeverityName(s) ==>
      (e in FilterEntries(entries, filter) <==> e in entries && e.severity == s)
  {
    FilterMembers(entries, SeverityIs(filter), e);
    SeverityNameInjective(e.severity, s);
  }

  /** The entries that are rendered: the last `MaxLogEntries` of the filtered ones, in their order. */
  function LastEntries(filtered: seq<LogEntry>): (shown: seq<LogEntry>)
    ensures |shown| == if |filtered| > MaxLogEntries then MaxLogEntries else |filtered|
    ensures shown == filtered[|filtered| - |shown|..]
  {
    if |filtered| > MaxLogEntries then filtered[|filtered| - MaxLogEntries..] else filtered
  }

  /** The line shown above the entries when some were cut. */
  function MetaLine(shown: nat, total: nat): string {
    "... mostrando ultimas " + NatToString(shown) + " de " + NatToString(total) + " entradas"
  }

  /** The entry counter: the filtered total, and how many are shown when that is fewer. */
  function CountText(total: nat, shown: nat): string {
    if total == shown then "Entradas: " + NatToString(total)
    else "Entradas: " + NatToString(total) + " (mostrando " + NatToString(shown) + ")"
  }

  // ---------------------------------------------------------------------------
  // Groups
  // ---------------------------------------------------------------------------

  /** The grouping key: the entry's source index, or 0 when it has none. */
  function GroupKey(e: LogEntry): nat {
    e.urlIndex.GetOr(0)
  }

  function HasKey(k: nat): LogEntry -> bool {
    (e: LogEntry) => GroupKey(e) == k
  }

  /** The entries of group `k`, in their original order. */
  function EntriesWithKey(entries: seq<LogEntry>, k: nat): seq<LogEntry> {
    Filter(entries, HasKey(k))
  }

  /** Each key present maps to its (non-empty) group, and every absent key has no entries. */
  ghost predicate GroupedAs(grouped: map<nat, seq<LogEntry>>, entries: seq<LogEntry>) {
    && (forall k :: k in grouped ==> grouped[k] == EntriesWithKey(entries, k) && grouped[k] != [])
    && (forall k :: k !in grouped ==> EntriesWithKey(entries, k) == [])
  }

  /** Appending an entry to its group (created empty when missing) keeps the grouping exact. */
  lemma GroupStep(grouped: map<nat, seq<LogEntry>>, entries: seq<LogEntry>, e: LogEntry)
    requires GroupedAs(grouped, entries)
    ensures var key := GroupKey(e);
      GroupedAs(grouped[key := (if key in grouped then grouped[key] else []) + [e]], entries + [e])
  {
    var key := GroupKey(e);
    var next := grouped[key := (if key in grouped then grouped[key] else []) + [e]];
    forall k
      ensures EntriesWithKey(entries + [e], k) == EntriesWithKey(entries, k) + (if key == k then [e] else [])
    {
      assert (entries + [e])[..|entries|] == entries;
    }
  }

  predicate Distinct(keys: seq<nat>) {
    forall i, j :: 0 <= i < j < |keys| ==> keys[i] != keys[j]
  }

  predicate Increasing(keys: seq<nat>) {
    forall i, j :: 0 <= i < j < |keys| ==> keys[i] < keys[j]
  }

  /**
   * The grouping `Map` of `updateLogDisplay`: the keys in order of first appearance and,
   * for each key, its entries in their original order.
   */
  method GroupByIndex(shown: seq<LogEntry>) returns (keys: seq<nat>, grouped: map<nat, seq<LogEntry>>)
    ensures Distinct(keys)
    ensures forall k :: k in grouped <==> k in keys
    ensures forall k :: k in grouped ==> grouped[k] == EntriesWithKey(shown, k) && grouped[k] != []
    ensures forall j :: 0 <= j < |shown| ==> GroupKey(shown[j]) in grouped
  {
    keys, grouped := [], map[];
    for i := 0 to |shown|
      invariant Distinct(keys)
      invariant forall k :: k in grouped <==> k in keys
      invariant GroupedAs(grouped, shown[..i])
      invariant forall j :: 0 <= j < i ==> GroupKey(shown[j]) in grouped
    {
      var e := shown[i];
      var key := GroupKey(e);
      GroupStep(grouped, shown[..i], e);
      assert shown[..i + 1] == shown[..i] + [e];
      var group := [];
      if key in grouped {
        group := grouped[key];
      } else {
        keys := keys + [key];
      }
      grouped := grouped[key := group + [e]];
    }
    assert shown[..|shown|] == shown;
  }

  /** `k` placed among the increasing `sorted`. */
  function Insert(sorted: seq<nat>, k: nat): (r: seq<nat>)
    requires Increasing(sorted) && k !in sorted
    ensures Increasing(r)
    ensures forall x :: x in r <==> x in sorted || x == k
    ensures |r| == |sorted| + 1
  {
    if sorted == [] || k < sorted[0] then [k] + sorted
    else
      var rest := Insert(sorted[1..], k);
      assert forall m :: 0 <= m < |sorted| - 1 ==> sorted[0] < sorted[1..][m];
      assert forall j :: 0 <= j < |rest| ==> rest[j] in sorted[1..] || rest[j] == k;
      [sorted[0]] + rest
  }

  /**
   * The keys sorted by the comparator that puts 0 first and the rest ascending; on
   * non-negative keys that is ascending order.
   */
  method SortKeys(keys: seq<nat>) returns (sorted: seq<nat>)
    requires Distinct(keys)
    ensures Increasing(sorted)
    ensures forall x :: x in sorted <==> x in keys
    ensures |sorted| == |keys|
  {
    sorted := [];
    for i := 0 to |keys|
      invariant Increasing(sorted) && |sorted| == i
      invariant forall x :: x in sorted <==> x in keys[..i]
    {
      assert keys[i] !in keys[..i];
      assert keys[..i + 1] == keys[..i] + [keys[i]];
      sorted := Insert(sorted, keys[i]);
    }
    assert keys[..|keys|] == keys;
  }

  /** What the grouped mode renders for one group: its key, title, count and entries. */
  datatype LogGroup = LogGroup(key: nat, title: string, count: string, entries: seq<LogEntry>)

  /** The rendered panel: the truncation line, the entries flat or grouped, and the counter. */
  datatype LogBody = Flat(entries: seq<LogEntry>) | Grouped(groups: seq<LogGroup>)
  datatype LogView = LogView(meta: Option<string>, body: LogBody, count: string)

  /** The group keys, in the order the groups are shown. */
  function Keys(groups: seq<LogGroup>): (keys: seq<nat>)
    ensures |keys| == |groups|
    ensures forall i :: 0 <= i < |groups| ==> keys[i] == groups[i].key
  {
    seq(|groups|, i requires 0 <= i < |groups| => groups[i].key)
  }

  /**
   * The groups `updateLogDisplay` draws for `shown`: one per key present, keys ascending
   * (0 first), every entry in the group of its key and each group's entries in order.
   */
  predicate GroupedView(groups: seq<LogGroup>, shown: seq<LogEntry>, sources: map<nat, SourceMeta>) {
    Increasing(Keys(groups))
    && (forall j :: 0 <= j < |shown| ==> GroupKey(shown[j]) in Keys(groups))
    && forall i :: 0 <= i < |groups| ==>
      groups[i].entries == EntriesWithKey(shown, groups[i].key) && groups[i].entries != []
      && groups[i].title == DescribeLogGroup(groups[i].key, sources)
      && groups[i].count == NatToString(|groups[i].entries|) + " entradas"
  }

  /** The truncate, group and count part of `updateLogDisplay`. */
  method UpdateLogDisplay(entries: seq<LogEntry>, filter: string, grouped: bool, sources: map<nat, SourceMeta>)
    returns (view: LogView)
    ensures var filtered := FilterEntries(entries, filter);
      && (view.meta.Some? <==> |filtered| > MaxLogEntries)
      && (view.meta.Some? ==> view.meta.value == MetaLine(MaxLogEntries, |filtered|))
      && view.count == CountText(|filtered|, |LastEntries(filtered)|)
      && (!grouped ==> view.body == Flat(LastEntries(filtered)))
      && (grouped ==> view.body.Grouped? && GroupedView(view.body.groups, LastEntries(filtered), sources))
  {
    var filtered := FilterEntries(entries, filter);
    var shown := LastEntries(filtered);
    var meta := if |shown| < |filtered| then Some(MetaLine(|shown|, |filtered|)) else None;
    var count := CountText(|filtered|, |shown|);
    if grouped {
      var groups := BuildGroups(shown, sources);
      view := LogView(meta, Grouped(groups), count);
    } else {
      view := LogView(meta, Flat(shown), count);
    }
  }

  /** The grouped body: the grouping map, its keys sorted, and one titled group per key. */
  method BuildGroups(shown: seq<LogEntry>, sources: map<nat, SourceMeta>) returns (groups: seq<LogGroup>)
    ensures GroupedView(groups, shown, sources)
  {
    var keys, groupMap := GroupByIndex(shown);
    var sorted := SortKeys(keys);
    groups := [];
    for i := 0 to |sorted|
      invariant |groups| == i
      invariant forall m :: 0 <= m < i ==> groups[m].key == sorted[m]
      invariant forall m :: 0 <= m < i ==>
        groups[m].entries == EntriesWithKey(shown, groups[m].key) && groups[m].entries != []
        && groups[m].title == DescribeLogGroup(groups[m].key, sources)
        && groups[m].count == NatToString(|groups[m].entries|) + " entradas"
    {
      var key := sorted[i];
      var members := groupMap[key];
      groups := groups + [LogGroup(key, DescribeLogGroup(key, sources), NatToString(|members|) + " entradas", members)];
    }
    assert Keys(groups) == sorted;
  }

  // ---------------------------------------------------------------------------
  // Group titles
  // ---------------------------------------------------------------------------

  /** What the sources panel recorded for a source index: its description and URL. */
  datatype SourceMeta = SourceMeta(description: string, url: string)

  /** The em dash that separates a group's number from its description. */
  const TitleJoiner: string := " \U{2014} "

  /** The text with every white-space character removed (`replace(/\s+/g, '')`). */
  function RemoveSpaces(s: string): (r: string)
    ensures forall k :: 0 <= k < |r| ==> !IsJsSpace(r[k])
    ensures forall c :: c in r <==> c in s && !IsJsSpace(c)
  {
    var visible := (c: char) => !IsJsSpace(c);
    assert forall c :: c in Filter(s, visible) <==> c in s && !IsJsSpace(c) by {
      forall c
        ensures c in Filter(s, visible) <==> c in s && !IsJsSpace(c)
      {
        FilterMembers(s, visible, c);
      }
    }
    Filter(s, visible)
  }

  /** Descriptions that stand for "no description". */
  predicate IsPlaceholderDescription(cleaned: string) {
    var normalized := RemoveSpaces(ToLower(cleaned));
    normalized == "(sindescripcion)" || normalized == "(sindescripci\U{F3}n)"
  }

  /**
   * `describeLogGroup`: "General" for key 0; otherwise "Fuente #n", followed by the
   * source's description or, when it has none, its URL.
   */
  function DescribeLogGroup(index: nat, sources: map<nat, SourceMeta>): (title: string)
    ensures index == 0 <==> title == "General"
    ensures index > 0 ==> StartsWith(title, "Fuente #" + NatToString(index))
  {
    if index == 0 then "General"
    else
      var base := "Fuente #" + NatToString(index);
      if index !in sources then base
      else
        var meta := sources[index];
        var cleaned := TrimJs(meta.description);
        if cleaned != "" && !IsPlaceholderDescription(cleaned) then base + TitleJoiner + cleaned
        else if meta.url != "" then base + TitleJoiner + meta.url
        else base
  }
}
