/**
 * The monitor page's session: which run is shown (the live one or an archived one),
 * the timers that load and poll data, the processed-URL buckets and the parsed log.
 *
 * Timers are the browser's table of armed timers: `timers` maps each live handle to
 * what it runs, and firing a timer is a call to `Fire`. Requests the page sends are
 * returned to the caller; responses arrive as calls to the `Receive...` methods.
 */
module Session {
  import opened Wrappers
  import opened Text
  import opened Seqs
  import opened LogParser
  import opened UrlTracker
  import opened Presentation
  import opened Sources

  /** What a loader fetches. */
  datatype Job = Files | Procesados | Logs | Status

  /** What a timer runs: a guarded load (`if (!isHistoricalMode()) load...()`) or `startPolling`. */
  datatype Task = Load(job: Job) | StartPolling

  /** A `setTimeout` (runs once) or a `setInterval` (runs every period), with its delay in milliseconds. */
  datatype Timer = Timeout(delay: nat, task: Task) | Interval(period: nat, task: Task)

  /** A request the page sends. */
  datatype Request = Get(url: string) | Post(url: string)

  /** An entry of the archived-runs list. */
  datatype Execution = Execution(id: string, labelText: string)

  /** The reply to POST /api/scrape: a message, an error, or a failed request. */
  datatype ScrapeReply = Accepted(message: string) | Refused(error: string) | Failed

  /** The reply to GET /api/scrape_status; non-numeric totals arrive as 0. */
  datatype StatusData = StatusData(
    status: string, message: string, total: int, current: int, description: string, url: string)

  /** The files the editors load, in the order the page requests them. */
  const EditorFiles: seq<string> := ["fuentes.csv", "exclusiones.txt", "terminos_interes.txt"]

  const LogsPeriod: nat := 5000
  const ProcesadosPeriod: nat := 10000
  const StatusPeriod: nat := 1000
  const PollingStartDelay: nat := 3000

  /** The selector value that stands for the live run. */
  const LiveOption: string := "__live"

  // ---------------------------------------------------------------------------
  // Pure helpers
  // ---------------------------------------------------------------------------

  /**
   * `buildApiUrl`: in live mode the path as it is; for an archived run, the path with
   * `execution=<encoded id>` appended after '?' or, when it already has a query, '&'.
   */
  function BuildApiUrl(executionId: Option<string>, url: string, encode: string -> string): (r: string)
    ensures executionId.None? ==> r == url
    ensures executionId.Some? ==>
      (StartsWith(r, url) && r[|url|..] == (if '?' in url then "&" else "?") + "execution=" + encode(executionId.value))
  {
    if executionId.None? then url
    else
      var separator := if '?' in url then "&" else "?";
      url + separator + "execution=" + encode(executionId.value)
  }

  /** For an archived run, the URL always has a query, and exactly one '?' when the path had none and the encoded id has none. */
  lemma BuildApiUrlHasOneQuery(id: string, url: string, encode: string -> string)
    ensures '?' in BuildApiUrl(Some(id), url, encode)
    ensures '?' !in url && '?' !in encode(id) ==>
      CountChar(BuildApiUrl(Some(id), url, encode), '?') == 1
  {
    var r := BuildApiUrl(Some(id), url, encode);
    if '?' in url {
      var k :| 0 <= k < |url| && url[k] == '?';
      assert r[k] == '?';
    } else {
      assert r[|url|] == '?';
      if '?' !in encode(id) {
        var tail := "execution=" + encode(id);
        assert r == url + ("?" + tail);
        assert CountChar("?", '?') == 1 by {
          assert "?"[..0] == [];
        }
        CountCharAppend(url, "?" + tail, '?');
        CountCharAppend("?", tail, '?');
        CountCharAbsent(url, '?');
        CountCharAbsent(tail, '?');
      }
    }
  }

  /** How many times `c` occurs in `s`. */
  function CountChar(s: string, c: char): nat {
    if s == [] then 0 else CountChar(s[..|s| - 1], c) + (if s[|s| - 1] == c then 1 else 0)
  }

  lemma {:induction false} CountCharAppend(a: string, b: string, c: char)
    ensures CountChar(a + b, c) == CountChar(a, c) + CountChar(b, c)
    decreases |b|
  {
    if b == [] {
      assert a + b == a;
    } else {
      assert (a + b)[..|a + b| - 1] == a + b[..|b| - 1];
      CountCharAppend(a, b[..|b| - 1], c);
    }
  }

  lemma {:induction false} CountCharAbsent(s: string, c: char)
    requires c !in s
    ensures CountChar(s, c) == 0
    decreases |s|
  {
    if s != [] {
      assert c !in s[..|s| - 1];
      CountCharAbsent(s[..|s| - 1], c);
    }
  }

  /** `formatExecutionLabel`: '' for no id; the label of the first run with that id when it has one; otherwise the id. */
  function FormatExecutionLabel(executions: seq<Execution>, id: string): (shown: string)
    ensures id == "" <==> shown == ""
    ensures id != "" ==>
      (shown == id || exists k :: 0 <= k < |executions| && executions[k].id == id && executions[k].labelText == shown)
  {
    if id == "" then ""
    else match FindExecution(executions, id)
      case Some(k) => if executions[k].labelText != "" then executions[k].labelText else id
      case None => id
  }

  /** `executionsList.find(exec => exec.id === id)`, as a position. */
  function FindExecution(executions: seq<Execution>, id: string): (r: Option<nat>)
    ensures r.Some? ==>
      (r.value < |executions| && executions[r.value].id == id && forall k :: 0 <= k < r.value ==> executions[k].id != id)
    ensures r.None? ==> forall k :: 0 <= k < |executions| ==> executions[k].id != id
  {
    if executions == [] then None
    else if executions[0].id == id then Some(0)
    else match FindExecution(executions[1..], id)
      case Some(k) => Some(k + 1)
      case None => None
  }

  /** The requests one load sends; `updateScrapeStatus` sends nothing for an archived run. */
  function LoadRequests(job: Job, executionId: Option<string>, encode: string -> string): (rs: seq<Request>)
    ensures job == Files ==> |rs| == |EditorFiles|
    ensures job == Status && executionId.Some? ==> rs == []
    ensures forall k :: 0 <= k < |rs| ==> rs[k].Get?
  {
    match job
    case Files => FileRequests(executionId, encode)
    case Procesados => [Get(BuildApiUrl(executionId, "/api/procesados", encode))]
    case Logs => [Get(BuildApiUrl(executionId, "/api/logs", encode))]
    case Status => if executionId.Some? then [] else [Get("/api/scrape_status")]
  }

  /** One GET per editor file, in order. */
  function FileRequests(executionId: Option<string>, encode: string -> string): (rs: seq<Request>)
    ensures |rs| == |EditorFiles|
    ensures forall k :: 0 <= k < |rs| ==> rs[k] == Get(BuildApiUrl(executionId, "/api/files/" + EditorFiles[k], encode))
  {
    seq(|EditorFiles|, k requires 0 <= k < |EditorFiles| => Get(BuildApiUrl(executionId, "/api/files/" + EditorFiles[k], encode)))
  }

  /** The entry the page shows by itself while it waits for a log (`id: Date.now()`, severity info, no source). */
  function PlaceholderEntry(line: string, now: nat): (e: LogEntry)
    ensures !Contributes(e) && e.line == line && e.severity == Info
  {
    LogEntry(now, line, Info, "", "", "", line, DefaultSourceClass, None)
  }

  /** The status text while a scrape runs: the server's message, else progress and source, else a default. */
  function RunningMessage(data: StatusData): (text: string)
    ensures text != ""
    ensures data.message != "" ==> text == data.message
  {
    if data.message != "" then data.message
    else
      var progress := if data.total != 0 then ["Procesando " + IntToString(data.current) + "/" + IntToString(data.total)] else [];
      var descriptor := if data.description != "" then data.description else data.url;
      var parts := progress + (if descriptor != "" then [descriptor] else []);
      if parts == [] then "Scraping en progreso..."
      else
        JoinStartsWithFirst(parts, LogSeparator);
        Join(parts, LogSeparator)
  }

  /** What `renderExecutionOptions` does to the selected run: it is dropped when the list no longer has it. */
  function SelectedAfterRender(executionId: Option<string>, executions: seq<Execution>): (r: Option<string>)
    ensures r.Some? ==> r == executionId
    ensures executionId.Some? && executionId.value != LiveOption ==>
      (r.Some? <==> exists k :: 0 <= k < |executions| && executions[k].id == executionId.value)
  {
    if executionId.Some? && executionId.value != LiveOption && FindExecution(executions, executionId.value).None? then None
    else executionId
  }

  /** The handles a slot holds. */
  function SlotSet(slot: Option<nat>): set<nat> {
    if slot.Some? then {slot.value} else {}
  }

  /**
   * `if (!scrapeStatusInterval) scrapeStatusInterval = setInterval(...)`, from the slot,
   * next handle and table before to those after: a held slot keeps all three; an empty
   * one takes the next handle, which now names the status interval.
   */
  predicate StatusIntervalEnsured(slot: Option<nat>, next: nat, timers: map<nat, Timer>,
                                  slot': Option<nat>, next': nat, timers': map<nat, Timer>) {
    if slot.Some? then slot' == slot && next' == next && timers' == timers
    else slot' == Some(next) && next' == next + 1 && timers' == timers[next := Interval(StatusPeriod, Load(Status))]
  }

  /** The handles a list holds. */
  function Elements(s: seq<nat>): set<nat> {
    set h | h in s
  }

  /** The handles other than `h` (the filter that forgets a fired initial load). */
  function Other(h: nat): nat -> bool {
    (x: nat) => x != h
  }

  predicate IsInitialLoad(t: Timer) {
    t.Timeout? && t.task.Load?
  }

  /** Whether `h` is held by one of the slots. */
  predicate Owned(h: nat, initial: seq<nat>, pollingStart: Option<nat>, logs: Option<nat>, procesados: Option<nat>, status: Option<nat>) {
    h in initial || pollingStart == Some(h) || logs == Some(h) || procesados == Some(h) || status == Some(h)
  }

  /** The slot is empty or holds an armed timer that runs `t`. */
  predicate SlotHolds(timers: map<nat, Timer>, slot: Option<nat>, t: Timer) {
    slot.Some? ==> slot.value in timers && timers[slot.value] == t
  }

  /**
   * The timer table agrees with the slots: every armed timer has a handle below `next`
   * and is held by a slot, the initial list holds initial loads, and each slot holds an
   * armed timer of its kind.
   */
  predicate Scheduled(timers: map<nat, Timer>, next: nat, initial: seq<nat>, pollingStart: Option<nat>,
                      logs: Option<nat>, procesados: Option<nat>, status: Option<nat>) {
    && (forall h :: h in timers ==> 0 < h < next && Owned(h, initial, pollingStart, logs, procesados, status))
    && (forall i :: 0 <= i < |initial| ==> initial[i] in timers && IsInitialLoad(timers[initial[i]]))
    && SlotHolds(timers, pollingStart, Timeout(PollingStartDelay, StartPolling))
    && SlotHolds(timers, logs, Interval(LogsPeriod, Load(Logs)))
    && SlotHolds(timers, procesados, Interval(ProcesadosPeriod, Load(Procesados)))
    && SlotHolds(timers, status, Interval(StatusPeriod, Load(Status)))
  }

  /** The five timers `switchToLiveMode` arms from handle `n` on: four first loads and the polling start. */
  function LiveTimers(n: nat): map<nat, Timer> {
    map[n := Timeout(500, Load(Files)), n + 1 := Timeout(1000, Load(Procesados)),
        n + 2 := Timeout(1500, Load(Logs)), n + 3 := Timeout(2000, Load(Status)),
        n + 4 := Timeout(PollingStartDelay, StartPolling)]
  }

  /** The live schedule agrees with its slots. */
  lemma LiveSchedule(n: nat)
    requires n > 0
    ensures Scheduled(LiveTimers(n), n + 5, [n, n + 1, n + 2, n + 3], Some(n + 4), None, None, None)
  {
  }

  /** A fired first load leaves the table and the initial list, and the rest still agrees. */
  lemma FiredLoadSchedule(timers: map<nat, Timer>, next: nat, initial: seq<nat>, pollingStart: Option<nat>,
                          logs: Option<nat>, procesados: Option<nat>, status: Option<nat>, h: nat)
    requires Scheduled(timers, next, initial, pollingStart, logs, procesados, status)
    requires h in timers && IsInitialLoad(timers[h])
    ensures Scheduled(timers - {h}, next, Filter(initial, Other(h)), pollingStart, logs, procesados, status)
  {
    var kept := Filter(initial, Other(h));
    forall x | x in timers - {h}
      ensures Owned(x, kept, pollingStart, logs, procesados, status)
    {
      FilterMembers(initial, Other(h), x);
    }
    forall i | 0 <= i < |kept|
      ensures kept[i] in timers - {h} && IsInitialLoad(timers[kept[i]])
    {
      FilterMembers(initial, Other(h), kept[i]);
      var j :| 0 <= j < |initial| && initial[j] == kept[i];
    }
  }

  /** No initial-list handle names an interval, so firing one forgets nothing. */
  lemma FiredIntervalKeepsInitial(timers: map<nat, Timer>, next: nat, initial: seq<nat>, pollingStart: Option<nat>,
                                  logs: Option<nat>, procesados: Option<nat>, status: Option<nat>, h: nat)
    requires Scheduled(timers, next, initial, pollingStart, logs, procesados, status)
    requires h in timers && timers[h].Interval?
    ensures Filter(initial, Other(h)) == initial
  {
    forall i | 0 <= i < |initial|
      ensures Other(h)(initial[i])
    {
    }
    FilterAll(initial, Other(h));
  }

  /** The polling-start timeout is the one the slot holds, and it is not on the initial list. */
  lemma PollingStartHeld(timers: map<nat, Timer>, next: nat, initial: seq<nat>, pollingStart: Option<nat>,
                         logs: Option<nat>, procesados: Option<nat>, status: Option<nat>, h: nat)
    requires Scheduled(timers, next, initial, pollingStart, logs, procesados, status)
    requires h in timers && timers[h] == Timeout(PollingStartDelay, StartPolling)
    ensures pollingStart == Some(h)
    ensures Filter(initial, Other(h)) == initial
  {
    forall i | 0 <= i < |initial|
      ensures Other(h)(initial[i])
    {
    }
    FilterAll(initial, Other(h));
  }

  /** Once the polling start has fired, its slot is empty and the rest still agrees. */
  lemma PollingStartFired(timers: map<nat, Timer>, next: nat, initial: seq<nat>,
                          logs: Option<nat>, procesados: Option<nat>, status: Option<nat>, h: nat)
    requires Scheduled(timers, next, initial, Some(h), logs, procesados, status)
    ensures Scheduled(timers - {h}, next, initial, None, logs, procesados, status)
  {
  }

  /** `clearDataPollingIntervals` keeps the table and the slots in agreement. */
  lemma PollersCleared(timers: map<nat, Timer>, next: nat, initial: seq<nat>,
                       logs: Option<nat>, procesados: Option<nat>, status: Option<nat>)
    requires Scheduled(timers, next, initial, None, logs, procesados, status)
    ensures Scheduled(timers - SlotSet(logs) - SlotSet(procesados), next, initial, None, None, None, status)
  {
  }

  /** Arming the two pollers into empty slots keeps the table and the slots in agreement. */
  lemma PollersArmed(timers: map<nat, Timer>, next: nat, initial: seq<nat>, status: Option<nat>)
    requires Scheduled(timers, next, initial, None, None, None, status) && next > 0
    ensures Scheduled(timers[next := Interval(LogsPeriod, Load(Logs))][next + 1 := Interval(ProcesadosPeriod, Load(Procesados))],
                      next + 2, initial, None, Some(next), Some(next + 1), status)
  {
  }

  /** Arming the status interval into an empty slot keeps the table and the slots in agreement. */
  lemma ArmStatusSchedule(timers: map<nat, Timer>, next: nat, initial: seq<nat>, pollingStart: Option<nat>,
                          logs: Option<nat>, procesados: Option<nat>)
    requires Scheduled(timers, next, initial, pollingStart, logs, procesados, None) && next > 0
    ensures Scheduled(timers[next := Interval(StatusPeriod, Load(Status))], next + 1, initial, pollingStart,
                      logs, procesados, Some(next))
  {
  }

  // ---------------------------------------------------------------------------
  // The page state
  // ---------------------------------------------------------------------------

  class LogMonitor {
    /** `currentExecutionId`: None in live mode, the archived run's id otherwise. */
    var executionId: Option<string>
    /** `executionsList`. */
    var executions: seq<Execution>
    /** The browser's armed timers, by handle. */
    var timers: map<nat, Timer>
    /** The handle the next timer gets; handles start at 1. */
    var nextHandle: nat
    /** The slots: `liveInitialTimeouts`, `pollingStartTimeout`, `logsIntervalId`, `procesadosIntervalId`, `scrapeStatusInterval`. */
    var liveInitialTimeouts: seq<nat>
    var pollingStartTimeout: Option<nat>
    var logsInterval: Option<nat>
    var procesadosInterval: Option<nat>
    var statusInterval: Option<nat>
    /** `processedUrlBuckets.markdown`, `processedUrlBuckets.logs` and `processedUrlSet`. */
    var markdownUrls: set<string>
    var logUrls: set<string>
    var processedUrls: set<string>
    /** `lastLogRawContent` and `parsedLogEntries`. */
    var lastLogRawContent: string
    var entries: seq<LogEntry>
    /** The sources editor's text and `sourceMetaByIndex`. */
    var fuentes: string
    var sources: map<nat, SourceMeta>
    /** The browser's URL parser and `encodeURIComponent`. */
    const parse: UrlParser
    const encode: string -> string

    /**
     * Every armed timer is held by a slot and every slot holds the timer it is named
     * after; nothing is armed while an archived run is shown; the processed set is the
     * union of the buckets.
     */
    predicate Valid()
      reads this`nextHandle, this`executionId, this`timers, this`liveInitialTimeouts, this`pollingStartTimeout,
        this`logsInterval, this`procesadosInterval, this`statusInterval, this`markdownUrls, this`logUrls,
        this`processedUrls
    {
      && nextHandle > 0
      && (executionId.Some? ==> executionId.value != "" && timers == map[])
      && Scheduled(timers, nextHandle, liveInitialTimeouts, pollingStartTimeout, logsInterval, procesadosInterval, statusInterval)
      && processedUrls == markdownUrls + logUrls
    }

    predicate Historical()
      reads this`executionId
    {
      executionId.Some?
    }

    /** The page before `switchToLiveMode` first runs. */
    constructor (parse: UrlParser, encode: string -> string)
      ensures Valid() && !Historical() && timers == map[]
      ensures entries == [] && lastLogRawContent == "" && processedUrls == {}
      ensures this.parse == parse && this.encode == encode
    {
      executionId, executions := None, [];
      timers, nextHandle := map[], 1;
      liveInitialTimeouts, pollingStartTimeout := [], None;
      logsInterval, procesadosInterval, statusInterval := None, None, None;
      markdownUrls, logUrls, processedUrls := {}, {}, {};
      lastLogRawContent, entries := "", [];
      fuentes, sources := "", map[];
      this.parse, this.encode := parse, encode;
    }

    // -------------------------------------------------------------------------
    // Timers
    // -------------------------------------------------------------------------

    /** `setTimeout` / `setInterval`: a new handle for `t`. */
    method Arm(t: Timer) returns (h: nat)
      requires nextHandle > 0
      modifies this`timers, this`nextHandle
      ensures h == old(nextHandle) && nextHandle == h + 1
      ensures timers == old(timers)[h := t]
    {
      h := nextHandle;
      timers := timers[h := t];
      nextHandle := nextHandle + 1;
    }

    /** `clearTimeout` / `clearInterval`: nothing happens when the handle is not armed. */
    method Disarm(h: nat)
      modifies this`timers
      ensures timers == old(timers) - {h}
    {
      timers := timers - {h};
    }

    /** `clearLiveInitialTimeouts`. */
    method ClearLiveInitialTimeouts()
      modifies this`timers, this`liveInitialTimeouts
      ensures timers == old(timers) - Elements(old(liveInitialTimeouts))
      ensures liveInitialTimeouts == []
    {
      var pending := liveInitialTimeouts;
      for i := 0 to |pending|
        invariant timers == old(timers) - Elements(pending[..i])
      {
        assert Elements(pending[..i + 1]) == Elements(pending[..i]) + {pending[i]} by {
          assert pending[..i + 1] == pending[..i] + [pending[i]];
        }
        Disarm(pending[i]);
      }
      assert pending[..|pending|] == pending;
      liveInitialTimeouts := [];
    }

    /** `clearDataPollingIntervals`: the polling start and both polling intervals. */
    method ClearDataPollingIntervals()
      modifies this`timers, this`pollingStartTimeout, this`logsInterval, this`procesadosInterval
      ensures timers == old(timers) - SlotSet(old(pollingStartTimeout)) - SlotSet(old(logsInterval)) - SlotSet(old(procesadosInterval))
      ensures pollingStartTimeout.None? && logsInterval.None? && procesadosInterval.None?
    {
      if pollingStartTimeout.Some? {
        Disarm(pollingStartTimeout.value);
        pollingStartTimeout := None;
      }
      if logsInterval.Some? {
        Disarm(logsInterval.value);
        logsInterval := None;
      }
      if procesadosInterval.Some? {
        Disarm(procesadosInterval.value);
        procesadosInterval := None;
      }
    }

    /** The scrape-status interval, when there is one. */
    method ClearStatusInterval()
      modifies this`timers, this`statusInterval
      ensures timers == old(timers) - SlotSet(old(statusInterval))
      ensures statusInterval.None?
    {
      if statusInterval.Some? {
        Disarm(statusInterval.value);
        statusInterval := None;
      }
    }

    /** `stopAllIntervals`: every slot emptied and, when every timer was held by a slot, nothing left armed. */
    method StopAllIntervals()
      modifies this`timers, this`liveInitialTimeouts, this`pollingStartTimeout, this`logsInterval,
        this`procesadosInterval, this`statusInterval
      ensures (forall h :: h in old(timers) ==>
        Owned(h, old(liveInitialTimeouts), old(pollingStartTimeout), old(logsInterval), old(procesadosInterval), old(statusInterval)))
        ==> timers == map[]
      ensures timers.Keys <= old(timers.Keys)
      ensures liveInitialTimeouts == [] && pollingStartTimeout.None? && logsInterval.None?
      ensures procesadosInterval.None? && statusInterval.None?
    {
      ClearLiveInitialTimeouts();
      ClearDataPollingIntervals();
      ClearStatusInterval();
      if forall h :: h in old(timers) ==>
          Owned(h, old(liveInitialTimeouts), old(pollingStartTimeout), old(logsInterval), old(procesadosInterval), old(statusInterval)) {
        forall h | h in old(timers)
          ensures h !in timers
        {
        }
        assert timers.Keys == {};
      }
    }

    /** `scheduleLiveDataLoads`: the four delayed first loads, each remembered in `liveInitialTimeouts`. */
    method ScheduleLiveDataLoads()
      requires nextHandle > 0
      modifies this`timers, this`nextHandle, this`liveInitialTimeouts
      ensures var n := old(nextHandle);
        && nextHandle == n + 4
        && liveInitialTimeouts == [n, n + 1, n + 2, n + 3]
        && timers == (old(timers) - Elements(old(liveInitialTimeouts)))[n := Timeout(500, Load(Files))]
          [n + 1 := Timeout(1000, Load(Procesados))][n + 2 := Timeout(1500, Load(Logs))][n + 3 := Timeout(2000, Load(Status))]
    {
      ClearLiveInitialTimeouts();
      var h := Arm(Timeout(500, Load(Files)));
      liveInitialTimeouts := liveInitialTimeouts + [h];
      h := Arm(Timeout(1000, Load(Procesados)));
      liveInitialTimeouts := liveInitialTimeouts + [h];
      h := Arm(Timeout(1500, Load(Logs)));
      liveInitialTimeouts := liveInitialTimeouts + [h];
      h := Arm(Timeout(2000, Load(Status)));
      liveInitialTimeouts := liveInitialTimeouts + [h];
    }

    /**
     * `startPolling`: clear the polling slots and, in live mode only, arm the logs and
     * processed-list intervals; the table keeps agreeing with the slots.
     */
    method StartPollingNow()
      requires nextHandle > 0
      requires Scheduled(timers - SlotSet(pollingStartTimeout), nextHandle, liveInitialTimeouts, None,
                         logsInterval, procesadosInterval, statusInterval)
      modifies this`timers, this`nextHandle, this`pollingStartTimeout, this`logsInterval, this`procesadosInterval
      ensures Scheduled(timers, nextHandle, liveInitialTimeouts, pollingStartTimeout, logsInterval, procesadosInterval, statusInterval)
      ensures pollingStartTimeout.None?
      ensures var cleared := old(timers) - SlotSet(old(pollingStartTimeout)) - SlotSet(old(logsInterval)) - SlotSet(old(procesadosInterval));
        var n := old(nextHandle);
        if Historical() then
          timers == cleared && logsInterval.None? && procesadosInterval.None? && nextHandle == n
        else
          && timers == cleared[n := Interval(LogsPeriod, Load(Logs))][n + 1 := Interval(ProcesadosPeriod, Load(Procesados))]
          && logsInterval == Some(n) && procesadosInterval == Some(n + 1) && nextHandle == n + 2
    {
      PollersCleared(timers - SlotSet(pollingStartTimeout), nextHandle, liveInitialTimeouts, logsInterval,
        procesadosInterval, statusInterval);
      ClearDataPollingIntervals();
      if Historical() {
        return;
      }
      PollersArmed(timers, nextHandle, liveInitialTimeouts, statusInterval);
      var h := Arm(Interval(LogsPeriod, Load(Logs)));
      logsInterval := Some(h);
      h := Arm(Interval(ProcesadosPeriod, Load(Procesados)));
      procesadosInterval := Some(h);
    }

    // -------------------------------------------------------------------------
    // Processed URLs
    // -------------------------------------------------------------------------

    /** `resetProcessedUrlTracking`. */
    method ResetProcessedUrlTracking()
      modifies this`markdownUrls, this`logUrls, this`processedUrls
      ensures markdownUrls == {} && logUrls == {} && processedUrls == {}
    {
      markdownUrls, logUrls, processedUrls := {}, {}, {};
    }

    /** `recomputeProcessedUrlSet`. */
    method RecomputeProcessedUrlSet()
      modifies this`processedUrls
      ensures processedUrls == markdownUrls + logUrls
    {
      processedUrls := markdownUrls + logUrls;
    }

    /** `refreshProcessedUrlsFromMarkdown`: only the Markdown bucket is rebuilt. */
    method RefreshProcessedUrlsFromMarkdown(rawMarkdown: string)
      modifies this`markdownUrls, this`processedUrls
      ensures markdownUrls == if TrimJs(rawMarkdown) == "" then {} else UrlsIn(rawMarkdown, parse)
      ensures processedUrls == markdownUrls + logUrls
    {
      markdownUrls := {};
      if TrimJs(rawMarkdown) != "" {
        markdownUrls := ScanUrls(rawMarkdown, parse);
      }
      RecomputeProcessedUrlSet();
    }

    /** `refreshProcessedUrlsFromLogs`: only the logs bucket is rebuilt, from the parsed entries. */
    method RefreshProcessedUrlsFromLogs()
      modifies this`logUrls, this`processedUrls
      ensures logUrls == LogUrls(entries, |entries|, parse)
      ensures processedUrls == markdownUrls + logUrls
    {
      logUrls := CollectLogUrls(entries, parse);
      RecomputeProcessedUrlSet();
    }

    // -------------------------------------------------------------------------
    // Mode switches
    // -------------------------------------------------------------------------

    /** `renderSourcesPreview` on the sources editor (what activating the preview tab does). */
    method RenderSourcesPreview()
      modifies this`sources
      ensures sources == SourceIndex(CardsOf(PreviewLines(fuentes)))
    {
      var cards := BuildSourceCards(fuentes);
      sources := IndexSources(cards);
    }

    /**
     * `switchToHistorical`: nothing for an empty id or the run already shown; otherwise
     * show that run, stop every timer, empty the buckets, forget the last log text and
     * load the run's files, processed list and log.
     */
    method SwitchToHistorical(id: string) returns (requests: seq<Request>)
      requires Valid()
      modifies this`executionId, this`timers, this`liveInitialTimeouts, this`pollingStartTimeout,
        this`logsInterval, this`procesadosInterval, this`statusInterval, this`sources, this`markdownUrls,
        this`logUrls, this`processedUrls, this`lastLogRawContent
      ensures Valid()
      ensures id == "" || old(executionId) == Some(id) ==>
        && requests == [] && executionId == old(executionId) && timers == old(timers)
        && lastLogRawContent == old(lastLogRawContent) && processedUrls == old(processedUrls)
        && sources == old(sources) && markdownUrls == old(markdownUrls) && logUrls == old(logUrls)
        && liveInitialTimeouts == old(liveInitialTimeouts) && pollingStartTimeout == old(pollingStartTimeout)
        && logsInterval == old(logsInterval) && procesadosInterval == old(procesadosInterval)
        && statusInterval == old(statusInterval)
      ensures id != "" && old(executionId) != Some(id) ==>
        && executionId == Some(id) && timers == map[]
        && liveInitialTimeouts == [] && pollingStartTimeout.None? && logsInterval.None?
        && procesadosInterval.None? && statusInterval.None?
        && markdownUrls == {} && logUrls == {} && processedUrls == {} && lastLogRawContent == ""
        && sources == SourceIndex(CardsOf(PreviewLines(fuentes)))
        && requests == LoadRequests(Files, executionId, encode) + LoadRequests(Procesados, executionId, encode)
          + LoadRequests(Logs, executionId, encode)
    {
      if id == "" || executionId == Some(id) {
        return [];
      }
      ShowExecution(id);
      // The preview only reads `fuentes` and writes `sources`, so redrawing it after the
      // other updates ends in the same state as `activateTab` before them.
      RenderSourcesPreview();
      requests := LoadRequests(Files, executionId, encode) + LoadRequests(Procesados, executionId, encode)
        + LoadRequests(Logs, executionId, encode);
    }

    /** The state changes of `switchToHistorical` for a new run id, apart from the preview. */
    method ShowExecution(id: string)
      requires Valid() && id != ""
      modifies this`executionId, this`timers, this`liveInitialTimeouts, this`pollingStartTimeout,
        this`logsInterval, this`procesadosInterval, this`statusInterval, this`markdownUrls,
        this`logUrls, this`processedUrls, this`lastLogRawContent
      ensures Valid() && executionId == Some(id) && timers == map[]
      ensures liveInitialTimeouts == [] && pollingStartTimeout.None? && logsInterval.None?
      ensures procesadosInterval.None? && statusInterval.None?
      ensures markdownUrls == {} && logUrls == {} && processedUrls == {} && lastLogRawContent == ""
    {
      executionId := Some(id);
      StopAllIntervals();
      ResetProcessedUrlTracking();
      lastLogRawContent := "";
    }

    /**
     * `switchToLiveMode`: no guard; back to live mode, every timer stopped, buckets and
     * last log text reset, then four first loads and the polling start armed.
     */
    method SwitchToLiveMode()
      requires Valid()
      modifies this`executionId, this`timers, this`nextHandle, this`liveInitialTimeouts, this`pollingStartTimeout,
        this`logsInterval, this`procesadosInterval, this`statusInterval, this`markdownUrls, this`logUrls,
        this`processedUrls, this`lastLogRawContent
      ensures Valid() && !Historical()
      ensures var n := old(nextHandle);
        && liveInitialTimeouts == [n, n + 1, n + 2, n + 3] && pollingStartTimeout == Some(n + 4)
        && logsInterval.None? && procesadosInterval.None? && statusInterval.None?
        && timers == LiveTimers(n)
      ensures markdownUrls == {} && logUrls == {} && processedUrls == {} && lastLogRawContent == ""
    {
      executionId := None;
      StopAllIntervals();
      ResetProcessedUrlTracking();
      lastLogRawContent := "";
      ArmLiveTimers();
    }

    /** `scheduleLiveDataLoads` and the polling start, armed on a stopped table. */
    method ArmLiveTimers()
      requires nextHandle > 0 && timers == map[] && liveInitialTimeouts == []
      requires pollingStartTimeout.None? && logsInterval.None? && procesadosInterval.None? && statusInterval.None?
      modifies this`timers, this`nextHandle, this`liveInitialTimeouts, this`pollingStartTimeout
      ensures var n := old(nextHandle);
        && liveInitialTimeouts == [n, n + 1, n + 2, n + 3] && pollingStartTimeout == Some(n + 4)
        && timers == LiveTimers(n) && nextHandle == n + 5
      ensures Scheduled(timers, nextHandle, liveInitialTimeouts, pollingStartTimeout, logsInterval, procesadosInterval, statusInterval)
    {
      LiveSchedule(nextHandle);
      ScheduleLiveDataLoads();
      var h := Arm(Timeout(PollingStartDelay, StartPolling));
      pollingStartTimeout := Some(h);
    }

    /**
     * A timer fires; timers are armed only in live mode. A load sends its requests; the
     * polling start runs `startPolling`.
     */
    method Fire(h: nat) returns (requests: seq<Request>)
      requires Valid() && h in timers
      modifies this`timers, this`nextHandle, this`liveInitialTimeouts, this`pollingStartTimeout,
        this`logsInterval, this`procesadosInterval
      ensures Valid() && !Historical()
      ensures old(timers[h]).task.Load? ==>
        && requests == LoadRequests(old(timers[h]).task.job, None, encode)
        && timers == (if old(timers[h]).Timeout? then old(timers) - {h} else old(timers))
        && liveInitialTimeouts == Filter(old(liveInitialTimeouts), Other(h))
        && nextHandle == old(nextHandle) && pollingStartTimeout == old(pollingStartTimeout)
        && logsInterval == old(logsInterval) && procesadosInterval == old(procesadosInterval)
      ensures old(timers[h]).task.StartPolling? ==>
        var n := old(nextHandle);
        && requests == [] && liveInitialTimeouts == old(liveInitialTimeouts)
        && old(timers[h]) == Timeout(PollingStartDelay, StartPolling) && old(pollingStartTimeout) == Some(h)
        && pollingStartTimeout.None? && logsInterval == Some(n) && procesadosInterval == Some(n + 1)
        && timers == (old(timers) - {h} - SlotSet(old(logsInterval)) - SlotSet(old(procesadosInterval)))
             [n := Interval(LogsPeriod, Load(Logs))][n + 1 := Interval(ProcesadosPeriod, Load(Procesados))]
        && nextHandle == n + 2
    {
      if timers[h].task.StartPolling? {
        FirePollingStart(h);
        requests := [];
      } else {
        requests := FireLoad(h);
      }
    }

    /**
     * A load timer fires: a timeout leaves the table and `liveInitialTimeouts`, an
     * interval stays; the load runs because the page is live.
     */
    method FireLoad(h: nat) returns (requests: seq<Request>)
      requires Valid() && h in timers && timers[h].task.Load?
      modifies this`timers, this`liveInitialTimeouts
      ensures Valid() && !Historical()
      ensures requests == LoadRequests(old(timers[h]).task.job, None, encode)
      ensures timers == (if old(timers[h]).Timeout? then old(timers) - {h} else old(timers))
      ensures liveInitialTimeouts == Filter(old(liveInitialTimeouts), Other(h))
    {
      var t := timers[h];
      requests := [];
      if t.Timeout? {
        FiredLoadSchedule(timers, nextHandle, liveInitialTimeouts, pollingStartTimeout, logsInterval,
          procesadosInterval, statusInterval, h);
        Disarm(h);
        liveInitialTimeouts := Filter(liveInitialTimeouts, Other(h));
      } else {
        FiredIntervalKeepsInitial(timers, nextHandle, liveInitialTimeouts, pollingStartTimeout, logsInterval,
          procesadosInterval, statusInterval, h);
      }
      if !Historical() {
        requests := LoadRequests(t.task.job, executionId, encode);
      }
    }

    /**
     * The polling start fires: it is the timeout its slot holds; it leaves the table and
     * `startPolling` empties the polling slots and arms both pollers.
     */
    method FirePollingStart(h: nat)
      requires !Historical() && nextHandle > 0 && h in timers && timers[h].task.StartPolling?
      requires Scheduled(timers, nextHandle, liveInitialTimeouts, pollingStartTimeout, logsInterval, procesadosInterval, statusInterval)
      modifies this`timers, this`nextHandle, this`pollingStartTimeout, this`logsInterval, this`procesadosInterval
      ensures Scheduled(timers, nextHandle, liveInitialTimeouts, pollingStartTimeout, logsInterval, procesadosInterval, statusInterval)
      ensures nextHandle > 0
      ensures var n := old(nextHandle);
        && old(timers[h]) == Timeout(PollingStartDelay, StartPolling) && old(pollingStartTimeout) == Some(h)
        && pollingStartTimeout.None? && logsInterval == Some(n) && procesadosInterval == Some(n + 1)
        && timers == (old(timers) - {h} - SlotSet(old(logsInterval)) - SlotSet(old(procesadosInterval)))
             [n := Interval(LogsPeriod, Load(Logs))][n + 1 := Interval(ProcesadosPeriod, Load(Procesados))]
        && nextHandle == n + 2
    {
      DisarmPollingStart(h);
      StartPollingNow();
    }

    /**
     * The fired polling start leaves the table; its slot still names it until
     * `startPolling` clears the slot.
     */
    method DisarmPollingStart(h: nat)
      requires h in timers && timers[h].task.StartPolling?
      requires Scheduled(timers, nextHandle, liveInitialTimeouts, pollingStartTimeout, logsInterval, procesadosInterval, statusInterval)
      modifies this`timers
      ensures old(timers[h]) == Timeout(PollingStartDelay, StartPolling) && pollingStartTimeout == Some(h)
      ensures timers == old(timers) - {h} && timers - SlotSet(pollingStartTimeout) == timers
      ensures Scheduled(timers - SlotSet(pollingStartTimeout), nextHandle, liveInitialTimeouts, None,
                        logsInterval, procesadosInterval, statusInterval)
    {
      PollingStartHeld(timers, nextHandle, liveInitialTimeouts, pollingStartTimeout, logsInterval,
        procesadosInterval, statusInterval, h);
      PollingStartFired(timers, nextHandle, liveInitialTimeouts, logsInterval, procesadosInterval, statusInterval, h);
      Disarm(h);
      assert timers - SlotSet(pollingStartTimeout) == timers;
    }

    // -------------------------------------------------------------------------
    // Responses
    // -------------------------------------------------------------------------

    /**
     * The `loadLogs` response. A text equal to the last one changes nothing; another
     * text is parsed and refreshes the logs bucket; no text empties the log.
     */
    method ReceiveLogs(content: Option<string>)
      requires Valid()
      modifies this`lastLogRawContent, this`entries, this`logUrls, this`processedUrls
      ensures Valid()
      ensures content == Some(old(lastLogRawContent)) ==>
        entries == old(entries) && logUrls == old(logUrls) && lastLogRawContent == old(lastLogRawContent)
      ensures content.Some? && content.value != old(lastLogRawContent) ==>
        lastLogRawContent == content.value && entries == ParsedLog(content.value)
        && logUrls == LogUrls(entries, |entries|, parse)
      ensures content.None? ==> entries == [] && lastLogRawContent == "" && logUrls == {}
    {
      if content.Some? {
        if content.value != lastLogRawContent {
          lastLogRawContent := content.value;
          entries := ParseLogContent(content.value);
          RefreshProcessedUrlsFromLogs();
        }
      } else {
        entries := [];
        lastLogRawContent := "";
        RefreshProcessedUrlsFromLogs();
      }
    }

    /** The `loadProcesados` response: the Markdown bucket rebuilt, then, in live mode, the runs list requested. */
    method ReceiveProcesados(content: Option<string>) returns (requests: seq<Request>)
      requires Valid()
      modifies this`markdownUrls, this`processedUrls
      ensures Valid()
      ensures markdownUrls == if content.None? || TrimJs(content.value) == "" then {} else UrlsIn(content.value, parse)
      ensures logUrls == old(logUrls)
      ensures requests == if Historical() then [] else [Get("/api/executions")]
    {
      RefreshProcessedUrlsFromMarkdown(content.GetOr(""));
      requests := if Historical() then [] else [Get("/api/executions")];
    }

    /**
     * The runs list arrives (None when the reply has no array) and
     * `renderExecutionOptions` drops the shown run when it is no longer listed; no timer
     * is armed when that happens.
     */
    method ReceiveExecutions(list: Option<seq<Execution>>)
      requires Valid()
      modifies this`executions, this`executionId
      ensures Valid()
      ensures executions == list.GetOr([])
      ensures executionId == SelectedAfterRender(old(executionId), executions)
    {
      executions := list.GetOr([]);
      executionId := SelectedAfterRender(executionId, executions);
    }

    /** A file arrives; a non-empty sources file replaces the editor text and redraws the preview. */
    method ReceiveFile(name: string, content: Option<string>)
      modifies this`fuentes, this`sources
      ensures name == EditorFiles[0] && content.Some? && content.value != "" ==>
        fuentes == content.value && sources == SourceIndex(CardsOf(PreviewLines(fuentes)))
      ensures !(name == EditorFiles[0] && content.Some? && content.value != "") ==>
        fuentes == old(fuentes) && sources == old(sources)
    {
      if name == EditorFiles[0] && content.Some? && content.value != "" {
        fuentes := content.value;
        RenderSourcesPreview();
      }
    }

    /**
     * A file request fails: the sources editor shows the error text, and the preview,
     * which only an input event or a successful load redraws, keeps the cards it had.
     */
    method ReceiveFileError(name: string, message: string)
      modifies this`fuentes
      ensures name == EditorFiles[0] ==> fuentes == "# Error cargando archivo: " + message
      ensures name != EditorFiles[0] ==> fuentes == old(fuentes)
      ensures sources == old(sources)
    {
      if name == EditorFiles[0] {
        fuentes := "# Error cargando archivo: " + message;
      }
    }

    /** Typing in the sources editor redraws the preview. */
    method EditFuentes(text: string)
      modifies this`fuentes, this`sources
      ensures fuentes == text && sources == SourceIndex(CardsOf(PreviewLines(text)))
    {
      fuentes := text;
      RenderSourcesPreview();
    }

    /** `dedupeFuentes` on the editor: the cleaned text replaces it and the preview is redrawn. */
    method DedupeEditor() returns (outcome: DedupeOutcome)
      modifies this`fuentes, this`sources
      ensures outcome == DedupeResult(Historical(), old(fuentes))
      ensures outcome.Cleaned? ==> fuentes == outcome.content && sources == SourceIndex(CardsOf(PreviewLines(fuentes)))
      ensures !outcome.Cleaned? ==> fuentes == old(fuentes) && sources == old(sources)
    {
      outcome := DedupeFuentes(Historical(), fuentes);
      if outcome.Cleaned? {
        fuentes := outcome.content;
        RenderSourcesPreview();
      }
    }

    /** The "clear" button: the log emptied and the logs bucket rebuilt. */
    method ClearLog()
      requires Valid()
      modifies this`lastLogRawContent, this`entries, this`logUrls, this`processedUrls
      ensures Valid()
      ensures entries == [] && lastLogRawContent == "" && logUrls == {}
    {
      entries := [];
      lastLogRawContent := "";
      RefreshProcessedUrlsFromLogs();
    }

    /** The "refresh" button: the last text forgotten, so the next reply is parsed whatever it is. */
    method RefreshLog() returns (requests: seq<Request>)
      modifies this`lastLogRawContent
      ensures lastLogRawContent == ""
      ensures requests == LoadRequests(Logs, executionId, encode)
    {
      lastLogRawContent := "";
      requests := LoadRequests(Logs, executionId, encode);
    }

    // -------------------------------------------------------------------------
    // Scraping
    // -------------------------------------------------------------------------

    /**
     * "Start": refused for an archived run; otherwise the preview is redrawn, the log
     * shows only a placeholder, the status interval is armed unless one exists, and the
     * scrape is requested.
     */
    method StartScrape(now: nat) returns (requests: seq<Request>)
      requires Valid()
      modifies this`sources, this`entries, this`lastLogRawContent, this`timers, this`nextHandle, this`statusInterval
      ensures Valid()
      ensures Historical() ==>
        && requests == [] && timers == old(timers) && entries == old(entries)
        && sources == old(sources) && lastLogRawContent == old(lastLogRawContent)
        && nextHandle == old(nextHandle) && statusInterval == old(statusInterval)
      ensures !Historical() ==>
        && requests == [Post("/api/scrape")]
        && entries == [PlaceholderEntry("Iniciando scraping...", now)] && lastLogRawContent == ""
        && sources == SourceIndex(CardsOf(PreviewLines(fuentes)))
        && statusInterval.Some?
        && StatusIntervalEnsured(old(statusInterval), old(nextHandle), old(timers), statusInterval, nextHandle, timers)
    {
      if Historical() {
        return [];
      }
      BeginScrape(now);
      RenderSourcesPreview();
      requests := [Post("/api/scrape")];
    }

    /** The state changes of a permitted "Start", apart from the preview. */
    method BeginScrape(now: nat)
      requires Valid() && !Historical()
      modifies this`entries, this`lastLogRawContent, this`timers, this`nextHandle, this`statusInterval
      ensures Valid() && !Historical()
      ensures entries == [PlaceholderEntry("Iniciando scraping...", now)] && lastLogRawContent == ""
      ensures statusInterval.Some?
      ensures StatusIntervalEnsured(old(statusInterval), old(nextHandle), old(timers), statusInterval, nextHandle, timers)
    {
      entries := [PlaceholderEntry("Iniciando scraping...", now)];
      lastLogRawContent := "";
      EnsureStatusInterval();
    }

    /** The status interval armed unless one exists (`if (!scrapeStatusInterval)`). */
    method EnsureStatusInterval()
      requires nextHandle > 0
      requires Scheduled(timers, nextHandle, liveInitialTimeouts, pollingStartTimeout, logsInterval, procesadosInterval, statusInterval)
      modifies this`timers, this`nextHandle, this`statusInterval
      ensures Scheduled(timers, nextHandle, liveInitialTimeouts, pollingStartTimeout, logsInterval, procesadosInterval, statusInterval)
      ensures nextHandle > 0 && statusInterval.Some?
      ensures StatusIntervalEnsured(old(statusInterval), old(nextHandle), old(timers), statusInterval, nextHandle, timers)
    {
      if statusInterval.None? {
        ArmStatusSchedule(timers, nextHandle, liveInitialTimeouts, pollingStartTimeout, logsInterval, procesadosInterval);
        var h := Arm(Interval(StatusPeriod, Load(Status)));
        statusInterval := Some(h);
      }
    }

    /** The scrape request's outcome: an error or a failed request stops the status interval. */
    method ReceiveScrapeStart(reply: ScrapeReply)
      requires Valid()
      modifies this`timers, this`statusInterval
      ensures Valid()
      ensures reply.Accepted? ==> timers == old(timers) && statusInterval == old(statusInterval)
      ensures !reply.Accepted? ==> statusInterval.None? && timers == old(timers) - SlotSet(old(statusInterval))
    {
      if !reply.Accepted? {
        ClearStatusInterval();
      }
    }

    /** "Cancel": nothing for an archived run or when the user does not confirm. */
    method Cancel(confirmed: bool) returns (requests: seq<Request>)
      ensures requests == if Historical() || !confirmed then [] else [Post("/api/scrape/cancel")]
    {
      requests := if Historical() || !confirmed then [] else [Post("/api/scrape/cancel")];
    }

    /** The cancel reply: a message stops the status interval; an error changes nothing. */
    method ReceiveCancel(message: string)
      requires Valid()
      modifies this`timers, this`statusInterval
      ensures Valid()
      ensures message == "" ==> timers == old(timers) && statusInterval == old(statusInterval)
      ensures message != "" ==> statusInterval.None? && timers == old(timers) - SlotSet(old(statusInterval))
    {
      if message != "" {
        ClearStatusInterval();
      }
    }

    /**
     * The `updateScrapeStatus` reply: the status text, and the status interval stopped
     * unless the scrape is still running.
     */
    method ReceiveStatus(data: StatusData) returns (text: string)
      requires Valid()
      modifies this`timers, this`statusInterval
      ensures Valid()
      ensures data.status == "running" ==>
        text == RunningMessage(data) && timers == old(timers) && statusInterval == old(statusInterval)
      ensures data.status != "running" ==> statusInterval.None? && timers == old(timers) - SlotSet(old(statusInterval))
      ensures data.status == "error" ==> text == if data.message != "" then data.message else "Scraping detenido con errores."
      ensures data.status != "running" && data.status != "error" ==> text == data.message
    {
      if data.status == "running" {
        text := RunningMessage(data);
      } else if data.status == "error" {
        text := if data.message != "" then data.message else "Scraping detenido con errores.";
        ClearStatusInterval();
      } else {
        text := data.message;
        ClearStatusInterval();
      }
    }

    /**
     * "Reload files": for an archived run, back to live mode and the runs list
     * requested; otherwise the files requested, the log replaced by a placeholder and
     * every bucket emptied.
     */
    method ReloadFiles(now: nat) returns (requests: seq<Request>)
      requires Valid()
      modifies this`executionId, this`timers, this`nextHandle, this`liveInitialTimeouts, this`pollingStartTimeout,
        this`logsInterval, this`procesadosInterval, this`statusInterval, this`markdownUrls, this`logUrls,
        this`processedUrls, this`lastLogRawContent, this`entries
      ensures Valid() && !Historical()
      ensures old(Historical()) ==>
        (requests == [Get("/api/executions")] && timers == LiveTimers(old(nextHandle)) && lastLogRawContent == ""
         && |liveInitialTimeouts| == 4 && pollingStartTimeout.Some? && entries == old(entries))
      ensures !old(Historical()) ==>
        && requests == LoadRequests(Files, None, encode)
        && entries == [PlaceholderEntry("Ficheros recargados y vistas limpiadas.", now)]
        && lastLogRawContent == "" && timers == old(timers)
      ensures markdownUrls == {} && logUrls == {} && processedUrls == {}
    {
      if Historical() {
        SwitchToLiveMode();
        return [Get("/api/executions")];
      }
      requests := LoadRequests(Files, executionId, encode);
      entries := [PlaceholderEntry("Ficheros recargados y vistas limpiadas.", now)];
      lastLogRawContent := "";
      RefreshProcessedUrlsFromLogs();
      ResetProcessedUrlTracking();
    }
  }

  // ---------------------------------------------------------------------------
  // What the invariant guarantees
  // ---------------------------------------------------------------------------

  /** At most one logs poller and one processed-list poller are ever armed. */
  lemma AtMostOnePoller(m: LogMonitor, h1: nat, h2: nat)
    requires m.Valid() && h1 in m.timers && h2 in m.timers
    requires m.timers[h1] == m.timers[h2] && m.timers[h1].Interval? && m.timers[h1].task.Load?
    requires m.timers[h1].task.job == Logs || m.timers[h1].task.job == Procesados
    ensures h1 == h2
  {
    forall i | 0 <= i < |m.liveInitialTimeouts|
      ensures m.liveInitialTimeouts[i] != h1 && m.liveInitialTimeouts[i] != h2
    {
    }
  }
}
