/** The in-memory log store and the queries over it: the global store list,
    CSV row mapping, summary statistics and criteria filtering. */
module Services {
  import opened Models
  import opened Seqs
  import opened Text

  // ---------------------------------------------------------------- CSV rows

  /** One row as csv.DictReader yields it: header column -> cell. A column
      missing from the header is absent; a row shorter than the header maps
      its missing columns to None (DictReader's default restval). */
  type Row = map<string, Option<string>>

  /** row.get(key, default). */
  function Get(row: Row, key: string, default: Option<string>): Option<string>
  {
    if key in row then row[key] else default
  }

  /** A row is mapped to an entry unless one of the required cells is None:
      `.strip()` on a None timestamp or `.upper()` on a None level raises, and
      the model rejects a None message; the loop skips such rows. */
  predicate WellFormed(row: Row)
  {
    Get(row, "timestamp", Some("")).Some?
    && Get(row, "level", Some("INFO")).Some?
    && Get(row, "message", Some("")).Some?
  }

  /** The entry built from one row; `stamp` is the row's timestamp as parsed
      (or the clock's reading where it could not be parsed). */
  function ParseRow(row: Row, stamp: int): (r: Option<LogEntry>)
    ensures r.Some? <==> WellFormed(row)
    ensures r.Some? ==> r.value.timestamp == stamp
    ensures r.Some? ==> r.value.level == Upper(Get(row, "level", Some("INFO")).value)
    ensures r.Some? ==> r.value.message == Get(row, "message", Some("")).value
    ensures r.Some? ==> r.value.source == Get(row, "source", None)
  {
    var ts := Get(row, "timestamp", Some(""));
    var level := Get(row, "level", Some("INFO"));
    var message := Get(row, "message", Some(""));
    if ts.None? || level.None? || message.None? then None
    else Some(LogEntry(stamp, Upper(level.value), message.value, Get(row, "source", None)))
  }

  /** The entries for rows, in row order, skipping rows that are not well formed. */
  function ParseRows(rows: seq<Row>, stamps: seq<int>): seq<LogEntry>
    requires |stamps| == |rows|
  {
    if rows == [] then []
    else
      var n := |rows| - 1;
      ParseRows(rows[..n], stamps[..n])
      + (match ParseRow(rows[n], stamps[n]) case Some(e) => [e] case None => [])
  }

  /** Number of well-formed rows. */
  function WellFormedCount(rows: seq<Row>): (n: nat)
    ensures n <= |rows|
  {
    if rows == [] then 0
    else WellFormedCount(rows[..|rows| - 1]) + (if WellFormed(rows[|rows| - 1]) then 1 else 0)
  }

  /** One entry per well-formed row. */
  lemma {:induction false} ParseRowsCount(rows: seq<Row>, stamps: seq<int>)
    requires |stamps| == |rows|
    ensures |ParseRows(rows, stamps)| == WellFormedCount(rows)
  {
    if rows != [] {
      var n := |rows| - 1;
      ParseRowsCount(rows[..n], stamps[..n]);
    }
  }

  /** Every entry has an upper-case level. */
  lemma {:induction false} ParseRowsUpper(rows: seq<Row>, stamps: seq<int>)
    requires |stamps| == |rows|
    ensures forall e :: e in ParseRows(rows, stamps) ==> IsUpperCase(e.level)
  {
    if rows != [] {
      var n := |rows| - 1;
      ParseRowsUpper(rows[..n], stamps[..n]);
      if WellFormed(rows[n]) {
        UpperIsUpperCase(Get(rows[n], "level", Some("INFO")).value);
      }
    }
  }

  /** When every row is well formed, entry i is row i's entry with row i's stamp. */
  lemma {:induction false} ParseRowsAllWellFormed(rows: seq<Row>, stamps: seq<int>)
    requires |stamps| == |rows|
    requires forall i :: 0 <= i < |rows| ==> WellFormed(rows[i])
    ensures |ParseRows(rows, stamps)| == |rows|
    ensures forall i :: 0 <= i < |rows| ==> ParseRows(rows, stamps)[i] == ParseRow(rows[i], stamps[i]).value
  {
    if rows != [] {
      var n := |rows| - 1;
      ParseRowsAllWellFormed(rows[..n], stamps[..n]);
    }
  }

  // ---------------------------------------------------------------- the store

  /** The global store list _LOG_STORE. */
  class LogStore {
    var entries: seq<LogEntry>

    constructor ()
      ensures entries == []
    {
      entries := [];
    }

    /** clear_store: rebinds the store to a fresh empty list. */
    method ClearStore()
      modifies this
      ensures entries == []
    {
      entries := [];
    }

    /** add_log_entry: appends one entry. */
    method AddLogEntry(entry: LogEntry)
      modifies this
      ensures entries == old(entries) + [entry]
    {
      entries := entries + [entry];
    }

    /** get_all_logs. */
    method GetAllLogs() returns (logs: seq<LogEntry>)
      ensures logs == entries
    {
      logs := entries;
    }

    /** parse_csv_file over rows already split by the CSV reader: appends one
        entry per well-formed row, in row order, and returns how many. */
    method ParseCsvFile(rows: seq<Row>, stamps: seq<int>) returns (count: nat)
      requires |stamps| == |rows|
      modifies this
      ensures entries == old(entries) + ParseRows(rows, stamps)
      ensures count == |ParseRows(rows, stamps)| == WellFormedCount(rows)
    {
      count := 0;
      var newEntries: seq<LogEntry> := [];
      var i := 0;
      while i < |rows|
        invariant 0 <= i <= |rows|
        invariant newEntries == ParseRows(rows[..i], stamps[..i])
        invariant count == |newEntries|
      {
        assert rows[..i + 1][..i] == rows[..i];
        assert stamps[..i + 1][..i] == stamps[..i];
        match ParseRow(rows[i], stamps[i])
        case Some(entry) =>
          newEntries := newEntries + [entry];
          count := count + 1;
          i := i + 1;
        case None =>
          i := i + 1;
      }
      assert rows[..i] == rows;
      assert stamps[..i] == stamps;
      entries := entries + newEntries;
      ParseRowsCount(rows, stamps);
    }

    /** calculate_summary: the summary of the current contents. */
    method Summary() returns (s: LogSummary)
      ensures s == CalculateSummary(entries)
    {
      s := CalculateSummary(entries);
    }

    /** filter_logs: the entries matching the criteria, in store order. */
    method Filtered(criteria: FilterRequest) returns (logs: seq<LogEntry>)
      ensures logs == Filter(entries, (e: LogEntry) => Matches(criteria, e))
    {
      logs := FilterLogs(entries, criteria);
      FilterLogsIsOneFilter(entries, criteria);
    }
  }

  // ---------------------------------------------------------------- summary

  /** sum(1 for log in store if log.level == level). */
  function CountLevel(store: seq<LogEntry>, level: string): (n: nat)
    ensures n <= |store|
  {
    if store == [] then 0
    else (if store[0].level == level then 1 else 0) + CountLevel(store[1..], level)
  }

  /** The count is the length of the filtered list. */
  lemma {:induction false} CountLevelIsFilterLength(store: seq<LogEntry>, level: string)
    ensures CountLevel(store, level) == |Filter(store, (e: LogEntry) => e.level == level)|
  {
    if store != [] {
      CountLevelIsFilterLength(store[1..], level);
    }
  }

  /** Entries of two different levels are counted apart, so together they
      never exceed the total. */
  lemma {:induction false} CountTwoLevels(store: seq<LogEntry>, a: string, b: string)
    requires a != b
    ensures CountLevel(store, a) + CountLevel(store, b) <= |store|
  {
    if store != [] {
      CountTwoLevels(store[1..], a, b);
    }
  }

  /** The earliest timestamp: sorted(store, key=timestamp)[0].timestamp. */
  function EarliestTimestamp(store: seq<LogEntry>): (t: int)
    requires store != []
    ensures exists e :: e in store && e.timestamp == t
    ensures forall e :: e in store ==> t <= e.timestamp
  {
    if |store| == 1 then
      assert store[0] in store;
      store[0].timestamp
    else
      var rest := EarliestTimestamp(store[1..]);
      assert store[0] in store;
      assert forall e :: e in store ==> e == store[0] || e in store[1..];
      if store[0].timestamp <= rest then store[0].timestamp else rest
  }

  /** The latest timestamp: sorted(store, key=timestamp)[-1].timestamp. */
  function LatestTimestamp(store: seq<LogEntry>): (t: int)
    requires store != []
    ensures exists e :: e in store && e.timestamp == t
    ensures forall e :: e in store ==> e.timestamp <= t
  {
    if |store| == 1 then
      assert store[0] in store;
      store[0].timestamp
    else
      var rest := LatestTimestamp(store[1..]);
      assert store[0] in store;
      assert forall e :: e in store ==> e == store[0] || e in store[1..];
      if store[0].timestamp >= rest then store[0].timestamp else rest
  }

  /** calculate_summary over the store's contents. */
  function CalculateSummary(store: seq<LogEntry>): (s: LogSummary)
    ensures store == [] ==> s == LogSummary(0, 0, 0, None, None)
    ensures s.totalCount == |store|
    ensures s.errorCount == |Filter(store, (e: LogEntry) => e.level == "ERROR")|
    ensures s.warningCount == |Filter(store, (e: LogEntry) => e.level == "WARNING")|
    ensures s.errorCount + s.warningCount <= s.totalCount
    ensures store != [] ==> s.startTime.Some? && s.endTime.Some?
    ensures store != [] ==> forall e :: e in store ==> s.startTime.value <= e.timestamp <= s.endTime.value
    ensures store != [] ==> exists e :: e in store && e.timestamp == s.startTime.value
    ensures store != [] ==> exists e :: e in store && e.timestamp == s.endTime.value
  {
    CountLevelIsFilterLength(store, "ERROR");
    CountLevelIsFilterLength(store, "WARNING");
    CountTwoLevels(store, "ERROR", "WARNING");
    if store == [] then LogSummary(0, 0, 0, None, None)
    else
      LogSummary(
        |store|,
        CountLevel(store, "ERROR"),
        CountLevel(store, "WARNING"),
        Some(EarliestTimestamp(store)),
        Some(LatestTimestamp(store)))
  }

  // ---------------------------------------------------------------- filtering

  /** `if criteria.level:` -- an empty string is falsy and does not filter. */
  predicate LevelActive(c: FilterRequest)
  {
    c.level.Some? && c.level.value != ""
  }

  predicate KeywordActive(c: FilterRequest)
  {
    c.keyword.Some? && c.keyword.value != ""
  }

  /** log.level == criteria.level.upper(). */
  predicate LevelMatches(level: string, e: LogEntry)
  {
    e.level == Upper(level)
  }

  /** kw in message.lower(), or in source.lower() when the source is a
      non-empty string; kw is the lower-cased keyword. */
  predicate KeywordMatches(keyword: string, e: LogEntry)
  {
    var kw := Lower(keyword);
    Contains(Lower(e.message), kw)
    || (e.source.Some? && e.source.value != "" && Contains(Lower(e.source.value), kw))
  }

  /** An entry passes every criterion that is present. */
  predicate Matches(c: FilterRequest, e: LogEntry)
  {
    (LevelActive(c) ==> LevelMatches(c.level.value, e))
    && (KeywordActive(c) ==> KeywordMatches(c.keyword.value, e))
    && (c.startDate.Some? ==> c.startDate.value <= e.timestamp)
    && (c.endDate.Some? ==> e.timestamp <= c.endDate.value)
  }

  /** filter_logs over the store's contents: four comprehensions in a row,
      each applied only when its criterion is present. */
  function FilterLogs(store: seq<LogEntry>, c: FilterRequest): seq<LogEntry>
  {
    var byLevel := FilterWhen(LevelActive(c), store, (e: LogEntry) => LevelMatches(c.level.GetOr(""), e));
    var byKeyword := FilterWhen(KeywordActive(c), byLevel, (e: LogEntry) => KeywordMatches(c.keyword.GetOr(""), e));
    var byStart := FilterWhen(c.startDate.Some?, byKeyword, (e: LogEntry) => c.startDate.GetOr(0) <= e.timestamp);
    FilterWhen(c.endDate.Some?, byStart, (e: LogEntry) => e.timestamp <= c.endDate.GetOr(0))
  }

  /** The chained filters select exactly the entries matching every present
      criterion, in store order. */
  lemma FilterLogsIsOneFilter(store: seq<LogEntry>, c: FilterRequest)
    ensures FilterLogs(store, c) == Filter(store, (e: LogEntry) => Matches(c, e))
  {
    var level := (e: LogEntry) => LevelMatches(c.level.GetOr(""), e);
    var keyword := (e: LogEntry) => KeywordMatches(c.keyword.GetOr(""), e);
    var start := (e: LogEntry) => c.startDate.GetOr(0) <= e.timestamp;
    var end := (e: LogEntry) => e.timestamp <= c.endDate.GetOr(0);
    var text := (e: LogEntry) => (LevelActive(c) ==> level(e)) && (KeywordActive(c) ==> keyword(e));
    var time := (e: LogEntry) => (c.startDate.Some? ==> start(e)) && (c.endDate.Some? ==> end(e));
    FilterWhenTwice(LevelActive(c), level, KeywordActive(c), keyword, store, text);
    FilterWhenTwice(c.startDate.Some?, start, c.endDate.Some?, end, Filter(store, text), time);
    FilterTwice(store, text, time, (e: LogEntry) => Matches(c, e));
  }

  /** The result is a subsequence of the store whose entries all match, and
      every store entry that matches is kept. */
  lemma FilterLogsSelects(store: seq<LogEntry>, c: FilterRequest)
    ensures IsSubsequence(FilterLogs(store, c), store)
    ensures forall e :: e in FilterLogs(store, c) ==> e in store && Matches(c, e)
    ensures forall e :: e in store && Matches(c, e) ==> e in FilterLogs(store, c)
  {
    FilterLogsIsOneFilter(store, c);
  }

  /** With no criteria present the whole store comes back. */
  lemma FilterLogsNoCriteria(store: seq<LogEntry>)
    ensures FilterLogs(store, FilterRequest(None, None, None, None)) == store
  {
  }
}
