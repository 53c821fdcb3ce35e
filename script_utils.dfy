/**
 * The scraper's persisted state (script/src/scriptUtils.ts): the newest-first
 * report (report.json), the prepend-style activity log (log.txt), the daily
 * maintenance window and the retention filter that keeps today and yesterday.
 */
module ScriptUtils {
  import opened Clock
  import opened Sequences
  import opened SharedUtils
  import opened Snapshot

  /**
   * What report.json holds: no file, an empty file, or a JSON array of
   * entries. Dates are kept as values; their ISO-8601 text is not modelled.
   */
  datatype ReportFile = Missing | Blank | Json(entries: seq<Entry>)

  /** What reading the report yields: the stored entries, or none if there are none. */
  function ReadEntries(file: ReportFile): seq<Entry> {
    if file.Json? then file.entries else []
  }

  /**
   * Local time 3:30 through 3:45 inclusive; on the 12-hour clock the log
   * shows, that is 3:30 to 3:45 AM.
   */
  predicate IsCleaningTime(now: DateTime): (r: bool)
    ensures r <==> FormatHour(now) == 3 && FormatAmPm(now) == "AM" && 30 <= now.minute <= 45
  {
    now.hour == 3 && 30 <= now.minute <= 45
  }

  /** The entry's calendar day is `today` or the day before. */
  predicate IsRecent(entry: Entry, today: int) {
    entry.date.day == today || entry.date.day == today - 1
  }

  /** The report as cleaning leaves it: the recent entries, in their order. */
  function Retained(entries: seq<Entry>, today: int): (r: seq<Entry>)
    ensures forall e :: e in r <==> e in entries && IsRecent(e, today)
  {
    Filter(entries, e => IsRecent(e, today))
  }

  /** Retention keeps relative order: it works entry by entry. */
  lemma RetainedConcat(a: seq<Entry>, b: seq<Entry>, today: int)
    ensures Retained(a + b, today) == Retained(a, today) + Retained(b, today)
  {
    FilterConcat(a, b, e => IsRecent(e, today));
  }

  /** A report holding only recent entries survives cleaning untouched. */
  lemma RetainedAllRecent(entries: seq<Entry>, today: int)
    requires forall e :: e in entries ==> IsRecent(e, today)
    ensures Retained(entries, today) == entries
  {
    FilterAll(entries, e => IsRecent(e, today));
  }

  /** Cleaning a second time on the same day removes nothing more. */
  lemma RetainedIdempotent(entries: seq<Entry>, today: int)
    ensures Retained(Retained(entries, today), today) == Retained(entries, today)
  {
    FilterIdempotent(entries, e => IsRecent(e, today));
  }

  /** An entry from today, one from yesterday and one from two days ago: the last goes. */
  lemma RetainedDropsTwoDaysAgo(t: Entry, y: Entry, old2: Entry, today: int)
    requires t.date.day == today && y.date.day == today - 1 && old2.date.day == today - 2
    ensures Retained([t, y, old2], today) == [t, y]
  {
    assert [t, y, old2] == [t, y] + [old2];
    RetainedConcat([t, y], [old2], today);
    RetainedAllRecent([t, y], today);
    assert Retained([old2], today) == [];
  }

  /** The seconds of `date` as two digits. */
  function FormatSeconds(date: DateTime): (r: string)
    ensures |r| == 2 && AllDigits(r) && DigitsValue(r) == date.second
  {
    ZeroPad2(date.second)
  }

  /** The two files the scraper writes, updated in place. */
  class ScriptFiles {
    var report: ReportFile
    /** log.txt; a missing log reads, and is created, as "". */
    var log: string

    constructor (report: ReportFile, log: string)
      ensures this.report == report && this.log == log
    {
      this.report := report;
      this.log := log;
    }

    /** Creates report.json, empty, when it does not exist. */
    method MaybeCreateReport()
      modifies this`report
      ensures report == if old(report).Missing? then Blank else old(report)
    {
      if report.Missing? {
        report := Blank;
      }
    }

    /** Writes `content` on top of the log; the old log follows it. */
    method AppendLog(content: string)
      modifies this`log
      ensures log == content + old(log)
    {
      var currentLog := log;
      log := content;
      log := log + currentLog;
    }

    /** The stored entries; an absent or empty report reads as no entries. */
    method ReadReport() returns (entries: seq<Entry>)
      ensures report.Json? ==> entries == report.entries
      ensures !report.Json? ==> entries == []
    {
      entries := [];
      if report.Json? {
        entries := report.entries;
      }
    }

    /** Replaces the whole report with `entries`, creating the file if need be. */
    method WriteReport(entries: seq<Entry>)
      modifies this`report
      ensures report == Json(entries)
    {
      MaybeCreateReport();
      report := Json(entries);
    }

    /** Puts `entry` in front of the stored entries. */
    method AppendReport(entry: Entry)
      modifies this`report
      ensures report == Json([entry] + ReadEntries(old(report)))
      ensures ReadEntries(report)[0] == entry && ReadEntries(report)[1..] == ReadEntries(old(report))
    {
      MaybeCreateReport();
      var parsed := ReadReport();
      WriteReport([entry] + parsed);
    }

    /**
     * The daily cleaning: empties the log and keeps only the entries dated
     * `now`'s calendar day or the day before.
     */
    method Clean(now: DateTime)
      modifies this
      ensures log == ""
      ensures report == Json(Retained(ReadEntries(old(report)), now.day))
    {
      MaybeCreateReport();
      log := "";
      var today := now.day;
      var yesterday := today - 1;
      var allReport := ReadReport();
      var filtered := Filter(allReport, (e: Entry) => e.date.day == today || e.date.day == yesterday);
      FilterSamePredicate(allReport, (e: Entry) => e.date.day == today || e.date.day == yesterday,
                          e => IsRecent(e, today));
      WriteReport(filtered);
    }
  }

  /** Reading right after a write yields exactly what was written. */
  method WriteThenRead(files: ScriptFiles, entries: seq<Entry>) returns (read: seq<Entry>)
    modifies files
    ensures read == entries
  {
    files.WriteReport(entries);
    read := files.ReadReport();
  }

  /** Two appends to an empty log: the later text comes first. */
  method AppendLogTwice(files: ScriptFiles)
    requires files.log == ""
    modifies files
    ensures files.log == "10"
  {
    files.AppendLog("0");
    assert files.log == "0";
    files.AppendLog("1");
  }
}
