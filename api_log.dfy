/**
 * The bounded API response log of restructure/server/utils/logger.js: `logApiResponse`
 * reads the stored list, appends one entry, keeps the newest 50 and writes the list
 * back, swallowing every error; `getApiLogs` reads the list, or gives `[]`.
 *
 * The log file is a field of a class; its JSON text is not modelled, only what parses
 * from it. The time stamp and whether the write succeeds are inputs.
 */
module ApiLog {
  import opened Wrappers
  import opened Http

  /** Entries kept by `logApiResponse`. */
  const Capacity: nat := 50

  /** One log entry: the time, the query, the score and the model, usage and id of the reply. */
  datatype LogEntry = LogEntry(timestamp: string, query: string, score: int,
                               model: Option<string>, usage: Option<string>, responseId: Option<string>)

  /**
   * The log file: absent, empty, holding a JSON list of entries, or holding text that
   * does not parse as one.
   */
  datatype LogFile = Absent | Blank | Entries(entries: seq<LogEntry>) | Unparsable

  /** `list.slice(-n)` when the list is longer than `n`, else the list. */
  function LastN<T>(s: seq<T>, n: nat): (r: seq<T>)
    ensures |r| == if |s| > n then n else |s|
    ensures r == s[|s| - |r|..]
  {
    if |s| > n then s[|s| - n..] else s
  }

  /** The entry built from a reply. */
  function EntryOf(timestamp: string, query: string, body: Body, score: int): LogEntry {
    LogEntry(timestamp, query, score, body.model, body.usage, body.id)
  }

  class Log {
    var file: LogFile

    constructor (file: LogFile)
      ensures this.file == file
    {
      this.file := file;
    }

    /** `getApiLogs()`: the stored entries, or `[]` when the file is absent, empty or does not parse. */
    function Stored(): (r: seq<LogEntry>)
      reads this
      ensures r != [] ==> file.Entries? && r == file.entries
      ensures file.Entries? ==> r == file.entries
      ensures !file.Entries? ==> r == []
    {
      if file.Entries? then file.entries else []
    }

    /**
     * `logApiResponse(query, apiResponse, score)`: when the stored list parses, it
     * becomes its newest 50 entries after the new one is appended, provided the write
     * succeeds; otherwise the file is left as it was and nothing is thrown.
     */
    method LogApiResponse(timestamp: string, query: string, body: Body, score: int, writeSucceeds: bool)
      modifies this
      ensures old(file).Unparsable? || !writeSucceeds ==> file == old(file)
      ensures !old(file).Unparsable? && writeSucceeds ==>
        file == Entries(LastN(old(Stored()) + [EntryOf(timestamp, query, body, score)], Capacity))
    {
      if file.Unparsable? {
        return;
      }
      var logs := Stored();
      logs := logs + [EntryOf(timestamp, query, body, score)];
      if |logs| > Capacity {
        logs := logs[|logs| - Capacity..];
      }
      if writeSucceeds {
        file := Entries(logs);
      }
    }
  }

  // ---------------------------------------------------------------- properties

  /**
   * After one call the log holds at most 50 entries, the new one last, preceded by the
   * newest of the old ones in order; when fewer than 50 were stored, none is dropped.
   */
  lemma AppendedLog(stored: seq<LogEntry>, e: LogEntry)
    ensures var r := LastN(stored + [e], Capacity);
      && 1 <= |r| <= Capacity
      && r[|r| - 1] == e
      && r[..|r| - 1] == stored[|stored| - (|r| - 1)..]
      && (|stored| < Capacity ==> r == stored + [e])
  {
    var r := LastN(stored + [e], Capacity);
    assert r[..|r| - 1] == (stored + [e])[|stored| + 1 - |r|..|stored|];
  }

  /** Keeping the newest `n` and appending is the same as appending to the whole history and keeping the newest `n`. */
  lemma LastNAppend<T>(h: seq<T>, e: T, n: nat)
    ensures LastN(LastN(h, n) + [e], n) == LastN(h + [e], n)
  {
    var a := LastN(h, n) + [e];
    var b := h + [e];
    assert a == b[|b| - |a|..];
    assert LastN(a, n) == b[|b| - |LastN(a, n)|..];
  }

  /** The log after appending each of `es` in turn, starting from the list `start`. */
  function Replayed(start: seq<LogEntry>, es: seq<LogEntry>): seq<LogEntry>
  {
    if es == [] then start else LastN(Replayed(start, es[..|es| - 1]) + [es[|es| - 1]], Capacity)
  }

  /**
   * However many calls succeed, the log holds the newest 50 entries of everything ever
   * appended (after the list it started from), in the order they were appended.
   */
  lemma {:induction false} ReplayedNewest(start: seq<LogEntry>, es: seq<LogEntry>)
    requires es != []
    ensures Replayed(start, es) == LastN(start + es, Capacity)
  {
    var init := es[..|es| - 1];
    var e := es[|es| - 1];
    assert start + es == (start + init) + [e];
    if init == [] {
      assert start + init == start;
    } else {
      ReplayedNewest(start, init);
      LastNAppend(start + init, e, Capacity);
    }
  }
}
