/**
  * The error buffer (realtime_stock_price.py, `ErrorLogger`): every failure
  * is kept as one text line "time | LEVEL | code | step | message | context"
  * until `flush_to_file` writes the lines out, in order, and empties the buffer.
  * The clock and the file are outside the model: the caller supplies the
  * timestamp, and the flush returns the text it would write.
  */
module ErrorLog {
  import opened Wrappers
  import opened Text

  /** One call of `log`: its level, code, step and message, and the JSON text of its context, if any. */
  datatype LogEntry = LogEntry(level: string, code: string, step: string, message: string, context: Option<string>)

  /** `json.dumps(context)` when a context was given, "{}" otherwise. */
  function ContextText(e: LogEntry): string {
    if e.context.Some? && e.context.value != "" then e.context.value else "{}"
  }

  /** `f"{now} | {level.upper()} | {code} | {step} | {message} | {ctx}"`. */
  function FormatRecord(now: string, e: LogEntry): (line: string)
    ensures |line| == |now| + |e.level| + |e.code| + |e.step| + |e.message| + |ContextText(e)| + 15
  {
    now + " | " + Upper(e.level) + " | " + e.code + " | " + e.step + " | " + e.message + " | " + ContextText(e)
  }

  /** The line for each entry, all stamped with the same time, in order. */
  function FormatRecords(now: string, es: seq<LogEntry>): (lines: seq<string>)
    ensures |lines| == |es|
    ensures forall i :: 0 <= i < |es| ==> lines[i] == FormatRecord(now, es[i])
  {
    seq(|es|, i requires 0 <= i < |es| => FormatRecord(now, es[i]))
  }

  /** Logging one more entry after the lines of `es` leaves the lines of `es + [e]`. */
  lemma FormatRecordsAppend(before: seq<string>, now: string, es: seq<LogEntry>, e: LogEntry)
    ensures before + FormatRecords(now, es) + [FormatRecord(now, e)] == before + FormatRecords(now, es + [e])
  {
    assert forall i :: 0 <= i < |es| ==> (es + [e])[i] == es[i];
    assert FormatRecords(now, es + [e]) == FormatRecords(now, es) + [FormatRecord(now, e)];
  }

  /** Two runs of logging leave the lines of both runs, in order. */
  lemma FormatRecordsConcat(before: seq<string>, now: string, es: seq<LogEntry>, more: seq<LogEntry>)
    ensures before + FormatRecords(now, es) + FormatRecords(now, more) == before + FormatRecords(now, es + more)
  {
    assert FormatRecords(now, es + more) == FormatRecords(now, es) + FormatRecords(now, more);
  }

  /** The fields of an entry, with no `|` in any of them. */
  predicate PipeFree(now: string, e: LogEntry) {
    '|' !in now && '|' !in e.level && '|' !in e.code && '|' !in e.step && '|' !in e.message
    && '|' !in ContextText(e)
  }

  lemma UpperKeepsPipes(s: string)
    requires '|' !in s
    ensures '|' !in Upper(s)
  {
    forall i | 0 <= i < |s|
      ensures Upper(s)[i] != '|'
    {
      assert s[i] != '|';
    }
  }

  /**
    * A record splits back on `|` into its six fields, each padded by the
    * single spaces around the separators, when no field contains a `|`.
    */
  lemma FormatRecordFields(now: string, e: LogEntry)
    requires PipeFree(now, e)
    ensures Split(FormatRecord(now, e), '|')
      == [now + " ", " " + Upper(e.level) + " ", " " + e.code + " ", " " + e.step + " ",
          " " + e.message + " ", " " + ContextText(e)]
  {
    UpperKeepsPipes(e.level);
    var fields := [now + " ", " " + Upper(e.level) + " ", " " + e.code + " ", " " + e.step + " ",
                   " " + e.message + " ", " " + ContextText(e)];
    forall i | 0 <= i < |fields|
      ensures '|' !in fields[i]
    {
    }
    JoinSix(fields);
    RecordLayout(now, Upper(e.level), e.code, e.step, e.message, ContextText(e));
    SplitJoin(fields, '|');
  }

  lemma JoinSix(fields: seq<string>)
    requires |fields| == 6
    ensures Join(fields, "|")
      == fields[0] + "|" + (fields[1] + "|" + (fields[2] + "|" + (fields[3] + "|" + (fields[4] + "|" + fields[5]))))
  {
    var f0, f1, f2, f3, f4, f5 := fields[0], fields[1], fields[2], fields[3], fields[4], fields[5];
    assert Join(fields[4..], "|") == f4 + "|" + f5 by {
      assert fields[4..][1..] == fields[5..];
    }
    assert Join(fields[3..], "|") == f3 + "|" + (f4 + "|" + f5) by {
      assert fields[3..][1..] == fields[4..];
    }
    assert Join(fields[2..], "|") == f2 + "|" + (f3 + "|" + (f4 + "|" + f5)) by {
      assert fields[2..][1..] == fields[3..];
    }
    assert Join(fields[1..], "|") == f1 + "|" + (f2 + "|" + (f3 + "|" + (f4 + "|" + f5))) by {
      assert fields[1..][1..] == fields[2..];
    }
  }

  /** The record is its six padded fields glued by `|`. */
  lemma RecordLayout(t: string, l: string, c: string, st: string, m: string, x: string)
    ensures (t + " ") + "|" + ((" " + l + " ") + "|" + ((" " + c + " ") + "|" + ((" " + st + " ") + "|"
      + ((" " + m + " ") + "|" + (" " + x)))))
      == t + " | " + l + " | " + c + " | " + st + " | " + m + " | " + x
  {
    var sep := " | ";
    assert (" " + "|") + " " == sep;
    assert (t + " ") + "|" + (" " + l + " ") == t + sep + l + " ";
    assert (t + sep + l + " ") + "|" + (" " + c + " ") == t + sep + l + sep + c + " ";
    assert (t + sep + l + sep + c + " ") + "|" + (" " + st + " ") == t + sep + l + sep + c + sep + st + " ";
    assert (t + sep + l + sep + c + sep + st + " ") + "|" + (" " + m + " ")
      == t + sep + l + sep + c + sep + st + sep + m + " ";
    assert (t + sep + l + sep + c + sep + st + sep + m + " ") + "|" + (" " + x)
      == t + sep + l + sep + c + sep + st + sep + m + sep + x;
  }

  /** The text `flush_to_file` writes for the buffered lines: each line followed by a newline. */
  function FileLines(records: seq<string>): (written: seq<string>)
    ensures |written| == |records|
  {
    seq(|records|, i requires 0 <= i < |records| => records[i] + "\n")
  }

  /** Joined end to end, the written text splits on newlines into the records and a final empty piece. */
  lemma {:induction false} FileLinesSplit(records: seq<string>)
    requires forall i :: 0 <= i < |records| ==> '\n' !in records[i]
    ensures Split(Concat(FileLines(records)), '\n') == records + [""]
  {
    if records == [] {
      assert Concat([]) == "";
    } else {
      var tail := records[1..];
      FileLinesSplit(tail);
      assert FileLines(records)[1..] == FileLines(tail);
      var rest := Concat(FileLines(tail));
      assert Concat(FileLines(records)) == records[0] + ("\n" + rest);
      SplitAfter(records[0], "\n" + rest, '\n');
      assert ("\n" + rest)[1..] == rest;
      assert records[0] + "" == records[0];
      assert (records + [""])[1..] == tail + [""];
    }
  }

  /** `ErrorLogger`: the buffer of formatted lines not yet written out. */
  class ErrorLogger {
    var records: seq<string>

    constructor()
      ensures records == []
    {
      records := [];
    }

    /** `log`: append the formatted line; nothing else changes. */
    method Log(e: LogEntry, now: string)
      modifies this
      ensures records == old(records) + [FormatRecord(now, e)]
    {
      records := records + [FormatRecord(now, e)];
    }

    /**
      * `flush_to_file`: with an empty buffer nothing is written; otherwise
      * every line goes out, in order and newline-terminated, and the buffer
      * is cleared.
      */
    method FlushToFile() returns (written: seq<string>)
      modifies this
      ensures old(records) == [] ==> written == []
      ensures written == FileLines(old(records))
      ensures records == []
    {
      if records == [] {
        return [];
      }
      written := [];
      for i := 0 to |records|
        invariant written == FileLines(records[..i])
      {
        written := written + [records[i] + "\n"];
      }
      assert records[..|records|] == records;
      records := [];
    }
  }
}
