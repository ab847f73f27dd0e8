/**
 * The numbers and the per-day text that `summarizeAttendance` (ai.js) builds
 * from the attendance records before it asks a language model for prose.
 * The model call itself is not modelled: the result names what would be
 * sent to it.
 */
module Summary {
  import opened Dates
  import opened Records
  import opened Listing
  import opened Server

  const NoDataText: string := "No attendance data available yet."

  /** Either the fixed answer for an empty log, or the figures the prompt is built from. */
  datatype Outcome =
    | Fallback(text: string)
    | Prompt(total: nat, present: nat, absent: nat, details: string)

  /** `records.filter(r => r.status === status).length`. */
  function CountStatus(records: seq<DayEntry>, status: string): (n: nat)
    ensures n <= |records|
  {
    if records == [] then 0
    else (if records[0].status == status then 1 else 0) + CountStatus(records[1..], status)
  }

  /** The days of a listing whose entry has the given status. */
  function DatesWithStatus(records: seq<DayEntry>, status: string): set<Date> {
    set e | e in records && e.status == status :: e.date
  }

  /** In a listing with one entry per day, the count is the number of such days. */
  lemma {:induction false} CountIsDays(records: seq<DayEntry>, status: string)
    requires DistinctDates(records)
    ensures CountStatus(records, status) == |DatesWithStatus(records, status)|
  {
    if records != [] {
      var t := records[1..];
      assert records == [records[0]] + t;
      assert DistinctDates(t);
      CountIsDays(t, status);
      assert records[0].date !in DatesWithStatus(t, status) by {
        forall e | e in t ensures e.date != records[0].date {
          var k :| 0 <= k < |t| && t[k] == e;
          assert records[k + 1] == e;
        }
      }
      if records[0].status == status {
        assert DatesWithStatus(records, status) == {records[0].date} + DatesWithStatus(t, status);
      } else {
        assert DatesWithStatus(records, status) == DatesWithStatus(t, status);
      }
    }
  }

  /** Present and absent days never add up to more than the days listed. */
  lemma {:induction false} PresentAbsentBounded(records: seq<DayEntry>)
    ensures CountStatus(records, "Present") + CountStatus(records, "Absent") <= |records|
  {
    if records != [] {
      PresentAbsentBounded(records[1..]);
    }
  }

  /** `${r.date}: ${r.status}`. */
  function DetailLine(e: DayEntry): string {
    e.date + ": " + e.status
  }

  /** `lines.join("\n")`. */
  function JoinLines(lines: seq<string>): string {
    if lines == [] then ""
    else if |lines| == 1 then lines[0]
    else lines[0] + "\n" + JoinLines(lines[1..])
  }

  /** The details text: one line per record, in the records' order. */
  function Details(records: seq<DayEntry>): string {
    JoinLines(seq(|records|, i requires 0 <= i < |records| => DetailLine(records[i])))
  }

  /** `text.split("\n")`: the pieces between line breaks. */
  function SplitLines(s: string): (pieces: seq<string>)
    ensures |pieces| >= 1
  {
    if s == [] then [""]
    else
      var rest := SplitLines(s[1..]);
      if s[0] == '\n' then [""] + rest else [[s[0]] + rest[0]] + rest[1..]
  }

  lemma {:induction false} SplitWithoutBreak(line: string)
    requires '\n' !in line
    ensures SplitLines(line) == [line]
  {
    if line != [] {
      assert '\n' !in line[1..];
      SplitWithoutBreak(line[1..]);
      assert line == [line[0]] + line[1..];
    }
  }

  lemma {:induction false} SplitAfterLine(line: string, rest: string)
    requires '\n' !in line
    ensures SplitLines(line + "\n" + rest) == [line] + SplitLines(rest)
  {
    if line == [] {
      assert line + "\n" + rest == ['\n'] + rest;
      assert (['\n'] + rest)[1..] == rest;
    } else {
      var s := line + "\n" + rest;
      assert s[1..] == line[1..] + "\n" + rest;
      assert '\n' !in line[1..];
      SplitAfterLine(line[1..], rest);
      assert [line[0]] + line[1..] == line;
    }
  }

  /** Joining lines that hold no line break and splitting again gives the lines back. */
  lemma {:induction false} SplitJoin(lines: seq<string>)
    requires lines != []
    requires forall l | l in lines :: '\n' !in l
    ensures SplitLines(JoinLines(lines)) == lines
  {
    if |lines| == 1 {
      SplitWithoutBreak(lines[0]);
    } else {
      assert lines[0] in lines;
      assert forall l | l in lines[1..] :: l in lines;
      SplitJoin(lines[1..]);
      SplitAfterLine(lines[0], JoinLines(lines[1..]));
      assert lines == [lines[0]] + lines[1..];
    }
  }

  /**
   * The details text has exactly one `date: status` line per record, in the
   * records' order, as long as no date or status holds a line break.
   */
  lemma DetailsOneLinePerRecord(records: seq<DayEntry>)
    requires records != []
    requires forall e | e in records :: '\n' !in e.date && '\n' !in e.status
    ensures |SplitLines(Details(records))| == |records|
    ensures forall i | 0 <= i < |records| :: SplitLines(Details(records))[i] == records[i].date + ": " + records[i].status
  {
    var lines := seq(|records|, i requires 0 <= i < |records| => DetailLine(records[i]));
    forall l | l in lines ensures '\n' !in l {
      var k :| 0 <= k < |lines| && lines[k] == l;
      assert records[k] in records;
      assert l == records[k].date + ": " + records[k].status;
    }
    SplitJoin(lines);
  }

  /** The summary figures of a date-sorted list of attendance records (ai.js:9-19). */
  function Summarize(records: seq<DayEntry>): (r: Outcome)
    ensures r.Fallback? <==> records == []
    ensures r.Fallback? ==> r.text == NoDataText
    ensures r.Prompt? ==>
      && r.total == |records|
      && r.present == CountStatus(records, "Present")
      && r.absent == CountStatus(records, "Absent")
      && r.present + r.absent <= r.total
      && r.details == Details(records)
  {
    if records == [] then Fallback(NoDataText)
    else
      PresentAbsentBounded(records);
      Prompt(|records|, CountStatus(records, "Present"), CountStatus(records, "Absent"), Details(records))
  }

  /**
   * `summarizeAttendance` reads only the Attendance collection, sorted by
   * date: holidays are never counted or listed. `records` is the listing
   * the figures are taken from.
   */
  method SummarizeAttendance(store: AttendanceStore) returns (r: Outcome, records: seq<DayEntry>)
    ensures Ascending(records)
    ensures DatesOf(records) == store.attendance.Keys
    ensures forall e | e in records ::
      e.date in store.attendance && e == AttendanceEntry(e.date, store.attendance[e.date])
    ensures r.Fallback? <==> store.attendance == map[]
    ensures r.Fallback? ==> r.text == NoDataText
    ensures r.Prompt? ==> r.total == |store.attendance|
    ensures r.Prompt? ==>
      r.present == |set d | d in store.attendance && store.attendance[d].status == "Present"|
    ensures r.Prompt? ==>
      r.absent == |set d | d in store.attendance && store.attendance[d].status == "Absent"|
    ensures r.Prompt? ==> r.present + r.absent <= r.total
    ensures r.Prompt? ==> r.details == Details(records)
  {
    records := store.GetAttendance();
    AscendingIsDistinct(records);
    CountIsDays(records, "Present");
    CountIsDays(records, "Absent");
    StatusDays(store.attendance, records, "Present");
    StatusDays(store.attendance, records, "Absent");
    r := Summarize(records);
  }

  /** The days with a status in a faithful listing of a map are the map's days with that status. */
  lemma StatusDays(attendance: map<Date, AttendanceRecord>, records: seq<DayEntry>, status: string)
    requires DatesOf(records) == attendance.Keys
    requires forall e | e in records :: e.date in attendance && e == AttendanceEntry(e.date, attendance[e.date])
    ensures DatesWithStatus(records, status) == set d | d in attendance && attendance[d].status == status
  {
    forall d | d in attendance && attendance[d].status == status
      ensures d in DatesWithStatus(records, status)
    {
      assert d in DatesOf(records);
      var e :| e in records && e.date == d;
    }
  }
}
