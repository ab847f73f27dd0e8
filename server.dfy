/**
 * The HTTP handlers of server.js over an in-memory model of the two
 * collections. The calendar day the server computes from the clock is a
 * parameter `today` of every handler that uses it.
 */
module Server {
  import opened Wrappers
  import opened Dates
  import opened Records
  import opened Listing

  /** The JSON body of POST /attendance; `None` is a field that was left out. */
  datatype AttendanceBody = AttendanceBody(status: Option<string>, reason: Option<string>)

  /** The three answers of POST /attendance. */
  datatype PostReply =
    | StatusRequired
    | HolidayIgnored
    | Saved(date: Date, status: string, reason: string)
  {
    /** The HTTP status code of the answer. */
    function Code(): int {
      if StatusRequired? then 400 else 200
    }

    /** The `message` field of the JSON answer. */
    function Message(): string {
      match this
      case StatusRequired => "Status is required"
      case HolidayIgnored => "Holiday \U{2014} attendance ignored"
      case Saved(_, _, _) => SavedMessage
    }
  }

  const SavedMessage: string := "Attendance saved"

  /** The answer of POST /holiday. */
  datatype HolidayReply = HolidaySaved(date: Date) {
    function Code(): int { 200 }
    function Message(): string { "Holiday saved" }
  }

  /** The reason every holiday declared through POST /holiday carries. */
  const DeclaredReason: string := "Declared by user"

  /** The reason stored when the request body has none. */
  const DefaultReason: string := "present"

  /** JavaScript truthiness of an optional string field. */
  predicate Truthy(field: Option<string>) {
    field.Some? && field.value != ""
  }

  /** `const { reason = "present" } = body`: the default applies only when the field is absent. */
  function ReasonOrDefault(reason: Option<string>): (r: string)
    ensures reason.Some? ==> r == reason.value
    ensures reason.None? ==> r == DefaultReason
  {
    reason.GetOr(DefaultReason)
  }

  /** One Holiday document as a query returns it. */
  datatype HolidayDoc = HolidayDoc(date: Date, record: HolidayRecord)

  /** The days a list of holiday documents mentions. */
  function HolidayDates(docs: seq<HolidayDoc>): set<Date> {
    set h | h in docs :: h.date
  }

  /** `map.has(date)` on the insertion-ordered JavaScript Map of the merge. */
  predicate Has(m: seq<DayEntry>, date: Date) {
    date in DatesOf(m)
  }

  /**
   * `map.set(e.date, e)` on an insertion-ordered JavaScript Map: a key
   * already present keeps its position and takes the new value, a new key
   * goes last.
   */
  function Put(m: seq<DayEntry>, e: DayEntry): (r: seq<DayEntry>)
    requires DistinctDates(m)
    ensures DistinctDates(r)
    ensures DatesOf(r) == DatesOf(m) + {e.date}
    ensures e in r
    ensures forall x | x in r :: x == e || (x in m && x.date != e.date)
    ensures !Has(m, e.date) ==> r == m + [e]
  {
    if Has(m, e.date) then
      var r := seq(|m|, i requires 0 <= i < |m| => if m[i].date == e.date then e else m[i]);
      assert forall i | 0 <= i < |m| :: r[i].date == m[i].date;
      assert e in r by {
        var k :| 0 <= k < |m| && m[k].date == e.date;
        assert r[k] == e;
      }
      assert forall x | x in r :: x == e || (x in m && x.date != e.date);
      assert DatesOf(r) == DatesOf(m) by {
        forall d | d in DatesOf(m) ensures d in DatesOf(r) {
          var k :| 0 <= k < |m| && m[k].date == d;
          assert r[k].date == d;
        }
      }
      r
    else
      AppendFresh(m, e);
      m + [e]
  }

  /** An entry of the merged listing is the one its day's records give. */
  predicate MergedEntry(attendance: map<Date, AttendanceRecord>, holidays: map<Date, HolidayRecord>, e: DayEntry) {
    if e.date in attendance then e == AttendanceEntry(e.date, attendance[e.date])
    else e.date in holidays && e == HolidayEntry(e.date, holidays[e.date])
  }

  /**
   * The two collections. A map holds at most one record per day, as the
   * unique index on `date` does.
   */
  class AttendanceStore {
    var attendance: map<Date, AttendanceRecord>
    var holidays: map<Date, HolidayRecord>

    constructor ()
      ensures attendance == map[] && holidays == map[]
    {
      attendance := map[];
      holidays := map[];
    }

    /**
     * POST /attendance: reject a missing or empty status, ignore the write on
     * a holiday, otherwise upsert today's record.
     */
    method PostAttendance(today: Date, body: AttendanceBody) returns (reply: PostReply)
      modifies this`attendance
      ensures holidays == old(holidays)
      ensures !Truthy(body.status) ==>
        reply == StatusRequired && attendance == old(attendance)
      ensures Truthy(body.status) && today in holidays ==>
        reply == HolidayIgnored && attendance == old(attendance)
      ensures Truthy(body.status) && today !in holidays ==>
        && reply == Saved(today, body.status.value, ReasonOrDefault(body.reason))
        && attendance == old(attendance)[today := AttendanceRecord(body.status.value, ReasonOrDefault(body.reason))]
      ensures attendance.Keys <= old(attendance).Keys + {today}
      ensures forall d | d != today :: (d in attendance <==> d in old(attendance))
    {
      if !Truthy(body.status) {
        return StatusRequired;
      }
      var status := body.status.value;
      var reason := ReasonOrDefault(body.reason);
      if today in holidays {
        return HolidayIgnored;
      }
      attendance := attendance[today := AttendanceRecord(status, reason)];
      reply := Saved(today, status, reason);
    }

    /** POST /holiday: upsert today's holiday, whatever attendance says. */
    method PostHoliday(today: Date) returns (reply: HolidayReply)
      modifies this`holidays
      ensures attendance == old(attendance)
      ensures holidays == old(holidays)[today := HolidayRecord(Some(DeclaredReason))]
      ensures reply == HolidaySaved(today)
      ensures reply.Code() == 200 && reply.Message() == "Holiday saved"
    {
      holidays := holidays[today := HolidayRecord(Some(DeclaredReason))];
      reply := HolidaySaved(today);
    }

    /**
     * GET /attendance/today: a holiday record wins; otherwise the attendance
     * record, or nothing (`null`).
     */
    method GetToday(today: Date) returns (view: Option<DayEntry>)
      ensures today in holidays ==>
        view == Some(DayEntry(today, HolidayStatus, HolidayReason(holidays[today].reason)))
      ensures today !in holidays && today in attendance ==>
        view == Some(AttendanceEntry(today, attendance[today]))
      ensures view.None? <==> today !in holidays && today !in attendance
      ensures view.Some? ==> view.value.date == today
    {
      if today in holidays {
        return Some(HolidayEntry(today, holidays[today]));
      }
      if today in attendance {
        return Some(AttendanceEntry(today, attendance[today]));
      }
      return None;
    }

    /** `Attendance.find()`: every attendance document once, in no particular order. */
    method FindAttendance() returns (docs: seq<DayEntry>)
      ensures DistinctDates(docs)
      ensures DatesOf(docs) == attendance.Keys
      ensures forall e | e in docs :: e.date in attendance && e == AttendanceEntry(e.date, attendance[e.date])
    {
      docs := [];
      var rest := attendance.Keys;
      while rest != {}
        invariant rest <= attendance.Keys
        invariant DistinctDates(docs)
        invariant DatesOf(docs) == attendance.Keys - rest
        invariant forall e | e in docs :: e.date in attendance && e == AttendanceEntry(e.date, attendance[e.date])
        decreases rest
      {
        var d :| d in rest;
        var e := AttendanceEntry(d, attendance[d]);
        AppendFresh(docs, e);
        docs := docs + [e];
        rest := rest - {d};
      }
    }

    /** `Holiday.find()`: every holiday document once, in no particular order. */
    method FindHolidays() returns (docs: seq<HolidayDoc>)
      ensures forall i, j | 0 <= i < j < |docs| :: docs[i].date != docs[j].date
      ensures HolidayDates(docs) == holidays.Keys
      ensures forall h | h in docs :: h.date in holidays && h.record == holidays[h.date]
    {
      docs := [];
      var rest := holidays.Keys;
      while rest != {}
        invariant rest <= holidays.Keys
        invariant forall i, j | 0 <= i < j < |docs| :: docs[i].date != docs[j].date
        invariant HolidayDates(docs) == holidays.Keys - rest
        invariant forall h | h in docs :: h.date in holidays && h.record == holidays[h.date]
        decreases rest
      {
        var d :| d in rest;
        var h := HolidayDoc(d, holidays[d]);
        assert forall x :: x in docs + [h] <==> x in docs || x == h;
        assert HolidayDates(docs + [h]) == HolidayDates(docs) + {d};
        assert forall i | 0 <= i < |docs| :: docs[i] in docs;
        docs := docs + [h];
        rest := rest - {d};
      }
    }

    /** GET /attendance: the attendance records only, ascending by date. */
    method GetAttendance() returns (records: seq<DayEntry>)
      ensures Ascending(records)
      ensures DatesOf(records) == attendance.Keys
      ensures |records| == |attendance|
      ensures forall e | e in records :: e.date in attendance && e == AttendanceEntry(e.date, attendance[e.date])
    {
      var docs := FindAttendance();
      DistinctDatesCount(docs);
      SortKeepsEntries(docs);
      records := SortByDate(docs);
    }

    /**
     * The two `forEach` loops of GET /attendance/all: the JavaScript Map
     * they build, as its insertion-ordered values. Attendance days go in
     * first; a holiday is added only for a day not yet present.
     */
    method MergeRecords() returns (merged: seq<DayEntry>)
      ensures DistinctDates(merged)
      ensures DatesOf(merged) == attendance.Keys + holidays.Keys
      ensures forall e | e in merged :: MergedEntry(attendance, holidays, e)
    {
      var atts := FindAttendance();
      var hols := FindHolidays();
      merged := [];
      for i := 0 to |atts|
        invariant merged == atts[..i]
      {
        assert atts[i].date !in DatesOf(atts[..i]) by {
          forall x | x in atts[..i] ensures x.date != atts[i].date {
            var k :| 0 <= k < i && atts[..i][k] == x;
            assert atts[k] == x;
          }
        }
        assert DistinctDates(atts[..i]);
        merged := Put(merged, atts[i]);
        assert atts[..i + 1] == atts[..i] + [atts[i]];
      }
      assert merged == atts;
      merged := AddHolidays(merged, hols);
    }

    /** The second `forEach`: add a "Holiday" entry for each holiday day not yet present. */
    method AddHolidays(start: seq<DayEntry>, hols: seq<HolidayDoc>) returns (merged: seq<DayEntry>)
      requires DistinctDates(start)
      requires DatesOf(start) == attendance.Keys
      requires forall e | e in start :: MergedEntry(attendance, holidays, e)
      requires HolidayDates(hols) == holidays.Keys
      requires forall h | h in hols :: h.date in holidays && h.record == holidays[h.date]
      ensures DistinctDates(merged)
      ensures DatesOf(merged) == attendance.Keys + holidays.Keys
      ensures forall e | e in merged :: MergedEntry(attendance, holidays, e)
    {
      merged := start;
      for j := 0 to |hols|
        invariant DistinctDates(merged)
        invariant DatesOf(merged) == attendance.Keys + HolidayDates(hols[..j])
        invariant forall e | e in merged :: MergedEntry(attendance, holidays, e)
      {
        var h := hols[j];
        assert h in hols;
        if !Has(merged, h.date) {
          merged := Put(merged, HolidayEntry(h.date, h.record));
        }
        assert hols[..j + 1] == hols[..j] + [h];
        assert HolidayDates(hols[..j + 1]) == HolidayDates(hols[..j]) + {h.date};
      }
      assert hols[..|hols|] == hols;
    }

    /**
     * GET /attendance/all: one entry per day of either collection, ascending
     * by date. A day with an attendance record shows that record even when
     * it is also a holiday; a day with only a holiday shows "Holiday".
     */
    method GetAll() returns (result: seq<DayEntry>)
      ensures Ascending(result)
      ensures DatesOf(result) == attendance.Keys + holidays.Keys
      ensures |result| == |attendance.Keys + holidays.Keys|
      ensures forall e | e in result && e.date in attendance :: e == AttendanceEntry(e.date, attendance[e.date])
      ensures forall e | e in result && e.date !in attendance ::
        e.date in holidays && e == HolidayEntry(e.date, holidays[e.date])
    {
      var merged := MergeRecords();
      SortKeepsEntries(merged);
      DistinctDatesCount(merged);
      result := SortByDate(merged);
    }
  }

  /**
   * Two successive writes on the same day leave one record for that day,
   * holding the second write's values.
   */
  method LastWriteWins(store: AttendanceStore, today: Date, first: AttendanceBody, second: AttendanceBody)
    returns (r1: PostReply, r2: PostReply)
    requires Truthy(first.status) && Truthy(second.status)
    requires today !in store.holidays
    modifies store
    ensures r1.Saved? && r2.Saved?
    ensures store.attendance == old(store.attendance)[today := AttendanceRecord(second.status.value, ReasonOrDefault(second.reason))]
    ensures store.attendance.Keys == old(store.attendance).Keys + {today}
  {
    r1 := store.PostAttendance(today, first);
    r2 := store.PostAttendance(today, second);
  }

  /**
   * Declaring today a holiday makes every later attendance write of the day
   * a no-op, and today then reads as a holiday.
   */
  method HolidayBlocksAttendance(store: AttendanceStore, today: Date, body: AttendanceBody)
    returns (reply: PostReply, view: Option<DayEntry>)
    requires Truthy(body.status)
    modifies store
    ensures reply == HolidayIgnored
    ensures reply.Message() == "Holiday \U{2014} attendance ignored"
    ensures store.attendance == old(store.attendance)
    ensures view == Some(DayEntry(today, HolidayStatus, DeclaredReason))
  {
    var _ := store.PostHoliday(today);
    reply := store.PostAttendance(today, body);
    view := store.GetToday(today);
  }

  /**
   * A day that holds both records reads as a holiday through
   * GET /attendance/today but shows its attendance record in
   * GET /attendance/all.
   */
  method TodayAndMergeDisagree(store: AttendanceStore, today: Date)
    returns (view: Option<DayEntry>, all: seq<DayEntry>)
    requires today in store.attendance && today in store.holidays
    ensures view.Some? && view.value.status == HolidayStatus
    ensures exists e | e in all :: e.date == today
    ensures forall e | e in all && e.date == today :: e == AttendanceEntry(today, store.attendance[today])
  {
    view := store.GetToday(today);
    all := store.GetAll();
  }
}
