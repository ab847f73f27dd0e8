/**
 * The two stored record kinds and the {date, status, reason} entry that the
 * listing endpoints return.
 */
module Records {
  import opened Wrappers
  import opened Dates

  /**
   * An Attendance document without its key. Status is any string: the
   * upsert passes no validator option, so the Present/Absent enum of the
   * schema is not enforced on that path.
   */
  datatype AttendanceRecord = AttendanceRecord(status: string, reason: string)

  /** A Holiday document without its key; its reason field is optional. */
  datatype HolidayRecord = HolidayRecord(reason: Option<string>)

  /** One row of a listing: a day with the status and reason shown for it. */
  datatype DayEntry = DayEntry(date: Date, status: string, reason: string)

  /** The status shown for a day that only a holiday record covers. */
  const HolidayStatus: string := "Holiday"

  /**
   * `reason || "Holiday"`: an absent or empty holiday reason is shown as
   * "Holiday", any other reason as it is.
   */
  function HolidayReason(reason: Option<string>): (r: string)
    ensures r != ""
    ensures reason.Some? && reason.value != "" ==> r == reason.value
    ensures reason == None || reason == Some("") ==> r == HolidayStatus
  {
    match reason
    case Some(text) => if text != "" then text else HolidayStatus
    case None => HolidayStatus
  }

  /** The entry an attendance record gives for its day. */
  function AttendanceEntry(date: Date, rec: AttendanceRecord): DayEntry {
    DayEntry(date, rec.status, rec.reason)
  }

  /** The entry a holiday record gives for its day. */
  function HolidayEntry(date: Date, rec: HolidayRecord): DayEntry {
    DayEntry(date, HolidayStatus, HolidayReason(rec.reason))
  }
}
