# Attendance tracker: record store, chat commands and summary figures

A single user records each day as present, absent (with a reason) or a
holiday. They do this through a chat bot or over HTTP. A small server keeps
two collections keyed by the calendar day (`YYYY-MM-DD`):

- **Attendance**: one record per day, holding a status and a reason.
- **Holiday**: one record per day, with an optional reason.

This project models and proves four things:

- **The server's route handlers**, as methods of the class
  `Server.AttendanceStore`. Its fields are the two collections, held as maps.
  Every handler that uses the clock takes the day as a parameter `today`.
- **The bot's command interpreter**: lower-casing, exact-word matching and
  extraction of the absence reason.
- **The bot's polling batch**: the Sunday gate, skipping updates with no text,
  and advancing the offset.
- **The summary figures** computed before the language-model call: the
  empty-log fallback, the counts, and the per-day lines.

Modules:

- `Wrappers`: Option.
- `Dates`: the date key and its order.
- `Records`: the stored records and the `{date, status, reason}` entry.
- `Listing`: ordering predicates, plus the insertion sort that models both the
  store's `sort({date: 1})` and `Array.prototype.sort` by `localeCompare`.
- `Server`: server.js.
- `Bot`: bot.js.
- `Summary`: ai.js.

The two precedence rules are modelled as the code is written:

- GET /attendance/today: a holiday record wins over an attendance record.
- GET /attendance/all: on a day with both records, the attendance record wins.

POST /holiday never looks at attendance. So a day can hold both records, and
then the two reads disagree. `Server.TodayAndMergeDisagree` states this. A
uniform "holiday always wins" rule would remove the disagreement, but the model
keeps the code's behaviour.

The code has no automatic "absent" mark at a deadline: scheduler.js only sends
a reminder message. The summary is made from the Attendance collection alone,
not from the merged view, so it has no holiday counts.

## Model

| member | source | states |
|---|---|---|
| `Dates.BeforeIrreflexive` | server.js:142-144 | under `Dates.Before` (the character-by-character string order that models `localeCompare`) no date sorts before itself |
| `Dates.BeforeTransitive` | server.js:142-144 | the date order is transitive |
| `Dates.BeforeTotal` | server.js:142-144 | any two different dates are ordered one way or the other, so sorting by date is well defined |
| `Records.HolidayReason` | server.js:102 | `reason \|\| "Holiday"`: never empty; a non-empty stored reason is shown as it is; a missing or empty one becomes "Holiday" |
| `Listing.AscendingIsDistinct` | server.js:122-144 | a listing sorted strictly by date has exactly one entry per day |
| `Listing.DistinctDatesCount` | server.js:122-140 | a listing with one entry per day has as many entries as it has days |
| `Listing.InsertByDate` | server.js:142-144 | inserting an entry for a new day into an ascending listing keeps it strictly ascending and adds exactly that entry (multiset) |
| `Listing.SortByDate` | server.js:142-144 | the sort of a one-entry-per-day list is strictly ascending by date and a permutation of its input |
| `Listing.SortKeepsEntries` | server.js:142-144 | sorting keeps exactly the input's entries, days and length |
| `Server.ReasonOrDefault` | server.js:47 | an omitted reason becomes "present"; a given one is kept |
| `Server.Put` | server.js:125-134 | `Map.set` (with `Server.Has` as `map.has`, server.js:133): the key set gains the entry's date, the entry is present, other dates keep their entries, and a new key is appended last |
| `Server.AttendanceStore.PostAttendance` | server.js:45-70 | a missing or empty status (not `Server.Truthy`) gives 400 and changes nothing; on a holiday today the answer is "Holiday — attendance ignored" and attendance is unchanged; otherwise today's record becomes (status, reason or "present") and every other date is unchanged; holidays are never touched; `Server.PostReply.Code` and `Server.PostReply.Message` give each answer's HTTP status and message (400 "Status is required", 200 "Holiday — attendance ignored", 200 "Attendance saved") |
| `Server.AttendanceStore.PostHoliday` | server.js:153-163 | today's holiday becomes "Declared by user", whether or not an attendance record exists; attendance is unchanged; the answer is `Server.HolidayReply` with `Code` 200 and `Message` "Holiday saved" (server.js:162) |
| `Server.AttendanceStore.GetToday` | server.js:93-107 | a holiday today reads as status "Holiday" with its reason or "Holiday"; otherwise today's attendance record; nothing exactly when neither exists |
| `Server.AttendanceStore.FindAttendance` | server.js:119 | every attendance record exactly once, each as stored, in no particular order |
| `Server.AttendanceStore.FindHolidays` | server.js:120 | every holiday record exactly once (no two documents share a day), each as stored |
| `Server.AttendanceStore.MergeRecords` | server.js:122-140 | the Map the two `forEach` loops build: one entry per day of either collection, the attendance entry (`Records.AttendanceEntry`) for a day with an attendance record, otherwise the holiday entry (`Records.HolidayEntry`) |
| `Server.AttendanceStore.AddHolidays` | server.js:132-140 | adding holidays only for days not yet present keeps one entry per day and extends the days by exactly the holiday days |
| `Server.AttendanceStore.GetAttendance` | server.js:81-84 | the attendance records only, one per stored day, each as stored, strictly ascending by date |
| `Server.AttendanceStore.GetAll` | server.js:117-146 | `Server.AttendanceStore.MergeRecords` followed by `Listing.SortByDate`: exactly one entry per day in the union of both collections, strictly ascending; a day with attendance shows that record even if it is a holiday, and a holiday-only day shows "Holiday" with its reason |
| `Server.LastWriteWins` | server.js:59-63 | two writes on the same non-holiday day leave one record holding the second write's values |
| `Server.HolidayBlocksAttendance` | server.js:54-57 | after POST /holiday, a POST /attendance the same day is ignored, attendance is unchanged and today reads as a "Declared by user" holiday |
| `Server.TodayAndMergeDisagree` | server.js:97-140 | on a day with both records, the today-lookup reports a holiday while the merged listing shows the attendance record |
| `Bot.Lower` | bot.js:68 | lower-casing keeps the length and maps each character by `Bot.LowerChar` |
| `Bot.LowerIdempotent` | bot.js:68 | lower-casing a second time changes nothing |
| `Bot.TrimStart` | bot.js:102 | removes exactly the leading white space (`Bot.IsSpace`: the ECMAScript WhiteSpace and LineTerminator characters in `Bot.SpaceChars`) |
| `Bot.TrimEnd` | bot.js:102 | removes exactly the trailing white space (`Bot.IsSpace`, `Bot.SpaceChars`) |
| `Bot.TrimBounds` | bot.js:102 | `Bot.Trim` keeps the slice between its leading and trailing white space |
| `Bot.TrimEnds` | bot.js:102 | what `Bot.Trim` keeps has no white space at either end |
| `Bot.TrimIsSlice` | bot.js:102 | `trim` returns a slice bounded by white space, with no white space left at either end |
| `Bot.TrimKeepsLower` | bot.js:102 | trimming lower-case text keeps it lower-case |
| `Bot.RemoveFirst` | bot.js:102 | `replace("absent", "")` on text that starts with "absent" drops that prefix |
| `Bot.AbsentReason` | bot.js:102 | the reason is the `Bot.Trim`med text after "absent", or "No reason" when that is empty; never empty |
| `Bot.Classify` | bot.js:68-116 | on the lower-cased text: exactly "test", "holiday" or "present" select those commands; any text that starts with "absent" selects Absent with its reason; everything else selects Help (each in both directions) |
| `Bot.ClassifyIgnoresCase` | bot.js:68 | a text and its lower-cased form select the same command |
| `Bot.AbsentReasonShape` | bot.js:101-102 | an absence reason is "No reason", or (ASCII) lower-case with no white space at either end |
| `Bot.TrimmedLowerShape` | bot.js:102 | trimmed lower-case text is lower-case with no white space at either end |
| `Bot.ClassifiedReasonShape` | bot.js:68-102 | the reason of any Absent command has that shape |
| `Bot.ClassifyPresentAnyCase` | bot.js:92 | "PRESENT" and "present" both select Present |
| `Bot.ClassifyBareAbsent` | bot.js:101-102 | a bare "absent" gives the reason "No reason" |
| `Bot.ClassifyAbsentee` | bot.js:101 | "absentee" is an absence, with reason "ee" |
| `Bot.SaveBody` | bot.js:32-37 | `saveAttendance` posts the given status and the reason, or "-" when none is given; `Bot.CommandBody` posts ("Present", "-") for present and ("Absent", reason) for absent (bot.js:94, 104) |
| `Bot.SaveSucceededIffStored` | bot.js:40-42 | with `Bot.IsOk` as `res.ok` (a 2xx code) and `Bot.SaveSucceeded` as `res.ok && data.message === "Attendance saved"`, the bot counts a save as done exactly when the server stored the record; the 200 holiday answer and the 400 answer count as failures |
| `Bot.Execute` | bot.js:76-116 | test and help change nothing and answer their fixed texts (bot.js:77-80, 112-115); holiday declares today, `Bot.IsOk` holds for the 200 answer, and it answers "📅 Marked today as HOLIDAY"; present or absent on a holiday leave attendance unchanged and answer "not saved"; otherwise they store ("Present", "-") or ("Absent", reason) and answer with the matching confirmation; the texts are those of `Bot.ReplyText` (bot.js:77-115) |
| `Bot.StepFor` | bot.js:62-74 | an update is skipped exactly when it has no text (not `Bot.HasText`: no message, or a missing or empty text) or the day is Sunday; otherwise its lower-cased text's command runs for its chat |
| `Bot.ProcessUpdates` | bot.js:61-119 | each update gets its step, no command runs on a Sunday, and after the batch the offset is the last update's id + 1 (unchanged for an empty batch) |
| `Summary.CountStatus` | ai.js:14-15 | a status count never exceeds the number of records |
| `Summary.CountIsDays` | ai.js:14-15 | in a listing with one entry per day, the count is the number of days with that status |
| `Summary.PresentAbsentBounded` | ai.js:13-15 | present + absent ≤ total |
| `Summary.SplitJoin` | ai.js:17-19 | joining lines with "\n" and splitting on "\n" gives the lines back, when no line holds a break |
| `Summary.DetailsOneLinePerRecord` | ai.js:17-19 | `Summary.Details` (`Summary.DetailLine` per record, joined by `Summary.JoinLines`) has one `date: status` line per record, in the records' order, when no date or status holds a line break |
| `Summary.Summarize` | ai.js:9-19 | an empty list gives exactly "No attendance data available yet." and nothing else does; otherwise total is the record count, present and absent are the counts of records with status "Present" and "Absent" (so present + absent ≤ total), and the details are `Summary.Details` of the records: one line per record when no date or status holds a line break |
| `Summary.SummarizeAttendance` | ai.js:7-19 | the summary reads only the Attendance collection, sorted: the listing it uses holds exactly the attendance records, strictly ascending by date, and the details are `Summary.Details` of that listing; the fallback exactly when it is empty, total is its size, and present and absent are the numbers of its days with status "Present" and "Absent", so holidays are never counted |

## Left out

- HTTP framework plumbing is not modelled, because it is framework I/O: routing, CORS, JSON parsing, `/health`, `/status`, `/__test/ai` and `listen`.
- The 500 "Server error" answers are not modelled, because the in-memory maps never fail.
- POST /attendance/summarize and the email it sends are not modelled. mailer.js, mail.js and scheduler.js are not part of this model either: they are mail, cron and chat I/O with no logic.
- The database connection and Mongoose query semantics are replaced by the two maps.
- Mongoose's `_id` and `createdAt`/`updatedAt` are not modelled; neither is any other document field.
- `Server.AttendanceStore.GetToday` returns `{date, status, reason}` rather than the whole stored document.
- The clock is not modelled. `getTodayIST` becomes the parameter `today`.
- `getDayIST` becomes `weekdays[i]`: the weekday read while update `i` is handled. The time-zone conversion itself is not modelled.
- Telegram is not modelled: `getUpdates` fetching, `sendMessage`, and the `setTimeout` re-poll. `Bot.ProcessUpdates` returns the step for each update instead of sending. `Bot.Execute` gives the reply text a step produces, calling the store in place of the two HTTP requests.
- The Gemini call and the prompt text are not modelled, because they are a foreign call. `Summary.Summarize` returns the figures the prompt is built from.
- Request-body fields are modelled only as absent or a string. Other JSON values are not modelled: `null`, numbers, booleans, and the type casting Mongoose would do on them.
- `Bot.Lower`: lower-cases ASCII letters only. JavaScript's `toLowerCase` also maps other Unicode letters. Every word the bot matches is ASCII, so command selection is unaffected. A stored absence reason, though, keeps non-ASCII capitals that the source would lower: in the model "absent Über" stores "Über", where the source stores "über". `Bot.AbsentReasonShape` and `Bot.TrimmedLowerShape` promise ASCII lower-case only.
- Handlers are modelled as atomic. In the source, POST /attendance awaits (server.js:54-63) between the holiday lookup and the upsert, so concurrent requests can interleave: for example, a holiday can be declared between the check and the write. Such interleavings are not modelled.
- `Dates.Before`: compares character codes, where the source sorts with `localeCompare`. The two agree on fixed-width `YYYY-MM-DD` keys, which are all digits with hyphens in the same places.
- The schema's Present/Absent enum is not treated as enforced. The upsert passes no validator option, so status is any string.
