/**
 * The chat bot of bot.js: how a message text becomes a command, how a batch
 * of updates advances the polling offset, and what the bot answers after it
 * has called the server. Network calls to the chat service are not modelled;
 * the two server calls are made directly on an AttendanceStore.
 */
module Bot {
  import opened Wrappers
  import opened Dates
  import opened Records
  import opened Server

  /* ---------------- text helpers ---------------- */

  /** Lower-case one character (ASCII letters only). */
  function LowerChar(c: char): char {
    if 'A' <= c <= 'Z' then (c as int - 'A' as int + 'a' as int) as char else c
  }

  /** `String.prototype.toLowerCase` on ASCII letters. */
  function Lower(s: string): (r: string)
    ensures |r| == |s|
    ensures forall i | 0 <= i < |s| :: r[i] == LowerChar(s[i])
  {
    if s == [] then [] else [LowerChar(s[0])] + Lower(s[1..])
  }

  /** Lower-casing twice changes nothing more. */
  lemma LowerIdempotent(s: string)
    ensures Lower(Lower(s)) == Lower(s)
  {
  }

  /** A lower-case string stays lower-case in every slice. */
  lemma {:induction false} LowerSlice(s: string, i: nat, j: nat)
    requires i <= j <= |s|
    requires Lower(s) == s
    ensures Lower(s[i..j]) == s[i..j]
  {
    forall k | 0 <= k < j - i ensures Lower(s[i..j])[k] == s[i..j][k] {
      assert s[i + k] == Lower(s)[i + k];
    }
  }

  /** The characters `String.prototype.trim` removes: white space and line terminators. */
  const SpaceChars: set<char> := {
    '\t', '\n', '\U{000B}', '\U{000C}', '\r', ' ', '\U{00A0}', '\U{1680}',
    '\U{2000}', '\U{2001}', '\U{2002}', '\U{2003}', '\U{2004}', '\U{2005}',
    '\U{2006}', '\U{2007}', '\U{2008}', '\U{2009}', '\U{200A}',
    '\U{2028}', '\U{2029}', '\U{202F}', '\U{205F}', '\U{3000}', '\U{FEFF}'
  }

  predicate IsSpace(c: char) {
    c in SpaceChars
  }

  /** Drop the leading white space. */
  function TrimStart(s: string): (r: string)
    ensures |r| <= |s| && r == s[|s| - |r|..]
    ensures forall k | 0 <= k < |s| - |r| :: IsSpace(s[k])
    ensures r != [] ==> !IsSpace(r[0])
  {
    if s != [] && IsSpace(s[0]) then TrimStart(s[1..]) else s
  }

  /** Drop the trailing white space. */
  function TrimEnd(s: string): (r: string)
    ensures |r| <= |s| && r == s[..|r|]
    ensures forall k | |r| <= k < |s| :: IsSpace(s[k])
    ensures r != [] ==> !IsSpace(r[|r| - 1])
  {
    if s != [] && IsSpace(s[|s| - 1]) then TrimEnd(s[..|s| - 1]) else s
  }

  /** `String.prototype.trim`. */
  function Trim(s: string): string {
    TrimEnd(TrimStart(s))
  }

  /** The white space TrimEnd drops from a suffix `t` of `s` is white space of `s`. */
  lemma {:induction false} TrimEndDropsSpaces(s: string, i: nat, t: string)
    requires i <= |s| && t == s[i..]
    ensures forall k | i + |TrimEnd(t)| <= k < |s| :: IsSpace(s[k])
  {
    var n := |TrimEnd(t)|;
    forall k | i + n <= k < |s| ensures IsSpace(s[k]) {
      assert s[k] == t[k - i];
    }
  }

  /** The bounds of the slice Trim keeps: white space before `i` and from `j` on. */
  lemma {:induction false} TrimBounds(s: string) returns (i: nat, j: nat)
    ensures i <= j <= |s| && Trim(s) == s[i..j]
    ensures forall k | 0 <= k < i :: IsSpace(s[k])
    ensures forall k | j <= k < |s| :: IsSpace(s[k])
  {
    var t := TrimStart(s);
    i := |s| - |t|;
    assert t == s[i..];
    var r := TrimEnd(t);
    j := i + |r|;
    assert r == s[i..j] by {
      assert r == t[..|r|];
    }
    TrimEndDropsSpaces(s, i, t);
  }

  /** What Trim keeps has no white space at either end. */
  lemma {:induction false} TrimEnds(s: string)
    ensures var r := Trim(s); r != [] ==> !IsSpace(r[0]) && !IsSpace(r[|r| - 1])
  {
    var t := TrimStart(s);
    var r := TrimEnd(t);
    if r != [] {
      assert r[0] == t[0];
    }
  }

  /** Trim yields a slice of its input bounded by white space, with none left at either end. */
  lemma {:induction false} TrimIsSlice(s: string)
    ensures var r := Trim(s);
      && (exists i, j :: 0 <= i <= j <= |s| && r == s[i..j]
                         && (forall k | 0 <= k < i :: IsSpace(s[k]))
                         && (forall k | j <= k < |s| :: IsSpace(s[k])))
      && (r != [] ==> !IsSpace(r[0]) && !IsSpace(r[|r| - 1]))
  {
    var i, j := TrimBounds(s);
    TrimEnds(s);
  }

  /** Trimming a lower-case string leaves it lower-case. */
  lemma {:induction false} TrimKeepsLower(s: string)
    requires Lower(s) == s
    ensures Lower(Trim(s)) == Trim(s)
  {
    var i, j := TrimBounds(s);
    LowerSlice(s, i, j);
  }

  /** A text with no capital letter is its own lower-case form. */
  lemma LowerWithoutCapitals(s: string)
    requires forall k | 0 <= k < |s| :: !('A' <= s[k] <= 'Z')
    ensures Lower(s) == s
  {
  }

  /** `s.replace(pattern, "")`: the first occurrence of `pattern` is removed. */
  function RemoveFirst(s: string, pattern: string): (r: string)
    ensures pattern <= s ==> r == s[|pattern|..]
    ensures pattern == [] ==> r == s
    decreases |s|
  {
    if pattern <= s then s[|pattern|..]
    else if s == [] then s
    else [s[0]] + RemoveFirst(s[1..], pattern)
  }

  /* ---------------- commands ---------------- */

  datatype Command =
    | Test
    | MarkHoliday
    | MarkPresent
    | MarkAbsent(reason: string)
    | Help

  const AbsentPrefix: string := "absent"
  const NoReason: string := "No reason"

  /** `text.replace("absent", "").trim() || "No reason"` on the lower-cased text. */
  function AbsentReason(text: string): (r: string)
    requires AbsentPrefix <= text
    ensures r != ""
    ensures Trim(text[|AbsentPrefix|..]) == "" ==> r == NoReason
    ensures Trim(text[|AbsentPrefix|..]) != "" ==> r == Trim(text[|AbsentPrefix|..])
  {
    var rest := Trim(RemoveFirst(text, AbsentPrefix));
    if rest == "" then NoReason else rest
  }

  /**
   * The command a message text selects, tested on the lower-cased text:
   * the exact words "test", "holiday" and "present", then any text
   * beginning with "absent", and otherwise the help reply.
   */
  function Classify(text: string): (c: Command)
    ensures c == Test <==> Lower(text) == "test"
    ensures c == MarkHoliday <==> Lower(text) == "holiday"
    ensures c == MarkPresent <==> Lower(text) == "present"
    ensures c.MarkAbsent? <==> AbsentPrefix <= Lower(text)
    ensures c == Help <==>
      Lower(text) !in {"test", "holiday", "present"} && !(AbsentPrefix <= Lower(text))
    ensures c.MarkAbsent? ==> c.reason == AbsentReason(Lower(text))
  {
    var t := Lower(text);
    if t == "test" then Test
    else if t == "holiday" then MarkHoliday
    else if t == "present" then MarkPresent
    else if AbsentPrefix <= t then MarkAbsent(AbsentReason(t))
    else Help
  }

  /** Upper- and lower-case spellings of a text select the same command. */
  lemma {:induction false} ClassifyIgnoresCase(text: string)
    ensures Classify(Lower(text)) == Classify(text)
  {
    LowerIdempotent(text);
  }

  /**
   * An absence reason taken from a lower-cased text is either the fallback
   * "No reason" or lower-case text with no white space at either end.
   */
  lemma {:induction false} AbsentReasonShape(t: string)
    requires AbsentPrefix <= t && Lower(t) == t
    ensures var r := AbsentReason(t);
      r == NoReason || (Lower(r) == r && !IsSpace(r[0]) && !IsSpace(r[|r| - 1]))
  {
    LowerSlice(t, |AbsentPrefix|, |t|);
    TrimmedLowerShape(t[|AbsentPrefix|..]);
  }

  /** Trimmed lower-case text is lower-case, with no white space at either end. */
  lemma {:induction false} TrimmedLowerShape(s: string)
    requires Lower(s) == s
    ensures var r := Trim(s);
      r != [] ==> Lower(r) == r && !IsSpace(r[0]) && !IsSpace(r[|r| - 1])
  {
    TrimKeepsLower(s);
    TrimEnds(s);
  }

  /** The reason a MarkAbsent command carries has that shape. */
  lemma {:induction false} ClassifiedReasonShape(text: string)
    requires Classify(text).MarkAbsent?
    ensures var r := Classify(text).reason;
      r == NoReason || (Lower(r) == r && !IsSpace(r[0]) && !IsSpace(r[|r| - 1]))
  {
    LowerIdempotent(text);
    AbsentReasonShape(Lower(text));
  }

  /** "PRESENT" and "present" select the same command. */
  lemma ClassifyPresentAnyCase()
    ensures Classify("PRESENT") == Classify("present") == MarkPresent
  {
    assert Lower("PRESENT") == "present";
    LowerWithoutCapitals("present");
  }

  /** A bare "absent" falls back to "No reason". */
  lemma ClassifyBareAbsent()
    ensures Classify("absent") == MarkAbsent(NoReason)
  {
    LowerWithoutCapitals("absent");
    assert "absent"[|AbsentPrefix|..] == "";
  }

  /** Any word that begins with "absent" counts as an absence. */
  lemma ClassifyAbsentee()
    ensures Classify("absentee") == MarkAbsent("ee")
  {
    LowerWithoutCapitals("absentee");
    var rest := "absentee"[|AbsentPrefix|..];
    assert rest == "ee";
    assert TrimStart(rest) == rest by { assert !IsSpace(rest[0]); }
    assert TrimEnd(rest) == rest by { assert !IsSpace(rest[1]); }
    assert AbsentReason("absentee") == "ee";
  }

  /* ---------------- calling the server ---------------- */

  /** The body `saveAttendance(status, reason = "-")` posts. */
  function SaveBody(status: string, reason: Option<string>): (b: AttendanceBody)
    ensures b.status == Some(status)
    ensures b.reason == Some(reason.GetOr("-"))
  {
    AttendanceBody(Some(status), Some(reason.GetOr("-")))
  }

  /** The body each marking command posts: "Present" with "-", or "Absent" with its reason. */
  function CommandBody(c: Command): AttendanceBody
    requires c == MarkPresent || c.MarkAbsent?
  {
    if c == MarkPresent then SaveBody("Present", None) else SaveBody("Absent", Some(c.reason))
  }

  /** `saveAttendance` succeeds when the answer is 2xx and says "Attendance saved". */
  predicate SaveSucceeded(ok: bool, message: string) {
    ok && message == SavedMessage
  }

  /** `res.ok`: a 2xx status. */
  predicate IsOk(code: int) {
    200 <= code < 300
  }

  /**
   * The bot counts a POST /attendance as saved exactly when the server
   * stored the record; the 200 holiday answer counts as a failure.
   */
  lemma SaveSucceededIffStored(reply: PostReply)
    ensures SaveSucceeded(IsOk(reply.Code()), reply.Message()) <==> reply.Saved?
  {
  }

  /** The text the bot sends back for a command, given whether its server call succeeded. */
  function ReplyText(c: Command, succeeded: bool): string {
    match c
    case Test => "\U{2705} Bot is working\n\U{1F310} Backend: OK\n\U{1F5C4}\U{FE0F} MongoDB: Connected"
    case MarkHoliday =>
      if succeeded then "\U{1F4C5} Marked today as HOLIDAY" else "\U{274C} Holiday not saved"
    case MarkPresent =>
      if succeeded then "\U{2705} Marked PRESENT" else "\U{274C} PRESENT not saved"
    case MarkAbsent(reason) =>
      if succeeded then "\U{274C} Marked ABSENT\nReason: " + reason else "\U{274C} ABSENT not saved"
    case Help => "Use:\npresent\nabsent <reason>\nholiday"
  }

  /**
   * Run one command against the store (bot.js branch bodies) and return the
   * text the bot sends back.
   */
  method Execute(store: AttendanceStore, today: Date, c: Command) returns (text: string)
    modifies store
    ensures c == Test || c == Help ==>
      store.attendance == old(store.attendance) && store.holidays == old(store.holidays)
    ensures c == Test ==>
      text == "\U{2705} Bot is working\n\U{1F310} Backend: OK\n\U{1F5C4}\U{FE0F} MongoDB: Connected"
    ensures c == Help ==> text == "Use:\npresent\nabsent <reason>\nholiday"
    ensures c == MarkHoliday ==>
      && store.attendance == old(store.attendance)
      && store.holidays == old(store.holidays)[today := HolidayRecord(Some(DeclaredReason))]
      && text == "\U{1F4C5} Marked today as HOLIDAY"
    ensures c == MarkPresent || c.MarkAbsent? ==> store.holidays == old(store.holidays)
    ensures c == MarkPresent && today in old(store.holidays) ==>
      store.attendance == old(store.attendance) && text == "\U{274C} PRESENT not saved"
    ensures c == MarkPresent && today !in old(store.holidays) ==>
      && store.attendance == old(store.attendance)[today := AttendanceRecord("Present", "-")]
      && text == "\U{2705} Marked PRESENT"
    ensures c.MarkAbsent? && today in old(store.holidays) ==>
      store.attendance == old(store.attendance) && text == "\U{274C} ABSENT not saved"
    ensures c.MarkAbsent? && today !in old(store.holidays) ==>
      && store.attendance == old(store.attendance)[today := AttendanceRecord("Absent", c.reason)]
      && text == "\U{274C} Marked ABSENT\nReason: " + c.reason
  {
    match c {
      case Test =>
        text := ReplyText(c, true);
      case Help =>
        text := ReplyText(c, true);
      case MarkHoliday =>
        var reply := store.PostHoliday(today);
        text := ReplyText(c, IsOk(reply.Code()));
      case MarkPresent =>
        var reply := store.PostAttendance(today, CommandBody(c));
        SaveSucceededIffStored(reply);
        text := ReplyText(c, SaveSucceeded(IsOk(reply.Code()), reply.Message()));
      case MarkAbsent(_) =>
        var reply := store.PostAttendance(today, CommandBody(c));
        SaveSucceededIffStored(reply);
        text := ReplyText(c, SaveSucceeded(IsOk(reply.Code()), reply.Message()));
    }
  }

  /* ---------------- the polling batch ---------------- */

  datatype Message = Message(chatId: int, text: Option<string>)
  datatype Update = Update(updateId: int, message: Option<Message>)

  /** What the loop does with one update: skip it, or run a command for a chat. */
  datatype Step = Skipped | Dispatched(chatId: int, command: Command)

  /** Day number of Sunday, as `getDay()` counts. */
  const Sunday: int := 0

  /** `update.message && update.message.text`: a message with a non-empty text. */
  predicate HasText(u: Update) {
    u.message.Some? && u.message.value.text.Some? && u.message.value.text.value != ""
  }

  /** The step for one update, read on a given weekday. */
  function StepFor(u: Update, weekday: int): (s: Step)
    ensures s.Skipped? <==> !HasText(u) || weekday == Sunday
    ensures s.Dispatched? ==>
      s.chatId == u.message.value.chatId && s.command == Classify(u.message.value.text.value)
  {
    if !HasText(u) || weekday == Sunday then Skipped
    else Dispatched(u.message.value.chatId, Classify(u.message.value.text.value))
  }

  /**
   * One pass of the `for` loop in `getUpdates`: `weekdays[i]` is the
   * weekday the clock gives while update `i` is handled. Every update, run
   * or skipped, moves the offset past itself.
   */
  method ProcessUpdates(offset: int, updates: seq<Update>, weekdays: seq<int>)
    returns (next: int, steps: seq<Step>)
    requires |weekdays| == |updates|
    ensures |steps| == |updates|
    ensures forall i | 0 <= i < |updates| :: steps[i] == StepFor(updates[i], weekdays[i])
    ensures forall i | 0 <= i < |updates| && weekdays[i] == Sunday :: steps[i] == Skipped
    ensures updates == [] ==> next == offset
    ensures updates != [] ==> next == updates[|updates| - 1].updateId + 1
  {
    next := offset;
    steps := [];
    for i := 0 to |updates|
      invariant |steps| == i
      invariant forall k | 0 <= k < i :: steps[k] == StepFor(updates[k], weekdays[k])
      invariant i == 0 ==> next == offset
      invariant i > 0 ==> next == updates[i - 1].updateId + 1
    {
      var u := updates[i];
      if !HasText(u) {
        next := u.updateId + 1;
        steps := steps + [Skipped];
        continue;
      }
      var msg := u.message.value;
      if weekdays[i] == Sunday {
        next := u.updateId + 1;
        steps := steps + [Skipped];
        continue;
      }
      steps := steps + [Dispatched(msg.chatId, Classify(msg.text.value))];
      next := u.updateId + 1;
    }
  }
}
