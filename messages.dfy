/** The rich Slack replies of the bot: status texts, block messages, the
    worked-time and history reports, the alias list and the user status.
    Everything the source reads from the database or computes in helpers
    that are not part of this model (worked time, working days, the lower
    limit of a range, the sum of two `Hh Mm` texts, the user's settings)
    comes in as an input. */
module Messages {
  import opened Wrappers
  import opened Strings
  import opened Json
  import opened BlockBuilder
  import opened Calendar
  import opened Time
  import opened Database
  import SlackMessages
  import Clocking

  const StatusSuccessPrefix := "*Status*: _SUCCESS_ :white_check_mark:\n*Message*: "
  const StatusErrorPrefix := "*Status*: _ERROR_ :x:\n*Message*: "

  /** `build_success_message(message)`. */
  function BuildSuccessMessage(message: string): (r: string)
    ensures StripAffixes(r, StatusSuccessPrefix, "") == Some(message)
  {
    StripWrapped(StatusSuccessPrefix, message, "");
    assert StatusSuccessPrefix + message + "" == StatusSuccessPrefix + message;
    StatusSuccessPrefix + message
  }

  /** `build_error_message(message)`. */
  function BuildErrorMessage(message: string): (r: string)
    ensures StripAffixes(r, StatusErrorPrefix, "") == Some(message)
  {
    StripWrapped(StatusErrorPrefix, message, "");
    assert StatusErrorPrefix + message + "" == StatusErrorPrefix + message;
    StatusErrorPrefix + message
  }

  const AddUserSuccess := BuildSuccessMessage("The user has been created successfully")
  const UserAlreadyRegistered := BuildErrorMessage("Your user is already registered!")
  const AddUserError := BuildErrorMessage("Could not create the user. Please contact with the app administrator")
  const DeleteUserSuccess := BuildSuccessMessage("The user has been deleted successfully")
  const UserNotRegistered := BuildErrorMessage("Your user is not registered!. You can do it typing `/sign_up` command")
  const DeleteUserError := BuildErrorMessage("Could not delete the user. Please contact with the app administrator")

  /** The sign-up and removal replies: the two successes are success
      statuses, the four failures error statuses, and each carries its own
      text. */
  lemma UserReplies()
    ensures AddUserSuccess != UserAlreadyRegistered && AddUserSuccess != AddUserError
    ensures DeleteUserSuccess != UserNotRegistered && DeleteUserSuccess != DeleteUserError
    ensures StripAffixes(UserNotRegistered, StatusErrorPrefix, "") == Some("Your user is not registered!. You can do it typing `/sign_up` command")
  {
    StatusSuccessIsNotError("The user has been created successfully", "Your user is already registered!");
    StatusSuccessIsNotError("The user has been created successfully", "Could not create the user. Please contact with the app administrator");
    StatusSuccessIsNotError("The user has been deleted successfully", "Your user is not registered!. You can do it typing `/sign_up` command");
    StatusSuccessIsNotError("The user has been deleted successfully", "Could not delete the user. Please contact with the app administrator");
  }

  /** A success status never reads as an error status. */
  lemma StatusSuccessIsNotError(a: string, b: string)
    ensures BuildSuccessMessage(a) != BuildErrorMessage(b)
  {
    assert BuildSuccessMessage(a)[11] == 'S';
    assert BuildErrorMessage(b)[11] == 'E';
  }

  /** The framed title that opens a block message. */
  function BlockHeader(title: string, success: bool): string
  {
    if success then SlackMessages.BuildSucessMessage(title) else SlackMessages.BuildErrorMessage(title)
  }

  /** The text of a block message: a framed title, the outcome word and the
      description, one per line. */
  function BlockText(title: string, description: string, success: bool): string
  {
    var status := if success then "SUCCESS" else "FAILED";
    BlockHeader(title, success) + ("\n *Status*: " + status + "\n *Description*: " + description + "\n")
  }

  /** A successful block text never equals a failed one, and both lead with
      the title framed as the plain-text replies frame it. */
  lemma BlockTextOutcome(t1: string, d1: string, t2: string, d2: string)
    ensures BlockText(t1, d1, true) != BlockText(t2, d2, false)
    ensures StartsWith(BlockText(t1, d1, true), SlackMessages.BuildSucessMessage(t1))
    ensures StartsWith(BlockText(t2, d2, false), SlackMessages.BuildErrorMessage(t2))
  {
    var h, g := BlockHeader(t1, true), BlockHeader(t2, false);
    var s, e := BlockText(t1, d1, true), BlockText(t2, d2, false);
    SlackMessages.SuccessIsNotError(t1, t2);
    PrefixOfAppend(h, s[|h|..]);
    PrefixOfAppend(g, e[|g|..]);
    assert s[1] == h[1];
    assert e[1] == g[1];
  }

  /** `build_block_message(title, description, success, image_url)`: a
      divider, the text with the optional image, a divider. */
  method BuildBlockMessage(title: string, description: string, success: bool, imageUrl: Option<string>)
    returns (block: seq<Json>)
    ensures |block| == 3
    ensures block[0] == WriteSlackDivider() && block[2] == WriteSlackDivider()
    ensures block[1] == MarkdownBlock(BlockText(title, description, success), imageUrl, DefaultAltText)
  {
    var message := BlockText(title, description, success);
    block := [];
    block := block + [WriteSlackDivider()];
    var markdown := WriteSlackMarkdown(message, imageUrl, DefaultAltText);
    block := block + [markdown];
    block := block + [WriteSlackDivider()];
    assert block == [WriteSlackDivider(), markdown, WriteSlackDivider()];
  }

  const ImageBaseUrl := "https://raw.githubusercontent.com/jmv74211/tools/master/images/repository/clockzy/"
  const ErrorImage := ImageBaseUrl + "x.png"

  /** The part of a user's settings this module reads. */
  datatype Config = Config(intratimeIntegration: bool)

  /** The picture shown for a clocked action: the intratime variant when the
      user has the integration on, the clockzy one otherwise, including
      when the user has no settings. */
  function ClockingImage(config: Option<Config>, clockAction: string): (url: string)
    ensures StartsWith(url, ImageBaseUrl + clockAction)
    ensures config.Some? && config.value.intratimeIntegration <==> url == ImageBaseUrl + clockAction + "_intratime.png"
  {
    var intratimeIntegration := if config.None? then false else config.value.intratimeIntegration;
    var stem := ImageBaseUrl + clockAction;
    PrefixOfAppend(stem, "_intratime.png");
    PrefixOfAppend(stem, "_clockzy.png");
    assert |stem + "_clockzy.png"| != |stem + "_intratime.png"|;
    if intratimeIntegration then stem + "_intratime.png" else stem + "_clockzy.png"
  }

  lemma PrefixOfAppend(a: string, b: string)
    ensures StartsWith(a + b, a)
  {
    assert (a + b)[..|a|] == a;
  }

  const ClockingRegisteredLine := ":white_check_mark: Your clocking has been registered successfully :white_check_mark:\n"

  function ClockingText(clockAction: string, clockDateTime: string, userName: string): string
  {
    ClockingRegisteredLine + "*Username*: " + userName + "\n*Action*: " + Upper(clockAction) + "\n*Datetime*: " + clockDateTime
  }

  /** `build_successful_clocking_message(user_id, clock_action,
      clock_date_time, user_name)`, with the user's settings as input: the
      confirmation always carries the action's picture. */
  method BuildSuccessfulClockingMessage(config: Option<Config>, clockAction: string, clockDateTime: string, userName: string)
    returns (block: seq<Json>)
    ensures |block| == 3
    ensures block[0] == WriteSlackDivider() && block[2] == WriteSlackDivider()
    ensures block[1] == MarkdownBlock(ClockingText(clockAction, clockDateTime, userName), Some(ClockingImage(config, clockAction)), DefaultAltText)
    ensures HasImage(Some(ClockingImage(config, clockAction)))
  {
    var imageUrl := ClockingImage(config, clockAction);
    var message := ClockingText(clockAction, clockDateTime, userName);
    block := [];
    block := block + [WriteSlackDivider()];
    var markdown := WriteSlackMarkdown(message, Some(imageUrl), DefaultAltText);
    block := block + [markdown];
    block := block + [WriteSlackDivider()];
  }

  /** The values the time utilities give to the three report ranges; they are
      defined outside this model, so they come in as inputs. */
  datatype RangeNames = RangeNames(today: string, week: string, month: string)

  /** How `build_worked_time_message` words a range. */
  function RangeText(timeRange: string, names: RangeNames): string
  {
    if timeRange == names.week then "this week"
    else if timeRange == names.month then "this month"
    else timeRange
  }

  const WorkedTimePrefix := ":timer_clock: Your working time "

  /** `build_worked_time_message(time_range, worked_time)`: the worked time
      can be read back from between the range wording and the closing icon. */
  function BuildWorkedTimeMessage(timeRange: string, workedTime: string, names: RangeNames): (r: string)
    ensures StripAffixes(r, WorkedTimePrefix + RangeText(timeRange, names) + " is *", "* :timer_clock:") == Some(workedTime)
  {
    var lead := WorkedTimePrefix + RangeText(timeRange, names) + " is *";
    StripWrapped(lead, workedTime, "* :timer_clock:");
    lead + workedTime + "* :timer_clock:"
  }

  /** The week and the month are worded, checking the week first; any other
      range, today included, is written as given. */
  lemma RangeWording(timeRange: string, names: RangeNames)
    ensures timeRange == names.week ==> RangeText(timeRange, names) == "this week"
    ensures timeRange != names.week && timeRange == names.month ==> RangeText(timeRange, names) == "this month"
    ensures timeRange != names.week && timeRange != names.month ==> RangeText(timeRange, names) == timeRange
  {
  }

  /** What `build_user_status_message` reports about a user. */
  datatype Availability = NoClockData | Available | Absent | NotAvailable

  /** The user's availability from the last clocked action, compared in
      lower case: `in` or `return` is available, `pause` absent, anything
      else not available. */
  function AvailabilityOf(lastAction: Option<string>): Availability
  {
    match lastAction
    case None => NoClockData
    case Some(a) =>
      if Lower(a) == Clocking.InAction || Lower(a) == Clocking.ReturnAction then Available
      else if Lower(a) == Clocking.PauseAction then Absent
      else NotAvailable
  }

  /** The icon that opens and closes each report. */
  function Icon(a: Availability): string
  {
    match a
    case NoClockData => ":warning:"
    case Available => ":large_green_circle:"
    case Absent => ":large_yellow_circle:"
    case NotAvailable => ":red_circle:"
  }

  function Report(a: Availability): string
  {
    match a
    case NoClockData => "does not have any clock data"
    case Available => "is available"
    case Absent => "is absent, but will return later"
    case NotAvailable => "is not available"
  }

  /** The frame of each report; the user name goes between the two halves. */
  function StatusFrame(a: Availability): (string, string)
  {
    (Icon(a) + " The user `", "` " + Report(a) + " " + Icon(a))
  }

  /** `build_user_status_message(user_id, user_name)`, with the action of
      the user's last clock (None when there is none) as input. */
  function BuildUserStatusMessage(lastAction: Option<string>, userName: string): (r: string)
    ensures var f := StatusFrame(AvailabilityOf(lastAction));
      StripAffixes(r, f.0, f.1) == Some(userName)
  {
    var f := StatusFrame(AvailabilityOf(lastAction));
    StripWrapped(f.0, userName, f.1);
    f.0 + userName + f.1
  }

  /** Two status messages are equal only when they report the same
      availability of the same name. */
  lemma UserStatusInjective(a1: Option<string>, n1: string, a2: Option<string>, n2: string)
    ensures BuildUserStatusMessage(a1, n1) == BuildUserStatusMessage(a2, n2) <==>
      AvailabilityOf(a1) == AvailabilityOf(a2) && n1 == n2
  {
    var v1, v2 := AvailabilityOf(a1), AvailabilityOf(a2);
    var m1, m2 := BuildUserStatusMessage(a1, n1), BuildUserStatusMessage(a2, n2);
    if m1 == m2 {
      assert StatusMark(m1) == StatusMark(m2);
      StatusMarkOf(v1, n1);
      StatusMarkOf(v2, n2);
      FrameMarksDistinct(v1, v2);
    }
  }

  /** The characters that tell the four frames apart. */
  function StatusMark(m: string): (char, char)
  {
    if |m| > 7 then (m[1], m[7]) else (' ', ' ')
  }

  lemma StatusMarkOf(v: Availability, n: string)
    ensures |Icon(v)| > 7
    ensures StatusMark(StatusFrame(v).0 + n + StatusFrame(v).1) == (Icon(v)[1], Icon(v)[7])
  {
    var m := StatusFrame(v).0 + n + StatusFrame(v).1;
    assert m[1] == Icon(v)[1] && m[7] == Icon(v)[7];
  }

  /** No two icons share their marking characters. */
  lemma FrameMarksDistinct(v1: Availability, v2: Availability)
    requires (Icon(v1)[1], Icon(v1)[7]) == (Icon(v2)[1], Icon(v2)[7])
    ensures v1 == v2
  {
  }

  /** The stored case of the last action does not matter. */
  lemma AvailabilityIgnoresCase(a: string)
    ensures AvailabilityOf(Some(a)) == AvailabilityOf(Some(Lower(a)))
  {
    LowerIdempotent(a);
  }

  /** Read against the clocking rules: a user is reported available exactly
      when `out` may be clocked next, and absent exactly when `return` may. */
  lemma AvailabilityAgreesWithClocking(a: string)
    requires Lower(a) in Clocking.WhiteList
    ensures AvailabilityOf(Some(a)) == Available <==> Clocking.UserCanClockThisAction(Some(a), Clocking.OutAction).0
    ensures AvailabilityOf(Some(a)) == Absent <==> Clocking.UserCanClockThisAction(Some(a), Clocking.ReturnAction).0
  {
    var l := Lower(a);
    assert l == Clocking.InAction || l == Clocking.PauseAction || l == Clocking.ReturnAction || l == Clocking.OutAction;
    if l == Clocking.InAction || l == Clocking.ReturnAction {
      Clocking.AfterInOrReturn(a, Clocking.OutAction);
      Clocking.AfterInOrReturn(a, Clocking.ReturnAction);
    } else if l == Clocking.PauseAction {
      Clocking.AfterPause(a, Clocking.OutAction);
      Clocking.AfterPause(a, Clocking.ReturnAction);
    } else {
      Clocking.AfterOut(a, Clocking.OutAction);
      Clocking.AfterOut(a, Clocking.ReturnAction);
    }
  }

  /** Where a history report starts: midnight today for the `today` range,
      the Monday of this week for the `week` range, the first of this month
      for any other. It is always a midnight on or before `now`. */
  function FromTime(timeRange: string, names: RangeNames, now: DateTime): (r: string)
    requires ValidDateTime(now)
    ensures ParseDateTime(r).Some?
    ensures var f := ParseDateTime(r).value;
      f.hour == 0 && f.minute == 0 && f.second == 0 && ToOrdinal(f.date) <= ToOrdinal(now.date)
    ensures timeRange == names.today ==> ParseDateTime(r).value.date == now.date
  {
    if timeRange == names.today then GetCurrentDate(now) + " 00:00:00"
    else if timeRange == names.week then GetFirstWeekDay(now)
    else GetFirstMonthDay(now)
  }

  const Rule := "---------------------------"

  /** The title and date span that head both history reports. */
  function HistoryHeader(timeRange: string, fromTime: string, nowText: string): string
  {
    Rule + " *" + Upper(timeRange) + " HISTORY* " + Rule
    + "\n\n:calendar: From _*" + fromTime + "*_ to _*" + nowText + "*_ :calendar:\n"
  }

  function TotalLine(total: string): string
  {
    ":timer_clock: Total worked: *" + total + "* :timer_clock:\n"
  }

  /** The date part of a working day, `worked_day.split(' ')[0]`. */
  function DayDate(day: string): string
  {
    Split(day, ' ')[0]
  }

  /** The last second of a working day. */
  function DayEnd(day: string): string
  {
    DayDate(day) + " 23:59:59"
  }

  /** `reversed(working_days)`, as the sequence it yields. */
  function Reversed(days: seq<string>): (r: seq<string>)
    ensures |r| == |days|
  {
    if |days| == 0 then [] else [days[|days| - 1]] + Reversed(days[..|days| - 1])
  }

  /** The reports visit the newest day first: place `k` of the visiting
      order holds the day `k` places before the last one. */
  lemma {:induction false} ReversedIndex(days: seq<string>, k: int)
    requires 0 <= k < |days|
    ensures Reversed(days)[k] == days[|days| - 1 - k]
    decreases |days|
  {
    if k > 0 {
      ReversedIndex(days[..|days| - 1], k - 1);
    }
  }

  function WorkedLine(day: string, worked: string): string
  {
    "*• " + day + "*: " + worked + "\n"
  }

  /** One line per day in the visiting `order`, each with the worked time
      the calculator gives for that day's span. */
  function WorkedLines(order: seq<string>, workedTime: (string, string) -> string): string
  {
    if |order| == 0 then ""
    else
      var day := order[|order| - 1];
      WorkedLines(order[..|order| - 1], workedTime) + WorkedLine(day, workedTime(day, DayEnd(day)))
  }

  /** The running sum of the days' worked times, from `0h 0m`. */
  function TotalWorked(order: seq<string>, workedTime: (string, string) -> string, sumHhMm: (string, string) -> string): string
  {
    if |order| == 0 then "0h 0m"
    else
      var day := order[|order| - 1];
      sumHhMm(TotalWorked(order[..|order| - 1], workedTime, sumHhMm), workedTime(day, DayEnd(day)))
  }

  /** The lines of a longer order start with the lines of its first day. */
  lemma {:induction false} WorkedLinesCons(day: string, order: seq<string>, workedTime: (string, string) -> string)
    ensures WorkedLines([day] + order, workedTime) == WorkedLine(day, workedTime(day, DayEnd(day))) + WorkedLines(order, workedTime)
    decreases |order|
  {
    if |order| > 0 {
      var n := |order|;
      assert ([day] + order)[..n] == [day] + order[..n - 1];
      WorkedLinesCons(day, order[..n - 1], workedTime);
      AppendAssoc(WorkedLine(day, workedTime(day, DayEnd(day))), WorkedLines(order[..n - 1], workedTime),
        WorkedLine(order[n - 1], workedTime(order[n - 1], DayEnd(order[n - 1]))));
    } else {
      assert [day] + order == [day];
    }
  }

  /** The time history lists the latest working day first, followed by the
      history of the days before it. */
  lemma HistoryNewestFirst(days: seq<string>, workedTime: (string, string) -> string)
    requires |days| > 0
    ensures var last := days[|days| - 1];
      WorkedLines(Reversed(days), workedTime)
      == WorkedLine(last, workedTime(last, DayEnd(last))) + WorkedLines(Reversed(days[..|days| - 1]), workedTime)
  {
    WorkedLinesCons(days[|days| - 1], Reversed(days[..|days| - 1]), workedTime);
  }

  /** The loop of `build_time_history_message`: one line per day of
      `order` and the running total of the worked times. */
  method WorkedTimeLines(order: seq<string>, workedTime: (string, string) -> string, sumHhMm: (string, string) -> string)
    returns (output: string, total: string)
    ensures output == WorkedLines(order, workedTime)
    ensures total == TotalWorked(order, workedTime, sumHhMm)
  {
    output := "";
    total := "0h 0m";
    var i := 0;
    while i < |order|
      invariant 0 <= i <= |order|
      invariant output == WorkedLines(order[..i], workedTime)
      invariant total == TotalWorked(order[..i], workedTime, sumHhMm)
    {
      var day := order[i];
      var worked := workedTime(day, DayEnd(day));
      assert order[..i + 1][..i] == order[..i];
      output := output + WorkedLine(day, worked);
      total := sumHhMm(total, worked);
      i := i + 1;
    }
    assert order[..i] == order;
  }

  /** `build_time_history_message(user_id, time_range)`, with the current
      date-time, the working days of the range, the worked-time calculator
      for the user and the `Hh Mm` adder as inputs. */
  method BuildTimeHistoryMessage(timeRange: string, names: RangeNames, now: DateTime, workingDays: seq<string>,
                                 workedTime: (string, string) -> string, sumHhMm: (string, string) -> string)
    returns (blocks: seq<Json>)
    requires ValidDateTime(now)
    ensures |blocks| == 4 && blocks[0] == WriteSlackDivider() && blocks[2] == WriteSlackDivider()
    ensures blocks[1] == MarkdownBlock(HistoryHeader(timeRange, FromTime(timeRange, names, now), GetCurrentDateTime(now))
                                       + TotalLine(TotalWorked(Reversed(workingDays), workedTime, sumHhMm)), None, DefaultAltText)
    ensures blocks[3] == MarkdownBlock(WorkedLines(Reversed(workingDays), workedTime), None, DefaultAltText)
  {
    var fromTime := FromTime(timeRange, names, now);
    var header := HistoryHeader(timeRange, fromTime, GetCurrentDateTime(now));
    var output, total := WorkedTimeLines(Reversed(workingDays), workedTime, sumHhMm);
    header := header + TotalLine(total);
    var headerBlock := WriteSlackMarkdown(header, None, DefaultAltText);
    var outputBlock := WriteSlackMarkdown(output, None, DefaultAltText);
    blocks := [WriteSlackDivider(), headerBlock, WriteSlackDivider(), outputBlock];
  }

  /** A clock record as the range query returns it. */
  datatype ClockRecord = ClockRecord(action: string, dateTime: string)

  function ItemLine(item: ClockRecord): string
  {
    "      • " + Upper(item.action) + ": " + item.dateTime + "\n"
  }

  /** One indented line per clock record, in the order they come. */
  function ItemLines(items: seq<ClockRecord>): string
  {
    if |items| == 0 then "" else ItemLines(items[..|items| - 1]) + ItemLine(items[|items| - 1])
  }

  function DayHeading(day: string): string
  {
    "• *" + DayDate(day) + "*:\n"
  }

  function NoDataLine(day: string): string
  {
    "• *" + DayDate(day) + "*: :warning: No clocking data for this day :warning:\n"
  }

  /** The history of one day: its date and its clock records, or a warning
      when the day has none. */
  function DayOutput(day: string, items: seq<ClockRecord>): string
  {
    if |items| > 0 then DayHeading(day) + ItemLines(items) else NoDataLine(day)
  }

  /** The inner loop of `build_clock_history_message`: the text of one day. */
  method ClockDayOutput(day: string, items: seq<ClockRecord>) returns (output: string)
    ensures output == DayOutput(day, items)
  {
    if |items| > 0 {
      var lines := "";
      var j := 0;
      while j < |items|
        invariant 0 <= j <= |items|
        invariant lines == ItemLines(items[..j])
      {
        assert items[..j + 1][..j] == items[..j];
        lines := lines + ItemLine(items[j]);
        j := j + 1;
      }
      assert items[..j] == items;
      output := DayHeading(day) + lines;
    } else {
      output := NoDataLine(day);
    }
  }

  /** The outputs of the days of `order`, one per day. */
  function DayOutputs(order: seq<string>, clockData: (string, string) -> seq<ClockRecord>): (outs: seq<string>)
    ensures |outs| == |order|
  {
    if |order| == 0 then []
    else
      var day := order[|order| - 1];
      DayOutputs(order[..|order| - 1], clockData) + [DayOutput(day, clockData(day, DayEnd(day)))]
  }

  /** Where group `j` of `n` day outputs ends: ten days on, or at the end. */
  function ChunkEnd(n: int, j: int): int
  {
    if 10 * j + 10 <= n then 10 * j + 10 else n
  }

  /** Group `j`: the outputs of days `10 j` up to `10 j + 9` joined. */
  function Chunk(outs: seq<string>, j: int): string
    requires 0 <= 10 * j <= |outs|
  {
    Concat(outs[10 * j .. ChunkEnd(|outs|, j)])
  }

  /** The day outputs in groups of ten, the last group holding what is left. */
  function Chunks(outs: seq<string>): (chunks: seq<string>)
    ensures |chunks| == (|outs| + 9) / 10
  {
    seq((|outs| + 9) / 10, j requires 0 <= j < (|outs| + 9) / 10 => Chunk(outs, j))
  }

  /** A full group does not change when a day is added after it. */
  lemma ChunkKept(outs: seq<string>, x: string, j: int)
    requires 0 <= j && 10 * j + 10 <= |outs|
    ensures Chunk(outs + [x], j) == Chunk(outs, j)
  {
    assert (outs + [x])[10 * j .. 10 * j + 10] == outs[10 * j .. 10 * j + 10];
  }

  /** The day after a full group opens a group of its own. */
  lemma ChunkOpened(outs: seq<string>, x: string)
    requires |outs| % 10 == 0
    ensures Chunk(outs + [x], |outs| / 10) == x
  {
    var k := |outs|;
    assert 10 * (k / 10) == k;
    assert ChunkEnd(k + 1, k / 10) == k + 1;
    assert (outs + [x])[k .. k + 1] == [x];
    assert [x][..0] == [];
    assert Concat([x]) == "" + x;
  }

  /** Any other day joins the last group. */
  lemma ChunkExtended(outs: seq<string>, x: string)
    requires |outs| % 10 != 0
    ensures Chunk(outs + [x], |outs| / 10) == Chunk(outs, |outs| / 10) + x
  {
    var k := |outs|;
    var lo := 10 * (k / 10);
    var part := (outs + [x])[lo .. k + 1];
    assert part[..|part| - 1] == outs[lo .. k];
  }

  /** Adding one day output either opens a new group (every tenth day) or
      extends the last group. */
  lemma ChunksSnoc(outs: seq<string>, x: string)
    ensures |outs| % 10 == 0 ==> Chunks(outs + [x]) == Chunks(outs) + [x]
    ensures |outs| % 10 != 0 ==>
      |Chunks(outs)| > 0
      && Chunks(outs + [x]) == Chunks(outs)[|Chunks(outs)| - 1 := Chunks(outs)[|Chunks(outs)| - 1] + x]
  {
    var k := |outs|;
    var before, after := Chunks(outs), Chunks(outs + [x]);
    forall j | 0 <= j < k / 10
      ensures after[j] == before[j]
    {
      ChunkKept(outs, x, j);
    }
    if k % 10 == 0 {
      ChunkOpened(outs, x);
      assert after == before + [x];
    } else {
      ChunkExtended(outs, x);
      assert after == before[k / 10 := before[k / 10] + x];
    }
  }

  /** Joining the groups gives back every day output, in order. */
  lemma {:induction false} ConcatChunks(outs: seq<string>)
    ensures Concat(Chunks(outs)) == Concat(outs)
    decreases |outs|
  {
    var n := |outs|;
    if n > 0 {
      var init, x := outs[..n - 1], outs[n - 1];
      assert outs == init + [x];
      ChunksSnoc(init, x);
      ConcatChunks(init);
      var cs := Chunks(init);
      if (n - 1) % 10 == 0 {
        ConcatSnoc(cs, x);
      } else {
        ConcatExtendLast(cs, x);
      }
    }
  }

  lemma ConcatSnoc(parts: seq<string>, x: string)
    ensures Concat(parts + [x]) == Concat(parts) + x
  {
    assert (parts + [x])[..|parts|] == parts;
  }

  /** Extending the last part extends the joined text by the same amount. */
  lemma ConcatExtendLast(parts: seq<string>, x: string)
    requires |parts| > 0
    ensures Concat(parts[|parts| - 1 := parts[|parts| - 1] + x]) == Concat(parts) + x
  {
    var m := |parts|;
    var updated := parts[m - 1 := parts[m - 1] + x];
    assert updated[..m - 1] == parts[..m - 1];
    AppendAssoc(Concat(parts[..m - 1]), parts[m - 1], x);
  }

  /** One step of the grouping loop: a day's output opens a new group on
      every tenth day, otherwise it is appended to the group at
      `outputListElements`, the last one. */
  method AddDayOutput(outputList: seq<string>, outputListElements: int, index: int, output: string,
                      ghost outs: seq<string>)
    returns (list: seq<string>, elements: int)
    requires |outs| == index && outputList == Chunks(outs)
    requires index == 0 ==> outputListElements == 0
    requires index > 0 ==> outputListElements == |outputList| - 1
    ensures list == Chunks(outs + [output]) && elements == |list| - 1
  {
    ChunksSnoc(outs, output);
    list, elements := outputList, outputListElements;
    if |list| == 0 {
      list := list + [output];
    } else if index % 10 == 0 {
      list := list + [output];
      elements := elements + 1;
    } else {
      list := list[elements := list[elements] + output];
    }
  }

  /** The grouping loop of `build_clock_history_message`: a new group is
      opened for the first day and for every tenth day after it, any other
      day is added to the group `output_list_elements` points at. */
  method ClockHistoryChunks(order: seq<string>, clockData: (string, string) -> seq<ClockRecord>)
    returns (outputList: seq<string>)
    ensures outputList == Chunks(DayOutputs(order, clockData))
  {
    outputList := [];
    var outputListElements := 0;
    ghost var outs: seq<string> := [];
    var index := 0;
    while index < |order|
      invariant 0 <= index <= |order|
      invariant outs == DayOutputs(order[..index], clockData)
      invariant outputList == Chunks(outs)
      invariant index == 0 ==> outputListElements == 0
      invariant index > 0 ==> outputListElements == |outputList| - 1
    {
      var day := order[index];
      var output := ClockDayOutput(day, clockData(day, DayEnd(day)));
      DayOutputsSnoc(order, clockData, index);
      outputList, outputListElements := AddDayOutput(outputList, outputListElements, index, output, outs);
      outs := outs + [output];
      index := index + 1;
    }
    assert order[..index] == order;
  }

  /** One markdown block, without image, per text. */
  function MarkdownBlocks(texts: seq<string>): (bs: seq<Json>)
    ensures |bs| == |texts|
  {
    if |texts| == 0 then []
    else MarkdownBlocks(texts[..|texts| - 1]) + [MarkdownBlock(texts[|texts| - 1], None, DefaultAltText)]
  }

  lemma MarkdownBlocksSnoc(texts: seq<string>, j: int)
    requires 0 <= j < |texts|
    ensures MarkdownBlocks(texts[..j + 1]) == MarkdownBlocks(texts[..j]) + [MarkdownBlock(texts[j], None, DefaultAltText)]
  {
    assert texts[..j + 1][..j] == texts[..j];
  }

  lemma {:induction false} MarkdownBlocksIndex(texts: seq<string>, k: int)
    requires 0 <= k < |texts|
    ensures MarkdownBlocks(texts)[k] == MarkdownBlock(texts[k], None, DefaultAltText)
    ensures IsMarkdown(MarkdownBlocks(texts)[k], texts[k], None, DefaultAltText)
    decreases |texts|
  {
    if k < |texts| - 1 {
      MarkdownBlocksIndex(texts[..|texts| - 1], k);
    }
  }

  /** `build_clock_history_message(user_id, time_range)`, with the current
      date-time, the working days of the range, the user's total worked
      time over the range and the clock-record query for the user as
      inputs: three header blocks, then one block per group of ten days. */
  method BuildClockHistoryMessage(timeRange: string, names: RangeNames, now: DateTime, workingDays: seq<string>,
                                  workedTime: string, clockData: (string, string) -> seq<ClockRecord>)
    returns (blocks: seq<Json>)
    requires ValidDateTime(now)
    ensures blocks == [WriteSlackDivider(),
                       MarkdownBlock(HistoryHeader(timeRange, FromTime(timeRange, names, now), GetCurrentDateTime(now))
                                     + TotalLine(workedTime), None, DefaultAltText),
                       WriteSlackDivider()]
                      + MarkdownBlocks(Chunks(DayOutputs(Reversed(workingDays), clockData)))
  {
    var fromTime := FromTime(timeRange, names, now);
    var header := HistoryHeader(timeRange, fromTime, GetCurrentDateTime(now));
    header := header + TotalLine(workedTime);
    var outputList := ClockHistoryChunks(Reversed(workingDays), clockData);
    var headerBlock := WriteSlackMarkdown(header, None, DefaultAltText);
    var head := [WriteSlackDivider(), headerBlock, WriteSlackDivider()];
    blocks := head;
    var j := 0;
    while j < |outputList|
      invariant 0 <= j <= |outputList|
      invariant blocks == head + MarkdownBlocks(outputList[..j])
    {
      var item := WriteSlackMarkdown(outputList[j], None, DefaultAltText);
      MarkdownBlocksSnoc(outputList, j);
      AppendAssoc(head, MarkdownBlocks(outputList[..j]), [item]);
      blocks := blocks + [item];
      j := j + 1;
    }
    assert outputList[..j] == outputList;
  }

  /** Read together, the day groups of the clock history hold every day's
      output once, newest day first. */
  lemma ClockHistoryCoversDays(workingDays: seq<string>, clockData: (string, string) -> seq<ClockRecord>)
    ensures Concat(Chunks(DayOutputs(Reversed(workingDays), clockData))) == Concat(DayOutputs(Reversed(workingDays), clockData))
    ensures |workingDays| > 0 ==> var last := workingDays[|workingDays| - 1];
      DayOutputs(Reversed(workingDays), clockData)[0] == DayOutput(last, clockData(last, DayEnd(last)))
  {
    ConcatChunks(DayOutputs(Reversed(workingDays), clockData));
    if |workingDays| > 0 {
      DayOutputsIndex(Reversed(workingDays), clockData, 0);
      ReversedIndex(workingDays, 0);
    }
  }

  lemma DayOutputsSnoc(order: seq<string>, clockData: (string, string) -> seq<ClockRecord>, i: int)
    requires 0 <= i < |order|
    ensures DayOutputs(order[..i + 1], clockData)
         == DayOutputs(order[..i], clockData) + [DayOutput(order[i], clockData(order[i], DayEnd(order[i])))]
  {
    assert order[..i + 1][..i] == order[..i];
  }

  lemma {:induction false} DayOutputsIndex(order: seq<string>, clockData: (string, string) -> seq<ClockRecord>, k: int)
    requires 0 <= k < |order|
    ensures DayOutputs(order, clockData)[k] == DayOutput(order[k], clockData(order[k], DayEnd(order[k])))
    decreases |order|
  {
    if k < |order| - 1 {
      DayOutputsIndex(order[..|order| - 1], clockData, k);
    }
  }

  const AliasesHeader := Rule + " *ALIASES* " + Rule + "\n\n"
  const NoAliasesWarning := ":warning: No registered aliases found :warning:"
  const AliasUsersQuery := "SELECT DISTINCT user_id FROM " + AliasTable

  function UserNameQuery(userId: Value): string
  {
    "SELECT user_name FROM " + UserTable + " WHERE id='" + ValueText(userId) + "'"
  }

  function UserAliasesQuery(userId: Value): string
  {
    "SELECT alias FROM " + AliasTable + " WHERE user_id='" + ValueText(userId) + "'"
  }

  function AliasItem(alias: Value): string
  {
    "_" + ValueText(alias) + "_, "
  }

  /** The items of a user's aliases in the order the query returns them;
      a row without columns raises IndexError. */
  function AliasItems(rows: seq<Row>): Result<string, DbError>
  {
    if |rows| == 0 then Ok("")
    else
      match AliasItems(rows[..|rows| - 1])
      case Err(e) => Err(e)
      case Ok(items) =>
        var row := rows[|rows| - 1];
        if |row| == 0 then Err(IndexError) else Ok(items + AliasItem(row[0]))
  }

  function AliasOpening(userName: Value): string
  {
    "• *" + ValueText(userName) + "*: [ "
  }

  /** A user's line as written: the opening and the items, cut by the two
      characters of the last `, `, then closed. */
  function UserAliasLine(userName: Value, items: string): string
  {
    var s := AliasOpening(userName) + items;
    s[..|s| - 2] + " ]\n"
  }

  /** The line of one row of the user query: the user's name (the first
      column of the first row of the name query) and their aliases. */
  function AliasLine(execute: Executor, idRow: Row): Result<string, DbError>
  {
    if |idRow| == 0 then Err(IndexError)
    else
      var userId := idRow[0];
      match ReadRows(execute, UserNameQuery(userId))
      case Err(e) => Err(e)
      case Ok(names) =>
        if |names| == 0 || |names[0]| == 0 then Err(IndexError)
        else
          match ReadRows(execute, UserAliasesQuery(userId))
          case Err(e) => Err(e)
          case Ok(aliases) =>
            match AliasItems(aliases)
            case Err(e) => Err(e)
            case Ok(items) => Ok(UserAliasLine(names[0][0], items))
  }

  /** The lines of all users, in the order the user query returns them;
      the first failure stops the report. */
  function AliasLines(execute: Executor, ids: seq<Row>): Result<string, DbError>
  {
    if |ids| == 0 then Ok("")
    else
      match AliasLines(execute, ids[..|ids| - 1])
      case Err(e) => Err(e)
      case Ok(text) =>
        match AliasLine(execute, ids[|ids| - 1])
        case Err(e) => Err(e)
        case Ok(line) => Ok(text + line)
  }

  function AliasesHead(): seq<Json>
  {
    [WriteSlackDivider(), MarkdownBlock(AliasesHeader, None, DefaultAltText), WriteSlackDivider()]
  }

  /** The report `build_get_aliases_message` is meant to return: the three
      header blocks, then the warning when no user has an alias, or one
      block with every user's line. */
  function AliasesMessage(execute: Executor): Result<seq<Json>, DbError>
  {
    match ReadRows(execute, AliasUsersQuery)
    case Err(e) => Err(e)
    case Ok(ids) =>
      if |ids| == 0 then Ok(AliasesHead() + [MarkdownBlock(NoAliasesWarning, None, DefaultAltText)])
      else
        match AliasLines(execute, ids)
        case Err(e) => Err(e)
        case Ok(text) => Ok(AliasesHead() + [MarkdownBlock(text, None, DefaultAltText)])
  }

  lemma AliasItemsSnoc(rows: seq<Row>, j: int)
    requires 0 <= j < |rows|
    ensures AliasItems(rows[..j + 1]) ==
      match AliasItems(rows[..j])
      case Err(e) => Err(e)
      case Ok(items) => if |rows[j]| == 0 then Err(IndexError) else Ok(items + AliasItem(rows[j][0]))
  {
    assert rows[..j + 1][..j] == rows[..j];
  }

  /** A failure on a prefix of the alias rows is the failure of all of them. */
  lemma {:induction false} AliasItemsStopAt(rows: seq<Row>, k: int)
    requires 0 <= k <= |rows| && AliasItems(rows[..k]).Err?
    ensures AliasItems(rows) == AliasItems(rows[..k])
    decreases |rows| - k
  {
    if k < |rows| {
      AliasItemsSnoc(rows, k);
      AliasItemsStopAt(rows, k + 1);
    } else {
      assert rows[..k] == rows;
    }
  }

  lemma AliasLinesSnoc(execute: Executor, ids: seq<Row>, i: int)
    requires 0 <= i < |ids|
    ensures AliasLines(execute, ids[..i + 1]) ==
      match AliasLines(execute, ids[..i])
      case Err(e) => Err(e)
      case Ok(text) =>
        match AliasLine(execute, ids[i])
        case Err(e) => Err(e)
        case Ok(line) => Ok(text + line)
  {
    assert ids[..i + 1][..i] == ids[..i];
  }

  /** A failure on a prefix of the users is the failure of the report. */
  lemma {:induction false} AliasLinesStopAt(execute: Executor, ids: seq<Row>, k: int)
    requires 0 <= k <= |ids| && AliasLines(execute, ids[..k]).Err?
    ensures AliasLines(execute, ids) == AliasLines(execute, ids[..k])
    decreases |ids| - k
  {
    if k < |ids| {
      AliasLinesSnoc(execute, ids, k);
      AliasLinesStopAt(execute, ids, k + 1);
    } else {
      assert ids[..k] == ids;
    }
  }

  /** Cutting the end of a text cuts only its last piece when that piece
      is long enough. */
  lemma CutTwo(prefix: string, piece: string)
    requires |piece| >= 2
    ensures (prefix + piece)[..|prefix + piece| - 2] == prefix + piece[..|piece| - 2]
  {
  }

  /** The loop body of `build_get_aliases_message` for one user row:
      `message` followed by that user's line, or the error raised. */
  method AppendAliasLine(execute: Executor, message: string, idRow: Row) returns (r: Result<string, DbError>)
    ensures AliasLine(execute, idRow).Err? ==> r == Err(AliasLine(execute, idRow).error)
    ensures AliasLine(execute, idRow).Ok? ==> r == Ok(message + AliasLine(execute, idRow).value)
  {
    if |idRow| == 0 {
      return Err(IndexError);
    }
    var userId := idRow[0];
    var names := ReadRows(execute, UserNameQuery(userId));
    if names.Err? {
      return Err(names.error);
    }
    if |names.value| == 0 || |names.value[0]| == 0 {
      return Err(IndexError);
    }
    var userName := names.value[0][0];
    var text := message + AliasOpening(userName);
    var aliases := ReadRows(execute, UserAliasesQuery(userId));
    if aliases.Err? {
      return Err(aliases.error);
    }
    var rows := aliases.value;
    var j := 0;
    while j < |rows|
      invariant 0 <= j <= |rows|
      invariant AliasItems(rows[..j]).Ok?
      invariant text == message + AliasOpening(userName) + AliasItems(rows[..j]).value
    {
      AliasItemsSnoc(rows, j);
      if |rows[j]| == 0 {
        AliasItemsStopAt(rows, j + 1);
        return Err(IndexError);
      }
      AppendAssoc(message + AliasOpening(userName), AliasItems(rows[..j]).value, AliasItem(rows[j][0]));
      text := text + AliasItem(rows[j][0]);
      j := j + 1;
    }
    assert rows[..j] == rows;
    var piece := AliasOpening(userName) + AliasItems(rows).value;
    AppendAssoc(message, AliasOpening(userName), AliasItems(rows).value);
    CutTwo(message, piece);
    text := text[..|text| - 2];
    AppendAssoc(message, piece[..|piece| - 2], " ]\n");
    text := text + " ]\n";
    return Ok(text);
  }

  /** `build_get_aliases_message()`, with the database as the `execute`
      input; an exception the queries raise is the error result. */
  method BuildGetAliasesMessage(execute: Executor) returns (r: Result<seq<Json>, DbError>)
    ensures r == AliasesMessage(execute)
  {
    var dataIds := ReadRows(execute, AliasUsersQuery);
    if dataIds.Err? {
      return Err(dataIds.error);
    }
    var ids := dataIds.value;
    var message := "";
    var headerBlock := WriteSlackMarkdown(AliasesHeader, None, DefaultAltText);
    var blocks := [WriteSlackDivider(), headerBlock, WriteSlackDivider()];
    if |ids| == 0 {
      var warning := WriteSlackMarkdown(NoAliasesWarning, None, DefaultAltText);
      blocks := blocks + [warning];
      return Ok(blocks);
    }
    var i := 0;
    while i < |ids|
      invariant 0 <= i <= |ids|
      invariant AliasLines(execute, ids[..i]) == Ok(message)
    {
      var next := AppendAliasLine(execute, message, ids[i]);
      AliasLinesSnoc(execute, ids, i);
      if next.Err? {
        AliasLinesStopAt(execute, ids, i + 1);
        return Err(next.error);
      }
      message := next.value;
      i := i + 1;
    }
    assert ids[..i] == ids;
    var lines := WriteSlackMarkdown(message, None, DefaultAltText);
    blocks := blocks + [lines];
    return Ok(blocks);
  }

  predicate AllHaveColumns(rows: seq<Row>)
  {
    forall k :: 0 <= k < |rows| ==> |rows[k]| > 0
  }

  /** Each alias between underscores, in query order. */
  function AliasNames(rows: seq<Row>): (names: seq<string>)
    requires AllHaveColumns(rows)
    ensures |names| == |rows|
  {
    seq(|rows|, k requires 0 <= k < |rows| && AllHaveColumns(rows) => "_" + ValueText(rows[k][0]) + "_")
  }

  /** The items are the aliases joined by `, `, with one `, ` after the last. */
  lemma {:induction false} AliasItemsJoin(rows: seq<Row>)
    requires |rows| > 0 && AllHaveColumns(rows)
    ensures AliasItems(rows) == Ok(JoinWith(AliasNames(rows), ", ") + ", ")
    decreases |rows|
  {
    var n := |rows|;
    var v := ValueText(rows[n - 1][0]);
    if n == 1 {
      assert AliasItems(rows[..0]) == Ok("");
      assert AliasItem(rows[0][0]) == "_" + v + "_" + ", ";
      assert AliasNames(rows) == ["_" + v + "_"];
      assert AliasItems(rows) == Ok("" + AliasItem(rows[0][0]));
      assert "" + AliasItem(rows[0][0]) == AliasItem(rows[0][0]);
    } else {
      var init := rows[..n - 1];
      assert AllHaveColumns(init);
      AliasItemsJoin(init);
      assert AliasNames(rows)[..n - 1] == AliasNames(init);
      var j := JoinWith(AliasNames(init), ", ");
      assert AliasItem(rows[n - 1][0]) == "_" + v + "_" + ", ";
      AppendAssoc(j + ", ", "_" + v + "_", ", ");
    }
  }

  /** With at least one alias, a user's line is `• *name*: [ _a1_, _a2_ ]`:
      the cut removes exactly the separator after the last alias. */
  lemma UserLineJoin(userName: Value, rows: seq<Row>)
    requires |rows| > 0 && AllHaveColumns(rows)
    ensures AliasItems(rows).Ok?
    ensures UserAliasLine(userName, AliasItems(rows).value) == AliasOpening(userName) + JoinWith(AliasNames(rows), ", ") + " ]\n"
  {
    AliasItemsJoin(rows);
    var j := JoinWith(AliasNames(rows), ", ");
    AppendAssoc(AliasOpening(userName), j, ", ");
    CutTwo(AliasOpening(userName) + j, ", ");
  }

  /** With no alias the cut eats the opening bracket: the line reads
      `• *name*:  ]`, with two spaces. */
  lemma UserLineWithoutAliases(userName: Value)
    ensures UserAliasLine(userName, "") == "• *" + ValueText(userName) + "*:  ]\n"
  {
    var head := "• *" + ValueText(userName) + "*: ";
    assert AliasOpening(userName) + "" == head + "[ ";
    CutTwo(head, "[ ");
    assert head + "[ "[..0] == head;
  }

  /** Without any aliased user the report is the header and the warning. */
  lemma NoAliasedUsers(execute: Executor)
    requires execute(AliasUsersQuery) == Ok(Rows([]))
    ensures AliasesMessage(execute) == Ok(AliasesHead() + [MarkdownBlock(NoAliasesWarning, None, DefaultAltText)])
    ensures |AliasesMessage(execute).value| == 4
  {
  }
}
