# clockzy core, modelled in Dafny

clockzy is a Slack bot for clocking working time. It lets a user clock `in`, `pause`, `return` and `out`, and asks
for the worked time and the clock history of a day, week or month. It also shows whether another user is
available and lists the registered aliases. A small web app lets users log in with temporary credentials.

This project models the decision and formatting rules of the bot. The database, HTTP, clock and crypto calls are
replaced by inputs. The modules are:

- `Clocking`: which clock action may follow the user's last one (the four-state white-list).
- `Calendar` and `Time`: the `'%Y-%m-%d %H:%M:%S'` date-time strings. They cover formatting and parsing, day
  subtraction, the weekday, the first day of the week or month, differences in a chosen unit, and `"{h}h {m}m"`
  durations. Dates use proleptic Gregorian ordinals, as Python's `datetime` does.
- `SlackMessages`, `BlockBuilder` and `Messages`: the Slack text and block builders. This includes the
  ten-days-per-block grouping loop of the clock history and the alias listing loop.
- `SlackCore` and `Slack`: the two copies of the slash-command argument decoder, the message shape check, and the
  mapping from the HTTP answer to a result code.
- `SlackRequests`: a Slack request object, its command parameters, and its signature check.
- `Database`: the SQL helpers: the raise rule of `run_query`, the SELECT builder loop and the empty-result defaults.
  Query execution is an input (`Executor`).
- `Intratime`: the action-id table, the login token and the credential check.
- `Controller`: the web app's credential check chain.
- `Json`, `Strings`, `Codes` and `Wrappers`: Python dictionaries (kept in insertion order), string helpers, the
  result codes, and `Option`/`Result`.

Python exceptions become `Err` values of a `Result`:

- `ValueError` from `strptime` or `int()`;
- `OverflowError` from date arithmetic;
- `IndexError` from `[0][0]` on a short row;
- `MySQLError`.

A `KeyError` that the source lets a caller trigger on purpose becomes a precondition. There are two: an unknown
stored action in `Clocking`, and an unknown action name in `Intratime`.

Some names the modelled files import are not defined in the versions of the files they import from. The model
takes them as parameters without bodies:

- `date_time_has_expired`, `get_working_days`, `sum_hh_mm_time`, `get_lower_time_from_time_range` and the
  `TODAY`/`WEEK`/`MONTH` names. They are imported from `clockzy.lib.utils.time`, whose modelled `time.py` does not
  define them.
- `calculate_worked_time`, imported from `clockzy.lib.clocking`, whose modelled `__init__.py` does not define it.
- `get_config_object`, `get_clock_data_in_time_range` and `get_last_clock_from_user`. They are imported from
  `clockzy.lib.db.database_interface`, whose modelled file does not define them. `get_last_clock_from_user` is
  taken as the last action, if any, and `get_config_object` as the user's configuration, if any.

`MANAGEMENT_REQUEST` is also a parameter (`clockzy.lib.global_vars` is not part of this model). So are the library
calls `urllib.parse.unquote`, `requests.post` and the HMAC-SHA256 digest.

## Model

| member | source | states |
|---|---|---|
| Clocking.UserCanClockThisAction | src/clockzy/lib/clocking/__init__.py:10-44 | an accepted action carries no message and a refused one always carries one |
| Clocking.NoPreviousClock | src/clockzy/lib/clocking/__init__.py:29-35 | with no previous clock only `in` is accepted; anything else is refused with the sign-an-entry message |
| Clocking.AcceptedIffSuccessor | src/clockzy/lib/clocking/__init__.py:22-44 | after a stored action, an action is accepted iff it is a successor of it in the white-list |
| Clocking.AfterInOrReturn | src/clockzy/lib/clocking/__init__.py:23-40 | after `in` or `return` exactly `pause` and `out` are accepted |
| Clocking.AfterPause | src/clockzy/lib/clocking/__init__.py:24-40 | after `pause` only `return` is accepted |
| Clocking.AfterOut | src/clockzy/lib/clocking/__init__.py:26-40 | after `out` only `in` is accepted |
| Clocking.NoRepeat | src/clockzy/lib/clocking/__init__.py:22-27 | no action may follow itself |
| Clocking.StoredCaseIgnored | src/clockzy/lib/clocking/__init__.py:37 | two stored actions that lower-case alike give the same answer |
| Clocking.RejectionNamesActions | src/clockzy/lib/clocking/__init__.py:40-42 | a refusal after a stored action carries the message naming both actions in upper case |
| Calendar.DaysBeforeYearClosedForm | src/clockzy/lib/utils/time.py:44-45 | the days before a year equal Python's leap-year closed form |
| Calendar.FromOrdinal | src/clockzy/lib/utils/time.py:45 | `date.fromordinal(n)` gives a valid date whose ordinal is `n` |
| Calendar.FromToOrdinal | src/clockzy/lib/utils/time.py:44-45 | every valid date has an ordinal in 1..3652059, and `fromordinal(toordinal(d)) == d` |
| Calendar.OrdinalInjective | src/clockzy/lib/utils/time.py:44-45 | two valid dates with one ordinal are equal |
| Calendar.Weekday | src/clockzy/lib/utils/time.py:59 | `weekday()` lies in 0..6 |
| Calendar.NewYearWeekday | src/clockzy/lib/utils/time.py:59 | 1 January of year `y` has the weekday `(p + p/4 - p/100 + p/400) % 7` with `p = y - 1`, so the numbering is the calendar's, with Monday 0 |
| Time.ParseFormat | src/clockzy/lib/utils/time.py:131-140 | parsing the formatted text of a valid date-time gives it back |
| Time.FormatParse | src/clockzy/lib/utils/time.py:131-140 | the parser accepts only the formatted text of the value it returns |
| Time.FormatDateTimeParts | src/clockzy/lib/utils/time.py:18 | date, a space and clock side by side are the full date-time text |
| Time.GetCurrentDateTime | src/clockzy/lib/utils/time.py:10-20 | the current date-time text parses back to the current instant |
| Time.GetCurrentDate | src/clockzy/lib/utils/time.py:23-30 | the current date with ` 00:00:00` parses to today at midnight |
| Time.DatetimeToStr | src/clockzy/lib/utils/time.py:131-140 | `datetime_to_str(t)` parses back to `t` |
| Time.SubtractDaysToDatetime | src/clockzy/lib/utils/time.py:33-45 | malformed text raises ValueError; otherwise the result keeps the clock part and is `days` days earlier, or OverflowError outside years 1..9999 |
| Time.SubtractDaysDifference | src/clockzy/lib/utils/time.py:33-45 | the difference in days between the shifted date-time and the original is the number of days subtracted |
| Time.GetWeekDay | src/clockzy/lib/utils/time.py:48-59 | ValueError iff the text does not parse; otherwise 0..6 with Monday 0 |
| Time.WeekDayPeriodic | src/clockzy/lib/utils/time.py:33-59 | subtracting seven days keeps the weekday |
| Time.GetFirstWeekDay | src/clockzy/lib/utils/time.py:62-74 | a Monday at midnight, on or at most six days before today |
| Time.GetFirstMonthDay | src/clockzy/lib/utils/time.py:77-88 | today's year and month, day 1, at midnight |
| Time.TruncDiv | src/clockzy/lib/utils/time.py:107-111 | `int(a / b)`: the quotient rounded toward zero |
| Time.GetTimeDifference | src/clockzy/lib/utils/time.py:91-113 | ValueError iff either text does not parse; otherwise the seconds between them divided by the unit's length and truncated toward zero, with any unknown unit counting seconds |
| Time.TimeDifferenceSelf | src/clockzy/lib/utils/time.py:103-113 | a date-time differs from itself by 0 in every unit |
| Time.TimeDifferenceAntisymmetric | src/clockzy/lib/utils/time.py:103-113 | swapping the two date-times negates the difference, in every unit |
| Time.HhMmOfSeconds | src/clockzy/lib/utils/time.py:116-128 | for n >= 0 the text names h hours and m < 60 minutes with `3600h + 60m <= n < 3600h + 60m + 60` |
| SlackMessages.BuildSucessMessage | src/clockzy/lib/slack/slack_messages.py:1-10 | the message is recovered by stripping `:white_check_mark: ` and ` :white_check_mark:` |
| SlackMessages.BuildErrorMessage | src/clockzy/lib/slack/slack_messages.py:13-22 | the message is recovered by stripping `:x: ` and ` :x:` |
| SlackMessages.SucessMessageInjective | src/clockzy/lib/slack/slack_messages.py:10 | different messages give different success texts |
| SlackMessages.ErrorMessageInjective | src/clockzy/lib/slack/slack_messages.py:22 | different messages give different error texts |
| SlackMessages.SuccessIsNotError | src/clockzy/lib/slack/slack_messages.py:10-22 | no success text equals an error text |
| SlackMessages.RegistrationReplies | src/clockzy/lib/slack/slack_messages.py:25-27 | each sign-up reply strips back to its own text, and the three replies are pairwise different |
| BlockBuilder.WriteSlackDivider | src/clockzy/lib/slack/slack_block_builder.py:4-12 | exactly one key, `type`, holding `divider` |
| BlockBuilder.WriteSlackHeader | src/clockzy/lib/slack/slack_block_builder.py:15-27 | keys `type` and `text`: a `header` holding a `plain_text` object with the message verbatim |
| BlockBuilder.MarkdownBlock | src/clockzy/lib/slack/slack_block_builder.py:41-54 | a `section` whose `mrkdwn` text is the message, with an image accessory iff the URL is non-empty |
| BlockBuilder.AccessoryIffImage | src/clockzy/lib/slack/slack_block_builder.py:49-54 | the `accessory` key is present iff the image URL is given and non-empty |
| BlockBuilder.WriteSlackMarkdown | src/clockzy/lib/slack/slack_block_builder.py:30-56 | the block built, then completed in place with the accessory, is the markdown block of the message |
| Messages.BuildSuccessMessage | src/clockzy/lib/messages/slack_messages.py:10-19 | the message is recovered by stripping the `_SUCCESS_` status prefix |
| Messages.BuildErrorMessage | src/clockzy/lib/messages/slack_messages.py:22-31 | the message is recovered by stripping the `_ERROR_` status prefix |
| Messages.StatusSuccessIsNotError | src/clockzy/lib/messages/slack_messages.py:19-31 | no success status text equals an error status text |
| Messages.UserReplies | src/clockzy/lib/messages/slack_messages.py:292-299 | the sign-up and removal successes differ from their failures, and the not-registered reply strips back to its text |
| Messages.BlockTextOutcome | src/clockzy/lib/messages/slack_messages.py:46-48 | a success text starts with the check-mark header and a failure text with the `:x:` header; the two never coincide |
| Messages.BuildBlockMessage | src/clockzy/lib/messages/slack_messages.py:34-55 | divider, markdown of the header, status and description, divider |
| Messages.ClockingImage | src/clockzy/lib/messages/slack_messages.py:70-73 | the image is the `_intratime` one iff the user's configuration enables the integration |
| Messages.BuildSuccessfulClockingMessage | src/clockzy/lib/messages/slack_messages.py:58-81 | divider, markdown of the clocking text with the action's image, divider |
| Messages.BuildWorkedTimeMessage | src/clockzy/lib/messages/slack_messages.py:84-96 | the worked time is recovered between the range wording and the closing timer |
| Messages.RangeWording | src/clockzy/lib/messages/slack_messages.py:94 | the week reads "this week", the month "this month", and any other range verbatim |
| Messages.BuildUserStatusMessage | src/clockzy/lib/messages/slack_messages.py:263-283 | the user name is recovered from the frame of the status the last action gives |
| Messages.UserStatusInjective | src/clockzy/lib/messages/slack_messages.py:273-283 | two status texts are equal iff the status and the name are |
| Messages.AvailabilityIgnoresCase | src/clockzy/lib/messages/slack_messages.py:278-280 | the stored action's case does not change the status |
| Messages.AvailabilityAgreesWithClocking | src/clockzy/lib/messages/slack_messages.py:278-283 | "available" iff the user may clock `out`, "absent" iff the user may clock `return` |
| Messages.FromTime | src/clockzy/lib/messages/slack_messages.py:109-110 | the range start parses, is at midnight and not after now, and is today for the day range |
| Messages.ReversedIndex | src/clockzy/lib/messages/slack_messages.py:121-126 | the days are visited from the last to the first |
| Messages.HistoryNewestFirst | src/clockzy/lib/messages/slack_messages.py:121-125 | the worked-time lines start with the newest day |
| Messages.WorkedTimeLines | src/clockzy/lib/messages/slack_messages.py:117-126 | the loop yields one line per day, newest first, and the running sum from `0h 0m` |
| Messages.BuildTimeHistoryMessage | src/clockzy/lib/messages/slack_messages.py:99-139 | four blocks: divider, header with the total, divider, the day lines |
| Messages.ClockDayOutput | src/clockzy/lib/messages/slack_messages.py:170-177 | a day's heading and one line per clock record, or the no-data warning |
| Messages.Chunks | src/clockzy/lib/messages/slack_messages.py:165-186 | k day outputs make ceil(k/10) groups |
| Messages.ChunksSnoc | src/clockzy/lib/messages/slack_messages.py:180-186 | a day opens a new group every tenth day and otherwise joins the last group |
| Messages.ConcatChunks | src/clockzy/lib/messages/slack_messages.py:165-186 | the groups joined are the day outputs joined, in order |
| Messages.AddDayOutput | src/clockzy/lib/messages/slack_messages.py:180-186 | one loop step keeps the grouping and `output_list_elements == len(list) - 1` |
| Messages.ClockHistoryChunks | src/clockzy/lib/messages/slack_messages.py:162-186 | the loop's list is the grouping of the day outputs in newest-first order |
| Messages.BuildClockHistoryMessage | src/clockzy/lib/messages/slack_messages.py:142-199 | divider, header with the total, divider, then one markdown block per group |
| Messages.ClockHistoryCoversDays | src/clockzy/lib/messages/slack_messages.py:162-199 | the groups hold every day's output, the newest day first |
| Messages.BuildGetAliasesMessage | src/clockzy/lib/messages/slack_messages.py:224-260 | the loop over users and aliases gives the aliases message, or the first error a query or a short row raises |
| Messages.AppendAliasLine | src/clockzy/lib/messages/slack_messages.py:247-256 | one user's pass appends that user's alias line, or fails with its error |
| Messages.NoAliasedUsers | src/clockzy/lib/messages/slack_messages.py:241-243 | with no aliased user, three header blocks and the warning block |
| Messages.UserLineJoin | src/clockzy/lib/messages/slack_messages.py:248-256 | a user line is `• *name*: [ ` and the `_alias_` items joined by `, `, closed by ` ]` |
| Messages.UserLineWithoutAliases | src/clockzy/lib/messages/slack_messages.py:248-256 | with no alias rows the cut removes the opening `[ ` |
| SlackCore.DecodeSlackArgs | src/clockzy/lib/slack/slack_core.py:8-20 | the decoding of the unquoted text |
| SlackCore.Pairs | src/clockzy/lib/slack/slack_core.py:20 | pieces at even places are keys, the next piece their value |
| SlackCore.UnpairedDropped | src/clockzy/lib/slack/slack_core.py:20 | an unpaired last piece is dropped |
| SlackCore.DecodeEncoded | src/clockzy/lib/slack/slack_core.py:18-20 | `k1=v1&...&kn=vn` of pairs without `&` or `=` decodes to those pairs, the last pair winning |
| SlackCore.DecodeDistinctKeys | src/clockzy/lib/slack/slack_core.py:9-20 | with distinct keys each key maps to its value, and there are no other keys |
| SlackCore.LastPairWins | src/clockzy/lib/slack/slack_core.py:20 | a key maps to the value of the last pair naming it |
| SlackCore.RepeatedKeyKeepsLast | src/clockzy/lib/slack/slack_core.py:20 | a repeated key keeps its last value |
| SlackCore.ResponseCode | src/clockzy/lib/slack/slack_core.py:65-78 | 401, 400 and 500 map to their codes and other non-200 codes to UNDEFINED_ERROR; a 200 answer is SUCCESS iff its body is `ok`, else BAD_REQUEST_DATA |
| SlackCore.PayloadFields | src/clockzy/lib/slack/slack_core.py:60 | the payload carries the message under its type and asks for an ephemeral reply |
| SlackCore.PostEphemeralResponseMessage | src/clockzy/lib/slack/slack_core.py:40-78 | INVALID_VALUE iff the message is neither text nor a list opening with a dictionary; otherwise an exception of the post escapes, and an answer gives its code |
| Slack.DecodeSlackArgs | src/clockzy/lib/slack/slack.py:1-14 | the decoding of the unquoted text |
| Slack.SameAsCore | src/clockzy/lib/slack/slack.py:12-14 | both copies of the decoder agree on every input |
| SlackRequests.CommandParameters | src/clockzy/lib/models/slack_request.py:56 | empty text gives no parameters; otherwise the parameters join back with `+` to the text and hold no `+` |
| SlackRequests.CommandParametersOfJoin | src/clockzy/lib/models/slack_request.py:56 | parameters without `+` are split back out of their join |
| SlackRequests.SlackRequest.constructor | src/clockzy/lib/models/slack_request.py:44-60 | every field is stored as given, the text as its parameters |
| SlackRequests.ExpectedSignature | src/clockzy/lib/models/slack_request.py:92-95 | `v0=` followed by the digest of `v0:{ts}:{body}` |
| SlackRequests.SlackRequest.ValidateSignature | src/clockzy/lib/models/slack_request.py:71-101 | the checks run in order (headers, timestamp form, age over 60 s, signature), each failure with its code; a non-ASCII signature raises TypeError |
| SlackRequests.SlackRequest.SignedRequestAccepted | src/clockzy/lib/models/slack_request.py:84-101 | a fresh request signed over its own timestamp and body is accepted |
| SlackRequests.SlackRequest.RefusedBeforeSigning | src/clockzy/lib/models/slack_request.py:81-90 | missing headers, a malformed or a stale timestamp are decided without the digest |
| SlackRequests.SlackRequest.FutureTimestampNotStale | src/clockzy/lib/models/slack_request.py:89-90 | a timestamp from the future is never refused as stale |
| Database.RunQuery | src/clockzy/lib/db/database_interface.py:10-28 | raises iff execution fails or a non-SELECT query affects no row; otherwise the execution's result |
| Database.MixedCaseIsNotSelect | src/clockzy/lib/db/database_interface.py:25 | `Select ...` counts as a non-SELECT query |
| Database.SelectNotRefused | src/clockzy/lib/db/database_interface.py:25-28 | a SELECT that executes is never refused |
| Database.RunQueryGettingStatus | src/clockzy/lib/db/database_interface.py:31-46 | SUCCESS iff `run_query` does not raise, OPERATION_ERROR otherwise |
| Database.GetLastInsertId | src/clockzy/lib/db/database_interface.py:49-67 | the first column of the first row, 0 with no row |
| Database.BuildSelectQuery | src/clockzy/lib/db/database_interface.py:70-90 | the loop then the cut give the SELECT with the conditions joined by ` and ` |
| Database.ClausesJoin | src/clockzy/lib/db/database_interface.py:83-85 | the appended clauses are the conditions joined by ` and `, plus one more ` and ` |
| Database.SelectQueryIsRead | src/clockzy/lib/db/database_interface.py:70-90 | a built query is a SELECT, so `run_query` never refuses it |
| Database.ItemExists | src/clockzy/lib/db/database_interface.py:93-105 | true iff the built query returns at least one row |
| Database.GetDatabaseDataFromObjects | src/clockzy/lib/db/database_interface.py:108-121 | the rows of the built query |
| Database.GetUserObject | src/clockzy/lib/db/database_interface.py:124-149 | None when there is no row; otherwise columns 0-4 of the first row, or IndexError when it is shorter |
| Intratime.GetActionId | src/clockzy/lib/intratime/__init__.py:19-35 | `in` 0, `out` 1, `pause` 2, `return` 3 |
| Intratime.ActionIdRoundTrip | src/clockzy/lib/intratime/__init__.py:28-33 | every id names back its action |
| Intratime.ActionIdsDistinct | src/clockzy/lib/intratime/__init__.py:28-33 | two actions share an id iff they are the same |
| Intratime.ActionIdsCoverClockActions | src/clockzy/lib/intratime/__init__.py:28-33 | the table names exactly the four clock actions |
| Intratime.LoginPayloadFields | src/clockzy/lib/intratime/__init__.py:51 | the login form decodes back to the email and the password |
| Intratime.GetAuthToken | src/clockzy/lib/intratime/__init__.py:38-64 | INTRATIME_CONNECTION_ERROR iff the post raises the builtin `ConnectionError`; any other exception of the post, the connection errors of `requests` among them, escapes; INTRATIME_AUTH_ERROR iff the answer lacks `USER_TOKEN`; otherwise the token |
| Intratime.CheckUserCredentials | src/clockzy/lib/intratime/__init__.py:67-79 | true iff the login gave a token rather than an error code |
| Intratime.CredentialsNeedToken | src/clockzy/lib/intratime/__init__.py:59-79 | the credentials pass iff the answer is a dictionary holding `USER_TOKEN` |
| Controller.CheckCredentials | src/web_app/controller.py:7-24 | no row, then a wrong password, then an expired one are refused in that order, from columns 1 and 2 of the first row; a shorter first row raises IndexError |
| Controller.CredentialsVerdict | src/web_app/controller.py:10-24 | `(True, '')` iff the chain accepts; otherwise `False` and the refusal's text |
| Controller.RefusalsDistinct | src/web_app/controller.py:11-22 | each refusal has its own, non-empty text |
| Controller.VerdictExplained | src/web_app/controller.py:10-24 | the answer is true iff its message is empty |
| Controller.OnlyFirstRowRead | src/web_app/controller.py:14-15 | rows after the first never change the outcome |
| Controller.MissingMessageNamesUser | src/web_app/controller.py:11-12 | the missing-credentials message names the user |
| Controller.ValidateCredentials | src/web_app/controller.py:7-24 | the chain applied to the rows of the select on `user_id` |
| Json.PutGet | src/clockzy/lib/slack/slack_block_builder.py:50 | setting a key changes that key only |
| Strings.SplitJoin | src/clockzy/lib/models/slack_request.py:56 | splitting the join of pieces without the separator gives the pieces back |
| Strings.ParseIntOfIntToString | src/clockzy/lib/models/slack_request.py:85-92 | `int(str(i)) == i` |

## Left out

- I/O is not modelled: the MySQL connection, the HTTP posts to Slack and Intratime, logging, and the Flask views.
  The database, the posts and the clock are inputs.
- `urllib.parse.unquote` is an input function. So is the HMAC-SHA256 digest. `hmac.compare_digest` is equality
  on ASCII texts, and raises TypeError (`SignatureNotAscii`) when either text holds a non-ASCII character;
  its constant-time behaviour is not modelled.
- `time.time()` is a float. `now` is its integer part, which gives the same verdict on integer timestamps.
- SlackRequests.SlackRequest.ValidateSignature: `int()` also accepts surrounding blanks and `_` separators. The
  model parses only an optional sign followed by digits.
- SlackRequests.SlackRequest.ValidateSignature: the model parses a timestamp of any length. In the source, `int()`
  raises ValueError above 4300 digits. A timestamp beyond float range (309 digits or more) makes
  `time.time() - request_timestamp` raise OverflowError. For those the model still returns a code (stale, not
  ASCII, bad signature or success).
- SlackRequests.SlackRequest.constructor: the fields other than the text default to `None` in the source. Here
  they are strings. `text=None` fails in the source, so a text is required.
- The headers are a plain map. Flask's case-insensitive header lookup is not modelled.
- `__str__` of the request (display only) is not modelled.
- Time.ParseDateTime: `strptime` is more lenient than the model. It accepts fields that are not zero-padded, a
  space-padded day, and any run of whitespace (tabs included) where the format has its one space. The model
  accepts only the zero-padded, single-space layout that `strftime` writes.
- Time.FormatParse: because of the strict parser, "accepts only the formatted text" holds for the model, not
  for `strptime`. The ValueError clauses of Time.GetWeekDay, Time.SubtractDaysToDatetime and
  Time.GetTimeDifference also use the strict parser.
- Strings.Lower: `.lower()` and `.upper()` map ASCII letters only. Unicode case mapping is not modelled.
- Codes: `clockzy.lib.handlers.codes` is not part of this model. Each code is a distinct constructor; the integer
  values are not modelled.
- Intratime.CheckUserCredentials: the source compares the token with the integer error codes. A token that
  happened to equal one of those integers would also be refused; the model keeps tokens and codes apart.
- `build_command_help_message` is not modelled: it is a text constant. The same goes for the logger and API
  response texts.
- The collaborators listed above are parameters whose behaviour is not modelled: `calculate_worked_time`,
  `sum_hh_mm_time`, `get_working_days`, `get_lower_time_from_time_range`, `get_last_clock_from_user`,
  `get_clock_data_in_time_range`, `get_config_object` and `date_time_has_expired`.
- Time.HhMmOfSeconds: states the text only for a non-negative count of seconds. Negative counts, where Python's
  floor division rounds down, are not covered.
- Json.Keys, Json.Get: their contracts give only lengths and presence, and no quantified facts. Key lookups are
  stated through Json.PutGet and Json.Lookup2/Json.Lookup3 instead.
- Messages.UserLineWithoutAliases: when a user has no alias row, cutting the last two characters removes the
  opening `[ ` instead of a `, `. The model follows the code. Such a user cannot arise from the `DISTINCT user_id`
  query unless the alias is deleted between the two queries.
