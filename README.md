# Meetup Discord announcer: a Dafny model of the event pass

The announcer runs once, reads a configuration, fetches the group's upcoming
Meetup events and posts Discord webhook messages. For each event it may post
a weekly "sign up" notice, when the event is exactly seven days away, and a
same-day reminder, when the event is today and its rule enables reminders.
On the configured summary day it may also post one digest of the week's
notices. This project models that pass, `main` in `meetupRunner.py`, with its
helpers:

- `get_event_config`: an ordered, first-match-wins substring scan over the
  `events` patterns that skips the `default` key and falls back on it.
- `build_weekly_msg`, `build_reminder_msg` and the digest text.
- `is_summary_day` and the three checks of `validate_config`.
- `publish_message`, which records a message in an ordered log, `Outbox.log`.

Three things are inputs: the configuration (records whose optional keys are
`Option`s), the fetched event list, and today's date as a day ordinal.

Modules:

- `Text` covers decimal digits, Python's `str(int)`, `in` on strings,
  `lower()` on ASCII and `str.join`.
- `Dates` models Python's `date.toordinal()` and `weekday()` (Monday is 0)
  and a strict `YYYY-MM-DD` parse. Its lemmas show that consecutive days have
  consecutive ordinals and that ordinals never collide. So "today + 7 days"
  is ordinal arithmetic, and comparing dates is comparing ordinals.
- `Configuration` holds the config records, validation, the rule lookup (as
  the function `RuleFor` and as the loop `GetEventConfig` proved equal to it)
  and the summary-day test.
- `Messages` holds the event record and the three texts. A missing key is an
  `Err` naming the field, as the source's KeyError would.
- `Publishing` holds the `Outbox` class and its `Publish` method. In a dry run
  a post is only `Logged`. Otherwise the webhook is `Executed`.
- `Runner` holds the specification functions `HandleEvent` (one pass of the
  `try` block, with its date tests in `Scheduled`), `HandleAll` and `RunSpec`.
  It also holds the imperative `ProcessEvent`, `ProcessEvents` and `Run`,
  proved to publish exactly what those functions describe, and the lemmas.

Behaviour of the code that the model keeps:

- The digest collects only the exactly-seven-days-out notices. It is sent as
  the bare header when there are none, for example after a failed fetch.
- `daily` is compared with the lower-cased weekday name as written, so
  `Sunday` never matches.
- A missing template field makes the event be skipped. Nothing is omitted
  from the text.
- A configuration without `discord.summary` passes `validate_config`, which
  reads it with `.get`. But `main` then raises at `config['discord']['summary']`
  before any event is handled (`Aborted(NoSummarySection)`).
- A missing `daily` key aborts the run after the events have been handled.
- A missing `enabled` key aborts it only on the summary day, because the
  `and` on line 136 short-circuits.
- A missing `events` mapping makes every event be skipped.
- In the last seven days of year 9999 (from 9999-12-25 on), adding seven
  days to today overflows, so every event that gets past the date parse and
  the rule lookup is skipped.

## Model

| member | source | states |
|---|---|---|
| `Configuration.ValidationError` | meetupRunner.py:33-42 | `None` exactly when the main webhook and the group are present and, if summary is enabled, its webhook is too; otherwise the first failing check, in the source's order |
| `Configuration.FirstPattern` | meetupRunner.py:90-92 | the index found is the first entry whose non-`default` pattern occurs in the name; `None` means no such entry |
| `Configuration.GetEventConfig` | meetupRunner.py:86-95 | the scan with early return gives `RuleFor`: the first claiming pattern's rule, else the default rule |
| `Configuration.RuleFor` | meetupRunner.py:86-95 | `get_event_config` as a value: the rule of the first entry whose pattern `FirstPattern` finds, else `DefaultRule` (the `default` entry's rule, or the empty rule) |
| `Configuration.FirstMatchWins` | meetupRunner.py:90-92 | when several patterns occur in the name, the first one in configuration order decides the rule |
| `Configuration.DefaultEntry` | meetupRunner.py:95 | the fallback is the rule stored under `default` |
| `Configuration.NoMatchFallsBack` | meetupRunner.py:94-95 | with no claiming pattern the default rule applies, or the empty rule when there is no `default` key; `default` is never matched as a pattern |
| `Configuration.PatternExample` | meetupRunner.py:86-95 | with rules `foo`, `default`: "foobar night" gets `foo`'s rule and "bar night" gets `default`'s |
| `Configuration.IsSummaryDay` | meetupRunner.py:81-84 | `is_summary_day`: the lower-cased English name of today's weekday equals `daily` exactly as configured |
| `Configuration.LowerDayName` | meetupRunner.py:82 | the lower-cased English day names are "monday" to "sunday" |
| `Configuration.SummaryDayByName` | meetupRunner.py:81-84 | the summary day holds exactly when `daily` equals the lower-case name of today's weekday |
| `Configuration.CapitalisedDailyNeverMatches` | meetupRunner.py:84 | a `daily` value containing a capital letter never matches: the configured value is not lower-cased |
| `Configuration.SummaryDayOncePerWeek` | meetupRunner.py:81-84 | after a summary day the next six days are not summary days |
| `Messages.WeeklyMessage` | meetupRunner.py:60-63 | fails exactly when `name` or `link` is missing, naming the first missing one; the text starts with the sign-up lead, the name and the event date's weekday, and ends with the RSVP link in angle brackets, with nothing in between |
| `Messages.ReminderMessage` | meetupRunner.py:65-68 | fails exactly when `local_time`, `name`, `yes_rsvp_count` or `link` is missing, naming the first in template order; the text starts with the time, name and `str` of the count and ends with the sign-up link, with nothing in between |
| `Messages.DigestMessage` | meetupRunner.py:137 | the summary text: the header line followed by the collected notices joined with newlines |
| `Messages.WeeklyMessageWeekLater` | meetupRunner.py:61 | the weekly text depends on the date only through its weekday |
| `Messages.KindsDiffer` | meetupRunner.py:60-68 | neither a reminder nor a digest starts like a weekly notice |
| `Messages.DigestGrows` | meetupRunner.py:137 | the digest of no notices is the bare header; each further notice adds a newline and the notice |
| `Text.ContainsIffOccurs` | meetupRunner.py:91 | the substring test holds exactly when the pattern occurs at some position of the name |
| `Text.Contains` | meetupRunner.py:91 | Python's `pattern in name`: a scan that tries the pattern as a prefix at each position in turn |
| `Text.IntToString` | meetupRunner.py:66 | `str` of the count: a minus sign exactly for negatives, then digits that read back as the magnitude, with no leading zero, and exactly "0" for zero |
| `Text.Lower` | meetupRunner.py:82 | `str.lower()` on ASCII: same length, each capital replaced by the small letter at the same place in the alphabet, every other character kept |
| `Text.Join` | meetupRunner.py:137 | `sep.join(parts)`: the parts in order with `sep` between neighbours, and the empty string for no parts |
| `Text.JoinAppend` | meetupRunner.py:137 | joining one more notice appends the separator and the notice, with no separator before the first |
| `Dates.ParseDate` | meetupRunner.py:112 | an accepted string names a valid calendar date |
| `Dates.ParseFormat` | meetupRunner.py:112 | parsing the zero-padded form of any valid date gives that date back |
| `Dates.FormatParse` | meetupRunner.py:112 | every accepted string is the zero-padded form of the date returned |
| `Dates.ToOrdinal` | meetupRunner.py:120 | ordinals of valid dates lie between 1 and the ordinal of 9999-12-31 |
| `Dates.NextDateOrdinal` | meetupRunner.py:120 | the day after a date has the next ordinal, so adding seven days is adding 7 |
| `Dates.OrdinalInjective` | meetupRunner.py:120 | two valid dates have equal ordinals exactly when they are the same date |
| `Dates.Weekday` | meetupRunner.py:61 | `date.weekday()` of a day ordinal, Monday being 0; always between 0 and 6 |
| `Dates.DayName` | meetupRunner.py:61 | `calendar.day_name` in English, indexed by weekday from Monday |
| `Dates.WeekdayCycle` | meetupRunner.py:61 | weekdays advance by one a day and repeat every seven days |
| `Dates.WeekdayAnchor` | meetupRunner.py:82 | 2024-01-01, ordinal 738886, is a Monday |
| `Publishing.Outbox.Publish` | meetupRunner.py:70-79 | appends one post with the webhook, text and thread id; logged only in a dry run, executed otherwise |
| `Runner.WeeklyStep` | meetupRunner.py:120-124 | the weekly block: nothing unless the event is exactly seven days out; then the weekly notice posted to the main webhook on the rule's thread and collected, or the template's missing field as the error |
| `Runner.Scheduled` | meetupRunner.py:117-130 | the date tests: the overflow of today + 7 as an error, then the weekly block, then the reminder when the rule enables it and the event is today, its missing field ending the event after the weekly post |
| `Runner.HandleEvent` | meetupRunner.py:111-133 | the `try` body: a missing or unparsable `local_date`, a missing `name` or a missing `events` mapping skips the event with nothing published; otherwise the date tests with the matched rule |
| `Runner.HandleAll` | meetupRunner.py:110-133 | the loop: the events in input order, the posts and notices of each appended after those of the events before it |
| `Runner.RunSpec` | meetupRunner.py:97-140 | `validate_config` then `main`: rejection, the KeyError on `summary`, the loop, the reads of `daily` and `enabled`, and the digest as the last post |
| `Runner.ProcessEvent` | meetupRunner.py:110-133 | one loop iteration publishes exactly `HandleEvent`'s posts and returns its notices and the error that stopped it |
| `Runner.ProcessEvents` | meetupRunner.py:110-133 | the loop over the fetched events publishes exactly `HandleAll`'s posts, in input order, and collects exactly its notices |
| `Runner.Run` | meetupRunner.py:97-140 | the run publishes exactly `RunSpec`'s posts, in order, and ends with its status |
| `Runner.WeeklyStepShape` | meetupRunner.py:120-124 | the weekly block posts only for an event seven days out, at most one message, on the given thread; its notice is that message's text; a failed template posts nothing |
| `Runner.ScheduledShape` | meetupRunner.py:117-130 | the two date tests together post at most one message, on the rule's thread, and collect a notice only for a weekly post; a failure posts nothing |
| `Runner.EventShape` | meetupRunner.py:117-130 | an event publishes at most one message, to the main webhook with the matched rule's thread id; its summary notice is that message's text when it is a weekly notice; a skipped event publishes nothing |
| `Runner.CompleteEventOutcome` | meetupRunner.py:119-130 | for a well-formed event: the weekly notice is published and collected iff its date is today + 7; the reminder is published iff its date is today and the rule's `reminder` is true (absent counts as false) |
| `Runner.WeeklyOutcome` | meetupRunner.py:119-124 | for an event with a parsable date, a name and a link, reminder fields present or not: the weekly notice is collected iff the date is today + 7, and then it is the event's only post, to the main webhook on the matched rule's thread |
| `Runner.ReminderOutcome` | meetupRunner.py:119-130 | for an event with a parsable date and a name that is not a week out: the reminder is its only post exactly when the date is today, the rule's `reminder` is true and the template finds `local_time`, `name`, `yes_rsvp_count` and `link`; otherwise it posts nothing |
| `Runner.OnlySevenDaysOut` | meetupRunner.py:120-124 | an event dated other than exactly seven days out (six or eight, say) yields no weekly notice |
| `Runner.HandleAllAppend` | meetupRunner.py:110 | events are handled in input order: the pass over `xs + ys` is the pass over `xs` followed by the pass over `ys` |
| `Runner.SilentEventIsTransparent` | meetupRunner.py:110-133 | an event that yields no posts and no notices can be removed from the list without changing the loop's result |
| `Runner.SkippedEventIsTransparent` | meetupRunner.py:110-133 | an event that raises leaves the run exactly as if it were absent; the other events are still processed |
| `Runner.WeeklyTextsAppend` | meetupRunner.py:122 | the weekly notices of two runs of posts are those of the first then those of the second |
| `Runner.NoticesAreWeeklyPosts` | meetupRunner.py:120-124 | the summary list is exactly the weekly notices published, in publication order |
| `Runner.DigestRule` | meetupRunner.py:135-138 | the digest is sent, after all per-event messages, iff today is the summary day and summary is enabled; it goes to the summary webhook with no thread id, and its text is the header followed by the published weekly notices joined by newlines |
| `Runner.EmptyFetchSendsHeader` | meetupRunner.py:107-138 | with no events, the summary day still sends the bare header |
| `Runner.ScheduledDryRun` | meetupRunner.py:70-72 | in a dry run the date tests post the live posts marked as logged, and collect the same notices |
| `Runner.EventDryRun` | meetupRunner.py:70-72 | in a dry run one event posts its live posts marked as logged, and collects the same notices |
| `Runner.HandleAllDryRun` | meetupRunner.py:70-72 | a dry pass produces the live pass's posts marked as logged, and the same notices |
| `Runner.DryRunOnlyLogs` | meetupRunner.py:70-72 | a dry run publishes the same messages in the same order with the same outcome, and none of them calls a webhook |
| `Runner.EarlyExits` | meetupRunner.py:33-44 | a rejected configuration publishes nothing; a valid one without `summary` aborts before publishing anything |
| `Runner.GameNightOutcome` | meetupRunner.py:110-130 | on Sunday 2024-06-02, "Game Night" on 2024-06-09 gets exactly its weekly notice, to the main webhook without a thread, and that notice is collected |
| `Runner.BookClubOutcome` | meetupRunner.py:110-130 | on the same Sunday, "Book Club" on 2024-06-04 gets neither a notice nor a reminder, even though its rule enables reminders |
| `Runner.ScenarioLoop` | meetupRunner.py:110-133 | the loop over those two events publishes and collects only the Game Night notice |
| `Runner.SundayScenario` | meetupRunner.py:97-140 | on Sunday 2024-06-02 with `daily: sunday`, only the event seven days out gets a notice, and the digest lists only that notice |

## Left out

- The HTTP fetch in `get_events` (meetupRunner.py:46-58) is network I/O. The fetched list is an input, and a failed fetch is the empty list.
- `DiscordWebhook(...).execute()` (meetupRunner.py:75-79) is a foreign network call. A live post is recorded as `Executed`. Its success or failure is not modelled, since the source swallows failures.
- YAML loading, `sys.exit`, `--debug`/`--dry-run` parsing and logging setup (meetupRunner.py:11-31, 142-144) are process and file I/O. A failed validation is the status `Rejected` instead of exit code 1, and the dry-run flag is a parameter.
- `datetime.today()` (meetupRunner.py:82, 104) is the wall clock. Today is a day-ordinal parameter, and both reads are taken to give the same day. A run across midnight could see two different days.
- Logging calls have no effect on behaviour and are left out.
- `calendar.day_name` depends on the locale. The model fixes the English names.
- Dates.ParseDate: accepts only the zero-padded `YYYY-MM-DD` form. `strptime` also accepts a one-digit month or day, a space-padded day and non-ASCII digits, and this model treats those as parse failures.
- Text.Lower: lower-cases only ASCII letters, which is exact for the English day names it is applied to.
- Configuration values are modelled as present or absent, with booleans for `reminder` and `enabled`. Python truthiness of other value types is not modelled. Nor are the TypeError or AttributeError raised by wrongly typed values, such as a rule that is not a mapping or a non-string event name.
- Duplicate keys in a YAML mapping are not modelled. The lookups take the first entry with a key.
